/** The stub file of the macro base class (MacroGenerator.cs): one placeholder
    method per unresolved macro call, written through the indenting Python
    writer, and the wiring of the two game macro sets under one base set. */
module Stubs {
  import opened Faults
  import opened Strings
  import opened Python
  import opened Macros

  /** A missing macro: its name and how many arguments its calls pass, at least
      `argsMin` and at most `argsMax`. */
  datatype Stub = Stub(name: string, argsMin: nat, argsMax: nat)

  /** The declaration of parameter `i`: its letter, typed `Any`, with a `None`
      default from the `argsMin`-th parameter on. */
  function Declaration(i: nat, argsMin: nat): string {
    Letter(i) + ": Any" + (if i >= argsMin then " = None" else "")
  }

  /** The parameters after `self`, each preceded by `, `. */
  function Parameters(argsMin: nat, count: nat): string
    decreases count
  {
    if count == 0 then "" else Parameters(argsMin, count - 1) + ", " + Declaration(count - 1, argsMin)
  }

  const Body := "raise NotImplementedError"

  /** The line written for one stub: the body follows the colon on the same
      line, as nothing ends the line before it. */
  function StubText(s: Stub): (r: string)
    ensures |r| > 0 && r[|r| - 1] == '\n'
    ensures NoLineFeed(s.name) ==> NoLineFeed(r[..|r| - 1])
  {
    var line := "def " + s.name + "(self" + Parameters(s.argsMin, s.argsMax) + "):" + Body;
    StubLineNoLineFeed(s);
    assert (line + "\n")[..|line|] == line;
    line + "\n"
  }

  /** A stub's line holds no line feed of its own when its name holds none. */
  lemma StubLineNoLineFeed(s: Stub)
    ensures NoLineFeed(s.name) ==>
              NoLineFeed("def " + s.name + "(self" + Parameters(s.argsMin, s.argsMax) + "):" + Body)
  {
    if NoLineFeed(s.name) {
      ParametersNoLineFeed(s.argsMin, s.argsMax);
      NoLineFeedAppend("def ", s.name);
      NoLineFeedAppend("def " + s.name, "(self");
      NoLineFeedAppend("def " + s.name + "(self", Parameters(s.argsMin, s.argsMax));
      NoLineFeedAppend("def " + s.name + "(self" + Parameters(s.argsMin, s.argsMax), "):");
      NoLineFeedAppend("def " + s.name + "(self" + Parameters(s.argsMin, s.argsMax) + "):", Body);
    }
  }

  /** The lines of all stubs, in the given order. */
  function StubsText(stubs: seq<Stub>): string
    decreases |stubs|
  {
    if stubs == [] then "" else StubsText(stubs[..|stubs| - 1]) + StubText(stubs[|stubs| - 1])
  }

  /** The same lines, each indented `indent` levels. */
  function IndentedStubs(indent: int, stubs: seq<Stub>): string
    decreases |stubs|
  {
    if stubs == [] then ""
    else IndentedStubs(indent, stubs[..|stubs| - 1]) + Spaces(4 * indent) + StubText(stubs[|stubs| - 1])
  }

  predicate NoLineFeed(s: string) {
    forall i :: 0 <= i < |s| ==> s[i] != '\n'
  }

  predicate HasDefault(declaration: string) {
    |declaration| >= 7 && declaration[|declaration| - 7..] == " = None"
  }

  // ---------------------------------------------------------------------------
  // What the text says.

  /** A parameter is optional exactly from the `argsMin`-th on. */
  lemma DefaultIffOptional(i: nat, argsMin: nat)
    ensures HasDefault(Declaration(i, argsMin)) <==> i >= argsMin
  {
    var plain := Letter(i) + ": Any";
    assert |plain| == 6;
    if i >= argsMin {
      assert Declaration(i, argsMin) == plain + " = None";
    } else {
      assert Declaration(i, argsMin) == plain;
    }
  }

  /** Python refuses a parameter without a default after one with a default;
      the stubs never write one. */
  lemma DefaultsTrail(argsMin: nat, i: nat, j: nat)
    requires i <= j
    requires HasDefault(Declaration(i, argsMin))
    ensures HasDefault(Declaration(j, argsMin))
  {
    DefaultIffOptional(i, argsMin);
    DefaultIffOptional(j, argsMin);
  }

  lemma {:induction false} ParametersNoLineFeed(argsMin: nat, count: nat)
    ensures NoLineFeed(Parameters(argsMin, count))
    decreases count
  {
    if count > 0 {
      ParametersNoLineFeed(argsMin, count - 1);
      var d := Declaration(count - 1, argsMin);
      assert Letter(count - 1)[0] != '\n';
      assert NoLineFeed(d);
      NoLineFeedAppend(Parameters(argsMin, count - 1) + ", ", d);
      NoLineFeedAppend(Parameters(argsMin, count - 1), ", ");
    }
  }

  lemma NoLineFeedAppend(a: string, b: string)
    requires NoLineFeed(a) && NoLineFeed(b)
    ensures NoLineFeed(a + b)
  {
    assert forall i :: 0 <= i < |b| ==> (a + b)[|a| + i] == b[i];
  }

  /** A stub is a single line: written at the start of a line it gets the
      indentation once, and ends the line. */
  lemma StubIsOneLine(indent: int, s: Stub)
    requires NoLineFeed(s.name)
    ensures Layout(true, indent, StubText(s)) == Spaces(4 * indent) + StubText(s)
    ensures AtStartAfter(true, StubText(s))
  {
    var line := "def " + s.name + "(self" + Parameters(s.argsMin, s.argsMax) + "):" + Body;
    StubLineNoLineFeed(s);
    assert StubText(s) == line + "\n" + "";
    LayoutLine(indent, line, "");
    assert Layout(true, indent, "") == "";
  }

  /** The stub section, written from the start of a line, is one indented
      line per stub, in order. */
  lemma {:induction false} StubsAreLines(indent: int, stubs: seq<Stub>)
    requires forall k :: 0 <= k < |stubs| ==> NoLineFeed(stubs[k].name)
    ensures Layout(true, indent, StubsText(stubs)) == IndentedStubs(indent, stubs)
    ensures AtStartAfter(true, StubsText(stubs))
    decreases |stubs|
  {
    if stubs != [] {
      var init := stubs[..|stubs| - 1];
      var last := stubs[|stubs| - 1];
      var before, line := StubsText(init), StubText(last);
      assert forall k :: 0 <= k < |init| ==> init[k] == stubs[k];
      StubsAreLines(indent, init);
      StubIsOneLine(indent, last);
      calc {
        Layout(true, indent, StubsText(stubs));
        Layout(true, indent, before + line);
        { LayoutAppend(true, indent, before, line); }
        Layout(true, indent, before) + Layout(true, indent, line);
        IndentedStubs(indent, init) + (Spaces(4 * indent) + line);
        { Associative(IndentedStubs(indent, init), Spaces(4 * indent), line); }
        IndentedStubs(indent, stubs);
      }
      AtStartAfterAppend(true, before, line);
      assert line != [];
    }
  }

  lemma ParametersExample()
    ensures Parameters(1, 2) == ", a: Any, b: Any = None"
  {
    assert Letter(0) == "a" && Letter(1) == "b";
    assert Declaration(0, 1) == "a" + ": Any" + "";
    assert "a" + ": Any" + "" == "a: Any";
    assert Declaration(1, 1) == "b" + ": Any" + " = None";
    assert "b" + ": Any" + " = None" == "b: Any = None";
    assert Parameters(1, 0) == "";
    assert Parameters(1, 1) == "" + ", " + "a: Any";
    assert "" + ", " + "a: Any" == ", a: Any";
    assert Parameters(1, 2) == ", a: Any" + ", " + "b: Any = None";
    assert ", a: Any" + ", " + "b: Any = None" == ", a: Any, b: Any = None";
  }

  /** A call `has(x)` and a call `has(x, y)` give a stub whose second
      parameter is optional. */
  lemma StubExample(s: Stub)
    requires s == Stub("has", 1, 2)
    ensures StubText(s) == "def has(self, a: Any, b: Any = None" + "):" + Body + "\n"
  {
    ParametersExample();
    assert "def " + "has" + "(self" + ", a: Any, b: Any = None" == "def has(self, a: Any, b: Any = None";
  }

  // ---------------------------------------------------------------------------
  // Writing the stubs.

  /** `WriteAsync(piece)`, seen as extending the text `text` written since the
      output was `out0` and the writer's state at line start was `nl0`. */
  method Put(w: PythonWriter, piece: string, ghost nl0: bool, ghost out0: string, ghost w0: string,
             ghost text: string)
    requires w.Valid()
    requires w.output == out0 + Layout(nl0, w.indent, text)
    requires w.written == w0 + text
    requires w.newLine == AtStartAfter(nl0, text)
    modifies w`newLine, w`output, w`written, w`pad
    ensures w.Valid()
    ensures w.output == out0 + Layout(nl0, w.indent, text + piece)
    ensures w.written == w0 + (text + piece)
    ensures w.newLine == AtStartAfter(nl0, text + piece)
  {
    w.WriteText(piece);
    LayoutAppend(nl0, w.indent, text, piece);
    Associative(out0, Layout(nl0, w.indent, text), Layout(AtStartAfter(nl0, text), w.indent, piece));
    Associative(w0, text, piece);
    AtStartAfterAppend(nl0, text, piece);
  }

  lemma AtStartAfterAppend(atStart: bool, a: string, b: string)
    ensures AtStartAfter(AtStartAfter(atStart, a), b) == AtStartAfter(atStart, a + b)
  {
    if b != [] {
      assert (a + b)[|a + b| - 1] == b[|b| - 1];
    } else {
      assert a + b == a;
    }
  }

  /** The writer has sent `out0` followed by the layout of `text`, written
      from the line state `nl0` after `w0`. */
  ghost predicate Wrote(w: PythonWriter, nl0: bool, out0: string, w0: string, text: string)
    reads w
  {
    && w.Valid()
    && w.output == out0 + Layout(nl0, w.indent, text)
    && w.written == w0 + text
    && w.newLine == AtStartAfter(nl0, text)
  }

  /** Parameter `i` (MacroGenerator.cs:94-95). */
  method PutParameter(w: PythonWriter, i: nat, argsMin: nat, ghost nl0: bool, ghost out0: string, ghost w0: string,
                      ghost pre: string)
    requires Wrote(w, nl0, out0, w0, pre + Parameters(argsMin, i))
    modifies w`newLine, w`output, w`written, w`pad
    ensures Wrote(w, nl0, out0, w0, pre + Parameters(argsMin, i + 1))
  {
    ghost var text := pre + Parameters(argsMin, i);
    var declared := ", " + Letter(i) + ": Any";
    ParametersStep(pre, argsMin, i);
    Put(w, declared, nl0, out0, w0, text);
    if i >= argsMin {
      Put(w, " = None", nl0, out0, w0, text + declared);
    }
  }

  lemma ParametersStep(pre: string, argsMin: nat, i: nat)
    ensures i >= argsMin ==> pre + Parameters(argsMin, i + 1)
                             == (pre + Parameters(argsMin, i) + (", " + Letter(i) + ": Any")) + " = None"
    ensures i < argsMin ==> pre + Parameters(argsMin, i + 1) == pre + Parameters(argsMin, i) + (", " + Letter(i) + ": Any")
  {
    var p, l := Parameters(argsMin, i), Letter(i);
    var d := ", " + l + ": Any";
    var n: string := if i >= argsMin then " = None" else "";
    calc {
      Parameters(argsMin, i + 1);
      (p + ", ") + ((l + ": Any") + n);
      { Associative(p + ", ", l + ": Any", n); }
      ((p + ", ") + (l + ": Any")) + n;
      { Associative(p, ", ", l + ": Any"); Associative(", ", l, ": Any"); }
      (p + d) + n;
    }
    calc {
      pre + ((p + d) + n);
      { Associative(pre, p + d, n); }
      (pre + (p + d)) + n;
      { Associative(pre, p, d); }
      ((pre + p) + d) + n;
    }
    if i < argsMin {
      assert ((pre + p) + d) + n == (pre + p) + d;
    }
  }

  /** The body after the colon (MacroGenerator.cs:99-101): the indentation is
      raised and lowered again around it, which does not show, as the body
      does not start a line. */
  method PutBody(w: PythonWriter, ghost nl0: bool, ghost out0: string, ghost w0: string, ghost text: string)
    requires Wrote(w, nl0, out0, w0, text)
    requires !AtStartAfter(nl0, text)
    modifies w`newLine, w`output, w`written, w`pad, w`indent
    ensures Wrote(w, nl0, out0, w0, text + (Body + "\n")) && w.indent == old(w.indent)
  {
    w.indent := w.indent + 1;
    w.WriteText(Body + "\n");
    LineEnd(w.indent, Body, "");
    LineEnd(w.indent - 1, Body, "");
    assert Body + "\n" + "" == Body + "\n";
    assert Layout(true, w.indent, "") == [] && Layout(true, w.indent - 1, "") == [];
    w.indent := w.indent - 1;
    LayoutAppend(nl0, w.indent, text, Body + "\n");
    Associative(out0, Layout(nl0, w.indent, text), Body + "\n");
    Associative(w0, text, Body + "\n");
    AtStartAfterAppend(nl0, text, Body + "\n");
  }

  /** One iteration of the stub loop (MacroGenerator.cs:91-101), after the
      text `text`. */
  method EmitStub(w: PythonWriter, s: Stub, ghost nl0: bool, ghost out0: string, ghost w0: string,
                  ghost text: string)
    requires Wrote(w, nl0, out0, w0, text)
    modifies w`newLine, w`output, w`written, w`pad, w`indent
    ensures Wrote(w, nl0, out0, w0, text + StubText(s)) && w.indent == old(w.indent)
  {
    var head := "def " + s.name + "(self";
    Put(w, head, nl0, out0, w0, text);
    ghost var pre := text + head;
    assert Parameters(s.argsMin, 0) == [];
    assert pre + Parameters(s.argsMin, 0) == pre;
    var i := 0;
    while i < s.argsMax
      invariant 0 <= i <= s.argsMax && w.indent == old(w.indent)
      invariant Wrote(w, nl0, out0, w0, pre + Parameters(s.argsMin, i))
    {
      PutParameter(w, i, s.argsMin, nl0, out0, w0, pre);
      i := i + 1;
    }
    ghost var params := pre + Parameters(s.argsMin, s.argsMax);
    Put(w, "):", nl0, out0, w0, params);
    assert (params + "):")[|params + "):"| - 1] == ':';
    PutBody(w, nl0, out0, w0, params + "):");
    StubTextSplit(text, s);
  }

  lemma StubTextSplit(text: string, s: Stub)
    ensures text + StubText(s)
            == ((text + ("def " + s.name + "(self")) + Parameters(s.argsMin, s.argsMax) + "):") + (Body + "\n")
  {
    var h, p := "def " + s.name + "(self", Parameters(s.argsMin, s.argsMax);
    var x := (h + p) + "):";
    calc {
      text + StubText(s);
      text + ((x + Body) + "\n");
      { Associative(x, Body, "\n"); }
      text + (x + (Body + "\n"));
      { Associative(text, x, Body + "\n"); }
      (text + x) + (Body + "\n");
      { Associative(text, h + p, "):"); Associative(text, h, p); }
      (((text + h) + p) + "):") + (Body + "\n");
    }
  }

  /** The stub section (MacroGenerator.cs:87-104): one level deeper than the
      surrounding code, each missing macro in turn. */
  method EmitStubs(w: PythonWriter, stubs: seq<Stub>)
    requires w.Valid()
    modifies w`newLine, w`output, w`written, w`pad, w`indent
    ensures w.Valid() && w.indent == old(w.indent)
    ensures w.written == old(w.written) + StubsText(stubs)
    ensures w.output == old(w.output) + Layout(old(w.newLine), old(w.indent) + 1, StubsText(stubs))
    ensures old(w.newLine) && (forall k :: 0 <= k < |stubs| ==> NoLineFeed(stubs[k].name))
            ==> w.output == old(w.output) + IndentedStubs(old(w.indent) + 1, stubs)
  {
    ghost var nl0, out0, w0 := w.newLine, w.output, w.written;
    w.indent := w.indent + 1;
    assert Layout(nl0, w.indent, "") == "" && out0 + "" == out0 && w0 + "" == w0;
    EmitEach(w, stubs, nl0, out0, w0);
    w.indent := w.indent - 1;
    if nl0 && (forall k :: 0 <= k < |stubs| ==> NoLineFeed(stubs[k].name)) {
      StubsAreLines(old(w.indent) + 1, stubs);
    }
  }

  /** The loop of the stub section, at a fixed indentation. */
  method EmitEach(w: PythonWriter, stubs: seq<Stub>, ghost nl0: bool, ghost out0: string, ghost w0: string)
    requires Wrote(w, nl0, out0, w0, "")
    modifies w`newLine, w`output, w`written, w`pad, w`indent
    ensures Wrote(w, nl0, out0, w0, StubsText(stubs)) && w.indent == old(w.indent)
  {
    var i := 0;
    while i < |stubs|
      invariant 0 <= i <= |stubs| && w.indent == old(w.indent)
      invariant Wrote(w, nl0, out0, w0, StubsText(stubs[..i]))
    {
      EmitStub(w, stubs[i], nl0, out0, w0, StubsText(stubs[..i]));
      StubsTextStep(stubs, i);
      i := i + 1;
    }
    assert stubs[..i] == stubs;
  }

  lemma StubsTextStep(stubs: seq<Stub>, i: nat)
    requires i < |stubs|
    ensures StubsText(stubs[..i + 1]) == StubsText(stubs[..i]) + StubText(stubs[i])
  {
    assert stubs[..i + 1][..i] == stubs[..i];
  }

  // ---------------------------------------------------------------------------
  // The helpers that follow the stubs (MacroGenerator.cs:106-114).

  /** A module-level helper that logic `true` and `false` print as: its name
      and the value it returns. */
  datatype Helper = Helper(name: string, result: bool)

  /** The helpers as the generator writes them: `never` returns `True`. */
  const HelpersAsWritten: seq<Helper> := [Helper("always", true), Helper("never", true)]

  /** The helpers as their names promise. */
  const Helpers: seq<Helper> := [Helper("always", true), Helper("never", false)]

  /** The value a call of the helper named `name` returns, if there is one. */
  function Invoke(helpers: seq<Helper>, name: string): (r: Option<bool>)
    ensures r.Some? <==> exists k :: 0 <= k < |helpers| && helpers[k].name == name
    decreases |helpers|
  {
    if helpers == [] then None
    else if helpers[0].name == name then Some(helpers[0].result)
    else
      var r := Invoke(helpers[1..], name);
      assert forall k :: 1 <= k < |helpers| ==> helpers[k] == helpers[1..][k - 1];
      assert r.Some? ==> exists k :: 0 <= k < |helpers[1..]| && helpers[1..][k].name == name;
      r
  }

  /** The Python text of a helper. */
  function HelperText(h: Helper): string {
    "def " + h.name + "(_: MacrosBase):\n    return " + (if h.result then "True" else "False") + "\n"
  }

  // ---------------------------------------------------------------------------
  // Wiring (MacroGenerator.cs:9-11, 34-39).

  class MacroGenerator {
    /** `MacrosBase`: the root of both game sets. */
    const macrosBase: MacroSet
    var macrosOot: MacroSet?
    var macrosMm: MacroSet?

    ghost predicate Valid()
      reads this, macrosBase
    {
      macrosBase.parent == null && macrosBase.Linked()
    }

    constructor ()
      ensures Valid() && fresh(macrosBase)
      ensures macrosBase.TypeName() == "MacrosBase" && macrosBase.missing == {}
      ensures macrosOot == null && macrosMm == null
    {
      assert !IsWhiteSpace("MacrosBase"[0]);
      macrosBase := new MacroSet("MacrosBase", null);
      macrosOot := null;
      macrosMm := null;
    }

    /** `GenerateAsync` without the output: the set `Macros{game}` under
        `MacrosBase`, filled with the game's definitions. */
    method Generate(game: string, entries: seq<Entry>) returns (r: Result<MacroSet>)
      requires Valid()
      ensures r.Err? <==> IsBlank("Macros" + game) || !Distinct(entries)
      ensures r.Ok? ==> fresh(r.value) && r.value.Valid() && r.value.Linked()
      ensures r.Ok? ==> r.value.parent == macrosBase && r.value.Root() == macrosBase
      ensures r.Ok? ==> r.value.TypeName() == "Macros" + game && r.value.keys == Names(entries)
    {
      r := Create("Macros" + game, macrosBase, entries);
    }

    /** `GenerateOotAsync`. */
    method GenerateOot(entries: seq<Entry>) returns (r: Result<()>)
      requires Valid()
      modifies this`macrosOot
      ensures Valid()
      ensures r.Ok? <==> Distinct(entries)
      ensures r.Ok? ==> macrosOot != null && fresh(macrosOot) && macrosOot.Linked()
      ensures r.Ok? ==> macrosOot.Root() == macrosBase && macrosOot.TypeName() == "MacrosOoT"
      ensures r.Err? ==> macrosOot == old(macrosOot)
    {
      var created := Generate("OoT", entries);
      assert !IsBlank("Macros" + "OoT") by { assert ("Macros" + "OoT")[0] == 'M'; }
      if created.Err? {
        return Err(created.fault);
      }
      macrosOot := created.value;
      return Ok(());
    }

    /** `GenerateMmAsync`. */
    method GenerateMm(entries: seq<Entry>) returns (r: Result<()>)
      requires Valid()
      modifies this`macrosMm
      ensures Valid()
      ensures r.Ok? <==> Distinct(entries)
      ensures r.Ok? ==> macrosMm != null && fresh(macrosMm) && macrosMm.Linked()
      ensures r.Ok? ==> macrosMm.Root() == macrosBase && macrosMm.TypeName() == "MacrosMM"
      ensures r.Err? ==> macrosMm == old(macrosMm)
    {
      var created := Generate("MM", entries);
      assert !IsBlank("Macros" + "MM") by { assert ("Macros" + "MM")[0] == 'M'; }
      if created.Err? {
        return Err(created.fault);
      }
      macrosMm := created.value;
      return Ok(());
    }
  }

  /** An unresolved call from either game lands in the base set's record. */
  method SharedRecord(g: MacroGenerator, name: string, args: nat) returns (r: Result<bool>)
    requires g.Valid() && g.macrosOot != null && g.macrosOot.Linked() && g.macrosOot.Root() == g.macrosBase
    modifies g.macrosBase`missing
    ensures !IsBlank(name) ==> r == Ok(true)
    ensures !IsBlank(name) && !Resolves(old(g.macrosOot.View()), name, args)
            ==> g.macrosBase.missing == old(g.macrosBase.missing) + {Signature(name, args)}
  {
    r := g.macrosOot.Has(name, args, true);
  }
}
