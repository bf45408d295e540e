/** The macro registry of MacroSet.cs: a set of named logic macros with a
    parent link, and the record of every macro call that no set in the chain
    could resolve. Only the root's record is ever written or read. */
module Macros {
  import opened Faults
  import opened Strings
  import opened Ast

  /** One definition read from a macro file, after parsing: the key `name` or
      `name(p1, p2, ...)` and the body expression. */
  datatype Entry = Entry(name: string, params: seq<string>, body: Expr)

  /** The function expression a definition becomes:
      `function name(params) { return body; }`. */
  function MacroFunction(e: Entry): (f: Expr)
    ensures f.Function? && f.id == Some(e.name) && f.params == e.params
  {
    Function(Some(e.name), e.params, [Return(Some(e.body))])
  }

  /** Arity table of one set: macro name to parameter count. */
  type Arities = map<string, nat>

  /** The arity tables of a set and of its ancestors, nearest first. */
  type Chain = seq<Arities>

  /** The chain defines `name` with exactly `n` parameters, looking at the
      nearest set that defines `name` at all (a nearer definition hides an
      ancestor's, whatever the arity). */
  predicate Resolves(chain: Chain, name: string, n: nat)
    decreases |chain|
  {
    |chain| > 0 &&
    if name in chain[0] then chain[0][name] == n else Resolves(chain[1..], name, n)
  }

  /** The one-letter parameter names `a`, `b`, ... of a recorded signature.
      Dafny's `char` has no surrogate code points, so from the first one on
      (more than 55,000 arguments) the model writes `?` where the source
      writes the UTF-16 code unit `97 + i`. */
  function Letter(i: nat): string {
    if 97 + i < 0xD800 then [(97 + i) as char] else "?"
  }

  function Letters(n: nat): (r: seq<string>)
    ensures |r| == n
    ensures forall i :: 0 <= i < n ==> r[i] == Letter(i)
  {
    if n == 0 then [] else Letters(n - 1) + [Letter(n - 1)]
  }

  /** The record kept for an unresolved call: `name(self, a, b, ...)`, one
      letter per argument. */
  function Signature(name: string, n: nat): (r: string)
    ensures |name| + 6 <= |r| && r[..|name|] == name
    ensures r[|name|..|name| + 5] == "(self" && r[|r| - 1] == ')'
  {
    var inner := Join(", ", ["self"] + Letters(n));
    JoinStartsWithFirst(", ", ["self"] + Letters(n));
    var r := name + "(" + inner + ")";
    assert r[..|name|] == name;
    assert r[|name|..|name| + 5] == "(" + inner[..4];
    r
  }

  /** A joined list starts with its first part. */
  lemma JoinStartsWithFirst(sep: string, parts: seq<string>)
    requires |parts| > 0
    ensures |parts[0]| <= |Join(sep, parts)| && Join(sep, parts)[..|parts[0]|] == parts[0]
  {
    if |parts| > 1 {
      assert Join(sep, parts) == parts[0] + (sep + Join(sep, parts[1..]));
    }
  }

  /** The records of calls with one and with two arguments. */
  lemma ShortSignatures(name: string)
    ensures Signature(name, 1) == name + "(self, a)"
    ensures Signature(name, 2) == name + "(self, a, b)"
  {
    assert Letters(1) == ["a"] && Letters(2) == ["a", "b"];
    assert ["self"] + Letters(1) == ["self", "a"];
    assert ["self"] + Letters(2) == ["self", "a", "b"];
    assert Join(", ", ["b"]) == "b";
    assert Join(", ", ["a", "b"]) == "a, b";
    var one, two := "self, a", "self, a, b";
    assert Join(", ", ["self", "a"]) == one;
    assert Join(", ", ["self", "a", "b"]) == two;
    Associative(name, "(", one);
    Associative(name, "(" + one, ")");
    Associative(name, "(", two);
    Associative(name, "(" + two, ")");
  }

  /** `Has(name, n, force)` on a chain whose root has recorded `missing`: either
      a fault for a blank name, or whether the name counts as found together with
      the root's record afterwards. */
  function Probe(chain: Chain, missing: set<string>, name: string, n: nat, force: bool)
    : (r: Result<(bool, set<string>)>)
    ensures r.Ok? ==> missing <= r.value.1
  {
    if IsBlank(name) then Err(InvalidArgument("macro"))
    else if Resolves(chain, name, n) then Ok((true, missing))
    else if force then Ok((true, missing + {Signature(name, n)}))
    else Ok((false, missing))
  }

  /** A set that defines `name` decides the lookup alone: whatever its
      ancestors define, even under the same name with another arity, gives the
      same answer and the same record. */
  lemma LocalDefinitionDecides(here: Arities, above1: Chain, above2: Chain,
                               missing: set<string>, name: string, n: nat, force: bool)
    requires name in here
    ensures Probe([here] + above1, missing, name, n, force) == Probe([here] + above2, missing, name, n, force)
    ensures !IsBlank(name) ==>
              Probe([here] + above1, missing, name, n, force).Ok? &&
              (Probe([here] + above1, missing, name, n, force).value.0 <==> here[name] == n || force)
  {
    assert ([here] + above1)[0] == here && ([here] + above2)[0] == here;
  }

  /** A nearer definition with another arity hides a matching ancestor. */
  lemma ShadowingExample()
    ensures !Resolves([map["f" := 1], map["f" := 2]], "f", 2)
    ensures Resolves([map["g" := 1], map["f" := 2]], "f", 2)
    ensures Probe([map["f" := 1], map["f" := 2]], {}, "f", 2, false) == Ok((false, {}))
  {
    assert "f" !in map["g" := 1];
    assert !IsBlank("f") by { assert !IsWhiteSpace("f"[0]); }
  }

  /** With `force`, a non-blank name is always found. */
  lemma ForcedProbeFinds(chain: Chain, missing: set<string>, name: string, n: nat)
    requires !IsBlank(name)
    ensures Probe(chain, missing, name, n, true).Ok?
    ensures Probe(chain, missing, name, n, true).value.0
  {
  }

  /** An ancestor probe (no `force`) never records anything. */
  lemma UnforcedProbeRecordsNothing(chain: Chain, missing: set<string>, name: string, n: nat)
    ensures Probe(chain, missing, name, n, false).Ok? ==>
              Probe(chain, missing, name, n, false).value.1 == missing
  {
  }

  /** Whatever a probe records is the signature of the probed call, and only
      when the chain does not define it with that arity. */
  lemma RecordsOnlyUnresolved(chain: Chain, missing: set<string>, name: string, n: nat, force: bool, s: string)
    requires Probe(chain, missing, name, n, force).Ok?
    requires s in Probe(chain, missing, name, n, force).value.1 && s !in missing
    ensures s == Signature(name, n) && force && !Resolves(chain, name, n)
  {
  }

  /** Asking twice for the same name and arity records it once. */
  lemma ProbeIdempotent(chain: Chain, missing: set<string>, name: string, n: nat, force: bool)
    requires Probe(chain, missing, name, n, force).Ok?
    ensures var once := Probe(chain, missing, name, n, force).value;
            Probe(chain, once.1, name, n, force) == Ok(once)
  {
  }

  lemma {:induction false} JoinAppend(sep: string, xs: seq<string>, y: string)
    requires |xs| > 0
    ensures Join(sep, xs + [y]) == Join(sep, xs) + sep + y
  {
    if |xs| > 1 {
      assert (xs + [y])[1..] == xs[1..] + [y];
      JoinAppend(sep, xs[1..], y);
    } else {
      assert xs + [y] == [xs[0], y];
      assert [xs[0], y][1..] == [y];
    }
  }

  lemma {:induction false} ParameterListLength(n: nat)
    ensures |Join(", ", ["self"] + Letters(n))| == 4 + 3 * n
  {
    if n > 0 {
      ParameterListLength(n - 1);
      assert ["self"] + Letters(n) == (["self"] + Letters(n - 1)) + [Letter(n - 1)];
      JoinAppend(", ", ["self"] + Letters(n - 1), Letter(n - 1));
    } else {
      assert ["self"] + Letters(0) == ["self"];
    }
  }

  /** A signature is the name plus six characters `(self)` plus three per
      argument (`, a`). */
  lemma SignatureLength(name: string, n: nat)
    ensures |Signature(name, n)| == |name| + 6 + 3 * n
  {
    ParameterListLength(n);
  }

  /** One name called with two different argument counts leaves two records. */
  lemma DifferentAritiesDifferentRecords(name: string, n1: nat, n2: nat)
    requires n1 != n2
    ensures Signature(name, n1) != Signature(name, n2)
  {
    SignatureLength(name, n1);
    SignatureLength(name, n2);
  }

  lemma SignatureShort()
    ensures Signature("foo", 0) == "foo(self)"
    ensures Signature("foo", 1) == "foo(self, a)"
  {
    assert Letter(0) == "a";
    assert Letters(1) == ["a"];
    assert ["self"] + Letters(1) == ["self", "a"];
    assert Join(", ", ["self", "a"]) == "self, a";
  }

  lemma SignatureLong()
    ensures Signature("foo", 3) == "foo(self, a, b, c)"
  {
    assert Letter(0) == "a" && Letter(1) == "b" && Letter(2) == "c";
    assert Letters(3) == ["a", "b", "c"];
    assert ["self"] + Letters(3) == ["self", "a", "b", "c"];
    assert Join(", ", ["c"]) == "c";
    assert Join(", ", ["b", "c"]) == "b, c";
    assert Join(", ", ["a", "b", "c"]) == "a, b, c";
    assert Join(", ", ["self", "a", "b", "c"]) == "self, a, b, c";
  }

  /** `foo` called with one and then with three arguments, defined nowhere in the
      chain: two records, `foo(self, a)` and `foo(self, a, b, c)`; the arity
      range is not merged into one entry. */
  lemma TwoCallSitesTwoRecords(chain: Chain, missing: set<string>)
    requires !Resolves(chain, "foo", 1) && !Resolves(chain, "foo", 3)
    ensures var first := Probe(chain, missing, "foo", 1, true);
            first.Ok? && Probe(chain, first.value.1, "foo", 3, true) ==
              Ok((true, missing + {"foo(self, a)", "foo(self, a, b, c)"}))
  {
    assert !IsBlank("foo") by { assert !IsWhiteSpace("foo"[0]); }
    SignatureShort();
    SignatureLong();
    var first := Probe(chain, missing, "foo", 1, true);
    assert first == Ok((true, missing + {"foo(self, a)"}));
    assert Probe(chain, first.value.1, "foo", 3, true) ==
           Ok((true, missing + {"foo(self, a)"} + {"foo(self, a, b, c)"}));
    assert missing + {"foo(self, a)"} + {"foo(self, a, b, c)"} == missing + {"foo(self, a)", "foo(self, a, b, c)"};
  }

  // ---------------------------------------------------------------------------
  // The registry object.

  class MacroSet {
    /** null for the parameterless constructor. */
    const typename: Option<string>
    const parent: MacroSet?
    /** Distance to the root, for termination of the walks up the chain. */
    ghost const depth: nat
    /** Macro names in definition order. */
    var keys: seq<string>
    var macros: map<string, Entry>
    /** Sorted record of unresolved calls; only the root's is used. */
    var missing: set<string>

    ghost predicate Linked()
      decreases depth
    {
      parent != null ==> parent.depth < depth && parent.Linked()
    }

    /** This set and all its ancestors. */
    ghost function Chain(): set<MacroSet>
      requires Linked()
      ensures this in Chain()
      decreases depth
    {
      {this} + (if parent == null then {} else parent.Chain())
    }

    /** Every key is defined once, and the definitions are exactly the keys. */
    ghost predicate Valid()
      reads this
    {
      && (forall i, j :: 0 <= i < j < |keys| ==> keys[i] != keys[j])
      && (forall k :: k in macros <==> k in keys)
      && (forall k :: k in macros ==> macros[k].name == k)
    }

    /** `new MacroSet()`. */
    constructor Unnamed()
      ensures typename == None && parent == null && Linked()
      ensures keys == [] && macros == map[] && missing == {}
    {
      typename := None;
      parent := null;
      depth := 0;
      keys := [];
      macros := map[];
      missing := {};
    }

    /** `new MacroSet(typename, parent)`. */
    constructor (typename: string, parent: MacroSet?)
      requires !IsBlank(typename)
      requires parent != null ==> parent.Linked()
      ensures this.typename == Some(typename) && this.parent == parent && Linked()
      ensures keys == [] && macros == map[] && missing == {}
    {
      this.typename := Some(typename);
      this.parent := parent;
      depth := if parent == null then 0 else parent.depth + 1;
      keys := [];
      macros := map[];
      missing := {};
    }

    /** The topmost ancestor. */
    function Root(): (r: MacroSet)
      requires Linked()
      ensures r.parent == null && r in Chain()
      decreases depth
    {
      if parent == null then this else parent.Root()
    }

    /** `TypeName`: the type name, or the empty string. */
    function TypeName(): string {
      if typename.Some? then typename.value else ""
    }

    /** The arity tables from this set up to the root. */
    function View(): (v: Chain)
      requires Linked()
      reads Chain()`macros
      ensures |v| > 0 && v[0] == Arities()
      decreases depth
    {
      [Arities()] + (if parent == null then [] else parent.View())
    }

    function Arities(): (a: Arities)
      reads this`macros
      ensures a.Keys == macros.Keys
    {
      map k | k in macros :: |macros[k].params|
    }

    /** `Missing`: the root's record in ascending ordinal order. */
    function Missing(): (r: seq<string>)
      requires Linked()
      reads Root()`missing
      ensures Ascending(r)
      ensures forall s :: s in r <==> s in Root().missing
    {
      SortedFacts(Root().missing);
      Sorted(Root().missing)
    }

    /** `Macros`: the definitions as function expressions, in definition order. */
    function Macros(): (r: seq<Expr>)
      requires Valid()
      reads this
      ensures |r| == |keys|
      ensures forall i :: 0 <= i < |keys| ==> r[i] == MacroFunction(macros[keys[i]])
    {
      var ks, ms := keys, macros;
      seq(|ks|, i requires 0 <= i < |ks| && ks[i] in ms => MacroFunction(ms[ks[i]]))
    }

    /** `Wrapper`: `class TypeName(ParentTypeName):` holding `__init__(state)`
        and then every macro in definition order. */
    function Wrapper(): (w: Stmt)
      requires Valid()
      reads this
      ensures w.ClassDecl? && w.classId == Some(TypeName())
      ensures w.superClass.Some? <==> parent != null
      ensures parent != null ==> w.superClass == Some(Identifier(parent.TypeName()))
      ensures |w.methods| == |keys| + 1 && w.methods[0] == InitFunction()
      ensures w.methods[1..] == Macros()
    {
      ClassDecl(Some(TypeName()),
                if parent != null then Some(Identifier(parent.TypeName())) else None,
                [InitFunction()] + Macros())
    }

    /** Records one definition (MacroSet.cs:122-140): the name is appended to
        `keys` before the dictionary insertion, which fails for a name already
        defined. */
    method Define(e: Entry) returns (r: Result<()>)
      modifies this`keys, this`macros
      ensures keys == old(keys) + [e.name]
      ensures r.Ok? <==> e.name !in old(macros)
      ensures r.Ok? ==> macros == old(macros)[e.name := e]
      ensures r.Err? ==> macros == old(macros) && r.fault.InvalidArgument?
      ensures r.Ok? && old(Valid()) ==> Valid()
    {
      keys := keys + [e.name];
      if e.name in macros {
        return Err(InvalidArgument("An item with the same key has already been added."));
      }
      macros := macros[e.name := e];
      return Ok(());
    }

    /** `Has(name, args, force)`: found when this set defines `name` (then only
        the arity decides) or, otherwise, an ancestor has it (asked without
        recording); an unresolved lookup with `force` records the signature in
        the root's set and counts as found. */
    method Has(name: string, args: nat, force: bool) returns (r: Result<bool>)
      requires Linked()
      modifies Root()`missing
      ensures var p := Probe(old(View()), old(Root().missing), name, args, force);
              && (p.Ok? ==> r == Ok(p.value.0) && Root().missing == p.value.1)
              && (p.Err? ==> r == Err(p.fault) && Root().missing == old(Root().missing))
      decreases depth
    {
      if IsBlank(name) {
        return Err(InvalidArgument("macro"));
      }
      ghost var view := View();
      var found: bool;
      if name in macros {
        found := |macros[name].params| == args;
      } else if parent != null {
        assert view[1..] == parent.View();
        var above := parent.Has(name, args, false);
        assert above == Ok(Resolves(view[1..], name, args));
        found := above == Ok(true);
      } else {
        found := false;
      }
      assert found == Resolves(view, name, args);
      assert Root().missing == old(Root().missing);
      if !found && force {
        var root := Root();
        root.missing := root.missing + {Signature(name, args)};
        found := true;
      }
      return Ok(found);
    }

    /** `Has(name, force)`: a lookup with no arguments. */
    method HasValue(name: string, force: bool) returns (r: Result<bool>)
      requires Linked()
      modifies Root()`missing
      ensures var p := Probe(old(View()), old(Root().missing), name, 0, force);
              && (p.Ok? ==> r == Ok(p.value.0) && Root().missing == p.value.1)
              && (p.Err? ==> r == Err(p.fault) && Root().missing == old(Root().missing))
    {
      r := Has(name, 0, force);
    }

    /** Defines the entries of a new set one after the other; the first name
        defined twice stops the loop with a fault. */
    method DefineAll(entries: seq<Entry>) returns (r: Result<()>)
      requires keys == [] && macros == map[]
      modifies this`keys, this`macros
      ensures r.Err? <==> !Distinct(entries)
      ensures r.Err? ==> r.fault.InvalidArgument?
      ensures r.Ok? ==> Valid() && keys == Names(entries)
      ensures r.Ok? ==> forall i :: 0 <= i < |entries| ==> macros[entries[i].name] == entries[i]
    {
      var i := 0;
      while i < |entries|
        invariant 0 <= i <= |entries|
        invariant keys == Names(entries[..i])
        invariant Distinct(entries[..i])
        invariant Valid()
        invariant forall j :: 0 <= j < i ==> macros[entries[j].name] == entries[j]
      {
        ghost var before := macros;
        var ok := Define(entries[i]);
        if ok.Err? {
          assert entries[i].name in Names(entries[..i]);
          DistinctPrefix(entries, i + 1);
          return Err(ok.fault);
        }
        assert entries[i].name !in Names(entries[..i]);
        DistinctExtend(entries, i);
        DefinedExtend(before, entries, i);
        i := i + 1;
      }
      assert entries[..i] == entries;
      return Ok(());
    }
  }

  /** The constructor every wrapper class starts with:
      `def __init__(self, state): super().__init__(state)`. */
  function InitFunction(): Expr {
    Function(Some("__init__"), ["state"],
             [ExprStmt(Call(Member(Call(Identifier("super"), []), "__init__"), [Identifier("state")]))])
  }

  /** The definition-building part of `CreateAsync`: a new set under `parent`,
      filled with the entries in order; a blank type name or a name defined twice
      is a fault. */
  method Create(typename: string, parent: MacroSet?, entries: seq<Entry>) returns (r: Result<MacroSet>)
    requires parent != null ==> parent.Linked()
    ensures r.Err? <==> IsBlank(typename) || !Distinct(entries)
    ensures r.Ok? ==> fresh(r.value) && r.value.Valid() && r.value.Linked()
    ensures r.Ok? ==> r.value.parent == parent && r.value.TypeName() == typename
    ensures r.Ok? ==> r.value.missing == {}
    ensures r.Ok? ==> r.value.keys == Names(entries)
    ensures r.Ok? ==> forall i :: 0 <= i < |entries| ==> r.value.macros[entries[i].name] == entries[i]
  {
    if IsBlank(typename) {
      return Err(InvalidArgument("typename"));
    }
    var result := new MacroSet(typename, parent);
    var ok := result.DefineAll(entries);
    if ok.Err? {
      return Err(ok.fault);
    }
    return Ok(result);
  }

  function Names(entries: seq<Entry>): (r: seq<string>)
    ensures |r| == |entries|
    ensures forall i :: 0 <= i < |entries| ==> r[i] == entries[i].name
  {
    seq(|entries|, i requires 0 <= i < |entries| => entries[i].name)
  }

  /** No name is defined twice. */
  predicate Distinct(entries: seq<Entry>) {
    forall i, j :: 0 <= i < j < |entries| ==> entries[i].name != entries[j].name
  }

  /** Defining the next entry keeps the earlier entries' definitions. */
  lemma DefinedExtend(macros: map<string, Entry>, entries: seq<Entry>, i: nat)
    requires i < |entries| && entries[i].name !in macros
    requires forall j :: 0 <= j < i ==> entries[j].name in macros && macros[entries[j].name] == entries[j]
    ensures forall j :: 0 <= j < i + 1 ==> macros[entries[i].name := entries[i]][entries[j].name] == entries[j]
  {
  }

  /** A name not yet defined keeps the prefix free of repeats. */
  lemma DistinctExtend(entries: seq<Entry>, i: nat)
    requires i < |entries| && Distinct(entries[..i]) && entries[i].name !in Names(entries[..i])
    ensures Distinct(entries[..i + 1])
    ensures Names(entries[..i + 1]) == Names(entries[..i]) + [entries[i].name]
  {
    var prefix := entries[..i + 1];
    forall j, k | 0 <= j < k < i + 1 ensures prefix[j].name != prefix[k].name {
      if k == i {
        assert prefix[j].name == Names(entries[..i])[j];
      } else {
        assert prefix[j] == entries[..i][j] && prefix[k] == entries[..i][k];
      }
    }
  }

  lemma DistinctPrefix(entries: seq<Entry>, k: nat)
    requires k <= |entries| && !Distinct(entries[..k])
    ensures !Distinct(entries)
  {
    var i, j :| 0 <= i < j < k && entries[..k][i].name == entries[..k][j].name;
    assert entries[i].name == entries[j].name;
  }
}
