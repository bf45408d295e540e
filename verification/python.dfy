/** The writer that feeds generated Python to the `black` formatter
    (PythonWriter.cs): an indentation state machine in front of the
    formatter's standard input, and the formatter's command line. */
module Python {
  import opened Faults
  import opened Strings

  /** `n` spaces; none for a negative count, as the countdown loop runs zero
      times then. */
  function Spaces(n: int): (r: string)
    ensures |r| == if n > 0 then n else 0
    ensures forall i :: 0 <= i < |r| ==> r[i] == ' '
    decreases if n > 0 then n else 0
  {
    if n <= 0 then [] else [' '] + Spaces(n - 1)
  }

  /** What the writer sends on for the characters `s`, starting at the start
      of a line when `atStart` holds, with `Indent` fixed at `indent`: every
      character written at the start of a line, a line feed included, is
      preceded by `4 * indent` spaces. */
  function Layout(atStart: bool, indent: int, s: string): string
    decreases |s|
  {
    if s == [] then []
    else (if atStart then Spaces(4 * indent) else []) + [s[0]] + Layout(s[0] == '\n', indent, s[1..])
  }

  /** Whether the writer is at the start of a line after writing `s`. */
  function AtStartAfter(atStart: bool, s: string): bool {
    if s == [] then atStart else s[|s| - 1] == '\n'
  }

  /** The characters of `out` whose mark in `pad` is clear: the output with
      the inserted spaces deleted. */
  function Kept(out: string, pad: seq<bool>): string
    requires |pad| == |out|
  {
    if out == [] then []
    else Kept(out[..|out| - 1], pad[..|pad| - 1]) + (if pad[|pad| - 1] then [] else [out[|out| - 1]])
  }

  /** `pad` marks only spaces of `out`, and the unmarked characters are
      `written`. */
  ghost predicate Padded(out: string, pad: seq<bool>, written: string) {
    && |pad| == |out|
    && OnlySpaces(out, pad)
    && Kept(out, pad) == written
  }

  /** Every character of `out` marked in `pad` is a space. */
  ghost predicate OnlySpaces(out: string, pad: seq<bool>)
    requires |pad| == |out|
  {
    out == [] || (OnlySpaces(out[..|out| - 1], pad[..|pad| - 1]) && (pad[|pad| - 1] ==> out[|out| - 1] == ' '))
  }

  /** Sending an inserted space, or a written character. */
  lemma PaddedStep(out: string, pad: seq<bool>, written: string, c: char, b: bool)
    requires Padded(out, pad, written)
    requires b ==> c == ' '
    ensures Padded(out + [c], pad + [b], if b then written else written + [c])
  {
    assert (out + [c])[..|out|] == out;
    assert (pad + [b])[..|pad|] == pad;
  }

  class PythonWriter {
    /** `Indent`: the indentation level, set by the callers. */
    var indent: int
    /** The writer is at the start of a line. */
    var newLine: bool
    /** What has been sent to the formatter. */
    var output: string
    /** The characters written by the callers. */
    ghost var written: string
    /** Which characters of `output` are inserted indentation. */
    ghost var pad: seq<bool>

    /** Deleting the inserted spaces from the output gives exactly the
        characters written, and the writer is at the start of a line exactly
        when nothing or a line feed was written last. */
    ghost predicate Valid()
      reads this
    {
      && Padded(output, pad, written)
      && newLine == AtStartAfter(true, written)
    }

    constructor ()
      ensures Valid() && indent == 0 && newLine && output == [] && written == []
    {
      indent := 0;
      newLine := true;
      output := [];
      written := [];
      pad := [];
    }

    /** `Write(char)` and `WriteAsync(char)`, which follow the same rules. */
    method Write(c: char)
      requires Valid()
      modifies this`newLine, this`output, this`written, this`pad
      ensures Valid()
      ensures output == old(output) + (if old(newLine) then Spaces(4 * indent) else []) + [c]
      ensures written == old(written) + [c]
      ensures newLine == (c == '\n')
    {
      if newLine {
        newLine := false;
        var i := indent * 4;
        while i > 0
          invariant i <= (if indent * 4 > 0 then indent * 4 else 0)
          invariant output == old(output) + Spaces(4 * indent - (if i > 0 then i else 0))
          invariant Padded(output, pad, written)
          invariant written == old(written) && !newLine
          decreases i
        {
          PaddedStep(output, pad, written, ' ', true);
          SpacesStep(4 * indent - i);
          Associative(old(output), Spaces(4 * indent - i), [' ']);
          output := output + [' '];
          pad := pad + [true];
          i := i - 1;
        }
      }
      PaddedStep(output, pad, written, c, false);
      output := output + [c];
      pad := pad + [false];
      written := written + [c];
      if c == '\n' {
        newLine := true;
      }
    }

    /** `Write(string)` of the base writer: each character through
        `Write(char)`. */
    method WriteText(s: string)
      requires Valid()
      modifies this`newLine, this`output, this`written, this`pad
      ensures Valid()
      ensures output == old(output) + Layout(old(newLine), indent, s)
      ensures written == old(written) + s
      ensures newLine == AtStartAfter(old(newLine), s)
    {
      var i := 0;
      ghost var target := old(output) + Layout(old(newLine), indent, s);
      while i < |s|
        invariant 0 <= i <= |s| && Valid()
        invariant output + Layout(newLine, indent, s[i..]) == target
        invariant written == old(written) + s[..i]
        invariant newLine == AtStartAfter(old(newLine), s[..i])
      {
        ghost var step := (if newLine then Spaces(4 * indent) else []) + [s[i]];
        ghost var rest := Layout(s[i] == '\n', indent, s[i + 1..]);
        LayoutCons(newLine, indent, s, i);
        ghost var before := output;
        assert before + (step + rest) == target;
        Write(s[i]);
        assert output == before + step;
        Associative(before, step, rest);
        PrefixStep(old(newLine), s, i);
        assert output + Layout(newLine, indent, s[i + 1..]) == target;
        assert written == old(written) + s[..i + 1];
        i := i + 1;
      }
      assert s[i..] == [] && s[..i] == s;
    }
  }

  lemma PrefixStep(atStart: bool, s: string, i: nat)
    requires i < |s|
    ensures s[..i + 1] == s[..i] + [s[i]]
    ensures AtStartAfter(atStart, s[..i + 1]) == (s[i] == '\n')
  {
    assert s[..i + 1] == s[..i] + [s[i]];
  }

  lemma SpacesStep(n: int)
    requires n >= 0
    ensures Spaces(n) + [' '] == Spaces(n + 1)
  {
    if n > 0 {
      SpacesStep(n - 1);
    }
  }

  /** One character of `s` at position `i`, then the rest. */
  lemma LayoutCons(atStart: bool, indent: int, s: string, i: nat)
    requires i < |s|
    ensures Layout(atStart, indent, s[i..])
            == (if atStart then Spaces(4 * indent) else []) + [s[i]] + Layout(s[i] == '\n', indent, s[i + 1..])
  {
    assert s[i..][1..] == s[i + 1..];
  }

  /** Writing two texts one after the other is writing their concatenation. */
  lemma {:induction false} LayoutAppend(atStart: bool, indent: int, a: string, b: string)
    ensures Layout(atStart, indent, a + b)
            == Layout(atStart, indent, a) + Layout(AtStartAfter(atStart, a), indent, b)
    decreases |a|
  {
    if a == [] {
      assert a + b == b;
    } else {
      var pre := if atStart then Spaces(4 * indent) else [];
      var ab := a + b;
      var next := a[0] == '\n';
      assert ab != [] && ab[0] == a[0] && ab[1..] == a[1..] + b;
      assert AtStartAfter(next, a[1..]) == AtStartAfter(atStart, a) by {
        if a[1..] != [] {
          assert a[1..][|a[1..]| - 1] == a[|a| - 1];
        }
      }
      var x := Layout(next, indent, a[1..]);
      var y := Layout(AtStartAfter(atStart, a), indent, b);
      calc {
        Layout(atStart, indent, ab);
        pre + [a[0]] + Layout(next, indent, a[1..] + b);
        { LayoutAppend(next, indent, a[1..], b); }
        pre + [a[0]] + (x + y);
        (pre + [a[0]] + x) + y;
      }
    }
  }

  /** A line of text that holds no line feed is written after the line's
      indentation when it starts a line; the line feed that ends it returns
      the writer to the start of a line. */
  lemma {:induction false} LayoutLine(indent: int, line: string, rest: string)
    requires forall i :: 0 <= i < |line| ==> line[i] != '\n'
    ensures Layout(true, indent, line + "\n" + rest)
            == Spaces(4 * indent) + line + "\n" + Layout(true, indent, rest)
  {
    var s := line + "\n" + rest;
    if line == [] {
      assert s == "\n" + rest;
      assert s[1..] == rest && s[0] == '\n';
    } else {
      assert s[0] == line[0] && s[1..] == line[1..] + "\n" + rest;
      LineEnd(indent, line[1..], rest);
      assert line == [line[0]] + line[1..];
    }
  }

  /** Inside a line nothing is inserted until the line feed. */
  lemma {:induction false} LineEnd(indent: int, line: string, rest: string)
    requires forall i :: 0 <= i < |line| ==> line[i] != '\n'
    ensures Layout(false, indent, line + "\n" + rest) == line + "\n" + Layout(true, indent, rest)
    decreases |line|
  {
    var s := line + "\n" + rest;
    if line == [] {
      assert s == "\n" + rest;
      assert s[1..] == rest;
    } else {
      assert s[0] == line[0] && s[1..] == line[1..] + "\n" + rest;
      LineEnd(indent, line[1..], rest);
      assert line == [line[0]] + line[1..];
    }
  }

  /** Inside a line nothing is inserted. */
  lemma {:induction false} MidLine(indent: int, s: string)
    requires forall i :: 0 <= i < |s| ==> s[i] != '\n'
    ensures Layout(false, indent, s) == s
    decreases |s|
  {
    if s != [] {
      MidLine(indent, s[1..]);
    }
  }

  /** At indentation level zero nothing is inserted at all. */
  lemma {:induction false} NoIndentNoChange(atStart: bool, s: string)
    ensures Layout(atStart, 0, s) == s
    decreases |s|
  {
    if s != [] {
      NoIndentNoChange(s[0] == '\n', s[1..]);
    }
  }

  lemma LayoutExample()
    ensures Layout(true, 1, "a\n\nb") == "    a\n    \n    b"
  {
    var last := Layout(true, 1, "b");
    assert last == "    b" by {
      assert Layout(false, 1, "") == "";
    }
    assert "\nb" == "" + "\n" + "b";
    LayoutLine(1, "", "b");
    var middle := Layout(true, 1, "\nb");
    assert middle == "    \n" + last;
    assert "a\n\nb" == "a" + "\n" + "\nb";
    LayoutLine(1, "a", "\nb");
    assert Layout(true, 1, "a\n\nb") == "    a\n" + middle;
  }

  // ---------------------------------------------------------------------------
  // The formatter's command line.

  /** `PythonWriterSettings`. */
  datatype Settings = Settings(
    blackVersion: Option<string>,
    file: Option<string>,
    lineLength: int,
    targetVersion: Option<string>,
    quiet: bool,
    skipFirstLine: bool,
    skipStringNormalization: bool,
    skipMagicTrailingComma: bool)

  /** `new PythonWriterSettings()`. */
  const DefaultSettings := Settings(None, None, 0, None, true, false, false, false)

  /** The settings every generator uses (GeneratorBase.cs). */
  const GeneratorSettings := DefaultSettings.(lineLength := 120, targetVersion := Some("py38"))

  function Flag(present: bool, flag: string): seq<string> {
    if present then [flag] else []
  }

  function FlagWithValue(value: Option<string>, flag: string): seq<string> {
    if value.Some? then [flag, value.value] else []
  }

  /** `GetArguments(settings, path)`, where `fileName` stands for
      `Path.GetFileName(path)`: a negative line length is refused; otherwise
      each present setting contributes its flag, in a fixed order. */
  function Arguments(s: Settings, fileName: Option<string>): (r: Result<seq<string>>)
    ensures r.Err? <==> s.lineLength < 0
    ensures r.Err? ==> r.fault == ArgumentOutOfRange
  {
    if s.lineLength < 0 then Err(ArgumentOutOfRange)
    else
      Ok(FlagWithValue(s.blackVersion, "--required-version")
         + (FlagWithValue(if s.file.Some? then s.file else fileName, "--stdin-filename")
         + (FlagWithValue(if s.lineLength > 0 then Some(NatToString(s.lineLength)) else None, "--line-length")
         + (FlagWithValue(s.targetVersion, "--target-version")
         + (Flag(s.quiet, "--quiet")
         + (Flag(s.skipFirstLine, "--skip-source-first-line")
         + (Flag(s.skipStringNormalization, "--skip-string-normalization")
         + Flag(s.skipMagicTrailingComma, "--skip-magic-trailing-comma"))))))))
  }

  /** The whole argument list of the formatter process: the arguments, then
      `-` to read standard input. */
  function CommandLine(s: Settings, fileName: Option<string>): (r: Result<seq<string>>)
    ensures r.Err? <==> s.lineLength < 0
    ensures r.Ok? ==> |r.value| > 0 && r.value[|r.value| - 1] == "-"
  {
    var args :- Arguments(s, fileName);
    Ok(args + ["-"])
  }

  // Reading a command line back, to show that it determines the settings.

  /** The settings as the formatter sees them. */
  datatype Seen = Seen(
    blackVersion: Option<string>,
    file: Option<string>,
    lineLength: nat,
    targetVersion: Option<string>,
    quiet: bool,
    skipFirstLine: bool,
    skipStringNormalization: bool,
    skipMagicTrailingComma: bool)

  /** What the formatter is told for the settings `s`: the explicit file name
      wins over the one of the path; a line length of 0 is not passed. */
  function Expected(s: Settings, fileName: Option<string>): Seen
    requires s.lineLength >= 0
  {
    Seen(s.blackVersion, if s.file.Some? then s.file else fileName, s.lineLength, s.targetVersion,
         s.quiet, s.skipFirstLine, s.skipStringNormalization, s.skipMagicTrailingComma)
  }

  function TakeValue(args: seq<string>, flag: string): (Option<string>, seq<string>) {
    if |args| >= 2 && args[0] == flag then (Some(args[1]), args[2..]) else (None, args)
  }

  function TakeFlag(args: seq<string>, flag: string): (bool, seq<string>) {
    if |args| >= 1 && args[0] == flag then (true, args[1..]) else (false, args)
  }

  predicate AllDigits(t: string) {
    forall i :: 0 <= i < |t| ==> IsDigit(t[i])
  }

  /** Reads the flags in their fixed order, then `-`. */
  function Parse(args: seq<string>): Option<Seen> {
    var black := TakeValue(args, "--required-version");
    var file := TakeValue(black.1, "--stdin-filename");
    var length := TakeValue(file.1, "--line-length");
    var target := TakeValue(length.1, "--target-version");
    var quiet := TakeFlag(target.1, "--quiet");
    var first := TakeFlag(quiet.1, "--skip-source-first-line");
    var normal := TakeFlag(first.1, "--skip-string-normalization");
    var comma := TakeFlag(normal.1, "--skip-magic-trailing-comma");
    if comma.1 != ["-"] || (length.0.Some? && !AllDigits(length.0.value)) then None
    else
      Some(Seen(black.0, file.0, if length.0.Some? then DigitsValue(length.0.value) else 0, target.0,
                quiet.0, first.0, normal.0, comma.0))
  }

  /** A group of flags that is absent leaves the rest to the next reader. */
  lemma TakeValueGroup(value: Option<string>, flag: string, rest: seq<string>)
    requires rest == [] || rest[0] != flag
    ensures TakeValue(FlagWithValue(value, flag) + rest, flag) == (value, rest)
  {
    var args := FlagWithValue(value, flag) + rest;
    if value.Some? {
      assert args[0] == flag && args[1] == value.value && args[2..] == rest;
    } else {
      assert args == rest;
    }
  }

  lemma TakeFlagGroup(present: bool, flag: string, rest: seq<string>)
    requires rest == [] || rest[0] != flag
    ensures TakeFlag(Flag(present, flag) + rest, flag) == (present, rest)
  {
    var args := Flag(present, flag) + rest;
    if present {
      assert args[0] == flag && args[1..] == rest;
    } else {
      assert args == rest;
    }
  }

  /** The command line determines the settings the formatter runs with. */
  lemma {:induction false} CommandLineRoundTrip(s: Settings, fileName: Option<string>)
    requires s.lineLength >= 0
    ensures Parse(CommandLine(s, fileName).value) == Some(Expected(s, fileName))
  {
    var file := if s.file.Some? then s.file else fileName;
    var length := if s.lineLength > 0 then Some(NatToString(s.lineLength)) else None;
    AppendNested(FlagWithValue(s.blackVersion, "--required-version"),
                 FlagWithValue(file, "--stdin-filename"),
                 FlagWithValue(length, "--line-length"),
                 FlagWithValue(s.targetVersion, "--target-version"),
                 Flag(s.quiet, "--quiet"),
                 Flag(s.skipFirstLine, "--skip-source-first-line"),
                 Flag(s.skipStringNormalization, "--skip-string-normalization"),
                 Flag(s.skipMagicTrailingComma, "--skip-magic-trailing-comma"),
                 ["-"]);
    if s.lineLength > 0 {
      NatToStringRoundTrip(s.lineLength);
    }
    ReadBack(s.blackVersion, file, length, s.targetVersion,
             s.quiet, s.skipFirstLine, s.skipStringNormalization, s.skipMagicTrailingComma);
  }

  lemma AppendNested<T>(a: seq<T>, b: seq<T>, c: seq<T>, d: seq<T>, e: seq<T>, f: seq<T>, g: seq<T>, h: seq<T>,
                        t: seq<T>)
    ensures (a + (b + (c + (d + (e + (f + (g + h))))))) + t == a + (b + (c + (d + (e + (f + (g + (h + t)))))))
  {
    calc {
      (a + (b + (c + (d + (e + (f + (g + h))))))) + t;
      a + ((b + (c + (d + (e + (f + (g + h)))))) + t);
      a + (b + ((c + (d + (e + (f + (g + h))))) + t));
      a + (b + (c + ((d + (e + (f + (g + h)))) + t)));
      a + (b + (c + (d + ((e + (f + (g + h))) + t))));
      a + (b + (c + (d + (e + ((f + (g + h)) + t)))));
      a + (b + (c + (d + (e + (f + ((g + h) + t))))));
      a + (b + (c + (d + (e + (f + (g + (h + t)))))));
    }
  }

  /** Reading the flags back, group by group. */
  lemma ReadBack(black: Option<string>, file: Option<string>, length: Option<string>, target: Option<string>,
                 quiet: bool, first: bool, normal: bool, comma: bool)
    requires length.Some? ==> AllDigits(length.value)
    ensures Parse(FlagWithValue(black, "--required-version")
                  + (FlagWithValue(file, "--stdin-filename")
                  + (FlagWithValue(length, "--line-length")
                  + (FlagWithValue(target, "--target-version")
                  + (Flag(quiet, "--quiet")
                  + (Flag(first, "--skip-source-first-line")
                  + (Flag(normal, "--skip-string-normalization")
                  + (Flag(comma, "--skip-magic-trailing-comma") + ["-"]))))))))
            == Some(Seen(black, file, if length.Some? then DigitsValue(length.value) else 0,
                         target, quiet, first, normal, comma))
  {
    var r4, r5, r6, r7 := ReadSwitches(quiet, first, normal, comma);
    var r3 := FlagWithValue(target, "--target-version") + r4;
    var r2 := FlagWithValue(length, "--line-length") + r3;
    var r1 := FlagWithValue(file, "--stdin-filename") + r2;
    var r0 := FlagWithValue(black, "--required-version") + r1;
    ValuesFirst(r4, r3, r2, r1);
    TakeValueGroup(target, "--target-version", r4);
    TakeValueGroup(length, "--line-length", r3);
    TakeValueGroup(file, "--stdin-filename", r2);
    TakeValueGroup(black, "--required-version", r1);
    ParseOf(r0, black, r1, file, r2, length, r3, target, r4, quiet, r5, first, r6, normal, r7, comma);
  }

  /** Reading back the four switches that end the command line. */
  lemma ReadSwitches(quiet: bool, first: bool, normal: bool, comma: bool)
      returns (r4: seq<string>, r5: seq<string>, r6: seq<string>, r7: seq<string>)
    ensures r7 == Flag(comma, "--skip-magic-trailing-comma") + ["-"]
    ensures r6 == Flag(normal, "--skip-string-normalization") + r7
    ensures r5 == Flag(first, "--skip-source-first-line") + r6
    ensures r4 == Flag(quiet, "--quiet") + r5
    ensures TakeFlag(r4, "--quiet") == (quiet, r5)
    ensures TakeFlag(r5, "--skip-source-first-line") == (first, r6)
    ensures TakeFlag(r6, "--skip-string-normalization") == (normal, r7)
    ensures TakeFlag(r7, "--skip-magic-trailing-comma") == (comma, ["-"])
    ensures r4 != [] && r4[0] in Switches
  {
    r7 := Flag(comma, "--skip-magic-trailing-comma") + ["-"];
    r6 := Flag(normal, "--skip-string-normalization") + r7;
    r5 := Flag(first, "--skip-source-first-line") + r6;
    r4 := Flag(quiet, "--quiet") + r5;
    SwitchesFirst(r7, r6, r5, r4);
    TakeFlagGroup(comma, "--skip-magic-trailing-comma", ["-"]);
    TakeFlagGroup(normal, "--skip-string-normalization", r7);
    TakeFlagGroup(first, "--skip-source-first-line", r6);
    TakeFlagGroup(quiet, "--quiet", r5);
  }

  /** `Parse` once each reader's result is known. */
  lemma ParseOf(r0: seq<string>, black: Option<string>, r1: seq<string>, file: Option<string>, r2: seq<string>,
                length: Option<string>, r3: seq<string>, target: Option<string>, r4: seq<string>,
                quiet: bool, r5: seq<string>, first: bool, r6: seq<string>, normal: bool, r7: seq<string>,
                comma: bool)
    requires TakeValue(r0, "--required-version") == (black, r1)
    requires TakeValue(r1, "--stdin-filename") == (file, r2)
    requires TakeValue(r2, "--line-length") == (length, r3)
    requires TakeValue(r3, "--target-version") == (target, r4)
    requires TakeFlag(r4, "--quiet") == (quiet, r5)
    requires TakeFlag(r5, "--skip-source-first-line") == (first, r6)
    requires TakeFlag(r6, "--skip-string-normalization") == (normal, r7)
    requires TakeFlag(r7, "--skip-magic-trailing-comma") == (comma, ["-"])
    requires length.Some? ==> AllDigits(length.value)
    ensures Parse(r0) == Some(Seen(black, file, if length.Some? then DigitsValue(length.value) else 0,
                                   target, quiet, first, normal, comma))
  {
  }

  /** The flags without a value, and the `-` that ends the command line. */
  const Switches: set<string> :=
    {"--quiet", "--skip-source-first-line", "--skip-string-normalization", "--skip-magic-trailing-comma", "-"}

  /** Every tail of the switches starts with a later switch or with `-`. */
  lemma SwitchesFirst(r7: seq<string>, r6: seq<string>, r5: seq<string>, r4: seq<string>)
    requires r7 != [] && r7[0] in {"--skip-magic-trailing-comma", "-"}
    requires r6 == r7 || (r6 != [] && r6[0] == "--skip-string-normalization")
    requires r5 == r6 || (r5 != [] && r5[0] == "--skip-source-first-line")
    requires r4 == r5 || (r4 != [] && r4[0] == "--quiet")
    ensures r7[0] != "--skip-string-normalization"
    ensures r6 != [] && r6[0] != "--skip-source-first-line"
    ensures r5 != [] && r5[0] != "--quiet"
    ensures r4 != [] && r4[0] in Switches
  {
  }

  /** Every tail of the command line starts with a later flag or with `-`. */
  lemma ValuesFirst(r4: seq<string>, r3: seq<string>, r2: seq<string>, r1: seq<string>)
    requires r4 != [] && r4[0] in Switches
    requires r3 == r4 || (r3 != [] && r3[0] == "--target-version")
    requires r2 == r3 || (r2 != [] && r2[0] == "--line-length")
    requires r1 == r2 || (r1 != [] && r1[0] == "--stdin-filename")
    ensures r4[0] != "--target-version"
    ensures r3 != [] && r3[0] != "--line-length"
    ensures r2 != [] && r2[0] != "--stdin-filename"
    ensures r1 != [] && r1[0] != "--required-version"
  {
  }

  /** The default settings only silence the formatter; the generators also
      pass the file name, a line length of 120 and Python 3.8. */
  lemma CommandLineExamples()
    ensures CommandLine(DefaultSettings, None) == Ok(["--quiet", "-"])
  {
    var none: seq<string> := [];
    var quiet := Flag(true, "--quiet");
    assert quiet == ["--quiet"];
    assert Arguments(DefaultSettings, None) == Ok(none + (none + (none + (none + (quiet + (none + (none + none)))))));
    assert none + (none + (none + (none + (quiet + (none + (none + none)))))) == ["--quiet"];
    assert ["--quiet"] + ["-"] == ["--quiet", "-"];
  }

  /** The generators' settings: the file name, a line length of 120 and the
      py38 target, then `--quiet` and standard input. */
  lemma GeneratorCommandLine()
    ensures CommandLine(GeneratorSettings, Some("RegionsOoT.py"))
            == Ok(["--stdin-filename", "RegionsOoT.py", "--line-length", "120",
                   "--target-version", "py38", "--quiet", "-"])
  {
    var none: seq<string> := [];
    var quiet := Flag(true, "--quiet");
    assert quiet == ["--quiet"];
    assert NatToString(120) == "120" by {
      assert NatToString(1) == "1";
      assert NatToString(12) == NatToString(1) + [Digit(2)];
      assert NatToString(120) == NatToString(12) + [Digit(0)];
    }
    var file := FlagWithValue(Some("RegionsOoT.py"), "--stdin-filename");
    var length := FlagWithValue(Some("120"), "--line-length");
    var target := FlagWithValue(Some("py38"), "--target-version");
    assert Arguments(GeneratorSettings, Some("RegionsOoT.py"))
           == Ok(none + (file + (length + (target + (quiet + (none + (none + none)))))));
    assert none + (file + (length + (target + (quiet + (none + (none + none))))))
           == ["--stdin-filename", "RegionsOoT.py", "--line-length", "120", "--target-version", "py38", "--quiet"];
    assert ["--stdin-filename", "RegionsOoT.py", "--line-length", "120", "--target-version", "py38", "--quiet"] + ["-"]
           == ["--stdin-filename", "RegionsOoT.py", "--line-length", "120", "--target-version", "py38", "--quiet", "-"];
  }

}
