/** The camelCase to snake_case conversion used for `setting(...)` arguments
    (TextWriterExtentions.cs, `SettingPattern`) and for option identifiers
    (OptionsGenerator.cs, `IdentifierPattern`). Both regexes,
    `\B(?<![A-Z])[A-Z]+` and `(?<![A-Z])\B([A-Z]+)`, match exactly the same runs:
    a maximal run of upper-case letters whose preceding character is a word
    character that is not upper case. Each match is replaced by `_` followed by
    the run, and the whole string is then lower-cased. */
module Casing {
  import opened Strings

  /** A match of the pattern starts at index `i`. */
  predicate RunStart(s: string, i: nat)
    requires i < |s|
  {
    0 < i && IsUpper(s[i]) && IsWordChar(s[i - 1]) && !IsUpper(s[i - 1])
  }

  /** The end of the run of upper-case letters starting at `i`. */
  function RunEnd(s: string, i: nat): (j: nat)
    requires i < |s| && IsUpper(s[i])
    ensures i < j <= |s|
    ensures forall k :: i <= k < j ==> IsUpper(s[k])
    ensures j == |s| || !IsUpper(s[j])
    decreases |s| - i
  {
    if i + 1 < |s| && IsUpper(s[i + 1]) then RunEnd(s, i + 1) else i + 1
  }

  /** `Regex.Replace(s, "_$0")`, scanning left to right from index `i`: where a
      match starts, the whole run is copied after `_` and the scan resumes after
      it; elsewhere one character is copied. */
  function Underscore(s: string, i: nat): string
    requires i <= |s|
    decreases |s| - i
  {
    if i == |s| then ""
    else if RunStart(s, i) then
      var j := RunEnd(s, i);
      "_" + s[i..j] + Underscore(s, j)
    else [s[i]] + Underscore(s, i + 1)
  }

  /** Reference definition: `_` is inserted before exactly the characters at
      which a run starts, character by character. */
  function InsertBeforeRuns(s: string, i: nat): string
    requires i <= |s|
    decreases |s| - i
  {
    if i == |s| then ""
    else (if RunStart(s, i) then "_" else "") + [s[i]] + InsertBeforeRuns(s, i + 1)
  }

  /** Inside a run nothing is inserted. */
  lemma {:induction false} InsideRun(s: string, i: nat, j: nat)
    requires i < j <= |s|
    requires forall k :: i <= k < j ==> IsUpper(s[k])
    ensures InsertBeforeRuns(s, i + 1) == s[i + 1..j] + InsertBeforeRuns(s, j)
    decreases j - i
  {
    if i + 1 < j {
      assert !RunStart(s, i + 1);
      var rest := InsertBeforeRuns(s, i + 2);
      assert InsertBeforeRuns(s, i + 1) == [s[i + 1]] + rest;
      InsideRun(s, i + 1, j);
      assert s[i + 1..j] == [s[i + 1]] + s[i + 2..j];
      Associative([s[i + 1]], s[i + 2..j], InsertBeforeRuns(s, j));
    }
  }

  /** The regex scan agrees with the character-by-character reference. */
  lemma {:induction false} UnderscoreIsPointwise(s: string, i: nat)
    requires i <= |s|
    ensures Underscore(s, i) == InsertBeforeRuns(s, i)
    decreases |s| - i
  {
    if i < |s| {
      if RunStart(s, i) {
        var j := RunEnd(s, i);
        UnderscoreIsPointwise(s, j);
        InsideRun(s, i, j);
        assert s[i..j] == [s[i]] + s[i + 1..j];
      } else {
        UnderscoreIsPointwise(s, i + 1);
      }
    }
  }

  /** `SettingPattern().Replace(name, "_$0").ToLower()` and
      `IdentifierPattern().Replace(name, "_$1").ToLower(...)`. */
  function SnakeCase(s: string): (r: string)
    ensures forall k :: 0 <= k < |r| ==> !IsUpper(r[k])
  {
    Lower(Underscore(s, 0))
  }

  /** The number of runs that receive an underscore, from index `i` on. */
  function RunCount(s: string, i: nat): nat
    requires i <= |s|
    decreases |s| - i
  {
    if i == |s| then 0 else (if RunStart(s, i) then 1 else 0) + RunCount(s, i + 1)
  }

  /** The conversion adds exactly one character per run and drops none. */
  lemma {:induction false} SnakeCaseLength(s: string, i: nat)
    requires i <= |s|
    ensures |InsertBeforeRuns(s, i)| == |s| - i + RunCount(s, i)
    decreases |s| - i
  {
    if i < |s| { SnakeCaseLength(s, i + 1); }
  }

  /** A string without upper-case letters is left unchanged, so the conversion
      is idempotent. */
  lemma {:induction false} SnakeCaseIdempotent(s: string)
    ensures SnakeCase(SnakeCase(s)) == SnakeCase(s)
  {
    var t := SnakeCase(s);
    NoUpperUnchanged(t, 0);
    UnderscoreIsPointwise(t, 0);
  }

  lemma {:induction false} NoUpperUnchanged(t: string, i: nat)
    requires i <= |t|
    requires forall k :: 0 <= k < |t| ==> !IsUpper(t[k])
    ensures InsertBeforeRuns(t, i) == t[i..]
    ensures Lower(t[i..]) == t[i..]
    decreases |t| - i
  {
    if i < |t| {
      NoUpperUnchanged(t, i + 1);
      assert t[i..] == [t[i]] + t[i + 1..];
    }
  }

  lemma SnakeCaseWords()
    ensures SnakeCase("FooBar") == "foo_bar"
    ensures SnakeCase("ABC") == "abc"
  {
    assert RunEnd("FooBar", 3) == 4;
    assert Underscore("FooBar", 0) == "Foo_Bar";
    assert Underscore("ABC", 0) == "ABC";
  }

  /** A run of capitals after a word is one word. */
  lemma SnakeCaseRun()
    ensures SnakeCase("logicFooBAR") == "logic_foo_bar"
  {
    var t := "logicFooBAR";
    assert RunEnd(t, 8) == 11;
    assert Underscore(t, 8) == "_BAR";
    assert Underscore(t, 6) == "oo_BAR";
    assert RunEnd(t, 5) == 6;
    assert Underscore(t, 5) == "_Foo_BAR";
    assert Underscore(t, 2) == "gic_Foo_BAR";
    assert Underscore(t, 0) == "logic_Foo_BAR";
  }

  /** A digit ends a word like a lower-case letter. */
  lemma SnakeCaseDigit()
    ensures SnakeCase("a1B") == "a1_b"
  {
    assert Underscore("a1B", 0) == "a1_B";
  }
}
