/** Whole-word token substitution applied to a logic expression before it is
    parsed (ParserExtensions.cs): every maximal run of word characters (the
    matches of `\b(\w+)\b`) is replaced by its value in the token map when it
    is a key, and kept otherwise; every other character is copied. */
module Tokens {
  import opened Strings

  /** The map used when the caller gives none: only `var` is rewritten. */
  const DefaultTokenMap: map<string, string> := map["var" := "variable"]

  /** The length of the run of word characters that `s` starts with. */
  function RunLength(s: string): (n: nat)
    ensures n <= |s|
    ensures forall k :: 0 <= k < n ==> IsWordChar(s[k])
    ensures n < |s| ==> !IsWordChar(s[n])
  {
    if s == [] || !IsWordChar(s[0]) then 0 else 1 + RunLength(s[1..])
  }

  /** `GetValueOrDefault(word, word)`. */
  function Lookup(tokens: map<string, string>, word: string): string {
    if word in tokens then tokens[word] else word
  }

  /** `Token.Replace(text, match => tokens.GetValueOrDefault(...))`: one scan,
      left to right; a replacement is never scanned again. When every value
      of the map is made of word characters, the characters between words
      (operators, parentheses, quotes, spaces) come out as they went in. */
  function Rewrite(tokens: map<string, string>, s: string): (r: string)
    ensures (forall v :: v in tokens.Values ==> WordChars(v)) ==> Separators(r) == Separators(s)
    decreases |s|
  {
    if s == [] then ""
    else if !IsWordChar(s[0]) then
      var rest := Rewrite(tokens, s[1..]);
      SeparatorsAppend([s[0]], rest);
      SeparatorsAppend([s[0]], s[1..]);
      assert s == [s[0]] + s[1..];
      [s[0]] + rest
    else
      var n := RunLength(s);
      var rest := Rewrite(tokens, s[n..]);
      SeparatorsRun(s);
      LookupWordChars(tokens, s[..n]);
      SeparatorsAppend(Lookup(tokens, s[..n]), rest);
      SeparatorsOfWordChars(Lookup(tokens, s[..n]));
      Lookup(tokens, s[..n]) + rest
  }

  /** Text made of word characters only (possibly none). */
  predicate WordChars(v: string) {
    forall k :: 0 <= k < |v| ==> IsWordChar(v[k])
  }

  /** The characters of `s` that are not word characters, in order. */
  function Separators(s: string): string
    decreases |s|
  {
    if s == [] then [] else (if IsWordChar(s[0]) then [] else [s[0]]) + Separators(s[1..])
  }

  lemma {:induction false} SeparatorsAppend(a: string, b: string)
    ensures Separators(a + b) == Separators(a) + Separators(b)
    decreases |a|
  {
    if a == [] {
      assert a + b == b;
    } else {
      assert (a + b)[0] == a[0] && (a + b)[1..] == a[1..] + b;
      SeparatorsAppend(a[1..], b);
      var head: string := if IsWordChar(a[0]) then [] else [a[0]];
      assert Separators(a + b) == head + Separators(a[1..] + b);
      assert Separators(a) == head + Separators(a[1..]);
      Associative(head, Separators(a[1..]), Separators(b));
    }
  }

  lemma {:induction false} SeparatorsOfWordChars(v: string)
    ensures WordChars(v) ==> Separators(v) == []
    decreases |v|
  {
    if v != [] {
      SeparatorsOfWordChars(v[1..]);
    }
  }

  /** Skipping the word a text starts with skips no separator. */
  lemma SeparatorsRun(s: string)
    ensures Separators(s) == Separators(s[RunLength(s)..])
  {
    var n := RunLength(s);
    assert s == s[..n] + s[n..];
    SeparatorsAppend(s[..n], s[n..]);
    SeparatorsOfWordChars(s[..n]);
  }

  lemma LookupWordChars(tokens: map<string, string>, w: string)
    ensures WordChars(w) && (forall v :: v in tokens.Values ==> WordChars(v)) ==> WordChars(Lookup(tokens, w))
  {
    if w in tokens {
      assert tokens[w] in tokens.Values;
    }
  }

  /** The words of `s`: its maximal runs of word characters, in order. */
  function Words(s: string): seq<string>
    decreases |s|
  {
    if s == [] then []
    else if !IsWordChar(s[0]) then Words(s[1..])
    else
      var n := RunLength(s);
      [s[..n]] + Words(s[n..])
  }

  /** Text in which no word is a key of the map is left unchanged; in
      particular the empty map changes nothing. */
  lemma {:induction false} RewriteUnmatched(tokens: map<string, string>, s: string)
    requires forall w :: w in Words(s) ==> w !in tokens
    ensures Rewrite(tokens, s) == s
    decreases |s|
  {
    if s != [] {
      if !IsWordChar(s[0]) {
        assert Words(s) == Words(s[1..]);
        RewriteUnmatched(tokens, s[1..]);
        assert Rewrite(tokens, s) == [s[0]] + s[1..];
      } else {
        var n := RunLength(s);
        assert Words(s) == [s[..n]] + Words(s[n..]);
        assert Lookup(tokens, s[..n]) == s[..n];
        RewriteUnmatched(tokens, s[n..]);
        assert Rewrite(tokens, s) == s[..n] + s[n..];
      }
    }
  }

  lemma EmptyMapIdentity(s: string)
    ensures Rewrite(map[], s) == s
  {
    RewriteUnmatched(map[], s);
  }

  /** A word stops at the first non-word character. */
  lemma {:induction false} RunLengthStops(a: string, c: char, b: string)
    requires !IsWordChar(c)
    ensures RunLength(a + [c] + b) == RunLength(a)
    decreases |a|
  {
    if a != [] && IsWordChar(a[0]) {
      assert (a + [c] + b)[1..] == a[1..] + [c] + b;
      RunLengthStops(a[1..], c, b);
    }
  }

  /** No word spans a non-word character, so the text on either side of one
      is rewritten on its own and the character itself is kept. */
  lemma {:induction false} RewriteSplits(tokens: map<string, string>, a: string, c: char, b: string)
    requires !IsWordChar(c)
    ensures Rewrite(tokens, a + [c] + b) == Rewrite(tokens, a) + [c] + Rewrite(tokens, b)
    decreases |a|
  {
    var s := a + [c] + b;
    if a == [] {
      assert s[0] == c && s[1..] == b;
      assert Rewrite(tokens, s) == [c] + Rewrite(tokens, b);
    } else if !IsWordChar(a[0]) {
      assert s[0] == a[0] && s[1..] == a[1..] + [c] + b;
      RewriteSplits(tokens, a[1..], c, b);
      var head, tail := [a[0]], Rewrite(tokens, a[1..]);
      assert Rewrite(tokens, s) == head + (tail + [c] + Rewrite(tokens, b));
      assert Rewrite(tokens, a) == head + tail;
      Regroup(head, tail, [c], Rewrite(tokens, b));
    } else {
      var n := RunLength(a);
      RunLengthStops(a, c, b);
      assert s[..n] == a[..n];
      assert s[n..] == a[n..] + [c] + b;
      RewriteSplits(tokens, a[n..], c, b);
      var head, tail := Lookup(tokens, a[..n]), Rewrite(tokens, a[n..]);
      assert Rewrite(tokens, s) == head + (tail + [c] + Rewrite(tokens, b));
      assert Rewrite(tokens, a) == head + tail;
      Regroup(head, tail, [c], Rewrite(tokens, b));
    }
  }

  lemma Regroup(head: string, tail: string, mid: string, rest: string)
    ensures head + (tail + mid + rest) == (head + tail) + mid + rest
  {
    Associative(head, tail, mid);
    Associative(head, tail + mid, rest);
  }

  /** A whole word is replaced by its value, which is not scanned again. */
  lemma {:induction false} WholeWord(tokens: map<string, string>, w: string)
    requires IsWord(w)
    ensures Rewrite(tokens, w) == Lookup(tokens, w)
  {
    assert RunLength(w) == |w| by { RunLengthAll(w); }
    assert w[..|w|] == w && w[|w|..] == [];
  }

  lemma {:induction false} RunLengthAll(w: string)
    requires forall k :: 0 <= k < |w| ==> IsWordChar(w[k])
    ensures RunLength(w) == |w|
    decreases |w|
  {
    if w != [] {
      RunLengthAll(w[1..]);
    }
  }

  /** The default map rewrites the word `var` and no word that merely
      contains it. */
  lemma DefaultMapWords()
    ensures Rewrite(DefaultTokenMap, "var") == "variable"
    ensures Rewrite(DefaultTokenMap, "var_x") == "var_x"
    ensures Rewrite(DefaultTokenMap, "variable") == "variable"
  {
    WordTexts();
    WholeWord(DefaultTokenMap, "var");
    WholeWord(DefaultTokenMap, "var_x");
    WholeWord(DefaultTokenMap, "variable");
  }

  /** A map whose values are never shorter than their keys never shortens a
      text, and lengthens it when one of its words has a longer value. */
  lemma {:induction false} RewriteLonger(tokens: map<string, string>, s: string, w: string)
    requires forall k :: k in tokens ==> |k| <= |tokens[k]|
    ensures |s| <= |Rewrite(tokens, s)|
    ensures w in Words(s) && w in tokens && |w| < |tokens[w]| ==> |s| < |Rewrite(tokens, s)|
    decreases |s|
  {
    if s != [] {
      if !IsWordChar(s[0]) {
        RewriteLonger(tokens, s[1..], w);
        assert Words(s) == Words(s[1..]);
      } else {
        var n := RunLength(s);
        RewriteLonger(tokens, s[n..], w);
        assert Words(s) == [s[..n]] + Words(s[n..]);
        assert |s| == n + |s[n..]|;
      }
    }
  }

  /** With the default map a text changes exactly when `var` is one of its
      words. */
  lemma DefaultMapChanges(s: string)
    ensures Rewrite(DefaultTokenMap, s) == s <==> "var" !in Words(s)
  {
    if "var" in Words(s) {
      RewriteLonger(DefaultTokenMap, s, "var");
    } else {
      RewriteUnmatched(DefaultTokenMap, s);
    }
  }

  lemma WordTexts()
    ensures IsWord("var") && IsWord("var_x") && IsWord("variable")
    ensures "var_x" !in DefaultTokenMap && "variable" !in DefaultTokenMap
  {
    assert "var_x"[3] == '_';
  }

  predicate IsWord(w: string) {
    w != [] && forall k :: 0 <= k < |w| ==> IsWordChar(w[k])
  }

  /** A word as the single argument of a call is rewritten like a word
      standing alone. */
  lemma WordInCall(tokens: map<string, string>, f: string, w: string)
    requires IsWord(f) && IsWord(w)
    ensures Rewrite(tokens, f + "(" + w + ")") == Lookup(tokens, f) + "(" + Lookup(tokens, w) + ")"
  {
    var tail := w + ")";
    assert tail == w + [')'] + [];
    RewriteSplits(tokens, w, ')', []);
    assert Rewrite(tokens, []) == [];
    WholeWord(tokens, w);
    var newTail := Lookup(tokens, w) + [')'];
    assert Rewrite(tokens, tail) == newTail;
    assert f + "(" + w + ")" == f + ['('] + tail;
    RewriteSplits(tokens, f, '(', tail);
    WholeWord(tokens, f);
    Associative(Lookup(tokens, f) + ['('], Lookup(tokens, w), [')']);
  }

  /** Quotes do not protect a word: the rewriting is lexical and precedes
      parsing. */
  lemma WordInQuotes(tokens: map<string, string>, w: string)
    requires IsWord(w)
    ensures Rewrite(tokens, "'" + w + "'") == "'" + Lookup(tokens, w) + "'"
  {
    var q := ['\''];
    var s := q + w;
    assert s[0] == '\'' && s[1..] == w;
    WholeWord(tokens, w);
    assert Rewrite(tokens, s) == q + Lookup(tokens, w);
    RewriteSplits(tokens, s, '\'', []);
    assert s + q + [] == s + q;
    assert Rewrite(tokens, []) == [];
  }

  lemma ContextTexts()
    ensures IsWord("has") && IsWord("var")
    ensures "has(var)" == "has" + "(" + "var" + ")"
    ensures "has" + "(" + "variable" + ")" == "has(variable)"
    ensures "'var'" == "'" + "var" + "'"
    ensures "'" + "variable" + "'" == "'variable'"
  {
  }

  lemma DefaultMapInContext()
    ensures Rewrite(DefaultTokenMap, "has(var)") == "has(variable)"
    ensures Rewrite(DefaultTokenMap, "'var'") == "'variable'"
  {
    ContextTexts();
    assert Lookup(DefaultTokenMap, "has") == "has" && Lookup(DefaultTokenMap, "var") == "variable";
    WordInCall(DefaultTokenMap, "has", "var");
    WordInQuotes(DefaultTokenMap, "var");
  }

  /** One pass: with `a -> b` and `b -> c`, `a` becomes `b`, not `c`. */
  lemma SinglePass()
    ensures Rewrite(map["a" := "b", "b" := "c"], "a") == "b"
    ensures Rewrite(map["a" := "b", "b" := "c"], "a b") == "b c"
  {
    var m := map["a" := "b", "b" := "c"];
    assert IsWordChar('a') && IsWordChar('b');
    WholeWord(m, "a");
    WholeWord(m, "b");
    assert "a b" == "a" + [' '] + "b";
    RewriteSplits(m, "a", ' ', "b");
    assert "b" + [' '] + "c" == "b c";
  }
}
