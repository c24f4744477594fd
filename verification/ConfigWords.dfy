/** The words of an agterm config line: quoted spans and runs of non-space characters. */
module ConfigWords {
  import opened Results
  import opened Sequences
  import Tokens

  predicate IsGap(c: char) { c == ' ' || c == '\t' || c == '\n' || c == '\U{0C}' || c == '\r' }

  predicate IsQuote(c: char) { c == '\'' || c == '"' }

  predicate AllGap(s: string) { forall k :: 0 <= k < |s| ==> IsGap(s[k]) }

  predicate NoGap(s: string) { forall k :: 0 <= k < |s| ==> !IsGap(s[k]) }

  /** How many characters of s, from its start, satisfy IsGap(c) == gap. */
  function Span(s: string, gap: bool): (n: nat)
    ensures n <= |s| && (forall k :: 0 <= k < n ==> IsGap(s[k]) == gap) && (n < |s| ==> IsGap(s[n]) != gap)
  {
    if s == "" || IsGap(s[0]) != gap then 0 else 1 + Span(s[1..], gap)
  }

  /** The length of the word a non-empty text without a leading gap starts with. */
  function WordLength(t: string): (n: nat)
    requires t != "" && !IsGap(t[0])
    ensures 0 < n <= |t|
  {
    if IsQuote(t[0]) && IndexOf(t[1..], t[0]) < |t| - 1 then IndexOf(t[1..], t[0]) + 2 else Span(t, false)
  }

  /** A text cut at its first word. */
  datatype Cut = Cut(gap: string, word: string, rest: string)

  function First(s: string): (r: Option<Cut>)
    ensures r.Some? ==> s == r.value.gap + r.value.word + r.value.rest && AllGap(r.value.gap) && r.value.word != ""
    ensures r.Some? ==> !IsGap(r.value.word[0])
    ensures r.None? <==> AllGap(s)
  {
    var n := Span(s, true);
    if n == |s| then None
    else
      var t := s[n..];
      var w := WordLength(t);
      assert s[..n] + t[..w] + t[w..] == s;
      assert !IsGap(s[n]);
      Some(Cut(s[..n], t[..w], t[w..]))
  }

  /** All words of a line, one after the other. */
  function AllWords(s: string): seq<string>
    decreases |s|
  {
    var c := First(s);
    if c.None? then [] else assert |c.value.rest| < |s|; [c.value.word] + AllWords(c.value.rest)
  }

  lemma WordsCut(s: string)
    requires First(s).Some?
    ensures AllWords(s) != [] && AllWords(s)[0] == First(s).value.word && AllWords(s)[1..] == AllWords(First(s).value.rest)
  {}

  lemma NoWords(s: string)
    ensures First(s).None? <==> AllWords(s) == []
  {}

  lemma {:induction false} SpanOf(a: string, s: string, gap: bool)
    requires (forall k :: 0 <= k < |a| ==> IsGap(a[k]) == gap) && (s == "" || IsGap(s[0]) != gap)
    ensures Span(a + s, gap) == |a|
  {
    if a == "" {
      assert a + s == s;
    } else {
      assert (a + s)[1..] == a[1..] + s;
      SpanOf(a[1..], s, gap);
    }
  }

  lemma CutAt(gap: string, t: string)
    requires AllGap(gap) && t != "" && !IsGap(t[0])
    ensures First(gap + t) == Some(Cut(gap, t[..WordLength(t)], t[WordLength(t)..]))
  {
    SpanOf(gap, t, true);
    assert (gap + t)[..|gap|] == gap && (gap + t)[|gap|..] == t;
  }

  /** An unquoted word ends at the next gap. */
  lemma FirstRun(gap: string, word: string, rest: string)
    requires AllGap(gap) && word != "" && NoGap(word) && !IsQuote(word[0])
    requires rest == "" || IsGap(rest[0])
    ensures First(gap + word + rest) == Some(Cut(gap, word, rest))
  {
    var t := word + rest;
    SpanOf(word, rest, false);
    CutAt(gap, t);
    assert gap + word + rest == gap + t;
    assert t[..|word|] == word && t[|word|..] == rest;
  }

  predicate Quoted(word: string) {
    |word| >= 2 && word[0] == '\'' && word[|word| - 1] == '\'' && '\'' !in word[1..|word| - 1] && '"' !in word[1..|word| - 1]
  }

  /** A quoted span: it ends at its closing quote, whatever follows. */
  predicate Closed(word: string) {
    |word| >= 2 && IsQuote(word[0]) && word[|word| - 1] == word[0] && word[0] !in word[1..|word| - 1]
  }

  lemma FirstClosed(gap: string, word: string, rest: string)
    requires AllGap(gap) && Closed(word)
    ensures First(gap + word + rest) == Some(Cut(gap, word, rest))
  {
    var t := word + rest;
    var inner := word[1..|word| - 1];
    assert ([word[0]] + rest)[0] == word[0];
    IndexAfter(inner, [word[0]] + rest, word[0]);
    assert t[1..] == inner + ([word[0]] + rest);
    CutAt(gap, t);
    assert gap + word + rest == gap + t;
    assert t[..|word|] == word && t[|word|..] == rest;
  }

  lemma FirstQuoted(gap: string, word: string, rest: string)
    requires AllGap(gap) && Quoted(word)
    ensures First(gap + word + rest) == Some(Cut(gap, word, rest))
  {
    FirstClosed(gap, word, rest);
  }

  /** A quote that is not closed on the line starts a word like any other. */
  lemma FirstUnclosed(gap: string, word: string, rest: string)
    requires AllGap(gap) && word != "" && NoGap(word) && IsQuote(word[0])
    requires word[0] !in word[1..] && word[0] !in rest && (rest == "" || IsGap(rest[0]))
    ensures First(gap + word + rest) == Some(Cut(gap, word, rest))
  {
    var t := word + rest;
    assert t[1..] == word[1..] + rest;
    CatNil(t[1..]);
    IndexAfter(t[1..], "", word[0]);
    SpanOf(word, rest, false);
    CutAt(gap, t);
    assert gap + word + rest == gap + t;
    assert t[..|word|] == word && t[|word|..] == rest;
  }

  /** The word is cut off whole when next follows it: it is a closed span, or it runs to a gap and
      its quote, if it starts with one, is not closed by what follows. */
  predicate CutsOff(word: string, next: string) {
    || Closed(word)
    || (&& word != "" && NoGap(word) && (next == "" || IsGap(next[0]))
        && (IsQuote(word[0]) ==> word[0] !in word[1..] && word[0] !in next))
  }

  lemma FirstCut(gap: string, word: string, next: string)
    requires AllGap(gap) && CutsOff(word, next)
    ensures First(gap + word + next) == Some(Cut(gap, word, next))
  {
    if Closed(word) {
      FirstClosed(gap, word, next);
    } else if IsQuote(word[0]) {
      FirstUnclosed(gap, word, next);
    } else {
      FirstRun(gap, word, next);
    }
  }

  lemma WordCuts(s: string)
    requires First(s).Some?
    ensures CutsOff(First(s).value.word, First(s).value.rest)
  {
    var t := s[Span(s, true)..];
    var inner := IndexOf(t[1..], t[0]);
    if IsQuote(t[0]) && inner < |t| - 1 {
      var word := t[..inner + 2];
      assert word[1..|word| - 1] == t[1..][..inner];
    } else if IsQuote(t[0]) {
      assert t[1..][..inner] == t[1..];
      assert forall x :: x in t[..Span(t, false)][1..] ==> x in t[1..];
      assert forall x :: x in t[Span(t, false)..] ==> x in t[1..];
    }
  }

  /** The word an unquoted cut found runs to the next gap. */
  lemma RunEnds(s: string)
    requires First(s).Some? && !IsQuote(First(s).value.word[0])
    ensures var c := First(s).value; NoGap(c.word) && (c.rest == "" || IsGap(c.rest[0]))
  {
    WordCuts(s);
  }

  // ----- naming agr -----

  function TrimQuotes(s: string): string
    decreases |s|
  {
    if s == "" then ""
    else if IsQuote(s[0]) then TrimQuotes(s[1..])
    else if IsQuote(s[|s| - 1]) then TrimQuotes(s[..|s| - 1])
    else s
  }

  /** The word names an agr binary, however it is spelled. */
  predicate IsAgr(word: string) { Tokens.Base(TrimQuotes(word)) == "agr" }

  /** A path in quotes of either kind names agr exactly when its last part is agr. */
  lemma InQuotes(path: string, quote: char)
    requires '\'' !in path && '"' !in path && IsQuote(quote)
    ensures IsAgr([quote] + path + [quote]) <==> Tokens.Base(path) == "agr"
  {
    var word := [quote] + path + [quote];
    assert word[1..] == path + [quote];
    if path == "" {
      assert TrimQuotes([quote]) == "" by { assert [quote][1..] == ""; }
      assert word[1..] == [quote];
    } else {
      assert path[0] in path && path[|path| - 1] in path;
      assert (path + [quote])[..|path|] == path;
      assert TrimQuotes(path + [quote]) == TrimQuotes(path) == path;
    }
  }

  lemma QuotedIsAgr(path: string)
    requires '\'' !in path && '"' !in path
    ensures Quoted("'" + path + "'") && (IsAgr("'" + path + "'") <==> Tokens.Base(path) == "agr")
  {
    InQuotes(path, '\'');
    assert "'" == ['\''];
    var word := "'" + path + "'";
    assert word[1..|word| - 1] == path;
  }
}
