/** One custom command line of agterm's keymap file: how setup reads it, rewrites it and would read
    the rewritten line again. */
module KeymapLines {
  import opened Results
  import opened Sequences
  import opened ConfigWords
  import Tokens

  // ----- the command line of a verb -----

  /** A text cut around the last word that names agr and has verb as the next word. */
  datatype Around = Around(before: string, after: string)

  function LastAgr(s: string, verb: string): Option<Around>
    decreases |s|
  {
    var c := First(s);
    if c.None? then None
    else
      assert |c.value.rest| < |s|;
      var later := LastAgr(c.value.rest, verb);
      if later.Some? then Some(Around(c.value.gap + c.value.word + later.value.before, later.value.after))
      else if IsAgr(c.value.word) && First(c.value.rest).Some? && First(c.value.rest).value.word == verb
      then Some(Around(c.value.gap, c.value.rest))
      else None
  }

  /** A line `command <name> …`, cut after the name. */
  datatype Line = Line(head: string, name: string, body: string)

  /** A custom command that runs `<agr> verb`. */
  function AsCommand(line: string, verb: string): Option<Line> {
    var c := First(line);
    if c.None? || c.value.word != "command" then None
    else
      var n := First(c.value.rest);
      if n.None? || LastAgr(n.value.rest, verb).None? then None
      else Some(Line(c.value.gap + "command" + n.value.gap, n.value.word, n.value.rest))
  }

  /** A command line by its words: command, a name, and somewhere behind it a word that names agr before
      the verb. */
  lemma CommandIs(line: string, verb: string)
    ensures var words := AllWords(line);
            AsCommand(line, verb).Some? <==>
              && |words| >= 4 && words[0] == "command"
              && exists j :: 2 <= j < |words| - 1 && IsAgr(words[j]) && words[j + 1] == verb
  {
    hide IsAgr, First, AllWords, LastAgr;
    NoWords(line);
    if First(line).Some? {
      WordsCut(line);
      var s := First(line).value.rest;
      NoWords(s);
      if First(s).Some? {
        WordsCut(s);
        var rest := First(s).value.rest;
        LastAgrIs(rest, verb);
        var words, later := AllWords(line), AllWords(rest);
        assert words[2..] == words[1..][1..] == later;
        if j :| 0 <= j < |later| - 1 && IsAgr(later[j]) && later[j + 1] == verb {
          assert words[j + 2] == later[j] && words[j + 2 + 1] == later[j + 1];
        }
        if j :| 2 <= j < |words| - 1 && IsAgr(words[j]) && words[j + 1] == verb {
          assert later[j - 2] == words[j] && later[j - 2 + 1] == words[j + 1];
        }
      }
    }
  }

  lemma {:induction false} LastAgrIs(s: string, verb: string)
    ensures var words := AllWords(s);
            LastAgr(s, verb).Some? <==> exists j :: 0 <= j < |words| - 1 && IsAgr(words[j]) && words[j + 1] == verb
    decreases |s|
  {
    hide IsAgr;
    NoWords(s);
    if First(s).Some? {
      WordsCut(s);
      var rest := First(s).value.rest;
      LastAgrIs(rest, verb);
      NoWords(rest);
      if First(rest).Some? { WordsCut(rest); }
      var words, later := AllWords(s), AllWords(rest);
      if j :| 0 <= j < |later| - 1 && IsAgr(later[j]) && later[j + 1] == verb {
        assert words[j + 1] == later[j] && words[j + 1 + 1] == later[j + 1];
      }
      if j :| 0 <= j < |words| - 1 && IsAgr(words[j]) && words[j + 1] == verb {
        if j > 0 { assert later[j - 1] == words[j] && later[j - 1 + 1] == words[j + 1]; }
      }
    }
  }

  /** The agr word is the first after the name. */
  predicate NoWordBetween(body: string, verb: string)
    requires First(body).Some?
  {
    LastAgr(First(body).value.rest, verb).None?
  }

  /** The word after the name is the command's chord. */
  predicate HasChord(body: string, verb: string) {
    First(body).Some? && !NoWordBetween(body, verb) && !("-" <= First(body).value.word)
  }

  function Chord(body: string, verb: string): string {
    if HasChord(body, verb) then First(body).value.word else ""
  }

  /** The chord is the word right behind the name unless that is an option or the agr word itself. */
  lemma ChordIs(body: string, verb: string)
    ensures Chord(body, verb) != "" <==>
              First(body).Some? && First(body).value.word[0] != '-' && LastAgr(First(body).value.rest, verb).Some?
    ensures Chord(body, verb) != "" ==> Chord(body, verb) == First(body).value.word
  {
    hide LastAgr;
  }

  /** The body with its agr word replaced. */
  function PointBody(body: string, verb: string, agr: string): string
    requires LastAgr(body, verb).Some?
  {
    var a := LastAgr(body, verb).value;
    a.before + agr + a.after
  }

  /** The body pointed at agr and bound to key, in place of the chord or after the name. */
  function WireBody(body: string, verb: string, agr: string, key: string): string
    requires LastAgr(body, verb).Some?
  {
    if key == "" then PointBody(body, verb, agr)
    else if HasChord(body, verb) then First(body).value.gap + key + PointBody(First(body).value.rest, verb, agr)
    else " " + key + PointBody(body, verb, agr)
  }

  function WireLine(l: Line, verb: string, agr: string, key: string): string
    requires LastAgr(l.body, verb).Some?
  {
    l.head + l.name + WireBody(l.body, verb, agr, key)
  }

  // ----- words before the agr word -----

  predicate StartsGap(s: string) { s != "" && IsGap(s[0]) }

  /** The word starts with a single quote that is not closed. */
  predicate Opens(word: string) { word != "" && word[0] == '\'' && !Closed(word) }

  /** No word before the agr word opens. */
  predicate Sealed(s: string, verb: string)
    decreases |s|
  {
    var c := First(s);
    c.Some? && (assert |c.value.rest| < |s|;
      LastAgr(c.value.rest, verb).Some? ==> !Opens(c.value.word) && Sealed(c.value.rest, verb))
  }

  /** A gap follows the agr word. */
  predicate GapAfter(s: string, verb: string)
    requires LastAgr(s, verb).Some?
  {
    StartsGap(LastAgr(s, verb).value.after)
  }

  lemma CutHead(s: string)
    requires First(s).Some?
    ensures var c := First(s).value;
            && (IsGap(s[0]) <==> c.gap != "")
            && (c.gap != "" ==> IsGap(c.gap[0]))
  {
    var c := First(s).value;
    CatThree(c.gap, c.word, c.rest);
    HeadOf(c.gap, c.word + c.rest);
  }

  /** Where a text with an agr word starts with a gap, what precedes that word does too. */
  lemma BeforeHead(s: string, verb: string)
    requires LastAgr(s, verb).Some? && IsGap(s[0])
    ensures StartsGap(LastAgr(s, verb).value.before)
  {
    CutHead(s);
  }

  lemma LastAgrOf(s: string, verb: string, gap: string, word: string, rest: string)
    requires First(s) == Some(Cut(gap, word, rest))
    ensures LastAgr(s, verb)
         == if LastAgr(rest, verb).Some?
            then Some(Around(gap + word + LastAgr(rest, verb).value.before, LastAgr(rest, verb).value.after))
            else if IsAgr(word) && First(rest).Some? && First(rest).value.word == verb then Some(Around(gap, rest))
            else None
    ensures LastAgr(rest, verb).Some? ==> (Sealed(s, verb) <==> !Opens(word) && Sealed(rest, verb))
    ensures LastAgr(rest, verb).None? ==> Sealed(s, verb)
  {
    hide IsAgr, Opens;
  }

  lemma FiveParts(a: string, b: string, c: string, d: string, e: string)
    ensures (a + b + c) + d + e == a + b + (c + d + e)
  {}

  lemma CutShorter(s: string)
    requires First(s).Some?
    ensures |First(s).value.rest| < |s|
  {}

  lemma LastNeedsFirst(s: string, verb: string)
    requires LastAgr(s, verb).Some?
    ensures First(s).Some?
  {}

  /** A word before the agr word is passed over. */
  lemma PointOf(s: string, verb: string, agr: string, gap: string, word: string, rest: string)
    requires First(s) == Some(Cut(gap, word, rest)) && LastAgr(rest, verb).Some?
    ensures LastAgr(s, verb).Some? && PointBody(s, verb, agr) == gap + word + PointBody(rest, verb, agr)
    ensures GapAfter(s, verb) <==> GapAfter(rest, verb)
  {
    hide First, LastAgr, Sealed, IsAgr;
    LastAgrOf(s, verb, gap, word, rest);
    var a := LastAgr(rest, verb).value;
    FiveParts(gap, word, a.before, agr, a.after);
  }

  lemma PointedHead(body: string, verb: string, agr: string)
    requires LastAgr(body, verb).Some? && IsGap(body[0])
    ensures StartsGap(PointBody(body, verb, agr))
  {
    BeforeHead(body, verb);
  }

  lemma {:induction false} AroundParts(s: string, verb: string)
    requires LastAgr(s, verb).Some?
    ensures var a := LastAgr(s, verb).value; forall x :: x in a.before || x in a.after ==> x in s
    decreases |s|
  {
    hide IsAgr, First;
    assert First(s).Some? by { LastNeedsFirst(s, verb); }
    var c := First(s).value;
    assert forall x :: x in c.gap || x in c.word || x in c.rest ==> x in s;
    assert |c.rest| < |s| by { CutShorter(s); }
    if LastAgr(c.rest, verb).Some? { AroundParts(c.rest, verb); }
  }

  lemma NotInPointed(body: string, verb: string, agr: string, x: char)
    requires LastAgr(body, verb).Some? && x !in body && x !in agr
    ensures x !in PointBody(body, verb, agr)
  {
    hide LastAgr;
    AroundParts(body, verb);
  }

  lemma QuotedChars(agr: string)
    requires Quoted(agr)
    ensures '"' !in agr
  {
    assert forall k :: 0 < k < |agr| - 1 ==> agr[k] in agr[1..|agr| - 1];
  }

  /** A word before the agr word that does not open is cut off as before once that one is replaced. */
  lemma KeptHead(body: string, verb: string, agr: string)
    requires First(body).Some? && LastAgr(First(body).value.rest, verb).Some? && !Opens(First(body).value.word)
    requires Quoted(agr)
    ensures var c := First(body).value;
            var next := PointBody(c.rest, verb, agr);
            First(c.gap + c.word + next) == Some(Cut(c.gap, c.word, next))
  {
    hide First, LastAgr, Closed, Quoted;
    var c := First(body).value;
    var next := PointBody(c.rest, verb, agr);
    WordCuts(body);
    if !Closed(c.word) {
      assert c.rest != "" by { LastNeedsFirst(c.rest, verb); AllGapEmpty(); }
      PointedHead(c.rest, verb, agr);
      if IsQuote(c.word[0]) {
        QuotedChars(agr);
        NotInPointed(c.rest, verb, agr, '"');
      }
    }
    FirstCut(c.gap, c.word, next);
  }

  lemma AllGapEmpty()
    ensures First("").None?
  {}

  /** Pointing a sealed body at agr leaves it cut in the same place. */
  lemma {:induction false} PointAgain(body: string, verb: string, agr: string)
    requires LastAgr(body, verb).Some? && Sealed(body, verb) && Quoted(agr) && IsAgr(agr)
    ensures LastAgr(PointBody(body, verb, agr), verb) == LastAgr(body, verb)
    ensures Sealed(PointBody(body, verb, agr), verb)
    decreases |body|
  {
    hide First, IsAgr, Opens, Sealed, LastAgr, Quoted;
    assert First(body).Some? by { LastNeedsFirst(body, verb); }
    var c := First(body).value;
    LastAgrOf(body, verb, c.gap, c.word, c.rest);
    if LastAgr(c.rest, verb).Some? {
      var a, next := LastAgr(c.rest, verb).value, PointBody(c.rest, verb, agr);
      assert |c.rest| < |body| by { CutShorter(body); }
      PointAgain(c.rest, verb, agr);
      KeptHead(body, verb, agr);
      LastAgrOf(c.gap + c.word + next, verb, c.gap, c.word, next);
      FiveParts(c.gap, c.word, a.before, agr, a.after);
    } else {
      FirstQuoted(c.gap, agr, c.rest);
      LastAgrOf(c.gap + agr + c.rest, verb, c.gap, agr, c.rest);
    }
  }

  lemma PointTwice(body: string, verb: string, agr: string)
    requires LastAgr(body, verb).Some? && Sealed(body, verb) && Quoted(agr) && IsAgr(agr)
    ensures LastAgr(PointBody(body, verb, agr), verb).Some?
    ensures PointBody(PointBody(body, verb, agr), verb, agr) == PointBody(body, verb, agr)
  {
    PointAgain(body, verb, agr);
  }

  // ----- a quote that is not closed -----

  /** What is left of agr's own word when its first quote closed another: it still names agr, and
      pointing it at agr makes the text longer. `x` is the part of the path already passed over. */
  lemma {:induction false} TailFound(x: string, path: string, after: string, verb: string, agr: string)
    requires '\'' !in path && '"' !in path && path != "" && |agr| >= |path| + 2
    requires Tokens.Base(x + path) == "agr" && (x == "" || IsGap(path[0]))
    requires StartsGap(after) && First(after).Some? && First(after).value.word == verb && LastAgr(after, verb).None?
    ensures var tail := path + "'" + after;
            LastAgr(tail, verb).Some? && GapAfter(tail, verb) && |PointBody(tail, verb, agr)| > |tail|
    decreases |path|
  {
    hide First, LastAgr, Sealed, IsAgr, Tokens.Base, AllGap, NoGap;
    var tail := path + "'" + after;
    EndsInWord(x, path);
    var c := First(path).value;
    RunOfPath(path);
    if c.rest != "" {
      var later := c.rest + "'" + after;
      assert |c.rest| < |path| by { CutShorter(path); }
      assert x + path == (x + c.gap + c.word) + c.rest;
      TailFound(x + c.gap + c.word, c.rest, after, verb, agr);
      assert later[0] == c.rest[0];
      FirstRun(c.gap, c.word, later);
      FiveParts(c.gap, c.word, c.rest, "'", after);
      PointOf(tail, verb, agr, c.gap, c.word, later);
    } else {
      LastRunOfPath(x, c.gap, c.word, path);
      FirstRun(c.gap, c.word + "'", after);
      LastParts(c.gap, c.word, "'", after);
      LastAgrOf(tail, verb, c.gap, c.word + "'", after);
      assert |c.word| <= |path|;
    }
  }

  lemma LastParts(gap: string, word: string, quote: string, after: string)
    ensures (gap + word + "") + quote + after == gap + (word + quote) + after
  {}

  /** A path has no quotes, so its words are runs. */
  lemma RunOfPath(path: string)
    requires First(path).Some? && '\'' !in path && '"' !in path
    ensures var c := First(path).value;
            && NoGap(c.word) && c.word != "" && '\'' !in c.word && '"' !in c.word && !IsQuote(c.word[0])
            && '\'' !in c.rest && '"' !in c.rest && (c.rest == "" || IsGap(c.rest[0]))
            && path == c.gap + c.word + c.rest
  {
    hide First;
    var c := First(path).value;
    assert forall x :: x in c.word || x in c.rest ==> x in path;
    assert c.word[0] in c.word;
    RunEnds(path);
  }

  lemma {:induction false} TrimCat(x: string, w: string)
    requires x == "" || x[|x| - 1] != '/'
    ensures Tokens.TrimSlashes(x + w) == x + Tokens.TrimSlashes(w)
  {
    if w == "" {
      CatNil(x);
    } else if w[|w| - 1] == '/' {
      assert (x + w)[..|x + w| - 1] == x + w[..|w| - 1];
      TrimCat(x, w[..|w| - 1]);
    }
  }

  lemma LastSnoc(s: string, c: char)
    ensures Tokens.LastPart(s + [c]) == if c == '/' then "" else Tokens.LastPart(s) + [c]
  {
    assert (s + [c])[..|s|] == s;
  }

  lemma {:induction false} LastCat(x: string, w: string)
    ensures Tokens.LastPart(x + w) == if '/' in w then Tokens.LastPart(w) else Tokens.LastPart(x) + w
  {
    hide Tokens.LastPart;
    if w == "" {
      CatNil(x);
      CatNil(Tokens.LastPart(x));
    } else {
      var u, c := w[..|w| - 1], w[|w| - 1];
      assert w == u + [c];
      LastCat(x, u);
      CatThree(x, u, [c]);
      CatThree(Tokens.LastPart(x), u, [c]);
      LastSnoc(x + u, c);
      LastSnoc(u, c);
      SlashSnoc(u, c);
    }
  }

  lemma SlashSnoc(u: string, c: char)
    ensures '/' in u + [c] <==> '/' in u || c == '/'
  {}

  /** A text that ends in a gap has no part called agr at its end. */
  lemma GapEnds(x: string)
    requires x != "" && IsGap(x[|x| - 1])
    ensures Tokens.Base(x) != "agr" && Tokens.LastPart(x) != "" && IsGap(Tokens.LastPart(x)[|Tokens.LastPart(x)| - 1])
  {
    assert Tokens.TrimSlashes(x) == x;
    assert !IsGap("agr"[2]);
  }

  lemma EndsInWord(x: string, path: string)
    requires path != "" && Tokens.Base(x + path) == "agr"
    ensures First(path).Some?
  {
    if AllGap(path) {
      assert (x + path)[|x + path| - 1] == path[|path| - 1];
      GapEnds(x + path);
    }
  }

  /** The word behind the last gap of a path has the path's base name. */
  lemma BaseOfWord(x: string, w: string)
    requires w != "" && NoGap(w) && (x == "" || IsGap(x[|x| - 1])) && Tokens.Base(x + w) == "agr"
    ensures Tokens.Base(w) == "agr"
  {
    hide Tokens.LastPart;
    var t := Tokens.TrimSlashes(w);
    TrimCat(x, w);
    CatNil(x);
    if x == "" {
      assert x + w == w;
    } else {
      GapEnds(x);
      assert x + t == Tokens.TrimSlashes(x + w) && x + t != "";
      assert Tokens.LastPart(x + t) == "agr";
      LastCat(x, t);
      InnerGap(Tokens.LastPart(x), t);
    }
  }

  lemma InnerGap(a: string, b: string)
    requires a != "" && IsGap(a[|a| - 1])
    ensures a + b != "agr"
  {
    assert (a + b)[|a| - 1] == a[|a| - 1];
    assert NoGap("agr");
  }

  lemma LastRunOfPath(x: string, gap: string, word: string, path: string)
    requires path == gap + word + "" && AllGap(gap) && NoGap(word) && word != "" && '\'' !in word && '"' !in word
    requires Tokens.Base(x + path) == "agr" && (x == "" || IsGap(path[0]))
    ensures NoGap(word + "'") && IsAgr(word + "'")
  {
    hide Tokens.Base;
    assert x + path == (x + gap) + word;
    assert gap != "" ==> (x + gap)[|x + gap| - 1] == gap[|gap| - 1];
    assert gap == "" ==> path[0] == word[0];
    BaseOfWord(x + gap, word);
    assert word[0] in word && word[|word| - 1] in word;
    assert (word + "'")[..|word|] == word;
    assert TrimQuotes(word + "'") == TrimQuotes(word) == word;
  }

  /** agr's word taken apart. */
  function PathOf(agr: string): (path: string)
    requires Quoted(agr)
    ensures agr == "'" + path + "'" && '\'' !in path && '"' !in path
  {
    agr[1..|agr| - 1]
  }

  lemma PathIsAgr(agr: string)
    requires Quoted(agr)
    ensures IsAgr(agr) <==> Tokens.Base(PathOf(agr)) == "agr"
  {
    QuotedIsAgr(PathOf(agr));
  }

  /** The agr word of a text, from its last place on. */
  lemma {:induction false} AfterAgr(s: string, verb: string)
    requires LastAgr(s, verb).Some?
    ensures var after := LastAgr(s, verb).value.after;
            First(after).Some? && First(after).value.word == verb && LastAgr(after, verb).None?
    decreases |s|
  {
    hide IsAgr, First;
    assert First(s).Some? by { LastNeedsFirst(s, verb); }
    var c := First(s).value;
    assert |c.rest| < |s| by { CutShorter(s); }
    if LastAgr(c.rest, verb).Some? { AfterAgr(c.rest, verb); }
  }

  /** An open word takes in what follows up to agr's first quote. */
  lemma ClosedByAgr(gap: string, word: string, mid: string, after: string, verb: string, agr: string)
    requires AllGap(gap) && Opens(word) && '\'' !in word[1..] && '\'' !in mid && Quoted(agr) && IsAgr(agr)
    requires StartsGap(after) && First(after).Some? && First(after).value.word == verb && LastAgr(after, verb).None?
    ensures var t, tail := word + mid + "'", PathOf(agr) + "'" + after;
            && Closed(t) && gap + word + mid + agr + after == gap + t + tail
            && First(gap + t + tail) == Some(Cut(gap, t, tail))
            && LastAgr(tail, verb).Some? && GapAfter(tail, verb) && |PointBody(tail, verb, agr)| > |tail|
  {
    hide First, LastAgr, IsAgr, Quoted, GapAfter, StartsGap, PointBody;
    var t, path := word + mid + "'", PathOf(agr);
    PathIsAgr(agr);
    assert path != "" by { NoBase(); }
    assert "" + path == path;
    TailFound("", path, after, verb, agr);
    OpenClosed(word, mid);
    FirstClosed(gap, t, path + "'" + after);
    ClosedParts(gap, word, mid, "'", path, after);
  }

  lemma ClosedParts(gap: string, word: string, mid: string, quote: string, path: string, after: string)
    ensures gap + word + mid + (quote + path + quote) + after == gap + (word + mid + quote) + (path + quote + after)
  {}

  lemma NoBase()
    ensures Tokens.Base("") != "agr"
  {}

  lemma OpenClosed(word: string, mid: string)
    requires Opens(word) && '\'' !in word[1..] && '\'' !in mid
    ensures Closed(word + mid + "'")
  {
    var t := word + mid + "'";
    assert t[1..|t| - 1] == word[1..] + mid;
  }

  /** The other half: pointing an unsealed body at agr a second time makes it longer again. */
  lemma {:induction false} PointGrows(body: string, verb: string, agr: string)
    requires LastAgr(body, verb).Some? && !Sealed(body, verb) && GapAfter(body, verb) && Quoted(agr) && IsAgr(agr)
    ensures var out := PointBody(body, verb, agr);
            LastAgr(out, verb).Some? && GapAfter(out, verb) && |PointBody(out, verb, agr)| > |out|
    decreases |body|
  {
    hide First, IsAgr, Opens, Sealed, LastAgr, Quoted, StartsGap;
    assert First(body).Some? by { LastNeedsFirst(body, verb); }
    var c := First(body).value;
    LastAgrOf(body, verb, c.gap, c.word, c.rest);
    var a, next := LastAgr(c.rest, verb).value, PointBody(c.rest, verb, agr);
    PointOf(body, verb, agr, c.gap, c.word, c.rest);
    if Opens(c.word) {
      AfterAgr(c.rest, verb);
      OpenWord(body);
      AroundParts(c.rest, verb);
      ClosedByAgr(c.gap, c.word, a.before, a.after, verb, agr);
      var t, tail := c.word + a.before + "'", PathOf(agr) + "'" + a.after;
      assert c.gap + c.word + (a.before + agr + a.after) == c.gap + c.word + a.before + agr + a.after;
      PointOf(c.gap + t + tail, verb, agr, c.gap, t, tail);
    } else {
      assert |c.rest| < |body| by { CutShorter(body); }
      PointGrows(c.rest, verb, agr);
      KeptHead(body, verb, agr);
      PointOf(c.gap + c.word + next, verb, agr, c.gap, c.word, next);
    }
  }

  lemma OpenWord(s: string)
    requires First(s).Some? && Opens(First(s).value.word)
    ensures var c := First(s).value; '\'' !in c.word[1..] && '\'' !in c.rest && StartsGap(c.rest) == (c.rest != "")
  {
    WordCuts(s);
  }

  // ----- the key -----

  /** The chords setup takes: neither an option nor quoted. */
  predicate KeyOk(key: string) {
    key != "" && NoGap(key) && '\'' !in key && '"' !in key && !("-" <= key)
  }

  /** A chord a later line may pass on: a word of its own that is no option. */
  predicate KeyWord(key: string) {
    key != "" && (Closed(key) || (NoGap(key) && !IsQuote(key[0]))) && !("-" <= key)
  }

  /** What the key is put in front of: the body without its chord, if it has one. */
  function From(body: string, verb: string, key: string): string {
    if key != "" && HasChord(body, verb) then First(body).value.rest else body
  }

  /** The gap and the key put there. */
  function Lead(body: string, verb: string, key: string): string {
    if key == "" then "" else (if HasChord(body, verb) then First(body).value.gap else " ") + key
  }

  lemma WireParts(body: string, verb: string, agr: string, key: string)
    requires LastAgr(body, verb).Some?
    ensures var from := From(body, verb, key);
            && LastAgr(from, verb).Some? && WireBody(body, verb, agr, key) == Lead(body, verb, key) + PointBody(from, verb, agr)
            && LastAgr(from, verb).value.after == LastAgr(body, verb).value.after
            && forall x :: x in from ==> x in body
  {
    hide IsAgr, First;
    assert First(body).Some? by { LastNeedsFirst(body, verb); }
    var c := First(body).value;
    assert forall x :: x in c.rest ==> x in body;
    CatNil(PointBody(body, verb, agr));
  }

  /** The key is cut off whole before a gap. */
  lemma KeyFirst(gap: string, key: string, next: string)
    requires AllGap(gap) && (KeyOk(key) || KeyWord(key)) && StartsGap(next)
    ensures First(gap + key + next) == Some(Cut(gap, key, next))
  {
    assert key[0] in key;
    FirstCut(gap, key, next);
  }

  /** A body bound to a key is read back with that key as its chord, and wiring it again is pointing
      what follows the key. */
  lemma KeyReadBack(gap: string, key: string, next: string, verb: string, agr: string)
    requires AllGap(gap) && (KeyOk(key) || KeyWord(key)) && StartsGap(next) && LastAgr(next, verb).Some?
    ensures var out := gap + key + next;
            && LastAgr(out, verb).Some? && Chord(out, verb) == key && (GapAfter(out, verb) <==> GapAfter(next, verb))
            && WireBody(out, verb, agr, key) == gap + key + PointBody(next, verb, agr)
            && WireBody(out, verb, agr, "") == gap + key + PointBody(next, verb, agr)
  {
    hide First, LastAgr, IsAgr, PointBody;
    KeyFirst(gap, key, next);
    PointOf(gap + key + next, verb, agr, gap, key, next);
  }

  lemma LeadGap(body: string, verb: string, key: string)
    requires First(body).Some? && key != ""
    ensures exists gap :: AllGap(gap) && Lead(body, verb, key) == gap + key
    ensures IsGap(body[0]) ==> IsGap(Lead(body, verb, key)[0])
  {
    CutHead(body);
    var gap := if HasChord(body, verb) then First(body).value.gap else " ";
    assert AllGap(gap) && Lead(body, verb, key) == gap + key;
  }

  /** If nothing before the agr word opens and a gap follows the place of the key, a wired body is
      read back with the key as its chord, and wiring it again, with the key or without one,
      changes nothing. */
  lemma KeyedAgain(body: string, verb: string, agr: string, key: string)
    requires LastAgr(body, verb).Some? && Quoted(agr) && IsAgr(agr) && (KeyOk(key) || KeyWord(key))
    requires Sealed(From(body, verb, key), verb) && StartsGap(From(body, verb, key))
    ensures var out := WireBody(body, verb, agr, key);
            && LastAgr(out, verb).Some? && Chord(out, verb) == key
            && WireBody(out, verb, agr, key) == out && WireBody(out, verb, agr, "") == out
  {
    hide First, IsAgr, Sealed, LastAgr, Quoted, PointBody, From, Lead, WireBody;
    assert First(body).Some? by { LastNeedsFirst(body, verb); }
    WireParts(body, verb, agr, key);
    LeadGap(body, verb, key);
    var from := From(body, verb, key);
    var gap :| AllGap(gap) && Lead(body, verb, key) == gap + key;
    PointedHead(from, verb, agr);
    PointTwice(from, verb, agr);
    KeyReadBack(gap, key, PointBody(from, verb, agr), verb, agr);
  }

  /** A text that pointing makes longer is not left as it is by wiring either. */
  lemma KeyedDiffers(s: string, verb: string, agr: string, key: string)
    requires LastAgr(s, verb).Some? && |PointBody(s, verb, agr)| > |s| && (key == "" || KeyOk(key))
    ensures WireBody(s, verb, agr, key) != s
  {
    hide First, LastAgr, IsAgr, PointBody, NoGap, Closed;
    if key != "" && HasChord(s, verb) {
      var c := First(s).value;
      var next := PointBody(c.rest, verb, agr);
      PointOf(s, verb, agr, c.gap, c.word, c.rest);
      WordCuts(s);
      CatThree(c.gap, key, next);
      CatThree(c.gap, c.word, c.rest);
      SamePrefix(c.gap, key + next, c.word + c.rest);
      assert c.rest != "" by { LastNeedsFirst(c.rest, verb); AllGapEmpty(); }
      if Closed(c.word) {
        ClosedStarts(c.word);
        assert key[0] in key;
        HeadsDiffer(key, next, c.word, c.rest);
      } else {
        PointedHead(c.rest, verb, agr);
        SameRuns(key, next, c.word, c.rest);
      }
    }
  }

  lemma HeadsDiffer(a: string, x: string, b: string, y: string)
    requires a != "" && b != "" && a[0] != b[0]
    ensures a + x != b + y
  {
    assert (a + x)[0] == a[0] && (b + y)[0] == b[0];
  }

  lemma ClosedStarts(word: string)
    requires Closed(word)
    ensures IsQuote(word[0])
  {}

  lemma SamePrefix(a: string, b: string, c: string)
    ensures a + b == a + c ==> b == c
  {
    assert b == (a + b)[|a|..] && c == (a + c)[|a|..];
  }

  /** Two runs followed by gaps are equal if the texts are. */
  lemma SameRuns(a: string, x: string, b: string, y: string)
    requires NoGap(a) && NoGap(b) && StartsGap(x) && StartsGap(y)
    ensures a + x == b + y ==> a == b && x == y
  {
    SpanOf(a, x, false);
    SpanOf(b, y, false);
    assert a == (a + x)[..|a|] && b == (b + y)[..|b|] && x == (a + x)[|a|..] && y == (b + y)[|b|..];
  }

  /** Without a gap behind it the key runs into what follows, and is not read back. */
  lemma KeyAbuts(gap: string, key: string, next: string, verb: string, agr: string)
    requires AllGap(gap) && KeyOk(key) && next != "" && !IsGap(next[0])
    ensures LastAgr(gap + key + next, verb).Some? ==> WireBody(gap + key + next, verb, agr, key) != gap + key + next
  {
    hide First, LastAgr, IsAgr, NoGap;
    var n := Span(next, false);
    var u, v := next[..n], next[n..];
    var out := gap + key + next;
    RunInto(key, next, u, v);
    assert out == gap + (key + u) + v;
    FirstRun(gap, key + u, v);
    LastAgrOf(out, verb, gap, key + u, v);
    if LastAgr(out, verb).Some? {
      if LastAgr(v, verb).Some? {
        assert v != "" by { LastNeedsFirst(v, verb); AllGapEmpty(); }
        PointedHead(v, verb, agr);
        KeyNoOption(key, u);
        assert WireBody(out, verb, agr, key) == gap + key + PointBody(v, verb, agr);
        AfterKey(gap + key, PointBody(v, verb, agr), next);
      } else {
        assert WireBody(out, verb, agr, key) == " " + key + PointBody(out, verb, agr);
        assert PointBody(out, verb, agr) == gap + agr + v;
        AheadOfKey(gap, key, next, gap + agr + v);
      }
    }
  }

  lemma RunInto(key: string, next: string, u: string, v: string)
    requires KeyOk(key) && next != "" && !IsGap(next[0])
    requires u == next[..Span(next, false)] && v == next[Span(next, false)..]
    ensures next == u + v && u != "" && NoGap(key + u) && !IsQuote((key + u)[0]) && (v == "" || IsGap(v[0]))
  {
    assert key[0] in key;
  }

  lemma KeyNoOption(key: string, u: string)
    requires KeyOk(key)
    ensures !("-" <= key + u)
  {
    assert (key + u)[0] == key[0];
    assert "-" <= key <==> key[0] == '-';
  }

  lemma AfterKey(a: string, x: string, y: string)
    requires StartsGap(x) && y != "" && !IsGap(y[0])
    ensures a + x != a + y
  {
    assert (a + x)[|a|] == x[0] && (a + y)[|a|] == y[0];
  }

  /** A line whose agr word is the one the key ran into gets the key a second time. */
  lemma AheadOfKey(gap: string, key: string, next: string, pointed: string)
    requires AllGap(gap) && KeyOk(key) && next != "" && !IsGap(next[0]) && gap <= pointed
    ensures " " + key + pointed != gap + key + next
  {
    var a, b := " " + key + pointed, gap + key + next;
    assert key[0] in key && !IsGap(key[0]);
    if gap == "" {
      assert a[0] == ' ' && b[0] == key[0];
    } else if |gap| > 1 {
      assert a[1] == key[0] && b[1] == gap[1];
    } else {
      assert a[1 + |key|] == pointed[0] == gap[0] && b[1 + |key|] == next[0];
    }
  }

  // ----- command lines -----

  lemma LineParts(line: string, verb: string)
    requires AsCommand(line, verb).Some?
    ensures var l := AsCommand(line, verb).value;
            line == l.head + l.name + l.body && LastAgr(l.body, verb).Some? && l.name != "" && !IsGap(l.name[0])
  {
    hide First, LastAgr;
    var c := First(line).value;
    var n := First(c.rest).value;
    assert c.gap + "command" + (n.gap + n.word + n.rest) == (c.gap + "command" + n.gap) + n.word + n.rest;
  }

  lemma CommandIsRun()
    ensures NoGap("command") && !IsQuote("command"[0])
  {}

  /** A line put together from a command's head and name and a body: a command if the body has an
      agr word. */
  lemma LineFrom(g0: string, g1: string, name: string, body: string, verb: string)
    requires AllGap(g0) && AllGap(g1) && g1 != "" && CutsOff(name, body)
    ensures AsCommand(g0 + "command" + g1 + name + body, verb)
         == if LastAgr(body, verb).Some? then Some(Line(g0 + "command" + g1, name, body)) else None
  {
    hide First, LastAgr, CutsOff;
    var tail := g1 + name + body;
    CommandIsRun();
    assert tail[0] == g1[0];
    FirstRun(g0, "command", tail);
    FirstCut(g1, name, body);
    assert g0 + "command" + g1 + name + body == g0 + "command" + tail;
  }

  /** The pieces in front of a command's name. */
  lemma HeadOfLine(line: string, verb: string) returns (g0: string, g1: string)
    requires AsCommand(line, verb).Some?
    ensures var l := AsCommand(line, verb).value;
            && AllGap(g0) && AllGap(g1) && g1 != "" && l.head == g0 + "command" + g1 && CutsOff(l.name, l.body)
  {
    hide First, LastAgr, CutsOff;
    var c := First(line).value;
    CommandIsRun();
    RunEnds(line);
    CutHead(c.rest);
    WordCuts(c.rest);
    g0, g1 := c.gap, First(c.rest).value.gap;
  }

  /** The name starts with a double quote that is not closed. */
  predicate OpensDouble(name: string) { name != "" && name[0] == '"' && !Closed(name) }

  /** A command line keeps its name when its body is replaced by one that starts as the old one did. */
  lemma Rebodied(line: string, verb: string, body: string)
    requires AsCommand(line, verb).Some? && !Opens(AsCommand(line, verb).value.name) && body != ""
    requires IsGap(body[0]) || Closed(AsCommand(line, verb).value.name)
    requires OpensDouble(AsCommand(line, verb).value.name) ==> '"' !in body
    ensures var l := AsCommand(line, verb).value;
            AsCommand(l.head + l.name + body, verb)
            == if LastAgr(body, verb).Some? then Some(Line(l.head, l.name, body)) else None
  {
    hide First, LastAgr, AsCommand;
    var l := AsCommand(line, verb).value;
    LineParts(line, verb);
    var g0, g1 := HeadOfLine(line, verb);
    LineFrom(g0, g1, l.name, body, verb);
  }

  /** A name that opens takes in the body up to agr's first quote. */
  lemma OpenedName(line: string, verb: string, t: string, body: string)
    requires AsCommand(line, verb).Some? && Closed(t) && LastAgr(body, verb).Some?
    ensures var l := AsCommand(line, verb).value; AsCommand(l.head + t + body, verb) == Some(Line(l.head, t, body))
  {
    hide First, LastAgr, AsCommand;
    var g0, g1 := HeadOfLine(line, verb);
    LineFrom(g0, g1, t, body, verb);
  }

  /** What a line must look like for its rewriting to be stable: neither the name nor a word before
      the agr word opens, and there is a gap where a key is put. */
  predicate Stable(l: Line, verb: string, key: string) {
    && !Opens(l.name) && Sealed(From(l.body, verb, key), verb)
    && (key != "" ==> StartsGap(From(l.body, verb, key)))
  }

  /** The key is one setup takes, or a chord passed on that the name does not take in. */
  predicate KeyFits(l: Line, key: string) {
    key == "" || KeyOk(key) || (KeyWord(key) && (OpensDouble(l.name) ==> '"' !in key))
  }

  /** A body wired for a key still starts as the old one did, and has no double quote it had not. */
  lemma WiredStart(line: string, verb: string, agr: string, key: string)
    requires AsCommand(line, verb).Some? && LastAgr(AsCommand(line, verb).value.body, verb).Some?
    requires Quoted(agr) && KeyFits(AsCommand(line, verb).value, key)
    ensures var l := AsCommand(line, verb).value;
            var body := WireBody(l.body, verb, agr, key);
            body != "" && (IsGap(body[0]) || Closed(l.name) || Opens(l.name)) && (OpensDouble(l.name) ==> '"' !in body)
  {
    hide First, LastAgr, IsAgr, NoGap, Sealed, AsCommand, From, Lead, PointBody, WireBody, Quoted;
    var l := AsCommand(line, verb).value;
    assert First(l.body).Some? by { LastNeedsFirst(l.body, verb); }
    WireParts(l.body, verb, agr, key);
    PointedFull(From(l.body, verb, key), verb, agr);
    LineParts(line, verb);
    var g0, g1 := HeadOfLine(line, verb);
    assert l.body != "" by { AllGapEmpty(); }
    if IsGap(l.body[0]) { StartKept(l.body, verb, agr, key); }
    if OpensDouble(l.name) {
      QuotedChars(agr);
      NotInPointed(From(l.body, verb, key), verb, agr, '"');
      NotInLead(l.body, verb, key, '"');
    }
  }

  lemma PointedFull(body: string, verb: string, agr: string)
    requires LastAgr(body, verb).Some? && Quoted(agr)
    ensures PointBody(body, verb, agr) != ""
  {
    hide LastAgr;
    assert agr != "";
  }

  lemma StartKept(body: string, verb: string, agr: string, key: string)
    requires LastAgr(body, verb).Some? && body != "" && IsGap(body[0])
    ensures StartsGap(WireBody(body, verb, agr, key))
  {
    hide First, LastAgr, IsAgr, PointBody;
    assert First(body).Some? by { LastNeedsFirst(body, verb); }
    CutHead(body);
    PointedHead(body, verb, agr);
  }

  lemma NotInLead(body: string, verb: string, key: string, x: char)
    requires First(body).Some? && x !in body && x !in key && x != ' '
    ensures x !in Lead(body, verb, key)
  {
    hide First;
    assert forall y :: y in First(body).value.gap ==> y in body;
  }

  /** A rewritten line is read back as the line that was written, and rewriting it again, with the
      key or without one, changes nothing. */
  lemma LineAgain(line: string, verb: string, agr: string, key: string)
    requires AsCommand(line, verb).Some? && Quoted(agr) && IsAgr(agr)
    requires Stable(AsCommand(line, verb).value, verb, key) && KeyFits(AsCommand(line, verb).value, key)
    ensures var l := AsCommand(line, verb).value;
            LastAgr(l.body, verb).Some? &&
            var body := WireBody(l.body, verb, agr, key);
            && AsCommand(WireLine(l, verb, agr, key), verb) == Some(Line(l.head, l.name, body))
            && LastAgr(body, verb).Some? && WireBody(body, verb, agr, key) == body && WireBody(body, verb, agr, "") == body
            && (key != "" ==> Chord(body, verb) == key)
  {
    hide First, LastAgr, Sealed, Quoted, IsAgr, Closed, AsCommand, KeyOk, KeyWord, NoGap;
    LineParts(line, verb);
    var l := AsCommand(line, verb).value;
    WiredStart(line, verb, agr, key);
    if key == "" {
      PointTwice(l.body, verb, agr);
    } else {
      KeyedAgain(l.body, verb, agr, key);
    }
    Rebodied(line, verb, WireBody(l.body, verb, agr, key));
  }

  /** The other half: a line that is not stable is not read back as written, or is changed again, with
      the same key or, if the key had a gap behind it, without one. */
  lemma LineChanges(line: string, verb: string, agr: string, key: string, again: string)
    requires AsCommand(line, verb).Some? && Quoted(agr) && IsAgr(agr) && (key == "" || KeyOk(key))
    requires again == key || (again == "" && StartsGap(From(AsCommand(line, verb).value.body, verb, key)))
    requires LastAgr(AsCommand(line, verb).value.body, verb).Some? && GapAfter(AsCommand(line, verb).value.body, verb)
    requires !Stable(AsCommand(line, verb).value, verb, key)
    ensures ChangesAgain(WireLine(AsCommand(line, verb).value, verb, agr, key), verb, agr, again)
  {
    hide First, LastAgr, Sealed, Quoted, IsAgr, Closed, AsCommand, KeyOk, NoGap, GapAfter, From, WireBody, Opens, ChangesAgain;
    LineParts(line, verb);
    var l := AsCommand(line, verb).value;
    if Opens(l.name) {
      OpenNameChanges(line, verb, agr, key, again);
    } else if key != "" && !StartsGap(From(l.body, verb, key)) {
      AbuttingChanges(line, verb, agr, key);
    } else {
      UnsealedChanges(line, verb, agr, key, again);
    }
  }

  /** Wiring the line once more gives another line, if it is a command at all. */
  predicate ChangesAgain(line: string, verb: string, agr: string, key: string) {
    AsCommand(line, verb).Some? ==>
      LastAgr(AsCommand(line, verb).value.body, verb).Some? && WireLine(AsCommand(line, verb).value, verb, agr, key) != line
  }

  lemma BodyChanges(l: Line, verb: string, agr: string, key: string)
    requires AsCommand(l.head + l.name + l.body, verb) == Some(l) && LastAgr(l.body, verb).Some?
    requires WireBody(l.body, verb, agr, key) != l.body
    ensures ChangesAgain(l.head + l.name + l.body, verb, agr, key)
  {
    hide AsCommand, LastAgr, WireBody;
    SamePrefix(l.head + l.name, WireBody(l.body, verb, agr, key), l.body);
  }

  lemma OpenNameChanges(line: string, verb: string, agr: string, key: string, again: string)
    requires AsCommand(line, verb).Some? && Quoted(agr) && IsAgr(agr) && (key == "" || KeyOk(key)) && again in ["", key]
    requires LastAgr(AsCommand(line, verb).value.body, verb).Some? && GapAfter(AsCommand(line, verb).value.body, verb)
    requires Opens(AsCommand(line, verb).value.name)
    ensures ChangesAgain(WireLine(AsCommand(line, verb).value, verb, agr, key), verb, agr, again)
    ensures AsCommand(WireLine(AsCommand(line, verb).value, verb, agr, key), verb).Some?
  {
    hide First, LastAgr, Sealed, Quoted, IsAgr, AsCommand, NoGap, From, Lead, WireBody, ChangesAgain, Closed;
    var l := AsCommand(line, verb).value;
    LineParts(line, verb);
    var g0, g1 := HeadOfLine(line, verb);
    WireParts(l.body, verb, agr, key);
    var from, lead := From(l.body, verb, key), Lead(l.body, verb, key);
    var a := LastAgr(from, verb).value;
    assert First(l.body).Some? by { LastNeedsFirst(l.body, verb); }
    assert '\'' !in l.name[1..] && '\'' !in l.body;
    NotInLead(l.body, verb, key, '\'');
    AroundParts(from, verb);
    AfterAgr(from, verb);
    assert AllGap("");
    ClosedByAgr("", l.name, lead + a.before, a.after, verb, agr);
    var t, tail := l.name + (lead + a.before) + "'", PathOf(agr) + "'" + a.after;
    OpenedName(line, verb, t, tail);
    KeyedDiffers(tail, verb, agr, again);
    OpenedParts(l.head, l.name, lead, a.before, agr, a.after, t, tail);
    assert l.head + l.name + WireBody(l.body, verb, agr, key) == l.head + t + tail;
    BodyChanges(Line(l.head, t, tail), verb, agr, again);
  }

  lemma OpenedParts(
    head: string, name: string, lead: string, before: string, agr: string, after: string, t: string, tail: string)
    requires "" + name + (lead + before) + agr + after == "" + t + tail
    ensures head + name + (lead + (before + agr + after)) == head + t + tail
  {
    assert head + name + (lead + (before + agr + after)) == head + ("" + name + (lead + before) + agr + after);
    assert head + t + tail == head + ("" + t + tail);
  }

  lemma AbuttingChanges(line: string, verb: string, agr: string, key: string)
    requires AsCommand(line, verb).Some? && Quoted(agr) && KeyOk(key)
    requires LastAgr(AsCommand(line, verb).value.body, verb).Some? && !Opens(AsCommand(line, verb).value.name)
    requires !StartsGap(From(AsCommand(line, verb).value.body, verb, key))
    ensures ChangesAgain(WireLine(AsCommand(line, verb).value, verb, agr, key), verb, agr, key)
  {
    hide First, LastAgr, Sealed, Quoted, IsAgr, AsCommand, NoGap, From, Lead, WireBody, Closed, PointBody;
    var l := AsCommand(line, verb).value;
    WiredStart(line, verb, agr, key);
    WireParts(l.body, verb, agr, key);
    assert First(l.body).Some? by { LastNeedsFirst(l.body, verb); }
    LeadGap(l.body, verb, key);
    var from := From(l.body, verb, key);
    var gap :| AllGap(gap) && Lead(l.body, verb, key) == gap + key;
    var next := PointBody(from, verb, agr);
    PointedFull(from, verb, agr);
    PointedNoHead(from, verb, agr);
    KeyAbuts(gap, key, next, verb, agr);
    Rebodied(line, verb, gap + key + next);
    if LastAgr(gap + key + next, verb).Some? { BodyChanges(Line(l.head, l.name, gap + key + next), verb, agr, key); }
  }

  /** A pointed text that did not start with a gap does not start with one now. */
  lemma PointedNoHead(body: string, verb: string, agr: string)
    requires LastAgr(body, verb).Some? && Quoted(agr) && !StartsGap(body)
    ensures !StartsGap(PointBody(body, verb, agr))
  {
    hide IsAgr;
    assert First(body).Some? by { LastNeedsFirst(body, verb); }
    CutHead(body);
    var c := First(body).value;
    assert body != "" by { AllGapEmpty(); }
    assert !IsGap('\'');
    LastAgrOf(body, verb, c.gap, c.word, c.rest);
    if LastAgr(c.rest, verb).Some? { assert LastAgr(body, verb).value.before[0] == c.word[0]; }
  }

  lemma NoLead(body: string, verb: string)
    ensures Lead(body, verb, "") == "" && From(body, verb, "") == body
  {}

  lemma UnsealedChanges(line: string, verb: string, agr: string, key: string, again: string)
    requires AsCommand(line, verb).Some? && Quoted(agr) && IsAgr(agr) && (key == "" || KeyOk(key)) && again in ["", key]
    requires LastAgr(AsCommand(line, verb).value.body, verb).Some? && GapAfter(AsCommand(line, verb).value.body, verb)
    requires !Opens(AsCommand(line, verb).value.name)
    requires var from := From(AsCommand(line, verb).value.body, verb, key); !Sealed(from, verb) && (key != "" ==> StartsGap(from))
    ensures ChangesAgain(WireLine(AsCommand(line, verb).value, verb, agr, key), verb, agr, again)
    ensures AsCommand(WireLine(AsCommand(line, verb).value, verb, agr, key), verb).Some?
  {
    hide First, LastAgr, Sealed, Quoted, IsAgr, AsCommand, NoGap, From, Lead, WireBody, KeyOk, Closed, PointBody;
    var l := AsCommand(line, verb).value;
    var body := WireBody(l.body, verb, agr, key);
    WiredStart(line, verb, agr, key);
    WireParts(l.body, verb, agr, key);
    var from := From(l.body, verb, key);
    var next := PointBody(from, verb, agr);
    PointGrows(from, verb, agr);
    if key == "" {
      CatNil(next);
      NoLead(l.body, verb);
      KeyedDiffers(next, verb, agr, "");
    } else {
      assert First(l.body).Some? by { LastNeedsFirst(l.body, verb); }
      LeadGap(l.body, verb, key);
      var gap :| AllGap(gap) && Lead(l.body, verb, key) == gap + key;
      PointedHead(from, verb, agr);
      KeyReadBack(gap, key, next, verb, agr);
    }
    Rebodied(line, verb, body);
    BodyChanges(Line(l.head, l.name, body), verb, agr, again);
  }
}
