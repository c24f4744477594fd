/** agr setup's rewriting of agterm's hooks file. */
module HookConfig {
  import opened Results
  import opened Sequences
  import opened ConfigLines
  import opened ConfigWords
  import Tokens

  const NOTE_START := "agr setup: on a row bound with `agr open`,"
  const NOTE_MIDDLE := " \U{2318}D opens <name>-2 and"
  const NOTE_END := " \U{2318}J a shell on its host"
  const NOTE_TEXT := NOTE_START + NOTE_MIDDLE + NOTE_END
  const NOTE := "# " + NOTE_TEXT

  datatype Kind = PaneSplit | PaneScratch

  function EventName(kind: Kind): string { if kind.PaneSplit? then "pane.split" else "pane.scratch" }

  function VerbName(kind: Kind): string { if kind.PaneSplit? then "on-split" else "on-scratch" }

  /** A hook line cut around the word that names agr. */
  datatype Hook = Hook(kind: Kind, prefix: string, rest: string)

  function KindOf(event: string, verb: string): (r: Option<Kind>)
    ensures r.Some? ==> event == EventName(r.value) && verb == VerbName(r.value)
  {
    if event == "pane.split" && verb == "on-split" then Some(PaneSplit)
    else if event == "pane.scratch" && verb == "on-scratch" then Some(PaneScratch)
    else None
  }

  /** The kind of hook for event when what follows the agr word is its verb and at most a comment. */
  function VerbKind(event: string, rest: string): Option<Kind> {
    var verb := First(rest);
    if verb.None? || KindOf(event, verb.value.word).None? then None
    else
      var next := First(verb.value.rest);
      if next.Some? && !("#" <= next.value.word) then None else KindOf(event, verb.value.word)
  }

  /** A line after its event: the word that names agr, then the verb. */
  function AfterEvent(prefix: string, event: string, s: string): Option<Hook> {
    var c := First(s);
    if c.None? || !IsAgr(c.value.word) || VerbKind(event, c.value.rest).None? then None
    else Some(Hook(VerbKind(event, c.value.rest).value, prefix + c.value.gap, c.value.rest))
  }

  function AfterOn(prefix: string, s: string): Option<Hook> {
    var c := First(s);
    if c.None? then None else AfterEvent(prefix + c.value.gap + c.value.word, c.value.word, c.value.rest)
  }

  /** A line `on <event> <agr> <verb>`, however agr is spelled. */
  function AsHook(line: string): Option<Hook> {
    var c := First(line);
    if c.None? || c.value.word != "on" then None else AfterOn(c.value.gap + "on", c.value.rest)
  }

  /** A hook line by its words: on, the event, a word that names agr, the verb of that event, and then
      nothing or a comment. */
  ghost predicate IsHookOf(words: seq<string>, kind: Kind) {
    && |words| >= 4 && words[0] == "on" && IsAgr(words[2]) && (|words| == 4 || (words[4] != "" && words[4][0] == '#'))
    && match kind
       case PaneSplit => words[1] == "pane.split" && words[3] == "on-split"
       case PaneScratch => words[1] == "pane.scratch" && words[3] == "on-scratch"
  }

  lemma HookIs(line: string, kind: Kind)
    ensures AsHook(line).Some? && AsHook(line).value.kind == kind <==> IsHookOf(AllWords(line), kind)
  {
    hide IsAgr, First, AllWords, VerbKind;
    NoWords(line);
    if First(line).Some? {
      WordsCut(line);
      var s := First(line).value.rest;
      NoWords(s);
      if First(s).Some? {
        WordsCut(s);
        AfterEventIs(First(s).value.word, First(s).value.rest, kind);
        var words, later := AllWords(line), AllWords(First(s).value.rest);
        assert words[2..] == words[1..][1..] == later;
        assert forall k :: 0 <= k < |later| ==> later[k] == words[k + 2];
      }
    }
  }

  lemma AfterEventIs(event: string, s: string, kind: Kind)
    ensures First(s).Some? && VerbKind(event, First(s).value.rest) == Some(kind) <==>
              var words := AllWords(s);
              && |words| >= 2 && event == EventName(kind) && words[1] == VerbName(kind)
              && (|words| == 2 || (words[2] != "" && words[2][0] == '#'))
    ensures First(s).Some? <==> AllWords(s) != []
    ensures First(s).Some? ==> AllWords(s)[0] == First(s).value.word
  {
    hide IsAgr, First, AllWords;
    NoWords(s);
    if First(s).Some? {
      WordsCut(s);
      var rest := First(s).value.rest;
      NoWords(rest);
      if First(rest).Some? {
        WordsCut(rest);
        NoWords(First(rest).value.rest);
        if First(First(rest).value.rest).Some? { WordsCut(First(rest).value.rest); }
      }
    }
  }

  function Pointed(h: Hook, agr: string): string { h.prefix + agr + h.rest }

  // ----- lines -----

  datatype Pass = Pass(kept: seq<string>, seen: set<Kind>)

  function StepLine(p: Pass, line: string, agr: string): Pass {
    var h := AsHook(line);
    if h.None? then p.(kept := p.kept + [line])
    else if h.value.kind in p.seen then p.(kept := DropNote(p.kept, NOTE))
    else Pass(p.kept + [Pointed(h.value, agr)], p.seen + {h.value.kind})
  }

  function PassOver(p: Pass, lines: seq<string>, agr: string): Pass
    decreases |lines|
  {
    if lines == [] then p else PassOver(StepLine(p, lines[0], agr), lines[1..], agr)
  }

  /** The event's name padded to 14 columns. */
  function MissingLine(kind: Kind, agr: string): string {
    "on " + (if kind.PaneSplit? then "pane.split    " else "pane.scratch  ") + " " + agr + " " + VerbName(kind)
  }

  function Missing(seen: set<Kind>, agr: string): seq<string> {
    (if PaneSplit in seen then [] else [MissingLine(PaneSplit, agr)])
    + (if PaneScratch in seen then [] else [MissingLine(PaneScratch, agr)])
  }

  function WiredLines(content: string, agr: string): seq<string> {
    var p := PassOver(Pass([], {}), SplitLines(content), agr);
    WithAdded(p.kept, NOTE, Missing(p.seen, agr))
  }

  function WireHooks(content: string, agr: string): string { Text(WiredLines(content, agr)) }

  /** wireHooks: one loop over the lines, with the kinds seen and the lines kept so far. */
  method RewriteHooks(content: string, agr: string) returns (r: string)
    ensures r == WireHooks(content, agr)
  {
    var lines := SplitLines(content);
    var seen: set<Kind> := {};
    var kept: seq<string> := [];
    for i := 0 to |lines|
      invariant PassOver(Pass(kept, seen), lines[i..], agr) == PassOver(Pass([], {}), lines, agr)
    {
      var line := lines[i];
      assert lines[i..][0] == line && lines[i..][1..] == lines[i + 1..];
      var h := AsHook(line);
      if h.Some? {
        if h.value.kind in seen {
          kept := DropNote(kept, NOTE);
          continue;
        }
        seen := seen + {h.value.kind};
        line := Pointed(h.value, agr);
      }
      kept := kept + [line];
    }
    var missing: seq<string> := [];
    if PaneSplit !in seen {
      missing := missing + [MissingLine(PaneSplit, agr)];
    }
    if PaneScratch !in seen {
      missing := missing + [MissingLine(PaneScratch, agr)];
    }
    assert missing == Missing(seen, agr);
    return Text(WithAdded(kept, NOTE, missing));
  }

  // ----- recognising a rewritten line -----

  lemma GapBefore(s: string)
    requires First(s).Some? && IsGap(s[0])
    ensures First(s).value.gap != "" && IsGap(First(s).value.gap[0])
  {
    var c := First(s).value;
    CatThree(c.gap, c.word, c.rest);
    HeadOf(c.gap, c.word + c.rest);
  }

  lemma EventIsRun(kind: Kind)
    ensures var w := EventName(kind); w != "" && NoGap(w) && !IsQuote(w[0])
  {}

  lemma VerbIsRun(kind: Kind)
    ensures var w := VerbName(kind); w != "" && NoGap(w) && !IsQuote(w[0])
  {}

  lemma OnIsRun()
    ensures NoGap("on") && !IsQuote("on"[0])
  {}

  lemma EventAgain(prefix: string, event: string, g: string, agr: string, rest: string)
    requires AllGap(g) && Quoted(agr) && VerbKind(event, rest).Some?
    ensures AfterEvent(prefix, event, g + agr + rest)
         == if IsAgr(agr) then Some(Hook(VerbKind(event, rest).value, prefix + g, rest)) else None
  {
    FirstQuoted(g, agr, rest);
  }

  lemma OnAgain(prefix: string, g1: string, kind: Kind, g2: string, agr: string, rest: string)
    requires AllGap(g1) && AllGap(g2) && g2 != "" && Quoted(agr) && VerbKind(EventName(kind), rest) == Some(kind)
    ensures AfterOn(prefix, g1 + EventName(kind) + (g2 + agr + rest))
         == if IsAgr(agr) then Some(Hook(kind, prefix + g1 + EventName(kind) + g2, rest)) else None
  {
    EventIsRun(kind);
    assert (g2 + agr + rest)[0] == g2[0];
    FirstRun(g1, EventName(kind), g2 + agr + rest);
    EventAgain(prefix + g1 + EventName(kind), EventName(kind), g2, agr, rest);
  }

  /** A line put together from the pieces of a hook is that hook, if the word names agr. */
  lemma LineAgain(g0: string, g1: string, kind: Kind, g2: string, agr: string, rest: string)
    requires AllGap(g0) && AllGap(g1) && AllGap(g2) && g1 != "" && g2 != "" && Quoted(agr)
    requires VerbKind(EventName(kind), rest) == Some(kind)
    ensures AsHook(g0 + "on" + (g1 + EventName(kind) + (g2 + agr + rest)))
         == if IsAgr(agr) then Some(Hook(kind, g0 + "on" + g1 + EventName(kind) + g2, rest)) else None
  {
    var tail := g1 + EventName(kind) + (g2 + agr + rest);
    OnIsRun();
    assert tail[0] == g1[0];
    FirstRun(g0, "on", tail);
    OnAgain(g0 + "on", g1, kind, g2, agr, rest);
  }

  lemma Regroup(g0: string, on: string, g1: string, event: string, g2: string, agr: string, rest: string)
    ensures g0 + on + (g1 + event + (g2 + agr + rest)) == (g0 + on + g1 + event + g2) + agr + rest
  {}

  lemma KindOfVerb(event: string, rest: string)
    requires VerbKind(event, rest).Some?
    ensures event == EventName(VerbKind(event, rest).value)
  {}

  /** A recognised line pointed at another agr keeps everything else. */
  lemma PointedIsHook(line: string, agr: string)
    requires AsHook(line).Some? && Quoted(agr)
    ensures AsHook(Pointed(AsHook(line).value, agr)) == if IsAgr(agr) then AsHook(line) else None
  {
    var h := AsHook(line).value;
    var c0 := First(line).value;
    var c1 := First(c0.rest).value;
    var c2 := First(c1.rest).value;
    KindOfVerb(c1.word, c2.rest);
    OnIsRun();
    RunEnds(line);
    GapBefore(c0.rest);
    EventIsRun(h.kind);
    RunEnds(c0.rest);
    GapBefore(c1.rest);
    LineAgain(c0.gap, c1.gap, h.kind, c2.gap, agr, h.rest);
    Regroup(c0.gap, "on", c1.gap, c1.word, c2.gap, agr, h.rest);
  }

  lemma FirstOfEmpty()
    ensures First("").None?
  {}

  lemma KindOfNames(kind: Kind)
    ensures KindOf(EventName(kind), VerbName(kind)) == Some(kind)
  {}

  lemma MissingVerb(kind: Kind)
    ensures VerbKind(EventName(kind), " " + VerbName(kind)) == Some(kind)
  {
    hide EventName, VerbName, KindOf, First;
    KindOfNames(kind);
    VerbIsRun(kind);
    assert First("").None? by { FirstOfEmpty(); }
    FirstRun(" ", VerbName(kind), "");
    CatNil(" " + VerbName(kind));
  }

  lemma MissingPieces(kind: Kind, agr: string, g2: string)
    requires g2 == if kind.PaneSplit? then "     " else "   "
    ensures MissingLine(kind, agr) == "" + "on" + (" " + EventName(kind) + (g2 + agr + (" " + VerbName(kind))))
  {
    var rest := " " + VerbName(kind);
    var event := if kind.PaneSplit? then "pane.split    " else "pane.scratch  ";
    assert event + " " == EventName(kind) + g2;
    assert "on " == "on" + " ";
    SixParts("on", " ", event, EventName(kind), g2, agr, rest, VerbName(kind));
  }

  lemma SixParts(on: string, gap: string, event: string, name: string, g2: string, agr: string, rest: string, verb: string)
    requires event + gap == name + g2 && rest == gap + verb
    ensures (on + gap) + event + gap + agr + gap + verb == "" + on + (gap + name + (g2 + agr + rest))
  {
    assert (on + gap) + event + gap + agr + gap + verb == (on + gap) + (event + gap) + agr + rest;
  }

  lemma MissingIsHook(kind: Kind, agr: string)
    requires Quoted(agr)
    ensures var line := MissingLine(kind, agr);
            if IsAgr(agr) then AsHook(line).Some? && AsHook(line).value.kind == kind && Pointed(AsHook(line).value, agr) == line
            else AsHook(line).None?
  {
    hide AsHook, VerbKind, MissingLine;
    var rest := " " + VerbName(kind);
    var g2 := if kind.PaneSplit? then "     " else "   ";
    MissingVerb(kind);
    LineAgain("", " ", kind, g2, agr, rest);
    MissingPieces(kind, agr, g2);
    Regroup("", "on", " ", EventName(kind), g2, agr, rest);
  }

  lemma CommentIsNoHook(text: string)
    ensures AsHook("# " + text).None?
  {
    FirstRun("", "#", " " + text);
    CatNil("#");
    CatThree("#", " ", text);
    assert "#" + " " == "# ";
  }

  lemma BlankIsNoHook(line: string)
    requires IsBlankLine(line)
    ensures AsHook(line).None?
  {
    if First(line).Some? {
      var c := First(line).value;
      assert line[|c.gap|] == c.word[0];
    }
  }

  // ----- what one pass does to the hooks -----

  /** How many lines are hooks of a kind. */
  function Count(lines: seq<string>, kind: Kind): nat {
    if lines == [] then 0 else (if IsKind(lines[0], kind) then 1 else 0) + Count(lines[1..], kind)
  }

  predicate IsKind(line: string, kind: Kind) { AsHook(line).Some? && AsHook(line).value.kind == kind }

  lemma {:induction false} CountCat(a: seq<string>, b: seq<string>, kind: Kind)
    ensures Count(a + b, kind) == Count(a, kind) + Count(b, kind)
  {
    hide AsHook, IsKind;
    if a == [] {
      assert a + b == b;
    } else {
      assert (a + b)[1..] == a[1..] + b;
      CountCat(a[1..], b, kind);
    }
  }

  lemma CountSnoc(lines: seq<string>, line: string, kind: Kind)
    ensures Count(lines + [line], kind) == Count(lines, kind) + (if IsKind(line, kind) then 1 else 0)
  {
    hide AsHook, IsKind;
    CountCat(lines, [line], kind);
    assert [line][1..] == [];
  }

  /** Every hook among the lines runs agr. */
  ghost predicate PointedAt(lines: seq<string>, agr: string) {
    forall k :: 0 <= k < |lines| && AsHook(lines[k]).Some? ==> lines[k] == Pointed(AsHook(lines[k]).value, agr)
  }

  /** What the loop keeps: each kind seen is on one line that runs agr. When agr's own name is not
      agr, a line pointed at it is no hook any more. */
  ghost predicate PassOk(p: Pass, agr: string) {
    && NoNewlines(p.kept)
    && PointedAt(p.kept, agr)
    && Counted(p.kept, p.seen, agr)
  }

  lemma {:induction false} DropNoteKeeps(kept: seq<string>)
    ensures DropNote(kept, NOTE) <= kept && forall kind: Kind :: Count(DropNote(kept, NOTE), kind) == Count(kept, kind)
  {
    hide AsHook, IsBlankLine;
    if kept != [] && kept[|kept| - 1] == NOTE {
      var above := kept[..|kept| - 1];
      assert kept == above + [NOTE];
      CommentIsNoHook(NOTE_TEXT);
      forall kind: Kind ensures Count(above, kind) == Count(kept, kind) { CountSnoc(above, NOTE, kind); }
      if above != [] && IsBlankLine(above[|above| - 1]) {
        var line := above[|above| - 1];
        assert above == above[..|above| - 1] + [line];
        BlankIsNoHook(line);
        forall kind: Kind ensures Count(above[..|above| - 1], kind) == Count(above, kind) {
          CountSnoc(above[..|above| - 1], line, kind);
        }
      }
    }
  }

  lemma HookParts(line: string) returns (word: string)
    requires AsHook(line).Some?
    ensures line == Pointed(AsHook(line).value, word)
  {
    var c0 := First(line).value;
    var c1 := First(c0.rest).value;
    var c2 := First(c1.rest).value;
    word := c2.word;
    Regroup(c0.gap, "on", c1.gap, c1.word, c2.gap, c2.word, c2.rest);
  }

  lemma PointedNoNewline(line: string, agr: string)
    requires AsHook(line).Some? && '\n' !in line && '\n' !in agr
    ensures '\n' !in Pointed(AsHook(line).value, agr)
  {
    var h := AsHook(line).value;
    var word := HookParts(line);
    assert forall c :: c in h.prefix || c in h.rest ==> c in line;
  }

  lemma SnocOk(kept: seq<string>, line: string, agr: string)
    requires NoNewlines(kept) && PointedAt(kept, agr) && '\n' !in line
    requires AsHook(line).Some? ==> line == Pointed(AsHook(line).value, agr)
    ensures NoNewlines(kept + [line]) && PointedAt(kept + [line], agr)
  {}

  lemma OtherStepOk(p: Pass, line: string, agr: string)
    requires PassOk(p, agr) && '\n' !in line && AsHook(line).None?
    ensures PassOk(p.(kept := p.kept + [line]), agr)
  {
    SnocOk(p.kept, line, agr);
    forall kind: Kind ensures Count(p.kept + [line], kind) == Count(p.kept, kind) { CountSnoc(p.kept, line, kind); }
  }

  lemma RepeatStepOk(p: Pass, agr: string)
    requires PassOk(p, agr)
    ensures PassOk(p.(kept := DropNote(p.kept, NOTE)), agr)
  {
    DropNoteKeeps(p.kept);
  }

  /** A line of one kind, or of none when agr's name is not agr. */
  ghost predicate HookFor(pointed: string, kind: Kind, agr: string) {
    && '\n' !in pointed
    && (AsHook(pointed).Some? ==> pointed == Pointed(AsHook(pointed).value, agr))
    && (if IsAgr(agr) then IsKind(pointed, kind) else AsHook(pointed).None?)
  }

  lemma PointedFor(line: string, agr: string)
    requires AsHook(line).Some? && Quoted(agr) && '\n' !in line && '\n' !in agr
    ensures HookFor(Pointed(AsHook(line).value, agr), AsHook(line).value.kind, agr)
  {
    PointedIsHook(line, agr);
    PointedNoNewline(line, agr);
  }

  /** The counts of the kinds are those of the kinds seen. */
  ghost predicate Counted(kept: seq<string>, seen: set<Kind>, agr: string) {
    forall kind: Kind :: Count(kept, kind) == if IsAgr(agr) && kind in seen then 1 else 0
  }

  lemma OneMore(kept: seq<string>, seen: set<Kind>, pointed: string, kind: Kind, agr: string)
    requires Counted(kept, seen, agr) && kind !in seen
    requires forall k: Kind :: IsKind(pointed, k) <==> IsAgr(agr) && k == kind
    ensures Counted(kept + [pointed], seen + {kind}, agr)
  {
    forall k: Kind ensures Count(kept + [pointed], k) == if IsAgr(agr) && k in seen + {kind} then 1 else 0 {
      CountSnoc(kept, pointed, k);
      assert Count(kept, k) == if IsAgr(agr) && k in seen then 1 else 0;
    }
  }

  lemma HookIsOneKind(pointed: string, kind: Kind, agr: string)
    requires HookFor(pointed, kind, agr)
    ensures forall k: Kind :: IsKind(pointed, k) <==> IsAgr(agr) && k == kind
  {}

  lemma HookStepOk(p: Pass, pointed: string, kind: Kind, agr: string)
    requires PassOk(p, agr) && HookFor(pointed, kind, agr) && kind !in p.seen
    ensures PassOk(Pass(p.kept + [pointed], p.seen + {kind}), agr)
  {
    SnocOk(p.kept, pointed, agr);
    HookIsOneKind(pointed, kind, agr);
    OneMore(p.kept, p.seen, pointed, kind, agr);
  }

  lemma StepOk(p: Pass, line: string, agr: string)
    requires PassOk(p, agr) && Quoted(agr) && '\n' !in line && '\n' !in agr
    ensures PassOk(StepLine(p, line, agr), agr)
  {
    var h := AsHook(line);
    if h.None? {
      OtherStepOk(p, line, agr);
    } else if h.value.kind in p.seen {
      RepeatStepOk(p, agr);
    } else {
      PointedFor(line, agr);
      HookStepOk(p, Pointed(h.value, agr), h.value.kind, agr);
    }
  }

  lemma {:induction false} PassKeepsOk(p: Pass, lines: seq<string>, agr: string)
    requires PassOk(p, agr) && Quoted(agr) && NoNewlines(lines) && '\n' !in agr
    ensures PassOk(PassOver(p, lines, agr), agr)
    decreases |lines|
  {
    if lines != [] {
      StepOk(p, lines[0], agr);
      PassKeepsOk(StepLine(p, lines[0], agr), lines[1..], agr);
    }
  }

  // ----- the rewritten file -----

  lemma NoteHasNoNewline()
    ensures '\n' !in NOTE
  {
    assert '\n' !in NOTE_START;
    assert '\n' !in NOTE_MIDDLE;
    assert '\n' !in NOTE_END;
  }

  lemma MissingLineOk(kind: Kind, agr: string)
    requires '\n' !in agr
    ensures '\n' !in MissingLine(kind, agr)
  {}

  lemma MissingFor(kind: Kind, agr: string)
    requires Quoted(agr) && '\n' !in agr
    ensures HookFor(MissingLine(kind, agr), kind, agr)
  {
    MissingIsHook(kind, agr);
    MissingLineOk(kind, agr);
  }

  function PlusNote(p: Pass): Pass {
    p.(kept := p.kept + (if p.kept != [] && !IsBlankLine(p.kept[|p.kept| - 1]) then [""] else []) + [NOTE])
  }

  lemma PlusNoteOk(p: Pass, agr: string)
    requires PassOk(p, agr)
    ensures PassOk(PlusNote(p), agr)
  {
    CommentIsNoHook(NOTE_TEXT);
    NoteHasNoNewline();
    var blank := p.kept != [] && !IsBlankLine(p.kept[|p.kept| - 1]);
    if blank {
      BlankIsNoHook("");
      OtherStepOk(p, "", agr);
      OtherStepOk(p.(kept := p.kept + [""]), NOTE, agr);
    } else {
      assert p.kept + [] == p.kept;
      OtherStepOk(p, NOTE, agr);
    }
  }

  function PlusHook(p: Pass, kind: Kind, agr: string): Pass {
    if kind in p.seen then p else Pass(p.kept + [MissingLine(kind, agr)], p.seen + {kind})
  }

  lemma PlusHookOk(p: Pass, kind: Kind, agr: string)
    requires PassOk(p, agr) && Quoted(agr) && '\n' !in agr
    ensures PassOk(PlusHook(p, kind, agr), agr)
  {
    if kind !in p.seen {
      MissingFor(kind, agr);
      HookStepOk(p, MissingLine(kind, agr), kind, agr);
    }
  }

  /** The pass after the missing lines are added. */
  function Completed(p: Pass, agr: string): Pass {
    if Missing(p.seen, agr) == [] then p else PlusHook(PlusHook(PlusNote(p), PaneSplit, agr), PaneScratch, agr)
  }

  lemma CompletedLines(p: Pass, agr: string)
    ensures Completed(p, agr).kept == WithAdded(p.kept, NOTE, Missing(p.seen, agr))
    ensures Completed(p, agr).seen == {PaneSplit, PaneScratch}
  {
    var n := PlusNote(p);
    if PaneSplit !in p.seen && PaneScratch !in p.seen {
      assert (n.kept + [MissingLine(PaneSplit, agr)]) + [MissingLine(PaneScratch, agr)]
          == n.kept + ([MissingLine(PaneSplit, agr)] + [MissingLine(PaneScratch, agr)]);
    } else if PaneSplit !in p.seen || PaneScratch !in p.seen {
      var kind := if PaneSplit !in p.seen then PaneSplit else PaneScratch;
      assert [] + [MissingLine(kind, agr)] == [MissingLine(kind, agr)] == [MissingLine(kind, agr)] + [];
    } else {
      assert [] + [] == Missing(p.seen, agr);
    }
    assert |Missing(p.seen, agr)| == (if PaneSplit in p.seen then 0 else 1) + (if PaneScratch in p.seen then 0 else 1);
    var seen := Completed(p, agr).seen;
    assert Missing(p.seen, agr) == [] ==> PaneSplit in p.seen && PaneScratch in p.seen;
    assert Missing(p.seen, agr) != [] ==> seen == p.seen + {PaneSplit} + {PaneScratch};
    forall kind: Kind ensures kind in seen <==> kind in {PaneSplit, PaneScratch} {
      assert kind == PaneSplit || kind == PaneScratch;
    }
  }

  /** The rewritten file runs agr from exactly one hook line of each kind. When the binary is not
      called agr, its lines are not recognised, so there is none. */
  lemma OneHookOfEachKind(content: string, agr: string, kind: Kind)
    requires Quoted(agr) && '\n' !in agr
    ensures Count(WiredLines(content, agr), kind) == if IsAgr(agr) then 1 else 0
    ensures PointedAt(WiredLines(content, agr), agr)
    ensures SplitLines(WireHooks(content, agr)) == WiredLines(content, agr)
  {
    var start, lines := Pass([], {}), SplitLines(content);
    var p := PassOver(start, lines, agr);
    SplitNoNewlines(content);
    PassKeepsOk(start, lines, agr);
    CompletedOk(p, agr);
    CompletedLines(p, agr);
    SplitText(WiredLines(content, agr));
  }

  lemma CompletedOk(p: Pass, agr: string)
    requires PassOk(p, agr) && Quoted(agr) && '\n' !in agr
    ensures PassOk(Completed(p, agr), agr)
  {
    PlusNoteOk(p, agr);
    PlusHookOk(PlusNote(p), PaneSplit, agr);
    PlusHookOk(PlusHook(PlusNote(p), PaneSplit, agr), PaneScratch, agr);
  }

  // ----- a second run -----

  /** Hooks that already run agr, one of each kind, are left as they are. */
  lemma {:induction false} PassFixed(p: Pass, lines: seq<string>, agr: string)
    requires PointedAt(lines, agr)
    requires forall kind: Kind :: Count(lines, kind) + (if kind in p.seen then 1 else 0) <= 1
    ensures var q := PassOver(p, lines, agr);
            q.kept == p.kept + lines && forall kind: Kind :: kind in q.seen <==> kind in p.seen || Count(lines, kind) == 1
    decreases |lines|
  {
    hide AsHook;
    if lines == [] {
      assert p.kept + [] == p.kept;
    } else {
      var line, h := lines[0], AsHook(lines[0]);
      if h.Some? { assert IsKind(line, h.value.kind); }
      assert StepLine(p, line, agr).kept == p.kept + [line];
      assert PointedAt(lines[1..], agr);
      PassFixed(StepLine(p, line, agr), lines[1..], agr);
      assert (p.kept + [line]) + lines[1..] == p.kept + lines;
    }
  }

  lemma {:induction false} PassNoHooks(p: Pass, lines: seq<string>, agr: string)
    requires forall kind: Kind :: Count(lines, kind) == 0
    ensures PassOver(p, lines, agr) == p.(kept := p.kept + lines)
    decreases |lines|
  {
    hide AsHook;
    if lines == [] {
      assert p.kept + [] == p.kept;
    } else {
      var h := AsHook(lines[0]);
      if h.Some? { assert IsKind(lines[0], h.value.kind); assert Count(lines, h.value.kind) > 0; }
      forall kind: Kind ensures Count(lines[1..], kind) == 0 { assert Count(lines, kind) == 0; }
      PassNoHooks(StepLine(p, lines[0], agr), lines[1..], agr);
      assert (p.kept + [lines[0]]) + lines[1..] == p.kept + lines;
    }
  }

  lemma KnownLinesStay(lines: seq<string>, agr: string)
    requires NoNewlines(lines) && PointedAt(lines, agr) && forall kind: Kind :: Count(lines, kind) == 1
    ensures WireHooks(Text(lines), agr) == Text(lines)
  {
    hide AsHook;
    SplitText(lines);
    PassFixed(Pass([], {}), lines, agr);
    assert [] + lines == lines;
    var seen := PassOver(Pass([], {}), lines, agr).seen;
    assert PaneSplit in seen && PaneScratch in seen;
    assert Missing(seen, agr) == [] + [] == [];
  }

  lemma UnknownLinesGrow(lines: seq<string>, agr: string)
    requires NoNewlines(lines) && forall kind: Kind :: Count(lines, kind) == 0
    ensures |WireHooks(Text(lines), agr)| > |Text(lines)|
  {
    hide AsHook, MissingLine, WithAdded;
    SplitText(lines);
    PassNoHooks(Pass([], {}), lines, agr);
    assert [] + lines == lines;
    assert Missing({}, agr)[0] == MissingLine(PaneSplit, agr);
    WithAddedGrows(lines, NOTE, Missing({}, agr));
  }

  /** A second run changes nothing, on any file, exactly when the binary is called agr. */
  lemma SecondRunChangesNothing(content: string, agr: string)
    requires Quoted(agr) && '\n' !in agr
    ensures WireHooks(WireHooks(content, agr), agr) == WireHooks(content, agr) <==> IsAgr(agr)
  {
    hide AsHook;
    var lines := WiredLines(content, agr);
    forall kind: Kind ensures Count(lines, kind) == if IsAgr(agr) then 1 else 0 { OneHookOfEachKind(content, agr, kind); }
    OneHookOfEachKind(content, agr, PaneSplit);
    SplitNoNewlines(Text(lines));
    if IsAgr(agr) { KnownLinesStay(lines, agr); } else { UnknownLinesGrow(lines, agr); }
  }

  // ----- the other lines -----

  /** A line that is neither a hook, nor setup's note, nor blank. */
  predicate IsOther(line: string) { AsHook(line).None? && line != NOTE && !IsBlankLine(line) }

  function OthersOf(lines: seq<string>): seq<string> {
    if lines == [] then [] else (if IsOther(lines[0]) then [lines[0]] else []) + OthersOf(lines[1..])
  }

  lemma {:induction false} OthersCat(a: seq<string>, b: seq<string>)
    ensures OthersOf(a + b) == OthersOf(a) + OthersOf(b)
  {
    hide IsOther;
    if a == [] {
      assert a + b == b && [] + OthersOf(b) == OthersOf(b);
    } else {
      assert (a + b)[1..] == a[1..] + b;
      OthersCat(a[1..], b);
      CatThree(if IsOther(a[0]) then [a[0]] else [], OthersOf(a[1..]), OthersOf(b));
    }
  }

  lemma OthersSnoc(lines: seq<string>, line: string)
    ensures OthersOf(lines + [line]) == OthersOf(lines) + (if IsOther(line) then [line] else [])
  {
    hide IsOther;
    OthersCat(lines, [line]);
    assert [line][1..] == [];
  }

  lemma DropNoteOthers(kept: seq<string>)
    ensures OthersOf(DropNote(kept, NOTE)) == OthersOf(kept)
  {
    hide AsHook, IsBlankLine;
    if kept != [] && kept[|kept| - 1] == NOTE {
      var above := kept[..|kept| - 1];
      assert kept == above + [NOTE];
      OthersSnoc(above, NOTE);
      if above != [] && IsBlankLine(above[|above| - 1]) {
        assert above == above[..|above| - 1] + [above[|above| - 1]];
        OthersSnoc(above[..|above| - 1], above[|above| - 1]);
      }
    }
  }

  /** a is what remains of b when some lines are left out. */
  ghost predicate Within(a: seq<string>, b: seq<string>)
    decreases |b|
  {
    || a == []
    || (b != [] && Within(a, b[..|b| - 1]))
    || (b != [] && a[|a| - 1] == b[|b| - 1] && Within(a[..|a| - 1], b[..|b| - 1]))
  }

  lemma WithinSnoc(a: seq<string>, b: seq<string>, x: seq<string>)
    requires Within(a, b) && |x| <= 1
    ensures Within(a, b + x) && Within(a + x, b + x)
  {
    if x == [] {
      CatNil(a);
      CatNil(b);
    } else {
      assert (a + x)[..|a + x| - 1] == a && (b + x)[..|b + x| - 1] == b;
    }
  }

  /** The other lines so far are in the pass, and are all it has of them if agr is called agr. */
  ghost predicate HasOthers(p: Pass, others: seq<string>, agr: string) {
    Within(others, OthersOf(p.kept)) && (IsAgr(agr) ==> others == OthersOf(p.kept))
  }

  function OtherOf(line: string): (r: seq<string>)
    ensures |r| <= 1
  {
    if IsOther(line) then [line] else []
  }

  lemma PointedOthers(p: Pass, others: seq<string>, pointed: string, agr: string)
    requires HasOthers(p, others, agr) && (IsAgr(agr) ==> AsHook(pointed).Some?)
    ensures HasOthers(p.(kept := p.kept + [pointed]), others, agr)
  {
    hide AsHook;
    OthersSnoc(p.kept, pointed);
    WithinSnoc(others, OthersOf(p.kept), OtherOf(pointed));
    CatNil(OthersOf(p.kept));
  }

  lemma StepOthers(p: Pass, others: seq<string>, line: string, agr: string)
    requires Quoted(agr) && HasOthers(p, others, agr)
    ensures HasOthers(StepLine(p, line, agr), others + OtherOf(line), agr)
  {
    hide AsHook, Within;
    var h := AsHook(line);
    if h.None? {
      OthersSnoc(p.kept, line);
      WithinSnoc(others, OthersOf(p.kept), OtherOf(line));
    } else if h.value.kind in p.seen {
      DropNoteOthers(p.kept);
      CatNil(others);
    } else {
      PointedIsHook(line, agr);
      PointedOthers(p, others, Pointed(h.value, agr), agr);
      CatNil(others);
    }
  }

  lemma {:induction false} PassOthers(p: Pass, others: seq<string>, lines: seq<string>, agr: string)
    requires Quoted(agr) && HasOthers(p, others, agr)
    ensures HasOthers(PassOver(p, lines, agr), others + OthersOf(lines), agr)
    decreases |lines|
  {
    hide IsOther, Within;
    if lines == [] {
      CatNil(others);
    } else {
      StepOthers(p, others, lines[0], agr);
      PassOthers(StepLine(p, lines[0], agr), others + OtherOf(lines[0]), lines[1..], agr);
      CatThree(others, OtherOf(lines[0]), OthersOf(lines[1..]));
    }
  }

  /** Every other line of the file is kept, in order; and none is added if the binary is called agr,
      for then the lines setup writes are hooks. */
  lemma OtherLinesStay(content: string, agr: string)
    requires Quoted(agr)
    ensures Within(OthersOf(SplitLines(content)), OthersOf(WiredLines(content, agr)))
    ensures IsAgr(agr) ==> OthersOf(WiredLines(content, agr)) == OthersOf(SplitLines(content))
  {
    var others := OthersOf(SplitLines(content));
    var p := PassOver(Pass([], {}), SplitLines(content), agr);
    PassOthers(Pass([], {}), [], SplitLines(content), agr);
    CatNil(others);
    CompletedLines(p, agr);
    if Missing(p.seen, agr) != [] {
      PlusNoteOthers(p);
      PlusHookOthers(PlusNote(p), others, PaneSplit, agr);
      PlusHookOthers(PlusHook(PlusNote(p), PaneSplit, agr), others, PaneScratch, agr);
    }
  }

  lemma PlusNoteOthers(p: Pass)
    ensures OthersOf(PlusNote(p).kept) == OthersOf(p.kept)
  {
    var blank := if p.kept != [] && !IsBlankLine(p.kept[|p.kept| - 1]) then [""] else [];
    if blank == [""] { OthersSnoc(p.kept, ""); } else { assert p.kept + [] == p.kept; }
    OthersSnoc(p.kept + blank, NOTE);
    assert OthersOf(p.kept) + [] == OthersOf(p.kept);
  }

  lemma PlusHookOthers(p: Pass, others: seq<string>, kind: Kind, agr: string)
    requires Quoted(agr) && HasOthers(p, others, agr)
    ensures HasOthers(PlusHook(p, kind, agr), others, agr)
  {
    MissingIsHook(kind, agr);
    PointedOthers(p, others, MissingLine(kind, agr), agr);
  }
}
