/** agr setup's rewriting of the custom commands in agterm's keymap file. */
module KeymapConfig {
  import opened Results
  import opened Sequences
  import opened ConfigLines
  import opened ConfigWords
  import opened KeymapLines
  import Tokens

  /** One custom command: what it runs after agr, its name, and the note setup writes above it. */
  datatype Custom = Custom(verb: string, name: string, about: string, args: string)

  function Note(c: Custom): string { "# " + c.about }

  const SESSION_ARG := "\"{AGT_SESSION_ID}\""
  const PANE_ARG := "\"{AGT_PANE_ID}\""
  const END_START := "agr setup: end a row's remote work "
  const END_REST := "(confirm, kill its sessions, close the row)"
  const PASTE_START := "agr setup: paste Mac clipboard files "
  const PASTE_REST := "or screenshots into a remote row"
  const NEW_START := "agr setup: pick a host, session and "
  const NEW_REST := "workspace, and open it in a new row"
  const END_ABOUT := END_START + END_REST
  const PASTE_ABOUT := PASTE_START + PASTE_REST
  const NEW_ABOUT := NEW_START + NEW_REST

  const END_COMMAND := Custom("end", "\"End remote session\"", END_ABOUT, " " + SESSION_ARG)
  const PASTE_COMMAND := Custom("paste", "\"Paste to remote\"", PASTE_ABOUT, " " + SESSION_ARG + " " + PANE_ARG)
  const NEW_COMMAND := Custom("new", "\"New remote session\"", NEW_ABOUT, " " + SESSION_ARG)

  // ----- the file -----

  /** The first command line of verb, or the number of lines. */
  function Find(lines: seq<string>, verb: string): (i: nat)
    ensures i <= |lines|
  {
    if lines == [] || AsCommand(lines[0], verb).Some? then 0 else 1 + Find(lines[1..], verb)
  }

  lemma {:induction false} FindIs(lines: seq<string>, verb: string)
    ensures var i := Find(lines, verb);
            && (i < |lines| ==> AsCommand(lines[i], verb).Some?)
            && (forall k :: 0 <= k < i ==> AsCommand(lines[k], verb).None?)
  {
    hide AsCommand;
    if lines != [] && AsCommand(lines[0], verb).None? {
      FindIs(lines[1..], verb);
      forall k | 0 <= k < Find(lines, verb) ensures AsCommand(lines[k], verb).None? {
        if k > 0 { assert lines[k] == lines[1..][k - 1]; }
      }
    }
  }

  datatype Pass = Pass(kept: seq<string>, key: string)

  /** What the loop over the later lines does with one: a command of the same verb is dropped with
      its note, and leaves its chord to the first when that has none. */
  function StepLater(p: Pass, line: string, c: Custom, chordless: bool): Pass {
    var l := AsCommand(line, c.verb);
    if l.None? then p.(kept := p.kept + [line])
    else Pass(DropNote(p.kept, Note(c)), if p.key == "" && chordless then Chord(l.value.body, c.verb) else p.key)
  }

  function PassLater(p: Pass, lines: seq<string>, c: Custom, chordless: bool): Pass
    decreases |lines|
  {
    if lines == [] then p else PassLater(StepLater(p, lines[0], c, chordless), lines[1..], c, chordless)
  }

  function NewLine(c: Custom, agr: string, key: string): string {
    "command " + c.name + (if key != "" then " " + key else "") + " --error-hud " + agr + " " + c.verb + c.args
  }

  function WiredLines(lines: seq<string>, agr: string, key: string, c: Custom): seq<string> {
    var i := Find(lines, c.verb);
    if i == |lines| || AsCommand(lines[i], c.verb).None? then WithAdded(lines, Note(c), [NewLine(c, agr, key)])
    else
      var l := AsCommand(lines[i], c.verb).value;
      var p := PassLater(Pass(lines[..i + 1], key), lines[i + 1..], c, Chord(l.body, c.verb) == "");
      if i < |p.kept| then p.kept[i := WireLine(l, c.verb, agr, p.key)] else p.kept
  }

  function WireCommand(content: string, agr: string, key: string, c: Custom): string {
    Text(WiredLines(SplitLines(content), agr, key, c))
  }

  // ----- a new line -----

  /** What setup's own commands are made of. */
  ghost predicate CustomOk(c: Custom) {
    && c.verb != "" && NoGap(c.verb) && !IsQuote(c.verb[0]) && Closed(c.name)
    && First(" " + c.verb + c.args).Some? && First(" " + c.verb + c.args).value.word == c.verb
    && LastAgr(" " + c.verb + c.args, c.verb).None?
    && '\n' !in c.verb && '\n' !in c.name && '\n' !in c.about && '\n' !in c.args
  }

  /** The part of a new line from its option on. */
  function NewTail(c: Custom, agr: string): string { " --error-hud " + agr + (" " + c.verb + c.args) }

  lemma OptionChars()
    ensures NoGap("--error-hud") && '/' !in "--error-hud"
  {}

  lemma OptionIsRun()
    ensures NoGap("--error-hud") && !IsQuote("--error-hud"[0]) && !IsAgr("--error-hud")
  {
    hide NoGap;
    var word := "--error-hud";
    OptionChars();
    NoSlashBase(word);
    assert TrimQuotes(word) == word;
  }

  lemma {:induction false} NoSlashBase(s: string)
    requires s != "" && '/' !in s
    ensures Tokens.Base(s) == s
  {
    assert s[|s| - 1] in s;
    NoSlashLast(s);
  }

  lemma {:induction false} NoSlashLast(s: string)
    requires '/' !in s
    ensures Tokens.LastPart(s) == s
  {
    if s != "" {
      assert s[|s| - 1] in s;
      NoSlashLast(s[..|s| - 1]);
    }
  }

  lemma NewTailCut(c: Custom, agr: string)
    requires CustomOk(c) && Quoted(agr)
    ensures var tail := NewTail(c, agr);
            && LastAgr(tail, c.verb) == (if IsAgr(agr) then Some(Around(" --error-hud ", " " + c.verb + c.args)) else None)
            && (IsAgr(agr) ==> Sealed(tail, c.verb) && PointBody(tail, c.verb, agr) == tail)
            && StartsGap(tail) && !HasChord(tail, c.verb)
  {
    hide First, LastAgr, Sealed, Quoted, IsAgr, Closed;
    var after := " " + c.verb + c.args;
    var rest := " " + agr + after;
    OptionIsRun();
    FirstQuoted(" ", agr, after);
    LastAgrOf(rest, c.verb, " ", agr, after);
    FirstRun(" ", "--error-hud", rest);
    NewTailParts(agr, after);
    LastAgrOf(" " + "--error-hud" + rest, c.verb, " ", "--error-hud", rest);
    NewTailStarts(c, agr);
    assert !Opens("--error-hud");
  }

  lemma NewTailStarts(c: Custom, agr: string)
    ensures StartsGap(NewTail(c, agr))
  {
    assert NewTail(c, agr)[0] == ' ';
  }

  lemma NewTailParts(agr: string, after: string)
    ensures " --error-hud " + agr + after == " " + "--error-hud" + (" " + agr + after)
    ensures " " + "--error-hud" + " " == " --error-hud "
  {
    assert " --error-hud " == " " + "--error-hud" + " ";
  }

  /** The body of a new line. */
  function NewBody(c: Custom, agr: string, key: string): string {
    (if key != "" then " " + key else "") + NewTail(c, agr)
  }

  /** A new line is read back as written if the binary is called agr, and is no command of its verb
      otherwise. */
  lemma NewLineRead(c: Custom, agr: string, key: string)
    requires CustomOk(c) && Quoted(agr) && (key == "" || (IsAgr(agr) && (KeyOk(key) || KeyWord(key))))
    ensures AsCommand(NewLine(c, agr, key), c.verb)
         == if IsAgr(agr) then Some(Line("command ", c.name, NewBody(c, agr, key))) else None
    ensures IsAgr(agr) ==>
              LastAgr(NewBody(c, agr, key), c.verb).Some? && WireBody(NewBody(c, agr, key), c.verb, agr, key) == NewBody(c, agr, key)
  {
    hide First, LastAgr, Sealed, Quoted, IsAgr, Closed, KeyOk, KeyWord, NewTail, PointBody;
    var tail := NewTail(c, agr);
    NewTailCut(c, agr);
    assert AllGap("") && AllGap(" ");
    if key == "" {
      CatNil(tail);
    } else {
      KeyReadBack(" ", key, tail, c.verb, agr);
    }
    NewLineParts(c, agr, key);
    LineFrom("", " ", c.name, NewBody(c, agr, key), c.verb);
    assert "" + "command" + " " == "command ";
  }

  lemma NewLineParts(c: Custom, agr: string, key: string)
    ensures NewLine(c, agr, key) == "" + "command" + " " + c.name + NewBody(c, agr, key)
  {
    assert "command " == "" + "command" + " ";
  }

  // ----- setup's own commands -----

  /** No word of s is verb. */
  predicate Lacks(s: string, verb: string)
    decreases |s|
  {
    var c := First(s);
    c.Some? ==> assert |c.value.rest| < |s|; c.value.word != verb && Lacks(c.value.rest, verb)
  }

  lemma {:induction false} LacksNoAgr(s: string, verb: string)
    requires Lacks(s, verb)
    ensures LastAgr(s, verb).None?
    decreases |s|
  {
    hide IsAgr;
    if First(s).Some? { LacksNoAgr(First(s).value.rest, verb); }
  }

  /** A verb followed by quoted arguments. */
  lemma VerbAndArgs(verb: string, args: string)
    requires verb != "" && NoGap(verb) && !IsQuote(verb[0]) && args != "" && IsGap(args[0]) && Lacks(args, verb)
    ensures First(" " + verb + args) == Some(Cut(" ", verb, args)) && LastAgr(" " + verb + args, verb).None?
  {
    hide First, LastAgr, IsAgr, NoGap;
    assert AllGap(" ");
    FirstRun(" ", verb, args);
    LacksNoAgr(args, verb);
    LastAgrOf(" " + verb + args, verb, " ", verb, args);
    if First(args).Some? { LacksFirst(args, verb); }
  }

  lemma LacksFirst(s: string, verb: string)
    requires Lacks(s, verb) && First(s).Some?
    ensures First(s).value.word != verb
  {}

  lemma ArgsClosed()
    ensures Closed(SESSION_ARG) && Closed(PANE_ARG) && SESSION_ARG[0] == PANE_ARG[0] == '"'
  {}

  lemma LacksNothing(verb: string)
    ensures Lacks("", verb)
  {
    assert First("").None?;
  }

  lemma OneArg(verb: string, arg: string, rest: string)
    requires Closed(arg) && verb != "" && verb[0] != arg[0] && Lacks(rest, verb)
    ensures Lacks(" " + arg + rest, verb)
  {
    hide First, Closed;
    assert AllGap(" ");
    FirstClosed(" ", arg, rest);
  }

  lemma EndStartOk()
    ensures '\n' !in END_START
  {}

  lemma EndRestOk()
    ensures '\n' !in END_REST
  {}

  lemma PasteStartOk()
    ensures '\n' !in PASTE_START
  {}

  lemma PasteRestOk()
    ensures '\n' !in PASTE_REST
  {}

  lemma NewStartOk()
    ensures '\n' !in NEW_START
  {}

  lemma NewRestOk()
    ensures '\n' !in NEW_REST
  {}

  lemma AboutsOk()
    ensures '\n' !in END_ABOUT && '\n' !in PASTE_ABOUT && '\n' !in NEW_ABOUT
  {
    EndStartOk();
    EndRestOk();
    PasteStartOk();
    PasteRestOk();
    NewStartOk();
    NewRestOk();
  }

  lemma EndNameOk()
    ensures Closed(END_COMMAND.name) && '\n' !in END_COMMAND.name
  {}

  lemma PasteNameOk()
    ensures Closed(PASTE_COMMAND.name) && '\n' !in PASTE_COMMAND.name
  {}

  lemma NewNameOk()
    ensures Closed(NEW_COMMAND.name) && '\n' !in NEW_COMMAND.name
  {}

  lemma VerbsAreRuns()
    ensures NoGap("end") && NoGap("paste") && NoGap("new") && '\n' !in "end" && '\n' !in "paste" && '\n' !in "new"
  {}

  lemma ArgsOk()
    ensures '\n' !in SESSION_ARG && '\n' !in PANE_ARG
  {}

  lemma EndOk()
    ensures CustomOk(END_COMMAND)
  {
    hide Closed, NoGap, First, Lacks, LastAgr;
    AboutsOk();
    EndNameOk();
    VerbsAreRuns();
    ArgsOk();
    ArgsClosed();
    LacksNothing("end");
    OneArg("end", SESSION_ARG, "");
    assert " " + SESSION_ARG + "" == END_COMMAND.args;
    VerbAndArgs("end", END_COMMAND.args);
  }

  lemma PasteOk()
    ensures CustomOk(PASTE_COMMAND)
  {
    hide Closed, NoGap, First, Lacks, LastAgr;
    AboutsOk();
    PasteNameOk();
    VerbsAreRuns();
    ArgsOk();
    ArgsClosed();
    LacksNothing("paste");
    OneArg("paste", PANE_ARG, "");
    OneArg("paste", SESSION_ARG, " " + PANE_ARG + "");
    assert " " + SESSION_ARG + (" " + PANE_ARG + "") == PASTE_COMMAND.args;
    VerbAndArgs("paste", PASTE_COMMAND.args);
  }

  lemma NewOk()
    ensures CustomOk(NEW_COMMAND)
  {
    hide Closed, NoGap, First, Lacks, LastAgr;
    AboutsOk();
    NewNameOk();
    VerbsAreRuns();
    ArgsOk();
    ArgsClosed();
    LacksNothing("new");
    OneArg("new", SESSION_ARG, "");
    assert " " + SESSION_ARG + "" == NEW_COMMAND.args;
    VerbAndArgs("new", NEW_COMMAND.args);
  }

  // ----- the whole file -----

  predicate NoCommands(lines: seq<string>, verb: string) {
    forall k :: 0 <= k < |lines| ==> AsCommand(lines[k], verb).None?
  }

  lemma {:induction false} FindAt(lines: seq<string>, i: nat, verb: string)
    requires i < |lines| && NoCommands(lines[..i], verb) && AsCommand(lines[i], verb).Some?
    ensures Find(lines, verb) == i
  {
    hide AsCommand;
    if i > 0 {
      assert lines[0] == lines[..i][0];
      assert lines[1..][..i - 1] == lines[..i][1..];
      FindAt(lines[1..], i - 1, verb);
    }
  }

  lemma NoteIsNoCommand(c: Custom)
    ensures AsCommand(Note(c), c.verb).None?
  {
    hide LastAgr;
    FirstRun("", "#", " " + c.about);
    CatNil("#");
    CatThree("#", " ", c.about);
    assert "#" + " " == "# ";
  }

  lemma BlankIsNoCommand(line: string, verb: string)
    requires IsBlankLine(line)
    ensures AsCommand(line, verb).None?
  {
    hide LastAgr;
    if First(line).Some? {
      var c := First(line).value;
      assert line[|c.gap|] == c.word[0];
    }
  }

  lemma EmptyIsNoCommand(verb: string)
    ensures AsCommand("", verb).None?
  {
    BlankIsNoCommand("", verb);
  }

  /** Lines after base hold no command of the verb, and base ends in one. */
  ghost predicate Tail(kept: seq<string>, base: seq<string>, verb: string) {
    && base != [] && AsCommand(base[|base| - 1], verb).Some?
    && base <= kept && NoCommands(kept[|base|..], verb) && NoNewlines(kept)
  }

  lemma TailSnoc(kept: seq<string>, base: seq<string>, line: string, verb: string)
    requires Tail(kept, base, verb) && AsCommand(line, verb).None? && '\n' !in line
    ensures Tail(kept + [line], base, verb)
  {
    hide AsCommand;
    assert (kept + [line])[|base|..] == kept[|base|..] + [line];
  }

  lemma TailCut(kept: seq<string>, base: seq<string>, n: nat, verb: string)
    requires Tail(kept, base, verb) && |base| <= n <= |kept|
    ensures Tail(kept[..n], base, verb)
  {
    hide AsCommand;
    assert kept[..n][|base|..] == kept[|base|..][..n - |base|];
  }

  lemma TailDrop(kept: seq<string>, base: seq<string>, c: Custom)
    requires Tail(kept, base, c.verb)
    ensures Tail(DropNote(kept, Note(c)), base, c.verb)
  {
    hide AsCommand, Note, IsBlankLine;
    NoteIsNoCommand(c);
    var n := |kept| - 1;
    assert kept[|base| - 1] == base[|base| - 1];
    if kept[n] == Note(c) {
      assert n != |base| - 1;
      TailCut(kept, base, n, c.verb);
      if n > 0 && IsBlankLine(kept[..n][n - 1]) {
        BlankIsNoCommand(kept[n - 1], c.verb);
        assert n - 1 != |base| - 1;
        TailCut(kept, base, n - 1, c.verb);
        assert kept[..n][..n - 1] == kept[..n - 1];
      }
    }
  }

  lemma ChordChars(line: string, verb: string)
    requires AsCommand(line, verb).Some? && '\n' !in line
    ensures '\n' !in Chord(AsCommand(line, verb).value.body, verb)
  {
    hide First, LastAgr;
    LineParts(line, verb);
    var l := AsCommand(line, verb).value;
    assert forall x :: x in l.body ==> x in line;
    if HasChord(l.body, verb) { assert forall x :: x in First(l.body).value.word ==> x in l.body; }
  }

  lemma {:induction false} LaterKeeps(p: Pass, base: seq<string>, lines: seq<string>, c: Custom, chordless: bool)
    requires Tail(p.kept, base, c.verb) && '\n' !in p.key && NoNewlines(lines)
    ensures var q := PassLater(p, lines, c, chordless);
            Tail(q.kept, base, c.verb) && '\n' !in q.key && (p.key != "" ==> q.key == p.key)
    decreases |lines|
  {
    hide AsCommand, Tail, Chord;
    if lines != [] {
      if AsCommand(lines[0], c.verb).None? {
        TailSnoc(p.kept, base, lines[0], c.verb);
      } else {
        TailDrop(p.kept, base, c);
        ChordChars(lines[0], c.verb);
      }
      LaterKeeps(StepLater(p, lines[0], c, chordless), base, lines[1..], c, chordless);
    }
  }

  lemma {:induction false} LaterNothing(p: Pass, lines: seq<string>, c: Custom, chordless: bool)
    requires NoCommands(lines, c.verb)
    ensures PassLater(p, lines, c, chordless) == p.(kept := p.kept + lines)
    decreases |lines|
  {
    hide AsCommand;
    if lines == [] {
      CatNil(p.kept);
    } else {
      LaterNothing(p.(kept := p.kept + [lines[0]]), lines[1..], c, chordless);
      MoveHead(p.kept, lines);
    }
  }

  lemma NoNewlineInWire(line: string, verb: string, agr: string, key: string)
    requires AsCommand(line, verb).Some? && LastAgr(AsCommand(line, verb).value.body, verb).Some?
    requires '\n' !in line && '\n' !in agr && '\n' !in key
    ensures '\n' !in WireLine(AsCommand(line, verb).value, verb, agr, key)
  {
    hide LastAgr, First, AsCommand;
    LineParts(line, verb);
    var l := AsCommand(line, verb).value;
    assert forall x :: x in l.head || x in l.name || x in l.body ==> x in line;
    NoNewlineInBody(l.body, verb, agr, key);
  }

  lemma NoNewlineInBody(body: string, verb: string, agr: string, key: string)
    requires LastAgr(body, verb).Some? && '\n' !in body && '\n' !in agr && '\n' !in key
    ensures '\n' !in WireBody(body, verb, agr, key)
  {
    hide LastAgr;
    NotInPointed(body, verb, agr, '\n');
    if HasChord(body, verb) {
      var c := First(body).value;
      assert forall x :: x in c.gap || x in c.rest ==> x in body;
      NotInPointed(c.rest, verb, agr, '\n');
    }
  }

  /** What is kept of a file with its command line put back rewritten. */
  lemma PutBack(lines: seq<string>, i: nat, kept: seq<string>, out: seq<string>, wired: string, verb: string)
    requires i < |lines| && NoCommands(lines[..i], verb) && Tail(kept, lines[..i + 1], verb)
    requires out == kept[..i] + [wired] + kept[i + 1..] && '\n' !in wired
    ensures |out| == |kept| && out[i] == wired && NoNewlines(out)
    ensures NoCommands(out[..i], verb) && NoCommands(out[i + 1..], verb)
  {
    hide AsCommand;
    assert kept[..i] == lines[..i + 1][..i] == lines[..i];
    assert out[..i] == kept[..i] && out[i + 1..] == kept[i + 1..];
  }

  lemma SplitAt(kept: seq<string>, i: nat, wired: string)
    requires i < |kept|
    ensures kept[i := wired] == kept[..i] + [wired] + kept[i + 1..]
  {}

  /** The key the first command of the verb is bound to: the one asked for, else a later line's chord
      if the first has none. */
  function WrittenKey(lines: seq<string>, key: string, c: Custom): string {
    var i := Find(lines, c.verb);
    if i == |lines| || AsCommand(lines[i], c.verb).None? then key
    else
      var l := AsCommand(lines[i], c.verb).value;
      PassLater(Pass(lines[..i + 1], key), lines[i + 1..], c, Chord(l.body, c.verb) == "").key
  }

  function ChordOf(line: string, verb: string): string {
    if AsCommand(line, verb).None? then "" else Chord(AsCommand(line, verb).value.body, verb)
  }

  /** The first chord of the commands among the lines, or nothing if none has one. */
  ghost predicate FirstChord(lines: seq<string>, verb: string, key: string) {
    if key == "" then forall j :: 0 <= j < |lines| ==> ChordOf(lines[j], verb) == ""
    else exists j :: 0 <= j < |lines| && ChordOf(lines[j], verb) == key && forall k :: 0 <= k < j ==> ChordOf(lines[k], verb) == ""
  }

  lemma {:induction false} LaterChord(p: Pass, lines: seq<string>, c: Custom, chordless: bool)
    ensures var q := PassLater(p, lines, c, chordless);
            if p.key != "" || !chordless then q.key == p.key else FirstChord(lines, c.verb, q.key)
    decreases |lines|
  {
    hide AsCommand, Chord, DropNote;
    if lines != [] {
      var next := StepLater(p, lines[0], c, chordless);
      LaterChord(next, lines[1..], c, chordless);
      var key := PassLater(next, lines[1..], c, chordless).key;
      if p.key == "" && chordless {
        if next.key != "" {
          assert ChordOf(lines[0], c.verb) == key;
        } else if key != "" {
          var j :| 0 <= j < |lines[1..]| && ChordOf(lines[1..][j], c.verb) == key
                   && forall k :: 0 <= k < j ==> ChordOf(lines[1..][k], c.verb) == "";
          assert ChordOf(lines[j + 1], c.verb) == key;
          forall k | 0 <= k < j + 1 ensures ChordOf(lines[k], c.verb) == "" {
            if k > 0 { assert lines[k] == lines[1..][k - 1]; }
          }
        } else {
          forall k | 0 <= k < |lines| ensures ChordOf(lines[k], c.verb) == "" {
            if k > 0 { assert lines[k] == lines[1..][k - 1]; }
          }
        }
      }
    }
  }

  /** The key written into the first command is the one asked for; without one a chord it has is kept,
      and if it has none it gets the first chord of the commands dropped behind it, if one has one. */
  lemma KeyPassedOn(lines: seq<string>, i: nat, key: string, c: Custom)
    requires i == Find(lines, c.verb) && i < |lines|
    ensures var first, w := ChordOf(lines[i], c.verb), WrittenKey(lines, key, c);
            && (key != "" ==> w == key)
            && (key == "" && first != "" ==> w == "")
            && (key == "" && first == "" ==> FirstChord(lines[i + 1..], c.verb, w))
  {
    KeyWritten(lines, i, key, c);
    LaterChord(Pass(lines[..i + 1], key), lines[i + 1..], c, ChordOf(lines[i], c.verb) == "");
    hide AsCommand, Chord, PassLater, FirstChord, Find, ChordOf, WrittenKey;
  }

  lemma KeyWritten(lines: seq<string>, i: nat, key: string, c: Custom)
    requires i == Find(lines, c.verb) && i < |lines|
    ensures WrittenKey(lines, key, c)
         == PassLater(Pass(lines[..i + 1], key), lines[i + 1..], c, ChordOf(lines[i], c.verb) == "").key
  {
    hide AsCommand, Chord, PassLater, Find;
    FindIs(lines, c.verb);
  }

  /** Line j is the file's only command of the verb, if it is one. */
  ghost predicate Only(lines: seq<string>, j: nat, verb: string) {
    j < |lines| && NoNewlines(lines) && NoCommands(lines[..j], verb) && NoCommands(lines[j + 1..], verb)
  }

  /** A run on a file that has a command of the verb rewrites the first and drops the others. */
  lemma RunRewrites(lines: seq<string>, i: nat, agr: string, key: string, c: Custom)
    requires i == Find(lines, c.verb) && i < |lines| && NoNewlines(lines) && '\n' !in agr && '\n' !in key
    ensures AsCommand(lines[i], c.verb).Some? && LastAgr(AsCommand(lines[i], c.verb).value.body, c.verb).Some?
    ensures var out, w := WiredLines(lines, agr, key, c), WrittenKey(lines, key, c);
            && i < |out| && Only(out, i, c.verb) && out[i] == WireLine(AsCommand(lines[i], c.verb).value, c.verb, agr, w)
            && (w == key || key == "")
  {
    hide First, LastAgr, Chord, AsCommand, PassLater, Tail, WireLine, Find;
    FindIs(lines, c.verb);
    LineParts(lines[i], c.verb);
    var l := AsCommand(lines[i], c.verb).value;
    var base, chordless := lines[..i + 1], Chord(l.body, c.verb) == "";
    BaseIsTail(lines, i, c.verb);
    LaterKeeps(Pass(base, key), base, lines[i + 1..], c, chordless);
    var p := PassLater(Pass(base, key), lines[i + 1..], c, chordless);
    var wired := WireLine(l, c.verb, agr, p.key);
    TailLength(p.kept, base, c.verb);
    NoNewlineInWire(lines[i], c.verb, agr, p.key);
    SplitAt(p.kept, i, wired);
    PutBack(lines, i, p.kept, p.kept[i := wired], wired, c.verb);
  }

  lemma BaseIsTail(lines: seq<string>, i: nat, verb: string)
    requires i < |lines| && AsCommand(lines[i], verb).Some? && NoNewlines(lines)
    ensures Tail(lines[..i + 1], lines[..i + 1], verb)
  {
    hide AsCommand;
    var base := lines[..i + 1];
    assert base[|base|..] == [] && base[|base| - 1] == lines[i];
  }

  lemma TailLength(kept: seq<string>, base: seq<string>, verb: string)
    requires Tail(kept, base, verb)
    ensures |base| <= |kept|
  {}

  /** A run on a file that has none appends one. */
  lemma RunAppends(lines: seq<string>, agr: string, key: string, c: Custom)
    requires Find(lines, c.verb) == |lines| && NoNewlines(lines) && CustomOk(c) && '\n' !in agr && '\n' !in key
    ensures var out := WiredLines(lines, agr, key, c);
            out != [] && Only(out, |out| - 1, c.verb) && out[|out| - 1] == NewLine(c, agr, key)
  {
    hide First, LastAgr, AsCommand, IsBlankLine, NewLine, Note, CustomOk;
    FindIs(lines, c.verb);
    NewLineChars(c, agr, key);
    NoteIsNoCommand(c);
    EmptyIsNoCommand(c.verb);
    var blank := if lines != [] && !IsBlankLine(lines[|lines| - 1]) then [""] else [];
    var before := lines + blank + [Note(c)];
    var out := before + [NewLine(c, agr, key)];
    assert WiredLines(lines, agr, key, c) == out;
    assert out[..|out| - 1] == before && out[|out| - 1] == NewLine(c, agr, key) && out[|out|..] == [];
    assert NoCommands(before, c.verb);
  }

  lemma NewLineChars(c: Custom, agr: string, key: string)
    requires CustomOk(c) && '\n' !in agr && '\n' !in key
    ensures '\n' !in NewLine(c, agr, key) && '\n' !in Note(c)
  {
    hide First, LastAgr, Closed;
    assert '\n' !in "command " && '\n' !in " --error-hud ";
  }

  /** A run on a file whose only command of the verb is line j rewrites that line alone. */
  lemma RunAtOnly(lines: seq<string>, j: nat, agr: string, key: string, c: Custom)
    requires Only(lines, j, c.verb) && AsCommand(lines[j], c.verb).Some? && '\n' !in agr && '\n' !in key
    ensures LastAgr(AsCommand(lines[j], c.verb).value.body, c.verb).Some?
    ensures var again := WireLine(AsCommand(lines[j], c.verb).value, c.verb, agr, key);
            && WireCommand(Text(lines), agr, key, c) == Text(lines[j := again])
            && (Text(lines[j := again]) == Text(lines) <==> again == lines[j])
  {
    hide AsCommand, WireBody, LastAgr, Chord;
    LineParts(lines[j], c.verb);
    var l := AsCommand(lines[j], c.verb).value;
    var again := WireLine(l, c.verb, agr, key);
    SplitText(lines);
    FindAt(lines, j, c.verb);
    LaterNothing(Pass(lines[..j + 1], key), lines[j + 1..], c, Chord(l.body, c.verb) == "");
    assert lines[..j + 1] + lines[j + 1..] == lines;
    NoNewlineInWire(lines[j], c.verb, agr, key);
    SplitText(lines[j := again]);
    assert lines[j := again][j] == again && lines[j := lines[j]] == lines;
  }

  lemma RunOnNone(lines: seq<string>, agr: string, key: string, c: Custom)
    requires NoNewlines(lines) && NoCommands(lines, c.verb)
    ensures WireCommand(Text(lines), agr, key, c) != Text(lines)
  {
    hide AsCommand, NewLine, Note, WithAdded;
    SplitText(lines);
    FindIs(lines, c.verb);
    WithAddedGrows(lines, Note(c), [NewLine(c, agr, key)]);
  }

  lemma OnlyNone(lines: seq<string>, j: nat, verb: string)
    requires Only(lines, j, verb) && AsCommand(lines[j], verb).None?
    ensures NoCommands(lines, verb) && NoNewlines(lines)
  {
    hide AsCommand;
    forall k | 0 <= k < |lines| ensures AsCommand(lines[k], verb).None? {
      if k < j { assert lines[k] == lines[..j][k]; }
      if k > j { assert lines[k] == lines[j + 1..][k - j - 1]; }
    }
  }

  // ----- a second run -----

  /** The first command of the verb, if there is one, and the key it is bound to are such that its
      rewriting is stable. */
  predicate FileStable(lines: seq<string>, key: string, c: Custom) {
    var i := Find(lines, c.verb);
    i < |lines| && AsCommand(lines[i], c.verb).Some? ==>
      var l, w := AsCommand(lines[i], c.verb).value, WrittenKey(lines, key, c);
      Stable(l, c.verb, w) && KeyFits(l, w)
  }

  predicate KeyGiven(key: string) { (key == "" || KeyOk(key) || KeyWord(key)) && '\n' !in key }

  /** A second run with the same key changes nothing if no word before the agr word opens and gaps
      are where a key is put, whatever chord was passed on. */
  lemma SecondRunChangesNothing(content: string, agr: string, key: string, c: Custom)
    requires FileStable(SplitLines(content), key, c) && CustomOk(c) && KeyGiven(key)
    requires Quoted(agr) && IsAgr(agr) && '\n' !in agr
    ensures var once := WireCommand(content, agr, key, c); WireCommand(once, agr, key, c) == once
  {
    hide AsCommand, WireBody, Chord, LastAgr, Stable, KeyFits, CustomOk, NewLine, NewBody, KeyOk, KeyWord, Quoted, IsAgr, Only;
    var lines := SplitLines(content);
    var out, i := WiredLines(lines, agr, key, c), Find(lines, c.verb);
    SplitNoNewlines(content);
    if i < |lines| {
      RunRewrites(lines, i, agr, key, c);
      LineAgain(lines[i], c.verb, agr, WrittenKey(lines, key, c));
      RunAtOnly(out, i, agr, key, c);
    } else {
      RunAppends(lines, agr, key, c);
      NewLineRead(c, agr, key);
      RunAtOnly(out, |out| - 1, agr, key, c);
      LineParts(NewLine(c, agr, key), c.verb);
    }
  }

  /** A binary that is not called agr: the line a run writes is not known to the next one, which
      changes the file again, any file. */
  lemma RenamedChangesAgain(content: string, agr: string, c: Custom)
    requires CustomOk(c) && Quoted(agr) && !IsAgr(agr) && '\n' !in agr
    ensures var once := WireCommand(content, agr, "", c); WireCommand(once, agr, "", c) != once
  {
    hide AsCommand, WireBody, Chord, LastAgr, CustomOk, NewLine, NewBody, Quoted, IsAgr, Only;
    var lines := SplitLines(content);
    var out, i := WiredLines(lines, agr, "", c), Find(lines, c.verb);
    SplitNoNewlines(content);
    if i < |lines| {
      RunRewrites(lines, i, agr, "", c);
    } else {
      RunAppends(lines, agr, "", c);
      NewLineRead(c, agr, "");
      i := |out| - 1;
    }
    if AsCommand(out[i], c.verb).None? {
      OnlyNone(out, i, c.verb);
      RunOnNone(out, agr, "", c);
    } else {
      RunAtOnly(out, i, agr, "", c);
      OtherAgrChanges(out[i], c.verb, agr);
    }
  }

  lemma OtherAgrChanges(line: string, verb: string, agr: string)
    requires AsCommand(line, verb).Some? && LastAgr(AsCommand(line, verb).value.body, verb).Some? && !IsAgr(agr)
    ensures WireLine(AsCommand(line, verb).value, verb, agr, "") != line
  {
    hide LastAgr, IsAgr, AsCommand;
    LineParts(line, verb);
    var l := AsCommand(line, verb).value;
    AgrWord(l.body, verb);
    var a := LastAgr(l.body, verb).value;
    var w :| IsAgr(w) && l.body == a.before + w + a.after;
    if a.before + agr + a.after == a.before + w + a.after { Middle(a.before, agr, w, a.after); }
    SamePrefix(l.head + l.name, PointBody(l.body, verb, agr), l.body);
  }

  lemma Middle(a: string, x: string, y: string, b: string)
    requires a + x + b == a + y + b
    ensures x == y
  {
    assert |x| == |y|;
    assert x == (a + x + b)[|a|..|a| + |x|] && y == (a + y + b)[|a|..|a| + |y|];
  }

  lemma {:induction false} AgrWord(s: string, verb: string)
    requires LastAgr(s, verb).Some?
    ensures exists w :: IsAgr(w) && s == LastAgr(s, verb).value.before + w + LastAgr(s, verb).value.after
    decreases |s|
  {
    hide IsAgr, First;
    assert First(s).Some? by { LastNeedsFirst(s, verb); }
    var c := First(s).value;
    if LastAgr(c.rest, verb).Some? {
      assert |c.rest| < |s| by { CutShorter(s); }
      AgrWord(c.rest, verb);
      var a := LastAgr(c.rest, verb).value;
      var w :| IsAgr(w) && c.rest == a.before + w + a.after;
      FiveParts(c.gap, c.word, a.before, w, a.after);
      assert s == LastAgr(s, verb).value.before + w + LastAgr(s, verb).value.after;
    } else {
      assert s == LastAgr(s, verb).value.before + c.word + LastAgr(s, verb).value.after;
    }
  }

  /** Exactly when a second run changes nothing, for every file in which a gap follows the agr word:
      the binary is called agr, and, if there is a command of the verb, neither its name nor a word
      before its agr word starts with a single quote that is not closed, and, if there is a key, a gap
      follows the place where it is put. A chord passed on by a later line counts as the key; it must
      be one setup would take, with a gap behind its place. */
  lemma SecondRunExactly(content: string, agr: string, key: string, c: Custom)
    requires CustomOk(c) && Quoted(agr) && '\n' !in agr && (key == "" || (KeyOk(key) && IsAgr(agr)))
    requires GapFollows(SplitLines(content), c.verb) && PassesOn(SplitLines(content), key, c)
    ensures var lines, once := SplitLines(content), WireCommand(content, agr, key, c);
            WireCommand(once, agr, key, c) == once
            <==> IsAgr(agr) && AllStable(lines, WrittenKey(lines, key, c), c.verb)
  {
    hide AsCommand, WireBody, Chord, LastAgr, Stable, CustomOk, Quoted, IsAgr, Only, WireLine, KeyWord, WiredLines,
      ChangesAgain, WrittenKey, GapAfter, Text, SplitLines, Find, From;
    var lines := SplitLines(content);
    var out, i, written := WiredLines(lines, agr, key, c), Find(lines, c.verb), WrittenKey(lines, key, c);
    SplitNoNewlines(content);
    KeyHasNoNewline(key);
    if !IsAgr(agr) {
      RenamedChangesAgain(content, agr, c);
    } else if AllStable(lines, written, c.verb) {
      SecondRunChangesNothing(content, agr, key, c);
    } else {
      RunRewrites(lines, i, agr, key, c);
      LineChanges(lines[i], c.verb, agr, written, key);
      UnreadOrChanged(out, i, agr, key, c);
    }
  }

  /** The key written is the one given, or a chord passed on that is put in front of a gap. */
  predicate PassesOn(lines: seq<string>, key: string, c: Custom) {
    var i, written := Find(lines, c.verb), WrittenKey(lines, key, c);
    || written == key
    || (i < |lines| && AsCommand(lines[i], c.verb).Some? && KeyOk(written)
        && StartsGap(From(AsCommand(lines[i], c.verb).value.body, c.verb, written)))
  }

  /** A file whose only command of the verb is not read back, or not as it would be written. */
  lemma UnreadOrChanged(lines: seq<string>, j: nat, agr: string, key: string, c: Custom)
    requires j < |lines| && Only(lines, j, c.verb) && ChangesAgain(lines[j], c.verb, agr, key)
    requires '\n' !in agr && '\n' !in key
    ensures WireCommand(Text(lines), agr, key, c) != Text(lines)
  {
    hide AsCommand, LastAgr, WireLine, Only, WireCommand;
    if AsCommand(lines[j], c.verb).None? {
      OnlyNone(lines, j, c.verb);
      RunOnNone(lines, agr, key, c);
    } else {
      RunAtOnly(lines, j, agr, key, c);
    }
  }

  lemma KeyHasNoNewline(key: string)
    requires key == "" || KeyOk(key)
    ensures '\n' !in key
  {
    assert IsGap('\n');
  }

  /** A gap follows the agr word of the first command of the verb. */
  predicate GapFollows(lines: seq<string>, verb: string) {
    var i := Find(lines, verb);
    i < |lines| && AsCommand(lines[i], verb).Some? ==>
      LastAgr(AsCommand(lines[i], verb).value.body, verb).Some? && GapAfter(AsCommand(lines[i], verb).value.body, verb)
  }

  /** The first command of the verb, if any, is stable. */
  predicate AllStable(lines: seq<string>, key: string, verb: string) {
    var i := Find(lines, verb);
    i < |lines| && AsCommand(lines[i], verb).Some? ==> Stable(AsCommand(lines[i], verb).value, verb, key)
  }

  /** What the rewriting reads back as a command: a stable line, or one in which gaps follow the
      agr word and the place of the key. */
  predicate Readable(l: Line, verb: string, key: string)
    requires LastAgr(l.body, verb).Some?
  {
    || (Stable(l, verb, key) && KeyFits(l, key))
    || ((key == "" || KeyOk(key)) && GapAfter(l.body, verb) && (key != "" ==> StartsGap(From(l.body, verb, key))))
  }

  /** The rewritten file has exactly one command of the verb, quotes closed or not. */
  lemma OneCommand(content: string, agr: string, key: string, c: Custom) returns (j: nat)
    requires CustomOk(c) && KeyGiven(key) && Quoted(agr) && IsAgr(agr) && '\n' !in agr
    requires var lines := SplitLines(content);
             var i := Find(lines, c.verb);
             i < |lines| && AsCommand(lines[i], c.verb).Some? ==>
               && LastAgr(AsCommand(lines[i], c.verb).value.body, c.verb).Some?
               && Readable(AsCommand(lines[i], c.verb).value, c.verb, WrittenKey(lines, key, c))
    ensures var out := SplitLines(WireCommand(content, agr, key, c));
            && j < |out|
            && forall k :: 0 <= k < |out| ==> (AsCommand(out[k], c.verb).Some? <==> k == j)
  {
    hide AsCommand, WireBody, Chord, LastAgr, Readable, CustomOk, NewLine, NewBody, Quoted, IsAgr, KeyOk, KeyWord, WireLine;
    var lines := SplitLines(content);
    SplitNoNewlines(content);
    j := Find(lines, c.verb);
    var out := WiredLines(lines, agr, key, c);
    if j < |lines| {
      RunRewrites(lines, j, agr, key, c);
      ReadBack(lines[j], c.verb, agr, WrittenKey(lines, key, c));
    } else {
      RunAppends(lines, agr, key, c);
      NewLineRead(c, agr, key);
      j := |out| - 1;
    }
    SplitText(out);
    OnlyAt(out, j, c.verb);
  }

  lemma ReadBack(line: string, verb: string, agr: string, key: string)
    requires AsCommand(line, verb).Some? && LastAgr(AsCommand(line, verb).value.body, verb).Some?
    requires Readable(AsCommand(line, verb).value, verb, key) && Quoted(agr) && IsAgr(agr)
    ensures AsCommand(WireLine(AsCommand(line, verb).value, verb, agr, key), verb).Some?
  {
    hide AsCommand, WireBody, LastAgr, Quoted, IsAgr, KeyOk, KeyWord, WireLine, Sealed, GapAfter, From, Opens, Closed;
    var l := AsCommand(line, verb).value;
    if Stable(l, verb, key) {
      assert key == "" || KeyOk(key) ==> KeyFits(l, key);
      LineAgain(line, verb, agr, key);
    } else if Opens(l.name) {
      OpenNameChanges(line, verb, agr, key, key);
    } else {
      UnsealedChanges(line, verb, agr, key, key);
    }
  }

  lemma OnlyAt(lines: seq<string>, j: nat, verb: string)
    requires j < |lines| && AsCommand(lines[j], verb).Some?
    requires NoCommands(lines[..j], verb) && NoCommands(lines[j + 1..], verb)
    ensures forall k :: 0 <= k < |lines| ==> (AsCommand(lines[k], verb).Some? <==> k == j)
  {
    hide AsCommand;
    forall k | 0 <= k < |lines| ensures AsCommand(lines[k], verb).Some? <==> k == j {
      if k < j { assert lines[k] == lines[..j][k]; }
      if k > j { assert lines[k] == lines[j + 1..][k - j - 1]; }
    }
  }

  /** wireCommand: the first command line is found, the later ones are compacted in place, and the
      first is rewritten. */
  method RewriteCommand(content: string, agr: string, key: string, c: Custom) returns (r: string)
    ensures r == WireCommand(content, agr, key, c)
  {
    hide AsCommand, WireBody, Chord, LastAgr;
    var lines := SplitLines(content);
    var i := Find(lines, c.verb);
    FindIs(lines, c.verb);
    if i == |lines| {
      return Text(WithAdded(lines, Note(c), [NewLine(c, agr, key)]));
    }
    var l := AsCommand(lines[i], c.verb).value;
    assert LastAgr(l.body, c.verb).Some? by { LineParts(lines[i], c.verb); }
    var chordless := Chord(l.body, c.verb) == "";
    var kept, chosen := lines[..i + 1], key;
    for k := i + 1 to |lines|
      invariant PassLater(Pass(kept, chosen), lines[k..], c, chordless)
             == PassLater(Pass(lines[..i + 1], key), lines[i + 1..], c, chordless)
    {
      assert lines[k..][0] == lines[k] && lines[k..][1..] == lines[k + 1..];
      var later := AsCommand(lines[k], c.verb);
      if later.None? {
        kept := kept + [lines[k]];
        continue;
      }
      if chosen == "" && chordless {
        chosen := Chord(later.value.body, c.verb);
      }
      kept := DropNote(kept, Note(c));
    }
    if i < |kept| {
      kept := kept[i := WireLine(l, c.verb, agr, chosen)];
    }
    return Text(kept);
  }

  // ----- two files that show the conditions are needed -----

  lemma LastAgrHere(gap: string, word: string, verb: string)
    requires AllGap(gap) && gap != "" && IsAgr(word) && verb != "" && NoGap(verb) && !IsQuote(verb[0]) && !IsAgr(verb)
    requires First(gap + word + (" " + verb)) == Some(Cut(gap, word, " " + verb))
    ensures LastAgr(gap + word + (" " + verb), verb) == Some(Around(gap, " " + verb))
  {
    VerbAlone(verb);
    LastAgrOf(gap + word + (" " + verb), verb, gap, word, " " + verb);
  }

  lemma VerbAlone(verb: string)
    requires verb != "" && NoGap(verb) && !IsQuote(verb[0])
    ensures First(" " + verb) == Some(Cut(" ", verb, "")) && LastAgr(" " + verb, verb).None?
  {
    hide IsAgr, NoGap;
    assert AllGap(" ") && First("").None?;
    FirstRun(" ", verb, "");
    CatNil(" " + verb);
    LastAgrOf(" " + verb, verb, " ", verb, "");
  }

  lemma PlainName(word: string)
    requires word != "" && '/' !in word && !IsQuote(word[0]) && !IsQuote(word[|word| - 1])
    ensures IsAgr(word) <==> word == "agr"
  {
    assert TrimQuotes(word) == word;
    NoSlashBase(word);
  }

  lemma BareNames()
    ensures IsAgr("agr") && !IsAgr("end")
  {
    hide IsAgr;
    PlainName("agr");
    PlainName("end");
  }

  lemma WholeQuoted()
    ensures Quoted("'/agr'") && IsAgr("'/agr'")
  {
    SlashBase();
    QuotedIsAgr("/agr");
    assert "'" + "/agr" + "'" == "'/agr'";
  }

  lemma SlashBase()
    ensures Tokens.Base("/agr") == "agr"
  {
    assert "/agr"[..3] == "/ag" && "/ag"[..2] == "/a" && "/a"[..1] == "/";
    assert Tokens.LastPart("/") == "";
    assert Tokens.LastPart("/a") == "a";
    assert Tokens.LastPart("/ag") == "ag";
    assert Tokens.LastPart("/agr") == "agr";
  }

  lemma ShortRuns()
    ensures AllGap(" ") && AllGap("") && NoGap("end") && NoGap("agr") && NoGap("'x")
  {}

  lemma OpenQuoteBody()
    ensures LastAgr(" agr end", "end") == Some(Around(" ", " end"))
    ensures PointBody(" agr end", "end", "'/agr'") == " '/agr' end"
  {
    hide First, LastAgr, IsAgr, AllGap, NoGap;
    BareNames();
    ShortRuns();
    FirstRun(" ", "agr", " end");
    assert " " + "agr" + (" " + "end") == " agr end" && " " + "end" == " end";
    LastAgrHere(" ", "agr", "end");
    assert " " + "'/agr'" + " end" == " '/agr' end";
  }

  lemma CommandFrom(word: string, body: string, line: string)
    requires line == "command " + word + body && word != "" && !IsGap(word[0])
    requires First(" " + word + body) == Some(Cut(" ", word, body)) && LastAgr(body, "end").Some?
    ensures AsCommand(line, "end") == Some(Line("command ", word, body))
  {
    hide First, LastAgr, AllGap, NoGap;
    CommandIsRun();
    ShortRuns();
    FirstRun("", "command", " " + word + body);
    assert "" + "command" + (" " + word + body) == line && "" + "command" + " " == "command ";
  }

  /** The name's quote is open: the agr word is found, but its own quotes then close that one. */
  lemma OpenQuoteLine()
    ensures AsCommand("command 'x agr end", "end") == Some(Line("command ", "'x", " agr end"))
  {
    hide First, LastAgr, IsAgr, AllGap, NoGap, Closed;
    ShortRuns();
    OpenQuoteBody();
    assert "'x"[1..] == "x";
    FirstUnclosed(" ", "'x", " agr end");
    assert "command " + "'x" + " agr end" == "command 'x agr end";
    CommandFrom("'x", " agr end", "command 'x agr end");
  }

  lemma OneLine(line: string, c: Custom)
    requires AsCommand(line, c.verb).Some? && '\n' !in line
    ensures SplitLines(Text([line])) == [line] && Find([line], c.verb) == 0 && Only([line], 0, c.verb)
    ensures WrittenKey([line], "", c) == ""
  {
    hide AsCommand;
    SplitText([line]);
    assert [line][..0] == [] && [line][..1] == [line] && [line][1..] == [];
    FindAt([line], 0, c.verb);
  }

  /** A quote that is not closed: on this one-line file a second run changes the line again, although
      its name is followed by a space and no key is written. */
  lemma OpenQuoteChangesAgain()
    ensures exists content, agr, c ::
              && Quoted(agr) && IsAgr(agr) && CustomOk(c) && GapFollows(SplitLines(content), c.verb)
              && WireCommand(WireCommand(content, agr, "", c), agr, "", c) != WireCommand(content, agr, "", c)
  {
    hide AsCommand, LastAgr, WireCommand, IsAgr, Quoted, CustomOk, First, SplitLines, Text, Find, WrittenKey;
    var line, agr, c := "command 'x agr end", "'/agr'", END_COMMAND;
    WholeQuoted();
    EndOk();
    OpenQuoteLine();
    OpenQuoteBody();
    OneLine(line, c);
    assert Opens("'x") by { assert "'x"[0] == '\''; }
    assert GapFollows([line], "end");
    SecondRunExactly(Text([line]), agr, "", c);
    assert !AllStable([line], "", "end");
  }

  /** A line in which an open word stands before the last agr word, which is in double quotes and
      directly followed by the verb, while an earlier agr word is as setup writes it. */
  ghost predicate Abutting(g: string, agr: string, verb: string, open: string, w: string) {
    && AllGap(g) && g != "" && Quoted(agr) && IsAgr(agr) && NoGap(agr) && verb != "" && NoGap(verb) && !IsQuote(verb[0])
    && Opens(open) && NoGap(open) && '\'' !in open[1..] && Closed(w) && '\'' !in w && '\'' !in verb && IsAgr(w)
    && IsGap(g[0])
  }

  function AbuttingBody(g: string, agr: string, verb: string, open: string, w: string): string {
    g + agr + (g + verb + (g + open + (g + w + verb)))
  }

  lemma AbuttingCut(g: string, agr: string, verb: string, open: string, w: string)
    requires Abutting(g, agr, verb, open, w)
    ensures var body := AbuttingBody(g, agr, verb, open, w);
            LastAgr(body, verb) == Some(Around(g + agr + (g + verb + (g + open + g)), verb)) && !Sealed(body, verb)
  {
    hide First, LastAgr, IsAgr, AllGap, NoGap, Closed, Sealed;
    var t3 := g + w + verb;
    var t2 := g + open + t3;
    var t1 := g + verb + t2;
    NothingIn(verb);
    OneWord(verb);
    LastAgrOf(verb, verb, "", verb, "");
    FirstClosed(g, w, verb);
    LastAgrOf(t3, verb, g, w, verb);
    assert t3[0] == g[0] && '\'' !in t3 by { NoQuoteIn(g, w, verb); }
    FirstUnclosed(g, open, t3);
    LastAgrOf(t2, verb, g, open, t3);
    assert t2[0] == g[0];
    FirstRun(g, verb, t2);
    LastAgrOf(t1, verb, g, verb, t2);
    FirstQuoted(g, agr, t1);
    LastAgrOf(AbuttingBody(g, agr, verb, open, w), verb, g, agr, t1);
  }

  lemma NothingIn(verb: string)
    ensures First("").None? && LastAgr("", verb).None?
  {}

  lemma OneWord(word: string)
    requires word != "" && NoGap(word) && !IsQuote(word[0])
    ensures First(word) == Some(Cut("", word, ""))
  {
    assert AllGap("");
    FirstRun("", word, "");
    CatNil(word);
  }

  lemma NoQuoteIn(g: string, w: string, verb: string)
    requires AllGap(g) && '\'' !in w && '\'' !in verb
    ensures '\'' !in g + w + verb
  {
    assert !IsGap('\'');
  }

  /** The first run's own quote closes the open word, and no agr word is left behind it: the second
      run finds the earlier one. */
  lemma AbuttedCut(g: string, agr: string, verb: string, open: string, w: string)
    requires Abutting(g, agr, verb, open, w) && LastAgr(AbuttingBody(g, agr, verb, open, w), verb).Some?
    ensures var next := PointBody(AbuttingBody(g, agr, verb, open, w), verb, agr);
            LastAgr(next, verb).Some? && PointBody(next, verb, agr) == next
  {
    hide First, LastAgr, IsAgr, AllGap, NoGap, Sealed, PointBody;
    var path := PathOf(agr);
    var u3 := path + "'" + verb;
    var t := open + g + "'";
    var u2 := g + t + u3;
    var u1 := g + verb + u2;
    AbuttingCut(g, agr, verb, open, w);
    AbuttedParts(g, "'", path, verb, open);
    PointedAt(AbuttingBody(g, agr, verb, open, w), verb, agr, g + agr + (g + verb + (g + open + g)), verb);
    AbuttedRun(agr, verb);
    OneWord(u3);
    NothingIn(verb);
    LastAgrOf(u3, verb, "", u3, "");
    assert '\'' !in g by { NoQuoteIn(g, "", ""); assert g + "" + "" == g; }
    OpenClosed(open, g);
    FirstClosed(g, t, u3);
    assert |u3| > |verb|;
    LastAgrOf(u2, verb, g, t, u3);
    assert u2[0] == g[0];
    FirstRun(g, verb, u2);
    assert t[0] == '\'' && verb[0] != '\'';
    LastAgrOf(u1, verb, g, verb, u2);
    FirstQuoted(g, agr, u1);
    LastAgrOf(g + agr + u1, verb, g, agr, u1);
    PointedAt(g + agr + u1, verb, agr, g, u1);
  }

  lemma PointedAt(s: string, verb: string, agr: string, before: string, after: string)
    requires LastAgr(s, verb) == Some(Around(before, after))
    ensures PointBody(s, verb, agr) == before + agr + after
  {}

  lemma AbuttedRun(agr: string, verb: string)
    requires Quoted(agr) && IsAgr(agr) && NoGap(agr) && NoGap(verb)
    ensures var u := PathOf(agr) + "'" + verb; u != "" && NoGap(u) && !IsQuote(u[0])
  {
    var path := PathOf(agr);
    PathIsAgr(agr);
    NoBase();
    assert forall k :: 0 <= k < |path| ==> path[k] == agr[k + 1];
    assert path[0] in path;
  }

  lemma AbuttedParts(g: string, quote: string, path: string, verb: string, open: string)
    ensures var agr := quote + path + quote;
            g + agr + (g + verb + (g + open + g)) + agr + verb
            == g + agr + (g + verb + (g + (open + g + quote) + (path + quote + verb)))
  {}

  /** The gap behind the agr word is needed for the exact condition: on such a line a second run
      changes nothing although a word before the agr word opens. */
  lemma AbuttingVerbStays(name: string, w: string, open: string, agr: string, c: Custom)
    requires CustomOk(c) && '\'' !in c.verb && '\n' !in agr && '\n' !in name && '\n' !in open && '\n' !in w
    requires name != "" && NoGap(name) && !IsQuote(name[0]) && Abutting(" ", agr, c.verb, open, w)
    ensures var content := Text(["command " + name + AbuttingBody(" ", agr, c.verb, open, w)]);
            && !AllStable(SplitLines(content), "", c.verb)
            && WireCommand(WireCommand(content, agr, "", c), agr, "", c) == WireCommand(content, agr, "", c)
  {
    hide AsCommand, LastAgr, WireCommand, IsAgr, Quoted, CustomOk, First, SplitLines, Text, Find, WrittenKey, Only, Sealed,
      AbuttingBody, PointBody, Abutting, NoGap, AllGap;
    var body := AbuttingBody(" ", agr, c.verb, open, w);
    AbuttingCut(" ", agr, c.verb, open, w);
    var next := PointBody(body, c.verb, agr);
    AbuttedCut(" ", agr, c.verb, open, w);
    AbuttingStarts(agr, c.verb, open, w);
    PointedHead(body, c.verb, agr);
    PlainCommand(name, body, c.verb);
    PlainCommand(name, next, c.verb);
    var line, again := "command " + name + body, "command " + name + next;
    AbuttingChars(agr, c, open, w, name);
    NotInPointed(body, c.verb, agr, '\n');
    assert '\n' !in "command ";
    OneLine(line, c);
    OneLine(again, c);
    RunAtOnly([line], 0, agr, "", c);
    RunAtOnly([again], 0, agr, "", c);
    assert [line][0 := again] == [again] && [again][0 := again] == [again];
    assert !AllStable([line], "", c.verb);
  }

  lemma AbuttingStarts(agr: string, verb: string, open: string, w: string)
    ensures var body := AbuttingBody(" ", agr, verb, open, w); body != "" && IsGap(body[0])
  {
    assert AbuttingBody(" ", agr, verb, open, w)[0] == ' ';
  }

  lemma AbuttingChars(agr: string, c: Custom, open: string, w: string, name: string)
    requires CustomOk(c) && '\n' !in agr && '\n' !in name && '\n' !in open && '\n' !in w
    ensures '\n' !in AbuttingBody(" ", agr, c.verb, open, w)
  {
    hide First, LastAgr, Closed, NoGap;
  }

  lemma PlainCommand(name: string, body: string, verb: string)
    requires name != "" && NoGap(name) && !IsQuote(name[0]) && body != "" && IsGap(body[0]) && LastAgr(body, verb).Some?
    ensures AsCommand("command " + name + body, verb) == Some(Line("command ", name, body))
  {
    hide First, LastAgr;
    assert AllGap("") && AllGap(" ");
    LineFrom("", " ", name, body, verb);
    assert "" + "command" + " " == "command ";
  }

  /** One such file. */
  lemma AbuttingFile()
    ensures CustomOk(END_COMMAND) && '\'' !in END_COMMAND.verb
    ensures Abutting(" ", "'/agr'", "end", "'y", "\"agr\"")
  {
    hide First, LastAgr, IsAgr;
    EndOk();
    WholeQuoted();
    AbuttingName();
    assert NoGap("'/agr'") && NoGap("end") && NoGap("'y");
  }

  lemma AbuttingName()
    ensures IsAgr("\"agr\"")
  {
    hide *;
    AgrChars();
    InDoubleQuotes("agr");
    QuotedAgr();
  }

  lemma InDoubleQuotes(name: string)
    requires name != "" && '\'' !in name && '"' !in name && '/' !in name
    ensures IsAgr(['"'] + name + ['"']) <==> name == "agr"
  {
    hide IsAgr, Tokens.Base;
    NoSlashBase(name);
    InQuotes(name, '"');
  }

  lemma AgrChars()
    ensures '\'' !in "agr" && '"' !in "agr" && '/' !in "agr"
  {}

  lemma QuotedAgr()
    ensures ['"'] + "agr" + ['"'] == "\"agr\""
  {}
}
