/** The arguments of agr open: as the command itself reads them, as the policy recognises an
    attached pane by them, and as a new row's command line is written. */
module OpenCommand {
  import opened Results
  import opened Sequences
  import opened Tree
  import BindingStore
  import ShellQuoting
  import Tokens

  datatype OpenOptions = OpenOptions(cwd: string, parent: string, command: string, orchestrator: string)

  const NoOptions := OpenOptions("", "", "", "")

  predicate IsFlag(arg: string) { arg == "--cwd" || arg == "--parent" || arg == "--command" || arg == "--orchestrator" }

  function SetOption(opts: OpenOptions, flag: string, value: string): OpenOptions {
    if flag == "--cwd" then opts.(cwd := value)
    else if flag == "--parent" then opts.(parent := value)
    else if flag == "--command" then opts.(command := value)
    else opts.(orchestrator := value)
  }

  datatype Opened = Opened(positional: seq<string>, opts: OpenOptions)

  /** The rest of the arguments, after flags `seen` and what they and the positionals gave. */
  function ParseFrom(args: seq<string>, seen: set<string>, out: Opened): Option<Opened>
    decreases |args|
  {
    if args == [] then Some(out)
    else if IsFlag(args[0]) then
      if |args| < 2 || args[0] in seen then None
      else ParseFrom(args[2..], seen + {args[0]}, out.(opts := SetOption(out.opts, args[0], args[1])))
    else ParseFrom(args[1..], seen, out.(positional := out.positional + [args[0]]))
  }

  function ParseOpen(args: seq<string>): Option<Opened> { ParseFrom(args, {}, Opened([], NoOptions)) }

  /** parseOpenArgs: an index loop with a set of seen flags. It computes ParseOpen. */
  method ParseOpenArgs(args: seq<string>) returns (r: Option<Opened>)
    ensures r == ParseOpen(args)
  {
    var out := Opened([], NoOptions);
    var seen: set<string> := {};
    var i := 0;
    while i < |args|
      invariant 0 <= i <= |args|
      invariant ParseFrom(args[i..], seen, out) == ParseOpen(args)
    {
      assert args[i..][0] == args[i] && args[i..][1..] == args[i + 1..];
      if IsFlag(args[i]) {
        if i + 1 >= |args| || args[i] in seen {
          return None;
        }
        assert args[i..][1] == args[i + 1] && args[i..][2..] == args[i + 2..];
        out, seen, i := out.(opts := SetOption(out.opts, args[i], args[i + 1])), seen + {args[i]}, i + 2;
      } else {
        out, i := out.(positional := out.positional + [args[i]]), i + 1;
      }
    }
    return Some(out);
  }

  // ----- how the policy reads the same arguments -----

  /** The positionals, skipping each flag with its value; None for a flag without one. */
  function Positionals(args: seq<string>): Option<seq<string>>
    decreases |args|
  {
    if args == [] then Some([])
    else if IsFlag(args[0]) then if |args| < 2 then None else Positionals(args[2..])
    else
      var rest := Positionals(args[1..]);
      if rest.None? then None else Some([args[0]] + rest.value)
  }

  /** The flags of an argument list, in order. */
  function Flags(args: seq<string>): seq<string>
    decreases |args|
  {
    if args == [] then []
    else if IsFlag(args[0]) then [args[0]] + (if |args| < 2 then [] else Flags(args[2..]))
    else Flags(args[1..])
  }

  predicate Distinct(flags: seq<string>, seen: set<string>) {
    flags == [] || (flags[0] !in seen && Distinct(flags[1..], seen + {flags[0]}))
  }

  predicate NoneTwice(flags: seq<string>) { forall i, j :: 0 <= i < j < |flags| ==> flags[i] != flags[j] }

  lemma {:induction false} DistinctMeans(flags: seq<string>, seen: set<string>)
    ensures Distinct(flags, seen) <==> NoneTwice(flags) && forall k :: 0 <= k < |flags| ==> flags[k] !in seen
  {
    if flags != [] {
      DistinctMeans(flags[1..], seen + {flags[0]});
      if NoneTwice(flags) && (forall k :: 0 <= k < |flags| ==> flags[k] !in seen) {
        forall k | 0 <= k < |flags[1..]| ensures flags[1..][k] !in seen + {flags[0]} {
          assert flags[k + 1] == flags[1..][k];
        }
        assert NoneTwice(flags[1..]);
      }
      if Distinct(flags, seen) {
        forall i, j | 0 <= i < j < |flags| ensures flags[i] != flags[j] {
          assert flags[j] == flags[1..][j - 1];
          if i > 0 { assert flags[i] == flags[1..][i - 1]; }
        }
        forall k | 0 <= k < |flags| ensures flags[k] !in seen {
          if k > 0 { assert flags[k] == flags[1..][k - 1]; }
        }
      }
    }
  }

  lemma {:induction false} ParseFromAgrees(args: seq<string>, seen: set<string>, out: Opened)
    ensures ParseFrom(args, seen, out).Some? <==> Positionals(args).Some? && Distinct(Flags(args), seen)
    ensures ParseFrom(args, seen, out).Some? ==>
              ParseFrom(args, seen, out).value.positional == out.positional + Positionals(args).value
    decreases |args|
  {
    hide IsFlag, SetOption;
    if args == [] {
      assert out.positional + [] == out.positional;
    } else if IsFlag(args[0]) {
      if |args| >= 2 {
        ParseFromAgrees(args[2..], seen + {args[0]}, out.(opts := SetOption(out.opts, args[0], args[1])));
        assert ([args[0]] + Flags(args[2..]))[1..] == Flags(args[2..]);
      }
    } else {
      ParseFromAgrees(args[1..], seen, out.(positional := out.positional + [args[0]]));
      if Positionals(args[1..]).Some? {
        CatThree(out.positional, [args[0]], Positionals(args[1..]).value);
      }
    }
  }

  /** agr open accepts an argument list exactly when the policy's reading of it succeeds and no
      flag is given twice, and then both see the same positionals. */
  lemma OpenAgreesWithPolicy(args: seq<string>)
    ensures ParseOpen(args).Some? <==> Positionals(args).Some? && NoneTwice(Flags(args))
    ensures ParseOpen(args).Some? ==> Positionals(args) == Some(ParseOpen(args).value.positional)
  {
    ParseFromAgrees(args, {}, Opened([], NoOptions));
    DistinctMeans(Flags(args), {});
    if Positionals(args).Some? {
      assert [] + Positionals(args).value == Positionals(args).value;
    }
  }

  // ----- the language of the arguments -----

  const VALUED := {"--cwd", "--parent", "--command", "--orchestrator"}

  /** A word, or an option with the argument behind it, whatever that is. */
  datatype Item = Word(text: string) | Given(flag: string, value: string)

  predicate ItemOk(item: Item) {
    match item
    case Word(text) => text !in VALUED
    case Given(flag, _) => flag in VALUED
  }

  predicate ItemsOk(items: seq<Item>) { forall k :: 0 <= k < |items| ==> ItemOk(items[k]) }

  function Spell(items: seq<Item>): seq<string> {
    if items == [] then []
    else (match items[0] case Word(text) => [text] case Given(flag, value) => [flag, value]) + Spell(items[1..])
  }

  function WordsOf(items: seq<Item>): seq<string> {
    if items == [] then []
    else if items[0].Word? then [items[0].text] + WordsOf(items[1..])
    else WordsOf(items[1..])
  }

  function FlagsOf(items: seq<Item>): seq<string> {
    if items == [] then []
    else if items[0].Word? then FlagsOf(items[1..])
    else [items[0].flag] + FlagsOf(items[1..])
  }

  /** What the options say; the last of a flag counts. */
  function OptionsOf(items: seq<Item>, opts: OpenOptions): OpenOptions {
    if items == [] then opts
    else match items[0]
         case Word(_) => OptionsOf(items[1..], opts)
         case Given("--cwd", value) => OptionsOf(items[1..], opts.(cwd := value))
         case Given("--parent", value) => OptionsOf(items[1..], opts.(parent := value))
         case Given("--command", value) => OptionsOf(items[1..], opts.(command := value))
         case Given(_, value) => OptionsOf(items[1..], opts.(orchestrator := value))
  }

  lemma SpellHead(items: seq<Item>)
    requires items != [] && ItemsOk(items)
    ensures ItemsOk(items[1..])
    ensures match items[0]
            case Word(text) => Spell(items) != [] && Spell(items)[0] == text && Spell(items)[1..] == Spell(items[1..])
            case Given(flag, value) =>
              |Spell(items)| >= 2 && Spell(items)[0] == flag && Spell(items)[1] == value && Spell(items)[2..] == Spell(items[1..])
  {
    assert forall k :: 0 <= k < |items[1..]| ==> items[1..][k] == items[k + 1];
  }

  lemma {:induction false} SpelledIsRead(items: seq<Item>, seen: set<string>, out: Opened)
    requires ItemsOk(items)
    ensures Positionals(Spell(items)) == Some(WordsOf(items)) && Flags(Spell(items)) == FlagsOf(items)
    ensures ParseFrom(Spell(items), seen, out).Some? ==>
              ParseFrom(Spell(items), seen, out).value.opts == OptionsOf(items, out.opts)
  {
    if items != [] {
      SpellHead(items);
      assert ItemOk(items[0]);
      match items[0]
      case Word(text) => SpelledIsRead(items[1..], seen, out.(positional := out.positional + [text]));
      case Given(flag, value) =>
        SpelledIsRead(items[1..], seen + {flag}, out.(opts := SetOption(out.opts, flag, value)));
        assert OptionsOf(items, out.opts) == OptionsOf(items[1..], SetOption(out.opts, flag, value));
    }
  }

  /** agr open reads its arguments as words and options with a value: a list spelled from words that are
      no flags and from flags with whatever follows them is accepted exactly when no flag is there
      twice, and gives those words and those values. */
  lemma OpenReadsGrammar(items: seq<Item>)
    requires ItemsOk(items)
    ensures ParseOpen(Spell(items)).Some? <==> NoneTwice(FlagsOf(items))
    ensures ParseOpen(Spell(items)).Some? ==>
              ParseOpen(Spell(items)).value == Opened(WordsOf(items), OptionsOf(items, NoOptions))
  {
    SpelledIsRead(items, {}, Opened([], NoOptions));
    OpenAgreesWithPolicy(Spell(items));
  }

  /** Every list the policy's reading accepts, and so every one agr open does, is spelled in this way. */
  lemma {:induction false} ReadIsSpelled(args: seq<string>) returns (items: seq<Item>)
    requires Positionals(args).Some?
    ensures ItemsOk(items) && Spell(items) == args
    decreases |args|
  {
    items := [];
    if args != [] {
      var n := if IsFlag(args[0]) then 2 else 1;
      var rest := ReadIsSpelled(args[n..]);
      var item := if IsFlag(args[0]) then Given(args[0], args[1]) else Word(args[0]);
      items := [item] + rest;
      assert items[1..] == rest;
      assert args == args[..n] + args[n..];
    }
  }

  // ----- an attached pane -----

  /** The program runs agr open for the host and, if it names one, the session. */
  predicate RunsOpen(argv: seq<string>, host: string, name: string) {
    && |argv| >= 3 && Tokens.Base(argv[0]) == "agr" && argv[1] == "open"
    && var p := Positionals(argv[2..]);
       p.Some? && p.value != [] && p.value[0] == host && (|p.value| >= 2 ==> p.value[1] == name)
  }

  predicate Attached(row: Row, b: BindingStore.Binding) {
    var surface := SurfaceById(row, b.paneId);
    && surface.Some?
    && var program := Foreground(row, surface.value.kind);
       program.Some? && RunsOpen(program.value.argv, b.host, b.name)
  }

  /** The argument list is agr open for the host and, if it names one, the session: the program is
      called agr, its verb open, and the first words among the options are these. */
  ghost predicate IsOpen(argv: seq<string>, host: string, name: string) {
    && |argv| >= 3 && Tokens.Base(argv[0]) == "agr" && argv[1] == "open"
    && exists items :: ItemsOk(items) && Spell(items) == argv[2..]
                       && (WordsOf(items) == [host] || [host, name] <= WordsOf(items))
  }

  /** A pane is attached exactly when the first surface of the binding's pane id runs, on its side, agr
      open for the binding's host and name. */
  lemma AttachedMeans(row: Row, b: BindingStore.Binding)
    ensures Attached(row, b) <==>
              exists k :: && 0 <= k < |row.surfaces| && Same(row.surfaces[k].paneId, b.paneId)
                          && (forall j :: 0 <= j < k ==> !Same(row.surfaces[j].paneId, b.paneId))
                          && RunsIn(row, row.surfaces[k].kind, b)
  {
    hide RunsIn, RunsOpen, Foreground;
    FirstByIdIs(row.surfaces, b.paneId);
    forall kind ensures RunsIn(row, kind, b) <==> Foreground(row, kind).Some? && RunsOpen(Foreground(row, kind).value.argv, b.host, b.name) {
      RunsInMeans(row, kind, b);
    }
  }

  /** On the left the row's own program counts, on the right that of its split. */
  ghost predicate RunsIn(row: Row, kind: string, b: BindingStore.Binding) {
    || (kind == "left" && IsOpen(row.foreground, b.host, b.name))
    || (kind == "right" && row.hasSplit && IsOpen(row.splitForeground, b.host, b.name))
  }

  lemma RunsInMeans(row: Row, kind: string, b: BindingStore.Binding)
    ensures RunsIn(row, kind, b) <==> Foreground(row, kind).Some? && RunsOpen(Foreground(row, kind).value.argv, b.host, b.name)
  {
    OpenIs(row.foreground, b.host, b.name);
    OpenIs(row.splitForeground, b.host, b.name);
  }

  lemma OpenIs(argv: seq<string>, host: string, name: string)
    ensures RunsOpen(argv, host, name) <==> IsOpen(argv, host, name)
  {
    hide IsFlag, Positionals, ItemsOk, Spell, WordsOf;
    if RunsOpen(argv, host, name) {
      var items := ReadIsSpelled(argv[2..]);
      SpelledIsRead(items, {}, Opened([], NoOptions));
    }
    if IsOpen(argv, host, name) {
      var items :| ItemsOk(items) && Spell(items) == argv[2..]
                   && (WordsOf(items) == [host] || [host, name] <= WordsOf(items));
      SpelledIsRead(items, {}, Opened([], NoOptions));
    }
  }

  /** The loop of attached: the positionals are collected, each flag skipped with its value. */
  method CollectPositionals(args: seq<string>) returns (r: Option<seq<string>>)
    ensures r == Positionals(args)
  {
    hide IsFlag;
    var positional: seq<string> := [];
    var i := 0;
    while i < |args|
      invariant 0 <= i <= |args|
      invariant Positionals(args).Some? <==> Positionals(args[i..]).Some?
      invariant Positionals(args[i..]).Some? ==> Positionals(args).value == positional + Positionals(args[i..]).value
    {
      assert args[i..][0] == args[i] && args[i..][1..] == args[i + 1..];
      if IsFlag(args[i]) {
        if i + 1 >= |args| {
          return None;
        }
        assert args[i..][2..] == args[i + 2..];
        i := i + 2;
      } else {
        if Positionals(args[i + 1..]).Some? {
          CatThree(positional, [args[i]], Positionals(args[i + 1..]).value);
        }
        positional, i := positional + [args[i]], i + 1;
      }
    }
    assert positional + [] == positional;
    return Some(positional);
  }

  /** attached: the lookups, the program's name and verb, then its positionals. */
  method CheckAttached(row: Row, b: BindingStore.Binding) returns (ok: bool)
    ensures ok == Attached(row, b)
  {
    hide IsFlag, Positionals;
    var surface := SurfaceById(row, b.paneId);
    if surface.None? {
      return false;
    }
    var program := Foreground(row, surface.value.kind);
    if program.None? {
      return false;
    }
    var argv := program.value.argv;
    if |argv| < 3 || Tokens.Base(argv[0]) != "agr" || argv[1] != "open" {
      return false;
    }
    var positional := CollectPositionals(argv[2..]);
    if positional.None? || positional.value == [] || positional.value[0] != b.host {
      return false;
    }
    return |positional.value| < 2 || positional.value[1] == b.name;
  }

  // ----- the command of a new row -----

  /** The words rewriteNew joins into the new row's --command. */
  function NewWords(agr: string, host: string, name: string, cwd: string, command: string): seq<string> {
    [agr, "open", host, name] + (if cwd != "" then ["--cwd", cwd] else [])
    + (if command != "" then ["--command", command] else [])
  }

  lemma TailParsed(words: seq<string>, host: string, name: string, cwd: string, command: string)
    requires words == (if cwd != "" then ["--cwd", cwd] else []) + (if command != "" then ["--command", command] else [])
    ensures ParseFrom(words, {}, Opened([host, name], NoOptions))
         == Some(Opened([host, name], NoOptions.(cwd := cwd, command := command)))
  {
    var start := Opened([host, name], NoOptions);
    if cwd != "" {
      var last := if command != "" then ["--command", command] else [];
      var out := start.(opts := NoOptions.(cwd := cwd));
      assert words == ["--cwd", cwd] + last;
      TwoAndRest("--cwd", cwd, last);
      assert {} + {"--cwd"} == {"--cwd"};
      CommandParsed(last, {"--cwd"}, out, command);
    } else {
      CommandParsed(words, {}, start, command);
    }
  }

  lemma TwoAndRest(a: string, b: string, rest: seq<string>)
    ensures ([a, b] + rest)[0] == a && ([a, b] + rest)[1] == b && ([a, b] + rest)[2..] == rest
  {}

  lemma CommandParsed(words: seq<string>, seen: set<string>, out: Opened, command: string)
    requires words == (if command != "" then ["--command", command] else []) && "--command" !in seen
    requires out.opts.command == ""
    ensures ParseFrom(words, seen, out) == Some(out.(opts := out.opts.(command := command)))
  {
    if command != "" {
      assert words[2..] == [];
    }
  }

  /** agr open takes a new row's words as that host and name with that directory and command. */
  lemma NewWordsParse(agr: string, host: string, name: string, cwd: string, command: string)
    requires !IsFlag(host) && !IsFlag(name)
    ensures ParseOpen(NewWords(agr, host, name, cwd, command)[2..])
         == Some(Opened([host, name], NoOptions.(cwd := cwd, command := command)))
  {
    var tail := (if cwd != "" then ["--cwd", cwd] else []) + (if command != "" then ["--command", command] else []);
    var args := NewWords(agr, host, name, cwd, command)[2..];
    assert args == [host, name] + tail;
    assert args[0] == host && args[1..] == [name] + tail && args[1..][1..] == tail;
    assert [] + [host] == [host] && [host] + [name] == [host, name];
    var start := Opened([], NoOptions);
    assert ParseFrom(args, {}, start) == ParseFrom([name] + tail, {}, start.(positional := [host]));
    assert ParseFrom([name] + tail, {}, start.(positional := [host])) == ParseFrom(tail, {}, start.(positional := [host, name]));
    TailParsed(tail, host, name, cwd, command);
  }

  /** The pane preBind stores for a new row: the last left surface with an id. */
  function LeftPane(surfaces: seq<Surface>): Option<string> {
    if surfaces == [] then None
    else
      var last := surfaces[|surfaces| - 1];
      if last.kind == "left" && last.paneId != "" then Some(last.paneId) else LeftPane(surfaces[..|surfaces| - 1])
  }

  lemma {:induction false} LeftPaneIsLeft(surfaces: seq<Surface>)
    requires LeftPane(surfaces).Some?
    ensures exists k :: 0 <= k < |surfaces| && surfaces[k].kind == "left" && surfaces[k].paneId == LeftPane(surfaces).value
  {
    var n := |surfaces| - 1;
    if surfaces[n].kind == "left" && surfaces[n].paneId != "" {
      assert surfaces[n].paneId == LeftPane(surfaces).value;
    } else {
      LeftPaneIsLeft(surfaces[..n]);
      var k :| 0 <= k < n && surfaces[..n][k].kind == "left" && surfaces[..n][k].paneId == LeftPane(surfaces).value;
      assert surfaces[k] == surfaces[..n][k];
    }
  }

  /** No surface of another kind goes by the id. */
  ghost predicate OnlyLeft(row: Row, id: string) {
    forall s :: s in row.surfaces && Same(s.paneId, id) ==> s.kind == "left"
  }

  /** A new row is attached from the start. The command line rewriteNew writes, split by a shell
      and running in the new row's left pane, makes the row attached for the binding preBind
      stores, and agr open accepts it with the same host, name, directory and command. */
  lemma NewRowIsAttached(
    agr: string, host: string, name: string, cwd: string, command: string, row: Row, b: BindingStore.Binding)
    requires Tokens.Base(agr) == "agr" && Tokens.ValidHost(host) && Tokens.Valid(name)
    requires LeftPane(row.surfaces) == Some(b.paneId) && OnlyLeft(row, b.paneId) && b.host == host && b.name == name
    requires ShellQuoting.Split(ShellQuoting.Join(NewWords(agr, host, name, cwd, command))) == Some(row.foreground)
    ensures Attached(row, b) && |row.foreground| >= 4
    ensures ParseOpen(row.foreground[2..]) == Some(Opened([host, name], NoOptions.(cwd := cwd, command := command)))
  {
    ShellQuoting.SplitJoin(NewWords(agr, host, name, cwd, command));
    WordsRunOpen(agr, host, name, cwd, command);
    LeftPaneIsLeft(row.surfaces);
    var k :| 0 <= k < |row.surfaces| && row.surfaces[k].kind == "left" && row.surfaces[k].paneId == b.paneId;
    assert SurfaceById(row, b.paneId).Some? && SurfaceById(row, b.paneId).value.kind == "left";
  }

  lemma WordsRunOpen(agr: string, host: string, name: string, cwd: string, command: string)
    requires Tokens.Base(agr) == "agr" && Tokens.ValidHost(host) && Tokens.Valid(name)
    ensures var words := NewWords(agr, host, name, cwd, command);
            && |words| >= 4 && RunsOpen(words, host, name)
            && ParseOpen(words[2..]) == Some(Opened([host, name], NoOptions.(cwd := cwd, command := command)))
  {
    var words := NewWords(agr, host, name, cwd, command);
    assert host[0] != '-' && name[0] != '-';
    NewWordsParse(agr, host, name, cwd, command);
    OpenAgreesWithPolicy(words[2..]);
    assert words[0] == agr && words[1] == "open";
  }
}
