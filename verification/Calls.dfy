/** Matching a call to its leaf, normalising its options, and printing the normalised call. */
module Calls {
  import opened Results
  import opened Sequences
  import opened ArgGrammar
  import opened Allowlist
  import Decimal
  import Tokens

  // ----- the leaf by longest prefix -----

  predicate HasPrefix(argv: seq<string>, path: seq<string>) { path <= argv }

  /** Entry i is the first of the longest paths that argv starts with. */
  ghost predicate Matches(table: seq<Leaf>, argv: seq<string>, i: nat) {
    && i < |table| && HasPrefix(argv, table[i].path)
    && (forall k :: 0 <= k < |table| && HasPrefix(argv, table[k].path) ==> |table[k].path| <= |table[i].path|)
    && (forall k :: 0 <= k < i && HasPrefix(argv, table[k].path) ==> |table[k].path| < |table[i].path|)
  }

  /** An argument list has exactly one leaf, or none if it starts with no path of the table. */
  lemma OneLeafMatches(table: seq<Leaf>, argv: seq<string>, i: nat, j: nat)
    ensures Matches(table, argv, i) && Matches(table, argv, j) ==> i == j
    ensures (exists k: nat :: Matches(table, argv, k)) <==> exists k :: 0 <= k < |table| && table[k].path <= argv
  {
    if k :| 0 <= k < |table| && table[k].path <= argv {
      var best := LongestFirst(table, argv, |table|);
      assert table[..|table|] == table;
    }
  }

  lemma {:induction false} LongestFirst(table: seq<Leaf>, argv: seq<string>, n: nat) returns (best: nat)
    requires n <= |table| && exists k :: 0 <= k < n && HasPrefix(argv, table[k].path)
    ensures best < n && Matches(table[..n], argv, best)
  {
    assert table[..n][..n - 1] == table[..n - 1];
    if exists k :: 0 <= k < n - 1 && HasPrefix(argv, table[k].path) {
      best := LongestFirst(table, argv, n - 1);
      if HasPrefix(argv, table[n - 1].path) && |table[n - 1].path| > |table[best].path| { best := n - 1; }
    } else {
      best := n - 1;
    }
    assert forall k :: 0 <= k < n - 1 ==> table[..n][k] == table[..n - 1][k];
  }

  /** matchLeaf: one pass over the table that keeps the best entry so far. */
  method MatchLeaf(table: seq<Leaf>, argv: seq<string>) returns (best: Option<nat>)
    ensures best.Some? ==> Matches(table, argv, best.value)
    ensures best.None? <==> forall k :: 0 <= k < |table| ==> !HasPrefix(argv, table[k].path)
  {
    best := None;
    for i := 0 to |table|
      invariant best.None? ==> forall k :: 0 <= k < i ==> !HasPrefix(argv, table[k].path)
      invariant best.Some? ==> best.value < i && Matches(table[..i], argv, best.value)
    {
      if HasPrefix(argv, table[i].path) && (best.None? || |table[i].path| > |table[best.value].path|) {
        best := Some(i);
      }
    }
    assert table[..|table|] == table;
  }

  // ----- normalising the options -----

  /** One option that passes the schema. */
  datatype Opt = Opt(name: string, value: string, flag: bool, role: Role)

  datatype FileRef = FileRef(opt: string, index: nat)

  /** A call after the schema-level rules: the row and pane options by role, the rest in order. */
  datatype Normal = Normal(
    rows: seq<string>, paneId: string, side: string, stdin: bool, opts: seq<Opt>, files: seq<FileRef>,
    command: seq<string>, commandOpt: string, pos: seq<string>, block: bool)

  const Blank := Normal([], "", "", false, [], [], [], "", [], false)

  datatype NormError =
    | TooFew | TooMany | PosNotAllowed | BadOverlay | EmptyValue(name: string) | BadFile(name: string)
    | EmptyCommand | RowGivenTwice

  /** A body file reference @<i>, in canonical decimal, of a file the request sent. */
  function FileIndex(value: string, count: nat): Option<nat> {
    if value == "" || value[0] != '@' then None
    else
      var index := Decimal.Atoi(value[1..]);
      if index.Some? && index.value < count then index else None
  }

  function FoldOpt(leaf: Leaf, files: nat, n: Normal, opt: ParsedOpt): Result<Normal, NormError> {
    var name := opt.spec.name;
    var n1 := if name == "block" && leaf.overlay then n.(block := true) else n;
    if opt.value == "" && (opt.spec.role == Row || opt.spec.role == Pane || opt.spec.role == Side)
    then Err(EmptyValue(name))
    else
      match opt.spec.role
      case Row => Ok(n1.(rows := n.rows + [opt.value]))
      case Pane => Ok(n1.(paneId := opt.value))
      case Side => Ok(n1.(side := opt.value))
      case File =>
        var index := FileIndex(opt.value, files);
        if index.None? then Err(BadFile(name))
        else Ok(n1.(files := n.files + [FileRef(name, index.value)],
                    opts := n.opts + [Opt(name, opt.value, false, File)]))
      case Command =>
        if Tokens.OnlySpace(opt.value) then Err(EmptyValue(name))
        else Ok(n1.(command := [opt.value], commandOpt := name,
                    opts := n.opts + [Opt(name, opt.value, false, Command)]))
      case Plain =>
        Ok(n1.(stdin := n.stdin || name == "stdin",
               opts := n.opts + [Opt(name, opt.value, !opt.spec.value, Plain)]))
  }

  function FoldOpts(leaf: Leaf, files: nat, n: Normal, opts: seq<ParsedOpt>): Result<Normal, NormError>
    decreases opts
  {
    if opts == [] then Ok(n)
    else
      match FoldOpt(leaf, files, n, opts[0])
      case Err(e) => Err(e)
      case Ok(n1) => FoldOpts(leaf, files, n1, opts[1..])
  }

  predicate RepeatsRows(leaf: Leaf) { TARGETS in leaf.opts && TARGET !in leaf.opts }

  predicate HasOption(opts: seq<ParsedOpt>, name: string) {
    exists k :: 0 <= k < |opts| && opts[k].spec.name == name
  }

  /** An overlay has exactly one source, and a URL is http(s) without JavaScript. */
  predicate OverlayOk(urlOk: string -> bool, opts: seq<ParsedOpt>, pos: seq<string>) {
    && (if HasOption(opts, "html") then 1 else 0) + (if HasOption(opts, "url") then 1 else 0)
       + (if pos != [] then 1 else 0) == 1
    && forall k :: 0 <= k < |opts| && opts[k].spec.name == "url" && opts[k].value != "" ==>
         urlOk(opts[k].value) && !HasOption(opts, "js")
  }

  /** The schema-level refusal of a call, if any. */
  function Refusal(urlOk: string -> bool, leaf: Leaf, opts: seq<ParsedOpt>, pos: seq<string>): Option<NormError> {
    if |pos| < leaf.minPos then Some(TooFew)
    else if leaf.maxPos >= 0 && |pos| > leaf.maxPos then Some(TooMany)
    else if leaf.posAllowed != [] && pos != [] && pos[0] !in leaf.posAllowed then Some(PosNotAllowed)
    else if leaf.overlay && !OverlayOk(urlOk, opts, pos) then Some(BadOverlay)
    else None
  }

  /** What is checked and added once the options are folded. */
  function Finish(leaf: Leaf, n: Normal, pos: seq<string>): Result<Normal, NormError> {
    if |n.rows| > 1 && !RepeatsRows(leaf) then Err(RowGivenTwice)
    else if leaf.posCommand && pos != [] then
      if exists w :: w in pos && Tokens.OnlySpace(w) then Err(EmptyCommand) else Ok(n.(pos := pos, command := pos))
    else Ok(n.(pos := pos))
  }

  function Normalise(urlOk: string -> bool, leaf: Leaf, files: nat, p: Parsed): Result<Normal, NormError> {
    var refused := Refusal(urlOk, leaf, p.opts, p.pos);
    if refused.Some? then Err(refused.value)
    else
      match FoldOpts(leaf, files, Blank, p.opts)
      case Err(e) => Err(e)
      case Ok(n) => Finish(leaf, n, p.pos)
  }

  /** normalise: a loop over the parsed options that fills the call's fields. It computes Normalise. */
  method NormaliseCall(urlOk: string -> bool, leaf: Leaf, files: nat, p: Parsed)
    returns (r: Result<Normal, NormError>)
    ensures r == Normalise(urlOk, leaf, files, p)
  {
    if |p.pos| < leaf.minPos {
      return Err(TooFew);
    }
    if leaf.maxPos >= 0 && |p.pos| > leaf.maxPos {
      return Err(TooMany);
    }
    if leaf.posAllowed != [] && p.pos != [] && p.pos[0] !in leaf.posAllowed {
      return Err(PosNotAllowed);
    }
    if leaf.overlay && !OverlayOk(urlOk, p.opts, p.pos) {
      return Err(BadOverlay);
    }
    var n := Blank;
    for i := 0 to |p.opts|
      invariant FoldOpts(leaf, files, n, p.opts[i..]) == FoldOpts(leaf, files, Blank, p.opts)
    {
      assert p.opts[i..][1..] == p.opts[i + 1..];
      var next := FoldOpt(leaf, files, n, p.opts[i]);
      if next.Err? {
        return Err(next.error);
      }
      n := next.value;
    }
    if |n.rows| > 1 && !RepeatsRows(leaf) {
      return Err(RowGivenTwice);
    }
    n := n.(pos := p.pos);
    if leaf.posCommand && p.pos != [] {
      if exists w :: w in p.pos && Tokens.OnlySpace(w) {
        return Err(EmptyCommand);
      }
      n := n.(command := p.pos);
    }
    return Ok(n);
  }

  // ----- what normalising means -----

  /** A file reference is @ and the canonical decimal number of a file the request sent. */
  lemma FileIndexIs(value: string, count: nat, index: nat)
    ensures FileIndex(value, count) == Some(index) <==> value == "@" + Decimal.Itoa(index) && index < count
  {
    if value != "" {
      Decimal.AtoiItoa(index, value[1..]);
      assert value == [value[0]] + value[1..];
    }
    assert ("@" + Decimal.Itoa(index))[1..] == Decimal.Itoa(index);
  }

  /** A leaf takes several rows exactly if its row option may be given several times. */
  lemma RowsRepeatIs(leaf: Leaf)
    requires LeafOk(leaf)
    ensures RepeatsRows(leaf) <==> exists spec :: spec in leaf.opts && spec.role == Row && spec.repeats
  {
    forall spec | spec in leaf.opts && spec.role == Row ensures spec == TARGET || spec == TARGETS {
      assert SpecOk(spec);
    }
  }

  /** An option normalising has nothing against: a row or pane that is named, a file that was sent,
      a command that is not blank. */
  predicate OptFine(files: nat, opt: ParsedOpt) {
    match opt.spec.role
    case Row => opt.value != ""
    case Pane => opt.value != ""
    case Side => opt.value != ""
    case File => FileIndex(opt.value, files).Some?
    case Command => !Tokens.OnlySpace(opt.value)
    case Plain => true
  }

  /** What one option gives: its value for a role, itself as kept, the file it names. */
  function ValueFor(o: ParsedOpt, role: Role): seq<string> { if o.spec.role == role then [o.value] else [] }

  function NameFor(o: ParsedOpt, role: Role): seq<string> { if o.spec.role == role then [o.spec.name] else [] }

  function KeptOpt(o: ParsedOpt): seq<Opt> {
    if o.spec.role == Row || o.spec.role == Pane || o.spec.role == Side then []
    else [Opt(o.spec.name, o.value, o.spec.role == Plain && !o.spec.value, o.spec.role)]
  }

  function FileOf(o: ParsedOpt, files: nat): seq<FileRef> {
    var index := FileIndex(o.value, files);
    if o.spec.role == File && index.Some? then [FileRef(o.spec.name, index.value)] else []
  }

  /** The same of all options, in order. */
  function ValuesOf(opts: seq<ParsedOpt>, role: Role): seq<string> {
    if opts == [] then [] else ValueFor(opts[0], role) + ValuesOf(opts[1..], role)
  }

  function NamesOf(opts: seq<ParsedOpt>, role: Role): seq<string> {
    if opts == [] then [] else NameFor(opts[0], role) + NamesOf(opts[1..], role)
  }

  function KeptOpts(opts: seq<ParsedOpt>): seq<Opt> {
    if opts == [] then [] else KeptOpt(opts[0]) + KeptOpts(opts[1..])
  }

  function FilesOf(opts: seq<ParsedOpt>, files: nat): seq<FileRef> {
    if opts == [] then [] else FileOf(opts[0], files) + FilesOf(opts[1..], files)
  }

  /** The last value given, or what there was before. */
  function LastOf(before: string, values: seq<string>): string {
    if values == [] then before else values[|values| - 1]
  }

  predicate HasPlain(opts: seq<ParsedOpt>, name: string) {
    exists k :: 0 <= k < |opts| && opts[k].spec.role == Plain && opts[k].spec.name == name
  }

  /** What n becomes with the options added. */
  ghost predicate Adds(leaf: Leaf, files: nat, n: Normal, opts: seq<ParsedOpt>, r: Normal) {
    && r.rows == n.rows + ValuesOf(opts, Row)
    && r.paneId == LastOf(n.paneId, ValuesOf(opts, Pane)) && r.side == LastOf(n.side, ValuesOf(opts, Side))
    && r.opts == n.opts + KeptOpts(opts) && r.files == n.files + FilesOf(opts, files)
    && r.stdin == (n.stdin || HasPlain(opts, "stdin"))
    && r.block == (n.block || (leaf.overlay && HasOption(opts, "block")))
    && r.command == (if ValuesOf(opts, Command) == [] then n.command else [LastOf("", ValuesOf(opts, Command))])
    && r.commandOpt == LastOf(n.commandOpt, NamesOf(opts, Command))
  }

  lemma {:induction false} AddsNothing(leaf: Leaf, files: nat, n: Normal)
    ensures Adds(leaf, files, n, [], n)
  {
    CatNil(n.rows);
    CatNil(n.opts);
    CatNil(n.files);
  }

  lemma HasHead(opts: seq<ParsedOpt>, name: string)
    requires opts != []
    ensures HasOption(opts, name) <==> opts[0].spec.name == name || HasOption(opts[1..], name)
    ensures HasPlain(opts, name) <==> (opts[0].spec.role == Plain && opts[0].spec.name == name) || HasPlain(opts[1..], name)
  {
    if HasOption(opts[1..], name) {
      var k :| 0 <= k < |opts[1..]| && opts[1..][k].spec.name == name;
      assert opts[k + 1].spec.name == name;
    }
    if HasPlain(opts[1..], name) {
      var k :| 0 <= k < |opts[1..]| && opts[1..][k].spec.role == Plain && opts[1..][k].spec.name == name;
      assert opts[k + 1].spec.role == Plain && opts[k + 1].spec.name == name;
    }
    if HasOption(opts, name) && opts[0].spec.name != name {
      var k :| 0 <= k < |opts| && opts[k].spec.name == name;
      assert opts[1..][k - 1].spec.name == name;
    }
    if HasPlain(opts, name) && !(opts[0].spec.role == Plain && opts[0].spec.name == name) {
      var k :| 0 <= k < |opts| && opts[k].spec.role == Plain && opts[k].spec.name == name;
      assert opts[1..][k - 1].spec.role == Plain && opts[1..][k - 1].spec.name == name;
    }
  }

  lemma LastOfCat(before: string, a: seq<string>, b: seq<string>)
    ensures LastOf(before, a + b) == LastOf(LastOf(before, a), b)
  {
    if b == [] { CatNil(a); }
  }

  /** One option, folded. */
  lemma FoldGives(leaf: Leaf, files: nat, n: Normal, o: ParsedOpt)
    requires FoldOpt(leaf, files, n, o).Ok?
    ensures var m := FoldOpt(leaf, files, n, o).value;
            && m.rows == n.rows + ValueFor(o, Row)
            && m.paneId == LastOf(n.paneId, ValueFor(o, Pane)) && m.side == LastOf(n.side, ValueFor(o, Side))
            && m.opts == n.opts + KeptOpt(o) && m.files == n.files + FileOf(o, files)
            && m.stdin == (n.stdin || (o.spec.role == Plain && o.spec.name == "stdin"))
            && m.block == (n.block || (leaf.overlay && o.spec.name == "block"))
            && m.command == (if ValueFor(o, Command) == [] then n.command else [LastOf("", ValueFor(o, Command))])
            && m.commandOpt == LastOf(n.commandOpt, NameFor(o, Command))
  {
    hide FileIndex, Tokens.OnlySpace;
    CatNil(n.rows);
    CatNil(n.opts);
    CatNil(n.files);
  }

  /** One option more, from what it gives and what the rest adds. */
  lemma AddsOne(leaf: Leaf, files: nat, n: Normal, opts: seq<ParsedOpt>, r: Normal)
    requires opts != [] && FoldOpt(leaf, files, n, opts[0]).Ok?
    requires Adds(leaf, files, FoldOpt(leaf, files, n, opts[0]).value, opts[1..], r)
    ensures Adds(leaf, files, n, opts, r)
  {
    hide FoldOpt, FileOf, ValueFor, NameFor, KeptOpt, LastOf, HasOption, HasPlain;
    var o := opts[0];
    FoldGives(leaf, files, n, o);
    HasHead(opts, "stdin");
    HasHead(opts, "block");
    LastOfCat(n.paneId, ValueFor(o, Pane), ValuesOf(opts[1..], Pane));
    LastOfCat(n.side, ValueFor(o, Side), ValuesOf(opts[1..], Side));
    LastOfCat(n.commandOpt, NameFor(o, Command), NamesOf(opts[1..], Command));
    CommandCat(n.command, ValueFor(o, Command), ValuesOf(opts[1..], Command));
    CatThree(n.rows, ValueFor(o, Row), ValuesOf(opts[1..], Row));
    CatThree(n.opts, KeptOpt(o), KeptOpts(opts[1..]));
    CatThree(n.files, FileOf(o, files), FilesOf(opts[1..], files));
  }

  lemma CommandCat(before: seq<string>, a: seq<string>, b: seq<string>)
    ensures var mid := if a == [] then before else [LastOf("", a)];
            (if b == [] then mid else [LastOf("", b)]) == if a + b == [] then before else [LastOf("", a + b)]
  {
    CatNil(a);
  }

  lemma {:induction false} FoldMeans(leaf: Leaf, files: nat, n: Normal, opts: seq<ParsedOpt>)
    ensures FoldOpts(leaf, files, n, opts).Ok? <==> forall k :: 0 <= k < |opts| ==> OptFine(files, opts[k])
    ensures FoldOpts(leaf, files, n, opts).Ok? ==> Adds(leaf, files, n, opts, FoldOpts(leaf, files, n, opts).value)
    decreases |opts|
  {
    hide FoldOpt, Adds, OptFine;
    if opts == [] {
      AddsNothing(leaf, files, n);
    } else {
      FineFolds(leaf, files, n, opts[0]);
      if FoldOpt(leaf, files, n, opts[0]).Ok? {
        var m := FoldOpt(leaf, files, n, opts[0]).value;
        FoldMeans(leaf, files, m, opts[1..]);
        FineHead(files, opts);
        if FoldOpts(leaf, files, m, opts[1..]).Ok? {
          AddsOne(leaf, files, n, opts, FoldOpts(leaf, files, m, opts[1..]).value);
        }
      }
    }
  }

  lemma FineFolds(leaf: Leaf, files: nat, n: Normal, opt: ParsedOpt)
    ensures FoldOpt(leaf, files, n, opt).Ok? <==> OptFine(files, opt)
  {}

  lemma FineHead(files: nat, opts: seq<ParsedOpt>)
    requires opts != []
    ensures (forall k :: 0 <= k < |opts| ==> OptFine(files, opts[k]))
       <==> OptFine(files, opts[0]) && forall k :: 0 <= k < |opts[1..]| ==> OptFine(files, opts[1..][k])
  {
    hide OptFine;
    if forall k :: 0 <= k < |opts[1..]| ==> OptFine(files, opts[1..][k]) {
      forall k | 1 <= k < |opts| ensures OptFine(files, opts[k]) { assert opts[k] == opts[1..][k - 1]; }
    }
  }

  /** Normalising, without its loop: a call passes exactly when its positionals fit in number and
      value, an overlay has one proper source, every option is fine, a row is named once unless the
      leaf takes several, and no word of a command is blank. Then its rows, pane, side, files and
      other options are those given, in order, and nothing else. */
  lemma NormaliseMeans(urlOk: string -> bool, leaf: Leaf, files: nat, p: Parsed)
    ensures Normalise(urlOk, leaf, files, p).Ok? <==>
              && leaf.minPos <= |p.pos| && (leaf.maxPos >= 0 ==> |p.pos| <= leaf.maxPos)
              && (leaf.posAllowed != [] && p.pos != [] ==> p.pos[0] in leaf.posAllowed)
              && (leaf.overlay ==> OverlayOk(urlOk, p.opts, p.pos))
              && (forall k :: 0 <= k < |p.opts| ==> OptFine(files, p.opts[k]))
              && (|ValuesOf(p.opts, Row)| > 1 ==> RepeatsRows(leaf))
              && (leaf.posCommand ==> forall w :: w in p.pos ==> !Tokens.OnlySpace(w))
    ensures Normalise(urlOk, leaf, files, p).Ok? ==>
              var n := Normalise(urlOk, leaf, files, p).value;
              && n.rows == ValuesOf(p.opts, Row) && n.pos == p.pos
              && n.paneId == LastOf("", ValuesOf(p.opts, Pane)) && n.side == LastOf("", ValuesOf(p.opts, Side))
              && n.opts == KeptOpts(p.opts) && n.files == FilesOf(p.opts, files)
              && n.stdin == HasPlain(p.opts, "stdin") && n.block == (leaf.overlay && HasOption(p.opts, "block"))
              && n.command == if leaf.posCommand && p.pos != [] then p.pos
                              else if ValuesOf(p.opts, Command) == [] then [] else [LastOf("", ValuesOf(p.opts, Command))]
    ensures Normalise(urlOk, leaf, files, p).Ok? ==>
              Normalise(urlOk, leaf, files, p).value.commandOpt == LastOf("", NamesOf(p.opts, Command))
  {
    hide OptFine, OverlayOk, FoldOpts, ValuesOf, NamesOf, KeptOpts, FilesOf, HasPlain, HasOption, RepeatsRows;
    FoldMeans(leaf, files, Blank, p.opts);
    CatNil(ValuesOf(p.opts, Row));
    CatNil(KeptOpts(p.opts));
    CatNil(FilesOf(p.opts, files));
  }

  predicate Given(opts: seq<ParsedOpt>, name: string, value: string) {
    exists k :: 0 <= k < |opts| && opts[k].spec.name == name && opts[k].value == value
  }

  lemma GivenIs(opts: seq<ParsedOpt>, name: string)
    ensures HasOption(opts, name) <==> exists v :: Given(opts, name, v)
  {
    if HasOption(opts, name) {
      var k :| 0 <= k < |opts| && opts[k].spec.name == name;
      assert Given(opts, name, opts[k].value);
    }
  }

  /** A call may open an overlay exactly when one of a page, a URL and a command is given and no other,
      and a URL that is given and not empty passes the check and comes without JavaScript. */
  lemma OverlaySources(urlOk: string -> bool, opts: seq<ParsedOpt>, pos: seq<string>)
    ensures OverlayOk(urlOk, opts, pos) <==>
              var html, url, js := exists v :: Given(opts, "html", v), exists v :: Given(opts, "url", v), exists v :: Given(opts, "js", v);
              && (html || url || pos != []) && !(html && url) && !(html && pos != []) && !(url && pos != [])
              && forall v :: v != "" && Given(opts, "url", v) ==> urlOk(v) && !js
  {
    hide HasOption;
    GivenIs(opts, "html");
    GivenIs(opts, "url");
    GivenIs(opts, "js");
    forall k | 0 <= k < |opts| && opts[k].spec.name == "url" ensures Given(opts, "url", opts[k].value) {}
  }

  // ----- printing a normalised call -----

  /** One resolved row with the pane the call acts on. */
  datatype Target = Target(row: string, paneId: string, side: string, wholeRow: bool)

  datatype PaneBy = NoPane | ById | BySide

  function RenderTarget(t: Target, how: PaneBy): seq<string> {
    ["--target=" + t.row]
    + (if how == ById && t.paneId != "" then ["--pane-id=" + t.paneId]
       else if how == BySide && t.side != "" then ["--pane=" + t.side] else [])
  }

  function RenderTargets(targets: seq<Target>, how: PaneBy): seq<string> {
    if targets == [] then [] else RenderTarget(targets[0], how) + RenderTargets(targets[1..], how)
  }

  function RenderOpt(opt: Opt): string { if opt.flag then "--" + opt.name else "--" + opt.name + "=" + opt.value }

  function RenderOpts(opts: seq<Opt>): seq<string> {
    if opts == [] then [] else [RenderOpt(opts[0])] + RenderOpts(opts[1..])
  }

  /** The argument list for the real agtermctl. */
  function Render(path: seq<string>, targets: seq<Target>, how: PaneBy, opts: seq<Opt>, pos: seq<string>): seq<string> {
    path + (RenderTargets(targets, how) + RenderOpts(opts) + PrintPos(pos))
  }

  // ----- reading the printed call back -----

  ghost predicate TableOk(table: seq<Leaf>) { forall k :: 0 <= k < |table| ==> LeafOk(table[k]) }

  function TargetSpec(leaf: Leaf): OptSpec { if TARGET in leaf.opts then TARGET else TARGETS }

  /** The resolved targets are what the leaf's scope and options can carry. */
  ghost predicate TargetsFit(leaf: Leaf, targets: seq<Target>, how: PaneBy) {
    && (leaf.scope == NoScope <==> targets == [])
    && (|targets| > 1 ==> RepeatsRows(leaf) && how == NoPane)
    && (forall k :: 0 <= k < |targets| ==> targets[k].row != "" && NUL !in targets[k].row)
    && (forall k :: 0 <= k < |targets| ==> NUL !in targets[k].paneId && targets[k].side in ["", "left", "right"])
    && (how == ById ==> PANE_ID in leaf.opts) && (how == BySide ==> PANE in leaf.opts)
  }

  /** The options the printer writes for one target. */
  function TargetOpts(leaf: Leaf, t: Target, how: PaneBy): seq<ParsedOpt> {
    [ParsedOpt(TargetSpec(leaf), t.row)]
    + (if how == ById && t.paneId != "" then [ParsedOpt(PANE_ID, t.paneId)]
       else if how == BySide && t.side != "" then [ParsedOpt(PANE, t.side)] else [])
  }

  function AllTargetOpts(leaf: Leaf, targets: seq<Target>, how: PaneBy): seq<ParsedOpt> {
    if targets == [] then [] else TargetOpts(leaf, targets[0], how) + AllTargetOpts(leaf, targets[1..], how)
  }

  predicate IsPlace(opt: ParsedOpt) { opt.spec.role == Row || opt.spec.role == Pane || opt.spec.role == Side }

  ghost predicate Fits(leaf: Leaf, opts: seq<ParsedOpt>) {
    forall k :: 0 <= k < |opts| ==> OptOk(leaf.opts, opts[k])
  }

  predicate Places(opts: seq<ParsedOpt>) { forall k :: 0 <= k < |opts| ==> IsPlace(opts[k]) }

  predicate NoPlaces(opts: seq<ParsedOpt>) { forall k :: 0 <= k < |opts| ==> !IsPlace(opts[k]) }

  /** The options that are neither a row nor a pane. */
  function Others(opts: seq<ParsedOpt>): seq<ParsedOpt> {
    if opts == [] then []
    else (if IsPlace(opts[0]) then [] else [opts[0]]) + Others(opts[1..])
  }

  function Rows(targets: seq<Target>): seq<string> {
    if targets == [] then [] else [targets[0].row] + Rows(targets[1..])
  }

  /** The fields a call has once its places are the resolved targets. */
  function Resolved(n: Normal, targets: seq<Target>, how: PaneBy): Normal {
    n.(rows := Rows(targets),
       paneId := if targets != [] && how == ById then targets[0].paneId else "",
       side := if targets != [] && how == BySide then targets[0].side else "")
  }

  lemma SpecOfLeaf(leaf: Leaf, name: string)
    requires LeafOk(leaf) && Lookup(leaf.opts, name).Some?
    ensures var spec := Lookup(leaf.opts, name).value; SpecOk(spec) && spec.name == name
  {
    var own := Find(leaf.opts, name);
    if own.Some? {
      assert own.value in leaf.opts;
    } else {
      var u := Find(UNIVERSAL, name).value;
      assert u in UNIVERSAL;
      assert u == UNIVERSAL[0] || u == UNIVERSAL[1] || u == UNIVERSAL[2];
      assert u.role == Plain;
      UniversalOk(u);
    }
  }

  lemma UniversalOk(u: OptSpec)
    requires u == UNIVERSAL[0] || u == UNIVERSAL[1] || u == UNIVERSAL[2]
    ensures SpecOk(u)
  {}

  lemma PrintOptsCat(a: seq<ParsedOpt>, b: seq<ParsedOpt>)
    ensures PrintOpts(a + b) == PrintOpts(a) + PrintOpts(b)
  {
    if a == [] {
      assert a + b == b;
    } else {
      assert (a + b)[1..] == a[1..] + b;
      PrintOptsCat(a[1..], b);
    }
  }

  lemma TargetIsPrinted(leaf: Leaf, t: Target, how: PaneBy)
    ensures PrintOpts(TargetOpts(leaf, t, how)) == RenderTarget(t, how)
  {
    var opts := TargetOpts(leaf, t, how);
    assert PrintOpt(opts[0]) == "--target=" + t.row;
    assert PrintOpt(ParsedOpt(PANE_ID, t.paneId)) == "--pane-id=" + t.paneId;
    assert PrintOpt(ParsedOpt(PANE, t.side)) == "--pane=" + t.side;
    if |opts| == 2 {
      assert opts[1..][1..] == [];
      assert PrintOpts(opts[1..]) == [PrintOpt(opts[1])];
    } else {
      assert opts[1..] == [];
    }
  }

  lemma {:induction false} TargetsArePrinted(leaf: Leaf, targets: seq<Target>, how: PaneBy)
    ensures PrintOpts(AllTargetOpts(leaf, targets, how)) == RenderTargets(targets, how)
  {
    if targets != [] {
      TargetIsPrinted(leaf, targets[0], how);
      TargetsArePrinted(leaf, targets[1..], how);
      PrintOptsCat(TargetOpts(leaf, targets[0], how), AllTargetOpts(leaf, targets[1..], how));
    }
  }

  /** What one option adds to the printed form: itself, unless it names a place. */
  lemma OptionIsPrinted(leaf: Leaf, files: nat, n: Normal, opt: ParsedOpt)
    requires LeafOk(leaf) && OptOk(leaf.opts, opt) && FoldOpt(leaf, files, n, opt).Ok?
    ensures RenderOpts(FoldOpt(leaf, files, n, opt).value.opts)
         == RenderOpts(n.opts) + (if IsPlace(opt) then [] else [PrintOpt(opt)])
  {
    SpecOfLeaf(leaf, opt.spec.name);
    if !IsPlace(opt) {
      var o := Opt(opt.spec.name, opt.value, !opt.spec.value, opt.spec.role);
      RenderOptsSnoc(n.opts, o);
      assert RenderOpt(o) == PrintOpt(opt);
    } else {
      assert RenderOpts(n.opts) + [] == RenderOpts(n.opts);
    }
  }

  lemma OthersHead(opts: seq<ParsedOpt>)
    requires opts != []
    ensures PrintOpts(Others(opts)) == (if IsPlace(opts[0]) then [] else [PrintOpt(opts[0])]) + PrintOpts(Others(opts[1..]))
  {
    if IsPlace(opts[0]) {
      CatNil(PrintOpts(Others(opts[1..])));
      CatNil(Others(opts[1..]));
    } else {
      PrintOptsCons(opts[0], Others(opts[1..]));
    }
  }

  lemma PrintOptsCons(opt: ParsedOpt, opts: seq<ParsedOpt>)
    ensures PrintOpts([opt] + opts) == [PrintOpt(opt)] + PrintOpts(opts)
  {
    assert ([opt] + opts)[1..] == opts;
  }

  /** Every option but the places is printed as it was parsed. */
  lemma {:induction false} OthersArePrinted(leaf: Leaf, files: nat, n: Normal, opts: seq<ParsedOpt>)
    requires LeafOk(leaf) && Fits(leaf, opts)
    requires FoldOpts(leaf, files, n, opts).Ok?
    ensures RenderOpts(FoldOpts(leaf, files, n, opts).value.opts) == RenderOpts(n.opts) + PrintOpts(Others(opts))
    decreases |opts|
  {
    if opts == [] {
      assert RenderOpts(n.opts) + [] == RenderOpts(n.opts);
    } else {
      OptionIsPrinted(leaf, files, n, opts[0]);
      OthersArePrinted(leaf, files, FoldOpt(leaf, files, n, opts[0]).value, opts[1..]);
      OthersHead(opts);
      CatThree(RenderOpts(n.opts), if IsPlace(opts[0]) then [] else [PrintOpt(opts[0])], PrintOpts(Others(opts[1..])));
    }
  }

  lemma RenderOptsSnoc(opts: seq<Opt>, o: Opt)
    ensures RenderOpts(opts + [o]) == RenderOpts(opts) + [RenderOpt(o)]
  {
    if opts == [] {
      assert (opts + [o])[1..] == [];
    } else {
      assert (opts + [o])[1..] == opts[1..] + [o];
      RenderOptsSnoc(opts[1..], o);
    }
  }

  // ----- the printed options fit the schema -----

  lemma {:induction false} OthersAre(opts: seq<ParsedOpt>, opt: ParsedOpt)
    ensures opt in Others(opts) <==> opt in opts && !IsPlace(opt)
  {
    if opts != [] { OthersAre(opts[1..], opt); }
  }

  lemma {:induction false} OthersFit(leaf: Leaf, opts: seq<ParsedOpt>)
    requires RepeatsOk(opts) && Fits(leaf, opts)
    ensures RepeatsOk(Others(opts)) && Fits(leaf, Others(opts)) && NoPlaces(Others(opts))
  {
    if opts != [] {
      OthersFit(leaf, opts[1..]);
      forall k | 0 <= k < |Others(opts[1..])|
        ensures opts[0].spec.name == Others(opts[1..])[k].spec.name ==> Others(opts[1..])[k].spec.repeats
      {
        OthersAre(opts[1..], Others(opts[1..])[k]);
      }
    }
  }

  lemma PlacesKnown(leaf: Leaf)
    requires LeafOk(leaf)
    ensures leaf.scope != NoScope ==> Lookup(leaf.opts, "target").Some? && Lookup(leaf.opts, "target").value.role == Row
    ensures PANE_ID in leaf.opts ==> Lookup(leaf.opts, "pane-id") == Some(PANE_ID)
    ensures PANE in leaf.opts ==> Lookup(leaf.opts, "pane") == Some(PANE)
  {
    if leaf.scope != NoScope {
      assert TARGET.name == "target" && TARGETS.name == "target";
      SpecOfLeaf(leaf, "target");
    }
    if PANE_ID in leaf.opts { SpecOfLeaf(leaf, "pane-id"); }
    if PANE in leaf.opts { SpecOfLeaf(leaf, "pane"); }
  }

  lemma TargetSpecKnown(leaf: Leaf)
    requires LeafOk(leaf) && leaf.scope != NoScope
    ensures Lookup(leaf.opts, "target") == Some(TargetSpec(leaf))
  {
    PlacesKnown(leaf);
    var spec := Lookup(leaf.opts, "target").value;
    assert Find(UNIVERSAL, "target").None?;
    assert spec in leaf.opts;
    SpecOfLeaf(leaf, "target");
    assert spec == if spec.repeats then TARGETS else TARGET;
  }

  lemma TargetOptsFit(leaf: Leaf, targets: seq<Target>, how: PaneBy, k: nat)
    requires LeafOk(leaf) && TargetsFit(leaf, targets, how) && k < |targets|
    ensures OptOk(leaf.opts, ParsedOpt(TargetSpec(leaf), targets[k].row))
    ensures how == ById ==> OptOk(leaf.opts, ParsedOpt(PANE_ID, targets[k].paneId))
    ensures how == BySide && targets[k].side != "" ==> OptOk(leaf.opts, ParsedOpt(PANE, targets[k].side))
  {
    PlacesKnown(leaf);
    TargetSpecKnown(leaf);
    assert !IsStripped("target") && !IsStripped("pane-id") && !IsStripped("pane");
    assert NUL !in "left" && NUL !in "right";
  }

  /** Several targets are all printed with the repeatable row option. */
  lemma {:induction false} RowsFit(leaf: Leaf, all: seq<Target>, from: nat)
    requires LeafOk(leaf) && TargetsFit(leaf, all, NoPane) && from <= |all|
    ensures var opts := AllTargetOpts(leaf, all[from..], NoPane);
            Fits(leaf, opts) && forall k :: 0 <= k < |opts| ==> opts[k].spec == TargetSpec(leaf)
    decreases |all| - from
  {
    if from < |all| {
      TargetOptsFit(leaf, all, NoPane, from);
      RowsFit(leaf, all, from + 1);
      RowsHead(leaf, all, from);
    }
  }

  lemma RowsHead(leaf: Leaf, all: seq<Target>, from: nat)
    requires from < |all|
    ensures AllTargetOpts(leaf, all[from..], NoPane)
         == [ParsedOpt(TargetSpec(leaf), all[from].row)] + AllTargetOpts(leaf, all[from + 1..], NoPane)
  {
    assert all[from..][1..] == all[from + 1..];
    CatNil([ParsedOpt(TargetSpec(leaf), all[from].row)]);
  }

  lemma OnePlaceFits(leaf: Leaf, targets: seq<Target>, how: PaneBy)
    requires LeafOk(leaf) && TargetsFit(leaf, targets, how) && |targets| == 1
    ensures var opts := TargetOpts(leaf, targets[0], how); RepeatsOk(opts) && Fits(leaf, opts) && Places(opts)
  {
    hide LeafOk, OptOk;
    TargetOptsFit(leaf, targets, how, 0);
  }

  lemma PlacesFit(leaf: Leaf, targets: seq<Target>, how: PaneBy)
    requires LeafOk(leaf) && TargetsFit(leaf, targets, how)
    ensures var opts := AllTargetOpts(leaf, targets, how);
            RepeatsOk(opts) && Fits(leaf, opts) && Places(opts)
  {
    if |targets| > 1 {
      RowsFit(leaf, targets, 0);
      assert targets[0..] == targets;
    } else if |targets| == 1 {
      OnePlaceFits(leaf, targets, how);
      assert AllTargetOpts(leaf, targets[1..], how) == [];
      CatNil(TargetOpts(leaf, targets[0], how));
    }
  }

  /** The printed targets and the other options together fit the schema: no name is shared. */
  lemma AllFit(leaf: Leaf, places: seq<ParsedOpt>, others: seq<ParsedOpt>)
    requires RepeatsOk(places) && Fits(leaf, places) && Places(places)
    requires RepeatsOk(others) && Fits(leaf, others) && NoPlaces(others)
    ensures var fit := places + others; RepeatsOk(fit) && Fits(leaf, fit)
  {}

  // ----- normalising the printed options -----

  lemma {:induction false} FoldCat(leaf: Leaf, files: nat, n: Normal, a: seq<ParsedOpt>, b: seq<ParsedOpt>)
    requires FoldOpts(leaf, files, n, a).Ok?
    ensures FoldOpts(leaf, files, n, a + b) == FoldOpts(leaf, files, FoldOpts(leaf, files, n, a).value, b)
    decreases |a|
  {
    if a == [] {
      assert a + b == b;
    } else {
      assert (a + b)[1..] == a[1..] + b;
      FoldCat(leaf, files, FoldOpt(leaf, files, n, a[0]).value, a[1..], b);
    }
  }

  lemma FoldOne(leaf: Leaf, files: nat, n: Normal, opt: ParsedOpt)
    ensures FoldOpts(leaf, files, n, [opt]) == FoldOpt(leaf, files, n, opt)
  {
    assert [opt][1..] == [];
  }

  lemma {:induction false} FoldRows(leaf: Leaf, files: nat, n: Normal, targets: seq<Target>)
    requires forall k :: 0 <= k < |targets| ==> targets[k].row != ""
    ensures FoldOpts(leaf, files, n, AllTargetOpts(leaf, targets, NoPane)) == Ok(n.(rows := n.rows + Rows(targets)))
    decreases |targets|
  {
    if targets == [] {
      CatNil(n.rows);
    } else {
      var opt := ParsedOpt(TargetSpec(leaf), targets[0].row);
      var tail := AllTargetOpts(leaf, targets[1..], NoPane);
      assert AllTargetOpts(leaf, targets, NoPane) == [opt] + tail;
      assert ([opt] + tail)[1..] == tail;
      var n1 := n.(rows := n.rows + [targets[0].row]);
      assert FoldOpt(leaf, files, n, opt) == Ok(n1);
      FoldRows(leaf, files, n1, targets[1..]);
      CatThree(n.rows, [targets[0].row], Rows(targets[1..]));
    }
  }

  lemma FoldTarget(leaf: Leaf, files: nat, t: Target, how: PaneBy)
    requires t.row != ""
    ensures FoldOpts(leaf, files, Blank, TargetOpts(leaf, t, how))
         == Ok(Blank.(rows := [t.row], paneId := if how == ById then t.paneId else "",
                      side := if how == BySide then t.side else ""))
  {
    var row, n1 := ParsedOpt(TargetSpec(leaf), t.row), Blank.(rows := [t.row]);
    FoldOne(leaf, files, Blank, row);
    assert Blank.rows + [t.row] == [t.row];
    if how == ById && t.paneId != "" {
      FoldOne(leaf, files, n1, ParsedOpt(PANE_ID, t.paneId));
      FoldCat(leaf, files, Blank, [row], [ParsedOpt(PANE_ID, t.paneId)]);
    } else if how == BySide && t.side != "" {
      FoldOne(leaf, files, n1, ParsedOpt(PANE, t.side));
      FoldCat(leaf, files, Blank, [row], [ParsedOpt(PANE, t.side)]);
    } else {
      CatNil([row]);
    }
  }

  /** The printed targets give a call its rows, its pane and nothing else. */
  lemma FoldPlaces(leaf: Leaf, files: nat, targets: seq<Target>, how: PaneBy)
    requires TargetsFit(leaf, targets, how)
    ensures FoldOpts(leaf, files, Blank, AllTargetOpts(leaf, targets, how)) == Ok(Resolved(Blank, targets, how))
  {
    if |targets| == 1 {
      FoldTarget(leaf, files, targets[0], how);
      assert AllTargetOpts(leaf, targets[1..], how) == [] && Rows(targets[1..]) == [];
      CatNil(TargetOpts(leaf, targets[0], how));
      CatNil([targets[0].row]);
    } else if |targets| > 1 {
      FoldRows(leaf, files, Blank, targets);
      CatNil(Rows(targets));
    }
  }

  /** n with the places of m. */
  function Moved(n: Normal, m: Normal): Normal { n.(rows := m.rows, paneId := m.paneId, side := m.side) }

  lemma FoldMoved(leaf: Leaf, files: nat, n: Normal, m: Normal, opt: ParsedOpt)
    requires LeafOk(leaf) && OptOk(leaf.opts, opt) && FoldOpt(leaf, files, n, opt).Ok?
    ensures var r := FoldOpt(leaf, files, n, opt).value;
            if IsPlace(opt) then Moved(r, m) == Moved(n, m)
            else FoldOpt(leaf, files, Moved(n, m), opt) == Ok(Moved(r, m))
  {
    SpecOfLeaf(leaf, opt.spec.name);
  }

  /** The other options, folded onto other places, give the same call at those places. */
  lemma {:induction false} FoldOthers(leaf: Leaf, files: nat, n: Normal, m: Normal, opts: seq<ParsedOpt>)
    requires LeafOk(leaf) && Fits(leaf, opts)
    requires FoldOpts(leaf, files, n, opts).Ok?
    ensures FoldOpts(leaf, files, Moved(n, m), Others(opts)) == Ok(Moved(FoldOpts(leaf, files, n, opts).value, m))
    decreases |opts|
  {
    if opts != [] {
      FoldMoved(leaf, files, n, m, opts[0]);
      FoldOthers(leaf, files, FoldOpt(leaf, files, n, opts[0]).value, m, opts[1..]);
      if IsPlace(opts[0]) {
        CatNil(Others(opts[1..]));
      } else {
        assert ([opts[0]] + Others(opts[1..]))[1..] == Others(opts[1..]);
      }
    }
  }

  /** Reprinting the places keeps every option that is none. */
  lemma NameKept(leaf: Leaf, places: seq<ParsedOpt>, opts: seq<ParsedOpt>, name: string)
    requires LeafOk(leaf) && Fits(leaf, opts)
    requires Fits(leaf, places) && Places(places)
    requires name != "target" && name != "pane" && name != "pane-id"
    ensures HasOption(places + Others(opts), name) == HasOption(opts, name)
    ensures forall k :: 0 <= k < |places + Others(opts)| && (places + Others(opts))[k].spec.name == name ==>
              (places + Others(opts))[k] in opts
  {
    var fit := places + Others(opts);
    forall k | 0 <= k < |fit| && fit[k].spec.name == name ensures fit[k] in opts {
      if k < |places| {
        SpecOfLeaf(leaf, places[k].spec.name);
      } else {
        OthersAre(opts, fit[k]);
      }
    }
    if HasOption(opts, name) {
      var k :| 0 <= k < |opts| && opts[k].spec.name == name;
      SpecOfLeaf(leaf, name);
      OthersAre(opts, opts[k]);
      assert opts[k] in fit;
    }
  }

  lemma OverlayKept(urlOk: string -> bool, leaf: Leaf, places: seq<ParsedOpt>, opts: seq<ParsedOpt>, pos: seq<string>)
    requires LeafOk(leaf) && Fits(leaf, opts)
    requires Fits(leaf, places) && Places(places)
    requires OverlayOk(urlOk, opts, pos)
    ensures OverlayOk(urlOk, places + Others(opts), pos)
  {
    NameKept(leaf, places, opts, "html");
    NameKept(leaf, places, opts, "url");
    NameKept(leaf, places, opts, "js");
  }

  // ----- the round trip of a whole call -----

  lemma RowsLength(targets: seq<Target>)
    ensures |Rows(targets)| == |targets|
  {}

  /** The arguments after the path, as the option printer would write them. */
  lemma RenderedTail(leaf: Leaf, files: nat, opts: seq<ParsedOpt>, n: Normal, targets: seq<Target>, how: PaneBy, pos: seq<string>)
    requires LeafOk(leaf) && Fits(leaf, opts)
    requires FoldOpts(leaf, files, Blank, opts) == Ok(n)
    ensures RenderTargets(targets, how) + RenderOpts(n.opts) + PrintPos(pos)
         == Print(AllTargetOpts(leaf, targets, how) + Others(opts), pos)
  {
    TargetsArePrinted(leaf, targets, how);
    OthersArePrinted(leaf, files, Blank, opts);
    CatNil(PrintOpts(Others(opts)));
    PrintOptsCat(AllTargetOpts(leaf, targets, how), Others(opts));
  }

  /** Every option token starts with a dash, so a printed tail extends no path of the table. */
  lemma RenderedMatch(table: seq<Leaf>, argv: seq<string>, i: nat, tail: seq<string>)
    requires TableOk(table) && Matches(table, argv, i)
    requires tail == [] || StartsWith(tail[0], "-") || table[i].path[0] == "help"
    ensures Matches(table, table[i].path + tail, i)
  {
    var path, out := table[i].path, table[i].path + tail;
    forall k | 0 <= k < |table| && HasPrefix(out, table[k].path)
      ensures |table[k].path| <= |path| && HasPrefix(argv, table[k].path)
    {
      var other := table[k].path;
      assert LeafOk(table[k]) && LeafOk(table[i]);
      if |other| > |path| {
        LongerPath(other, path, tail);
        assert false;
      }
      PrefixOfPrefix(other, path, tail, argv);
    }
  }

  lemma LongerPath(other: seq<string>, path: seq<string>, tail: seq<string>)
    requires other <= path + tail && |other| > |path| && path != []
    ensures tail != [] && other[|path|] == tail[0] && other[0] == path[0]
  {
    assert other[|path|] == (path + tail)[|path|] && other[0] == (path + tail)[0];
  }

  lemma PrefixOfPrefix(other: seq<string>, path: seq<string>, tail: seq<string>, argv: seq<string>)
    requires other <= path + tail && |other| <= |path| && path <= argv
    ensures other <= argv
  {
    assert other == (path + tail)[..|other|] == path[..|other|] == argv[..|other|];
  }

  lemma TailStart(leaf: Leaf, targets: seq<Target>, how: PaneBy, opts: seq<Opt>, pos: seq<string>)
    requires LeafOk(leaf) && TargetsFit(leaf, targets, how) && (leaf.maxPos >= 0 ==> |pos| <= leaf.maxPos)
    ensures var tail := RenderTargets(targets, how) + RenderOpts(opts) + PrintPos(pos);
            tail == [] || StartsWith(tail[0], "-") || leaf.path[0] == "help"
  {
    var tail := RenderTargets(targets, how) + RenderOpts(opts) + PrintPos(pos);
    if targets != [] {
      assert tail[0] == "--target=" + targets[0].row;
    } else if opts != [] {
      assert tail[0] == RenderOpt(opts[0]);
    } else {
      assert tail == PrintPos(pos);
    }
  }

  /** Parser and printer undo each other on whole calls. Whatever argument list was matched,
      parsed and normalised, the call printed with any targets that fit its leaf is matched to
      the same leaf again, and parses and normalises to the same call at exactly those targets. */
  lemma RenderedIsRead(
    urlOk: string -> bool, table: seq<Leaf>, argv: seq<string>, i: nat, files: nat, p: Parsed, n: Normal,
    targets: seq<Target>, how: PaneBy)
    requires TableOk(table) && Matches(table, argv, i) && TargetsFit(table[i], targets, how)
    requires Parse(table[i].opts, argv[|table[i].path|..]) == Ok(p) && !p.help
    requires Normalise(urlOk, table[i], files, p) == Ok(n)
    ensures var leaf, out := table[i], Render(table[i].path, targets, how, n.opts, n.pos);
            var again := Parse(leaf.opts, out[|leaf.path|..]);
            && Matches(table, out, i)
            && again.Ok? && !again.value.help && again.value.warnings == []
            && Normalise(urlOk, leaf, files, again.value) == Ok(Resolved(n, targets, how))
  {
    var leaf := table[i];
    assert LeafOk(leaf);
    ParseIsWellFormed(leaf.opts, argv[|leaf.path|..]);
    var folded := FoldOpts(leaf, files, Blank, p.opts).value;
    var tail := RenderTargets(targets, how) + RenderOpts(n.opts) + PrintPos(n.pos);
    assert Render(leaf.path, targets, how, n.opts, n.pos)[|leaf.path|..] == tail;
    RenderedTail(leaf, files, p.opts, folded, targets, how, p.pos);
    TailStart(leaf, targets, how, n.opts, n.pos);
    RenderedMatch(table, argv, i, tail);
    NormaliseAgain(urlOk, leaf, files, p, n, targets, how);
  }

  /** The printed options parse, and fold to the same fields at the new places. */
  lemma OptionsAgain(
    leaf: Leaf, files: nat, opts: seq<ParsedOpt>, pos: seq<string>, targets: seq<Target>, how: PaneBy)
    requires LeafOk(leaf) && TargetsFit(leaf, targets, how) && WellFormed(leaf.opts, opts, pos)
    requires FoldOpts(leaf, files, Blank, opts).Ok?
    ensures var all := AllTargetOpts(leaf, targets, how) + Others(opts);
            && Parse(leaf.opts, Print(all, pos)) == Ok(Parsed(all, pos, false, []))
            && FoldOpts(leaf, files, Blank, all)
            == Ok(Moved(FoldOpts(leaf, files, Blank, opts).value, Resolved(Blank, targets, how)))
  {
    var places, m := AllTargetOpts(leaf, targets, how), Resolved(Blank, targets, how);
    assert Parse(leaf.opts, Print(places + Others(opts), pos)) == Ok(Parsed(places + Others(opts), pos, false, [])) by {
      PlacesFit(leaf, targets, how);
      OthersFit(leaf, opts);
      AllFit(leaf, places, Others(opts));
      assert SchemaOk(leaf.opts);
      ParsePrint(leaf.opts, places + Others(opts), pos);
    }
    FoldPlaces(leaf, files, targets, how);
    FoldCat(leaf, files, Blank, places, Others(opts));
    FoldOthers(leaf, files, Blank, m, opts);
    assert Moved(Blank, m) == m;
  }

  lemma NormaliseAgain(
    urlOk: string -> bool, leaf: Leaf, files: nat, p: Parsed, n: Normal, targets: seq<Target>, how: PaneBy)
    requires LeafOk(leaf) && TargetsFit(leaf, targets, how) && WellFormed(leaf.opts, p.opts, p.pos)
    requires Normalise(urlOk, leaf, files, p) == Ok(n)
    ensures var all := AllTargetOpts(leaf, targets, how) + Others(p.opts);
            && Parse(leaf.opts, Print(all, p.pos)) == Ok(Parsed(all, p.pos, false, []))
            && Normalise(urlOk, leaf, files, Parsed(all, p.pos, false, [])) == Ok(Resolved(n, targets, how))
  {
    OptionsAgain(leaf, files, p.opts, p.pos, targets, how);
    var all := AllTargetOpts(leaf, targets, how) + Others(p.opts);
    assert Refusal(urlOk, leaf, all, p.pos) == None by {
      PlacesFit(leaf, targets, how);
      if leaf.overlay { OverlayKept(urlOk, leaf, AllTargetOpts(leaf, targets, how), p.opts, p.pos); }
    }
    FinishAgain(leaf, FoldOpts(leaf, files, Blank, p.opts).value, p.pos, targets, how);
  }

  lemma FinishAgain(leaf: Leaf, n: Normal, pos: seq<string>, targets: seq<Target>, how: PaneBy)
    requires TargetsFit(leaf, targets, how) && Finish(leaf, n, pos).Ok?
    ensures Finish(leaf, Moved(n, Resolved(Blank, targets, how)), pos)
         == Ok(Resolved(Finish(leaf, n, pos).value, targets, how))
  {
    RowsLength(targets);
  }

  /** A help call is printed as its path and --help, and read back as that. */
  lemma HelpIsRead(table: seq<Leaf>, argv: seq<string>, i: nat)
    requires TableOk(table) && Matches(table, argv, i)
    ensures Matches(table, table[i].path + ["--help"], i)
    ensures Parse(table[i].opts, (table[i].path + ["--help"])[|table[i].path|..]) == Ok(Nothing.(help := true))
  {
    RenderedMatch(table, argv, i, ["--help"]);
    assert (table[i].path + ["--help"])[|table[i].path|..] == ["--help"];
    var arg := "--help";
    assert arg[2..] == "help";
    IndexAfter("help", "", '=');
    assert "help" + "" == "help";
    assert "help"[..4] == "help";
    assert StepArg(table[i].opts, ["--help"], {}, Nothing) == Next([], {}, Nothing.(help := true)) by {
      assert ["--help"][1..] == [];
    }
  }

  /** The allowlist has the shape the round trip needs. */
  lemma AllowlistOk()
    ensures TableOk(ALLOWLIST)
  {
    forall k | 0 <= k < |ALLOWLIST| ensures LeafOk(ALLOWLIST[k]) {
      EveryLeafOk(ALLOWLIST[k]);
    }
  }

  // ----- where a call's places come from -----

  /** A pane the call asks for was given by an option of the leaf. */
  predicate PlacesGiven(leaf: Leaf, n: Normal) {
    (n.paneId != "" ==> PANE_ID in leaf.opts) && (n.side != "" ==> PANE in leaf.opts)
  }

  lemma OwnSpec(leaf: Leaf, name: string)
    requires Lookup(leaf.opts, name).Some? && (name == "pane-id" || name == "pane")
    ensures Lookup(leaf.opts, name).value in leaf.opts
  {
    assert Find(UNIVERSAL, "pane-id").None? && Find(UNIVERSAL, "pane").None?;
  }

  lemma OptGivesPlace(leaf: Leaf, files: nat, n: Normal, opt: ParsedOpt)
    requires LeafOk(leaf) && OptOk(leaf.opts, opt) && PlacesGiven(leaf, n) && FoldOpt(leaf, files, n, opt).Ok?
    ensures PlacesGiven(leaf, FoldOpt(leaf, files, n, opt).value)
  {
    hide LeafOk;
    SpecOfLeaf(leaf, opt.spec.name);
    if opt.spec.role == Pane || opt.spec.role == Side { OwnSpec(leaf, opt.spec.name); }
  }

  lemma {:induction false} FoldGivesPlaces(leaf: Leaf, files: nat, n: Normal, opts: seq<ParsedOpt>)
    requires LeafOk(leaf) && Fits(leaf, opts) && PlacesGiven(leaf, n)
    requires FoldOpts(leaf, files, n, opts).Ok?
    ensures PlacesGiven(leaf, FoldOpts(leaf, files, n, opts).value)
    decreases |opts|
  {
    hide LeafOk, FoldOpt, PlacesGiven;
    if opts != [] {
      OptGivesPlace(leaf, files, n, opts[0]);
      FoldGivesPlaces(leaf, files, FoldOpt(leaf, files, n, opts[0]).value, opts[1..]);
    }
  }

  /** What normalising guarantees about a call's places. */
  lemma NormalPlaces(urlOk: string -> bool, leaf: Leaf, files: nat, args: seq<string>, n: Normal)
    requires LeafOk(leaf) && Parse(leaf.opts, args).Ok?
    requires Normalise(urlOk, leaf, files, Parse(leaf.opts, args).value) == Ok(n)
    ensures PlacesGiven(leaf, n) && (|n.rows| > 1 ==> RepeatsRows(leaf))
  {
    ParseIsWellFormed(leaf.opts, args);
    FoldGivesPlaces(leaf, files, Blank, Parse(leaf.opts, args).value.opts);
  }
}
