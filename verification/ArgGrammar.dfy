/** The option grammar a host's agtermctl call is parsed with, the printer of a normalised
    call, and the choice of the leaf by longest prefix. */
module ArgGrammar {
  import opened Results
  import opened Sequences

  const NUL: char := '\0'

  /** How an option's value is treated by the policy. */
  datatype Role = Plain | Row | Pane | Side | File | Command

  /** One option of a leaf's schema. */
  datatype OptSpec = OptSpec(
    name: string, value: bool, role: Role, repeats: bool, allowed: seq<string>, dropped: bool)

  datatype ParsedOpt = ParsedOpt(spec: OptSpec, value: string)

  datatype Parsed = Parsed(opts: seq<ParsedOpt>, pos: seq<string>, help: bool, warnings: seq<string>)

  const Nothing := Parsed([], [], false, [])

  datatype ParseError =
    | NulByte | ShortOption(arg: string) | UnknownOption(name: string) | NeedsValue(name: string)
    | LooksLikeOption(name: string, text: string) | TakesNoValue(name: string)
    | Repeated(name: string) | NotAllowed(name: string, text: string)

  const UNIVERSAL := [
    OptSpec("window", true, Plain, false, [], false),
    OptSpec("socket", true, Plain, false, [], false),
    OptSpec("json", false, Plain, false, [], false)]

  predicate IsStripped(name: string) { name == "window" || name == "socket" }

  predicate StartsWith(s: string, prefix: string) { prefix <= s }

  /** The first option called name. */
  function Find(specs: seq<OptSpec>, name: string): (r: Option<OptSpec>)
    ensures r.Some? ==> r.value in specs && r.value.name == name
    ensures r.None? <==> forall k :: 0 <= k < |specs| ==> specs[k].name != name
  {
    if specs == [] then None
    else if specs[0].name == name then Some(specs[0])
    else Find(specs[1..], name)
  }

  /** A leaf's own options shadow the universal ones. */
  function Lookup(opts: seq<OptSpec>, name: string): (r: Option<OptSpec>)
    ensures r.Some? ==> r.value.name == name
  {
    var own := Find(opts, name);
    if own.Some? then own else Find(UNIVERSAL, name)
  }

  /** An option token --name or --name=value. */
  datatype Token = Token(name: string, hasValue: bool, value: string)

  function SplitOption(arg: string): Token
    requires |arg| >= 2
  {
    var body := arg[2..];
    var cut := IndexOf(body, '=');
    Token(body[..cut], cut < |body|, if cut < |body| then body[cut + 1..] else "")
  }

  // ----- parsing -----

  /** What one option token with its (possibly separate) value does to the parse so far. */
  function Accept(spec: OptSpec, value: string, seen: set<string>, out: Parsed): Result<Parsed, ParseError> {
    if NUL in value then Err(NulByte)
    else if spec.name in seen && !spec.repeats then Err(Repeated(spec.name))
    else if spec.dropped then Ok(out.(warnings := out.warnings + [spec.name]))
    else if spec.allowed != [] && value !in spec.allowed then Err(NotAllowed(spec.name, value))
    else if IsStripped(spec.name) then Ok(out)
    else Ok(out.(opts := out.opts + [ParsedOpt(spec, value)]))
  }

  /** One iteration: the parse fails, or goes on with the rest of the arguments. */
  datatype Step = Fail(error: ParseError) | Next(args: seq<string>, seen: set<string>, out: Parsed)

  function Take(spec: OptSpec, value: string, args: seq<string>, seen: set<string>, out: Parsed): Step {
    match Accept(spec, value, seen, out)
    case Err(e) => Fail(e)
    case Ok(out') => Next(args, seen + {spec.name}, out')
  }

  /** An argument that starts with two dashes and is not the terminator. */
  function StepOption(opts: seq<OptSpec>, args: seq<string>, seen: set<string>, out: Parsed): Step
    requires args != [] && StartsWith(args[0], "--")
  {
    var Token(name, hasValue, value) := SplitOption(args[0]);
    var found := Lookup(opts, name);
    if name == "help" && !hasValue then Next(args[1..], seen, out.(help := true))
    else if found.None? then Fail(UnknownOption(name))
    else if found.value.value && !hasValue then
      if |args| < 2 then Fail(NeedsValue(name))
      else if StartsWith(args[1], "-") && args[1] != "-" then Fail(LooksLikeOption(name, args[1]))
      else Take(found.value, args[1], args[2..], seen, out)
    else if !found.value.value && hasValue then Fail(TakesNoValue(name))
    else Take(found.value, value, args[1..], seen, out)
  }

  function StepArg(opts: seq<OptSpec>, args: seq<string>, seen: set<string>, out: Parsed): (step: Step)
    requires args != []
    ensures step.Next? ==> |step.args| < |args|
  {
    var arg := args[0];
    if NUL in arg then Fail(NulByte)
    else if arg == "--" then
      if exists w :: w in args[1..] && NUL in w then Fail(NulByte)
      else Next([], seen, out.(pos := out.pos + args[1..]))
    else if !StartsWith(arg, "-") || arg == "-" then Next(args[1..], seen, out.(pos := out.pos + [arg]))
    else if !StartsWith(arg, "--") then Fail(ShortOption(arg))
    else StepOption(opts, args, seen, out)
  }

  /** The parse of args after `seen` options gave `out`. */
  function ParseFrom(opts: seq<OptSpec>, args: seq<string>, seen: set<string>, out: Parsed)
    : Result<Parsed, ParseError>
    decreases |args|
  {
    if args == [] then Ok(if out.help then Nothing.(help := true) else out)
    else
      match StepArg(opts, args, seen, out)
      case Fail(e) => Err(e)
      case Next(args', seen', out') => ParseFrom(opts, args', seen', out')
  }

  function Parse(opts: seq<OptSpec>, args: seq<string>): Result<Parsed, ParseError> {
    ParseFrom(opts, args, {}, Nothing)
  }

  /** parseArgs: one pass over the arguments with an index, a map of seen names and an
      accumulator. It computes Parse. */
  method ParseArgs(opts: seq<OptSpec>, args: seq<string>) returns (r: Result<Parsed, ParseError>)
    ensures r == Parse(opts, args)
  {
    var out := Nothing;
    var seen: set<string> := {};
    var i := 0;
    while i < |args|
      invariant 0 <= i <= |args|
      invariant ParseFrom(opts, args[i..], seen, out) == Parse(opts, args)
    {
      var arg := args[i];
      assert args[i..][1..] == args[i + 1..];
      if NUL in arg {
        return Err(NulByte);
      }
      if arg == "--" {
        if exists w :: w in args[i + 1..] && NUL in w {
          return Err(NulByte);
        }
        out := out.(pos := out.pos + args[i + 1..]);
        break;
      }
      if !StartsWith(arg, "-") || arg == "-" {
        out := out.(pos := out.pos + [arg]);
        i := i + 1;
        continue;
      }
      if !StartsWith(arg, "--") {
        return Err(ShortOption(arg));
      }
      var token := SplitOption(arg);
      var name, hasValue, value := token.name, token.hasValue, token.value;
      if name == "help" && !hasValue {
        out := out.(help := true);
        i := i + 1;
        continue;
      }
      var found := Lookup(opts, name);
      if found.None? {
        return Err(UnknownOption(name));
      }
      if found.value.value {
        if !hasValue {
          if i + 1 >= |args| {
            return Err(NeedsValue(name));
          }
          assert args[i..][2..] == args[i + 2..];
          i := i + 1;
          value := args[i];
          if StartsWith(value, "-") && value != "-" {
            return Err(LooksLikeOption(name, value));
          }
        }
      } else if hasValue {
        return Err(TakesNoValue(name));
      }
      var next := Accept(found.value, value, seen, out);
      if next.Err? {
        return next;
      }
      out, seen, i := next.value, seen + {name}, i + 1;
    }
    return Ok(if out.help then Nothing.(help := true) else out);
  }

  // ----- printing -----

  /** An option in the one form that never needs a second argument. */
  function PrintOpt(opt: ParsedOpt): string {
    "--" + opt.spec.name + (if opt.spec.value then "=" + opt.value else "")
  }

  function PrintOpts(opts: seq<ParsedOpt>): seq<string> {
    if opts == [] then [] else [PrintOpt(opts[0])] + PrintOpts(opts[1..])
  }

  predicate NeedsDashes(pos: seq<string>) { exists k :: 0 <= k < |pos| && StartsWith(pos[k], "-") }

  function PrintPos(pos: seq<string>): seq<string> { (if NeedsDashes(pos) then ["--"] else []) + pos }

  function Print(opts: seq<ParsedOpt>, pos: seq<string>): seq<string> { PrintOpts(opts) + PrintPos(pos) }

  // ----- what a parse delivers -----

  /** An option of the schema, with a value the schema takes. */
  ghost predicate OptOk(schema: seq<OptSpec>, opt: ParsedOpt) {
    && Lookup(schema, opt.spec.name) == Some(opt.spec)
    && (!opt.spec.value ==> opt.value == "")
    && NUL !in opt.value
    && !opt.spec.dropped && !IsStripped(opt.spec.name)
    && (opt.spec.allowed != [] ==> opt.value in opt.spec.allowed)
  }

  ghost predicate RepeatsOk(opts: seq<ParsedOpt>) {
    forall i, j :: 0 <= i < j < |opts| && opts[i].spec.name == opts[j].spec.name ==> opts[j].spec.repeats
  }

  ghost predicate WellFormed(schema: seq<OptSpec>, opts: seq<ParsedOpt>, pos: seq<string>) {
    && (forall k :: 0 <= k < |opts| ==> OptOk(schema, opts[k]))
    && RepeatsOk(opts)
    && (forall k :: 0 <= k < |pos| ==> NUL !in pos[k])
  }

  /** Option names can be written as --name and --name=value. */
  predicate NameOk(name: string) {
    name != "" && name != "help" && forall k :: 0 <= k < |name| ==> name[k] != '=' && name[k] != NUL
  }

  predicate SchemaOk(schema: seq<OptSpec>) { forall k :: 0 <= k < |schema| ==> NameOk(schema[k].name) }

  ghost predicate SeenOk(seen: set<string>, opts: seq<ParsedOpt>) {
    forall k :: 0 <= k < |opts| ==> opts[k].spec.name in seen
  }

  lemma StepWellFormed(schema: seq<OptSpec>, args: seq<string>, seen: set<string>, out: Parsed)
    requires args != [] && WellFormed(schema, out.opts, out.pos) && SeenOk(seen, out.opts)
    ensures var step := StepArg(schema, args, seen, out);
            step.Next? ==> WellFormed(schema, step.out.opts, step.out.pos) && SeenOk(step.seen, step.out.opts)
  {
    var step := StepArg(schema, args, seen, out);
    if step.Next? && args[0] == "--" {
      forall k | 0 <= k < |step.out.pos| ensures NUL !in step.out.pos[k] {
        if k >= |out.pos| { assert step.out.pos[k] in args[1..]; }
      }
    } else if step.Next? && StartsWith(args[0], "--") {
      OptionWellFormed(schema, args, seen, out);
    }
  }

  lemma OptionWellFormed(schema: seq<OptSpec>, args: seq<string>, seen: set<string>, out: Parsed)
    requires args != [] && StartsWith(args[0], "--") && NUL !in args[0]
    requires WellFormed(schema, out.opts, out.pos) && SeenOk(seen, out.opts)
    ensures var step := StepOption(schema, args, seen, out);
            step.Next? ==> WellFormed(schema, step.out.opts, step.out.pos) && SeenOk(step.seen, step.out.opts)
  {
    var Token(name, hasValue, value) := SplitOption(args[0]);
    if Lookup(schema, name).Some? {
      var spec := Lookup(schema, name).value;
      if spec.value && !hasValue {
        if |args| >= 2 { AcceptWellFormed(schema, spec, args[1], seen, out); }
      } else if spec.value == hasValue {
        AcceptWellFormed(schema, spec, value, seen, out);
      }
    }
  }

  lemma AcceptWellFormed(schema: seq<OptSpec>, spec: OptSpec, value: string, seen: set<string>, out: Parsed)
    requires Lookup(schema, spec.name) == Some(spec) && (!spec.value ==> value == "")
    requires WellFormed(schema, out.opts, out.pos) && SeenOk(seen, out.opts)
    ensures var next := Accept(spec, value, seen, out);
            next.Ok? ==> && WellFormed(schema, next.value.opts, next.value.pos)
                         && SeenOk(seen + {spec.name}, next.value.opts)
  {}

  lemma {:induction false} ParseFromWellFormed(
    schema: seq<OptSpec>, args: seq<string>, seen: set<string>, out: Parsed)
    requires WellFormed(schema, out.opts, out.pos) && SeenOk(seen, out.opts)
    ensures var r := ParseFrom(schema, args, seen, out);
            r.Ok? ==> WellFormed(schema, r.value.opts, r.value.pos)
    decreases |args|
  {
    hide Lookup, IsStripped;
    if args != [] {
      StepWellFormed(schema, args, seen, out);
      var step := StepArg(schema, args, seen, out);
      if step.Next? { ParseFromWellFormed(schema, step.args, step.seen, step.out); }
    }
  }

  /** Whatever the input, an accepted parse holds only options of the schema with values the
      schema takes, repeated only where it allows that, and no NUL byte anywhere. */
  lemma ParseIsWellFormed(schema: seq<OptSpec>, args: seq<string>)
    ensures var r := Parse(schema, args);
            r.Ok? ==> WellFormed(schema, r.value.opts, r.value.pos)
  {
    ParseFromWellFormed(schema, args, {}, Nothing);
  }

  // ----- the round trip -----

  lemma LookupName(schema: seq<OptSpec>, name: string)
    requires SchemaOk(schema) && Lookup(schema, name).Some?
    ensures NameOk(name)
  {
    var own := Find(schema, name);
    if own.None? {
      assert Find(UNIVERSAL, name).value in UNIVERSAL;
      assert name == "window" || name == "socket" || name == "json";
    }
  }

  lemma SplitPrinted(opt: ParsedOpt)
    requires NameOk(opt.spec.name) && (!opt.spec.value ==> opt.value == "") && NUL !in opt.value
    ensures var arg := PrintOpt(opt);
            && |arg| > 2 && StartsWith(arg, "--") && StartsWith(arg, "-") && NUL !in arg
            && SplitOption(arg) == Token(opt.spec.name, opt.spec.value, opt.value)
  {
    var name, arg := opt.spec.name, PrintOpt(opt);
    var tail := if opt.spec.value then "=" + opt.value else "";
    assert arg == "--" + name + tail && arg[2..] == name + tail;
    assert '=' !in name && NUL !in name;
    IndexAfter(name, tail, '=');
    assert arg[2..][..|name|] == name;
    assert opt.spec.value ==> arg[2..][|name| + 1..] == opt.value;
    assert NUL !in tail;
  }

  /** The parser takes back one printed option, whatever follows it. */
  lemma ParsePrintedOpt(schema: seq<OptSpec>, opt: ParsedOpt, rest: seq<string>, seen: set<string>, out: Parsed)
    requires SchemaOk(schema) && OptOk(schema, opt) && (opt.spec.name in seen ==> opt.spec.repeats)
    ensures StepArg(schema, [PrintOpt(opt)] + rest, seen, out)
         == Next(rest, seen + {opt.spec.name}, out.(opts := out.opts + [opt]))
  {
    LookupName(schema, opt.spec.name);
    SplitPrinted(opt);
    var args := [PrintOpt(opt)] + rest;
    assert args[1..] == rest;
  }

  /** What the parser checks of each option, given the names it has seen. */
  ghost predicate Acceptable(schema: seq<OptSpec>, opts: seq<ParsedOpt>, seen: set<string>) {
    opts == [] ||
    (&& OptOk(schema, opts[0]) && (opts[0].spec.name in seen ==> opts[0].spec.repeats)
     && Acceptable(schema, opts[1..], seen + {opts[0].spec.name}))
  }

  lemma {:induction false} WellFormedAcceptable(schema: seq<OptSpec>, opts: seq<ParsedOpt>, seen: set<string>)
    requires forall k :: 0 <= k < |opts| ==> OptOk(schema, opts[k]) && (opts[k].spec.name in seen ==> opts[k].spec.repeats)
    requires RepeatsOk(opts)
    ensures Acceptable(schema, opts, seen)
  {
    if opts != [] {
      WellFormedAcceptable(schema, opts[1..], seen + {opts[0].spec.name});
    }
  }

  /** The names of printed options, and the options themselves, as the parser adds them up. */
  function SeenAfter(opts: seq<ParsedOpt>, seen: set<string>): set<string> {
    if opts == [] then seen else SeenAfter(opts[1..], seen + {opts[0].spec.name})
  }

  lemma {:induction false} ParsePrintedOpts(
    schema: seq<OptSpec>, opts: seq<ParsedOpt>, rest: seq<string>, seen: set<string>, out: Parsed, all: seq<string>)
    requires SchemaOk(schema) && Acceptable(schema, opts, seen) && all == PrintOpts(opts) + rest
    ensures ParseFrom(schema, all, seen, out)
         == ParseFrom(schema, rest, SeenAfter(opts, seen), out.(opts := out.opts + opts))
  {
    if opts == [] {
      assert all == rest && out.opts + opts == out.opts;
    } else {
      var tail, out1 := PrintOpts(opts[1..]) + rest, out.(opts := out.opts + [opts[0]]);
      assert all == [PrintOpt(opts[0])] + tail;
      ParsePrintedOpt(schema, opts[0], tail, seen, out);
      ParsePrintedOpts(schema, opts[1..], rest, seen + {opts[0].spec.name}, out1, tail);
      MoveHead(out.opts, opts);
    }
  }

  lemma {:induction false} ParsePrintedWords(schema: seq<OptSpec>, pos: seq<string>, seen: set<string>, out: Parsed)
    requires forall k :: 0 <= k < |pos| ==> NUL !in pos[k] && !StartsWith(pos[k], "-")
    requires !out.help
    ensures ParseFrom(schema, pos, seen, out) == Ok(out.(pos := out.pos + pos))
  {
    if pos == [] {
      assert out.pos + pos == out.pos;
    } else {
      assert pos[0] != "--";
      var out1 := out.(pos := out.pos + [pos[0]]);
      ParsePrintedWords(schema, pos[1..], seen, out1);
      MoveHead(out.pos, pos);
    }
  }

  lemma ParsePrintedPos(schema: seq<OptSpec>, pos: seq<string>, seen: set<string>, opts: seq<ParsedOpt>)
    requires forall k :: 0 <= k < |pos| ==> NUL !in pos[k]
    ensures ParseFrom(schema, PrintPos(pos), seen, Nothing.(opts := opts)) == Ok(Parsed(opts, pos, false, []))
  {
    var out := Nothing.(opts := opts);
    assert out.pos + pos == pos;
    if NeedsDashes(pos) {
      assert PrintPos(pos)[1..] == pos;
      assert StepArg(schema, PrintPos(pos), seen, out) == Next([], seen, out.(pos := pos));
    } else {
      assert PrintPos(pos) == pos;
      ParsePrintedWords(schema, pos, seen, out);
    }
  }

  /** Parser and printer undo each other: any options and positionals that fit the schema,
      printed, parse back to exactly themselves, positionals that start with '-' included. */
  lemma ParsePrint(schema: seq<OptSpec>, opts: seq<ParsedOpt>, pos: seq<string>)
    requires SchemaOk(schema) && WellFormed(schema, opts, pos)
    ensures Parse(schema, Print(opts, pos)) == Ok(Parsed(opts, pos, false, []))
  {
    WellFormedAcceptable(schema, opts, {});
    ParsePrintedOpts(schema, opts, PrintPos(pos), {}, Nothing, Print(opts, pos));
    assert Nothing.opts + opts == opts;
    ParsePrintedPos(schema, pos, SeenAfter(opts, {}), opts);
  }

  /** So printing what any accepted argument list parsed to, and parsing that again, gives the
      same options and positionals: the printed form is a normal form. */
  lemma NormalForm(schema: seq<OptSpec>, args: seq<string>)
    requires SchemaOk(schema) && Parse(schema, args).Ok? && !Parse(schema, args).value.help
    ensures var p := Parse(schema, args).value;
            Parse(schema, Print(p.opts, p.pos)) == Ok(p.(warnings := []))
  {
    ParseIsWellFormed(schema, args);
    ParsePrint(schema, Parse(schema, args).value.opts, Parse(schema, args).value.pos);
  }
}
