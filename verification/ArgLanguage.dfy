/** The argument lists a leaf accepts, as a grammar of their own, and what they mean. */
module ArgLanguage {
  import opened Results
  import opened Sequences
  import opened ArgGrammar

  /** One thing a caller writes: a positional, --help, an option with its value joined by '=' or as
      the next argument, or a flag. */
  datatype Item =
    | Word(text: string) | Help
    | Joined(spec: OptSpec, value: string) | Spaced(spec: OptSpec, value: string) | Flagged(spec: OptSpec)

  predicate IsOption(item: Item) { item.Joined? || item.Spaced? || item.Flagged? }

  function ValueOf(item: Item): string { if item.Joined? || item.Spaced? then item.value else "" }

  function Spell(item: Item): seq<string> {
    match item
    case Word(text) => [text]
    case Help => ["--help"]
    case Joined(spec, value) => ["--" + spec.name + "=" + value]
    case Spaced(spec, value) => ["--" + spec.name, value]
    case Flagged(spec) => ["--" + spec.name]
  }

  function SpellAll(items: seq<Item>): seq<string> {
    if items == [] then [] else Spell(items[0]) + SpellAll(items[1..])
  }

  /** The positionals after `--`, if it is written. */
  function SpellTail(tail: Option<seq<string>>): seq<string> { if tail.Some? then ["--"] + tail.value else [] }

  /** A text that is no option. */
  predicate Plainly(text: string) { NUL !in text && (text == "-" || !StartsWith(text, "-")) }

  /** An item that the schema knows, in a form that cannot be taken for another. */
  predicate ItemFits(schema: seq<OptSpec>, item: Item) {
    match item
    case Word(text) => Plainly(text)
    case Help => true
    case Joined(spec, value) => Lookup(schema, spec.name) == Some(spec) && spec.value && NUL !in value
    case Spaced(spec, value) => Lookup(schema, spec.name) == Some(spec) && spec.value && Plainly(value)
    case Flagged(spec) => Lookup(schema, spec.name) == Some(spec) && !spec.value
  }

  /** A value the option takes; a dropped option takes any. */
  predicate ValueFits(item: Item) {
    IsOption(item) ==> item.spec.dropped || item.spec.allowed == [] || ValueOf(item) in item.spec.allowed
  }

  /** Two options of one name. */
  predicate Again(a: Item, b: Item) { IsOption(a) && IsOption(b) && a.spec.name == b.spec.name }

  predicate NoRepeats(items: seq<Item>) {
    forall i, j :: 0 <= i < j < |items| && Again(items[i], items[j]) ==> items[j].spec.repeats
  }

  /** What a caller may write. */
  predicate Correct(schema: seq<OptSpec>, items: seq<Item>, tail: Option<seq<string>>) {
    && (forall k :: 0 <= k < |items| ==> ItemFits(schema, items[k]) && ValueFits(items[k]))
    && NoRepeats(items)
    && (tail.Some? ==> forall k :: 0 <= k < |tail.value| ==> NUL !in tail.value[k])
  }

  // ----- meaning -----

  /** The options that choose a window or a socket are taken out. */
  predicate Stripped(item: Item)
    requires IsOption(item)
  {
    item.spec.name == "window" || item.spec.name == "socket"
  }

  predicate IsKept(item: Item) { IsOption(item) && !item.spec.dropped && !Stripped(item) }

  function OptsOf(items: seq<Item>): seq<ParsedOpt> {
    if items == [] then []
    else (if IsKept(items[0]) then [ParsedOpt(items[0].spec, ValueOf(items[0]))] else []) + OptsOf(items[1..])
  }

  function WordsOf(items: seq<Item>): seq<string> {
    if items == [] then [] else (if items[0].Word? then [items[0].text] else []) + WordsOf(items[1..])
  }

  function DroppedOf(items: seq<Item>): seq<string> {
    if items == [] then []
    else (if IsOption(items[0]) && items[0].spec.dropped then [items[0].spec.name] else []) + DroppedOf(items[1..])
  }

  predicate AsksHelp(items: seq<Item>) { exists k :: 0 <= k < |items| && items[k] == Help }

  /** The options in order, the positionals in order, and a note for each dropped option; help
      beside anything is help alone. */
  function Meaning(items: seq<Item>, tail: Option<seq<string>>): Parsed {
    if AsksHelp(items) then Nothing.(help := true)
    else Parsed(OptsOf(items), WordsOf(items) + (if tail.Some? then tail.value else []), false, DroppedOf(items))
  }

  // ----- one item -----

  function Extend(out: Parsed, item: Item): Parsed {
    out.(opts := out.opts + OptsOf([item]), pos := out.pos + WordsOf([item]),
         warnings := out.warnings + DroppedOf([item]), help := out.help || item.Help?)
  }

  function Seen(seen: set<string>, item: Item): set<string> { if IsOption(item) then seen + {item.spec.name} else seen }

  predicate Accepts(schema: seq<OptSpec>, item: Item, seen: set<string>) {
    && ItemFits(schema, item) && ValueFits(item)
    && (IsOption(item) && item.spec.name in seen ==> item.spec.repeats)
  }

  lemma ExtendOne(out: Parsed, item: Item)
    ensures Extend(out, item)
         == match item
            case Word(text) => out.(pos := out.pos + [text])
            case Help => out.(help := true)
            case _ => if item.spec.dropped then out.(warnings := out.warnings + [item.spec.name])
                      else if Stripped(item) then out
                      else out.(opts := out.opts + [ParsedOpt(item.spec, ValueOf(item))])
  {
    assert [item][1..] == [];
    assert OptsOf([item]) == if IsKept(item) then [ParsedOpt(item.spec, ValueOf(item))] else [];
    assert WordsOf([item]) == if item.Word? then [item.text] else [];
    assert DroppedOf([item]) == if IsOption(item) && item.spec.dropped then [item.spec.name] else [];
    CatNil(out.opts);
    CatNil(out.pos);
    CatNil(out.warnings);
  }

  lemma OptionValueFits(schema: seq<OptSpec>, item: Item)
    requires IsOption(item) && ItemFits(schema, item)
    ensures NUL !in ValueOf(item)
  {}

  lemma AcceptsOption(schema: seq<OptSpec>, item: Item, seen: set<string>, out: Parsed)
    requires IsOption(item) && Accepts(schema, item, seen)
    ensures Accept(item.spec, ValueOf(item), seen, out) == Ok(Extend(out, item))
  {
    hide Extend, ItemFits, ValueOf;
    OptionValueFits(schema, item);
    ExtendOne(out, item);
  }

  lemma SplitNamed(name: string, value: string, joined: bool)
    requires NameOk(name) && (!joined ==> value == "") && NUL !in value
    ensures var arg := "--" + name + (if joined then "=" + value else "");
            && |arg| > 2 && StartsWith(arg, "--") && NUL !in arg && arg != "--"
            && SplitOption(arg) == Token(name, joined, value)
  {
    var spec := OptSpec(name, joined, Plain, false, [], false);
    SplitPrinted(ParsedOpt(spec, value));
  }

  lemma FirstOf(a: seq<string>, rest: seq<string>)
    requires a != []
    ensures (a + rest)[0] == a[0] && (a + rest)[|a|..] == rest && (|a| == 2 ==> (a + rest)[1] == a[1])
  {}

  lemma FlagToken(name: string)
    requires NameOk(name)
    ensures var arg := "--" + name;
            |arg| > 2 && StartsWith(arg, "--") && NUL !in arg && SplitOption(arg) == Token(name, false, "") && name != "help"
  {
    SplitNamed(name, "", false);
    CatNil("--" + name);
  }

  lemma JoinedToken(name: string, value: string)
    requires NameOk(name) && NUL !in value
    ensures var arg := "--" + name + "=" + value;
            |arg| > 2 && StartsWith(arg, "--") && NUL !in arg && SplitOption(arg) == Token(name, true, value)
  {
    SplitNamed(name, value, true);
    CatThree("--" + name, "=", value);
  }

  /** An option argument reaches the option branch. */
  lemma OptionStep(schema: seq<OptSpec>, args: seq<string>, seen: set<string>, out: Parsed)
    requires args != [] && |args[0]| > 2 && StartsWith(args[0], "--") && NUL !in args[0]
    ensures StepArg(schema, args, seen, out) == StepOption(schema, args, seen, out)
  {
    hide StepOption;
  }

  lemma OptionParsed(schema: seq<OptSpec>, item: Item, rest: seq<string>, seen: set<string>, out: Parsed)
    requires SchemaOk(schema) && IsOption(item) && Accepts(schema, item, seen)
    ensures StepArg(schema, Spell(item) + rest, seen, out) == Next(rest, Seen(seen, item), Extend(out, item))
  {
    hide Accept, Extend, Lookup, NameOk, StepArg, SplitOption;
    var args := Spell(item) + rest;
    FirstOf(Spell(item), rest);
    LookupName(schema, item.spec.name);
    if item.Joined? { JoinedToken(item.spec.name, item.value); } else { FlagToken(item.spec.name); }
    OptionStep(schema, args, seen, out);
    AcceptsOption(schema, item, seen, out);
  }

  /** The parser takes one correct item, whatever follows it. */
  lemma ItemParsed(schema: seq<OptSpec>, item: Item, rest: seq<string>, seen: set<string>, out: Parsed)
    requires SchemaOk(schema) && Accepts(schema, item, seen)
    ensures StepArg(schema, Spell(item) + rest, seen, out) == Next(rest, Seen(seen, item), Extend(out, item))
  {
    hide Extend, Lookup, SplitOption;
    if IsOption(item) {
      OptionParsed(schema, item, rest, seen, out);
    } else {
      FirstOf(Spell(item), rest);
      ExtendOne(out, item);
      if item.Help? {
        HelpSplit();
        OptionStep(schema, Spell(item) + rest, seen, out);
      }
    }
  }

  lemma HelpSplit()
    ensures SplitOption("--help") == Token("help", false, "")
    ensures NUL !in "--help" && StartsWith("--help", "--") && "--help" != "--"
  {
    var arg := "--help";
    assert arg[2..] == "help";
    IndexAfter("help", "", '=');
    CatNil("help");
    assert "help"[..4] == "help";
  }

  // ----- every correct list is accepted, with its meaning -----

  predicate AcceptsAll(schema: seq<OptSpec>, items: seq<Item>, seen: set<string>) {
    items == [] || (Accepts(schema, items[0], seen) && AcceptsAll(schema, items[1..], Seen(seen, items[0])))
  }

  lemma {:induction false} CorrectIsAccepted(schema: seq<OptSpec>, items: seq<Item>, seen: set<string>)
    requires forall k :: 0 <= k < |items| ==> ItemFits(schema, items[k]) && ValueFits(items[k])
    requires NoRepeats(items)
    requires forall k :: 0 <= k < |items| && IsOption(items[k]) && items[k].spec.name in seen ==> items[k].spec.repeats
    ensures AcceptsAll(schema, items, seen)
  {
    hide ItemFits, ValueFits;
    if items != [] { CorrectIsAccepted(schema, items[1..], Seen(seen, items[0])); }
  }

  lemma {:induction false} AcceptedIsCorrect(schema: seq<OptSpec>, items: seq<Item>, seen: set<string>)
    requires AcceptsAll(schema, items, seen)
    ensures forall k :: 0 <= k < |items| ==> ItemFits(schema, items[k]) && ValueFits(items[k])
    ensures NoRepeats(items)
    ensures forall k :: 0 <= k < |items| && IsOption(items[k]) && items[k].spec.name in seen ==> items[k].spec.repeats
  {
    hide ItemFits, ValueFits;
    if items != [] {
      AcceptedIsCorrect(schema, items[1..], Seen(seen, items[0]));
      forall i, j | 0 <= i < j < |items| && Again(items[i], items[j])
        ensures items[j].spec.repeats
      {
        assert items[j] == items[1..][j - 1];
        if i > 0 { assert items[i] == items[1..][i - 1]; }
      }
      forall k | 0 <= k < |items| ensures ItemFits(schema, items[k]) && ValueFits(items[k]) {
        if k > 0 { assert items[k] == items[1..][k - 1]; }
      }
    }
  }

  function ExtendAll(out: Parsed, items: seq<Item>): Parsed
    decreases |items|
  {
    if items == [] then out else ExtendAll(Extend(out, items[0]), items[1..])
  }

  lemma {:induction false} ItemsParsed(
    schema: seq<OptSpec>, items: seq<Item>, rest: seq<string>, seen: set<string>, out: Parsed) returns (after: set<string>)
    requires SchemaOk(schema) && AcceptsAll(schema, items, seen)
    ensures ParseFrom(schema, SpellAll(items) + rest, seen, out) == ParseFrom(schema, rest, after, ExtendAll(out, items))
    decreases |items|
  {
    hide Extend, Accepts, StepArg, Spell;
    if items == [] {
      CatNil(rest);
      after := seen;
    } else {
      CatThree(Spell(items[0]), SpellAll(items[1..]), rest);
      ItemParsed(schema, items[0], SpellAll(items[1..]) + rest, seen, out);
      SpellsSomething(items[0]);
      after := ItemsParsed(schema, items[1..], rest, Seen(seen, items[0]), Extend(out, items[0]));
    }
  }

  lemma SpellsSomething(item: Item)
    ensures Spell(item) != []
  {}

  lemma {:induction false} ExtendsTo(out: Parsed, items: seq<Item>)
    ensures ExtendAll(out, items)
         == Parsed(out.opts + OptsOf(items), out.pos + WordsOf(items), out.help || AsksHelp(items),
                   out.warnings + DroppedOf(items))
    decreases |items|
  {
    if items == [] {
      CatNil(out.opts);
      CatNil(out.pos);
      CatNil(out.warnings);
    } else {
      ExtendsTo(Extend(out, items[0]), items[1..]);
      assert AsksHelp(items) <==> items[0].Help? || AsksHelp(items[1..]) by { HelpHead(items); }
      assert [items[0]][1..] == [];
      CatNil(OptsOf([items[0]]));
      OneFirst(items);
      CatThree(out.opts, OptsOf([items[0]]), OptsOf(items[1..]));
      CatThree(out.pos, WordsOf([items[0]]), WordsOf(items[1..]));
      CatThree(out.warnings, DroppedOf([items[0]]), DroppedOf(items[1..]));
    }
  }

  lemma OneFirst(items: seq<Item>)
    requires items != []
    ensures OptsOf(items) == OptsOf([items[0]]) + OptsOf(items[1..])
    ensures WordsOf(items) == WordsOf([items[0]]) + WordsOf(items[1..])
    ensures DroppedOf(items) == DroppedOf([items[0]]) + DroppedOf(items[1..])
  {
    var item := items[0];
    assert [item][1..] == [];
    CatNil(if IsKept(item) then [ParsedOpt(item.spec, ValueOf(item))] else []);
    CatNil(if item.Word? then [item.text] else []);
    CatNil(if IsOption(item) && item.spec.dropped then [item.spec.name] else []);
  }

  lemma HelpHead(items: seq<Item>)
    requires items != []
    ensures AsksHelp(items) <==> items[0].Help? || AsksHelp(items[1..])
  {
    if AsksHelp(items) && !items[0].Help? {
      var k :| 0 <= k < |items| && items[k] == Help;
      assert items[1..][k - 1] == Help;
    }
    if AsksHelp(items[1..]) {
      var k :| 0 <= k < |items[1..]| && items[1..][k] == Help;
      assert items[k + 1] == Help;
    }
  }

  lemma TailParsed(schema: seq<OptSpec>, tail: Option<seq<string>>, seen: set<string>, out: Parsed)
    requires tail.Some? ==> forall k :: 0 <= k < |tail.value| ==> NUL !in tail.value[k]
    ensures ParseFrom(schema, SpellTail(tail), seen, out)
         == var all := out.(pos := out.pos + (if tail.Some? then tail.value else []));
            Ok(if out.help then Nothing.(help := true) else all)
  {
    CatNil(out.pos);
    if tail.Some? {
      var args := ["--"] + tail.value;
      assert args[1..] == tail.value;
      assert StepArg(schema, args, seen, out) == Next([], seen, out.(pos := out.pos + tail.value));
    }
  }

  lemma CorrectParses(schema: seq<OptSpec>, items: seq<Item>, tail: Option<seq<string>>)
    requires SchemaOk(schema) && Correct(schema, items, tail)
    ensures Parse(schema, SpellAll(items) + SpellTail(tail)) == Ok(Meaning(items, tail))
  {
    hide ItemFits, ValueFits, OptsOf, WordsOf, DroppedOf, AsksHelp, ParseFrom;
    CorrectIsAccepted(schema, items, {});
    var after := ItemsParsed(schema, items, SpellTail(tail), {}, Nothing);
    ExtendsTo(Nothing, items);
    CatNil(OptsOf(items));
    CatNil(WordsOf(items));
    CatNil(DroppedOf(items));
    TailParsed(schema, tail, after, ExtendAll(Nothing, items));
  }

  // ----- every accepted list is correct -----

  /** What one step of the parser consumed. */
  lemma ItemOfOption(schema: seq<OptSpec>, args: seq<string>, seen: set<string>, out: Parsed) returns (item: Item)
    requires args != [] && StartsWith(args[0], "--") && NUL !in args[0] && StepOption(schema, args, seen, out).Next?
    ensures Accepts(schema, item, seen) && args == Spell(item) + StepOption(schema, args, seen, out).args
    ensures StepOption(schema, args, seen, out).seen == Seen(seen, item)
    ensures StepOption(schema, args, seen, out).out == Extend(out, item)
  {
    hide Extend, Lookup, Accept, Accepts, Spell, SplitOption;
    var token := SplitOption(args[0]);
    Unsplit(args[0]);
    HeadAndRest(args);
    if token.name == "help" && !token.hasValue {
      item := Help;
      HelpItem(schema, seen, out);
      CatNil("--help");
    } else {
      var spec := Lookup(schema, token.name).value;
      LookupNamed(schema, token.name);
      if spec.value && !token.hasValue {
        item := Spaced(spec, args[1]);
        TakenItem(schema, item, seen, out);
        SpelledSpaced(spec, args);
      } else if spec.value {
        item := Joined(spec, token.value);
        TakenItem(schema, item, seen, out);
        SpelledJoined(spec, token.value);
      } else {
        item := Flagged(spec);
        TakenItem(schema, item, seen, out);
        SpelledFlag(spec);
      }
    }
  }

  lemma HeadAndRest(args: seq<string>)
    requires args != []
    ensures args == [args[0]] + args[1..]
  {}

  lemma SpelledSpaced(spec: OptSpec, args: seq<string>)
    requires |args| >= 2 && args[0] == "--" + spec.name
    ensures args == Spell(Spaced(spec, args[1])) + args[2..]
  {}

  lemma SpelledJoined(spec: OptSpec, value: string)
    ensures Spell(Joined(spec, value)) == ["--" + spec.name + ("=" + value)]
  {
    CatThree("--" + spec.name, "=", value);
  }

  lemma SpelledFlag(spec: OptSpec)
    ensures Spell(Flagged(spec)) == ["--" + spec.name]
  {}

  lemma HelpItem(schema: seq<OptSpec>, seen: set<string>, out: Parsed)
    ensures Accepts(schema, Help, seen) && Extend(out, Help) == out.(help := true)
    ensures Spell(Help) == ["--" + "help"]
  {
    ExtendOne(out, Help);
    assert "--" + "help" == "--help";
  }

  /** An option the parser took is one the schema accepts, and does what the item says. */
  lemma TakenItem(schema: seq<OptSpec>, item: Item, seen: set<string>, out: Parsed)
    requires IsOption(item) && Lookup(schema, item.spec.name) == Some(item.spec) && item.spec.value == !item.Flagged?
    requires Accept(item.spec, ValueOf(item), seen, out).Ok?
    requires item.Spaced? ==> item.value == "-" || !StartsWith(item.value, "-")
    ensures Accepts(schema, item, seen) && Accept(item.spec, ValueOf(item), seen, out) == Ok(Extend(out, item))
  {
    hide Extend, Lookup;
    ExtendOne(out, item);
  }

  lemma LookupNamed(schema: seq<OptSpec>, name: string)
    requires Lookup(schema, name).Some?
    ensures Lookup(schema, name).value.name == name
  {}

  /** A token is its name, and its value after the first '='. */
  lemma Unsplit(arg: string)
    requires StartsWith(arg, "--") && NUL !in arg
    ensures var t := SplitOption(arg);
            && arg == "--" + t.name + (if t.hasValue then "=" + t.value else "")
            && NUL !in t.value && (!t.hasValue ==> t.value == "" && arg == "--" + t.name)
  {
    hide IndexOf;
    var body := arg[2..];
    var cut := IndexOf(body, '=');
    BodyOf(arg);
    if cut < |body| {
      var name, value := body[..cut], body[cut + 1..];
      CutAround(body, cut);
      CatThree("--", name, "=" + value);
      assert SplitOption(arg) == Token(name, true, value);
    } else {
      TakeAll(body);
      CatNil("--" + body);
      assert SplitOption(arg) == Token(body, false, "");
    }
  }

  lemma BodyOf(arg: string)
    requires StartsWith(arg, "--") && NUL !in arg
    ensures |arg| >= 2 && arg == "--" + arg[2..] && NUL !in arg[2..]
  {}

  lemma CutAround(s: string, n: nat)
    requires n < |s|
    ensures s == s[..n] + ([s[n]] + s[n + 1..]) && (NUL !in s ==> NUL !in s[n + 1..])
  {}

  lemma {:induction false} AcceptedIsSpelled(schema: seq<OptSpec>, args: seq<string>, seen: set<string>, out: Parsed)
    returns (items: seq<Item>, tail: Option<seq<string>>)
    requires ParseFrom(schema, args, seen, out).Ok?
    ensures AcceptsAll(schema, items, seen) && args == SpellAll(items) + SpellTail(tail)
    ensures tail.Some? ==> forall k :: 0 <= k < |tail.value| ==> NUL !in tail.value[k]
    decreases |args|
  {
    hide Extend, Accepts, StepOption, Spell;
    if args == [] {
      items, tail := [], None;
    } else if args[0] == "--" {
      items, tail := [], Some(args[1..]);
      TailIsClean(args[1..]);
      assert args == ["--"] + args[1..];
    } else {
      var step := StepArg(schema, args, seen, out);
      var item := ItemOfStep(schema, args, seen, out);
      var rest: seq<Item>;
      rest, tail := AcceptedIsSpelled(schema, step.args, step.seen, step.out);
      items := [item] + rest;
      assert items[1..] == rest;
      CatThree(Spell(item), SpellAll(rest), SpellTail(tail));
    }
  }

  lemma TailIsClean(tail: seq<string>)
    requires !exists w :: w in tail && NUL in w
    ensures forall k :: 0 <= k < |tail| ==> NUL !in tail[k]
  {
    forall k | 0 <= k < |tail| ensures NUL !in tail[k] { assert tail[k] in tail; }
  }

  lemma ItemOfStep(schema: seq<OptSpec>, args: seq<string>, seen: set<string>, out: Parsed) returns (item: Item)
    requires args != [] && args[0] != "--" && StepArg(schema, args, seen, out).Next?
    ensures Accepts(schema, item, seen) && args == Spell(item) + StepArg(schema, args, seen, out).args
    ensures StepArg(schema, args, seen, out).seen == Seen(seen, item)
    ensures StepArg(schema, args, seen, out).out == Extend(out, item)
  {
    hide Extend, Lookup, StepOption;
    if !StartsWith(args[0], "-") || args[0] == "-" {
      item := Word(args[0]);
      assert args == [args[0]] + args[1..];
      ExtendOne(out, item);
    } else {
      item := ItemOfOption(schema, args, seen, out);
    }
  }

  /** The parser accepts exactly the argument lists the grammar spells, and gives them their meaning:
      options and positionals in order in either form, flags, the terminator, help, dropped and
      stripped options, and nothing else. */
  lemma ParserReadsGrammar(schema: seq<OptSpec>, args: seq<string>)
    requires SchemaOk(schema)
    ensures Parse(schema, args).Ok? <==>
              exists items, tail :: Correct(schema, items, tail) && args == SpellAll(items) + SpellTail(tail)
    ensures forall items, tail :: Correct(schema, items, tail) && args == SpellAll(items) + SpellTail(tail) ==>
              Parse(schema, args) == Ok(Meaning(items, tail))
  {
    hide Correct, Meaning, SpellAll, SpellTail, ParseFrom;
    if Parse(schema, args).Ok? {
      var items, tail := AcceptedIsSpelled(schema, args, {}, Nothing);
      assert Correct(schema, items, tail) by { AcceptedMeansCorrect(schema, items, tail); }
    }
    forall items, tail | Correct(schema, items, tail) && args == SpellAll(items) + SpellTail(tail)
      ensures Parse(schema, args) == Ok(Meaning(items, tail))
    {
      CorrectParses(schema, items, tail);
    }
  }

  lemma AcceptedMeansCorrect(schema: seq<OptSpec>, items: seq<Item>, tail: Option<seq<string>>)
    requires AcceptsAll(schema, items, {})
    requires tail.Some? ==> forall k :: 0 <= k < |tail.value| ==> NUL !in tail.value[k]
    ensures Correct(schema, items, tail)
  {
    hide ItemFits, ValueFits;
    AcceptedIsCorrect(schema, items, {});
  }
}
