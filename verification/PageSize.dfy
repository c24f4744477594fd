/** What an allowed call is rewritten to before it runs: the size of a page. */
module PageSize {
  import opened Allowlist
  import opened Calls
  import opened Policy
  import ArgGrammar
  import Tree
  import Decimal

  /** The parts of a call the size of its page depends on. */
  datatype PageCall = PageCall(overlay: bool, files: seq<FileRef>, opts: seq<Opt>, targets: seq<Target>)

  predicate HasOpt(opts: seq<Opt>, name: string) { exists k :: 0 <= k < |opts| && opts[k].name == name }

  predicate IsSize(opt: Opt) { opt.name == "size-percent" || opt.name == "width" || opt.name == "height" }

  predicate Sized(opts: seq<Opt>) { HasOpt(opts, "size-percent") || HasOpt(opts, "width") || HasOpt(opts, "height") }

  function WithoutSize(opts: seq<Opt>): seq<Opt> {
    if opts == [] then [] else (if IsSize(opts[0]) then [] else [opts[0]]) + WithoutSize(opts[1..])
  }

  predicate IsPage(c: PageCall) { c.overlay && (c.files != [] || HasOpt(c.opts, "url")) && |c.targets| == 1 }

  function NoSide(c: PageCall): PageCall
    requires |c.targets| == 1
  {
    c.(targets := [c.targets[0].(side := "")])
  }

  /** sizePage, with the user's default size as a percent. */
  function SizePage(c: PageCall, percent: int): PageCall {
    if !IsPage(c) then c
    else
      var t := c.targets[0];
      if !t.wholeRow then if !Sized(c.opts) || t.side == "" then c else c.(opts := WithoutSize(c.opts))
      else if Sized(c.opts) then NoSide(c)
      else if percent <= 0 || percent >= 100 then c
      else NoSide(c.(opts := c.opts + [Opt("size-percent", Decimal.Itoa(percent), false, ArgGrammar.Plain)]))
  }

  lemma {:induction false} WithoutSizeIs(opts: seq<Opt>)
    ensures !Sized(WithoutSize(opts)) && (!Sized(opts) ==> WithoutSize(opts) == opts)
    ensures WithoutSize(WithoutSize(opts)) == WithoutSize(opts)
  {
    if opts != [] {
      WithoutSizeIs(opts[1..]);
      var rest := WithoutSize(opts[1..]);
      if IsSize(opts[0]) {
        assert [] + rest == rest;
        assert HasOpt(opts, opts[0].name);
      } else {
        forall k | 0 <= k < |WithoutSize(opts)| ensures !IsSize(WithoutSize(opts)[k]) {
          if k > 0 { assert rest[k - 1] == WithoutSize(opts)[k] && (HasOpt(rest, rest[k - 1].name)); }
        }
        assert ([opts[0]] + rest)[1..] == rest;
        if !Sized(opts) { TailUnsized(opts); }
      }
    }
  }

  lemma TailUnsized(opts: seq<Opt>)
    requires opts != [] && !Sized(opts)
    ensures !Sized(opts[1..])
  {
    forall k | 0 <= k < |opts[1..]| ensures !IsSize(opts[1..][k]) {
      assert opts[k + 1] == opts[1..][k] && HasOpt(opts, opts[k + 1].name);
    }
  }

  lemma {:induction false} WithoutSizeSnoc(opts: seq<Opt>, o: Opt)
    ensures WithoutSize(opts + [o]) == WithoutSize(opts) + (if IsSize(o) then [] else [o])
  {
    if opts == [] {
      assert opts + [o] == [o] && [o][1..] == [];
    } else {
      assert (opts + [o])[1..] == opts[1..] + [o];
      WithoutSizeSnoc(opts[1..], o);
    }
  }

  ghost predicate Gives(opts: seq<Opt>, name: string) { exists opt :: opt in opts && opt.name == name }

  lemma GivesIs(opts: seq<Opt>, name: string)
    ensures Gives(opts, name) <==> HasOpt(opts, name)
  {
    if k :| 0 <= k < |opts| && opts[k].name == name { assert opts[k] in opts; }
    if opt :| opt in opts && opt.name == name {
      var k :| 0 <= k < |opts| && opts[k] == opt;
    }
  }

  /** A size is given as a percentage, a width or a height. */
  ghost predicate GivesSize(opts: seq<Opt>) {
    Gives(opts, "size-percent") || Gives(opts, "width") || Gives(opts, "height")
  }

  lemma SizedIs(opts: seq<Opt>)
    ensures GivesSize(opts) <==> Sized(opts)
  {
    GivesIs(opts, "size-percent");
    GivesIs(opts, "width");
    GivesIs(opts, "height");
  }

  /** An overlay of a file or a URL, that is a page, runs at a size only where it has no side, and loses
      its side exactly when its whole row is the host's and the caller or the user gave a size; a size
      given for one side of a row is dropped. Its other options stay as they are. */
  lemma SizedPage(c: PageCall, percent: int)
    requires c.overlay && (c.files != [] || Gives(c.opts, "url")) && |c.targets| == 1
    ensures var out, t := SizePage(c, percent), c.targets[0];
            && |out.targets| == 1 && out.targets[0].(side := t.side) == t
            && (GivesSize(out.opts) <==>
                  if GivesSize(c.opts) then t.side == "" || t.wholeRow else t.wholeRow && 0 < percent < 100)
            && (GivesSize(out.opts) ==> out.targets[0].side == "")
            && WithoutSize(out.opts) == WithoutSize(c.opts)
            && (t.side != "" ==> (out.targets[0].side == "" <==> t.wholeRow && (GivesSize(c.opts) || 0 < percent < 100)))
            && (GivesSize(c.opts) && GivesSize(out.opts) ==> out.opts == c.opts)
  {
    SizedIs(c.opts);
    SizedIs(SizePage(c, percent).opts);
    GivesIs(c.opts, "url");
    WithoutSizeIs(c.opts);
    if 0 < percent < 100 {
      var o := Opt("size-percent", Decimal.Itoa(percent), false, ArgGrammar.Plain);
      WithoutSizeSnoc(c.opts, o);
      assert (c.opts + [o])[|c.opts|] == o;
    }
  }

  /** What is no page, a program in an overlay among it, keeps its size and its side. */
  lemma NoPageIsKept(c: PageCall, percent: int)
    requires !c.overlay || (c.files == [] && !Gives(c.opts, "url")) || |c.targets| != 1
    ensures SizePage(c, percent) == c
  {
    GivesIs(c.opts, "url");
  }

  /** So an allowed page covers both panes of a split row only where the host owns the whole row. */
  lemma PageCoversOwnRowOnly(a: Ask, row: Tree.Row, s: Tree.Surface, c: PageCall, percent: int)
    requires a.leaf.scope == PaneScope && Chosen(a, row, s) && Decide(a).Allow?
    requires c.targets == Decide(a).targets && row.hasSplit && Tree.IsPane(s)
    requires SizePage(c, percent).targets[0].side == ""
    ensures WholeRow(a, row)
  {
    PaneContract(a, row, s);
    assert c.targets[0] == PaneTarget(a, row, s) && s.kind != "";
  }
}
