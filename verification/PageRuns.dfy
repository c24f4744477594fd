/** Everything that may happen to host pages at once, as a labelled transition system: the calls that
    open them, their watchers, POSTs, submits and closes from the host, a host that goes away, and
    the end of the daemon. Each section under a lock is one step. */
module PageRuns {
  import opened Results
  import opened Sequences
  import opened PageShim
  import Tree

  const MAX_MISSES := 8

  /** What one poll of agterm's tree says about a page. */
  datatype Poll = Listed | Gone | RowMissing | Unreadable

  /** What a call reports at its end. */
  datatype Report = Exit(code: nat) | Outcome(answer: Answer)

  /** Who has to release a page, and how far they are: the call that registered it, or the watcher it
      was handed to. `polls` is what the polls said, `missing` the loop's counter. */
  datatype Owner =
    | Opening(block: bool)                          // agtermctl runs
    | Bound(block: bool)                            // agterm's page id is recorded
    | Waiting(polls: seq<Poll>, missing: nat)       // the call waits for its page
    | Watching(polls: seq<Poll>, missing: nat)      // a watcher does
    | Finished                                      // the wait returned true
    | Leaving(report: Report)                       // about to release
    | Done(report: Report)

  /** A submit or close from the host: the pages seen in the slot, those still to be looked at, and
      the one that agterm shows. */
  datatype Drive = Drive(seen: set<Token>, todo: set<Token>, picked: Option<Token>, move: Attempt)

  /** releaseHost: the pages collected, and those still to be released. */
  datatype Sweep = Sweep(all: set<Token>, todo: set<Token>)

  datatype State = State(
    reg: Registry, history: seq<Token>, recs: map<Token, Rec>, ctls: map<Token, nat>, owners: map<Token, Owner>,
    dirs: set<Token>, shut: set<nat>, posts: map<nat, Token>, drives: map<nat, Drive>, sweeps: map<nat, Sweep>)

  datatype CallStep =
    | Register(ctl: nat, host: string, row: string, side: string, block: bool, serves: bool)
    | Opened(id: string) | OpenFailed(code: nat)
    | Hand | Block | Polled(poll: Poll) | WaitDone | CtxEnds | ReadOutcome | Release

  datatype HelperStep =
    | PostFound(token: Token) | PostMove(submit: bool, text: string) | PostRefused
    | DriveStart(host: string, row: string, side: string, submit: bool, text: string)
    | DriveNext(token: Token, shown: bool) | DriveEnd
    | SweepStart(host: string) | SweepOne(token: Token) | SweepEnd

  /** A step of the owner of a page, of a POST, drive or sweep, the end of a host's runtime, or the
      end of the daemon. */
  datatype Label = OfCall(token: Token, call: CallStep) | OfHelper(id: nat, helper: HelperStep) | Shut(ctl: nat) | CloseShim

  // ----- the transitions -----

  predicate Owns(s: State, t: Token) { t in s.owners && t in s.recs && t in s.ctls }

  predicate CallEnabled(s: State, t: Token, l: CallStep) {
    match l
    case Register(_, _, _, _, _, _) => t !in s.recs
    case Opened(id) => Owns(s, t) && s.owners[t].Opening? && id != ""
    case OpenFailed(code) => Owns(s, t) && s.owners[t].Opening? && code > 0
    case Hand => Owns(s, t) && s.owners[t] == Bound(false)
    case Block => Owns(s, t) && s.owners[t] == Bound(true)
    case Polled(_) => Owns(s, t) && (s.owners[t].Waiting? || s.owners[t].Watching?)
    case WaitDone => Owns(s, t) && (s.owners[t].Waiting? || s.owners[t].Watching?) && s.recs[t].state != Open
    case CtxEnds => Owns(s, t) && (s.owners[t].Waiting? || s.owners[t].Watching?)
    case ReadOutcome => Owns(s, t) && s.owners[t].Finished?
    case Release => Owns(s, t) && s.owners[t].Leaving?
  }

  predicate HelperEnabled(s: State, id: nat, l: HelperStep) {
    match l
    case PostFound(t) => id !in s.posts && t in s.reg.pages && t in s.recs
    case PostMove(_, _) => id in s.posts && s.posts[id] in s.recs && s.recs[s.posts[id]].pageId != ""
    case PostRefused => id in s.posts
    case DriveStart(_, _, _, _, _) => id !in s.drives
    case DriveNext(t, shown) =>
      id in s.drives && t in s.drives[id].todo && t in s.recs && (shown ==> s.recs[t].pageId != "")
    case DriveEnd =>
      && id in s.drives && s.drives[id].todo == {}
      && (s.drives[id].picked.Some? ==> s.drives[id].picked.value in s.recs)
    case SweepStart(_) => id !in s.sweeps
    case SweepOne(t) => id in s.sweeps && t in s.sweeps[id].todo
    case SweepEnd => id in s.sweeps && s.sweeps[id].todo == {}
  }

  predicate Enabled(s: State, l: Label) {
    match l
    case OfCall(t, step) => CallEnabled(s, t, step)
    case OfHelper(id, step) => HelperEnabled(s, id, step)
    case Shut(_) => true
    case CloseShim => true
  }

  function MoveOf(submit: bool, text: string): Attempt {
    if submit then Attempt(Submitted, text) else Attempt(Dismissed, "")
  }

  const DISMISS := Attempt(Dismissed, "")

  /** transition, on the page itself. */
  function Strike(s: State, t: Token, a: Attempt): State
    requires t in s.recs
  { s.(recs := s.recs[t := Moved(s.recs[t], a)]) }

  function Turn(s: State, t: Token, o: Owner): State { s.(owners := s.owners[t := o]) }

  /** release: the page goes if it is still there, its temp directory in any case. */
  function Let(s: State, t: Token): State {
    s.(reg := Dropped(s.reg, t), history := History(s.reg, s.history, t), dirs := s.dirs - {t})
  }

  /** The open pages of the host in a slot: a page that covers the whole row is in every slot. */
  function InSlot(s: State, host: string, row: string, side: string): set<Token> {
    set t | t in s.reg.pages && t in s.recs && s.recs[t].host == host && Tree.Same(s.recs[t].row, row)
            && (s.recs[t].side == side || s.recs[t].side == "") && s.recs[t].state == Open
  }

  function Begun(s: State, t: Token, ctl: nat, rec: Rec, block: bool): State {
    s.(reg := Added(s.reg, t, rec.host), recs := s.recs[t := rec], ctls := s.ctls[t := ctl],
       owners := s.owners[t := Opening(block)], dirs := s.dirs + {t})
  }

  /** The counter after one more poll. */
  function Counted(missing: nat, poll: Poll): nat {
    if poll.RowMissing? then missing + 1 else if poll.Gone? then missing else 0
  }

  function Told(o: Owner, poll: Poll): Owner
    requires o.Waiting? || o.Watching?
  {
    o.(polls := o.polls + [poll], missing := Counted(o.missing, poll))
  }

  /** The poll makes the loop dismiss the page. */
  predicate GivesUp(missing: nat, poll: Poll) { poll.Gone? || (poll.RowMissing? && Counted(missing, poll) >= MAX_MISSES) }

  function ApplyCall(s: State, t: Token, l: CallStep): State
    requires CallEnabled(s, t, l)
  {
    match l
    case Register(ctl, host, row, side, block, serves) =>
      if CountIn(s.reg.perHost, host) >= MAX_PAGES || !serves then s
      else Begun(s, t, ctl, Rec(host, row, side, Open, "", ""), block)
    case Opened(id) => Turn(s.(recs := s.recs[t := Named(s.recs[t], id)]), t, Bound(s.owners[t].block))
    case OpenFailed(code) => Turn(s, t, Leaving(Exit(code)))
    case Hand => Turn(s, t, if s.ctls[t] in s.shut then Leaving(Exit(0)) else Watching([], 0))
    case Block => Turn(s, t, Waiting([], 0))
    case Polled(poll) =>
      var s1 := Turn(s, t, Told(s.owners[t], poll));
      if GivesUp(s.owners[t].missing, poll) then Strike(s1, t, DISMISS) else s1
    case WaitDone => Turn(s, t, if s.owners[t].Waiting? then Finished else Leaving(Exit(0)))
    case CtxEnds => Turn(s, t, Leaving(Exit(if s.owners[t].Waiting? then 1 else 0)))
    case ReadOutcome => Turn(s, t, Leaving(Outcome(OutcomeOf(s.recs[t]))))
    case Release => Turn(Let(s, t), t, Done(s.owners[t].report))
  }

  function AfterDrive(s: State, id: nat, t: Token, shown: bool): State
    requires HelperEnabled(s, id, DriveNext(t, shown))
  {
    var d := s.drives[id];
    if d.picked.None? && shown then s.(drives := s.drives[id := d.(todo := d.todo - {t}, picked := Some(t))])
    else Strike(s, t, DISMISS).(drives := s.drives[id := d.(todo := d.todo - {t})])
  }

  function ApplyHelper(s: State, id: nat, l: HelperStep): State
    requires HelperEnabled(s, id, l)
  {
    match l
    case PostFound(t) => s.(posts := s.posts[id := t])
    case PostMove(submit, text) => Strike(s, s.posts[id], MoveOf(submit, text)).(posts := s.posts - {id})
    case PostRefused => s.(posts := s.posts - {id})
    case DriveStart(host, row, side, submit, text) =>
      var found := InSlot(s, host, row, side);
      s.(drives := s.drives[id := Drive(found, found, None, MoveOf(submit, text))])
    case DriveNext(t, shown) => AfterDrive(s, id, t, shown)
    case DriveEnd =>
      var d := s.drives[id];
      (if d.picked.Some? then Strike(s, d.picked.value, d.move) else s).(drives := s.drives - {id})
    case SweepStart(host) =>
      var found := Tokens(s.reg.pages, host);
      s.(sweeps := s.sweeps[id := Sweep(found, found)])
    case SweepOne(t) => Let(s, t).(sweeps := s.sweeps[id := s.sweeps[id].(todo := s.sweeps[id].todo - {t})])
    case SweepEnd => s.(sweeps := s.sweeps - {id})
  }

  function Apply(s: State, l: Label): State
    requires Enabled(s, l)
  {
    match l
    case OfCall(t, step) => ApplyCall(s, t, step)
    case OfHelper(id, step) => ApplyHelper(s, id, step)
    case Shut(ctl) => s.(shut := s.shut + {ctl})
    case CloseShim => s.(reg := Cleared(s.reg), dirs := s.dirs - s.reg.pages.Keys)
  }

  const START := State(Registry(map[], map[], []), [], map[], map[], map[], {}, {}, map[], map[], map[])

  // ----- the miss counter -----

  /** How many polls at the end found the row missing. */
  function Misses(polls: seq<Poll>): nat {
    if polls == [] || polls[|polls| - 1] != RowMissing then 0 else 1 + Misses(polls[..|polls| - 1])
  }

  lemma {:induction false} MissesMeans(polls: seq<Poll>, n: nat)
    ensures Misses(polls) >= n <==> |polls| >= n && forall k :: |polls| - n <= k < |polls| ==> polls[k] == RowMissing
  {
    if polls != [] && n > 0 {
      var last := |polls| - 1;
      MissesMeans(polls[..last], n - 1);
      if polls[last] == RowMissing {
        assert Misses(polls) >= n <==> Misses(polls[..last]) >= n - 1;
        assert forall k :: 0 <= k < last ==> polls[..last][k] == polls[k];
      }
    }
  }

  lemma MissesSnoc(polls: seq<Poll>, poll: Poll)
    ensures Misses(polls + [poll]) == if poll.RowMissing? then Misses(polls) + 1 else 0
  {
    assert (polls + [poll])[..|polls|] == polls;
  }

  // ----- the invariant -----

  /** While its page is open a wait counts the misses, and a report of an outcome is the page's. */
  ghost predicate OwnerOk(r: Rec, o: Owner) {
    match o
    case Waiting(polls, missing) => r.state == Open ==> missing == Misses(polls)
    case Watching(polls, missing) => r.state == Open ==> missing == Misses(polls)
    case Finished => r.state != Open
    case Leaving(Outcome(answer)) => r.state != Open && answer == OutcomeOf(r)
    case Done(Outcome(answer)) => r.state != Open && answer == OutcomeOf(r)
    case _ => true
  }

  /** A known page has an owner; one in the registry or with a temp directory has one who is not done. */
  ghost predicate TokenOk(s: State, t: Token) {
    && (t in s.recs <==> t in s.owners) && (t in s.recs <==> t in s.ctls)
    && (t in s.recs ==> OwnerOk(s.recs[t], s.owners[t]))
    && (t in s.reg.pages ==> t in s.recs && !s.owners[t].Done? && s.reg.pages[t] == s.recs[t].host)
    && (t in s.dirs ==> t in s.recs && !s.owners[t].Done?)
    && (t in s.history ==> t in s.recs)
  }

  ghost predicate OwnersOk(s: State) { forall t :: TokenOk(s, t) }

  /** Two states in which everything about a token is the same. */
  ghost predicate SameToken(s: State, s': State, t: Token) {
    && (t in s.recs <==> t in s'.recs) && (t in s.owners <==> t in s'.owners) && (t in s.ctls <==> t in s'.ctls)
    && (t in s.recs && t in s.owners ==> s'.recs[t] == s.recs[t] && s'.owners[t] == s.owners[t])
    && (t in s'.reg.pages ==> t in s.reg.pages && s'.reg.pages[t] == s.reg.pages[t])
    && (t in s'.dirs ==> t in s.dirs) && (t in s'.history ==> t in s.history)
  }

  lemma SameTokenOk(s: State, s': State, t: Token)
    requires TokenOk(s, t) && SameToken(s, s', t)
    ensures TokenOk(s', t)
  {}

  /** Only one token's page or owner changed. */
  lemma OneToken(s: State, s': State, t: Token)
    requires OwnersOk(s) && TokenOk(s', t) && forall u :: u != t ==> SameToken(s, s', u)
    ensures OwnersOk(s')
  {
    hide TokenOk, SameToken;
    forall u ensures TokenOk(s', u) {
      if u != t {
        assert TokenOk(s, u);
        SameTokenOk(s, s', u);
      }
    }
  }

  ghost predicate DriveOk(s: State, d: Drive) {
    && d.todo <= d.seen <= s.recs.Keys && d.move.next != Open
    && (d.picked.Some? ==> d.picked.value in d.seen - d.todo)
    && (forall t :: t in d.seen - d.todo && d.picked != Some(t) ==> s.recs[t].state != Open)
  }

  ghost predicate SweepOk(s: State, w: Sweep) {
    w.todo <= w.all <= s.recs.Keys && forall t :: t in w.all - w.todo ==> t !in s.reg.pages
  }

  ghost predicate HelpersOk(s: State) {
    && (forall id :: id in s.posts ==> s.posts[id] in s.recs)
    && (forall id :: id in s.drives ==> DriveOk(s, s.drives[id]))
    && (forall id :: id in s.sweeps ==> SweepOk(s, s.sweeps[id]))
  }

  ghost predicate Inv(s: State) { RegistryOk(s.reg, s.history) && OwnersOk(s) && HelpersOk(s) }

  lemma StartInv()
    ensures Inv(START)
  {
    forall h ensures CountOf(map[], h) == 0 { assert Tokens(map[], h) == {}; }
    assert forall t :: TokenOk(START, t);
  }

  /** A page keeps its place and its first id, and once not open its state and value. */
  ghost predicate Grown(r: Rec, r': Rec) {
    && r'.host == r.host && r'.row == r.row && r'.side == r.side
    && (r.pageId != "" ==> r'.pageId == r.pageId)
    && (r.state != Open ==> r'.state == r.state && r'.value == r.value)
  }

  /** What every step leaves: known pages grow, and none comes back to the registry. */
  ghost predicate Later(s: State, s': State) {
    && (forall t :: t in s.recs ==> t in s'.recs && Grown(s.recs[t], s'.recs[t]))
    && (forall t :: t in s.recs && t in s'.reg.pages ==> t in s.reg.pages)
  }

  lemma DriveStays(s: State, s': State, d: Drive)
    requires DriveOk(s, d) && Later(s, s')
    ensures DriveOk(s', d)
  {}

  lemma SweepStays(s: State, s': State, w: Sweep)
    requires SweepOk(s, w) && Later(s, s')
    ensures SweepOk(s', w)
  {}

  lemma HelpersStay(s: State, s': State)
    requires HelpersOk(s) && Later(s, s') && s'.posts == s.posts && s'.drives == s.drives && s'.sweeps == s.sweeps
    ensures HelpersOk(s')
  {
    hide DriveOk, SweepOk;
    forall id | id in s.drives ensures DriveOk(s', s'.drives[id]) { DriveStays(s, s', s.drives[id]); }
    forall id | id in s.sweeps ensures SweepOk(s', s'.sweeps[id]) { SweepStays(s, s', s.sweeps[id]); }
  }

  // ----- every step keeps the invariant -----

  lemma MovedOwner(r: Rec, a: Attempt, o: Owner)
    requires OwnerOk(r, o) && a.next != Open
    ensures OwnerOk(Moved(r, a), o) && Grown(r, Moved(r, a)) && Moved(r, a).state != Open
  {}

  lemma StrikeOk(s: State, t: Token, a: Attempt)
    requires Inv(s) && t in s.recs && a.next != Open
    ensures Inv(Strike(s, t, a)) && Later(s, Strike(s, t, a)) && Strike(s, t, a).recs[t].state != Open
  {
    hide RegistryOk, HelpersOk, OwnerOk, Grown, Moved;
    var s' := Strike(s, t, a);
    assert TokenOk(s, t);
    MovedOwner(s.recs[t], a, s.owners[t]);
    OneToken(s, s', t);
    forall u | u in s.recs ensures Grown(s.recs[u], s'.recs[u]) { SameGrown(s.recs[u]); }
    assert Moved(s.recs[t], a).host == s.recs[t].host by { GrownHost(s.recs[t], Moved(s.recs[t], a)); }
    HelpersStay(s, s');
  }

  lemma SameGrown(r: Rec)
    ensures Grown(r, r)
  {}

  lemma GrownHost(r: Rec, r': Rec)
    requires Grown(r, r')
    ensures r'.host == r.host
  {}

  lemma SameLater(s: State, s': State)
    requires s'.recs == s.recs && s'.reg == s.reg
    ensures Later(s, s')
  {}

  lemma TurnOk(s: State, t: Token, o: Owner)
    requires Inv(s) && t in s.recs && OwnerOk(s.recs[t], o) && (o.Done? ==> t !in s.reg.pages && t !in s.dirs)
    ensures Inv(Turn(s, t, o)) && Later(s, Turn(s, t, o))
  {
    hide RegistryOk, HelpersOk, OwnerOk, Later;
    assert TokenOk(s, t);
    SameLater(s, Turn(s, t, o));
    OneToken(s, Turn(s, t, o), t);
    HelpersStay(s, Turn(s, t, o));
  }

  lemma NamedOwner(r: Rec, id: string, o: Owner)
    requires OwnerOk(r, o)
    ensures OwnerOk(Named(r, id), o) && Grown(r, Named(r, id)) && Named(r, id).host == r.host
  {}

  lemma NameOk(s: State, t: Token, id: string)
    requires Inv(s) && t in s.recs
    ensures var s' := s.(recs := s.recs[t := Named(s.recs[t], id)]); Inv(s') && Later(s, s')
  {
    hide RegistryOk, HelpersOk, OwnerOk, Grown, Named;
    var s' := s.(recs := s.recs[t := Named(s.recs[t], id)]);
    assert TokenOk(s, t);
    NamedOwner(s.recs[t], id, s.owners[t]);
    OneToken(s, s', t);
    forall u | u in s.recs ensures Grown(s.recs[u], s'.recs[u]) { SameGrown(s.recs[u]); }
    HelpersStay(s, s');
  }

  lemma LetOk(s: State, t: Token)
    requires Inv(s) && t in s.recs
    ensures var s' := Let(s, t); Inv(s') && Later(s, s') && t !in s'.reg.pages && t !in s'.dirs
  {
    hide RegistryOk, HelpersOk, OwnerOk;
    var s' := Let(s, t);
    assert TokenOk(s, t);
    DroppedOk(s.reg, s.history, t);
    DroppedPages(s.reg, t);
    OneToken(s, s', t);
    assert Later(s, s') by { forall u | u in s.recs ensures Grown(s.recs[u], s'.recs[u]) { SameGrown(s.recs[u]); } }
    HelpersStay(s, s');
  }

  lemma DroppedPages(r: Registry, t: Token)
    ensures Dropped(r, t).pages == r.pages - {t}
  {}

  lemma BegunOk(s: State, t: Token, ctl: nat, rec: Rec, block: bool)
    requires Inv(s) && t !in s.recs && CountIn(s.reg.perHost, rec.host) < MAX_PAGES && rec.state == Open
    ensures Inv(Begun(s, t, ctl, rec, block)) && Later(s, Begun(s, t, ctl, rec, block))
  {
    hide RegistryOk, HelpersOk, OwnerOk, Grown, Added;
    var s' := Begun(s, t, ctl, rec, block);
    assert TokenOk(s, t);
    AddedOk(s.reg, s.history, t, rec.host);
    AddedPages(s.reg, t, rec.host);
    PlainOwner(rec, Opening(block));
    OneToken(s, s', t);
    forall u | u in s.recs ensures Grown(s.recs[u], s'.recs[u]) { SameGrown(s.recs[u]); }
    HelpersStay(s, s');
  }

  lemma AddedPages(r: Registry, t: Token, host: string)
    ensures Added(r, t, host).pages == r.pages[t := host]
  {}

  lemma CloseOk(s: State)
    requires Inv(s)
    ensures Inv(Apply(s, CloseShim)) && Later(s, Apply(s, CloseShim))
  {
    hide RegistryOk, HelpersOk, TokenOk;
    var s' := Apply(s, CloseShim);
    ClearedOk(s.reg, s.history);
    forall t ensures TokenOk(s', t) {
      assert TokenOk(s, t);
      SameTokenOk(s, s', t);
    }
    assert Later(s, s') by { forall u | u in s.recs ensures Grown(s.recs[u], s'.recs[u]) { SameGrown(s.recs[u]); } }
    HelpersStay(s, s');
  }

  /** Only what the helpers remember changes. */
  lemma HelperOk(s: State, s': State)
    requires Inv(s) && s' == s.(posts := s'.posts, drives := s'.drives, sweeps := s'.sweeps)
    requires forall id :: id in s'.posts ==> s'.posts[id] in s.recs
    requires forall id :: id in s'.drives ==> DriveOk(s, s'.drives[id])
    requires forall id :: id in s'.sweeps ==> SweepOk(s, s'.sweeps[id])
    ensures Inv(s') && Later(s, s')
  {
    hide RegistryOk, TokenOk, DriveOk, SweepOk, Later;
    SameLater(s, s');
    forall t ensures TokenOk(s', t) {
      assert TokenOk(s, t);
      SameTokenOk(s, s', t);
    }
    forall id | id in s'.drives ensures DriveOk(s', s'.drives[id]) { DriveStays(s, s', s'.drives[id]); }
    forall id | id in s'.sweeps ensures SweepOk(s', s'.sweeps[id]) { SweepStays(s, s', s'.sweeps[id]); }
  }

  lemma LaterTwice(s: State, s1: State, s2: State)
    requires Later(s, s1) && Later(s1, s2)
    ensures Later(s, s2)
  {
    hide Grown;
    forall t | t in s.recs ensures t in s2.recs && Grown(s.recs[t], s2.recs[t]) {
      GrownTwice(s.recs[t], s1.recs[t], s2.recs[t]);
    }
  }

  lemma GrownTwice(r: Rec, r1: Rec, r2: Rec)
    requires Grown(r, r1) && Grown(r1, r2)
    ensures Grown(r, r2)
  {}

  lemma CallKeepsInv(s: State, t: Token, l: CallStep)
    requires Inv(s) && CallEnabled(s, t, l)
    ensures Inv(ApplyCall(s, t, l)) && Later(s, ApplyCall(s, t, l))
  {
    hide Inv, OwnerOk, Later;
    if !l.Register? { OwnerIsOk(s, t); }
    match l
    case Register(ctl, host, row, side, block, serves) =>
      if CountIn(s.reg.perHost, host) >= MAX_PAGES || !serves {
        SameLater(s, s);
      } else {
        BegunOk(s, t, ctl, Rec(host, row, side, Open, "", ""), block);
      }
    case Opened(id) =>
      var s1 := s.(recs := s.recs[t := Named(s.recs[t], id)]);
      NameOk(s, t, id);
      PlainOwner(s1.recs[t], Bound(s.owners[t].block));
      TurnOk(s1, t, Bound(s.owners[t].block));
      LaterTwice(s, s1, ApplyCall(s, t, l));
    case Polled(poll) => PolledOk(s, t, poll);
    case Release =>
      ReleasedOk(s, t);
    case _ =>
      var o := ApplyCall(s, t, l).owners[t];
      NextOwner(s, t, l);
      TurnOk(s, t, o);
  }

  lemma OwnerIsOk(s: State, t: Token)
    requires Inv(s) && t in s.owners
    ensures t in s.recs && OwnerOk(s.recs[t], s.owners[t])
  {
    assert TokenOk(s, t);
  }

  lemma PlainOwner(r: Rec, o: Owner)
    requires o.Opening? || o.Bound?
    ensures OwnerOk(r, o)
  {}

  /** The steps that only turn the owner turn it to a consistent place. */
  lemma NextOwner(s: State, t: Token, l: CallStep)
    requires CallEnabled(s, t, l) && !l.Register? && !l.Opened? && !l.Polled? && !l.Release?
    requires OwnerOk(s.recs[t], s.owners[t])
    ensures var o := ApplyCall(s, t, l).owners[t];
            ApplyCall(s, t, l) == Turn(s, t, o) && OwnerOk(s.recs[t], o) && !o.Done?
  {}

  lemma ToldOk(r: Rec, o: Owner, poll: Poll)
    requires (o.Waiting? || o.Watching?) && OwnerOk(r, o) && !poll.Gone?
    ensures OwnerOk(r, Told(o, poll))
  {
    MissesSnoc(o.polls, poll);
  }

  lemma ToldMoved(r: Rec, o: Owner, poll: Poll)
    requires o.Waiting? || o.Watching?
    ensures OwnerOk(Moved(r, DISMISS), Told(o, poll))
  {}

  lemma PolledOk(s: State, t: Token, poll: Poll)
    requires Inv(s) && CallEnabled(s, t, Polled(poll))
    ensures Inv(ApplyCall(s, t, Polled(poll))) && Later(s, ApplyCall(s, t, Polled(poll)))
  {
    hide Inv, OwnerOk, Later, Told, Moved;
    var o := s.owners[t];
    OwnerIsOk(s, t);
    if GivesUp(o.missing, poll) {
      var s1 := Strike(s, t, DISMISS);
      StrikeOk(s, t, DISMISS);
      ToldMoved(s.recs[t], o, poll);
      NeverDone(o, poll);
      TurnOk(s1, t, Told(o, poll));
      LaterTwice(s, s1, Turn(s1, t, Told(o, poll)));
      assert ApplyCall(s, t, Polled(poll)) == Turn(s1, t, Told(o, poll));
    } else {
      ToldOk(s.recs[t], o, poll);
      NeverDone(o, poll);
      TurnOk(s, t, Told(o, poll));
    }
  }

  lemma NeverDone(o: Owner, poll: Poll)
    requires o.Waiting? || o.Watching?
    ensures !Told(o, poll).Done?
  {}

  lemma ReleasedOk(s: State, t: Token)
    requires Inv(s) && CallEnabled(s, t, Release)
    ensures Inv(ApplyCall(s, t, Release)) && Later(s, ApplyCall(s, t, Release))
  {
    hide Inv, OwnerOk, Later;
    OwnerIsOk(s, t);
    LetOk(s, t);
    SameReport(s.recs[t], s.owners[t].report);
    TurnOk(Let(s, t), t, Done(s.owners[t].report));
    LaterTwice(s, Let(s, t), ApplyCall(s, t, Release));
  }

  lemma SameReport(r: Rec, report: Report)
    ensures OwnerOk(r, Leaving(report)) <==> OwnerOk(r, Done(report))
  {}

  lemma HelperKeepsInv(s: State, id: nat, l: HelperStep)
    requires Inv(s) && HelperEnabled(s, id, l)
    ensures Inv(ApplyHelper(s, id, l)) && Later(s, ApplyHelper(s, id, l))
  {
    hide RegistryOk, OwnersOk, Later, SweepOk, DriveOk, AfterDrive, InSlot;
    match l
    case PostFound(t) => HelperOk(s, ApplyHelper(s, id, l));
    case PostMove(submit, text) => PostKeepsInv(s, id, MoveOf(submit, text));
    case PostRefused => HelperOk(s, ApplyHelper(s, id, l));
    case DriveStart(host, row, side, submit, text) =>
      FoundDrive(s, host, row, side, MoveOf(submit, text));
      DrivePut(s, id, Drive(InSlot(s, host, row, side), InSlot(s, host, row, side), None, MoveOf(submit, text)));
    case DriveNext(t, shown) => DriveNextKeepsInv(s, id, t, shown);
    case DriveEnd => DriveEndKeepsInv(s, id);
    case SweepStart(host) =>
      FoundSweep(s, host);
      SweepPut(s, id, Sweep(Tokens(s.reg.pages, host), Tokens(s.reg.pages, host)));
    case SweepOne(t) => SweepOneKeepsInv(s, id, t);
    case SweepEnd => HelperOk(s, ApplyHelper(s, id, l));
  }

  lemma FoundDrive(s: State, host: string, row: string, side: string, a: Attempt)
    requires a.next != Open
    ensures DriveOk(s, Drive(InSlot(s, host, row, side), InSlot(s, host, row, side), None, a))
  {}

  lemma FoundSweep(s: State, host: string)
    requires OwnersOk(s)
    ensures SweepOk(s, Sweep(Tokens(s.reg.pages, host), Tokens(s.reg.pages, host)))
  {
    forall t | t in Tokens(s.reg.pages, host) ensures t in s.recs { assert TokenOk(s, t); }
  }

  lemma PostKeepsInv(s: State, id: nat, a: Attempt)
    requires Inv(s) && id in s.posts && s.posts[id] in s.recs && a.next != Open
    ensures var s' := Strike(s, s.posts[id], a).(posts := s.posts - {id}); Inv(s') && Later(s, s')
  {
    hide RegistryOk, OwnersOk, DriveOk, SweepOk, Later;
    var s1 := Strike(s, s.posts[id], a);
    StrikeOk(s, s.posts[id], a);
    HelperOk(s1, s1.(posts := s1.posts - {id}));
    LaterTwice(s, s1, s1.(posts := s1.posts - {id}));
  }

  lemma DrivePut(s: State, id: nat, d: Drive)
    requires Inv(s) && DriveOk(s, d)
    ensures var s' := s.(drives := s.drives[id := d]); Inv(s') && Later(s, s')
  {
    hide RegistryOk, OwnersOk, Later, DriveOk, SweepOk;
    HelperOk(s, s.(drives := s.drives[id := d]));
  }

  lemma SweepPut(s: State, id: nat, w: Sweep)
    requires Inv(s) && SweepOk(s, w)
    ensures var s' := s.(sweeps := s.sweeps[id := w]); Inv(s') && Later(s, s')
  {
    hide RegistryOk, OwnersOk, Later, DriveOk, SweepOk;
    HelperOk(s, s.(sweeps := s.sweeps[id := w]));
  }

  lemma DriveNextKeepsInv(s: State, id: nat, t: Token, shown: bool)
    requires Inv(s) && HelperEnabled(s, id, DriveNext(t, shown))
    ensures Inv(AfterDrive(s, id, t, shown)) && Later(s, AfterDrive(s, id, t, shown))
  {
    hide RegistryOk, OwnersOk, Later, SweepOk, Moved;
    var d := s.drives[id];
    if d.picked.None? && shown {
      DrivePut(s, id, d.(todo := d.todo - {t}, picked := Some(t)));
    } else {
      var s1 := Strike(s, t, DISMISS);
      StrikeOk(s, t, DISMISS);
      DrivePut(s1, id, d.(todo := d.todo - {t}));
      LaterTwice(s, s1, AfterDrive(s, id, t, shown));
    }
  }

  lemma DriveEndKeepsInv(s: State, id: nat)
    requires Inv(s) && HelperEnabled(s, id, DriveEnd)
    ensures Inv(ApplyHelper(s, id, DriveEnd)) && Later(s, ApplyHelper(s, id, DriveEnd))
  {
    hide RegistryOk, OwnersOk, Later, SweepOk, Moved;
    var d := s.drives[id];
    assert DriveOk(s, d);
    var s1 := if d.picked.Some? then Strike(s, d.picked.value, d.move) else s;
    if d.picked.Some? { StrikeOk(s, d.picked.value, d.move); } else { SameLater(s, s); }
    HelperOk(s1, s1.(drives := s1.drives - {id}));
    LaterTwice(s, s1, s1.(drives := s1.drives - {id}));
  }

  lemma SweepOneKeepsInv(s: State, id: nat, t: Token)
    requires Inv(s) && HelperEnabled(s, id, SweepOne(t))
    ensures Inv(ApplyHelper(s, id, SweepOne(t))) && Later(s, ApplyHelper(s, id, SweepOne(t)))
  {
    hide RegistryOk, OwnersOk, Later, DriveOk;
    var w := s.sweeps[id];
    LetOk(s, t);
    SweepPut(Let(s, t), id, w.(todo := w.todo - {t}));
    LaterTwice(s, Let(s, t), ApplyHelper(s, id, SweepOne(t)));
  }

  lemma ShutOk(s: State, ctl: nat)
    requires Inv(s)
    ensures Inv(s.(shut := s.shut + {ctl})) && Later(s, s.(shut := s.shut + {ctl}))
  {
    hide RegistryOk, HelpersOk, TokenOk;
    var s' := s.(shut := s.shut + {ctl});
    SameLater(s, s');
    forall t ensures TokenOk(s', t) {
      assert TokenOk(s, t);
      SameTokenOk(s, s', t);
    }
    HelpersStay(s, s');
  }

  lemma StepKeepsInv(s: State, l: Label)
    requires Inv(s) && Enabled(s, l)
    ensures Inv(Apply(s, l)) && Later(s, Apply(s, l))
  {
    match l
    case OfCall(t, step) => CallKeepsInv(s, t, step);
    case OfHelper(id, step) => HelperKeepsInv(s, id, step);
    case Shut(ctl) => ShutOk(s, ctl);
    case CloseShim => CloseOk(s);
  }

  // ----- what holds over every run -----

  ghost predicate Run(states: seq<State>, labels: seq<Label>) {
    && |states| == |labels| + 1 && states[0] == START
    && forall i: nat :: i < |labels| ==> Enabled(states[i], labels[i]) && states[i + 1] == Apply(states[i], labels[i])
  }

  lemma {:induction false} RunKeepsInv(states: seq<State>, labels: seq<Label>, i: nat)
    requires Run(states, labels) && i < |states|
    ensures Inv(states[i])
  {
    hide Inv, Apply, Enabled;
    if i == 0 {
      StartInv();
    } else {
      RunKeepsInv(states, labels, i - 1);
      StepKeepsInv(states[i - 1], labels[i - 1]);
    }
  }

  lemma {:induction false} RunGoesOn(states: seq<State>, labels: seq<Label>, i: nat, j: nat)
    requires Run(states, labels) && i <= j < |states|
    ensures Later(states[i], states[j])
    decreases j - i
  {
    hide Inv, Apply, Enabled, Later;
    if i == j {
      SameLater(states[i], states[i]);
    } else {
      RunGoesOn(states, labels, i, j - 1);
      RunKeepsInv(states, labels, j - 1);
      StepKeepsInv(states[j - 1], labels[j - 1]);
      LaterTwice(states[i], states[j - 1], states[j]);
    }
  }

  /** A page in the registry, and a temp directory, has an owner who still has to release it; so when
      all owners are done nothing is left, whatever was interleaved with them. */
  lemma NothingLeft(states: seq<State>, labels: seq<Label>, i: nat)
    requires Run(states, labels) && i < |states|
    ensures var s := states[i];
            && (forall t :: t in s.reg.pages || t in s.dirs ==> t in s.owners && !s.owners[t].Done?)
            && ((forall t :: t in s.owners ==> s.owners[t].Done?) ==> s.reg.pages == map[] && s.reg.perHost == map[] && s.dirs == {})
  {
    hide Apply, Enabled, RegistryOk, HelpersOk, OwnerOk;
    RunKeepsInv(states, labels, i);
    var s := states[i];
    forall t ensures t in s.reg.pages || t in s.dirs ==> t in s.owners && !s.owners[t].Done? { assert TokenOk(s, t); }
    if s.reg.pages == map[] { NoPagesNoCounts(s.reg, s.history); }
  }

  lemma NoPagesNoCounts(r: Registry, history: seq<Token>)
    requires RegistryOk(r, history) && r.pages == map[]
    ensures r.perHost == map[]
  {
    forall h ensures h !in r.perHost {
      assert Tokens(r.pages, h) == {};
      assert CountOf(r.pages, h) == CountIn(r.perHost, h);
    }
  }

  /** At every moment the counts are those of the pages, no host has more than eight, and the tokens
      remembered as spent are the last 1024 released, each released once. */
  lemma CountsAreRight(states: seq<State>, labels: seq<Label>, i: nat, h: string)
    requires Run(states, labels) && i < |states|
    ensures var s := states[i];
            && CountIn(s.reg.perHost, h) == CountOf(s.reg.pages, h) <= MAX_PAGES
            && s.reg.spent == Last(s.history) && Distinct(s.history)
            && forall t :: t in s.history ==> t !in s.reg.pages
  {
    RunKeepsInv(states, labels, i);
  }

  /** An attempt on a page. */
  datatype Try = Try(token: Token, move: Attempt)

  function Attempted(s: State, l: Label): Option<Try>
    requires Enabled(s, l)
  {
    match l
    case OfCall(t, Polled(poll)) => if GivesUp(s.owners[t].missing, poll) then Some(Try(t, DISMISS)) else None
    case OfHelper(id, PostMove(submit, text)) => Some(Try(s.posts[id], MoveOf(submit, text)))
    case OfHelper(id, DriveNext(t, shown)) => if s.drives[id].picked.None? && shown then None else Some(Try(t, DISMISS))
    case OfHelper(id, DriveEnd) =>
      if s.drives[id].picked.Some? then Some(Try(s.drives[id].picked.value, s.drives[id].move)) else None
    case _ => None
  }

  /** The step's attempt finds the page open. */
  predicate Wins(s: State, l: Label, t: Token) {
    Enabled(s, l) && Attempted(s, l).Some? && Attempted(s, l).value.token == t && t in s.recs && s.recs[t].state == Open
  }

  /** A page's state and value are changed by winning attempts and by nothing else. */
  lemma StateMoves(s: State, l: Label, t: Token)
    requires Inv(s) && Enabled(s, l) && t in s.recs
    ensures t in Apply(s, l).recs && MovedBy(s.recs[t], Apply(s, l).recs[t], Attempted(s, l), t)
    ensures Wins(s, l, t) ==> Attempted(s, l).value.move.next != Open
  {
    hide Inv, ApplyCall, ApplyHelper, MovedBy;
    match l
    case OfCall(u, step) => CallMoves(s, u, step, t);
    case OfHelper(id, step) => HelperMoves(s, id, step, t);
    case _ => NotMoved(s.recs[t], t);
  }

  /** The page took the attempt, if that is on it and finds it open, and otherwise kept state and value. */
  predicate MovedBy(r: Rec, r': Rec, try: Option<Try>, t: Token) {
    if try.Some? && try.value.token == t && r.state == Open then r'.state == try.value.move.next && r'.value == try.value.move.text
    else r'.state == r.state && r'.value == r.value
  }

  lemma NotMoved(r: Rec, t: Token)
    ensures MovedBy(r, r, None, t)
  {}

  lemma CallMoves(s: State, u: Token, l: CallStep, t: Token)
    requires CallEnabled(s, u, l) && t in s.recs
    ensures var try := Attempted(s, OfCall(u, l));
            t in ApplyCall(s, u, l).recs && MovedBy(s.recs[t], ApplyCall(s, u, l).recs[t], try, t)
            && (try.Some? ==> try.value.move == DISMISS)
  {
    hide Dropped, History, Added, Told, GivesUp;
  }

  lemma HelperMoves(s: State, id: nat, l: HelperStep, t: Token)
    requires Inv(s) && HelperEnabled(s, id, l) && t in s.recs
    ensures var try := Attempted(s, OfHelper(id, l));
            t in ApplyHelper(s, id, l).recs && MovedBy(s.recs[t], ApplyHelper(s, id, l).recs[t], try, t)
            && (try.Some? ==> try.value.move.next != Open)
  {
    hide RegistryOk, OwnersOk, SweepOk, InSlot, Dropped, History, Tokens;
    if l.DriveEnd? { assert DriveOk(s, s.drives[id]); }
  }

  /** At most one attempt in a run wins a page. */
  lemma OneWinner(states: seq<State>, labels: seq<Label>, i: nat, j: nat, t: Token)
    requires Run(states, labels) && i <= j < |labels| && Wins(states[i], labels[i], t) && Wins(states[j], labels[j], t)
    ensures i == j
  {
    hide Inv, Apply, Enabled, Attempted;
    RunKeepsInv(states, labels, i);
    StateMoves(states[i], labels[i], t);
    if i < j { RunGoesOn(states, labels, i + 1, j); }
  }

  /** A page that is not open was won by an earlier step, and has that step's state and value. */
  lemma {:induction false} WinnerDecides(states: seq<State>, labels: seq<Label>, i: nat, t: Token) returns (j: nat)
    requires Run(states, labels) && i < |states| && t in states[i].recs && states[i].recs[t].state != Open
    ensures j < i && Wins(states[j], labels[j], t)
    ensures var a := Attempted(states[j], labels[j]).value.move;
            states[i].recs[t].state == a.next && states[i].recs[t].value == a.text
  {
    hide Inv, Apply, Enabled, Attempted, ApplyCall, ApplyHelper;
    assert i > 0;
    RunKeepsInv(states, labels, i - 1);
    NewIsOpen(states[i - 1], labels[i - 1], t);
    StateMoves(states[i - 1], labels[i - 1], t);
    if Wins(states[i - 1], labels[i - 1], t) {
      j := i - 1;
    } else {
      j := WinnerDecides(states, labels, i - 1, t);
    }
  }

  lemma NewIsOpen(s: State, l: Label, t: Token)
    requires Inv(s) && Enabled(s, l) && t in Apply(s, l).recs
    ensures t in s.recs || Apply(s, l).recs[t].state == Open
  {
    hide Inv, ApplyCall, ApplyHelper;
    match l
    case OfCall(u, step) => CallKnows(s, u, step, t);
    case OfHelper(id, step) => HelperKnows(s, id, step, t);
    case _ =>
  }

  lemma CallKnows(s: State, u: Token, l: CallStep, t: Token)
    requires CallEnabled(s, u, l) && t in ApplyCall(s, u, l).recs
    ensures t in s.recs || ApplyCall(s, u, l).recs[t].state == Open
  {
    hide Dropped, History, Moved, Added, Named, Told, GivesUp;
  }

  lemma HelperKnows(s: State, id: nat, l: HelperStep, t: Token)
    requires HelperEnabled(s, id, l) && t in ApplyHelper(s, id, l).recs
    ensures t in s.recs
  {
    hide InSlot, Dropped, History, Moved;
  }

  /** A poll dismisses an open page exactly when it finds it gone, or is the last of eight in a row
      that missed its row. */
  lemma PollDismisses(states: seq<State>, labels: seq<Label>, i: nat, t: Token, poll: Poll)
    requires Run(states, labels) && i < |labels| && labels[i] == OfCall(t, Polled(poll))
    requires t in states[i].recs && states[i].recs[t].state == Open
    ensures var polls, r := states[i].owners[t].polls + [poll], states[i + 1].recs[t];
            && (r.state == Dismissed <==>
                  poll == Gone || (|polls| >= MAX_MISSES && forall k :: |polls| - MAX_MISSES <= k < |polls| ==> polls[k] == RowMissing))
            && (r.state == Dismissed || r.state == Open)
  {
    RunKeepsInv(states, labels, i);
    OwnerIsOk(states[i], t);
    var o := states[i].owners[t];
    MissesSnoc(o.polls, poll);
    MissesMeans(o.polls + [poll], MAX_MISSES);
  }

  /** After a submit or close from the host none of the host's pages that were open in that slot when
      it began is open, whoever moved them meanwhile. A page that covers the whole row is in every slot
      of it; another side's page is not. */
  lemma DriveLeavesNoneOpen(
    states: seq<State>, labels: seq<Label>, i: nat, j: nat, id: nat, host: string, row: string, side: string, submit: bool,
    text: string, t: Token)
    requires Run(states, labels) && i < j < |labels|
    requires labels[i] == OfHelper(id, DriveStart(host, row, side, submit, text)) && labels[j] == OfHelper(id, DriveEnd)
    requires forall k: nat :: i < k < j ==> labels[k] != OfHelper(id, DriveEnd)
    requires t in states[i].reg.pages && t in states[i].recs && states[i].recs[t].state == Open
    requires states[i].recs[t].host == host && Tree.Same(states[i].recs[t].row, row)
    requires states[i].recs[t].side == side || states[i].recs[t].side == ""
    ensures t in states[j + 1].recs && states[j + 1].recs[t].state != Open
  {
    hide Apply, Enabled, RegistryOk, OwnersOk, SweepOk;
    var found := InSlot(states[i], host, row, side);
    assert t in found;
    DriveIsPut(states[i], labels[i], id, Drive(found, found, None, MoveOf(submit, text)));
    DriveKept(states, labels, i + 1, j, id);
    RunKeepsInv(states, labels, j);
    assert DriveOk(states[j], states[j].drives[id]);
    DriveEnds(states[j], id, t);
  }

  lemma DriveIsPut(s: State, l: Label, id: nat, d: Drive)
    requires Enabled(s, l) && l.OfHelper? && l.id == id && l.helper.DriveStart?
    requires d.seen == d.todo == InSlot(s, l.helper.host, l.helper.row, l.helper.side)
    requires d.picked == None && d.move == MoveOf(l.helper.submit, l.helper.text)
    ensures id in Apply(s, l).drives && Apply(s, l).drives[id] == d
  {}

  lemma DriveEnds(s: State, id: nat, t: Token)
    requires Inv(s) && Enabled(s, OfHelper(id, DriveEnd)) && t in s.drives[id].seen
    ensures var s', d := Apply(s, OfHelper(id, DriveEnd)), s.drives[id];
            && t in s'.recs && s'.recs[t].state != Open
            && (d.picked == Some(t) && s.recs[t].state == Open ==>
                  s'.recs[t].state == d.move.next && s'.recs[t].value == d.move.text)
  {
    hide RegistryOk, OwnersOk, SweepOk;
    assert DriveOk(s, s.drives[id]);
  }

  lemma {:induction false} DriveKept(states: seq<State>, labels: seq<Label>, i: nat, j: nat, id: nat)
    requires Run(states, labels) && i <= j < |states| && id in states[i].drives
    requires forall k: nat :: i <= k < j ==> labels[k] != OfHelper(id, DriveEnd)
    ensures id in states[j].drives
    ensures states[j].drives[id].seen == states[i].drives[id].seen && states[j].drives[id].move == states[i].drives[id].move
    decreases j - i
  {
    hide Inv, Apply, Enabled;
    if i < j {
      DriveKept(states, labels, i, j - 1, id);
      SameDrive(states[j - 1], labels[j - 1], id);
    }
  }

  lemma SameDrive(s: State, l: Label, id: nat)
    requires Enabled(s, l) && id in s.drives && l != OfHelper(id, DriveEnd)
    ensures id in Apply(s, l).drives
    ensures Apply(s, l).drives[id].seen == s.drives[id].seen && Apply(s, l).drives[id].move == s.drives[id].move
  {
    hide ApplyCall, ApplyHelper;
    match l
    case OfCall(t, step) => CallHelpsNone(s, t, step);
    case OfHelper(k, step) => HelperSameDrive(s, k, step, id);
    case _ =>
  }

  lemma HelperSameDrive(s: State, k: nat, l: HelperStep, id: nat)
    requires HelperEnabled(s, k, l) && id in s.drives && !(k == id && l.DriveEnd?)
    ensures id in ApplyHelper(s, k, l).drives
    ensures ApplyHelper(s, k, l).drives[id].seen == s.drives[id].seen
    ensures ApplyHelper(s, k, l).drives[id].move == s.drives[id].move
  {
    hide InSlot, Dropped, History, Moved, Tokens;
  }

  lemma CallHelpsNone(s: State, t: Token, l: CallStep)
    requires CallEnabled(s, t, l)
    ensures ApplyCall(s, t, l).drives == s.drives && ApplyCall(s, t, l).sweeps == s.sweeps
  {
    hide Dropped, History, Moved, Added, Named;
  }

  /** When a host's runtime has released what it collected, none of the pages the host had at the
      start is left, whoever else released some of them meanwhile. */
  lemma SweepLeavesNone(states: seq<State>, labels: seq<Label>, i: nat, j: nat, id: nat, host: string, t: Token)
    requires Run(states, labels) && i < j < |labels|
    requires labels[i] == OfHelper(id, SweepStart(host)) && labels[j] == OfHelper(id, SweepEnd)
    requires forall k: nat :: i < k < j ==> labels[k] != OfHelper(id, SweepEnd)
    requires t in states[i].reg.pages && states[i].reg.pages[t] == host
    ensures t !in states[j + 1].reg.pages
  {
    hide Apply, Enabled, RegistryOk, OwnersOk, DriveOk;
    SweepIsPut(states[i], labels[i], id);
    SweepKept(states, labels, i + 1, j, id);
    RunKeepsInv(states, labels, j);
    assert SweepOk(states[j], states[j].sweeps[id]);
    SweepEnds(states[j], id);
  }

  lemma SweepIsPut(s: State, l: Label, id: nat)
    requires Enabled(s, l) && l.OfHelper? && l.id == id && l.helper.SweepStart?
    ensures id in Apply(s, l).sweeps && Apply(s, l).sweeps[id].all == Tokens(s.reg.pages, l.helper.host)
  {}

  lemma SweepEnds(s: State, id: nat)
    requires Enabled(s, OfHelper(id, SweepEnd))
    ensures Apply(s, OfHelper(id, SweepEnd)).reg == s.reg && s.sweeps[id].todo == {}
  {}

  lemma {:induction false} SweepKept(states: seq<State>, labels: seq<Label>, i: nat, j: nat, id: nat)
    requires Run(states, labels) && i <= j < |states| && id in states[i].sweeps
    requires forall k: nat :: i <= k < j ==> labels[k] != OfHelper(id, SweepEnd)
    ensures id in states[j].sweeps && states[j].sweeps[id].all == states[i].sweeps[id].all
    decreases j - i
  {
    hide Inv, Apply, Enabled;
    if i < j {
      SweepKept(states, labels, i, j - 1, id);
      SameSweep(states[j - 1], labels[j - 1], id);
    }
  }

  lemma SameSweep(s: State, l: Label, id: nat)
    requires Enabled(s, l) && id in s.sweeps && l != OfHelper(id, SweepEnd)
    ensures id in Apply(s, l).sweeps && Apply(s, l).sweeps[id].all == s.sweeps[id].all
  {
    hide ApplyCall, ApplyHelper;
    match l
    case OfCall(t, step) => CallHelpsNone(s, t, step);
    case OfHelper(k, step) => HelperSameSweep(s, k, step, id);
    case _ =>
  }

  lemma HelperSameSweep(s: State, k: nat, l: HelperStep, id: nat)
    requires HelperEnabled(s, k, l) && id in s.sweeps && !(k == id && l.SweepEnd?)
    ensures id in ApplyHelper(s, k, l).sweeps && ApplyHelper(s, k, l).sweeps[id].all == s.sweeps[id].all
  {
    hide InSlot, Dropped, History, Moved, Tokens;
  }
}
