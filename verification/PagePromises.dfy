/** What those who open, drive and close host pages may rely on, over every run of PageRuns. */
module PagePromises {
  import opened Results
  import opened PageShim
  import opened PageRuns
  import Tree

  // ----- drives -----

  /** Step i began the drive that id runs up to step j. */
  ghost predicate DriveFrom(labels: seq<Label>, i: nat, j: nat, id: nat) {
    && i < j <= |labels| && labels[i].OfHelper? && labels[i].id == id && labels[i].helper.DriveStart?
    && forall k: nat :: i < k < j ==> labels[k] != OfHelper(id, DriveEnd)
  }

  /** t is the first page of the drive that agterm shows, seen by step k. */
  ghost predicate FirstShown(labels: seq<Label>, i: nat, k: nat, id: nat, t: Token) {
    i < k < |labels| && labels[k] == OfHelper(id, DriveNext(t, true)) && NoneShown(labels, i, k, id)
  }

  ghost predicate NoneShown(labels: seq<Label>, i: nat, j: nat, id: nat) {
    forall m: nat, u :: i < m < j && m < |labels| ==> labels[m] != OfHelper(id, DriveNext(u, true))
  }

  ghost predicate PickedIs(labels: seq<Label>, i: nat, j: nat, id: nat, picked: Option<Token>) {
    match picked
    case None => NoneShown(labels, i, j, id)
    case Some(t) => exists k: nat :: k < j && FirstShown(labels, i, k, id, t)
  }

  lemma DriveStep(s: State, l: Label, id: nat)
    requires Enabled(s, l) && id in Apply(s, l).drives
    ensures (l.OfHelper? && l.id == id && l.helper.DriveStart?) || (id in s.drives && l != OfHelper(id, DriveEnd))
    ensures id in s.drives ==>
              Apply(s, l).drives[id].picked ==
              if l.OfHelper? && l.id == id && l.helper.DriveNext? && l.helper.shown && s.drives[id].picked.None?
              then Some(l.helper.token) else s.drives[id].picked
  {
    hide ApplyCall, ApplyHelper;
    match l
    case OfCall(t, step) => CallHelpsNone(s, t, step);
    case OfHelper(k, step) => HelperDriveStep(s, k, step, id);
    case _ =>
  }

  lemma HelperDriveStep(s: State, k: nat, l: HelperStep, id: nat)
    requires HelperEnabled(s, k, l) && id in ApplyHelper(s, k, l).drives
    ensures (k == id && l.DriveStart?) || (id in s.drives && !(k == id && l.DriveEnd?))
    ensures id in s.drives ==>
              ApplyHelper(s, k, l).drives[id].picked ==
              if k == id && l.DriveNext? && l.shown && s.drives[id].picked.None? then Some(l.token) else s.drives[id].picked
  {
    hide InSlot, Dropped, History, Moved, Tokens;
  }

  /** What a drive in progress remembers: the pages of its slot, its move, and the first page shown. */
  lemma {:induction false} DriveRemembers(states: seq<State>, labels: seq<Label>, i: nat, j: nat, id: nat)
    requires Run(states, labels) && DriveFrom(labels, i, j, id)
    ensures id in states[j].drives
    ensures var l, d := labels[i].helper, states[j].drives[id];
            && d.seen == InSlot(states[i], l.host, l.row, l.side) && d.move == MoveOf(l.submit, l.text)
            && PickedIs(labels, i, j, id, d.picked)
    decreases j - i
  {
    hide Apply, Enabled, InSlot, MoveOf;
    var l, s, step := labels[i].helper, states[j - 1], labels[j - 1];
    if j == i + 1 {
      var found := InSlot(s, l.host, l.row, l.side);
      DriveIsPut(s, step, id, Drive(found, found, None, MoveOf(l.submit, l.text)));
    } else {
      DriveRemembers(states, labels, i, j - 1, id);
      SameDrive(s, step, id);
      DriveStep(s, step, id);
      var picked, picked' := s.drives[id].picked, states[j].drives[id].picked;
      if picked.None? && picked'.Some? { assert FirstShown(labels, i, j - 1, id, picked'.value); }
    }
  }

  /** A drive in progress was begun. */
  lemma {:induction false} DriveBegan(states: seq<State>, labels: seq<Label>, j: nat, id: nat) returns (i: nat)
    requires Run(states, labels) && j < |states| && id in states[j].drives
    ensures DriveFrom(labels, i, j, id)
  {
    hide Apply, Enabled;
    assert j > 0;
    DriveStep(states[j - 1], labels[j - 1], id);
    if labels[j - 1].OfHelper? && labels[j - 1].id == id && labels[j - 1].helper.DriveStart? {
      i := j - 1;
    } else {
      i := DriveBegan(states, labels, j - 1, id);
    }
  }

  /** The page is the host's, open, and in the slot of a row: on that side or over the whole row. */
  predicate OpenInSlot(s: State, t: Token, host: string, row: string, side: string) {
    && t in s.reg.pages && t in s.recs && s.recs[t].state == Open
    && s.recs[t].host == host && Tree.Same(s.recs[t].row, row) && (s.recs[t].side == side || s.recs[t].side == "")
  }

  /** The page has taken the submit or the close. */
  predicate Took(r: Rec, submit: bool, text: string) {
    if submit then r.state == Submitted && r.value == text else r.state == Dismissed && r.value == ""
  }

  /** A submit or close moves only pages that were open in its slot when it began: it dismisses a page,
      or, at its end, the first page agterm was seen to show takes its move. */
  lemma DriveMovesOnlyItsSlot(states: seq<State>, labels: seq<Label>, i: nat, j: nat, id: nat, t: Token)
    requires Run(states, labels) && DriveFrom(labels, i, j, id) && j < |labels|
    requires labels[j].OfHelper? && labels[j].id == id && (labels[j].helper.DriveNext? || labels[j].helper.DriveEnd?)
    requires t in states[j].recs && states[j].recs[t].state == Open
    ensures t in states[j + 1].recs
    ensures states[j + 1].recs[t].state != Open ==>
              var l, r := labels[i].helper, states[j + 1].recs[t];
              && OpenInSlot(states[i], t, l.host, l.row, l.side)
              && if labels[j].helper.DriveNext? then labels[j].helper.token == t && Took(r, false, "")
                 else Took(r, l.submit, l.text) && exists k: nat :: k < j && FirstShown(labels, i, k, id, t)
  {
    hide Inv, Apply, Enabled, RegistryOk;
    DriveRemembers(states, labels, i, j, id);
    RunKeepsInv(states, labels, j);
    DriveStrikes(states[j], id, labels[j].helper, t);
  }

  lemma DriveStrikes(s: State, id: nat, l: HelperStep, t: Token)
    requires Inv(s) && Enabled(s, OfHelper(id, l)) && (l.DriveNext? || l.DriveEnd?) && t in s.recs && s.recs[t].state == Open
    ensures id in s.drives && t in Apply(s, OfHelper(id, l)).recs
    ensures var d, r := s.drives[id], Apply(s, OfHelper(id, l)).recs[t];
            r.state != Open ==>
              && t in d.seen
              && if l.DriveNext? then l.token == t && r.state == Dismissed && r.value == ""
                 else d.picked == Some(t) && r.state == d.move.next && r.value == d.move.text
    ensures l.DriveEnd? && s.drives[id].picked == Some(t) ==> Apply(s, OfHelper(id, l)).recs[t].state != Open
  {
    hide RegistryOk, OwnersOk, SweepOk, InSlot;
    assert DriveOk(s, s.drives[id]);
  }

  /** The first page of the slot that agterm shows takes the submit or close, unless someone else moved
      it before the drive ended. */
  lemma ShownPageTakesTheMove(states: seq<State>, labels: seq<Label>, i: nat, k: nat, j: nat, id: nat, t: Token)
    requires Run(states, labels) && DriveFrom(labels, i, j, id) && j < |labels| && labels[j] == OfHelper(id, DriveEnd)
    requires k < j && FirstShown(labels, i, k, id, t) && t in states[j].recs && states[j].recs[t].state == Open
    ensures t in states[j + 1].recs && Took(states[j + 1].recs[t], labels[i].helper.submit, labels[i].helper.text)
  {
    hide Inv, Apply, Enabled;
    DriveRemembers(states, labels, i, j, id);
    RunKeepsInv(states, labels, j);
    var picked := states[j].drives[id].picked;
    OneFirst(labels, i, j, id, k, t, picked);
    DriveStrikes(states[j], id, DriveEnd, t);
  }

  lemma OneFirst(labels: seq<Label>, i: nat, j: nat, id: nat, k: nat, t: Token, picked: Option<Token>)
    requires k < j && FirstShown(labels, i, k, id, t) && PickedIs(labels, i, j, id, picked)
    ensures picked == Some(t)
  {
    assert !NoneShown(labels, i, j, id);
    var m: nat :| m < j && FirstShown(labels, i, m, id, picked.value);
    assert m == k;
  }

  // ----- what a call reports -----

  /** What the step that won a page makes a blocking call report: the value of a submit from the page or
      from the host, and nothing else with an exit code of 0. */
  ghost predicate WonBy(labels: seq<Label>, j: nat, answer: Answer)
    requires j < |labels|
  {
    match labels[j]
    case OfHelper(_, PostMove(submit, text)) => answer == if submit then Answer(Some(text), 0) else Answer(None, 2)
    case OfHelper(id, DriveEnd) =>
      exists i: nat :: && DriveFrom(labels, i, j, id)
                       && answer == if labels[i].helper.submit then Answer(Some(labels[i].helper.text), 0) else Answer(None, 2)
    case OfHelper(_, DriveNext(_, _)) => answer == Answer(None, 2)
    case OfCall(_, Polled(_)) => answer == Answer(None, 2)
    case _ => false
  }

  lemma WinnerAnswers(states: seq<State>, labels: seq<Label>, j: nat, t: Token)
    requires Run(states, labels) && j < |labels| && Wins(states[j], labels[j], t)
    ensures var a := Attempted(states[j], labels[j]).value.move;
            WonBy(labels, j, if a.next == Submitted then Answer(Some(a.text), 0) else Answer(None, 2))
  {
    assert Enabled(states[j], labels[j]);
    if labels[j].OfHelper? && labels[j].helper.DriveEnd? {
      var id := labels[j].id;
      var i := DriveBegan(states, labels, j, id);
      DriveRemembers(states, labels, i, j, id);
    }
  }

  /** A blocking call that reports an outcome reports exactly that of the one step that won its page. */
  lemma ReportsTheWinner(states: seq<State>, labels: seq<Label>, i: nat, t: Token, answer: Answer)
    requires Run(states, labels) && i < |states| && t in states[i].owners && states[i].owners[t] == Done(Outcome(answer))
    ensures exists j: nat :: && j < i && Wins(states[j], labels[j], t) && WonBy(labels, j, answer)
                             && forall k: nat :: k < |labels| && Wins(states[k], labels[k], t) ==> k == j
  {
    hide Inv, Apply, Enabled, Attempted, WonBy;
    RunKeepsInv(states, labels, i);
    OwnerIsOk(states[i], t);
    var j := WinnerDecides(states, labels, i, t);
    WinnerAnswers(states, labels, j, t);
    forall k: nat | k < |labels| && Wins(states[k], labels[k], t) ensures k == j {
      if k <= j { OneWinner(states, labels, k, j, t); } else { OneWinner(states, labels, j, k, t); }
    }
  }

  /** Why a call exits with a code and no outcome. */
  ghost predicate ExitedBy(s: State, l: Label, t: Token, code: nat) {
    || (l == OfCall(t, Hand) && code == 0)
    || (l == OfCall(t, OpenFailed(code)) && code > 0)
    || (l == OfCall(t, CtxEnds) && t in s.owners && s.owners[t].Waiting? && code == 1)
  }

  ghost predicate Exits(o: Owner, code: nat) { o == Leaving(Exit(code)) || o == Done(Exit(code)) }

  /** How a step of a page's own call or watcher moves it on. */
  ghost predicate MovesOn(l: CallStep, o: Owner, o': Owner) {
    match l
    case Register(_, _, _, _, _, _) => false
    case Opened(_) => o.Opening? && o' == Bound(o.block)
    case OpenFailed(code) => o.Opening? && o' == Leaving(Exit(code)) && code > 0
    case Hand => o == Bound(false) && (o' == Leaving(Exit(0)) || o'.Watching?)
    case Block => o == Bound(true) && o'.Waiting?
    case Polled(_) => (o.Waiting? && o'.Waiting?) || (o.Watching? && o'.Watching?)
    case WaitDone => (o.Waiting? && o' == Finished) || (o.Watching? && o' == Leaving(Exit(0)))
    case CtxEnds => (o.Waiting? && o' == Leaving(Exit(1))) || (o.Watching? && o' == Leaving(Exit(0)))
    case ReadOutcome => o == Finished && o'.Leaving? && o'.report.Outcome?
    case Release => o.Leaving? && o' == Done(o.report)
  }

  lemma OwnerStep(s: State, l: Label, t: Token)
    requires Enabled(s, l) && t in Apply(s, l).owners && (t in s.owners ==> t in s.recs)
    ensures var o' := Apply(s, l).owners[t];
            if t in s.owners then o' == s.owners[t] || (l.OfCall? && l.token == t && MovesOn(l.call, s.owners[t], o'))
            else l.OfCall? && l.token == t && l.call.Register? && o' == Opening(l.call.block)
  {
    hide ApplyCall, ApplyHelper, MovesOn;
    match l
    case OfCall(u, step) => CallOwnerStep(s, u, step, t);
    case OfHelper(id, step) => HelperTurnsNone(s, id, step);
    case _ =>
  }

  lemma CallOwnerStep(s: State, u: Token, l: CallStep, t: Token)
    requires CallEnabled(s, u, l) && t in ApplyCall(s, u, l).owners && (t in s.owners ==> t in s.recs)
    ensures var o' := ApplyCall(s, u, l).owners[t];
            if t in s.owners then o' == s.owners[t] || (u == t && MovesOn(l, s.owners[t], o'))
            else u == t && l.Register? && o' == Opening(l.block)
  {
    hide Dropped, History, Added, Named, Moved, GivesUp, OutcomeOf;
  }

  lemma HelperTurnsNone(s: State, id: nat, l: HelperStep)
    requires HelperEnabled(s, id, l)
    ensures ApplyHelper(s, id, l).owners == s.owners
  {
    hide Dropped, History, Moved, InSlot, Tokens;
  }

  /** A call that reports a code and no outcome did so because agtermctl failed with that code, because
      its client left while it waited, with 1, or because it does not block and its page was opened and
      handed on, with 0. */
  lemma {:induction false} ExitHasAReason(states: seq<State>, labels: seq<Label>, i: nat, t: Token, code: nat) returns (j: nat)
    requires Run(states, labels) && i < |states| && t in states[i].owners && Exits(states[i].owners[t], code)
    ensures j < i && ExitedBy(states[j], labels[j], t, code)
  {
    hide Apply, Enabled;
    assert i > 0;
    var s, l := states[i - 1], labels[i - 1];
    OwnedIsKnown(states, labels, i - 1, t);
    OwnerStep(s, l, t);
    if t in s.owners && Exits(s.owners[t], code) {
      j := ExitHasAReason(states, labels, i - 1, t, code);
    } else if ExitedBy(s, l, t, code) {
      j := i - 1;
    } else {
      j := WatchingWasHanded(states, labels, i - 1, t);
    }
  }

  lemma OwnedIsKnown(states: seq<State>, labels: seq<Label>, i: nat, t: Token)
    requires Run(states, labels) && i < |states|
    ensures t in states[i].owners <==> t in states[i].recs
  {
    RunKeepsInv(states, labels, i);
    assert TokenOk(states[i], t);
  }

  lemma {:induction false} WatchingWasHanded(states: seq<State>, labels: seq<Label>, i: nat, t: Token) returns (j: nat)
    requires Run(states, labels) && i < |states| && t in states[i].owners && states[i].owners[t].Watching?
    ensures j < i && labels[j] == OfCall(t, Hand)
  {
    hide Apply, Enabled;
    assert i > 0;
    var s, l := states[i - 1], labels[i - 1];
    OwnedIsKnown(states, labels, i - 1, t);
    OwnerStep(s, l, t);
    if t in s.owners && s.owners[t].Watching? {
      j := WatchingWasHanded(states, labels, i - 1, t);
    } else {
      j := i - 1;
    }
  }

  /** The owner is where a call of this kind can be. */
  ghost predicate OfKind(o: Owner, block: bool) {
    match o
    case Opening(b) => b == block
    case Bound(b) => b == block
    case Waiting(_, _) => block
    case Watching(_, _) => !block
    case Finished => block
    case Leaving(report) => ReportOfKind(report, block)
    case Done(report) => ReportOfKind(report, block)
  }

  /** A blocking call ends with an outcome or a failure, another one never with an outcome. */
  ghost predicate ReportOfKind(report: Report, block: bool) {
    if block then report.Outcome? || report.code > 0 else report.Exit?
  }

  lemma {:induction false} BlockingIsKept(
    states: seq<State>, labels: seq<Label>, i: nat, k: nat, t: Token, ctl: nat, host: string, row: string, side: string,
    block: bool, serves: bool)
    requires Run(states, labels) && i < k < |states| && t in states[i + 1].owners
    requires labels[i] == OfCall(t, Register(ctl, host, row, side, block, serves))
    ensures t in states[k].owners && OfKind(states[k].owners[t], block)
    decreases k - i
  {
    hide Apply, Enabled, Inv;
    assert Enabled(states[i], labels[i]);
    if k == i + 1 {
      NotYetOwned(states, labels, i, t);
      OwnerStep(states[i], labels[i], t);
    } else {
      BlockingIsKept(states, labels, i, k - 1, t, ctl, host, row, side, block, serves);
      RunKeepsInv(states, labels, k - 1);
      RunGoesOn(states, labels, k - 1, k);
      RunKeepsInv(states, labels, k);
      OwnersKnown(states[k - 1], states[k], t);
      OwnerStep(states[k - 1], labels[k - 1], t);
    }
  }

  lemma NotYetOwned(states: seq<State>, labels: seq<Label>, i: nat, t: Token)
    requires Run(states, labels) && i < |labels| && labels[i].OfCall? && labels[i].token == t && labels[i].call.Register?
    ensures t !in states[i].owners
  {
    RunKeepsInv(states, labels, i);
    assert TokenOk(states[i], t);
  }

  lemma OwnersKnown(s: State, s': State, t: Token)
    requires Inv(s) && Inv(s') && Later(s, s') && t in s.owners
    ensures t in s'.owners && t in s.recs
  {
    assert TokenOk(s, t) && TokenOk(s', t);
  }

  // ----- coming and going -----

  /** A page is registered exactly when the page server runs and its host has fewer than eight, as the
      open page of that host, row and side; a refused one leaves everything as it was. */
  lemma RegisteredBelowEight(
    states: seq<State>, labels: seq<Label>, i: nat, t: Token, ctl: nat, host: string, row: string, side: string,
    block: bool, serves: bool)
    requires Run(states, labels) && i < |labels| && labels[i] == OfCall(t, Register(ctl, host, row, side, block, serves))
    ensures var s, s' := states[i], states[i + 1];
            if serves && CountOf(s.reg.pages, host) < 8 then
              && s'.reg.pages == s.reg.pages[t := host] && t in s'.recs && s'.recs[t] == Rec(host, row, side, Open, "", "")
              && t in s'.ctls && s'.ctls[t] == ctl && t in s'.dirs
            else s' == s
  {
    CountsAreRight(states, labels, i, host);
    assert Enabled(states[i], labels[i]);
  }

  /** A temp directory is there exactly as long as its page is in the registry. */
  lemma {:induction false} DirsArePages(states: seq<State>, labels: seq<Label>, i: nat)
    requires Run(states, labels) && i < |states|
    ensures states[i].dirs == states[i].reg.pages.Keys
  {
    hide Apply, Enabled;
    if i > 0 {
      DirsArePages(states, labels, i - 1);
      StepKeepsDirs(states[i - 1], labels[i - 1]);
    }
  }

  lemma StepKeepsDirs(s: State, l: Label)
    requires Enabled(s, l) && s.dirs == s.reg.pages.Keys
    ensures Apply(s, l).dirs == Apply(s, l).reg.pages.Keys
  {
    hide ApplyHelper, History, Named, Moved, PageRuns.Counted, Remembered;
    match l
    case OfCall(_, _) =>
    case OfHelper(id, step) => HelperKeepsDirs(s, id, step);
    case _ =>
  }

  lemma HelperKeepsDirs(s: State, id: nat, l: HelperStep)
    requires HelperEnabled(s, id, l) && s.dirs == s.reg.pages.Keys
    ensures ApplyHelper(s, id, l).dirs == ApplyHelper(s, id, l).reg.pages.Keys
  {
    hide History, Moved, InSlot, Tokens, Remembered;
  }

  /** A page leaves the registry only by the release of its own call or watcher, by the release of its
      host's pages, or with the daemon; and with the daemon all do. */
  lemma PageLeavesBy(states: seq<State>, labels: seq<Label>, i: nat, t: Token)
    requires Run(states, labels) && i < |labels|
    ensures t in states[i].reg.pages && t !in states[i + 1].reg.pages ==>
              || labels[i] == OfCall(t, Release)
              || (labels[i].OfHelper? && labels[i].helper == SweepOne(t))
              || labels[i] == CloseShim
    ensures labels[i] == CloseShim ==> states[i + 1].reg.pages == map[] && states[i + 1].reg.perHost == map[] && states[i + 1].dirs == {}
    ensures labels[i] == OfCall(t, Release) || (labels[i].OfHelper? && labels[i].helper == SweepOne(t)) ==>
              t !in states[i + 1].reg.pages && t !in states[i + 1].dirs
  {
    hide Inv;
    DirsArePages(states, labels, i);
    DirsArePages(states, labels, i + 1);
    assert Enabled(states[i], labels[i]);
    LeavesBy(states[i], labels[i], t);
  }

  lemma LeavesBy(s: State, l: Label, t: Token)
    requires Enabled(s, l)
    ensures t in s.reg.pages && t !in Apply(s, l).reg.pages ==>
              l == OfCall(t, Release) || (l.OfHelper? && l.helper == SweepOne(t)) || l == CloseShim
    ensures l == OfCall(t, Release) || (l.OfHelper? && l.helper == SweepOne(t)) ==> t !in Apply(s, l).reg.pages
  {
    hide ApplyHelper, History, Named, Moved, PageRuns.Counted, Remembered;
    match l
    case OfCall(_, _) =>
    case OfHelper(id, step) => HelperLeavesBy(s, id, step, t);
    case _ =>
  }

  lemma HelperLeavesBy(s: State, id: nat, l: HelperStep, t: Token)
    requires HelperEnabled(s, id, l)
    ensures t in s.reg.pages && t !in ApplyHelper(s, id, l).reg.pages ==> l == SweepOne(t)
    ensures l == SweepOne(t) ==> t !in ApplyHelper(s, id, l).reg.pages
  {
    hide History, Moved, InSlot, Tokens, Remembered;
  }

  /** Only a page agterm has given an id is ever submitted: neither a POST nor a submit from the host
      reaches one whose opening is not known to have succeeded. */
  lemma {:induction false} SubmittedIsBound(states: seq<State>, labels: seq<Label>, i: nat, t: Token)
    requires Run(states, labels) && i < |states| && t in states[i].recs && states[i].recs[t].state == Submitted
    ensures states[i].recs[t].pageId != ""
  {
    hide Inv, Apply, Enabled, Attempted, WonBy;
    var j := WinnerDecides(states, labels, i, t);
    RunGoesOn(states, labels, j, i);
    WinnerIsBound(states, labels, j, t);
  }

  lemma WinnerIsBound(states: seq<State>, labels: seq<Label>, j: nat, t: Token)
    requires Run(states, labels) && j < |labels| && Wins(states[j], labels[j], t)
    requires Attempted(states[j], labels[j]).value.move.next == Submitted
    ensures states[j].recs[t].pageId != ""
  {
    if labels[j].OfHelper? && labels[j].helper.DriveEnd? {
      var id := labels[j].id;
      var i := DriveBegan(states, labels, j, id);
      DriveRemembers(states, labels, i, j, id);
      var k: nat :| k < j && FirstShown(labels, i, k, id, t);
      assert Enabled(states[k], labels[k]);
      RunGoesOn(states, labels, k, j);
    }
  }

  /** A page is handed to a watcher exactly if the runtime that opened it has not ended by then. */
  lemma HandedWhileItsRuntimeLives(states: seq<State>, labels: seq<Label>, i: nat, t: Token)
    requires Run(states, labels) && i < |labels| && labels[i] == OfCall(t, Hand)
    ensures t in states[i].ctls && t in states[i + 1].owners
    ensures states[i + 1].owners[t].Watching? <==> forall k: nat :: k < i ==> labels[k] != Shut(states[i].ctls[t])
    ensures !states[i + 1].owners[t].Watching? ==> states[i + 1].owners[t] == Leaving(Exit(0))
  {
    assert Enabled(states[i], labels[i]);
    ShutAre(states, labels, i, states[i].ctls[t]);
  }

  lemma {:induction false} ShutAre(states: seq<State>, labels: seq<Label>, i: nat, ctl: nat)
    requires Run(states, labels) && i < |states|
    ensures ctl in states[i].shut <==> exists k: nat :: k < i && labels[k] == Shut(ctl)
  {
    hide Enabled, Apply;
    if i > 0 {
      ShutAre(states, labels, i - 1, ctl);
      ShutStep(states[i - 1], labels[i - 1]);
    }
  }

  lemma ShutStep(s: State, l: Label)
    requires Enabled(s, l)
    ensures Apply(s, l).shut == s.shut + (if l.Shut? then {l.ctl} else {})
  {
    hide ApplyCall, ApplyHelper, CallEnabled, HelperEnabled;
    match l
    case OfCall(t, step) => CallLeavesShut(s, t, step);
    case OfHelper(id, step) => HelperLeavesShut(s, id, step);
    case _ =>
  }

  lemma CallLeavesShut(s: State, t: Token, l: CallStep)
    requires CallEnabled(s, t, l)
    ensures ApplyCall(s, t, l).shut == s.shut
  {
    hide Dropped, History, Added, Named, Moved, PageRuns.Counted, GivesUp;
  }

  lemma HelperLeavesShut(s: State, id: nat, l: HelperStep)
    requires HelperEnabled(s, id, l)
    ensures ApplyHelper(s, id, l).shut == s.shut
  {
    hide Dropped, History, Moved, InSlot, Tokens;
  }

  // ----- progress -----

  lemma OneMore(states: seq<State>, labels: seq<Label>, l: Label) returns (states': seq<State>, labels': seq<Label>)
    requires Run(states, labels) && |states| == |labels| + 1 && Enabled(states[|labels|], l)
    ensures Run(states', labels') && labels' == labels + [l] && states' == states + [Apply(states[|labels|], l)]
  {
    hide Enabled, Apply;
    states', labels' := states + [Apply(states[|labels|], l)], labels + [l];
    forall i: nat | i < |labels'| ensures Enabled(states'[i], labels'[i]) && states'[i + 1] == Apply(states'[i], labels'[i]) {
      if i < |labels| { assert states'[i] == states[i] && labels'[i] == labels[i] && states'[i + 1] == states[i + 1]; }
    }
  }

  /** A step its owner can take: agtermctl fails, a blocking call waits, another hands its page on, the
      context of a wait ends, an outcome is read, a page is released. */
  function NextOwn(o: Owner): CallStep
    requires !o.Done?
  {
    match o
    case Opening(_) => OpenFailed(1)
    case Bound(block) => if block then Block else Hand
    case Waiting(_, _) => CtxEnds
    case Watching(_, _) => CtxEnds
    case Finished => ReadOutcome
    case Leaving(_) => Release
  }

  function OwnLeft(o: Owner): nat {
    match o
    case Opening(_) => 4
    case Bound(_) => 4
    case Waiting(_, _) => 3
    case Watching(_, _) => 3
    case Finished => 2
    case Leaving(_) => 1
    case Done(_) => 0
  }

  /** No owner is ever stuck with its page: by steps of its own alone, whatever the others do, it can come
      to its end, and then neither the page nor its temp directory is left. */
  lemma {:induction false} OwnerCanEnd(states: seq<State>, labels: seq<Label>, t: Token)
      returns (states': seq<State>, labels': seq<Label>)
    requires Run(states, labels) && |states| == |labels| + 1 && t in states[|labels|].owners
    ensures Run(states', labels') && |states'| == |labels'| + 1 && labels <= labels'
    ensures forall k: nat :: |labels| <= k < |labels'| ==> labels'[k].OfCall? && labels'[k].token == t
    ensures var s := states'[|labels'|]; t in s.owners && s.owners[t].Done? && t !in s.reg.pages && t !in s.dirs
    decreases OwnLeft(states[|labels|].owners[t])
  {
    var s := states[|labels|];
    RunKeepsInv(states, labels, |labels|);
    assert TokenOk(s, t);
    hide Run, Inv;
    states', labels' := states, labels;
    if !s.owners[t].Done? {
      OwnMoves(s, t);
      hide NextOwn, OwnLeft, Enabled, Apply;
      var states1, labels1 := OneMore(states, labels, OfCall(t, NextOwn(s.owners[t])));
      states', labels' := OwnerCanEnd(states1, labels1, t);
      assert forall k: nat :: |labels1| <= k < |labels'| ==> labels'[k].OfCall? && labels'[k].token == t;
      assert labels'[|labels|] == labels1[|labels|];
    }
  }

  lemma OwnMoves(s: State, t: Token)
    requires Owns(s, t) && !s.owners[t].Done?
    ensures var l := OfCall(t, NextOwn(s.owners[t]));
            Enabled(s, l) && t in Apply(s, l).owners && OwnLeft(Apply(s, l).owners[t]) < OwnLeft(s.owners[t])
  {
    hide Dropped, History;
  }

  /** A page can be submitted as long as it is there, open and bound: a POST that finds it by its token
      and is let through submits it with its value. */
  lemma PostSubmits(states: seq<State>, labels: seq<Label>, id: nat, t: Token, text: string)
      returns (states': seq<State>, labels': seq<Label>)
    requires Run(states, labels) && |states| == |labels| + 1
    requires var s := states[|labels|];
             id !in s.posts && t in s.reg.pages && t in s.recs && s.recs[t].state == Open && s.recs[t].pageId != ""
    ensures Run(states', labels') && labels' == labels + [OfHelper(id, PostFound(t)), OfHelper(id, PostMove(true, text))]
    ensures var s := states'[|labels'|]; t in s.recs && s.recs[t].state == Submitted && s.recs[t].value == text && id !in s.posts
  {
    hide Run;
    var states1, labels1 := OneMore(states, labels, OfHelper(id, PostFound(t)));
    states', labels' := OneMore(states1, labels1, OfHelper(id, PostMove(true, text)));
  }
}
