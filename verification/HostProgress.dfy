/** Progress in the host lifecycle: from every state a run can reach, every call of startHost and
    stopHost can return, and Close can give the flock back, by steps of what already runs: no timeout
    has to fire, and no call has to be made. */
module HostProgress {
  import opened HostLifecycle

  /** A step of a call that runs, or of a goroutine on its way to its end. */
  predicate Unforced(l: Label) {
    match l
    case InStartHost(step) => !step.CallStart?
    case InStopHost(step) => !step.CallStop? && (step.StopFree? ==> !step.timedOut)
    case InLifetime(step) => !step.Start? && !step.CloseBegin? && (step.CloseProceed? ==> !step.timedOut)
    case Ambient(step) => !step.AddOther? && !step.OtherProcess? && !step.OtherProcessDies?
  }

  function Last(states: seq<State>): State
    requires states != []
  { states[|states| - 1] }

  /** The second run goes on from the first by unforced steps. */
  ghost predicate Continues(states: seq<State>, labels: seq<Label>, states': seq<State>, labels': seq<Label>) {
    && Run(states', labels') && labels <= labels' && states <= states'
    && forall k: nat :: |labels| <= k < |labels'| ==> Unforced(labels'[k])
  }

  lemma Onward(
    states: seq<State>, labels: seq<Label>, states1: seq<State>, labels1: seq<Label>,
    states2: seq<State>, labels2: seq<Label>)
    requires Continues(states, labels, states1, labels1) && Continues(states1, labels1, states2, labels2)
    ensures Continues(states, labels, states2, labels2)
  {
    forall k: nat | |labels| <= k < |labels2| ensures Unforced(labels2[k]) {
      if k < |labels1| { assert labels2[k] == labels1[k]; }
    }
  }

  /** One step more. */
  lemma Step(states: seq<State>, labels: seq<Label>, l: Label) returns (states': seq<State>, labels': seq<Label>)
    requires Run(states, labels) && Enabled(Last(states), l) && Unforced(l)
    ensures Continues(states, labels, states', labels') && Inv(Last(states'))
    ensures Last(states') == Apply(Last(states), l)
  {
    hide Init, Enabled, Apply, Inv, Unforced;
    states', labels' := OneMore(states, labels, l, Apply(Last(states), l));
    RunKeepsInv(states', labels', |labels'|);
  }

  // ----- teardowns -----

  predicate Tearing(th: Thread) { th.Teardown? || th.Freed? }

  /** The next step of the teardown that thread u is in. */
  function TeardownStep(s: State, u: nat): (l: Label)
    requires Inv(s) && At(s, u) && Tearing(s.threads[u])
  {
    assert ThreadOk(s, s.threads[u]);
    var r := s.threads[u].rid;
    if s.threads[u].Freed? then InStopHost(StopClose(u))
    else if s.rts[r].listening then Ambient(ListenerDown(r))
    else if s.rts[r].done > 0 then Ambient(GoroutineDone(r))
    else InStopHost(StopFree(u, false))
  }

  /** How far a teardown is from its end. */
  function TeardownLeft(s: State, u: nat): nat
    requires Inv(s) && At(s, u)
  {
    assert ThreadOk(s, s.threads[u]);
    match s.threads[u]
    case Freed(_) => 1
    case Teardown(r) =>
      assert RuntimeOk(s.rts[r]);
      2 + s.rts[r].done + (if s.rts[r].listening then 1 else 0)
    case _ => 0
  }

  lemma TeardownMoves(s: State, u: nat)
    requires Inv(s) && At(s, u) && Tearing(s.threads[u])
    ensures var l := TeardownStep(s, u);
            && Enabled(s, l) && Unforced(l)
            && var s' := Apply(s, l);
               && s'.closer == s.closer
               && (s'.threads == s.threads
                   || (s.threads[u].Teardown? && s'.threads == s.threads[u := Freed(s.threads[u].rid)])
                   || (s.threads[u].Freed? && s'.threads == s.threads[u := Exited(Succeeded)]))
               && (Inv(s') ==> TeardownLeft(s', u) < TeardownLeft(s, u))
  {
    assert ThreadOk(s, s.threads[u]);
    assert RuntimeOk(s.rts[s.threads[u].rid]);
  }

  /** A teardown comes to its end by the ends of its goroutines; the other calls stay where they are. */
  lemma {:induction false} TeardownEnds(states: seq<State>, labels: seq<Label>, u: nat)
      returns (states': seq<State>, labels': seq<Label>)
    requires Run(states, labels) && Inv(Last(states)) && At(Last(states), u) && Tearing(Last(states).threads[u])
    ensures Continues(states, labels, states', labels') && Inv(Last(states'))
    ensures Last(states').threads == Last(states).threads[u := Exited(Succeeded)]
    ensures Last(states').closer == Last(states).closer
    decreases TeardownLeft(Last(states), u)
  {
    assert states != [];
    hide Run, Inv, Enabled, Apply, TeardownStep, TeardownLeft;
    var s := Last(states);
    TeardownMoves(s, u);
    states', labels' := Step(states, labels, TeardownStep(s, u));
    var s1, states1, labels1 := Last(states'), states', labels';
    if Tearing(s1.threads[u]) {
      states', labels' := TeardownEnds(states1, labels1, u);
      Onward(states, labels, states1, labels1, states', labels');
    }
  }

  // ----- every teardown under way -----

  predicate NoneTearing(threads: seq<Thread>, n: nat) {
    forall u: nat :: u < n && u < |threads| ==> !Tearing(threads[u])
  }

  /** The teardowns among the first n calls come to their ends. */
  lemma {:induction false} TeardownsEnd(states: seq<State>, labels: seq<Label>, n: nat)
      returns (states': seq<State>, labels': seq<Label>)
    requires Run(states, labels) && Inv(Last(states)) && n <= |Last(states).threads|
    ensures Continues(states, labels, states', labels') && Inv(Last(states'))
    ensures |Last(states').threads| == |Last(states).threads| && NoneTearing(Last(states').threads, n)
    ensures Last(states').closer == Last(states).closer
  {
    assert states != [];
    hide Run, Inv;
    if n == 0 {
      states', labels' := states, labels;
    } else {
      var states1, labels1 := TeardownsEnd(states, labels, n - 1);
      states', labels' := states1, labels1;
      if Tearing(Last(states1).threads[n - 1]) {
        states', labels' := TeardownEnds(states1, labels1, n - 1);
        Onward(states, labels, states1, labels1, states', labels');
      }
    }
  }

  /** Nothing is being torn down: whatever was stopping is torn down, and no slot holds such a runtime. */
  lemma Settled(s: State)
    requires Inv(s) && NoneTearing(s.threads, |s.threads|)
    ensures forall r: nat :: r < |s.rts| && s.rts[r].stopping ==> s.rts[r].torndown
    ensures forall h :: h in s.slots ==> s.slots[h] < |s.rts| && !s.rts[s.slots[h]].stopping
  {
    assert forall r :: !HasWaker(s, r);
    forall h | h in s.slots ensures s.slots[h] < |s.rts| && !s.rts[s.slots[h]].stopping {
      assert SlotOk(s, h);
    }
  }

  // ----- one call -----

  /** What a call does next once no teardown is under way. The remote round trips may fail, and a path
      need not be bound, so no answer of the world is needed either. */
  function NextStep(s: State, t: nat): Label
    requires At(s, t) && !s.threads[t].Exited? && !Tearing(s.threads[t])
  {
    match s.threads[t]
    case Starting(_, _) => InStartHost(EarlyCheck(t))
    case EarlyWait(_, _) => InStartHost(EarlyWake(t))
    case Building(_) => InStartHost(Build(t, 2, false))
    case Claiming(_, _) => InStartHost(Claim(t, FailedKept))
    case LateWait(_, _, _) => InStartHost(LateWake(t))
    case Releasing(_, left, owes, _, _) =>
      InStartHost(if left == 0 then ReleaseClose(t) else if owes then ReleaseKid(t) else ReleaseDone(t))
    case Stopping(_) => InStopHost(StopClaim(t))
    case StopWait(_) => InStopHost(StopWake(t))
  }

  /** How far it is from its end, in two digits. */
  function Rank(th: Thread): (nat, nat) {
    match th
    case EarlyWait(_, _) => (5, 0)
    case Starting(_, _) => (4, 0)
    case LateWait(_, _, _) => (3, 0)
    case Claiming(_, _) => (2, 0)
    case Releasing(_, left, owes, _, _) => (1, if owes then 2 * left + 1 else 2 * left + 2)
    case Building(_) => (1, 0)
    case Stopping(_) => (1, 0)
    case StopWait(_) => (1, 0)
    case _ => (0, 0)
  }

  predicate Below(a: (nat, nat), b: (nat, nat)) { a.0 < b.0 || (a.0 == b.0 && a.1 < b.1) }

  /** The call moves, alone, towards its end or into a teardown of its own. */
  ghost predicate Moves(s: State, t: nat, s': State) {
    && s'.closer == s.closer && At(s, t) && |s'.threads| == |s.threads| && s'.threads == s.threads[t := s'.threads[t]]
    && Below(Rank(s'.threads[t]), Rank(s.threads[t]))
  }

  /** No call is stuck. */
  lemma NextIsEnabled(s: State, t: nat)
    requires Inv(s) && NoneTearing(s.threads, |s.threads|) && At(s, t) && !s.threads[t].Exited?
    ensures Enabled(s, NextStep(s, t)) && Unforced(NextStep(s, t))
  {
    hide FileAt, SlotsInv, RuntimesInv, FilesInv, CountInv;
    assert ThreadOk(s, s.threads[t]);
    Settled(s);
    assert forall r :: r in WaitsOn(s.threads[t]) ==> Torn(s, r);
    match s.threads[t]
    case EarlyWait(_, on) => assert on in WaitsOn(s.threads[t]);
    case LateWait(_, _, on) => assert on in WaitsOn(s.threads[t]);
    case StopWait(on) => assert on in WaitsOn(s.threads[t]);
    case _ =>
  }

  lemma CallMoves(s: State, t: nat)
    requires Inv(s) && NoneTearing(s.threads, |s.threads|) && At(s, t) && !s.threads[t].Exited?
    ensures var l := NextStep(s, t); Enabled(s, l) && Unforced(l) && Moves(s, t, Apply(s, l))
  {
    NextIsEnabled(s, t);
    Settled(s);
    hide Moves, Rank, Apply, Enabled, Unforced, Inv;
    match s.threads[t]
    case Claiming(_, _) => ClaimMoves(s, t);
    case Releasing(_, _, _, _, _) => ReleaseMoves(s, t);
    case Stopping(_) => StopMoves(s, t);
    case Starting(_, _) => CheckMoves(s, t);
    case EarlyWait(_, _) => WaitMoves(s, t);
    case LateWait(_, _, _) => WaitMoves(s, t);
    case StopWait(_) => WaitMoves(s, t);
    case Building(_) => WaitMoves(s, t);
    case _ =>
  }

  lemma ClaimMoves(s: State, t: nat)
    requires Inv(s) && At(s, t) && s.threads[t].Claiming? && Enabled(s, InStartHost(Claim(t, FailedKept)))
    requires forall h :: h in s.slots ==> s.slots[h] < |s.rts| && !s.rts[s.slots[h]].stopping
    ensures Moves(s, t, Apply(s, InStartHost(Claim(t, FailedKept))))
  {
    assert RuntimeOk(s.rts[s.threads[t].rid]);
    hide ThreadsInv, SlotsInv, FilesInv, CountInv, FileAt;
  }

  lemma ReleaseMoves(s: State, t: nat)
    requires At(s, t) && s.threads[t].Releasing? && Enabled(s, NextStep(s, t))
    ensures Moves(s, t, Apply(s, NextStep(s, t)))
  {
    Released(s, t);
    hide NextStep, Apply, Enabled;
  }

  lemma Released(s: State, t: nat)
    requires At(s, t) && s.threads[t].Releasing? && Enabled(s, NextStep(s, t))
    ensures var th := s.threads[t];
            && Apply(s, NextStep(s, t)).closer == s.closer
            && Apply(s, NextStep(s, t)).threads == s.threads[t :=
              if th.left == 0 then Exited(th.result)
              else if th.owes then Releasing(th.rid, th.left - 1, false, th.reserved, th.result)
              else if th.reserved then Releasing(th.rid, th.left, true, th.reserved, th.result)
              else Releasing(th.rid, th.left - 1, false, th.reserved, th.result)]
  {
    if s.threads[t].left == 0 { ReleasedClose(s, t); }
    else if s.threads[t].owes { ReleasedKid(s, t); }
    else { ReleasedDone(s, t); }
    hide StartEnabled, ApplyStart;
  }

  lemma ReleasedClose(s: State, t: nat)
    requires At(s, t) && StartEnabled(s, ReleaseClose(t))
    ensures ApplyStart(s, ReleaseClose(t)).closer == s.closer
    ensures ApplyStart(s, ReleaseClose(t)).threads == s.threads[t := Exited(s.threads[t].result)]
  {}

  lemma ReleasedKid(s: State, t: nat)
    requires At(s, t) && StartEnabled(s, ReleaseKid(t))
    ensures ApplyStart(s, ReleaseKid(t)).closer == s.closer
    ensures ApplyStart(s, ReleaseKid(t)).threads == s.threads[t := s.threads[t].(owes := false, left := s.threads[t].left - 1)]
  {}

  lemma ReleasedDone(s: State, t: nat)
    requires At(s, t) && StartEnabled(s, ReleaseDone(t))
    ensures var th := s.threads[t];
            && ApplyStart(s, ReleaseDone(t)).closer == s.closer
            && ApplyStart(s, ReleaseDone(t)).threads ==
               s.threads[t := if th.reserved then th.(owes := true) else th.(left := th.left - 1)]
  {}

  lemma StopMoves(s: State, t: nat)
    requires At(s, t) && s.threads[t].Stopping?
    requires forall h :: h in s.slots ==> s.slots[h] < |s.rts| && !s.rts[s.slots[h]].stopping
    ensures Moves(s, t, Apply(s, InStopHost(StopClaim(t))))
  {
    StopClaimed(s, t);
    hide AfterStopClaim, Moves;
  }

  lemma StopClaimed(s: State, t: nat)
    requires At(s, t) && s.threads[t].Stopping?
    requires forall h :: h in s.slots ==> s.slots[h] < |s.rts| && !s.rts[s.slots[h]].stopping
    ensures Moves(s, t, AfterStopClaim(s, t))
  {}

  lemma CheckMoves(s: State, t: nat)
    requires At(s, t) && s.threads[t].Starting?
    requires forall h :: h in s.slots ==> s.slots[h] < |s.rts| && !s.rts[s.slots[h]].stopping
    ensures Moves(s, t, Apply(s, InStartHost(EarlyCheck(t))))
  {
    hide AfterClaim, ApplyStop, ApplyClose, ApplyAmbient, FileAt;
  }

  lemma WaitMoves(s: State, t: nat)
    requires At(s, t) && (s.threads[t].EarlyWait? || s.threads[t].LateWait? || s.threads[t].StopWait? || s.threads[t].Building?)
    requires Enabled(s, NextStep(s, t))
    ensures Moves(s, t, Apply(s, NextStep(s, t)))
  {
    hide AfterClaim, AfterEarlyCheck, AfterStopClaim, AfterStopFree, CloseTorndown, ChildDone, ApplyClose, ApplyAmbient, Answers, FileAt;
  }

  /** Once no teardown is under way, a call comes to its end; the others stay where they are. */
  lemma {:induction false} CallEnds(states: seq<State>, labels: seq<Label>, t: nat)
      returns (states': seq<State>, labels': seq<Label>)
    requires Run(states, labels) && Inv(Last(states)) && At(Last(states), t)
    requires NoneTearing(Last(states).threads, |Last(states).threads|) || Last(states).threads[t].Exited?
    ensures Continues(states, labels, states', labels') && Inv(Last(states'))
    ensures At(Last(states'), t) && Last(states').threads[t].Exited?
    ensures Last(states').threads == Last(states).threads[t := Last(states').threads[t]]
    ensures Last(states').closer == Last(states).closer
    decreases Rank(Last(states).threads[t]).0, Rank(Last(states).threads[t]).1
  {
    assert states != [];
    hide Run, Inv, Enabled, Apply, Rank, NextStep;
    var s := Last(states);
    if s.threads[t].Exited? {
      states', labels' := states, labels;
    } else {
      CallMoves(s, t);
      states', labels' := Step(states, labels, NextStep(s, t));
      var states1, labels1 := states', labels';
      if Tearing(Last(states1).threads[t]) {
        states', labels' := TeardownEnds(states1, labels1, t);
      } else {
        states', labels' := CallEnds(states1, labels1, t);
      }
      Onward(states, labels, states1, labels1, states', labels');
    }
  }

  /** Every call of startHost and stopHost that a run has begun can return, whatever else is under way:
      the teardowns come to their ends, and then the call does. */
  lemma EveryCallCanReturn(states: seq<State>, labels: seq<Label>, t: nat)
      returns (states': seq<State>, labels': seq<Label>)
    requires Run(states, labels) && At(Last(states), t)
    ensures Continues(states, labels, states', labels')
    ensures At(Last(states'), t) && Last(states').threads[t].Exited?
  {
    RunKeepsInv(states, labels, |labels|);
    hide Run, Inv;
    var states1, labels1 := TeardownsEnd(states, labels, |Last(states).threads|);
    states', labels' := CallEnds(states1, labels1, t);
    Onward(states, labels, states1, labels1, states', labels');
  }

  // ----- Close -----

  predicate AllExited(threads: seq<Thread>, n: nat) {
    forall t: nat :: t < n && t < |threads| ==> threads[t].Exited?
  }

  /** The first n calls come to their ends. */
  lemma {:induction false} CallsEnd(states: seq<State>, labels: seq<Label>, n: nat)
      returns (states': seq<State>, labels': seq<Label>)
    requires Run(states, labels) && Inv(Last(states)) && n <= |Last(states).threads|
    requires NoneTearing(Last(states).threads, |Last(states).threads|)
    ensures Continues(states, labels, states', labels') && Inv(Last(states'))
    ensures |Last(states').threads| == |Last(states).threads| && AllExited(Last(states').threads, n)
    ensures NoneTearing(Last(states').threads, |Last(states').threads|)
    ensures Last(states').closer == Last(states).closer
  {
    assert states != [];
    hide Run, Inv;
    if n == 0 {
      states', labels' := states, labels;
    } else {
      var states1, labels1 := CallsEnd(states, labels, n - 1);
      states', labels' := CallEnds(states1, labels1, n - 1);
      Onward(states, labels, states1, labels1, states', labels');
    }
  }

  /** Shares of the daemon's counter that no goroutine will give back are owed by a call. */
  ghost predicate Owed(s: State) {
    forall r: nat :: r < |s.rts| && !s.rts[r].bound && s.rts[r].kids > 0 ==> Owes(s, r)
  }

  ghost predicate Owes(s: State, r: nat) {
    exists t: nat :: t < |s.threads| && s.threads[t].Releasing? && s.threads[t].rid == r
  }

  lemma {:induction false} SharesAreOwed(states: seq<State>, labels: seq<Label>, i: nat)
    requires Run(states, labels) && i < |states|
    ensures Owed(states[i])
  {
    if i > 0 {
      SharesAreOwed(states, labels, i - 1);
      RunKeepsInv(states, labels, i - 1);
      StepKeepsOwed(states[i - 1], labels[i - 1]);
    }
  }

  /** No runtime but one in `own` becomes an unbound one with shares, and who owes goes on owing. */
  ghost predicate KeepsOwing(s: State, s': State, own: set<nat>) {
    && |s.rts| <= |s'.rts|
    && (forall r: nat :: r < |s'.rts| && !s'.rts[r].bound && s'.rts[r].kids > 0 && r !in own ==>
          r < |s.rts| && !s.rts[r].bound && s.rts[r].kids > 0)
    && (forall r: nat :: r in own && r < |s'.rts| && !s'.rts[r].bound && s'.rts[r].kids > 0 ==> Owes(s', r))
    && |s.threads| <= |s'.threads|
    && (forall t: nat :: t < |s.threads| && s.threads[t].Releasing? && s.threads[t].rid !in own ==>
          s'.threads[t].Releasing? && s'.threads[t].rid == s.threads[t].rid)
  }

  lemma OwedKept(s: State, s': State, own: set<nat>)
    requires Owed(s) && KeepsOwing(s, s', own)
    ensures Owed(s')
  {
    forall r: nat | r < |s'.rts| && !s'.rts[r].bound && s'.rts[r].kids > 0 ensures Owes(s', r) {
      if r !in own {
        assert Owes(s, r);
        var t: nat :| t < |s.threads| && s.threads[t].Releasing? && s.threads[t].rid == r;
        assert s'.threads[t].Releasing? && s'.threads[t].rid == r;
      }
    }
  }

  lemma StepKeepsOwed(s: State, l: Label)
    requires Inv(s) && Enabled(s, l) && Owed(s)
    ensures Owed(Apply(s, l))
  {
    hide Owed, KeepsOwing, StartEnabled, ApplyStart, StopEnabled, ApplyStop, CloseEnabled, ApplyClose, AmbientEnabled, ApplyAmbient, Inv;
    match l
    case InStartHost(step) => StartKeepsOwed(s, step);
    case InStopHost(step) => StopKeepsOwed(s, step);
    case InLifetime(step) => CloseKeepsOwed(s, step);
    case Ambient(step) => AmbientKeepsOwed(s, step);
  }

  lemma StopKeepsOwed(s: State, l: StopStep)
    requires StopEnabled(s, l) && Owed(s)
    ensures Owed(ApplyStop(s, l))
  {
    StopKeepsShares(s, l);
    forall t: nat | t < |s.threads| && s.threads[t].Releasing?
      ensures t < |ApplyStop(s, l).threads| && ApplyStop(s, l).threads[t] == s.threads[t]
    {
      OtherStop(s, l, t);
    }
    hide Owed, StopEnabled, ApplyStop;
    OwedKept(s, ApplyStop(s, l), {});
  }

  lemma StopKeepsShares(s: State, l: StopStep)
    requires StopEnabled(s, l)
    ensures var s' := ApplyStop(s, l);
            && |s'.threads| >= |s.threads| && |s'.rts| == |s.rts|
            && forall r: nat :: r < |s.rts| ==> s'.rts[r].bound == s.rts[r].bound && s'.rts[r].kids == s.rts[r].kids
  {
    hide AfterStopClaim, AfterStopFree, FileAt;
    match l
    case StopClaim(t) => ClaimedShares(s, t);
    case StopFree(t, _) => FreedShares(s, t);
    case _ =>
  }

  lemma ClaimedShares(s: State, t: nat)
    requires At(s, t) && s.threads[t].Stopping?
    ensures var s' := AfterStopClaim(s, t);
            && |s'.threads| == |s.threads| && |s'.rts| == |s.rts|
            && forall r: nat :: r < |s.rts| ==> s'.rts[r].bound == s.rts[r].bound && s'.rts[r].kids == s.rts[r].kids
  {
    var h := s.threads[t].host;
    if h in s.slots && s.slots[h] < |s.rts| {
      var q := s.slots[h];
      assert AfterStopClaim(s, t).rts == if s.rts[q].stopping then s.rts else s.rts[q := s.rts[q].(stopping := true)];
    }
    hide AfterStopClaim;
  }

  lemma FreedShares(s: State, t: nat)
    requires StopEnabled(s, StopFree(t, true))
    ensures AfterStopFree(s, t).rts == s.rts && |AfterStopFree(s, t).threads| == |s.threads|
  {}

  lemma CloseKeepsOwed(s: State, l: CloseStep)
    requires CloseEnabled(s, l) && Owed(s)
    ensures Owed(ApplyClose(s, l))
  {
    hide BoundOf;
    OwedKept(s, ApplyClose(s, l), {});
  }

  lemma AmbientKeepsOwed(s: State, l: AmbientStep)
    requires AmbientEnabled(s, l) && Owed(s)
    ensures Owed(ApplyAmbient(s, l))
  {
    OwedKept(s, ApplyAmbient(s, l), {});
  }

  lemma StartKeepsOwed(s: State, l: StartStep)
    requires Inv(s) && StartEnabled(s, l) && Owed(s)
    ensures Owed(ApplyStart(s, l))
  {
    hide Owed, Inv, ApplyStart, StartEnabled;
    match l
    case Claim(t, bind) => ClaimKeepsOwed(s, t, bind);
    case ReleaseDone(_) => ReleaseKeepsOwed(s, l);
    case ReleaseKid(_) => ReleaseKeepsOwed(s, l);
    case ReleaseClose(_) => ReleaseKeepsOwed(s, l);
    case _ => WaitKeepsOwed(s, l);
  }

  lemma ClaimKeepsOwed(s: State, t: nat, bind: BindResult)
    requires Inv(s) && StartEnabled(s, Claim(t, bind)) && Owed(s)
    ensures Owed(ApplyStart(s, Claim(t, bind)))
  {
    var s' := ApplyStart(s, Claim(t, bind));
    var r := s.threads[t].rid;
    assert ThreadOk(s, s.threads[t]);
    hide Owed, SlotsInv, RuntimesInv, FilesInv, CountInv, FileAt, Answers, SoleHolders;
    assert s'.threads[t].Releasing? ==> s'.threads[t].rid == r;
    OwedKept(s, s', {r});
  }

  lemma ReleaseKeepsOwed(s: State, l: StartStep)
    requires Inv(s) && StartEnabled(s, l) && (l.ReleaseDone? || l.ReleaseKid? || l.ReleaseClose?) && Owed(s)
    ensures Owed(ApplyStart(s, l))
  {
    assert ThreadOk(s, s.threads[l.t]);
    hide Owed, SlotsInv, RuntimesInv, FilesInv, CountInv, FileAt, AfterClaim, AfterEarlyCheck;
    OwedKept(s, ApplyStart(s, l), if l.ReleaseClose? then {s.threads[l.t].rid} else {});
  }

  lemma WaitKeepsOwed(s: State, l: StartStep)
    requires StartEnabled(s, l) && !l.Claim? && !l.ReleaseDone? && !l.ReleaseKid? && !l.ReleaseClose? && Owed(s)
    ensures Owed(ApplyStart(s, l))
  {
    WaitKeepsShares(s, l);
    hide Owed, StartEnabled, ApplyStart;
    OwedKept(s, ApplyStart(s, l), {});
  }

  lemma WaitKeepsShares(s: State, l: StartStep)
    requires StartEnabled(s, l) && !l.Claim? && !l.ReleaseDone? && !l.ReleaseKid? && !l.ReleaseClose?
    ensures var s' := ApplyStart(s, l);
            && (s'.rts == s.rts || (|s'.rts| == |s.rts| + 1 && s'.rts[..|s.rts|] == s.rts && s'.rts[|s.rts|].kids == 0))
            && |s.threads| <= |s'.threads|
            && forall t: nat :: t < |s.threads| && s.threads[t].Releasing? ==> s'.threads[t] == s.threads[t]
  {
    hide FileAt, Answers, AfterClaim, AfterEarlyCheck, ChildDone, CloseTorndown;
    match l
    case Build(_, _, _) =>
    case _ =>
  }

  /** The next end of a goroutine of runtime r. */
  function ShareStep(s: State, r: nat): Label
    requires r < |s.rts|
  {
    Ambient(if s.rts[r].listening then ListenerDown(r) else if s.rts[r].done > 0 then GoroutineDone(r) else GoroutineKid(r))
  }

  function SharesLeft(s: State, r: nat): nat
    requires Inv(s) && r < |s.rts|
  {
    assert RuntimeOk(s.rts[r]);
    s.rts[r].kids + s.rts[r].done + (if s.rts[r].listening then 1 else 0)
  }

  /** Only runtime r is another, and the daemon's counter may be lower. */
  ghost predicate OnlyRuntime(s: State, s': State, r: nat) {
    && r < |s.rts| && s'.threads == s.threads && s'.closer == s.closer && s'.others == s.others
    && |s'.rts| == |s.rts| && s'.rts == s.rts[r := s'.rts[r]] && s'.rts[r].bound == s.rts[r].bound
  }

  lemma ShareMoves(s: State, r: nat)
    requires Inv(s) && r < |s.rts| && s.rts[r].bound && s.rts[r].kids > 0
    ensures var l := ShareStep(s, r);
            && Enabled(s, l) && Unforced(l) && OnlyRuntime(s, Apply(s, l), r)
            && (Inv(Apply(s, l)) ==> SharesLeft(Apply(s, l), r) < SharesLeft(s, r))
  {
    assert RuntimeOk(s.rts[r]);
  }

  /** The goroutines of a runtime give back its share of the daemon's counter. */
  lemma {:induction false} SharesEnd(states: seq<State>, labels: seq<Label>, r: nat)
      returns (states': seq<State>, labels': seq<Label>)
    requires Run(states, labels) && Inv(Last(states)) && r < |Last(states).rts| && Last(states).rts[r].bound
    ensures Continues(states, labels, states', labels') && Inv(Last(states'))
    ensures OnlyRuntime(Last(states), Last(states'), r) && Last(states').rts[r].kids == 0
    decreases SharesLeft(Last(states), r)
  {
    assert states != [];
    assert RuntimeOk(Last(states).rts[r]);
    hide Run, Inv, Enabled, Apply, ShareStep, SharesLeft;
    if Last(states).rts[r].kids == 0 {
      states', labels' := states, labels;
    } else {
      ShareMoves(Last(states), r);
      var states1, labels1 := Step(states, labels, ShareStep(Last(states), r));
      states', labels' := SharesEnd(states1, labels1, r);
      Onward(states, labels, states1, labels1, states', labels');
    }
  }

  predicate NoShares(rts: seq<Runtime>, n: nat) {
    forall r: nat :: r < n && r < |rts| ==> rts[r].kids == 0
  }

  /** With every call returned, the goroutines give back the shares of the first n runtimes. */
  lemma {:induction false} AllSharesEnd(states: seq<State>, labels: seq<Label>, n: nat)
      returns (states': seq<State>, labels': seq<Label>)
    requires Run(states, labels) && Inv(Last(states)) && n <= |Last(states).rts|
    requires AllExited(Last(states).threads, |Last(states).threads|)
    ensures Continues(states, labels, states', labels') && Inv(Last(states'))
    ensures Last(states').threads == Last(states).threads && Last(states').closer == Last(states).closer
    ensures |Last(states').rts| == |Last(states).rts| && NoShares(Last(states').rts, n)
  {
    assert states != [];
    hide Run, Inv;
    if n == 0 {
      states', labels' := states, labels;
    } else {
      var states1, labels1 := AllSharesEnd(states, labels, n - 1);
      states', labels' := states1, labels1;
      if Last(states1).rts[n - 1].bound {
        states', labels' := SharesEnd(states1, labels1, n - 1);
        Onward(states, labels, states1, labels1, states', labels');
      } else {
        NothingOwed(states1, labels1, n - 1);
      }
    }
  }

  lemma NothingOwed(states: seq<State>, labels: seq<Label>, r: nat)
    requires Run(states, labels) && r < |Last(states).rts| && !Last(states).rts[r].bound
    requires AllExited(Last(states).threads, |Last(states).threads|)
    ensures Last(states).rts[r].kids == 0
  {
    RunKeepsInv(states, labels, |labels|);
    assert RuntimeOk(Last(states).rts[r]);
    SharesAreOwed(states, labels, |labels|);
    assert !Owes(Last(states), r);
  }

  lemma {:induction false} OthersEnd(states: seq<State>, labels: seq<Label>)
      returns (states': seq<State>, labels': seq<Label>)
    requires Run(states, labels) && Inv(Last(states))
    ensures Continues(states, labels, states', labels') && Inv(Last(states'))
    ensures Last(states').rts == Last(states).rts && Last(states').closer == Last(states).closer && Last(states').others == 0
    decreases Last(states).others
  {
    assert states != [] && 0 <= Last(states).others;
    hide Run, Inv;
    states', labels' := states, labels;
    if Last(states).others > 0 {
      var states1, labels1 := Step(states, labels, Ambient(OtherDone));
      states', labels' := OthersEnd(states1, labels1);
      Onward(states, labels, states1, labels1, states', labels');
    }
  }

  lemma {:induction false} NoKids(rts: seq<Runtime>)
    requires NoShares(rts, |rts|)
    ensures Kids(rts) == 0
  {
    if rts != [] { NoKids(rts[..|rts| - 1]); }
  }

  /** Every call and goroutine of the daemon can come to its end. */
  lemma ChildrenEnd(states: seq<State>, labels: seq<Label>) returns (states': seq<State>, labels': seq<Label>)
    requires Run(states, labels)
    ensures Continues(states, labels, states', labels') && Inv(Last(states'))
    ensures Last(states').children == 0 && Last(states').closer == Last(states).closer
  {
    RunKeepsInv(states, labels, |labels|);
    hide Run;
    var states1, labels1 := TeardownsEnd(states, labels, |Last(states).threads|);
    var states2, labels2 := CallsEnd(states1, labels1, |Last(states1).threads|);
    var states3, labels3 := AllSharesEnd(states2, labels2, |Last(states2).rts|);
    states', labels' := OthersEnd(states3, labels3);
    Onward(states, labels, states1, labels1, states2, labels2);
    Onward(states, labels, states2, labels2, states3, labels3);
    Onward(states, labels, states3, labels3, states', labels');
    NoKids(Last(states').rts);
  }

  // ----- the flock -----

  /** Close's next step once no child is left. */
  ghost function CloserStep(s: State): CloseStep
    requires s.closer != Idle
  {
    match s.closer
    case Unlinking(_, todo) => if todo == {} then CloseDrain else var r :| r in todo; CloseUnlink(r)
    case Draining(_) => if s.waiter == Woken then WaiterReturn else CloseProceed(false)
    case Final(_, todo, _) => if todo == {} then CloseFinish else var r :| r in todo; CloseUnlinkAgain(r)
  }

  function CloserRank(s: State): (nat, nat) {
    match s.closer
    case Unlinking(_, todo) => (3, |todo|)
    case Draining(_) => (2, if s.waiter == Woken then 1 else 0)
    case Final(_, todo, _) => (1, |todo|)
    case Idle => (0, 0)
  }

  /** The Close under way is the same, no further back, or has just finished. */
  ghost predicate Forward(s: State, l: Label, s': State) {
    if s'.closer == Idle then l == InLifetime(CloseFinish)
    else s.closer != Idle && CloserRank(s').0 <= CloserRank(s).0 && s'.closer.hosts == s.closer.hosts
         && (s'.closer.Unlinking? || (s.closer.Final? && s'.closer.Final?) ==> s'.closer.todo <= s.closer.todo)
  }

  /** Only one Close is under way: no step, another call of Close included, sends it back or changes the
      hosts it shuts down, and it ends by its own last step. */
  lemma CloseGoesForward(states: seq<State>, labels: seq<Label>, i: nat)
    requires Run(states, labels) && i < |labels| && states[i].closer != Idle
    ensures Forward(states[i], labels[i], states[i + 1])
  {
    RunKeepsInv(states, labels, i);
    CloserKeeps(states[i], labels[i]);
  }

  lemma CloserKeeps(s: State, l: Label)
    requires CountInv(s) && Enabled(s, l) && s.closer != Idle
    ensures Forward(s, l, Apply(s, l))
  {
    hide CountInv, StartEnabled, ApplyStart, StopEnabled, ApplyStop, CloseEnabled, ApplyClose;
    match l
    case InStartHost(step) => StartLeavesClose(s, step);
    case InStopHost(step) => StopLeavesClose(s, step);
    case InLifetime(step) => hide Forward; ClosePasses(s, step);
    case Ambient(step) =>
  }

  lemma ClosePasses(s: State, l: CloseStep)
    requires CountInv(s) && CloseEnabled(s, l) && s.closer != Idle
    ensures Forward(s, InLifetime(l), ApplyClose(s, l))
  {
    hide FileAt, BoundOf, Kids;
  }

  lemma StartLeavesClose(s: State, l: StartStep)
    requires StartEnabled(s, l)
    ensures ApplyStart(s, l).closer == s.closer
  {
    hide FileAt, AfterEarlyCheck, AfterClaim, Answers;
    if l.Claim? { ClaimLeavesClose(s, l.t, l.bind); }
  }

  lemma ClaimLeavesClose(s: State, t: nat, bind: BindResult)
    requires StartEnabled(s, Claim(t, bind))
    ensures AfterClaim(s, t, bind).closer == s.closer
  {
    hide FileAt, Answers;
  }

  lemma StopLeavesClose(s: State, l: StopStep)
    requires StopEnabled(s, l)
    ensures ApplyStop(s, l).closer == s.closer
  {
    hide FileAt, AfterStopClaim, AfterStopFree;
    match l
    case StopClaim(t) => StopClaimLeavesClose(s, t);
    case StopFree(t, _) => StopFreeLeavesClose(s, t);
    case _ =>
  }

  lemma StopClaimLeavesClose(s: State, t: nat)
    requires At(s, t) && s.threads[t].Stopping?
    ensures AfterStopClaim(s, t).closer == s.closer
  {}

  lemma StopFreeLeavesClose(s: State, t: nat)
    requires At(s, t) && s.threads[t].Teardown? && s.threads[t].rid < |s.rts|
    ensures AfterStopFree(s, t).closer == s.closer
  {}

  /** Close's way with the paths: those still owned while it unlinks are to be unlinked, and none is
      owned while it waits for its children. */
  ghost predicate Unlinked(s: State) {
    && (s.closer.Unlinking? ==> forall h :: FileAt(s.files, h).Owned? ==> FileAt(s.files, h).rid in s.closer.todo)
    && (s.closer.Draining? ==> forall h :: !FileAt(s.files, h).Owned?)
  }

  lemma {:induction false} PathsGoBeforeTheWait(states: seq<State>, labels: seq<Label>, i: nat)
    requires Run(states, labels) && i < |states|
    ensures Unlinked(states[i])
  {
    if i > 0 {
      PathsGoBeforeTheWait(states, labels, i - 1);
      RunKeepsInv(states, labels, i - 1);
      StepUnlinks(states[i - 1], labels[i - 1]);
    }
  }

  /** Close and the paths stay as they are, but for paths that lose their owner. */
  ghost predicate OwnsNoMore(s: State, s': State) {
    s'.closer == s.closer && forall h :: FileAt(s'.files, h).Owned? ==> FileAt(s'.files, h) == FileAt(s.files, h)
  }

  lemma StepUnlinks(s: State, l: Label)
    requires Inv(s) && Enabled(s, l) && Unlinked(s)
    ensures Unlinked(Apply(s, l))
  {
    hide ThreadsInv, RuntimesInv, StartEnabled, ApplyStart, StopEnabled, ApplyStop, CloseEnabled, ApplyClose;
    match l
    case InStartHost(step) => if s.closer != Idle { StartOwnsNoMore(s, step); } else { StartLeavesClose(s, step); }
    case InStopHost(step) => StopOwnsNoMore(s, step);
    case InLifetime(step) => CloseUnlinks(s, step);
    case Ambient(step) => AmbientOwnsNoMore(s, step);
  }

  lemma AmbientOwnsNoMore(s: State, l: AmbientStep)
    requires AmbientEnabled(s, l)
    ensures OwnsNoMore(s, ApplyAmbient(s, l))
  {}

  lemma StartOwnsNoMore(s: State, l: StartStep)
    requires StartEnabled(s, l) && s.closing
    ensures OwnsNoMore(s, ApplyStart(s, l))
  {
    hide AfterEarlyCheck, Answers;
  }

  lemma StopOwnsNoMore(s: State, l: StopStep)
    requires StopEnabled(s, l)
    ensures OwnsNoMore(s, ApplyStop(s, l))
  {}

  lemma CloseUnlinks(s: State, l: CloseStep)
    requires SlotsInv(s) && FilesInv(s) && CountInv(s) && CloseEnabled(s, l) && Unlinked(s)
    ensures Unlinked(ApplyClose(s, l))
  {
    hide Kids;
    forall h | FileAt(s.files, h).Owned? ensures FileAt(s.files, h).rid in BoundOf(s, s.slots.Values) {
      assert SlotOk(s, h) && s.slots[h] in s.slots.Values;
    }
    forall h | FileAt(s.files, h).Owned?
      ensures FileAt(s.files, h).rid < |s.rts| && s.rts[FileAt(s.files, h).rid].host == h
    {
      assert SlotOk(s, h);
    }
    hide BoundOf;
    match l
    case CloseUnlink(r) => FileAfter(s.files, s.rts[r].host, Nobody);
    case CloseBegin =>
    case CloseDrain =>
    case _ =>
  }

  /** Close has waited in vain before: it gave up on its children, and keeps the flock. */
  predicate GaveUp(s: State) { s.closer.Final? && !s.closer.quiescent }

  ghost predicate CloserMoved(s: State, s': State) {
    && s'.children == s.children && Below(CloserRank(s'), CloserRank(s))
    && (s'.closer != Idle ==> GaveUp(s') == GaveUp(s))
    && (s'.closer == Idle ==> s'.locked == GaveUp(s) && !s'.started && s'.slots == map[])
  }

  lemma CloserMoves(s: State)
    requires Inv(s) && s.closer != Idle && s.children == 0
    ensures var l := InLifetime(CloserStep(s)); Enabled(s, l) && Unforced(l) && CloserMoved(s, Apply(s, l))
  {
    hide ThreadsInv, RuntimesInv, FilesInv, FileAt, BoundOf, ApplyClose, CloserMoved, StartEnabled, StopEnabled, AmbientEnabled;
    assert s.waiter != Blocked;
    match s.closer
    case Draining(_) => DrainMoves(s);
    case Unlinking(_, _) => UnlinkMoves(s, CloserStep(s));
    case Final(_, _, _) => UnlinkMoves(s, CloserStep(s));
  }

  lemma DrainMoves(s: State)
    requires s.closer.Draining? && (s.waiter == Woken || s.waiter == Returned)
    ensures var l := if s.waiter == Woken then WaiterReturn else CloseProceed(false);
            CloserMoved(s, ApplyClose(s, l))
  {
    hide BoundOf, FileAt;
  }

  lemma UnlinkMoves(s: State, l: CloseStep)
    requires CloseEnabled(s, l) && (s.closer.Final? ==> s.locked)
    requires l.CloseUnlink? || l.CloseDrain? || l.CloseUnlinkAgain? || l.CloseFinish?
    requires s.waiter != Blocked && s.children == 0
    ensures CloserMoved(s, ApplyClose(s, l))
  {
    hide BoundOf, FileAt;
  }

  lemma {:induction false} CloserEnds(states: seq<State>, labels: seq<Label>)
      returns (states': seq<State>, labels': seq<Label>)
    requires Run(states, labels) && Inv(Last(states)) && Last(states).closer != Idle && Last(states).children == 0
    ensures Continues(states, labels, states', labels')
    ensures var s := Last(states');
            s.closer == Idle && !s.started && s.slots == map[] && s.locked == GaveUp(Last(states))
    decreases CloserRank(Last(states)).0, CloserRank(Last(states)).1
  {
    assert states != [];
    hide Run, Inv, Enabled, Apply, CloserStep, CloserRank, GaveUp;
    CloserMoves(Last(states));
    states', labels' := Step(states, labels, InLifetime(CloserStep(Last(states))));
    var states1, labels1 := states', labels';
    if Last(states1).closer != Idle {
      states', labels' := CloserEnds(states1, labels1);
      Onward(states, labels, states1, labels1, states', labels');
    }
  }

  /** A Close under way can finish, by unforced steps alone, and then the daemon is down: its flock is
      free, unless this Close had stopped waiting for its children. */
  lemma CloseCanFinish(states: seq<State>, labels: seq<Label>) returns (states': seq<State>, labels': seq<Label>)
    requires Run(states, labels) && Last(states).closer != Idle
    ensures Continues(states, labels, states', labels')
    ensures var s := Last(states');
            s.closer == Idle && !s.started && s.slots == map[] && s.locked == GaveUp(Last(states))
  {
    assert states != [];
    hide Run, Inv, GaveUp;
    var states1, labels1 := ChildrenEnd(states, labels);
    states', labels' := CloserEnds(states1, labels1);
    Onward(states, labels, states1, labels1, states', labels');
    Same(Last(states), Last(states1));
  }

  lemma Same(s: State, s': State)
    requires s.closer == s'.closer
    ensures GaveUp(s) == GaveUp(s')
  {}

  /** So one call of Close gives the flock back from every state between two Closes, also when an
      earlier Close kept it. */
  lemma CanBeClosed(states: seq<State>, labels: seq<Label>) returns (states': seq<State>, labels': seq<Label>)
    requires Run(states, labels) && Last(states).closer == Idle
    ensures Run(states', labels') && labels + [InLifetime(CloseBegin)] <= labels' && states <= states'
    ensures forall k: nat :: |labels| < k < |labels'| ==> Unforced(labels'[k])
    ensures Last(states').closer == Idle && !Last(states').started && !Last(states').locked
  {
    var s := Last(states);
    RunKeepsInv(states, labels, |labels|);
    var l := InLifetime(CloseBegin);
    states', labels' := OneMore(states, labels, l, Apply(s, l));
    var states1, labels1 := states', labels';
    if Last(states1).closer != Idle {
      states', labels' := CloseCanFinish(states1, labels1);
    }
  }
}
