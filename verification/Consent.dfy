/** The consent dialogs of one host: one at a time, a memory of refusals, and a re-check before
    the call may run. */
module Consent {
  import opened Results

  /** A target row, its id in lower case. */
  type Row(==) = string

  /** How await ended. */
  datatype Outcome = Once | Pair | Declined | TimedOut | Gone

  /** Where a call that needs consent stands. */
  datatype Phase =
    | Opening(row: Row)                     // it holds the host's dialog slot
    | Awaiting(row: Row)                    // its dialog is open
    | Checking(row: Row, pair: bool)        // answered; the program rule is checked again
    | Refusing(row: Row)                    // the refusal is to be remembered
    | Closing(allowed: bool)                // the slot is to be given back
    | Done(allowed: bool)

  /** `granted`: the calls whose consent is kept as a grant. */
  datatype State = State(now: int, dialog: bool, refused: map<Row, int>, calls: map<nat, Phase>, granted: set<nat>)

  datatype Step =
    | Tick(to: int)
    | Begin(id: nat, row: Row)
    | OpenFails(id: nat)
    | Opens(id: nat)
    | Ends(id: nat, outcome: Outcome, stopping: bool)
    | Checks(id: nat, passed: bool)
    | Remembers(id: nat)
    | GivesBack(id: nat)

  const WINDOW: int := 60

  /** The refusal of a row has not run out. */
  predicate InWindow(s: State, row: Row) { row in s.refused && s.now < s.refused[row] }

  predicate Enabled(s: State, step: Step) {
    match step
    case Tick(to) => s.now <= to
    case Begin(id, _) => id !in s.calls
    case OpenFails(id) => id in s.calls && s.calls[id].Opening?
    case Opens(id) => id in s.calls && s.calls[id].Opening?
    case Ends(id, _, _) => id in s.calls && s.calls[id].Awaiting?
    case Checks(id, _) => id in s.calls && s.calls[id].Checking?
    case Remembers(id) => id in s.calls && s.calls[id].Refusing?
    case GivesBack(id) => id in s.calls && s.calls[id].Closing?
  }

  function Put(s: State, id: nat, phase: Phase): State { s.(calls := s.calls[id := phase]) }

  function Apply(s: State, step: Step): State
    requires Enabled(s, step)
  {
    match step
    case Tick(to) => s.(now := to)
    case Begin(id, row) =>
      if s.dialog || InWindow(s, row) then Put(s, id, Done(false))
      else Put(s, id, Opening(row)).(dialog := true, refused := s.refused - {row})
    case OpenFails(id) => Put(s, id, Closing(false))
    case Opens(id) => Put(s, id, Awaiting(s.calls[id].row))
    case Ends(id, outcome, stopping) =>
      var row := s.calls[id].row;
      (match outcome
       case Once => Put(s, id, Checking(row, false))
       case Pair => Put(s, id, Checking(row, true))
       case Declined => Put(s, id, Refusing(row))
       case TimedOut => Put(s, id, Refusing(row))
       case Gone => Put(s, id, if stopping then Closing(false) else Refusing(row)))
    case Checks(id, passed) =>
      var keeps := passed && s.calls[id].pair;
      Put(s, id, Closing(passed)).(granted := if keeps then s.granted + {id} else s.granted)
    case Remembers(id) =>
      Put(s, id, Closing(false)).(refused := s.refused[s.calls[id].row := s.now + WINDOW])
    case GivesBack(id) => Put(s, id, Done(s.calls[id].allowed)).(dialog := false)
  }

  class HostConsent {
    var dialog: bool
    var refused: map<Row, int>

    constructor ()
      ensures !dialog && refused == map[]
    {
      dialog, refused := false, map[];
    }

    /** The first section of consent: refuse, or take the dialog slot and forget an old refusal. */
    method Take(row: Row, now: int) returns (ok: bool)
      modifies this
      ensures ok == !(old(dialog) || (row in old(refused) && now < old(refused)[row]))
      ensures dialog == (old(dialog) || ok) && refused == if ok then old(refused) - {row} else old(refused)
    {
      if dialog {
        return false;
      }
      if row in refused {
        if now < refused[row] {
          return false;
        }
        refused := refused - {row};
      }
      dialog := true;
      assert refused == old(refused) - {row};
      return true;
    }

    method GiveBack()
      modifies `dialog
      ensures !dialog
    {
      dialog := false;
    }

    method RefuseRow(row: Row, now: int)
      modifies `refused
      ensures refused == old(refused)[row := now + WINDOW]
    {
      refused := refused[row := now + WINDOW];
    }
  }

  // ----- runs -----

  /** The states of a run, from a host without dialogs or refusals. */
  ghost predicate Run(states: seq<State>, steps: seq<Step>) {
    && |states| == |steps| + 1 && !states[0].dialog && states[0].refused == map[] && states[0].calls == map[]
    && states[0].granted == {}
    && forall k :: 0 <= k < |steps| ==> Enabled(states[k], steps[k]) && states[k + 1] == Apply(states[k], steps[k])
  }

  predicate HoldsSlot(p: Phase) { !p.Done? }

  ghost predicate Inv(s: State) {
    && (forall id :: id in s.calls && HoldsSlot(s.calls[id]) ==> s.dialog)
    && (forall i, j :: i in s.calls && j in s.calls && HoldsSlot(s.calls[i]) && HoldsSlot(s.calls[j]) ==> i == j)
    && (forall id :: id in s.calls && (s.calls[id].Opening? || s.calls[id].Awaiting?) ==> s.calls[id].row !in s.refused)
  }

  lemma StepKeepsInv(s: State, step: Step)
    requires Inv(s) && Enabled(s, step)
    ensures Inv(Apply(s, step))
  {
    match step {
      case Ends(id, outcome, _) =>
        match outcome { case Once => case Pair => case Declined => case TimedOut => case Gone => }
      case _ =>
    }
  }

  lemma {:induction false} RunKeepsInv(states: seq<State>, steps: seq<Step>, k: nat)
    requires Run(states, steps) && k < |states|
    ensures Inv(states[k])
  {
    if k > 0 {
      RunKeepsInv(states, steps, k - 1);
      assert states[k] == Apply(states[k - 1], steps[k - 1]);
      StepKeepsInv(states[k - 1], steps[k - 1]);
    }
  }

  /** In every interleaving a host has at most one dialog open. */
  lemma OneDialog(states: seq<State>, steps: seq<Step>, k: nat, i: nat, j: nat)
    requires Run(states, steps) && k < |states|
    requires i in states[k].calls && j in states[k].calls
    requires states[k].calls[i].Awaiting? && states[k].calls[j].Awaiting?
    ensures i == j
  {
    RunKeepsInv(states, steps, k);
  }

  // ----- the refusal window -----

  /** A refusal of row remembered at time t is still in the map, or has run out. */
  ghost predicate Remembered(s: State, row: Row, t: int) {
    t + WINDOW <= s.now || (row in s.refused && t + WINDOW <= s.refused[row])
  }

  lemma StepRemembers(s: State, step: Step, row: Row, t: int)
    requires Enabled(s, step) && Remembered(s, row, t) && t <= s.now
    ensures Remembered(Apply(s, step), row, t) && t <= Apply(s, step).now
  {
    match step {
      case Ends(id, outcome, _) =>
        match outcome { case Once => case Pair => case Declined => case TimedOut => case Gone => }
      case _ =>
    }
  }

  lemma {:induction false} RefusalStays(states: seq<State>, steps: seq<Step>, i: nat, k: nat)
    requires Run(states, steps) && i < k < |states| && steps[i].Remembers?
    ensures Remembered(states[k], states[i].calls[steps[i].id].row, states[i].now) && states[i].now <= states[k].now
  {
    var row, t := states[i].calls[steps[i].id].row, states[i].now;
    assert Enabled(states[k - 1], steps[k - 1]) && states[k] == Apply(states[k - 1], steps[k - 1]);
    if k > i + 1 {
      RefusalStays(states, steps, i, k - 1);
      StepRemembers(states[k - 1], steps[k - 1], row, t);
    }
  }

  /** The user's or the client's answer is a refusal of the row: no, no answer, or a client that went
      away; a host that is stopping refuses nothing. */
  predicate Refuses(outcome: Outcome, stopping: bool) {
    outcome == Declined || outcome == TimedOut || (outcome == Gone && !stopping)
  }

  /** Step i ended a dialog on the row with a refusal. */
  ghost predicate RefusedAt(states: seq<State>, steps: seq<Step>, i: nat, row: Row) {
    && i < |steps| && i < |states| && steps[i].Ends? && Refuses(steps[i].outcome, steps[i].stopping)
    && steps[i].id in states[i].calls && states[i].calls[steps[i].id] == Awaiting(row)
  }

  /** The refusal is still to be remembered by call id, or is remembered, or has run out. */
  ghost predicate Pending(s: State, id: nat, row: Row, t: int) {
    t <= s.now && ((id in s.calls && s.calls[id] == Refusing(row)) || Remembered(s, row, t))
  }

  lemma StepKeepsPending(s: State, step: Step, id: nat, row: Row, t: int)
    requires Enabled(s, step) && Pending(s, id, row, t)
    ensures Pending(Apply(s, step), id, row, t)
  {
    if Remembered(s, row, t) { StepRemembers(s, step, row, t); }
  }

  lemma {:induction false} RefusalPends(states: seq<State>, steps: seq<Step>, i: nat, k: nat, row: Row)
    requires Run(states, steps) && RefusedAt(states, steps, i, row) && i < k < |states|
    ensures Pending(states[k], steps[i].id, row, states[i].now)
  {
    assert Enabled(states[k - 1], steps[k - 1]) && states[k] == Apply(states[k - 1], steps[k - 1]);
    if k > i + 1 {
      RefusalPends(states, steps, i, k - 1, row);
      StepKeepsPending(states[k - 1], steps[k - 1], steps[i].id, row, states[i].now);
    }
  }

  /** After a dialog that ended with a refusal no dialog is opened on that row for a minute, whoever
      asks. */
  lemma NoDialogInWindow(states: seq<State>, steps: seq<Step>, i: nat, k: nat, row: Row)
    requires Run(states, steps) && RefusedAt(states, steps, i, row) && i < k < |steps| && steps[k].Opens?
    requires states[k].calls[steps[k].id].row == row
    ensures states[i].now + 60 <= states[k].now
  {
    assert Enabled(states[k], steps[k]);
    RefusalPends(states, steps, i, k, row);
    RunKeepsInv(states, steps, k);
  }

  /** The memory of a row goes back to a refusal, which is at most a minute older than it lasts. */
  lemma {:induction false} MemoryHasARefusal(states: seq<State>, steps: seq<Step>, k: nat, row: Row) returns (i: nat, m: nat)
    requires Run(states, steps) && k < |states| && row in states[k].refused
    ensures i < m < k && RefusedAt(states, steps, i, row) && states[k].refused[row] == states[m].now + 60
  {
    assert k > 0;
    var s, step := states[k - 1], steps[k - 1];
    assert Enabled(s, step) && states[k] == Apply(s, step);
    if step.Remembers? && s.calls[step.id].row == row {
      i := RefusingHasARefusal(states, steps, k - 1, step.id, row);
      m := k - 1;
    } else {
      i, m := MemoryHasARefusal(states, steps, k - 1, row);
    }
  }

  lemma {:induction false} RefusingHasARefusal(states: seq<State>, steps: seq<Step>, k: nat, id: nat, row: Row) returns (i: nat)
    requires Run(states, steps) && k < |states| && id in states[k].calls && states[k].calls[id] == Refusing(row)
    ensures i < k && RefusedAt(states, steps, i, row)
  {
    assert k > 0;
    var s, step := states[k - 1], steps[k - 1];
    assert Enabled(s, step) && states[k] == Apply(s, step);
    if id in s.calls && s.calls[id] == Refusing(row) {
      i := RefusingHasARefusal(states, steps, k - 1, id, row);
    } else {
      assert RefusedAt(states, steps, k - 1, row);
      i := k - 1;
    }
  }

  /** A call is turned away without a dialog exactly when another one is open or a refusal of the row
      is less than a minute old; no other row and no other end of a dialog counts. */
  lemma TurnedAwayOnlyAfterRefusal(states: seq<State>, steps: seq<Step>, k: nat, id: nat, row: Row)
    requires Run(states, steps) && k < |steps| && steps[k] == Begin(id, row)
    ensures states[k + 1].calls[id] == Done(false) || states[k + 1].calls[id] == Opening(row)
    ensures states[k + 1].calls[id] == Done(false) ==>
              || (exists other :: other in states[k].calls && other != id && !states[k].calls[other].Done?)
              || exists i: nat, m: nat :: i < m < k && RefusedAt(states, steps, i, row) && states[k].now < states[m].now + 60
  {
    RunKeepsInv(states, steps, k);
    DialogHasAHolder(states, steps, k);
    assert states[k + 1] == Apply(states[k], steps[k]);
    if InWindow(states[k], row) { var i, m := MemoryHasARefusal(states, steps, k, row); }
  }

  /** The dialog flag is set by a call that holds it. */
  lemma {:induction false} DialogHasAHolder(states: seq<State>, steps: seq<Step>, k: nat)
    requires Run(states, steps) && k < |states|
    ensures states[k].dialog ==> exists id :: id in states[k].calls && HoldsSlot(states[k].calls[id])
  {
    if k > 0 {
      DialogHasAHolder(states, steps, k - 1);
      RunKeepsInv(states, steps, k - 1);
      assert Enabled(states[k - 1], steps[k - 1]) && states[k] == Apply(states[k - 1], steps[k - 1]);
      HolderStays(states[k - 1], steps[k - 1]);
    }
  }

  lemma HolderStays(s: State, step: Step)
    requires Inv(s) && Enabled(s, step) && (s.dialog ==> exists id :: id in s.calls && HoldsSlot(s.calls[id]))
    ensures Apply(s, step).dialog ==> exists id :: id in Apply(s, step).calls && HoldsSlot(Apply(s, step).calls[id])
  {
    var s' := Apply(s, step);
    if s'.dialog && s.dialog {
      var id :| id in s.calls && HoldsSlot(s.calls[id]);
      assert id in s'.calls && HoldsSlot(s'.calls[id]);
    } else if s'.dialog {
      assert step.Begin? && HoldsSlot(s'.calls[step.id]);
    }
  }

  // ----- what a call that may run went through -----

  /** Call id was answered once or pair by step number i, and passed its check by step number j. */
  ghost predicate Answered(steps: seq<Step>, id: nat, i: nat) {
    i < |steps| && steps[i].Ends? && steps[i].id == id && (steps[i].outcome.Once? || steps[i].outcome.Pair?)
  }

  ghost predicate Opened(steps: seq<Step>, id: nat, i: nat) { i < |steps| && steps[i] == Opens(id) }

  ghost predicate Checked(steps: seq<Step>, id: nat, i: nat) { i < |steps| && steps[i] == Checks(id, true) }

  predicate IsAwaiting(s: State, id: nat) { id in s.calls && s.calls[id].Awaiting? }

  predicate IsChecking(s: State, id: nat) { id in s.calls && s.calls[id].Checking? }

  predicate MayRun(s: State, id: nat) { id in s.calls && (s.calls[id] == Closing(true) || s.calls[id] == Done(true)) }

  lemma {:induction false} AwaitingWasOpened(states: seq<State>, steps: seq<Step>, k: nat, id: nat) returns (i: nat)
    requires Run(states, steps) && k < |states| && IsAwaiting(states[k], id)
    ensures i < k && Opened(steps, id, i)
  {
    assert k > 0;
    var s, step := states[k - 1], steps[k - 1];
    assert Enabled(s, step) && states[k] == Apply(s, step);
    if IsAwaiting(s, id) {
      i := AwaitingWasOpened(states, steps, k - 1, id);
    } else {
      assert step == Opens(id);
      i := k - 1;
    }
  }

  lemma {:induction false} CheckingWasAnswered(states: seq<State>, steps: seq<Step>, k: nat, id: nat) returns (i: nat, j: nat)
    requires Run(states, steps) && k < |states| && IsChecking(states[k], id)
    ensures i < j < k && Opened(steps, id, i) && Answered(steps, id, j)
  {
    assert k > 0;
    var s, step := states[k - 1], steps[k - 1];
    assert Enabled(s, step) && states[k] == Apply(s, step);
    if IsChecking(s, id) {
      i, j := CheckingWasAnswered(states, steps, k - 1, id);
    } else {
      assert Answered(steps, id, k - 1);
      i := AwaitingWasOpened(states, steps, k - 1, id);
      j := k - 1;
    }
  }

  lemma {:induction false} RunnerWasChecked(states: seq<State>, steps: seq<Step>, k: nat, id: nat)
    returns (i: nat, j: nat, m: nat)
    requires Run(states, steps) && k < |states| && MayRun(states[k], id)
    ensures i < j < m < k && Opened(steps, id, i) && Answered(steps, id, j) && Checked(steps, id, m)
  {
    assert k > 0;
    var s, step := states[k - 1], steps[k - 1];
    assert Enabled(s, step) && states[k] == Apply(s, step);
    if MayRun(s, id) {
      i, j, m := RunnerWasChecked(states, steps, k - 1, id);
    } else {
      assert step == Checks(id, true);
      i, j := CheckingWasAnswered(states, steps, k - 1, id);
      m := k - 1;
    }
  }

  /** A call that needed consent may run only after a dialog of its own was opened, then answered
      once or pair, and then the program rule was checked again and held. */
  lemma RunsOnlyWithConsent(states: seq<State>, steps: seq<Step>, k: nat, id: nat)
    requires Run(states, steps) && k < |states| && MayRun(states[k], id)
    ensures exists i: nat, j: nat, m: nat ::
              i < j < m < k && Opened(steps, id, i) && Answered(steps, id, j) && Checked(steps, id, m)
  {
    var i, j, m := RunnerWasChecked(states, steps, k, id);
  }

  /** A call that was answered once or pair and has ended had its program rule checked again after the
      answer, and may run exactly if that check held. */
  lemma {:induction false} AnsweredIsChecked(states: seq<State>, steps: seq<Step>, j: nat, k: nat, id: nat) returns (m: nat)
    requires Run(states, steps) && Answered(steps, id, j) && j < k < |states|
    requires id in states[k].calls && (states[k].calls[id].Done? || states[k].calls[id].Closing?)
    ensures j < m < k && steps[m].Checks? && steps[m].id == id
    ensures MayRun(states[k], id) <==> steps[m].passed
  {
    hide Apply;
    AnswerIsPut(states, steps, j, id);
    var s, step := states[k - 1], steps[k - 1];
    assert Enabled(s, step) && states[k] == Apply(s, step);
    if k - 1 > j { CheckedOrOver(states, steps, j, k - 1, id); LateSteps(s, step, id); }
    if s.calls[id].Checking? {
      m := k - 1;
    } else {
      m := AnsweredIsChecked(states, steps, j, k - 1, id);
    }
  }

  /** What a step does to a call that is past its answer. */
  lemma LateSteps(s: State, step: Step, id: nat)
    requires Enabled(s, step) && id in s.calls && (s.calls[id].Checking? || s.calls[id].Closing? || s.calls[id].Done?)
    ensures var s' := Apply(s, step);
            && id in s'.calls
            && match s.calls[id]
               case Checking(_, _) =>
                 s'.calls[id] == s.calls[id] || (step.Checks? && step.id == id && s'.calls[id] == Closing(step.passed))
               case Closing(allowed) => s'.calls[id] == Closing(allowed) || s'.calls[id] == Done(allowed)
               case _ => s'.calls[id] == s.calls[id]
  {}

  lemma AnswerIsPut(states: seq<State>, steps: seq<Step>, j: nat, id: nat)
    requires Run(states, steps) && Answered(steps, id, j)
    ensures id in states[j + 1].calls && states[j + 1].calls[id].Checking?
    ensures states[j + 1].calls[id].pair == steps[j].outcome.Pair?
  {
    assert Enabled(states[j], steps[j]) && states[j + 1] == Apply(states[j], steps[j]);
  }

  lemma {:induction false} CheckedOrOver(states: seq<State>, steps: seq<Step>, j: nat, k: nat, id: nat)
    requires Run(states, steps) && Answered(steps, id, j) && j < k < |states|
    ensures id in states[k].calls
    ensures states[k].calls[id].Checking? || states[k].calls[id].Closing? || states[k].calls[id].Done?
    ensures states[k].calls[id].Checking? ==> states[k].calls[id].pair == steps[j].outcome.Pair?
  {
    if k == j + 1 {
      AnswerIsPut(states, steps, j, id);
    } else {
      hide Apply;
      CheckedOrOver(states, steps, j, k - 1, id);
      assert Enabled(states[k - 1], steps[k - 1]) && states[k] == Apply(states[k - 1], steps[k - 1]);
      LateSteps(states[k - 1], steps[k - 1], id);
    }
  }

  /** The consent of a call is kept as a grant exactly if it was answered pair, not once, and the check
      after the answer held. */
  lemma {:induction false} GrantedByPairOnly(states: seq<State>, steps: seq<Step>, k: nat, id: nat)
    requires Run(states, steps) && k < |states|
    ensures id in states[k].granted <==>
              exists j: nat, m: nat :: j < m < k && Answered(steps, id, j) && steps[j].outcome.Pair? && Checked(steps, id, m)
  {
    hide Apply;
    if k > 0 {
      GrantedByPairOnly(states, steps, k - 1, id);
      var s, step := states[k - 1], steps[k - 1];
      assert Enabled(s, step) && states[k] == Apply(s, step);
      GrantsWhen(s, step, id);
      if step == Checks(id, true) {
        var i, j := CheckingWasAnswered(states, steps, k - 1, id);
        CheckedOrOver(states, steps, j, k - 1, id);
        assert Checked(steps, id, k - 1);
        if j': nat, m': nat :| j' < m' < k && Answered(steps, id, j') && steps[j'].outcome.Pair? && Checked(steps, id, m') {
          CheckedOrOver(states, steps, j', k - 1, id);
        }
      }
    }
  }

  lemma GrantsWhen(s: State, step: Step, id: nat)
    requires Enabled(s, step)
    ensures id in Apply(s, step).granted <==> id in s.granted || (step == Checks(id, true) && s.calls[id].pair)
  {}

  /** How far a call is from its end. */
  function ToGo(p: Phase): nat {
    match p
    case Opening(_) => 5
    case Awaiting(_) => 4
    case Checking(_, _) => 3
    case Refusing(_) => 2
    case Closing(_) => 1
    case Done(_) => 0
  }

  /** Every step of a call brings it nearer to its end, and with its end the dialog is free again, so
      no path leaves the host without a dialog to ask with. */
  lemma CallsComeToAnEnd(states: seq<State>, steps: seq<Step>, k: nat, id: nat)
    requires Run(states, steps) && k < |steps| && !steps[k].Tick? && !steps[k].Begin? && steps[k].id == id
    ensures id in states[k].calls && id in states[k + 1].calls
    ensures ToGo(states[k + 1].calls[id]) < ToGo(states[k].calls[id])
    ensures states[k + 1].calls[id].Done? ==> !states[k + 1].dialog
    ensures steps[k].OpenFails? ==> states[k + 1].calls[id] == Closing(false)
  {
    assert Enabled(states[k], steps[k]) && states[k + 1] == Apply(states[k], steps[k]);
  }
}
