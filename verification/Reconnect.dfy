/** The bridge's reconnect delay, and the supervisor of its SSH process. */
module Backoff {
  const SECOND: int := 1_000_000_000
  const INITIAL: int := SECOND
  const MAX: int := 30 * SECOND

  /** The delay before jitter. */
  function Base(previous: int, connectedFor: int): int {
    if connectedFor > MAX then INITIAL
    else if previous > 0 then (if previous * 2 > MAX then MAX else previous * 2)
    else INITIAL
  }

  /** jitter with its random factor u: a spread of a fifth either way, cut to whole nanoseconds. */
  function Jitter(base: int, u: real): int
    requires 0.0 <= u < 1.0
  {
    var value := base as real + (u * 2.0 - 1.0) * (base as real * 0.2);
    if value < 1.0 then 1 else value.Floor
  }

  function Next(previous: int, connectedFor: int, u: real): int
    requires 0.0 <= u < 1.0
  {
    Jitter(Base(previous, connectedFor), u)
  }

  lemma JitterBounds(base: int, u: real)
    requires base >= 2 && 0.0 <= u < 1.0
    ensures 4 * base <= 5 * Jitter(base, u) + 4
    ensures 5 * Jitter(base, u) <= 6 * base
  {
    var b := base as real;
    var value := b + (u * 2.0 - 1.0) * (b * 0.2);
    assert 0.8 * b <= value <= 1.2 * b by { Spread(b, u); }
    Whole(base, value, value.Floor);
  }

  lemma Whole(base: int, value: real, f: int)
    requires f as real <= value < f as real + 1.0
    requires 0.8 * (base as real) <= value <= 1.2 * (base as real)
    ensures 4 * base <= 5 * f + 4 && 5 * f <= 6 * base
  {
    assert 4.0 * (base as real) <= 5.0 * value < 5.0 * (f as real) + 5.0;
    assert 5.0 * (f as real) <= 6.0 * (base as real);
    assert (4 * base) as real < (5 * f + 5) as real && (5 * f) as real <= (6 * base) as real;
  }

  lemma Spread(b: real, u: real)
    requires b >= 0.0 && 0.0 <= u < 1.0
    ensures 0.8 * b <= b + (u * 2.0 - 1.0) * (b * 0.2) <= 1.2 * b
  {
    assert b + (u * 2.0 - 1.0) * (b * 0.2) == 0.8 * b + 0.4 * (u * b);
    assert u * b >= 0.0;
    assert (1.0 - u) * b == b - u * b >= 0.0;
  }

  /** A delay is at most 36 seconds and, unless the connection was healthy, at least the smaller of
      24 seconds and 1.6 times the one before, up to a nanosecond; a healthy one starts the series
      over at about a second. */
  lemma NextBounds(previous: int, connectedFor: int, u: real)
    requires 0.0 <= u < 1.0
    ensures var d := Next(previous, connectedFor, u);
            && 1 <= d <= 36 * SECOND
            && (connectedFor <= MAX && previous > 0 ==> d + 1 > 24 * SECOND || 5 * (d + 1) > 8 * previous)
            && (connectedFor > MAX || previous <= 0 ==> 4 * SECOND <= 5 * (d + 1) && 5 * d <= 6 * SECOND)
  {
    JitterBounds(Base(previous, connectedFor), u);
  }

  /** The delays of attempts that all fail within 30 seconds. */
  ghost predicate Series(delays: seq<int>) {
    forall k :: 0 <= k < |delays| ==> IsNext(if k == 0 then 0 else delays[k - 1], delays[k])
  }

  ghost predicate IsNext(previous: int, d: int) {
    exists c, u :: c <= MAX && 0.0 <= u < 1.0 && d == Next(previous, c, u)
  }

  /** What the delay of attempt k is at least. */
  function Floor(k: nat): int {
    if k == 0 then 4 * SECOND / 5 - 1
    else if Floor(k - 1) * 2 > MAX then 4 * MAX / 5 - 1
    else Floor(k - 1) * 8 / 5 - 1
  }

  lemma {:induction false} SeriesGrows(delays: seq<int>, k: nat)
    requires Series(delays) && k < |delays|
    ensures Floor(k) <= delays[k] <= 36 * SECOND && 5 <= delays[k]
  {
    var previous := if k == 0 then 0 else delays[k - 1];
    if k > 0 { SeriesGrows(delays, k - 1); }
    assert IsNext(previous, delays[k]);
    var c, u :| c <= MAX && 0.0 <= u < 1.0 && delays[k] == Next(previous, c, u);
    JitterBounds(Base(previous, c), u);
    FloorBounds(k);
  }

  lemma {:induction false} FloorBounds(k: nat)
    ensures SECOND / 2 <= Floor(k) <= 4 * MAX / 5
  {
    if k > 0 { FloorBounds(k - 1); }
  }

  /** From the ninth failure in a row on, every delay is between about 24 and 36 seconds. */
  lemma SettlesAtMaximum(delays: seq<int>, k: nat)
    requires Series(delays) && 8 <= k < |delays|
    ensures 24 * SECOND - 2 <= delays[k] <= 36 * SECOND
  {
    SeriesGrows(delays, k);
    FloorSettles(k);
  }

  lemma {:induction false} FloorSettles(k: nat)
    requires k >= 8
    ensures Floor(k) >= 24 * SECOND - 2
  {
    if k == 8 {
      assert Floor(0) == 799_999_999;
      assert Floor(1) == 1_279_999_997;
      assert Floor(2) == 2_047_999_994;
      assert Floor(3) == 3_276_799_989;
      assert Floor(4) == 5_242_879_981;
      assert Floor(5) == 8_388_607_968;
      assert Floor(6) == 13_421_772_747;
      assert Floor(7) == 21_474_836_394;
    } else {
      FloorSettles(k - 1);
    }
  }
}

module Supervision {
  import opened Results
  import opened Sequences
  import Backoff

  /** The random factor of one jittered delay. */
  type Factor = u: real | 0.0 <= u < 1.0

  datatype BridgeState = Down | Connecting | Up

  /** What the select of Run, its waits and the process runner can answer next. */
  datatype Event =
    | StartFails(jitter: Factor) | Starts(pid: nat)        // the runner's answer
    | Alive | TimerFires | ProcessExits(lasted: int, jitter: Factor)
    | Stopped                         // the context ended or Stop was called
    | WaitOver                        // a reconnect delay passed

  /** The states in the order the bridge may take them. */
  predicate Follows(before: BridgeState, next: BridgeState) {
    match next
    case Connecting => before == Down
    case Up => before == Connecting
    case Down => before != Down
  }

  predicate InPlace(log: seq<BridgeState>, k: nat)
    requires k < |log|
  {
    Follows(if k == 0 then Down else log[k - 1], log[k])
  }

  /** Down at first, then for each process Connecting, at most once Up, and Down again. */
  predicate Cycles(log: seq<BridgeState>) { forall k :: 0 <= k < |log| ==> InPlace(log, k) }

  lemma CyclesSnoc(log: seq<BridgeState>, next: BridgeState)
    requires Cycles(log) && Follows(if log == [] then Down else log[|log| - 1], next)
    ensures Cycles(log + [next])
  {
    forall k | 0 <= k < |log + [next]| ensures InPlace(log + [next], k) {
      if k < |log| {
        assert InPlace(log, k);
      }
    }
  }

  // ----- what the events ask for -----

  predicate EndsCycle(e: Event) { e.ProcessExits? || e.Stopped? }

  predicate EndsWait(e: Event) { e.WaitOver? || e.Stopped? }

  /** The first event that ends the process, or the number of events. */
  function CycleEnd(events: seq<Event>): (n: nat)
    ensures n <= |events| && (forall k :: 0 <= k < n ==> !EndsCycle(events[k])) && (n < |events| ==> EndsCycle(events[n]))
  {
    if events == [] || EndsCycle(events[0]) then 0 else 1 + CycleEnd(events[1..])
  }

  function WaitEnd(events: seq<Event>): (n: nat)
    ensures n <= |events| && (forall k :: 0 <= k < n ==> !EndsWait(events[k])) && (n < |events| ==> EndsWait(events[n]))
  {
    if events == [] || EndsWait(events[0]) then 0 else 1 + WaitEnd(events[1..])
  }

  /** The process was heard of, or its promotion timer fired, before it ended. */
  ghost predicate ComesUp(events: seq<Event>) {
    exists k :: 0 <= k < CycleEnd(events) && (events[k].Alive? || events[k].TimerFires?)
  }

  /** The states a started process has to take the bridge through. */
  ghost function CycleOf(events: seq<Event>): seq<BridgeState> {
    if ComesUp(events) then [Connecting, Up, Down] else [Connecting, Down]
  }

  /** The events once a wait is over, if it is not a stop that ends it. */
  function AfterWait(events: seq<Event>): (r: Option<seq<Event>>)
    ensures r.Some? ==> |r.value| < |events|
  {
    var n := WaitEnd(events);
    if n < |events| && events[n].WaitOver? then Some(events[n + 1..]) else None
  }

  /** The events once a process has exited, if it is not a stop that ends it. */
  function AfterCycle(events: seq<Event>): (r: Option<seq<Event>>)
    ensures r.Some? ==> |r.value| < |events|
  {
    var n := CycleEnd(events);
    if n < |events| && events[n].ProcessExits? then Some(events[n + 1..]) else None
  }

  function Resumed(events: Option<seq<Event>>): (r: Option<seq<Event>>)
    ensures r.Some? ==> events.Some? && |r.value| < |events.value|
  {
    if events.None? then None else AfterWait(events.value)
  }

  /** The changes of state that the events up to the first stop ask for: a cycle for every process that
      starts. */
  ghost function StatesOf(events: seq<Event>): seq<BridgeState>
    decreases |events|
  {
    if events == [] then []
    else
      match events[0]
      case Stopped => []
      case Starts(_) =>
        var next := Resumed(AfterCycle(events[1..]));
        CycleOf(events[1..]) + (if next.None? then [] else StatesOf(next.value))
      case StartFails(_) =>
        var next := AfterWait(events[1..]);
        if next.None? then [] else StatesOf(next.value)
      case _ => StatesOf(events[1..])
  }

  /** The delays waited for: one after every start that failed and every process that exited. */
  ghost function DelaysOf(events: seq<Event>, previous: int): seq<int>
    decreases |events|
  {
    if events == [] then []
    else
      match events[0]
      case Stopped => []
      case Starts(_) =>
        var rest := events[1..];
        if AfterCycle(rest).None? then []
        else
          var exit := rest[CycleEnd(rest)];
          var delay := Backoff.Next(previous, exit.lasted, exit.jitter);
          var next := Resumed(AfterCycle(rest));
          [delay] + (if next.None? then [] else DelaysOf(next.value, delay))
      case StartFails(u) =>
        var delay := Backoff.Next(previous, 0, u);
        var next := AfterWait(events[1..]);
        [delay] + (if next.None? then [] else DelaysOf(next.value, delay))
      case _ => DelaysOf(events[1..], previous)
  }

  /** What is left of the events, nothing after a stop. */
  function Left(next: Option<seq<Event>>): seq<Event> { if next.None? then [] else next.value }

  lemma StartsAsks(events: seq<Event>, previous: int)
    requires events != [] && events[0].Starts?
    ensures var rest := events[1..];
            && StatesOf(events) == CycleOf(rest) + StatesOf(Left(Resumed(AfterCycle(rest))))
            && (AfterCycle(rest).None? ==> DelaysOf(events, previous) == [])
            && (AfterCycle(rest).Some? ==>
                  var exit := rest[CycleEnd(rest)];
                  var delay := Backoff.Next(previous, exit.lasted, exit.jitter);
                  DelaysOf(events, previous) == [delay] + DelaysOf(Left(Resumed(AfterCycle(rest))), delay))
  {}

  lemma FailureAsks(events: seq<Event>, previous: int)
    requires events != [] && events[0].StartFails?
    ensures var rest, delay := events[1..], Backoff.Next(previous, 0, events[0].jitter);
            && StatesOf(events) == StatesOf(Left(AfterWait(rest)))
            && DelaysOf(events, previous) == [delay] + DelaysOf(Left(AfterWait(rest)), delay)
  {}

  lemma OthersAskNothing(events: seq<Event>, previous: int)
    ensures StatesOf([]) == [] && DelaysOf([], previous) == []
    ensures events != [] && events[0].Stopped? ==> StatesOf(events) == [] && DelaysOf(events, previous) == []
    ensures events != [] && !events[0].Stopped? && !events[0].Starts? && !events[0].StartFails? ==>
              StatesOf(events) == StatesOf(events[1..]) && DelaysOf(events, previous) == DelaysOf(events[1..], previous)
  {}

  // ----- what one process and one wait come to -----

  /** Nothing in it ends a process. */
  predicate Lives(life: seq<Event>) { forall e :: e in life ==> !e.ProcessExits? && !e.Stopped? }

  /** Nothing in it ends a wait. */
  predicate Waits(wait: seq<Event>) { forall e :: e in wait ==> !e.WaitOver? && !e.Stopped? }

  /** The states of a process that lives so: it is up once it was heard of or its timer fired. */
  ghost function LifeStates(life: seq<Event>): seq<BridgeState> {
    if exists e :: e in life && (e.Alive? || e.TimerFires?) then [Connecting, Up, Down] else [Connecting, Down]
  }

  lemma LifeCut(life: seq<Event>, last: Event, rest: seq<Event>)
    requires Lives(life) && (last.ProcessExits? || last.Stopped?)
    ensures CycleEnd(life + [last] + rest) == |life|
    ensures AfterCycle(life + [last] + rest) == if last.ProcessExits? then Some(rest) else None
    ensures CycleOf(life + [last] + rest) == LifeStates(life)
  {
    var events := life + [last] + rest;
    assert events[|life|] == last && events[|life| + 1..] == rest;
    assert forall k :: 0 <= k < |life| ==> events[k] == life[k] && life[k] in life;
    assert forall k :: 0 <= k < |life| ==> !EndsCycle(events[k]);
    if e :| e in life && (e.Alive? || e.TimerFires?) {
      var k :| 0 <= k < |life| && life[k] == e;
      assert events[k].Alive? || events[k].TimerFires?;
    }
  }

  lemma WaitCut(wait: seq<Event>, last: Event, rest: seq<Event>)
    requires Waits(wait) && (last.WaitOver? || last.Stopped?)
    ensures AfterWait(wait + [last] + rest) == if last.WaitOver? then Some(rest) else None
  {
    var events := wait + [last] + rest;
    assert events[|wait|] == last && events[|wait| + 1..] == rest;
    assert forall k :: 0 <= k < |wait| ==> events[k] == wait[k] && wait[k] in wait;
    assert forall k :: 0 <= k < |wait| ==> !EndsWait(events[k]);
  }

  /** A process that starts, lives and exits takes the bridge through its states, and the delay that
      follows its exit is waited for; what comes after the wait is run in the same way. */
  lemma ConnectionRuns(pid: nat, life: seq<Event>, exit: Event, wait: seq<Event>, rest: seq<Event>, previous: int)
    requires Lives(life) && exit.ProcessExits? && Waits(wait)
    ensures var events := [Starts(pid)] + (life + [exit] + (wait + [WaitOver] + rest));
            var delay := Backoff.Next(previous, exit.lasted, exit.jitter);
            && StatesOf(events) == LifeStates(life) + StatesOf(rest)
            && DelaysOf(events, previous) == [delay] + DelaysOf(rest, delay)
  {
    hide CycleOf, CycleEnd, LifeStates, AfterCycle, AfterWait, Lives, Waits;
    var after := wait + [WaitOver] + rest;
    LifeCut(life, exit, after);
    WaitCut(wait, WaitOver, rest);
    var events := [Starts(pid)] + (life + [exit] + after);
    assert events[1..] == life + [exit] + after && (life + [exit] + after)[|life|] == exit;
    StartsAsks(events, previous);
  }

  /** A start that fails is no change of state, and the delay after it is waited for. */
  lemma FailureRuns(u: Factor, wait: seq<Event>, rest: seq<Event>, previous: int)
    requires Waits(wait)
    ensures var events := [StartFails(u)] + (wait + [WaitOver] + rest);
            var delay := Backoff.Next(previous, 0, u);
            && StatesOf(events) == StatesOf(rest)
            && DelaysOf(events, previous) == [delay] + DelaysOf(rest, delay)
  {
    hide AfterWait, Waits;
    WaitCut(wait, WaitOver, rest);
    var events := [StartFails(u)] + (wait + [WaitOver] + rest);
    assert events[1..] == wait + [WaitOver] + rest;
    FailureAsks(events, previous);
  }

  /** A stop takes a process down, ends a wait, and nothing after it counts. */
  lemma StopEnds(pid: nat, u: Factor, life: seq<Event>, exit: Event, wait: seq<Event>, rest: seq<Event>, previous: int)
    requires Lives(life) && exit.ProcessExits? && Waits(wait)
    ensures StatesOf([Stopped] + rest) == [] && DelaysOf([Stopped] + rest, previous) == []
    ensures StatesOf([Starts(pid)] + (life + [Stopped] + rest)) == LifeStates(life)
    ensures DelaysOf([Starts(pid)] + (life + [Stopped] + rest), previous) == []
    ensures StatesOf([Starts(pid)] + (life + [exit] + (wait + [Stopped] + rest))) == LifeStates(life)
    ensures StatesOf([StartFails(u)] + (wait + [Stopped] + rest)) == []
  {
    hide CycleOf, CycleEnd, LifeStates, AfterCycle, AfterWait, Lives, Waits;
    var after := wait + [Stopped] + rest;
    LifeCut(life, Stopped, rest);
    LifeCut(life, exit, after);
    WaitCut(wait, Stopped, rest);
    OthersAskNothing([Stopped] + rest, previous);
    var a, b, c := [Starts(pid)] + (life + [Stopped] + rest), [Starts(pid)] + (life + [exit] + after), [StartFails(u)] + after;
    assert a[1..] == life + [Stopped] + rest && b[1..] == life + [exit] + after && c[1..] == after;
    StartsAsks(a, previous);
    StartsAsks(b, previous);
    FailureAsks(c, previous);
    OthersAskNothing([], previous);
    CatNil(LifeStates(life));
  }

  class Supervisor {
    var state: BridgeState
    var process: Option<nat>
    var closed: bool                  // Changes has been closed
    ghost var log: seq<BridgeState>   // every change of state, in order
    ghost var delays: seq<int>        // every delay waited for

    ghost predicate Valid()
      reads this
    {
      && Cycles(log) && state == (if log == [] then Down else log[|log| - 1])
      && (process.None? ==> state == Down)
    }

    constructor ()
      ensures Valid() && state == Down && process == None && !closed && log == [] && delays == []
    {
      state, process, closed, log, delays := Down, None, false, [], [];
    }

    /** setState: a state that is set already is no change. */
    method SetState(next: BridgeState)
      requires Cycles(log) && state == (if log == [] then Down else log[|log| - 1])
      requires next == Connecting ==> state == Down
      requires next == Up ==> state == Connecting || state == Up
      modifies `state, `log
      ensures state == next && log == old(log) + (if next == old(state) then [] else [next])
      ensures Cycles(log)
    {
      if state == next {
        return;
      }
      CyclesSnoc(log, next);
      state := next;
      log := log + [next];
    }

    /** The process is gone from the supervisor before it reports Down. */
    method ClearDown()
      requires Valid() && process.Some?
      modifies `state, `log, `process
      ensures Valid() && state == Down && process == None
      ensures log == old(log) + (if old(state) == Down then [] else [Down])
    {
      process := None;
      SetState(Down);
    }

    /** One process from its start to its end: the events up to that end decide whether it comes up. */
    method Supervise(pid: nat, events: seq<Event>) returns (stopped: bool, rest: seq<Event>, lasted: int, jitter: Factor)
      requires Valid() && process == None && !closed
      modifies `state, `log, `process
      ensures Valid() && state == Down && process == None
      ensures log == old(log) + CycleOf(events)
      ensures stopped <==> AfterCycle(events).None?
      ensures !stopped ==> AfterCycle(events) == Some(rest) && events[CycleEnd(events)] == ProcessExits(lasted, jitter)
    {
      process := Some(pid);
      SetState(Connecting);
      var promoted := false;
      stopped, rest, lasted, jitter := true, [], 0, 0.0;
      var i := 0;
      while i < |events|
        invariant Valid() && process == Some(pid) && 0 <= i <= |events| && stopped && rest == []
        invariant forall k :: 0 <= k < i ==> !EndsCycle(events[k])
        invariant promoted <==> exists k :: 0 <= k < i && (events[k].Alive? || events[k].TimerFires?)
        invariant state == if promoted then Up else Connecting
        invariant log == old(log) + (if promoted then [Connecting, Up] else [Connecting])
      {
        match events[i] {
          case Stopped =>
            break;
          case Alive =>
            if !promoted {
              promoted := true;
              SetState(Up);
            }
          case TimerFires =>
            if !promoted {
              promoted := true;
              SetState(Up);
            }
          case ProcessExits(c, u) =>
            stopped, rest, lasted, jitter := false, events[i + 1..], c, u;
            break;
          case _ =>
        }
        i := i + 1;
      }
      assert i == CycleEnd(events);
      // The list stands for a run that a stop ends.
      ClearDown();
    }

    /** wait: the delay runs out, or a stop comes first. */
    method Wait(delay: int, events: seq<Event>) returns (over: bool, rest: seq<Event>)
      modifies `delays
      ensures delays == old(delays) + [delay]
      ensures over <==> AfterWait(events).Some?
      ensures over ==> AfterWait(events) == Some(rest)
    {
      delays := delays + [delay];
      over, rest := false, [];
      for i := 0 to |events|
        invariant !over && forall k :: 0 <= k < i ==> !EndsWait(events[k])
      {
        match events[i] {
          case Stopped =>
            assert i == WaitEnd(events);
            return;
          case WaitOver =>
            assert i == WaitEnd(events);
            return true, events[i + 1..];
          case _ =>
        }
      }
    }

    /** Run: start, supervise and wait, again and again, until a stop. The changes of state and the
        delays are exactly those the events ask for; when Run returns the bridge is down, with no
        process, and Changes is closed. */
    method Run(events: seq<Event>)
      requires Valid() && state == Down && process == None && !closed
      modifies this
      ensures Valid() && state == Down && process == None && closed
      ensures log == old(log) + StatesOf(events)
      ensures delays == old(delays) + DelaysOf(events, 0)
    {
      hide CycleOf, CycleEnd, WaitEnd, Cycles, AfterWait, AfterCycle, Backoff.Next, StatesOf, DelaysOf;
      var rest, previous := events, 0;
      CatNil(log);
      CatNil(delays);
      while rest != []
        invariant Valid() && state == Down && process == None && !closed
        invariant log + StatesOf(rest) == old(log) + StatesOf(events)
        invariant delays + DelaysOf(rest, previous) == old(delays) + DelaysOf(events, 0)
        decreases |rest|
      {
        ghost var wasLog, wasDelays := log, delays;
        var event, later := rest[0], rest[1..];
        OthersAskNothing(rest, previous);
        match event {
          case Stopped =>
            rest := [];
          case Starts(pid) =>
            StartsAsks(rest, previous);
            var stopped, after, lasted, jitter := Supervise(pid, later);
                        if stopped {
              rest := [];
            } else {
              var over: bool;
              previous := Backoff.Next(previous, lasted, jitter);
              over, after := Wait(previous, after);
              rest := if over then after else [];
              CatThree(wasDelays, [previous], DelaysOf(rest, previous));
            }
            CatThree(wasLog, CycleOf(later), StatesOf(rest));
          case StartFails(jitter) =>
            FailureAsks(rest, previous);
            var over: bool;
            previous := Backoff.Next(previous, 0, jitter);
            over, later := Wait(previous, later);
            rest := if over then later else [];
            CatThree(wasDelays, [previous], DelaysOf(rest, previous));
          case _ =>
            rest := later;
        }
      }
      OthersAskNothing([], previous);
      CatNil(log);
      CatNil(delays);
      closed := true;
    }
  }

  /** A stretch of failures: no connection of more than 30 seconds. */
  predicate NeverHealthy(events: seq<Event>) {
    forall e :: e in events && e.ProcessExits? ==> e.lasted <= Backoff.MAX
  }

  lemma SuffixUnhealthy(events: seq<Event>, n: nat)
    requires NeverHealthy(events) && n <= |events|
    ensures NeverHealthy(events[n..])
  {}

  ghost predicate FollowsAt(delays: seq<int>, previous: int, k: nat)
    requires k < |delays|
  {
    Backoff.IsNext(if k == 0 then previous else delays[k - 1], delays[k])
  }

  ghost predicate BacksOff(delays: seq<int>, previous: int) {
    forall k: nat :: k < |delays| ==> FollowsAt(delays, previous, k)
  }

  lemma OneMoreDelay(delay: int, delays: seq<int>, previous: int)
    requires Backoff.IsNext(previous, delay) && BacksOff(delays, delay)
    ensures BacksOff([delay] + delays, previous)
  {
    hide Backoff.IsNext;
    var all := [delay] + delays;
    forall k: nat | k < |all| ensures FollowsAt(all, previous, k) {
      if k > 0 { assert FollowsAt(delays, delay, k - 1); }
    }
  }

  /** While no connection lasts more than 30 seconds, each delay of Run is one that follows the delay
      before it, so the whole of them is a back-off series. */
  lemma {:induction false} FailuresBackOff(events: seq<Event>, previous: int)
    requires NeverHealthy(events)
    ensures BacksOff(DelaysOf(events, previous), previous)
    decreases |events|
  {
    hide BacksOff, Backoff.Next, CycleEnd, WaitEnd;
    assert BacksOff([], previous) by { NoDelays(previous); }
    if events != [] {
      var later := events[1..];
      match events[0]
      case Stopped =>
      case Starts(_) =>
        if AfterCycle(later).Some? {
          var exit := later[CycleEnd(later)];
          assert exit in events;
          var delay := Backoff.Next(previous, exit.lasted, exit.jitter);
          assert Backoff.IsNext(previous, delay);
          SuffixUnhealthy(later, CycleEnd(later) + 1);
          LaterBacksOff(AfterCycle(later).value, delay, previous);
        }
      case StartFails(u) =>
        var delay := Backoff.Next(previous, 0, u);
        assert Backoff.IsNext(previous, delay);
        LaterBacksOff(later, delay, previous);
      case _ => FailuresBackOff(later, previous);
    }
  }

  lemma {:induction false} LaterBacksOff(events: seq<Event>, delay: int, previous: int)
    requires NeverHealthy(events) && Backoff.IsNext(previous, delay)
    ensures var next := AfterWait(events);
            BacksOff([delay] + (if next.None? then [] else DelaysOf(next.value, delay)), previous)
    decreases |events|
  {
    hide BacksOff, WaitEnd;
    var next := AfterWait(events);
    NoDelays(delay);
    if next.Some? {
      SuffixUnhealthy(events, WaitEnd(events) + 1);
      FailuresBackOff(next.value, delay);
      OneMoreDelay(delay, DelaysOf(next.value, delay), previous);
    } else {
      OneMoreDelay(delay, [], previous);
    }
  }

  lemma NoDelays(previous: int)
    ensures BacksOff([], previous)
  {}
}
