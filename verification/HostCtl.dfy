/** Admission of a host's calls: a cap, a count of what runs, and a drain at shutdown. */
module HostCtl {
  const MAX_CALLS := 16

  /** The counted state under the lock. draining: shutdown waits on a channel; drains: how many
      times that channel was closed. */
  datatype Counters = Counters(calls: int, running: int, closed: bool, draining: bool, drains: nat)

  predicate Admits(c: Counters) { !c.closed && c.calls < MAX_CALLS }

  function Entered(c: Counters): Counters {
    if Admits(c) then c.(calls := c.calls + 1, running := c.running + 1) else c
  }

  function Finished(c: Counters): Counters {
    if c.running == 1 && c.draining then c.(running := 0, draining := false, drains := c.drains + 1)
    else c.(running := c.running - 1)
  }

  function Left(c: Counters): Counters { Finished(c.(calls := c.calls - 1)) }

  function Tracked(c: Counters): Counters { if c.closed then c else c.(running := c.running + 1) }

  function ShutDown(c: Counters): Counters { c.(closed := true, draining := c.running != 0) }

  class Ctl {
    var calls: int
    var running: int
    var closed: bool
    var drained: bool      // a channel to close is set
    ghost var drains: nat

    constructor ()
      ensures View() == Counters(0, 0, false, false, 0)
    {
      calls, running, closed, drained, drains := 0, 0, false, false, 0;
    }

    ghost function View(): Counters
      reads this
    {
      Counters(calls, running, closed, drained, drains)
    }

    /** enter: counts a call in, or refuses it. */
    method Enter() returns (ok: bool)
      modifies this
      ensures ok == Admits(old(View())) && View() == Entered(old(View()))
    {
      if closed {
        return false;
      }
      if calls >= MAX_CALLS {
        return false;
      }
      calls, running := calls + 1, running + 1;
      return true;
    }

    method FinishLocked()
      modifies this
      ensures View() == Finished(old(View()))
    {
      running := running - 1;
      if running == 0 && drained {
        drained, drains := false, drains + 1;
      }
    }

    method Leave()
      modifies this
      ensures View() == Left(old(View()))
    {
      calls := calls - 1;
      FinishLocked();
    }

    /** The start of track: false, counting nothing, once the host is closed. */
    method Track() returns (ok: bool)
      modifies this
      ensures ok == !old(closed) && View() == Tracked(old(View()))
    {
      if closed {
        return false;
      }
      running := running + 1;
      return true;
    }

    /** The section of shutdown; it waits when something runs. */
    method Shutdown() returns (waits: bool)
      requires !drained
      modifies this
      ensures waits == (old(running) != 0) && View() == ShutDown(old(View()))
    {
      closed := true;
      if running == 0 {
        return false;
      }
      drained := true;
      return true;
    }
  }

  // ----- concurrent calls, jobs and one shutdown -----

  /** Where a call is: it reads its body on the slot Admit gave it, or it runs in Ctl on that slot
      or on one Ctl took itself. */
  datatype Phase = Reading | Running(admitted: bool)

  datatype Shutdown = NotYet | Waiting | Returned

  datatype Host = Host(c: Counters, live: map<nat, Phase>, jobs: set<nat>, shutdown: Shutdown)

  datatype Step =
    | Admit(id: nat)              // serveCtl takes a slot before the body
    | CtlAdmitted(id: nat)        // Ctl sees the slot in its context
    | CtlDirect(id: nat)          // Ctl without one takes its own
    | Leave(id: nat)              // the one release, on whatever path the call ends
    | Track(id: nat, job: nat)    // a running call hands a page to a job
    | JobDone(job: nat)
    | BeginShutdown
    | WakeShutdown

  predicate Enabled(h: Host, step: Step) {
    match step
    case Admit(id) => id !in h.live
    case CtlAdmitted(id) => id in h.live && h.live[id] == Reading
    case CtlDirect(id) => id !in h.live
    case Leave(id) => id in h.live
    case Track(id, job) => id in h.live && h.live[id].Running? && job !in h.jobs
    case JobDone(job) => job in h.jobs
    case BeginShutdown => h.shutdown == NotYet
    case WakeShutdown => h.shutdown == Waiting && h.c.drains > 0
  }

  function Apply(h: Host, step: Step): Host
    requires Enabled(h, step)
  {
    match step
    case Admit(id) => if Admits(h.c) then h.(c := Entered(h.c), live := h.live[id := Reading]) else h
    case CtlAdmitted(id) => h.(live := h.live[id := Running(true)])
    case CtlDirect(id) => if Admits(h.c) then h.(c := Entered(h.c), live := h.live[id := Running(false)]) else h
    case Leave(id) => h.(c := Left(h.c), live := h.live - {id})
    case Track(_, job) => if h.c.closed then h else h.(c := Tracked(h.c), jobs := h.jobs + {job})
    case JobDone(job) => h.(c := Finished(h.c), jobs := h.jobs - {job})
    case BeginShutdown =>
      h.(c := ShutDown(h.c), shutdown := if h.c.running == 0 then Returned else Waiting)
    case WakeShutdown => h.(shutdown := Returned)
  }

  const Fresh := Host(Counters(0, 0, false, false, 0), map[], {}, NotYet)

  ghost predicate Inv(h: Host) {
    && h.c.calls == |h.live| <= MAX_CALLS
    && h.c.running == |h.live| + |h.jobs|
    && (h.c.closed <==> h.shutdown != NotYet)
    && (h.c.draining <==> h.shutdown == Waiting && h.c.drains == 0)
    && (h.c.draining ==> h.c.running > 0)
    && h.c.drains <= 1
    && (h.c.drains == 1 || h.shutdown == Returned ==> h.c.closed && h.c.running == 0)
  }

  lemma StepKeepsInv(h: Host, step: Step)
    requires Inv(h) && Enabled(h, step)
    ensures Inv(Apply(h, step))
  {
    match step
    case Leave(id) =>
      LeaveSizes(h.live, id);
    case JobDone(job) =>
    case CtlAdmitted(id) =>
      AgainSizes(h.live, id, Running(true));
    case Admit(id) =>
      EnterSizes(h.live, id, Reading);
    case CtlDirect(id) =>
      EnterSizes(h.live, id, Running(false));
    case _ =>
  }

  lemma LeaveSizes(live: map<nat, Phase>, id: nat)
    requires id in live
    ensures |live - {id}| == |live| - 1
  {
    assert (live - {id}).Keys == live.Keys - {id};
  }

  lemma EnterSizes(live: map<nat, Phase>, id: nat, p: Phase)
    requires id !in live
    ensures |live[id := p]| == |live| + 1
  {
    assert live[id := p].Keys == live.Keys + {id};
  }

  lemma AgainSizes(live: map<nat, Phase>, id: nat, p: Phase)
    requires id in live
    ensures |live[id := p]| == |live|
  {
    assert live[id := p].Keys == live.Keys;
  }

  ghost predicate Run(h: Host, steps: seq<Step>)
    decreases |steps|
  {
    steps == [] || (Enabled(h, steps[0]) && Run(Apply(h, steps[0]), steps[1..]))
  }

  function End(h: Host, steps: seq<Step>): Host
    requires Run(h, steps)
    decreases |steps|
  {
    if steps == [] then h else End(Apply(h, steps[0]), steps[1..])
  }

  lemma {:induction false} RunKeepsInv(h: Host, steps: seq<Step>)
    requires Inv(h) && Run(h, steps)
    ensures Inv(End(h, steps))
    decreases |steps|
  {
    if steps != [] {
      StepKeepsInv(h, steps[0]);
      RunKeepsInv(Apply(h, steps[0]), steps[1..]);
    }
  }

  /** In every interleaving: at most 16 calls hold a slot, each exactly one whether it was admitted
      before its body or not; what runs is those calls and the tracked jobs; and the channel a
      shutdown waits on is closed at most once, and only when nothing runs. */
  lemma Accounting(steps: seq<Step>)
    requires Run(Fresh, steps)
    ensures var h := End(Fresh, steps);
            && 0 <= h.c.calls == |h.live| <= MAX_CALLS
            && h.c.running == h.c.calls + |h.jobs|
            && h.c.drains <= 1
            && (h.c.drains == 1 ==> h.c.running == 0)
  {
    RunKeepsInv(Fresh, steps);
  }

  /** A call is turned away only from a host that is shutting down or has sixteen calls, whether it
      asks before its body or after, and a job only from one that is shutting down. */
  lemma TurnedAwayOnlyWhenFull(steps: seq<Step>, step: Step)
    requires Run(Fresh, steps) && Enabled(End(Fresh, steps), step)
    ensures var h := End(Fresh, steps);
            && (step.Admit? || step.CtlDirect? ==>
                  (step.id !in Apply(h, step).live <==> h.shutdown != NotYet || |h.live| >= 16))
            && (step.CtlAdmitted? ==> step.id in Apply(h, step).live && Apply(h, step).live[step.id] == Running(true))
            && (step.Track? ==> (step.job !in Apply(h, step).jobs <==> h.shutdown != NotYet))
            && (step.BeginShutdown? ==> (Apply(h, step).shutdown == Returned <==> h.live == map[] && h.jobs == {}))
  {
    RunKeepsInv(Fresh, steps);
    var h := End(Fresh, steps);
    assert |h.live| == 0 <==> h.live == map[];
    assert |h.jobs| == 0 <==> h.jobs == {};
  }

  /** A waiting shutdown is never forgotten: its channel is closed, or something still runs whose
      end will close it. */
  lemma ShutdownIsWoken(steps: seq<Step>)
    requires Run(Fresh, steps) && End(Fresh, steps).shutdown == Waiting
    ensures var h := End(Fresh, steps);
            if h.c.running == 0 then Enabled(h, WakeShutdown) else h.c.draining && (h.live != map[] || h.jobs != {})
  {
    RunKeepsInv(Fresh, steps);
    var h := End(Fresh, steps);
    if h.live == map[] && h.jobs == {} { assert |h.live| == 0 && |h.jobs| == 0; }
  }

  /** Once shutdown has returned nothing of the host runs, and nothing ever will. */
  lemma {:induction false} QuietAfterShutdown(h: Host, steps: seq<Step>)
    requires Inv(h) && h.shutdown == Returned && Run(h, steps)
    ensures var e := End(h, steps);
            e.shutdown == Returned && e.c.running == 0 && e.c.calls == 0 && e.live == map[] && e.jobs == {}
    decreases |steps|
  {
    assert |h.live| == 0 && |h.jobs| == 0;
    if steps != [] {
      StepKeepsInv(h, steps[0]);
      QuietAfterShutdown(Apply(h, steps[0]), steps[1..]);
    }
  }
}
