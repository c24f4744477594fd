/** The daemon's mutex-protected sections as methods over mutable fields. Each method is one
    critical section of startHost, stopHost, Start or Close and is proved to be exactly the
    transition of the same name in HostLifecycle, so every invariant proved there over all
    interleavings holds of the fields below whenever the mutex is free. */
module DaemonSections {
  import opened HostLifecycle

  class HostRuntime {
    const host: Host
    const goroutines: nat
    ghost const id: nat
    var stopping: bool
    var torndown: bool
    var bound: bool
    var done: int
    var kids: int
    var listening: bool

    constructor (host: Host, goroutines: nat, ghost id: nat)
      ensures this.host == host && this.goroutines == goroutines && this.id == id
      ensures View() == Runtime(host, goroutines, false, false, false, goroutines, 0, false)
    {
      this.host, this.goroutines, this.id := host, goroutines, id;
      stopping, torndown, bound, listening := false, false, false, false;
      done, kids := goroutines, 0;
    }

    ghost function View(): Runtime
      reads this
    {
      Runtime(host, goroutines, stopping, torndown, bound, done, kids, listening)
    }

    /** Counted among the children and accepting connections. */
    method Announce()
      modifies `kids, `bound, `listening
      ensures View() == old(View()).(kids := goroutines, bound := true, listening := true)
    {
      kids, bound, listening := goroutines, true, true;
    }
  }

  /** What the early check of startHost decided. */
  datatype EarlyOutcome = DaemonStopping | Free | Running | TearingDown(existing: HostRuntime)

  /** What the authoritative check of startHost decided. */
  datatype ClaimOutcome = ClaimRefused | AlreadyRunning | MustWait(existing: HostRuntime) | BindFailed | Announced

  /** What the first section of stopHost found. */
  datatype StopOutcome = NothingToStop | OwnedByAnother(existing: HostRuntime) | Claimed(runtime: HostRuntime)

  /** Where a stopHost that found this stands next. */
  ghost predicate StopGoesTo(outcome: StopOutcome, next: Thread) {
    match outcome
    case NothingToStop => next == Exited(Succeeded)
    case OwnedByAnother(e) => next == StopWait(e.id)
    case Claimed(r) => next == Teardown(r.id)
  }

  lemma StopFinds(s: State, t: nat, host: Host)
    requires At(s, t) && s.threads[t] == Stopping(host)
    ensures host !in s.slots ==> AfterStopClaim(s, t) == Move(s, t, Exited(Succeeded))
    ensures host in s.slots && s.slots[host] < |s.rts| && s.rts[s.slots[host]].stopping ==>
              AfterStopClaim(s, t) == Move(s, t, StopWait(s.slots[host]))
    ensures At(AfterStopClaim(s, t), t)
  {}

  class Daemon {
    var started: bool
    var closing: bool
    var locked: bool                     // lockFile is held
    var hosts: map<Host, HostRuntime>
    var children: int
    var others: int                      // children that belong to no host
    var waiter: Waiter
    var panicked: bool
    ghost var runtimes: set<HostRuntime> // every runtime ever built

    ghost predicate Mirrors(r: HostRuntime, s: State)
      reads r
    {
      r.id < |s.rts| && s.rts[r.id] == r.View()
    }

    /** The fields are those of the abstract state s, which also knows the paths and the threads. */
    ghost predicate Represents(s: State)
      reads this, runtimes
    {
      && started == s.started && closing == s.closing && locked == s.locked
      && children == s.children && others == s.others && waiter == s.waiter && panicked == s.panicked
      && (forall r :: r in runtimes ==> Mirrors(r, s))
      && (forall q, r :: q in runtimes && r in runtimes && q.id == r.id ==> q == r)
      && hosts.Keys == s.slots.Keys
      && (forall h :: h in hosts ==> hosts[h] in runtimes && hosts[h].id == s.slots[h])
    }

    constructor (ghost s: State)
      requires Init(s)
      ensures Represents(s)
    {
      started, closing, locked, panicked := false, false, false, false;
      hosts, children, others, waiter := map[], 0, 0, NoWaiter;
      runtimes := {};
    }

    /** startHost's first section, and its re-check after waiting out a teardown. */
    method EarlyCheck(ghost s: State, ghost t: nat, host: Host, first: bool) returns (outcome: EarlyOutcome)
      requires Represents(s) && At(s, t) && s.threads[t] == Starting(host, first)
      ensures Represents(ApplyStart(s, StartStep.EarlyCheck(t)))
      ensures var next := AfterEarlyCheck(s, host, first);
              match outcome
              case DaemonStopping => next == Exited(Failed)
              case Free => next == Building(host)
              case Running => next == Exited(Succeeded)
              case TearingDown(existing) => next == EarlyWait(host, existing.id)
    {
      if first && (!started || closing) {
        outcome := DaemonStopping;
      } else if host !in hosts {
        outcome := Free;
      } else if hosts[host].stopping {
        outcome := TearingDown(hosts[host]);
      } else {
        outcome := Running;
      }
    }

    /** startHost builds its runtime, arming the runtime's WaitGroup before anyone can see it. */
    method Build(ghost s: State, ghost t: nat, host: Host, goroutines: nat) returns (runtime: HostRuntime)
      requires Represents(s) && At(s, t) && s.threads[t] == Building(host) && 2 <= goroutines <= 4
      modifies `runtimes
      ensures Represents(ApplyStart(s, StartStep.Build(t, goroutines, true)))
      ensures fresh(runtime) && runtime in runtimes && runtime.id == |s.rts|
    {
      runtime := new HostRuntime(host, goroutines, |s.rts|);
      runtimes := runtimes + {runtime};
    }

    /** The authoritative check of startHost: refuse, adopt, wait, or publish, reserve and bind
        in one section. `bind` is what ListenClean answered. */
    method Claim(ghost s: State, ghost t: nat, runtime: HostRuntime, bind: BindResult) returns (outcome: ClaimOutcome)
      requires Represents(s) && runtime in runtimes && At(s, t) && s.threads[t] == Claiming(runtime.host, runtime.id)
      requires Answers(s, runtime.host) ==> bind == FailedKept
      modifies this, runtime
      ensures Represents(AfterClaim(s, t, bind))
      ensures var host := runtime.host;
              match outcome
              case ClaimRefused => !started || closing
              case AlreadyRunning => started && !closing && host in old(hosts) && !old(hosts[host].stopping) && hosts == old(hosts)
              case MustWait(e) =>
                && started && !closing && host in old(hosts) && e == old(hosts)[host] && old(e.stopping) && hosts == old(hosts)
                && AfterClaim(s, t, bind).threads[t] == LateWait(host, runtime.id, e.id)
              case BindFailed => started && !closing && host !in old(hosts) && bind != Bound && hosts == old(hosts)
              case Announced =>
                && started && !closing && host !in old(hosts) && bind == Bound && runtime.bound && runtime.listening
                && hosts == old(hosts)[host := runtime]
    {
      var host := runtime.host;
      if !started || closing {
        outcome := ClaimRefused;
      } else if host in hosts {
        outcome := if hosts[host].stopping then MustWait(hosts[host]) else AlreadyRunning;
      } else {
        outcome := Publish(s, t, runtime, bind);
      }
    }

    /** Published, reserved and bound. */
    method PublishBound(ghost s: State, ghost t: nat, runtime: HostRuntime)
      requires Represents(s) && runtime in runtimes && At(s, t) && s.threads[t] == Claiming(runtime.host, runtime.id)
      modifies `panicked, `children, `hosts, runtime`kids, runtime`bound, runtime`listening
      ensures Represents(Published(s, t, Bound))
      ensures runtime.bound && runtime.listening && hosts == old(hosts)[runtime.host := runtime]
    {
      assert Mirrors(runtime, s);
      AddChildren(runtime.goroutines);
      runtime.Announce();
      hosts := hosts[runtime.host := runtime];
      ghost var s' := Published(s, t, Bound);
      assert s'.rts == s.rts[runtime.id := runtime.View()];
      forall r | r in runtimes ensures Mirrors(r, s') { assert old(Mirrors(r, s)); }
    }

    /** Published and reserved, but the bind failed: the slot is given up again. */
    method PublishFailed(ghost s: State, ghost t: nat, runtime: HostRuntime, ghost bind: BindResult)
      requires Represents(s) && runtime in runtimes && At(s, t) && s.threads[t] == Claiming(runtime.host, runtime.id)
      requires bind != Bound
      modifies this, runtime
      ensures Represents(Published(s, t, bind)) && hosts == old(hosts)
    {
      AddChildren(runtime.goroutines);
      runtime.kids := runtime.goroutines;
      ghost var s' := Published(s, t, bind);
      assert s'.rts == s.rts[runtime.id := runtime.View()];
      forall r | r in runtimes ensures Mirrors(r, s') { assert old(Mirrors(r, s)); }
    }

    method Publish(ghost s: State, ghost t: nat, runtime: HostRuntime, bind: BindResult) returns (outcome: ClaimOutcome)
      requires Represents(s) && runtime in runtimes && At(s, t) && s.threads[t] == Claiming(runtime.host, runtime.id)
      modifies this, runtime
      ensures Represents(Published(s, t, bind))
      ensures bind == Bound ==>
                outcome == Announced && runtime.bound && runtime.listening && hosts == old(hosts)[runtime.host := runtime]
      ensures bind != Bound ==> outcome == BindFailed && hosts == old(hosts)
    {
      if bind == Bound {
        PublishBound(s, t, runtime);
        outcome := Announced;
      } else {
        PublishFailed(s, t, runtime, bind);
        outcome := BindFailed;
      }
    }

    /** children.Add(n). */
    method AddChildren(n: nat)
      modifies `panicked, `children
      ensures children == old(children) + n
      ensures panicked == old(panicked || (children == 0 && n > 0 && (waiter == Blocked || waiter == Woken)))
    {
      panicked := panicked || (children == 0 && n > 0 && (waiter == Blocked || waiter == Woken));
      children := children + n;
    }

    /** children.Done(). */
    method ChildDone()
      modifies `panicked, `children, `waiter
      ensures children == old(children) - 1
      ensures panicked == old(panicked || children <= 0)
      ensures waiter == if old(children == 1 && waiter == Blocked) then Woken else old(waiter)
    {
      panicked := panicked || children <= 0;
      children := children - 1;
      if children == 0 && waiter == Blocked { waiter := Woken; }
    }

    /** One goroutine of a bound runtime has returned from its second deferred call. */
    method GoroutineKid(ghost s: State, runtime: HostRuntime)
      requires Represents(s) && runtime in runtimes && AmbientEnabled(s, AmbientStep.GoroutineKid(runtime.id))
      modifies this, runtime`kids
      ensures Represents(ApplyAmbient(s, AmbientStep.GoroutineKid(runtime.id)))
    {
      ghost var s' := ApplyAmbient(s, AmbientStep.GoroutineKid(runtime.id));
      runtime.kids := runtime.kids - 1;
      assert s'.rts == s.rts[runtime.id := runtime.View()];
      forall r | r in runtimes ensures Mirrors(r, s') { assert old(Mirrors(r, s)); }
      ChildDone();
    }

    /** stopHost claims the teardown of a running runtime. */
    method MarkStopping(ghost s: State, ghost t: nat, host: Host)
      requires Represents(s) && At(s, t) && s.threads[t] == Stopping(host) && host in hosts && !hosts[host].stopping
      modifies (if host in hosts then {hosts[host]} else {})`stopping
      ensures Represents(AfterStopClaim(s, t)) && hosts[host].stopping
      ensures AfterStopClaim(s, t).threads[t] == Teardown(hosts[host].id)
    {
      var runtime := hosts[host];
      runtime.stopping := true;
      ghost var s' := AfterStopClaim(s, t);
      assert s'.rts == s.rts[runtime.id := runtime.View()];
      forall r | r in runtimes ensures Mirrors(r, s') { assert old(Mirrors(r, s)); }
    }

    /** The section in which stopHost claims a teardown. The runtime keeps its slot. */
    method StopClaim(ghost s: State, ghost t: nat, host: Host) returns (outcome: StopOutcome)
      requires Represents(s) && At(s, t) && s.threads[t] == Stopping(host)
      modifies (if host in hosts then {hosts[host]} else {})`stopping
      ensures Represents(AfterStopClaim(s, t))
      ensures match outcome
              case NothingToStop => host !in hosts
              case OwnedByAnother(e) => host in hosts && e == hosts[host] && old(e.stopping)
              case Claimed(r) => host in hosts && r == hosts[host] && !old(r.stopping) && r.stopping
      ensures StopGoesTo(outcome, AfterStopClaim(s, t).threads[t])
    {
      hide AfterStopClaim;
      StopFinds(s, t, host);
      if host !in hosts {
        outcome := NothingToStop;
      } else if hosts[host].stopping {
        outcome := OwnedByAnother(hosts[host]);
        assert Mirrors(hosts[host], s);
      } else {
        outcome := Claimed(hosts[host]);
        MarkStopping(s, t, host);
      }
    }

    /** The section in which stopHost unlinks the path and frees the slot, if it is still its own. */
    method StopFree(ghost s: State, ghost t: nat, runtime: HostRuntime) returns (unlinked: bool)
      requires Represents(s) && runtime in runtimes && At(s, t) && s.threads[t] == Teardown(runtime.id)
      modifies `hosts
      ensures Represents(AfterStopFree(s, t))
      ensures unlinked <==> runtime.host in old(hosts) && old(hosts)[runtime.host] == runtime && runtime.bound
    {
      unlinked := runtime.host in hosts && hosts[runtime.host] == runtime && runtime.bound;
      if runtime.host in hosts && hosts[runtime.host] == runtime {
        FreeSlot(s, t, runtime);
      } else {
        assert Mirrors(runtime, s);
        assert AfterStopFree(s, t).rts == s.rts;
      }
    }

    /** The slot is still the runtime's own. */
    method FreeSlot(ghost s: State, ghost t: nat, runtime: HostRuntime)
      requires Represents(s) && runtime in runtimes && At(s, t) && s.threads[t] == Teardown(runtime.id)
      requires runtime.host in hosts && hosts[runtime.host] == runtime
      modifies `hosts
      ensures Represents(AfterStopFree(s, t))
    {
      assert s.slots[runtime.host] == runtime.id && Mirrors(runtime, s);
      Delete(runtime.host);
      assert AfterStopFree(s, t).rts == s.rts;
    }

    /** delete(d.hosts, host). */
    method Delete(host: Host)
      modifies `hosts
      ensures hosts == old(hosts) - {host}
    {
      hosts := hosts - {host};
    }

    /** close(runtime.torndown), by the stopHost that owns it. */
    method StopClose(ghost s: State, ghost t: nat, runtime: HostRuntime)
      requires Represents(s) && runtime in runtimes && At(s, t) && s.threads[t] == Freed(runtime.id)
      modifies `panicked, runtime`torndown
      ensures Represents(ApplyStop(s, StopStep.StopClose(t)))
    {
      panicked := panicked || runtime.torndown;
      runtime.torndown := true;
    }

    /** Start's section: refuse a started daemon, then take the flock. */
    method Start(ghost s: State, lockFree: bool) returns (ok: bool)
      requires Represents(s)
      modifies this
      ensures Represents(ApplyClose(s, CloseStep.Start(lockFree)))
      ensures ok <==> old(!started && !locked) && lockFree
    {
      ok := false;
      if !started && !locked && lockFree {
        locked, started, closing, ok := true, true, false, true;
      }
    }

    /** Close's first section: mark the daemon closing and snapshot the runtimes. */
    method CloseBegin(ghost s: State) returns (ok: bool, victims: set<HostRuntime>, bound: set<HostRuntime>)
      requires Represents(s)
      modifies `closing
      ensures Represents(ApplyClose(s, CloseStep.CloseBegin))
      ensures ok <==> old((started || locked) && !closing)
      ensures ok ==> victims == (set h | h in hosts :: hosts[h]) && bound == set r | r in victims && r.bound
    {
      ok, victims, bound := (started || locked) && !closing, {}, {};
      if ok {
        closing := true;
        victims := set h | h in hosts :: hosts[h];
        bound := set r | r in victims && r.bound;
      }
    }

    /** Close arms the generation's one waiter, unless an earlier Close left it running. */
    method CloseDrain(ghost s: State)
      requires Represents(s) && CloseEnabled(s, CloseStep.CloseDrain)
      modifies `waiter
      ensures Represents(ApplyClose(s, CloseStep.CloseDrain))
    {
      if waiter == NoWaiter {
        waiter := if children == 0 then Woken else Blocked;
      }
    }

    /** Close's last section: with every child drained the flock goes, and in any case the
        daemon is stopped and the slot map empty. */
    method CloseFinish(ghost s: State, quiescent: bool)
      requires Represents(s) && CloseEnabled(s, CloseStep.CloseFinish) && s.closer.quiescent == quiescent
      modifies this
      ensures Represents(ApplyClose(s, CloseStep.CloseFinish))
    {
      if quiescent {
        locked, waiter := false, NoWaiter;
      }
      started, closing, hosts := false, false, map[];
    }
  }
}
