/** The per-host slot, socket and generation protocol of the daemon, as a labelled
    transition system. Each critical section of the daemon's mutex, each blocking wait and
    each step that runs outside the mutex is one atomic label. Runtimes and threads are
    unbounded, every timeout may fire at any moment, and a run-time panic (closing a closed
    channel, a negative or reused WaitGroup) is a recorded outcome, not an assumption. */
module HostLifecycle {

  datatype Host = Host(name: string)

  /** Who created the file at a receiver path. */
  datatype Owner = Nobody | Foreign(listening: bool) | Owned(rid: nat)

  /** One hostRuntime. `done` is its own WaitGroup, `kids` its share of the daemon's. */
  datatype Runtime = Runtime(
    host: Host, goroutines: nat,
    stopping: bool, torndown: bool, bound: bool,
    done: int, kids: int, listening: bool)

  datatype Outcome = Succeeded | Failed

  /** Program counters of the calls to startHost and stopHost. */
  datatype Thread =
    | Starting(host: Host, first: bool)            // at the early check
    | EarlyWait(host: Host, on: nat)               // blocked on a predecessor's torndown
    | Building(host: Host)                         // the remote round trips
    | Claiming(host: Host, rid: nat)               // runtime built, at the authoritative check
    | LateWait(host: Host, rid: nat, on: nat)      // blocked on a predecessor's torndown
    | Releasing(rid: nat, left: nat, owes: bool, reserved: bool, result: Outcome)
    | Stopping(host: Host)                         // stopHost before its first section
    | StopWait(on: nat)                              // another stopHost owns the teardown
    | Teardown(rid: nat)                             // claimed, waiting for the goroutines
    | Freed(rid: nat)                                // slot free, torndown not closed yet
    | Exited(result: Outcome)

  /** The one goroutine that waits on the children of a shutdown generation. */
  datatype Waiter = NoWaiter | Blocked | Woken | Returned

  /** How far the one running Close is. `hosts` is its snapshot. */
  datatype Closer =
    | Idle
    | Unlinking(hosts: set<nat>, todo: set<nat>)
    | Draining(hosts: set<nat>)
    | Final(hosts: set<nat>, todo: set<nat>, quiescent: bool)

  datatype State = State(
    started: bool, closing: bool, locked: bool,
    slots: map<Host, nat>, files: map<Host, Owner>,
    rts: seq<Runtime>, threads: seq<Thread>,
    children: int, others: int,
    waiter: Waiter, closer: Closer, panicked: bool)

  /** What ListenClean did: bound, failed with the path as it was, or failed after removing it. */
  datatype BindResult = Bound | FailedKept | FailedCleaned

  datatype StartStep =
    | CallStart(host: Host) | EarlyCheck(t: nat) | EarlyWake(t: nat)
    | Build(t: nat, goroutines: nat, ok: bool)
    | Claim(t: nat, bind: BindResult) | LateWake(t: nat)
    | ReleaseDone(t: nat) | ReleaseKid(t: nat) | ReleaseClose(t: nat)

  datatype StopStep =
    | CallStop(host: Host) | StopClaim(t: nat) | StopWake(t: nat)
    | StopFree(t: nat, timedOut: bool) | StopClose(t: nat)

  datatype CloseStep =
    | Start(lockFree: bool)
    | CloseBegin | CloseUnlink(r: nat) | CloseDrain | CloseProceed(timedOut: bool)
    | CloseUnlinkAgain(r: nat) | CloseFinish | WaiterReturn

  datatype AmbientStep =
    | GoroutineDone(r: nat) | GoroutineKid(r: nat) | ListenerDown(r: nat)
    | AddOther | OtherDone
    | OtherProcess(host: Host, listening: bool) | OtherProcessDies(host: Host)

  /** One atomic step of startHost, of stopHost, of Start and Close, or of everything else. */
  datatype Label =
    | InStartHost(start: StartStep) | InStopHost(stop: StopStep)
    | InLifetime(close: CloseStep) | Ambient(ambient: AmbientStep)

  function FileAt(files: map<Host, Owner>, host: Host): Owner {
    if host in files then files[host] else Nobody
  }

  /** A dial to the path would be answered. */
  predicate Answers(s: State, host: Host) {
    match FileAt(s.files, host)
    case Nobody => false
    case Foreign(listening) => listening
    case Owned(r) => r < |s.rts| && s.rts[r].listening
  }

  predicate At(s: State, t: nat) { t < |s.threads| }

  /** The runtime whose torndown this thread will close. */
  function Holds(th: Thread): set<nat> {
    match th
    case Claiming(_, r) => {r}
    case LateWait(_, r, _) => {r}
    case Releasing(r, _, _, _, _) => {r}
    case Teardown(r) => {r}
    case Freed(r) => {r}
    case _ => {}
  }

  /** The runtime whose torndown this thread is blocked on. */
  function WaitsOn(th: Thread): set<nat> {
    match th
    case EarlyWait(_, r) => {r}
    case LateWait(_, _, r) => {r}
    case StopWait(r) => {r}
    case _ => {}
  }

  // ----- the transitions -----

  predicate StartEnabled(s: State, l: StartStep) {
    match l
    case CallStart(_) => true
    case EarlyCheck(t) => At(s, t) && s.threads[t].Starting?
    case EarlyWake(t) => At(s, t) && s.threads[t].EarlyWait? && Torn(s, s.threads[t].on)
    case Build(t, g, _) => At(s, t) && s.threads[t].Building? && 2 <= g <= 4
    case Claim(t, bind) => At(s, t) && s.threads[t].Claiming? && s.threads[t].rid < |s.rts|
                           && (Answers(s, s.threads[t].host) ==> bind == FailedKept)
    case LateWake(t) => At(s, t) && s.threads[t].LateWait? && Torn(s, s.threads[t].on)
    case ReleaseDone(t) => At(s, t) && s.threads[t].Releasing? && s.threads[t].rid < |s.rts|
                           && s.threads[t].left > 0 && !s.threads[t].owes
    case ReleaseKid(t) => At(s, t) && s.threads[t].Releasing? && s.threads[t].rid < |s.rts|
                          && s.threads[t].left > 0 && s.threads[t].owes
    case ReleaseClose(t) => At(s, t) && s.threads[t].Releasing? && s.threads[t].rid < |s.rts|
                            && s.threads[t].left == 0
  }

  predicate StopEnabled(s: State, l: StopStep) {
    match l
    case CallStop(_) => true
    case StopClaim(t) => At(s, t) && s.threads[t].Stopping?
    case StopWake(t) => At(s, t) && s.threads[t].StopWait? && Torn(s, s.threads[t].on)
    case StopFree(t, timedOut) => At(s, t) && s.threads[t].Teardown? && s.threads[t].rid < |s.rts|
                                  && (timedOut || s.rts[s.threads[t].rid].done == 0)
    case StopClose(t) => At(s, t) && s.threads[t].Freed? && s.threads[t].rid < |s.rts|
  }

  predicate CloseEnabled(s: State, l: CloseStep) {
    match l
    case Start(_) => true
    case CloseBegin => true
    case CloseUnlink(r) => s.closer.Unlinking? && r in s.closer.todo && r < |s.rts|
    case CloseDrain => s.closer.Unlinking? && s.closer.todo == {}
    case CloseProceed(timedOut) => s.closer.Draining? && (timedOut || s.waiter == Returned)
    case CloseUnlinkAgain(r) => s.closer.Final? && r in s.closer.todo && r < |s.rts|
    case CloseFinish => s.closer.Final? && s.closer.todo == {}
    case WaiterReturn => s.waiter == Woken
  }

  predicate AmbientEnabled(s: State, l: AmbientStep) {
    match l
    case GoroutineDone(r) => r < |s.rts| && s.rts[r].bound && s.rts[r].done > (if s.rts[r].listening then 1 else 0)
    case GoroutineKid(r) => r < |s.rts| && s.rts[r].bound && s.rts[r].kids > s.rts[r].done
    case ListenerDown(r) => r < |s.rts| && s.rts[r].listening
    case AddOther => (s.started && !s.closing) || s.others > 0
    case OtherDone => s.others > 0
    case OtherProcess(_, _) => !s.locked
    case OtherProcessDies(host) => FileAt(s.files, host).Foreign?
  }

  predicate Enabled(s: State, l: Label) {
    match l
    case InStartHost(step) => StartEnabled(s, step)
    case InStopHost(step) => StopEnabled(s, step)
    case InLifetime(step) => CloseEnabled(s, step)
    case Ambient(step) => AmbientEnabled(s, step)
  }

  predicate Torn(s: State, r: nat) { r < |s.rts| && s.rts[r].torndown }

  function Move(s: State, t: nat, th: Thread): State
    requires At(s, t)
  { s.(threads := s.threads[t := th]) }

  function Put(s: State, r: nat, rt: Runtime): State
    requires r < |s.rts|
  { s.(rts := s.rts[r := rt]) }

  /** close(runtime.torndown): closing it twice panics. */
  function CloseTorndown(s: State, r: nat): State
    requires r < |s.rts|
  {
    Put(s, r, s.rts[r].(torndown := true)).(panicked := s.panicked || s.rts[r].torndown)
  }

  /** children.Add(n): raising the counter from zero while a waiter has not returned panics. */
  function AddChildren(s: State, n: nat): State {
    s.(children := s.children + n,
       panicked := s.panicked || (s.children == 0 && n > 0 && (s.waiter == Blocked || s.waiter == Woken)))
  }

  /** children.Done(): wakes the waiter at zero and panics below it. */
  function ChildDone(s: State): State {
    s.(children := s.children - 1,
       waiter := if s.children == 1 && s.waiter == Blocked then Woken else s.waiter,
       panicked := s.panicked || s.children <= 0)
  }

  function Unlink(s: State, host: Host): State { s.(files := s.files[host := Nobody]) }

  function ApplyStart(s: State, l: StartStep): State
    requires StartEnabled(s, l)
  {
    match l
    case CallStart(h) => s.(threads := s.threads + [Starting(h, true)])
    case EarlyCheck(t) => Move(s, t, AfterEarlyCheck(s, s.threads[t].host, s.threads[t].first))
    case EarlyWake(t) => Move(s, t, Starting(s.threads[t].host, false))
    case Build(t, g, ok) =>
      if !ok then Move(s, t, Exited(Failed))
      else
        Move(s, t, Claiming(s.threads[t].host, |s.rts|))
        .(rts := s.rts + [Runtime(s.threads[t].host, g, false, false, false, g, 0, false)])
    case Claim(t, bind) => AfterClaim(s, t, bind)
    case LateWake(t) => Move(s, t, Claiming(s.threads[t].host, s.threads[t].rid))
    case ReleaseDone(t) =>
      var th := s.threads[t];
      var s1 := Put(s, th.rid, s.rts[th.rid].(done := s.rts[th.rid].done - 1))
                .(panicked := s.panicked || s.rts[th.rid].done <= 0);
      Move(s1, t, if th.reserved then th.(owes := true) else th.(left := th.left - 1))
    case ReleaseKid(t) =>
      var th := s.threads[t];
      var s1 := ChildDone(Put(s, th.rid, s.rts[th.rid].(kids := s.rts[th.rid].kids - 1)));
      Move(s1, t, th.(owes := false, left := th.left - 1))
    case ReleaseClose(t) => Move(CloseTorndown(s, s.threads[t].rid), t, Exited(s.threads[t].result))
  }

  function ApplyStop(s: State, l: StopStep): State
    requires StopEnabled(s, l)
  {
    match l
    case CallStop(h) => s.(threads := s.threads + [Stopping(h)])
    case StopClaim(t) => AfterStopClaim(s, t)
    case StopWake(t) => Move(s, t, Exited(Succeeded))
    case StopFree(t, _) => AfterStopFree(s, t)
    case StopClose(t) => Move(CloseTorndown(s, s.threads[t].rid), t, Exited(Succeeded))
  }

  function ApplyClose(s: State, l: CloseStep): State
    requires CloseEnabled(s, l)
  {
    match l
    case Start(lockFree) =>
      // The flock conflicts with the daemon's own earlier descriptor, and with another process.
      if s.started || s.locked || !lockFree then s
      else s.(locked := true, started := true, closing := false)
    case CloseBegin =>
      if (!s.started && !s.locked) || s.closing then s
      else s.(closing := true, closer := Unlinking(s.slots.Values, BoundOf(s, s.slots.Values)))
    case CloseUnlink(r) =>
      Unlink(s, s.rts[r].host).(closer := Unlinking(s.closer.hosts, s.closer.todo - {r}))
    case CloseDrain =>
      s.(closer := Draining(s.closer.hosts),
         waiter := if s.waiter != NoWaiter then s.waiter else if s.children == 0 then Woken else Blocked)
    case CloseProceed(timedOut) =>
      s.(closer := Final(s.closer.hosts, BoundOf(s, s.closer.hosts), !timedOut))
    case CloseUnlinkAgain(r) =>
      Unlink(s, s.rts[r].host).(closer := Final(s.closer.hosts, s.closer.todo - {r}, s.closer.quiescent))
    case CloseFinish =>
      s.(started := false, closing := false, slots := map[], closer := Idle,
         locked := s.locked && !s.closer.quiescent,
         waiter := if s.closer.quiescent then NoWaiter else s.waiter)
    case WaiterReturn => s.(waiter := Returned)
  }

  function ApplyAmbient(s: State, l: AmbientStep): State
    requires AmbientEnabled(s, l)
  {
    match l
    case GoroutineDone(r) => Put(s, r, s.rts[r].(done := s.rts[r].done - 1))
    case GoroutineKid(r) => ChildDone(Put(s, r, s.rts[r].(kids := s.rts[r].kids - 1)))
    case ListenerDown(r) => Put(s, r, s.rts[r].(listening := false))
    case AddOther => AddChildren(s, 1).(others := s.others + 1)
    case OtherDone => ChildDone(s).(others := s.others - 1)
    case OtherProcess(h, listening) => s.(files := s.files[h := Foreign(listening)])
    case OtherProcessDies(h) => s.(files := s.files[h := Foreign(false)])
  }

  function Apply(s: State, l: Label): State
    requires Enabled(s, l)
  {
    match l
    case InStartHost(step) => ApplyStart(s, step)
    case InStopHost(step) => ApplyStop(s, step)
    case InLifetime(step) => ApplyClose(s, step)
    case Ambient(step) => ApplyAmbient(s, step)
  }

  function AfterEarlyCheck(s: State, host: Host, first: bool): Thread {
    if first && (!s.started || s.closing) then Exited(Failed)
    else if host !in s.slots then Building(host)
    else if s.slots[host] < |s.rts| && s.rts[s.slots[host]].stopping then EarlyWait(host, s.slots[host])
    else Exited(Succeeded)
  }

  function AfterClaim(s: State, t: nat, bind: BindResult): State
    requires At(s, t) && s.threads[t].Claiming? && s.threads[t].rid < |s.rts|
  {
    var host, rid := s.threads[t].host, s.threads[t].rid;
    var rt := s.rts[rid];
    if !s.started || s.closing then
      Move(s, t, Releasing(rid, rt.goroutines, false, false, Failed))
    else if host in s.slots then
      if s.slots[host] < |s.rts| && s.rts[s.slots[host]].stopping then Move(s, t, LateWait(host, rid, s.slots[host]))
      else Move(s, t, Releasing(rid, rt.goroutines, false, false, Succeeded))
    else
      Published(s, t, bind)
  }

  /** Published, reserved and bound in one critical section. */
  function Published(s: State, t: nat, bind: BindResult): State
    requires At(s, t) && s.threads[t].Claiming? && s.threads[t].rid < |s.rts|
  {
    var host, rid := s.threads[t].host, s.threads[t].rid;
    var rt := s.rts[rid];
    var s1 := AddChildren(s, rt.goroutines);
    if bind == Bound then
      Move(Put(s1, rid, rt.(bound := true, listening := true, kids := rt.goroutines)), t, Exited(Succeeded))
      .(slots := s.slots[host := rid], files := s.files[host := Owned(rid)])
    else
      Move(Put(s1, rid, rt.(kids := rt.goroutines)), t, Releasing(rid, rt.goroutines, false, true, Failed))
      .(files := if bind == FailedCleaned then s.files[host := Nobody] else s.files)
  }

  function AfterStopClaim(s: State, t: nat): State
    requires At(s, t) && s.threads[t].Stopping?
  {
    var host := s.threads[t].host;
    if host !in s.slots || s.slots[host] >= |s.rts| then Move(s, t, Exited(Succeeded))
    else
      var r := s.slots[host];
      if s.rts[r].stopping then Move(s, t, StopWait(r))
      else Move(Put(s, r, s.rts[r].(stopping := true)), t, Teardown(r))
  }

  function AfterStopFree(s: State, t: nat): State
    requires At(s, t) && s.threads[t].Teardown? && s.threads[t].rid < |s.rts|
  {
    var r := s.threads[t].rid;
    var host := s.rts[r].host;
    var mine := host in s.slots && s.slots[host] == r;
    s.(threads := s.threads[t := Freed(r)],
       files := if mine && s.rts[r].bound then s.files[host := Nobody] else s.files,
       slots := if mine then s.slots - {host} else s.slots)
  }

  function BoundOf(s: State, rids: set<nat>): set<nat> {
    set r | r in rids && r < |s.rts| && s.rts[r].bound
  }

  ghost predicate Init(s: State) {
    && !s.started && !s.closing && !s.locked && s.slots == map[] && s.rts == [] && s.threads == []
    && s.children == 0 && s.others == 0 && s.waiter == NoWaiter && s.closer == Idle && !s.panicked
    && forall h :: h in s.files ==> !s.files[h].Owned?
  }

  // ----- the invariant -----

  function Kids(rts: seq<Runtime>): int {
    if rts == [] then 0 else Kids(rts[..|rts| - 1]) + rts[|rts| - 1].kids
  }

  ghost predicate RuntimeOk(rt: Runtime) {
    && 2 <= rt.goroutines && 0 <= rt.done <= rt.goroutines && 0 <= rt.kids
    && (rt.stopping ==> rt.bound)
    && (rt.bound ==> rt.done <= rt.kids && (rt.torndown ==> rt.stopping))
    && (rt.listening ==> rt.bound && 1 <= rt.done)
  }

  /** A runtime that only its own startHost knows. */
  ghost predicate Private(s: State, r: nat) {
    && r < |s.rts| && !s.rts[r].stopping && !s.rts[r].torndown && !s.rts[r].bound
  }

  ghost predicate ThreadOk(s: State, th: Thread) {
    && (forall r :: r in WaitsOn(th) ==> r < |s.rts| && s.rts[r].stopping)
    && match th
       case Claiming(h, r) => Unpublished(s, h, r)
       case LateWait(h, r, _) => Unpublished(s, h, r)
       case Releasing(r, left, owes, reserved, _) =>
         && Private(s, r)
         && (owes ==> left > 0 && reserved)
         && s.rts[r].done == (if owes then left - 1 else left)
         && s.rts[r].kids == (if reserved then left else 0)
       case Teardown(r) => r < |s.rts| && s.rts[r].stopping && !s.rts[r].torndown
       case Freed(r) =>
         && r < |s.rts| && s.rts[r].stopping && !s.rts[r].torndown
         && !(s.rts[r].host in s.slots && s.slots[s.rts[r].host] == r)
       case _ => true
  }

  ghost predicate Unpublished(s: State, h: Host, r: nat) {
    Private(s, r) && s.rts[r].host == h && s.rts[r].done == s.rts[r].goroutines && s.rts[r].kids == 0
  }

  ghost predicate Tears(th: Thread, r: nat) { th == Teardown(r) || th == Freed(r) }

  ghost predicate HasWaker(s: State, r: nat) {
    exists t: nat :: t < |s.threads| && Tears(s.threads[t], r)
  }

  ghost predicate SoleHolders(threads: seq<Thread>) {
    forall t: nat, u: nat :: t < |threads| && u < |threads| && t != u ==> Holds(threads[t]) !! Holds(threads[u])
  }

  ghost predicate ThreadsInv(s: State) {
    && (forall t: nat :: t < |s.threads| ==> ThreadOk(s, s.threads[t]))
    && SoleHolders(s.threads)
  }

  ghost predicate RuntimesInv(s: State) {
    && (forall r: nat :: r < |s.rts| ==> RuntimeOk(s.rts[r]))
    && (forall r: nat :: r < |s.rts| && s.rts[r].stopping && !s.rts[r].torndown ==> HasWaker(s, r))
  }

  ghost predicate SlotOk(s: State, h: Host)
    requires h in s.slots
  {
    var r := s.slots[h];
    r < |s.rts| && s.rts[r].host == h && s.rts[r].bound && !s.rts[r].torndown
  }

  ghost predicate DistinctHosts(rts: seq<Runtime>, rids: set<nat>) {
    && (forall a :: a in rids ==> a < |rts|)
    && (forall a, b :: a in rids && b in rids && rts[a].host == rts[b].host ==> a == b)
  }

  ghost predicate SlotsInv(s: State) {
    && (forall h :: h in s.slots ==> SlotOk(s, h))
    && (!s.started ==> s.slots == map[])
    && (s.closer != Idle ==> s.slots.Values <= s.closer.hosts && DistinctHosts(s.rts, s.closer.hosts))
    && (s.closer.Unlinking? || s.closer.Final? ==> s.closer.todo <= s.closer.hosts)
  }

  ghost predicate FilesInv(s: State) {
    && (forall h :: FileAt(s.files, h).Owned? ==> h in s.slots && s.slots[h] == FileAt(s.files, h).rid)
    && (!s.closing ==> forall h :: h in s.slots ==> FileAt(s.files, h) == Owned(s.slots[h]))
    && (s.closer.Final? ==> forall h :: FileAt(s.files, h).Owned? ==> FileAt(s.files, h).rid in s.closer.todo)
  }

  ghost predicate CountInv(s: State) {
    && s.children == Kids(s.rts) + s.others && 0 <= s.others
    && (s.closing <==> s.closer != Idle)
    && (s.started || s.closing ==> s.locked)
    && (s.locked || (s.children == 0 && s.waiter == NoWaiter))
    && (s.waiter != NoWaiter ==> s.closing || !s.started)
    && (s.waiter == Woken || s.waiter == Returned ==> s.children == 0)
    && (s.waiter == Blocked ==> 0 < s.children)
    && (s.closer.Draining? ==> s.waiter != NoWaiter)
    && (s.closer.Final? && s.closer.quiescent ==> s.waiter == Returned)
    && !s.panicked
  }

  ghost predicate Inv(s: State) {
    ThreadsInv(s) && RuntimesInv(s) && SlotsInv(s) && FilesInv(s) && CountInv(s)
  }

  lemma {:induction false} KidsUpdate(rts: seq<Runtime>, r: nat, rt: Runtime)
    requires r < |rts|
    ensures Kids(rts[r := rt]) == Kids(rts) - rts[r].kids + rt.kids
  {
    var n := |rts| - 1;
    if r == n {
      assert rts[r := rt][..n] == rts[..n];
    } else {
      assert rts[r := rt][..n] == rts[..n][r := rt];
      KidsUpdate(rts[..n], r, rt);
    }
  }

  lemma {:induction false} KidsAtLeast(rts: seq<Runtime>, r: nat)
    requires r < |rts|
    requires forall q: nat :: q < |rts| ==> 0 <= rts[q].kids
    ensures rts[r].kids <= Kids(rts)
  {
    var n := |rts| - 1;
    KidsNonNegative(rts[..n]);
    if r < n { KidsAtLeast(rts[..n], r); }
  }

  lemma {:induction false} KidsNonNegative(rts: seq<Runtime>)
    requires forall q: nat :: q < |rts| ==> 0 <= rts[q].kids
    ensures 0 <= Kids(rts)
  {
    if rts != [] { KidsNonNegative(rts[..|rts| - 1]); }
  }

  lemma KidsAppend(rts: seq<Runtime>, rt: Runtime)
    ensures Kids(rts + [rt]) == Kids(rts) + rt.kids
  {
    assert (rts + [rt])[..|rts|] == rts;
  }

  lemma InitInv(s: State)
    requires Init(s)
    ensures Inv(s)
  {}

  // ----- framing: what a step on other runtimes and other threads leaves alone -----

  ghost predicate SameRole(a: Runtime, b: Runtime) {
    && a.host == b.host && a.stopping == b.stopping && a.torndown == b.torndown && a.bound == b.bound
    && (a.bound || a == b)
  }

  /** Only the runtimes in `own` change role, and only they may be given a slot. */
  ghost predicate Frame(s: State, s': State, own: set<nat>) {
    && |s.rts| <= |s'.rts|
    && (forall q: nat :: q < |s.rts| ==>
          (q !in own ==> SameRole(s.rts[q], s'.rts[q])) && (s.rts[q].stopping ==> s'.rts[q].stopping))
    && (forall h :: h in s'.slots ==> s'.slots[h] in own || (h in s.slots && s.slots[h] == s'.slots[h]))
  }

  lemma ThreadFrame(s: State, s': State, own: set<nat>, th: Thread)
    requires ThreadOk(s, th) && Frame(s, s', own) && Holds(th) !! own
    ensures ThreadOk(s', th)
  {
    assert forall r :: r in Holds(th) ==> r !in own;
    match th
    case Claiming(h, r) => assert r in Holds(th);
    case LateWait(h, r, _) => assert r in Holds(th);
    case Releasing(r, _, _, _, _) => assert r in Holds(th);
    case Teardown(r) => assert r in Holds(th);
    case Freed(r) => assert r in Holds(th);
    case _ =>
  }

  /** Thread t alone moved, or was added, or (t out of range) none did. */
  ghost predicate OneMoved(a: seq<Thread>, b: seq<Thread>, t: nat) {
    && |a| <= |b| <= |a| + 1
    && (|b| == |a| + 1 ==> t == |a|)
    && forall u: nat :: u < |a| && u != t ==> b[u] == a[u]
  }

  ghost predicate Takes(s: State, s': State, t: nat, own: set<nat>) {
    && OneMoved(s.threads, s'.threads, t) && Frame(s, s', own)
    && (forall u: nat :: u < |s.threads| && u != t ==> Holds(s.threads[u]) !! own)
    && (t < |s'.threads| ==>
          && ThreadOk(s', s'.threads[t])
          && forall r :: r in Holds(s'.threads[t]) ==>
                           r >= |s.rts| || (t < |s.threads| && r in Holds(s.threads[t])))
  }

  lemma OnlyOwn(s: State, th: Thread)
    requires ThreadOk(s, th)
    ensures forall r :: r in Holds(th) ==> r < |s.rts|
  {}

  lemma ThreadsKept(s: State, s': State, t: nat, own: set<nat>)
    requires ThreadsInv(s) && Takes(s, s', t, own)
    ensures ThreadsInv(s')
  {
    forall u: nat | u < |s'.threads| ensures ThreadOk(s', s'.threads[u]) {
      if u != t { ThreadFrame(s, s', own, s.threads[u]); }
    }
    forall u: nat, v: nat | u < |s'.threads| && v < |s'.threads| && u != v
      ensures Holds(s'.threads[u]) !! Holds(s'.threads[v])
    {
      if u != t { OnlyOwn(s, s.threads[u]); }
      if v != t { OnlyOwn(s, s.threads[v]); }
      if u < |s.threads| && v < |s.threads| { assert Holds(s.threads[u]) !! Holds(s.threads[v]); }
    }
  }

  /** A teardown in progress keeps a thread that will close its torndown. */
  lemma WakersKept(s: State, s': State, t: nat)
    requires RuntimesInv(s) && OneMoved(s.threads, s'.threads, t)
    requires forall r: nat :: r < |s'.rts| && s'.rts[r].stopping && !s'.rts[r].torndown ==>
               || (t < |s'.threads| && Tears(s'.threads[t], r))
               || (&& r < |s.rts| && s.rts[r].stopping && !s.rts[r].torndown
                   && (t < |s.threads| ==> !Tears(s.threads[t], r)))
    ensures forall r: nat :: r < |s'.rts| && s'.rts[r].stopping && !s'.rts[r].torndown ==> HasWaker(s', r)
  {
    forall r: nat | r < |s'.rts| && s'.rts[r].stopping && !s'.rts[r].torndown ensures HasWaker(s', r) {
      if t < |s'.threads| && Tears(s'.threads[t], r) {
      } else {
        var u: nat :| u < |s.threads| && Tears(s.threads[u], r);
        assert s'.threads[u] == s.threads[u];
      }
    }
  }

  // ----- every transition keeps the invariant -----

  lemma FileAfter(files: map<Host, Owner>, host: Host, o: Owner)
    ensures forall h {:trigger FileAt(files[host := o], h)} ::
              FileAt(files[host := o], h) == if h == host then o else FileAt(files, h)
  {
    forall h ensures FileAt(files[host := o], h) == if h == host then o else FileAt(files, h) {}
  }

  /** A thread that changes only the runtime it holds leaves every other thread consistent. */
  lemma OwnKept(s: State, s': State, t: nat, r: nat)
    requires ThreadsInv(s) && At(s, t) && At(s', t) && r < |s.rts| && r in Holds(s.threads[t])
    requires s'.threads == s.threads[t := s'.threads[t]] && Holds(s'.threads[t]) <= Holds(s.threads[t])
    requires |s'.rts| == |s.rts| && s'.rts == s.rts[r := s'.rts[r]]
    requires s.rts[r].stopping ==> s'.rts[r].stopping
    requires s'.slots == s.slots || s'.slots == s.slots[s.rts[r].host := r]
    requires ThreadOk(s', s'.threads[t])
    ensures ThreadsInv(s')
  {
    forall u: nat | u < |s.threads| && u != t ensures Holds(s.threads[u]) !! {r} {
      assert Holds(s.threads[u]) !! Holds(s.threads[t]);
    }
    assert Frame(s, s', {r});
    ThreadsKept(s, s', t, {r});
  }

  /** A new call holds nothing and waits for nothing. */
  lemma CallKeeps(s: State, th: Thread)
    requires Inv(s) && (th.Starting? || th.Stopping?)
    ensures Inv(s.(threads := s.threads + [th]))
  {
    hide HasWaker, SoleHolders, Kids;
    var s' := s.(threads := s.threads + [th]);
    assert ThreadsInv(s') by { ThreadsKept(s, s', |s.threads|, {}); }
    assert RuntimesInv(s') by { WakersKept(s, s', |s.threads|); }
  }

  lemma KeepsEarlyCheck(s: State, l: StartStep)
    requires Inv(s) && StartEnabled(s, l) && l.EarlyCheck?
    ensures Inv(ApplyStart(s, l))
  {
    MoveKeeps(s, l.t, AfterEarlyCheck(s, s.threads[l.t].host, s.threads[l.t].first));
  }

  lemma KeepsBuild(s: State, l: StartStep)
    requires Inv(s) && StartEnabled(s, l) && l.Build?
    ensures Inv(ApplyStart(s, l))
  {
    hide HasWaker, SoleHolders, Kids;
    var s', host := ApplyStart(s, l), s.threads[l.t].host;
    if l.ok {
      var rt := Runtime(host, l.goroutines, false, false, false, l.goroutines, 0, false);
      BuiltKeeps(s, l.t, rt);
    } else {
      assert ThreadsInv(s') by { ThreadsKept(s, s', l.t, {}); }
      assert RuntimesInv(s') by { WakersKept(s, s', l.t); }
    }
  }

  lemma BuiltKeeps(s: State, t: nat, rt: Runtime)
    requires Inv(s) && At(s, t) && s.threads[t].Building? && 2 <= rt.goroutines
    requires rt == Runtime(s.threads[t].host, rt.goroutines, false, false, false, rt.goroutines, 0, false)
    ensures Inv(Move(s, t, Claiming(rt.host, |s.rts|)).(rts := s.rts + [rt]))
  {
    hide HasWaker, SoleHolders, Kids;
    var s' := Move(s, t, Claiming(rt.host, |s.rts|)).(rts := s.rts + [rt]);
    assert ThreadsInv(s') by { ThreadsKept(s, s', t, {}); }
    assert RuntimesInv(s') by { WakersKept(s, s', t); }
    assert CountInv(s') by { KidsAppend(s.rts, rt); }
  }

  lemma KeepsReleaseDone(s: State, l: StartStep)
    requires Inv(s) && StartEnabled(s, l) && l.ReleaseDone?
    ensures Inv(ApplyStart(s, l))
  {
    hide HasWaker, SoleHolders, Kids;
    var s' := ApplyStart(s, l);
    var r := s.threads[l.t].rid;
    assert ThreadsInv(s') by { OwnKept(s, s', l.t, r); }
    assert RuntimesInv(s') by { WakersKept(s, s', l.t); }
    assert SlotsInv(s');
    assert FilesInv(s');
    assert CountInv(s') by { KidsUpdate(s.rts, r, s'.rts[r]); }
  }

  lemma KeepsReleaseClose(s: State, l: StartStep)
    requires Inv(s) && StartEnabled(s, l) && l.ReleaseClose?
    ensures Inv(ApplyStart(s, l))
  {
    hide HasWaker, SoleHolders, Kids;
    var s' := ApplyStart(s, l);
    var r := s.threads[l.t].rid;
    assert ThreadsInv(s') by { OwnKept(s, s', l.t, r); }
    assert RuntimesInv(s') by { WakersKept(s, s', l.t); }
    assert SlotsInv(s');
    assert FilesInv(s');
    assert CountInv(s') by { KidsUpdate(s.rts, r, s'.rts[r]); }
  }

  lemma KeepsStopClose(s: State, l: StopStep)
    requires Inv(s) && StopEnabled(s, l) && l.StopClose?
    ensures Inv(ApplyStop(s, l))
  {
    hide HasWaker, SoleHolders, Kids;
    var s' := ApplyStop(s, l);
    var r := s.threads[l.t].rid;
    assert ThreadsInv(s') by { OwnKept(s, s', l.t, r); }
    assert RuntimesInv(s') by { WakersKept(s, s', l.t); }
    assert SlotsInv(s');
    assert FilesInv(s');
    assert CountInv(s') by { KidsUpdate(s.rts, r, s'.rts[r]); }
  }

  lemma KeepsReleaseKid(s: State, l: StartStep)
    requires Inv(s) && StartEnabled(s, l) && l.ReleaseKid?
    ensures Inv(ApplyStart(s, l))
  {
    hide HasWaker, SoleHolders, Kids;
    var s' := ApplyStart(s, l);
    var r := s.threads[l.t].rid;
    assert ThreadsInv(s') by { OwnKept(s, s', l.t, r); }
    assert RuntimesInv(s') by { WakersKept(s, s', l.t); }
    assert SlotsInv(s');
    assert FilesInv(s');
    assert CountInv(s') by { KidsUpdate(s.rts, r, s'.rts[r]); KidsAtLeast(s.rts, r); }
  }

  lemma KeepsGoroutineDone(s: State, l: AmbientStep)
    requires Inv(s) && AmbientEnabled(s, l) && l.GoroutineDone?
    ensures Inv(ApplyAmbient(s, l))
  {
    hide HasWaker, SoleHolders, Kids;
    var s' := ApplyAmbient(s, l);
    assert ThreadsInv(s') by { ThreadsKept(s, s', |s.threads| + 1, {}); }
    assert RuntimesInv(s') by { WakersKept(s, s', |s.threads| + 1); }
    assert SlotsInv(s');
    assert FilesInv(s');
    assert CountInv(s') by { KidsUpdate(s.rts, l.r, s'.rts[l.r]); KidsAtLeast(s.rts, l.r); }
  }

  lemma KeepsGoroutineKid(s: State, l: AmbientStep)
    requires Inv(s) && AmbientEnabled(s, l) && l.GoroutineKid?
    ensures Inv(ApplyAmbient(s, l))
  {
    hide HasWaker, SoleHolders, Kids;
    var s' := ApplyAmbient(s, l);
    assert ThreadsInv(s') by { ThreadsKept(s, s', |s.threads| + 1, {}); }
    assert RuntimesInv(s') by { WakersKept(s, s', |s.threads| + 1); }
    assert SlotsInv(s');
    assert FilesInv(s');
    assert CountInv(s') by { KidsUpdate(s.rts, l.r, s'.rts[l.r]); KidsAtLeast(s.rts, l.r); }
  }

  lemma KeepsListenerDown(s: State, l: AmbientStep)
    requires Inv(s) && AmbientEnabled(s, l) && l.ListenerDown?
    ensures Inv(ApplyAmbient(s, l))
  {
    hide HasWaker, SoleHolders, Kids;
    var s' := ApplyAmbient(s, l);
    assert ThreadsInv(s') by { ThreadsKept(s, s', |s.threads| + 1, {}); }
    assert RuntimesInv(s') by { WakersKept(s, s', |s.threads| + 1); }
    assert SlotsInv(s');
    assert FilesInv(s');
    assert CountInv(s') by { KidsUpdate(s.rts, l.r, s'.rts[l.r]); KidsAtLeast(s.rts, l.r); }
  }

  lemma KeepsStart(s: State, l: CloseStep)
    requires Inv(s) && CloseEnabled(s, l) && l.Start?
    ensures Inv(ApplyClose(s, l))
  {
    hide HasWaker, SoleHolders, Kids;
    var s' := ApplyClose(s, l);
    assert ThreadsInv(s') by { ThreadsKept(s, s', |s.threads| + 1, {}); }
    assert RuntimesInv(s') by { WakersKept(s, s', |s.threads| + 1); }
    assert SlotsInv(s');
    assert FilesInv(s');
    assert CountInv(s');
  }

  lemma KeepsCloseBegin(s: State, l: CloseStep)
    requires Inv(s) && CloseEnabled(s, l) && l.CloseBegin?
    ensures Inv(ApplyClose(s, l))
  {
    hide HasWaker, SoleHolders, Kids;
    var s' := ApplyClose(s, l);
    assert ThreadsInv(s') by { ThreadsKept(s, s', |s.threads| + 1, {}); }
    assert RuntimesInv(s') by { WakersKept(s, s', |s.threads| + 1); }
    assert SlotsInv(s');
    assert FilesInv(s');
    assert CountInv(s');
  }

  lemma KeepsCloseProceed(s: State, l: CloseStep)
    requires Inv(s) && CloseEnabled(s, l) && l.CloseProceed?
    ensures Inv(ApplyClose(s, l))
  {
    hide HasWaker, SoleHolders, Kids;
    var s' := ApplyClose(s, l);
    assert ThreadsInv(s') by { ThreadsKept(s, s', |s.threads| + 1, {}); }
    assert RuntimesInv(s') by { WakersKept(s, s', |s.threads| + 1); }
    assert SlotsInv(s');
    assert FilesInv(s');
    assert CountInv(s');
  }

  lemma KeepsCloseFinish(s: State, l: CloseStep)
    requires Inv(s) && CloseEnabled(s, l) && l.CloseFinish?
    ensures Inv(ApplyClose(s, l))
  {
    hide HasWaker, SoleHolders, Kids;
    var s' := ApplyClose(s, l);
    assert ThreadsInv(s') by { ThreadsKept(s, s', |s.threads| + 1, {}); }
    assert RuntimesInv(s') by { WakersKept(s, s', |s.threads| + 1); }
    assert SlotsInv(s');
    assert FilesInv(s');
    assert CountInv(s');
  }

  lemma KeepsWaiterReturn(s: State, l: CloseStep)
    requires Inv(s) && CloseEnabled(s, l) && l.WaiterReturn?
    ensures Inv(ApplyClose(s, l))
  {
    hide HasWaker, SoleHolders, Kids;
    var s' := ApplyClose(s, l);
    assert ThreadsInv(s') by { ThreadsKept(s, s', |s.threads| + 1, {}); }
    assert RuntimesInv(s') by { WakersKept(s, s', |s.threads| + 1); }
    assert SlotsInv(s');
    assert FilesInv(s');
    assert CountInv(s');
  }

  lemma KeepsCloseDrain(s: State, l: CloseStep)
    requires Inv(s) && CloseEnabled(s, l) && l.CloseDrain?
    ensures Inv(ApplyClose(s, l))
  {
    hide HasWaker, SoleHolders, Kids;
    var s' := ApplyClose(s, l);
    assert ThreadsInv(s') by { ThreadsKept(s, s', |s.threads| + 1, {}); }
    assert RuntimesInv(s') by { WakersKept(s, s', |s.threads| + 1); }
    assert SlotsInv(s');
    assert FilesInv(s');
    assert CountInv(s') by { KidsNonNegative(s.rts); }
  }

  lemma KeepsAddOther(s: State, l: AmbientStep)
    requires Inv(s) && AmbientEnabled(s, l) && l.AddOther?
    ensures Inv(ApplyAmbient(s, l))
  {
    hide HasWaker, SoleHolders, Kids;
    var s' := ApplyAmbient(s, l);
    assert ThreadsInv(s') by { ThreadsKept(s, s', |s.threads| + 1, {}); }
    assert RuntimesInv(s') by { WakersKept(s, s', |s.threads| + 1); }
    assert SlotsInv(s');
    assert FilesInv(s');
    assert CountInv(s') by { KidsNonNegative(s.rts); }
  }

  lemma KeepsOtherDone(s: State, l: AmbientStep)
    requires Inv(s) && AmbientEnabled(s, l) && l.OtherDone?
    ensures Inv(ApplyAmbient(s, l))
  {
    hide HasWaker, SoleHolders, Kids;
    var s' := ApplyAmbient(s, l);
    assert ThreadsInv(s') by { ThreadsKept(s, s', |s.threads| + 1, {}); }
    assert RuntimesInv(s') by { WakersKept(s, s', |s.threads| + 1); }
    assert SlotsInv(s');
    assert FilesInv(s');
    assert CountInv(s') by { KidsNonNegative(s.rts); }
  }

  lemma KeepsCloseUnlink(s: State, l: CloseStep)
    requires Inv(s) && CloseEnabled(s, l) && l.CloseUnlink?
    ensures Inv(ApplyClose(s, l))
  {
    hide HasWaker, SoleHolders, Kids;
    var s' := ApplyClose(s, l);
    assert ThreadsInv(s') by { ThreadsKept(s, s', |s.threads| + 1, {}); }
    assert RuntimesInv(s') by { WakersKept(s, s', |s.threads| + 1); }
    assert SlotsInv(s');
    assert FilesInv(s') by { FileAfter(s.files, s.rts[l.r].host, Nobody); assert forall h :: h in s.slots ==> SlotOk(s, h); }
    assert CountInv(s');
  }

  lemma KeepsCloseUnlinkAgain(s: State, l: CloseStep)
    requires Inv(s) && CloseEnabled(s, l) && l.CloseUnlinkAgain?
    ensures Inv(ApplyClose(s, l))
  {
    hide HasWaker, SoleHolders, Kids, RuntimeOk, ThreadOk;
    var s' := ApplyClose(s, l);
    assert ThreadsInv(s') by { ThreadsKept(s, s', |s.threads| + 1, {}); }
    assert RuntimesInv(s') by { WakersKept(s, s', |s.threads| + 1); }
    assert SlotsInv(s');
    assert FilesInv(s') by { FileAfter(s.files, s.rts[l.r].host, Nobody); assert forall h :: h in s.slots ==> SlotOk(s, h); }
    assert CountInv(s');
  }

  lemma KeepsOtherProcess(s: State, l: AmbientStep)
    requires Inv(s) && AmbientEnabled(s, l) && l.OtherProcess?
    ensures Inv(ApplyAmbient(s, l))
  {
    hide HasWaker, SoleHolders, Kids;
    var s' := ApplyAmbient(s, l);
    assert ThreadsInv(s') by { ThreadsKept(s, s', |s.threads| + 1, {}); }
    assert RuntimesInv(s') by { WakersKept(s, s', |s.threads| + 1); }
    assert SlotsInv(s');
    assert FilesInv(s') by { FileAfter(s.files, l.host, Foreign(l.listening)); }
    assert CountInv(s');
  }

  lemma KeepsOtherProcessDies(s: State, l: AmbientStep)
    requires Inv(s) && AmbientEnabled(s, l) && l.OtherProcessDies?
    ensures Inv(ApplyAmbient(s, l))
  {
    hide HasWaker, SoleHolders, Kids;
    var s' := ApplyAmbient(s, l);
    assert ThreadsInv(s') by { ThreadsKept(s, s', |s.threads| + 1, {}); }
    assert RuntimesInv(s') by { WakersKept(s, s', |s.threads| + 1); }
    assert SlotsInv(s');
    assert FilesInv(s') by { FileAfter(s.files, l.host, Foreign(false)); }
    assert CountInv(s');
  }

  lemma KeepsStopClaim(s: State, l: StopStep)
    requires Inv(s) && StopEnabled(s, l) && l.StopClaim?
    ensures Inv(ApplyStop(s, l))
  {
    hide HasWaker, SoleHolders, Kids;
    var s', host := ApplyStop(s, l), s.threads[l.t].host;
    assert host in s.slots ==> SlotOk(s, host);
    if host in s.slots && !s.rts[s.slots[host]].stopping {
      TeardownKeeps(s, l.t, host);
    } else {
      MoveKeeps(s, l.t, s'.threads[l.t]);
    }
  }

  /** A thread that holds nothing may move to any consistent place where it holds nothing. */
  lemma MoveKeeps(s: State, t: nat, th: Thread)
    requires Inv(s) && At(s, t) && ThreadOk(s, th)
    requires Holds(th) <= Holds(s.threads[t])
    requires forall r: nat :: Tears(s.threads[t], r) ==> Tears(th, r)
    ensures Inv(Move(s, t, th))
  {
    var s' := Move(s, t, th);
    assert ThreadsInv(s') by { assert Takes(s, s', t, {}); ThreadsKept(s, s', t, {}); }
    assert RuntimesInv(s') by { WakersKept(s, s', t); }
  }

  lemma TeardownKeeps(s: State, t: nat, host: Host)
    requires Inv(s) && At(s, t) && s.threads[t] == Stopping(host) && host in s.slots && SlotOk(s, host)
    requires !s.rts[s.slots[host]].stopping
    ensures var r := s.slots[host];
            Inv(Move(Put(s, r, s.rts[r].(stopping := true)), t, Teardown(r)))
  {
    var r := s.slots[host];
    var s' := Move(Put(s, r, s.rts[r].(stopping := true)), t, Teardown(r));
    assert ThreadsInv(s') by {
      forall u: nat | u < |s.threads| && u != t ensures Holds(s.threads[u]) !! {r} {
        assert ThreadOk(s, s.threads[u]);
      }
      assert Frame(s, s', {r});
      ThreadsKeptByClaim(s, s', t, r);
    }
    TeardownRest(s, s', t, r);
  }

  lemma TeardownRest(s: State, s': State, t: nat, r: nat)
    requires Inv(s) && At(s, t) && s.threads[t].Stopping? && r < |s.rts| && s.rts[r].bound && !s.rts[r].stopping
    requires s' == Move(Put(s, r, s.rts[r].(stopping := true)), t, Teardown(r))
    ensures RuntimesInv(s') && SlotsInv(s') && FilesInv(s') && CountInv(s')
  {
    hide HasWaker, SoleHolders, Kids;
    assert RuntimesInv(s') by { WakersKept(s, s', t); }
    assert CountInv(s') by { KidsUpdate(s.rts, r, s'.rts[r]); }
  }

  /** stopHost's claim is the one move that makes a thread the holder of a runtime it did not hold. */
  lemma ThreadsKeptByClaim(s: State, s': State, t: nat, r: nat)
    requires ThreadsInv(s) && OneMoved(s.threads, s'.threads, t) && |s.threads| == |s'.threads|
    requires t < |s.threads| && s'.threads[t] == Teardown(r) && ThreadOk(s', s'.threads[t])
    requires Frame(s, s', {r})
    requires forall u: nat :: u < |s.threads| && u != t ==> Holds(s.threads[u]) !! {r}
    ensures ThreadsInv(s')
  {
    forall u: nat | u < |s'.threads| ensures ThreadOk(s', s'.threads[u]) {
      if u != t { ThreadFrame(s, s', {r}, s.threads[u]); }
    }
  }

  lemma KeepsStopFree(s: State, l: StopStep)
    requires Inv(s) && StopEnabled(s, l) && l.StopFree?
    ensures Inv(ApplyStop(s, l))
  {
    hide HasWaker, SoleHolders, Kids;
    var r := s.threads[l.t].rid;
    var host := s.rts[r].host;
    assert ThreadOk(s, s.threads[l.t]);
    if host in s.slots && s.slots[host] == r {
      var s1 := Unlink(s, host).(slots := s.slots - {host});
      SlotFreed(s, host);
      MoveKeeps(s1, l.t, Freed(r));
      assert ApplyStop(s, l) == Move(s1, l.t, Freed(r));
    } else {
      MoveKeeps(s, l.t, Freed(r));
    }
  }

  /** Unlinking the path and freeing the slot in one section keeps every fact about both. */
  lemma SlotFreed(s: State, host: Host)
    requires Inv(s) && host in s.slots
    ensures Inv(Unlink(s, host).(slots := s.slots - {host}))
  {
    var s' := Unlink(s, host).(slots := s.slots - {host});
    assert ThreadsInv(s') by { ThreadsKept(s, s', |s.threads| + 1, {}); }
    assert RuntimesInv(s') by { WakersKept(s, s', |s.threads| + 1); }
    assert SlotsInv(s') by { assert s'.slots.Values <= s.slots.Values; }
    assert FilesInv(s') by { FileAfter(s.files, host, Nobody); }
  }

  lemma KeepsClaim(s: State, l: StartStep)
    requires Inv(s) && StartEnabled(s, l) && l.Claim?
    ensures Inv(ApplyStart(s, l))
  {
    hide HasWaker, SoleHolders, Kids;
    var th := s.threads[l.t];
    assert ThreadOk(s, th);
    if s.started && !s.closing && th.host !in s.slots {
      if l.bind == Bound { KeepsPublish(s, l); } else { KeepsFailedBind(s, l); }
    } else {
      assert th.host in s.slots ==> SlotOk(s, th.host);
      MoveKeeps(s, l.t, ApplyStart(s, l).threads[l.t]);
    }
  }

  lemma KeepsPublish(s: State, l: StartStep)
    requires Inv(s) && StartEnabled(s, l) && l.Claim? && l.bind == Bound
    requires s.started && !s.closing && s.threads[l.t].host !in s.slots
    ensures Inv(ApplyStart(s, l))
  {
    hide HasWaker, SoleHolders, Kids;
    var s', th := ApplyStart(s, l), s.threads[l.t];
    var r := th.rid;
    assert ThreadOk(s, th);
    assert ThreadsInv(s') by {
      OwnKept(s, s', l.t, r);
    }
    assert RuntimesInv(s') by { WakersKept(s, s', l.t); }
    assert FilesInv(s') by { FileAfter(s.files, th.host, Owned(r)); }
    assert CountInv(s') by { KidsUpdate(s.rts, r, s'.rts[r]); KidsNonNegative(s.rts); }
  }

  lemma KeepsFailedBind(s: State, l: StartStep)
    requires Inv(s) && StartEnabled(s, l) && l.Claim? && l.bind != Bound
    requires s.started && !s.closing && s.threads[l.t].host !in s.slots
    ensures Inv(ApplyStart(s, l))
  {
    hide HasWaker, SoleHolders, Kids;
    var s', th := ApplyStart(s, l), s.threads[l.t];
    var r := th.rid;
    assert ThreadOk(s, th);
    assert ThreadsInv(s') by {
      OwnKept(s, s', l.t, r);
    }
    assert RuntimesInv(s') by { WakersKept(s, s', l.t); }
    assert FilesInv(s') by { FileAfter(s.files, th.host, Nobody); }
    assert CountInv(s') by { KidsUpdate(s.rts, r, s'.rts[r]); KidsNonNegative(s.rts); }
  }

  lemma StartStepKeepsInv(s: State, l: StartStep)
    requires Inv(s) && StartEnabled(s, l)
    ensures Inv(ApplyStart(s, l))
  {
    match l
    case CallStart(h) => CallKeeps(s, Starting(h, true));
    case EarlyCheck(_) => KeepsEarlyCheck(s, l);
    case EarlyWake(t) => MoveKeeps(s, t, Starting(s.threads[t].host, false));
    case Build(_, _, _) => KeepsBuild(s, l);
    case Claim(_, _) => KeepsClaim(s, l);
    case LateWake(t) =>
      assert ThreadOk(s, s.threads[t]);
      MoveKeeps(s, t, Claiming(s.threads[t].host, s.threads[t].rid));
    case ReleaseDone(_) => KeepsReleaseDone(s, l);
    case ReleaseKid(_) => KeepsReleaseKid(s, l);
    case ReleaseClose(_) => KeepsReleaseClose(s, l);
  }

  lemma StopStepKeepsInv(s: State, l: StopStep)
    requires Inv(s) && StopEnabled(s, l)
    ensures Inv(ApplyStop(s, l))
  {
    match l
    case CallStop(h) => CallKeeps(s, Stopping(h));
    case StopClaim(_) => KeepsStopClaim(s, l);
    case StopWake(t) => MoveKeeps(s, t, Exited(Succeeded));
    case StopFree(_, _) => KeepsStopFree(s, l);
    case StopClose(_) => KeepsStopClose(s, l);
  }

  lemma CloseStepKeepsInv(s: State, l: CloseStep)
    requires Inv(s) && CloseEnabled(s, l)
    ensures Inv(ApplyClose(s, l))
  {
    match l
    case Start(_) => KeepsStart(s, l);
    case CloseBegin => KeepsCloseBegin(s, l);
    case CloseUnlink(_) => KeepsCloseUnlink(s, l);
    case CloseDrain => KeepsCloseDrain(s, l);
    case CloseProceed(_) => KeepsCloseProceed(s, l);
    case CloseUnlinkAgain(_) => KeepsCloseUnlinkAgain(s, l);
    case CloseFinish => KeepsCloseFinish(s, l);
    case WaiterReturn => KeepsWaiterReturn(s, l);
  }

  lemma AmbientStepKeepsInv(s: State, l: AmbientStep)
    requires Inv(s) && AmbientEnabled(s, l)
    ensures Inv(ApplyAmbient(s, l))
  {
    match l
    case GoroutineDone(_) => KeepsGoroutineDone(s, l);
    case GoroutineKid(_) => KeepsGoroutineKid(s, l);
    case ListenerDown(_) => KeepsListenerDown(s, l);
    case AddOther => KeepsAddOther(s, l);
    case OtherDone => KeepsOtherDone(s, l);
    case OtherProcess(_, _) => KeepsOtherProcess(s, l);
    case OtherProcessDies(_) => KeepsOtherProcessDies(s, l);
  }

  /** Every transition, from every state that satisfies the invariant, keeps it. */
  lemma StepKeepsInv(s: State, l: Label)
    requires Inv(s) && Enabled(s, l)
    ensures Inv(Apply(s, l))
  {
    match l
    case InStartHost(step) => StartStepKeepsInv(s, step);
    case InStopHost(step) => StopStepKeepsInv(s, step);
    case InLifetime(step) => CloseStepKeepsInv(s, step);
    case Ambient(step) => AmbientStepKeepsInv(s, step);
  }

  // ----- what holds over every run -----

  /** A run: any interleaving of any number of calls, goroutines, restarts and timeouts. */
  ghost predicate Run(states: seq<State>, labels: seq<Label>) {
    && |states| == |labels| + 1
    && Init(states[0])
    && forall i: nat :: i < |labels| ==> Enabled(states[i], labels[i]) && states[i + 1] == Apply(states[i], labels[i])
  }

  lemma {:induction false} RunKeepsInv(states: seq<State>, labels: seq<Label>, i: nat)
    requires Run(states, labels) && i < |states|
    ensures Inv(states[i])
  {
    if i == 0 {
      InitInv(states[0]);
    } else {
      RunKeepsInv(states, labels, i - 1);
      StepKeepsInv(states[i - 1], labels[i - 1]);
    }
  }

  /** While the daemon is started and not closing, every runtime in the slot map is bound and
      the file at its path is the one it bound; outside of Close no other runtime's file exists. */
  lemma SlotOwnsItsSocket(states: seq<State>, labels: seq<Label>, i: nat, h: Host)
    requires Run(states, labels) && i < |states|
    ensures var s := states[i];
            && (s.started && !s.closing && h in s.slots ==>
                  && s.slots[h] < |s.rts| && s.rts[s.slots[h]].bound && s.rts[s.slots[h]].host == h
                  && FileAt(s.files, h) == Owned(s.slots[h]))
            && (FileAt(s.files, h).Owned? ==> s.started && h in s.slots && s.slots[h] == FileAt(s.files, h).rid)
  {
    RunKeepsInv(states, labels, i);
    assert h in states[i].slots ==> SlotOk(states[i], h);
  }

  /** The runtime on whose behalf a step may remove its own path. */
  function Remover(s: State, l: Label): set<nat> {
    match l
    case InStopHost(StopFree(t, _)) => if At(s, t) then Holds(s.threads[t]) else {}
    case InLifetime(CloseUnlink(r)) => {r}
    case InLifetime(CloseUnlinkAgain(r)) => {r}
    case _ => {}
  }

  /** No step takes a path away from another runtime: whatever ends q's ownership of a path is
      q's own teardown or Close acting for q. In particular no Bind replaces a runtime's file. */
  lemma RemovalIsOwn(states: seq<State>, labels: seq<Label>, i: nat, h: Host, q: nat)
    requires Run(states, labels) && i < |labels|
    requires FileAt(states[i].files, h) == Owned(q) && FileAt(states[i + 1].files, h) != Owned(q)
    ensures q in Remover(states[i], labels[i]) && states[i].rts[q].host == h
  {
    RunKeepsInv(states, labels, i);
    OwnershipEnds(states[i], labels[i], h, q);
  }

  lemma OwnershipEnds(s: State, l: Label, h: Host, q: nat)
    requires Inv(s) && Enabled(s, l)
    requires FileAt(s.files, h) == Owned(q) && FileAt(Apply(s, l).files, h) != Owned(q)
    ensures q < |s.rts| && q in Remover(s, l) && s.rts[q].host == h
  {
    hide HasWaker, SoleHolders, Kids, RuntimeOk;
    assert SlotOk(s, h);
    match l
    case InStartHost(step) => StartKeepsFiles(s, step, h);
    case InStopHost(step) => StopKeepsFiles(s, step, h);
    case InLifetime(step) => CloseKeepsFiles(s, step, h);
    case Ambient(step) =>
      // Other processes never touch a path while the flock is held.
  }

  lemma StartKeepsFiles(s: State, l: StartStep, h: Host)
    requires Inv(s) && StartEnabled(s, l) && FileAt(s.files, h).Owned?
    ensures FileAt(ApplyStart(s, l).files, h) == FileAt(s.files, h)
  {
    if l.Claim? {
      assert h in s.slots;
    }
  }

  lemma StopKeepsFiles(s: State, l: StopStep, h: Host)
    requires Inv(s) && StopEnabled(s, l) && FileAt(s.files, h).Owned?
    requires FileAt(ApplyStop(s, l).files, h) != FileAt(s.files, h)
    ensures l.StopFree? && s.threads[l.t] == Teardown(FileAt(s.files, h).rid)
  {
    if l.StopFree? {
      var host := s.rts[s.threads[l.t].rid].host;
      FileAfter(s.files, host, Nobody);
      assert host == h;
    }
  }

  lemma CloseKeepsFiles(s: State, l: CloseStep, h: Host)
    requires Inv(s) && CloseEnabled(s, l) && FileAt(s.files, h).Owned?
    requires FileAt(ApplyClose(s, l).files, h) != FileAt(s.files, h)
    ensures (l.CloseUnlink? || l.CloseUnlinkAgain?) && l.r == FileAt(s.files, h).rid
  {
    if l.CloseUnlink? || l.CloseUnlinkAgain? {
      FileAfter(s.files, s.rts[l.r].host, Nobody);
      assert s.slots[h] in s.slots.Values;
    }
  }

  /** The bind of a claimed slot never meets a path that one of the daemon's own runtimes still
      owns, not even a predecessor whose teardown timed out. */
  lemma BindMeetsNoPredecessor(states: seq<State>, labels: seq<Label>, i: nat, t: nat, bind: BindResult)
    requires Run(states, labels) && i < |labels| && labels[i] == InStartHost(Claim(t, bind))
    requires states[i].started && !states[i].closing && states[i].threads[t].host !in states[i].slots
    ensures !FileAt(states[i].files, states[i].threads[t].host).Owned?
    ensures bind == Bound ==>
              FileAt(states[i + 1].files, states[i].threads[t].host) == Owned(states[i].threads[t].rid)
  {
    RunKeepsInv(states, labels, i);
    FileAfter(states[i].files, states[i].threads[t].host, Owned(states[i].threads[t].rid));
  }

  /** No closed channel is closed again, no WaitGroup goes negative or is reused too early. */
  lemma NeverPanics(states: seq<State>, labels: seq<Label>, i: nat)
    requires Run(states, labels) && i < |states|
    ensures !states[i].panicked
  {
    RunKeepsInv(states, labels, i);
  }

  /** The counters behind it: no counter of goroutines is ever negative, and the daemon's is raised
      from zero only while nobody waits for it. */
  lemma CountersAreSound(states: seq<State>, labels: seq<Label>, i: nat, r: nat)
    requires Run(states, labels) && i < |labels|
    ensures 0 <= states[i].children
    ensures r < |states[i].rts| ==> 0 <= states[i].rts[r].done && 0 <= states[i].rts[r].kids
    ensures states[i].children == 0 < states[i + 1].children ==> states[i].waiter == NoWaiter
  {
    RunKeepsInv(states, labels, i);
    var s := states[i];
    assert forall q: nat :: q < |s.rts| ==> RuntimeOk(s.rts[q]);
    KidsNonNegative(s.rts);
    RaisedUnwaited(s, labels[i]);
  }

  lemma RaisedUnwaited(s: State, l: Label)
    requires CountInv(s) && Enabled(s, l) && s.others <= s.children
    ensures s.children == 0 && Apply(s, l).children > 0 ==> s.waiter == NoWaiter
  {
    hide FileAt, Kids;
    match l
    case InStartHost(step) =>
    case InStopHost(step) =>
    case InLifetime(step) =>
    case Ambient(step) =>
  }

  /** The children counter is the sum of the reserved slots, at every moment. */
  lemma ChildrenAreTheReservedSlots(states: seq<State>, labels: seq<Label>, i: nat)
    requires Run(states, labels) && i < |states|
    ensures states[i].children == Kids(states[i].rts) + states[i].others
    ensures 0 <= states[i].others && forall r: nat :: r < |states[i].rts| ==> 0 <= states[i].rts[r].kids
  {
    RunKeepsInv(states, labels, i);
    assert forall r: nat :: r < |states[i].rts| ==> RuntimeOk(states[i].rts[r]);
  }

  /** Whenever the flock is free, nothing of any earlier generation is left: no child slot, no
      goroutine, no listener, no waiter, no slot and no owned path. So a granted Start never adds
      to a counter an older generation still uses, even after teardown timeouts. */
  lemma FreeLockMeansQuiet(states: seq<State>, labels: seq<Label>, i: nat, r: nat, h: Host)
    requires Run(states, labels) && i < |states| && !states[i].locked && r < |states[i].rts|
    ensures var s := states[i];
            && s.children == 0 && s.others == 0 && s.waiter == NoWaiter && !s.started && !s.closing
            && s.slots == map[] && !FileAt(s.files, h).Owned?
            && s.rts[r].kids == 0 && !s.rts[r].listening && (s.rts[r].bound ==> s.rts[r].done == 0)
  {
    RunKeepsInv(states, labels, i);
    var s := states[i];
    assert forall q: nat :: q < |s.rts| ==> RuntimeOk(s.rts[q]);
    KidsAtLeast(s.rts, r);
  }

  /** The runtime whose torndown a step closes. */
  function Closes(s: State, l: Label): set<nat> {
    match l
    case InStartHost(ReleaseClose(t)) => if At(s, t) then Holds(s.threads[t]) else {}
    case InStopHost(StopClose(t)) => if At(s, t) then Holds(s.threads[t]) else {}
    case _ => {}
  }

  /** What panics: closing a closed torndown, taking a counter below zero, and raising the children
      counter from zero beside a waiter that has not returned. */
  ghost predicate Panics(s: State, l: Label, s': State)
    requires Enabled(s, l)
  {
    || (exists r :: r in Closes(s, l) && Torn(s, r))
    || s'.children < s.children <= 0
    || (s.children == 0 < s'.children && s.waiter in {Blocked, Woken})
    || (l.InStartHost? && l.start.ReleaseDone? && s.rts[s.threads[l.start.t].rid].done <= 0)
  }

  /** The flag records every panic, and nothing else. */
  lemma PanicsAreRecorded(s: State, l: Label)
    requires Enabled(s, l)
    ensures Apply(s, l).panicked <==> s.panicked || Panics(s, l, Apply(s, l))
  {
    hide Panics, StartEnabled, ApplyStart, StopEnabled, ApplyStop, CloseEnabled, ApplyClose, AmbientEnabled, ApplyAmbient;
    match l
    case InStartHost(step) => StartRecords(s, step);
    case InStopHost(step) => StopRecords(s, step);
    case InLifetime(step) => CloseRecords(s, step);
    case Ambient(step) => AmbientRecords(s, step);
  }

  lemma StartRecords(s: State, l: StartStep)
    requires StartEnabled(s, l)
    ensures ApplyStart(s, l).panicked <==> s.panicked || Panics(s, InStartHost(l), ApplyStart(s, l))
  {
    hide FileAt, Answers, AfterEarlyCheck, AfterClaim;
    if l.ReleaseClose? { assert s.threads[l.t].rid in Closes(s, InStartHost(l)); }
    if l.Claim? { ClaimRecords(s, l.t, l.bind); }
  }

  lemma ClaimRecords(s: State, t: nat, bind: BindResult)
    requires StartEnabled(s, Claim(t, bind))
    ensures var s' := AfterClaim(s, t, bind);
            && s.children <= s'.children
            && (s'.panicked <==> s.panicked || (s.children == 0 < s'.children && s.waiter in {Blocked, Woken}))
  {
    hide FileAt, Answers;
  }

  lemma StopRecords(s: State, l: StopStep)
    requires StopEnabled(s, l)
    ensures ApplyStop(s, l).panicked <==> s.panicked || Panics(s, InStopHost(l), ApplyStop(s, l))
  {
    hide FileAt;
    if l.StopClose? { assert s.threads[l.t].rid in Closes(s, InStopHost(l)); }
  }

  lemma CloseRecords(s: State, l: CloseStep)
    requires CloseEnabled(s, l)
    ensures ApplyClose(s, l).panicked <==> s.panicked || Panics(s, InLifetime(l), ApplyClose(s, l))
  {
    hide FileAt, BoundOf;
  }

  lemma AmbientRecords(s: State, l: AmbientStep)
    requires AmbientEnabled(s, l)
    ensures ApplyAmbient(s, l).panicked <==> s.panicked || Panics(s, Ambient(l), ApplyAmbient(s, l))
  {
    hide FileAt;
  }

  /** Once closed, a torndown stays closed, and the runtime it belongs to stays known. */
  ghost predicate KeepsTorndown(s: State, s': State) {
    && |s.rts| <= |s'.rts|
    && forall r: nat :: r < |s.rts| && s.rts[r].torndown ==> s'.rts[r].torndown
  }

  lemma TorndownStays(s: State, s': State, l: Label)
    requires Enabled(s, l) && s' == Apply(s, l)
    ensures KeepsTorndown(s, s')
  {
    match l
    case InStartHost(step) => StartKeepsTorndown(s, s', step);
    case InStopHost(step) => StopKeepsTorndown(s, s', step);
    case InLifetime(step) => CloseKeepsTorndown(s, s', step);
    case Ambient(step) => AmbientKeepsTorndown(s, s', step);
  }

  lemma CloseKeepsTorndown(s: State, s': State, l: CloseStep)
    requires CloseEnabled(s, l) && s' == ApplyClose(s, l)
    ensures KeepsTorndown(s, s')
  {
    assert s'.rts == s.rts;
  }

  lemma AmbientKeepsTorndown(s: State, s': State, l: AmbientStep)
    requires AmbientEnabled(s, l) && s' == ApplyAmbient(s, l)
    ensures KeepsTorndown(s, s')
  {}

  lemma ClaimKeepsTorndown(s: State, t: nat, bind: BindResult)
    requires StartEnabled(s, Claim(t, bind))
    ensures KeepsTorndown(s, AfterClaim(s, t, bind))
  {
    var s' := AfterClaim(s, t, bind);
    var r := s.threads[t].rid;
    assert s'.rts == s.rts || exists rt :: s'.rts == s.rts[r := rt] && rt.torndown == s.rts[r].torndown;
  }

  lemma StartKeepsTorndown(s: State, s': State, l: StartStep)
    requires StartEnabled(s, l) && s' == ApplyStart(s, l)
    ensures KeepsTorndown(s, s')
  {
    hide AfterEarlyCheck, AfterClaim, Answers;
    match l
    case Claim(t, bind) => ClaimKeepsTorndown(s, t, bind);
    case Build(_, _, _) =>
    case ReleaseDone(_) =>
    case ReleaseKid(_) =>
    case ReleaseClose(_) =>
    case _ => assert s'.rts == s.rts;
  }

  lemma StopKeepsTorndown(s: State, s': State, l: StopStep)
    requires StopEnabled(s, l) && s' == ApplyStop(s, l)
    ensures KeepsTorndown(s, s')
  {
    match l
    case StopClaim(_) =>
    case StopClose(_) =>
    case _ => assert s'.rts == s.rts;
  }

  lemma {:induction false} TorndownStaysOver(states: seq<State>, labels: seq<Label>, i: nat, j: nat, r: nat)
    requires Run(states, labels) && i <= j < |states| && r < |states[i].rts|
    ensures r < |states[j].rts| && (states[i].rts[r].torndown ==> states[j].rts[r].torndown)
    decreases j - i
  {
    if i < j {
      TorndownStaysOver(states, labels, i, j - 1, r);
      TorndownStays(states[j - 1], states[j], labels[j - 1]);
    }
  }

  /** Each runtime's torndown is closed by at most one step of a run, and for a runtime that was
      ever bound only after its teardown was claimed. */
  lemma TorndownClosesOnce(states: seq<State>, labels: seq<Label>, i: nat, j: nat, r: nat)
    requires Run(states, labels) && i < |labels| && j < |labels|
    requires r in Closes(states[i], labels[i]) && r in Closes(states[j], labels[j])
    ensures i == j
    ensures r < |states[i].rts| && (states[i].rts[r].bound ==> states[i].rts[r].stopping)
  {
    RunKeepsInv(states, labels, i);
    RunKeepsInv(states, labels, j);
    CloserIsOpen(states[i], labels[i], r);
    CloserIsOpen(states[j], labels[j], r);
    if i < j { TorndownStaysOver(states, labels, i + 1, j, r); }
    if j < i { TorndownStaysOver(states, labels, j + 1, i, r); }
  }

  lemma CloserIsOpen(s: State, l: Label, r: nat)
    requires Inv(s) && Enabled(s, l) && r in Closes(s, l)
    ensures r < |s.rts| && !s.rts[r].torndown && (s.rts[r].bound ==> s.rts[r].stopping)
    ensures r < |Apply(s, l).rts| && Apply(s, l).rts[r].torndown
  {
    var t := match l
      case InStartHost(ReleaseClose(t)) => t
      case InStopHost(StopClose(t)) => t
      case _ => 0;
    assert ThreadOk(s, s.threads[t]);
  }

  /** Nobody waits for a teardown that no thread will finish: behind every thread blocked on a
      torndown there is either the closed channel or a thread with an enabled step towards it. */
  lemma WaitersHaveAWaker(states: seq<State>, labels: seq<Label>, i: nat, t: nat, r: nat)
    requires Run(states, labels) && i < |states| && At(states[i], t) && r in WaitsOn(states[i].threads[t])
    ensures var s := states[i];
            || Torn(s, r)
            || exists u: nat :: && u < |s.threads| && Tears(s.threads[u], r)
                                && (StopEnabled(s, StopFree(u, true)) || StopEnabled(s, StopClose(u)))
  {
    RunKeepsInv(states, labels, i);
    var s := states[i];
    assert ThreadOk(s, s.threads[t]);
    if !s.rts[r].torndown {
      assert HasWaker(s, r);
      var u: nat :| u < |s.threads| && Tears(s.threads[u], r);
      assert StopEnabled(s, StopFree(u, true)) || StopEnabled(s, StopClose(u));
    }
  }

  /** The step is the one in which the call t of startHost comes to this result. */
  predicate Decides(s: State, s': State, l: Label, t: nat, result: Outcome) {
    l.InStartHost? && At(s, t) && At(s', t) && !Decided(s.threads[t], result) && Decided(s'.threads[t], result)
  }

  /** startHost reports success only when the host is in the slot map, bound and not stopping, and,
      unless the call waited for a predecessor, only on a daemon that is started and not closing. */
  lemma SuccessMeansLive(states: seq<State>, labels: seq<Label>, i: nat, t: nat)
    requires Run(states, labels) && i < |labels| && Decides(states[i], states[i + 1], labels[i], t, Succeeded)
    ensures states[i].threads[t].Starting? || states[i].threads[t].Claiming?
    ensures Live(states[i + 1], states[i].threads[t].host)
    ensures !(states[i].threads[t].Starting? && !states[i].threads[t].first) ==> states[i].started && !states[i].closing
  {
    hide Init, Inv, Enabled, Apply;
    RunKeepsInv(states, labels, i);
    DecidedLive(states[i], labels[i], t);
  }

  lemma DecidedLive(s: State, l: Label, t: nat)
    requires Inv(s) && Enabled(s, l) && Decides(s, Apply(s, l), l, t, Succeeded)
    ensures s.threads[t].Starting? || s.threads[t].Claiming?
    ensures Live(Apply(s, l), s.threads[t].host)
    ensures !(s.threads[t].Starting? && !s.threads[t].first) ==> s.started && !s.closing
  {
    hide Inv, StartEnabled, ApplyStart;
    DecidesHow(s, l.start, t, Succeeded);
    if l.start.EarlyCheck? {
      EarlyDecidedLive(s, t);
      EarlyApplied(s, t);
    } else if l.start.Claim? {
      ClaimDecidedLive(s, t, l.start.bind);
      ClaimApplied(s, t, l.start.bind);
    }
  }

  lemma EarlyApplied(s: State, t: nat)
    requires StartEnabled(s, EarlyCheck(t))
    ensures At(s, t) && s.threads[t].Starting?
    ensures ApplyStart(s, EarlyCheck(t)) == Move(s, t, AfterEarlyCheck(s, s.threads[t].host, s.threads[t].first))
    ensures ApplyStart(s, EarlyCheck(t)).slots == s.slots && ApplyStart(s, EarlyCheck(t)).rts == s.rts
  {}

  lemma ClaimApplied(s: State, t: nat, bind: BindResult)
    requires StartEnabled(s, Claim(t, bind))
    ensures At(s, t) && s.threads[t].Claiming? && ApplyStart(s, Claim(t, bind)) == AfterClaim(s, t, bind)
  {}

  /** A call comes to its result in its early check, in building, or in its claim. */
  lemma DecidesHow(s: State, l: StartStep, t: nat, result: Outcome)
    requires StartEnabled(s, l) && Decides(s, ApplyStart(s, l), InStartHost(l), t, result)
    ensures
      || (l == EarlyCheck(t) && s.threads[t].Starting? && AfterEarlyCheck(s, s.threads[t].host, s.threads[t].first) == Exited(result))
      || (l.Build? && l.t == t && !l.ok && result == Failed)
      || (l.Claim? && l.t == t && s.threads[t].Claiming? && s.threads[t].rid < |s.rts| && Decided(AfterClaim(s, t, l.bind).threads[t], result))
  {
    hide AfterEarlyCheck, AfterClaim, Answers;
    match l
    case EarlyCheck(u) => EarlyOther(s, u, t);
    case Claim(u, bind) => ClaimOther(s, u, t, bind);
    case _ =>
  }

  lemma EarlyOther(s: State, u: nat, t: nat)
    requires StartEnabled(s, EarlyCheck(u)) && At(s, t)
    ensures t != u ==> ApplyStart(s, EarlyCheck(u)).threads[t] == s.threads[t]
    ensures ApplyStart(s, EarlyCheck(u)).threads[u] == AfterEarlyCheck(s, s.threads[u].host, s.threads[u].first)
    ensures !AfterEarlyCheck(s, s.threads[u].host, s.threads[u].first).Releasing?
  {}

  lemma ClaimOther(s: State, u: nat, t: nat, bind: BindResult)
    requires StartEnabled(s, Claim(u, bind)) && At(s, t)
    ensures |AfterClaim(s, u, bind).threads| == |s.threads|
    ensures t != u ==> AfterClaim(s, u, bind).threads[t] == s.threads[t]
  {}

  /** startHost fails for one of four reasons only: it was called while the daemon was not started or
      closing, its remote round trips failed, the daemon was not started or closing when it was about
      to claim the slot, or the slot was free and the path could not be bound. */
  lemma FailureHasAReason(states: seq<State>, labels: seq<Label>, i: nat, t: nat)
    requires Run(states, labels) && i < |labels| && Decides(states[i], states[i + 1], labels[i], t, Failed)
    ensures var s, th, l := states[i], states[i].threads[t], labels[i].start;
            || (l == EarlyCheck(t) && th.Starting? && th.first && (!s.started || s.closing))
            || (l.Build? && l.t == t && !l.ok)
            || (l.Claim? && l.t == t && th.Claiming?
                && (!s.started || s.closing || (th.host !in s.slots && l.bind != Bound)))
  {
    hide Init, StartEnabled, ApplyStart;
    assert Enabled(states[i], labels[i]);
    DecidesHow(states[i], labels[i].start, t, Failed);
  }

  /** The call has returned this result, or will after unwinding the runtime it built in vain. */
  predicate Decided(th: Thread, result: Outcome) {
    th == Exited(result) || (th.Releasing? && th.result == result)
  }

  predicate Live(s: State, h: Host) {
    h in s.slots && s.slots[h] < |s.rts| && s.rts[s.slots[h]].bound && !s.rts[s.slots[h]].stopping
  }

  lemma EarlyDecidedLive(s: State, t: nat)
    requires Inv(s) && StartEnabled(s, EarlyCheck(t))
    requires Decided(AfterEarlyCheck(s, s.threads[t].host, s.threads[t].first), Succeeded)
    ensures Live(s, s.threads[t].host) && (s.threads[t].first ==> s.started && !s.closing)
  {
    var h := s.threads[t].host;
    assert h in s.slots ==> SlotOk(s, h);
  }

  lemma ClaimDecidedLive(s: State, t: nat, bind: BindResult)
    requires Inv(s) && StartEnabled(s, Claim(t, bind)) && Decided(AfterClaim(s, t, bind).threads[t], Succeeded)
    ensures Live(AfterClaim(s, t, bind), s.threads[t].host) && s.started && !s.closing
  {
    var h := s.threads[t].host;
    assert h in s.slots ==> SlotOk(s, h);
    assert ThreadOk(s, s.threads[t]);
  }

  // ----- what a return of stopHost means -----

  /** Call t is on its way to see runtime r torn down, or has returned and it is. */
  predicate Stops(s: State, t: nat, r: nat) {
    At(s, t) && match s.threads[t]
                case StopWait(q) => q == r
                case Teardown(q) => q == r
                case Freed(q) => q == r
                case Exited(_) => Torn(s, r)
                case _ => false
  }

  lemma StopGoesOn(s: State, l: Label, t: nat, r: nat)
    requires Enabled(s, l) && Stops(s, t, r)
    ensures Stops(Apply(s, l), t, r)
  {
    hide Enabled, Apply;
    TorndownStays(s, Apply(s, l), l);
    match l
    case InStartHost(step) => StartLeavesStop(s, step, t, r);
    case InStopHost(step) => StopStepGoesOn(s, step, t, r);
    case InLifetime(step) => CloseLeavesThreads(s, step);
    case Ambient(step) => AmbientLeavesThreads(s, step);
  }

  lemma CloseLeavesThreads(s: State, l: CloseStep)
    requires Enabled(s, InLifetime(l))
    ensures Apply(s, InLifetime(l)).threads == s.threads
  {}

  lemma AmbientLeavesThreads(s: State, l: AmbientStep)
    requires Enabled(s, Ambient(l))
    ensures Apply(s, Ambient(l)).threads == s.threads
  {}

  lemma StartLeavesStop(s: State, l: StartStep, t: nat, r: nat)
    requires Enabled(s, InStartHost(l)) && Stops(s, t, r)
    ensures At(Apply(s, InStartHost(l)), t) && Apply(s, InStartHost(l)).threads[t] == s.threads[t]
  {
    hide AfterEarlyCheck, AfterClaim, Answers;
    match l
    case EarlyCheck(u) => EarlyOther(s, u, t);
    case Claim(u, bind) => ClaimOther(s, u, t, bind);
    case _ =>
  }

  lemma StopStepGoesOn(s: State, l: StopStep, t: nat, r: nat)
    requires Enabled(s, InStopHost(l)) && Stops(s, t, r) && KeepsTorndown(s, Apply(s, InStopHost(l)))
    ensures Stops(Apply(s, InStopHost(l)), t, r)
  {
    hide KeepsTorndown, FileAt;
    if l.CallStop? || l.t != t {
      OtherStop(s, l, t);
      TornStays(s, Apply(s, InStopHost(l)), r);
    }
  }

  lemma TornStays(s: State, s': State, r: nat)
    requires KeepsTorndown(s, s')
    ensures Torn(s, r) ==> Torn(s', r)
  {}

  lemma OtherStop(s: State, l: StopStep, t: nat)
    requires Enabled(s, InStopHost(l)) && At(s, t) && (l.CallStop? || l.t != t)
    ensures At(Apply(s, InStopHost(l)), t) && Apply(s, InStopHost(l)).threads[t] == s.threads[t]
  {}

  /** When stopHost returns, the runtime its host had when it was called is torn down, whoever tore it
      down: it has lost its slot, and the path is not its own any more. */
  lemma StoppedOnReturn(states: seq<State>, labels: seq<Label>, i: nat, j: nat, t: nat, h: Host)
    requires Run(states, labels) && i < |labels| && i < j < |states| && labels[i] == InStopHost(StopClaim(t))
    requires states[i].threads[t] == Stopping(h) && h in states[i].slots
    requires At(states[j], t) && states[j].threads[t].Exited?
    ensures var s, r := states[j], states[i].slots[h];
            && Torn(s, r) && !(h in s.slots && s.slots[h] == r) && FileAt(s.files, h) != Owned(r)
  {
    hide Init, Inv, Enabled, Apply;
    var r := states[i].slots[h];
    RunKeepsInv(states, labels, i);
    StopIsClaimed(states[i], t, h);
    StopsOver(states, labels, i + 1, j, t, r);
    RunKeepsInv(states, labels, j);
    TornIsGone(states[j], h, r);
  }

  /** A call that finds its host in the slot map does not return at once. */
  lemma StopIsClaimed(s: State, t: nat, h: Host)
    requires Inv(s) && Enabled(s, InStopHost(StopClaim(t))) && s.threads[t] == Stopping(h) && h in s.slots
    ensures var s' := Apply(s, InStopHost(StopClaim(t)));
            Stops(s', t, s.slots[h]) && !s'.threads[t].Exited?
  {
    assert SlotOk(s, h);
  }

  lemma {:induction false} StopsOver(states: seq<State>, labels: seq<Label>, i: nat, j: nat, t: nat, r: nat)
    requires Run(states, labels) && i <= j < |states| && Stops(states[i], t, r)
    ensures Stops(states[j], t, r)
    decreases j - i
  {
    hide Init, Enabled, Apply, Stops;
    if i < j {
      StopsOver(states, labels, i, j - 1, t, r);
      StopGoesOn(states[j - 1], labels[j - 1], t, r);
    }
  }

  lemma TornIsGone(s: State, h: Host, r: nat)
    requires Inv(s) && Torn(s, r)
    ensures !(h in s.slots && s.slots[h] == r) && FileAt(s.files, h) != Owned(r)
  {
    assert h in s.slots ==> SlotOk(s, h);
  }

  // ----- generations -----

  predicate Listens(s: State, r: nat, h: Host) {
    r < |s.rts| && s.rts[r].listening && s.rts[r].host == h
  }

  /** The step frees the slot of h although the runtime in it still listens: a teardown that timed
      out while the daemon is not closing. */
  predicate Loosens(s: State, l: Label, h: Host) {
    && l.InStopHost? && l.stop.StopFree? && !s.closing && At(s, l.stop.t)
    && s.threads[l.stop.t].Teardown? && Listens(s, s.threads[l.stop.t].rid, h)
    && h in s.slots && s.slots[h] == s.threads[l.stop.t].rid
  }

  /** At most one runtime of h listens, and while the daemon serves it is the one in the slot. */
  ghost predicate OneGeneration(s: State, h: Host) {
    && (forall q: nat, r: nat :: Listens(s, q, h) && Listens(s, r, h) ==> q == r)
    && (s.started && !s.closing ==> forall r: nat :: Listens(s, r, h) ==> h in s.slots && s.slots[h] == r)
  }

  /** Two generations of a host never listen at the same time unless an earlier step loosened this
      very host. Timeouts of other hosts, of Close, and of teardowns whose listener is closed
      do no harm. */
  lemma {:induction false} GenerationsDoNotOverlap(states: seq<State>, labels: seq<Label>, i: nat, h: Host)
    requires Run(states, labels) && i < |states|
    requires forall k: nat :: k < i ==> !Loosens(states[k], labels[k], h)
    ensures OneGeneration(states[i], h)
  {
    if i > 0 {
      GenerationsDoNotOverlap(states, labels, i - 1, h);
      RunKeepsInv(states, labels, i - 1);
      GenerationKept(states[i - 1], labels[i - 1], h);
    }
  }

  /** The condition is exact: a run with a loosening step, cut off behind it, goes on with one more
      startHost to a state in which two runtimes of the host listen. */
  lemma LoosenedOverlaps(states: seq<State>, labels: seq<Label>, k: nat, h: Host)
      returns (states': seq<State>, labels': seq<Label>, q: nat, r: nat)
    requires Run(states, labels) && k < |labels| && Loosens(states[k], labels[k], h)
    ensures Run(states', labels') && |labels'| == k + 5
    ensures labels'[..k + 1] == labels[..k + 1] && states'[..k + 2] == states[..k + 2]
    ensures q != r && Listens(states'[k + 5], q, h) && Listens(states'[k + 5], r, h)
  {
    hide Inv, Init, StartEnabled, ApplyStart, StopEnabled, ApplyStop, ApplyClose, ApplyAmbient;
    RunKeepsInv(states, labels, k);
    LoosenedState(states[k], labels[k].stop, h);
    var more, after := RestartReaches(states[k + 1], h);
    q := states[k].threads[labels[k].stop.t].rid;
    r := |states[k + 1].rts|;
    states' := states[..k + 2] + after;
    labels' := labels[..k + 1] + more;
  }

  /** Only a timeout does it: a teardown that waited for its goroutines leaves no listener behind. */
  lemma LoosensByTimeout(states: seq<State>, labels: seq<Label>, k: nat, h: Host)
    requires Run(states, labels) && k < |labels| && Loosens(states[k], labels[k], h)
    ensures labels[k].stop.timedOut
  {
    RunKeepsInv(states, labels, k);
    var s := states[k];
    assert Enabled(s, labels[k]) && RuntimeOk(s.rts[s.threads[labels[k].stop.t].rid]);
  }

  /** Such runs exist for every host: a daemon that has just started the host's runtime is asked to
      stop it, and the teardown times out before the listener is closed. */
  lemma TimeoutLoosens(h: Host) returns (states: seq<State>, labels: seq<Label>)
    ensures Run(states, labels) && |labels| == 8 && Loosens(states[7], labels[7], h)
  {
    states, labels := ServingRun(h);
    var s6, s7, s8 := StopTimesOut(h);
    hide Run, Loosens, StopEnabled, ApplyStop, Serving;
    states, labels := OneMore(states, labels, InStopHost(CallStop(h)), s6);
    states, labels := OneMore(states, labels, InStopHost(StopClaim(1)), s7);
    states, labels := OneMore(states, labels, InStopHost(StopFree(1, true)), s8);
  }

  lemma ServingRun(h: Host) returns (states: seq<State>, labels: seq<Label>)
    ensures Run(states, labels) && |labels| == 5 && |states| == 6 && states[5] == Serving(h)
  {
    var s0 := State(false, false, false, map[], map[], [], [], 0, 0, NoWaiter, Idle, false);
    var s1 := s0.(locked := true, started := true);
    assert ApplyClose(s0, Start(true)) == s1;
    StartServes(s1, h);
    states, labels := [s0], [];
    assert Run(states, labels);
    hide Run, StartEnabled, ApplyStart, ApplyClose, StartedState, Serving;
    states, labels := OneMore(states, labels, InLifetime(Start(true)), s1);
    states, labels := OneMore(states, labels, InStartHost(CallStart(h)), StartedState(s1, h, 1));
    states, labels := OneMore(states, labels, InStartHost(EarlyCheck(0)), StartedState(s1, h, 2));
    states, labels := OneMore(states, labels, InStartHost(Build(0, 2, true)), StartedState(s1, h, 3));
    states, labels := OneMore(states, labels, InStartHost(Claim(0, Bound)), Serving(h));
  }

  /** A run with one step more. */
  lemma OneMore(states: seq<State>, labels: seq<Label>, l: Label, s: State)
      returns (states': seq<State>, labels': seq<Label>)
    requires Run(states, labels) && |states| == |labels| + 1
    requires Enabled(states[|labels|], l) && s == Apply(states[|labels|], l)
    ensures Run(states', labels') && |labels'| == |labels| + 1 && |states'| == |labels| + 2
    ensures labels' == labels + [l] && states' == states + [s]
  {
    hide Init, Enabled, Apply;
    states', labels' := states + [s], labels + [l];
    forall i: nat | i < |labels'| ensures Enabled(states'[i], labels'[i]) && states'[i + 1] == Apply(states'[i], labels'[i]) {
      if i < |labels| { assert states'[i] == states[i] && labels'[i] == labels[i] && states'[i + 1] == states[i + 1]; }
    }
  }

  lemma StopTimesOut(h: Host) returns (s6: State, s7: State, s8: State)
    ensures StopEnabled(Serving(h), CallStop(h)) && s6 == ApplyStop(Serving(h), CallStop(h))
    ensures StopEnabled(s6, StopClaim(1)) && s7 == ApplyStop(s6, StopClaim(1))
    ensures StopEnabled(s7, StopFree(1, true)) && s8 == ApplyStop(s7, StopFree(1, true))
    ensures Loosens(s7, InStopHost(StopFree(1, true)), h)
  {
    s6 := Serving(h).(threads := [Exited(Succeeded), Stopping(h)]);
    assert ApplyStop(Serving(h), CallStop(h)).threads == s6.threads;
    s7 := ApplyStop(s6, StopClaim(1));
    assert s7.threads[1] == Teardown(0) && Listens(s7, 0, h);
    s8 := ApplyStop(s7, StopFree(1, true));
  }

  /** A daemon that serves one host. */
  function Serving(h: Host): State {
    State(true, false, true, map[h := 0], map[h := Owned(0)], [Runtime(h, 2, false, false, true, 2, 2, true)],
          [Exited(Succeeded)], 2, 0, NoWaiter, Idle, false)
  }

  /** On the way there: called, checked, built. */
  function StartedState(s: State, h: Host, k: nat): State {
    if k == 1 then s.(threads := [Starting(h, true)])
    else if k == 2 then s.(threads := [Building(h)])
    else s.(threads := [Claiming(h, 0)], rts := [Runtime(h, 2, false, false, false, 2, 0, false)])
  }

  lemma StartServes(s: State, h: Host)
    requires s == State(true, false, true, map[], map[], [], [], 0, 0, NoWaiter, Idle, false)
    ensures var a, b, c := StartedState(s, h, 1), StartedState(s, h, 2), StartedState(s, h, 3);
            && ApplyStart(s, CallStart(h)) == a
            && StartEnabled(a, EarlyCheck(0)) && ApplyStart(a, EarlyCheck(0)) == b
            && StartEnabled(b, Build(0, 2, true)) && ApplyStart(b, Build(0, 2, true)) == c
            && StartEnabled(c, Claim(0, Bound)) && ApplyStart(c, Claim(0, Bound)) == Serving(h)
  {
    var a, b, c := StartedState(s, h, 1), StartedState(s, h, 2), StartedState(s, h, 3);
    assert ApplyStart(s, CallStart(h)).threads == a.threads;
    assert ApplyStart(a, EarlyCheck(0)).threads == b.threads;
    var d := ApplyStart(b, Build(0, 2, true));
    assert d.threads == c.threads && d.rts == c.rts;
    var e := ApplyStart(c, Claim(0, Bound));
    assert e.threads == Serving(h).threads && e.rts == Serving(h).rts && e.slots == Serving(h).slots;
  }

  lemma LoosenedState(s: State, l: StopStep, h: Host)
    requires Inv(s) && StopEnabled(s, l) && Loosens(s, InStopHost(l), h)
    ensures var s1 := ApplyStop(s, l);
            && s1.started && !s1.closing && h !in s1.slots && FileAt(s1.files, h) == Nobody
            && Listens(s1, s.threads[l.t].rid, h)
  {
    hide ThreadsInv, RuntimesInv, CountInv, FilesInv;
    assert SlotOk(s, h);
  }

  /** A startHost that finds the slot free and the path empty gets through. */
  lemma RestartReaches(s: State, h: Host) returns (more: seq<Label>, after: seq<State>)
    requires s.started && !s.closing && h !in s.slots && FileAt(s.files, h) == Nobody
    ensures |more| == 4 && |after| == 4
    ensures Enabled(s, more[0]) && after[0] == Apply(s, more[0])
    ensures forall i: nat :: i < 3 ==> Enabled(after[i], more[i + 1]) && after[i + 1] == Apply(after[i], more[i + 1])
    ensures Listens(after[3], |s.rts|, h)
    ensures forall r: nat :: Listens(s, r, h) ==> Listens(after[3], r, h)
  {
    var t := |s.threads|;
    var l1, l2, l3, l4 := CallStart(h), EarlyCheck(t), Build(t, 2, true), Claim(t, Bound);
    var s1 := ApplyStart(s, l1);
    var s2 := ApplyStart(s1, l2);
    assert s2.threads[t] == Building(h);
    var s3 := ApplyStart(s2, l3);
    assert s3.threads[t] == Claiming(h, |s.rts|);
    var s4 := ApplyStart(s3, l4);
    more := [InStartHost(l1), InStartHost(l2), InStartHost(l3), InStartHost(l4)];
    after := [s1, s2, s3, s4];
  }

  lemma GenerationKept(s: State, l: Label, h: Host)
    requires Inv(s) && Enabled(s, l) && !Loosens(s, l, h) && OneGeneration(s, h)
    ensures OneGeneration(Apply(s, l), h)
  {
    match l
    case InStartHost(step) => StartKeepsGeneration(s, step, h);
    case InStopHost(step) => StopKeepsGeneration(s, step, h);
    case InLifetime(step) => CloseKeepsGeneration(s, step, h);
    case Ambient(step) => AmbientKeepsGeneration(s, step, h);
  }

  /** No listener of h opens, and while the daemon serves the slot of h stays with its holder. */
  ghost predicate NoNewListener(s: State, s': State, h: Host) {
    && (forall r: nat :: Listens(s', r, h) ==> Listens(s, r, h))
    && (s'.started && !s'.closing ==>
          && s.started && !s.closing
          && (h in s.slots ==> h in s'.slots && s'.slots[h] == s.slots[h]))
  }

  lemma GenerationFramed(s: State, s': State, h: Host)
    requires OneGeneration(s, h) && NoNewListener(s, s', h)
    ensures OneGeneration(s', h)
  {}

  /** Start is granted only when the flock is free, and then nothing listens. */
  lemma CloseKeepsGeneration(s: State, l: CloseStep, h: Host)
    requires Inv(s) && CloseEnabled(s, l) && OneGeneration(s, h)
    ensures OneGeneration(ApplyClose(s, l), h)
  {
    if l.Start? && !s.locked {
      assert forall q: nat :: q < |s.rts| ==> RuntimeOk(s.rts[q]);
      forall r: nat | r < |s.rts| ensures !s.rts[r].listening { KidsAtLeast(s.rts, r); }
    } else {
      GenerationFramed(s, ApplyClose(s, l), h);
    }
  }

  lemma AmbientKeepsGeneration(s: State, l: AmbientStep, h: Host)
    requires AmbientEnabled(s, l) && OneGeneration(s, h)
    ensures OneGeneration(ApplyAmbient(s, l), h)
  {
    GenerationFramed(s, ApplyAmbient(s, l), h);
  }

  lemma ClaimKeepsGeneration(s: State, t: nat, bind: BindResult, h: Host)
    requires StartEnabled(s, Claim(t, bind)) && ThreadOk(s, s.threads[t]) && OneGeneration(s, h)
    ensures OneGeneration(AfterClaim(s, t, bind), h)
  {
    var s' := AfterClaim(s, t, bind);
    var host := s.threads[t].host;
    if host !in s'.slots || host in s.slots || bind != Bound || host != h {
      GenerationFramed(s, s', h);
    } else {
      assert s'.slots[h] == s.threads[t].rid;
      assert forall r: nat :: Listens(s', r, h) ==> r == s.threads[t].rid || Listens(s, r, h);
    }
  }

  lemma StartKeepsGeneration(s: State, l: StartStep, h: Host)
    requires Inv(s) && StartEnabled(s, l) && OneGeneration(s, h)
    ensures OneGeneration(ApplyStart(s, l), h)
  {
    hide SoleHolders, ThreadOk, RuntimesInv, SlotsInv, FilesInv, CountInv, AfterEarlyCheck, AfterClaim, OneGeneration;
    if l.Claim? {
      ClaimKeepsGeneration(s, l.t, l.bind, h);
    } else {
      GenerationFramed(s, ApplyStart(s, l), h);
    }
  }

  lemma StopKeepsGeneration(s: State, l: StopStep, h: Host)
    requires Inv(s) && StopEnabled(s, l) && OneGeneration(s, h) && !Loosens(s, InStopHost(l), h)
    ensures OneGeneration(ApplyStop(s, l), h)
  {
    hide Inv, OneGeneration, AfterStopClaim, AfterStopFree;
    match l
    case StopClaim(t) => StopClaimKeepsGeneration(s, t, h);
    case StopFree(t, _) => FreeKeepsGeneration(s, t, h);
    case _ => GenerationFramed(s, ApplyStop(s, l), h);
  }

  lemma StopClaimKeepsGeneration(s: State, t: nat, h: Host)
    requires StopEnabled(s, StopClaim(t)) && OneGeneration(s, h)
    ensures OneGeneration(AfterStopClaim(s, t), h)
  {
    GenerationFramed(s, AfterStopClaim(s, t), h);
  }

  lemma FreeKeepsGeneration(s: State, t: nat, h: Host)
    requires At(s, t) && s.threads[t].Teardown? && s.threads[t].rid < |s.rts|
    requires OneGeneration(s, h) && !Loosens(s, InStopHost(StopFree(t, true)), h)
    ensures OneGeneration(AfterStopFree(s, t), h)
  {
    var s', rid := AfterStopFree(s, t), s.threads[t].rid;
    assert forall r: nat :: Listens(s', r, h) <==> Listens(s, r, h);
    if s.started && !s.closing {
      assert forall r: nat :: Listens(s, r, h) ==> r != rid;
    }
  }
}
