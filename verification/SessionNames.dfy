/** The allocation of session names to new rows. */
module SessionNames {
  import opened Results
  import opened BindingStore
  import Decimal
  import Tokens

  const MAX_NAMES := 1000

  /** A host with a session name in use there. */
  datatype Slot = Slot(host: string, name: string)

  function BoundNames(binds: seq<Binding>, host: string): set<string> {
    set b | b in binds && b.host == host :: b.name
  }

  function ReservedNames(slots: set<Slot>, host: string): set<string> {
    set r | r in slots && r.host == host :: r.name
  }

  function Numbered(base: string, n: nat): string { base + "-" + Decimal.Itoa(n) }

  /** The first numbered name from n on that is valid and free. */
  function FirstFree(base: string, taken: set<string>, n: nat): (r: Option<string>)
    ensures r.Some? ==> Tokens.Valid(r.value) && r.value !in taken
    ensures r.None? ==> forall m :: n <= m < MAX_NAMES ==> !Tokens.Valid(Numbered(base, m)) || Numbered(base, m) in taken
    decreases MAX_NAMES - n
  {
    if n >= MAX_NAMES then None
    else if Tokens.Valid(Numbered(base, n)) && Numbered(base, n) !in taken then Some(Numbered(base, n))
    else FirstFree(base, taken, n + 1)
  }

  /** The wanted name if it is valid and free, else a numbered name. */
  function Pick(taken: set<string>, wanted: string, session: string): (r: Option<string>)
    ensures r.Some? ==> Tokens.Valid(r.value) && r.value !in taken
  {
    if Tokens.Valid(wanted) && wanted !in taken then Some(wanted)
    else FirstFree(if Tokens.Valid(wanted) then wanted else session, taken, 2)
  }

  predicate Free(taken: set<string>, name: string) { Tokens.Valid(name) && name !in taken }

  function Candidate(wanted: string, session: string, n: nat): string {
    (if Tokens.Valid(wanted) then wanted else session) + "-" + Decimal.Itoa(n)
  }

  lemma {:induction false} FirstFreeIs(base: string, taken: set<string>, n: nat)
    requires n <= MAX_NAMES
    ensures match FirstFree(base, taken, n)
            case None => forall m :: n <= m < MAX_NAMES ==> !Free(taken, Numbered(base, m))
            case Some(r) =>
              exists k :: n <= k < MAX_NAMES && r == Numbered(base, k) && forall m :: n <= m < k ==> !Free(taken, Numbered(base, m))
    decreases MAX_NAMES - n
  {
    if n < MAX_NAMES && !Free(taken, Numbered(base, n)) { FirstFreeIs(base, taken, n + 1); }
  }

  /** The name picked is the wanted one if that is valid and free. Otherwise it is the first free one of
      -2 to -999, behind the wanted name if that is valid, though taken, and else behind the caller's own
      session name; and there is none only if all of those are taken or invalid. */
  lemma PickIs(taken: set<string>, wanted: string, session: string)
    ensures Free(taken, wanted) ==> Pick(taken, wanted, session) == Some(wanted)
    ensures !Free(taken, wanted) ==>
              match Pick(taken, wanted, session)
              case None => forall m: nat :: 2 <= m < 1000 ==> !Free(taken, Candidate(wanted, session, m))
              case Some(r) =>
                && Free(taken, r)
                && exists n: nat :: && 2 <= n < 1000 && r == Candidate(wanted, session, n)
                                    && forall m: nat :: 2 <= m < n ==> !Free(taken, Candidate(wanted, session, m))
  {
    var base := if Tokens.Valid(wanted) then wanted else session;
    FirstFreeIs(base, taken, 2);
    forall m: nat ensures Candidate(wanted, session, m) == Numbered(base, m) {}
  }

  /** No session, binding or reservation on this host has the name; those of other hosts do not matter. */
  predicate Unused(sessions: seq<string>, binds: seq<Binding>, reserved: set<Slot>, host: string, name: string) {
    name !in sessions && Slot(host, name) !in reserved && forall b :: b in binds ==> !(b.host == host && b.name == name)
  }

  lemma UnusedIs(
    sessions: seq<string>, binds: seq<Binding>, reserved: set<Slot>, host: string, wanted: string, session: string)
    ensures var taken := (set s | s in sessions) + BoundNames(binds, host) + ReservedNames(reserved, host);
            var r := Pick(taken, wanted, session);
            && (r.Some? ==> Unused(sessions, binds, reserved, host, r.value))
            && (Tokens.Valid(wanted) ==> (r == Some(wanted) <==> Unused(sessions, binds, reserved, host, wanted)))
  {
    hide FirstFree, Tokens.Valid;
    var taken := (set s | s in sessions) + BoundNames(binds, host) + ReservedNames(reserved, host);
    forall name ensures name !in taken <==> Unused(sessions, binds, reserved, host, name) {
      assert name in ReservedNames(reserved, host) <==> Slot(host, name) in reserved;
    }
  }

  class Rewriter {
    var reserved: set<Slot>

    constructor ()
      ensures reserved == {}
    {
      reserved := {};
    }

    /** pickName: what is taken is collected from three places, then candidates are tried in turn. */
    method PickName(sessions: seq<string>, binds: seq<Binding>, host: string, wanted: string, session: string)
      returns (r: Option<string>)
      ensures r == Pick((set s | s in sessions) + BoundNames(binds, host) + ReservedNames(reserved, host), wanted, session)
      ensures r.Some? ==> Unused(sessions, binds, reserved, host, r.value)
      ensures Tokens.Valid(wanted) ==> (r == Some(wanted) <==> Unused(sessions, binds, reserved, host, wanted))
    {
      UnusedIs(sessions, binds, reserved, host, wanted, session);
      var taken: set<string> := {};
      for i := 0 to |sessions|
        invariant taken == set k | 0 <= k < i :: sessions[k]
      {
        taken := taken + {sessions[i]};
      }
      ghost var listed := set s | s in sessions;
      assert taken == listed;
      for i := 0 to |binds|
        invariant taken == listed + BoundNames(binds[..i], host)
      {
        BoundSnoc(binds, i, host);
        if binds[i].host == host {
          taken := taken + {binds[i].name};
        }
      }
      assert binds[..|binds|] == binds;
      taken := taken + ReservedNames(reserved, host);
      var base := session;
      if Tokens.Valid(wanted) {
        base := wanted;
        if wanted !in taken {
          return Some(wanted);
        }
      }
      for n := 2 to MAX_NAMES
        invariant FirstFree(base, taken, n) == FirstFree(base, taken, 2)
      {
        var candidate := Numbered(base, n);
        if Tokens.Valid(candidate) && candidate !in taken {
          return Some(candidate);
        }
      }
      return None;
    }

    /** generateName: selection and reservation are one step under the lock. */
    method GenerateName(sessions: seq<string>, binds: seq<Binding>, host: string, wanted: string, session: string)
      returns (r: Option<string>)
      modifies this
      ensures r == Pick((set s | s in sessions) + BoundNames(binds, host) + ReservedNames(old(reserved), host), wanted, session)
      ensures r.Some? ==> Unused(sessions, binds, old(reserved), host, r.value)
      ensures Tokens.Valid(wanted) ==> (r == Some(wanted) <==> Unused(sessions, binds, old(reserved), host, wanted))
      ensures reserved == old(reserved) + (if r.Some? then {Slot(host, r.value)} else {})
    {
      r := PickName(sessions, binds, host, wanted, session);
      if r.Some? {
        reserved := reserved + {Slot(host, r.value)};
      }
    }

    method Release(host: string, name: string)
      modifies this
      ensures reserved == old(reserved) - {Slot(host, name)}
    {
      reserved := reserved - {Slot(host, name)};
    }
  }

  lemma BoundSnoc(binds: seq<Binding>, i: nat, host: string)
    requires i < |binds|
    ensures BoundNames(binds[..i + 1], host)
         == BoundNames(binds[..i], host) + (if binds[i].host == host then {binds[i].name} else {})
  {
    var next := binds[..i + 1];
    assert next == binds[..i] + [binds[i]];
    forall x ensures x in BoundNames(next, host)
                <==> x in BoundNames(binds[..i], host) + (if binds[i].host == host then {binds[i].name} else {})
    {
      if x in BoundNames(next, host) {
        var b :| b in next && b.host == host && b.name == x;
      }
      if binds[i].host == host && x == binds[i].name { assert binds[i] in next; }
    }
  }

  // ----- concurrent calls -----

  /** A running session new: the name it holds, and whether its row is bound. */
  datatype NewCall = NewCall(slot: Slot, bound: bool)

  /** `ended` holds the names of calls that have released them: their releasers can be called again. */
  datatype Names = Names(reserved: set<Slot>, live: map<nat, NewCall>, bound: set<Slot>, ended: set<Slot>)

  datatype Step =
    | Begin(id: nat, host: string, wanted: string, session: string, sessions: set<string>)
    | PreBind(id: nat)
    | Release(id: nat)
    | ReleaseAgain(slot: Slot)
    | Others(added: set<Slot>, removed: set<Slot>)

  /** What a call that starts now would be given. */
  function Offered(s: Names, host: string, wanted: string, session: string, sessions: set<string>): Option<string> {
    Pick(sessions + ReservedNames(s.bound, host) + ReservedNames(s.reserved, host), wanted, session)
  }

  /** A call ends with its release; other sessions bind and unbind at any time. */
  predicate Enabled(s: Names, step: Step) {
    match step
    case Begin(id, _, _, _, _) => id !in s.live
    case PreBind(id) => id in s.live
    case Release(id) => id in s.live
    case ReleaseAgain(slot) => slot in s.ended
    case Others(_, _) => true
  }

  function Apply(s: Names, step: Step): Names
    requires Enabled(s, step)
  {
    match step
    case Begin(id, host, wanted, session, sessions) =>
      var name := Offered(s, host, wanted, session, sessions);
      if name.None? then s
      else
        var slot := Slot(host, name.value);
        s.(reserved := s.reserved + {slot}, live := s.live[id := NewCall(slot, false)])
    case PreBind(id) => s.(bound := s.bound + {s.live[id].slot}, live := s.live[id := s.live[id].(bound := true)])
    case Release(id) =>
      var slot := s.live[id].slot;
      s.(reserved := s.reserved - {slot}, live := s.live - {id}, ended := s.ended + {slot})
    case ReleaseAgain(slot) => s.(reserved := s.reserved - {slot})
    case Others(added, removed) => s.(bound := s.bound + added - removed)
  }

  ghost predicate Run(s: Names, steps: seq<Step>)
    decreases |steps|
  {
    steps == [] || (Enabled(s, steps[0]) && Run(Apply(s, steps[0]), steps[1..]))
  }

  function End(s: Names, steps: seq<Step>): Names
    requires Run(s, steps)
    decreases |steps|
  {
    if steps == [] then s else End(Apply(s, steps[0]), steps[1..])
  }

  /** Every running call holds its own reservation, under a valid name. */
  ghost predicate Inv(s: Names) {
    && (forall id :: id in s.live ==> s.live[id].slot in s.reserved && Tokens.Valid(s.live[id].slot.name))
    && (forall i, j :: i in s.live && j in s.live && i != j ==> s.live[i].slot != s.live[j].slot)
  }

  /** A running call holds the name. */
  ghost predicate Held(s: Names, slot: Slot) { exists id :: id in s.live && s.live[id].slot == slot }

  /** The step releases nothing a running call holds, but its own name. */
  ghost predicate Harmless(s: Names, step: Step) { step.ReleaseAgain? ==> !Held(s, step.slot) }

  lemma StepKeepsInv(s: Names, step: Step)
    requires Inv(s) && Enabled(s, step) && Harmless(s, step)
    ensures Inv(Apply(s, step))
  {
    if step.Begin? {
      var name := Offered(s, step.host, step.wanted, step.session, step.sessions);
      forall r | r in s.reserved && r.host == step.host ensures name != Some(r.name) {
        assert r.name in ReservedNames(s.reserved, step.host);
      }
    }
  }

  ghost predicate HarmlessRun(s: Names, steps: seq<Step>)
    requires Run(s, steps)
    decreases |steps|
  {
    steps == [] || (Harmless(s, steps[0]) && HarmlessRun(Apply(s, steps[0]), steps[1..]))
  }

  /** The invariant holds in every state of the run. */
  ghost predicate InvAlong(s: Names, steps: seq<Step>)
    requires Run(s, steps)
    decreases |steps|
  {
    Inv(s) && (steps == [] || InvAlong(Apply(s, steps[0]), steps[1..]))
  }

  /** A further release is safe exactly when no running call holds the name; otherwise, unless its
      row is bound, the name that call holds is offered to the next one. */
  lemma ReleasedAgain(s: Names, slot: Slot, session: string)
    requires Inv(s) && Enabled(s, ReleaseAgain(slot))
    ensures Inv(Apply(s, ReleaseAgain(slot))) <==> !Held(s, slot)
    ensures Held(s, slot) && slot !in s.bound ==>
              Offered(Apply(s, ReleaseAgain(slot)), slot.host, slot.name, session, {}) == Some(slot.name)
  {
    var s' := Apply(s, ReleaseAgain(slot));
    if Held(s, slot) {
      var id :| id in s.live && s.live[id].slot == slot;
      assert id in s'.live && s'.live[id].slot !in s'.reserved;
    } else {
      StepKeepsInv(s, ReleaseAgain(slot));
    }
  }

  /** In a run with any number of repeated releases every running call keeps its own valid name
      reserved throughout if and only if no repeated release names what a running call holds. */
  lemma {:induction false} RepeatedReleases(s: Names, steps: seq<Step>)
    requires Inv(s) && Run(s, steps)
    ensures InvAlong(s, steps) <==> HarmlessRun(s, steps)
    decreases |steps|
  {
    if steps == [] {
    } else if Harmless(s, steps[0]) {
      StepKeepsInv(s, steps[0]);
      RepeatedReleases(Apply(s, steps[0]), steps[1..]);
    } else {
      ReleasedAgain(s, steps[0].slot, "");
    }
  }

  lemma {:induction false} EndHasInv(s: Names, steps: seq<Step>)
    requires Run(s, steps) && InvAlong(s, steps)
    ensures Inv(End(s, steps))
    decreases |steps|
  {
    if steps != [] { EndHasInv(Apply(s, steps[0]), steps[1..]); }
  }

  function NoCalls(bound: set<Slot>): Names { Names({}, map[], bound, {}) }

  /** In every interleaving that starts without calls, repeated releases included while they name
      nothing a running call holds, the names calls hold on one host at one time are valid and
      distinct, and none of them is offered to a call that starts then. */
  lemma HeldNamesDiffer(
    bound: set<Slot>, steps: seq<Step>, i: nat, j: nat, wanted: string, session: string, sessions: set<string>)
    requires Run(NoCalls(bound), steps) && HarmlessRun(NoCalls(bound), steps)
    requires i in End(NoCalls(bound), steps).live && j in End(NoCalls(bound), steps).live && i != j
    ensures var e := End(NoCalls(bound), steps);
            var a, b := e.live[i].slot, e.live[j].slot;
            && Tokens.Valid(a.name) && (a.host == b.host ==> a.name != b.name)
            && Offered(e, a.host, wanted, session, sessions) != Some(a.name)
  {
    RepeatedReleases(NoCalls(bound), steps);
    EndHasInv(NoCalls(bound), steps);
    var e := End(NoCalls(bound), steps);
    assert e.live[i].slot.name in ReservedNames(e.reserved, e.live[i].slot.host);
  }

  /** Nobody unbinds slot during the run, and call id, while it holds it, binds before it releases. */
  ghost predicate Careful(s: Names, steps: seq<Step>, id: nat, slot: Slot)
    requires Run(s, steps)
    decreases |steps|
  {
    steps == [] ||
    (&& (steps[0].Others? ==> slot !in steps[0].removed)
     && (steps[0] == Release(id) && s.live[id].slot == slot ==> s.live[id].bound)
     && Careful(Apply(s, steps[0]), steps[1..], id, slot))
  }

  /** slot belongs to call id, which has bound it if it says so, or it is bound for good. */
  ghost predicate Kept(s: Names, id: nat, slot: Slot) {
    || slot in s.bound
    || (id in s.live && s.live[id].slot == slot && !s.live[id].bound)
  }

  lemma {:induction false} KeptStaysTaken(
    s: Names, steps: seq<Step>, id: nat, slot: Slot, wanted: string, session: string, sessions: set<string>)
    requires Inv(s) && Run(s, steps) && HarmlessRun(s, steps)
    requires Kept(s, id, slot) && Careful(s, steps, id, slot)
    ensures Offered(End(s, steps), slot.host, wanted, session, sessions) != Some(slot.name)
    decreases |steps|
  {
    if steps == [] {
      if slot in s.bound { assert slot.name in ReservedNames(s.bound, slot.host); }
      else { assert slot.name in ReservedNames(s.reserved, slot.host); }
    } else {
      StepKeepsInv(s, steps[0]);
      KeptStaysTaken(Apply(s, steps[0]), steps[1..], id, slot, wanted, session, sessions);
    }
  }

  /** A selected name is not offered again: from its selection on, through the pre-bind, past the
      release and for as long as the row stays bound, no other call of the host is given it. */
  lemma NameStaysTaken(
    s: Names, begin: Step, steps: seq<Step>, slot: Slot, wanted: string, session: string, sessions: set<string>)
    requires Inv(s) && begin.Begin? && Enabled(s, begin)
    requires Offered(s, begin.host, begin.wanted, begin.session, begin.sessions) == Some(slot.name) && slot.host == begin.host
    requires Run(Apply(s, begin), steps) && HarmlessRun(Apply(s, begin), steps)
    requires Careful(Apply(s, begin), steps, begin.id, slot)
    ensures Offered(End(Apply(s, begin), steps), slot.host, wanted, session, sessions) != Some(slot.name)
  {
    StepKeepsInv(s, begin);
    KeptStaysTaken(Apply(s, begin), steps, begin.id, slot, wanted, session, sessions);
  }

  /** A call is offered just the name it wants exactly if that is valid and no session, bound row or
      running call of the same host has it. */
  lemma WantedIsOffered(s: Names, host: string, wanted: string, session: string, sessions: set<string>)
    requires Tokens.Valid(wanted)
    ensures Offered(s, host, wanted, session, sessions) == Some(wanted) <==>
              wanted !in sessions && Slot(host, wanted) !in s.bound && Slot(host, wanted) !in s.reserved
  {
    hide FirstFree, Tokens.Valid;
    assert wanted in ReservedNames(s.bound, host) <==> Slot(host, wanted) in s.bound;
    assert wanted in ReservedNames(s.reserved, host) <==> Slot(host, wanted) in s.reserved;
  }

  /** The steps of a release that comes too late: a's name is taken over by b and then freed again. */
  function LateRelease(a: nat, b: nat, slot: Slot, session: string): (steps: seq<Step>)
    ensures |steps| == 3
  {
    [Release(a), Begin(b, slot.host, slot.name, session, {}), ReleaseAgain(slot)]
  }

  /** From any state with a running call whose row is not bound, a second release of its name takes
      it from the call that was given it next, and a third call is given it too. */
  lemma SecondReleaseFrees(s: Names, a: nat, b: nat, session: string)
    requires Inv(s) && a in s.live && s.live[a].slot !in s.bound && b !in s.live
    ensures var slot := s.live[a].slot;
            var steps := LateRelease(a, b, slot, session);
            && Run(s, steps) && !HarmlessRun(s, steps)
            && b in End(s, steps).live && End(s, steps).live[b].slot == slot
            && Offered(End(s, steps), slot.host, slot.name, session, {}) == Some(slot.name)
  {
    var slot := s.live[a].slot;
    var steps := LateRelease(a, b, slot, session);
    var s1 := Apply(s, steps[0]);
    var s2 := Apply(s1, steps[1]);
    StepKeepsInv(s, steps[0]);
    StepKeepsInv(s1, steps[1]);
    assert s2.live[b].slot == slot;
    ReleasedAgain(s2, slot, session);
    var s3 := Apply(s2, steps[2]);
    assert Run(s3, []) && End(s3, []) == s3;
    assert steps[2..][1..] == [] && steps[2..][0] == steps[2];
    assert Run(s2, steps[2..]) && End(s2, steps[2..]) == s3 && !HarmlessRun(s2, steps[2..]);
    assert steps[1..][1..] == steps[2..] && steps[1..][0] == steps[1];
    assert Run(s1, steps[1..]) && End(s1, steps[1..]) == s3 && !HarmlessRun(s1, steps[1..]);
  }
}
