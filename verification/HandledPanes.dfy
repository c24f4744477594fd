/** The record of panes a hook has already acted on. */
module HandledPanes {
  import opened Results

  type Pane = string

  /** How long a claim survives without its pane in a tree snapshot, in the clock's unit. */
  const GRACE: int := 60_000_000_000

  /** The claims left: a claim of a pane that is not live is dropped once it is older than GRACE. */
  function Pruned(claims: map<Pane, int>, live: set<Pane>, now: int): map<Pane, int> {
    map p | p in claims && (p in live || now - claims[p] <= GRACE) :: claims[p]
  }

  function Kept(claims: map<Pane, int>, live: Option<set<Pane>>, now: int): map<Pane, int> {
    if live.Some? then Pruned(claims, live.value, now) else claims
  }

  class Store {
    var claims: map<Pane, int>

    constructor ()
      ensures claims == map[]
    {
      claims := map[];
    }

    /** Claim: whether the pane was claimed already; it is recorded otherwise. None is an error. */
    method Claim(pane: Pane, live: Option<set<Pane>>, now: int) returns (claimed: Option<bool>)
      modifies this
      ensures claimed.None? <==> pane == ""
      ensures pane == "" ==> claims == old(claims)
      ensures pane != "" ==> claimed == Some(pane in Kept(old(claims), live, now))
      ensures pane != "" ==> claims == Recorded(Kept(old(claims), live, now), pane, now)
    {
      if pane == "" {
        return None;
      }
      if live.Some? {
        Prune(live.value, now);
      }
      if pane in claims {
        return Some(true);
      }
      claims := claims[pane := now];
      return Some(false);
    }

    /** prune: each claim is looked at and dropped in place. */
    method Prune(live: set<Pane>, now: int)
      modifies this
      ensures claims == Pruned(old(claims), live, now)
    {
      var left := claims.Keys;
      while left != {}
        invariant left <= old(claims).Keys
        invariant forall p :: p in claims <==> p in old(claims) && (p in left || p in live || now - old(claims)[p] <= GRACE)
        invariant forall p :: p in claims ==> claims[p] == old(claims)[p]
        decreases |left|
      {
        var p :| p in left;
        if p !in live && now - claims[p] > GRACE {
          claims := claims - {p};
        }
        left := left - {p};
      }
    }
  }

  function Recorded(claims: map<Pane, int>, pane: Pane, now: int): map<Pane, int> {
    if pane in claims then claims else claims[pane := now]
  }

  // ----- runs of hooks -----

  /** One hook: the pane it claims, when it read the tree and when it took the lock. */
  datatype Hook = Hook(pane: Pane, live: Option<set<Pane>>, seen: int, now: int)

  function After(claims: map<Pane, int>, h: Hook): map<Pane, int> {
    if h.pane == "" then claims else Recorded(Kept(claims, h.live, h.now), h.pane, h.now)
  }

  function State(hooks: seq<Hook>): map<Pane, int> {
    if hooks == [] then map[] else After(State(hooks[..|hooks| - 1]), hooks[|hooks| - 1])
  }

  /** Hook number i was told that it is the first to claim its pane. */
  predicate ClaimsAsNew(hooks: seq<Hook>, i: nat)
    requires i < |hooks|
  {
    hooks[i].pane != "" && hooks[i].pane !in Kept(State(hooks[..i]), hooks[i].live, hooks[i].now)
  }

  /** Hooks take the lock in the order of the clock. */
  ghost predicate Ordered(hooks: seq<Hook>) { forall i, j :: 0 <= i <= j < |hooks| ==> hooks[i].now <= hooks[j].now }

  /** Snapshots are at most `age` old when their hook claims, and list a pane from its creation on. */
  ghost predicate Snapshots(hooks: seq<Hook>, pane: Pane, born: int, age: int) {
    forall i :: 0 <= i < |hooks| ==>
      && hooks[i].now - hooks[i].seen <= age
      && (hooks[i].live.Some? && hooks[i].seen >= born ==> pane in hooks[i].live.value)
  }

  /** A claim made at or after the pane's creation is still there at every later hook. */
  lemma {:induction false} ClaimStays(hooks: seq<Hook>, pane: Pane, born: int, i: nat, at: int)
    requires Snapshots(hooks, pane, born, GRACE + 1) && i <= |hooks| && born <= at
    requires pane in State(hooks[..i]) && State(hooks[..i])[pane] == at
    ensures pane in State(hooks) && State(hooks)[pane] == at
    decreases |hooks| - i
  {
    if i == |hooks| {
      assert hooks[..i] == hooks;
    } else {
      assert hooks[..i + 1][..i] == hooks[..i] && hooks[..i + 1][i] == hooks[i];
      ClaimStays(hooks, pane, born, i + 1, at);
    }
  }

  lemma RecordsClaim(hooks: seq<Hook>, i: nat)
    requires i < |hooks| && ClaimsAsNew(hooks, i)
    ensures hooks[i].pane in State(hooks[..i + 1]) && State(hooks[..i + 1])[hooks[i].pane] == hooks[i].now
  {
    assert hooks[..i + 1][..i] == hooks[..i];
  }

  /** Hooks i and j of the run are both told to be the first to claim the pane, which lives. */
  ghost predicate ClaimedTwice(hooks: seq<Hook>, pane: Pane, born: int, i: nat, j: nat) {
    && Ordered(hooks) && i < j < |hooks| && hooks[i].pane == pane == hooks[j].pane
    && born <= hooks[i].now && ClaimsAsNew(hooks, i) && ClaimsAsNew(hooks, j)
  }

  lemma ClaimedOnce(hooks: seq<Hook>, pane: Pane, born: int, i: nat, j: nat)
    requires Snapshots(hooks, pane, born, GRACE + 1)
    ensures !ClaimedTwice(hooks, pane, born, i, j)
  {
    if ClaimedTwice(hooks, pane, born, i, j) {
      RecordsClaim(hooks, i);
      var early := hooks[..j];
      assert early[..i + 1] == hooks[..i + 1];
      ClaimStays(early, pane, born, i + 1, hooks[i].now);
    }
  }

  /** A hook on another pane drops the claim, whose pane its snapshot is too old to list. */
  lemma StaleSnapshotClaimsAgain(pane: Pane, born: int) returns (hooks: seq<Hook>)
    requires pane != ""
    ensures Snapshots(hooks, pane, born, GRACE + 2) && ClaimedTwice(hooks, pane, born, 0, 2)
  {
    var other, late := pane + "+", born + GRACE + 1;
    var h0 := Hook(pane, Some({pane}), born, born);
    var h1 := Hook(other, Some({other}), born - 1, late);
    var h2 := Hook(pane, None, late, late);
    hooks := [h0, h1, h2];
    assert pane != other by { assert |other| == |pane| + 1; }
    assert hooks[..0] == [] && hooks[..1] == [h0] && hooks[..2] == [h0, h1];
    assert [h0][..0] == [] && [h0, h1][..1] == [h0];
    assert State([h0]) == map[pane := born];
    assert Pruned(State([h0]), {other}, late) == map[];
    assert State([h0, h1]) == map[other := late];
  }

  /** A pane that stays live is claimed as new at most once in every run whose snapshots are at
      most `age` old if and only if that age exceeds the grace period by at most one unit. */
  lemma ClaimedOnceExactly(pane: Pane, born: int, age: int)
    requires pane != ""
    ensures (forall hooks, i: nat, j: nat :: Snapshots(hooks, pane, born, age) ==> !ClaimedTwice(hooks, pane, born, i, j))
            <==> age <= GRACE + 1
  {
    if age <= GRACE + 1 {
      forall hooks, i: nat, j: nat | Snapshots(hooks, pane, born, age) ensures !ClaimedTwice(hooks, pane, born, i, j) {
        assert Snapshots(hooks, pane, born, GRACE + 1);
        ClaimedOnce(hooks, pane, born, i, j);
      }
    } else {
      var hooks := StaleSnapshotClaimsAgain(pane, born);
      assert Snapshots(hooks, pane, born, age);
    }
  }
}
