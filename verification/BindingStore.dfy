/** The binding store: a list of pane bindings in which no entry supersedes another. */
module BindingStore {
  import opened Results
  import opened Sequences

  datatype Grant = Grant(row: string, paneId: string, kind: string)

  /** grants None is a binding that says nothing about grants; Some([]) asks for none. */
  datatype Binding = Binding(
    row: string, paneId: string, pane: string, host: string, name: string, mux: string, boundAt: int,
    grants: Option<seq<Grant>>)

  datatype Key = Key(host: string, name: string)

  function KeyOf(b: Binding): Key { Key(b.host, b.name) }

  function GrantsOf(b: Binding): seq<Grant> { if b.grants.Some? then b.grants.value else [] }

  predicate Supersedes(next: Binding, was: Binding) {
    if was.host == next.host && was.name == next.name then true
    else if was.row != next.row then next.paneId != "" && was.paneId == next.paneId
    else next.paneId == "" || was.paneId == "" || was.paneId == next.paneId || was.pane == next.pane
  }

  // ----- the list as a value -----

  /** The entries next leaves alone, in order. */
  function Kept(current: seq<Binding>, next: Binding): seq<Binding> {
    if current == [] then []
    else (if Supersedes(next, current[0]) then [] else [current[0]]) + Kept(current[1..], next)
  }

  /** next with the grants of the entry of its host and name, unless it brings its own. */
  function Inheriting(current: seq<Binding>, next: Binding): Binding
    decreases |current|
  {
    if current == [] || next.grants.Some? then next
    else if KeyOf(current[0]) == KeyOf(next) then Inheriting(current[1..], next.(grants := current[0].grants))
    else Inheriting(current[1..], next)
  }

  function Upserted(current: seq<Binding>, next: Binding): seq<Binding> {
    Kept(current, next) + [Inheriting(current, next)]
  }

  function UpsertedAll(current: seq<Binding>, next: seq<Binding>): seq<Binding>
    decreases |next|
  {
    if next == [] then current else UpsertedAll(Upserted(current, next[0]), next[1..])
  }

  /** The file keeps no empty grant list. */
  function Persisted(b: Binding): Binding { if b.grants == Some([]) then b.(grants := None) else b }

  function Written(list: seq<Binding>): (w: seq<Binding>)
    ensures |w| == |list| && forall k :: 0 <= k < |w| ==> w[k] == Persisted(list[k])
  {
    seq(|list|, k requires 0 <= k < |list| => Persisted(list[k]))
  }

  /** The first entry of a host and name. */
  function Entry(list: seq<Binding>, key: Key): (r: Option<Binding>)
    ensures r.Some? ==> r.value in list && KeyOf(r.value) == key
    ensures r.None? <==> forall b :: b in list ==> KeyOf(b) != key
  {
    if list == [] then None else if KeyOf(list[0]) == key then Some(list[0]) else Entry(list[1..], key)
  }

  function WithGrant(grants: seq<Grant>, grant: Grant): seq<Grant> {
    if grant in grants then grants else grants + [grant]
  }

  function WithoutGrant(grants: seq<Grant>, grant: Grant): seq<Grant> {
    if grants == [] then []
    else (if grants[0] == grant then [] else [grants[0]]) + WithoutGrant(grants[1..], grant)
  }

  datatype Edit = Add(grant: Grant) | Drop(grant: Grant)

  function Edited(grants: seq<Grant>, edit: Edit): seq<Grant> {
    match edit
    case Add(g) => WithGrant(grants, g)
    case Drop(g) => WithoutGrant(grants, g)
  }

  function WithGrants(b: Binding, grants: seq<Grant>): Binding {
    b.(grants := if grants == [] then None else Some(grants))
  }

  /** The list after editing the grants of the first entry of key. */
  function GrantsEdited(list: seq<Binding>, key: Key, edit: Edit): seq<Binding> {
    if list == [] then []
    else if KeyOf(list[0]) == key then [WithGrants(list[0], Edited(GrantsOf(list[0]), edit))] + list[1..]
    else [list[0]] + GrantsEdited(list[1..], key, edit)
  }

  function WithoutRow(list: seq<Binding>, row: string): seq<Binding> {
    if list == [] then []
    else (if list[0].row == row then [] else [list[0]]) + WithoutRow(list[1..], row)
  }

  // ----- the store -----

  lemma {:induction false} EditedAt(list: seq<Binding>, i: nat, key: Key, edit: Edit)
    requires i < |list| && KeyOf(list[i]) == key && forall k :: 0 <= k < i ==> KeyOf(list[k]) != key
    ensures GrantsEdited(list, key, edit) == list[i := WithGrants(list[i], Edited(GrantsOf(list[i]), edit))]
    ensures Entry(list, key) == Some(list[i])
  {
    hide WithGrants, Edited;
    if i > 0 {
      EditedAt(list[1..], i - 1, key, edit);
    }
  }

  class Store {
    /** What the file holds. */
    var list: seq<Binding>

    constructor ()
      ensures list == []
    {
      list := [];
    }

    method Upsert(current: seq<Binding>, next: Binding) returns (result: seq<Binding>)
      ensures result == Upserted(current, next)
    {
      var filtered: seq<Binding> := [];
      var heir := next;
      for i := 0 to |current|
        invariant filtered + Kept(current[i..], next) == Kept(current, next)
        invariant heir.(grants := next.grants) == next
        invariant Inheriting(current[i..], heir) == Inheriting(current, next)
      {
        var binding := current[i];
        assert current[i..][0] == binding && current[i..][1..] == current[i + 1..];
        if Supersedes(next, binding) {
          if binding.host == next.host && binding.name == next.name && heir.grants.None? {
            heir := heir.(grants := binding.grants);
          }
          CatNil(Kept(current[i + 1..], next));
        } else {
          CatThree(filtered, [binding], Kept(current[i + 1..], next));
          filtered := filtered + [binding];
        }
      }
      CatNil(filtered);
      result := filtered + [heir];
    }

    method Save(next: seq<Binding>)
      modifies this
      ensures list == Written(UpsertedAll(old(list), next))
    {
      var current := list;
      for i := 0 to |next|
        invariant UpsertedAll(current, next[i..]) == UpsertedAll(old(list), next)
        invariant list == old(list)
      {
        assert next[i..][1..] == next[i + 1..];
        current := Upsert(current, next[i]);
      }
      list := Written(current);
    }

    method Bind(next: Binding)
      modifies this
      ensures list == Written(Upserted(old(list), next))
    {
      var current := Upsert(list, next);
      list := Written(current);
    }

    method EditGrants(host: string, name: string, edit: Edit) returns (found: bool)
      modifies this
      ensures found <==> Entry(old(list), Key(host, name)).Some?
      ensures list == if found then Written(GrantsEdited(old(list), Key(host, name), edit)) else old(list)
    {
      hide Entry, GrantsEdited, Written, WithGrants, Edited;
      var current := list;
      for i := 0 to |current|
        invariant list == old(list) == current
        invariant forall k :: 0 <= k < i ==> KeyOf(current[k]) != Key(host, name)
      {
        if current[i].host == host && current[i].name == name {
          EditedAt(current, i, Key(host, name), edit);
          list := Written(current[i := WithGrants(current[i], Edited(GrantsOf(current[i]), edit))]);
          return true;
        }
      }
      return false;
    }

    method UnbindRow(row: string)
      modifies this
      ensures list == Written(WithoutRow(old(list), row))
    {
      var filtered: seq<Binding> := [];
      for i := 0 to |list|
        invariant list == old(list)
        invariant filtered + WithoutRow(list[i..], row) == WithoutRow(list, row)
      {
        assert list[i..][0] == list[i] && list[i..][1..] == list[i + 1..];
        if list[i].row != row {
          CatThree(filtered, [list[i]], WithoutRow(list[i + 1..], row));
          filtered := filtered + [list[i]];
        } else {
          CatNil(WithoutRow(list[i + 1..], row));
        }
      }
      CatNil(filtered);
      list := Written(filtered);
    }

    method ByHostName(host: string, name: string) returns (r: Option<Binding>)
      ensures r == Entry(list, Key(host, name))
    {
      for i := 0 to |list|
        invariant Entry(list, Key(host, name)) == Entry(list[i..], Key(host, name))
      {
        assert list[i..][0] == list[i] && list[i..][1..] == list[i + 1..];
        if list[i].host == host && list[i].name == name {
          return Some(list[i]);
        }
      }
      return None;
    }
  }

  // ----- independence -----

  /** supersedes is reflexive and symmetric, so it is a conflict between two bindings. */
  lemma SupersedesIsConflict(a: Binding, b: Binding)
    ensures Supersedes(a, a) && (Supersedes(a, b) <==> Supersedes(b, a))
  {}

  ghost predicate Independent(list: seq<Binding>) {
    forall i, j :: 0 <= i < j < |list| ==> !Supersedes(list[i], list[j])
  }

  /** What an independent list is to its readers: host and name name one entry, a pane id
      occurs once, a slot of a row occurs once, and an entry without a pane id has its row alone. */
  lemma IndependentMeans(list: seq<Binding>)
    ensures Independent(list) <==>
            forall i, j :: 0 <= i < j < |list| ==>
              && KeyOf(list[i]) != KeyOf(list[j])
              && (list[i].paneId != "" ==> list[i].paneId != list[j].paneId)
              && (list[i].row == list[j].row ==>
                    list[i].pane != list[j].pane && list[i].paneId != "" && list[j].paneId != "")
  {
    var apart := (a: Binding, b: Binding) =>
      && KeyOf(a) != KeyOf(b) && (a.paneId != "" ==> a.paneId != b.paneId)
      && (a.row == b.row ==> a.pane != b.pane && a.paneId != "" && b.paneId != "");
    forall i, j | 0 <= i < j < |list| ensures !Supersedes(list[i], list[j]) <==> apart(list[i], list[j]) {}
  }

  lemma {:induction false} KeptAre(current: seq<Binding>, next: Binding, b: Binding)
    ensures b in Kept(current, next) <==> b in current && !Supersedes(next, b)
  {
    if current != [] { KeptAre(current[1..], next, b); }
  }

  lemma {:induction false} KeptIndependent(current: seq<Binding>, next: Binding)
    requires Independent(current)
    ensures Independent(Kept(current, next))
  {
    if current != [] {
      KeptIndependent(current[1..], next);
      forall k | 0 <= k < |Kept(current[1..], next)| ensures !Supersedes(current[0], Kept(current[1..], next)[k]) {
        KeptAre(current[1..], next, Kept(current[1..], next)[k]);
      }
    }
  }

  lemma {:induction false} InheritingKeeps(current: seq<Binding>, next: Binding)
    ensures Inheriting(current, next).(grants := None) == next.(grants := None)
    decreases |current|
  {
    if current != [] {
      InheritingKeeps(current[1..], next);
      InheritingKeeps(current[1..], next.(grants := current[0].grants));
    }
  }

  lemma UpsertedIndependent(current: seq<Binding>, next: Binding)
    requires Independent(current)
    ensures Independent(Upserted(current, next))
  {
    KeptIndependent(current, next);
    InheritingKeeps(current, next);
    forall k | 0 <= k < |Kept(current, next)| ensures !Supersedes(Kept(current, next)[k], Inheriting(current, next)) {
      KeptAre(current, next, Kept(current, next)[k]);
    }
  }

  lemma {:induction false} UpsertedAllIndependent(current: seq<Binding>, next: seq<Binding>)
    requires Independent(current)
    ensures Independent(UpsertedAll(current, next))
    decreases |next|
  {
    if next != [] {
      UpsertedIndependent(current, next[0]);
      UpsertedAllIndependent(Upserted(current, next[0]), next[1..]);
    }
  }

  lemma {:induction false} WithoutRowAre(list: seq<Binding>, row: string, b: Binding)
    ensures b in WithoutRow(list, row) <==> b in list && b.row != row
  {
    if list != [] { WithoutRowAre(list[1..], row, b); }
  }

  lemma {:induction false} WithoutRowIndependent(list: seq<Binding>, row: string)
    requires Independent(list)
    ensures Independent(WithoutRow(list, row))
  {
    if list != [] {
      WithoutRowIndependent(list[1..], row);
      forall k | 0 <= k < |WithoutRow(list[1..], row)| ensures !Supersedes(list[0], WithoutRow(list[1..], row)[k]) {
        WithoutRowAre(list[1..], row, WithoutRow(list[1..], row)[k]);
      }
    }
  }

  lemma {:induction false} GrantsEditedShape(list: seq<Binding>, key: Key, edit: Edit)
    ensures |GrantsEdited(list, key, edit)| == |list|
    ensures forall k :: 0 <= k < |list| ==> GrantsEdited(list, key, edit)[k].(grants := None) == list[k].(grants := None)
  {
    if list != [] { GrantsEditedShape(list[1..], key, edit); }
  }

  lemma SameShape(a: seq<Binding>, b: seq<Binding>)
    requires |a| == |b| && Independent(a)
    requires forall k :: 0 <= k < |a| ==> a[k].(grants := None) == b[k].(grants := None)
    ensures Independent(b)
  {
    forall i, j | 0 <= i < j < |b| ensures !Supersedes(b[i], b[j]) {
      assert !Supersedes(a[i], a[j]);
      assert Supersedes(b[i], b[j]) == Supersedes(b[i].(grants := None), b[j].(grants := None));
      assert Supersedes(a[i], a[j]) == Supersedes(a[i].(grants := None), a[j].(grants := None));
    }
  }

  // ----- runs -----

  datatype Op = Bind(next: Binding) | Save(list: seq<Binding>) | EditGrants(key: Key, edit: Edit) | UnbindRow(row: string)

  function Apply(list: seq<Binding>, op: Op): seq<Binding> {
    match op
    case Bind(next) => Written(Upserted(list, next))
    case Save(next) => Written(UpsertedAll(list, next))
    case EditGrants(key, edit) => if Entry(list, key).Some? then Written(GrantsEdited(list, key, edit)) else list
    case UnbindRow(row) => Written(WithoutRow(list, row))
  }

  /** The file after a run of operations on the empty store. */
  function After(ops: seq<Op>): seq<Binding> {
    if ops == [] then [] else Apply(After(ops[..|ops| - 1]), ops[|ops| - 1])
  }

  lemma ApplyIndependent(list: seq<Binding>, op: Op)
    requires Independent(list)
    ensures Independent(Apply(list, op))
  {
    match op {
      case Bind(next) =>
        UpsertedIndependent(list, next);
        SameShape(Upserted(list, next), Apply(list, op));
      case Save(next) =>
        UpsertedAllIndependent(list, next);
        SameShape(UpsertedAll(list, next), Apply(list, op));
      case EditGrants(key, edit) =>
        GrantsEditedShape(list, key, edit);
        if Entry(list, key).Some? { SameShape(list, Apply(list, op)); }
      case UnbindRow(row) =>
        WithoutRowIndependent(list, row);
        SameShape(WithoutRow(list, row), Apply(list, op));
    }
  }

  /** Whatever is bound, saved, granted and unbound, no entry ever supersedes another. */
  lemma {:induction false} RunsStayIndependent(ops: seq<Op>)
    ensures Independent(After(ops))
  {
    if ops != [] {
      RunsStayIndependent(ops[..|ops| - 1]);
      ApplyIndependent(After(ops[..|ops| - 1]), ops[|ops| - 1]);
    }
  }

  // ----- the store as a map from host and name -----

  lemma EntryIsUnique(list: seq<Binding>, b: Binding)
    requires Independent(list) && b in list
    ensures Entry(list, KeyOf(b)) == Some(b)
  {
    var e := Entry(list, KeyOf(b)).value;
    var i :| 0 <= i < |list| && list[i] == b;
    var j :| 0 <= j < |list| && list[j] == e;
    if i < j { assert Supersedes(b, e); } else if j < i { assert Supersedes(e, b); }
  }

  /** Entries are known by membership, so the order of the list does not matter. */
  lemma EntryByMembers(list: seq<Binding>, key: Key, r: Option<Binding>)
    requires Independent(list)
    requires if r.Some? then r.value in list && KeyOf(r.value) == key else forall b :: b in list ==> KeyOf(b) != key
    ensures Entry(list, key) == r
  {
    if r.Some? { EntryIsUnique(list, r.value); }
  }

  lemma {:induction false} InheritsFrom(current: seq<Binding>, next: Binding)
    requires Independent(current)
    ensures Inheriting(current, next)
         == if next.grants.None? && Entry(current, KeyOf(next)).Some?
            then next.(grants := Entry(current, KeyOf(next)).value.grants) else next
    decreases |current|
  {
    if current != [] && next.grants.None? {
      if KeyOf(current[0]) == KeyOf(next) {
        var heir := next.(grants := current[0].grants);
        forall x | x in current[1..] ensures KeyOf(x) != KeyOf(next) {
          var j :| 0 <= j < |current[1..]| && current[1..][j] == x;
          assert !Supersedes(current[0], current[j + 1]);
        }
        InheritsFrom(current[1..], heir);
      } else {
        InheritsFrom(current[1..], next);
      }
    }
  }

  /** An upsert is an update of the map at the new key, after removing what it supersedes.
      A re-bind that brings no grants keeps exactly the old list, on whatever row it lands. */
  lemma UpsertRefinesMap(list: seq<Binding>, next: Binding, key: Key)
    requires Independent(list)
    ensures Entry(Upserted(list, next), key)
         == if key == KeyOf(next) then
              Some(if next.grants.None? && Entry(list, key).Some?
                   then next.(grants := Entry(list, key).value.grants) else next)
            else if Entry(list, key).Some? && Supersedes(next, Entry(list, key).value) then None
            else Entry(list, key)
  {
    var out := Upserted(list, next);
    UpsertedIndependent(list, next);
    InheritsFrom(list, next);
    if key == KeyOf(next) {
      assert out[|out| - 1] == Inheriting(list, next);
      EntryByMembers(out, key, Some(Inheriting(list, next)));
    } else if Entry(list, key).Some? && !Supersedes(next, Entry(list, key).value) {
      KeptAre(list, next, Entry(list, key).value);
      EntryByMembers(out, key, Entry(list, key));
    } else {
      forall b | b in out ensures KeyOf(b) != key {
        if b in Kept(list, next) {
          KeptAre(list, next, b);
          EntryIsUnique(list, b);
        } else {
          assert b == Inheriting(list, next);
        }
      }
    }
  }

  lemma EntryWritten(list: seq<Binding>, key: Key)
    requires Independent(list)
    ensures Independent(Written(list))
    ensures Entry(Written(list), key)
         == if Entry(list, key).Some? then Some(Persisted(Entry(list, key).value)) else None
  {
    SameShape(list, Written(list));
    if Entry(list, key).Some? {
      var i :| 0 <= i < |list| && list[i] == Entry(list, key).value;
      assert Written(list)[i] == Persisted(list[i]);
      EntryByMembers(Written(list), key, Some(Persisted(list[i])));
    } else {
      forall b | b in Written(list) ensures KeyOf(b) != key {
        var i :| 0 <= i < |list| && Written(list)[i] == b;
        assert list[i] in list;
      }
    }
  }

  lemma WithoutRowRefinesMap(list: seq<Binding>, row: string, key: Key)
    requires Independent(list)
    ensures Entry(WithoutRow(list, row), key)
         == if Entry(list, key).Some? && Entry(list, key).value.row == row then None else Entry(list, key)
  {
    var out, e := WithoutRow(list, row), Entry(list, key);
    WithoutRowIndependent(list, row);
    if e.Some? && e.value.row != row {
      WithoutRowAre(list, row, e.value);
      EntryByMembers(out, key, e);
    } else {
      forall b | b in out ensures KeyOf(b) != key {
        WithoutRowAre(list, row, b);
        EntryIsUnique(list, b);
      }
    }
  }

  lemma {:induction false} GrantsEditedRefinesMap(list: seq<Binding>, key: Key, edit: Edit, other: Key)
    ensures Entry(GrantsEdited(list, key, edit), other)
         == if other == key && Entry(list, key).Some?
            then Some(WithGrants(Entry(list, key).value, Edited(GrantsOf(Entry(list, key).value), edit)))
            else Entry(list, other)
  {
    if list != [] {
      GrantsEditedRefinesMap(list[1..], key, edit, other);
    }
  }

  // ----- where a grant comes from -----

  predicate Holds(list: seq<Binding>, key: Key, g: Grant) {
    Entry(list, key).Some? && g in GrantsOf(Entry(list, key).value)
  }

  /** The operation grants g to key by name: AddGrant, or a binding that brings g itself. */
  predicate Puts(op: Op, key: Key, g: Grant) {
    match op
    case Bind(next) => KeyOf(next) == key && g in GrantsOf(next)
    case Save(next) => exists k :: 0 <= k < |next| && KeyOf(next[k]) == key && g in GrantsOf(next[k])
    case EditGrants(k, Add(h)) => k == key && h == g
    case _ => false
  }

  lemma UpsertPuts(list: seq<Binding>, next: Binding, key: Key, g: Grant)
    requires Independent(list) && Holds(Upserted(list, next), key, g) && !Holds(list, key, g)
    ensures KeyOf(next) == key && g in GrantsOf(next)
  {
    UpsertRefinesMap(list, next, key);
  }

  lemma {:induction false} SavePuts(list: seq<Binding>, next: seq<Binding>, key: Key, g: Grant)
    requires Independent(list) && Holds(UpsertedAll(list, next), key, g) && !Holds(list, key, g)
    ensures exists k :: 0 <= k < |next| && KeyOf(next[k]) == key && g in GrantsOf(next[k])
    decreases |next|
  {
    if next != [] {
      UpsertedIndependent(list, next[0]);
      if Holds(Upserted(list, next[0]), key, g) {
        UpsertPuts(list, next[0], key, g);
        assert KeyOf(next[0]) == key;
      } else {
        SavePuts(Upserted(list, next[0]), next[1..], key, g);
        var k :| 0 <= k < |next[1..]| && KeyOf(next[1..][k]) == key && g in GrantsOf(next[1..][k]);
        assert next[k + 1] == next[1..][k];
      }
    }
  }

  lemma {:induction false} WithoutGrantAre(grants: seq<Grant>, grant: Grant, g: Grant)
    ensures g in WithoutGrant(grants, grant) <==> g in grants && g != grant
  {
    if grants != [] { WithoutGrantAre(grants[1..], grant, g); }
  }

  lemma EditPuts(b: Binding, edit: Edit, g: Grant)
    ensures g in GrantsOf(WithGrants(b, Edited(GrantsOf(b), edit)))
       <==> (g in GrantsOf(b) && edit != Drop(g)) || edit == Add(g)
  {
    if edit.Drop? { WithoutGrantAre(GrantsOf(b), edit.grant, g); }
  }

  /** A grant that one operation makes a binding hold was put there by that operation. */
  lemma StepPuts(list: seq<Binding>, op: Op, key: Key, g: Grant)
    requires Independent(list) && Holds(Apply(list, op), key, g) && !Holds(list, key, g)
    ensures Puts(op, key, g)
  {
    match op {
      case Bind(next) =>
        UpsertedIndependent(list, next);
        EntryWritten(Upserted(list, next), key);
        UpsertPuts(list, next, key, g);
      case Save(next) =>
        UpsertedAllIndependent(list, next);
        EntryWritten(UpsertedAll(list, next), key);
        SavePuts(list, next, key, g);
      case EditGrants(k, edit) =>
        var edited := GrantsEdited(list, k, edit);
        GrantsEditedShape(list, k, edit);
        SameShape(list, edited);
        EntryWritten(edited, key);
        GrantsEditedRefinesMap(list, k, edit, key);
        if k == key { EditPuts(Entry(list, key).value, edit, g); }
      case UnbindRow(row) =>
        WithoutRowIndependent(list, row);
        EntryWritten(WithoutRow(list, row), key);
        WithoutRowRefinesMap(list, row, key);
    }
  }

  /** key holds g after every operation from number i on. */
  ghost predicate HeldSince(ops: seq<Op>, i: nat, key: Key, g: Grant) {
    forall j :: i < j <= |ops| ==> Holds(After(ops[..j]), key, g)
  }

  /** Operation number i put g there, and it has stayed. */
  ghost predicate ComesFrom(ops: seq<Op>, i: nat, key: Key, g: Grant) {
    i < |ops| && Puts(ops[i], key, g) && HeldSince(ops, i, key, g)
  }

  lemma HeldLonger(ops: seq<Op>, last: nat, i: nat, key: Key, g: Grant)
    requires last + 1 == |ops| && ComesFrom(ops[..last], i, key, g) && Holds(After(ops), key, g)
    ensures ComesFrom(ops, i, key, g)
  {
    forall j | i < j <= |ops| ensures Holds(After(ops[..j]), key, g) {
      if j <= last { assert ops[..last][..j] == ops[..j]; } else { assert ops[..j] == ops; }
    }
  }

  lemma JustPut(ops: seq<Op>, last: nat, key: Key, g: Grant)
    requires last + 1 == |ops| && Holds(After(ops), key, g) && !Holds(After(ops[..last]), key, g)
    ensures ComesFrom(ops, last, key, g)
  {
    RunsStayIndependent(ops[..last]);
    StepPuts(After(ops[..last]), ops[last], key, g);
    assert HeldSince(ops, last, key, g) by {
      forall j | last < j <= |ops| ensures Holds(After(ops[..j]), key, g) {
        assert ops[..j] == ops;
      }
    }
  }

  /** Where a grant comes from. Over any run, a grant a host and name hold was put there by one
      operation that named it, and they held it at every point since: no unbinding, no drop and
      no replacement came in between. */
  lemma {:induction false} GrantProvenance(ops: seq<Op>, key: Key, g: Grant)
    requires Holds(After(ops), key, g)
    ensures exists i :: ComesFrom(ops, i, key, g)
  {
    var last := |ops| - 1;
    if Holds(After(ops[..last]), key, g) {
      GrantProvenance(ops[..last], key, g);
      var i :| ComesFrom(ops[..last], i, key, g);
      HeldLonger(ops, last, i, key, g);
    } else {
      JustPut(ops, last, key, g);
    }
  }

  lemma ApplyEdit(list: seq<Binding>, key: Key, edit: Edit, g: Grant)
    requires Independent(list)
    ensures Holds(Apply(list, EditGrants(key, edit)), key, g)
       <==> && Entry(list, key).Some?
            && (edit == Add(g) || (Holds(list, key, g) && edit != Drop(g)))
  {
    GrantsEditedShape(list, key, edit);
    SameShape(list, GrantsEdited(list, key, edit));
    EntryWritten(GrantsEdited(list, key, edit), key);
    GrantsEditedRefinesMap(list, key, edit, key);
    if Entry(list, key).Some? { EditPuts(Entry(list, key).value, edit, g); }
  }

  /** In any run, an added grant is held from then on if there is a binding to hold it, a
      dropped one is gone, and every other grant of that binding stays. */
  lemma EditedGrants(ops: seq<Op>, key: Key, edit: Edit, g: Grant)
    ensures Holds(After(ops + [EditGrants(key, edit)]), key, g)
       <==> && Entry(After(ops), key).Some?
            && (edit == Add(g) || (Holds(After(ops), key, g) && edit != Drop(g)))
  {
    assert (ops + [EditGrants(key, edit)])[..|ops|] == ops;
    RunsStayIndependent(ops);
    ApplyEdit(After(ops), key, edit, g);
  }

  // ----- commuting binds -----

  /** Binding b does not retire the entry a would inherit grants from. */
  predicate LeavesGrants(list: seq<Binding>, a: Binding, b: Binding) {
    var e := Entry(list, KeyOf(a));
    a.grants.Some? || e.None? || !Supersedes(b, e.value) || GrantsOf(e.value) == []
  }

  /** Stored lists hold no empty grant lists. */
  predicate IsWritten(list: seq<Binding>) { Written(list) == list }

  function BindBoth(list: seq<Binding>, a: Binding, b: Binding): seq<Binding> {
    Apply(Apply(list, Bind(a)), Bind(b))
  }

  /** The entry a leaves when it is bound before b. */
  function FirstEntry(list: seq<Binding>, a: Binding): Binding { Persisted(Inheriting(list, a)) }

  /** The entry a leaves when it is bound after b. */
  function SecondEntry(list: seq<Binding>, a: Binding, b: Binding): Binding {
    Persisted(Inheriting(Apply(list, Bind(b)), a))
  }

  lemma {:induction false} KeptAppend(list: seq<Binding>, last: Binding, next: Binding)
    ensures Kept(list + [last], next) == Kept(list, next) + (if Supersedes(next, last) then [] else [last])
  {
    if list == [] {
      assert list + [last] == [last] && [last][1..] == [];
    } else {
      assert (list + [last])[1..] == list[1..] + [last];
      KeptAppend(list[1..], last, next);
    }
  }

  lemma {:induction false} KeptCommutes(list: seq<Binding>, a: Binding, b: Binding)
    ensures Kept(Kept(list, a), b) == Kept(Kept(list, b), a)
  {
    if list != [] {
      KeptCommutes(list[1..], a, b);
      KeptCons(list[0], Kept(list[1..], a), b);
      KeptCons(list[0], Kept(list[1..], b), a);
      CatNil(Kept(list[1..], a));
      CatNil(Kept(list[1..], b));
    }
  }

  lemma KeptCons(head: Binding, tail: seq<Binding>, next: Binding)
    ensures Kept([head] + tail, next) == (if Supersedes(next, head) then [] else [head]) + Kept(tail, next)
  {
    assert ([head] + tail)[1..] == tail;
  }

  lemma KeptWritten(list: seq<Binding>, next: Binding)
    requires IsWritten(list)
    ensures IsWritten(Kept(list, next))
  {
    forall k | 0 <= k < |Kept(list, next)| ensures Persisted(Kept(list, next)[k]) == Kept(list, next)[k] {
      KeptAre(list, next, Kept(list, next)[k]);
      var i :| 0 <= i < |list| && list[i] == Kept(list, next)[k];
      assert Written(list)[i] == list[i];
    }
  }

  /** Binding on a stored list appends one entry to what is kept of it. */
  lemma BindAppends(list: seq<Binding>, next: Binding)
    requires IsWritten(list)
    ensures Apply(list, Bind(next)) == Kept(list, next) + [FirstEntry(list, next)]
    ensures IsWritten(Apply(list, Bind(next)))
  {
    KeptWritten(list, next);
    assert Written(Kept(list, next)) == Kept(list, next);
  }

  /** Two bindings that do not conflict leave the same rest of the list in both orders. */
  lemma BothBound(list: seq<Binding>, a: Binding, b: Binding)
    requires IsWritten(list) && !Supersedes(b, a)
    ensures BindBoth(list, a, b)
         == Kept(Kept(list, a), b) + [FirstEntry(list, a)] + [SecondEntry(list, b, a)]
  {
    BindAppends(list, a);
    BindAppends(Apply(list, Bind(a)), b);
    KeptAppend(Kept(list, a), FirstEntry(list, a), b);
    InheritingKeeps(list, a);
    assert Supersedes(b, FirstEntry(list, a)) == Supersedes(b, a);
  }

  lemma SameEntry(list: seq<Binding>, a: Binding, b: Binding)
    requires IsWritten(list) && Independent(list) && KeyOf(a) != KeyOf(b)
    ensures FirstEntry(list, a) == SecondEntry(list, a, b) <==> LeavesGrants(list, a, b)
  {
    var key := KeyOf(a);
    ApplyIndependent(list, Bind(b));
    InheritsFrom(list, a);
    InheritsFrom(Apply(list, Bind(b)), a);
    UpsertedIndependent(list, b);
    UpsertRefinesMap(list, b, key);
    EntryWritten(Upserted(list, b), key);
    EntryWritten(list, key);
  }

  lemma PairsDiffer(k: seq<Binding>, a: Binding, b: Binding, a': Binding, b': Binding)
    requires KeyOf(a) == KeyOf(a') && KeyOf(b) == KeyOf(b') && KeyOf(a) != KeyOf(b)
    ensures multiset(k + [a] + [b]) == multiset(k + [b'] + [a']) <==> a == a' && b == b'
  {
    var x, y := multiset(k + [a] + [b]), multiset(k + [b'] + [a']);
    assert x == multiset(k) + multiset{a, b} && y == multiset(k) + multiset{a', b'};
    if x == y {
      assert x[a] == multiset(k)[a] + multiset{a, b}[a] && y[a] == multiset(k)[a] + multiset{a', b'}[a];
      assert x[b] == multiset(k)[b] + multiset{a, b}[b] && y[b] == multiset(k)[b] + multiset{a', b'}[b];
    }
  }

  /** Two binds that do not conflict commute up to order exactly when neither retires an entry
      from which the other would inherit grants. */
  lemma BindsCommute(list: seq<Binding>, a: Binding, b: Binding)
    requires IsWritten(list) && Independent(list) && !Supersedes(a, b)
    ensures multiset(BindBoth(list, a, b)) == multiset(BindBoth(list, b, a))
       <==> LeavesGrants(list, a, b) && LeavesGrants(list, b, a)
  {
    SupersedesIsConflict(a, b);
    BothBound(list, a, b);
    BothBound(list, b, a);
    KeptCommutes(list, a, b);
    SameEntry(list, a, b);
    SameEntry(list, b, a);
    SameKeys(list, a, b);
    SameKeys(list, b, a);
    var a1, a2, b1, b2 := FirstEntry(list, a), SecondEntry(list, a, b), FirstEntry(list, b), SecondEntry(list, b, a);
    PairsDiffer(Kept(Kept(list, a), b), a1, b2, a2, b1);
  }

  lemma SameKeys(list: seq<Binding>, a: Binding, b: Binding)
    ensures KeyOf(FirstEntry(list, a)) == KeyOf(a) && KeyOf(SecondEntry(list, a, b)) == KeyOf(a)
  {
    InheritingKeeps(list, a);
    InheritingKeeps(Apply(list, Bind(b)), a);
  }

  /** So the claim that such binds always commute is false: a session whose pane another
      session takes over first comes back elsewhere without its grants. */
  lemma BindsNeedNotCommute()
    ensures exists list, a, b ::
              && IsWritten(list) && Independent(list) && !Supersedes(a, b)
              && multiset(BindBoth(list, a, b)) != multiset(BindBoth(list, b, a))
  {
    var e := Binding("row1", "pane1", "left", "host", "one", "", 0, Some([Grant("row9", "pane9", "consent")]));
    var a := Binding("row2", "pane2", "left", "host", "one", "", 0, None);
    var b := Binding("row1", "pane3", "left", "host", "two", "", 0, None);
    assert Written([e]) == [e];
    assert Entry([e], KeyOf(a)) == Some(e) && Supersedes(b, e);
    BindsCommute([e], a, b);
    assert IsWritten([e]) && Independent([e]) && !Supersedes(a, b);
  }
}
