/** The decision whether a host's call may run, from agterm's tree and the stored bindings. */
module Policy {
  import opened Results
  import opened Sequences
  import opened ArgGrammar
  import opened Tree
  import opened Allowlist
  import opened Calls
  import opened BindingStore
  import opened OpenCommand
  import Tokens

  /** What the policy takes from outside: UUID syntax, UTF-8 decoding, the Unicode category Cf,
      and the agents that may be typed to. Text is bytes, one character each. */
  datatype Setting = Setting(
    isUuid: string -> bool, decode: string -> Option<string>, isFormat: char -> bool, agents: seq<string>)

  datatype World = World(rows: seq<Row>, binds: seq<Binding>)

  /** What the host believes its own row and pane are called. */
  datatype Self = Self(row: string, paneId: string)

  /** One call to decide, after normalising and with the caller's binding as it is now. */
  datatype Ask = Ask(
    env: Setting, host: string, caller: Binding, self: Self, leaf: Leaf, n: Normal, stdin: string, w: World)

  datatype Decision =
    | Refuse
    | Allow(targets: seq<Target>, how: PaneBy, granted: bool)
    | NeedsConsent(targets: seq<Target>, how: PaneBy, text: string)

  const MAX_TYPED := 65536

  // ----- lookups -----

  /** The row an id names; a later row of the same id hides an earlier one. */
  function LastRow(rows: seq<Row>, id: string): (r: Option<Row>)
    ensures r.Some? ==> r.value in rows && Same(r.value.id, id)
  {
    if rows == [] then None
    else if Same(rows[|rows| - 1].id, id) then Some(rows[|rows| - 1])
    else LastRow(rows[..|rows| - 1], id)
  }

  /** The binding of a pane id, if any. */
  function LastBound(binds: seq<Binding>, paneId: string): (r: Option<Binding>)
    ensures r.Some? ==> r.value in binds && r.value.paneId != "" && Same(r.value.paneId, paneId)
    ensures r.None? ==> forall b :: b in binds && b.paneId != "" ==> !Same(b.paneId, paneId)
  {
    if binds == [] then None
    else
      var last := binds[|binds| - 1];
      if last.paneId != "" && Same(last.paneId, paneId) then Some(last) else LastBound(binds[..|binds| - 1], paneId)
  }

  function LastOfKind(surfaces: seq<Surface>, kind: string): (r: Option<Surface>)
    ensures r.Some? ==> r.value in surfaces && r.value.kind == kind
    ensures r.None? ==> forall s :: s in surfaces ==> s.kind != kind
  {
    if surfaces == [] then None
    else if surfaces[|surfaces| - 1].kind == kind then Some(surfaces[|surfaces| - 1])
    else LastOfKind(surfaces[..|surfaces| - 1], kind)
  }

  lemma {:induction false} PanesAre(surfaces: seq<Surface>, s: Surface)
    ensures s in PanesOf(surfaces) <==> s in surfaces && IsPane(s)
  {
    if surfaces != [] { PanesAre(surfaces[1..], s); }
  }

  // ----- loading -----

  predicate IsCaller(b: Binding, caller: Binding) {
    b.host == caller.host && b.name == caller.name && Same(b.row, caller.row) && Same(b.paneId, caller.paneId)
  }

  /** The caller's binding as it is now. */
  function Current(binds: seq<Binding>, caller: Binding): (r: Option<Binding>)
    ensures r.Some? ==> r.value in binds && IsCaller(r.value, caller)
    ensures r.None? <==> forall b :: b in binds ==> !IsCaller(b, caller)
  {
    if binds == [] then None else if IsCaller(binds[0], caller) then Some(binds[0]) else Current(binds[1..], caller)
  }

  /** The grant's row or pane no longer exists. */
  predicate Stale(rows: seq<Row>, g: Grant) {
    var row := LastRow(rows, g.row);
    row.None? || SurfaceById(row.value, g.paneId).None?
  }

  function StaleGrants(rows: seq<Row>, grants: seq<Grant>): seq<Grant> {
    if grants == [] then []
    else (if Stale(rows, grants[0]) then [grants[0]] else []) + StaleGrants(rows, grants[1..])
  }

  lemma {:induction false} StaleGrantsAre(rows: seq<Row>, grants: seq<Grant>, g: Grant)
    ensures g in StaleGrants(rows, grants) <==> g in grants && Stale(rows, g)
  {
    if grants != [] { StaleGrantsAre(rows, grants[1..], g); }
  }

  /** load: the caller's binding is looked up again, and its grants that lost their pane are
      listed for dropping. The call fails when the binding is gone. */
  method Load(w: World, caller: Binding) returns (current: Option<Binding>, drop: seq<Grant>)
    ensures current == Current(w.binds, caller)
    ensures current.None? <==> forall b :: b in w.binds ==>
              b.host != caller.host || b.name != caller.name || !Same(b.row, caller.row) || !Same(b.paneId, caller.paneId)
    ensures drop == if current.Some? then StaleGrants(w.rows, GrantsOf(current.value)) else []
  {
    drop := [];
    current := None;
    var i := 0;
    while i < |w.binds| && current.None?
      invariant 0 <= i <= |w.binds|
      invariant if current.Some? then current == Current(w.binds, caller)
                else Current(w.binds[i..], caller) == Current(w.binds, caller)
    {
      assert w.binds[i..][0] == w.binds[i] && w.binds[i..][1..] == w.binds[i + 1..];
      if IsCaller(w.binds[i], caller) {
        current := Some(w.binds[i]);
      }
      i := i + 1;
    }
    if current.None? {
      return;
    }
    var grants := GrantsOf(current.value);
    for k := 0 to |grants|
      invariant drop + StaleGrants(w.rows, grants[k..]) == StaleGrants(w.rows, grants)
    {
      assert grants[k..][0] == grants[k] && grants[k..][1..] == grants[k + 1..];
      if Stale(w.rows, grants[k]) {
        CatThree(drop, [grants[k]], StaleGrants(w.rows, grants[k + 1..]));
        drop := drop + [grants[k]];
      } else {
        CatNil(StaleGrants(w.rows, grants[k + 1..]));
      }
    }
    CatNil(drop);
  }

  // ----- rows and panes -----

  /** A --target value: the caller's row for nothing or the host's own name of it, else a full id. */
  function MapRow(a: Ask, raw: string): (r: Option<Row>)
    ensures r.Some? ==> r.value in a.w.rows
  {
    if raw == "" || (a.self.row != "" && Same(raw, a.self.row)) then LastRow(a.w.rows, a.caller.row)
    else if !a.env.isUuid(raw) then None
    else LastRow(a.w.rows, raw)
  }

  predicate IsCallerRow(a: Ask, row: Row) { Same(row.id, a.caller.row) }

  predicate HasRow(rows: seq<Row>, id: string) { exists k :: 0 <= k < |rows| && Same(rows[k].id, id) }

  function Raws(a: Ask): seq<string> { if a.n.rows == [] then [""] else a.n.rows }

  /** The rows the values name, each once, in the order first named. */
  function RowsFrom(a: Ask, raws: seq<string>, out: seq<Row>): Option<seq<Row>>
    decreases |raws|
  {
    if raws == [] then Some(out)
    else
      var row := MapRow(a, raws[0]);
      if row.None? then None
      else RowsFrom(a, raws[1..], if HasRow(out, row.value.id) then out else out + [row.value])
  }

  function TargetRows(a: Ask): Option<seq<Row>> { RowsFrom(a, Raws(a), []) }

  method FindTargetRows(a: Ask) returns (r: Option<seq<Row>>)
    ensures r == TargetRows(a)
  {
    var raws := Raws(a);
    var rows: seq<Row> := [];
    var seen: set<string> := {};
    for i := 0 to |raws|
      invariant RowsFrom(a, raws[i..], rows) == TargetRows(a)
      invariant forall id :: Fold(id) in seen <==> HasRow(rows, id)
    {
      assert raws[i..][0] == raws[i] && raws[i..][1..] == raws[i + 1..];
      var row := MapRow(a, raws[i]);
      if row.None? {
        return None;
      }
      if Fold(row.value.id) !in seen {
        HasRowSnoc(rows, row.value);
        seen := seen + {Fold(row.value.id)};
        rows := rows + [row.value];
      }
    }
    return Some(rows);
  }

  lemma HasRowSnoc(rows: seq<Row>, row: Row)
    ensures forall id :: HasRow(rows + [row], id) <==> HasRow(rows, id) || Same(row.id, id)
  {
    forall id ensures HasRow(rows + [row], id) <==> HasRow(rows, id) || Same(row.id, id) {
      if HasRow(rows, id) {
        var k :| 0 <= k < |rows| && Same(rows[k].id, id);
        assert Same((rows + [row])[k].id, id);
      }
      if Same(row.id, id) { assert Same((rows + [row])[|rows|].id, id); }
    }
  }

  /** The outcome of --pane-id and --pane. */
  datatype Requested = NotGiven | Wrong | Is(surface: Surface)

  function PaneByName(a: Ask, row: Row): (r: Requested)
    ensures r.Is? ==> r.surface in row.surfaces
  {
    if a.n.paneId == "" then NotGiven
    else
      var self := a.self.paneId != "" && Same(a.n.paneId, a.self.paneId);
      if !self && !a.env.isUuid(a.n.paneId) then Wrong
      else
        var found := SurfaceById(row, if self then a.caller.paneId else a.n.paneId);
        if found.None? then Wrong else Is(found.value)
  }

  function SideKind(side: string): string { if side == "right" || side == "split" then "right" else "left" }

  function RequestedPane(a: Ask, row: Row): (r: Requested) {
    var named := PaneByName(a, row);
    if named.Wrong? || a.n.side == "" then named
    else
      var found := LastOfKind(Panes(row), SideKind(a.n.side));
      if found.None? || (named.Is? && !Same(found.value.paneId, named.surface.paneId)) then Wrong
      else Is(found.value)
  }

  // ----- ownership -----

  /** The binding that makes a pane the host's: bound to the host in this row. */
  function OwnedBy(a: Ask, row: Row, s: Surface): Option<Binding> {
    var b := LastBound(a.w.binds, s.paneId);
    if b.Some? && b.value.host == a.host && Same(b.value.row, row.id) then b else None
  }

  /** The host's, and its agr open still runs there. */
  predicate Owned(a: Ask, row: Row, s: Surface) {
    OwnedBy(a, row, s).Some? && Attached(row, OwnedBy(a, row, s).value)
  }

  /** A split hidden across a restart has no pane until it is shown. */
  predicate Hidden(s: Surface) { s.paneId == "" && !s.visible }

  predicate HiddenOrOwned(a: Ask, row: Row, s: Surface) { Hidden(s) || Owned(a, row, s) }

  /** The whole row is the host's: panes only, every one of them owned or hidden, one at least owned. */
  ghost predicate WholeRow(a: Ask, row: Row) {
    && (forall s :: s in row.surfaces ==> IsPane(s) && HiddenOrOwned(a, row, s))
    && (exists s :: s in row.surfaces && !Hidden(s))
  }

  method OnlyPanes(surfaces: seq<Surface>) returns (ok: bool)
    ensures ok <==> forall s :: s in surfaces ==> IsPane(s)
  {
    for i := 0 to |surfaces|
      invariant forall k :: 0 <= k < i ==> IsPane(surfaces[k])
    {
      if !IsPane(surfaces[i]) {
        return false;
      }
    }
    return true;
  }

  /** The loop over the panes: it stops at one that is neither hidden nor owned. */
  method CountOwned(a: Ask, row: Row, list: seq<Surface>) returns (ok: bool, owned: nat)
    ensures ok <==> forall s :: s in list ==> HiddenOrOwned(a, row, s)
    ensures ok ==> (owned > 0 <==> exists s :: s in list && !Hidden(s))
  {
    hide Owned;
    owned := 0;
    for i := 0 to |list|
      invariant forall k :: 0 <= k < i ==> HiddenOrOwned(a, row, list[k])
      invariant owned > 0 <==> exists k :: 0 <= k < i && !Hidden(list[k])
    {
      if Hidden(list[i]) {
        continue;
      }
      if !HiddenOrOwned(a, row, list[i]) {
        return false, owned;
      }
      owned := owned + 1;
    }
    return true, owned;
  }

  /** wholeRowRefusal: no pane at all, a surface that is no pane, a pane that is not owned, or
      none that is owned. */
  method CheckWholeRow(a: Ask, row: Row) returns (ok: bool)
    ensures ok <==> WholeRow(a, row)
  {
    var list := Panes(row);
    forall s ensures s in list <==> s in row.surfaces && IsPane(s) { PanesAre(row.surfaces, s); }
    if list == [] {
      assert forall s :: s in row.surfaces ==> s !in list;
      return false;
    }
    var panes := OnlyPanes(row.surfaces);
    if !panes {
      return false;
    }
    var mine, owned := CountOwned(a, row, list);
    return mine && owned > 0;
  }

  // ----- typing into a pane the host does not own -----

  predicate AgentRunning(env: Setting, row: Row, kind: string) {
    var program := Foreground(row, kind);
    program.Some? && program.value.argv != [] && Tokens.Base(program.value.argv[0]) in env.agents
  }

  /** A control character: C0, DEL or C1. */
  predicate IsControl(c: char) { c < ' ' || '\U{7F}' <= c <= '\U{9F}' }

  predicate CharOk(env: Setting, c: char) { c == '\n' || c == '\t' || (!IsControl(c) && !env.isFormat(c)) }

  /** Valid UTF-8 of at most 64 KiB, with no control but newline and tab and nothing invisible. */
  predicate Clean(env: Setting, text: string) {
    && |text| <= MAX_TYPED && env.decode(text).Some?
    && forall k :: 0 <= k < |env.decode(text).value| ==> CharOk(env, env.decode(text).value[k])
  }

  method SanitizeTyped(env: Setting, text: string) returns (ok: bool)
    ensures ok <==> Clean(env, text)
  {
    if |text| > MAX_TYPED || env.decode(text).None? {
      return false;
    }
    var runes := env.decode(text).value;
    for i := 0 to |runes|
      invariant forall k :: 0 <= k < i ==> CharOk(env, runes[k])
    {
      if runes[i] == '\n' || runes[i] == '\t' {
        continue;
      }
      if IsControl(runes[i]) || env.isFormat(runes[i]) {
        return false;
      }
    }
    return true;
  }

  function TypeText(a: Ask): Option<string> {
    if a.n.stdin then if a.n.pos != [] then None else Some(a.stdin)
    else if |a.n.pos| == 1 then Some(a.n.pos[0]) else None
  }

  predicate Grants(grants: seq<Grant>, row: Row, s: Surface) {
    exists k :: 0 <= k < |grants| && Same(grants[k].row, row.id) && Same(grants[k].paneId, s.paneId)
  }

  /** The call could type into the pane if the user agreed: an unbound pane where an agent runs,
      and text that is clean. */
  predicate Typable(a: Ask, row: Row, s: Surface) {
    && a.leaf.typing && LastBound(a.w.binds, s.paneId).None? && AgentRunning(a.env, row, s.kind)
    && TypeText(a).Some? && Clean(a.env, TypeText(a).value)
  }

  function TypeLocal(a: Ask, row: Row, s: Surface, targets: seq<Target>, how: PaneBy): Decision {
    if LastBound(a.w.binds, s.paneId).Some? || !AgentRunning(a.env, row, s.kind) then Refuse
    else if TypeText(a).None? || !Clean(a.env, TypeText(a).value) then Refuse
    else if Grants(GrantsOf(a.caller), row, s) then Allow(targets, how, true)
    else NeedsConsent(targets, how, TypeText(a).value)
  }

  // ----- the three scopes -----

  predicate IsCandidate(a: Ask, row: Row, s: Surface) {
    || OwnedBy(a, row, s).Some?
    || (LastBound(a.w.binds, s.paneId).None? && a.leaf.typing && AgentRunning(a.env, row, s.kind))
  }

  function Candidates(a: Ask, row: Row, surfaces: seq<Surface>): seq<Surface> {
    if surfaces == [] then []
    else (if IsCandidate(a, row, surfaces[0]) then [surfaces[0]] else []) + Candidates(a, row, surfaces[1..])
  }

  /** The pane a pane call acts on: the one asked for, the caller's own, the only one, or the
      only candidate. */
  function ChoosePane(a: Ask, row: Row): Option<Surface> {
    var asked := RequestedPane(a, row);
    if asked.Wrong? then None
    else if asked.Is? then Some(asked.surface)
    else if IsCallerRow(a, row) then SurfaceById(row, a.caller.paneId)
    else if |Panes(row)| == 1 then Some(Panes(row)[0])
    else
      var candidates := Candidates(a, row, Panes(row));
      if |candidates| == 1 then Some(candidates[0]) else None
  }

  method FindPane(a: Ask, row: Row) returns (r: Option<Surface>)
    ensures r == ChoosePane(a, row)
  {
    var asked := RequestedPane(a, row);
    if asked.Wrong? {
      return None;
    }
    if asked.Is? {
      return Some(asked.surface);
    }
    if IsCallerRow(a, row) {
      return SurfaceById(row, a.caller.paneId);
    }
    var list := Panes(row);
    if |list| == 1 {
      return Some(list[0]);
    }
    var candidates: seq<Surface> := [];
    for i := 0 to |list|
      invariant candidates + Candidates(a, row, list[i..]) == Candidates(a, row, list)
    {
      assert list[i..][0] == list[i] && list[i..][1..] == list[i + 1..];
      if IsCandidate(a, row, list[i]) {
        CatThree(candidates, [list[i]], Candidates(a, row, list[i + 1..]));
        candidates := candidates + [list[i]];
      } else {
        CatNil(Candidates(a, row, list[i + 1..]));
      }
    }
    CatNil(candidates);
    return if |candidates| == 1 then Some(candidates[0]) else None;
  }

  ghost function PaneTarget(a: Ask, row: Row, s: Surface): Target {
    Target(row.id, s.paneId, if row.hasSplit && IsPane(s) then s.kind else "", a.leaf.overlay && WholeRow(a, row))
  }

  /** A value of a caller call names a row that is not the caller's. */
  ghost predicate RefusesRow(a: Ask) {
    exists k :: 0 <= k < |a.n.rows| && (MapRow(a, a.n.rows[k]).None? || !IsCallerRow(a, MapRow(a, a.n.rows[k]).value))
  }

  ghost function DecideCaller(a: Ask): Decision {
    var row := LastRow(a.w.rows, a.caller.row);
    if row.None? then Refuse
    else if RefusesRow(a) then Refuse
    else
      var s := SurfaceById(row.value, a.caller.paneId);
      if s.None? || !Owned(a, row.value, s.value) then Refuse
      else Allow([Target(row.value.id, "", "", false)], NoPane, false)
  }

  ghost function DecidePane(a: Ask): Decision {
    if TargetRows(a).None? || TargetRows(a).value == [] then Refuse
    else
      var row := TargetRows(a).value[0];
      var s := ChoosePane(a, row);
      if s.None? then Refuse
      else
        var targets, how := [PaneTarget(a, row, s.value)], if a.leaf.bySide then BySide else ById;
        var b := LastBound(a.w.binds, s.value.paneId);
        if b.Some? && b.value.host != a.host then Refuse
        else if OwnedBy(a, row, s.value).Some? then
          if Owned(a, row, s.value) then Allow(targets, how, false) else Refuse
        else if b.Some? || !a.leaf.typing then Refuse
        else TypeLocal(a, row, s.value, targets, how)
  }

  predicate AsksPane(a: Ask) { a.n.paneId != "" || a.n.side != "" }

  /** One row of a row call is the host's, and has the pane that was asked for, if any. */
  ghost predicate RowOk(a: Ask, row: Row) { WholeRow(a, row) && (AsksPane(a) ==> RequestedPane(a, row).Is?) }

  function RowTarget(a: Ask, row: Row): Target {
    var asked := RequestedPane(a, row);
    Target(row.id, if AsksPane(a) && asked.Is? then asked.surface.paneId else "", "", false)
  }

  function RowTargets(a: Ask, rows: seq<Row>): (t: seq<Target>)
    ensures |t| == |rows| && forall k :: 0 <= k < |t| ==> t[k] == RowTarget(a, rows[k])
  {
    seq(|rows|, k requires 0 <= k < |rows| => RowTarget(a, rows[k]))
  }

  ghost function DecideRow(a: Ask): Decision {
    var rows := TargetRows(a);
    if rows.None? then Refuse
    else if exists k :: 0 <= k < |rows.value| && !RowOk(a, rows.value[k]) then Refuse
    else Allow(RowTargets(a, rows.value), if AsksPane(a) then ById else NoPane, false)
  }

  ghost function Decide(a: Ask): Decision {
    match a.leaf.scope
    case NoScope => Allow([], NoPane, false)
    case CallerScope => DecideCaller(a)
    case PaneScope => DecidePane(a)
    case RowScope => DecideRow(a)
  }

  /** The decision as the code reaches it: a verdict, and a call whose fields are filled on the way. */
  datatype Verdict = Refused | Allowed | Asks(text: string)

  class Authz {
    const a: Ask
    var targets: seq<Target>
    var how: PaneBy
    var granted: bool

    constructor (a: Ask)
      ensures this.a == a && targets == [] && how == NoPane && !granted
    {
      this.a := a;
      targets, how, granted := [], NoPane, false;
    }

    ghost function Made(v: Verdict): Decision
      reads this
    {
      match v
      case Refused => Refuse
      case Allowed => Allow(targets, how, granted)
      case Asks(text) => NeedsConsent(targets, how, text)
    }

    method RunCaller() returns (v: Verdict)
      requires targets == [] && how == NoPane && !granted
      modifies this
      ensures Made(v) == DecideCaller(a)
    {
      var row := LastRow(a.w.rows, a.caller.row);
      if row.None? {
        return Refused;
      }
      for k := 0 to |a.n.rows|
        invariant forall i :: 0 <= i < k ==>
                    MapRow(a, a.n.rows[i]).Some? && IsCallerRow(a, MapRow(a, a.n.rows[i]).value)
      {
        var mapped := MapRow(a, a.n.rows[k]);
        if mapped.None? || !IsCallerRow(a, mapped.value) {
          return Refused;
        }
      }
      var s := SurfaceById(row.value, a.caller.paneId);
      if s.None? || !Owned(a, row.value, s.value) {
        return Refused;
      }
      targets := [Target(row.value.id, "", "", false)];
      return Allowed;
    }

    method RunTypeLocal(row: Row, s: Surface) returns (v: Verdict)
      requires !granted
      modifies this`granted
      ensures Made(v) == TypeLocal(a, row, s, targets, how)
    {
      if LastBound(a.w.binds, s.paneId).Some? || !AgentRunning(a.env, row, s.kind) {
        return Refused;
      }
      var text := TypeText(a);
      if text.None? {
        return Refused;
      }
      var clean := SanitizeTyped(a.env, text.value);
      if !clean {
        return Refused;
      }
      var grants := GrantsOf(a.caller);
      for k := 0 to |grants|
        invariant !granted
        invariant forall i :: 0 <= i < k ==> !(Same(grants[i].row, row.id) && Same(grants[i].paneId, s.paneId))
      {
        if Same(grants[k].row, row.id) && Same(grants[k].paneId, s.paneId) {
          granted := true;
          return Allowed;
        }
      }
      return Asks(text.value);
    }

    method RunPane() returns (v: Verdict)
      requires targets == [] && how == NoPane && !granted
      modifies this
      ensures Made(v) == DecidePane(a)
    {
      hide WholeRow, Owned, OwnedBy, LastBound, ChoosePane, TargetRows, AgentRunning, Clean, Grants;
      var rows := FindTargetRows(a);
      if rows.None? || rows.value == [] {
        return Refused;
      }
      var row := rows.value[0];
      var s := FindPane(a, row);
      if s.None? {
        return Refused;
      }
      how := if a.leaf.bySide then BySide else ById;
      var whole := false;
      if a.leaf.overlay {
        whole := CheckWholeRow(a, row);
      }
      targets := [Target(row.id, s.value.paneId, if row.hasSplit && IsPane(s.value) then s.value.kind else "", whole)];
      var b := LastBound(a.w.binds, s.value.paneId);
      if b.Some? && b.value.host != a.host {
        return Refused;
      }
      if OwnedBy(a, row, s.value).Some? {
        return if Owned(a, row, s.value) then Allowed else Refused;
      }
      if b.Some? || !a.leaf.typing {
        return Refused;
      }
      v := RunTypeLocal(row, s.value);
    }

    /** One row of a row call: checked, then appended to the call's targets. */
    method AddRow(row: Row) returns (ok: bool)
      modifies this`targets, this`how
      ensures ok <==> RowOk(a, row)
      ensures ok ==> targets == old(targets) + [RowTarget(a, row)]
      ensures ok ==> how == if AsksPane(a) then ById else old(how)
    {
      var whole := CheckWholeRow(a, row);
      if !whole {
        return false;
      }
      var target := Target(row.id, "", "", false);
      if AsksPane(a) {
        var asked := RequestedPane(a, row);
        if !asked.Is? {
          return false;
        }
        target := target.(paneId := asked.surface.paneId);
        how := ById;
      }
      targets := targets + [target];
      return true;
    }

    method RunRow() returns (v: Verdict)
      requires targets == [] && how == NoPane && !granted
      modifies this`targets, this`how
      ensures Made(v) == DecideRow(a)
    {
      var rows := FindTargetRows(a);
      if rows.None? {
        return Refused;
      }
      TargetRowsSome(a);
      var list := rows.value;
      ghost var wanted := RowTargets(a, list);
      for k := 0 to |list|
        invariant targets == wanted[..k]
        invariant how == if k > 0 && AsksPane(a) then ById else NoPane
        invariant forall i :: 0 <= i < k ==> RowOk(a, list[i])
      {
        var ok := AddRow(list[k]);
        if !ok {
          return Refused;
        }
        TakeNext(wanted, k);
      }
      TakeAll(wanted);
      return Allowed;
    }

    method Run() returns (v: Verdict)
      requires targets == [] && how == NoPane && !granted
      modifies this
      ensures Made(v) == Decide(a)
    {
      match a.leaf.scope {
        case NoScope => v := Allowed;
        case CallerScope => v := RunCaller();
        case PaneScope => v := RunPane();
        case RowScope => v := RunRow();
      }
    }
  }

  // ----- what the helpers deliver -----

  /** Rows named once each, all of them live. */
  lemma {:induction false} RowsFromAre(a: Ask, raws: seq<string>, out: seq<Row>)
    requires RowsFrom(a, raws, out).Some?
    requires forall k :: 0 <= k < |out| ==> out[k] in a.w.rows
    requires forall i, j :: 0 <= i < j < |out| ==> !Same(out[i].id, out[j].id)
    ensures var rows := RowsFrom(a, raws, out).value;
            && out <= rows && (raws != [] ==> rows != [])
            && |rows| <= |out| + |raws|
            && (forall k :: 0 <= k < |rows| ==> rows[k] in a.w.rows)
            && (forall i, j :: 0 <= i < j < |rows| ==> !Same(rows[i].id, rows[j].id))
            && (forall k :: 0 <= k < |raws| ==> MapRow(a, raws[k]).Some? && HasRow(rows, MapRow(a, raws[k]).value.id))
    decreases |raws|
  {
    if raws != [] {
      var row := MapRow(a, raws[0]).value;
      var next := if HasRow(out, row.id) then out else out + [row];
      HasRowSnoc(out, row);
      RowsFromAre(a, raws[1..], next);
      var rows := RowsFrom(a, raws, out).value;
      HasRowPrefix(next, rows, row.id);
      forall k | 0 <= k < |raws| ensures MapRow(a, raws[k]).Some? && HasRow(rows, MapRow(a, raws[k]).value.id) {
        if k > 0 { assert raws[k] == raws[1..][k - 1]; }
      }
    }
  }

  lemma HasRowPrefix(a: seq<Row>, b: seq<Row>, id: string)
    requires a <= b && HasRow(a, id)
    ensures HasRow(b, id)
  {
    var k :| 0 <= k < |a| && Same(a[k].id, id);
    assert b[k] == a[k];
  }

  lemma {:induction false} SameRow(rows: seq<Row>, x: string, y: string)
    requires Same(x, y)
    ensures LastRow(rows, x) == LastRow(rows, y)
  {
    if rows != [] { SameRow(rows[..|rows| - 1], x, y); }
  }

  /** The rows are those the values map to, and there are none exactly when a value maps to none. */
  lemma {:induction false} RowsNamed(a: Ask, raws: seq<string>, out: seq<Row>)
    requires forall row :: row in out ==> LastRow(a.w.rows, row.id) == Some(row)
    ensures RowsFrom(a, raws, out).Some? <==> forall raw :: raw in raws ==> MapRow(a, raw).Some?
    ensures RowsFrom(a, raws, out).Some? ==>
              forall row :: row in RowsFrom(a, raws, out).value <==>
                row in out || exists raw :: raw in raws && MapRow(a, raw) == Some(row)
    decreases |raws|
  {
    hide MapRow;
    if raws != [] {
      assert forall raw :: raw in raws <==> raw == raws[0] || raw in raws[1..];
      if MapRow(a, raws[0]).Some? {
        var row := MapRow(a, raws[0]).value;
        MappedIsLast(a, raws[0]);
        if HasRow(out, row.id) {
          var k :| 0 <= k < |out| && Same(out[k].id, row.id);
          SameRow(a.w.rows, out[k].id, row.id);
          assert row in out;
          RowsNamed(a, raws[1..], out);
        } else {
          RowsNamed(a, raws[1..], out + [row]);
        }
      }
    }
  }

  lemma MappedIsLast(a: Ask, raw: string)
    requires MapRow(a, raw).Some?
    ensures LastRow(a.w.rows, MapRow(a, raw).value.id) == MapRow(a, raw)
  {
    var id := if raw == "" || (a.self.row != "" && Same(raw, a.self.row)) then a.caller.row else raw;
    SameRow(a.w.rows, id, MapRow(a, raw).value.id);
  }

  /** There is always a first target row, and no row is targeted twice. */
  lemma TargetRowsSome(a: Ask)
    requires TargetRows(a).Some?
    ensures var rows := TargetRows(a).value;
            && rows != [] && |rows| <= |Raws(a)|
            && (forall k :: 0 <= k < |rows| ==> rows[k] in a.w.rows)
            && (forall i, j :: 0 <= i < j < |rows| ==> !Same(rows[i].id, rows[j].id))
  {
    RowsFromAre(a, Raws(a), []);
  }

  lemma {:induction false} CandidatesAre(a: Ask, row: Row, surfaces: seq<Surface>, s: Surface)
    ensures s in Candidates(a, row, surfaces) <==> s in surfaces && IsCandidate(a, row, s)
  {
    if surfaces != [] { CandidatesAre(a, row, surfaces[1..], s); }
  }

  /** The id a --pane-id value stands for. */
  function MeantId(a: Ask): string {
    if a.self.paneId != "" && Same(a.n.paneId, a.self.paneId) then a.caller.paneId else a.n.paneId
  }

  /** A requested pane is in the row and is the one named. */
  lemma RequestedIs(a: Ask, row: Row)
    requires RequestedPane(a, row).Is?
    ensures var s := RequestedPane(a, row).surface;
            && s in row.surfaces && (a.n.paneId != "" ==> Same(s.paneId, MeantId(a)))
            && (a.n.side != "" ==> s.kind == SideKind(a.n.side)) && AsksPane(a)
  {
    PanesAre(row.surfaces, RequestedPane(a, row).surface);
  }

  lemma OnlyCandidate(a: Ask, row: Row, s: Surface, x: Surface)
    requires Candidates(a, row, Panes(row)) == [s] && x in row.surfaces && IsPane(x) && x != s
    ensures !IsCandidate(a, row, x)
  {
    hide IsCandidate;
    PanesAre(row.surfaces, x);
    CandidatesAre(a, row, Panes(row), x);
  }

  lemma CandidateIsPane(a: Ask, row: Row, s: Surface)
    requires Candidates(a, row, Panes(row)) == [s]
    ensures s in row.surfaces && IsPane(s)
  {
    hide IsCandidate;
    CandidatesAre(a, row, Panes(row), s);
    PanesAre(row.surfaces, s);
  }

  lemma OnlyPane(row: Row, s: Surface)
    requires Panes(row) == [s]
    ensures s in row.surfaces && IsPane(s) && forall x :: x in row.surfaces && IsPane(x) ==> x == s
  {
    PanesAre(row.surfaces, s);
    forall x | x in row.surfaces && IsPane(x) ensures x == s { PanesAre(row.surfaces, x); }
  }

  /** The pane chosen is in the row and is the one named; without a name it is the caller's in the
      caller's row, and elsewhere the only pane or the only one the call could act on. */
  lemma ChosenPane(a: Ask, row: Row, s: Surface)
    requires ChoosePane(a, row) == Some(s)
    ensures s in row.surfaces
    ensures a.n.paneId != "" ==> Same(s.paneId, MeantId(a))
    ensures a.n.side == "right" || a.n.side == "split" ==> s.kind == "right"
    ensures a.n.side != "" && a.n.side != "right" && a.n.side != "split" ==> s.kind == "left"
    ensures !AsksPane(a) && IsCallerRow(a, row) ==> Same(s.paneId, a.caller.paneId)
    ensures !AsksPane(a) && !IsCallerRow(a, row) ==>
              IsPane(s) && forall x :: x in row.surfaces && IsPane(x) && x != s ==> |Panes(row)| > 1 && !IsCandidate(a, row, x)
  {
    hide IsCandidate, MeantId;
    if RequestedPane(a, row).Is? {
      RequestedIs(a, row);
    } else if !IsCallerRow(a, row) {
      if |Panes(row)| == 1 {
        OnlyPane(row, s);
      } else {
        CandidateIsPane(a, row, s);
        forall x | x in row.surfaces && IsPane(x) && x != s ensures |Panes(row)| > 1 && !IsCandidate(a, row, x) {
          OnlyCandidate(a, row, s, x);
          PanesAre(row.surfaces, x);
        }
      }
    }
  }

  // ----- the contract of each scope -----

  /** The row and pane a pane call is about. */
  predicate Chosen(a: Ask, row: Row, s: Surface) {
    && TargetRows(a).Some? && TargetRows(a).value != [] && row == TargetRows(a).value[0]
    && ChoosePane(a, row) == Some(s)
  }

  /** A pane call runs exactly when the pane it is about is the host's and attached, or it types
      clean text into an unbound agent pane under a current grant of the caller; the user is asked
      exactly when only the grant is missing; and the call acts on that pane alone. */
  lemma PaneContract(a: Ask, row: Row, s: Surface)
    requires a.leaf.scope == PaneScope && Chosen(a, row, s)
    ensures var granted := Typable(a, row, s) && Grants(GrantsOf(a.caller), row, s);
            && (Decide(a).Allow? <==> Owned(a, row, s) || granted)
            && (Decide(a).Allow? ==> Decide(a).granted == granted && Decide(a).targets == [PaneTarget(a, row, s)])
            && (Decide(a).NeedsConsent? <==> Typable(a, row, s) && !granted)
            && (Decide(a).NeedsConsent? ==> Decide(a).text == TypeText(a).value && Decide(a).targets == [PaneTarget(a, row, s)])
  {}

  /** The text a typing call carries: the stdin if that was asked for and nothing else is given, else
      the one positional. */
  predicate Carries(a: Ask, text: string) {
    (a.n.stdin && a.n.pos == [] && text == a.stdin) || (!a.n.stdin && a.n.pos == [text])
  }

  /** No control character but newline and tab, nothing invisible, valid and not too long. */
  predicate Harmless(env: Setting, text: string) {
    && |text| <= 65536 && env.decode(text).Some?
    && forall c :: c in env.decode(text).value ==>
         c == '\n' || c == '\t' || (c >= ' ' && !('\U{7F}' <= c <= '\U{9F}') && !env.isFormat(c))
  }

  /** An agent runs in the surface: the program of that very side. */
  predicate RunsAgent(env: Setting, row: Row, s: Surface) {
    || (s.kind == "left" && row.foreground != [] && Tokens.Base(row.foreground[0]) in env.agents)
    || (s.kind == "right" && row.hasSplit && row.splitForeground != [] && Tokens.Base(row.splitForeground[0]) in env.agents)
  }

  /** What is typed into a pane that is not the host's: the call names text in exactly one way, that
      very text is harmless and is what the user is shown, and an agent runs in the pane, which no
      binding claims. */
  lemma TypedTextIsVetted(a: Ask, row: Row, s: Surface)
    requires a.leaf.scope == PaneScope && Chosen(a, row, s) && !Owned(a, row, s)
    ensures !Decide(a).Refuse? <==>
              && a.leaf.typing && RunsAgent(a.env, row, s)
              && (forall b :: b in a.w.binds && b.paneId != "" ==> !Same(b.paneId, s.paneId))
              && exists text :: Carries(a, text) && Harmless(a.env, text)
    ensures Decide(a).NeedsConsent? ==> Carries(a, Decide(a).text) && Harmless(a.env, Decide(a).text)
  {
    hide Owned;
    PaneContract(a, row, s);
    if TypeText(a).Some? { HarmlessIs(a.env, TypeText(a).value); }
    forall text ensures Carries(a, text) <==> TypeText(a) == Some(text) {}
    AgentIs(a.env, row, s);
  }

  lemma AgentIs(env: Setting, row: Row, s: Surface)
    ensures AgentRunning(env, row, s.kind) <==> RunsAgent(env, row, s)
  {}

  lemma HarmlessIs(env: Setting, text: string)
    ensures Clean(env, text) <==> Harmless(env, text)
  {
    if env.decode(text).Some? {
      var runes := env.decode(text).value;
      if Clean(env, text) {
        forall c | c in runes ensures CharOk(env, c) { var k :| 0 <= k < |runes| && runes[k] == c; }
      }
      if Harmless(env, text) {
        forall k | 0 <= k < |runes| ensures CharOk(env, runes[k]) { assert runes[k] in runes; }
      }
    }
  }

  // ----- the tree and the bindings behind the lookups -----

  /** x is at a place of s behind which nothing satisfies p. */
  ghost predicate IsLast<T(!new)>(s: seq<T>, p: T -> bool, x: T) {
    exists k :: 0 <= k < |s| && s[k] == x && p(x) && forall j :: k < j < |s| ==> !p(s[j])
  }

  lemma LastSnoc<T(!new)>(s: seq<T>, y: T, p: T -> bool, x: T)
    ensures IsLast(s + [y], p, x) <==> if p(y) then x == y else IsLast(s, p, x)
  {
    var t := s + [y];
    assert t[|s|] == y;
    if !p(y) {
      if IsLast(s, p, x) {
        var k :| 0 <= k < |s| && s[k] == x && p(x) && forall j :: k < j < |s| ==> !p(s[j]);
        assert t[k] == x;
      }
      if IsLast(t, p, x) {
        var k :| 0 <= k < |t| && t[k] == x && p(x) && forall j :: k < j < |t| ==> !p(t[j]);
        assert s[k] == x;
        assert forall j :: k < j < |s| ==> t[j] == s[j];
      }
    }
  }

  function WithId(id: string): Row -> bool { (r: Row) => Same(r.id, id) }

  function WithPane(id: string): Binding -> bool { (b: Binding) => b.paneId != "" && Same(b.paneId, id) }

  function WithKind(kind: string): Surface -> bool { (s: Surface) => s.kind == kind }

  lemma {:induction false} LastRowIs(rows: seq<Row>, id: string, row: Row)
    ensures LastRow(rows, id) == Some(row) <==> IsLast(rows, WithId(id), row)
  {
    if rows != [] {
      var n := |rows| - 1;
      assert rows == rows[..n] + [rows[n]];
      LastSnoc(rows[..n], rows[n], WithId(id), row);
      LastRowIs(rows[..n], id, row);
    }
  }

  lemma {:induction false} LastBoundIs(binds: seq<Binding>, id: string, b: Binding)
    ensures LastBound(binds, id) == Some(b) <==> IsLast(binds, WithPane(id), b)
  {
    if binds != [] {
      var n := |binds| - 1;
      assert binds == binds[..n] + [binds[n]];
      LastSnoc(binds[..n], binds[n], WithPane(id), b);
      LastBoundIs(binds[..n], id, b);
    }
  }

  lemma {:induction false} LastKindIs(surfaces: seq<Surface>, kind: string, s: Surface)
    ensures LastOfKind(surfaces, kind) == Some(s) <==> IsLast(surfaces, WithKind(kind), s)
  {
    if surfaces != [] {
      var n := |surfaces| - 1;
      assert surfaces == surfaces[..n] + [surfaces[n]];
      LastSnoc(surfaces[..n], surfaces[n], WithKind(kind), s);
      LastKindIs(surfaces[..n], kind, s);
    }
  }

  /** The pane is bound to the host in this row, and agr open runs in it for that binding. */
  ghost predicate HostsPane(a: Ask, row: Row, s: Surface) {
    exists b :: IsLast(a.w.binds, WithPane(s.paneId), b) && b.host == a.host && Same(b.row, row.id) && Attached(row, b)
  }

  lemma OwnedHosts(a: Ask, row: Row, s: Surface)
    ensures Owned(a, row, s) <==> HostsPane(a, row, s)
  {
    if LastBound(a.w.binds, s.paneId).Some? {
      LastBoundIs(a.w.binds, s.paneId, LastBound(a.w.binds, s.paneId).value);
    }
    if HostsPane(a, row, s) {
      var b :| IsLast(a.w.binds, WithPane(s.paneId), b) && b.host == a.host && Same(b.row, row.id) && Attached(row, b);
      LastBoundIs(a.w.binds, s.paneId, b);
    }
  }

  /** What a call that names no pane may be about: a pane the host has a binding for in this row, or, if
      the call types, one that no binding claims and an agent runs in. */
  lemma CandidateIs(a: Ask, row: Row, s: Surface)
    ensures IsCandidate(a, row, s) <==>
              || (exists b :: IsLast(a.w.binds, WithPane(s.paneId), b) && b.host == a.host && Same(b.row, row.id))
              || (&& a.leaf.typing && RunsAgent(a.env, row, s)
                  && forall b :: b in a.w.binds && b.paneId != "" ==> !Same(b.paneId, s.paneId))
  {
    AgentIs(a.env, row, s);
    hide AgentRunning, RunsAgent;
    forall b ensures LastBound(a.w.binds, s.paneId) == Some(b) <==> IsLast(a.w.binds, WithPane(s.paneId), b) {
      LastBoundIs(a.w.binds, s.paneId, b);
    }
  }

  /** A --target value means this live row: the caller's own, under nothing or the host's name for
      it, or the one with that id. */
  ghost predicate Names(a: Ask, raw: string, row: Row) {
    if raw == "" || (a.self.row != "" && Same(raw, a.self.row)) then IsLast(a.w.rows, WithId(a.caller.row), row)
    else a.env.isUuid(raw) && IsLast(a.w.rows, WithId(raw), row)
  }

  lemma MapRowNames(a: Ask, raw: string, row: Row)
    ensures MapRow(a, raw) == Some(row) <==> Names(a, raw, row)
  {
    LastRowIs(a.w.rows, a.caller.row, row);
    LastRowIs(a.w.rows, raw, row);
  }

  /** The pane is both the named one and on the named side, where they are given. */
  ghost predicate Asked(a: Ask, row: Row, s: Surface) {
    && s in row.surfaces
    && (a.n.paneId != "" ==> Same(s.paneId, MeantId(a)) && NamesPane(a))
    && (a.n.side != "" ==> IsLast(Panes(row), WithKind(SideKind(a.n.side)), s))
  }

  ghost predicate HasAsked(a: Ask, row: Row) { exists s :: Asked(a, row, s) }

  /** A pane is named by the host's own name for its pane, or by a full id. */
  predicate NamesPane(a: Ask) { (a.self.paneId != "" && Same(a.n.paneId, a.self.paneId)) || a.env.isUuid(a.n.paneId) }

  lemma AskedIs(a: Ask, row: Row)
    requires AsksPane(a)
    ensures RequestedPane(a, row).Is? <==> HasAsked(a, row)
    ensures RequestedPane(a, row).Is? ==> Asked(a, row, RequestedPane(a, row).surface)
  {
    hide SideKind;
    var kind := SideKind(a.n.side);
    if RequestedPane(a, row).Is? {
      var s := RequestedPane(a, row).surface;
      RequestedIs(a, row);
      LastKindIs(Panes(row), kind, s);
      assert Asked(a, row, s);
    }
    if HasAsked(a, row) {
      var s :| Asked(a, row, s);
      LastKindIs(Panes(row), kind, s);
      var k :| 0 <= k < |row.surfaces| && row.surfaces[k] == s;
    }
  }

  // ----- when a call runs -----

  /** The binding holds a grant for a pane of a row. */
  ghost predicate HasGrant(b: Binding, row: Row, s: Surface) {
    exists g :: g in GrantsOf(b) && Same(g.row, row.id) && Same(g.paneId, s.paneId)
  }

  lemma GrantsHas(b: Binding, row: Row, s: Surface)
    ensures Grants(GrantsOf(b), row, s) <==> HasGrant(b, row, s)
  {
    if k :| 0 <= k < |GrantsOf(b)| && Same(GrantsOf(b)[k].row, row.id) && Same(GrantsOf(b)[k].paneId, s.paneId) {
      assert GrantsOf(b)[k] in GrantsOf(b);
    }
  }

  /** Without a row and a pane to be about, a pane call is refused. */
  lemma NoPaneRefused(a: Ask)
    requires a.leaf.scope == PaneScope && forall row, s :: !Chosen(a, row, s)
    ensures Decide(a).Refuse?
  {
    if TargetRows(a).Some? && TargetRows(a).value != [] && ChoosePane(a, TargetRows(a).value[0]).Some? {
      assert Chosen(a, TargetRows(a).value[0], ChoosePane(a, TargetRows(a).value[0]).value);
    }
  }

  /** A pane call runs if and only if it is about a pane that the host's binding and its agr open
      make its own, or that the caller may type into under a grant. */
  lemma PaneCallRuns(a: Ask)
    requires a.leaf.scope == PaneScope
    ensures Decide(a).Allow? <==>
              exists row, s :: && Chosen(a, row, s)
                               && (HostsPane(a, row, s) || (Typable(a, row, s) && HasGrant(a.caller, row, s)))
  {
    if row, s :| Chosen(a, row, s) {
      GrantsHas(a.caller, row, s);
      PaneContract(a, row, s);
      OwnedHosts(a, row, s);
    } else {
      NoPaneRefused(a);
    }
  }

  /** The row is the host's: panes only, each hidden or hosted, one at least hosted. */
  ghost predicate HostsRow(a: Ask, row: Row) {
    && (forall s :: s in row.surfaces ==>
          s.kind in {"left", "right"} && ((s.paneId == "" && !s.visible) || HostsPane(a, row, s)))
    && (exists s :: s in row.surfaces && HostsPane(a, row, s))
  }

  lemma HostedHasId(a: Ask, row: Row, s: Surface)
    ensures HostsPane(a, row, s) ==> s.paneId != ""
  {
    assert |Fold(s.paneId)| == |s.paneId|;
  }

  lemma WholeRowHosts(a: Ask, row: Row)
    ensures WholeRow(a, row) <==> HostsRow(a, row)
  {
    hide Attached, IsLast;
    forall s ensures Owned(a, row, s) <==> HostsPane(a, row, s) { OwnedHosts(a, row, s); }
    forall s ensures HostsPane(a, row, s) ==> s.paneId != "" { HostedHasId(a, row, s); }
  }

  /** A value of the call means this row. */
  ghost predicate Named(a: Ask, row: Row) { exists raw :: raw in Raws(a) && Names(a, raw, row) }

  ghost predicate IsTarget(targets: seq<Target>, row: Row) { exists t :: t in targets && t.row == row.id }

  /** The target is the row, and in it the pane asked for, if one is. */
  ghost predicate Targets(a: Ask, t: Target, row: Row) {
    && t.row == row.id && t.side == "" && !t.wholeRow
    && if AsksPane(a) then exists s :: Asked(a, row, s) && t.paneId == s.paneId else t.paneId == ""
  }

  /** The targets are the rows named, each once, in each of them the pane asked for. */
  ghost predicate Once(a: Ask, targets: seq<Target>) {
    && (forall row :: Named(a, row) ==> IsTarget(targets, row))
    && (forall t :: t in targets ==> exists row :: Named(a, row) && Targets(a, t, row))
    && (forall i, j :: 0 <= i < j < |targets| ==> !Same(targets[i].row, targets[j].row))
  }

  lemma TargetRowsNamed(a: Ask)
    ensures TargetRows(a).Some? <==> forall raw :: raw in Raws(a) ==> exists row :: Names(a, raw, row)
    ensures TargetRows(a).Some? ==> forall row :: row in TargetRows(a).value <==> Named(a, row)
  {
    hide MapRow, Names, Raws;
    RowsNamed(a, Raws(a), []);
    forall raw, row ensures MapRow(a, raw) == Some(row) <==> Names(a, raw, row) { MapRowNames(a, raw, row); }
    forall raw ensures MapRow(a, raw).Some? <==> exists row :: Names(a, raw, row) {
      if MapRow(a, raw).Some? { assert Names(a, raw, MapRow(a, raw).value); }
    }
  }

  lemma RowTargetsOnce(a: Ask)
    requires TargetRows(a).Some? && forall row :: row in TargetRows(a).value ==> RowOk(a, row)
    ensures Once(a, RowTargets(a, TargetRows(a).value))
  {
    hide TargetRows, RowTarget, Named, RowOk, Targets;
    var rows := TargetRows(a).value;
    var targets := RowTargets(a, rows);
    TargetRowsSome(a);
    TargetRowsNamed(a);
    forall k | 0 <= k < |rows| ensures targets[k].row == rows[k].id && Targets(a, targets[k], rows[k]) {
      assert RowOk(a, rows[k]);
      RowTargetIs(a, rows[k]);
    }
    forall row | Named(a, row) ensures IsTarget(targets, row) {
      var k :| 0 <= k < |rows| && rows[k] == row;
      assert targets[k] in targets;
    }
    forall t | t in targets ensures exists row :: Named(a, row) && Targets(a, t, row) {
      var k :| 0 <= k < |targets| && targets[k] == t;
      assert rows[k] in rows;
    }
  }

  lemma RowTargetIs(a: Ask, row: Row)
    requires RowOk(a, row)
    ensures RowTarget(a, row).row == row.id && Targets(a, RowTarget(a, row), row)
  {
    hide WholeRow, RequestedPane, Asked;
    if AsksPane(a) { AskedIs(a, row); }
  }

  lemma RowOkHosts(a: Ask, row: Row)
    ensures RowOk(a, row) <==> HostsRow(a, row) && (AsksPane(a) ==> HasAsked(a, row))
  {
    hide WholeRow, HostsRow, RequestedPane, HasAsked;
    WholeRowHosts(a, row);
    if AsksPane(a) { AskedIs(a, row); }
  }

  /** A row call runs if and only if every value given names a live row, and every row named is the
      host's and has the pane asked for; it acts on those rows, each once, and there on the pane asked for. */
  lemma RowContract(a: Ask)
    requires a.leaf.scope == RowScope
    ensures Decide(a).Allow? <==>
              && (forall raw :: raw in Raws(a) ==> exists row :: Names(a, raw, row))
              && (forall row :: Named(a, row) ==> HostsRow(a, row) && (AsksPane(a) ==> HasAsked(a, row)))
    ensures Decide(a).Allow? ==> Once(a, Decide(a).targets)
    ensures !Decide(a).NeedsConsent?
  {
    hide TargetRows, RowOk, Named, Names, HostsRow, HasAsked, Once, RowTargets, AsksPane;
    TargetRowsNamed(a);
    forall row ensures RowOk(a, row) <==> HostsRow(a, row) && (AsksPane(a) ==> HasAsked(a, row)) { RowOkHosts(a, row); }
    if TargetRows(a).Some? {
      var rows := TargetRows(a).value;
      assert forall row :: row in rows <==> exists k :: 0 <= k < |rows| && rows[k] == row;
      if forall row :: row in rows ==> RowOk(a, row) { RowTargetsOnce(a); }
    }
  }

  /** A caller call runs if and only if the caller's row is live and holds the caller's own pane,
      which the host's binding and its agr open make the host's, and every value names that row. */
  lemma CallerContract(a: Ask)
    requires a.leaf.scope == CallerScope
    ensures Decide(a).Allow? <==>
              && (exists row :: Names(a, "", row) && HostsPaneOf(a, row, a.caller.paneId))
              && (forall raw :: raw in a.n.rows ==> exists row :: Names(a, raw, row) && IsCallerRow(a, row))
    ensures Decide(a).Allow? ==>
              exists row :: Names(a, "", row) && Decide(a).targets == [Target(row.id, "", "", false)] && Decide(a).how == NoPane
    ensures !Decide(a).NeedsConsent?
  {
    hide Names, HostsPaneOf, LastRow, Owned, IsCallerRow, SurfaceById;
    var row := LastRow(a.w.rows, a.caller.row);
    assert MapRow(a, "") == row;
    forall raw, r ensures MapRow(a, raw) == Some(r) <==> Names(a, raw, r) { MapRowNames(a, raw, r); }
    hide MapRow;
    if row.Some? { CallersPane(a, row.value); }
    forall raw ensures (MapRow(a, raw).Some? && IsCallerRow(a, MapRow(a, raw).value))
                       <==> exists r :: Names(a, raw, r) && IsCallerRow(a, r)
    {
      if MapRow(a, raw).Some? { assert Names(a, raw, MapRow(a, raw).value); }
    }
    assert (forall raw :: raw in a.n.rows ==> MapRow(a, raw).Some? && IsCallerRow(a, MapRow(a, raw).value))
           <==> !RefusesRow(a);
  }

  /** The row holds a pane of that id that is the host's. */
  ghost predicate HostsPaneOf(a: Ask, row: Row, id: string) {
    exists s :: s in row.surfaces && Same(s.paneId, id) && HostsPane(a, row, s)
  }

  /** Surfaces of one id are owned together, so it does not matter which of them is looked at. */
  lemma CallersPane(a: Ask, row: Row)
    ensures (SurfaceById(row, a.caller.paneId).Some? && Owned(a, row, SurfaceById(row, a.caller.paneId).value))
            <==> HostsPaneOf(a, row, a.caller.paneId)
  {
    hide Attached, HostsPane, FirstById;
    var found := SurfaceById(row, a.caller.paneId);
    if found.Some? { OwnedHosts(a, row, found.value); }
    if HostsPaneOf(a, row, a.caller.paneId) {
      var s :| s in row.surfaces && Same(s.paneId, a.caller.paneId) && HostsPane(a, row, s);
      OwnedHosts(a, row, s);
      SameBound(a.w.binds, s.paneId, found.value.paneId);
    }
  }

  lemma {:induction false} SameBound(binds: seq<Binding>, x: string, y: string)
    requires Same(x, y)
    ensures LastBound(binds, x) == LastBound(binds, y)
  {
    if binds != [] { SameBound(binds[..|binds| - 1], x, y); }
  }

  /** A target the host may act on: in its own pane, or by a granted typing; in a row of its own. */
  ghost predicate Entitled(a: Ask, row: Row, t: Target) {
    && row in a.w.rows && t.row == row.id
    && match a.leaf.scope
       case NoScope => false
       case CallerScope => IsCallerRow(a, row) && exists s :: s in row.surfaces && HostsPane(a, row, s)
       case PaneScope =>
         (exists s :: && s in row.surfaces && s.paneId == t.paneId
                      && (HostsPane(a, row, s) || (Typable(a, row, s) && Grants(GrantsOf(a.caller), row, s))))
       case RowScope =>
         HostsRow(a, row)
  }

  lemma RowIsEntitled(a: Ask, row: Row, t: Target)
    requires a.leaf.scope == RowScope && row in a.w.rows && t.row == row.id && WholeRow(a, row)
    ensures Entitled(a, row, t)
  {
    WholeRowHosts(a, row);
  }

  lemma PaneIsEntitled(a: Ask, row: Row, s: Surface, t: Target)
    requires a.leaf.scope == PaneScope && row in a.w.rows && t == PaneTarget(a, row, s) && s in row.surfaces
    requires Owned(a, row, s) || (Typable(a, row, s) && Grants(GrantsOf(a.caller), row, s))
    ensures Entitled(a, row, t)
  {
    if Owned(a, row, s) { OwnedHosts(a, row, s); }
    assert s in row.surfaces && s.paneId == t.paneId;
  }

  /** No allowed call reaches past its contract: whatever the argument list, the tree and the
      bindings, every target of an allowed scoped call is one the host may act on. */
  lemma AllowedIsEntitled(a: Ask, k: nat)
    requires Decide(a).Allow? && k < |Decide(a).targets|
    ensures exists row :: Entitled(a, row, Decide(a).targets[k])
  {
    var t := Decide(a).targets[k];
    match a.leaf.scope {
      case NoScope =>
      case CallerScope =>
        var row := LastRow(a.w.rows, a.caller.row).value;
        var s := SurfaceById(row, a.caller.paneId).value;
        OwnedHosts(a, row, s);
        assert Entitled(a, row, t);
      case PaneScope =>
        var row := TargetRows(a).value[0];
        var s := ChoosePane(a, row).value;
        TargetRowsSome(a);
        ChosenPane(a, row, s);
        PaneContract(a, row, s);
        PaneIsEntitled(a, row, s, t);
      case RowScope =>
        TargetRowsSome(a);
        var row := TargetRows(a).value[k];
        assert RowOk(a, row);
        RowIsEntitled(a, row, t);
    }
  }

  // ----- an allowed call is printed as itself -----

  /** agterm's tree names rows and panes by non-empty ids without NUL bytes. */
  ghost predicate TreeOk(w: World) {
    && (forall r :: r in w.rows ==> r.id != "" && NUL !in r.id)
    && (forall r, s :: r in w.rows && s in r.surfaces ==> NUL !in s.paneId)
  }

  lemma RequestedInRow(a: Ask, row: Row)
    requires RequestedPane(a, row).Is?
    ensures RequestedPane(a, row).surface in row.surfaces
  {
    PanesAre(row.surfaces, RequestedPane(a, row).surface);
  }

  lemma RowTargetsFit(a: Ask)
    requires LeafOk(a.leaf) && PlacesGiven(a.leaf, a.n) && (|a.n.rows| > 1 ==> RepeatsRows(a.leaf)) && TreeOk(a.w)
    requires a.leaf.scope == RowScope && Decide(a).Allow?
    ensures TargetsFit(a.leaf, Decide(a).targets, Decide(a).how)
  {
    TargetRowsSome(a);
    var rows, targets := TargetRows(a).value, Decide(a).targets;
    forall k | 0 <= k < |targets|
      ensures targets[k].row != "" && NUL !in targets[k].row && NUL !in targets[k].paneId && targets[k].side == ""
    {
      assert targets[k] == RowTarget(a, rows[k]) && rows[k] in a.w.rows;
      if AsksPane(a) && RequestedPane(a, rows[k]).Is? { RequestedInRow(a, rows[k]); }
    }
  }

  lemma PaneTargetOk(a: Ask, row: Row, s: Surface)
    requires TreeOk(a.w) && row in a.w.rows && s in row.surfaces
    requires LeafOk(a.leaf) && a.leaf.scope == PaneScope
    ensures TargetsFit(a.leaf, [PaneTarget(a, row, s)], if a.leaf.bySide then BySide else ById)
  {
    var t := PaneTarget(a, row, s);
    assert t.side in ["", "left", "right"];
  }

  lemma PaneTargetFits(a: Ask)
    requires LeafOk(a.leaf) && TreeOk(a.w) && a.leaf.scope == PaneScope && DecidePane(a).Allow?
    ensures TargetsFit(a.leaf, DecidePane(a).targets, DecidePane(a).how)
  {
    TargetRowsSome(a);
    var row := TargetRows(a).value[0];
    var s := ChoosePane(a, row).value;
    ChosenPane(a, row, s);
    PaneTargetOk(a, row, s);
  }

  /** The targets of an allowed call are ones its leaf can carry. */
  lemma AllowedTargetsFit(a: Ask)
    requires LeafOk(a.leaf) && PlacesGiven(a.leaf, a.n) && (|a.n.rows| > 1 ==> RepeatsRows(a.leaf)) && TreeOk(a.w)
    requires Decide(a).Allow?
    ensures TargetsFit(a.leaf, Decide(a).targets, Decide(a).how)
  {
    match a.leaf.scope {
      case NoScope =>
      case CallerScope =>
      case PaneScope =>
        PaneTargetFits(a);
      case RowScope =>
        RowTargetsFit(a);
    }
  }

  /** What agtermctl gets is what was decided. For every argument list, an allowed call of the
      allowlist is printed so that it is matched to the same leaf, parses, and normalises to the
      same call, now naming exactly the targets of the decision. */
  lemma AllowedCallIsRead(urlOk: string -> bool, argv: seq<string>, i: nat, files: nat, a: Ask)
    requires Matches(ALLOWLIST, argv, i) && a.leaf == ALLOWLIST[i] && TreeOk(a.w)
    requires var p := Parse(a.leaf.opts, argv[|a.leaf.path|..]);
             p.Ok? && !p.value.help && Normalise(urlOk, a.leaf, files, p.value) == Ok(a.n)
    requires Decide(a).Allow?
    ensures var out := Render(a.leaf.path, Decide(a).targets, Decide(a).how, a.n.opts, a.n.pos);
            var again := Parse(a.leaf.opts, out[|a.leaf.path|..]);
            && Matches(ALLOWLIST, out, i) && again.Ok? && !again.value.help
            && Normalise(urlOk, a.leaf, files, again.value) == Ok(Resolved(a.n, Decide(a).targets, Decide(a).how))
  {
    var p := Parse(a.leaf.opts, argv[|a.leaf.path|..]).value;
    AllowlistOk();
    NormalPlaces(urlOk, a.leaf, files, argv[|a.leaf.path|..], a.n);
    AllowedTargetsFit(a);
    RenderedIsRead(urlOk, ALLOWLIST, argv, i, files, p, a.n, Decide(a).targets, Decide(a).how);
  }

  // ----- the caller as it is now -----

  /** run after normalising: the caller the listener resolved before the body arrived is looked up
      again, and a call of a caller whose binding is gone is refused. */
  ghost function Authorized(a: Ask): Decision {
    if a.leaf.scope == NoScope then Decide(a)
    else
      var now := Current(a.w.binds, a.caller);
      if now.None? then Refuse else Decide(a.(caller := now.value))
  }

  /** No call of the allowlist that is about rows or panes reaches past its contract: it is allowed only
      as a call of the caller's binding as it is now, with at least one target, and each of them is one
      that binding's host may act on. Without that binding it is refused. */
  lemma AuthorizedIsEntitled(a: Ask, k: nat)
    requires a.leaf.scope != NoScope
    ensures (forall b :: b in a.w.binds ==>
               b.host != a.caller.host || b.name != a.caller.name || !Same(b.row, a.caller.row) || !Same(b.paneId, a.caller.paneId))
            ==> Authorized(a).Refuse?
    ensures Authorized(a).Allow? ==> Authorized(a).targets != []
    ensures Authorized(a).Allow? && k < |Authorized(a).targets| ==>
              exists b, row :: && b in a.w.binds && b.host == a.caller.host && b.name == a.caller.name
                               && Same(b.row, a.caller.row) && Same(b.paneId, a.caller.paneId)
                               && Entitled(a.(caller := b), row, Authorized(a).targets[k])
  {
    hide Decide, Entitled;
    if Authorized(a).Allow? {
      var b := Current(a.w.binds, a.caller).value;
      AllowedHasTarget(a.(caller := b));
      if k < |Authorized(a).targets| { AllowedIsEntitled(a.(caller := b), k); }
    }
  }

  lemma AllowedHasTarget(a: Ask)
    requires Decide(a).Allow? && a.leaf.scope != NoScope
    ensures Decide(a).targets != []
  {
    if TargetRows(a).Some? { TargetRowsSome(a); }
  }

  /** Such a call is decided for the first binding that is the caller's, with its grants as they are now. */
  lemma DecidedForCaller(a: Ask, i: nat)
    requires a.leaf.scope != NoScope && i < |a.w.binds|
    requires var b := a.w.binds[i];
             b.host == a.caller.host && b.name == a.caller.name && Same(b.row, a.caller.row) && Same(b.paneId, a.caller.paneId)
    requires forall j :: 0 <= j < i ==> !IsCaller(a.w.binds[j], a.caller)
    ensures Authorized(a) == Decide(a.(caller := a.w.binds[i]))
  {
    hide Decide;
    CurrentIsFirst(a.w.binds, a.caller, i);
  }

  lemma {:induction false} CurrentIsFirst(binds: seq<Binding>, caller: Binding, i: nat)
    requires i < |binds| && IsCaller(binds[i], caller) && forall j :: 0 <= j < i ==> !IsCaller(binds[j], caller)
    ensures Current(binds, caller) == Some(binds[i])
  {
    if i > 0 {
      assert !IsCaller(binds[0], caller) && binds[1..][i - 1] == binds[i];
      CurrentIsFirst(binds[1..], caller, i - 1);
    }
  }

  /** The methods together: load, then the branch of the scope. */
  method Authorize(a: Ask) returns (v: Verdict, call: Authz, drop: seq<Grant>)
    ensures fresh(call) && call.Made(v) == Authorized(a)
    ensures drop == if a.leaf.scope == NoScope || Current(a.w.binds, a.caller).None? then []
                    else StaleGrants(a.w.rows, GrantsOf(Current(a.w.binds, a.caller).value))
  {
    drop := [];
    if a.leaf.scope == NoScope {
      call := new Authz(a);
      return Allowed, call, drop;
    }
    var now: Option<Binding>;
    now, drop := Load(a.w, a.caller);
    if now.None? {
      call := new Authz(a);
      return Refused, call, drop;
    }
    call := new Authz(a.(caller := now.value));
    v := call.Run();
  }

  /** A grant counts only while the caller's own binding is there and holds it: a call is allowed by
      a grant only if, among the bindings at the time of the decision, the caller's binding holds one
      for the unbound agent pane that is typed into; an unbound or re-bound caller types nothing. */
  lemma GrantIsCurrent(a: Ask)
    requires Authorized(a).Allow? && Authorized(a).granted
    ensures exists b, row, s ::
              && b in a.w.binds && b.host == a.caller.host && b.name == a.caller.name
              && Same(b.row, a.caller.row) && Same(b.paneId, a.caller.paneId) && HasGrant(b, row, s)
              && row in a.w.rows && s in row.surfaces && LastBound(a.w.binds, s.paneId).None?
              && Authorized(a).targets == [PaneTarget(a.(caller := b), row, s)]
  {
    var b := Current(a.w.binds, a.caller).value;
    var c := a.(caller := b);
    var row := TargetRows(c).value[0];
    var s := ChoosePane(c, row).value;
    TargetRowsSome(c);
    ChosenPane(c, row, s);
    PaneContract(c, row, s);
    GrantsHas(b, row, s);
  }
}
