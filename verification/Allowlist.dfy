/** The allowlist of agtermctl leaves a host may call, with their option schemas. */
module Allowlist {
  import opened ArgGrammar

  datatype Scope = NoScope | CallerScope | PaneScope | RowScope

  /** One allowlisted leaf. maxPos -1 is unlimited; `overlay` marks the leaf with an extra check. */
  datatype Leaf = Leaf(
    path: seq<string>, scope: Scope, write: bool, bySide: bool, opts: seq<OptSpec>,
    minPos: nat, maxPos: int, posAllowed: seq<string>, posCommand: bool, typing: bool, overlay: bool)

  const TARGET := OptSpec("target", true, Row, false, [], false)
  const TARGETS := OptSpec("target", true, Row, true, [], false)
  const PANE_ID := OptSpec("pane-id", true, Pane, false, [], false)
  const PANE := OptSpec("pane", true, Side, false, ["left", "right", "primary", "split"], false)
  const HTML := OptSpec("html", true, File, false, [], false)
  const COMMAND := OptSpec("command", true, Command, false, [], false)
  const FOLLOW := OptSpec("follow", false, Plain, false, [], true)

  function Val(name: string): OptSpec { OptSpec(name, true, Plain, false, [], false) }
  function Flag(name: string): OptSpec { OptSpec(name, false, Plain, false, [], false) }

  function Vals(names: seq<string>): (r: seq<OptSpec>)
    ensures |r| == |names| && forall k :: 0 <= k < |r| ==> r[k] == Val(names[k])
  {
    seq(|names|, k requires 0 <= k < |names| => Val(names[k]))
  }

  function Flags(names: seq<string>): (r: seq<OptSpec>)
    ensures |r| == |names| && forall k :: 0 <= k < |r| ==> r[k] == Flag(names[k])
  {
    seq(|names|, k requires 0 <= k < |names| => Flag(names[k]))
  }

  /** Plain values, plain flags, then the options with a role of their own. */
  function Schema(vals: seq<string>, flags: seq<string>, rest: seq<OptSpec>): seq<OptSpec> {
    Vals(vals) + Flags(flags) + rest
  }

  const HUD_VALUES := ["font-size", "detail", "spinner-style", "position"]
                    + ["background-color", "text-color", "size-percent", "hide-after"]
  const HUD_FLAGS := ["markdown", "spinner", "sticky", "no-frame"]
  const OVERLAY_VALUES := ["url", "size-percent", "width"] + ["height", "background-color"]
  const OVERLAY_FLAGS := ["js", "wait", "block"]

  const VERSION := Leaf(["version"], NoScope, false, false,
    Schema([], [], []),
    0, 0, [], false, false, false)
  const HELP := Leaf(["help"], NoScope, false, false,
    Schema([], [], []),
    0, -1, [], false, false, false)
  const TREE := Leaf(["tree"], NoScope, false, false,
    Schema([], [], []),
    0, 0, [], false, false, false)
  const EVENTS := Leaf(["events"], NoScope, false, false,
    Schema(["kind", "run", "after", "limit"], [], []),
    0, 0, [], false, false, false)
  const SESSION_TEXT := Leaf(["session", "text"], PaneScope, false, false,
    Schema(["lines"], ["all"], [TARGET, PANE, PANE_ID]),
    0, 0, [], false, false, false)
  const OVERLAY_RESULT := Leaf(["session", "overlay", "result"], PaneScope, false, true,
    Schema(["page"], ["block"], [TARGET, PANE]),
    0, 0, [], false, false, false)
  const OVERLAY_TEXT := Leaf(["session", "overlay", "text"], PaneScope, false, true,
    Schema(["lines"], ["all"], [TARGET, PANE]),
    0, 0, [], false, false, false)
  const SESSION_TYPE := Leaf(["session", "type"], PaneScope, true, false,
    Schema([], ["stdin"], [TARGET, PANE_ID]),
    0, 1, [], false, true, false)
  const SESSION_STATUS := Leaf(["session", "status"], RowScope, true, false,
    Schema(["sound", "color", "shape"], ["blink", "auto-reset"], [TARGET, PANE, PANE_ID]),
    1, 1, ["idle", "active", "completed", "blocked"], false, false, false)
  const SESSION_CONTEXT := Leaf(["session", "context"], RowScope, true, false,
    Schema([], ["clear"], [TARGET]),
    0, 1, [], false, false, false)
  const SESSION_RENAME := Leaf(["session", "rename"], RowScope, true, false,
    Schema([], [], [TARGET]),
    1, 1, [], false, false, false)
  const SESSION_HUD := Leaf(["session", "hud"], RowScope, true, false,
    Schema(HUD_VALUES, HUD_FLAGS, [TARGET, PANE, PANE_ID]),
    1, 1, [], false, false, false)
  const HUD_OPEN := Leaf(["session", "hud", "open"], RowScope, true, false,
    Schema(HUD_VALUES, HUD_FLAGS, [TARGET, PANE, PANE_ID]),
    1, 1, [], false, false, false)
  const HUD_UPDATE := Leaf(["session", "hud", "update"], RowScope, true, false,
    Schema(HUD_VALUES, HUD_FLAGS, [TARGET, PANE, PANE_ID]),
    1, 1, [], false, false, false)
  const HUD_CLOSE := Leaf(["session", "hud", "close"], RowScope, true, false,
    Schema([], [], [TARGET, PANE, PANE_ID]),
    0, 0, [], false, false, false)
  const OVERLAY_OPEN := Leaf(["session", "overlay", "open"], PaneScope, true, true,
    Schema(OVERLAY_VALUES, OVERLAY_FLAGS, [HTML, TARGET, PANE, FOLLOW]),
    0, 1, [], true, false, true)
  const OVERLAY_CLOSE := Leaf(["session", "overlay", "close"], PaneScope, true, true,
    Schema([], [], [TARGET, PANE]),
    0, 0, [], false, false, false)
  const OVERLAY_SUBMIT := Leaf(["session", "overlay", "submit"], PaneScope, true, true,
    Schema(["value"], [], [TARGET, PANE]),
    0, 0, [], false, false, false)
  const OVERLAY_RESIZE := Leaf(["session", "overlay", "resize"], RowScope, true, false,
    Schema(["size-percent"], ["full"], [TARGET]),
    0, 0, [], false, false, false)
  const SESSION_NEW := Leaf(["session", "new"], NoScope, false, false,
    Schema(["name", "cwd", "workspace"], ["no-select", "wait"], [COMMAND]),
    0, 0, [], false, false, false)
  const SESSION_CLOSE := Leaf(["session", "close"], RowScope, true, false,
    Schema([], [], [TARGETS]),
    0, 0, [], false, false, false)
  const SESSION_RESTORE := Leaf(["session", "restore"], PaneScope, true, false,
    Schema([], ["none", "clear"], [TARGET, PANE, PANE_ID]),
    0, 1, [], true, false, false)
  const NOTIFY := Leaf(["notify"], CallerScope, true, false,
    Schema(["title"], [], [TARGET]),
    1, 1, [], false, false, false)
  const SPLIT_VISIBILITY := Leaf(["session", "split", "visibility"], RowScope, true, false,
    Schema(["axis"], [], [TARGET]),
    1, 1, ["on", "off"], false, false, false)

  const FIRST_LEAVES: seq<Leaf> := [
    VERSION, HELP, TREE, EVENTS, SESSION_TEXT, OVERLAY_RESULT,
    OVERLAY_TEXT, SESSION_TYPE, SESSION_STATUS, SESSION_CONTEXT, SESSION_RENAME, SESSION_HUD]
  const LAST_LEAVES: seq<Leaf> := [
    HUD_OPEN, HUD_UPDATE, HUD_CLOSE, OVERLAY_OPEN, OVERLAY_CLOSE, OVERLAY_SUBMIT,
    OVERLAY_RESIZE, SESSION_NEW, SESSION_CLOSE, SESSION_RESTORE, NOTIFY, SPLIT_VISIBILITY]
  const ALLOWLIST: seq<Leaf> := FIRST_LEAVES + LAST_LEAVES

  // ----- what the schemas share -----

  /** An option with a role is the one the printer writes for that role, and no other has its name. */
  predicate SpecOk(spec: OptSpec) {
    && NameOk(spec.name)
    && (spec.name == "target" <==> spec.role == Row)
    && (spec.role == Row ==> spec.value && spec.allowed == [] && !spec.dropped)
    && (spec.role == File || spec.role == Command ==> spec.value)
    && (spec.name == "pane-id" || spec.role == Pane ==> spec == PANE_ID)
    && (spec.name == "pane" || spec.role == Side ==> spec == PANE)
  }

  predicate OptsOk(opts: seq<OptSpec>) { forall k :: 0 <= k < |opts| ==> SpecOk(opts[k]) }

  predicate HasTarget(opts: seq<OptSpec>) { TARGET in opts || TARGETS in opts }

  predicate LeafOk(leaf: Leaf) {
    && leaf.path != [] && (leaf.path[0] == "help" ==> |leaf.path| == 1)
    && (leaf.scope == NoScope && leaf.maxPos != 0 ==> leaf.path[0] == "help")
    && OptsOk(leaf.opts)
    && (forall k :: 0 <= k < |leaf.path| ==> leaf.path[k] != "" && leaf.path[k][0] != '-')
    && (leaf.scope != NoScope ==> HasTarget(leaf.opts)) && !(TARGET in leaf.opts && TARGETS in leaf.opts)
    && (leaf.scope == PaneScope ==> if leaf.bySide then PANE in leaf.opts else PANE_ID in leaf.opts)
    && (leaf.scope == RowScope && PANE in leaf.opts ==> PANE_ID in leaf.opts)
    && (TARGETS in leaf.opts ==> leaf.scope == RowScope && PANE !in leaf.opts && PANE_ID !in leaf.opts)
  }

  predicate PlainNames(names: seq<string>) {
    forall k :: 0 <= k < |names| ==> NameOk(names[k]) && names[k] != "target" && names[k] != "pane-id" && names[k] != "pane"
  }

  lemma PlainCat(a: seq<string>, b: seq<string>)
    requires PlainNames(a) && PlainNames(b)
    ensures PlainNames(a + b)
  {}

  lemma HudStyleNames()
    ensures PlainNames(["font-size", "detail", "spinner-style", "position"])
  {}

  lemma HudSizeNames()
    ensures PlainNames(["background-color", "text-color", "size-percent", "hide-after"])
  {}

  lemma HudFlagNames()
    ensures PlainNames(HUD_FLAGS)
  {}

  lemma HudNames()
    ensures PlainNames(HUD_VALUES) && PlainNames(HUD_FLAGS)
  {
    HudStyleNames();
    HudSizeNames();
    HudFlagNames();
    PlainCat(["font-size", "detail", "spinner-style", "position"],
             ["background-color", "text-color", "size-percent", "hide-after"]);
  }

  lemma StatusNames()
    ensures PlainNames(["sound", "color", "shape"]) && PlainNames(["blink", "auto-reset"])
  {}

  lemma SessionNames()
    ensures PlainNames(["name", "cwd", "workspace"]) && PlainNames(["no-select", "wait"])
  {}

  lemma OverlayNames()
    ensures PlainNames(OVERLAY_VALUES) && PlainNames(OVERLAY_FLAGS)
  {
    PlainCat(["url", "size-percent", "width"], ["height", "background-color"]);
  }

  lemma RolesOk()
    ensures SpecOk(TARGET) && SpecOk(TARGETS) && SpecOk(PANE_ID) && SpecOk(PANE)
    ensures SpecOk(HTML) && SpecOk(COMMAND) && SpecOk(FOLLOW)
  {}

  lemma PlainSpecOk(name: string)
    requires PlainNames([name])
    ensures SpecOk(Val(name)) && SpecOk(Flag(name))
  {
    assert NameOk([name][0]);
  }

  lemma SchemaIsOk(vals: seq<string>, flags: seq<string>, rest: seq<OptSpec>)
    requires PlainNames(vals) && PlainNames(flags) && OptsOk(rest)
    ensures OptsOk(Schema(vals, flags, rest))
    ensures forall k :: 0 <= k < |rest| ==> rest[k] in Schema(vals, flags, rest)
    ensures forall x :: x in Schema(vals, flags, rest) && x.role != Plain ==> x in rest
  {
    hide SpecOk, NameOk;
    var all := Schema(vals, flags, rest);
    assert forall k :: 0 <= k < |rest| ==> all[|vals| + |flags| + k] == rest[k];
    forall k | 0 <= k < |all| ensures SpecOk(all[k]) {
      if k < |vals| {
        PlainSpecOk(vals[k]);
      } else if k < |vals| + |flags| {
        PlainSpecOk(flags[k - |vals|]);
      }
    }
  }

  lemma OkVersion()
    ensures LeafOk(VERSION)
  {
    hide SpecOk;
    RolesOk();
    SchemaIsOk([], [], []);
  }

  lemma OkHelp()
    ensures LeafOk(HELP)
  {
    hide SpecOk;
    RolesOk();
    SchemaIsOk([], [], []);
  }

  lemma OkTree()
    ensures LeafOk(TREE)
  {
    hide SpecOk;
    RolesOk();
    SchemaIsOk([], [], []);
  }

  lemma OkEvents()
    ensures LeafOk(EVENTS)
  {
    hide SpecOk;
    RolesOk();
    SchemaIsOk(["kind", "run", "after", "limit"], [], []);
  }

  lemma OkSessionText()
    ensures LeafOk(SESSION_TEXT)
  {
    hide SpecOk;
    RolesOk();
    SchemaIsOk(["lines"], ["all"], [TARGET, PANE, PANE_ID]);
  }

  lemma OkOverlayResult()
    ensures LeafOk(OVERLAY_RESULT)
  {
    hide SpecOk;
    RolesOk();
    SchemaIsOk(["page"], ["block"], [TARGET, PANE]);
  }

  lemma OkOverlayText()
    ensures LeafOk(OVERLAY_TEXT)
  {
    hide SpecOk;
    RolesOk();
    SchemaIsOk(["lines"], ["all"], [TARGET, PANE]);
  }

  lemma OkSessionType()
    ensures LeafOk(SESSION_TYPE)
  {
    hide SpecOk;
    RolesOk();
    SchemaIsOk([], ["stdin"], [TARGET, PANE_ID]);
  }

  lemma OkSessionStatus()
    ensures LeafOk(SESSION_STATUS)
  {
    hide SpecOk;
    RolesOk();
    StatusNames();
    SchemaIsOk(["sound", "color", "shape"], ["blink", "auto-reset"], [TARGET, PANE, PANE_ID]);
  }

  lemma OkSessionContext()
    ensures LeafOk(SESSION_CONTEXT)
  {
    hide SpecOk;
    RolesOk();
    SchemaIsOk([], ["clear"], [TARGET]);
  }

  lemma OkSessionRename()
    ensures LeafOk(SESSION_RENAME)
  {
    hide SpecOk;
    RolesOk();
    SchemaIsOk([], [], [TARGET]);
  }

  lemma OkSessionHud()
    ensures LeafOk(SESSION_HUD)
  {
    hide SpecOk;
    RolesOk();
    HudNames();
    SchemaIsOk(HUD_VALUES, HUD_FLAGS, [TARGET, PANE, PANE_ID]);
  }

  lemma OkHudOpen()
    ensures LeafOk(HUD_OPEN)
  {
    hide SpecOk;
    RolesOk();
    HudNames();
    SchemaIsOk(HUD_VALUES, HUD_FLAGS, [TARGET, PANE, PANE_ID]);
  }

  lemma OkHudUpdate()
    ensures LeafOk(HUD_UPDATE)
  {
    hide SpecOk;
    RolesOk();
    HudNames();
    SchemaIsOk(HUD_VALUES, HUD_FLAGS, [TARGET, PANE, PANE_ID]);
  }

  lemma OkHudClose()
    ensures LeafOk(HUD_CLOSE)
  {
    hide SpecOk;
    RolesOk();
    SchemaIsOk([], [], [TARGET, PANE, PANE_ID]);
  }

  lemma OkOverlayOpen()
    ensures LeafOk(OVERLAY_OPEN)
  {
    hide SpecOk;
    RolesOk();
    OverlayNames();
    SchemaIsOk(OVERLAY_VALUES, OVERLAY_FLAGS, [HTML, TARGET, PANE, FOLLOW]);
  }

  lemma OkOverlayClose()
    ensures LeafOk(OVERLAY_CLOSE)
  {
    hide SpecOk;
    RolesOk();
    SchemaIsOk([], [], [TARGET, PANE]);
  }

  lemma OkOverlaySubmit()
    ensures LeafOk(OVERLAY_SUBMIT)
  {
    hide SpecOk;
    RolesOk();
    SchemaIsOk(["value"], [], [TARGET, PANE]);
  }

  lemma OkOverlayResize()
    ensures LeafOk(OVERLAY_RESIZE)
  {
    hide SpecOk;
    RolesOk();
    SchemaIsOk(["size-percent"], ["full"], [TARGET]);
  }

  lemma OkSessionNew()
    ensures LeafOk(SESSION_NEW)
  {
    hide SpecOk;
    RolesOk();
    SessionNames();
    SchemaIsOk(["name", "cwd", "workspace"], ["no-select", "wait"], [COMMAND]);
  }

  lemma OkSessionClose()
    ensures LeafOk(SESSION_CLOSE)
  {
    hide SpecOk;
    RolesOk();
    SchemaIsOk([], [], [TARGETS]);
  }

  lemma OkSessionRestore()
    ensures LeafOk(SESSION_RESTORE)
  {
    hide SpecOk;
    RolesOk();
    SchemaIsOk([], ["none", "clear"], [TARGET, PANE, PANE_ID]);
  }

  lemma OkNotify()
    ensures LeafOk(NOTIFY)
  {
    hide SpecOk;
    RolesOk();
    SchemaIsOk(["title"], [], [TARGET]);
  }

  lemma OkSplitVisibility()
    ensures LeafOk(SPLIT_VISIBILITY)
  {
    hide SpecOk;
    RolesOk();
    SchemaIsOk(["axis"], [], [TARGET]);
  }

  lemma FirstLeavesOk(leaf: Leaf)
    requires leaf in FIRST_LEAVES
    ensures LeafOk(leaf)
  {
    if leaf == VERSION { OkVersion(); }
    if leaf == HELP { OkHelp(); }
    if leaf == TREE { OkTree(); }
    if leaf == EVENTS { OkEvents(); }
    if leaf == SESSION_TEXT { OkSessionText(); }
    if leaf == OVERLAY_RESULT { OkOverlayResult(); }
    if leaf == OVERLAY_TEXT { OkOverlayText(); }
    if leaf == SESSION_TYPE { OkSessionType(); }
    if leaf == SESSION_STATUS { OkSessionStatus(); }
    if leaf == SESSION_CONTEXT { OkSessionContext(); }
    if leaf == SESSION_RENAME { OkSessionRename(); }
    if leaf == SESSION_HUD { OkSessionHud(); }
  }

  lemma LastLeavesOk(leaf: Leaf)
    requires leaf in LAST_LEAVES
    ensures LeafOk(leaf)
  {
    if leaf == HUD_OPEN { OkHudOpen(); }
    if leaf == HUD_UPDATE { OkHudUpdate(); }
    if leaf == HUD_CLOSE { OkHudClose(); }
    if leaf == OVERLAY_OPEN { OkOverlayOpen(); }
    if leaf == OVERLAY_CLOSE { OkOverlayClose(); }
    if leaf == OVERLAY_SUBMIT { OkOverlaySubmit(); }
    if leaf == OVERLAY_RESIZE { OkOverlayResize(); }
    if leaf == SESSION_NEW { OkSessionNew(); }
    if leaf == SESSION_CLOSE { OkSessionClose(); }
    if leaf == SESSION_RESTORE { OkSessionRestore(); }
    if leaf == NOTIFY { OkNotify(); }
    if leaf == SPLIT_VISIBILITY { OkSplitVisibility(); }
  }

  /** Every leaf of the allowlist has the shape the printed form relies on. */
  lemma EveryLeafOk(leaf: Leaf)
    requires leaf in ALLOWLIST
    ensures LeafOk(leaf)
  {
    if leaf in FIRST_LEAVES { FirstLeavesOk(leaf); } else { LastLeavesOk(leaf); }
  }

  /** Only these five need nothing of the host. */
  predicate Unscoped(leaf: Leaf) { leaf in [VERSION, HELP, TREE, EVENTS, SESSION_NEW] }

  /** What a leaf needs, beside its options. */
  predicate Needs(leaf: Leaf, scope: Scope, bySide: bool) {
    leaf.scope == scope && leaf.bySide == bySide && (leaf.typing <==> leaf == SESSION_TYPE) && (leaf.overlay <==> leaf == OVERLAY_OPEN)
  }

  lemma UnscopedNeed()
    ensures forall leaf :: Unscoped(leaf) ==> Needs(leaf, NoScope, false)
  {
    hide Schema, Vals, Flags;
  }

  lemma PanesNeed()
    ensures Needs(SESSION_TEXT, PaneScope, false) && Needs(SESSION_TYPE, PaneScope, false)
    ensures Needs(SESSION_RESTORE, PaneScope, false)
    ensures Needs(OVERLAY_RESULT, PaneScope, true) && Needs(OVERLAY_TEXT, PaneScope, true)
    ensures Needs(OVERLAY_OPEN, PaneScope, true) && Needs(OVERLAY_CLOSE, PaneScope, true) && Needs(OVERLAY_SUBMIT, PaneScope, true)
  {
    hide Schema, Vals, Flags;
  }

  lemma RowsNeed()
    ensures Needs(NOTIFY, CallerScope, false) && Needs(SESSION_STATUS, RowScope, false) && Needs(SESSION_CONTEXT, RowScope, false)
    ensures Needs(SESSION_RENAME, RowScope, false) && Needs(SESSION_HUD, RowScope, false) && Needs(HUD_OPEN, RowScope, false)
    ensures Needs(HUD_UPDATE, RowScope, false) && Needs(HUD_CLOSE, RowScope, false) && Needs(OVERLAY_RESIZE, RowScope, false)
    ensures Needs(SESSION_CLOSE, RowScope, false) && Needs(SPLIT_VISIBILITY, RowScope, false)
  {
    hide Schema, Vals, Flags;
  }

  /** A host gets at nothing without a scope but these five, types by one leaf only, and opens an overlay
      by one only. */
  lemma ScopesAre(leaf: Leaf)
    requires leaf in ALLOWLIST
    ensures leaf.scope == NoScope <==> Unscoped(leaf)
    ensures leaf.scope == CallerScope <==> leaf == NOTIFY
    ensures leaf.typing <==> leaf == SESSION_TYPE
    ensures leaf.overlay <==> leaf == OVERLAY_OPEN
  {
    hide Schema, Vals, Flags;
    UnscopedNeed();
    PanesNeed();
    RowsNeed();
  }
}
