/** agterm's rows and their surfaces, as its tree reports them. */
module Tree {
  import opened Results

  datatype Surface = Surface(kind: string, paneId: string, visible: bool)

  datatype Row = Row(
    id: string, name: string, surfaces: seq<Surface>, hasSplit: bool, foreground: seq<string>, shell: string,
    splitForeground: seq<string>, splitShell: string)

  function Lower(c: char): char { if 'A' <= c <= 'Z' then ((c as int) + 32) as char else c }

  /** Ids are compared without case. */
  function Fold(s: string): (r: string)
    ensures |r| == |s| && forall k :: 0 <= k < |r| ==> r[k] == Lower(s[k])
  {
    seq(|s|, k requires 0 <= k < |s| => Lower(s[k]))
  }

  predicate Same(a: string, b: string) { Fold(a) == Fold(b) }

  /** A small letter and its capital. */
  predicate OtherCase(c: char, d: char) { 'a' <= c <= 'z' && c as int == d as int + 32 }

  /** Two ids are the same exactly when they are, up to the case of letters. */
  lemma SameMeans(a: string, b: string)
    ensures Same(a, b) <==>
              |a| == |b| && forall k :: 0 <= k < |a| ==> a[k] == b[k] || OtherCase(a[k], b[k]) || OtherCase(b[k], a[k])
  {
    hide OtherCase;
    forall c, d ensures Lower(c) == Lower(d) <==> c == d || OtherCase(c, d) || OtherCase(d, c) { LowerMeans(c, d); }
    if Same(a, b) {
      forall k | 0 <= k < |a| ensures Lower(a[k]) == Lower(b[k]) { assert Fold(a)[k] == Fold(b)[k]; }
    }
  }

  lemma LowerMeans(c: char, d: char)
    ensures Lower(c) == Lower(d) <==> c == d || OtherCase(c, d) || OtherCase(d, c)
  {}

  predicate IsPane(s: Surface) { s.kind == "left" || s.kind == "right" }

  function PanesOf(surfaces: seq<Surface>): seq<Surface> {
    if surfaces == [] then []
    else (if IsPane(surfaces[0]) then [surfaces[0]] else []) + PanesOf(surfaces[1..])
  }

  /** The panes of a row that a host can own. */
  function Panes(row: Row): seq<Surface> { PanesOf(row.surfaces) }

  function FirstById(surfaces: seq<Surface>, id: string): (r: Option<Surface>)
    ensures r.Some? ==> r.value in surfaces && Same(r.value.paneId, id)
    ensures r.None? <==> forall k :: 0 <= k < |surfaces| ==> !Same(surfaces[k].paneId, id)
  {
    if surfaces == [] then None
    else if Same(surfaces[0].paneId, id) then Some(surfaces[0])
    else FirstById(surfaces[1..], id)
  }

  lemma {:induction false} FirstByIdIs(surfaces: seq<Surface>, id: string)
    ensures forall s :: FirstById(surfaces, id) == Some(s) <==>
              exists k :: && 0 <= k < |surfaces| && surfaces[k] == s && Same(s.paneId, id)
                          && forall j :: 0 <= j < k ==> !Same(surfaces[j].paneId, id)
  {
    if surfaces != [] {
      FirstByIdIs(surfaces[1..], id);
    }
  }

  function SurfaceById(row: Row, id: string): Option<Surface> { FirstById(row.surfaces, id) }

  datatype Program = Program(argv: seq<string>, shell: string)

  /** The program in a surface, from the fields of that surface alone. */
  function Foreground(row: Row, kind: string): Option<Program> {
    if kind == "left" then Some(Program(row.foreground, row.shell))
    else if kind == "right" && row.hasSplit then Some(Program(row.splitForeground, row.splitShell))
    else None
  }
}
