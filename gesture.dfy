/**
 * The drawing panel's gesture state machine as pure transitions.  A
 * PanelState is a snapshot of the panel's fields (apart from the canvas);
 * each handler of the panel is specified by the function of the same name
 * here, and the lemmas below state what whole gestures commit.
 *
 * `committed` is the list of strokes handed to the canvas so far, in order;
 * the pixels they produce are up to the rasteriser.
 */
module Gesture {
  import opened Geometry

  datatype PanelState = PanelState(
    tool: Tool,
    color: Color,
    thickness: int,
    start: Option<Point>,       // where the current press began
    last: Option<Point>,        // the latest tracked pointer position
    polygon: seq<Point>,        // vertices placed so far, in click order
    drawing: bool,              // a polygon is being built
    committed: seq<Stroke>)

  function PenOf(s: PanelState): (pen: Pen) { Pen(s.color, s.thickness) }

  /**
   * What every handler keeps: the thickness is at least 1, and a polygon is
   * in progress exactly when it has at least one vertex.
   */
  predicate Inv(s: PanelState)
  {
    s.thickness >= 1 && (s.drawing <==> |s.polygon| >= 1)
  }

  /** A new panel: pencil, black, thickness 1, no gesture, nothing drawn. */
  function Initial(): (s: PanelState)
    ensures Inv(s) && s.committed == [] && s.start == s.last == None && !s.drawing
  {
    PanelState(Pencil, Black, 1, None, None, [], false, [])
  }

  // ---------------------------------------------------------------- settings

  function SetTool(s: PanelState, t: Tool): (s': PanelState)
  {
    s.(tool := t)
  }

  function SetThickness(s: PanelState, t: int): (s': PanelState)
  {
    s.(thickness := Max(1, t))
  }

  /** A missing (null) colour is ignored. */
  function SetColor(s: PanelState, c: Option<Color>): (s': PanelState)
  {
    if c.Some? then s.(color := c.value) else s
  }

  // ---------------------------------------------------------------- mouse

  /** A press starts a gesture at p; the pencil immediately draws a dot there. */
  function Press(s: PanelState, p: Point): (s': PanelState)
  {
    var t := s.(start := Some(p), last := Some(p));
    if s.tool == Pencil then t.(committed := s.committed + [Stroke(Segment(p, p), PenOf(s))]) else t
  }

  /**
   * A drag: the pencil draws from the previous position to p; LINE, RECT and
   * OVAL only track p; POLYGON ignores drags.  A drag always follows a press,
   * which is what gives the pencil its previous position.
   */
  function Drag(s: PanelState, p: Point): (s': PanelState)
    requires s.tool == Pencil ==> s.last.Some?
  {
    if s.tool == Pencil then
      s.(committed := s.committed + [Stroke(Segment(s.last.value, p), PenOf(s))], last := Some(p))
    else if s.tool != Polygon then
      s.(last := Some(p))
    else
      s
  }

  /** The strokes the release of a two-point gesture from a to b draws. */
  function FinalStrokes(tool: Tool, a: Point, b: Point, pen: Pen): (strokes: seq<Stroke>)
  {
    match ShapeFor(tool, a, b)
    case Some(shape) => [Stroke(shape, pen)]
    case None => []
  }

  /**
   * A release ends the gesture.  LINE, RECT and OVAL draw their shape from
   * the press point to p, provided a press was seen.
   */
  function Release(s: PanelState, p: Point): (s': PanelState)
  {
    var t := s.(start := None, last := None);
    if s.tool != Pencil && s.tool != Polygon && s.start.Some? && s.last.Some? then
      t.(committed := s.committed + FinalStrokes(s.tool, s.start.value, p, PenOf(s)))
    else
      t
  }

  /**
   * A click with POLYGON places a vertex.  The first click starts a new
   * polygon; a later click close to the first vertex, when more than two
   * vertices exist, closes the polygon and draws all its edges.
   */
  function Click(s: PanelState, p: Point): (s': PanelState)
    requires Inv(s)
  {
    if s.tool != Polygon then
      s
    else if !s.drawing then
      s.(polygon := [p], drawing := true)
    else
      var first := s.polygon[0];
      if WithinClosingRadius(p, first) && |s.polygon| > 2 then
        s.(committed := s.committed + Chain(s.polygon + [first], PenOf(s)), polygon := [], drawing := false)
      else
        s.(polygon := s.polygon + [p])
  }

  /** Moving the mouse tracks it only while a polygon is being built. */
  function Move(s: PanelState, p: Point): (s': PanelState)
  {
    if s.tool == Polygon && s.drawing then s.(last := Some(p)) else s
  }

  // ---------------------------------------------------------------- preview

  /** The translucent shape shown during a LINE, RECT or OVAL drag. */
  function ShapePreview(s: PanelState): (overlay: seq<Stroke>)
  {
    if s.start.Some? && s.last.Some? && s.tool != Pencil && s.tool != Polygon then
      var a, b := s.start.value, s.last.value;
      var box := NormalizedBox(a, b);
      match s.tool
      case Line => [Stroke(Segment(a, b), PenOf(s))]
      case Rect => [Stroke(Rectangle(box), PenOf(s))]
      case Oval => [Stroke(Ellipse(box), PenOf(s))]
      case _ => []
    else
      []
  }

  /**
   * The translucent edges shown while a polygon is being built: the placed
   * edges and, when the pointer is tracked, an edge from the last vertex to it.
   */
  function PolygonPreview(s: PanelState): (overlay: seq<Stroke>)
  {
    if s.tool == Polygon && s.drawing && |s.polygon| > 0 then
      Chain(s.polygon, PenOf(s))
        + (if s.last.Some? then [Stroke(Segment(s.polygon[|s.polygon| - 1], s.last.value), PenOf(s))] else [])
    else
      []
  }

  /** Everything drawn over the canvas on a repaint, and only on the screen. */
  function Preview(s: PanelState): (overlay: seq<Stroke>)
  {
    ShapePreview(s) + PolygonPreview(s)
  }

  // ---------------------------------------------------------------- lemmas

  /** Every handler keeps Inv. */
  lemma HandlersKeepInv(s: PanelState, p: Point, t: Tool, n: int, c: Option<Color>)
    requires Inv(s)
    ensures Inv(SetTool(s, t)) && Inv(SetThickness(s, n)) && Inv(SetColor(s, c))
    ensures Inv(Press(s, p)) && Inv(Release(s, p)) && Inv(Click(s, p)) && Inv(Move(s, p))
    ensures s.tool == Pencil ==> s.last.Some? ==> Inv(Drag(s, p))
    ensures s.tool != Pencil ==> Inv(Drag(s, p))
  {
  }

  /**
   * The settings: thickness becomes max(1, n); a null colour changes nothing;
   * a tool switch changes only the tool, so a polygon in progress survives it.
   */
  lemma SettingsChangeOneField(s: PanelState, t: Tool, n: int, c: Option<Color>)
    ensures SetThickness(s, n).thickness == Max(1, n)
    ensures SetThickness(s, n).thickness >= 1 && SetThickness(s, n).thickness >= n
    ensures SetThickness(s, n) == s.(thickness := SetThickness(s, n).thickness)
    ensures SetColor(s, None) == s
    ensures c.Some? ==> SetColor(s, c) == s.(color := c.value)
    ensures SetTool(s, t).tool == t && SetTool(s, t).polygon == s.polygon
    ensures SetTool(s, t).drawing == s.drawing && SetTool(s, t) == s.(tool := t)
  {
  }

  /** Moves and drags never place a vertex; a move tracks the pointer only while building a polygon. */
  lemma MoveAndDragKeepVertices(s: PanelState, p: Point)
    requires s.tool == Pencil ==> s.last.Some?
    ensures Drag(s, p).polygon == s.polygon && Drag(s, p).drawing == s.drawing
    ensures Move(s, p).polygon == s.polygon && Move(s, p).drawing == s.drawing
    ensures Move(s, p) == s.(last := Move(s, p).last)
    ensures Move(s, p).last != s.last ==> s.tool == Polygon && s.drawing
    ensures s.tool == Polygon && s.drawing ==> Move(s, p).last == Some(p)
  {
  }

  /** Applies one drag per point, in order. */
  function Drags(s: PanelState, ps: seq<Point>): (s': PanelState)
    requires s.tool == Pencil ==> s.last.Some?
    decreases |ps|
  {
    if ps == [] then s else Drags(Drag(s, ps[0]), ps[1..])
  }

  /** LINE, RECT and OVAL drags commit nothing: they only move the tracked point. */
  lemma {:induction false} ShapeDragsCommitNothing(s: PanelState, ps: seq<Point>)
    requires s.tool == Line || s.tool == Rect || s.tool == Oval
    ensures Drags(s, ps) == s.(last := if ps == [] then s.last else Some(ps[|ps| - 1]))
    decreases |ps|
  {
    if ps != [] {
      ShapeDragsCommitNothing(Drag(s, ps[0]), ps[1..]);
    }
  }

  /**
   * Pencil drags commit as they go: each drag adds exactly the segment from
   * the previous position to the new one, so n drags trace the whole path.
   */
  lemma {:induction false} PencilDragsTracePath(s: PanelState, ps: seq<Point>)
    requires s.tool == Pencil && s.last.Some?
    ensures Drags(s, ps).committed == s.committed + Chain([s.last.value] + ps, PenOf(s))
    ensures Drags(s, ps).last == Some(([s.last.value] + ps)[|ps|])
    ensures Drags(s, ps) == s.(committed := Drags(s, ps).committed, last := Drags(s, ps).last)
    decreases |ps|
  {
    if ps != [] {
      var q, t := s.last.value, Drag(s, ps[0]);
      PencilDragsTracePath(t, ps[1..]);
      assert [ps[0]] + ps[1..] == ps;
      assert ([q] + ps)[1..] == ps;
      assert Chain([q] + ps, PenOf(s)) == [Stroke(Segment(q, ps[0]), PenOf(s))] + Chain(ps, PenOf(s));
    }
  }

  /**
   * A whole LINE, RECT or OVAL gesture (press at a, any drags, release at b)
   * commits exactly the one shape from a to b and ends with no gesture.
   */
  lemma ShapeGestureCommitsOnce(s: PanelState, a: Point, ps: seq<Point>, b: Point)
    requires s.tool == Line || s.tool == Rect || s.tool == Oval
    ensures |FinalStrokes(s.tool, a, b, PenOf(s))| == 1
    ensures Release(Drags(Press(s, a), ps), b).committed == s.committed + FinalStrokes(s.tool, a, b, PenOf(s))
    ensures Release(Drags(Press(s, a), ps), b).start == None
    ensures Release(Drags(Press(s, a), ps), b).last == None
  {
    ShapeDragsCommitNothing(Press(s, a), ps);
  }

  /**
   * A whole pencil gesture commits a dot at the press point and then one
   * segment per drag along the path; the release adds nothing.
   */
  lemma PencilGestureTracesPath(s: PanelState, a: Point, ps: seq<Point>, b: Point)
    requires s.tool == Pencil
    ensures Release(Drags(Press(s, a), ps), b).committed
      == s.committed + [Stroke(Segment(a, a), PenOf(s))] + Chain([a] + ps, PenOf(s))
    ensures Release(Drags(Press(s, a), ps), b).start == None
    ensures Release(Drags(Press(s, a), ps), b).last == None
  {
    PencilDragsTracePath(Press(s, a), ps);
  }

  /** Release always ends the gesture and commits at most one shape. */
  lemma ReleaseEndsGesture(s: PanelState, p: Point)
    ensures Release(s, p).start == None && Release(s, p).last == None
    ensures Release(s, p).polygon == s.polygon && Release(s, p).drawing == s.drawing
    ensures Release(s, p).committed != s.committed <==>
      (s.tool == Line || s.tool == Rect || s.tool == Oval) && s.start.Some? && s.last.Some?
    ensures Release(s, p).committed != s.committed ==>
      Release(s, p).committed == s.committed + [Stroke(ShapeFor(s.tool, s.start.value, p).value, PenOf(s))]
  {
  }

  /**
   * A POLYGON click closes the polygon exactly when one is in progress, the
   * click is within the closing radius of the first vertex and more than two
   * vertices exist; it then commits one edge per vertex, the last edge
   * returning to the first vertex.  Otherwise a POLYGON click places a vertex
   * (starting a new polygon when none is in progress) and commits nothing.
   */
  lemma PolygonClickOutcome(s: PanelState, p: Point)
    requires Inv(s) && s.tool == Polygon
    ensures var t := Click(s, p);
      var closes := s.drawing && WithinClosingRadius(p, s.polygon[0]) && |s.polygon| > 2;
      (closes ==>
        t.polygon == [] && !t.drawing
        && |t.committed| >= |s.committed|
        && t.committed[..|s.committed|] == s.committed
        && ClosedPolygonEdges(t.committed[|s.committed|..], s.polygon, PenOf(s)))
      && (!closes ==>
        t.committed == s.committed && t.drawing
        && t.polygon == (if s.drawing then s.polygon + [p] else [p]))
  {
    if s.drawing && WithinClosingRadius(p, s.polygon[0]) && |s.polygon| > 2 {
      ClosedChain(s.polygon, PenOf(s));
    }
  }

  /** Clicks with any other tool change nothing. */
  lemma OtherToolClickIgnored(s: PanelState, p: Point)
    requires Inv(s) && s.tool != Polygon
    ensures Click(s, p) == s
  {
  }

  /** Applies one click per point, in order. */
  function Clicks(s: PanelState, ps: seq<Point>): (t: PanelState)
    requires Inv(s)
    ensures Inv(t)
    decreases |ps|
  {
    if ps == [] then s else Clicks(Click(s, ps[0]), ps[1..])
  }

  /**
   * Clicks that do not close an in-progress polygon append their points to
   * the vertex list, in click order, and commit nothing.
   */
  lemma {:induction false} ClicksAppendVertices(s: PanelState, ps: seq<Point>)
    requires Inv(s) && s.tool == Polygon && s.drawing
    requires forall i :: 0 <= i < |ps| ==> !(WithinClosingRadius(ps[i], s.polygon[0]) && |s.polygon| + i > 2)
    ensures Clicks(s, ps) == s.(polygon := s.polygon + ps)
    decreases |ps|
  {
    if ps != [] {
      var t := Click(s, ps[0]);
      assert t == s.(polygon := s.polygon + [ps[0]]);
      forall i | 0 <= i < |ps[1..]|
        ensures !(WithinClosingRadius(ps[1..][i], t.polygon[0]) && |t.polygon| + i > 2)
      {
        assert ps[1..][i] == ps[i + 1];
      }
      ClicksAppendVertices(t, ps[1..]);
      assert s.polygon + [ps[0]] + ps[1..] == s.polygon + ps;
    }
  }

  /**
   * Building a polygon from scratch: clicking v0, v1, ..., vn-1 (no later
   * click closing early) and then a point near v0 commits the closed polygon
   * v0 -> v1 -> ... -> vn-1 -> v0 and leaves no polygon in progress.  With
   * fewer than three vertices the closing click is just another vertex.
   */
  lemma {:induction false} PolygonGesture(s: PanelState, vs: seq<Point>, p: Point)
    requires Inv(s) && s.tool == Polygon && !s.drawing && |vs| >= 1
    requires forall i :: 3 <= i < |vs| ==> !WithinClosingRadius(vs[i], vs[0])
    requires WithinClosingRadius(p, vs[0])
    ensures Clicks(s, vs).polygon == vs && Clicks(s, vs).committed == s.committed
    ensures |vs| > 2 ==>
      Click(Clicks(s, vs), p) == s.(committed := s.committed + Chain(vs + [vs[0]], PenOf(s)), polygon := [])
    ensures |vs| <= 2 ==> Click(Clicks(s, vs), p).polygon == vs + [p]
  {
    var t := Click(s, vs[0]);
    assert t == s.(polygon := [vs[0]], drawing := true);
    forall i | 0 <= i < |vs[1..]|
      ensures !(WithinClosingRadius(vs[1..][i], t.polygon[0]) && |t.polygon| + i > 2)
    {
      assert vs[1..][i] == vs[i + 1];
    }
    ClicksAppendVertices(t, vs[1..]);
    assert [vs[0]] + vs[1..] == vs;
  }

  /**
   * The preview of a LINE, RECT or OVAL drag is exactly what releasing at
   * the tracked point would commit.
   */
  lemma PreviewMatchesRelease(s: PanelState)
    requires s.tool == Line || s.tool == Rect || s.tool == Oval
    requires s.start.Some? && s.last.Some?
    ensures |Preview(s)| == 1
    ensures Release(s, s.last.value).committed == s.committed + Preview(s)
  {
  }

  /**
   * While a polygon with more than two vertices is being built and the
   * pointer rests on its first vertex, the preview is exactly the closed
   * polygon that a click there commits.
   */
  lemma PolygonPreviewMatchesClose(s: PanelState)
    requires Inv(s) && s.tool == Polygon && s.drawing && |s.polygon| > 2
    requires s.last == Some(s.polygon[0])
    ensures Click(s, s.polygon[0]).committed == s.committed + Preview(s)
  {
    var first, pen := s.polygon[0], PenOf(s);
    ClosingRadiusBounds(first, first);
    ChainSnoc(s.polygon, first, pen);
    assert ShapePreview(s) == [];
    assert PolygonPreview(s) == Chain(s.polygon, pen) + [Stroke(Segment(s.polygon[|s.polygon| - 1], first), pen)];
    assert Click(s, first).committed == s.committed + Chain(s.polygon + [first], pen);
  }

  /** The pencil and an idle polygon show no preview. */
  lemma NoPreviewWithoutGesture(s: PanelState)
    requires s.tool == Pencil || (s.tool == Polygon && !s.drawing)
    ensures Preview(s) == []
  {
  }
}
