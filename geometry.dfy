/**
 * Values shared by the drawing panel: points, colours, the five tools, and the
 * shapes the panel hands to the rasteriser.  Rasterisation itself (stroke caps,
 * joins, clipping) is not modelled: a committed shape is recorded as a Stroke.
 */
module Geometry {

  /** A nullable reference of the source (a Point or Color that may be null). */
  datatype Option<T> = None | Some(value: T)

  /** An integer pixel position, as delivered by a mouse event. */
  datatype Point = Point(x: int, y: int)

  /** A colour with red, green, blue and alpha channels (0..255 each). */
  datatype Color = Rgba(red: int, green: int, blue: int, alpha: int)

  const White := Rgba(255, 255, 255, 255)
  const Black := Rgba(0, 0, 0, 255)
  /** The value of every pixel of a freshly allocated ARGB image. */
  const Transparent := Rgba(0, 0, 0, 0)

  /** The drawing tools, in the order the panel declares them. */
  datatype Tool = Pencil | Line | Rect | Oval | Polygon

  /** An axis-aligned bounding box: top-left corner, width and height. */
  datatype Box = Box(x: int, y: int, w: int, h: int)

  /** What one drawLine, drawRect or drawOval call asks the rasteriser to draw. */
  datatype Shape = Segment(from: Point, to: Point) | Rectangle(box: Box) | Ellipse(box: Box)

  /** The stroke style in force when a shape is drawn. */
  datatype Pen = Pen(color: Color, thickness: int)

  datatype Stroke = Stroke(shape: Shape, pen: Pen)

  function Min(a: int, b: int): (m: int) { if a <= b then a else b }
  function Max(a: int, b: int): (m: int) { if a >= b then a else b }
  function Abs(a: int): (m: int) { if a < 0 then -a else a }

  /**
   * The box spanned by two opposite corners, whichever of them is the top-left
   * one: the smallest box that has a and b on its boundary corners.
   */
  function NormalizedBox(a: Point, b: Point): (r: Box)
    ensures r.w >= 0 && r.h >= 0
    ensures r.x <= a.x <= r.x + r.w && r.x <= b.x <= r.x + r.w
    ensures r.y <= a.y <= r.y + r.h && r.y <= b.y <= r.y + r.h
    ensures (r.x == a.x && r.x + r.w == b.x) || (r.x == b.x && r.x + r.w == a.x)
    ensures (r.y == a.y && r.y + r.h == b.y) || (r.y == b.y && r.y + r.h == a.y)
  {
    Box(Min(a.x, b.x), Min(a.y, b.y), Abs(a.x - b.x), Abs(a.y - b.y))
  }

  /** Swapping the two corners of a drag gives the same box. */
  lemma BoxSymmetric(a: Point, b: Point)
    ensures NormalizedBox(a, b) == NormalizedBox(b, a)
  {
  }

  /**
   * The shape a two-point gesture of the given tool finally draws: a segment
   * for LINE, the outline of the normalised box for RECT and OVAL, and nothing
   * for the other tools.
   */
  function ShapeFor(tool: Tool, a: Point, b: Point): (r: Option<Shape>)
    ensures r.Some? <==> tool == Line || tool == Rect || tool == Oval
    ensures r.Some? && r.value.Segment? <==> tool == Line
    ensures r.Some? && !r.value.Segment? ==> r.value.box.w >= 0 && r.value.box.h >= 0
  {
    match tool
    case Line => Some(Segment(a, b))
    case Rect => Some(Rectangle(NormalizedBox(a, b)))
    case Oval => Some(Ellipse(NormalizedBox(a, b)))
    case _ => None
  }

  /**
   * The direction of a RECT or OVAL drag does not matter, and a LINE drag in
   * the opposite direction joins the same two endpoints.
   */
  lemma DragDirectionIrrelevant(tool: Tool, a: Point, b: Point)
    ensures tool == Rect || tool == Oval ==> ShapeFor(tool, a, b) == ShapeFor(tool, b, a)
    ensures tool == Line ==>
      ShapeFor(tool, a, b) == Some(Segment(a, b)) && ShapeFor(tool, b, a) == Some(Segment(b, a))
  {
    BoxSymmetric(a, b);
  }

  /** The strokes of one straight segment between each adjacent pair of points. */
  function Chain(pts: seq<Point>, pen: Pen): (r: seq<Stroke>)
    ensures |r| == if |pts| < 2 then 0 else |pts| - 1
    ensures forall i :: 0 <= i < |r| ==> r[i] == Stroke(Segment(pts[i], pts[i + 1]), pen)
    decreases |pts|
  {
    if |pts| < 2 then [] else [Stroke(Segment(pts[0], pts[1]), pen)] + Chain(pts[1..], pen)
  }

  /** Extending a non-empty point list by one point adds exactly one segment at the end. */
  lemma ChainSnoc(pts: seq<Point>, p: Point, pen: Pen)
    requires |pts| >= 1
    ensures Chain(pts + [p], pen) == Chain(pts, pen) + [Stroke(Segment(pts[|pts| - 1], p), pen)]
  {
    var lhs, rhs := Chain(pts + [p], pen), Chain(pts, pen) + [Stroke(Segment(pts[|pts| - 1], p), pen)];
    assert |lhs| == |rhs|;
    forall i | 0 <= i < |lhs| ensures lhs[i] == rhs[i] {
      assert (pts + [p])[i] == pts[i];
      if i < |pts| - 1 {
        assert (pts + [p])[i + 1] == pts[i + 1];
      } else {
        assert (pts + [p])[i + 1] == p;
      }
    }
  }

  /** strokes are the edges of the closed polygon through pts: vertex i to vertex i + 1, wrapping round. */
  predicate ClosedPolygonEdges(strokes: seq<Stroke>, pts: seq<Point>, pen: Pen)
  {
    |strokes| == |pts|
    && forall i {:trigger strokes[i]} :: 0 <= i < |pts| ==>
         strokes[i] == Stroke(Segment(pts[i], pts[(i + 1) % |pts|]), pen)
  }

  /** Closing a chain back to its first point gives one segment per point, the last one closing the loop. */
  lemma ClosedChain(pts: seq<Point>, pen: Pen)
    requires |pts| >= 1
    ensures ClosedPolygonEdges(Chain(pts + [pts[0]], pen), pts, pen)
  {
    var c := Chain(pts + [pts[0]], pen);
    forall i | 0 <= i < |pts|
      ensures c[i] == Stroke(Segment(pts[i], pts[(i + 1) % |pts|]), pen)
    {
      assert (pts + [pts[0]])[i] == pts[i];
      if i + 1 < |pts| {
        assert (i + 1) % |pts| == i + 1;
        assert (pts + [pts[0]])[i + 1] == pts[i + 1];
      } else {
        assert (i + 1) % |pts| == 0;
        assert (pts + [pts[0]])[i + 1] == pts[0];
      }
    }
  }

  /**
   * The exact integer form of "the distance from p to q is less than 10":
   * for integer coordinates sqrt(dx*dx + dy*dy) < 10 exactly when
   * dx*dx + dy*dy < 100.
   */
  predicate WithinClosingRadius(p: Point, q: Point)
  {
    (p.x - q.x) * (p.x - q.x) + (p.y - q.y) * (p.y - q.y) < 100
  }

  /**
   * The closing radius is symmetric, accepts every click within 7 pixels of q
   * on both axes, and rejects every click 10 or more pixels away on either axis.
   */
  lemma ClosingRadiusBounds(p: Point, q: Point)
    ensures WithinClosingRadius(p, q) <==> WithinClosingRadius(q, p)
    ensures WithinClosingRadius(p, q) ==> Abs(p.x - q.x) < 10 && Abs(p.y - q.y) < 10
    ensures Abs(p.x - q.x) <= 7 && Abs(p.y - q.y) <= 7 ==> WithinClosingRadius(p, q)
    ensures WithinClosingRadius(p, p)
  {
    var dx, dy := p.x - q.x, p.y - q.y;
    assert (q.x - p.x) * (q.x - p.x) == dx * dx;
    assert (q.y - p.y) * (q.y - p.y) == dy * dy;
    SquareBound(dx);
    SquareBound(dy);
  }

  /** Squares are non-negative and grow with the absolute value. */
  lemma SquareBound(d: int)
    ensures d * d >= 0
    ensures Abs(d) >= 10 ==> d * d >= 100
    ensures Abs(d) <= 7 ==> d * d <= 49
  {
    var a := Abs(d);
    assert d * d == a * a;
    if a >= 10 {
      assert a * a >= 10 * a;
    }
    if a <= 7 {
      assert a * a <= 7 * a;
    }
  }
}
