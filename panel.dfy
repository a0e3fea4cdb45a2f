/**
 * The drawing panel: a canvas plus the state of the gesture in progress,
 * updated in place by the mouse and component handlers.  Each handler is
 * proved to move the panel's fields as the transition of the same name in
 * module Gesture says, and to keep Valid().
 *
 * The panel's size (getWidth(), getHeight()) is passed in as vw, vh to every
 * handler that may have to create the canvas.  Where the panel would draw on
 * the canvas, the model appends a Stroke to `committed` and leaves the pixels
 * to the rasteriser.
 */
module Panel {
  import opened Geometry
  import opened Raster
  import Gesture

  class DrawingPanel {
    var canvas: Canvas?
    var startPoint: Option<Point>
    var lastPoint: Option<Point>
    var currentColor: Color
    var currentTool: Tool
    var currentThickness: int
    var polygonPoints: seq<Point>
    var drawingPolygon: bool
    /** Every shape drawn on the canvas so far, in drawing order. */
    var committed: seq<Stroke>

    /** The panel's fields other than the canvas. */
    function State(): Gesture.PanelState
      reads this
    {
      Gesture.PanelState(currentTool, currentColor, currentThickness, startPoint, lastPoint,
                         polygonPoints, drawingPolygon, committed)
    }

    predicate Valid()
      reads this
    {
      Gesture.Inv(State()) && (canvas != null ==> canvas.Valid())
    }

    /** The pixel buffer, once there is one: what clearing may change. */
    function CanvasPixels(): set<object>
      reads this
    {
      if canvas == null then {} else {canvas.pixels}
    }

    constructor ()
      ensures Valid() && canvas == null && State() == Gesture.Initial()
    {
      canvas := null;
      startPoint, lastPoint := None, None;
      currentColor := Black;
      currentTool := Pencil;
      currentThickness := 1;
      polygonPoints := [];
      drawingPolygon := false;
      committed := [];
    }

    // ------------------------------------------------------------ settings

    method SetTool(t: Tool)
      requires Valid()
      modifies this`currentTool
      ensures Valid() && State() == Gesture.SetTool(old(State()), t)
    {
      currentTool := t;
    }

    method SetThickness(t: int)
      requires Valid()
      modifies this`currentThickness
      ensures Valid() && State() == Gesture.SetThickness(old(State()), t)
    {
      currentThickness := Max(1, t);
    }

    /** c is None for a null colour. */
    method SetColor(c: Option<Color>)
      requires Valid()
      modifies this`currentColor
      ensures Valid() && State() == Gesture.SetColor(old(State()), c)
    {
      if c.Some? {
        currentColor := c.value;
      }
    }

    method GetColor() returns (c: Color)
      ensures c == currentColor
    {
      c := currentColor;
    }

    // ------------------------------------------------------------ canvas

    /** Creates the canvas, white and at least 1 by 1, unless it already exists. */
    method EnsureCanvas(vw: int, vh: int)
      requires Valid()
      modifies this`canvas
      ensures Valid() && canvas != null
      ensures old(canvas) != null ==> canvas == old(canvas)
      ensures old(canvas) == null ==> fresh(canvas) && fresh(canvas.pixels) && canvas.Blank(Max(1, vw), Max(1, vh))
    {
      if canvas == null {
        var w, h := Max(1, vw), Max(1, vh);
        var c := new Canvas(w, h);
        c.Fill(White);
        canvas := c;
      }
    }

    /** Paints the whole canvas white; the gesture state is left as it is. */
    method ClearCanvas(vw: int, vh: int)
      requires Valid()
      modifies this`canvas, CanvasPixels()
      ensures Valid() && canvas != null && canvas.Filled(White)
      ensures old(canvas) != null ==> canvas == old(canvas)
      ensures old(canvas) == null ==> fresh(canvas) && canvas.Blank(Max(1, vw), Max(1, vh))
      ensures State() == old(State())
    {
      EnsureCanvas(vw, vh);
      canvas.Fill(White);
    }

    /**
     * Grows the canvas when the panel has become larger than it on some axis:
     * the new canvas is as large as the old one and the panel on each axis,
     * keeps the old pixels where they were and is white elsewhere.  A panel
     * no larger than the canvas leaves the canvas alone.
     */
    method ComponentResized(vw: int, vh: int)
      requires Valid()
      modifies this`canvas
      ensures Valid() && canvas != null && State() == old(State())
      ensures old(canvas) == null ==> fresh(canvas) && canvas.Blank(Max(1, vw), Max(1, vh))
      ensures old(canvas) != null && Max(1, vw) <= old(canvas).width && Max(1, vh) <= old(canvas).height ==>
        canvas == old(canvas) && unchanged(canvas.pixels)
      ensures old(canvas) != null && !(Max(1, vw) <= old(canvas).width && Max(1, vh) <= old(canvas).height) ==>
        fresh(canvas) && fresh(canvas.pixels)
        && canvas.width == Max(Max(1, vw), old(canvas).width)
        && canvas.height == Max(Max(1, vh), old(canvas).height)
        && unchanged(old(canvas).pixels)
        && canvas.HoldsAtOrigin(old(canvas))
    {
      if canvas == null {
        EnsureCanvas(vw, vh);
        return;
      }
      var w, h := Max(1, vw), Max(1, vh);
      if w <= canvas.width && h <= canvas.height {
        return;
      }
      var newCanvas := new Canvas(Max(w, canvas.width), Max(h, canvas.height));
      newCanvas.Fill(White);
      newCanvas.DrawImage(canvas);
      canvas := newCanvas;
    }

    // ------------------------------------------------------------ drawing

    /** Draws the current tool's shape from a to b, in the current colour and thickness. */
    method DrawFinalShape(a: Point, b: Point, vw: int, vh: int)
      requires Valid()
      modifies this`canvas, this`committed
      ensures Valid() && canvas != null
      ensures old(canvas) != null ==> canvas == old(canvas)
      ensures old(canvas) == null ==> fresh(canvas) && canvas.Blank(Max(1, vw), Max(1, vh))
      ensures committed == old(committed) + Gesture.FinalStrokes(currentTool, a, b, Pen(currentColor, currentThickness))
    {
      EnsureCanvas(vw, vh);
      var pen := Pen(currentColor, currentThickness);
      match currentTool {
        case Line => committed := committed + [Stroke(Segment(a, b), pen)];
        case Rect => committed := committed + [Stroke(Rectangle(NormalizedBox(a, b)), pen)];
        case Oval => committed := committed + [Stroke(Ellipse(NormalizedBox(a, b)), pen)];
        case _ =>
      }
    }

    /** Draws one segment between each pair of consecutive polygon vertices. */
    method DrawFinalPolygon(vw: int, vh: int)
      requires Valid()
      modifies this`canvas, this`committed
      ensures Valid() && canvas != null
      ensures old(canvas) != null ==> canvas == old(canvas)
      ensures old(canvas) == null ==> fresh(canvas) && canvas.Blank(Max(1, vw), Max(1, vh))
      ensures committed == old(committed) + Chain(polygonPoints, Pen(currentColor, currentThickness))
    {
      EnsureCanvas(vw, vh);
      var pen := Pen(currentColor, currentThickness);
      var n := |polygonPoints|;
      var i := 0;
      while i < n - 1
        invariant 0 <= i <= Max(n - 1, 0)
        invariant n >= 1 ==> committed == old(committed) + Chain(polygonPoints[..i + 1], pen)
        invariant n == 0 ==> committed == old(committed)
        modifies this`committed
      {
        ChainSnoc(polygonPoints[..i + 1], polygonPoints[i + 1], pen);
        assert polygonPoints[..i + 1] + [polygonPoints[i + 1]] == polygonPoints[..i + 2];
        committed := committed + [Stroke(Segment(polygonPoints[i], polygonPoints[i + 1]), pen)];
        i := i + 1;
      }
      assert n >= 1 ==> polygonPoints[..i + 1] == polygonPoints;
    }

    // ------------------------------------------------------------ mouse

    method MousePressed(p: Point, vw: int, vh: int)
      requires Valid()
      modifies this`canvas, this`startPoint, this`lastPoint, this`committed
      ensures Valid() && canvas != null
      ensures old(canvas) != null ==> canvas == old(canvas)
      ensures old(canvas) == null ==> fresh(canvas) && canvas.Blank(Max(1, vw), Max(1, vh))
      ensures State() == Gesture.Press(old(State()), p)
    {
      EnsureCanvas(vw, vh);
      startPoint := Some(p);
      lastPoint := startPoint;
      if currentTool == Pencil {
        committed := committed + [Stroke(Segment(p, p), Pen(currentColor, currentThickness))];
      }
    }

    /** A drag only ever follows a press, which created the canvas and set lastPoint. */
    method MouseDragged(p: Point)
      requires Valid()
      requires currentTool == Pencil ==> canvas != null && lastPoint.Some?
      modifies this`lastPoint, this`committed
      ensures Valid() && State() == Gesture.Drag(old(State()), p)
    {
      if currentTool == Pencil {
        committed := committed + [Stroke(Segment(lastPoint.value, p), Pen(currentColor, currentThickness))];
        lastPoint := Some(p);
      } else if currentTool != Polygon {
        lastPoint := Some(p);
      }
    }

    method MouseReleased(p: Point, vw: int, vh: int)
      requires Valid()
      modifies this`canvas, this`startPoint, this`lastPoint, this`committed
      ensures Valid() && State() == Gesture.Release(old(State()), p)
      ensures old(canvas) != null ==> canvas == old(canvas)
      ensures old(canvas) == null && canvas != null ==> fresh(canvas) && canvas.Blank(Max(1, vw), Max(1, vh))
      ensures committed != old(committed) ==> canvas != null
      ensures committed == old(committed) ==> canvas == old(canvas)
    {
      if currentTool != Pencil && currentTool != Polygon && startPoint.Some? && lastPoint.Some? {
        DrawFinalShape(startPoint.value, p, vw, vh);
      }
      startPoint := None;
      lastPoint := None;
    }

    method MouseClicked(p: Point, vw: int, vh: int)
      requires Valid()
      modifies this`canvas, this`polygonPoints, this`drawingPolygon, this`committed
      ensures Valid() && State() == Gesture.Click(old(State()), p)
      ensures old(canvas) != null ==> canvas == old(canvas)
      ensures old(canvas) == null && canvas != null ==> fresh(canvas) && canvas.Blank(Max(1, vw), Max(1, vh))
      ensures committed != old(committed) ==> canvas != null
      ensures committed == old(committed) ==> canvas == old(canvas)
    {
      if currentTool == Polygon {
        if !drawingPolygon {
          polygonPoints := [p];
          drawingPolygon := true;
        } else {
          var first := polygonPoints[0];
          if WithinClosingRadius(p, first) && |polygonPoints| > 2 {
            polygonPoints := polygonPoints + [first];
            DrawFinalPolygon(vw, vh);
            polygonPoints := [];
            drawingPolygon := false;
          } else {
            polygonPoints := polygonPoints + [p];
          }
        }
      }
    }

    method MouseMoved(p: Point)
      requires Valid()
      modifies this`lastPoint
      ensures Valid() && State() == Gesture.Move(old(State()), p)
    {
      if currentTool == Polygon && drawingPolygon {
        lastPoint := Some(p);
      }
    }

    // ------------------------------------------------------------ repaint

    /**
     * A repaint: makes sure the canvas exists and returns the translucent
     * overlay drawn over it on screen.  Neither the canvas nor the gesture
     * state changes.
     */
    method PaintComponent(vw: int, vh: int) returns (overlay: seq<Stroke>)
      requires Valid()
      modifies this`canvas
      ensures Valid() && canvas != null && State() == old(State())
      ensures old(canvas) != null ==> canvas == old(canvas) && unchanged(canvas.pixels)
      ensures old(canvas) == null ==> fresh(canvas) && canvas.Blank(Max(1, vw), Max(1, vh))
      ensures overlay == Gesture.Preview(State())
    {
      EnsureCanvas(vw, vh);
      var pen := Pen(currentColor, currentThickness);
      overlay := [];
      if startPoint.Some? && lastPoint.Some? && currentTool != Pencil && currentTool != Polygon {
        var a, b := startPoint.value, lastPoint.value;
        var box := NormalizedBox(a, b);
        match currentTool {
          case Line => overlay := [Stroke(Segment(a, b), pen)];
          case Rect => overlay := [Stroke(Rectangle(box), pen)];
          case Oval => overlay := [Stroke(Ellipse(box), pen)];
          case _ =>
        }
      }
      if currentTool == Polygon && drawingPolygon && |polygonPoints| > 0 {
        var i := 0;
        while i < |polygonPoints| - 1
          invariant 0 <= i <= |polygonPoints| - 1
          invariant overlay == Chain(polygonPoints[..i + 1], pen)
          modifies {}
        {
          ChainSnoc(polygonPoints[..i + 1], polygonPoints[i + 1], pen);
          assert polygonPoints[..i + 1] + [polygonPoints[i + 1]] == polygonPoints[..i + 2];
          overlay := overlay + [Stroke(Segment(polygonPoints[i], polygonPoints[i + 1]), pen)];
          i := i + 1;
        }
        assert polygonPoints[..i + 1] == polygonPoints;
        if lastPoint.Some? {
          overlay := overlay + [Stroke(Segment(polygonPoints[|polygonPoints| - 1], lastPoint.value), pen)];
        }
      }
    }
  }
}
