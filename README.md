# Paint drawing panel, modelled in Dafny

This project models the core of the paint program's `DrawingPanel`. The panel
owns a persistent ARGB pixel buffer (the canvas) and five drawing tools:
PENCIL, LINE, RECT, OVAL and POLYGON. It turns mouse events into shapes that
are either committed to the canvas for good or only previewed on screen.

- `geometry.dfy` (module `Geometry`) holds the values: points, colours, tools,
  bounding boxes, the shapes handed to the rasteriser (`Segment`, `Rectangle`,
  `Ellipse`) and the stroke style (`Pen`). It also holds the normalised
  bounding box of a drag, the shape each tool draws, the chain of segments
  through a vertex list, and the exact integer closing-radius test.
- `raster.dfy` (module `Raster`) holds class `Canvas`, the image. It is an
  `array2<Color>` of fixed size that is created transparent, can be filled
  with one colour, and can have another image drawn in at its origin.
- `gesture.dfy` (module `Gesture`) is the specification of the state machine.
  A `PanelState` is a snapshot of the panel's fields other than the canvas.
  Each handler has a pure transition function. The lemmas state what whole
  gestures commit: pencil paths, one shape per LINE/RECT/OVAL drag, and closed
  polygons. They also show that the preview equals what the next release or
  closing click commits.
- `panel.dfy` (module `Panel`) holds class `DrawingPanel`, with the source's
  fields. Every handler changes those fields in place. Each handler is proved
  to move `State()` exactly as its `Gesture` transition says and to keep
  `Valid()`. Its canvas behaviour is stated directly: lazy white creation,
  clearing, and growing without losing pixels.

Drawing on the canvas is modelled as appending a `Stroke` (shape plus colour
and thickness) to the panel's `committed` list. There is one entry per
`drawLine`, `drawRect` or `drawOval` call, in call order. The pixels those
calls produce are not modelled. The panel's size, read in the source with
`getWidth()`/`getHeight()`, is passed to the handlers as `vw`, `vh`. A null
colour is `None`.

Two behaviours of the code are kept as written:
- `setTool` changes only the tool. A polygon in progress survives a tool
  switch, and its vertices are still there when POLYGON is selected again.
- `clearCanvas` repaints the canvas white and leaves the gesture state alone.
  It does not reset the gesture to idle.

The closing test `p.distance(first) < 10` is modelled as
`dx*dx + dy*dy < 100`. For integer coordinates this is exact.

## Model

| member | source | states |
|---|---|---|
| `Geometry.NormalizedBox` | paint/src/DrawingPanel.java:119-122 | the box has non-negative width and height, and its left/right and top/bottom edges are exactly the two drag points, in whichever order |
| `Geometry.BoxSymmetric` | paint/src/DrawingPanel.java:72-75 | swapping the two corners of a drag gives the same box |
| `Geometry.ShapeFor` | paint/src/DrawingPanel.java:117-124 | a shape is drawn exactly for LINE, RECT and OVAL; only LINE draws a segment; RECT/OVAL boxes have non-negative size |
| `Geometry.DragDirectionIrrelevant` | paint/src/DrawingPanel.java:117-124 | a RECT or OVAL drag from b to a draws the same shape as one from a to b; a LINE drag joins the same endpoints |
| `Geometry.Chain` | paint/src/DrawingPanel.java:134-139 | n vertices give n-1 segments, segment i joining vertex i to vertex i+1; fewer than two give none |
| `Geometry.ChainSnoc` | paint/src/DrawingPanel.java:94-98 | appending a vertex adds exactly one segment, from the old last vertex to the new one |
| `Geometry.ClosedChain` | paint/src/DrawingPanel.java:199-201 | the chain through the vertices plus the first vertex again has one edge per vertex, edge i joining vertex i to vertex (i+1) mod n |
| `Geometry.ClosingRadiusBounds` | paint/src/DrawingPanel.java:199 | the closing test is symmetric, accepts the first vertex itself and every click within 7 pixels on both axes, and rejects every click 10 or more pixels away on an axis |
| `Gesture.Initial` | paint/src/DrawingPanel.java:15-22 | a new panel has the pencil, black, thickness 1, no gesture, no polygon and nothing drawn, and satisfies the invariant |
| `Gesture.HandlersKeepInv` | paint/src/DrawingPanel.java:189-218 | every setter and mouse handler keeps thickness >= 1 and "a polygon is in progress exactly when it has a vertex" |
| `Gesture.SettingsChangeOneField` | paint/src/DrawingPanel.java:32-34 | thickness becomes max(1, t); a null colour changes nothing; a tool switch changes only the tool and keeps the polygon in progress |
| `Gesture.MoveAndDragKeepVertices` | paint/src/DrawingPanel.java:161-218 | moves and drags never touch the vertex list; a move updates only the tracked point, and only with POLYGON while a polygon is in progress |
| `Gesture.ShapeDragsCommitNothing` | paint/src/DrawingPanel.java:161-175 | any number of LINE/RECT/OVAL drags commit nothing and only move the tracked point to the last drag point |
| `Gesture.PencilDragsTracePath` | paint/src/DrawingPanel.java:161-175 | pencil drags commit one segment each, together exactly the path from the previous position through every drag point, and leave the last drag point tracked |
| `Gesture.ShapeGestureCommitsOnce` | paint/src/DrawingPanel.java:147-186 | press at a, any drags, release at b with LINE/RECT/OVAL commits exactly one shape, from a to b, and ends with no gesture |
| `Gesture.PencilGestureTracesPath` | paint/src/DrawingPanel.java:147-186 | a pencil gesture commits a dot at the press point and then the path through the drag points; the release adds nothing |
| `Gesture.ReleaseEndsGesture` | paint/src/DrawingPanel.java:177-186 | after any release both tracked points are null; it commits something exactly for LINE/RECT/OVAL with both points set, and then exactly the tool's shape from the press point to the release point |
| `Gesture.PolygonClickOutcome` | paint/src/DrawingPanel.java:189-210 | a POLYGON click closes exactly when a polygon is in progress, the click is within radius 10 of the first vertex and more than two vertices exist; it then commits one edge per vertex (closing edge included) and clears the polygon; otherwise it starts or extends the vertex list and commits nothing |
| `Gesture.OtherToolClickIgnored` | paint/src/DrawingPanel.java:189-190 | a click with any tool other than POLYGON changes nothing |
| `Gesture.ClicksAppendVertices` | paint/src/DrawingPanel.java:204-206 | clicks that do not close the polygon append their points to the vertex list in click order and commit nothing |
| `Gesture.PolygonGesture` | paint/src/DrawingPanel.java:189-210 | clicking v0..vn-1 builds exactly that vertex list; a further click near v0 commits the closed polygon v0..vn-1,v0 when n > 2 and is just another vertex when n <= 2 |
| `Gesture.PreviewMatchesRelease` | paint/src/DrawingPanel.java:66-82 | during a LINE/RECT/OVAL drag the preview is one shape, exactly the one a release at the tracked point would commit |
| `Gesture.PolygonPreviewMatchesClose` | paint/src/DrawingPanel.java:87-107 | with more than two vertices and the pointer on the first vertex, the polygon preview is exactly the closed polygon a click there commits |
| `Gesture.NoPreviewWithoutGesture` | paint/src/DrawingPanel.java:66-87 | the pencil, and POLYGON with no polygon in progress, show no preview |
| `Raster.Canvas.constructor` | paint/src/DrawingPanel.java:50 | a new image has the requested size and every pixel transparent |
| `Raster.Canvas.Fill` | paint/src/DrawingPanel.java:51-53 | after filling, every pixel has the fill colour |
| `Raster.Canvas.DrawImage` | paint/src/DrawingPanel.java:241 | every pixel the source image covers takes its value at the same coordinates; every other pixel keeps its own |
| `Panel.DrawingPanel.constructor` | paint/src/DrawingPanel.java:14-29 | a new panel has no canvas and the initial state |
| `Panel.DrawingPanel.SetTool` | paint/src/DrawingPanel.java:32 | only the tool changes |
| `Panel.DrawingPanel.SetThickness` | paint/src/DrawingPanel.java:33 | only the thickness changes, to max(1, t) |
| `Panel.DrawingPanel.SetColor` | paint/src/DrawingPanel.java:34 | the colour changes to c unless c is null |
| `Panel.DrawingPanel.GetColor` | paint/src/DrawingPanel.java:35 | returns the current colour |
| `Panel.DrawingPanel.EnsureCanvas` | paint/src/DrawingPanel.java:46-56 | an existing canvas is kept; otherwise a fresh canvas of max(1, w) by max(1, h) is created, all white |
| `Panel.DrawingPanel.ClearCanvas` | paint/src/DrawingPanel.java:37-44 | afterwards every pixel is white, an existing canvas keeps its identity and size, and the gesture state is unchanged |
| `Panel.DrawingPanel.ComponentResized` | paint/src/DrawingPanel.java:225-246 | no canvas: create it white; requested size within the canvas on both axes: same canvas, same pixels; otherwise a fresh canvas of the per-axis maximum size holding the old pixels at their coordinates and white elsewhere; the gesture state is unchanged |
| `Panel.DrawingPanel.DrawFinalShape` | paint/src/DrawingPanel.java:111-126 | ensures the canvas and commits the current tool's shape from a to b in the current colour and thickness |
| `Panel.DrawingPanel.DrawFinalPolygon` | paint/src/DrawingPanel.java:128-143 | ensures the canvas and commits one segment per consecutive pair of vertices, in order |
| `Panel.DrawingPanel.MousePressed` | paint/src/DrawingPanel.java:147-159 | the canvas exists afterwards and the fields move as Gesture.Press says |
| `Panel.DrawingPanel.MouseDragged` | paint/src/DrawingPanel.java:161-175 | the fields move as Gesture.Drag says |
| `Panel.DrawingPanel.MouseReleased` | paint/src/DrawingPanel.java:177-186 | the fields move as Gesture.Release says; a commit implies the canvas exists, and a release that commits nothing leaves the canvas (or its absence) as it was |
| `Panel.DrawingPanel.MouseClicked` | paint/src/DrawingPanel.java:188-210 | the fields move as Gesture.Click says; a commit implies the canvas exists, and a click that commits nothing leaves the canvas (or its absence) as it was |
| `Panel.DrawingPanel.MouseMoved` | paint/src/DrawingPanel.java:212-218 | the fields move as Gesture.Move says |
| `Panel.DrawingPanel.PaintComponent` | paint/src/DrawingPanel.java:59-108 | the canvas exists afterwards, an existing canvas and its pixels are untouched, the gesture state is unchanged, and the overlay returned is Gesture.Preview of the state |

## Left out

- Rasterisation by `Graphics2D` and `BasicStroke` is not modelled: line caps and joins, clipping, and which pixels a segment, rectangle or oval covers. A drawing call is recorded as a `Stroke`, so the committed pixels themselves are not modelled.
- The preview's 0.6 alpha composite is floating-point blending and is not modelled. The model gives only which shapes the preview draws, in which colour and thickness.
- Raster.Canvas.DrawImage: copies pixels exactly. Java draws with SRC_OVER compositing, which gives the same result only where the source pixel is opaque. Every pixel the model can produce is opaque white.
- Swing plumbing is not modelled: listener registration, `repaint()`, `super.paintComponent`, blitting the canvas with `g.drawImage`, and the empty handlers `mouseEntered`, `mouseExited`, `componentMoved`, `componentShown` and `componentHidden`.
- `getWidth()`/`getHeight()` are parameters (`vw`, `vh`) of the handlers that may create the canvas.
- `Point.distance`'s double square root is replaced by the exact integer test `dx*dx + dy*dy < 100`. For integer points it agrees with `distance < 10`.
- Coordinates, sizes and thickness are unbounded integers. The 32-bit wrap-around of `a.x - b.x` and `Math.abs` in the box computation (DrawingPanel.java lines 74-75 and 119-122), for coordinates near the int limits, is not modelled. The closing distance is computed in `double` by `Point.distance` and does not wrap.
- A null tool is not modelled: `Tool` has no null value. Java's `setTool(null)` is accepted, and a later `switch (currentTool)` in `paintComponent` or `drawFinalShape` then throws.
- Java's event order is a precondition of `MouseDragged`, not a modelled behaviour: a drag follows a press, so with the pencil the canvas exists and `lastPoint` is set.
- Image import and export, the menus, the colour chooser and the application window are not in DrawingPanel.java and are not part of this model.
