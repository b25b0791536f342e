/** The pen-stroke panel: a left-button press starts a stroke at the press
    point, moves with the button held extend it, the release saves it, and a
    repaint draws every saved stroke and the one in progress as line strips.
    The window, the mouse capture and the GL context are the environment:
    the event positions, the window size and whether a context exists are
    parameters, and the GL calls are returned as a list. */
module DrawingPanels {
  import opened Gl

  /** A window position in pixels. */
  type Point = (int, int)

  /** A polyline with the colour and width it was started with. */
  datatype DrawingStroke = DrawingStroke(color: Rgb, width: int, points: seq<Point>)

  /** wxBLACK. */
  const Black: Rgb := Rgb(0, 0, 0)

  /** The size a panel starts with: the window's size on each axis where it is
      positive, 640 x 480 otherwise. */
  function InitialSize(windowSize: (int, int)): (size: (int, int))
    ensures size.0 > 0 && size.1 > 0
    ensures windowSize.0 > 0 ==> size.0 == windowSize.0
    ensures windowSize.1 > 0 ==> size.1 == windowSize.1
    ensures windowSize.0 <= 0 ==> size.0 == 640
    ensures windowSize.1 <= 0 ==> size.1 == 480
  {
    (if windowSize.0 > 0 then windowSize.0 else 640, if windowSize.1 > 0 then windowSize.1 else 480)
  }

  /** What DrawStroke issues: a stroke of fewer than two points draws nothing,
      any other one is a single line strip through all its points. */
  function StrokeCalls(stroke: DrawingStroke): (calls: seq<DrawCall>)
    ensures |calls| <= 1
    ensures calls != [] <==> |stroke.points| >= 2
    ensures calls != [] ==>
      calls[0].LineStrip? && calls[0].points == stroke.points &&
      calls[0].color == stroke.color && calls[0].width == stroke.width
  {
    if |stroke.points| < 2 then [] else [LineStrip(stroke.color, stroke.width, stroke.points)]
  }

  /** The strokes' calls one after the other. */
  function StrokesCalls(strokes: seq<DrawingStroke>): seq<DrawCall>
    decreases |strokes|
  {
    if strokes == [] then [] else StrokesCalls(strokes[..|strokes| - 1]) + StrokeCalls(strokes[|strokes| - 1])
  }

  /** The strokes a repaint can show: those with at least two points, in order. */
  function Drawable(strokes: seq<DrawingStroke>): seq<DrawingStroke>
    decreases |strokes|
  {
    if strokes == [] then []
    else Drawable(strokes[..|strokes| - 1]) + (if |strokes[|strokes| - 1].points| >= 2 then [strokes[|strokes| - 1]] else [])
  }

  /** The line strip of a stroke. */
  function Strip(stroke: DrawingStroke): DrawCall
  {
    LineStrip(stroke.color, stroke.width, stroke.points)
  }

  /** The drawable strokes are exactly the saved strokes of two points or more. */
  lemma {:induction false} DrawableExact(strokes: seq<DrawingStroke>)
    ensures forall s | s in Drawable(strokes) :: s in strokes && |s.points| >= 2
    ensures forall s | s in strokes && |s.points| >= 2 :: s in Drawable(strokes)
    decreases |strokes|
  {
    if strokes != [] {
      var front := strokes[..|strokes| - 1];
      DrawableExact(front);
      assert strokes == front + [strokes[|strokes| - 1]];
    }
  }

  /** Drawing the saved strokes one by one draws one strip per drawable
      stroke, in the same order, and nothing else. */
  lemma {:induction false} StrokesCallsAreStrips(strokes: seq<DrawingStroke>)
    ensures |StrokesCalls(strokes)| == |Drawable(strokes)|
    ensures forall k | 0 <= k < |Drawable(strokes)| :: StrokesCalls(strokes)[k] == Strip(Drawable(strokes)[k])
    decreases |strokes|
  {
    if strokes != [] {
      StrokesCallsAreStrips(strokes[..|strokes| - 1]);
    }
  }

  /** glViewport and the screen-aligned glOrtho SetupViewport issues: the
      viewport covers the window, and with a positive size the projection
      puts x = 0 on the left edge, x = width on the right, y = 0 on the top
      edge and y = height on the bottom. */
  function ViewportCalls(width: int, height: int): (calls: seq<DrawCall>)
    ensures |calls| == 2 && calls[0] == Viewport(width, height) && calls[1].Ortho?
    ensures calls[1].near == -1.0 && calls[1].far == 1.0
    ensures width > 0 && height > 0 ==>
      var o := calls[1];
      o.left != o.right && o.bottom != o.top &&
      OrthoAxis(o.left, o.right, 0.0) == -1.0 && OrthoAxis(o.left, o.right, width as real) == 1.0 &&
      OrthoAxis(o.bottom, o.top, 0.0) == 1.0 && OrthoAxis(o.bottom, o.top, height as real) == -1.0
  {
    [Viewport(width, height), Ortho(0.0, width as real, height as real, 0.0, -1.0, 1.0)]
  }

  class DrawingPanel {
    /** m_context != nullptr. */
    var hasContext: bool
    var isDrawing: bool
    var currentColor: Rgb
    var currentWidth: int
    var needsRedraw: bool
    var width: int
    var height: int
    var lastPoint: Point
    /** The finished strokes, oldest first. */
    var strokes: seq<DrawingStroke>
    var currentStroke: DrawingStroke
    /** Whether the panel holds the mouse capture. */
    var captured: bool

    /** The capture discipline: outside a stroke there are no pending points,
        and no saved stroke is empty. */
    ghost predicate Valid()
      reads this
    {
      (!isDrawing ==> currentStroke.points == []) &&
      forall i | 0 <= i < |strokes| :: strokes[i].points != []
    }

    /** The constructor, given the window's size and whether the GL context
        could be created. */
    constructor (windowSize: (int, int), contextOk: bool)
      ensures Valid() && hasContext == contextOk
      ensures !isDrawing && needsRedraw && !captured
      ensures currentColor == Black && currentWidth == 2
      ensures (width, height) == InitialSize(windowSize)
      ensures strokes == [] && currentStroke.points == []
    {
      hasContext := contextOk;
      isDrawing := false;
      currentColor := Black;
      currentWidth := 2;
      needsRedraw := true;
      var size := InitialSize(windowSize);
      width, height := size.0, size.1;
      lastPoint := (0, 0);
      strokes := [];
      currentStroke := DrawingStroke(Black, 1, []);
      captured := false;
    }

    /** SetDrawingColor: the colour of strokes started from now on. */
    method SetDrawingColor(c: Rgb)
      requires Valid()
      modifies this`currentColor
      ensures Valid() && currentColor == c
    {
      currentColor := c;
    }

    /** ClearDrawing: forgets every stroke, the one in progress included, and
        asks for a repaint. */
    method ClearDrawing()
      requires Valid()
      modifies this`strokes, this`currentStroke, this`needsRedraw
      ensures Valid() && strokes == [] && currentStroke == old(currentStroke).(points := []) && needsRedraw
    {
      strokes := [];
      currentStroke := currentStroke.(points := []);
      needsRedraw := true;
    }

    /** OnSize: always records the new size; only a positive size sets the
        viewport up again (when there is a context) and asks for a repaint. */
    method OnSize(w: int, h: int) returns (calls: seq<DrawCall>)
      requires Valid()
      modifies this`width, this`height, this`needsRedraw
      ensures Valid() && width == w && height == h
      ensures calls == (if w > 0 && h > 0 && hasContext then ViewportCalls(w, h) else [])
      ensures needsRedraw == (if w > 0 && h > 0 then true else old(needsRedraw))
    {
      width := w;
      height := h;
      calls := [];
      if width > 0 && height > 0 {
        if hasContext {
          calls := ViewportCalls(width, height);
        }
        needsRedraw := true;
      }
    }

    /** OnMouseDown: with the left button down, starts a stroke holding just
        the press point, in the current colour and width, and captures the
        mouse; otherwise nothing happens. */
    method OnMouseDown(leftIsDown: bool, pos: Point)
      requires Valid()
      modifies this`isDrawing, this`lastPoint, this`currentStroke, this`captured
      ensures Valid()
      ensures leftIsDown ==>
        isDrawing && lastPoint == pos && captured &&
        currentStroke == DrawingStroke(currentColor, currentWidth, [pos])
      ensures !leftIsDown ==> unchanged(this)
    {
      if leftIsDown {
        isDrawing := true;
        lastPoint := pos;
        currentStroke := DrawingStroke(currentColor, currentWidth, []);
        currentStroke := currentStroke.(points := currentStroke.points + [lastPoint]);
        captured := true;
      }
    }

    /** OnMouseMove: while a stroke is in progress and the left button is
        held, appends the position; otherwise nothing happens. */
    method OnMouseMove(leftIsDown: bool, pos: Point)
      requires Valid()
      modifies this`currentStroke, this`lastPoint
      ensures Valid()
      ensures isDrawing && leftIsDown ==>
        currentStroke == old(currentStroke).(points := old(currentStroke.points) + [pos]) && lastPoint == pos
      ensures !(isDrawing && leftIsDown) ==> unchanged(this)
    {
      if isDrawing && leftIsDown {
        var currentPoint := pos;
        currentStroke := currentStroke.(points := currentStroke.points + [currentPoint]);
        lastPoint := currentPoint;
      }
    }

    /** OnMouseUp: ends a stroke in progress, releasing the mouse, saving the
        stroke unless it has no points, and emptying the pending points;
        outside a stroke nothing happens. */
    method OnMouseUp()
      requires Valid()
      modifies this`isDrawing, this`captured, this`strokes, this`currentStroke
      ensures Valid()
      ensures old(isDrawing) ==>
        !isDrawing && !captured &&
        strokes == old(strokes) + (if old(currentStroke.points) == [] then [] else [old(currentStroke)]) &&
        currentStroke == old(currentStroke).(points := [])
      ensures !old(isDrawing) ==> unchanged(this)
    {
      if isDrawing {
        isDrawing := false;
        if captured {
          captured := false;
        }
        if currentStroke.points != [] {
          strokes := strokes + [currentStroke];
        }
        currentStroke := currentStroke.(points := []);
      }
    }

    /** What Render issues: nothing without a context; otherwise a clear,
        the saved strokes in order, the stroke in progress while drawing,
        and a flush. */
    function Frame(): seq<DrawCall>
      reads this
    {
      if !hasContext then []
      else
        [ClearColorBuffer] + StrokesCalls(strokes) +
        (if isDrawing && currentStroke.points != [] then StrokeCalls(currentStroke) else []) +
        [Flush]
    }

    /** Render. */
    method Render() returns (calls: seq<DrawCall>)
      ensures calls == Frame()
      ensures calls != [] ==> calls[0] == ClearColorBuffer && calls[|calls| - 1] == Flush
      ensures forall k | 0 <= k < |calls| && calls[k].LineStrip? :: |calls[k].points| >= 2
    {
      if !hasContext {
        return [];
      }
      calls := [ClearColorBuffer];
      var i := 0;
      while i < |strokes|
        invariant 0 <= i <= |strokes|
        invariant calls == [ClearColorBuffer] + StrokesCalls(strokes[..i])
      {
        assert strokes[..i + 1][..i] == strokes[..i];
        calls := calls + StrokeCalls(strokes[i]);
        i := i + 1;
      }
      assert strokes[..i] == strokes;
      if isDrawing && currentStroke.points != [] {
        calls := calls + StrokeCalls(currentStroke);
      }
      calls := calls + [Flush];
      FrameShape();
    }

    /** A frame starts with the clear and ends with the flush, and every
        strip in it has two points or more. */
    lemma FrameShape()
      ensures var f := Frame(); f != [] ==> f[0] == ClearColorBuffer && f[|f| - 1] == Flush
      ensures var f := Frame(); forall k | 0 <= k < |f| && f[k].LineStrip? :: |f[k].points| >= 2
    {
      StrokesCallsAreStrips(strokes);
      DrawableExact(strokes);
    }

    /** A press released without moving saves a one-point stroke, which a
        repaint does not draw. */
    lemma ClickDrawsNothing()
      requires Valid() && !isDrawing && |strokes| > 0 && |strokes[|strokes| - 1].points| == 1
      ensures hasContext ==> Frame() == [ClearColorBuffer] + StrokesCalls(strokes[..|strokes| - 1]) + [Flush]
    {
    }
  }
}
