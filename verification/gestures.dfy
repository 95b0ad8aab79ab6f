/**
  The arithmetic behind pointer gestures on a text box: where a dragged box
  lands once clamped to the canvas, and the width and left edge a box gets
  while one of its side handles is pulled.
*/
module Gestures {
  import opened Wrappers

  /** Width given to a freshly created text box, in pixels. */
  const DEFAULT_TEXT_BOX_WIDTH: real := 100.0
  /** Narrowest a text box can be resized to, in pixels. */
  const MIN_TEXT_BOX_WIDTH: real := 50.0

  /** A client (viewport) rectangle, as measured by the browser. */
  datatype Rect = Rect(left: real, top: real, width: real, height: real)

  /** The two resize handles a box has; there is no vertical resize. */
  datatype Direction = East | West

  /** Pointer and box geometry recorded when a resize begins. */
  datatype ResizeStart = ResizeStart(x: real, y: real, width: real, height: real, left: real, top: real)

  /** The horizontal placement of a box: its left edge and its width. */
  datatype Extent = Extent(left: real, width: real)

  function Max(a: real, b: real): (m: real)
    ensures m >= a && m >= b && (m == a || m == b)
  {
    if a >= b then a else b
  }

  function Min(a: real, b: real): (m: real)
    ensures m <= a && m <= b && (m == a || m == b)
  {
    if a <= b then a else b
  }

  /**
    Keeps one coordinate of a dragged box inside the canvas: between 0 and
    limit (the canvas size minus the box size). When the box is larger than
    the canvas the limit is negative and the box is pinned at 0.
  */
  function ClampToCanvas(v: real, limit: real): (r: real)
    ensures 0.0 <= r
    ensures limit >= 0.0 ==> r <= limit
    ensures limit < 0.0 ==> r == 0.0
    ensures 0.0 <= v <= limit ==> r == v
    ensures v < 0.0 ==> r == 0.0
    ensures 0.0 <= limit < v ==> r == limit
  {
    Max(0.0, Min(v, limit))
  }

  /**
    The new top-left of a box being dragged: the pointer, made relative to
    the canvas, less the pointer's offset within the box, clamped so that a
    box of size boxWidth x boxHeight stays inside the canvas. The box never
    leaves the top or left of the canvas, nor its right or bottom when it
    fits.
  */
  function DragTarget(clientX: real, clientY: real, canvas: Rect, dragOffsetX: real, dragOffsetY: real,
                      boxWidth: real, boxHeight: real): (r: (real, real))
    ensures 0.0 <= r.0 && 0.0 <= r.1
    ensures boxWidth <= canvas.width ==> r.0 + boxWidth <= canvas.width
    ensures boxHeight <= canvas.height ==> r.1 + boxHeight <= canvas.height
  {
    (ClampToCanvas(clientX - canvas.left - dragOffsetX, canvas.width - boxWidth),
     ClampToCanvas(clientY - canvas.top - dragOffsetY, canvas.height - boxHeight))
  }

  /** A worked case: a 100-wide box at 750 dragged 200 further right in an 800-wide canvas stops at 700. */
  lemma DragClampExample()
    ensures DragTarget(1000.0, 50.0, Rect(0.0, 0.0, 800.0, 600.0), 50.0, 0.0, 100.0, 40.0) == (700.0, 50.0)
  {
  }

  /**
    Pressing on a box records the pointer's offset from the box's top-left
    corner; moving the pointer back to where it was pressed puts a box that
    lay inside the canvas exactly where it was.
  */
  lemma DragWithoutMotionKeepsPlace(clientX: real, clientY: real, canvas: Rect, left: real, top: real,
                                    boxWidth: real, boxHeight: real)
    requires 0.0 <= left <= canvas.width - boxWidth && 0.0 <= top <= canvas.height - boxHeight
    ensures DragTarget(clientX, clientY, canvas, clientX - (canvas.left + left), clientY - (canvas.top + top),
                       boxWidth, boxHeight) == (left, top)
  {
  }

  /**
    Width and left edge of a box while a side handle is pulled to clientX.
    The east handle moves the right edge only. The west handle moves the left
    edge and keeps the right edge in place, until the width would drop to
    the minimum: then the left edge goes back to where it was when the
    resize began.
  */
  function ResizeExtent(direction: Option<Direction>, start: ResizeStart, clientX: real): (e: Extent)
    ensures direction.Some? ==> e.width >= MIN_TEXT_BOX_WIDTH
    ensures direction.None? ==> e == Extent(start.left, start.width)
  {
    var deltaX := clientX - start.x;
    match direction
    case Some(East) => Extent(start.left, Max(MIN_TEXT_BOX_WIDTH, start.width + deltaX))
    case Some(West) =>
      var newWidth := Max(MIN_TEXT_BOX_WIDTH, start.width - deltaX);
      Extent(if newWidth != MIN_TEXT_BOX_WIDTH then start.left + deltaX else start.left, newWidth)
    case None => Extent(start.left, start.width)
  }

  /** East handle: the width follows the pointer down to the minimum and the left edge stays put. */
  lemma EastResize(start: ResizeStart, clientX: real)
    ensures var e := ResizeExtent(Some(East), start, clientX);
      && e.left == start.left
      && e.width >= MIN_TEXT_BOX_WIDTH
      && (start.width + (clientX - start.x) >= MIN_TEXT_BOX_WIDTH ==> e.width == start.width + (clientX - start.x))
      && (start.width + (clientX - start.x) < MIN_TEXT_BOX_WIDTH ==> e.width == MIN_TEXT_BOX_WIDTH)
  {
  }

  /**
    West handle: above the minimum width the left edge moves by exactly the
    pointer's travel and the right edge stays where it was; at the minimum,
    the left edge is the one recorded when the resize began.
  */
  lemma WestResize(start: ResizeStart, clientX: real)
    ensures var e := ResizeExtent(Some(West), start, clientX);
      && e.width >= MIN_TEXT_BOX_WIDTH
      && e.width == Max(MIN_TEXT_BOX_WIDTH, start.width - (clientX - start.x))
      && (e.width != MIN_TEXT_BOX_WIDTH ==>
            e.left == start.left + (clientX - start.x) && e.left + e.width == start.left + start.width)
      && (e.width == MIN_TEXT_BOX_WIDTH ==> e.left == start.left)
  {
  }

  /**
    Pulling the west handle inward past the minimum does not stop the box
    at its right edge: it returns to the left edge it had when the resize
    began, so its right edge moves from start.left + start.width to
    start.left + MIN_TEXT_BOX_WIDTH. One pixel less of travel keeps the
    right edge fixed.
  */
  lemma WestResizeAtFloorReturnsToStart(start: ResizeStart)
    requires start.width > MIN_TEXT_BOX_WIDTH + 1.0
    ensures var atFloor := ResizeExtent(Some(West), start, start.x + start.width - MIN_TEXT_BOX_WIDTH);
            var before := ResizeExtent(Some(West), start, start.x + start.width - MIN_TEXT_BOX_WIDTH - 1.0);
      && before.left + before.width == start.left + start.width
      && atFloor == Extent(start.left, MIN_TEXT_BOX_WIDTH)
      && atFloor.left + atFloor.width < start.left + start.width
  {
  }

  /** Pulling a handle outward never makes the box narrower: rightward for east, leftward for west. */
  lemma ResizeMonotone(start: ResizeStart, x1: real, x2: real)
    requires x1 <= x2
    ensures ResizeExtent(Some(East), start, x1).width <= ResizeExtent(Some(East), start, x2).width
    ensures ResizeExtent(Some(West), start, x2).width <= ResizeExtent(Some(West), start, x1).width
  {
  }
}
