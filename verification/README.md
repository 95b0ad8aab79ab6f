# Text-on-screen: interaction and remapping engine, modelled in Dafny

Text-on-screen lets a user place text boxes over a background image that is
scaled to fit its container. The user can move and widen the boxes, then print
a screenshot in which each box keeps its place relative to the image. This
project models the engine behind that in `script.js`:

- **Interaction state machine** (`workspace.dfy`, module `App`). The class
  `Workspace` holds three things:
  - the shared `state` record: `activeTextBox`, `selectedTextBox`,
    `isDragging`, `isResizing`, `resizeDirection`, `dragOffset`,
    `resizeStart` and `activeResizeContainer`;
  - the text layer, as a table from box id to `{left, top, width}` plus the
    boxes' document order;
  - which box has focus, which containers carry the `selected` and
    `printing` classes, the canvas container's inline style, and the print
    button's state.

  Each event handler is a method, with `modifies` naming the fields it
  changes. The object invariant `Valid()` says:
  - each box on the page appears once in the order;
  - every box is at least `MIN_TEXT_BOX_WIDTH` wide;
  - highlight, printing mark and focus refer only to boxes on the page;
  - a resize is under way exactly when a direction and a resized container
    are recorded.

  `Exclusive()` says that only the selected box is highlighted. Every handler
  keeps it, except the double-click handler (see below).
- **Drag and resize arithmetic** (`gestures.dfy`, module `Gestures`).
  - Dragging clamps the box's top-left to the canvas, with
    `Math.max(0, Math.min(v, size - boxSize))`.
  - Resizing changes the width only, never below 50.
  - On the east handle, the left edge stays put.
  - On the west handle, the right edge stays put until the floor is reached.
- **Contain-fit geometry and fraction remapping** (`geometry.dfy`, module
  `Geometry`, and `export.dfy`, module `Export`).
  - The bounds of the image as the clone renders it.
  - Pixel-to-fraction conversion relative to the rendered image, and its
    inverse.
  - Recording the boxes' fractions, and placing the cloned boxes from them.

Coordinates are exact reals. The source only uses `+`, `-`, `*`, `/`, `min` and
`max` on them, so the stated laws hold exactly.

Measurements the browser supplies become parameters:
- the canvas client rectangle;
- a container's `offsetWidth`/`offsetHeight`;
- a text area's `offsetWidth`;
- the rendered image bounds;
- the image's natural size.

A box's client rectangle is taken to be the canvas rectangle shifted by the
box's `left`/`top`. That is, the text layer is assumed to sit at the
container's origin.

Three behaviours of the code are worth knowing:
- Dragging clamps to the container rectangle (script.js:285-286).
- When the west handle reaches the minimum width, the left edge goes back to
  the value recorded when the resize began (script.js:297, 304-306), instead
  of staying where it is. So pulling the west handle past the floor makes the
  box jump back to its original left edge
  (`Gestures.WestResizeAtFloorReturnsToStart`).
- A capture result that arrives after the capture timeout still runs its
  handler (script.js:606-621). See "Left out".

The reset button (script.js:640-644) empties the text layer but not `state`.
So `selectedTextBox` and `activeTextBox` may name a box that is no longer on
the page. Handlers that then write to such a box write to a detached element;
the model treats those writes as no-ops on the table.

## Model

| member | source | states |
|---|---|---|
| `Geometry.ContainFit` | script.js:567-581 | For positive container and natural sizes, the rendered image has positive width and height |
| `Geometry.ContainFitBranch` | script.js:571-581 | Without division: a relatively wider image (`nw*ch > cw*nh`) fills the width, with height `cw*nh/nw` and vertical padding split evenly; otherwise it fills the height, with width `ch*nw/nh` and horizontal padding split evenly |
| `Geometry.ContainFitInside` | script.js:567-581 | The rendered rectangle lies inside the container: offsets are non-negative, `offsetX + w <= W` and `offsetY + h <= H` |
| `Geometry.ContainFitFills` | script.js:571-581 | One axis exactly fills the container with zero offset |
| `Geometry.ContainFitCentred` | script.js:575-579 | The image is centred: `2*offsetX + w == W` and `2*offsetY + h == H` |
| `Geometry.ContainFitAspect` | script.js:567-578 | The aspect ratio is kept: `w / h == naturalWidth / naturalHeight` |
| `Geometry.ContainFitLargest` | script.js:567-581 | No larger scaling of the image fits: any scale `s` at which `s*nw <= W` and `s*nh <= H` gives `s*nw <= w` and `s*nh <= h` |
| `Geometry.ContainFitWideImageExample` | script.js:571-575 | A 1600x800 image in an 800x600 container renders at (0, 100) with size 800x400, and pixel (100, 150) is at fraction (0.125, 0.125) |
| `Geometry.ToImageFraction` | script.js:382-387 | The fraction of the image a pixel position is at: the fraction times the rendered size is the position's distance from the image's top-left, on each axis |
| `Geometry.FromImageFraction` | script.js:597-598 | The pixel position at a given fraction of the image; it is the inverse of `ToImageFraction`, so converting it back with the same (non-zero size) bounds gives the original fraction |
| `Geometry.PixelRoundTrip` | script.js:382-387 | Pixel to fraction, then fraction to pixel with the same bounds, gives back the original point; there is no clamping to [0, 1] |
| `Geometry.OnImageIffUnitFraction` | script.js:382-387 | A point lies on the rendered image if and only if both of its fractions are in [0, 1] |
| `Geometry.Remap` | script.js:597-598 | A point moved from one rendering to another sits at the same image fraction of the new rendering as it did of the old one |
| `Geometry.RemapIdentity` | script.js:597-598 | Remapping onto the same rendering leaves every point where it was |
| `Geometry.RemapCompose` | script.js:597-598 | Remapping via an intermediate rendering equals remapping directly |
| `Geometry.RemapKeepsOnImage` | script.js:597-598 | A point on the old rendering of the image lands on the new rendering |
| `Gestures.ClampToCanvas` | script.js:285-286 | The clamped coordinate is at least 0, is at most the limit when the box fits, is 0 when it does not fit, and is unchanged when already in range |
| `Gestures.DragTarget` | script.js:281-286 | The dragged box's new top-left: `0 <= left` and `0 <= top`; `left + boxWidth <= canvasWidth` whenever the box fits, and likewise for top and height |
| `Gestures.DragClampExample` | script.js:285 | A 100-wide box at 750 dragged 200 pixels right in an 800-wide canvas stops at 700 |
| `Gestures.DragWithoutMotionKeepsPlace` | script.js:281-282 | With the drag offset recorded at pointer-down, returning the pointer to where it went down leaves an in-bounds box exactly where it was |
| `Gestures.ResizeExtent` | script.js:293-307 | With a direction recorded, the new width is at least `MIN_TEXT_BOX_WIDTH`; with none, the recorded width and left are kept |
| `Gestures.EastResize` | script.js:300-301 | East handle: the width is `max(50, startWidth + deltaX)` and the left edge stays at `resizeStart.left` |
| `Gestures.WestResize` | script.js:302-306 | West handle: the width is `max(50, startWidth - deltaX)`. Off the floor, `newLeft == start.left + deltaX` and the right edge `newLeft + newWidth` is unchanged. At the floor, left is `resizeStart.left` |
| `Gestures.WestResizeAtFloorReturnsToStart` | script.js:302-306 | One pixel short of the floor the right edge is fixed. At the floor, the box is `(start.left, 50)` and its right edge has moved left |
| `Gestures.ResizeMonotone` | script.js:300-303 | Moving the pointer outward never narrows the box: rightward for the east handle, leftward for the west handle |
| `Export.Snapshot` | script.js:378-389 | One fraction per box, in document order; converting each back with the live bounds gives every original position |
| `Export.PlaceClones` | script.js:594-603 | Cloned box `i` goes to `offset + fraction * size` of the clone's image when a fraction was recorded for index `i`; otherwise it keeps its position |
| `Export.RepositionClones` | script.js:565-603 | The clone's image bounds are the contain fit of the natural size in the visible area, and the cloned boxes are placed against them |
| `Export.SnapshotPlacesAtRemap` | script.js:595-598 | A recorded and re-placed box lands at the remap of its live top-left, which is the same fraction of the clone's image |
| `Export.SnapshotKeepsOnImage` | script.js:595-598 | A box whose top-left is on the live image has its clone's top-left on the clone's image |
| `App.Without` | script.js:147 | Removing a container from the document order leaves exactly the other boxes and introduces no repeats; an order that does not hold the box is returned unchanged |
| `App.WithoutAppend` | script.js:147 | Removing a box from two concatenated stretches of the order removes it from each; with `Without`'s unchanged case, this fixes that the remaining boxes keep their relative order |
| `App.WithoutIdempotent` | script.js:138-149 | Removing the same box from the order twice is the same as removing it once, so deleting a box twice leaves the order as deleting it once |
| `App.Workspace.Layout` | script.js:362-381 | One point per container, in document order: the top-left of the box at that position, in container coordinates |
| `App.Workspace.constructor` | script.js:9-18 | The initial `state` record: nothing active or selected, no drag or resize, zero offsets; an empty text layer |
| `App.Workspace.DeselectTextBox` | script.js:53-62 | `selectedTextBox` is null afterwards; the previously selected box loses its highlight and focus; with exclusive highlighting, nothing stays highlighted |
| `App.Workspace.DeselectOtherTextBox` | script.js:218-226 | The previous selection loses highlight and focus only when it differs from the current box; `selectedTextBox` is not reassigned |
| `App.Workspace.CreateTextBox` | script.js:64-94 | A fresh id is added at (x, y) with width 100, appended to the document order, focused and made the selected box |
| `App.Workspace.CanvasClick` | script.js:27-41 | A click on a box or its controls changes nothing. Otherwise the selection is dropped and a new box is created at the pointer relative to the canvas, becoming the focused and selected box. Exclusive highlighting is kept |
| `App.Workspace.BeginDrag` | script.js:106-112 | A drag starts on the box: it becomes active, selected and highlighted, and the pointer's offset from its top-left is recorded |
| `App.Workspace.StartDragFromHandle` | script.js:104-113 | The previous other selection is un-highlighted, then the drag begins. With exclusive highlighting before, exactly this box is highlighted |
| `App.Workspace.TextBoxMouseDown` | script.js:185-198 | A drag begins if and only if the box did not have focus before; on the focused box only the other selection is un-highlighted. Exclusive highlighting is kept |
| `App.Workspace.TextBoxClick` | script.js:200-207 | With no drag or resize under way, the box becomes selected and highlighted and the other selection is un-highlighted; otherwise nothing changes |
| `App.Workspace.TextBoxDoubleClick` | script.js:209-214 | The box gets focus, becomes selected and loses its highlight. Highlighting stays exclusive if and only if no other box was highlighted |
| `App.Workspace.StartResize` | script.js:229-245 | A resize is under way in the given direction on this box, with pointer, measured size and stored left/top recorded. The box becomes selected, and with exclusive highlighting it is the only highlighted box |
| `App.Workspace.HandleDrag` | script.js:274-290 | The active box moves to the clamped pointer position, keeping its width; it is on the canvas (`0 <= left`, and `left + w <= canvasWidth` when it fits) |
| `App.Workspace.HandleResize` | script.js:293-315 | The active box takes the new width, the resized container takes the new left edge, and the active box's width is at least the minimum |
| `App.Workspace.PointerMove` | script.js:254-271 | A resize under way takes priority over a drag; with neither under way, the table is unchanged |
| `App.Workspace.ResetDragResizeState` | script.js:318-329 | Afterwards there is no drag or resize, and direction and resized container are null; `activeTextBox` is nulled only if a drag or resize was under way |
| `App.Workspace.DeleteTextBox` | script.js:138-149 | If confirmed, only this box leaves the table and order, selection and active box are cleared if they named it, and every other box keeps its position and width; if not confirmed, nothing changes |
| `App.Workspace.RemoveContainer` | script.js:147 | The box leaves the table, the order, the highlight and printing marks, and focus |
| `App.Workspace.ClearTextLayer` | script.js:640-644 | If confirmed, the text layer is empty (no boxes, marks or focus), and the interaction state is untouched |
| `App.Workspace.MarkPrinting` | script.js:362-365 | Every listed container gets the printing mark |
| `App.Workspace.RemovePrintingClass` | script.js:417-421 | Every listed container loses the printing mark |
| `App.Workspace.RestoreContainerStyle` | script.js:405-410 | The container's style fields are the saved ones |
| `App.Workspace.RestoreButtonState` | script.js:412-415 | The print button is enabled again with the label "Print Page" |
| `App.Workspace.Cleanup` | script.js:423-427 | Unmarks the containers, restores the saved style and re-enables the button |
| `App.Workspace.PreparePrint` | script.js:354-403 | Disables the button, drops the selection (its highlight and focus go, nothing else is un-highlighted or blurred), marks every box, and records each box's fraction so that converting back gives its live position. Fractions exist exactly when the rendered image has non-zero size. Saves the container style and fixes the container to the visible viewport area |
| `App.Workspace.FinishPrint` | script.js:503-636 | On every outcome, the style is restored, the marks are removed and the button is re-enabled. A direct print is offered if and only if capture is unavailable, times out, rejects or yields an empty bitmap. A print tab opens if and only if a non-empty bitmap encodes and the tab opens |
| `App.Workspace.Print` | script.js:354-637 | After any print attempt, the container style is as before, no box is marked, the button is enabled, and no box has moved or changed width (the table and order are outside the frame). The selection is dropped: only its highlight and focus go, and with exclusive highlighting before, nothing is highlighted after |

## Left out

- `adjustTextBoxHeight` (script.js:248-251) and all box heights depend on browser layout (`scrollHeight`). Heights are not stored. Where a height is read (`offsetHeight`), it is a parameter.
- `isInteractiveElement` (script.js:44-50) classifies the click target by CSS class. It is a boolean parameter of `CanvasClick`.
- `getRenderedImageBounds` (script.js:336-351) reads `getBoundingClientRect`. The live image bounds are a parameter of `Print`.
- DOM construction, class names, `innerHTML`, titles, ARIA labels and event-listener wiring (script.js:66-91, 97-177) are presentation. Touch and mouse handlers share their bodies; the first touch's coordinates are the parameters.
- `confirm`, `alert`, `window.print`, `window.open`, `document.write`, `canvas.toDataURL` and the print tab's page (script.js:429-501) are foreign calls. The user's answer to a confirmation is a parameter. Whether encoding succeeds and whether the tab opens are fields of `CaptureOutcome`. The fallback's direct print is reported as `FallbackOffered`.
- The html2canvas call, its options, and the clone's style writes other than box positions and image size (script.js:516-564, 583-591) are left out. The clone's boxes are an array of points.
- Timing is left out: the 30-second capture timer, the print tab's close delay, and the race between them. Outcomes are exclusive, so a capture that resolves after the timer has fired is not modelled. In the code that late result still restores the page and may open a print tab after the fallback was offered.
- Focus changes made by the browser's default actions (a non-prevented mousedown on the canvas or a button) are left out. Only explicit `focus()`/`blur()` calls and removal of the focused element are modelled.
- `App.Workspace.StartResize`: the recorded start width is the measured `offsetWidth`, a parameter. The model does not relate it to the stored `style.width`, because that depends on CSS box sizing, which is not part of this model.
- `Geometry.ContainFit` requires positive container and natural sizes. `Geometry.ToImageFraction` and `Export.Snapshot` require an image of non-zero rendered size. In JavaScript those divisions would yield `Infinity`/`NaN`, which exact reals cannot represent. `App.Workspace.PreparePrint` and `App.Workspace.Print` accept any image bounds: for a zero-size image they return no fractions (`None`) in place of the non-finite values. The rest of the print flow does not depend on them.
- IEEE floating-point rounding is left out; all arithmetic is exact.
- `parseFloat(container.style.left) || 0` (script.js:239) is the stored left, because every box's left is a number in this model.
