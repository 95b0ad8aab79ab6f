/**
  The page controller: the table of text boxes on the text layer, which of
  them is focused or highlighted, the shared interaction state that the
  pointer handlers update, and the print button's preparation and clean-up.

  Layout measurements the browser supplies (the canvas rectangle, a box's
  rendered width and height, the rendered image bounds) are parameters. A
  box's client rectangle is taken to be the canvas rectangle shifted by the
  box's left and top. Writes to a box that is no longer on the page have no
  visible effect and are modelled as no-ops on the table.
*/
module App {
  import opened Wrappers
  import opened Gestures
  import opened Geometry
  import Export

  /** Identity of a text box (its container and text area together). */
  type BoxId = nat

  /** A text box as placed on the text layer; its height follows its content and is not modelled. */
  datatype Box = Box(left: real, top: real, width: real)

  /** An inline style value on the canvas container. */
  datatype CssValue = Text(s: string) | Pixels(px: real)

  /** The canvas container's inline style fields that printing overrides. */
  datatype ContainerStyle = ContainerStyle(width: CssValue, height: CssValue, flex: CssValue, overflow: CssValue)

  /** The bitmap the screenshot library hands back. */
  datatype Bitmap = Bitmap(width: nat, height: nat)

  /**
    How the screenshot attempt ends: the library is missing, the capture
    timer fires, the capture promise rejects, or it resolves (possibly with
    no bitmap); for a resolved capture, whether the bitmap could be encoded
    and whether the print tab could be opened.
  */
  datatype CaptureOutcome =
    | CaptureUnavailable
    | CaptureTimeout
    | CaptureRejected
    | CaptureResolved(canvas: Option<Bitmap>, encodes: bool, popupOpens: bool)

  /** What the user is shown at the end of a print attempt. */
  datatype PrintResult = FallbackOffered | PrintTabOpened | ErrorAlerted

  /** The members of a sequence of box ids. */
  function Elements(s: seq<BoxId>): (e: set<BoxId>)
  {
    set x | x in s
  }

  predicate Distinct(s: seq<BoxId>)
  {
    forall i, j :: 0 <= i < j < |s| ==> s[i] != s[j]
  }

  /** The sequence with every occurrence of id taken out, order kept. */
  function Without(s: seq<BoxId>, id: BoxId): (r: seq<BoxId>)
    ensures Elements(r) == Elements(s) - {id}
    ensures Distinct(s) ==> Distinct(r)
    ensures |r| <= |s|
    ensures id !in Elements(s) ==> r == s
  {
    if s == [] then []
    else
      var rest := Without(s[1..], id);
      assert Elements(s) == {s[0]} + Elements(s[1..]);
      assert Distinct(s) ==> Distinct(s[1..]) by {
        if Distinct(s) {
          forall i, j | 0 <= i < j < |s[1..]| ensures s[1..][i] != s[1..][j] {
            assert s[1..][i] == s[i + 1] && s[1..][j] == s[j + 1];
          }
        }
      }
      if s[0] == id then rest
      else
        var r := [s[0]] + rest;
        assert Elements(r) == {s[0]} + Elements(rest);
        assert Distinct(s) ==> s[0] !in Elements(s[1..]);
        assert Distinct(s) ==> Distinct(r) by {
          if Distinct(s) {
            forall i, j | 0 <= i < j < |r| ensures r[i] != r[j] {
              if i == 0 {
                assert r[j] == rest[j - 1] && rest[j - 1] in Elements(rest);
              } else {
                assert r[i] == rest[i - 1] && r[j] == rest[j - 1];
              }
            }
          }
        }
        r
  }

  /**
    Taking a box out of a concatenation takes it out of each part: the
    boxes that stay keep their relative order.
  */
  lemma {:induction false} WithoutAppend(a: seq<BoxId>, b: seq<BoxId>, id: BoxId)
    ensures Without(a + b, id) == Without(a, id) + Without(b, id)
  {
    if a != [] {
      WithoutAppend(a[1..], b, id);
      assert (a + b)[0] == a[0] && (a + b)[1..] == a[1..] + b;
    } else {
      assert a + b == b;
    }
  }

  /**
    Taking a box out of the document order a second time changes nothing;
    with the box table a map, where removing a missing key is a no-op,
    deleting the same box twice is deleting it once.
  */
  lemma {:induction false} WithoutIdempotent(s: seq<BoxId>, id: BoxId)
    ensures Without(Without(s, id), id) == Without(s, id)
  {
    if s != [] {
      WithoutIdempotent(s[1..], id);
      if s[0] != id {
        assert ([s[0]] + Without(s[1..], id))[1..] == Without(s[1..], id);
      }
    }
  }

  /** The boxes an optional reference names: none or one. */
  function AsSet(o: Option<BoxId>): (ids: set<BoxId>)
  {
    if o.Some? then {o.value} else {}
  }

  /** The previous selection that deselecting "everything but current" un-highlights and blurs. */
  function OtherSelection(selected: Option<BoxId>, current: BoxId): (ids: set<BoxId>)
  {
    if selected.Some? && selected.value != current then {selected.value} else {}
  }

  /** Focus after blurring every box in boxes: blurring a box that is not focused has no effect. */
  function BlurIn(focused: Option<BoxId>, boxes: set<BoxId>): (after: Option<BoxId>)
  {
    if focused.Some? && focused.value in boxes then None else focused
  }

  /** The box table with one box's width replaced, when that box is still on the page. */
  function WithWidth(boxes: map<BoxId, Box>, id: BoxId, width: real): (table: map<BoxId, Box>)
  {
    if id in boxes then boxes[id := boxes[id].(width := width)] else boxes
  }

  /** The box table with one box's left edge replaced, when that box is still on the page. */
  function WithLeft(boxes: map<BoxId, Box>, id: BoxId, left: real): (table: map<BoxId, Box>)
  {
    if id in boxes then boxes[id := boxes[id].(left := left)] else boxes
  }

  class Workspace {
    // The text layer: each box on the page, its document order, and the
    // containers carrying the 'selected' and 'printing' classes.
    var boxes: map<BoxId, Box>
    var order: seq<BoxId>
    var nextId: BoxId
    var highlighted: set<BoxId>
    var printing: set<BoxId>
    /** The text area that has keyboard focus, if it is one of the boxes. */
    var focused: Option<BoxId>

    // The shared interaction state.
    var activeTextBox: Option<BoxId>
    var selectedTextBox: Option<BoxId>
    var isDragging: bool
    var isResizing: bool
    var resizeDirection: Option<Direction>
    var dragOffset: Point
    var resizeStart: ResizeStart
    var activeResizeContainer: Option<BoxId>

    // The canvas container's inline style and the print button.
    var containerStyle: ContainerStyle
    var printButtonDisabled: bool
    var printButtonLabel: string

    /**
      The object invariant: the document order lists each box on the page
      once; ids handed out so far are below nextId; every box is at least
      the minimum width; highlighting, printing and focus refer to boxes on
      the page; and a resize is under way exactly when a direction and a
      resized container are recorded.
    */
    ghost predicate Valid()
      reads this
    {
      && Distinct(order)
      && Elements(order) == boxes.Keys
      && (forall id :: id in boxes ==> id < nextId)
      && (forall id :: id in boxes ==> boxes[id].width >= MIN_TEXT_BOX_WIDTH)
      && highlighted <= boxes.Keys
      && printing <= boxes.Keys
      && (focused.Some? ==> focused.value in boxes)
      && (isResizing <==> resizeDirection.Some?)
      && (isResizing <==> activeResizeContainer.Some?)
    }

    /** At most one box is highlighted, and only the selected one. */
    ghost predicate Exclusive()
      reads this
    {
      highlighted <= AsSet(selectedTextBox)
    }

    /** An empty page, with the interaction state at its initial values. */
    constructor (style: ContainerStyle)
      ensures Valid() && Exclusive()
      ensures boxes == map[] && order == [] && highlighted == {} && printing == {} && focused == None
      ensures activeTextBox == None && selectedTextBox == None
      ensures !isDragging && !isResizing && resizeDirection == None && activeResizeContainer == None
      ensures dragOffset == Point(0.0, 0.0) && resizeStart == ResizeStart(0.0, 0.0, 0.0, 0.0, 0.0, 0.0)
      ensures containerStyle == style && !printButtonDisabled && printButtonLabel == "Print Page"
    {
      boxes := map[];
      order := [];
      nextId := 0;
      highlighted := {};
      printing := {};
      focused := None;
      activeTextBox := None;
      selectedTextBox := None;
      isDragging := false;
      isResizing := false;
      resizeDirection := None;
      dragOffset := Point(0.0, 0.0);
      resizeStart := ResizeStart(0.0, 0.0, 0.0, 0.0, 0.0, 0.0);
      activeResizeContainer := None;
      containerStyle := style;
      printButtonDisabled := false;
      printButtonLabel := "Print Page";
    }

    /** The top-left corner of every box, in document order. */
    function Layout(): (corners: seq<Point>)
      reads this
      requires Valid()
      ensures |corners| == |order|
      ensures forall i :: 0 <= i < |order| ==>
        order[i] in boxes && corners[i] == Point(boxes[order[i]].left, boxes[order[i]].top)
    {
      var o, b := order, boxes;
      assert forall i :: 0 <= i < |o| ==> o[i] in Elements(o);
      seq(|o|, i requires 0 <= i < |o| => Point(b[o[i]].left, b[o[i]].top))
    }

    /** The box table after a resize move to clientX: width to the active box, left edge to the resized container. */
    function ResizedBoxes(clientX: real): (table: map<BoxId, Box>)
      reads this
      requires activeTextBox.Some? && activeResizeContainer.Some?
    {
      var e := ResizeExtent(resizeDirection, resizeStart, clientX);
      WithLeft(WithWidth(boxes, activeTextBox.value, e.width), activeResizeContainer.value, e.left)
    }

    /** The box table after a drag move: the active box moves to the clamped pointer position. */
    function DraggedBoxes(clientX: real, clientY: real, canvas: Rect, boxWidth: real, boxHeight: real): (table: map<BoxId, Box>)
      reads this
      requires activeTextBox.Some?
    {
      var a := activeTextBox.value;
      if a in boxes then
        var (left, top) := DragTarget(clientX, clientY, canvas, dragOffset.x, dragOffset.y, boxWidth, boxHeight);
        boxes[a := Box(left, top, boxes[a].width)]
      else boxes
    }

    /** Un-highlights and blurs the selected box, and forgets the selection. */
    method DeselectTextBox()
      requires Valid()
      modifies this`selectedTextBox, this`highlighted, this`focused
      ensures Valid()
      ensures selectedTextBox == None
      ensures highlighted == old(highlighted) - AsSet(old(selectedTextBox))
      ensures focused == BlurIn(old(focused), AsSet(old(selectedTextBox)))
      ensures old(Exclusive()) ==> highlighted == {}
    {
      if selectedTextBox.Some? {
        var previous := selectedTextBox.value;
        highlighted := highlighted - {previous};
        focused := BlurIn(focused, {previous});
        selectedTextBox := None;
      }
    }

    /**
      Un-highlights and blurs the selected box when it is not current; the
      selection itself is left for the caller to reassign.
    */
    method DeselectOtherTextBox(current: BoxId)
      requires Valid()
      modifies this`highlighted, this`focused
      ensures Valid()
      ensures highlighted == old(highlighted) - OtherSelection(selectedTextBox, current)
      ensures focused == BlurIn(old(focused), OtherSelection(selectedTextBox, current))
      ensures old(Exclusive()) ==> highlighted <= {current}
    {
      if selectedTextBox.Some? && selectedTextBox.value != current {
        var previous := selectedTextBox.value;
        highlighted := highlighted - {previous};
        focused := BlurIn(focused, {previous});
      }
    }

    /** Adds a new box at (x, y) with the default width, focused and selected. */
    method CreateTextBox(x: real, y: real) returns (id: BoxId)
      requires Valid()
      modifies this`boxes, this`order, this`nextId, this`focused, this`selectedTextBox
      ensures Valid()
      ensures id == old(nextId) && id !in old(boxes)
      ensures boxes == old(boxes)[id := Box(x, y, DEFAULT_TEXT_BOX_WIDTH)]
      ensures order == old(order) + [id]
      ensures focused == Some(id) && selectedTextBox == Some(id)
    {
      id := nextId;
      assert id !in Elements(order);
      assert Elements(order + [id]) == Elements(order) + {id};
      nextId := nextId + 1;
      boxes := boxes[id := Box(x, y, DEFAULT_TEXT_BOX_WIDTH)];
      order := order + [id];
      focused := Some(id);
      selectedTextBox := Some(id);
    }

    /**
      A click on the canvas. A click on a box or one of its controls does
      nothing here; elsewhere the selection is dropped and a new box is
      created under the pointer, which becomes the focused and only selected box.
    */
    method CanvasClick(onInteractiveElement: bool, clientX: real, clientY: real, canvas: Rect)
      returns (created: Option<BoxId>)
      requires Valid()
      modifies this`boxes, this`order, this`nextId, this`focused, this`selectedTextBox, this`highlighted
      ensures Valid()
      ensures onInteractiveElement ==>
        && created == None && boxes == old(boxes) && order == old(order) && nextId == old(nextId)
        && focused == old(focused) && selectedTextBox == old(selectedTextBox) && highlighted == old(highlighted)
      ensures !onInteractiveElement ==>
        && created == Some(old(nextId)) && old(nextId) !in old(boxes)
        && boxes == old(boxes)[old(nextId) := Box(clientX - canvas.left, clientY - canvas.top, DEFAULT_TEXT_BOX_WIDTH)]
        && order == old(order) + [old(nextId)]
        && focused == created && selectedTextBox == created
        && highlighted == old(highlighted) - AsSet(old(selectedTextBox))
      ensures old(Exclusive()) ==> Exclusive()
    {
      if onInteractiveElement {
        return None;
      }
      DeselectTextBox();
      var id := CreateTextBox(clientX - canvas.left, clientY - canvas.top);
      created := Some(id);
    }

    /** Starts dragging box id, recording where in the box the pointer went down. */
    method BeginDrag(id: BoxId, clientX: real, clientY: real, canvas: Rect)
      requires Valid() && id in boxes
      modifies this`isDragging, this`activeTextBox, this`selectedTextBox, this`highlighted, this`dragOffset
      ensures Valid()
      ensures isDragging && activeTextBox == Some(id) && selectedTextBox == Some(id)
      ensures highlighted == old(highlighted) + {id}
      ensures dragOffset == Point(clientX - (canvas.left + boxes[id].left), clientY - (canvas.top + boxes[id].top))
    {
      isDragging := true;
      activeTextBox := Some(id);
      selectedTextBox := Some(id);
      highlighted := highlighted + {id};
      dragOffset := Point(clientX - (canvas.left + boxes[id].left), clientY - (canvas.top + boxes[id].top));
    }

    /** Pointer down on a box's drag handle: the box becomes the selected, dragged box. */
    method StartDragFromHandle(id: BoxId, clientX: real, clientY: real, canvas: Rect)
      requires Valid() && id in boxes
      modifies this`isDragging, this`activeTextBox, this`selectedTextBox, this`highlighted, this`dragOffset,
               this`focused
      ensures Valid()
      ensures isDragging && activeTextBox == Some(id) && selectedTextBox == Some(id)
      ensures highlighted == old(highlighted) - OtherSelection(old(selectedTextBox), id) + {id}
      ensures focused == BlurIn(old(focused), OtherSelection(old(selectedTextBox), id))
      ensures dragOffset == Point(clientX - (canvas.left + boxes[id].left), clientY - (canvas.top + boxes[id].top))
      ensures old(Exclusive()) ==> highlighted == {id}
    {
      DeselectOtherTextBox(id);
      BeginDrag(id, clientX, clientY, canvas);
    }

    /**
      Pointer down on a box's text area. A box that does not have focus
      starts being dragged; on the focused box the press places the caret
      and no drag starts.
    */
    method TextBoxMouseDown(id: BoxId, clientX: real, clientY: real, canvas: Rect)
      requires Valid() && id in boxes
      modifies this`isDragging, this`activeTextBox, this`selectedTextBox, this`highlighted, this`dragOffset,
               this`focused
      ensures Valid()
      ensures focused == BlurIn(old(focused), OtherSelection(old(selectedTextBox), id))
      ensures old(focused) != Some(id) ==>
        && isDragging && activeTextBox == Some(id) && selectedTextBox == Some(id)
        && highlighted == old(highlighted) - OtherSelection(old(selectedTextBox), id) + {id}
        && dragOffset == Point(clientX - (canvas.left + boxes[id].left), clientY - (canvas.top + boxes[id].top))
      ensures old(focused) == Some(id) ==>
        && isDragging == old(isDragging) && activeTextBox == old(activeTextBox)
        && selectedTextBox == old(selectedTextBox) && dragOffset == old(dragOffset)
        && highlighted == old(highlighted) - OtherSelection(old(selectedTextBox), id)
      ensures old(Exclusive()) ==> Exclusive()
    {
      DeselectOtherTextBox(id);
      if focused != Some(id) {
        BeginDrag(id, clientX, clientY, canvas);
      }
    }

    /** A click on a box's text area selects and highlights it, unless a drag or resize is under way. */
    method TextBoxClick(id: BoxId)
      requires Valid() && id in boxes
      modifies this`selectedTextBox, this`highlighted, this`focused
      ensures Valid()
      ensures old(isDragging || isResizing) ==>
        selectedTextBox == old(selectedTextBox) && highlighted == old(highlighted) && focused == old(focused)
      ensures !old(isDragging || isResizing) ==>
        && selectedTextBox == Some(id)
        && highlighted == old(highlighted) - OtherSelection(old(selectedTextBox), id) + {id}
        && focused == BlurIn(old(focused), OtherSelection(old(selectedTextBox), id))
      ensures old(Exclusive()) ==> Exclusive()
    {
      if !isDragging && !isResizing {
        DeselectOtherTextBox(id);
        selectedTextBox := Some(id);
        highlighted := highlighted + {id};
      }
    }

    /**
      A double click on a box's text area gives it focus for editing and
      makes it the selection, removing its highlight. It does not touch any
      other box, so highlighting stays exclusive exactly when no other box
      was highlighted before.
    */
    method TextBoxDoubleClick(id: BoxId)
      requires Valid() && id in boxes
      modifies this`selectedTextBox, this`highlighted, this`focused
      ensures Valid()
      ensures highlighted == old(highlighted) - {id}
      ensures focused == Some(id) && selectedTextBox == Some(id)
      ensures Exclusive() <==> old(highlighted) <= {id}
    {
      highlighted := highlighted - {id};
      focused := Some(id);
      selectedTextBox := Some(id);
    }

    /**
      Pointer down on an east or west handle: records the pointer, the
      box's rendered size and its left and top, and makes the box the
      selected, resized box.
    */
    method StartResize(id: BoxId, clientX: real, clientY: real, direction: Direction,
                       offsetWidth: real, offsetHeight: real)
      requires Valid() && id in boxes
      modifies this`isResizing, this`resizeDirection, this`activeResizeContainer, this`activeTextBox,
               this`resizeStart, this`selectedTextBox, this`highlighted, this`focused
      ensures Valid()
      ensures isResizing && resizeDirection == Some(direction)
      ensures activeResizeContainer == Some(id) && activeTextBox == Some(id) && selectedTextBox == Some(id)
      ensures resizeStart == ResizeStart(clientX, clientY, offsetWidth, offsetHeight, boxes[id].left, boxes[id].top)
      ensures highlighted == old(highlighted) - OtherSelection(old(selectedTextBox), id) + {id}
      ensures focused == BlurIn(old(focused), OtherSelection(old(selectedTextBox), id))
      ensures old(Exclusive()) ==> highlighted == {id}
    {
      isResizing := true;
      resizeDirection := Some(direction);
      activeResizeContainer := Some(id);
      activeTextBox := Some(id);
      resizeStart := ResizeStart(clientX, clientY, offsetWidth, offsetHeight, boxes[id].left, boxes[id].top);
      DeselectOtherTextBox(id);
      selectedTextBox := Some(id);
      highlighted := highlighted + {id};
    }

    /**
      A drag move: the active box goes to the pointer less the recorded
      offset, clamped so that a box of the measured size stays on the canvas.
    */
    method HandleDrag(clientX: real, clientY: real, canvas: Rect, boxWidth: real, boxHeight: real)
      requires Valid() && activeTextBox.Some?
      modifies this`boxes
      ensures Valid()
      ensures boxes == old(DraggedBoxes(clientX, clientY, canvas, boxWidth, boxHeight))
      ensures var a := activeTextBox.value;
        a in boxes ==>
          && 0.0 <= boxes[a].left && 0.0 <= boxes[a].top
          && (boxWidth <= canvas.width ==> boxes[a].left + boxWidth <= canvas.width)
          && (boxHeight <= canvas.height ==> boxes[a].top + boxHeight <= canvas.height)
    {
      var a := activeTextBox.value;
      if a !in boxes {
        return;
      }
      var (newX, newY) := DragTarget(clientX, clientY, canvas, dragOffset.x, dragOffset.y, boxWidth, boxHeight);
      boxes := boxes[a := Box(newX, newY, boxes[a].width)];
    }

    /**
      A resize move: the active box gets the new width, never below the
      minimum, and the resized container gets the new left edge.
    */
    method HandleResize(clientX: real)
      requires Valid() && isResizing && activeTextBox.Some? && activeResizeContainer.Some?
      modifies this`boxes
      ensures Valid()
      ensures boxes == old(ResizedBoxes(clientX))
      ensures activeTextBox.value in boxes ==> boxes[activeTextBox.value].width >= MIN_TEXT_BOX_WIDTH
    {
      var e := ResizeExtent(resizeDirection, resizeStart, clientX);
      boxes := WithWidth(boxes, activeTextBox.value, e.width);
      boxes := WithLeft(boxes, activeResizeContainer.value, e.left);
    }

    /**
      A pointer or touch move. A resize under way takes priority over a
      drag; with neither under way the move changes nothing.
    */
    method PointerMove(clientX: real, clientY: real, canvas: Rect, boxWidth: real, boxHeight: real)
      requires Valid()
      modifies this`boxes
      ensures Valid()
      ensures isResizing && activeResizeContainer.Some? && activeTextBox.Some? ==>
        boxes == old(ResizedBoxes(clientX))
      ensures !(isResizing && activeResizeContainer.Some? && activeTextBox.Some?) && isDragging && activeTextBox.Some? ==>
        boxes == old(DraggedBoxes(clientX, clientY, canvas, boxWidth, boxHeight))
      ensures !(isResizing && activeResizeContainer.Some? && activeTextBox.Some?) && !(isDragging && activeTextBox.Some?) ==>
        boxes == old(boxes)
    {
      if isResizing && activeResizeContainer.Some? && activeTextBox.Some? {
        HandleResize(clientX);
      } else if isDragging && activeTextBox.Some? {
        HandleDrag(clientX, clientY, canvas, boxWidth, boxHeight);
      }
    }

    /**
      Pointer up or touch end: no drag or resize is under way afterwards.
      The active box is forgotten only when a drag or resize was under way.
    */
    method ResetDragResizeState()
      requires Valid()
      modifies this`isDragging, this`isResizing, this`resizeDirection, this`activeResizeContainer, this`activeTextBox
      ensures Valid()
      ensures !isDragging && !isResizing && resizeDirection == None && activeResizeContainer == None
      ensures activeTextBox == if old(isDragging || isResizing) then None else old(activeTextBox)
    {
      if isDragging {
        isDragging := false;
        activeTextBox := None;
      }
      if isResizing {
        isResizing := false;
        resizeDirection := None;
        activeResizeContainer := None;
        activeTextBox := None;
      }
    }

    /**
      The delete button of box id, after the user's answer to the
      confirmation prompt. On yes the box leaves the page, the selection and
      the active box are cleared if they were this box, and every other box
      keeps its position and width.
    */
    method DeleteTextBox(id: BoxId, confirmed: bool)
      requires Valid()
      modifies this`selectedTextBox, this`activeTextBox, this`boxes, this`order, this`highlighted,
               this`printing, this`focused
      ensures Valid()
      ensures !confirmed ==>
        && selectedTextBox == old(selectedTextBox) && activeTextBox == old(activeTextBox)
        && boxes == old(boxes) && order == old(order) && highlighted == old(highlighted)
        && printing == old(printing) && focused == old(focused)
      ensures confirmed ==>
        && selectedTextBox == (if old(selectedTextBox) == Some(id) then None else old(selectedTextBox))
        && activeTextBox == (if old(activeTextBox) == Some(id) then None else old(activeTextBox))
        && boxes == old(boxes) - {id} && order == Without(old(order), id)
        && highlighted == old(highlighted) - {id} && printing == old(printing) - {id}
        && focused == BlurIn(old(focused), {id})
      ensures confirmed ==> id !in boxes && forall k :: k in old(boxes) && k != id ==> k in boxes && boxes[k] == old(boxes)[k]
      ensures old(Exclusive()) ==> Exclusive()
    {
      if confirmed {
        if selectedTextBox == Some(id) {
          selectedTextBox := None;
        }
        if activeTextBox == Some(id) {
          activeTextBox := None;
        }
        RemoveContainer(id);
      }
    }

    /** Takes box id's container off the page; a focused text area inside it loses focus. */
    method RemoveContainer(id: BoxId)
      requires Valid()
      modifies this`boxes, this`order, this`highlighted, this`printing, this`focused
      ensures Valid()
      ensures boxes == old(boxes) - {id} && order == Without(old(order), id)
      ensures highlighted == old(highlighted) - {id} && printing == old(printing) - {id}
      ensures focused == BlurIn(old(focused), {id})
    {
      boxes := boxes - {id};
      order := Without(order, id);
      highlighted := highlighted - {id};
      printing := printing - {id};
      focused := BlurIn(focused, {id});
    }

    /**
      The reset button, after the user's answer to the confirmation prompt:
      on yes every box leaves the page. The interaction state is not touched.
    */
    method ClearTextLayer(confirmed: bool)
      requires Valid()
      modifies this`boxes, this`order, this`highlighted, this`printing, this`focused
      ensures Valid()
      ensures !confirmed ==>
        boxes == old(boxes) && order == old(order) && highlighted == old(highlighted)
        && printing == old(printing) && focused == old(focused)
      ensures confirmed ==> boxes == map[] && order == [] && highlighted == {} && printing == {} && focused == None
    {
      if confirmed {
        boxes := map[];
        order := [];
        highlighted := {};
        printing := {};
        focused := None;
      }
    }

    /** Adds the 'printing' class to every listed container. */
    method MarkPrinting(containers: seq<BoxId>)
      requires Valid() && Elements(containers) <= boxes.Keys
      modifies this`printing
      ensures Valid()
      ensures printing == old(printing) + Elements(containers)
    {
      for i := 0 to |containers|
        invariant printing == old(printing) + Elements(containers[..i])
        invariant Valid()
      {
        assert Elements(containers[..i + 1]) == Elements(containers[..i]) + {containers[i]};
        printing := printing + {containers[i]};
      }
      assert containers[..|containers|] == containers;
    }

    /** Removes the 'printing' class from every listed container. */
    method RemovePrintingClass(containers: seq<BoxId>)
      requires Valid()
      modifies this`printing
      ensures Valid()
      ensures printing == old(printing) - Elements(containers)
    {
      for i := 0 to |containers|
        invariant printing == old(printing) - Elements(containers[..i])
        invariant Valid()
      {
        assert Elements(containers[..i + 1]) == Elements(containers[..i]) + {containers[i]};
        printing := printing - {containers[i]};
      }
      assert containers[..|containers|] == containers;
    }

    /** Puts back the canvas container's saved inline style. */
    method RestoreContainerStyle(saved: ContainerStyle)
      modifies this`containerStyle
      ensures containerStyle == saved
    {
      containerStyle := saved;
    }

    /** Re-enables the print button with its usual label. */
    method RestoreButtonState()
      modifies this`printButtonDisabled, this`printButtonLabel
      ensures !printButtonDisabled && printButtonLabel == "Print Page"
    {
      printButtonDisabled := false;
      printButtonLabel := "Print Page";
    }

    /** Undoes everything printing changed on the live page; running it twice is running it once. */
    method Cleanup(containers: seq<BoxId>, saved: ContainerStyle)
      requires Valid()
      modifies this`printing, this`containerStyle, this`printButtonDisabled, this`printButtonLabel
      ensures Valid()
      ensures printing == old(printing) - Elements(containers)
      ensures containerStyle == saved
      ensures !printButtonDisabled && printButtonLabel == "Print Page"
    {
      RemovePrintingClass(containers);
      RestoreContainerStyle(saved);
      RestoreButtonState();
    }

    /**
      The synchronous part of the print button: the button is disabled, the
      selection dropped, every box marked for printing, each box's top-left
      recorded as a fraction of the rendered image (live), and the canvas
      container fixed to the visible area of the viewport. Returns the
      containers marked and the container style to restore. An image of
      zero rendered size gives no finite fractions (None).
    */
    method PreparePrint(viewportWidth: real, viewportHeight: real, buttonBarHeight: real, live: Bounds)
      returns (containers: seq<BoxId>, saved: ContainerStyle, fractions: Option<seq<Fraction>>)
      requires Valid()
      modifies this`printButtonDisabled, this`printButtonLabel, this`selectedTextBox, this`highlighted,
               this`focused, this`printing, this`containerStyle
      ensures Valid()
      ensures printButtonDisabled && printButtonLabel == "Preparing..."
      ensures selectedTextBox == None
      ensures highlighted == old(highlighted) - AsSet(old(selectedTextBox))
      ensures focused == BlurIn(old(focused), AsSet(old(selectedTextBox)))
      ensures old(Exclusive()) ==> highlighted == {}
      ensures containers == order && saved == old(containerStyle)
      ensures printing == old(printing) + Elements(order)
      ensures containerStyle == ContainerStyle(Pixels(viewportWidth), Pixels(viewportHeight - buttonBarHeight),
                                               Text("none"), Text("hidden"))
      ensures fractions.Some? <==> Measurable(live)
      ensures fractions.Some? ==> |fractions.value| == |order|
      ensures fractions.Some? ==> forall i :: 0 <= i < |order| ==>
        FromImageFraction(fractions.value[i], live) == Point(boxes[order[i]].left, boxes[order[i]].top)
    {
      printButtonDisabled := true;
      printButtonLabel := "Preparing...";
      DeselectTextBox();

      containers := order;
      MarkPrinting(containers);
      if Measurable(live) {
        fractions := Some(Export.Snapshot(Layout(), live));
      } else {
        fractions := None;
      }

      saved := containerStyle;
      containerStyle := ContainerStyle(Pixels(viewportWidth), Pixels(viewportHeight - buttonBarHeight),
                                       Text("none"), Text("hidden"));
    }

    /**
      The end of a print attempt, by outcome: every path puts back the saved
      container style, unmarks the containers and re-enables the button. A
      direct print is offered exactly when no usable screenshot was obtained.
    */
    method FinishPrint(outcome: CaptureOutcome, containers: seq<BoxId>, saved: ContainerStyle)
      returns (result: PrintResult)
      requires Valid()
      modifies this`printing, this`containerStyle, this`printButtonDisabled, this`printButtonLabel
      ensures Valid()
      ensures printing == old(printing) - Elements(containers)
      ensures containerStyle == saved
      ensures !printButtonDisabled && printButtonLabel == "Print Page"
      ensures result == FallbackOffered <==>
        || outcome.CaptureUnavailable? || outcome.CaptureTimeout? || outcome.CaptureRejected?
        || (outcome.CaptureResolved? &&
            (outcome.canvas.None? || outcome.canvas.value.width == 0 || outcome.canvas.value.height == 0))
      ensures result == PrintTabOpened <==>
        && outcome.CaptureResolved? && outcome.canvas.Some?
        && outcome.canvas.value.width != 0 && outcome.canvas.value.height != 0
        && outcome.encodes && outcome.popupOpens
    {
      match outcome {
        case CaptureUnavailable =>
          Cleanup(containers, saved);
          result := FallbackOffered;
        case CaptureTimeout =>
          // the timer cleans up, then the fallback cleans up again
          Cleanup(containers, saved);
          Cleanup(containers, saved);
          result := FallbackOffered;
        case CaptureRejected =>
          Cleanup(containers, saved);
          result := FallbackOffered;
        case CaptureResolved(canvas, encodes, popupOpens) =>
          RestoreContainerStyle(saved);
          RemovePrintingClass(containers);
          if canvas.None? || canvas.value.width == 0 || canvas.value.height == 0 {
            Cleanup(containers, saved);
            result := FallbackOffered;
          } else if !encodes || !popupOpens {
            // the error is shown to the user and the button re-enabled
            RestoreButtonState();
            result := ErrorAlerted;
          } else {
            Cleanup(containers, saved);
            result := PrintTabOpened;
          }
      }
    }

    /**
      The print button, from click to the end of the attempt. Whatever the
      outcome, the page ends as it was: the container's style restored, no
      box marked for printing, the button enabled again, and no box moved
      or resized; only the selection is dropped, its highlight removed and
      its focus taken away.
    */
    method Print(outcome: CaptureOutcome, viewportWidth: real, viewportHeight: real, buttonBarHeight: real,
                 live: Bounds)
      returns (fractions: Option<seq<Fraction>>, result: PrintResult)
      requires Valid()
      modifies this`printButtonDisabled, this`printButtonLabel, this`selectedTextBox, this`highlighted,
               this`focused, this`printing, this`containerStyle
      ensures Valid()
      ensures containerStyle == old(containerStyle)
      ensures printing == {}
      ensures !printButtonDisabled && printButtonLabel == "Print Page"
      ensures selectedTextBox == None
      ensures highlighted == old(highlighted) - AsSet(old(selectedTextBox))
      ensures focused == BlurIn(old(focused), AsSet(old(selectedTextBox)))
      ensures old(Exclusive()) ==> highlighted == {}
      ensures fractions.Some? <==> Measurable(live)
      ensures fractions.Some? ==> |fractions.value| == |order|
      ensures fractions.Some? ==> forall i :: 0 <= i < |order| ==>
        FromImageFraction(fractions.value[i], live) == Point(boxes[order[i]].left, boxes[order[i]].top)
      ensures result == FallbackOffered <==>
        || outcome.CaptureUnavailable? || outcome.CaptureTimeout? || outcome.CaptureRejected?
        || (outcome.CaptureResolved? &&
            (outcome.canvas.None? || outcome.canvas.value.width == 0 || outcome.canvas.value.height == 0))
    {
      var containers, saved;
      containers, saved, fractions := PreparePrint(viewportWidth, viewportHeight, buttonBarHeight, live);
      result := FinishPrint(outcome, containers, saved);
    }
  }
}
