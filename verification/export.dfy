/**
  Remapping of the text boxes for a screenshot taken at a different size:
  each box's top-left is recorded as a fraction of the rendered image, and
  the boxes of the cloned page are placed at the same fractions of the image
  as it is rendered in the clone.
*/
module Export {
  import opened Geometry

  /** Every point survives the conversion to fractions and back. */
  lemma PixelRoundTripEach(points: seq<Point>, live: Bounds)
    requires Measurable(live)
    ensures forall i :: 0 <= i < |points| ==> FromImageFraction(ToImageFraction(points[i], live), live) == points[i]
  {
    forall i | 0 <= i < |points| {
      PixelRoundTrip(points[i], live);
    }
  }

  /**
    The recorded image fractions of the boxes' top-left corners, one per box
    in document order. Nothing is lost: converting back with the same image
    bounds gives every original position.
  */
  function Snapshot(points: seq<Point>, live: Bounds): (fractions: seq<Fraction>)
    requires Measurable(live)
    ensures |fractions| == |points|
    ensures forall i :: 0 <= i < |points| ==> FromImageFraction(fractions[i], live) == points[i]
  {
    PixelRoundTripEach(points, live);
    seq(|points|, i requires 0 <= i < |points| => ToImageFraction(points[i], live))
  }

  /**
    Places the cloned boxes: the box at index i, when a fraction was recorded
    for it, goes to that fraction of the clone's image; a box with no
    recorded fraction keeps its position.
  */
  method PlaceClones(clones: array<Point>, fractions: seq<Fraction>, target: Bounds)
    modifies clones
    ensures forall i :: 0 <= i < clones.Length ==>
      clones[i] == if i < |fractions| then FromImageFraction(fractions[i], target) else old(clones[i])
  {
    for i := 0 to clones.Length
      invariant forall k :: 0 <= k < i ==>
        clones[k] == if k < |fractions| then FromImageFraction(fractions[k], target) else old(clones[k])
      invariant forall k :: i <= k < clones.Length ==> clones[k] == old(clones[k])
    {
      if i < |fractions| {
        clones[i] := FromImageFraction(fractions[i], target);
      }
    }
  }

  /**
    Lays out the cloned page at the capture size: the image is contain-fitted
    into the capture area and every cloned box is placed at its recorded
    fraction of that image.
  */
  method RepositionClones(clones: array<Point>, fractions: seq<Fraction>,
                          visibleWidth: real, visibleHeight: real, naturalWidth: real, naturalHeight: real)
    returns (target: Bounds)
    requires visibleWidth > 0.0 && visibleHeight > 0.0 && naturalWidth > 0.0 && naturalHeight > 0.0
    modifies clones
    ensures target == ContainFit(visibleWidth, visibleHeight, naturalWidth, naturalHeight)
    ensures forall i :: 0 <= i < clones.Length ==>
      clones[i] == if i < |fractions| then FromImageFraction(fractions[i], target) else old(clones[i])
  {
    target := ContainFit(visibleWidth, visibleHeight, naturalWidth, naturalHeight);
    PlaceClones(clones, fractions, target);
  }

  /**
    A box recorded against the live image and placed against the clone's
    image lands at the remapped position of its live top-left corner, and
    so at the same fraction of the clone's image.
  */
  lemma SnapshotPlacesAtRemap(points: seq<Point>, live: Bounds, target: Bounds, i: nat)
    requires Measurable(live) && Measurable(target) && i < |points|
    ensures FromImageFraction(Snapshot(points, live)[i], target) == Remap(points[i], live, target)
    ensures ToImageFraction(FromImageFraction(Snapshot(points, live)[i], target), target)
         == ToImageFraction(points[i], live)
  {
    var f := Snapshot(points, live)[i];
    assert f == ToImageFraction(points[i], live);
  }

  /**
    A box whose top-left corner is on the live image has its clone's
    top-left corner on the clone's image, whatever the two renderings' sizes.
  */
  lemma SnapshotKeepsOnImage(points: seq<Point>, live: Bounds, target: Bounds, i: nat)
    requires live.width > 0.0 && live.height > 0.0 && target.width > 0.0 && target.height > 0.0
    requires i < |points|
    requires live.offsetX <= points[i].x <= live.offsetX + live.width
    requires live.offsetY <= points[i].y <= live.offsetY + live.height
    ensures var q := FromImageFraction(Snapshot(points, live)[i], target);
      target.offsetX <= q.x <= target.offsetX + target.width && target.offsetY <= q.y <= target.offsetY + target.height
  {
    SnapshotPlacesAtRemap(points, live, target, i);
    RemapKeepsOnImage(points[i], live, target);
  }
}
