/**
  Geometry of the background image: where a "contain"-fitted image lands
  inside a container, and the conversion between container pixels and
  fractions of the rendered image. All values are exact reals; the browser's
  floating-point rounding is not modelled.
*/
module Geometry {

  /** A point in container pixel space (top-left anchored). */
  datatype Point = Point(x: real, y: real)

  /** The sub-rectangle of a container covered by the rendered image. */
  datatype Bounds = Bounds(offsetX: real, offsetY: real, width: real, height: real)

  /** A position expressed relative to the rendered image, as fractions of its size. */
  datatype Fraction = Fraction(leftPercent: real, topPercent: real)

  /** Bounds that can be divided by: the image has a non-zero rendered size. */
  predicate Measurable(b: Bounds)
  {
    b.width != 0.0 && b.height != 0.0
  }

  /** The rendered image lies inside a container of the given size. */
  predicate FitsIn(b: Bounds, containerWidth: real, containerHeight: real)
  {
    && 0.0 <= b.offsetX && b.offsetX + b.width <= containerWidth
    && 0.0 <= b.offsetY && b.offsetY + b.height <= containerHeight
  }

  /**
    Contain fit of an image with natural size naturalWidth x naturalHeight in
    a container of size containerWidth x containerHeight: a relatively wider
    image fills the width and is letterboxed vertically, otherwise it fills
    the height and is letterboxed horizontally.
  */
  function ContainFit(containerWidth: real, containerHeight: real, naturalWidth: real, naturalHeight: real): (b: Bounds)
    requires containerWidth > 0.0 && containerHeight > 0.0
    requires naturalWidth > 0.0 && naturalHeight > 0.0
    ensures b.width > 0.0 && b.height > 0.0
  {
    var imgAspect := naturalWidth / naturalHeight;
    var cloneAspect := containerWidth / containerHeight;
    if imgAspect > cloneAspect then
      var newImageHeight := containerWidth / imgAspect;
      Bounds(0.0, (containerHeight - newImageHeight) / 2.0, containerWidth, newImageHeight)
    else
      var newImageWidth := containerHeight * imgAspect;
      Bounds((containerWidth - newImageWidth) / 2.0, 0.0, newImageWidth, containerHeight)
  }

  /** Comparing two positive ratios is comparing the cross products. */
  lemma RatioGreater(a: real, b: real, c: real, d: real)
    requires b > 0.0 && d > 0.0
    ensures a / b > c / d <==> a * d > c * b
  {
    assert a / b * (b * d) == a * d;
    assert c / d * (b * d) == c * b;
  }

  /** The branch ContainFit takes, stated without division. */
  lemma ContainFitBranch(cw: real, ch: real, nw: real, nh: real)
    requires cw > 0.0 && ch > 0.0 && nw > 0.0 && nh > 0.0
    ensures var b := ContainFit(cw, ch, nw, nh);
      if nw * ch > cw * nh then
        b.offsetX == 0.0 && b.width == cw && b.height * nw == cw * nh && 2.0 * b.offsetY + b.height == ch
      else
        b.offsetY == 0.0 && b.height == ch && b.width * nh == ch * nw && 2.0 * b.offsetX + b.width == cw
  {
    RatioGreater(nw, nh, cw, ch);
    var imgAspect := nw / nh;
    assert imgAspect * nh == nw;
    if nw * ch > cw * nh {
      var h := cw / imgAspect;
      assert h * imgAspect == cw;
      calc {
        h * nw;
        h * (imgAspect * nh);
        (h * imgAspect) * nh;
        cw * nh;
      }
    } else {
      var w := ch * imgAspect;
      assert w * nh == ch * (imgAspect * nh);
    }
  }

  /** The rendered image never spills out of its container. */
  lemma ContainFitInside(cw: real, ch: real, nw: real, nh: real)
    requires cw > 0.0 && ch > 0.0 && nw > 0.0 && nh > 0.0
    ensures FitsIn(ContainFit(cw, ch, nw, nh), cw, ch)
  {
    var b := ContainFit(cw, ch, nw, nh);
    ContainFitBranch(cw, ch, nw, nh);
    if nw * ch > cw * nh {
      // b.height * nw == cw * nh < nw * ch, so b.height < ch
      assert b.height * nw < ch * nw;
      assert b.height < ch;
    } else {
      assert b.width * nh <= cw * nh;
      assert b.width <= cw;
    }
  }

  /** One axis of the container is exactly filled. */
  lemma ContainFitFills(cw: real, ch: real, nw: real, nh: real)
    requires cw > 0.0 && ch > 0.0 && nw > 0.0 && nh > 0.0
    ensures var b := ContainFit(cw, ch, nw, nh);
      (b.offsetX == 0.0 && b.width == cw) || (b.offsetY == 0.0 && b.height == ch)
  {
    ContainFitBranch(cw, ch, nw, nh);
  }

  /** The image is centred on both axes: equal padding on either side. */
  lemma ContainFitCentred(cw: real, ch: real, nw: real, nh: real)
    requires cw > 0.0 && ch > 0.0 && nw > 0.0 && nh > 0.0
    ensures var b := ContainFit(cw, ch, nw, nh);
      2.0 * b.offsetX + b.width == cw && 2.0 * b.offsetY + b.height == ch
  {
    ContainFitBranch(cw, ch, nw, nh);
  }

  /** The natural aspect ratio is kept. */
  lemma ContainFitAspect(cw: real, ch: real, nw: real, nh: real)
    requires cw > 0.0 && ch > 0.0 && nw > 0.0 && nh > 0.0
    ensures var b := ContainFit(cw, ch, nw, nh);
      b.width / b.height == nw / nh
  {
    var b := ContainFit(cw, ch, nw, nh);
    ContainFitBranch(cw, ch, nw, nh);
    assert b.width * nh == b.height * nw;
    assert b.width / b.height * (b.height * nh) == b.width * nh;
    assert nw / nh * (b.height * nh) == b.height * nw;
  }

  /**
    Contain fit is the largest scaling of the image that fits: any scale s
    at which the whole image fits the container gives a rendering no larger
    than the one computed.
  */
  lemma ContainFitLargest(cw: real, ch: real, nw: real, nh: real, s: real)
    requires cw > 0.0 && ch > 0.0 && nw > 0.0 && nh > 0.0
    requires s > 0.0 && s * nw <= cw && s * nh <= ch
    ensures var b := ContainFit(cw, ch, nw, nh);
      s * nw <= b.width && s * nh <= b.height
  {
    var b := ContainFit(cw, ch, nw, nh);
    ContainFitBranch(cw, ch, nw, nh);
    if nw * ch > cw * nh {
      // b.height * nw == cw * nh >= s * nw * nh
      assert b.height * nw >= (s * nh) * nw;
    } else {
      assert b.width * nh >= (s * nw) * nh;
    }
  }

  /**
    A worked case: a 1600 x 800 image in an 800 x 600 container is wider
    than the container, fills its width, and is letterboxed by 100 pixels
    above and below; the point (100, 150) is an eighth of the way across
    and down the image.
  */
  lemma ContainFitWideImageExample()
    ensures ContainFit(800.0, 600.0, 1600.0, 800.0) == Bounds(0.0, 100.0, 800.0, 400.0)
    ensures ToImageFraction(Point(100.0, 150.0), Bounds(0.0, 100.0, 800.0, 400.0)) == Fraction(0.125, 0.125)
  {
    assert 1600.0 / 800.0 == 2.0;
    assert 800.0 / 2.0 == 400.0;
  }

  /** Container pixel position to image fraction; fractions are not clamped to [0, 1]. */
  function ToImageFraction(p: Point, b: Bounds): (f: Fraction)
    requires Measurable(b)
    ensures f.leftPercent * b.width == p.x - b.offsetX
    ensures f.topPercent * b.height == p.y - b.offsetY
  {
    Fraction((p.x - b.offsetX) / b.width, (p.y - b.offsetY) / b.height)
  }

  /**
    Image fraction back to container pixel position: the inverse of
    ToImageFraction, so the point found lies at fraction f of the image.
  */
  function FromImageFraction(f: Fraction, b: Bounds): (p: Point)
    ensures Measurable(b) ==> ToImageFraction(p, b) == f
  {
    Point(b.offsetX + f.leftPercent * b.width, b.offsetY + f.topPercent * b.height)
  }

  /** Pixel to fraction and back with the same bounds gives the original point. */
  lemma PixelRoundTrip(p: Point, b: Bounds)
    requires Measurable(b)
    ensures FromImageFraction(ToImageFraction(p, b), b) == p
  {
    var f := ToImageFraction(p, b);
    assert f.leftPercent * b.width == p.x - b.offsetX;
    assert f.topPercent * b.height == p.y - b.offsetY;
  }

  /**
    A point lies on the rendered image exactly when its fraction is in [0, 1]
    on both axes (for an image of positive size).
  */
  lemma OnImageIffUnitFraction(p: Point, b: Bounds)
    requires b.width > 0.0 && b.height > 0.0
    ensures var f := ToImageFraction(p, b);
      (b.offsetX <= p.x <= b.offsetX + b.width && b.offsetY <= p.y <= b.offsetY + b.height)
      <==> (0.0 <= f.leftPercent <= 1.0 && 0.0 <= f.topPercent <= 1.0)
  {
    var f := ToImageFraction(p, b);
    assert f.leftPercent * b.width == p.x - b.offsetX;
    assert f.topPercent * b.height == p.y - b.offsetY;
    UnitScale(f.leftPercent, b.width);
    UnitScale(f.topPercent, b.height);
    assert (b.offsetX <= p.x <= b.offsetX + b.width) <==> (0.0 <= f.leftPercent * b.width <= b.width);
    assert (b.offsetY <= p.y <= b.offsetY + b.height) <==> (0.0 <= f.topPercent * b.height <= b.height);
  }

  /** Scaling by a positive size maps [0, 1] onto [0, size] and nothing else onto it. */
  lemma UnitScale(x: real, size: real)
    requires size > 0.0
    ensures (0.0 <= x * size <= size) <==> (0.0 <= x <= 1.0)
  {
    if x < 0.0 {
      assert x * size < 0.0 * size;
    } else if x > 1.0 {
      assert x * size > 1.0 * size;
    } else {
      assert x * size <= 1.0 * size;
    }
  }

  /**
    Moving a point from one rendering of the image to another: the result
    sits at the same fraction of the new rendering as the original did of
    the old one.
  */
  function Remap(p: Point, from: Bounds, to: Bounds): (q: Point)
    requires Measurable(from) && Measurable(to)
    ensures ToImageFraction(q, to) == ToImageFraction(p, from)
  {
    FromImageFraction(ToImageFraction(p, from), to)
  }

  /** Remapping onto the same rendering leaves a point where it was. */
  lemma RemapIdentity(p: Point, b: Bounds)
    requires Measurable(b)
    ensures Remap(p, b, b) == p
  {
    PixelRoundTrip(p, b);
  }

  /** Remapping through an intermediate rendering is remapping directly. */
  lemma RemapCompose(p: Point, a: Bounds, b: Bounds, c: Bounds)
    requires Measurable(a) && Measurable(b) && Measurable(c)
    ensures Remap(Remap(p, a, b), b, c) == Remap(p, a, c)
  {
  }

  /** A point on the old rendering of the image lands on the new rendering. */
  lemma RemapKeepsOnImage(p: Point, from: Bounds, to: Bounds)
    requires from.width > 0.0 && from.height > 0.0 && to.width > 0.0 && to.height > 0.0
    requires from.offsetX <= p.x <= from.offsetX + from.width
    requires from.offsetY <= p.y <= from.offsetY + from.height
    ensures var q := Remap(p, from, to);
      to.offsetX <= q.x <= to.offsetX + to.width && to.offsetY <= q.y <= to.offsetY + to.height
  {
    var q := Remap(p, from, to);
    OnImageIffUnitFraction(p, from);
    OnImageIffUnitFraction(q, to);
  }
}
