/** A carousel slide's geometry (src/scripts/lib/Item.js): where the slide
    sits on the strip of slides, the positions between which it is visible,
    how it is centred in the gallery box, and the offsets its draw callback
    computes for a strip position. Every field is assigned once, when the
    slide is built.
 */
module Slide {
  import opened Js

  datatype Geometry = Geometry(
    idx: nat,
    parentWidth: real,
    parentHeight: real,
    slideWidth: real,
    slideHeight: real,
    xOffset: real,
    yOffset: real,
    leftBound: real,
    rightBound: real,
    leftOffset: real)

  /** n·x for a slide index n, as repeated addition, so that the geometry
      proofs stay linear; ScaleIsProduct shows it is the product. */
  function Scale(n: nat, x: real): real {
    if n == 0 then 0.0 else Scale(n - 1, x) + x
  }

  lemma {:induction false} ScaleIsProduct(n: nat, x: real)
    ensures Scale(n, x) == n as real * x
  {
    if n > 0 {
      ScaleIsProduct(n - 1, x);
      assert (n - 1) as real * x + x == n as real * x;
    }
  }

  lemma {:induction false} ScaleAdd(n: nat, x: real, y: real)
    ensures Scale(n, x + y) == Scale(n, x) + Scale(n, y)
  {
    if n > 0 {
      ScaleAdd(n - 1, x, y);
    }
  }

  /** Offsets of slides further along the strip are at least one step
      further on. */
  lemma {:induction false} ScaleGap(a: nat, b: nat, x: real)
    requires a >= b + 1 && x >= 0.0
    ensures Scale(a, x) >= Scale(b, x) + x
    ensures a >= b + 2 ==> Scale(a, x) >= Scale(b, x) + x + x
    decreases a
  {
    if a > b + 1 {
      ScaleGap(a - 1, b, x);
    }
  }

  /** _getProps: slide idx of a gallery `parentWidth` wide with `margin`
      between slides, holding a scaled image of slideWidth × slideHeight. */
  function GetProps(idx: nat, parentWidth: real, parentHeight: real, margin: real,
                    slideWidth: real, slideHeight: real): (g: Geometry)
    ensures g.idx == idx && g.parentWidth == parentWidth && g.parentHeight == parentHeight
    ensures g.slideWidth == slideWidth && g.slideHeight == slideHeight
    ensures g.leftOffset == Scale(idx, parentWidth + margin)
    ensures g.leftBound == g.leftOffset - parentWidth && g.rightBound == g.leftOffset + parentWidth
    ensures g.xOffset + slideWidth + g.xOffset == parentWidth
    ensures g.yOffset + slideHeight + g.yOffset == parentHeight
  {
    ScaleIsProduct(idx, parentWidth);
    ScaleIsProduct(idx, margin);
    ScaleAdd(idx, parentWidth, margin);
    Geometry(idx, parentWidth, parentHeight, slideWidth, slideHeight,
             (parentWidth - slideWidth) / 2.0,
             (parentHeight - slideHeight) / 2.0,
             ((idx as real - 1.0) * parentWidth) + (idx as real * margin),
             ((idx as real + 1.0) * parentWidth) + (idx as real * margin),
             (idx as real * parentWidth) + (idx as real * margin))
  }

  /** The argument given, or the parameter's default when it is undefined. */
  function Given<T>(arg: Option<T>, default: T): T {
    if arg.Some? then arg.value else default
  }

  /** _getProps with its defaults: idx 0, a 400 × 400 gallery, margin 40;
      each parameter takes its default exactly when its argument is
      undefined (None), whatever the other arguments are. */
  function GetPropsWithDefaults(idx: Option<nat>, parentWidth: Option<real>, parentHeight: Option<real>,
                                margin: Option<real>, slideWidth: real, slideHeight: real): (g: Geometry)
    ensures g.idx == (if idx.Some? then idx.value else 0)
    ensures g.parentWidth == (if parentWidth.Some? then parentWidth.value else 400.0)
    ensures g.parentHeight == (if parentHeight.Some? then parentHeight.value else 400.0)
    ensures g.leftOffset == Scale(g.idx, g.parentWidth + (if margin.Some? then margin.value else 40.0))
    ensures g.slideWidth == slideWidth && g.slideHeight == slideHeight
    ensures g.xOffset + slideWidth + g.xOffset == g.parentWidth
    ensures g.yOffset + slideHeight + g.yOffset == g.parentHeight
    ensures g.leftBound == g.leftOffset - g.parentWidth && g.rightBound == g.leftOffset + g.parentWidth
  {
    GetProps(Given(idx, 0), Given(parentWidth, 400.0), Given(parentHeight, 400.0), Given(margin, 40.0),
             slideWidth, slideHeight)
  }

  /** With every default, slide 0 sits at 0 and is visible from −400 to 400. */
  lemma DefaultSlide(slideWidth: real, slideHeight: real)
    ensures var g := GetPropsWithDefaults(None, None, None, None, slideWidth, slideHeight);
      g.leftOffset == 0.0 && g.leftBound == -400.0 && g.rightBound == 400.0
  {
  }

  /** Consecutive slides are one gallery width plus one margin apart, and
      each slide's offset lies strictly inside its visibility bounds. */
  lemma SlidesEvenlySpaced(idx: nat, parentWidth: real, parentHeight: real, margin: real,
                           w1: real, h1: real, w2: real, h2: real)
    ensures GetProps(idx + 1, parentWidth, parentHeight, margin, w2, h2).leftOffset
         == GetProps(idx, parentWidth, parentHeight, margin, w1, h1).leftOffset + parentWidth + margin
    ensures parentWidth > 0.0 ==>
      var g := GetProps(idx, parentWidth, parentHeight, margin, w1, h1);
      g.leftBound < g.leftOffset < g.rightBound
  {
  }

  /** _onDraw's horizontal destination for strip position pos. */
  function Dx(g: Geometry, pos: real): real {
    g.leftOffset - pos + g.xOffset
  }

  /** _parallax's shift of the image inside its own canvas. */
  function Parallax(g: Geometry, dx: real): int {
    Round((dx - g.xOffset) * -0.25)
  }

  /** The offsets a slide draws with at position pos: horizontal and
      vertical destination and the parallax shift. */
  datatype Offsets = Offsets(dx: real, dy: real, shift: int)

  function DrawOffsets(g: Geometry, pos: real): (o: Offsets)
    ensures o.dx == g.xOffset + (g.leftOffset - pos)
    ensures o.dy == g.yOffset
    ensures o.shift == Round((pos - g.leftOffset) / 4.0)
  {
    var dx := Dx(g, pos);
    assert (dx - g.xOffset) * -0.25 == (pos - g.leftOffset) / 4.0;
    Offsets(dx, 0.0 + g.yOffset, Parallax(g, dx))
  }

  /** At rest on its own offset a slide is drawn centred, unshifted; moving
      the strip right moves the slide left by the same amount and never
      decreases the parallax shift. */
  lemma DrawOffsetsAtRestAndMoving(g: Geometry, pos: real, pos2: real)
    ensures DrawOffsets(g, g.leftOffset) == Offsets(g.xOffset, g.yOffset, 0)
    ensures DrawOffsets(g, pos2).dx == DrawOffsets(g, pos).dx - (pos2 - pos)
    ensures pos <= pos2 ==> DrawOffsets(g, pos).shift <= DrawOffsets(g, pos2).shift
  {
    assert (g.leftOffset - g.leftOffset) / 4.0 == 0.0;
    RoundOfInt(0);
    if pos <= pos2 {
      RoundMonotone((pos - g.leftOffset) / 4.0, (pos2 - g.leftOffset) / 4.0);
    }
  }

  /** Slide g is drawn for position pos (the inclusive bounds test of
      _getSlidesInView). */
  predicate InView(g: Geometry, pos: real) {
    g.leftBound <= pos <= g.rightBound
  }

  /** With a positive width and margin, at most two adjacent slides are in
      view at any position, and at rest on slide k's offset only slide k
      is. */
  lemma ViewIsLocal(k: nat, j: nat, parentWidth: real, parentHeight: real, margin: real,
                    wk: real, hk: real, wj: real, hj: real, pos: real)
    requires parentWidth > 0.0 && margin > 0.0
    ensures var gk := GetProps(k, parentWidth, parentHeight, margin, wk, hk);
      var gj := GetProps(j, parentWidth, parentHeight, margin, wj, hj);
      (InView(gk, pos) && InView(gj, pos) ==> k <= j + 1 && j <= k + 1) &&
      (InView(gj, gk.leftOffset) ==> j == k)
  {
    if j >= k + 1 {
      ScaleGap(j, k, parentWidth + margin);
    } else if k >= j + 1 {
      ScaleGap(k, j, parentWidth + margin);
    }
  }
}
