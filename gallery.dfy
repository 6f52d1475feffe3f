/** The carousel (src/scripts/lib/Gallery.js): a strip of slides drawn
    through a fixed-width window. `pos` is the strip position shown,
    `currentPosition` the resting position of the current slide; goTo,
    the pan handler and the keyboard handler start transitions, and each
    animation frame moves `pos` along the running transition and draws the
    slides in view.
 */
module Carousel {
  import opened Js
  import opened HammerUtil
  import opened Events
  import opened Easing
  import opened Slide

  /** An image's natural size. */
  datatype Image = Image(width: real, height: real)

  /** A size rounded to whole pixels. */
  datatype Dimensions = Dimensions(width: int, height: int)

  /** a/b >= c/d exactly when a·d >= c·b, for positive b and d. */
  lemma RatioOrder(a: real, b: real, c: real, d: real)
    requires b > 0.0 && d > 0.0
    ensures a / b >= c / d <==> a * d >= c * b
  {
    var x, y := a / b, c / d;
    assert a == x * b && c == y * d;
    assert a * d == x * (b * d) && c * b == y * (b * d);
    assert b * d > 0.0;
    if x >= y {
      assert x * (b * d) - y * (b * d) == (x - y) * (b * d);
    } else {
      assert y * (b * d) - x * (b * d) == (y - x) * (b * d);
    }
  }

  /** _scaleImageDimensions: the image fitted into the gallery box. An
      image at least as wide (relative to its height) as the box fills the
      box's width, any other fills its height, and neither side leaves the
      box. */
  function ScaleImageDimensions(width: real, height: real, galleryMaxWidth: real, galleryMaxHeight: real): (d: Dimensions)
    requires width > 0.0 && height > 0.0 && galleryMaxWidth > 0.0 && galleryMaxHeight > 0.0
    ensures d.width <= Round(galleryMaxWidth) && d.height <= Round(galleryMaxHeight)
    ensures width / height >= galleryMaxWidth / galleryMaxHeight ==> d.width == Round(galleryMaxWidth)
    ensures width / height < galleryMaxWidth / galleryMaxHeight ==> d.height == Round(galleryMaxHeight)
    // the other side keeps the image's aspect ratio
    ensures width / height >= galleryMaxWidth / galleryMaxHeight ==> d.height == Round((height * galleryMaxWidth) / width)
    ensures width / height < galleryMaxWidth / galleryMaxHeight ==> d.width == Round((width * galleryMaxHeight) / height)
  {
    var itemRatio := width / height;
    var galleryRatio := galleryMaxWidth / galleryMaxHeight;
    var willScaleXAxis := itemRatio >= galleryRatio;
    RatioOrder(width, height, galleryMaxWidth, galleryMaxHeight);
    RatioOrder(height * galleryMaxWidth, width, galleryMaxHeight, 1.0);
    RatioOrder(width * galleryMaxHeight, height, galleryMaxWidth, 1.0);
    var newWidth := Round(if willScaleXAxis then galleryMaxWidth else (width * galleryMaxHeight) / height);
    var newHeight := Round(if willScaleXAxis then (height * galleryMaxWidth) / width else galleryMaxHeight);
    if willScaleXAxis then
      RoundMonotone((height * galleryMaxWidth) / width, galleryMaxHeight);
      Dimensions(newWidth, newHeight)
    else
      RoundMonotone((width * galleryMaxHeight) / height, galleryMaxWidth);
      Dimensions(newWidth, newHeight)
  }

  /** Fitting an image into the box scales both of its sides by one factor,
      the smaller of the two box-to-image ratios, before rounding: the
      scaled image fits the box and touches it on at least one side. */
  lemma ScaleByOneFactor(width: real, height: real, galleryMaxWidth: real, galleryMaxHeight: real)
    requires width > 0.0 && height > 0.0 && galleryMaxWidth > 0.0 && galleryMaxHeight > 0.0
    ensures var k := MinReal(galleryMaxWidth / width, galleryMaxHeight / height);
      var d := ScaleImageDimensions(width, height, galleryMaxWidth, galleryMaxHeight);
      && d == Dimensions(Round(k * width), Round(k * height))
      && k * width <= galleryMaxWidth && k * height <= galleryMaxHeight
      && (k * width == galleryMaxWidth || k * height == galleryMaxHeight)
  {
    FitByFactor(width, height, galleryMaxWidth, galleryMaxHeight,
                ScaleImageDimensions(width, height, galleryMaxWidth, galleryMaxHeight));
  }

  /** The fitting rule, with the fitted dimensions d as given, read as one
      factor for both sides. */
  lemma FitByFactor(width: real, height: real, galleryMaxWidth: real, galleryMaxHeight: real, d: Dimensions)
    requires width > 0.0 && height > 0.0 && galleryMaxWidth > 0.0 && galleryMaxHeight > 0.0
    requires width / height >= galleryMaxWidth / galleryMaxHeight ==>
               d.width == Round(galleryMaxWidth) && d.height == Round((height * galleryMaxWidth) / width)
    requires width / height < galleryMaxWidth / galleryMaxHeight ==>
               d.height == Round(galleryMaxHeight) && d.width == Round((width * galleryMaxHeight) / height)
    ensures var k := MinReal(galleryMaxWidth / width, galleryMaxHeight / height);
      && d == Dimensions(Round(k * width), Round(k * height))
      && k * width <= galleryMaxWidth && k * height <= galleryMaxHeight
      && (k * width == galleryMaxWidth || k * height == galleryMaxHeight)
  {
    FactorOrder(width, height, galleryMaxWidth, galleryMaxHeight);
    if galleryMaxWidth / width <= galleryMaxHeight / height {
      FitWide(width, height, galleryMaxWidth, galleryMaxHeight, d);
    } else {
      FitTall(width, height, galleryMaxWidth, galleryMaxHeight, d);
    }
  }

  /** FitByFactor for an image that needs the width's factor. */
  lemma FitWide(width: real, height: real, galleryMaxWidth: real, galleryMaxHeight: real, d: Dimensions)
    requires width > 0.0 && height > 0.0 && galleryMaxWidth > 0.0 && galleryMaxHeight > 0.0
    requires galleryMaxWidth / width <= galleryMaxHeight / height
    requires d.width == Round(galleryMaxWidth) && d.height == Round((height * galleryMaxWidth) / width)
    ensures var k := MinReal(galleryMaxWidth / width, galleryMaxHeight / height);
      && d == Dimensions(Round(k * width), Round(k * height))
      && k * width <= galleryMaxWidth && k * height <= galleryMaxHeight
      && (k * width == galleryMaxWidth || k * height == galleryMaxHeight)
  {
    FitSide(width, height, galleryMaxWidth, galleryMaxHeight, d.width, d.height);
    assert MinReal(galleryMaxWidth / width, galleryMaxHeight / height) == galleryMaxWidth / width;
  }

  /** FitByFactor for an image that needs the height's factor. */
  lemma FitTall(width: real, height: real, galleryMaxWidth: real, galleryMaxHeight: real, d: Dimensions)
    requires width > 0.0 && height > 0.0 && galleryMaxWidth > 0.0 && galleryMaxHeight > 0.0
    requires galleryMaxHeight / height < galleryMaxWidth / width
    requires d.height == Round(galleryMaxHeight) && d.width == Round((width * galleryMaxHeight) / height)
    ensures var k := MinReal(galleryMaxWidth / width, galleryMaxHeight / height);
      && d == Dimensions(Round(k * width), Round(k * height))
      && k * width <= galleryMaxWidth && k * height <= galleryMaxHeight
      && (k * width == galleryMaxWidth || k * height == galleryMaxHeight)
  {
    FitSide(height, width, galleryMaxHeight, galleryMaxWidth, d.height, d.width);
    assert MinReal(galleryMaxWidth / width, galleryMaxHeight / height) == galleryMaxHeight / height;
  }

  /** One branch of the fitting rule: when side needs the smaller factor
      k = box/side, the fitted sides are side and other scaled by k, the
      first meets its box and the second fits its own. */
  lemma FitSide(side: real, other: real, box: real, otherBox: real, fitted: int, otherFitted: int)
    requires side > 0.0 && other > 0.0 && box > 0.0 && otherBox > 0.0
    requires box / side <= otherBox / other
    requires fitted == Round(box) && otherFitted == Round((other * box) / side)
    ensures var k := box / side;
      && fitted == Round(k * side) && otherFitted == Round(k * other)
      && k * side == box && k * other <= otherBox
  {
    ScaledBy(side, other, box, otherBox);
  }

  /** The image is wider than the box (relative to the heights) exactly when
      the width needs the smaller factor. */
  lemma FactorOrder(width: real, height: real, galleryMaxWidth: real, galleryMaxHeight: real)
    requires width > 0.0 && height > 0.0 && galleryMaxWidth > 0.0 && galleryMaxHeight > 0.0
    ensures width / height >= galleryMaxWidth / galleryMaxHeight <==>
            galleryMaxWidth / width <= galleryMaxHeight / height
  {
    RatioOrder(width, height, galleryMaxWidth, galleryMaxHeight);
    RatioOrder(galleryMaxHeight, height, galleryMaxWidth, width);
  }

  /** Scaling by the factor that makes one side meet its box: that side
      meets the box, the other side is the source's (other·box)/side, and
      when this factor is the smaller one the other side fits its box. */
  lemma ScaledBy(side: real, other: real, box: real, otherBox: real)
    requires side > 0.0 && other > 0.0 && box > 0.0 && otherBox > 0.0
    requires box / side <= otherBox / other
    ensures (box / side) * side == box
    ensures (box / side) * other == (other * box) / side
    ensures (box / side) * other <= otherBox
  {
    ScaledSide(other, box, side);
    ScaledSide(other, otherBox, other);
    ScaleOrder(box / side, otherBox / other, other);
  }

  lemma ScaleOrder(k1: real, k2: real, a: real)
    requires k1 <= k2 && a > 0.0
    ensures k1 * a <= k2 * a
  {
    assert k2 * a - k1 * a == (k2 - k1) * a;
  }

  /** Scaling side a by the ratio b/c is the source's (a·b)/c, and a side
      scaled by its own box ratio meets the box. */
  lemma ScaledSide(a: real, b: real, c: real)
    requires c > 0.0
    ensures (b / c) * a == (a * b) / c
    ensures (b / c) * c == b
  {
  }

  /** _getSlideDimensions: every image scaled, and the height of the
      tallest (0 for no images). */
  method GetSlideDimensions(images: seq<Image>, galleryMaxWidth: real, galleryMaxHeight: real)
    returns (dims: seq<Dimensions>, tallest: int)
    requires galleryMaxWidth > 0.0 && galleryMaxHeight > 0.0
    requires forall i :: 0 <= i < |images| ==> images[i].width > 0.0 && images[i].height > 0.0
    ensures |dims| == |images|
    ensures forall i :: 0 <= i < |images| ==>
      dims[i] == ScaleImageDimensions(images[i].width, images[i].height, galleryMaxWidth, galleryMaxHeight)
    ensures tallest >= 0
    ensures forall i :: 0 <= i < |dims| ==> dims[i].height <= tallest
    ensures tallest == 0 || exists i :: 0 <= i < |dims| && dims[i].height == tallest
  {
    tallest := 0;
    dims := [];
    var idx := 0;
    while idx < |images|
      invariant idx <= |images| && |dims| == idx
      invariant forall i :: 0 <= i < idx ==>
        dims[i] == ScaleImageDimensions(images[i].width, images[i].height, galleryMaxWidth, galleryMaxHeight)
      invariant tallest >= 0
      invariant forall i :: 0 <= i < idx ==> dims[i].height <= tallest
      invariant tallest == 0 || exists i :: 0 <= i < idx && dims[i].height == tallest
    {
      var dimensions := ScaleImageDimensions(images[idx].width, images[idx].height, galleryMaxWidth, galleryMaxHeight);
      tallest := if dimensions.height > tallest then dimensions.height else tallest;
      dims := dims + [dimensions];
      idx := idx + 1;
    }
  }

  /** The slides the constructor builds, one per scaled image. */
  method BuildSlides(dims: seq<Dimensions>, width: real, height: real, margin: real) returns (slides: seq<Geometry>)
    ensures |slides| == |dims|
    ensures forall i :: 0 <= i < |dims| ==>
      slides[i] == GetProps(i, width, height, margin, dims[i].width as real, dims[i].height as real)
  {
    slides := [];
    var idx := 0;
    while idx < |dims|
      invariant idx <= |dims| && |slides| == idx
      invariant forall i :: 0 <= i < idx ==>
        slides[i] == GetProps(i, width, height, margin, dims[i].width as real, dims[i].height as real)
    {
      slides := slides + [GetProps(idx, width, height, margin, dims[idx].width as real, dims[idx].height as real)];
      idx := idx + 1;
    }
  }

  predicate Increasing(s: seq<nat>) {
    forall i, j :: 0 <= i < j < |s| ==> s[i] < s[j]
  }

  /** _getSlidesInView(pos): the indices of the slides whose bounds hold
      pos, in ascending order. */
  method SlidesInView(slides: seq<Geometry>, pos: real) returns (inView: seq<nat>)
    ensures Increasing(inView)
    ensures forall i :: i in inView ==> i < |slides|
    ensures forall i :: 0 <= i < |slides| ==> (i in inView <==> InView(slides[i], pos))
  {
    inView := [];
    var idx := 0;
    while idx < |slides|
      invariant idx <= |slides|
      invariant Increasing(inView)
      invariant forall k :: 0 <= k < |inView| ==> inView[k] < idx
      invariant forall i :: 0 <= i < idx ==> (i in inView <==> InView(slides[i], pos))
    {
      if pos >= slides[idx].leftBound && pos <= slides[idx].rightBound {
        inView := inView + [idx];
      }
      idx := idx + 1;
    }
  }

  /** _isTerminal: the current slide is an end slide and the last pan
      movement heads past that end (right, direction 4, on the first slide;
      left, direction 2, on the last). */
  function Terminal(currentSlide: int, numSlides: int, direction: Option<Flags>): (b: bool)
    requires 0 <= currentSlide < numSlides
    ensures b <==> ((direction == Some(DIRECTION_RIGHT) && currentSlide - 1 < 0) ||
                    (direction == Some(DIRECTION_LEFT) && currentSlide + 1 > numSlides - 1))
  {
    (currentSlide == 0 && direction == Some(DIRECTION_RIGHT)) ||
    (currentSlide == numSlides - 1 && direction == Some(DIRECTION_LEFT))
  }

  /** The pan handler's strip position for a drag: the strip follows the
      finger while it stays strictly inside the track (0, fullWidth), and
      moves half as far once it would reach or pass an end. */
  function PanPosition(currentPosition: real, fullWidth: real, drag: int): (p: real)
    ensures var follow := currentPosition - drag as real;
      (0.0 < follow < fullWidth ==> p == follow) &&
      (!(0.0 < follow < fullWidth) ==> p - currentPosition == (currentPosition - follow) * -0.5)
  {
    var tentativePos := currentPosition + (drag as real * -1.0);
    if tentativePos <= 0.0 || tentativePos >= fullWidth then currentPosition + (drag as real * -0.5)
    else tentativePos
  }

  /** What the end of a pan does: go to a slide, transition back to the
      current slide, or nothing yet. */
  datatype Settle = Advance(slide: int) | SnapBack | KeepDragging

  /** The slide a long enough drag asks for: the next one for a drag to
      the left, the previous one otherwise. */
  function Target(drag: int, currentSlide: int): int {
    if drag < 0 then currentSlide + 1 else currentSlide - 1
  }

  /** The pan handler's release decision as written. The terminal test
      looks at the direction of the last movement, not of the drag, so on
      an end slide a drag past the end whose last movement turned back asks
      goTo for a slide that does not exist; goTo ignores it and nothing
      takes the strip back. */
  function ReleaseAsWritten(isFinal: bool, drag: int, width: real, currentSlide: int, numSlides: int,
                            direction: Option<Flags>): (r: Settle)
    requires 0 <= currentSlide < numSlides
    ensures !isFinal <==> r == KeepDragging
    ensures isFinal && (Abs(drag) as real) < width / 3.0 ==> r == SnapBack
    ensures r.Advance? ==> r.slide == Target(drag, currentSlide)
  {
    if isFinal && Abs(drag) as real >= width / 3.0 && !Terminal(currentSlide, numSlides, direction) then
      Advance(Target(drag, currentSlide))
    else if isFinal then SnapBack
    else KeepDragging
  }

  /** On the last of three 300-pixel slides, a release 150 pixels to the
      left whose last movement was to the right asks for slide 3. */
  lemma ReleaseAsWrittenStrands()
    ensures !Terminal(2, 3, Some(DIRECTION_RIGHT))
    ensures ReleaseAsWritten(true, -150, 300.0, 2, 3, Some(DIRECTION_RIGHT)) == Advance(3)
    ensures !(0 <= 3 < 3)
  {
  }

  /** The release decision as intended: a slide past either end is never
      asked for; the strip goes back to the current slide instead. */
  function Release(isFinal: bool, drag: int, width: real, currentSlide: int, numSlides: int,
                   direction: Option<Flags>): (r: Settle)
    requires 0 <= currentSlide < numSlides
    ensures !isFinal <==> r == KeepDragging
    ensures r.Advance? ==> 0 <= r.slide < numSlides && r.slide != currentSlide
    ensures var w := ReleaseAsWritten(isFinal, drag, width, currentSlide, numSlides, direction);
      (w.Advance? && 0 <= w.slide < numSlides ==> r == w) &&
      (!(w.Advance? && 0 <= w.slide < numSlides) ==> !r.Advance?)
  {
    var which := Target(drag, currentSlide);
    if isFinal && Abs(drag) as real >= width / 3.0 && !Terminal(currentSlide, numSlides, direction)
       && 0 <= which < numSlides then
      Advance(which)
    else if isFinal then SnapBack
    else KeepDragging
  }

  /** Transition progress at time t of a transition that started at
      `start` and lasts `duration`, capped at 1. */
  function TransitionDelta(start: real, duration: real, t: real): (d: real)
    requires duration > 0.0
    ensures d <= 1.0
    ensures t == start ==> d == 0.0
    ensures t >= start + duration ==> d == 1.0
    ensures start <= t ==> 0.0 <= d
  {
    var ratio := (t - start) / duration;
    assert t >= start + duration ==> ratio >= 1.0 by {
      assert ratio * duration == t - start;
    }
    assert start <= t ==> ratio >= 0.0 by {
      assert ratio * duration == t - start;
    }
    MinReal(ratio, 1.0)
  }

  /** Every slide sits where _getProps puts slide i of the strip. */
  predicate LaidOut(slides: seq<Geometry>, width: real, height: real, margin: real) {
    forall i :: 0 <= i < |slides| ==>
      slides[i] == GetProps(i, width, height, margin, slides[i].slideWidth, slides[i].slideHeight)
  }

  class Gallery {
    /** The emitter the gallery extends. */
    const emitter: Emitter
    var width: real
    var maxHeight: real
    /** `_height`: the height of the tallest scaled slide. */
    var height: real
    var margin: real
    var keyBoardTransitionDuration: real
    var currentSlide: int
    var currentPosition: real
    var pos: real
    /** `_lastPos`; None stands for false. */
    var lastPos: Option<real>
    var ready: bool
    var transitioning: bool
    /** `_transitionStart`; None stands for false. */
    var transitionStart: Option<real>
    var transitionDuration: real
    var transitionFrom: real
    var transitionTo: real
    var drag: int
    /** `_direction`: the last horizontal pan direction; None stands for false. */
    var direction: Option<Flags>
    var slides: seq<Geometry>
    var numSlides: int
    var fullWidth: real

    /** The slides are laid out by _getProps on one strip, the current
        slide exists and `currentPosition` is its offset. */
    ghost predicate Valid()
      reads this, emitter
    {
      Laid() && currentPosition == slides[currentSlide].leftOffset
    }

    /** Valid() short of the resting position matching the current slide. */
    ghost predicate Laid()
      reads this, emitter
    {
      emitter.events.Some? &&
      width > 0.0 && margin >= 0.0 && keyBoardTransitionDuration > 0.0 &&
      numSlides == |slides| >= 1 &&
      LaidOut(slides, width, height, margin) &&
      fullWidth == (width + margin) * (numSlides - 1) as real &&
      0 <= currentSlide < numSlides &&
      (transitioning ==> transitionDuration > 0.0)
    }

    /** The gallery once its images have loaded: `width` is the resolved
        width, each image is scaled into width × maxHeight and laid out 40
        pixels apart, and slide 0 is current. */
    constructor(width: real, maxHeight: real, images: seq<Image>, keyBoardTransitionDuration: real)
      requires width > 0.0 && maxHeight > 0.0 && keyBoardTransitionDuration > 0.0 && |images| >= 1
      requires forall i :: 0 <= i < |images| ==> images[i].width > 0.0 && images[i].height > 0.0
      ensures Valid() && fresh(emitter)
      ensures this.width == width && this.maxHeight == maxHeight && margin == 40.0
      ensures this.keyBoardTransitionDuration == keyBoardTransitionDuration
      // height is the tallest scaled image
      ensures height >= 0.0
      ensures forall i :: 0 <= i < |images| ==>
        ScaleImageDimensions(images[i].width, images[i].height, width, maxHeight).height as real <= height
      ensures height == 0.0 ||
              exists i :: 0 <= i < |images| &&
                ScaleImageDimensions(images[i].width, images[i].height, width, maxHeight).height as real == height
      // slide i is image i scaled into the box and laid out at index i
      ensures |slides| == |images| && numSlides == |images|
      ensures forall i :: 0 <= i < |images| ==>
        var d := ScaleImageDimensions(images[i].width, images[i].height, width, maxHeight);
        slides[i] == GetProps(i, width, height, 40.0, d.width as real, d.height as real)
      ensures currentSlide == 0 && currentPosition == slides[0].leftOffset
      ensures pos == 0.0 && lastPos == Some(0.0) && ready && !transitioning
      ensures transitionStart.None? && drag == 0 && direction.None?
      ensures fullWidth == (width + 40.0) * (|images| - 1) as real
    {
      var dims, tallest := GetSlideDimensions(images, width, maxHeight);
      var built := BuildSlides(dims, width, tallest as real, 40.0);
      emitter := new Emitter();
      this.width := width;
      this.maxHeight := maxHeight;
      height := tallest as real;
      margin := 40.0;
      this.keyBoardTransitionDuration := keyBoardTransitionDuration;
      currentSlide := 0;
      pos := 0.0;
      lastPos := Some(0.0);
      transitioning := false;
      transitionStart := None;
      transitionDuration := 0.0;
      transitionFrom := 0.0;
      transitionTo := 0.0;
      drag := 0;
      direction := None;
      slides := built;
      currentPosition := built[0].leftOffset;
      numSlides := |built|;
      fullWidth := (width + 40.0) * (|built| - 1) as real;
      ready := true;
    }

    /** _transition: a transition from `from` to `to` over `duration`. */
    method Transition(from: real, to: real, duration: real)
      modifies this`transitioning, this`transitionDuration, this`transitionFrom, this`transitionTo
      ensures transitioning && transitionDuration == duration && transitionFrom == from && transitionTo == to
    {
      transitioning := true;
      transitionDuration := duration;
      transitionFrom := from;
      transitionTo := to;
    }

    /** _setCurrentPosition: the current slide's offset becomes the resting
        position and the target of a transition from where the strip is. */
    method SetCurrentPosition(duration: real)
      requires Laid() && duration > 0.0
      modifies this`currentPosition, this`transitioning, this`transitionDuration, this`transitionFrom, this`transitionTo
      ensures Valid()
      ensures currentPosition == slides[currentSlide].leftOffset
      ensures transitioning && transitionFrom == pos && transitionTo == currentPosition && transitionDuration == duration
    {
      var dest := slides[currentSlide].leftOffset;
      currentPosition := dest;
      Transition(pos, dest, duration);
    }

    /** goTo left everything as it was: no slide change, no transition
        change, nothing triggered. */
    twostate predicate Stayed(called: seq<Callback>)
      reads this, emitter
    {
      called == [] && emitter.events == old(emitter.events) &&
      currentSlide == old(currentSlide) && currentPosition == old(currentPosition) &&
      transitioning == old(transitioning) && transitionDuration == old(transitionDuration) &&
      transitionFrom == old(transitionFrom) && transitionTo == old(transitionTo)
    }

    /** goTo moved to slide slideNo: it is current, the strip runs from
        `pos` to its offset over `duration`, and 'update' was triggered. */
    twostate predicate Went(slideNo: int, duration: real, called: seq<Callback>)
      reads this, emitter
    {
      0 <= slideNo < |slides| &&
      currentSlide == slideNo && currentPosition == slides[slideNo].leftOffset &&
      transitioning && transitionFrom == pos && transitionTo == currentPosition &&
      transitionDuration == duration &&
      old(emitter.events).Some? && emitter.events.Some? &&
      (called, emitter.events.value) == Dispatch(old(emitter.events).value, "update")
    }

    /** goTo(slideNo, duration): an index outside the slides is ignored;
        otherwise that slide becomes current, the strip starts moving from
        `pos` to its offset and 'update' is triggered. */
    method GoTo(slideNo: int, duration: real) returns (called: seq<Callback>)
      requires Valid() && duration > 0.0
      modifies this`currentSlide, this`currentPosition, this`transitioning, this`transitionDuration,
               this`transitionFrom, this`transitionTo, emitter
      ensures Valid()
      ensures !(0 <= slideNo < numSlides) ==> Stayed(called)
      ensures 0 <= slideNo < numSlides ==> Went(slideNo, duration, called)
    {
      if slideNo < 0 || slideNo > numSlides - 1 {
        return [];
      }
      currentSlide := slideNo;
      SetCurrentPosition(duration);
      called := Announce("update", Record);
    }

    /** this.trigger(name, data) on the gallery's own emitter. */
    method Announce(name: string, data: Data) returns (called: seq<Callback>)
      requires Valid()
      modifies emitter
      ensures Valid()
      ensures (called, emitter.events.value) == Dispatch(old(emitter.events).value, name)
    {
      var thrown, arg;
      thrown, called, arg := emitter.Trigger(name, data);
    }

    /** next(): goTo the following slide with the default duration; a
        no-op on the last slide. */
    method Next() returns (called: seq<Callback>)
      requires Valid()
      modifies this`currentSlide, this`currentPosition, this`transitioning, this`transitionDuration,
               this`transitionFrom, this`transitionTo, emitter
      ensures Valid()
      ensures old(currentSlide) + 1 < numSlides ==> Went(old(currentSlide) + 1, 250.0, called)
      ensures old(currentSlide) + 1 == numSlides ==> Stayed(called)
    {
      called := GoTo(currentSlide + 1, 250.0);
    }

    /** previous(): goTo the preceding slide with the default duration; a
        no-op on the first slide. */
    method Previous() returns (called: seq<Callback>)
      requires Valid()
      modifies this`currentSlide, this`currentPosition, this`transitioning, this`transitionDuration,
               this`transitionFrom, this`transitionTo, emitter
      ensures Valid()
      ensures old(currentSlide) > 0 ==> Went(old(currentSlide) - 1, 250.0, called)
      ensures old(currentSlide) == 0 ==> Stayed(called)
    {
      called := GoTo(currentSlide - 1, 250.0);
    }

    /** The keydown handler: ignored while a transition runs or a modifier
        (alt, ctrl, shift) is held; left arrow (37) and right arrow (39)
        goTo the previous and next slide with the keyboard duration, which
        does nothing at that end of the strip. */
    method KeyDown(keyCode: int, modifierHeld: bool) returns (called: seq<Callback>)
      requires Valid()
      modifies this`currentSlide, this`currentPosition, this`transitioning, this`transitionDuration,
               this`transitionFrom, this`transitionTo, emitter
      ensures Valid()
      ensures old(transitioning) || modifierHeld || (keyCode != 37 && keyCode != 39) ==> Stayed(called)
      ensures !old(transitioning) && !modifierHeld && keyCode == 37 ==>
        (old(currentSlide) > 0 ==> Went(old(currentSlide) - 1, keyBoardTransitionDuration, called)) &&
        (old(currentSlide) == 0 ==> Stayed(called))
      ensures !old(transitioning) && !modifierHeld && keyCode == 39 ==>
        (old(currentSlide) + 1 < numSlides ==> Went(old(currentSlide) + 1, keyBoardTransitionDuration, called)) &&
        (old(currentSlide) + 1 == numSlides ==> Stayed(called))
    {
      called := [];
      if transitioning || modifierHeld {
        return;
      }
      if keyCode == 37 {
        called := GoTo(currentSlide - 1, keyBoardTransitionDuration);
      } else if keyCode == 39 {
        called := GoTo(currentSlide + 1, keyBoardTransitionDuration);
      }
    }

    /** The 'pan' handler for a pan event with horizontal movement deltaX
        since the pan began, Hammer direction flag eventDirection and the
        isFinal flag. Every final event leaves the strip transitioning to
        the current slide's offset. */
    method Pan(deltaX: real, eventDirection: Flags, isFinal: bool) returns (called: seq<Callback>)
      requires Valid()
      modifies this`direction, this`drag, this`pos, this`currentSlide, this`currentPosition,
               this`transitioning, this`transitionDuration, this`transitionFrom, this`transitionTo, emitter
      ensures Valid()
      ensures direction == (if eventDirection == DIRECTION_RIGHT || eventDirection == DIRECTION_LEFT
                            then Some(eventDirection) else old(direction))
      ensures drag == Round(deltaX)
      ensures pos == PanPosition(old(currentPosition), fullWidth, drag)
      ensures var r := Release(isFinal, drag, width, old(currentSlide), numSlides, direction);
        (r.Advance? ==> currentSlide == r.slide &&
                        (called, emitter.events.value) == Dispatch(old(emitter.events).value, "update")) &&
        (!r.Advance? ==> currentSlide == old(currentSlide) && called == [] && emitter.events == old(emitter.events))
      ensures isFinal ==>
        transitioning && transitionFrom == pos && transitionTo == currentPosition && transitionDuration == 250.0
      ensures !isFinal ==>
        && transitioning == old(transitioning) && transitionTo == old(transitionTo)
        && transitionFrom == old(transitionFrom) && transitionDuration == old(transitionDuration)
        && currentPosition == old(currentPosition)
    {
      direction := if eventDirection == DIRECTION_RIGHT || eventDirection == DIRECTION_LEFT
                   then Some(eventDirection) else direction;
      drag := Round(deltaX);
      var tentativePos := currentPosition + (drag as real * -1.0);
      if tentativePos <= 0.0 || tentativePos >= fullWidth {
        tentativePos := currentPosition + (drag as real * -0.5);
      }
      pos := tentativePos;
      called := Settle(isFinal);
    }

    /** The release part of the pan handler, after `drag`, `direction` and
        `pos` are set. */
    method Settle(isFinal: bool) returns (called: seq<Callback>)
      requires Valid()
      modifies this`currentSlide, this`currentPosition, this`transitioning, this`transitionDuration,
               this`transitionFrom, this`transitionTo, emitter
      ensures Valid()
      ensures var r := Release(isFinal, drag, width, old(currentSlide), numSlides, direction);
        (r.Advance? ==> currentSlide == r.slide &&
                        (called, emitter.events.value) == Dispatch(old(emitter.events).value, "update")) &&
        (!r.Advance? ==> currentSlide == old(currentSlide) && called == [] && emitter.events == old(emitter.events))
      ensures isFinal ==>
        transitioning && transitionFrom == pos && transitionTo == currentPosition && transitionDuration == 250.0
      ensures !isFinal ==>
        && transitioning == old(transitioning) && transitionTo == old(transitionTo)
        && transitionFrom == old(transitionFrom) && transitionDuration == old(transitionDuration)
        && currentPosition == old(currentPosition)
    {
      called := [];
      match Release(isFinal, drag, width, currentSlide, numSlides, direction)
      case Advance(which) =>
        called := GoTo(which, 250.0);
      case SnapBack =>
        Transition(pos, currentPosition, 250.0);
      case KeepDragging =>
    }

    /** _draw(timestamp), once per animation frame (None for a call without
        a timestamp): triggers 'draw'; unless the gallery is idle, advances
        a running transition and draws the slides in view at the new
        position. */
    method Draw(timestamp: Option<real>) returns (called: seq<Callback>, drawn: seq<nat>)
      requires Valid()
      modifies this`pos, this`lastPos, this`transitioning, this`transitionStart, emitter
      ensures Valid()
      ensures (called, emitter.events.value) == Dispatch(old(emitter.events).value, "draw")
      ensures var idle := timestamp.None? || (old(lastPos) == Some(old(pos)) && !old(transitioning)) || !ready;
        (idle ==> drawn == [] && pos == old(pos) && lastPos == old(lastPos) &&
                  transitioning == old(transitioning) && transitionStart == old(transitionStart)) &&
        (!idle ==> lastPos == Some(pos) && Increasing(drawn) &&
                   (forall i :: i in drawn ==> i < |slides|) &&
                   (forall i :: 0 <= i < |slides| ==> (i in drawn <==> InView(slides[i], pos))))
      ensures !old(transitioning) ==> pos == old(pos) && !transitioning && transitionStart == old(transitionStart)
      ensures old(transitioning) && timestamp.Some? && ready ==>
        var start := if old(transitionStart).Some? then old(transitionStart).value else timestamp.value;
        var delta := TransitionDelta(start, transitionDuration, timestamp.value);
        pos == Quadratic(transitionFrom, transitionTo, delta) &&
        (delta == 1.0 ==> !transitioning && transitionStart.None?) &&
        (delta != 1.0 ==> transitioning && transitionStart == Some(start))
    {
      called := Announce("draw", if timestamp.Some? then Number(timestamp.value) else Undefined);
      drawn := Render(timestamp);
    }

    /** The part of _draw after the 'draw' trigger. */
    method Render(timestamp: Option<real>) returns (drawn: seq<nat>)
      requires Valid()
      modifies this`pos, this`lastPos, this`transitioning, this`transitionStart
      ensures Valid()
      ensures var idle := timestamp.None? || (old(lastPos) == Some(old(pos)) && !old(transitioning)) || !ready;
        (idle ==> drawn == [] && pos == old(pos) && lastPos == old(lastPos) &&
                  transitioning == old(transitioning) && transitionStart == old(transitionStart)) &&
        (!idle ==> lastPos == Some(pos) && Increasing(drawn) &&
                   (forall i :: i in drawn ==> i < |slides|) &&
                   (forall i :: 0 <= i < |slides| ==> (i in drawn <==> InView(slides[i], pos))))
      ensures !old(transitioning) ==> pos == old(pos) && !transitioning && transitionStart == old(transitionStart)
      ensures old(transitioning) && timestamp.Some? && ready ==>
        var start := if old(transitionStart).Some? then old(transitionStart).value else timestamp.value;
        var delta := TransitionDelta(start, transitionDuration, timestamp.value);
        pos == Quadratic(transitionFrom, transitionTo, delta) &&
        (delta == 1.0 ==> !transitioning && transitionStart.None?) &&
        (delta != 1.0 ==> transitioning && transitionStart == Some(start))
    {
      drawn := [];
      if timestamp.None? || (lastPos == Some(pos) && !transitioning) || !ready {
        return;
      }
      if transitioning {
        Step(timestamp.value);
      }
      drawn := SlidesInView(slides, pos);
      lastPos := Some(pos);
    }

    /** The transition step of _draw at time t. */
    method Step(t: real)
      requires Valid() && transitioning
      modifies this`pos, this`transitioning, this`transitionStart
      ensures Valid()
      ensures var start := if old(transitionStart).Some? then old(transitionStart).value else t;
        var delta := TransitionDelta(start, transitionDuration, t);
        pos == Quadratic(transitionFrom, transitionTo, delta) &&
        (delta == 1.0 ==> !transitioning && transitionStart.None?) &&
        (delta != 1.0 ==> transitioning && transitionStart == Some(start))
    {
      if transitionStart.None? {
        transitionStart := Some(t);
      }
      var delta := MinReal((t - transitionStart.value) / transitionDuration, 1.0);
      pos := ((transitionTo - transitionFrom) * delta * delta) + transitionFrom;
      assert pos == Quadratic(transitionFrom, transitionTo, delta);
      if delta == 1.0 {
        transitioning := false;
        transitionStart := None;
      }
    }
  }

  /** `fullWidth` is the last slide's offset, so the pan's track runs from
      the first slide's resting position to the last one's. */
  lemma FullWidthIsLastOffset(g: Gallery)
    requires g.Valid()
    ensures g.fullWidth == g.slides[g.numSlides - 1].leftOffset
    ensures g.slides[0].leftOffset == 0.0
  {
    ScaleIsProduct(g.numSlides - 1, g.width + g.margin);
  }

  /** A transition's first frame shows `from`, a frame at or after its end
      shows `to`, and every frame in between lies between the two. */
  lemma TransitionFrames(from: real, to: real, start: real, duration: real, t: real)
    requires duration > 0.0
    ensures Quadratic(from, to, TransitionDelta(start, duration, start)) == from
    ensures t >= start + duration ==> Quadratic(from, to, TransitionDelta(start, duration, t)) == to
    ensures start <= t ==> Between(Quadratic(from, to, TransitionDelta(start, duration, t)), from, to)
  {
  }
}
