/** The zoomable, pannable image canvas of the editor. Its display matrix only
    ever receives post-scales and post-translations, so it is exactly a uniform
    scale followed by a translation. The per-axis correction rules ("soft"
    bounds while dragging, "hard" bounds on release and while pinching) are
    pure functions with their placement guarantees; the view itself is a class
    whose fields change per touch event and per animation frame. */
module Zoomable {
  import opened Geometry

  /** The display matrix: a content point (x, y) is drawn at
      (scale * x + tx, scale * y + ty). */
  datatype Affine = Affine(scale: real, tx: real, ty: real) {

    /** `postScale(f, f, px, py)`: scale by f about the view point (px, py),
        after the current mapping. */
    function PostScale(f: real, px: real, py: real): (m: Affine)
      ensures m.scale == scale * f
      ensures m.tx - px == f * (tx - px) && m.ty - py == f * (ty - py)
    {
      Affine(scale * f, f * (tx - px) + px, f * (ty - py) + py)
    }

    /** `postTranslate(dx, dy)`. */
    function PostTranslate(dx: real, dy: real): (m: Affine)
      ensures m.scale == scale && m.tx == tx + dx && m.ty == ty + dy
    {
      Affine(scale, tx + dx, ty + dy)
    }
  }

  const Identity := Affine(1.0, 0.0, 0.0)

  /** Largest gap, in view pixels, that a drag may open past the legal area. */
  const OverScroll: real := 80.0

  /** The pinch factor stays within [0.5, 2] of the fit-centre scale. */
  const MinUserScale: real := 0.5
  const MaxUserScale: real := 2.0

  // ---------------------------------------------------------------------------
  // Per-axis placement rules. An axis of the mapped content is the interval
  // [lo, hi]; the view spans [0, view] on that axis.
  // ---------------------------------------------------------------------------

  /** Where hard bounds leave an axis: content no larger than the view is
      exactly centred; larger content covers the whole view. */
  predicate HardPlaced(lo: real, hi: real, view: real) {
    if hi - lo <= view then (lo + hi) / 2.0 == view / 2.0
    else lo <= 0.0 && view <= hi
  }

  /** Where soft bounds leave an axis: small content's centre is within 80 px
      of the view centre; large content leaves gaps of at most 80 px. */
  predicate SoftPlaced(lo: real, hi: real, view: real) {
    if hi - lo <= view then -OverScroll <= view / 2.0 - (lo + hi) / 2.0 <= OverScroll
    else lo <= OverScroll && view - OverScroll <= hi
  }

  /** The hard-bounds correction of one axis. Applying it places the axis, and
      it is zero exactly when the axis is already placed. */
  function HardDelta(lo: real, hi: real, view: real): (d: real)
    ensures HardPlaced(lo + d, hi + d, view)
    ensures d == 0.0 <==> HardPlaced(lo, hi, view)
  {
    if hi - lo <= view then view / 2.0 - (lo + hi) / 2.0
    else if lo > 0.0 then -lo
    else if hi < view then view - hi
    else 0.0
  }

  /** The soft-bounds correction of one axis. Applying it brings the axis
      within the overscroll allowance, and it is zero exactly when the axis is
      already within it. */
  function SoftDelta(lo: real, hi: real, view: real): (d: real)
    ensures SoftPlaced(lo + d, hi + d, view)
    ensures d == 0.0 <==> SoftPlaced(lo, hi, view)
  {
    if hi - lo <= view then
      var centerOffset := view / 2.0 - (lo + hi) / 2.0;
      if centerOffset > OverScroll then centerOffset - OverScroll
      else if centerOffset < -OverScroll then centerOffset + OverScroll
      else 0.0
    else if lo > OverScroll then OverScroll - lo
    else if hi < view - OverScroll then view - OverScroll - hi
    else 0.0
  }

  /** `mapRect` of the content rectangle [0, iw] x [0, ih] through m. */
  function ContentOf(m: Affine, iw: real, ih: real): Rect {
    Rect(m.tx, m.ty, m.tx + m.scale * iw, m.ty + m.scale * ih)
  }

  /** Both axes of an iw x ih image drawn through m obey hard bounds in a
      vw x vh view. */
  ghost predicate HardBoundedAt(m: Affine, iw: real, ih: real, vw: real, vh: real) {
    var r := ContentOf(m, iw, ih);
    HardPlaced(r.left, r.right, vw) && HardPlaced(r.top, r.bottom, vh)
  }

  /** Both axes of an iw x ih image drawn through m are within the overscroll
      allowance of a vw x vh view. */
  ghost predicate SoftBoundedAt(m: Affine, iw: real, ih: real, vw: real, vh: real) {
    var r := ContentOf(m, iw, ih);
    SoftPlaced(r.left, r.right, vw) && SoftPlaced(r.top, r.bottom, vh)
  }

  /** The matrix after `applyHardBounds`: the content is translated by the
      hard correction of each axis. It keeps the scale, obeys hard bounds, and
      equals the input exactly when the input already obeyed them (so a second
      application changes nothing). */
  function HardBoundsOf(m: Affine, iw: real, ih: real, vw: real, vh: real): (r: Affine)
    ensures r.scale == m.scale
    ensures HardBoundedAt(r, iw, ih, vw, vh)
    ensures r == m <==> HardBoundedAt(m, iw, ih, vw, vh)
  {
    var rect := ContentOf(m, iw, ih);
    var deltaX := HardDelta(rect.left, rect.right, vw);
    var deltaY := HardDelta(rect.top, rect.bottom, vh);
    var r := if deltaX != 0.0 || deltaY != 0.0 then m.PostTranslate(deltaX, deltaY) else m;
    assert ContentOf(r, iw, ih) == rect.Offset(deltaX, deltaY);
    r
  }

  /** The matrix after `applySoftBounds`: the content is translated by the
      soft correction of each axis. It keeps the scale, stays within the
      overscroll allowance, and equals the input exactly when the input was
      already within it. */
  function SoftBoundsOf(m: Affine, iw: real, ih: real, vw: real, vh: real): (r: Affine)
    ensures r.scale == m.scale
    ensures SoftBoundedAt(r, iw, ih, vw, vh)
    ensures r == m <==> SoftBoundedAt(m, iw, ih, vw, vh)
  {
    var rect := ContentOf(m, iw, ih);
    var deltaX := SoftDelta(rect.left, rect.right, vw);
    var deltaY := SoftDelta(rect.top, rect.bottom, vh);
    var r := if deltaX != 0.0 || deltaY != 0.0 then m.PostTranslate(deltaX, deltaY) else m;
    assert ContentOf(r, iw, ih) == rect.Offset(deltaX, deltaY);
    r
  }

  /** A centred axis no larger than the view is where hard bounds want it. */
  lemma CenteredIsHardPlaced(lo: real, size: real, view: real)
    requires 0.0 <= size <= view && lo == (view - size) / 2.0
    ensures HardPlaced(lo, lo + size, view) && HardDelta(lo, lo + size, view) == 0.0
  {
  }

  /** Hard bounds are idempotent: a second correction right after the first
      is zero. */
  lemma HardDeltaIdempotent(lo: real, hi: real, view: real)
    ensures var d := HardDelta(lo, hi, view); HardDelta(lo + d, hi + d, view) == 0.0
  {
  }

  /** Content that hard bounds accept is never moved by soft bounds. */
  lemma HardPlacedIsSoftPlaced(lo: real, hi: real, view: real)
    requires HardPlaced(lo, hi, view)
    ensures SoftDelta(lo, hi, view) == 0.0
  {
  }

  // ---------------------------------------------------------------------------
  // The settle animation: each frame moves by target * (fraction - lastFraction).
  // ---------------------------------------------------------------------------

  /** Total offset of the frames with the given animated fractions, starting
      from the fraction `last`. */
  function SettleTotal(target: real, last: real, fractions: seq<real>): real
    decreases |fractions|
  {
    if |fractions| == 0 then 0.0
    else target * (fractions[0] - last) + SettleTotal(target, fractions[0], fractions[1..])
  }

  /** The per-frame offsets telescope: together they move by the target times
      the distance from the starting fraction to the latest one. */
  lemma {:induction false} SettleTelescopes(target: real, last: real, fractions: seq<real>)
    requires |fractions| > 0
    ensures SettleTotal(target, last, fractions) == target * (fractions[|fractions| - 1] - last)
    decreases |fractions|
  {
    if |fractions| > 1 {
      var rest := fractions[1..];
      SettleTelescopes(target, fractions[0], rest);
      assert rest[|rest| - 1] == fractions[|fractions| - 1];
      Distribute(target, fractions[0] - last, fractions[|fractions| - 1] - fractions[0]);
    }
  }

  /** Helper: t * a + t * b == t * (a + b). */
  lemma Distribute(t: real, a: real, b: real)
    ensures t * a + t * b == t * (a + b)
  {
  }

  /** An animation whose frames start at fraction 0 and reach fraction 1 moves
      the content by exactly the hard-bounds correction, after which hard
      bounds have nothing left to correct. */
  lemma SettleLands(lo: real, hi: real, view: real, fractions: seq<real>)
    requires |fractions| > 0 && fractions[|fractions| - 1] == 1.0
    ensures var d := HardDelta(lo, hi, view);
            var moved := SettleTotal(d, 0.0, fractions);
            moved == d && HardDelta(lo + moved, hi + moved, view) == 0.0
  {
    SettleTelescopes(HardDelta(lo, hi, view), 0.0, fractions);
  }

  // ---------------------------------------------------------------------------
  // Crop extraction through the inverse display matrix.
  // ---------------------------------------------------------------------------

  /** Pixel size of the bitmap behind the view's drawable. */
  datatype BitmapSize = BitmapSize(width: int, height: int)

  /** An integer sub-rectangle of a bitmap: origin plus size. */
  datatype PixelRect = PixelRect(left: int, top: int, width: int, height: int) {

    /** A non-empty region lying wholly inside a w x h bitmap, as
        `Bitmap.createBitmap(src, x, y, width, height)` demands. */
    predicate WithinBitmap(w: int, h: int) {
      && 0 <= left < w && 0 <= top < h
      && width >= 1 && height >= 1
      && left + width <= w && top + height <= h
    }
  }

  /** The tail of `getCroppedBitmap`: clamp a rectangle in bitmap coordinates
      to the bitmap, truncate its edges to whole pixels (width and height at
      least 1), give up when the origin falls outside the bitmap, and trim the
      size to what remains of the bitmap. */
  function ToPixels(src: Rect, w: int, h: int): (r: Option<PixelRect>)
    requires w > 0 && h > 0
    ensures r.None? <==> (src.left >= w as real || src.top >= h as real)
    ensures r.Some? ==> r.value.WithinBitmap(w, h)
    ensures r.Some? ==> r.value.left == Trunc(Clamp(src.left, 0.0, w as real))
                        && r.value.top == Trunc(Clamp(src.top, 0.0, h as real))
  {
    var leftF := Clamp(src.left, 0.0, w as real);
    var topF := Clamp(src.top, 0.0, h as real);
    var rightF := Clamp(src.right, 0.0, w as real);
    var bottomF := Clamp(src.bottom, 0.0, h as real);
    var left := Trunc(leftF);
    var top := Trunc(topF);
    var width := MaxInt(Trunc(rightF - leftF), 1);
    var height := MaxInt(Trunc(bottomF - topF), 1);
    if width <= 0 || height <= 0 then None
    else if left >= w || top >= h then None
    else Some(PixelRect(left, top, MinInt(width, w - left), MinInt(height, h - top)))
  }

  /** The inverse of the display matrix applied to a view rectangle. A
      rectangle whose near edges lie before the mapped image's far edges comes
      back with its near edges inside the image. */
  function InverseMapRect(m: Affine, r: Rect, w: real, h: real): (b: Rect)
    requires m.scale > 0.0
    requires r.left < m.tx + m.scale * w && r.top < m.ty + m.scale * h
    ensures b.left < w && b.top < h
  {
    InverseBelow(r.left, m.scale, m.tx, w);
    InverseBelow(r.top, m.scale, m.ty, h);
    Rect((r.left - m.tx) / m.scale, (r.top - m.ty) / m.scale,
         (r.right - m.tx) / m.scale, (r.bottom - m.ty) / m.scale)
  }

  /** `getCroppedBitmap`: intersect the crop rectangle (view coordinates) with
      the mapped bitmap, map the overlap back through the inverse of the display
      matrix `m`, and convert it to whole pixels inside the bitmap. `None`
      stands for the null result, which happens exactly when there is no
      bitmap, the bitmap is empty, or the crop rectangle misses the image. */
  function GetCroppedBitmap(m: Affine, cropRectInView: Rect, source: Option<BitmapSize>): (r: Option<PixelRect>)
    requires m.scale > 0.0
    ensures r.None? <==> (|| source.None? || source.value.width <= 0 || source.value.height <= 0
                          || Intersect(cropRectInView, ContentOf(m, source.value.width as real, source.value.height as real)).None?)
    ensures r.Some? ==> source.Some? && r.value.WithinBitmap(source.value.width, source.value.height)
  {
    if source.None? then None
    else
      var w := source.value.width;
      var h := source.value.height;
      if w <= 0 || h <= 0 then None
      else
        var imageBoundsInView := ContentOf(m, w as real, h as real);
        var hit := Intersect(cropRectInView, imageBoundsInView);
        if hit.None? then None
        else
          var inter := hit.value;
          assert !imageBoundsInView.IsEmpty() by {
            PositiveProduct(m.scale, w as real);
            PositiveProduct(m.scale, h as real);
          }
          var cropInBitmap := InverseMapRect(m, inter, w as real, h as real);
          ToPixels(cropInBitmap, w, h)
  }

  /** Helper: a view coordinate left of the mapped image's far edge maps back
      to a bitmap coordinate below the bitmap's size. */
  lemma InverseBelow(a: real, s: real, t: real, size: real)
    requires s > 0.0 && a < t + s * size
    ensures (a - t) / s < size
  {
    var q := (a - t) / s;
    assert q * s == a - t;
    assert (size - q) * s > 0.0;
  }

  // ---------------------------------------------------------------------------
  // The view.
  // ---------------------------------------------------------------------------

  /** The settle animator: absent, or running towards a target offset with the
      fraction that its previous frame reached. */
  datatype Settle = NoAnimator | Running(targetDx: real, targetDy: real, lastFraction: real)

  /** The animator after `settleToHardBoundsWithAnimation` on an iw x ih image
      drawn through m in a vw x vh view (`applies` says whether the bounds
      rules run at all): a fresh one from fraction 0 towards the hard
      correction when that correction is not zero, otherwise the previous
      one. It starts exactly when the content breaks hard bounds. */
  function SettleOf(a: Settle, m: Affine, iw: real, ih: real, vw: real, vh: real, applies: bool): (r: Settle)
    ensures !applies || HardBoundedAt(m, iw, ih, vw, vh) ==> r == a
    ensures applies && !HardBoundedAt(m, iw, ih, vw, vh) ==>
              r.Running? && r.lastFraction == 0.0 && m.PostTranslate(r.targetDx, r.targetDy) == HardBoundsOf(m, iw, ih, vw, vh)
  {
    if !applies then a
    else
      var rect := ContentOf(m, iw, ih);
      var tdx := HardDelta(rect.left, rect.right, vw);
      var tdy := HardDelta(rect.top, rect.bottom, vh);
      if tdx == 0.0 && tdy == 0.0 then a else Running(tdx, tdy, 0.0)
  }

  class ZoomableImageView {
    var drawMatrix: Affine
    var viewWidth: int
    var viewHeight: int
    var imageWidth: int
    var imageHeight: int
    var hasDrawable: bool
    var baseScale: real
    var userScaleFactor: real
    var lastTouchX: real
    var lastTouchY: real
    var isDragging: bool
    var hasInitFit: bool
    var settleAnimator: Settle
    var cropModeEnabled: bool

    /** The view's invariant: the matrix scale is positive and always equals
        the fit-centre scale times the pinch factor, which stays in its range. */
    ghost predicate Valid()
      reads this
    {
      && baseScale > 0.0
      && MinUserScale <= userScaleFactor <= MaxUserScale
      && drawMatrix.scale == baseScale * userScaleFactor
      && viewWidth >= 0 && viewHeight >= 0
      && (!hasDrawable ==> imageWidth == 0 && imageHeight == 0)
    }

    /** The bounds rules run only with a drawable and a laid-out view. */
    predicate BoundsApply()
      reads this`hasDrawable, this`viewWidth, this`viewHeight, this`imageWidth, this`imageHeight
    {
      hasDrawable && viewWidth != 0 && viewHeight != 0 && imageWidth >= 0 && imageHeight >= 0
    }

    /** The drawable's rectangle mapped through the display matrix. */
    function ContentRect(): Rect
      reads this`drawMatrix, this`imageWidth, this`imageHeight
    {
      ContentOf(drawMatrix, imageWidth as real, imageHeight as real)
    }

    /** Both axes of the content obey hard bounds. */
    ghost predicate HardBounded()
      reads this`drawMatrix, this`imageWidth, this`imageHeight, this`viewWidth, this`viewHeight
    {
      HardBoundedAt(drawMatrix, imageWidth as real, imageHeight as real, viewWidth as real, viewHeight as real)
    }

    /** Both axes of the content are within the drag overscroll allowance. */
    ghost predicate SoftBounded()
      reads this`drawMatrix, this`imageWidth, this`imageHeight, this`viewWidth, this`viewHeight
    {
      SoftBoundedAt(drawMatrix, imageWidth as real, imageHeight as real, viewWidth as real, viewHeight as real)
    }

    constructor ()
      ensures Valid()
      ensures drawMatrix == Identity && userScaleFactor == 1.0 && baseScale == 1.0
      ensures !hasDrawable && !hasInitFit && !isDragging && !cropModeEnabled
      ensures settleAnimator == NoAnimator
    {
      drawMatrix := Identity;
      viewWidth, viewHeight := 0, 0;
      imageWidth, imageHeight := 0, 0;
      hasDrawable := false;
      baseScale := 1.0;
      userScaleFactor := 1.0;
      lastTouchX, lastTouchY := 0.0, 0.0;
      isDragging := false;
      hasInitFit := false;
      settleAnimator := NoAnimator;
      cropModeEnabled := false;
    }

    /** `onSizeChanged`: record the new size and try the initial fit. */
    method OnSizeChanged(w: nat, h: nat)
      requires Valid()
      modifies this`viewWidth, this`viewHeight, this`settleAnimator, this`drawMatrix,
               this`baseScale, this`userScaleFactor, this`hasInitFit
      ensures Valid()
      ensures viewWidth == w && viewHeight == h
      ensures var fits := w > 0 && h > 0 && imageWidth > 0 && imageHeight > 0 && !old(hasInitFit);
              && (fits ==>
                    && IsFitScale(baseScale, w as real, h as real, imageWidth as real, imageHeight as real)
                    && drawMatrix == Centred(baseScale, w as real, h as real, imageWidth as real, imageHeight as real)
                    && userScaleFactor == 1.0 && hasInitFit && settleAnimator == NoAnimator
                    && HardBounded())
              && (!fits ==>
                    && drawMatrix == old(drawMatrix) && baseScale == old(baseScale)
                    && userScaleFactor == old(userScaleFactor) && hasInitFit == old(hasInitFit)
                    && settleAnimator == old(settleAnimator))
    {
      viewWidth := w;
      viewHeight := h;
      ApplyInitialFitIfPossible();
    }

    /** `setImageBitmap` / `setImageDrawable` / `setImageURI`: record the new
        drawable's size (0 x 0 when there is none) and ask for a new initial
        fit. The source defers that fit to the next frame; here the caller
        runs `ApplyInitialFitIfPossible` itself. */
    method SetImage(size: Option<BitmapSize>)
      requires Valid()
      modifies this`hasDrawable, this`imageWidth, this`imageHeight, this`hasInitFit
      ensures Valid()
      ensures hasDrawable == size.Some?
      ensures size.Some? ==> imageWidth == size.value.width && imageHeight == size.value.height && !hasInitFit
      ensures size.None? ==> imageWidth == 0 && imageHeight == 0 && hasInitFit == old(hasInitFit)
      ensures drawMatrix == old(drawMatrix) && userScaleFactor == old(userScaleFactor)
    {
      hasDrawable := size.Some?;
      if size.Some? {
        imageWidth := size.value.width;
        imageHeight := size.value.height;
        hasInitFit := false;
      } else {
        imageWidth := 0;
        imageHeight := 0;
      }
    }

    /** `setCropModeEnabled`. */
    method SetCropModeEnabled(enabled: bool)
      modifies this`cropModeEnabled
      ensures cropModeEnabled == enabled
    {
      cropModeEnabled := enabled;
    }

    /** `cancelSettleAnimator`. */
    method CancelSettleAnimator()
      modifies this`settleAnimator
      ensures settleAnimator == NoAnimator
    {
      settleAnimator := NoAnimator;
    }

    /** `applyInitialFitIfPossible`: once per image and only with a laid-out
        view and a non-empty image, cancel the settle animation, replace the
        matrix by the fit-centre placement, and reset the pinch factor to 1. */
    method ApplyInitialFitIfPossible()
      requires Valid()
      modifies this`settleAnimator, this`drawMatrix, this`baseScale, this`userScaleFactor, this`hasInitFit
      ensures Valid()
      ensures viewWidth == old(viewWidth) && viewHeight == old(viewHeight)
      ensures imageWidth == old(imageWidth) && imageHeight == old(imageHeight) && hasDrawable == old(hasDrawable)
      ensures !old(InitialFitApplies()) ==> unchanged(this)
      ensures old(InitialFitApplies()) ==>
                && IsFitScale(baseScale, viewWidth as real, viewHeight as real, imageWidth as real, imageHeight as real)
                && drawMatrix == Centred(baseScale, viewWidth as real, viewHeight as real, imageWidth as real, imageHeight as real)
                && userScaleFactor == 1.0 && hasInitFit && settleAnimator == NoAnimator
                && HardBounded()
    {
      if viewWidth == 0 || viewHeight == 0 { return; }
      if imageWidth <= 0 || imageHeight <= 0 { return; }
      if hasInitFit { return; }

      CancelSettleAnimator();

      var vw, vh := viewWidth as real, viewHeight as real;
      var iw, ih := imageWidth as real, imageHeight as real;
      var base, m := InitialFitMatrix(vw, vh, iw, ih);
      baseScale, userScaleFactor, hasInitFit := base, 1.0, true;
      drawMatrix := m;
      ghost var fitted := drawMatrix;
      ApplyHardBounds();
      assert drawMatrix == fitted;
    }

    /** The initial fit runs only once per image, on a laid-out view and a
        non-empty image. */
    predicate InitialFitApplies()
      reads this`viewWidth, this`viewHeight, this`imageWidth, this`imageHeight, this`hasInitFit
    {
      viewWidth > 0 && viewHeight > 0 && imageWidth > 0 && imageHeight > 0 && !hasInitFit
    }

    /** `onScale`: multiply the pinch factor by the detector's factor, clamp it
        to [0.5, 2], scale the matrix about the focus by exactly the change in
        the factor, and re-apply hard bounds. */
    method OnScale(scaleFactor: real, focusX: real, focusY: real) returns (handled: bool)
      requires Valid()
      modifies this`drawMatrix, this`userScaleFactor
      ensures Valid() && handled
      ensures userScaleFactor == Clamp(old(userScaleFactor) * scaleFactor, MinUserScale, MaxUserScale)
      ensures drawMatrix.scale == old(drawMatrix.scale) / old(userScaleFactor) * userScaleFactor
      ensures userScaleFactor != old(userScaleFactor) && BoundsApply() ==> HardBounded()
      ensures userScaleFactor == old(userScaleFactor) ==> drawMatrix == old(drawMatrix)
      ensures userScaleFactor != old(userScaleFactor) ==>
                var scaled := old(drawMatrix).PostScale(userScaleFactor / old(userScaleFactor), focusX, focusY);
                drawMatrix == if BoundsApply() then HardBoundsOf(scaled, imageWidth as real, imageHeight as real,
                                                                 viewWidth as real, viewHeight as real)
                              else scaled
    {
      var target := userScaleFactor * scaleFactor;
      var clamped := Clamp(target, MinUserScale, MaxUserScale);
      var realFactor := clamped / userScaleFactor;
      RatioIsOne(clamped, userScaleFactor);
      if realFactor != 1.0 {
        ghost var oldScale := drawMatrix.scale;
        drawMatrix := drawMatrix.PostScale(realFactor, focusX, focusY);
        RescaledProduct(baseScale, userScaleFactor, clamped);
        userScaleFactor := clamped;
        assert drawMatrix.scale == baseScale * userScaleFactor;
        ApplyHardBounds();
      } else {
        assert oldDivSelf: drawMatrix.scale / userScaleFactor * userScaleFactor == drawMatrix.scale by {
          PositiveProduct(baseScale, userScaleFactor);
        }
      }
      handled := true;
    }

    /** `onTouchEvent`. In crop mode nothing is consumed and nothing changes.
        With several pointers a drag is cancelled (the pinch itself reaches the
        view through `OnScale`). One pointer: DOWN stops the settle animation
        and starts a drag, MOVE translates by the pointer's movement and applies
        soft bounds, UP/CANCEL ends the drag and starts the settle animation. */
    method OnTouchEvent(e: TouchEvent) returns (consumed: bool)
      requires Valid()
      modifies this`isDragging, this`lastTouchX, this`lastTouchY, this`drawMatrix, this`settleAnimator
      ensures Valid()
      ensures consumed == !old(cropModeEnabled)
      ensures old(cropModeEnabled) ==> unchanged(this)
      ensures !old(cropModeEnabled) && e.pointerCount > 1 ==>
                !isDragging && drawMatrix == old(drawMatrix) && settleAnimator == old(settleAnimator)
      ensures !old(cropModeEnabled) && e.pointerCount <= 1 && e.action == Down ==>
                isDragging && settleAnimator == NoAnimator && drawMatrix == old(drawMatrix)
                && lastTouchX == e.x && lastTouchY == e.y
      ensures !old(cropModeEnabled) && e.pointerCount <= 1 && e.action == Move && old(isDragging)
              && (e.x != old(lastTouchX) || e.y != old(lastTouchY)) && BoundsApply() ==>
                SoftBounded() && lastTouchX == e.x && lastTouchY == e.y
      ensures !old(cropModeEnabled) && e.pointerCount <= 1 && e.action == Move && !old(isDragging) ==>
                drawMatrix == old(drawMatrix)
      ensures !old(cropModeEnabled) && e.pointerCount <= 1 && (e.action == Up || e.action == Cancel) ==>
                !isDragging && drawMatrix == old(drawMatrix)
      ensures !old(cropModeEnabled) && e.pointerCount <= 1 && e.action == Move && old(isDragging)
              && (e.x != old(lastTouchX) || e.y != old(lastTouchY)) ==>
                var moved := old(drawMatrix).PostTranslate(e.x - old(lastTouchX), e.y - old(lastTouchY));
                drawMatrix == if BoundsApply() then SoftBoundsOf(moved, imageWidth as real, imageHeight as real,
                                                                 viewWidth as real, viewHeight as real)
                              else moved
      ensures !old(cropModeEnabled) && e.pointerCount <= 1 && e.action == Move
              && !(old(isDragging) && (e.x != old(lastTouchX) || e.y != old(lastTouchY))) ==>
                drawMatrix == old(drawMatrix) && lastTouchX == old(lastTouchX) && lastTouchY == old(lastTouchY)
      ensures !old(cropModeEnabled) && e.pointerCount <= 1 && e.action == Move ==>
                isDragging == old(isDragging) && settleAnimator == old(settleAnimator)
      ensures !old(cropModeEnabled) && e.pointerCount <= 1 && (e.action == Up || e.action == Cancel) ==>
                settleAnimator == SettleOf(old(settleAnimator), drawMatrix, imageWidth as real, imageHeight as real,
                                           viewWidth as real, viewHeight as real, BoundsApply())
      ensures !old(cropModeEnabled) && (e.pointerCount > 1 || e.action !in {Down, Move, Up, Cancel}) ==>
                lastTouchX == old(lastTouchX) && lastTouchY == old(lastTouchY)
                && drawMatrix == old(drawMatrix) && settleAnimator == old(settleAnimator)
      ensures !old(cropModeEnabled) && e.pointerCount <= 1 && e.action !in {Down, Move, Up, Cancel} ==>
                isDragging == old(isDragging)
      ensures drawMatrix.scale == old(drawMatrix.scale) && userScaleFactor == old(userScaleFactor)
      ensures viewWidth == old(viewWidth) && viewHeight == old(viewHeight)
      ensures imageWidth == old(imageWidth) && imageHeight == old(imageHeight) && hasDrawable == old(hasDrawable)
    {
      if cropModeEnabled {
        return false;
      }
      if e.pointerCount > 1 {
        isDragging := false;
        return true;
      }
      match e.action {
        case Down =>
          CancelSettleAnimator();
          lastTouchX := e.x;
          lastTouchY := e.y;
          isDragging := true;
        case Move =>
          if isDragging {
            var dx := e.x - lastTouchX;
            var dy := e.y - lastTouchY;
            if dx != 0.0 || dy != 0.0 {
              drawMatrix := drawMatrix.PostTranslate(dx, dy);
              ApplySoftBounds();
              lastTouchX := e.x;
              lastTouchY := e.y;
            }
          }
        case Up =>
          isDragging := false;
          SettleToHardBoundsWithAnimation();
        case Cancel =>
          isDragging := false;
          SettleToHardBoundsWithAnimation();
        case _ =>
      }
      return true;
    }

    /** `applySoftBounds`: translate by the soft correction of each axis. */
    method ApplySoftBounds()
      requires Valid()
      modifies this`drawMatrix
      ensures Valid()
      ensures !BoundsApply() ==> drawMatrix == old(drawMatrix)
      ensures BoundsApply() ==>
                drawMatrix == SoftBoundsOf(old(drawMatrix), imageWidth as real, imageHeight as real,
                                           viewWidth as real, viewHeight as real)
    {
      if !hasDrawable { return; }
      if viewWidth == 0 || viewHeight == 0 { return; }
      if imageWidth < 0 || imageHeight < 0 { return; }
      var rect := ContentRect();
      var deltaX := SoftDelta(rect.left, rect.right, viewWidth as real);
      var deltaY := SoftDelta(rect.top, rect.bottom, viewHeight as real);
      if deltaX != 0.0 || deltaY != 0.0 {
        drawMatrix := drawMatrix.PostTranslate(deltaX, deltaY);
      }
    }

    /** `applyHardBounds`: translate by the hard correction of each axis; a
        second application right after it changes nothing. */
    method ApplyHardBounds()
      requires Valid()
      modifies this`drawMatrix
      ensures Valid()
      ensures !BoundsApply() ==> drawMatrix == old(drawMatrix)
      ensures BoundsApply() ==>
                drawMatrix == HardBoundsOf(old(drawMatrix), imageWidth as real, imageHeight as real,
                                           viewWidth as real, viewHeight as real)
    {
      if !hasDrawable { return; }
      if viewWidth == 0 || viewHeight == 0 { return; }
      if imageWidth < 0 || imageHeight < 0 { return; }
      var rect := ContentRect();
      var deltaX := HardDelta(rect.left, rect.right, viewWidth as real);
      var deltaY := HardDelta(rect.top, rect.bottom, viewHeight as real);
      if deltaX != 0.0 || deltaY != 0.0 {
        drawMatrix := drawMatrix.PostTranslate(deltaX, deltaY);
      }
    }

    /** `settleToHardBoundsWithAnimation`: compute the hard correction; when it
        is zero on both axes nothing starts (a running animator is left alone),
        otherwise the previous animator is cancelled and a new one starts from
        fraction 0 towards that correction. The matrix itself is not moved
        here: the frames move it. */
    method SettleToHardBoundsWithAnimation()
      requires Valid()
      modifies this`settleAnimator
      ensures Valid()
      ensures !BoundsApply() ==> settleAnimator == old(settleAnimator)
      ensures BoundsApply() ==>
                var r := ContentRect();
                var tdx := HardDelta(r.left, r.right, viewWidth as real);
                var tdy := HardDelta(r.top, r.bottom, viewHeight as real);
                (tdx == 0.0 && tdy == 0.0 ==> settleAnimator == old(settleAnimator))
                && (tdx != 0.0 || tdy != 0.0 ==> settleAnimator == Running(tdx, tdy, 0.0))
      ensures BoundsApply() && HardBounded() ==> settleAnimator == old(settleAnimator)
      ensures settleAnimator == SettleOf(old(settleAnimator), drawMatrix, imageWidth as real, imageHeight as real,
                                         viewWidth as real, viewHeight as real, BoundsApply())
    {
      if !hasDrawable { return; }
      if viewWidth == 0 || viewHeight == 0 { return; }
      if imageWidth < 0 || imageHeight < 0 { return; }
      var rect := ContentRect();
      var targetDx := HardDelta(rect.left, rect.right, viewWidth as real);
      var targetDy := HardDelta(rect.top, rect.bottom, viewHeight as real);
      if targetDx == 0.0 && targetDy == 0.0 {
        return;
      }
      CancelSettleAnimator();
      settleAnimator := Running(targetDx, targetDy, 0.0);
    }

    /** One frame of the settle animator: move by the target times the growth
        of the animated fraction since the previous frame. */
    method OnSettleFrame(fraction: real)
      requires Valid()
      modifies this`drawMatrix, this`settleAnimator
      ensures Valid()
      ensures old(settleAnimator).NoAnimator? ==> drawMatrix == old(drawMatrix) && settleAnimator == NoAnimator
      ensures old(settleAnimator).Running? ==>
                var a := old(settleAnimator);
                && drawMatrix == old(drawMatrix).PostTranslate(a.targetDx * (fraction - a.lastFraction),
                                                              a.targetDy * (fraction - a.lastFraction))
                && settleAnimator == Running(a.targetDx, a.targetDy, fraction)
    {
      if settleAnimator.Running? {
        var step := fraction - settleAnimator.lastFraction;
        var dx := settleAnimator.targetDx * step;
        var dy := settleAnimator.targetDy * step;
        drawMatrix := drawMatrix.PostTranslate(dx, dy);
        settleAnimator := settleAnimator.(lastFraction := fraction);
      }
    }
  }

  /** Scale s with the scaled iw x ih image centred in a vw x vh view. */
  function Centred(s: real, vw: real, vh: real, iw: real, ih: real): Affine {
    Affine(s, (vw - iw * s) / 2.0, (vh - ih * s) / 2.0)
  }

  /** s is the fit-centre scale: the largest uniform scale at which the whole
      iw x ih image fits a vw x vh view (it fits, and fills one axis). */
  predicate IsFitScale(s: real, vw: real, vh: real, iw: real, ih: real) {
    s > 0.0 && s * iw <= vw && s * ih <= vh && (s * iw == vw || s * ih == vh)
  }

  /** The fit-centre scale is min(vw / iw, vh / ih), and no other scale is. */
  lemma FitScaleIsMin(s: real, vw: real, vh: real, iw: real, ih: real)
    requires vw > 0.0 && vh > 0.0 && iw > 0.0 && ih > 0.0
    ensures IsFitScale(s, vw, vh, iw, ih) <==> s == Min(vw / iw, vh / ih)
  {
    var sx := vw / iw;
    var sy := vh / ih;
    assert iw * sx == vw;
    assert ih * sy == vh;
    FitScaleFits(vw, vh, iw, ih);
    if IsFitScale(s, vw, vh, iw, ih) {
      if s * iw == vw {
        assert s == sx by { DivUnique(s, vw, iw); }
        assert s * ih <= vh;
        assert sx <= sy by { MulLeMono(sx, sy, ih); }
      } else {
        assert s == sy by { DivUnique(s, vh, ih); }
        assert sy <= sx by { MulLeMono(sy, sx, iw); }
      }
    }
  }

  /** Helper: s * d == n determines s as n / d. */
  lemma DivUnique(s: real, n: real, d: real)
    requires d > 0.0 && s * d == n
    ensures s == n / d
  {
  }

  /** Helper: with d > 0, a * d <= b * d implies a <= b. */
  lemma MulLeMono(a: real, b: real, d: real)
    requires d > 0.0 && a * d <= b * d
    ensures a <= b
  {
    assert (b - a) * d >= 0.0;
  }

  /** The matrix part of the initial fit: reset, scale about the origin by
      the largest uniform factor at which the whole image fits the view,
      min(vw / iw, vh / ih), and translate the scaled image to the centre. The
      result shows the whole image, centred, and hard bounds accept it. */
  method InitialFitMatrix(vw: real, vh: real, iw: real, ih: real) returns (baseScale: real, m: Affine)
    requires vw > 0.0 && vh > 0.0 && iw > 0.0 && ih > 0.0
    ensures IsFitScale(baseScale, vw, vh, iw, ih)
    ensures m == Centred(baseScale, vw, vh, iw, ih)
    ensures ContentOf(m, iw, ih).InsideView(vw, vh)
    ensures HardBoundedAt(m, iw, ih, vw, vh)
  {
    m := Identity;
    var scaleX := vw / iw;
    var scaleY := vh / ih;
    baseScale := Min(scaleX, scaleY);
    m := m.PostScale(baseScale, 0.0, 0.0);
    var scaledWidth := iw * baseScale;
    var scaledHeight := ih * baseScale;
    var dx := (vw - scaledWidth) / 2.0;
    var dy := (vh - scaledHeight) / 2.0;
    m := m.PostTranslate(dx, dy);
    assert m == Affine(baseScale, dx, dy) == Centred(baseScale, vw, vh, iw, ih);
    FitScaleIsMin(baseScale, vw, vh, iw, ih);
    assert baseScale * iw == scaledWidth && baseScale * ih == scaledHeight;
    CenteredIsHardPlaced(dx, scaledWidth, vw);
    CenteredIsHardPlaced(dy, scaledHeight, vh);
  }

  /** Helper: a product of positives is positive. */
  lemma PositiveProduct(a: real, b: real)
    requires a > 0.0 && b > 0.0
    ensures a * b > 0.0
  {
  }

  /** Helper: the factor clamped / u is 1 exactly when clamped == u. */
  lemma RatioIsOne(c: real, u: real)
    requires u > 0.0
    ensures c / u == 1.0 <==> c == u
  {
    if c / u == 1.0 {
      assert c == (c / u) * u;
    }
  }

  /** Helper: scaling base * u by c / u gives base * c. */
  lemma RescaledProduct(base: real, u: real, c: real)
    requires u > 0.0
    ensures base * u * (c / u) == base * c
  {
    assert u * (c / u) == c;
    assert base * u * (c / u) == base * (u * (c / u));
  }

  /** Helper: the fit-centre factor keeps both scaled sides within the view. */
  lemma FitScaleFits(vw: real, vh: real, iw: real, ih: real)
    requires vw > 0.0 && vh > 0.0 && iw > 0.0 && ih > 0.0
    ensures var s := Min(vw / iw, vh / ih); s > 0.0 && 0.0 <= iw * s <= vw && 0.0 <= ih * s <= vh
  {
    var sx := vw / iw;
    var sy := vh / ih;
    assert iw * sx == vw;
    assert ih * sy == vh;
    var s := Min(sx, sy);
    assert iw * s <= iw * sx;
    assert ih * s <= ih * sy;
  }
}
