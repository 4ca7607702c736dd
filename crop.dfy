/** The crop overlay: a rectangle the user drags or resizes by its corner and
    edge-midpoint handles, optionally locked to a fixed width/height ratio,
    always kept at least a minimum size and inside the view. The rectangle
    arithmetic lives in module-level functions over `Rect` values; the view
    class holds the mutable state (rectangle, touch mode, last touch point,
    aspect mode) and its methods update it through those functions. */
module Crop {
  import opened Geometry

  /** The ratio presets offered by the crop toolbar. */
  datatype AspectRatioMode = Free | Ratio1x1 | Ratio4x3 | Ratio16x9 | Ratio3x4 | Ratio9x16

  /** What the current gesture is doing to the rectangle. */
  datatype TouchMode = NoTouch | Drag
                     | ResizeTopLeft | ResizeTopRight | ResizeBottomLeft | ResizeBottomRight
                     | ResizeLeft | ResizeTop | ResizeRight | ResizeBottom

  /** The fixed width/height ratio of a preset; FREE has none. */
  function FixedRatio(mode: AspectRatioMode): (ratio: Option<real>)
    ensures ratio.None? <==> mode == Free
    ensures ratio.Some? ==> ratio.value > 0.0
    // landscape presets are wider than tall, portrait presets taller than wide
    ensures ratio.Some? ==> (ratio.value > 1.0 <==> mode in {Ratio4x3, Ratio16x9})
    ensures ratio.Some? ==> (ratio.value < 1.0 <==> mode in {Ratio3x4, Ratio9x16})
  {
    match mode
    case Free => None
    case Ratio1x1 => Some(1.0)
    case Ratio4x3 => Some(4.0 / 3.0)
    case Ratio16x9 => Some(16.0 / 9.0)
    case Ratio3x4 => Some(3.0 / 4.0)
    case Ratio9x16 => Some(9.0 / 16.0)
  }

  /** The preset with width and height swapped: 4:3 and 3:4, 16:9 and 9:16;
      1:1 and FREE are their own turned versions. */
  function Turned(mode: AspectRatioMode): AspectRatioMode {
    match mode
    case Free => Free
    case Ratio1x1 => Ratio1x1
    case Ratio4x3 => Ratio3x4
    case Ratio16x9 => Ratio9x16
    case Ratio3x4 => Ratio4x3
    case Ratio9x16 => Ratio16x9
  }

  /** For every preset, turning it gives a preset whose ratio is the
      reciprocal, and turning twice gives the preset back. */
  lemma PortraitPresetsAreReciprocal(mode: AspectRatioMode)
    ensures Turned(Turned(mode)) == mode
    ensures FixedRatio(Turned(mode)).Some? <==> FixedRatio(mode).Some?
    ensures FixedRatio(mode).Some? ==> FixedRatio(Turned(mode)).value * FixedRatio(mode).value == 1.0
  {
  }

  // ---------------------------------------------------------------------
  // Initial rectangle

  /** a / b > c exactly when a > c * b, for positive b. */
  lemma DivGreater(a: real, b: real, c: real)
    requires b > 0.0
    ensures a / b > c <==> a > c * b
  {
    var q := a / b;
    assert q * b == a;
    if q > c {
      assert (q - c) * b > 0.0;
    } else {
      assert (c - q) * b >= 0.0;
    }
  }

  /** The rectangle placed when the view gets its size: the largest 4:3
      rectangle in the band [padding, w - padding] x [0.15 h, 0.85 h],
      centred in the view. `landscape` is the branch where the band is wider
      than 4:3, so the band's height limits the rectangle. */
  function InitialCropRect(w: real, h: real, padding: real): (r: Rect)
    requires w > 0.0 && h > 0.0
    ensures r.Width() * 3.0 == r.Height() * 4.0
    ensures r.left + r.right == w && r.top + r.bottom == h
    ensures (w - 2.0 * padding) * 3.0 > (h * 0.7) * 4.0 ==> r.top == h * 0.15 && r.bottom == h * 0.85
    ensures (w - 2.0 * padding) * 3.0 <= (h * 0.7) * 4.0 ==> r.left == padding && r.right == w - padding
    ensures w > 2.0 * padding ==>
              padding <= r.left && r.right <= w - padding && h * 0.15 <= r.top && r.bottom <= h * 0.85
  {
    var leftBound := padding;
    var rightBound := w - padding;
    var availableWidth := rightBound - leftBound;
    var topBound := h * 0.15;
    var bottomBound := h * 0.85;
    var availableHeight := bottomBound - topBound;
    var targetAspect := 4.0 / 3.0;
    DivGreater(availableWidth, availableHeight, targetAspect);
    var viewAspect := availableWidth / availableHeight;
    if viewAspect > targetAspect then
      var cropHeight := availableHeight;
      var cropWidth := cropHeight * targetAspect;
      var left := (w - cropWidth) / 2.0;
      var top := topBound;
      Rect(left, top, left + cropWidth, top + cropHeight)
    else
      var cropWidth := availableWidth;
      var cropHeight := cropWidth / targetAspect;
      var left := leftBound;
      var top := (h - cropHeight) / 2.0;
      Rect(left, top, left + cropWidth, top + cropHeight)
  }

  // ---------------------------------------------------------------------
  // Handles

  /** The handles in the order the hit test tries them: the four corners,
      then the midpoints of the top, bottom, left and right edges. */
  const Handles: seq<TouchMode> :=
    [ResizeTopLeft, ResizeTopRight, ResizeBottomLeft, ResizeBottomRight,
     ResizeTop, ResizeBottom, ResizeLeft, ResizeRight]

  predicate IsCorner(m: TouchMode) {
    m in {ResizeTopLeft, ResizeTopRight, ResizeBottomLeft, ResizeBottomRight}
  }

  predicate IsEdge(m: TouchMode) {
    m in {ResizeLeft, ResizeTop, ResizeRight, ResizeBottom}
  }

  predicate IsResize(m: TouchMode) { IsCorner(m) || IsEdge(m) }

  /** Position of a handle in the hit-test order. */
  function Rank(m: TouchMode): nat
    requires IsResize(m)
  {
    match m
    case ResizeTopLeft => 0
    case ResizeTopRight => 1
    case ResizeBottomLeft => 2
    case ResizeBottomRight => 3
    case ResizeTop => 4
    case ResizeBottom => 5
    case ResizeLeft => 6
    case ResizeRight => 7
  }

  /** Where a handle sits on the rectangle. */
  function HandlePoint(r: Rect, m: TouchMode): (real, real)
    requires IsResize(m)
  {
    match m
    case ResizeTopLeft => (r.left, r.top)
    case ResizeTopRight => (r.right, r.top)
    case ResizeBottomLeft => (r.left, r.bottom)
    case ResizeBottomRight => (r.right, r.bottom)
    case ResizeTop => (r.CenterX(), r.top)
    case ResizeBottom => (r.CenterX(), r.bottom)
    case ResizeLeft => (r.left, r.CenterY())
    case ResizeRight => (r.right, r.CenterY())
  }

  /** `hypot(x - px, y - py) <= radius`, stated with squares: for a
      non-negative radius the two are equivalent. */
  predicate IsPointNear(x: real, y: real, p: (real, real), radius: real) {
    (x - p.0) * (x - p.0) + (y - p.1) * (y - p.1) <= radius * radius
  }

  /** The handle under the finger: corners first in the order TL, TR, BL, BR,
      then (FREE mode only) the edge midpoints top, bottom, left, right. */
  function FindTouchedHandle(r: Rect, mode: AspectRatioMode, x: real, y: real, radius: real): (t: TouchMode)
    ensures t == NoTouch || IsResize(t)
    ensures r.IsEmpty() ==> t == NoTouch
    ensures IsResize(t) ==> IsPointNear(x, y, HandlePoint(r, t), radius)
    ensures IsEdge(t) ==> mode == Free
    ensures IsResize(t) ==> forall k :: 0 <= k < Rank(t) ==> !IsPointNear(x, y, HandlePoint(r, Handles[k]), radius)
    ensures t == NoTouch && !r.IsEmpty() ==>
              forall k :: 0 <= k < (if mode == Free then 8 else 4) ==> !IsPointNear(x, y, HandlePoint(r, Handles[k]), radius)
  {
    if r.IsEmpty() then NoTouch
    else if IsPointNear(x, y, (r.left, r.top), radius) then ResizeTopLeft
    else if IsPointNear(x, y, (r.right, r.top), radius) then ResizeTopRight
    else if IsPointNear(x, y, (r.left, r.bottom), radius) then ResizeBottomLeft
    else if IsPointNear(x, y, (r.right, r.bottom), radius) then ResizeBottomRight
    else if mode == Free && IsPointNear(x, y, (r.CenterX(), r.top), radius) then ResizeTop
    else if mode == Free && IsPointNear(x, y, (r.CenterX(), r.bottom), radius) then ResizeBottom
    else if mode == Free && IsPointNear(x, y, (r.left, r.CenterY()), radius) then ResizeLeft
    else if mode == Free && IsPointNear(x, y, (r.right, r.CenterY()), radius) then ResizeRight
    else NoTouch
  }

  // ---------------------------------------------------------------------
  // Dragging

  /** Moves the rectangle by (dx, dy), but on each axis where the move would
      cross the view's edge, moves it only up to that edge instead. */
  function ClampedOffset(r: Rect, dx: real, dy: real, vw: real, vh: real): (res: Rect)
    ensures res.Width() == r.Width() && res.Height() == r.Height()
    ensures r.InsideView(vw, vh) ==> res.InsideView(vw, vh)
    ensures r.Offset(dx, dy).InsideView(vw, vh) ==> res == r.Offset(dx, dy)
  {
    if dx == 0.0 && dy == 0.0 then r
    else
      var newDx := if r.left + dx < 0.0 then -r.left
                   else if r.right + dx > vw then vw - r.right
                   else dx;
      var newDy := if r.top + dy < 0.0 then -r.top
                   else if r.bottom + dy > vh then vh - r.bottom
                   else dy;
      r.Offset(newDx, newDy)
  }

  // ---------------------------------------------------------------------
  // Resizing

  predicate MovesLeft(m: TouchMode) { m in {ResizeTopLeft, ResizeBottomLeft, ResizeLeft} }

  predicate MovesRight(m: TouchMode) { m in {ResizeTopRight, ResizeBottomRight, ResizeRight} }

  predicate MovesTop(m: TouchMode) { m in {ResizeTopLeft, ResizeTopRight, ResizeTop} }

  predicate MovesBottom(m: TouchMode) { m in {ResizeBottomLeft, ResizeBottomRight, ResizeBottom} }

  /** The FREE-mode clamps are defined: each `coerceIn` the handle reaches
      has its lower bound at most its upper bound. */
  predicate FreeResizeDefined(r: Rect, m: TouchMode, minW: real, minH: real, vw: real, vh: real) {
    (MovesLeft(m) ==> 0.0 <= r.right - minW)
    && (MovesRight(m) ==> r.left + minW <= vw)
    && (MovesTop(m) ==> 0.0 <= r.bottom - minH)
    && (MovesBottom(m) ==> r.top + minH <= vh)
  }

  /** FREE-mode resize: the dragged edges follow the finger, clamped so that
      the rectangle keeps the minimum size and stays in the view; the other
      edges do not move. */
  function FreeResize(r: Rect, m: TouchMode, x: real, y: real,
                      minW: real, minH: real, vw: real, vh: real): (res: Rect)
    requires FreeResizeDefined(r, m, minW, minH, vw, vh)
    ensures MovesLeft(m) ==> res.right == r.right && 0.0 <= res.left <= r.right - minW
    ensures MovesRight(m) ==> res.left == r.left && r.left + minW <= res.right <= vw
    ensures !MovesLeft(m) && !MovesRight(m) ==> res.left == r.left && res.right == r.right
    ensures MovesTop(m) ==> res.bottom == r.bottom && 0.0 <= res.top <= r.bottom - minH
    ensures MovesBottom(m) ==> res.top == r.top && r.top + minH <= res.bottom <= vh
    ensures !MovesTop(m) && !MovesBottom(m) ==> res.top == r.top && res.bottom == r.bottom
    // a dragged edge sits exactly under the finger when the finger is in range
    ensures MovesLeft(m) && 0.0 <= x <= r.right - minW ==> res.left == x
    ensures MovesRight(m) && r.left + minW <= x <= vw ==> res.right == x
    ensures MovesTop(m) && 0.0 <= y <= r.bottom - minH ==> res.top == y
    ensures MovesBottom(m) && r.top + minH <= y <= vh ==> res.bottom == y
  {
    var newLeft := if MovesLeft(m) then Clamp(x, 0.0, r.right - minW) else r.left;
    var newRight := if MovesRight(m) then Clamp(x, r.left + minW, vw) else r.right;
    var newTop := if MovesTop(m) then Clamp(y, 0.0, r.bottom - minH) else r.top;
    var newBottom := if MovesBottom(m) then Clamp(y, r.top + minH, vh) else r.bottom;
    Rect(newLeft, newTop, newRight, newBottom)
  }

  /** The fixed-ratio clamps are defined. Only corners reach them; the width
      clamp is reached only when the height-derived width overflows, but
      both bounds are view constants, so both are asked for. */
  predicate FixedResizeDefined(m: TouchMode, minW: real, minH: real, vw: real, vh: real) {
    IsCorner(m) ==> minH <= vh && minW <= vw
  }

  /** The height the finger asks for in fixed-ratio mode: the distance from
      the anchored (opposite) horizontal edge, clamped to [minH, vh]. */
  function RequestedHeight(r: Rect, m: TouchMode, y: real, minH: real, vh: real): (h: real)
    requires minH <= vh
    ensures minH <= h <= vh
  {
    Clamp(if MovesTop(m) then r.bottom - y else y - r.top, minH, vh)
  }

  /** The rectangle of size w x h whose corner opposite to the dragged one is
      the old rectangle's corner. */
  function Anchored(r: Rect, m: TouchMode, w: real, h: real): Rect {
    Rect(if MovesLeft(m) then r.right - w else r.left,
         if MovesTop(m) then r.bottom - h else r.top,
         if MovesLeft(m) then r.right else r.left + w,
         if MovesTop(m) then r.bottom else r.top + h)
  }

  /** The anchored rectangle of size w x h fits between the anchor and the
      view's edges. */
  predicate FitsAnchored(r: Rect, m: TouchMode, w: real, h: real, vw: real, vh: real) {
    (if MovesLeft(m) then w <= r.right else w <= vw - r.left)
    && (if MovesTop(m) then h <= r.bottom else h <= vh - r.top)
  }

  /** The anchored rectangle of height h and width h * ratio fits. */
  predicate RatioFits(r: Rect, m: TouchMode, h: real, ratio: real, vw: real, vh: real) {
    FitsAnchored(r, m, h * ratio, h, vw, vh)
  }

  /** An anchored rectangle has the size asked for, and a fitting one of a
      rectangle inside the view is itself inside the view. */
  lemma AnchoredShape(r: Rect, m: TouchMode, w: real, h: real, vw: real, vh: real)
    requires IsCorner(m)
    ensures Anchored(r, m, w, h).Width() == w && Anchored(r, m, w, h).Height() == h
    ensures r.InsideView(vw, vh) && FitsAnchored(r, m, w, h, vw, vh) ==> Anchored(r, m, w, h).InsideView(vw, vh)
  {
  }

  /** Fixed-ratio resize of a corner, anchored at the opposite corner: the
      height follows the finger and the width is ratio times the height.
      Edge handles do nothing here. */
  function FixedResize(r: Rect, m: TouchMode, y: real, ratio: real,
                       minW: real, minH: real, vw: real, vh: real): (res: Rect)
    requires ratio > 0.0 && FixedResizeDefined(m, minW, minH, vw, vh)
    ensures !IsCorner(m) ==> res == r
    ensures IsCorner(m) && r.InsideView(vw, vh) ==> res.InsideView(vw, vh)
  {
    if IsCorner(m) then
      var h := RequestedHeight(r, m, y, minH, vh);
      PlaceFixed(r, m, h, h * ratio, ratio, minW, vw, vh)
    else
      r
  }

  /** Places the fixed-ratio rectangle of requested size w0 x h0 at the
      corner opposite handle `m`: a width that overflows the room between the
      anchor and the view's edge is clamped and the height re-derived, then a
      rectangle that still overflows is cut at the view's edges. */
  function PlaceFixed(r: Rect, m: TouchMode, h0: real, w0: real, ratio: real,
                      minW: real, vw: real, vh: real): (res: Rect)
    requires ratio > 0.0 && minW <= vw && IsCorner(m)
    ensures r.InsideView(vw, vh) ==> res.InsideView(vw, vh)
    ensures FitsAnchored(r, m, w0, h0, vw, vh) ==> res == Anchored(r, m, w0, h0)
  {
    var s := FixedSize(if MovesLeft(m) then r.right else vw - r.left, h0, w0, ratio, minW, vw);
    var x := if MovesLeft(m) then PlaceBefore(r.right, s.0) else PlaceAfter(r.left, s.0, vw);
    var y := if MovesTop(m) then PlaceBefore(r.bottom, s.1) else PlaceAfter(r.top, s.1, vh);
    Rect(x.0, y.0, x.1, y.1)
  }

  /** The fixed-ratio size: the requested w0 x h0, unless w0 is more than
      the room between the anchor and the view's edge; then the width is the
      room (clamped to [minW, vw]) and the height is derived from it. */
  function FixedSize(room: real, h0: real, w0: real, ratio: real, minW: real, vw: real): (s: (real, real))
    requires ratio > 0.0 && minW <= vw
    ensures w0 <= room ==> s == (w0, h0)
    ensures w0 > room ==> s.0 == Clamp(room, minW, vw)
  {
    if w0 > room then
      var w := Clamp(room, minW, vw);
      (w, w / ratio)
    else
      (w0, h0)
  }

  /** After an overflow the re-derived size has the ratio again. */
  lemma FixedSizeKeepsRatio(room: real, h0: real, ratio: real, minW: real, vw: real)
    requires ratio > 0.0 && minW <= vw
    ensures var s := FixedSize(room, h0, h0 * ratio, ratio, minW, vw); s.0 == ratio * s.1
  {
    var s := FixedSize(room, h0, h0 * ratio, ratio, minW, vw);
    if h0 * ratio > room {
      assert s.1 * ratio == s.0;
    }
  }

  /** Places a span of the given size ending at `anchor` (the span grows
      towards 0); a span that would start below 0 is cut at 0 and its far
      end pulled in by the same amount. */
  function PlaceBefore(anchor: real, size: real): (span: (real, real))
    ensures 0.0 <= anchor ==> 0.0 <= span.0 && span.1 <= anchor
    ensures size <= anchor ==> span == (anchor - size, anchor)
  {
    var lo := anchor - size;
    if lo < 0.0 then (0.0, anchor - (-lo)) else (lo, anchor)
  }

  /** Places a span of the given size starting at `anchor` (the span grows
      towards `limit`); a span that would end past `limit` is cut there and
      its near end pushed in by the same amount. */
  function PlaceAfter(anchor: real, size: real, limit: real): (span: (real, real))
    ensures 0.0 <= anchor ==> 0.0 <= span.0
    ensures anchor <= limit ==> span.1 <= limit
    ensures anchor + size <= limit ==> span == (anchor, anchor + size)
  {
    var hi := anchor + size;
    if hi > limit then (anchor + (hi - limit), limit) else (anchor, hi)
  }

  /** The last step of every resize: widen or heighten to the minimum size,
      keeping the left and top edges, then push back inside the view where
      the rectangle crosses its edges. */
  function FinalCorrection(r: Rect, minW: real, minH: real, vw: real, vh: real): (res: Rect)
    ensures res.Width() == Max(r.Width(), minW) && res.Height() == Max(r.Height(), minH)
    ensures res.Width() >= minW && res.Height() >= minH
    ensures 0.0 <= Max(r.Width(), minW) <= vw && 0.0 <= Max(r.Height(), minH) <= vh ==> res.InsideView(vw, vh)
    ensures r.Width() >= minW && r.Height() >= minH && r.InsideView(vw, vh) ==> res == r
  {
    var finalWidth := Max(r.right - r.left, minW);
    var finalHeight := Max(r.bottom - r.top, minH);
    var l1 := if r.left < 0.0 then 0.0 else r.left;
    var t1 := if r.top < 0.0 then 0.0 else r.top;
    var r1 := l1 + finalWidth;
    var b1 := t1 + finalHeight;
    var r2 := if r1 > vw then vw else r1;
    var l2 := if r1 > vw then r2 - finalWidth else l1;
    var b2 := if b1 > vh then vh else b1;
    var t2 := if b1 > vh then b2 - finalHeight else t1;
    Rect(l2, t2, r2, b2)
  }

  /** A crop rectangle in good standing: inside the view and at least the
      minimum size. Every operation but a size change keeps this. */
  predicate RectOk(r: Rect, minW: real, minH: real, vw: real, vh: real) {
    r.InsideView(vw, vh) && r.Width() >= minW && r.Height() >= minH
  }

  /** A rectangle in good standing makes every resize well defined. */
  lemma RectOkDefinesResize(r: Rect, m: TouchMode, minW: real, minH: real, vw: real, vh: real)
    requires RectOk(r, minW, minH, vw, vh)
    ensures FreeResizeDefined(r, m, minW, minH, vw, vh)
    ensures FixedResizeDefined(m, minW, minH, vw, vh)
  {
  }

  /** FREE-mode resizing of a rectangle in good standing needs no final
      correction: the edges opposite the handle stay where they were, and the
      result is again in good standing. */
  lemma FreeResizeSettled(r: Rect, m: TouchMode, x: real, y: real, minW: real, minH: real, vw: real, vh: real)
    requires RectOk(r, minW, minH, vw, vh)
    ensures FreeResizeDefined(r, m, minW, minH, vw, vh)
    ensures var res := FreeResize(r, m, x, y, minW, minH, vw, vh);
            FinalCorrection(res, minW, minH, vw, vh) == res
            && RectOk(res, minW, minH, vw, vh)
            && (!MovesLeft(m) ==> res.left == r.left) && (!MovesRight(m) ==> res.right == r.right)
            && (!MovesTop(m) ==> res.top == r.top) && (!MovesBottom(m) ==> res.bottom == r.bottom)
  {
    RectOkDefinesResize(r, m, minW, minH, vw, vh);
    var res := FreeResize(r, m, x, y, minW, minH, vw, vh);
    assert res.InsideView(vw, vh);
  }

  /** Fixed-ratio resizing of a rectangle in good standing also ends in good
      standing (after the final correction). */
  lemma FixedResizeSettled(r: Rect, m: TouchMode, y: real, ratio: real, minW: real, minH: real, vw: real, vh: real)
    requires ratio > 0.0 && RectOk(r, minW, minH, vw, vh)
    ensures FixedResizeDefined(m, minW, minH, vw, vh)
    ensures RectOk(FinalCorrection(FixedResize(r, m, y, ratio, minW, minH, vw, vh), minW, minH, vw, vh), minW, minH, vw, vh)
  {
    var res := FixedResize(r, m, y, ratio, minW, minH, vw, vh);
    assert res.InsideView(vw, vh);
  }

  /** A fitting placement of at least the minimum size is exactly the
      anchored rectangle, and the final correction leaves it alone. */
  lemma PlaceFixedSettled(r: Rect, m: TouchMode, h: real, w: real, ratio: real,
                          minW: real, minH: real, vw: real, vh: real)
    requires ratio > 0.0 && IsCorner(m) && RectOk(r, minW, minH, vw, vh)
    requires FitsAnchored(r, m, w, h, vw, vh) && w >= minW && h >= minH
    ensures FinalCorrection(PlaceFixed(r, m, h, w, ratio, minW, vw, vh), minW, minH, vw, vh) == Anchored(r, m, w, h)
  {
    AnchoredSettled(r, m, w, h, minW, minH, vw, vh);
  }

  /** A fitting anchored rectangle of at least the minimum size needs no
      final correction. */
  lemma AnchoredSettled(r: Rect, m: TouchMode, w: real, h: real, minW: real, minH: real, vw: real, vh: real)
    requires IsCorner(m) && r.InsideView(vw, vh) && FitsAnchored(r, m, w, h, vw, vh)
    requires w >= minW && h >= minH
    ensures FinalCorrection(Anchored(r, m, w, h), minW, minH, vw, vh) == Anchored(r, m, w, h)
  {
    AnchoredShape(r, m, w, h, vw, vh);
  }

  /** When the anchored rectangle of the requested height h (for a resize,
      `RequestedHeight`) fits the view and its derived width is at least the
      minimum, a fixed-ratio resize keeps the ratio, takes the requested
      height and leaves the corner opposite the handle where it was. */
  lemma PlaceFixedKeepsRatio(r: Rect, m: TouchMode, h: real, ratio: real, minW: real, minH: real, vw: real, vh: real)
    requires ratio > 0.0 && IsCorner(m) && RectOk(r, minW, minH, vw, vh)
    requires RatioFits(r, m, h, ratio, vw, vh) && h * ratio >= minW && h >= minH
    ensures var res := FinalCorrection(PlaceFixed(r, m, h, h * ratio, ratio, minW, vw, vh), minW, minH, vw, vh);
            res.Width() == ratio * res.Height() && res.Height() == h
            && (MovesLeft(m) ==> res.right == r.right) && (MovesRight(m) ==> res.left == r.left)
            && (MovesTop(m) ==> res.bottom == r.bottom) && (MovesBottom(m) ==> res.top == r.top)
  {
    var w := h * ratio;
    PlaceFixedSettled(r, m, h, w, ratio, minW, minH, vw, vh);
    AnchoredShape(r, m, w, h, vw, vh);
  }

  /** The ratio is not always kept: in 9:16 mode at the minimum size the
      derived width (60 * 9/16) is below the minimum width, the final
      correction widens the rectangle to 60 x 60 and the anchored right edge
      moves. */
  lemma FixedResizeAtMinimumLosesRatio()
    ensures var r := Rect(100.0, 100.0, 400.0, 500.0);
            var res := FinalCorrection(FixedResize(r, ResizeTopLeft, 490.0, 9.0 / 16.0, 60.0, 60.0, 1000.0, 1000.0),
                                       60.0, 60.0, 1000.0, 1000.0);
            res == Rect(366.25, 440.0, 426.25, 500.0)
            && res.Width() == res.Height()
            && res.right != r.right
  {
    var r := Rect(100.0, 100.0, 400.0, 500.0);
    assert RequestedHeight(r, ResizeTopLeft, 490.0, 60.0, 1000.0) == 60.0;
    assert FixedResize(r, ResizeTopLeft, 490.0, 9.0 / 16.0, 60.0, 60.0, 1000.0, 1000.0) == Rect(366.25, 440.0, 400.0, 500.0);
  }

  /** Both clamp sets of a resize are defined: `ratio` is None in FREE mode
      and the fixed ratio otherwise. */
  predicate ResizeDefinedFor(r: Rect, ratio: Option<real>, m: TouchMode, minW: real, minH: real, vw: real, vh: real) {
    !r.IsEmpty() ==>
      match ratio
      case None => FreeResizeDefined(r, m, minW, minH, vw, vh)
      case Some(k) => k > 0.0 && FixedResizeDefined(m, minW, minH, vw, vh)
  }

  /** A whole resize step: FREE or fixed-ratio, then the final correction;
      an empty rectangle is left alone. */
  function Resize(r: Rect, ratio: Option<real>, m: TouchMode, x: real, y: real,
                  minW: real, minH: real, vw: real, vh: real): (res: Rect)
    requires ResizeDefinedFor(r, ratio, m, minW, minH, vw, vh)
    ensures r.IsEmpty() ==> res == r
    ensures !r.IsEmpty() ==> res.Width() >= minW && res.Height() >= minH
  {
    if r.IsEmpty() then r
    else
      match ratio
      case None => FinalCorrection(FreeResize(r, m, x, y, minW, minH, vw, vh), minW, minH, vw, vh)
      case Some(k) => FinalCorrection(FixedResize(r, m, y, k, minW, minH, vw, vh), minW, minH, vw, vh)
  }

  /** Every resize keeps a rectangle in good standing in good standing, and
      is defined for it whenever the ratio is positive. */
  lemma ResizeKeepsRectOk(r: Rect, ratio: Option<real>, m: TouchMode, x: real, y: real,
                          minW: real, minH: real, vw: real, vh: real)
    requires RectOk(r, minW, minH, vw, vh) && (ratio.Some? ==> ratio.value > 0.0)
    ensures ResizeDefinedFor(r, ratio, m, minW, minH, vw, vh)
    ensures RectOk(Resize(r, ratio, m, x, y, minW, minH, vw, vh), minW, minH, vw, vh)
  {
    RectOkDefinesResize(r, m, minW, minH, vw, vh);
    if !r.IsEmpty() {
      match ratio
      case None => FreeResizeSettled(r, m, x, y, minW, minH, vw, vh);
      case Some(k) => FixedResizeSettled(r, m, y, k, minW, minH, vw, vh);
    }
  }

  // ---------------------------------------------------------------------
  // Re-deriving the rectangle for a new ratio

  /** The size a new ratio asks for: keep the height when the rectangle is
      wider than the ratio, otherwise keep the width. */
  function AspectBase(cw: real, ch: real, ratio: real): (s: (real, real))
    requires cw > 0.0 && ch > 0.0 && ratio > 0.0
    ensures s.0 == ratio * s.1 && s.0 > 0.0 && s.1 > 0.0
    ensures cw / ch > ratio ==> s.1 == ch && s.0 < cw
    ensures cw / ch <= ratio ==> s.0 == cw && s.1 <= ch
  {
    DivGreater(cw, ch, ratio);
    if cw / ch > ratio then
      (ch * ratio, ch)
    else
      var h := cw / ratio;
      assert h * ratio == cw;
      assert (ch - h) * ratio >= 0.0;
      (cw, h)
  }

  /** A span of the given size centred on c, shifted by the least amount
      that brings its low end to 0 or, failing that, its high end to
      `limit`. */
  function CentredSpan(c: real, size: real, limit: real): (span: (real, real))
    ensures span.1 - span.0 == size
    ensures 0.0 <= size <= limit ==> 0.0 <= span.0 && span.1 <= limit
    ensures c - size / 2.0 >= 0.0 && c + size / 2.0 <= limit ==> span.0 + span.1 == 2.0 * c
  {
    var half := size / 2.0;
    var lo := c - half;
    var hi := c + half;
    var d := if lo < 0.0 then -lo else if hi > limit then limit - hi else 0.0;
    (lo + d, hi + d)
  }

  /** The rectangle for a new ratio: the ratio-derived size limited below by
      the minimum size and above by the view, centred on the old centre,
      then shifted back into the view on each axis where it sticks out. */
  function AspectRatioRect(r: Rect, ratio: real, vw: real, vh: real, minW: real, minH: real): (res: Rect)
    requires ratio > 0.0 && r.Width() > 0.0 && r.Height() > 0.0
    ensures var s := AspectBase(r.Width(), r.Height(), ratio);
            res.Width() == Min(Max(s.0, minW), vw) && res.Height() == Min(Max(s.1, minH), vh)
    ensures minW <= vw ==> res.Width() >= minW
    ensures minH <= vh ==> res.Height() >= minH
    ensures var s := AspectBase(r.Width(), r.Height(), ratio);
            minW <= s.0 <= vw && minH <= s.1 <= vh ==> res.Width() == ratio * res.Height()
    ensures 0.0 <= vw && 0.0 <= vh ==> res.InsideView(vw, vh)
    ensures r.CenterX() - res.Width() / 2.0 >= 0.0 && r.CenterX() + res.Width() / 2.0 <= vw ==>
              res.CenterX() == r.CenterX()
    ensures r.CenterY() - res.Height() / 2.0 >= 0.0 && r.CenterY() + res.Height() / 2.0 <= vh ==>
              res.CenterY() == r.CenterY()
  {
    var s := AspectBase(r.Width(), r.Height(), ratio);
    var newWidth := Min(Max(s.0, minW), vw);
    var newHeight := Min(Max(s.1, minH), vh);
    var x := CentredSpan(r.CenterX(), newWidth, vw);
    var y := CentredSpan(r.CenterY(), newHeight, vh);
    Rect(x.0, y.0, x.1, y.1)
  }

  /** A 400 x 300 rectangle switched to 1:1 in a large view keeps its height
      and centre and loses 50 on each side. */
  lemma AspectRatioExample()
    ensures AspectRatioRect(Rect(100.0, 100.0, 500.0, 400.0), 1.0, 1000.0, 1000.0, 180.0, 180.0)
            == Rect(150.0, 100.0, 450.0, 400.0)
  {
    assert AspectBase(400.0, 300.0, 1.0) == (300.0, 300.0);
  }

  // ---------------------------------------------------------------------
  // The view

  class CropOverlayView {
    /** Display density: dp-to-px factor. */
    const density: real
    var width: nat
    var height: nat
    var visible: bool
    var cropRect: Rect
    var touchMode: TouchMode
    var lastTouchX: real
    var lastTouchY: real
    var aspectRatioMode: AspectRatioMode
    var fixedAspectRatio: Option<real>

    /** Touch radius of a handle, 24 dp. */
    function HandleRadius(): real { 24.0 * density }

    /** Minimum crop width and height, 60 dp each. */
    function MinCropWidth(): real { 60.0 * density }

    function MinCropHeight(): real { 60.0 * density }

    /** Margin left around the initial rectangle, 24 dp. */
    function Padding(): real { 24.0 * density }

    function W(): real reads this`width { width as real }

    function H(): real reads this`height { height as real }

    ghost predicate Valid()
      reads this`aspectRatioMode, this`fixedAspectRatio
    {
      density > 0.0 && fixedAspectRatio == FixedRatio(aspectRatioMode)
    }

    /** The rectangle is inside the view and at least the minimum size. */
    predicate Ok()
      reads this`cropRect, this`width, this`height
    {
      RectOk(cropRect, MinCropWidth(), MinCropHeight(), W(), H())
    }

    /** The ratio a resize uses: none in FREE mode (or with no ratio set),
        the fixed ratio otherwise. */
    function EffectiveRatio(): Option<real>
      reads this`aspectRatioMode, this`fixedAspectRatio
    {
      if fixedAspectRatio.None? || aspectRatioMode == Free then None else fixedAspectRatio
    }

    /** The clamps the resize of handle `m` reaches are defined. */
    predicate ResizeDefined(m: TouchMode)
      reads this`cropRect, this`width, this`height, this`aspectRatioMode, this`fixedAspectRatio
    {
      ResizeDefinedFor(cropRect, EffectiveRatio(), m, MinCropWidth(), MinCropHeight(), W(), H())
    }

    /** The rectangle a resize of handle `m` towards (x, y) produces. */
    function ResizedRect(m: TouchMode, x: real, y: real): Rect
      requires ResizeDefined(m)
      reads this`cropRect, this`width, this`height, this`aspectRatioMode, this`fixedAspectRatio
    {
      Resize(cropRect, EffectiveRatio(), m, x, y, MinCropWidth(), MinCropHeight(), W(), H())
    }

    /** The view starts with no size, an empty rectangle, no gesture and
        FREE mode. */
    constructor(density: real)
      requires density > 0.0
      ensures Valid()
      ensures this.density == density && width == 0 && height == 0 && visible
      ensures cropRect == EmptyRect && touchMode == NoTouch && aspectRatioMode == Free
    {
      this.density := density;
      width, height := 0, 0;
      visible := true;
      cropRect := EmptyRect;
      touchMode := NoTouch;
      lastTouchX, lastTouchY := 0.0, 0.0;
      aspectRatioMode := Free;
      fixedAspectRatio := None;
    }

    method SetVisible(v: bool)
      modifies this`visible
      ensures visible == v
    {
      visible := v;
    }

    /** A size change records the new size and, when it is non-zero, places
        the initial 4:3 rectangle. */
    method OnSizeChanged(w: nat, h: nat)
      modifies this`width, this`height, this`cropRect
      ensures width == w && height == h
      ensures w == 0 || h == 0 ==> cropRect == old(cropRect)
      ensures w > 0 && h > 0 ==> cropRect == InitialCropRect(w as real, h as real, Padding())
    {
      width, height := w, h;
      if w == 0 || h == 0 {
        return;
      }
      cropRect := InitialCropRect(w as real, h as real, Padding());
    }

    /** Re-derives the rectangle for `ratio`, unless the view or the
        rectangle has no size. */
    method ApplyAspectRatioToCurrentRect(ratio: real)
      requires ratio > 0.0
      modifies this`cropRect
      ensures if width == 0 || height == 0 || old(cropRect).Width() <= 0.0 || old(cropRect).Height() <= 0.0
              then cropRect == old(cropRect)
              else cropRect == AspectRatioRect(old(cropRect), ratio, W(), H(), MinCropWidth(), MinCropHeight())
    {
      if width == 0 || height == 0 {
        return;
      }
      if cropRect.Width() <= 0.0 || cropRect.Height() <= 0.0 {
        return;
      }
      cropRect := AspectRatioRect(cropRect, ratio, W(), H(), MinCropWidth(), MinCropHeight());
    }

    /** Chooses a preset; a fixed ratio is applied to the current rectangle
        at once, FREE leaves it as it is. */
    method SetAspectRatio(mode: AspectRatioMode)
      requires Valid()
      modifies this`aspectRatioMode, this`fixedAspectRatio, this`cropRect
      ensures Valid()
      ensures aspectRatioMode == mode && fixedAspectRatio == FixedRatio(mode)
      ensures mode == Free ==> cropRect == old(cropRect)
      ensures mode != Free ==>
                if width == 0 || height == 0 || old(cropRect).Width() <= 0.0 || old(cropRect).Height() <= 0.0
                then cropRect == old(cropRect)
                else cropRect == AspectRatioRect(old(cropRect), FixedRatio(mode).value, W(), H(), MinCropWidth(), MinCropHeight())
      ensures old(Ok()) ==> Ok()
    {
      aspectRatioMode := mode;
      fixedAspectRatio := FixedRatio(mode);
      if fixedAspectRatio.Some? {
        ApplyAspectRatioToCurrentRect(fixedAspectRatio.value);
      }
    }

    /** Moves the rectangle with the finger, stopping at the view's edges. */
    method OffsetCropRect(dx: real, dy: real)
      modifies this`cropRect
      ensures cropRect == ClampedOffset(old(cropRect), dx, dy, W(), H())
    {
      if dx == 0.0 && dy == 0.0 {
        return;
      }
      var newDx := dx;
      var newDy := dy;
      var newLeft := cropRect.left + dx;
      var newRight := cropRect.right + dx;
      var newTop := cropRect.top + dy;
      var newBottom := cropRect.bottom + dy;
      if newLeft < 0.0 {
        newDx := -cropRect.left;
      } else if newRight > W() {
        newDx := W() - cropRect.right;
      }
      if newTop < 0.0 {
        newDy := -cropRect.top;
      } else if newBottom > H() {
        newDy := H() - cropRect.bottom;
      }
      cropRect := cropRect.Offset(newDx, newDy);
    }

    /** Resizes by handle `m` towards the finger at (x, y): FREE mode moves the
        handle's edges, a fixed ratio resizes about the opposite corner; the
        final correction then applies the minimum size and the view's
        edges. An empty rectangle is left alone. */
    method ResizeCropRectByCorner(m: TouchMode, x: real, y: real)
      requires Valid() && ResizeDefined(m)
      modifies this`cropRect
      ensures cropRect == old(ResizedRect(m, x, y))
      ensures !old(cropRect).IsEmpty() ==> cropRect.Width() >= MinCropWidth() && cropRect.Height() >= MinCropHeight()
      ensures old(Ok()) ==> Ok()
    {
      if Ok() {
        ResizeKeepsRectOk(cropRect, EffectiveRatio(), m, x, y, MinCropWidth(), MinCropHeight(), W(), H());
      }
      if cropRect.IsEmpty() {
        return;
      }
      var minW := MinCropWidth();
      var minH := MinCropHeight();
      var next: Rect;
      if fixedAspectRatio.None? || aspectRatioMode == Free {
        next := FreeResize(cropRect, m, x, y, minW, minH, W(), H());
      } else {
        next := FixedResize(cropRect, m, y, fixedAspectRatio.value, minW, minH, W(), H());
      }
      cropRect := FinalCorrection(next, minW, minH, W(), H());
    }

    /** A copy of the current crop rectangle. */
    method GetCropRect() returns (r: Rect)
      ensures r == cropRect
    {
      r := cropRect;
    }

    /** DOWN: a handle under the finger starts resizing by it, otherwise a
        point inside the rectangle starts dragging, otherwise the event is
        not consumed and nothing changes. */
    method OnDown(x: real, y: real) returns (consumed: bool)
      modifies this`touchMode, this`lastTouchX, this`lastTouchY
      ensures var t := FindTouchedHandle(cropRect, aspectRatioMode, x, y, HandleRadius());
              (t != NoTouch ==> consumed && touchMode == t && lastTouchX == x && lastTouchY == y)
              && (t == NoTouch && cropRect.Contains(x, y) ==>
                    consumed && touchMode == Drag && lastTouchX == x && lastTouchY == y)
              && (t == NoTouch && !cropRect.Contains(x, y) ==> !consumed && unchanged(this))
    {
      var handleMode := FindTouchedHandle(cropRect, aspectRatioMode, x, y, HandleRadius());
      if handleMode != NoTouch {
        touchMode := handleMode;
        lastTouchX, lastTouchY := x, y;
        return true;
      }
      if cropRect.Contains(x, y) {
        touchMode := Drag;
        lastTouchX, lastTouchY := x, y;
        return true;
      }
      return false;
    }

    /** MOVE: a drag offsets the rectangle by the finger's movement since the
        last event (when there is any), a resize follows the finger; both are
        consumed. With no gesture the event is not consumed. */
    method OnMove(x: real, y: real) returns (consumed: bool)
      requires Valid()
      requires IsResize(touchMode) ==> ResizeDefined(touchMode)
      modifies this`cropRect, this`lastTouchX, this`lastTouchY
      ensures old(Ok()) ==> Ok()
      ensures old(touchMode) == Drag ==>
                consumed
                && (x - old(lastTouchX) != 0.0 || y - old(lastTouchY) != 0.0 ==>
                      cropRect == ClampedOffset(old(cropRect), x - old(lastTouchX), y - old(lastTouchY), W(), H())
                      && lastTouchX == x && lastTouchY == y)
                && (x - old(lastTouchX) == 0.0 && y - old(lastTouchY) == 0.0 ==> unchanged(this))
      ensures IsResize(touchMode) ==>
                consumed && cropRect == old(ResizedRect(touchMode, x, y)) && lastTouchX == x && lastTouchY == y
      ensures touchMode == NoTouch ==> !consumed && unchanged(this)
    {
      if touchMode == Drag {
        var dx := x - lastTouchX;
        var dy := y - lastTouchY;
        if dx != 0.0 || dy != 0.0 {
          OffsetCropRect(dx, dy);
          lastTouchX, lastTouchY := x, y;
        }
        return true;
      } else if IsResize(touchMode) {
        ResizeCropRectByCorner(touchMode, x, y);
        lastTouchX, lastTouchY := x, y;
        return true;
      }
      return false;
    }

    /** UP or CANCEL: ends the gesture; consumed exactly when there was one. */
    method OnUp() returns (consumed: bool)
      modifies this`touchMode
      ensures consumed <==> old(touchMode) != NoTouch
      ensures touchMode == NoTouch
    {
      if touchMode != NoTouch {
        touchMode := NoTouch;
        return true;
      }
      return false;
    }

    /** The gesture machine: a hidden or unsized view consumes nothing;
        otherwise DOWN, MOVE and UP/CANCEL are dispatched as above and every
        other action is not consumed. */
    method OnTouchEvent(e: TouchEvent) returns (consumed: bool)
      requires Valid()
      requires e.action == Move && IsResize(touchMode) ==> ResizeDefined(touchMode)
      modifies this`cropRect, this`touchMode, this`lastTouchX, this`lastTouchY
      ensures Valid()
      ensures old(Ok()) ==> Ok()
      ensures !visible || width == 0 || height == 0 ==> !consumed && unchanged(this)
      ensures visible && width > 0 && height > 0 && e.action == Down ==>
                var t := FindTouchedHandle(old(cropRect), aspectRatioMode, e.x, e.y, HandleRadius());
                cropRect == old(cropRect)
                && (t != NoTouch ==> consumed && touchMode == t && lastTouchX == e.x && lastTouchY == e.y)
                && (t == NoTouch && old(cropRect).Contains(e.x, e.y) ==>
                      consumed && touchMode == Drag && lastTouchX == e.x && lastTouchY == e.y)
                && (t == NoTouch && !old(cropRect).Contains(e.x, e.y) ==> !consumed && unchanged(this))
      ensures visible && width > 0 && height > 0 && e.action == Move ==>
                touchMode == old(touchMode)
                && (old(touchMode) == Drag ==>
                      consumed
                      && (e.x - old(lastTouchX) != 0.0 || e.y - old(lastTouchY) != 0.0 ==>
                            cropRect == ClampedOffset(old(cropRect), e.x - old(lastTouchX), e.y - old(lastTouchY), W(), H())
                            && lastTouchX == e.x && lastTouchY == e.y)
                      && (e.x - old(lastTouchX) == 0.0 && e.y - old(lastTouchY) == 0.0 ==> unchanged(this)))
                && (IsResize(old(touchMode)) ==>
                      consumed && cropRect == old(ResizedRect(touchMode, e.x, e.y))
                      && lastTouchX == e.x && lastTouchY == e.y)
                && (old(touchMode) == NoTouch ==> !consumed && unchanged(this))
      ensures visible && width > 0 && height > 0 && (e.action == Up || e.action == Cancel) ==>
                (consumed <==> old(touchMode) != NoTouch) && touchMode == NoTouch
                && cropRect == old(cropRect) && lastTouchX == old(lastTouchX) && lastTouchY == old(lastTouchY)
      ensures visible && width > 0 && height > 0 && e.action !in {Down, Move, Up, Cancel} ==>
                !consumed && unchanged(this)
    {
      if !visible || width == 0 || height == 0 {
        return false;
      }
      match e.action {
        case Down => consumed := OnDown(e.x, e.y);
        case Move => consumed := OnMove(e.x, e.y);
        case Up => consumed := OnUp();
        case Cancel => consumed := OnUp();
        case _ => consumed := false;
      }
    }
  }

  /** A rectangle in good standing satisfies every handle's resize
      precondition, so the gesture machine never reaches an undefined clamp
      once the rectangle is in good standing. */
  lemma OkDefinesEveryResize(v: CropOverlayView, m: TouchMode)
    requires v.Valid() && v.Ok()
    ensures v.ResizeDefined(m)
  {
    RectOkDefinesResize(v.cropRect, m, v.MinCropWidth(), v.MinCropHeight(), v.W(), v.H());
  }
}
