/** The text overlay: an ordered list of text boxes (later entries are drawn
    on top) with at most one selected, tap and double-tap selection, the
    selected box's three hot-zones (add a box, delete, rotate/scale handle),
    style setters, undo snapshots, and the drag / scale / rotate gesture on the
    selected box. Text measurement and the platform matrix are foreign: they
    enter as measured sizes and as point mappings. */
module TextOverlay {
  import opened Geometry

  /** `Color.WHITE` (0xFFFFFFFF) as a signed 32-bit ARGB value. */
  const White: int := -1

  /** The placeholder text a new box carries. */
  const DefaultText: string := "双击编辑文字"

  /** Side of the square hot-zones in the box's local (unscaled) coordinates. */
  const HandleSizeLocal: real := 36.0

  /** One text box: nine persistent value fields, then the four rectangles
      the drawing pass recomputes for hit testing. */
  datatype TextElement = TextElement(
    text: string,
    centerX: real,
    centerY: real,
    textSizeSp: real,
    textColor: int,
    alpha: int,
    typefaceIndex: int,
    scale: real,
    rotation: real,
    bounds: Rect,
    plusBounds: Rect,
    rotateBounds: Rect,
    deleteBounds: Rect)

  /** A new box with the data class's defaults at the given centre. */
  function NewElement(text: string, cx: real, cy: real): TextElement {
    TextElement(text, cx, cy, 18.0, White, 255, 0, 1.0, 0.0, EmptyRect, EmptyRect, EmptyRect, EmptyRect)
  }

  /** The copy a snapshot keeps (and a restore makes): the nine value fields,
      with every runtime rectangle reset. */
  function CopyOf(e: TextElement): (c: TextElement)
    ensures SameValues(c, e)
    ensures c.bounds == c.plusBounds == c.rotateBounds == c.deleteBounds == EmptyRect
  {
    TextElement(e.text, e.centerX, e.centerY, e.textSizeSp, e.textColor, e.alpha,
                e.typefaceIndex, e.scale, e.rotation, EmptyRect, EmptyRect, EmptyRect, EmptyRect)
  }

  /** Two boxes agree on all nine value fields. */
  predicate SameValues(a: TextElement, b: TextElement) {
    a.text == b.text && a.centerX == b.centerX && a.centerY == b.centerY
    && a.textSizeSp == b.textSizeSp && a.textColor == b.textColor && a.alpha == b.alpha
    && a.typefaceIndex == b.typefaceIndex && a.scale == b.scale && a.rotation == b.rotation
  }

  /** The ranges every box stays in: size in [12, 36] sp, alpha in [128, 255],
      typeface in {0, 1, 2}, scale in [0.5, 3] and rotation in [0, 360). */
  predicate ElementOk(e: TextElement) {
    12.0 <= e.textSizeSp <= 36.0 && 128 <= e.alpha <= 255 && 0 <= e.typefaceIndex <= 2
    && 0.5 <= e.scale <= 3.0 && 0.0 <= e.rotation < 360.0
  }

  predicate AllOk(es: seq<TextElement>) {
    forall i :: 0 <= i < |es| ==> ElementOk(es[i])
  }

  /** The list invariant: the selection is -1 or a valid index, and every box
      is in range. */
  predicate StateOk(es: seq<TextElement>, sel: int) {
    -1 <= sel < |es| && AllOk(es)
  }

  /** `getSelectedElement()`. */
  function SelectedOf(es: seq<TextElement>, sel: int): (r: Option<TextElement>)
    ensures r.Some? <==> 0 <= sel < |es|
    ensures r.Some? ==> r.value == es[sel]
  {
    if 0 <= sel < |es| then Some(es[sel]) else None
  }

  function BoundsOf(es: seq<TextElement>): (rs: seq<Rect>)
    ensures |rs| == |es| && forall i :: 0 <= i < |es| ==> rs[i] == es[i].bounds
  {
    seq(|es|, i requires 0 <= i < |es| => es[i].bounds)
  }

  // ---------------------------------------------------------------------
  // Style values

  /** `Float.roundToInt()`: nearest integer, ties toward positive infinity. */
  function RoundToInt(x: real): (n: int)
    ensures x - 0.5 < n as real <= x + 0.5
  {
    (x + 0.5).Floor
  }

  /** The alpha a percentage maps to: the percentage is clamped to [50, 100],
      scaled to 0..255 and rounded, then clamped to [128, 255]. */
  function AlphaFor(percent: int): (a: int)
    ensures 128 <= a <= 255
    ensures var p := ClampInt(percent, 50, 100) as real;
            p * 2.55 - 0.5 < a as real <= p * 2.55 + 0.5
    ensures percent <= 50 ==> a == 128
    ensures percent >= 100 ==> a == 255
  {
    var p := ClampInt(percent, 50, 100);
    ClampInt(RoundToInt(p as real / 100.0 * 255.0), 128, 255)
  }

  /** A larger percentage never gives a more transparent box. */
  lemma AlphaMonotone(p: int, q: int)
    requires p <= q
    ensures AlphaFor(p) <= AlphaFor(q)
  {
    var a, b := ClampInt(p, 50, 100) as real / 100.0 * 255.0, ClampInt(q, 50, 100) as real / 100.0 * 255.0;
    assert a <= b;
    assert (a + 0.5).Floor <= (b + 0.5).Floor;
  }

  /** Where a newly created box is centred: horizontally in the middle, and
      below the middle by 40 dp per existing box, but never by more than a
      third of the height. */
  function CreationCentre(w: nat, h: nat, count: nat, density: real): (c: (real, real))
    requires density > 0.0
    ensures c.0 == w as real / 2.0
    ensures h as real / 2.0 <= c.1 <= h as real / 2.0 + h as real / 3.0
    ensures c.1 - h as real / 2.0 <= count as real * 40.0 * density
    ensures count as real * 40.0 * density <= h as real / 3.0 ==> c.1 == h as real / 2.0 + count as real * 40.0 * density
  {
    var yOffset := count as real * 40.0 * density;
    (w as real / 2.0, h as real / 2.0 + Min(yOffset, h as real / 3.0))
  }

  // ---------------------------------------------------------------------
  // Snapshots

  datatype TextStateSnapshot = TextStateSnapshot(elementsCopy: seq<TextElement>, selectedIndex: int)

  function CopyAll(es: seq<TextElement>): (cs: seq<TextElement>)
    ensures |cs| == |es| && forall i :: 0 <= i < |es| ==> cs[i] == CopyOf(es[i])
  {
    seq(|es|, i requires 0 <= i < |es| => CopyOf(es[i]))
  }

  /** `snapshotState()`: a deep copy of the value fields plus the selection. */
  function Snapshot(es: seq<TextElement>, sel: int): (s: TextStateSnapshot)
    ensures |s.elementsCopy| == |es| && s.selectedIndex == sel
    ensures forall i :: 0 <= i < |es| ==> SameValues(s.elementsCopy[i], es[i])
  {
    TextStateSnapshot(CopyAll(es), sel)
  }

  /** The list `restoreState` rebuilds: fresh copies of the snapshot's boxes. */
  function RestoredElements(s: TextStateSnapshot): (es: seq<TextElement>)
    ensures |es| == |s.elementsCopy|
    ensures forall i :: 0 <= i < |es| ==> SameValues(es[i], s.elementsCopy[i])
  {
    CopyAll(s.elementsCopy)
  }

  /** The selection `restoreState` sets: the snapshot's, clamped into
      [-1, lastIndex] of the restored list, so it is always -1 or valid. */
  function RestoredSelection(s: TextStateSnapshot): (sel: int)
    ensures -1 <= sel < |s.elementsCopy|
    ensures -1 <= s.selectedIndex < |s.elementsCopy| ==> sel == s.selectedIndex
  {
    ClampInt(s.selectedIndex, -1, |s.elementsCopy| - 1)
  }

  /** Snapshot then restore gives back every box's nine value fields and the
      selection, and a list that satisfies the invariant again. */
  lemma SnapshotRestoreRoundTrip(es: seq<TextElement>, sel: int)
    requires StateOk(es, sel)
    ensures var s := Snapshot(es, sel);
            |RestoredElements(s)| == |es| && RestoredSelection(s) == sel
            && (forall i :: 0 <= i < |es| ==> SameValues(RestoredElements(s)[i], es[i]))
            && StateOk(RestoredElements(s), RestoredSelection(s))
  {
    var s := Snapshot(es, sel);
    forall i | 0 <= i < |es|
      ensures SameValues(RestoredElements(s)[i], es[i]) && ElementOk(RestoredElements(s)[i])
    {
      assert SameValues(s.elementsCopy[i], es[i]);
    }
  }

  /** Restoring twice from one snapshot is the same as restoring once, and a
      snapshot of a restored list restores to the same state. */
  lemma RestoreIsIdempotent(s: TextStateSnapshot)
    ensures var t := Snapshot(RestoredElements(s), RestoredSelection(s));
            RestoredElements(t) == RestoredElements(s) && RestoredSelection(t) == RestoredSelection(s)
  {
    var t := Snapshot(RestoredElements(s), RestoredSelection(s));
    assert forall i :: 0 <= i < |s.elementsCopy| ==> RestoredElements(t)[i] == RestoredElements(s)[i];
  }

  // ---------------------------------------------------------------------
  // Taps

  datatype TapResult = TapResult(elements: seq<TextElement>, selectedIndex: int, requestNewBox: bool)

  /** A single tap. On the selected box its add-box zone wins (the view asks
      for a new box and changes nothing), then its delete zone (the box is
      removed and the new last box is selected, or none). Otherwise the
      topmost box under the point becomes selected, and a miss clears the
      selection. */
  function SingleTap(es: seq<TextElement>, sel: int, x: real, y: real): (r: TapResult)
    ensures 0 <= sel < |es| && es[sel].plusBounds.Contains(x, y) ==> r == TapResult(es, sel, true)
    ensures 0 <= sel < |es| && !es[sel].plusBounds.Contains(x, y) && es[sel].deleteBounds.Contains(x, y) ==>
              r.elements == es[..sel] + es[sel + 1..] && r.selectedIndex == |r.elements| - 1 && !r.requestNewBox
    ensures !(0 <= sel < |es| && (es[sel].plusBounds.Contains(x, y) || es[sel].deleteBounds.Contains(x, y))) ==>
              r.elements == es && !r.requestNewBox
              && (r.selectedIndex == -1 <==> forall j :: 0 <= j < |es| ==> !es[j].bounds.Contains(x, y))
              && (r.selectedIndex >= 0 ==>
                    (r.selectedIndex < |es| && es[r.selectedIndex].bounds.Contains(x, y)
                     && forall j :: r.selectedIndex < j < |es| ==> !es[j].bounds.Contains(x, y)))
    ensures StateOk(es, sel) ==> StateOk(r.elements, r.selectedIndex)
  {
    if 0 <= sel < |es| && es[sel].plusBounds.Contains(x, y) then
      TapResult(es, sel, true)
    else if 0 <= sel < |es| && es[sel].deleteBounds.Contains(x, y) then
      var rest := es[..sel] + es[sel + 1..];
      assert forall j :: 0 <= j < |rest| ==> rest[j] == es[if j < sel then j else j + 1];
      TapResult(rest, MaxInt(|rest| - 1, -1), false)
    else
      TopmostContainingSpec(BoundsOf(es), x, y);
      TapResult(es, TopmostContaining(BoundsOf(es), x, y), false)
  }

  /** A double tap on a box selects the topmost box there and asks for the
      text editor; a double tap on no box changes nothing and is not handled. */
  function DoubleTap(es: seq<TextElement>, sel: int, x: real, y: real): (r: (int, bool))
    ensures r.1 <==> exists j :: 0 <= j < |es| && es[j].bounds.Contains(x, y)
    ensures !r.1 ==> r.0 == sel
    ensures r.1 ==> 0 <= r.0 < |es| && es[r.0].bounds.Contains(x, y)
                    && forall j :: r.0 < j < |es| ==> !es[j].bounds.Contains(x, y)
  {
    TopmostContainingSpec(BoundsOf(es), x, y);
    var i := TopmostContaining(BoundsOf(es), x, y);
    if i != -1 then (i, true) else (sel, false)
  }

  // ---------------------------------------------------------------------
  // Layout of the hit-test rectangles (the arithmetic of the drawing pass)

  /** The box's local frame: half the widest line plus 24, half the text
      height plus 16, around the origin. */
  function LocalBox(maxLineWidth: real, totalHeight: real): (b: Rect)
    ensures b.CenterX() == 0.0 && b.CenterY() == 0.0
    ensures b.Width() == maxLineWidth + 48.0 && b.Height() == totalHeight + 32.0
  {
    var hw := maxLineWidth / 2.0 + 24.0;
    var hh := totalHeight / 2.0 + 16.0;
    Rect(-hw, -hh, hw, hh)
  }

  /** The add-box zone: the square in the bottom-left corner. */
  function PlusLocal(b: Rect): (z: Rect)
    ensures z.Width() == HandleSizeLocal && z.Height() == HandleSizeLocal
    ensures z.left == b.left && z.bottom == b.bottom
  {
    Rect(b.left, b.bottom - HandleSizeLocal, b.left + HandleSizeLocal, b.bottom)
  }

  /** The rotate/scale handle: the square in the bottom-right corner. */
  function RotateLocal(b: Rect): (z: Rect)
    ensures z.Width() == HandleSizeLocal && z.Height() == HandleSizeLocal
    ensures z.right == b.right && z.bottom == b.bottom
  {
    Rect(b.right - HandleSizeLocal, b.bottom - HandleSizeLocal, b.right, b.bottom)
  }

  /** The delete zone: the square in the top-right corner. */
  function DeleteLocal(b: Rect): (z: Rect)
    ensures z.Width() == HandleSizeLocal && z.Height() == HandleSizeLocal
    ensures z.right == b.right && z.top == b.top
  {
    Rect(b.right - HandleSizeLocal, b.top, b.right, b.top + HandleSizeLocal)
  }

  /** What one drawing pass leaves in a box's rectangles, given the measured
      widest line and text height and the box's local-to-screen mapping. A box
      with no text is skipped. Otherwise its bounds become the axis-aligned
      box around the mapped local frame, and only a selected box keeps
      non-empty hot-zones. The value fields never change. */
  function Layout(e: TextElement, maxLineWidth: real, totalHeight: real, selected: bool, m: Mapping): (r: TextElement)
    ensures CopyOf(r) == CopyOf(e)
    ensures e.text == [] ==> r == e
    ensures e.text != [] ==> r.bounds == BoxOfFourPoints(Corners(m, LocalBox(maxLineWidth, totalHeight)))
    ensures e.text != [] && !selected ==>
              forall px, py :: !r.plusBounds.Contains(px, py) && !r.rotateBounds.Contains(px, py)
                               && !r.deleteBounds.Contains(px, py)
    ensures e.text != [] && selected ==>
              var local := LocalBox(maxLineWidth, totalHeight);
              && r.plusBounds == BoxOfFourPoints(Corners(m, PlusLocal(local)))
              && r.rotateBounds == BoxOfFourPoints(Corners(m, RotateLocal(local)))
              && r.deleteBounds == BoxOfFourPoints(Corners(m, DeleteLocal(local)))
  {
    if e.text == [] then e
    else
      var local := LocalBox(maxLineWidth, totalHeight);
      var b := BoxOfFourPoints(Corners(m, local));
      if selected then
        e.(bounds := b,
           plusBounds := BoxOfFourPoints(Corners(m, PlusLocal(local))),
           rotateBounds := BoxOfFourPoints(Corners(m, RotateLocal(local))),
           deleteBounds := BoxOfFourPoints(Corners(m, DeleteLocal(local))))
      else
        e.(bounds := b, plusBounds := EmptyRect, rotateBounds := EmptyRect, deleteBounds := EmptyRect)
  }

  /** `mapRectWithMatrix`: map the four corners, then scan the remaining three
      points for the extremes on each axis. */
  method MapRectWithMatrix(m: Mapping, src: Rect) returns (out: Rect)
    ensures out == BoxOfFourPoints(Corners(m, src))
  {
    var pts := Corners(m, src);
    var minX, maxX, minY, maxY := pts[0], pts[0], pts[1], pts[1];
    ghost var kMinX, kMaxX, kMinY, kMaxY := 0, 0, 0, 0;
    var j := 1;  // the point at pts[2 * j], pts[2 * j + 1]
    while j < 4
      invariant 1 <= j <= 4
      invariant forall k :: 0 <= k < j ==> minX <= pts[2 * k] <= maxX && minY <= pts[2 * k + 1] <= maxY
      invariant 0 <= kMinX < j && minX == pts[2 * kMinX]
      invariant 0 <= kMaxX < j && maxX == pts[2 * kMaxX]
      invariant 0 <= kMinY < j && minY == pts[2 * kMinY + 1]
      invariant 0 <= kMaxY < j && maxY == pts[2 * kMaxY + 1]
    {
      var x := pts[2 * j];
      var y := pts[2 * j + 1];
      if x < minX { minX := x; kMinX := j; }
      if x > maxX { maxX := x; kMaxX := j; }
      if y < minY { minY := y; kMinY := j; }
      if y > maxY { maxY := y; kMaxY := j; }
      j := j + 1;
    }
    out := Rect(minX, minY, maxX, maxY);
    var box := BoxOfFourPoints(pts);
    assert box.left <= pts[2 * kMinX] && box.right >= pts[2 * kMaxX];
    assert box.top <= pts[2 * kMinY + 1] && box.bottom >= pts[2 * kMaxY + 1];
  }

  /** One box of the drawing pass, computed the way the view does it. */
  method LayoutOne(e: TextElement, maxLineWidth: real, totalHeight: real, selected: bool, m: Mapping)
    returns (r: TextElement)
    ensures r == Layout(e, maxLineWidth, totalHeight, selected, m)
  {
    if e.text == [] {
      return e;
    }
    var local := LocalBox(maxLineWidth, totalHeight);
    var b := MapRectWithMatrix(m, local);
    r := e.(bounds := b);
    if selected {
      var plus := MapRectWithMatrix(m, PlusLocal(local));
      var rotate := MapRectWithMatrix(m, RotateLocal(local));
      var delete := MapRectWithMatrix(m, DeleteLocal(local));
      r := r.(plusBounds := plus, rotateBounds := rotate, deleteBounds := delete);
    } else {
      r := r.(plusBounds := EmptyRect, rotateBounds := EmptyRect, deleteBounds := EmptyRect);
    }
  }

  // ---------------------------------------------------------------------
  // Gesture arithmetic

  /** `((r % 360) + 360) % 360`: an angle brought into [0, 360) by whole turns. */
  function NormalizeDegrees(r: real): (n: real)
    ensures 0.0 <= n < 360.0
    ensures WholeTurns(n - r)
    ensures 0.0 <= r < 360.0 ==> n == r
  {
    var a := Rem360(r);
    var n := Rem360(a + 360.0);
    assert WholeTurns(360.0) by { assert 360.0 / 360.0 == 1.0; }
    WholeTurnsCombine(a + 360.0 - n, r - a);
    WholeTurnsCombine(360.0, (a + 360.0 - n) + (r - a));
    assert n - r == 360.0 - ((a + 360.0 - n) + (r - a));
    n
  }

  /** The gesture state the view keeps between motion events. */
  datatype Gesture = Gesture(
    isDragging: bool,
    isScalingRotating: bool,
    useHandle: bool,
    lastX: real,
    lastY: real,
    activePointerId: int,
    initialDist: real,
    initialAngle: real,
    initialScale: real,
    initialRotation: real)

  /** The rotation step of a move, in degrees: the angle the fingers turned
      since the gesture began, converted with the float value of pi. */
  function AngleDelta(newAngle: real, initialAngle: real): real {
    (newAngle - initialAngle) * 180.0 / PiFloat
  }

  /** A scale/rotate move with finger distance `newDist` and angle `newAngle`:
      the scale follows the distance ratio clamped to [0.5, 3] (only when the
      starting distance was positive), the rotation is the starting rotation
      plus the turned angle brought into [0, 360). Nothing else changes. */
  function ScaledRotated(e: TextElement, g: Gesture, newDist: real, newAngle: real): (r: TextElement)
    ensures r == e.(scale := r.scale, rotation := r.rotation)
    ensures g.initialDist > 0.0 ==> 0.5 <= r.scale <= 3.0
    ensures g.initialDist > 0.0 && newDist == g.initialDist && 0.5 <= g.initialScale <= 3.0 ==> r.scale == g.initialScale
    ensures g.initialDist <= 0.0 ==> r.scale == e.scale
    ensures 0.0 <= r.rotation < 360.0
    ensures var turned := g.initialRotation + AngleDelta(newAngle, g.initialAngle);
            WholeTurns(r.rotation - turned)
    ensures ElementOk(e) ==> ElementOk(r)
  {
    var s := if g.initialDist > 0.0 then ScaleByDistance(g.initialScale, newDist, g.initialDist, 0.5, 3.0) else e.scale;
    e.(scale := s, rotation := NormalizeDegrees(g.initialRotation + AngleDelta(newAngle, g.initialAngle)))
  }

  /** DOWN on the selected box: on its rotate handle it starts a one-finger
      scale/rotate around the box centre; anywhere else (even off the box) it
      starts dragging with the first pointer. */
  function DownStep(e: TextElement, g: Gesture, p: Pointer, trig: Trig): (r: Gesture)
    ensures e.rotateBounds.Contains(p.x, p.y) ==>
              !r.isDragging && r.isScalingRotating && r.useHandle
              && r.initialScale == e.scale && r.initialRotation == e.rotation
              && r.initialDist == trig.hypot(p.x - e.centerX, p.y - e.centerY)
              && r.lastX == g.lastX && r.lastY == g.lastY && r.activePointerId == g.activePointerId
    ensures !e.rotateBounds.Contains(p.x, p.y) ==>
              r == g.(isDragging := true, isScalingRotating := false, useHandle := false,
                      activePointerId := p.id, lastX := p.x, lastY := p.y)
  {
    if e.rotateBounds.Contains(p.x, p.y) then
      var dx, dy := p.x - e.centerX, p.y - e.centerY;
      g.(isDragging := false, isScalingRotating := true, useHandle := true,
         initialDist := trig.hypot(dx, dy), initialAngle := trig.atan2(dy, dx),
         initialScale := e.scale, initialRotation := e.rotation)
    else
      g.(isDragging := true, isScalingRotating := false, useHandle := false,
         activePointerId := p.id, lastX := p.x, lastY := p.y)
  }

  /** A second pointer starts a two-finger scale/rotate, unless the handle
      gesture is already running, in which case nothing changes. */
  function PointerDownStep(e: TextElement, g: Gesture, ps: PointerList, trig: Trig): (r: Gesture)
    ensures |ps| >= 2 && !g.useHandle ==>
              !r.isDragging && r.isScalingRotating && !r.useHandle
              && r.initialScale == e.scale && r.initialRotation == e.rotation
              && r.initialDist == trig.hypot(ps[1].x - ps[0].x, ps[1].y - ps[0].y)
              && r.lastX == g.lastX && r.lastY == g.lastY && r.activePointerId == g.activePointerId
    ensures !(|ps| >= 2 && !g.useHandle) ==> r == g
  {
    if |ps| >= 2 && !g.useHandle then
      var dx, dy := ps[1].x - ps[0].x, ps[1].y - ps[0].y;
      g.(isDragging := false, isScalingRotating := true,
         initialDist := trig.hypot(dx, dy), initialAngle := trig.atan2(dy, dx),
         initialScale := e.scale, initialRotation := e.rotation)
    else g
  }

  /** MOVE: scale/rotate by the handle (finger against the box centre) or by
      two fingers, or drag the box by the tracked pointer's delta. In a drag the
      box keeps its offset from the finger, so over a whole drag it moves by
      the sum of the deltas. */
  function MoveStep(e: TextElement, g: Gesture, ps: PointerList, trig: Trig): (r: (TextElement, Gesture))
    ensures r.0 == e.(scale := r.0.scale, rotation := r.0.rotation, centerX := r.0.centerX, centerY := r.0.centerY)
    ensures ElementOk(e) ==> ElementOk(r.0)
    ensures g.isScalingRotating ==> r.1 == g && r.0.centerX == e.centerX && r.0.centerY == e.centerY
    ensures g.isScalingRotating && g.useHandle ==>
              r.0 == ScaledRotated(e, g, trig.hypot(ps[0].x - e.centerX, ps[0].y - e.centerY),
                                   trig.atan2(ps[0].y - e.centerY, ps[0].x - e.centerX))
    ensures g.isScalingRotating && !g.useHandle && |ps| >= 2 ==>
              r.0 == ScaledRotated(e, g, trig.hypot(ps[1].x - ps[0].x, ps[1].y - ps[0].y),
                                   trig.atan2(ps[1].y - ps[0].y, ps[1].x - ps[0].x))
    ensures g.isScalingRotating && !g.useHandle && |ps| < 2 ==> r == (e, g)
    ensures !g.isScalingRotating && !(g.isDragging && FindPointerIndex(ps, g.activePointerId) != -1) ==> r == (e, g)
    ensures !g.isScalingRotating && g.isDragging ==>
              r.0.scale == e.scale && r.0.rotation == e.rotation
              && r.0.centerX - r.1.lastX == e.centerX - g.lastX
              && r.0.centerY - r.1.lastY == e.centerY - g.lastY
              && r.1 == g.(lastX := r.1.lastX, lastY := r.1.lastY)
    ensures !g.isScalingRotating && g.isDragging && FindPointerIndex(ps, g.activePointerId) != -1 ==>
              var k := FindPointerIndex(ps, g.activePointerId);
              r.1.lastX == ps[k].x && r.1.lastY == ps[k].y
  {
    if g.isScalingRotating then
      if g.useHandle then
        var dx, dy := ps[0].x - e.centerX, ps[0].y - e.centerY;
        (ScaledRotated(e, g, trig.hypot(dx, dy), trig.atan2(dy, dx)), g)
      else if |ps| >= 2 then
        var dx, dy := ps[1].x - ps[0].x, ps[1].y - ps[0].y;
        (ScaledRotated(e, g, trig.hypot(dx, dy), trig.atan2(dy, dx)), g)
      else (e, g)
    else if g.isDragging then
      var k := FindPointerIndex(ps, g.activePointerId);
      if k != -1 then
        var x, y := ps[k].x, ps[k].y;
        (e.(centerX := e.centerX + (x - g.lastX), centerY := e.centerY + (y - g.lastY)),
         g.(lastX := x, lastY := y))
      else (e, g)
    else (e, g)
  }

  /** UP or CANCEL ends every gesture and forgets the tracked pointer. */
  function EndStep(g: Gesture): (r: Gesture)
    ensures !r.isDragging && !r.isScalingRotating && !r.useHandle && r.activePointerId == -1
    ensures r == g.(isDragging := r.isDragging, isScalingRotating := r.isScalingRotating,
                    useHandle := r.useHandle, activePointerId := r.activePointerId)
  {
    g.(isDragging := false, isScalingRotating := false, useHandle := false, activePointerId := -1)
  }

  /** The whole transform handler: nothing happens without a selected box;
      otherwise only the selected box and the gesture state change, and the
      list invariant is kept. */
  function GestureStep(es: seq<TextElement>, sel: int, g: Gesture, ev: MotionEvent, trig: Trig)
    : (r: (seq<TextElement>, Gesture))
    ensures !(0 <= sel < |es|) ==> r == (es, g)
    ensures |r.0| == |es| && forall i :: 0 <= i < |es| && i != sel ==> r.0[i] == es[i]
    ensures 0 <= sel < |es| ==> r.0[sel].text == es[sel].text && r.0[sel].alpha == es[sel].alpha
    ensures StateOk(es, sel) ==> StateOk(r.0, sel)
    ensures ev.action in {Up, Cancel} ==> r.0 == es
    ensures 0 <= sel < |es| && ev.action in {Up, Cancel} ==> r.1 == EndStep(g)
  {
    if !(0 <= sel < |es|) then (es, g)
    else
      var e := es[sel];
      match ev.action
      case Down => (es, DownStep(e, g, ev.pointers[0], trig))
      case PointerDown => (es, PointerDownStep(e, g, ev.pointers, trig))
      case Move =>
        var m := MoveStep(e, g, ev.pointers, trig);
        var es' := es[sel := m.0];
        assert forall i :: 0 <= i < |es| && i != sel ==> es'[i] == es[i];
        (es', m.1)
      case Up => (es, EndStep(g))
      case Cancel => (es, EndStep(g))
      case _ => (es, g)
  }

  // ---------------------------------------------------------------------
  // The view

  class TextOverlayView {
    const density: real
    var width: nat
    var height: nat

    /** True in text mode: the view then takes every touch. */
    var isTextToolActive: bool
    /** True while exporting: no box is drawn as selected. */
    var suppressSelectionDrawing: bool

    var elements: seq<TextElement>
    var selectedIndex: int

    var isDragging: bool
    var isScalingRotating: bool
    var lastX: real
    var lastY: real
    var activePointerId: int
    var initialDist: real
    var initialAngle: real
    var initialScale: real
    var initialRotation: real
    var useHandleForScaleRotate: bool

    ghost predicate Valid()
      reads this`elements, this`selectedIndex
    {
      density > 0.0 && StateOk(elements, selectedIndex)
    }

    function GestureOf(): Gesture
      reads this`isDragging, this`isScalingRotating, this`useHandleForScaleRotate, this`lastX, this`lastY,
            this`activePointerId, this`initialDist, this`initialAngle, this`initialScale, this`initialRotation
    {
      Gesture(isDragging, isScalingRotating, useHandleForScaleRotate, lastX, lastY,
              activePointerId, initialDist, initialAngle, initialScale, initialRotation)
    }

    /** A fresh view of the given measured size: no boxes, nothing selected,
        no gesture. */
    constructor(density: real, width: nat, height: nat)
      requires density > 0.0
      ensures Valid()
      ensures this.density == density && this.width == width && this.height == height
      ensures elements == [] && selectedIndex == -1 && !isTextToolActive && !suppressSelectionDrawing
      ensures GestureOf() == Gesture(false, false, false, 0.0, 0.0, -1, 0.0, 0.0, 1.0, 0.0)
    {
      this.density := density;
      this.width := width;
      this.height := height;
      isTextToolActive := false;
      suppressSelectionDrawing := false;
      elements := [];
      selectedIndex := -1;
      isDragging := false;
      isScalingRotating := false;
      lastX := 0.0;
      lastY := 0.0;
      activePointerId := -1;
      initialDist := 0.0;
      initialAngle := 0.0;
      initialScale := 1.0;
      initialRotation := 0.0;
      useHandleForScaleRotate := false;
    }

    function GetSelectedElement(): (r: Option<TextElement>)
      reads this`elements, this`selectedIndex
      ensures r == SelectedOf(elements, selectedIndex)
    {
      if 0 <= selectedIndex < |elements| then Some(elements[selectedIndex]) else None
    }

    /** Selects the last box when the selection is not a valid index and
        there is a box; a valid selection is left alone. */
    method EnsureOneSelected() returns (r: Option<TextElement>)
      modifies this`selectedIndex
      ensures 0 <= old(selectedIndex) < |elements| ==> selectedIndex == old(selectedIndex)
      ensures !(0 <= old(selectedIndex) < |elements|) && |elements| > 0 ==> selectedIndex == |elements| - 1
      ensures !(0 <= old(selectedIndex) < |elements|) && |elements| == 0 ==> selectedIndex == old(selectedIndex)
      ensures r == SelectedOf(elements, selectedIndex)
      ensures |elements| > 0 ==> r.Some?
      ensures old(Valid()) ==> Valid()
    {
      if !(0 <= selectedIndex < |elements|) && |elements| > 0 {
        selectedIndex := |elements| - 1;
      }
      r := GetSelectedElement();
    }

    /** Appends a default-styled box below the centre (offset capped at a
        third of the height) and selects it. Before the first layout pass
        (zero width or height) the view only re-posts the call, reported as
        `deferred`. */
    method CreateNewTextElement(defaultText: string) returns (deferred: bool)
      requires density > 0.0
      modifies this`elements, this`selectedIndex
      ensures deferred <==> width == 0 || height == 0
      ensures deferred ==> elements == old(elements) && selectedIndex == old(selectedIndex)
      ensures !deferred ==>
                var c := CreationCentre(width, height, |old(elements)|, density);
                elements == old(elements) + [NewElement(defaultText, c.0, c.1)]
                && selectedIndex == |elements| - 1
      ensures old(Valid()) ==> Valid()
    {
      if width == 0 || height == 0 {
        return true;
      }
      var yOffset := |elements| as real * 40.0 * density;
      var cx := width as real / 2.0;
      var cy := height as real / 2.0 + Min(yOffset, height as real / 3.0);
      elements := elements + [NewElement(defaultText, cx, cy)];
      selectedIndex := |elements| - 1;
      return false;
    }

    /** Puts the text into a new box when there are none, otherwise into the
        selected box (selecting the last one first when needed). */
    method AddTextAtCenter(text: string) returns (deferred: bool)
      requires density > 0.0
      modifies this`elements, this`selectedIndex
      ensures old(|elements|) == 0 ==> (deferred <==> width == 0 || height == 0)
      ensures old(|elements|) == 0 && !deferred ==>
                var c := CreationCentre(width, height, 0, density);
                elements == [NewElement(text, c.0, c.1)] && selectedIndex == 0
      ensures old(|elements|) > 0 ==>
                !deferred && |elements| == old(|elements|) && 0 <= selectedIndex < |elements|
                && (0 <= old(selectedIndex) < old(|elements|) ==> selectedIndex == old(selectedIndex))
                && (!(0 <= old(selectedIndex) < old(|elements|)) ==> selectedIndex == |elements| - 1)
                && elements == old(elements)[selectedIndex := old(elements)[selectedIndex].(text := text)]
      ensures old(|elements|) == 0 && deferred ==> elements == old(elements) && selectedIndex == old(selectedIndex)
      ensures old(Valid()) ==> Valid()
    {
      if |elements| == 0 {
        deferred := CreateNewTextElement(text);
      } else {
        var _ := EnsureOneSelected();
        UpdateSelectedTextContent(text);
        deferred := false;
      }
    }

    /** Replaces the selected box's text; without a selection nothing changes. */
    method UpdateSelectedTextContent(newText: string)
      modifies this`elements
      ensures 0 <= selectedIndex < old(|elements|) ==>
                elements == old(elements)[selectedIndex := old(elements)[selectedIndex].(text := newText)]
      ensures !(0 <= selectedIndex < old(|elements|)) ==> elements == old(elements)
      ensures old(Valid()) ==> Valid()
    {
      if 0 <= selectedIndex < |elements| {
        elements := elements[selectedIndex := elements[selectedIndex].(text := newText)];
      }
    }

    /** The topmost box whose bounds hold the point, or -1. */
    method FindElementUnderPoint(x: real, y: real) returns (i: int)
      ensures i == TopmostContaining(BoundsOf(elements), x, y)
      ensures i == -1 <==> forall j :: 0 <= j < |elements| ==> !elements[j].bounds.Contains(x, y)
      ensures i >= 0 ==> i < |elements| && elements[i].bounds.Contains(x, y)
                         && forall j :: i < j < |elements| ==> !elements[j].bounds.Contains(x, y)
    {
      i := FindTopmost(BoundsOf(elements), x, y);
    }

    /** Typeface of the selected box, clamped to {0, 1, 2}. */
    method SetSelectedTypeface(index: int)
      modifies this`elements
      ensures 0 <= selectedIndex < old(|elements|) ==>
                elements == old(elements)[selectedIndex := old(elements)[selectedIndex].(typefaceIndex := ClampInt(index, 0, 2))]
      ensures !(0 <= selectedIndex < old(|elements|)) ==> elements == old(elements)
      ensures old(Valid()) ==> Valid()
    {
      if 0 <= selectedIndex < |elements| {
        elements := elements[selectedIndex := elements[selectedIndex].(typefaceIndex := ClampInt(index, 0, 2))];
      }
    }

    /** Text size of the selected box, clamped to [12, 36] sp. */
    method SetSelectedTextSize(sp: real)
      modifies this`elements
      ensures 0 <= selectedIndex < old(|elements|) ==>
                elements == old(elements)[selectedIndex := old(elements)[selectedIndex].(textSizeSp := Clamp(sp, 12.0, 36.0))]
      ensures !(0 <= selectedIndex < old(|elements|)) ==> elements == old(elements)
      ensures old(Valid()) ==> Valid()
    {
      if 0 <= selectedIndex < |elements| {
        elements := elements[selectedIndex := elements[selectedIndex].(textSizeSp := Clamp(sp, 12.0, 36.0))];
      }
    }

    /** Colour of the selected box, taken as given. */
    method SetSelectedTextColor(colorInt: int)
      modifies this`elements
      ensures 0 <= selectedIndex < old(|elements|) ==>
                elements == old(elements)[selectedIndex := old(elements)[selectedIndex].(textColor := colorInt)]
      ensures !(0 <= selectedIndex < old(|elements|)) ==> elements == old(elements)
      ensures old(Valid()) ==> Valid()
    {
      if 0 <= selectedIndex < |elements| {
        elements := elements[selectedIndex := elements[selectedIndex].(textColor := colorInt)];
      }
    }

    /** Opacity of the selected box from a percentage. */
    method SetSelectedTextAlpha(percent: int)
      modifies this`elements
      ensures 0 <= selectedIndex < old(|elements|) ==>
                elements == old(elements)[selectedIndex := old(elements)[selectedIndex].(alpha := AlphaFor(percent))]
      ensures !(0 <= selectedIndex < old(|elements|)) ==> elements == old(elements)
      ensures old(Valid()) ==> Valid()
    {
      if 0 <= selectedIndex < |elements| {
        var p := ClampInt(percent, 50, 100);
        var alpha := ClampInt(RoundToInt(p as real / 100.0 * 255.0), 128, 255);
        elements := elements[selectedIndex := elements[selectedIndex].(alpha := alpha)];
      }
    }

    method ClearSelection()
      modifies this`selectedIndex
      ensures selectedIndex == -1
      ensures old(Valid()) ==> Valid()
    {
      selectedIndex := -1;
    }

    function SnapshotState(): (s: TextStateSnapshot)
      reads this`elements, this`selectedIndex
      ensures s == Snapshot(elements, selectedIndex)
    {
      TextStateSnapshot(CopyAll(elements), selectedIndex)
    }

    /** Rebuilds the list from copies of the snapshot's boxes and clamps the
        snapshot's selection into the rebuilt list. */
    method RestoreState(s: TextStateSnapshot)
      modifies this`elements, this`selectedIndex
      ensures elements == RestoredElements(s) && selectedIndex == RestoredSelection(s)
      ensures density > 0.0 && AllOk(s.elementsCopy) ==> Valid()
    {
      elements := [];
      var i := 0;
      while i < |s.elementsCopy|
        invariant 0 <= i <= |s.elementsCopy|
        invariant |elements| == i && forall k :: 0 <= k < i ==> elements[k] == CopyOf(s.elementsCopy[k])
      {
        elements := elements + [CopyOf(s.elementsCopy[i])];
        i := i + 1;
      }
      assert elements == CopyAll(s.elementsCopy);
      selectedIndex := ClampInt(s.selectedIndex, -1, |elements| - 1);
      if AllOk(s.elementsCopy) {
        assert forall k :: 0 <= k < |elements| ==> SameValues(elements[k], s.elementsCopy[k]);
      }
    }

    /** The gesture detector's single tap; the flag reports whether the view
        asks its host for a new box. Always handled. */
    method OnSingleTapUp(x: real, y: real) returns (handled: bool, requestNewBox: bool)
      modifies this`elements, this`selectedIndex
      ensures handled
      ensures TapResult(elements, selectedIndex, requestNewBox) == SingleTap(old(elements), old(selectedIndex), x, y)
      ensures old(Valid()) ==> Valid()
    {
      handled := true;
      requestNewBox := false;
      var current := GetSelectedElement();
      if current.Some? {
        if current.value.plusBounds.Contains(x, y) {
          requestNewBox := true;
          return;
        }
        if current.value.deleteBounds.Contains(x, y) {
          var index := selectedIndex;
          if 0 <= index < |elements| {
            elements := elements[..index] + elements[index + 1..];
            selectedIndex := MaxInt(|elements| - 1, -1);
          }
          return;
        }
      }
      var tapped := FindElementUnderPoint(x, y);
      if tapped != -1 {
        selectedIndex := tapped;
        return;
      }
      selectedIndex := -1;
    }

    /** The gesture detector's double tap; when handled, the view asks its
        host to open the text editor for the newly selected box. */
    method OnDoubleTap(x: real, y: real) returns (handled: bool)
      modifies this`selectedIndex
      ensures (selectedIndex, handled) == DoubleTap(elements, old(selectedIndex), x, y)
      ensures old(Valid()) ==> Valid()
    {
      var tapped := FindElementUnderPoint(x, y);
      if tapped != -1 {
        selectedIndex := tapped;
        return true;
      }
      return false;
    }

    /** The drawing pass's update of the hit-test rectangles: every box gets
        the layout for its measured text size and its mapping; the selected box
        (unless selection drawing is suppressed) gets its hot-zones. */
    method LayoutElements(metrics: seq<(real, real)>, maps: seq<Mapping>)
      requires |metrics| == |elements| && |maps| == |elements|
      modifies this`elements
      ensures |elements| == old(|elements|)
      ensures forall i :: 0 <= i < |elements| ==>
                elements[i] == Layout(old(elements)[i], metrics[i].0, metrics[i].1,
                                      !suppressSelectionDrawing && i == selectedIndex, maps[i])
      ensures old(Valid()) ==> Valid()
    {
      ghost var before := elements;
      var i := 0;
      while i < |elements|
        invariant 0 <= i <= |elements| == |before|
        invariant forall k :: 0 <= k < i ==>
                    elements[k] == Layout(before[k], metrics[k].0, metrics[k].1,
                                          !suppressSelectionDrawing && k == selectedIndex, maps[k])
        invariant forall k :: i <= k < |elements| ==> elements[k] == before[k]
      {
        var e := LayoutOne(elements[i], metrics[i].0, metrics[i].1,
                           !suppressSelectionDrawing && i == selectedIndex, maps[i]);
        elements := elements[i := e];
        i := i + 1;
      }
      if StateOk(before, selectedIndex) {
        assert forall k :: 0 <= k < |elements| ==> SameValues(elements[k], before[k]) by {
          forall k | 0 <= k < |elements| ensures SameValues(elements[k], before[k]) {
            assert CopyOf(elements[k]) == CopyOf(before[k]);
          }
        }
      }
    }

    /** Touch handling: outside text mode every touch passes through;
        in text mode the transform handler runs (the tap detector then sees the
        same event) and the touch is consumed. */
    method OnTouchEvent(ev: MotionEvent, trig: Trig) returns (consumed: bool)
      modifies this`elements, this`isDragging, this`isScalingRotating, this`useHandleForScaleRotate,
               this`lastX, this`lastY, this`activePointerId, this`initialDist, this`initialAngle,
               this`initialScale, this`initialRotation
      ensures consumed == isTextToolActive
      ensures !isTextToolActive ==> elements == old(elements) && GestureOf() == old(GestureOf())
      ensures isTextToolActive ==>
                (elements, GestureOf()) == GestureStep(old(elements), selectedIndex, old(GestureOf()), ev, trig)
      ensures old(Valid()) ==> Valid()
    {
      if !isTextToolActive {
        return false;
      }
      HandleTextTransformGesture(ev, trig);
      return true;
    }

    /** Drag, handle scale/rotate and two-finger scale/rotate of the selected box. */
    method HandleTextTransformGesture(ev: MotionEvent, trig: Trig)
      modifies this`elements, this`isDragging, this`isScalingRotating, this`useHandleForScaleRotate,
               this`lastX, this`lastY, this`activePointerId, this`initialDist, this`initialAngle,
               this`initialScale, this`initialRotation
      ensures (elements, GestureOf()) == GestureStep(old(elements), selectedIndex, old(GestureOf()), ev, trig)
      ensures old(Valid()) ==> Valid()
    {
      if !(0 <= selectedIndex < |elements|) {
        return;
      }
      match ev.action {
        case Down => GestureDown(ev.pointers[0], trig);
        case PointerDown => GesturePointerDown(ev.pointers, trig);
        case Move => GestureMove(ev.pointers, trig);
        case Up => GestureEnd();
        case Cancel => GestureEnd();
        case _ =>
      }
    }

    method GestureDown(p: Pointer, trig: Trig)
      requires 0 <= selectedIndex < |elements|
      modifies this`isDragging, this`isScalingRotating, this`useHandleForScaleRotate,
               this`lastX, this`lastY, this`activePointerId, this`initialDist, this`initialAngle,
               this`initialScale, this`initialRotation
      ensures GestureOf() == DownStep(elements[selectedIndex], old(GestureOf()), p, trig)
    {
      var selected := elements[selectedIndex];
      if selected.rotateBounds.Contains(p.x, p.y) {
        isDragging := false;
        isScalingRotating := true;
        useHandleForScaleRotate := true;
        var dx := p.x - selected.centerX;
        var dy := p.y - selected.centerY;
        initialDist := trig.hypot(dx, dy);
        initialAngle := trig.atan2(dy, dx);
        initialScale := selected.scale;
        initialRotation := selected.rotation;
      } else {
        isDragging := true;
        isScalingRotating := false;
        useHandleForScaleRotate := false;
        activePointerId := p.id;
        lastX := p.x;
        lastY := p.y;
      }
    }

    method GesturePointerDown(ps: PointerList, trig: Trig)
      requires 0 <= selectedIndex < |elements|
      modifies this`isDragging, this`isScalingRotating, this`initialDist, this`initialAngle,
               this`initialScale, this`initialRotation
      ensures GestureOf() == PointerDownStep(elements[selectedIndex], old(GestureOf()), ps, trig)
    {
      if |ps| >= 2 && !useHandleForScaleRotate {
        var selected := elements[selectedIndex];
        isDragging := false;
        isScalingRotating := true;
        var dx := ps[1].x - ps[0].x;
        var dy := ps[1].y - ps[0].y;
        initialDist := trig.hypot(dx, dy);
        initialAngle := trig.atan2(dy, dx);
        initialScale := selected.scale;
        initialRotation := selected.rotation;
      }
    }

    method GestureMove(ps: PointerList, trig: Trig)
      requires 0 <= selectedIndex < |elements|
      modifies this`elements, this`lastX, this`lastY
      ensures var m := MoveStep(old(elements)[selectedIndex], old(GestureOf()), ps, trig);
              elements == old(elements)[selectedIndex := m.0] && GestureOf() == m.1
    {
      var selected := elements[selectedIndex];
      if isScalingRotating {
        if useHandleForScaleRotate {
          var dx := ps[0].x - selected.centerX;
          var dy := ps[0].y - selected.centerY;
          selected := ScaledRotated(selected, GestureOf(), trig.hypot(dx, dy), trig.atan2(dy, dx));
        } else if |ps| >= 2 {
          var dx := ps[1].x - ps[0].x;
          var dy := ps[1].y - ps[0].y;
          selected := ScaledRotated(selected, GestureOf(), trig.hypot(dx, dy), trig.atan2(dy, dx));
        }
      } else if isDragging {
        var index := FindPointerIndex(ps, activePointerId);
        if index != -1 {
          var x := ps[index].x;
          var y := ps[index].y;
          var dx := x - lastX;
          var dy := y - lastY;
          lastX := x;
          lastY := y;
          selected := selected.(centerX := selected.centerX + dx, centerY := selected.centerY + dy);
        }
      }
      elements := elements[selectedIndex := selected];
    }

    method GestureEnd()
      modifies this`isDragging, this`isScalingRotating, this`useHandleForScaleRotate, this`activePointerId
      ensures GestureOf() == EndStep(old(GestureOf()))
    {
      isDragging := false;
      isScalingRotating := false;
      useHandleForScaleRotate := false;
      activePointerId := -1;
    }
  }
}
