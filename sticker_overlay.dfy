/** The sticker overlay: an ordered list of bitmap stickers (a larger index is
    a higher layer) with one optional selection, layer reordering, undo
    snapshots, the drawing pass's hit-test rectangles, and the touch state
    machine: corner buttons (delete, duplicate, scale/rotate), dragging and
    two-finger scale/rotate. Bitmaps are shared handles; the platform matrix
    enters as a point mapping and `hypot` / `atan2` as given functions. */
module StickerOverlay {
  import opened Geometry

  /** A decoded bitmap as the overlay sees it: a handle and its pixel size. */
  datatype Bitmap = Bitmap(id: nat, width: int, height: int)

  /** One sticker: the shared bitmap, its placement, the rectangles the
      drawing pass recomputes for hit testing, and the four mapped corners
      (top-left, top-right, bottom-right, bottom-left as x/y pairs). */
  datatype StickerElement = StickerElement(
    bitmap: Bitmap,
    centerX: real,
    centerY: real,
    scale: real,
    rotation: real,
    bounds: Rect,
    deleteBounds: Rect,
    plusBounds: Rect,
    scaleBounds: Rect,
    cornerPoints: seq<real>)

  const ZeroCorners: seq<real> := [0.0, 0.0, 0.0, 0.0, 0.0, 0.0, 0.0, 0.0]

  /** A sticker with fresh (empty) runtime rectangles. */
  function NewSticker(b: Bitmap, cx: real, cy: real, scale: real, rotation: real): StickerElement {
    StickerElement(b, cx, cy, scale, rotation, EmptyRect, EmptyRect, EmptyRect, EmptyRect, ZeroCorners)
  }

  /** The ranges every sticker stays in: a bitmap with positive size, a scale
      in [0.2, 4] (placement gives [0.2, 2.5], gestures [0.3, 4]) and a
      rotation strictly between -360 and 360. */
  predicate StickerOk(s: StickerElement) {
    s.bitmap.width > 0 && s.bitmap.height > 0 && 0.2 <= s.scale <= 4.0 && -360.0 < s.rotation < 360.0
  }

  predicate AllOk(ss: seq<StickerElement>) {
    forall i :: 0 <= i < |ss| ==> StickerOk(ss[i])
  }

  predicate StateOk(ss: seq<StickerElement>, sel: int) {
    -1 <= sel < |ss| && AllOk(ss)
  }

  function BoundsOf(ss: seq<StickerElement>): (rs: seq<Rect>)
    ensures |rs| == |ss| && forall i :: 0 <= i < |ss| ==> rs[i] == ss[i].bounds
  {
    seq(|ss|, i requires 0 <= i < |ss| => ss[i].bounds)
  }

  function DeleteZones(ss: seq<StickerElement>): (rs: seq<Rect>)
    ensures |rs| == |ss| && forall i :: 0 <= i < |ss| ==> rs[i] == ss[i].deleteBounds
  {
    seq(|ss|, i requires 0 <= i < |ss| => ss[i].deleteBounds)
  }

  function PlusZones(ss: seq<StickerElement>): (rs: seq<Rect>)
    ensures |rs| == |ss| && forall i :: 0 <= i < |ss| ==> rs[i] == ss[i].plusBounds
  {
    seq(|ss|, i requires 0 <= i < |ss| => ss[i].plusBounds)
  }

  function ScaleZones(ss: seq<StickerElement>): (rs: seq<Rect>)
    ensures |rs| == |ss| && forall i :: 0 <= i < |ss| ==> rs[i] == ss[i].scaleBounds
  {
    seq(|ss|, i requires 0 <= i < |ss| => ss[i].scaleBounds)
  }

  // ---------------------------------------------------------------------
  // Placement

  /** The starting scale of a new sticker: its longer edge should be a
      quarter of the view's shorter side, within [0.2, 2.5]. */
  function InitialScale(viewW: nat, viewH: nat, bw: int, bh: int): (s: real)
    requires bw > 0 && bh > 0
    ensures 0.2 <= s <= 2.5
    ensures var target := MinInt(viewW, viewH) as real / 4.0;
            var edge := MaxInt(bw, bh) as real;
            0.2 * edge <= target <= 2.5 * edge ==> s * edge == target
    ensures var edge := MaxInt(bw, bh) as real;
            MinInt(viewW, viewH) as real / 4.0 < 0.2 * edge ==> s == 0.2
  {
    var targetMaxSize := MinInt(viewW, viewH) as real / 4.0;
    var maxBitmapEdge := MaxInt(bw, bh) as real;
    if maxBitmapEdge > 0.0 then
      DivBetween(targetMaxSize, maxBitmapEdge, 0.2, 2.5);
      Clamp(targetMaxSize / maxBitmapEdge, 0.2, 2.5)
    else 1.0
  }

  /** How a quotient by a positive number compares with a range. */
  lemma DivBetween(a: real, b: real, lo: real, hi: real)
    requires b > 0.0
    ensures a / b * b == a
    ensures a < lo * b ==> a / b < lo
    ensures lo * b <= a <= hi * b ==> lo <= a / b <= hi
  {
    var q := a / b;
    assert q * b == a;
    if a < lo * b {
      assert (q - lo) * b < 0.0;
    }
    if lo * b <= a {
      assert (q - lo) * b >= 0.0;
    }
    if a <= hi * b {
      assert (hi - q) * b >= 0.0;
    }
  }

  /** The duplicate a +1 press makes: same bitmap, scale and rotation, the
      centre moved by the offset on both axes. */
  function DuplicateOf(s: StickerElement, offset: real): (c: StickerElement)
    ensures c.bitmap == s.bitmap && c.scale == s.scale && c.rotation == s.rotation
    ensures c.centerX == s.centerX + offset && c.centerY == s.centerY + offset
    ensures StickerOk(s) ==> StickerOk(c)
  {
    NewSticker(s.bitmap, s.centerX + offset, s.centerY + offset, s.scale, s.rotation)
  }

  // ---------------------------------------------------------------------
  // Layers

  /** One layer up: the selected sticker swaps with the one above it. */
  function LayerUp(ss: seq<StickerElement>, idx: nat): (r: seq<StickerElement>)
    requires idx + 1 < |ss|
    ensures r == ss[idx := ss[idx + 1]][idx + 1 := ss[idx]]
    ensures multiset(r) == multiset(ss)
  {
    var e := ss[idx];
    var rest := RemoveAt(ss, idx);
    InsertAt(rest, idx + 1, e)
  }

  /** One layer down: the selected sticker swaps with the one below it. */
  function LayerDown(ss: seq<StickerElement>, idx: nat): (r: seq<StickerElement>)
    requires 0 < idx < |ss|
    ensures r == ss[idx := ss[idx - 1]][idx - 1 := ss[idx]]
    ensures multiset(r) == multiset(ss)
  {
    var e := ss[idx];
    var rest := RemoveAt(ss, idx);
    InsertAt(rest, idx - 1, e)
  }

  /** To the front: the sticker moves to the end and the others keep their
      relative order. */
  function ToFront(ss: seq<StickerElement>, idx: nat): (r: seq<StickerElement>)
    requires idx < |ss|
    ensures |r| == |ss| && r[|r| - 1] == ss[idx] && r[..|r| - 1] == RemoveAt(ss, idx)
    ensures multiset(r) == multiset(ss)
  {
    var e := ss[idx];
    RemoveAt(ss, idx) + [e]
  }

  /** To the back: the sticker moves to the start and the others keep their
      relative order. */
  function ToBack(ss: seq<StickerElement>, idx: nat): (r: seq<StickerElement>)
    requires idx < |ss|
    ensures |r| == |ss| && r[0] == ss[idx] && r[1..] == RemoveAt(ss, idx)
    ensures multiset(r) == multiset(ss)
  {
    var e := ss[idx];
    InsertAt(RemoveAt(ss, idx), 0, e)
  }

  /** Up then down is the identity, and so is down then up. */
  lemma LayerUpDownInverse(ss: seq<StickerElement>, idx: nat)
    requires idx + 1 < |ss|
    ensures LayerDown(LayerUp(ss, idx), idx + 1) == ss
  {
    var up := LayerUp(ss, idx);
    assert up[idx] == ss[idx + 1] && up[idx + 1] == ss[idx];
    var down := LayerDown(up, idx + 1);
    assert down == up[idx + 1 := ss[idx + 1]][idx := ss[idx]];
    assert down == ss;
  }

  // ---------------------------------------------------------------------
  // Snapshots

  datatype StickerStateSnapshot = StickerStateSnapshot(list: seq<StickerElement>, selectedIndex: int)

  /** The copy a snapshot keeps: the placement fields, the same bitmap handle,
      and fresh runtime rectangles. */
  function CopyOf(s: StickerElement): (c: StickerElement)
    ensures c.bitmap == s.bitmap && c.centerX == s.centerX && c.centerY == s.centerY
            && c.scale == s.scale && c.rotation == s.rotation
    ensures StickerOk(s) ==> StickerOk(c)
  {
    NewSticker(s.bitmap, s.centerX, s.centerY, s.scale, s.rotation)
  }

  function Snapshot(ss: seq<StickerElement>, sel: int): (snap: StickerStateSnapshot)
    ensures |snap.list| == |ss| && snap.selectedIndex == sel
    ensures forall i :: 0 <= i < |ss| ==> snap.list[i] == CopyOf(ss[i])
  {
    StickerStateSnapshot(seq(|ss|, i requires 0 <= i < |ss| => CopyOf(ss[i])), sel)
  }

  /** Snapshot then restore (which takes the list and the index as they are)
      gives back every sticker's bitmap and placement and the selection, so a
      valid state stays valid. */
  lemma SnapshotRestoreRoundTrip(ss: seq<StickerElement>, sel: int)
    requires StateOk(ss, sel)
    ensures var snap := Snapshot(ss, sel);
            |snap.list| == |ss| && snap.selectedIndex == sel && StateOk(snap.list, snap.selectedIndex)
            && forall i :: 0 <= i < |ss| ==> snap.list[i] == NewSticker(ss[i].bitmap, ss[i].centerX, ss[i].centerY, ss[i].scale, ss[i].rotation)
  {
    var snap := Snapshot(ss, sel);
    forall i | 0 <= i < |ss| ensures StickerOk(snap.list[i]) {
      assert snap.list[i] == CopyOf(ss[i]);
    }
  }

  // ---------------------------------------------------------------------
  // Drawing pass: hit-test rectangles

  /** A square button zone of half-size `half` around a corner point. */
  function HandleZone(cx: real, cy: real, half: real): (z: Rect)
    ensures z.CenterX() == cx && z.CenterY() == cy
    ensures half > 0.0 ==> z.Contains(cx, cy)
  {
    Rect(cx - half, cy - half, cx + half, cy + half)
  }

  /** What the drawing pass computes for one sticker as the code is written:
      a recycled bitmap is skipped; otherwise the bitmap's corners are mapped,
      the bounds become their axis-aligned box, and only a sticker drawn as
      selected gets its three button zones (delete at the top-right corner,
      +1 at the bottom-left, scale at the bottom-right). A sticker not drawn
      as selected keeps whatever zones it had. */
  function LayoutAsWritten(s: StickerElement, shown: bool, recycled: bool, m: Mapping, half: real): (r: StickerElement)
    ensures r.bitmap == s.bitmap && r.centerX == s.centerX && r.centerY == s.centerY
            && r.scale == s.scale && r.rotation == s.rotation
    ensures !shown ==> r.deleteBounds == s.deleteBounds && r.plusBounds == s.plusBounds && r.scaleBounds == s.scaleBounds
    ensures !recycled ==> |r.cornerPoints| == 8 && r.bounds == BoxOfFourPoints(r.cornerPoints)
    ensures !recycled ==> r.cornerPoints == Corners(m, Rect(0.0, 0.0, s.bitmap.width as real, s.bitmap.height as real))
    ensures shown && !recycled ==>
              r.deleteBounds == HandleZone(r.cornerPoints[2], r.cornerPoints[3], half)
              && r.scaleBounds == HandleZone(r.cornerPoints[4], r.cornerPoints[5], half)
              && r.plusBounds == HandleZone(r.cornerPoints[6], r.cornerPoints[7], half)
    ensures recycled ==> r == s
  {
    if recycled then s
    else
      var pts := Corners(m, Rect(0.0, 0.0, s.bitmap.width as real, s.bitmap.height as real));
      var laid := s.(cornerPoints := pts, bounds := BoxOfFourPoints(pts));
      if shown then
        laid.(deleteBounds := HandleZone(pts[2], pts[3], half),
              plusBounds := HandleZone(pts[6], pts[7], half),
              scaleBounds := HandleZone(pts[4], pts[5], half))
      else laid
  }

  /** The drawing pass with the evident intent, as the text overlay does it:
      a sticker that is not drawn as selected has its button zones cleared,
      so only visible buttons can be hit. */
  function Layout(s: StickerElement, shown: bool, recycled: bool, m: Mapping, half: real): (r: StickerElement)
    ensures r.bitmap == s.bitmap && r.centerX == s.centerX && r.centerY == s.centerY
            && r.scale == s.scale && r.rotation == s.rotation
    ensures !shown ==> r.deleteBounds == EmptyRect && r.plusBounds == EmptyRect && r.scaleBounds == EmptyRect
    ensures !recycled ==> |r.cornerPoints| == 8 && r.bounds == BoxOfFourPoints(r.cornerPoints)
    ensures shown ==> r == LayoutAsWritten(s, shown, recycled, m, half)
    ensures StickerOk(s) ==> StickerOk(r)
  {
    var r := LayoutAsWritten(s, shown, recycled, m, half);
    if shown then r else r.(deleteBounds := EmptyRect, plusBounds := EmptyRect, scaleBounds := EmptyRect)
  }

  /** Half the side of a button zone: 12 dp scaled by 2.2. */
  function HandleHalfSize(density: real): real {
    12.0 * density * 2.2
  }

  /** Which index a drawing pass shows as selected: the selection, but only
      while the tool is active and selection drawing is not suppressed. */
  function ShownIndex(sel: int, active: bool, suppress: bool): int {
    if active && !suppress then sel else -1
  }

  /** A whole drawing pass over the list. */
  function LayoutAll(ss: seq<StickerElement>, shownIndex: int, recycled: set<nat>, maps: seq<Mapping>, half: real)
    : (r: seq<StickerElement>)
    requires |maps| == |ss|
    ensures |r| == |ss|
    ensures forall i :: 0 <= i < |ss| ==> r[i] == Layout(ss[i], i == shownIndex, ss[i].bitmap.id in recycled, maps[i], half)
    ensures AllOk(ss) ==> AllOk(r)
  {
    seq(|ss|, i requires 0 <= i < |ss| => Layout(ss[i], i == shownIndex, ss[i].bitmap.id in recycled, maps[i], half))
  }

  /** After a corrected drawing pass, a button zone can only be hit on the
      sticker shown as selected. */
  lemma OnlyShownButtonsHit(ss: seq<StickerElement>, shownIndex: int, recycled: set<nat>, maps: seq<Mapping>,
                            half: real, x: real, y: real)
    requires |maps| == |ss|
    ensures var r := LayoutAll(ss, shownIndex, recycled, maps, half);
            TopmostContaining(DeleteZones(r), x, y) in {-1, shownIndex}
            && TopmostContaining(PlusZones(r), x, y) in {-1, shownIndex}
            && TopmostContaining(ScaleZones(r), x, y) in {-1, shownIndex}
  {
    var r := LayoutAll(ss, shownIndex, recycled, maps, half);
    TopmostContainingSpec(DeleteZones(r), x, y);
    TopmostContainingSpec(PlusZones(r), x, y);
    TopmostContainingSpec(ScaleZones(r), x, y);
  }

  // ---------------------------------------------------------------------
  // Touch state machine

  datatype HitArea = NoArea | BodyArea | DeleteArea | PlusArea | ScaleArea

  datatype Gesture = Gesture(
    isDragging: bool,
    isScalingRotating: bool,
    useSingleFinger: bool,
    lastX: real,
    lastY: real,
    activePointerId: int,
    initialDist: real,
    initialAngle: real,
    initialScale: real,
    initialRotation: real,
    hitArea: HitArea)

  datatype Touch = Touch(stickers: seq<StickerElement>, selectedIndex: int, gesture: Gesture)

  /** The rotation step in degrees (`Math.toDegrees` of the turned angle). */
  function AngleDelta(newAngle: real, initialAngle: real): real {
    (newAngle - initialAngle) * 180.0 / PiDouble
  }

  /** A scale/rotate move: the scale follows the distance ratio clamped to
      [0.3, 4] (only when the starting distance was positive); the rotation is
      the starting rotation plus the turned angle, reduced by the truncated
      remainder, so it keeps the sign of the sum and may be negative. */
  function ScaledRotated(s: StickerElement, g: Gesture, newDist: real, newAngle: real): (r: StickerElement)
    ensures r == s.(scale := r.scale, rotation := r.rotation)
    ensures g.initialDist > 0.0 ==> 0.3 <= r.scale <= 4.0
    ensures g.initialDist <= 0.0 ==> r.scale == s.scale
    ensures var turned := g.initialRotation + AngleDelta(newAngle, g.initialAngle);
            -360.0 < r.rotation < 360.0 && WholeTurns(turned - r.rotation)
            && (turned >= 0.0 ==> r.rotation >= 0.0) && (turned <= 0.0 ==> r.rotation <= 0.0)
    ensures StickerOk(s) ==> StickerOk(r)
  {
    var sc := if g.initialDist > 0.0 then ScaleByDistance(g.initialScale, newDist, g.initialDist, 0.3, 4.0) else s.scale;
    s.(scale := sc, rotation := Rem360(g.initialRotation + AngleDelta(newAngle, g.initialAngle)))
  }

  /** A quarter turn clockwise from an upright start leaves the sticker at -90
      degrees: the rotation is not normalised into [0, 360). */
  lemma RotationCanBeNegative(s: StickerElement, g: Gesture)
    requires g.initialRotation == 0.0 && g.initialAngle == 0.0 && g.initialDist <= 0.0
    ensures ScaledRotated(s, g, 0.0, -PiDouble / 2.0).rotation == -90.0
  {
    assert AngleDelta(-PiDouble / 2.0, 0.0) == -90.0;
  }

  /** The selection after the sticker at `del` is removed: it follows the
      same sticker, or becomes -1 when that sticker was the one removed. */
  function SelectionAfterDelete(sel: int, del: nat): (r: int)
    ensures sel == del ==> r == -1
    ensures sel > del ==> r == sel - 1
    ensures sel < del ==> r == sel
  {
    if sel == del then -1 else if sel > del then sel - 1 else sel
  }

  /** A press on a delete zone: that sticker goes, and the selection keeps
      following the sticker it was on (none if that was the one deleted). */
  function AfterDelete(ss: seq<StickerElement>, sel: int, del: nat): (r: (seq<StickerElement>, int))
    requires del < |ss|
    ensures |r.0| == |ss| - 1 && multiset(r.0) + multiset{ss[del]} == multiset(ss)
    ensures sel == del ==> r.1 == -1
    ensures 0 <= sel < |ss| && sel != del ==> 0 <= r.1 < |r.0| && r.0[r.1] == ss[sel]
    ensures StateOk(ss, sel) ==> StateOk(r.0, r.1)
  {
    var rest := RemoveAt(ss, del);
    var s := SelectionAfterDelete(sel, del);
    assert 0 <= sel < |ss| && sel != del ==> rest[s] == ss[sel];
    (rest, s)
  }

  /** A press on a +1 zone: a duplicate of that sticker, offset by 24 dp, goes
      on top and becomes the selection; the rest of the list is unchanged. */
  function AfterDuplicate(ss: seq<StickerElement>, plus: nat, density: real): (r: (seq<StickerElement>, int))
    requires plus < |ss|
    ensures |r.0| == |ss| + 1 && r.0[..|ss|] == ss && r.1 == |ss|
    ensures r.0[r.1] == DuplicateOf(ss[plus], 24.0 * density)
    ensures AllOk(ss) ==> StateOk(r.0, r.1)
  {
    (ss + [DuplicateOf(ss[plus], 24.0 * density)], |ss|)
  }

  /** A press on a scale zone starts a one-finger scale/rotate about the
      sticker's centre, remembering its scale and rotation; a drag flag left
      over from before stays as it was. */
  function BeginHandleScale(s: StickerElement, g: Gesture, p: Pointer, trig: Trig): (r: Gesture)
    ensures r.isScalingRotating && r.useSingleFinger && r.hitArea == ScaleArea && r.activePointerId == p.id
    ensures r.isDragging == g.isDragging && r.lastX == g.lastX && r.lastY == g.lastY
    ensures r.initialScale == s.scale && r.initialRotation == s.rotation
    ensures r.initialDist == trig.hypot(p.x - s.centerX, p.y - s.centerY)
    ensures r.initialAngle == trig.atan2(p.y - s.centerY, p.x - s.centerX)
  {
    var dx, dy := p.x - s.centerX, p.y - s.centerY;
    g.(initialDist := trig.hypot(dx, dy), initialAngle := trig.atan2(dy, dx),
       initialScale := s.scale, initialRotation := s.rotation,
       isScalingRotating := true, useSingleFinger := true,
       activePointerId := p.id, hitArea := ScaleArea)
  }

  /** A press on a sticker's body starts a drag tracked by that pointer; a
      scale flag left over from before stays as it was. */
  function BeginDrag(g: Gesture, p: Pointer): (r: Gesture)
    ensures r.isDragging && r.hitArea == BodyArea && r.activePointerId == p.id
    ensures r.lastX == p.x && r.lastY == p.y
    ensures r.isScalingRotating == g.isScalingRotating && r.useSingleFinger == g.useSingleFinger
    ensures r.initialDist == g.initialDist && r.initialScale == g.initialScale
  {
    g.(isDragging := true, lastX := p.x, lastY := p.y, activePointerId := p.id, hitArea := BodyArea)
  }

  /** DOWN. The first zone hit, in this order, decides: a delete zone, a +1
      zone, a scale zone, a sticker's body; otherwise only the hit area is
      reset. In each case the topmost sticker whose zone holds the point is
      the one acted on. */
  function DownStep(ss: seq<StickerElement>, sel: int, g: Gesture, p: Pointer, trig: Trig, density: real)
    : (r: Touch)
    ensures var del := TopmostContaining(DeleteZones(ss), p.x, p.y);
            del != -1 ==> (r.stickers, r.selectedIndex) == AfterDelete(ss, sel, del)
                          && r.gesture == g.(hitArea := DeleteArea)
    ensures var del, plus := TopmostContaining(DeleteZones(ss), p.x, p.y), TopmostContaining(PlusZones(ss), p.x, p.y);
            del == -1 && plus != -1 ==> (r.stickers, r.selectedIndex) == AfterDuplicate(ss, plus, density)
                                        && r.gesture == g.(hitArea := PlusArea)
    ensures var del, plus := TopmostContaining(DeleteZones(ss), p.x, p.y), TopmostContaining(PlusZones(ss), p.x, p.y);
            var sc := TopmostContaining(ScaleZones(ss), p.x, p.y);
            del == -1 && plus == -1 && sc != -1 ==> r == Touch(ss, sc, BeginHandleScale(ss[sc], g, p, trig))
    ensures var del, plus := TopmostContaining(DeleteZones(ss), p.x, p.y), TopmostContaining(PlusZones(ss), p.x, p.y);
            var sc, body := TopmostContaining(ScaleZones(ss), p.x, p.y), TopmostContaining(BoundsOf(ss), p.x, p.y);
            del == -1 && plus == -1 && sc == -1 ==>
              r == if body != -1 then Touch(ss, body, BeginDrag(g, p)) else Touch(ss, sel, g.(hitArea := NoArea))
    ensures StateOk(ss, sel) ==> StateOk(r.stickers, r.selectedIndex)
  {
    var del := TopmostContaining(DeleteZones(ss), p.x, p.y);
    if del != -1 then
      var d := AfterDelete(ss, sel, del);
      Touch(d.0, d.1, g.(hitArea := DeleteArea))
    else
      var plus := TopmostContaining(PlusZones(ss), p.x, p.y);
      if plus != -1 then
        var d := AfterDuplicate(ss, plus, density);
        Touch(d.0, d.1, g.(hitArea := PlusArea))
      else
        var sc := TopmostContaining(ScaleZones(ss), p.x, p.y);
        if sc != -1 then Touch(ss, sc, BeginHandleScale(ss[sc], g, p, trig))
        else
          var body := TopmostContaining(BoundsOf(ss), p.x, p.y);
          if body != -1 then Touch(ss, body, BeginDrag(g, p)) else Touch(ss, sel, g.(hitArea := NoArea))
  }

  /** A second pointer (exactly two down) with a valid selection starts a
      two-finger scale/rotate of the selected sticker. */
  function PointerDownStep(ss: seq<StickerElement>, sel: int, g: Gesture, ps: PointerList, trig: Trig): (r: Gesture)
    ensures |ps| == 2 && 0 <= sel < |ss| ==>
              !r.isDragging && r.isScalingRotating && !r.useSingleFinger
              && r.initialScale == ss[sel].scale && r.initialRotation == ss[sel].rotation
              && r.initialDist == trig.hypot(ps[1].x - ps[0].x, ps[1].y - ps[0].y)
              && r.lastX == g.lastX && r.lastY == g.lastY && r.activePointerId == g.activePointerId
              && r.hitArea == g.hitArea
    ensures !(|ps| == 2 && 0 <= sel < |ss|) ==> r == g
  {
    if |ps| == 2 && 0 <= sel < |ss| then
      var dx, dy := ps[1].x - ps[0].x, ps[1].y - ps[0].y;
      g.(isDragging := false, isScalingRotating := true, useSingleFinger := false,
         initialDist := trig.hypot(dx, dy), initialAngle := trig.atan2(dy, dx),
         initialScale := ss[sel].scale, initialRotation := ss[sel].rotation)
    else g
  }

  /** MOVE. A drag moves the selected sticker by the tracked pointer's delta
      (so it keeps its offset from the finger); a scale/rotate uses the tracked
      pointer against the centre, or the first two pointers. A drag takes
      precedence over a scale/rotate, and an untracked pointer changes
      nothing. Only the selected sticker changes. */
  function MoveStep(ss: seq<StickerElement>, sel: int, g: Gesture, ps: PointerList, trig: Trig)
    : (r: (seq<StickerElement>, Gesture))
    ensures |r.0| == |ss| && forall i :: 0 <= i < |ss| && i != sel ==> r.0[i] == ss[i]
    ensures !(0 <= sel < |ss|) ==> r == (ss, g)
    ensures 0 <= sel < |ss| && g.isDragging ==>
              r.0[sel].scale == ss[sel].scale && r.0[sel].rotation == ss[sel].rotation
              && r.0[sel].centerX - r.1.lastX == ss[sel].centerX - g.lastX
              && r.0[sel].centerY - r.1.lastY == ss[sel].centerY - g.lastY
              && r.1 == g.(lastX := r.1.lastX, lastY := r.1.lastY)
    ensures 0 <= sel < |ss| && g.isDragging ==>
              var k := FindPointerIndex(ps, g.activePointerId);
              (k == -1 ==> r == (ss, g)) && (k != -1 ==> r.1.lastX == ps[k].x && r.1.lastY == ps[k].y)
    ensures 0 <= sel < |ss| && !g.isDragging && !g.isScalingRotating ==> r == (ss, g)
    ensures 0 <= sel < |ss| && !g.isDragging && g.isScalingRotating
            && (if g.useSingleFinger then FindPointerIndex(ps, g.activePointerId) == -1 else |ps| < 2) ==>
              r == (ss, g)
    ensures 0 <= sel < |ss| && !g.isDragging ==>
              r.1 == g && r.0[sel].centerX == ss[sel].centerX && r.0[sel].centerY == ss[sel].centerY
    ensures 0 <= sel < |ss| && !g.isDragging && g.isScalingRotating && g.useSingleFinger
            && FindPointerIndex(ps, g.activePointerId) != -1 ==>
              var q := ps[FindPointerIndex(ps, g.activePointerId)];
              var s := ss[sel];
              r.0[sel] == ScaledRotated(s, g, trig.hypot(q.x - s.centerX, q.y - s.centerY),
                                        trig.atan2(q.y - s.centerY, q.x - s.centerX))
    ensures 0 <= sel < |ss| && !g.isDragging && g.isScalingRotating && !g.useSingleFinger && |ps| >= 2 ==>
              r.0[sel] == ScaledRotated(ss[sel], g, trig.hypot(ps[1].x - ps[0].x, ps[1].y - ps[0].y),
                                        trig.atan2(ps[1].y - ps[0].y, ps[1].x - ps[0].x))
    ensures StateOk(ss, sel) ==> StateOk(r.0, sel)
  {
    if 0 <= sel < |ss| && g.isDragging then
      var k := FindPointerIndex(ps, g.activePointerId);
      if k != -1 then
        var x, y := ps[k].x, ps[k].y;
        var s := ss[sel];
        (ss[sel := s.(centerX := s.centerX + (x - g.lastX), centerY := s.centerY + (y - g.lastY))],
         g.(lastX := x, lastY := y))
      else (ss, g)
    else if 0 <= sel < |ss| && g.isScalingRotating then
      var s := ss[sel];
      if g.useSingleFinger then
        var k := FindPointerIndex(ps, g.activePointerId);
        if k != -1 then
          var dx, dy := ps[k].x - s.centerX, ps[k].y - s.centerY;
          (ss[sel := ScaledRotated(s, g, trig.hypot(dx, dy), trig.atan2(dy, dx))], g)
        else (ss, g)
      else if |ps| >= 2 then
        var dx, dy := ps[1].x - ps[0].x, ps[1].y - ps[0].y;
        (ss[sel := ScaledRotated(s, g, trig.hypot(dx, dy), trig.atan2(dy, dx))], g)
      else (ss, g)
    else (ss, g)
  }

  /** UP or CANCEL ends every gesture. */
  function EndStep(g: Gesture): (r: Gesture)
    ensures !r.isDragging && !r.isScalingRotating && !r.useSingleFinger
    ensures r.activePointerId == -1 && r.hitArea == NoArea
    ensures r == g.(isDragging := r.isDragging, isScalingRotating := r.isScalingRotating,
                    useSingleFinger := r.useSingleFinger, activePointerId := r.activePointerId,
                    hitArea := r.hitArea)
  {
    g.(isDragging := false, isScalingRotating := false, useSingleFinger := false,
       activePointerId := -1, hitArea := NoArea)
  }

  /** One motion event while the tool is active. The list invariant is kept. */
  function TouchStep(ss: seq<StickerElement>, sel: int, g: Gesture, ev: MotionEvent, trig: Trig, density: real)
    : (r: Touch)
    ensures StateOk(ss, sel) ==> StateOk(r.stickers, r.selectedIndex)
    ensures ev.action !in {Down} ==> r.selectedIndex == sel
    ensures ev.action !in {Down, Move} ==> r.stickers == ss
  {
    match ev.action
    case Down => DownStep(ss, sel, g, ev.pointers[0], trig, density)
    case PointerDown => Touch(ss, sel, PointerDownStep(ss, sel, g, ev.pointers, trig))
    case Move =>
      var m := MoveStep(ss, sel, g, ev.pointers, trig);
      Touch(m.0, sel, m.1)
    case Up => Touch(ss, sel, EndStep(g))
    case Cancel => Touch(ss, sel, EndStep(g))
    case _ => Touch(ss, sel, g)
  }

  // ---------------------------------------------------------------------
  // Finding: stale button zones

  /** The two stickers of the stale-zone example: one at the origin and one
      500 units further along both axes, both 100 by 100 at scale 1. */
  function ExampleA(): StickerElement { NewSticker(Bitmap(1, 100, 100), 50.0, 50.0, 1.0, 0.0) }
  function ExampleB(): StickerElement { NewSticker(Bitmap(2, 100, 100), 550.0, 550.0, 1.0, 0.0) }
  function ExampleMapA(): Mapping { (x: real, y: real) => (x, y) }
  function ExampleMapB(): Mapping { (x: real, y: real) => (x + 500.0, y + 500.0) }
  const ExampleHalf := 26.4
  const ExampleGesture := Gesture(false, false, false, 0.0, 0.0, -1, 0.0, 0.0, 1.0, 0.0, NoArea)

  /** With the drawing pass as written, a sticker that was selected once and
      then deselected keeps its delete zone, and a DOWN there deletes it
      although its buttons are no longer drawn: sticker 0 is drawn selected,
      the selection moves to sticker 1, both are redrawn, and a press on
      sticker 0's old top-right corner removes sticker 0. */
  lemma StaleDeleteZoneRemovesHiddenSticker(trig: Trig)
    ensures var a2 := LayoutAsWritten(LayoutAsWritten(ExampleA(), true, false, ExampleMapA(), ExampleHalf),
                                      false, false, ExampleMapA(), ExampleHalf);
            var b2 := LayoutAsWritten(LayoutAsWritten(ExampleB(), false, false, ExampleMapB(), ExampleHalf),
                                      true, false, ExampleMapB(), ExampleHalf);
            var r := DownStep([a2, b2], 1, ExampleGesture, Pointer(0, 100.0, 0.0), trig, 1.0);
            r.stickers == [b2] && r.selectedIndex == 0
  {
    var a1 := LayoutAsWritten(ExampleA(), true, false, ExampleMapA(), ExampleHalf);
    assert a1.cornerPoints == [0.0, 0.0, 100.0, 0.0, 100.0, 100.0, 0.0, 100.0];
    var a2 := LayoutAsWritten(a1, false, false, ExampleMapA(), ExampleHalf);
    assert a2.deleteBounds == HandleZone(100.0, 0.0, ExampleHalf);
    var b2 := LayoutAsWritten(LayoutAsWritten(ExampleB(), false, false, ExampleMapB(), ExampleHalf),
                              true, false, ExampleMapB(), ExampleHalf);
    assert b2.cornerPoints == [500.0, 500.0, 600.0, 500.0, 600.0, 600.0, 500.0, 600.0];
    assert b2.deleteBounds == HandleZone(600.0, 500.0, ExampleHalf);
    assert DeleteZones([a2, b2]) == [a2.deleteBounds, b2.deleteBounds];
    assert TopmostContaining(DeleteZones([a2, b2]), 100.0, 0.0) == 0;
    assert RemoveAt([a2, b2], 0) == [b2];
  }

  /** The corrected drawing pass on the example: sticker 0 keeps its box but
      no button zones, and sticker 1's zones sit at its own corners. */
  lemma CorrectedExampleLayout()
    ensures var a2 := Layout(Layout(ExampleA(), true, false, ExampleMapA(), ExampleHalf),
                             false, false, ExampleMapA(), ExampleHalf);
            a2.bounds == Rect(0.0, 0.0, 100.0, 100.0)
            && a2.deleteBounds == EmptyRect && a2.plusBounds == EmptyRect && a2.scaleBounds == EmptyRect
    ensures var b2 := Layout(Layout(ExampleB(), false, false, ExampleMapB(), ExampleHalf),
                             true, false, ExampleMapB(), ExampleHalf);
            b2.bounds == Rect(500.0, 500.0, 600.0, 600.0)
            && b2.deleteBounds == HandleZone(600.0, 500.0, ExampleHalf)
            && b2.plusBounds == HandleZone(500.0, 600.0, ExampleHalf)
            && b2.scaleBounds == HandleZone(600.0, 600.0, ExampleHalf)
  {
    var a2 := Layout(Layout(ExampleA(), true, false, ExampleMapA(), ExampleHalf),
                     false, false, ExampleMapA(), ExampleHalf);
    assert a2.cornerPoints == [0.0, 0.0, 100.0, 0.0, 100.0, 100.0, 0.0, 100.0];
    var b2 := Layout(Layout(ExampleB(), false, false, ExampleMapB(), ExampleHalf),
                     true, false, ExampleMapB(), ExampleHalf);
    assert b2.cornerPoints == [500.0, 500.0, 600.0, 500.0, 600.0, 600.0, 500.0, 600.0];
  }

  /** A press at (100, 0) on two stickers laid out as the corrected pass lays
      out the example hits nothing. */
  lemma ExamplePressMisses(a2: StickerElement, b2: StickerElement, trig: Trig)
    requires a2.bounds == Rect(0.0, 0.0, 100.0, 100.0)
    requires a2.deleteBounds == EmptyRect && a2.plusBounds == EmptyRect && a2.scaleBounds == EmptyRect
    requires b2.bounds == Rect(500.0, 500.0, 600.0, 600.0)
    requires b2.deleteBounds == HandleZone(600.0, 500.0, ExampleHalf)
    requires b2.plusBounds == HandleZone(500.0, 600.0, ExampleHalf)
    requires b2.scaleBounds == HandleZone(600.0, 600.0, ExampleHalf)
    ensures var r := DownStep([a2, b2], 1, ExampleGesture, Pointer(0, 100.0, 0.0), trig, 1.0);
            r.stickers == [a2, b2] && r.selectedIndex == 1
  {
    assert DeleteZones([a2, b2]) == [EmptyRect, b2.deleteBounds];
    assert PlusZones([a2, b2]) == [EmptyRect, b2.plusBounds];
    assert ScaleZones([a2, b2]) == [EmptyRect, b2.scaleBounds];
    assert BoundsOf([a2, b2]) == [a2.bounds, b2.bounds];
    NoneContains([EmptyRect, b2.deleteBounds], 100.0, 0.0);
    NoneContains([EmptyRect, b2.plusBounds], 100.0, 0.0);
    NoneContains([EmptyRect, b2.scaleBounds], 100.0, 0.0);
    NoneContains([a2.bounds, b2.bounds], 100.0, 0.0);
  }

  /** Helper: a point in neither of two rectangles hits neither. */
  lemma NoneContains(rs: seq<Rect>, x: real, y: real)
    requires |rs| == 2 && !rs[0].Contains(x, y) && !rs[1].Contains(x, y)
    ensures TopmostContaining(rs, x, y) == -1
  {
    assert rs[..1][..0] == [];
  }

  /** The same sequence with the corrected drawing pass: the press at the old
      corner hits nothing and the list is unchanged. */
  lemma CorrectedLayoutLeavesHiddenStickerAlone(trig: Trig)
    ensures var a2 := Layout(Layout(ExampleA(), true, false, ExampleMapA(), ExampleHalf),
                             false, false, ExampleMapA(), ExampleHalf);
            var b2 := Layout(Layout(ExampleB(), false, false, ExampleMapB(), ExampleHalf),
                             true, false, ExampleMapB(), ExampleHalf);
            var r := DownStep([a2, b2], 1, ExampleGesture, Pointer(0, 100.0, 0.0), trig, 1.0);
            r.stickers == [a2, b2] && r.selectedIndex == 1
  {
    CorrectedExampleLayout();
    var a2 := Layout(Layout(ExampleA(), true, false, ExampleMapA(), ExampleHalf),
                     false, false, ExampleMapA(), ExampleHalf);
    var b2 := Layout(Layout(ExampleB(), false, false, ExampleMapB(), ExampleHalf),
                     true, false, ExampleMapB(), ExampleHalf);
    ExamplePressMisses(a2, b2, trig);
  }

  // ---------------------------------------------------------------------
  // The view

  class StickerOverlayView {
    const density: real
    var width: nat
    var height: nat

    var isStickerToolActive: bool
    var suppressSelectionDrawing: bool

    var stickers: seq<StickerElement>
    var selectedIndex: int

    var isDragging: bool
    var isScalingRotating: bool
    var useSingleFingerScaleRotate: bool
    var lastX: real
    var lastY: real
    var activePointerId: int
    var initialDist: real
    var initialAngle: real
    var initialScale: real
    var initialRotation: real
    var currentHitArea: HitArea

    ghost predicate Valid()
      reads this`stickers, this`selectedIndex
    {
      density > 0.0 && StateOk(stickers, selectedIndex)
    }

    function GestureOf(): Gesture
      reads this`isDragging, this`isScalingRotating, this`useSingleFingerScaleRotate, this`lastX, this`lastY,
            this`activePointerId, this`initialDist, this`initialAngle, this`initialScale, this`initialRotation,
            this`currentHitArea
    {
      Gesture(isDragging, isScalingRotating, useSingleFingerScaleRotate, lastX, lastY, activePointerId,
              initialDist, initialAngle, initialScale, initialRotation, currentHitArea)
    }

    constructor(density: real, width: nat, height: nat)
      requires density > 0.0
      ensures Valid()
      ensures this.density == density && this.width == width && this.height == height
      ensures stickers == [] && selectedIndex == -1 && !isStickerToolActive && !suppressSelectionDrawing
      ensures GestureOf() == Gesture(false, false, false, 0.0, 0.0, -1, 0.0, 0.0, 1.0, 0.0, NoArea)
    {
      this.density := density;
      this.width := width;
      this.height := height;
      isStickerToolActive := false;
      suppressSelectionDrawing := false;
      stickers := [];
      selectedIndex := -1;
      isDragging := false;
      isScalingRotating := false;
      useSingleFingerScaleRotate := false;
      lastX := 0.0;
      lastY := 0.0;
      activePointerId := -1;
      initialDist := 0.0;
      initialAngle := 0.0;
      initialScale := 1.0;
      initialRotation := 0.0;
      currentHitArea := NoArea;
    }

    method ClearSelection()
      modifies this`selectedIndex
      ensures selectedIndex == -1
      ensures old(Valid()) ==> Valid()
    {
      selectedIndex := -1;
    }

    /** Places a bitmap centred in the view at its starting scale and selects
        it. A bitmap without a positive size is ignored; before the first
        layout pass the call is only re-posted (`deferred`). */
    method AddSticker(b: Bitmap) returns (deferred: bool)
      modifies this`stickers, this`selectedIndex
      ensures b.width <= 0 || b.height <= 0 ==> !deferred && stickers == old(stickers) && selectedIndex == old(selectedIndex)
      ensures b.width > 0 && b.height > 0 ==> (deferred <==> width == 0 || height == 0)
      ensures deferred ==> stickers == old(stickers) && selectedIndex == old(selectedIndex)
      ensures b.width > 0 && b.height > 0 && !deferred ==>
                stickers == old(stickers) + [NewSticker(b, width as real / 2.0, height as real / 2.0,
                                                        InitialScale(width, height, b.width, b.height), 0.0)]
                && selectedIndex == |stickers| - 1
      ensures old(Valid()) ==> Valid()
    {
      if b.width <= 0 || b.height <= 0 {
        return false;
      }
      if width == 0 || height == 0 {
        return true;
      }
      var cx := width as real / 2.0;
      var cy := height as real / 2.0;
      var baseScale := InitialScale(width, height, b.width, b.height);
      stickers := stickers + [NewSticker(b, cx, cy, baseScale, 0.0)];
      selectedIndex := |stickers| - 1;
      return false;
    }

    method ClearAllStickers()
      modifies this`stickers, this`selectedIndex
      ensures stickers == [] && selectedIndex == -1
      ensures old(Valid()) ==> Valid()
    {
      stickers := [];
      selectedIndex := -1;
    }

    /** Removes exactly the selected sticker and clears the selection; without
        a selection nothing happens. */
    method DeleteSelected()
      modifies this`stickers, this`selectedIndex
      ensures 0 <= old(selectedIndex) < old(|stickers|) ==>
                stickers == RemoveAt(old(stickers), old(selectedIndex)) && selectedIndex == -1
      ensures !(0 <= old(selectedIndex) < old(|stickers|)) ==>
                stickers == old(stickers) && selectedIndex == old(selectedIndex)
      ensures old(Valid()) ==> Valid()
    {
      if 0 <= selectedIndex < |stickers| {
        stickers := stickers[..selectedIndex] + stickers[selectedIndex + 1..];
        selectedIndex := -1;
      }
    }

    method MoveSelectedUpOneLayer()
      modifies this`stickers, this`selectedIndex
      ensures 0 <= old(selectedIndex) < old(|stickers|) - 1 ==>
                stickers == LayerUp(old(stickers), old(selectedIndex)) && selectedIndex == old(selectedIndex) + 1
                && stickers[selectedIndex] == old(stickers[selectedIndex])
      ensures !(0 <= old(selectedIndex) < old(|stickers|) - 1) ==>
                stickers == old(stickers) && selectedIndex == old(selectedIndex)
      ensures old(Valid()) ==> Valid()
    {
      var idx := selectedIndex;
      if 0 <= idx < |stickers| - 1 {
        var e := stickers[idx];
        stickers := RemoveAt(stickers, idx);
        stickers := InsertAt(stickers, idx + 1, e);
        selectedIndex := idx + 1;
        ValidAfterPermutation(old(stickers), stickers);
      }
    }

    method MoveSelectedDownOneLayer()
      modifies this`stickers, this`selectedIndex
      ensures 1 <= old(selectedIndex) < old(|stickers|) ==>
                stickers == LayerDown(old(stickers), old(selectedIndex)) && selectedIndex == old(selectedIndex) - 1
                && stickers[selectedIndex] == old(stickers[selectedIndex])
      ensures !(1 <= old(selectedIndex) < old(|stickers|)) ==>
                stickers == old(stickers) && selectedIndex == old(selectedIndex)
      ensures old(Valid()) ==> Valid()
    {
      var idx := selectedIndex;
      if 1 <= idx < |stickers| {
        var e := stickers[idx];
        stickers := RemoveAt(stickers, idx);
        stickers := InsertAt(stickers, idx - 1, e);
        selectedIndex := idx - 1;
        ValidAfterPermutation(old(stickers), stickers);
      }
    }

    method BringSelectedToFront()
      modifies this`stickers, this`selectedIndex
      ensures 0 <= old(selectedIndex) < old(|stickers|) ==>
                stickers == ToFront(old(stickers), old(selectedIndex)) && selectedIndex == |stickers| - 1
                && stickers[selectedIndex] == old(stickers[selectedIndex])
      ensures !(0 <= old(selectedIndex) < old(|stickers|)) ==>
                stickers == old(stickers) && selectedIndex == old(selectedIndex)
      ensures old(Valid()) ==> Valid()
    {
      var idx := selectedIndex;
      if !(0 <= idx < |stickers|) {
        return;
      }
      var e := stickers[idx];
      stickers := RemoveAt(stickers, idx);
      stickers := stickers + [e];
      selectedIndex := |stickers| - 1;
      ValidAfterPermutation(old(stickers), stickers);
    }

    method SendSelectedToBack()
      modifies this`stickers, this`selectedIndex
      ensures 0 <= old(selectedIndex) < old(|stickers|) ==>
                stickers == ToBack(old(stickers), old(selectedIndex)) && selectedIndex == 0
                && stickers[selectedIndex] == old(stickers[selectedIndex])
      ensures !(0 <= old(selectedIndex) < old(|stickers|)) ==>
                stickers == old(stickers) && selectedIndex == old(selectedIndex)
      ensures old(Valid()) ==> Valid()
    {
      var idx := selectedIndex;
      if !(0 <= idx < |stickers|) {
        return;
      }
      var e := stickers[idx];
      stickers := RemoveAt(stickers, idx);
      stickers := InsertAt(stickers, 0, e);
      selectedIndex := 0;
      ValidAfterPermutation(old(stickers), stickers);
    }

    function SnapshotState(): (s: StickerStateSnapshot)
      reads this`stickers, this`selectedIndex
      ensures |s.list| == |stickers| && s.selectedIndex == selectedIndex
      ensures forall i :: 0 <= i < |stickers| ==> s.list[i] == CopyOf(stickers[i])
    {
      Snapshot(stickers, selectedIndex)
    }

    /** Takes the snapshot's list and index as they are; no clamping. */
    method RestoreState(s: StickerStateSnapshot)
      modifies this`stickers, this`selectedIndex
      ensures stickers == s.list && selectedIndex == s.selectedIndex
      ensures density > 0.0 && StateOk(s.list, s.selectedIndex) ==> Valid()
    {
      stickers := [];
      stickers := stickers + s.list;
      selectedIndex := s.selectedIndex;
    }

    /** The drawing pass's update of every sticker's corners, bounds and
        button zones (with non-shown stickers' zones cleared). */
    method LayoutStickers(maps: seq<Mapping>, recycled: set<nat>)
      requires |maps| == |stickers|
      modifies this`stickers
      ensures stickers == LayoutAll(old(stickers), ShownIndex(selectedIndex, isStickerToolActive, suppressSelectionDrawing),
                                    recycled, maps, HandleHalfSize(density))
      ensures old(Valid()) ==> Valid()
    {
      ghost var before := stickers;
      var half := HandleHalfSize(density);
      var shownIndex := ShownIndex(selectedIndex, isStickerToolActive, suppressSelectionDrawing);
      ghost var target := LayoutAll(before, shownIndex, recycled, maps, half);
      var i := 0;
      while i < |stickers|
        invariant 0 <= i <= |stickers| == |before|
        invariant forall k :: 0 <= k < i ==> stickers[k] == target[k]
        invariant forall k :: i <= k < |stickers| ==> stickers[k] == before[k]
      {
        var s := Layout(stickers[i], i == shownIndex, stickers[i].bitmap.id in recycled, maps[i], half);
        stickers := stickers[i := s];
        i := i + 1;
      }
      assert |stickers| == |target| && forall k :: 0 <= k < |stickers| ==> stickers[k] == target[k];
      assert stickers == target;
    }

    method FindStickerUnderPoint(x: real, y: real) returns (i: int)
      ensures i == TopmostContaining(BoundsOf(stickers), x, y)
    {
      i := FindTopmost(BoundsOf(stickers), x, y);
    }

    method HitDeleteHandle(x: real, y: real) returns (i: int)
      ensures i == TopmostContaining(DeleteZones(stickers), x, y)
    {
      i := FindTopmost(DeleteZones(stickers), x, y);
    }

    method HitPlusHandle(x: real, y: real) returns (i: int)
      ensures i == TopmostContaining(PlusZones(stickers), x, y)
    {
      i := FindTopmost(PlusZones(stickers), x, y);
    }

    method HitScaleHandle(x: real, y: real) returns (i: int)
      ensures i == TopmostContaining(ScaleZones(stickers), x, y)
    {
      i := FindTopmost(ScaleZones(stickers), x, y);
    }

    /** The tap detector: in sticker mode a tap on a sticker selects the
        topmost one there and is handled; a miss is not handled. */
    method OnSingleTapUp(x: real, y: real) returns (handled: bool)
      modifies this`selectedIndex
      ensures !isStickerToolActive ==> !handled && selectedIndex == old(selectedIndex)
      ensures isStickerToolActive ==>
                (handled <==> TopmostContaining(BoundsOf(stickers), x, y) != -1)
                && (handled ==> selectedIndex == TopmostContaining(BoundsOf(stickers), x, y))
                && (!handled ==> selectedIndex == old(selectedIndex))
      ensures old(Valid()) ==> Valid()
    {
      if !isStickerToolActive {
        return false;
      }
      var hit := FindStickerUnderPoint(x, y);
      if hit != -1 {
        selectedIndex := hit;
        return true;
      }
      return false;
    }

    /** Outside sticker mode touches pass through; in sticker mode every
        event is consumed and drives the state machine. */
    method OnTouchEvent(ev: MotionEvent, trig: Trig) returns (consumed: bool)
      modifies this`stickers, this`selectedIndex, this`isDragging, this`isScalingRotating,
               this`useSingleFingerScaleRotate, this`lastX, this`lastY, this`activePointerId,
               this`initialDist, this`initialAngle, this`initialScale, this`initialRotation, this`currentHitArea
      ensures consumed == isStickerToolActive
      ensures !isStickerToolActive ==>
                stickers == old(stickers) && selectedIndex == old(selectedIndex) && GestureOf() == old(GestureOf())
      ensures isStickerToolActive ==>
                Touch(stickers, selectedIndex, GestureOf())
                == TouchStep(old(stickers), old(selectedIndex), old(GestureOf()), ev, trig, density)
      ensures old(Valid()) ==> Valid()
    {
      if !isStickerToolActive {
        return false;
      }
      match ev.action {
        case Down => TouchDown(ev.pointers[0], trig);
        case PointerDown => TouchPointerDown(ev.pointers, trig);
        case Move => TouchMove(ev.pointers, trig);
        case Up => TouchEnd();
        case Cancel => TouchEnd();
        case _ =>
      }
      return true;
    }

    method TouchDown(p: Pointer, trig: Trig)
      modifies this`stickers, this`selectedIndex, this`isDragging, this`isScalingRotating,
               this`useSingleFingerScaleRotate, this`lastX, this`lastY, this`activePointerId,
               this`initialDist, this`initialAngle, this`initialScale, this`initialRotation, this`currentHitArea
      ensures Touch(stickers, selectedIndex, GestureOf())
              == DownStep(old(stickers), old(selectedIndex), old(GestureOf()), p, trig, density)
    {
      var delIdx := HitDeleteHandle(p.x, p.y);
      if delIdx != -1 {
        RemoveKeepingSelection(delIdx);
        currentHitArea := DeleteArea;
        return;
      }
      var plusIdx := HitPlusHandle(p.x, p.y);
      if plusIdx != -1 {
        AppendDuplicate(plusIdx);
        currentHitArea := PlusArea;
        return;
      }
      var scaleIdx := HitScaleHandle(p.x, p.y);
      if scaleIdx != -1 {
        StartHandleScale(scaleIdx, p, trig);
        return;
      }
      var bodyIdx := FindStickerUnderPoint(p.x, p.y);
      if bodyIdx != -1 {
        selectedIndex := bodyIdx;
        StartDrag(p);
        return;
      }
      currentHitArea := NoArea;
    }

    /** The delete button's removal: the selection follows its sticker. */
    method RemoveKeepingSelection(idx: nat)
      requires idx < |stickers|
      modifies this`stickers, this`selectedIndex
      ensures (stickers, selectedIndex) == AfterDelete(old(stickers), old(selectedIndex), idx)
    {
      stickers := RemoveAt(stickers, idx);
      if selectedIndex == idx {
        selectedIndex := -1;
      } else if selectedIndex > idx {
        selectedIndex := selectedIndex - 1;
      }
    }

    /** The +1 button's copy, placed on top and selected. */
    method AppendDuplicate(idx: nat)
      requires idx < |stickers|
      modifies this`stickers, this`selectedIndex
      ensures (stickers, selectedIndex) == AfterDuplicate(old(stickers), idx, density)
    {
      var base := stickers[idx];
      var offset := 24.0 * density;
      stickers := stickers + [NewSticker(base.bitmap, base.centerX + offset, base.centerY + offset, base.scale, base.rotation)];
      selectedIndex := |stickers| - 1;
    }

    method StartHandleScale(idx: nat, p: Pointer, trig: Trig)
      requires idx < |stickers|
      modifies this`selectedIndex, this`isScalingRotating, this`useSingleFingerScaleRotate, this`activePointerId,
               this`initialDist, this`initialAngle, this`initialScale, this`initialRotation, this`currentHitArea
      ensures selectedIndex == idx && GestureOf() == BeginHandleScale(stickers[idx], old(GestureOf()), p, trig)
    {
      var s := stickers[idx];
      var dx := p.x - s.centerX;
      var dy := p.y - s.centerY;
      var dist := trig.hypot(dx, dy);
      var angle := trig.atan2(dy, dx);
      selectedIndex := idx;
      initialDist := dist;
      initialAngle := angle;
      initialScale := s.scale;
      initialRotation := s.rotation;
      isScalingRotating := true;
      useSingleFingerScaleRotate := true;
      activePointerId := p.id;
      currentHitArea := ScaleArea;
    }

    method StartDrag(p: Pointer)
      modifies this`isDragging, this`lastX, this`lastY, this`activePointerId, this`currentHitArea
      ensures GestureOf() == BeginDrag(old(GestureOf()), p)
    {
      isDragging := true;
      lastX := p.x;
      lastY := p.y;
      activePointerId := p.id;
      currentHitArea := BodyArea;
    }

    method TouchPointerDown(ps: PointerList, trig: Trig)
      modifies this`isDragging, this`isScalingRotating, this`useSingleFingerScaleRotate,
               this`initialDist, this`initialAngle, this`initialScale, this`initialRotation
      ensures GestureOf() == PointerDownStep(stickers, selectedIndex, old(GestureOf()), ps, trig)
    {
      if |ps| == 2 && 0 <= selectedIndex < |stickers| {
        var dx := ps[1].x - ps[0].x;
        var dy := ps[1].y - ps[0].y;
        var dist := trig.hypot(dx, dy);
        var angle := trig.atan2(dy, dx);
        var s := stickers[selectedIndex];
        isDragging := false;
        isScalingRotating := true;
        useSingleFingerScaleRotate := false;
        initialDist := dist;
        initialAngle := angle;
        initialScale := s.scale;
        initialRotation := s.rotation;
      }
    }

    method TouchMove(ps: PointerList, trig: Trig)
      modifies this`stickers, this`lastX, this`lastY
      ensures (stickers, GestureOf()) == MoveStep(old(stickers), selectedIndex, old(GestureOf()), ps, trig)
    {
      if isDragging && 0 <= selectedIndex < |stickers| {
        var pointerIndex := FindPointerIndex(ps, activePointerId);
        if pointerIndex != -1 {
          var x := ps[pointerIndex].x;
          var y := ps[pointerIndex].y;
          var dx := x - lastX;
          var dy := y - lastY;
          var s := stickers[selectedIndex];
          stickers := stickers[selectedIndex := s.(centerX := s.centerX + dx, centerY := s.centerY + dy)];
          lastX := x;
          lastY := y;
        }
      } else if isScalingRotating && 0 <= selectedIndex < |stickers| {
        var s := stickers[selectedIndex];
        if useSingleFingerScaleRotate {
          var pointerIndex := FindPointerIndex(ps, activePointerId);
          if pointerIndex != -1 {
            var dx := ps[pointerIndex].x - s.centerX;
            var dy := ps[pointerIndex].y - s.centerY;
            stickers := stickers[selectedIndex := ScaledRotated(s, GestureOf(), trig.hypot(dx, dy), trig.atan2(dy, dx))];
          }
        } else if |ps| >= 2 {
          var dx := ps[1].x - ps[0].x;
          var dy := ps[1].y - ps[0].y;
          stickers := stickers[selectedIndex := ScaledRotated(s, GestureOf(), trig.hypot(dx, dy), trig.atan2(dy, dx))];
        }
      }
    }

    method TouchEnd()
      modifies this`isDragging, this`isScalingRotating, this`useSingleFingerScaleRotate,
               this`activePointerId, this`currentHitArea
      ensures GestureOf() == EndStep(old(GestureOf()))
    {
      isDragging := false;
      isScalingRotating := false;
      useSingleFingerScaleRotate := false;
      activePointerId := -1;
      currentHitArea := NoArea;
    }
  }

  /** A reordering keeps every sticker, so it keeps the list invariant. */
  lemma ValidAfterPermutation(a: seq<StickerElement>, b: seq<StickerElement>)
    requires multiset(a) == multiset(b)
    ensures AllOk(a) ==> AllOk(b)
    ensures |a| == |b|
  {
    assert |a| == |multiset(a)| == |multiset(b)| == |b|;
    if AllOk(a) {
      forall i | 0 <= i < |b| ensures StickerOk(b[i]) {
        assert b[i] in multiset(b);
        assert b[i] in multiset(a);
        var j :| 0 <= j < |a| && a[j] == b[i];
      }
    }
  }
}
