/** Value types and arithmetic shared by every editor view: the platform's
    floating-point rectangle, Kotlin's clamping and numeric conversions, and
    the "topmost element under a point" search that the overlay views run over
    their element lists. Coordinates are reals; the views' 32-bit floats are
    modelled without rounding. */
module Geometry {

  datatype Option<T> = None | Some(value: T)

  /** An axis-aligned rectangle with the platform rectangle's four edges. */
  datatype Rect = Rect(left: real, top: real, right: real, bottom: real) {

    function Width(): real { right - left }

    function Height(): real { bottom - top }

    function CenterX(): real { (left + right) / 2.0 }

    function CenterY(): real { (top + bottom) / 2.0 }

    /** The platform's emptiness test: no positive extent on some axis. */
    predicate IsEmpty() { left >= right || top >= bottom }

    /** The platform's containment test: half-open on the right and bottom
        edges, and false for every point of an empty rectangle. */
    predicate Contains(x: real, y: real) {
      left < right && top < bottom && left <= x < right && top <= y < bottom
    }

    function Offset(dx: real, dy: real): (r: Rect)
      ensures r.Width() == Width() && r.Height() == Height()
    {
      Rect(left + dx, top + dy, right + dx, bottom + dy)
    }

    /** True when the rectangle lies in [0, w] x [0, h]. */
    predicate InsideView(w: real, h: real) {
      0.0 <= left && right <= w && 0.0 <= top && bottom <= h
    }
  }

  /** The masked action of a motion event. */
  datatype Action = Down | Move | Up | Cancel | PointerDown | PointerUp | OtherAction

  /** What a single-pointer handler reads from a motion event: the masked
      action, the number of pointers, and the first pointer's position. */
  datatype TouchEvent = TouchEvent(action: Action, pointerCount: nat, x: real, y: real)

  /** One pointer of a motion event: its stable id and position. */
  datatype Pointer = Pointer(id: int, x: real, y: real)

  /** A motion event always carries at least one pointer. */
  type PointerList = ps: seq<Pointer> | |ps| >= 1 witness [Pointer(0, 0.0, 0.0)]

  /** What the multi-touch handlers read from a motion event: its masked action
      and its pointers in index order (`getX(i)`, `getPointerId(i)`). */
  datatype MotionEvent = MotionEvent(action: Action, pointers: PointerList)

  /** `findPointerIndex(id)`: the index of the pointer with that id, or -1. */
  function FindPointerIndex(ps: seq<Pointer>, id: int): (i: int)
    ensures -1 <= i < |ps|
    ensures i == -1 <==> forall j :: 0 <= j < |ps| ==> ps[j].id != id
    ensures i >= 0 ==> ps[i].id == id && forall j :: 0 <= j < i ==> ps[j].id != id
  {
    if |ps| == 0 then -1
    else if ps[0].id == id then 0
    else
      var k := FindPointerIndex(ps[1..], id);
      if k == -1 then -1 else k + 1
  }

  /** The platform's `hypot` and `atan2`, taken as given functions. */
  datatype Trig = Trig(hypot: (real, real) -> real, atan2: (real, real) -> real)

  /** `Math.PI.toFloat()` and `Math.PI`, written out exactly. */
  const PiFloat: real := 3.1415927410125732421875
  const PiDouble: real := 3.141592653589793115997963468544185161590576171875

  /** A gesture scale: the scale at the start of the gesture times the ratio of
      the current finger distance to the starting one, clamped to [lo, hi]. */
  function ScaleByDistance(initialScale: real, newDist: real, initialDist: real, lo: real, hi: real): (s: real)
    requires initialDist > 0.0 && lo <= hi
    ensures lo <= s <= hi
    ensures newDist == initialDist && lo <= initialScale <= hi ==> s == initialScale
  {
    Clamp(initialScale * (newDist / initialDist), lo, hi)
  }

  /** Where a dragged coordinate ends up when the finger, last seen at `last`,
      reports the positions `xs` one move event at a time: every event adds its
      delta from the previous position. */
  function Dragged(c: real, last: real, xs: seq<real>): real
    decreases |xs|
  {
    if |xs| == 0 then c else Dragged(c + (xs[0] - last), xs[0], xs[1..])
  }

  /** The deltas telescope: after any sequence of moves the element has moved
      exactly as far as the finger did. */
  lemma {:induction false} DraggedFollowsFinger(c: real, last: real, xs: seq<real>)
    ensures |xs| == 0 ==> Dragged(c, last, xs) == c
    ensures |xs| > 0 ==> Dragged(c, last, xs) == c + (xs[|xs| - 1] - last)
    decreases |xs|
  {
    if |xs| > 1 {
      DraggedFollowsFinger(c + (xs[0] - last), xs[0], xs[1..]);
    }
  }

  /** A local-to-screen point mapping (the platform matrix's `mapPoints`). */
  type Mapping = (real, real) -> (real, real)

  /** The corners of a rectangle in the order top-left, top-right,
      bottom-right, bottom-left, mapped and flattened to x/y pairs. */
  function Corners(m: Mapping, src: Rect): (pts: seq<real>)
    ensures |pts| == 8
  {
    var tl := m(src.left, src.top);
    var tr := m(src.right, src.top);
    var br := m(src.right, src.bottom);
    var bl := m(src.left, src.bottom);
    [tl.0, tl.1, tr.0, tr.1, br.0, br.1, bl.0, bl.1]
  }

  /** Point k of the corner list is the rectangle's k-th corner, clockwise
      from the top-left, through the mapping. */
  lemma CornersInClockwiseOrder(m: Mapping, src: Rect)
    ensures var pts := Corners(m, src);
            && (pts[0], pts[1]) == m(src.left, src.top) && (pts[2], pts[3]) == m(src.right, src.top)
            && (pts[4], pts[5]) == m(src.right, src.bottom) && (pts[6], pts[7]) == m(src.left, src.bottom)
  {
  }

  /** The rectangle the platform leaves behind after `setEmpty()`. */
  const EmptyRect := Rect(0.0, 0.0, 0.0, 0.0)

  /** The platform's in-place `intersect`: when the two rectangles overlap with
      positive area the receiver shrinks to the overlap, otherwise the call
      reports false and the receiver is left as it was. */
  function Intersect(a: Rect, b: Rect): (r: Option<Rect>)
    ensures r.None? <==> !(a.left < b.right && b.left < a.right && a.top < b.bottom && b.top < a.bottom)
    ensures r.Some? && !a.IsEmpty() && !b.IsEmpty() ==> !r.value.IsEmpty()
    ensures r.Some? && !b.IsEmpty() ==> r.value.left < b.right && r.value.top < b.bottom
    ensures r.Some? ==> (a.left <= r.value.left && r.value.right <= a.right &&
                         a.top <= r.value.top && r.value.bottom <= a.bottom)
    ensures r.Some? ==> (b.left <= r.value.left && r.value.right <= b.right &&
                         b.top <= r.value.top && r.value.bottom <= b.bottom)
  {
    if a.left < b.right && b.left < a.right && a.top < b.bottom && b.top < a.bottom then
      Some(Rect(Max(a.left, b.left), Max(a.top, b.top), Min(a.right, b.right), Min(a.bottom, b.bottom)))
    else
      None
  }

  function Min(a: real, b: real): real { if a <= b then a else b }

  function Max(a: real, b: real): real { if a >= b then a else b }

  function MinInt(a: int, b: int): int { if a <= b then a else b }

  function MaxInt(a: int, b: int): int { if a >= b then a else b }

  /** Kotlin's `coerceIn(lo, hi)` on floats; the library throws when lo > hi,
      which callers must rule out. */
  function Clamp(x: real, lo: real, hi: real): (r: real)
    requires lo <= hi
    ensures lo <= r <= hi
    ensures lo <= x <= hi ==> r == x
    ensures x < lo ==> r == lo
    ensures x > hi ==> r == hi
  {
    if x < lo then lo else if x > hi then hi else x
  }

  /** Kotlin's `coerceIn(lo, hi)` on integers. */
  function ClampInt(x: int, lo: int, hi: int): (r: int)
    requires lo <= hi
    ensures lo <= r <= hi
    ensures lo <= x <= hi ==> r == x
    ensures x < lo ==> r == lo
    ensures x > hi ==> r == hi
  {
    if x < lo then lo else if x > hi then hi else x
  }

  /** Float-to-Int conversion (`toInt()`): truncation toward zero. */
  function Trunc(x: real): (n: int)
    ensures x >= 0.0 ==> n >= 0 && n as real <= x < n as real + 1.0
    ensures x < 0.0 ==> n <= 0 && n as real - 1.0 < x <= n as real
  {
    if x >= 0.0 then x.Floor else -((-x).Floor)
  }

  /** Kotlin's float remainder `x % 360f`, used by both overlay views for
      rotation angles: the sign follows the dividend and the magnitude stays
      below 360. */
  function Rem360(x: real): (r: real)
    ensures -360.0 < r < 360.0
    ensures x >= 0.0 ==> 0.0 <= r
    ensures x <= 0.0 ==> r <= 0.0
    ensures -360.0 < x < 360.0 ==> r == x
    ensures WholeTurns(x - r)
  {
    x - Trunc(x / 360.0) as real * 360.0
  }

  /** An angle difference that is a whole number of turns. */
  predicate WholeTurns(d: real) {
    (d / 360.0).Floor as real * 360.0 == d
  }

  /** Whole turns are closed under sums and differences. */
  lemma WholeTurnsCombine(d1: real, d2: real)
    requires WholeTurns(d1) && WholeTurns(d2)
    ensures WholeTurns(d1 + d2) && WholeTurns(d1 - d2)
  {
    var k1, k2 := (d1 / 360.0).Floor, (d2 / 360.0).Floor;
    assert d1 == k1 as real * 360.0 && d2 == k2 as real * 360.0;
    var s, t := k1 + k2, k1 - k2;
    assert d1 + d2 == s as real * 360.0;
    assert d1 - d2 == t as real * 360.0;
    assert (d1 + d2) / 360.0 == s as real;
    assert (d1 - d2) / 360.0 == t as real;
    assert ((d1 + d2) / 360.0).Floor == s;
    assert ((d1 - d2) / 360.0).Floor == t;
  }

  /** The mutable list's `removeAt(i)`: everything after i shifts down. */
  function RemoveAt<T>(s: seq<T>, i: nat): (r: seq<T>)
    requires i < |s|
    ensures |r| == |s| - 1
    ensures forall j :: 0 <= j < i ==> r[j] == s[j]
    ensures forall j :: i <= j < |r| ==> r[j] == s[j + 1]
    ensures multiset(r) + multiset{s[i]} == multiset(s)
  {
    assert s == s[..i] + [s[i]] + s[i + 1..];
    s[..i] + s[i + 1..]
  }

  /** The mutable list's `add(i, x)`: x lands at i, the rest shifts up. */
  function InsertAt<T>(s: seq<T>, i: nat, x: T): (r: seq<T>)
    requires i <= |s|
    ensures |r| == |s| + 1 && r[i] == x
    ensures forall j :: 0 <= j < i ==> r[j] == s[j]
    ensures forall j :: i < j < |r| ==> r[j] == s[j - 1]
    ensures multiset(r) == multiset(s) + multiset{x}
  {
    assert s == s[..i] + s[i..];
    s[..i] + [x] + s[i..]
  }

  /** The index of the last (topmost) rectangle containing the point, or -1. */
  function TopmostContaining(rs: seq<Rect>, x: real, y: real): (i: int)
    ensures -1 <= i < |rs|
  {
    if |rs| == 0 then -1
    else if rs[|rs| - 1].Contains(x, y) then |rs| - 1
    else TopmostContaining(rs[..|rs| - 1], x, y)
  }

  /** TopmostContaining finds exactly the highest index whose rectangle holds the
      point, and says -1 exactly when none does. */
  lemma {:induction false} TopmostContainingSpec(rs: seq<Rect>, x: real, y: real)
    ensures var i := TopmostContaining(rs, x, y);
            (i == -1 <==> forall j :: 0 <= j < |rs| ==> !rs[j].Contains(x, y))
            && (i >= 0 ==> rs[i].Contains(x, y) && forall j :: i < j < |rs| ==> !rs[j].Contains(x, y))
  {
    if |rs| > 0 && !rs[|rs| - 1].Contains(x, y) {
      var p := rs[..|rs| - 1];
      TopmostContainingSpec(p, x, y);
      assert forall j :: 0 <= j < |p| ==> p[j] == rs[j];
    }
  }

  /** The reverse index loop the overlay views use for every hit test: scan from
      the top of the z-order down and report the first rectangle that holds
      the point, or -1 when none does. */
  method FindTopmost(rs: seq<Rect>, x: real, y: real) returns (i: int)
    ensures i == TopmostContaining(rs, x, y)
    ensures i == -1 <==> forall j :: 0 <= j < |rs| ==> !rs[j].Contains(x, y)
    ensures i >= 0 ==> i < |rs| && rs[i].Contains(x, y)
    ensures i >= 0 ==> forall j :: i < j < |rs| ==> !rs[j].Contains(x, y)
  {
    TopmostContainingSpec(rs, x, y);
    var k := |rs|;
    while k > 0
      invariant 0 <= k <= |rs|
      invariant forall j :: k <= j < |rs| ==> !rs[j].Contains(x, y)
    {
      k := k - 1;
      if rs[k].Contains(x, y) {
        return k;
      }
    }
    return -1;
  }

  /** Axis-aligned box of four mapped corner points given as an 8-element
      x/y array, computed the way the sticker view does it: nested min/max. */
  function BoxOfFourPoints(pts: seq<real>): (r: Rect)
    requires |pts| == 8
    ensures forall k :: 0 <= k < 4 ==> r.left <= pts[2 * k] <= r.right && r.top <= pts[2 * k + 1] <= r.bottom
    ensures exists k :: 0 <= k < 4 && r.left == pts[2 * k]
    ensures exists k :: 0 <= k < 4 && r.right == pts[2 * k]
    ensures exists k :: 0 <= k < 4 && r.top == pts[2 * k + 1]
    ensures exists k :: 0 <= k < 4 && r.bottom == pts[2 * k + 1]
  {
    var r := Rect(Min(Min(pts[0], pts[2]), Min(pts[4], pts[6])),
                  Min(Min(pts[1], pts[3]), Min(pts[5], pts[7])),
                  Max(Max(pts[0], pts[2]), Max(pts[4], pts[6])),
                  Max(Max(pts[1], pts[3]), Max(pts[5], pts[7])));
    assert r.left == pts[2 * 0] || r.left == pts[2 * 1] || r.left == pts[2 * 2] || r.left == pts[2 * 3];
    assert r.right == pts[2 * 0] || r.right == pts[2 * 1] || r.right == pts[2 * 2] || r.right == pts[2 * 3];
    assert r.top == pts[2 * 0 + 1] || r.top == pts[2 * 1 + 1] || r.top == pts[2 * 2 + 1] || r.top == pts[2 * 3 + 1];
    assert r.bottom == pts[2 * 0 + 1] || r.bottom == pts[2 * 1 + 1] || r.bottom == pts[2 * 2 + 1] || r.bottom == pts[2 * 3 + 1];
    r
  }
}
