// Thumbnail decoding for the photo grids: how far the decoder subsamples a
// photo, which centred square is cut out of it, and when it is rescaled.
// Reading the stream, the decoder itself, the cache and the worker threads
// are outside the model; their outcomes come in as parameters.

module Thumbnail {
  import opened Geometry

  // ---------------------------------------------------------------------
  // Subsampling

  predicate IsPowerOfTwo(n: int)
    decreases if n > 0 then n else 0
  {
    n == 1 || (n > 1 && n % 2 == 0 && IsPowerOfTwo(n / 2))
  }

  /** The loop condition of `calculateInSampleSize`: decoding at sample size
      `s` would still leave both halves of the source at least twice the
      requested size. The halves are non-negative for a real photo; for a
      negative size both the truncating and the flooring half are negative,
      so the condition is false either way. */
  predicate KeepHalving(srcWidth: int, srcHeight: int, reqWidth: int, reqHeight: int, s: int)
    requires s > 0
  {
    (srcHeight / 2) / s >= reqHeight * 2 && (srcWidth / 2) / s >= reqWidth * 2
  }

  lemma DivAtLeast(a: int, b: int, q: int)
    requires b > 0 && q >= 0 && a / b >= q
    ensures a >= q * b
  {
    assert a == (a / b) * b + a % b;
    assert (a / b) * b >= q * b;
  }

  /** While the condition holds at `s`, the source is at least four times `s`
      high, so doubling `s` is bounded. */
  lemma KeepHalvingBound(srcWidth: int, srcHeight: int, reqWidth: int, reqHeight: int, s: int)
    requires s > 0 && reqWidth > 0 && reqHeight > 0
    requires KeepHalving(srcWidth, srcHeight, reqWidth, reqHeight, s)
    ensures srcHeight / 2 >= 2 * s
  {
    DivAtLeast(srcHeight / 2, s, reqHeight * 2);
    MulLeft(s, 2, reqHeight * 2);
  }

  /** The sample size reached from `s` by doubling while the condition holds. */
  function SampleSizeFrom(srcWidth: int, srcHeight: int, reqWidth: int, reqHeight: int, s: int): int
    requires s > 0 && reqWidth > 0 && reqHeight > 0
    decreases srcHeight / 2 - s
  {
    if KeepHalving(srcWidth, srcHeight, reqWidth, reqHeight, s) then
      KeepHalvingBound(srcWidth, srcHeight, reqWidth, reqHeight, s);
      SampleSizeFrom(srcWidth, srcHeight, reqWidth, reqHeight, 2 * s)
    else s
  }

  /** The `inSampleSize` chosen for a source and a requested size: 1 when the
      source already fits, otherwise doubled while both halves stay at least
      twice the request. */
  function SampleSize(srcWidth: int, srcHeight: int, reqWidth: int, reqHeight: int): int
    requires reqWidth > 0 && reqHeight > 0
  {
    if srcHeight > reqHeight || srcWidth > reqWidth then SampleSizeFrom(srcWidth, srcHeight, reqWidth, reqHeight, 1)
    else 1
  }

  /** Doubling from a power of two `s` at which the condition held one step
      back (or `s` = 1) ends at a power of two where the condition fails,
      and it held one step before. */
  lemma {:induction false} SampleSizeFromSpec(srcWidth: int, srcHeight: int, reqWidth: int, reqHeight: int, s: int)
    requires s > 0 && reqWidth > 0 && reqHeight > 0 && IsPowerOfTwo(s)
    requires s > 1 ==> KeepHalving(srcWidth, srcHeight, reqWidth, reqHeight, s / 2)
    ensures var r := SampleSizeFrom(srcWidth, srcHeight, reqWidth, reqHeight, s);
            r >= s && IsPowerOfTwo(r) && !KeepHalving(srcWidth, srcHeight, reqWidth, reqHeight, r)
            && (r > 1 ==> KeepHalving(srcWidth, srcHeight, reqWidth, reqHeight, r / 2))
    decreases srcHeight / 2 - s
  {
    if KeepHalving(srcWidth, srcHeight, reqWidth, reqHeight, s) {
      KeepHalvingBound(srcWidth, srcHeight, reqWidth, reqHeight, s);
      assert (2 * s) / 2 == s;
      assert IsPowerOfTwo(2 * s);
      SampleSizeFromSpec(srcWidth, srcHeight, reqWidth, reqHeight, 2 * s);
    }
  }

  /** The sample size is a power of two; it is 1 when the source fits the
      request; otherwise decoding at it no longer leaves both halves twice
      the request, while decoding at half of it did. */
  lemma SampleSizeSpec(srcWidth: int, srcHeight: int, reqWidth: int, reqHeight: int)
    requires reqWidth > 0 && reqHeight > 0
    ensures var s := SampleSize(srcWidth, srcHeight, reqWidth, reqHeight);
            s >= 1 && IsPowerOfTwo(s)
            && (srcHeight <= reqHeight && srcWidth <= reqWidth ==> s == 1)
            && (srcHeight > reqHeight || srcWidth > reqWidth ==>
                  !KeepHalving(srcWidth, srcHeight, reqWidth, reqHeight, s)
                  && (s > 1 ==> KeepHalving(srcWidth, srcHeight, reqWidth, reqHeight, s / 2)))
  {
    if srcHeight > reqHeight || srcWidth > reqWidth {
      SampleSizeFromSpec(srcWidth, srcHeight, reqWidth, reqHeight, 1);
    }
  }

  /** Halving the decoded size can only shrink it: the condition, once
      false, stays false for larger sample sizes. */
  lemma KeepHalvingMonotone(srcWidth: int, srcHeight: int, reqWidth: int, reqHeight: int, s: int, t: int)
    requires 0 < s <= t && reqWidth > 0 && reqHeight > 0
    requires KeepHalving(srcWidth, srcHeight, reqWidth, reqHeight, t)
    ensures KeepHalving(srcWidth, srcHeight, reqWidth, reqHeight, s)
  {
    DivAtLeast(srcHeight / 2, t, reqHeight * 2);
    DivAtLeast(srcWidth / 2, t, reqWidth * 2);
    DivMonotone(srcHeight / 2, s, t);
    DivMonotone(srcWidth / 2, s, t);
  }

  lemma DivMonotone(a: int, s: int, t: int)
    requires 0 < s <= t && a >= 0
    ensures a / t <= a / s
  {
    var p := a / t;
    var q := a / s;
    MulLeft(p, s, t);
    assert p * t <= a;
    assert a < q * s + s;
    assert q * s + s == (q + 1) * s;
    MulLessCancel(p, q + 1, s);
  }

  lemma MulLeft(p: int, s: int, t: int)
    requires p >= 0 && s <= t
    ensures p * s <= p * t
  {
    assert p * t - p * s == p * (t - s);
  }

  lemma MulLessCancel(p: int, q: int, s: int)
    requires s > 0 && p * s < q * s
    ensures p < q
  {
    assert (q - p) * s > 0;
  }

  /** Any power of two meeting the exit property is the chosen sample size:
      the characterisation fixes it. */
  lemma SampleSizeUnique(srcWidth: int, srcHeight: int, reqWidth: int, reqHeight: int, s: int, t: int)
    requires reqWidth > 0 && reqHeight > 0
    requires s >= 1 && IsPowerOfTwo(s) && !KeepHalving(srcWidth, srcHeight, reqWidth, reqHeight, s)
    requires s > 1 ==> KeepHalving(srcWidth, srcHeight, reqWidth, reqHeight, s / 2)
    requires t >= 1 && IsPowerOfTwo(t) && !KeepHalving(srcWidth, srcHeight, reqWidth, reqHeight, t)
    requires t > 1 ==> KeepHalving(srcWidth, srcHeight, reqWidth, reqHeight, t / 2)
    ensures s == t
  {
    if s < t {
      ExitStaysExit(srcWidth, srcHeight, reqWidth, reqHeight, s, t);
    } else if t < s {
      ExitStaysExit(srcWidth, srcHeight, reqWidth, reqHeight, t, s);
    }
  }

  /** Once the condition fails at a power of two, it fails one step before
      every larger power of two too. */
  lemma ExitStaysExit(srcWidth: int, srcHeight: int, reqWidth: int, reqHeight: int, s: int, t: int)
    requires reqWidth > 0 && reqHeight > 0 && 1 <= s < t && IsPowerOfTwo(s) && IsPowerOfTwo(t)
    requires !KeepHalving(srcWidth, srcHeight, reqWidth, reqHeight, s)
    ensures !KeepHalving(srcWidth, srcHeight, reqWidth, reqHeight, t / 2)
  {
    PowerOfTwoHalf(s, t);
    if KeepHalving(srcWidth, srcHeight, reqWidth, reqHeight, t / 2) {
      KeepHalvingMonotone(srcWidth, srcHeight, reqWidth, reqHeight, s, t / 2);
    }
  }

  /** Between two powers of two, the larger is at least twice the smaller. */
  lemma {:induction false} PowerOfTwoHalf(s: int, t: int)
    requires IsPowerOfTwo(s) && IsPowerOfTwo(t) && 1 <= s < t
    ensures t > 1 && s <= t / 2
    decreases t
  {
    if s > 1 && t / 2 > 1 {
      PowerOfTwoHalf(s / 2, t / 2);
    } else if s > 1 {
      assert t / 2 == 1;
    }
  }

  /** `calculateInSampleSize` (the request must be positive: for a request of
      0 or less the 32-bit doubling of `inSampleSize` wraps to 0 and the
      division by it throws; the only caller passes a third of the screen
      width; a request of 2^30 px or more, where `reqHeight * 2` wraps in
      32 bits, is not modelled). */
  method CalculateInSampleSize(srcWidth: int, srcHeight: int, reqWidth: int, reqHeight: int) returns (inSampleSize: int)
    requires reqWidth > 0 && reqHeight > 0
    ensures inSampleSize == SampleSize(srcWidth, srcHeight, reqWidth, reqHeight)
  {
    inSampleSize := 1;
    if srcHeight > reqHeight || srcWidth > reqWidth {
      var halfHeight := srcHeight / 2;
      var halfWidth := srcWidth / 2;
      while halfHeight / inSampleSize >= reqHeight * 2 && halfWidth / inSampleSize >= reqWidth * 2
        invariant inSampleSize > 0
        invariant SampleSizeFrom(srcWidth, srcHeight, reqWidth, reqHeight, inSampleSize)
                  == SampleSizeFrom(srcWidth, srcHeight, reqWidth, reqHeight, 1)
        decreases halfHeight - inSampleSize
      {
        assert KeepHalving(srcWidth, srcHeight, reqWidth, reqHeight, inSampleSize);
        KeepHalvingBound(srcWidth, srcHeight, reqWidth, reqHeight, inSampleSize);
        inSampleSize := inSampleSize * 2;
      }
      assert !KeepHalving(srcWidth, srcHeight, reqWidth, reqHeight, inSampleSize);
    }
  }

  // ---------------------------------------------------------------------
  // Square crop

  /** What `centerCropSquare` does to a bitmap: hands back the source, or
      cuts out a `size` x `size` square at (x, y). */
  datatype SquareCut = SameBitmap | Cut(x: int, y: int, size: int)

  /** The centred square of a `width` x `height` bitmap: the bitmap itself
      when it is square, otherwise the largest square, centred along the
      longer side (an odd margin puts the extra pixel after it). */
  function CenterCropSquare(width: int, height: int): (r: SquareCut)
    requires width > 0 && height > 0
    ensures r.SameBitmap? <==> width == height
    ensures r.Cut? ==>
              r.size == MinInt(width, height) && r.size > 0
              && 0 <= r.x && r.x + r.size <= width && 0 <= r.y && r.y + r.size <= height
              && (r.x == 0 || r.y == 0)
              && 0 <= (width - r.size - r.x) - r.x <= 1 && 0 <= (height - r.size - r.y) - r.y <= 1
  {
    if width == height then SameBitmap
    else
      var size := MinInt(width, height);
      Cut((width - size) / 2, (height - size) / 2, size)
  }

  /** The side of the square the crop leaves. */
  function SquareSide(width: int, height: int): (side: int)
    requires width > 0 && height > 0
    ensures side == MinInt(width, height)
  {
    match CenterCropSquare(width, height)
    case SameBitmap => width
    case Cut(_, _, size) => size
  }

  // ---------------------------------------------------------------------
  // Decode, crop, scale

  /** How a thumbnail was made: the sample size it was decoded at, the crop,
      whether it was rescaled, and its side. */
  datatype Thumb = Thumb(sampleSize: int, cut: SquareCut, rescaled: bool, side: int)

  /** `decodeAndCropSquare`. `boundsRead` is false when reading the size
      threw; `srcWidth` x `srcHeight` is the size read; `decoded` is the size
      of the bitmap decoded at the chosen sample size, absent when the
      second read failed. No thumbnail comes out of a failed read or a
      non-positive size; otherwise the thumbnail is always `targetSizePx`
      square, rescaled only when the cut square is not that size already. */
  method DecodeAndCropSquare(boundsRead: bool, srcWidth: int, srcHeight: int, targetSizePx: int,
                             decoded: int -> Option<(int, int)>) returns (r: Option<Thumb>)
    requires targetSizePx > 0
    requires forall s :: decoded(s).Some? ==> decoded(s).value.0 > 0 && decoded(s).value.1 > 0
    ensures r.None? <==> !boundsRead || srcWidth <= 0 || srcHeight <= 0
                         || decoded(SampleSize(srcWidth, srcHeight, targetSizePx, targetSizePx)).None?
    ensures r.Some? ==>
              var s := SampleSize(srcWidth, srcHeight, targetSizePx, targetSizePx);
              var d := decoded(s).value;
              r.value.sampleSize == s && r.value.cut == CenterCropSquare(d.0, d.1)
              && (r.value.rescaled <==> SquareSide(d.0, d.1) != targetSizePx)
              && r.value.side == targetSizePx
  {
    if !boundsRead {
      return None;
    }
    if srcWidth <= 0 || srcHeight <= 0 {
      return None;
    }
    var sampleSize := CalculateInSampleSize(srcWidth, srcHeight, targetSizePx, targetSizePx);
    var d := decoded(sampleSize);
    if d.None? {
      return None;
    }
    var cut := CenterCropSquare(d.value.0, d.value.1);
    var side := SquareSide(d.value.0, d.value.1);
    if side == targetSizePx {
      return Some(Thumb(sampleSize, cut, false, side));
    }
    return Some(Thumb(sampleSize, cut, true, targetSizePx));
  }
}
