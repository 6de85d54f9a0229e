/** The pixel-diff metric: how many pixels differ by more than a per-channel tolerance. */
module PixelDiff {
  import opened PngFilters

  function Gap(x: int, y: int): nat {
    Abs(x - y)
  }

  /** Some channel of pixel i differs by more than the tolerance. */
  predicate Differs(a: seq<Byte>, b: seq<Byte>, t: real, i: nat)
    requires 4 * i + 4 <= |a| && 4 * i + 4 <= |b|
  {
    var o := 4 * i;
    || Gap(a[o], b[o]) as real > t || Gap(a[o + 1], b[o + 1]) as real > t
    || Gap(a[o + 2], b[o + 2]) as real > t || Gap(a[o + 3], b[o + 3]) as real > t
  }

  /** Differing pixels among the first n. */
  function Count(a: seq<Byte>, b: seq<Byte>, t: real, n: nat): nat
    requires 4 * n <= |a| && 4 * n <= |b|
  {
    if n == 0 then 0 else Count(a, b, t, n - 1) + if Differs(a, b, t, n - 1) then 1 else 0
  }

  method CountDiffering(a: seq<Byte>, b: seq<Byte>, t: real, total: nat) returns (diffPixels: nat)
    requires 4 * total <= |a| && 4 * total <= |b|
    ensures diffPixels == Count(a, b, t, total)
  {
    diffPixels := 0;
    for i := 0 to total
      invariant diffPixels == Count(a, b, t, i)
    {
      var off := i * 4;
      var dr, dg := Gap(a[off], b[off]), Gap(a[off + 1], b[off + 1]);
      var db, da := Gap(a[off + 2], b[off + 2]), Gap(a[off + 3], b[off + 3]);
      if dr as real > t || dg as real > t || db as real > t || da as real > t {
        diffPixels := diffPixels + 1;
      }
    }
  }

  lemma FractionBelow(d: real, n: real, threshold: real)
    requires n > 0.0
    ensures d / n < threshold <==> d < threshold * n
  {
  }

  /** The differing fraction is below the threshold; of no pixels at all it is not a number, and below nothing. */
  ghost predicate Below(diffPixels: nat, total: nat, threshold: real) {
    total > 0 && diffPixels as real < threshold * total as real
  }

  method Judge(diffPixels: nat, total: nat, threshold: real) returns (ok: bool)
    ensures ok <==> Below(diffPixels, total, threshold)
  {
    ok := total > 0 && diffPixels as real / total as real < threshold;
    if total > 0 {
      FractionBelow(diffPixels as real, total as real, threshold);
    }
  }

  datatype Verdict = SizeMismatch | Compared(ok: bool, diffPixels: nat, total: nat)

  /** The comparison of two decoded images. */
  method Compare(width: nat, height: nat, a: seq<Byte>, width': nat, height': nat, b: seq<Byte>,
                 t: real, threshold: real)
    returns (v: Verdict)
    requires |a| == 4 * (width * height) && |b| == 4 * (width' * height')
    ensures v.SizeMismatch? <==> (width, height) != (width', height')
    ensures v.Compared? ==>
              && v.total == width * height && v.diffPixels == Count(a, b, t, v.total)
              && (v.ok <==> Below(v.diffPixels, v.total, threshold))
  {
    if width != width' || height != height' {
      return SizeMismatch;
    }
    var total := width * height;
    var diffPixels := CountDiffering(a, b, t, total);
    var ok := Judge(diffPixels, total, threshold);
    v := Compared(ok, diffPixels, total);
  }

  /** Channel c of pixel i is off by more than the tolerance. */
  ghost predicate ChannelOff(a: seq<Byte>, b: seq<Byte>, t: real, i: nat, c: nat)
    requires 4 * i + 4 <= |a| && 4 * i + 4 <= |b| && c < 4
  {
    var x, y := a[4 * i + c] as real, b[4 * i + c] as real;
    x - y > t || y - x > t
  }

  /** A pixel counts as soon as one of its four channels is off. */
  lemma DiffersIff(a: seq<Byte>, b: seq<Byte>, t: real, i: nat)
    requires 4 * i + 4 <= |a| && 4 * i + 4 <= |b|
    ensures Differs(a, b, t, i) <==> PixelOff(a, b, t, i)
  {
    OffByMore(a[4 * i], b[4 * i], t);
    OffByMore(a[4 * i + 1], b[4 * i + 1], t);
    OffByMore(a[4 * i + 2], b[4 * i + 2], t);
    OffByMore(a[4 * i + 3], b[4 * i + 3], t);
    assert ChannelOff(a, b, t, i, 0) <==> Gap(a[4 * i], b[4 * i]) as real > t;
    assert ChannelOff(a, b, t, i, 1) <==> Gap(a[4 * i + 1], b[4 * i + 1]) as real > t;
    assert ChannelOff(a, b, t, i, 2) <==> Gap(a[4 * i + 2], b[4 * i + 2]) as real > t;
    assert ChannelOff(a, b, t, i, 3) <==> Gap(a[4 * i + 3], b[4 * i + 3]) as real > t;
  }

  /** Whichever of the two differences is not negative decides, for a negative tolerance too. */
  lemma OffByMore(x: int, y: int, t: real)
    ensures Gap(x, y) as real > t <==> x as real - y as real > t || y as real - x as real > t
  {
  }

  ghost predicate PixelOff(a: seq<Byte>, b: seq<Byte>, t: real, i: nat)
    requires 4 * i + 4 <= |a| && 4 * i + 4 <= |b|
  {
    exists c: nat :: c < 4 && ChannelOff(a, b, t, i, c)
  }

  ghost function PixelsOff(a: seq<Byte>, b: seq<Byte>, t: real, n: nat): set<nat>
    requires 4 * n <= |a| && 4 * n <= |b|
  {
    set i: nat | i < n && PixelOff(a, b, t, i)
  }

  lemma {:induction false} OneMoreOff(a: seq<Byte>, b: seq<Byte>, t: real, n: nat)
    requires n >= 1 && 4 * n <= |a| && 4 * n <= |b|
    ensures PixelsOff(a, b, t, n) == PixelsOff(a, b, t, n - 1) + if PixelOff(a, b, t, n - 1) then {n - 1} else {}
  {
    hide PixelOff;
  }

  /** The count is the number of pixels with a channel that is off. */
  lemma {:induction false} CountIsNumber(a: seq<Byte>, b: seq<Byte>, t: real, n: nat)
    requires 4 * n <= |a| && 4 * n <= |b|
    ensures Count(a, b, t, n) == |PixelsOff(a, b, t, n)|
  {
    if n > 0 {
      CountIsNumber(a, b, t, n - 1);
      DiffersIff(a, b, t, n - 1);
      OneMorePixel(a, b, t, n);
      OneMoreOff(a, b, t, n);
      assert n - 1 !in PixelsOff(a, b, t, n - 1);
      hide Count;
      hide Differs;
      hide PixelOff;
      hide PixelsOff;
    }
  }

  lemma {:induction false} CountBounded(a: seq<Byte>, b: seq<Byte>, t: real, n: nat)
    requires 4 * n <= |a| && 4 * n <= |b|
    ensures Count(a, b, t, n) <= n
  {
    if n > 0 {
      CountBounded(a, b, t, n - 1);
    }
  }

  lemma {:induction false} CountSymmetric(a: seq<Byte>, b: seq<Byte>, t: real, n: nat)
    requires 4 * n <= |a| && 4 * n <= |b|
    ensures Count(a, b, t, n) == Count(b, a, t, n)
  {
    if n > 0 {
      CountSymmetric(a, b, t, n - 1);
    }
  }

  /**
    Equal images have no differing pixel exactly when the tolerance is not negative
    (or there are no pixels): below zero every pixel counts.
   */
  lemma {:induction false} CountOfEqual(a: seq<Byte>, t: real, n: nat)
    requires 4 * n <= |a|
    ensures Count(a, a, t, n) == if t >= 0.0 then 0 else n
  {
    if n > 0 {
      CountOfEqual(a, t, n - 1);
    }
  }

  /** A larger tolerance never counts more pixels. */
  lemma {:induction false} CountAntitone(a: seq<Byte>, b: seq<Byte>, s: real, t: real, n: nat)
    requires 4 * n <= |a| && 4 * n <= |b| && s <= t
    ensures Count(a, b, t, n) <= Count(a, b, s, n)
  {
    if n > 0 {
      CountAntitone(a, b, s, t, n - 1);
    }
  }

  lemma {:induction false} OneMorePixel(a: seq<Byte>, b: seq<Byte>, t: real, n: nat)
    requires 0 < n && 4 * n <= |a| && 4 * n <= |b|
    ensures Count(a, b, t, n) == Count(a, b, t, n - 1) + if Differs(a, b, t, n - 1) then 1 else 0
  {
  }

  /** Triangle inequality; with s == t it bounds count(a, c, 2t) by count(a, b, t) + count(b, c, t). */
  lemma {:induction false} CountTriangle(a: seq<Byte>, b: seq<Byte>, c: seq<Byte>, s: real, t: real, n: nat)
    requires 4 * n <= |a| && 4 * n <= |b| && 4 * n <= |c|
    ensures Count(a, c, s + t, n) <= Count(a, b, s, n) + Count(b, c, t, n)
  {
    if n > 0 {
      OneMorePixel(a, b, s, n);
      OneMorePixel(b, c, t, n);
      CountTriangle(a, b, c, s, t, n - 1);
    }
  }
}
