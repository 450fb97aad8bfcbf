/**
 * The 32-bit pixel writer (TPixelIO32). A pixel at byte offset p occupies
 * bytes p .. p+3 as [pad, R, G, B]; the writer never touches the pad byte.
 * A pointer into the bitmap's buffer is modelled as the buffer and an offset.
 */
module PixelIO {
  import opened CSharpInt
  import opened ColorModel

  /** The bytes after one pixel is written at offset p. */
  function PutPixel(s: seq<byte>, p: int, c: RGBTriple): (t: seq<byte>)
    requires 0 <= p && p + 4 <= |s|
    ensures |t| == |s|
  {
    s[p + 1 := c.r][p + 2 := c.g][p + 3 := c.b]
  }

  /** The pixel stored at offset p. */
  function PixelAt(s: seq<byte>, p: int): RGBTriple
    requires 0 <= p && p + 4 <= |s|
  {
    RGBTriple(s[p + 1], s[p + 2], s[p + 3])
  }

  /** Channel k of a pixel, for the byte at distance k from the pixel's start. */
  function Channel(c: RGBTriple, k: int): byte
    requires 1 <= k <= 3
  {
    if k == 1 then c.r else if k == 2 then c.g else c.b
  }

  /** A run of n pixels from offset p lies inside a buffer of len bytes (an empty run always does). */
  predicate RunFits(len: int, p: int, n: int) {
    n <= 0 || (0 <= p && p + 4 * n <= len)
  }

  /** The bytes after a run of n pixels of colour c is written from offset p, one pixel after another. */
  function Painted(s: seq<byte>, p: int, n: int, c: RGBTriple): (t: seq<byte>)
    requires RunFits(|s|, p, n)
    ensures |t| == |s|
    decreases n
  {
    if n <= 0 then s else PutPixel(Painted(s, p, n - 1, c), p + 4 * (n - 1), c)
  }

  /** One more pixel extends a run by one PutPixel at its end. */
  lemma PaintedNext(s: seq<byte>, p: int, n: int, c: RGBTriple)
    requires n >= 0 && RunFits(|s|, p, n + 1)
    ensures Painted(s, p, n + 1, c) == PutPixel(Painted(s, p, n, c), p + 4 * n, c)
  {
  }

  /** A run of n + m pixels is a run of n pixels followed by a run of m pixels. */
  lemma {:induction false} PaintedSplit(s: seq<byte>, p: int, n: int, m: int, q: int, c: RGBTriple)
    requires n >= 0 && m >= 0 && RunFits(|s|, p, n + m) && q == p + 4 * n
    ensures RunFits(|s|, q, m)
    ensures Painted(s, p, n + m, c) == Painted(Painted(s, p, n, c), q, m, c)
    decreases m
  {
    if m > 0 {
      PaintedSplit(s, p, n, m - 1, q, c);
    }
  }

  /** Reading a pixel back gives what was written there. */
  lemma ReadAfterWrite(s: seq<byte>, p: int, c: RGBTriple)
    requires 0 <= p && p + 4 <= |s|
    ensures PixelAt(PutPixel(s, p, c), p) == c
    ensures PutPixel(s, p, c)[p] == s[p]
  {
  }

  /**
   * A run changes exactly bytes p+4k+1 .. p+4k+3 for 0 <= k < n, to R, G
   * and B; the pad bytes p+4k and every other byte keep their value. For
   * n <= 0 nothing changes.
   */
  lemma {:induction false} PaintedAt(s: seq<byte>, p: int, n: int, c: RGBTriple, i: int)
    requires RunFits(|s|, p, n) && 0 <= i < |s|
    ensures Painted(s, p, n, c)[i] ==
      if p <= i < p + 4 * n && (i - p) % 4 != 0 then Channel(c, (i - p) % 4) else s[i]
    decreases n
  {
    if n > 0 {
      var q := p + 4 * (n - 1);
      PaintedAt(s, p, n - 1, c, i);
      assert (i - p) % 4 == (i - q) % 4 by {
        assert i - p == (i - q) + 4 * (n - 1);
      }
    }
  }

  /** TPixelIO32: writes and reads 32-bit pixels. */
  class PixelIO32 {

    constructor () {}

    /**
     * WriteRep: fills count pixels with one colour, eight pixels per pass
     * of the first loop and the remaining count % 8 one at a time. For a
     * negative count both loops are skipped.
     */
    method WriteRep(target: array<byte>, p: int, count: int, value: RGBTriple)
      requires RunFits(target.Length, p, count)
      modifies target
      ensures target[..] == Painted(old(target[..]), p, count, value)
    {
      var longs := TruncDiv(count, 8);
      var singles := count - (longs * 8);
      // for a negative count both counters start at or below zero and neither loop runs
      assert count < 0 ==> longs <= 0 && singles <= 0;
      assert count >= 0 ==> 0 <= longs && 0 <= singles && PassPixels * longs + singles == count;
      ghost var s0 := target[..];
      var q := FillPasses(target, p, longs, value);
      FillSingles(target, q, singles, value);
      if count >= 0 {
        PaintedSplit(s0, p, PassPixels * longs, singles, q, value);
      }
    }

    /** WriteRep's first loop: longs passes of eight pixels; answers the offset after them. */
    method FillPasses(target: array<byte>, p: int, longs: int, value: RGBTriple) returns (q: int)
      requires RunFits(target.Length, p, PassPixels * longs)
      modifies target
      ensures longs > 0 ==> q == p + 4 * PassPixels * longs
      ensures longs > 0 ==> target[..] == Painted(old(target[..]), p, PassPixels * longs, value)
      ensures longs <= 0 ==> q == p && target[..] == old(target[..])
    {
      ghost var s0 := target[..];
      ghost var done := 0;
      var left := longs;
      q := p;
      while left > 0
        invariant longs <= 0 ==> left == longs && done == 0
        invariant longs > 0 ==> 0 <= left <= longs && done == PassPixels * (longs - left)
        invariant q == p + 4 * done
        invariant target[..] == Painted(s0, p, done, value)
        decreases left
      {
        WriteEight(target, q, value);
        PaintedSplit(s0, p, done, PassPixels, q, value);
        q := q + 4 * PassPixels;
        done := done + PassPixels;
        left := left - 1;
      }
    }

    /** WriteRep's second loop: singles pixels one at a time from offset q. */
    method FillSingles(target: array<byte>, q: int, singles: int, value: RGBTriple)
      requires RunFits(target.Length, q, singles)
      modifies target
      ensures target[..] == Painted(old(target[..]), q, singles, value)
    {
      ghost var s0 := target[..];
      ghost var done := 0;
      var left := singles;
      var r := q;
      while left > 0
        invariant singles <= 0 ==> left == singles && done == 0
        invariant singles > 0 ==> 0 <= left && 0 <= done && done + left == singles
        invariant r == q + 4 * done
        invariant target[..] == Painted(s0, q, done, value)
        decreases left
      {
        WriteTriple(target, r, value);
        PaintedNext(s0, q, done, value);
        r := r + 4;
        done := done + 1;
        left := left - 1;
      }
    }

    /** Pixels written by one pass of WriteRep's first loop. */
    const PassPixels: int := 8

    /** One pass of WriteRep's unrolled loop: eight consecutive pixels from offset q. */
    method WriteEight(target: array<byte>, q: int, value: RGBTriple)
      requires 0 <= q && q + 32 <= target.Length
      modifies target
      ensures target[..] == Painted(old(target[..]), q, PassPixels, value)
    {
      ghost var s0 := target[..];
      WriteFour(target, q, value);
      WriteFour(target, q + 16, value);
      PaintedSplit(s0, q, 4, 4, q + 16, value);
    }

    /** Half of a pass: four consecutive pixels from offset q. */
    method WriteFour(target: array<byte>, q: int, value: RGBTriple)
      requires 0 <= q && q + 16 <= target.Length
      modifies target
      ensures target[..] == Painted(old(target[..]), q, 4, value)
    {
      ghost var s0 := target[..];
      WriteTriple(target, q, value);
      PaintedNext(s0, q, 0, value);
      WriteTriple(target, q + 4, value);
      PaintedNext(s0, q, 1, value);
      WriteTriple(target, q + 8, value);
      PaintedNext(s0, q, 2, value);
      WriteTriple(target, q + 12, value);
      PaintedNext(s0, q, 3, value);
    }

    /** WriteTo(pTarget, R, G, B) */
    method WriteRGB(target: array<byte>, p: int, r: byte, g: byte, b: byte)
      requires 0 <= p && p + 4 <= target.Length
      modifies target
      ensures target[..] == PutPixel(old(target[..]), p, RGBTriple(r, g, b))
    {
      target[p + 1] := r;
      target[p + 2] := g;
      target[p + 3] := b;
    }

    /** WriteTo(pTarget, ref TRGBTriple) */
    method WriteTriple(target: array<byte>, p: int, value: RGBTriple)
      requires 0 <= p && p + 4 <= target.Length
      modifies target
      ensures target[..] == PutPixel(old(target[..]), p, value)
    {
      target[p + 1] := value.r;
      target[p + 2] := value.g;
      target[p + 3] := value.b;
    }

    /** WriteTo(pTarget, ref UInt32): unpacks the colour first. */
    method WriteColor(target: array<byte>, p: int, color: u32)
      requires 0 <= p && p + 4 <= target.Length
      modifies target
      ensures target[..] == PutPixel(old(target[..]), p, ColorToRGB(color))
    {
      var temp := ColorToRGB(color);
      target[p + 1] := temp.r;
      target[p + 2] := temp.g;
      target[p + 3] := temp.b;
    }

    /** ReadFrom */
    method ReadFrom(source: array<byte>, p: int) returns (raw: RGBTriple)
      requires 0 <= p && p + 4 <= source.Length
      ensures raw == PixelAt(source[..], p)
    {
      raw := RGBTriple(source[p + 1], source[p + 2], source[p + 3]);
    }
  }
}
