/**
 * What drawing does to a 32-bit bitmap, stated on values. A canvas is the
 * buffer's bytes and the pen cursor; a frame is the geometry a drawing call
 * reads (width, height, row stride and clip rectangle). Every drawing
 * primitive of TBitmap is specified as the list of points it passes to
 * SetPixel, folded over the canvas by Plots, or as a run of rows (Rows).
 */
module Raster {
  import opened ColorModel
  import opened Geometry
  import opened PixelIO

  datatype Canvas = Canvas(pixels: seq<byte>, cursor: Point)

  datatype Frame = Frame(width: int, height: int, stride: int, clip: Rect)

  /** Every pixel r contains lies in a width x height image. */
  predicate ClipWithin(r: Rect, width: int, height: int) {
    0 <= r.Left() && 0 <= r.Top() && r.Right() <= width && r.Bottom() <= height
  }

  /** A buffer of len bytes holds the frame's pixels, four bytes each, rows stride bytes apart. */
  predicate Fits(f: Frame, len: int) {
    f.width > 0 && f.height > 0 && f.stride == 4 * f.width && len == f.stride * f.height &&
    ClipWithin(f.clip, f.width, f.height)
  }

  predicate InImage(f: Frame, x: int, y: int) {
    0 <= x < f.width && 0 <= y < f.height
  }

  /** The byte offset of pixel (x, y): TBitmap.PixelOffset without its checks. */
  function Offset(f: Frame, x: int, y: int): int {
    y * f.stride + 4 * x
  }

  lemma {:induction false} MulMono(a: int, b: int, k: int)
    requires 0 <= a <= b && 0 <= k
    ensures a * k <= b * k
    decreases b - a
  {
    if a < b {
      MulMono(a, b - 1, k);
      assert (b - 1) * k + k == b * k;
    }
  }

  /** A pixel of the image lies wholly inside the buffer. */
  lemma OffsetInBuffer(f: Frame, len: int, x: int, y: int)
    requires Fits(f, len) && InImage(f, x, y)
    ensures 0 <= Offset(f, x, y) && Offset(f, x, y) + 4 <= len
  {
    MulMono(0, y, f.stride);
    MulMono(y + 1, f.height, f.stride);
    assert (y + 1) * f.stride == y * f.stride + f.stride;
  }

  /** Distinct pixels of the image have offsets at least one pixel apart. */
  lemma OffsetsApart(f: Frame, len: int, x: int, y: int, u: int, v: int)
    requires Fits(f, len) && InImage(f, x, y) && InImage(f, u, v) && (x, y) != (u, v)
    ensures Offset(f, x, y) + 4 <= Offset(f, u, v) || Offset(f, u, v) + 4 <= Offset(f, x, y)
  {
    if y < v {
      MulMono(y + 1, v, f.stride);
      assert (y + 1) * f.stride == y * f.stride + f.stride;
    } else if v < y {
      MulMono(v + 1, y, f.stride);
      assert (v + 1) * f.stride == v * f.stride + f.stride;
    }
  }

  /** The colour stored at pixel (x, y). */
  function PixelOf(s: seq<byte>, f: Frame, x: int, y: int): RGBTriple
    requires Fits(f, |s|) && InImage(f, x, y)
  {
    OffsetInBuffer(f, |s|, x, y);
    PixelAt(s, Offset(f, x, y))
  }

  /** The pad byte of pixel (x, y). */
  function PadOf(s: seq<byte>, f: Frame, x: int, y: int): byte
    requires Fits(f, |s|) && InImage(f, x, y)
  {
    OffsetInBuffer(f, |s|, x, y);
    s[Offset(f, x, y)]
  }

  /**
   * TBitmap.SetPixel on an allocated bitmap: a point inside the clip
   * rectangle is written and becomes the cursor; any other point changes
   * nothing.
   */
  function Plot(cv: Canvas, f: Frame, p: Point, c: RGBTriple): (r: Canvas)
    requires Fits(f, |cv.pixels|)
    ensures |r.pixels| == |cv.pixels|
  {
    if f.clip.Contains(p.x, p.y) then
      OffsetInBuffer(f, |cv.pixels|, p.x, p.y);
      Canvas(PutPixel(cv.pixels, Offset(f, p.x, p.y), c), p)
    else
      cv
  }

  /** SetPixel called on each point of pts in turn. */
  function Plots(cv: Canvas, f: Frame, pts: seq<Point>, c: RGBTriple): (r: Canvas)
    requires Fits(f, |cv.pixels|)
    ensures |r.pixels| == |cv.pixels|
    decreases |pts|
  {
    if |pts| == 0 then cv else Plots(Plot(cv, f, pts[0], c), f, pts[1..], c)
  }

  /**
   * SetPixel changes exactly the R, G and B bytes of the pixel it is given,
   * and only when the clip rectangle contains it; it then moves the cursor
   * there.
   */
  lemma PlotChangesOnlyItsPixel(cv: Canvas, f: Frame, p: Point, c: RGBTriple, i: int)
    requires Fits(f, |cv.pixels|) && 0 <= i < |cv.pixels|
    ensures Plot(cv, f, p, c).pixels[i] ==
      if f.clip.Contains(p.x, p.y) && Offset(f, p.x, p.y) < i < Offset(f, p.x, p.y) + 4
      then Channel(c, i - Offset(f, p.x, p.y)) else cv.pixels[i]
    ensures Plot(cv, f, p, c).cursor == if f.clip.Contains(p.x, p.y) then p else cv.cursor
  {
    if f.clip.Contains(p.x, p.y) {
      var o := Offset(f, p.x, p.y);
      OffsetInBuffer(f, |cv.pixels|, p.x, p.y);
      assert Plot(cv, f, p, c).pixels == PutPixel(cv.pixels, o, c);
    }
  }

  lemma PlotsSingle(cv: Canvas, f: Frame, p: Point, c: RGBTriple)
    requires Fits(f, |cv.pixels|)
    ensures Plots(cv, f, [p], c) == Plot(cv, f, p, c)
  {
    assert [p][1..] == [];
  }

  lemma PlotsCons(cv: Canvas, f: Frame, p: Point, s: seq<Point>, c: RGBTriple)
    requires Fits(f, |cv.pixels|)
    ensures Plots(cv, f, [p] + s, c) == Plots(Plot(cv, f, p, c), f, s, c)
  {
    assert ([p] + s)[1..] == s;
  }

  /** Plotting a + b is plotting a, then b. */
  lemma {:induction false} PlotsAppend(cv: Canvas, f: Frame, a: seq<Point>, b: seq<Point>, c: RGBTriple)
    requires Fits(f, |cv.pixels|)
    ensures Plots(cv, f, a + b, c) == Plots(Plots(cv, f, a, c), f, b, c)
    decreases |a|
  {
    if |a| == 0 {
      assert a + b == b;
    } else {
      assert (a + b)[1..] == a[1..] + b;
      PlotsAppend(Plot(cv, f, a[0], c), f, a[1..], b, c);
    }
  }

  /**
   * After plotting pts, a pixel has colour c exactly when it is one of the
   * points and the clip rectangle contains it; otherwise it keeps its old
   * colour. No pad byte changes.
   */
  lemma {:induction false} PlotsPixel(cv: Canvas, f: Frame, pts: seq<Point>, c: RGBTriple, x: int, y: int)
    requires Fits(f, |cv.pixels|) && InImage(f, x, y)
    ensures PixelOf(Plots(cv, f, pts, c).pixels, f, x, y) ==
      if Point(x, y) in pts && f.clip.Contains(x, y) then c else PixelOf(cv.pixels, f, x, y)
    ensures PadOf(Plots(cv, f, pts, c).pixels, f, x, y) == PadOf(cv.pixels, f, x, y)
    decreases |pts|
  {
    if |pts| > 0 {
      var p := pts[0];
      var next := Plot(cv, f, p, c);
      PlotsPixel(next, f, pts[1..], c, x, y);
      assert Point(x, y) in pts <==> Point(x, y) == p || Point(x, y) in pts[1..];
      if f.clip.Contains(p.x, p.y) {
        var o, q := Offset(f, x, y), Offset(f, p.x, p.y);
        OffsetInBuffer(f, |cv.pixels|, x, y);
        OffsetInBuffer(f, |cv.pixels|, p.x, p.y);
        assert next.pixels == PutPixel(cv.pixels, q, c);
        if p == Point(x, y) {
          assert PixelOf(next.pixels, f, x, y) == c;
        } else {
          OffsetsApart(f, |cv.pixels|, x, y, p.x, p.y);
          assert PixelOf(next.pixels, f, x, y) == PixelOf(cv.pixels, f, x, y);
        }
        assert PadOf(next.pixels, f, x, y) == PadOf(cv.pixels, f, x, y);
      }
    }
  }

  /**
   * The cursor after plotting pts is the old cursor or a plotted point the
   * clip rectangle contains; when the last point is inside the clip it is
   * that point.
   */
  lemma {:induction false} PlotsCursor(cv: Canvas, f: Frame, pts: seq<Point>, c: RGBTriple)
    requires Fits(f, |cv.pixels|)
    ensures var q := Plots(cv, f, pts, c).cursor;
      q == cv.cursor || (q in pts && f.clip.Contains(q.x, q.y))
    ensures |pts| > 0 && f.clip.Contains(pts[|pts| - 1].x, pts[|pts| - 1].y) ==>
      Plots(cv, f, pts, c).cursor == pts[|pts| - 1]
    decreases |pts|
  {
    if |pts| > 0 {
      PlotsCursor(Plot(cv, f, pts[0], c), f, pts[1..], c);
      if |pts| > 1 {
        assert pts[1..][|pts[1..]| - 1] == pts[|pts| - 1];
      }
    }
  }

  /** Every row a fill writes lies inside a buffer of len bytes. */
  predicate RowsFit(len: int, stride: int, area: Rect, k: int)
    decreases k
  {
    k <= 0 ||
    (RowsFit(len, stride, area, k - 1) &&
     RunFits(len, (area.Top() + k - 1) * stride + 4 * area.Left(), area.width))
  }

  /**
   * The first k rows of area painted with c, one WriteRep per row, each
   * starting at column area.Left() and running area.width pixels.
   */
  function Rows(s: seq<byte>, stride: int, area: Rect, k: int, c: RGBTriple): (t: seq<byte>)
    requires RowsFit(|s|, stride, area, k)
    ensures |t| == |s|
    decreases k
  {
    if k <= 0 then s
    else Painted(Rows(s, stride, area, k - 1, c), (area.Top() + k - 1) * stride + 4 * area.Left(), area.width, c)
  }

  /** The rows of an area inside the image fit the buffer. */
  lemma {:induction false} AreaRowsFit(f: Frame, len: int, area: Rect, k: int)
    requires Fits(f, len)
    requires area.width > 0 ==> 0 <= area.Left() && area.Right() <= f.width
    requires k <= 0 || (0 <= area.Top() && area.Top() + k <= f.height)
    ensures RowsFit(len, f.stride, area, k)
    decreases k
  {
    if k > 0 {
      AreaRowsFit(f, len, area, k - 1);
      if area.width > 0 {
        OffsetInBuffer(f, len, area.Left(), area.Top() + k - 1);
        OffsetInBuffer(f, len, area.Right() - 1, area.Top() + k - 1);
      }
    }
  }

  /**
   * One row painted from column left for n pixels, inside the image: pixel
   * (x, y) has colour c exactly when it lies on that row between left and
   * left + n; pad bytes keep their value.
   */
  lemma PaintedRowPixel(s: seq<byte>, f: Frame, row: int, left: int, n: int, c: RGBTriple, x: int, y: int)
    requires Fits(f, |s|) && InImage(f, x, y) && 0 <= row < f.height
    requires n > 0 && 0 <= left && left + n <= f.width
    requires RunFits(|s|, row * f.stride + 4 * left, n)
    ensures PixelOf(Painted(s, row * f.stride + 4 * left, n, c), f, x, y) ==
      if y == row && left <= x < left + n then c else PixelOf(s, f, x, y)
    ensures PadOf(Painted(s, row * f.stride + 4 * left, n, c), f, x, y) == PadOf(s, f, x, y)
  {
    var start := row * f.stride + 4 * left;
    var o := Offset(f, x, y);
    OffsetInBuffer(f, |s|, x, y);
    PaintedAt(s, start, n, c, o);
    PaintedAt(s, start, n, c, o + 1);
    PaintedAt(s, start, n, c, o + 2);
    PaintedAt(s, start, n, c, o + 3);
    if y == row {
      var d := x - left;
      assert o - start == 4 * d;
      if 0 <= d < n {
        ModFour(d, 0);
        ModFour(d, 1);
        ModFour(d, 2);
        ModFour(d, 3);
      }
    } else {
      RowsApart(f, row, y);
    }
  }

  lemma MulSucc(a: int, b: int)
    ensures (a + 1) * b == a * b + b
  {
  }

  lemma ModFour(q: int, j: int)
    requires 0 <= j < 4
    ensures (4 * q + j) % 4 == j
  {
  }

  /** Different rows of the image do not share a byte. */
  lemma RowsApart(f: Frame, row: int, y: int)
    requires f.stride >= 0 && 0 <= row && 0 <= y && row != y
    ensures y < row ==> y * f.stride + f.stride <= row * f.stride
    ensures row < y ==> row * f.stride + f.stride <= y * f.stride
  {
    if y < row {
      MulMono(y + 1, row, f.stride);
      assert (y + 1) * f.stride == y * f.stride + f.stride;
    } else {
      MulMono(row + 1, y, f.stride);
      assert (row + 1) * f.stride == row * f.stride + f.stride;
    }
  }

  /**
   * Painting rows of an area inside the image: a pixel has colour c exactly
   * when it lies in one of the first k rows of the area, between its left
   * and right edges; every other pixel and every pad byte is unchanged.
   */
  lemma {:induction false} RowsPixel(s: seq<byte>, f: Frame, area: Rect, k: int, c: RGBTriple, x: int, y: int)
    requires Fits(f, |s|) && InImage(f, x, y)
    requires area.width > 0 ==> 0 <= area.Left() && area.Right() <= f.width
    requires k <= 0 || (0 <= area.Top() && area.Top() + k <= f.height)
    requires RowsFit(|s|, f.stride, area, k)
    ensures PixelOf(Rows(s, f.stride, area, k, c), f, x, y) ==
      if area.Top() <= y < area.Top() + k && area.Left() <= x < area.Right() then c else PixelOf(s, f, x, y)
    ensures PadOf(Rows(s, f.stride, area, k, c), f, x, y) == PadOf(s, f, x, y)
    decreases k
  {
    if k > 0 {
      RowsPixel(s, f, area, k - 1, c, x, y);
      if area.width > 0 {
        PaintedRowPixel(Rows(s, f.stride, area, k - 1, c), f, area.Top() + k - 1, area.Left(), area.width, c, x, y);
      }
    }
  }

  /**
   * A clip rectangle set through AdjustToBounds (ClipRect, PushClipRect)
   * never reaches outside the image, but it may end one column and row
   * further than the bounds do.
   */
  lemma AdjustedClipWithin(width: int, height: int, r: Rect)
    requires width > 0 && height > 0
    ensures ClipWithin(AdjustToBounds(BoundsFor(width, height), r), width, height)
  {
  }

  /** One more row: the next WriteRep starts on row area.Top() + k. */
  lemma RowsNext(s: seq<byte>, stride: int, area: Rect, k: int, row: int, c: RGBTriple)
    requires 0 <= k && row == area.Top() + k && RowsFit(|s|, stride, area, k + 1)
    ensures RowsFit(|s|, stride, area, k)
    ensures Rows(s, stride, area, k + 1, c) == Painted(Rows(s, stride, area, k, c), row * stride + 4 * area.Left(), area.width, c)
  {
  }

  /** Fewer rows of a fill fit whenever more do. */
  lemma {:induction false} RowsFitPrefix(len: int, stride: int, area: Rect, k: int, j: int)
    requires RowsFit(len, stride, area, k) && j <= k
    ensures RowsFit(len, stride, area, j)
    decreases k - j
  {
    if j < k && k > 0 {
      RowsFitPrefix(len, stride, area, k - 1, j);
    }
  }

  /** TBitmap.Cls: every row of the image painted c, top to bottom. */
  function Filled(s: seq<byte>, f: Frame, c: RGBTriple): (t: seq<byte>)
    requires Fits(f, |s|)
    ensures |t| == |s|
  {
    AreaRowsFit(f, |s|, Rect(0, 0, f.width, f.height), f.height);
    Rows(s, f.stride, Rect(0, 0, f.width, f.height), f.height, c)
  }

  /** After Cls every pixel of the image has the colour; pad bytes are untouched. */
  lemma FilledPixel(s: seq<byte>, f: Frame, c: RGBTriple, x: int, y: int)
    requires Fits(f, |s|) && InImage(f, x, y)
    ensures PixelOf(Filled(s, f, c), f, x, y) == c
    ensures PadOf(Filled(s, f, c), f, x, y) == PadOf(s, f, x, y)
  {
    AreaRowsFit(f, |s|, Rect(0, 0, f.width, f.height), f.height);
    RowsPixel(s, f, Rect(0, 0, f.width, f.height), f.height, c, x, y);
  }

  /**
   * The rows RectFill writes for r (r clamped to the clip rectangle) lie
   * inside a buffer of len bytes. RectFill does not check this.
   */
  predicate FillFits(len: int, f: Frame, r: Rect) {
    var a := AdjustToClipRect(f.clip, r);
    a.IsEmpty() || RowsFit(len, f.stride, a, a.height)
  }

  /** TBitmap.RectFill: the rows of r clamped to the clip rectangle, painted c. */
  function FillRect(s: seq<byte>, f: Frame, r: Rect, c: RGBTriple): (t: seq<byte>)
    requires FillFits(|s|, f, r)
    ensures |t| == |s|
  {
    var a := AdjustToClipRect(f.clip, r);
    if a.IsEmpty() then s else Rows(s, f.stride, a, a.height, c)
  }

  /**
   * When the clip rectangle's last column and row are inside the image, as
   * they are right after Allocate, the clamped rectangle fits the buffer.
   */
  lemma FillFitsInsideClip(f: Frame, len: int, r: Rect)
    requires Fits(f, len) && ClipWithin(f.clip, f.width - 1, f.height - 1)
    ensures FillFits(len, f, r)
  {
    var a := AdjustToClipRect(f.clip, r);
    if !a.IsEmpty() {
      AreaRowsFit(f, len, a, a.height);
    }
  }

  /**
   * Under the same condition, RectFill paints exactly the pixels that both r
   * and the clip rectangle cover when read with Right and Bottom inclusive;
   * every other pixel and every pad byte keeps its value.
   */
  lemma FillRectPixel(s: seq<byte>, f: Frame, r: Rect, c: RGBTriple, x: int, y: int)
    requires Fits(f, |s|) && InImage(f, x, y) && ClipWithin(f.clip, f.width - 1, f.height - 1)
    ensures FillFits(|s|, f, r)
    ensures PixelOf(FillRect(s, f, r, c), f, x, y) ==
      if f.clip != EmptyRect && ClosedContains(r, x, y) && ClosedContains(f.clip, x, y) then c
      else PixelOf(s, f, x, y)
    ensures PadOf(FillRect(s, f, r, c), f, x, y) == PadOf(s, f, x, y)
  {
    FillFitsInsideClip(f, |s|, r);
    var a := AdjustToClipRect(f.clip, r);
    if !a.IsEmpty() {
      RowsPixel(s, f, a, a.height, c, x, y);
    }
  }

  /**
   * A clip rectangle set through AdjustToBounds reaches one column and row
   * past a w x w image; RectFill then adds one more, so filling a rectangle
   * twice the image's size writes row w, past the end of the buffer.
   */
  lemma RectFillCanOverrun(w: int)
    requires w >= 2
    ensures var big := Rect(0, 0, 2 * w, 2 * w);
      var clip := AdjustToBounds(BoundsFor(w, w), big);
      clip == Rect(0, 0, w, w) && Fits(Frame(w, w, 4 * w, clip), 4 * w * w) &&
      AdjustToClipRect(clip, big) == Rect(0, 0, w + 1, w + 1) &&
      !FillFits(4 * w * w, Frame(w, w, 4 * w, clip), big)
  {
    var a := Rect(0, 0, w + 1, w + 1);
    assert (4 * w) * w == 4 * w * w;
    assert (a.Top() + (w + 1) - 1) * (4 * w) + 4 * a.Left() == 4 * w * w;
    assert !RunFits(4 * w * w, 4 * w * w, a.width);
  }
}
