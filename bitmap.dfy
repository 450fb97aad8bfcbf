/**
 * TBitmap: a pixmap surface in the iOS build (32-bit pixels only) with a
 * clip rectangle, a pen colour, a pen cursor and two save stacks. Its
 * drawing methods are proved against the point lists of the Lines and
 * Conics modules, folded over the pixels by Raster.Plots.
 *
 * Exceptions become Outcome values; the outcome of the native allocator and
 * of its release call are the parameters allocOk and freeOk.
 */
module Pixmap {
  import opened CSharpInt
  import opened Errors
  import opened ColorModel
  import opened Geometry
  import opened PixelIO
  import opened Raster
  import opened Lines
  import opened Conics

  /** TPixelFormat in the iOS build; its integer value is the pixel size in bytes. */
  datatype PixelFormat = PfNone | Pf32Bit

  function FormatSize(fmt: PixelFormat): (n: int)
    ensures fmt == PfNone <==> n == 0
  {
    match fmt
    case PfNone => 0
    case Pf32Bit => 4
  }

  /** Everything about a bitmap that drawing leaves alone: all but the pixels and the cursor. */
  datatype Layout = Layout(
    buffer: array?<byte>, bufferSize: int, width: int, height: int, scanLine: int, pxSize: int,
    io: PixelIO32?, bounds: Rect, clipRect: Rect, format: PixelFormat,
    clipStack: seq<Rect>, colorStack: seq<u32>)

  /** The corners and edges RectOutline draws, in its order, all with the pen colour. */
  function OutlinePoints(r: Rect): seq<Point> {
    LinePoints(Point(r.Left(), r.Top()), Point(r.Right(), r.Top())) +
    LinePoints(Point(r.Right(), r.Top()), Point(r.Right(), r.Bottom())) +
    LinePoints(Point(r.Left(), r.Top()), Point(r.Left(), r.Bottom())) +
    LinePoints(Point(r.Left(), r.Bottom()), Point(r.Right(), r.Bottom()))
  }

  /** The two edges Frame3d draws in the light colour: left (bottom to top), then top. */
  function LightEdges(r: Rect): seq<Point> {
    LinePoints(Point(r.Left(), r.Bottom()), Point(r.Left(), r.Top())) +
    LinePoints(Point(r.Left() + 1, r.Top()), Point(r.Right(), r.Top()))
  }

  /** The two edges Frame3d draws in the dark colour: bottom, then right (bottom to top). */
  function DarkEdges(r: Rect): seq<Point> {
    LinePoints(Point(r.Left() + 1, r.Bottom()), Point(r.Right(), r.Bottom())) +
    LinePoints(Point(r.Right(), r.Bottom() - 1), Point(r.Right(), r.Top() + 1))
  }

  /**
   * Frame3d's four edges: the light pair first, then the dark pair, each
   * with its own colour.
   */
  function Framed(cv: Canvas, f: Frame, r: Rect, light: RGBTriple, dark: RGBTriple): (t: Canvas)
    requires Fits(f, |cv.pixels|)
    ensures |t.pixels| == |cv.pixels|
  {
    Plots(Plots(cv, f, LightEdges(r), light), f, DarkEdges(r), dark)
  }

  /** The rectangle Frame3d's fill overload fills: r shrunk by two on every side. */
  function Inner(r: Rect): Rect
  {
    Rect(r.x + 2, r.y + 2, r.width - 4, r.height - 4)
  }

  /** Inner is Rectangle.Inflate(-2, -2): two pixels in from every edge. */
  lemma InnerIsInflate(r: Rect)
    ensures Inner(r) == r.Inflate(-2, -2)
    ensures Inner(r).Left() == r.Left() + 2 && Inner(r).Right() == r.Right() - 2
    ensures Inner(r).Top() == r.Top() + 2 && Inner(r).Bottom() == r.Bottom() - 2
  {
  }

  /** RectFill of Inner(r), unless that is empty. */
  function FillInner(cv: Canvas, f: Frame, r: Rect, fill: RGBTriple): (t: Canvas)
    requires Fits(f, |cv.pixels|)
    requires !Inner(r).IsEmpty() ==> FillFits(|cv.pixels|, f, Inner(r))
    ensures |t.pixels| == |cv.pixels|
  {
    if Inner(r).IsEmpty() then cv else Canvas(FillRect(cv.pixels, f, Inner(r), fill), cv.cursor)
  }

  /** Frame3d with a fill colour: the frame, then FillInner. */
  function FramedFill(cv: Canvas, f: Frame, r: Rect, light: RGBTriple, dark: RGBTriple, fill: RGBTriple): (t: Canvas)
    requires Fits(f, |cv.pixels|)
    requires !Inner(r).IsEmpty() ==> FillFits(|cv.pixels|, f, Inner(r))
    ensures |t.pixels| == |cv.pixels|
  {
    FillInner(Framed(cv, f, r, light, dark), f, r, fill)
  }

  /**
   * LineTo through each of pts in turn. Every segment starts at the cursor,
   * which is the last pixel the previous segment actually plotted.
   */
  function PolyFrom(cv: Canvas, f: Frame, pts: seq<Point>, c: RGBTriple): (r: Canvas)
    requires Fits(f, |cv.pixels|)
    ensures |r.pixels| == |cv.pixels|
    decreases |pts|
  {
    if |pts| == 0 then cv
    else PolyFrom(Plots(cv, f, LinePoints(cv.cursor, pts[0]), c), f, pts[1..], c)
  }

  /** The point lists of the segments start -> pts[0] -> pts[1] -> ..., one after another. */
  function Segments(start: Point, pts: seq<Point>): seq<Point>
    decreases |pts|
  {
    if |pts| == 0 then [] else LinePoints(start, pts[0]) + Segments(pts[0], pts[1..])
  }

  /** Every segment of start -> pts[0] -> ... is steep, and the clip contains every vertex. */
  predicate SteepChain(clip: Rect, start: Point, pts: seq<Point>)
    decreases |pts|
  {
    |pts| == 0 ||
    (!XMajor(start, pts[0]) && clip.Contains(pts[0].x, pts[0].y) && SteepChain(clip, pts[0], pts[1..]))
  }

  /**
   * A steep segment ends by plotting its vertex, so when every segment is
   * steep and every vertex is inside the clip the cursor follows the
   * vertices: PolyOutline plots the segments' point lists one after another.
   */
  lemma {:induction false} SteepPolyIsSegments(cv: Canvas, f: Frame, pts: seq<Point>, c: RGBTriple)
    requires Fits(f, |cv.pixels|) && SteepChain(f.clip, cv.cursor, pts)
    ensures PolyFrom(cv, f, pts, c) == Plots(cv, f, Segments(cv.cursor, pts), c)
    decreases |pts|
  {
    if |pts| > 0 {
      var line := LinePoints(cv.cursor, pts[0]);
      var next := Plots(cv, f, line, c);
      SteepLineEndsWithEndpoints(cv.cursor, pts[0]);
      PlotsCursor(cv, f, line, c);
      SteepPolyIsSegments(next, f, pts[1..], c);
      PlotsAppend(cv, f, line, Segments(pts[0], pts[1..]), c);
    }
  }

  /**
   * A flat segment never plots its vertex. When its last pixel q is inside
   * the clip, the next segment starts from q, one column short of the
   * vertex, instead of from the vertex.
   */
  lemma FlatSegmentStopsShort(cv: Canvas, f: Frame, p: Point, rest: seq<Point>, c: RGBTriple)
    requires Fits(f, |cv.pixels|) && XMajor(cv.cursor, p) && Abs(p.x - cv.cursor.x) >= 2
    requires var line := LinePoints(cv.cursor, p);
      |line| > 0 && f.clip.Contains(line[|line| - 1].x, line[|line| - 1].y)
    ensures var line := LinePoints(cv.cursor, p);
      var q := line[|line| - 1];
      q != p && q.x == (if p.x > cv.cursor.x then p.x - 1 else p.x + 1) &&
      PolyFrom(cv, f, [p] + rest, c) == PolyFrom(Canvas(Plots(cv, f, line, c).pixels, q), f, rest, c)
  {
    var line := LinePoints(cv.cursor, p);
    FlatLineColumns(cv.cursor, p);
    FlatLineSkipsEndpoints(cv.cursor, p);
    PlotsCursor(cv, f, line, c);
    assert ([p] + rest)[1..] == rest;
  }

  /**
   * RectFill's loop: for each row y of area, WriteRep from column
   * area.Left() for area.width pixels.
   */
  method FillRows(io: PixelIO32, buffer: array<byte>, scanLine: int, pxSize: int, a: Rect, c: RGBTriple)
    requires pxSize == 4 && RowsFit(buffer.Length, scanLine, a, a.height)
    modifies buffer
    ensures buffer[..] == Rows(old(buffer[..]), scanLine, a, a.height, c)
  {
    ghost var s0 := buffer[..];
    var y := a.Top();
    ghost var k := 0;
    while y < a.Bottom()
      invariant y == a.Top() + k && 0 <= k && (a.height >= 0 ==> k <= a.height) && (a.height < 0 ==> k == 0)
      invariant RowsFit(buffer.Length, scanLine, a, k)
      invariant buffer[..] == Rows(s0, scanLine, a, k, c)
      decreases a.Bottom() - y
    {
      RowsFitPrefix(buffer.Length, scanLine, a, a.height, k + 1);
      RowsNext(s0, scanLine, a, k, y, c);
      assert a.Left() * pxSize == 4 * a.Left();
      io.WriteRep(buffer, y * scanLine + a.Left() * pxSize, a.width, c);
      y, k := y + 1, k + 1;
    }
  }

  class Bitmap {
    var buffer: array?<byte>
    var bufferSize: int
    var width: int
    var height: int
    var scanLine: int
    var pxSize: int
    var io: PixelIO32?
    var bounds: Rect
    var clipRect: Rect
    var format: PixelFormat
    const pen: Color
    var cursor: Point
    var clipStack: seq<Rect>
    var colorStack: seq<u32>

    /**
     * An empty bitmap is Blank and an allocated one Allocated; the pen is a
     * consistent TColor either way.
     */
    ghost predicate Valid()
      reads this, pen
    {
      pen.Valid() && (buffer == null ==> Blank()) && (buffer != null ==> Allocated())
    }

    /**
     * Every size zero, no format, no driver, empty stacks and the cursor at
     * the origin; the bounds and clip rectangle keep whatever they last were.
     */
    ghost predicate Blank()
      reads this
    {
      bufferSize == 0 && width == 0 && height == 0 && scanLine == 0 && pxSize == 0 &&
      io == null && format == PfNone && cursor == OriginPoint && clipStack == [] && colorStack == []
    }

    /**
     * width x height 4-byte pixels in rows scanLine bytes apart, and a clip
     * rectangle (and every saved one) inside the image.
     */
    ghost predicate Allocated()
      reads this
    {
      buffer != null && io != null && format == Pf32Bit && pxSize == 4 &&
      buffer.Length == bufferSize && Fits(Frame(), bufferSize) &&
      bounds == BoundsFor(width, height) &&
      forall r :: r in clipStack ==> ClipWithin(r, width, height)
    }

    function Setup(): Layout
      reads this
    {
      Layout(buffer, bufferSize, width, height, scanLine, pxSize, io, bounds, clipRect, format,
             clipStack, colorStack)
    }

    /** The geometry a drawing call reads. */
    function Frame(): Frame
      reads this
    {
      Raster.Frame(width, height, scanLine, clipRect)
    }

    /** The pixels and the cursor. */
    function Canvas(): Canvas
      requires buffer != null
      reads this, buffer
    {
      Raster.Canvas(buffer[..], cursor)
    }

    constructor ()
      ensures Valid() && fresh(pen)
      ensures buffer == null && bounds == EmptyRect && clipRect == EmptyRect
      ensures pen.packed == 0
    {
      buffer, bufferSize, width, height, scanLine, pxSize := null, 0, 0, 0, 0, 0;
      io, format, cursor := null, PfNone, OriginPoint;
      bounds, clipRect := EmptyRect, EmptyRect;
      clipStack, colorStack := [], [];
      pen := new Color();
    }

    /**
     * Frees the pixels and resets every size, the format, the cursor and both
     * stacks; the bounds, clip rectangle and pen are kept. The reset happens
     * even when the native free fails, which is then reported.
     */
    method Release(freeOk: bool) returns (o: Outcome)
      requires Valid()
      modifies this
      ensures Valid() && buffer == null
      ensures bounds == old(bounds) && clipRect == old(clipRect)
      ensures old(buffer) == null ==> o == Pass && Setup() == old(Setup()) && cursor == old(cursor)
      ensures old(buffer) != null ==> o == if freeOk then Pass else Fail(FailedRelease)
    {
      o := Pass;
      if buffer != null {
        if !freeOk {
          o := Fail(FailedRelease);
        }
        Reset();
      }
    }

    /** The part of Release that runs whether or not the native free succeeded. */
    method Reset()
      modifies this
      ensures Setup() == Layout(null, 0, 0, 0, 0, 0, null, old(bounds), old(clipRect), PfNone, [], [])
      ensures cursor == OriginPoint
    {
      io := null;
      buffer, bufferSize, width, height, scanLine, pxSize := null, 0, 0, 0, 0, 0;
      cursor, format := OriginPoint, PfNone;
      clipStack, colorStack := [], [];
    }

    /**
     * Releases any current pixels, then checks the dimensions and the format
     * and allocates width x height pixels; the bounds and the clip rectangle
     * become the whole image read inclusively, (0, 0, w - 1, h - 1).
     * A failed release is reported once the bitmap has been reset. The
     * buffer size must fit a C# int.
     */
    method Allocate(w: int, h: int, fmt: PixelFormat, freeOk: bool, allocOk: bool) returns (o: Outcome)
      requires Valid()
      requires w > 0 && h > 0 ==> IsInt32(4 * w * h)
      modifies this
      ensures Valid()
      ensures old(buffer) != null && !freeOk ==>
        o == Fail(FailedRelease) && buffer == null && bounds == old(bounds) && clipRect == old(clipRect)
      ensures (old(buffer) == null || freeOk) && !(w > 0 && h > 0) ==>
        o == Fail(InvalidDimension) && buffer == null && bounds == old(bounds) && clipRect == old(clipRect)
      ensures (old(buffer) == null || freeOk) && w > 0 && h > 0 && fmt == PfNone ==>
        o == Fail(InvalidPixelFormat) && buffer == null && bounds == old(bounds) && clipRect == old(clipRect)
      ensures (old(buffer) == null || freeOk) && w > 0 && h > 0 && fmt != PfNone && !allocOk ==>
        o == Fail(FailedAllocateMemory) && buffer == null && bounds == old(bounds) && clipRect == old(clipRect)
      ensures (old(buffer) == null || freeOk) && w > 0 && h > 0 && fmt != PfNone && allocOk ==>
        o == Pass && buffer != null && fresh(buffer) && fresh(io) &&
        width == w && height == h && format == fmt && pxSize == 4 && scanLine == 4 * w &&
        bufferSize == 4 * w * h && bounds == BoundsFor(w, h) && clipRect == bounds &&
        cursor == OriginPoint && clipStack == [] && colorStack == []
    {
      o := Release(freeOk);
      if o.Fail? {
        return;
      }
      if !(w > 0 && h > 0) {
        return Fail(InvalidDimension);
      }
      if fmt == PfNone {
        return Fail(InvalidPixelFormat);
      }
      o := Install(w, h, fmt, allocOk);
    }

    /** Allocate's work once the bitmap is empty and the arguments are accepted. */
    method Install(w: int, h: int, fmt: PixelFormat, allocOk: bool) returns (o: Outcome)
      requires Valid() && buffer == null && w > 0 && h > 0 && fmt != PfNone && IsInt32(4 * w * h)
      modifies this
      ensures Valid()
      ensures !allocOk ==> o == Fail(FailedAllocateMemory) && Setup() == old(Setup()) && cursor == old(cursor)
      ensures allocOk ==>
        o == Pass && buffer != null && fresh(buffer) && fresh(io) &&
        width == w && height == h && format == fmt && pxSize == 4 && scanLine == 4 * w &&
        bufferSize == 4 * w * h && bounds == BoundsFor(w, h) && clipRect == bounds &&
        cursor == OriginPoint && clipStack == [] && colorStack == []
    {
      var pxs := FormatSize(fmt);
      var stride := CalcStrideAlign(w, pxs, 4);
      StrideOfFourBytePixels(w);
      var size := stride * h;
      MulMono(0, stride, h);
      if !allocOk {
        return Fail(FailedAllocateMemory);
      }
      var pixels := new byte[size];
      var driver := new PixelIO32();
      Adopt(pixels, driver, w, h, fmt, stride, size);
      assert Fits(Frame(), bufferSize);
      o := Pass;
    }

    /** The fields Allocate sets once the memory is there. */
    method Adopt(pixels: array<byte>, driver: PixelIO32, w: int, h: int, fmt: PixelFormat, stride: int, size: int)
      modifies this
      ensures Setup() == Layout(pixels, size, w, h, stride, FormatSize(fmt), driver, BoundsFor(w, h), BoundsFor(w, h),
                                fmt, old(clipStack), old(colorStack))
      ensures cursor == old(cursor)
    {
      buffer, bufferSize, scanLine, pxSize, io := pixels, size, stride, FormatSize(fmt), driver;
      width, height, format := w, h, fmt;
      bounds := BoundsFor(width, height);
      clipRect := bounds;
    }

    /** The byte offset of pixel (x, y), or why there is none. */
    function PixelOffset(x: int, y: int): (r: Result<int>)
      reads this
      ensures buffer == null ==> r == Err(PixmapEmpty)
      ensures buffer != null ==> (r.Ok? <==> 0 <= x < width && 0 <= y < height)
      ensures buffer != null && r.Err? ==> r.error == InvalidXYPos
      ensures r.Ok? ==> ScanLine(y).Ok? && r.value == ScanLine(y).value + x * pxSize
    {
      if buffer != null then
        if 0 <= x < width && 0 <= y < height then Ok(y * scanLine + x * pxSize)
        else Err(InvalidXYPos)
      else Err(PixmapEmpty)
    }

    /** The byte offset of the first pixel of a row (TBitmap returns a pointer). */
    function ScanLine(row: int): (r: Result<int>)
      reads this
      ensures buffer == null ==> r == Err(PixmapEmpty)
      ensures buffer != null ==> (r.Ok? <==> 0 <= row < height)
      ensures buffer != null && r.Err? ==> r.error == InvalidRowForScanline(0, height - 1)
    {
      if buffer != null then
        if 0 <= row < height then Ok(row * scanLine)
        else Err(InvalidRowForScanline(0, height - 1))
      else Err(PixmapEmpty)
    }

    /** The byte offset of pixel (col, row) (TBitmap returns a pointer). */
    function PixelAddr(col: int, row: int): (r: Result<int>)
      reads this
      ensures r == PixelOffset(col, row)
    {
      if buffer != null then
        if col >= 0 && col < width && row >= 0 && row < height then Ok(row * scanLine + col * pxSize)
        else Err(InvalidXYPos)
      else Err(PixmapEmpty)
    }

    /**
     * PixelOffset succeeds exactly on an allocated bitmap for a pixel of the
     * image; the offset is that of the pixel's 4 bytes, inside the buffer.
     */
    lemma PixelOffsetInBuffer(x: int, y: int)
      requires Valid()
      ensures PixelOffset(x, y).Ok? <==> buffer != null && 0 <= x < width && 0 <= y < height
      ensures buffer == null ==> PixelOffset(x, y) == Err(PixmapEmpty)
      ensures PixelOffset(x, y).Ok? ==>
        PixelOffset(x, y).value == Offset(Frame(), x, y) &&
        0 <= PixelOffset(x, y).value && PixelOffset(x, y).value + pxSize <= bufferSize
    {
      if PixelOffset(x, y).Ok? {
        OffsetInBuffer(Frame(), bufferSize, x, y);
      }
    }

    /** Different pixels have offsets a whole pixel apart: no two pixels share a byte. */
    lemma PixelOffsetsApart(x: int, y: int, u: int, v: int)
      requires Valid() && PixelOffset(x, y).Ok? && PixelOffset(u, v).Ok? && (x, y) != (u, v)
      ensures PixelOffset(x, y).value + pxSize <= PixelOffset(u, v).value ||
              PixelOffset(u, v).value + pxSize <= PixelOffset(x, y).value
    {
      OffsetsApart(Frame(), bufferSize, x, y, u, v);
    }

    /** PixelAddr and PixelOffset agree, errors included; a row's address is that of its first pixel. */
    lemma AddressesAgree(x: int, y: int)
      requires Valid()
      ensures PixelAddr(x, y) == PixelOffset(x, y)
      ensures ScanLine(y).Ok? <==> buffer != null && 0 <= y < height
      ensures ScanLine(y).Ok? && 0 <= x < width ==> PixelOffset(x, y).value == ScanLine(y).value + 4 * x
      ensures buffer != null && !(0 <= y < height) ==> ScanLine(y) == Err(InvalidRowForScanline(0, height - 1))
    {
    }

    /** The no-argument PushClipRect: saves the clip rectangle on an allocated bitmap. */
    method SaveClipRect()
      requires Valid()
      modifies this
      ensures Valid() && cursor == old(cursor)
      ensures old(buffer) == null ==> Setup() == old(Setup())
      ensures old(buffer) != null ==>
        Setup() == old(Setup()).(clipStack := clipStack) && clipStack == old(clipStack) + [old(clipRect)]
    {
      if buffer != null {
        clipStack := clipStack + [clipRect];
      }
    }

    /**
     * PushClipRect(r): on an allocated bitmap, saves the clip rectangle and
     * replaces it with r clamped to the bounds.
     */
    method PushClipRect(r: Rect)
      requires Valid()
      modifies this
      ensures Valid() && cursor == old(cursor)
      ensures old(buffer) == null ==> Setup() == old(Setup())
      ensures old(buffer) != null ==>
        Setup() == old(Setup()).(clipStack := clipStack, clipRect := AdjustToBounds(old(bounds), r)) &&
        clipStack == old(clipStack) + [old(clipRect)]
    {
      if buffer != null {
        AdjustedClipWithin(width, height, r);
        clipStack, clipRect := clipStack + [clipRect], AdjustToBounds(bounds, r);
      }
    }

    /** PopClipRect: restores the last saved clip rectangle, if there is one. */
    method PopClipRect()
      requires Valid()
      modifies this
      ensures Valid() && cursor == old(cursor)
      ensures old(buffer) == null || old(clipStack) == [] ==> Setup() == old(Setup())
      ensures old(buffer) != null && old(clipStack) != [] ==>
        Setup() == old(Setup()).(clipStack := clipStack, clipRect := clipRect) &&
        clipStack == old(clipStack)[..|old(clipStack)| - 1] && clipRect == old(clipStack)[|old(clipStack)| - 1]
    {
      if buffer != null && |clipStack| > 0 {
        clipRect, clipStack := clipStack[|clipStack| - 1], clipStack[..|clipStack| - 1];
      }
    }

    /** The no-argument PushPenColor: saves the pen colour on an allocated bitmap. */
    method SavePenColor()
      requires Valid()
      modifies this
      ensures Valid() && cursor == old(cursor)
      ensures old(buffer) == null ==> Setup() == old(Setup())
      ensures old(buffer) != null ==>
        Setup() == old(Setup()).(colorStack := colorStack) && colorStack == old(colorStack) + [pen.packed]
    {
      if buffer != null {
        colorStack := colorStack + [pen.packed];
      }
    }

    /** PushPenColor(c): on an allocated bitmap, saves the pen colour and sets it to c. */
    method PushPenColor(c: u32)
      requires Valid()
      modifies this, pen
      ensures Valid() && cursor == old(cursor)
      ensures old(buffer) == null ==> Setup() == old(Setup()) && pen.packed == old(pen.packed)
      ensures old(buffer) != null ==>
        Setup() == old(Setup()).(colorStack := colorStack) && colorStack == old(colorStack) + [old(pen.packed)] &&
        pen.packed == c
    {
      if buffer != null {
        colorStack := colorStack + [pen.packed];
        pen.SetColor(c);
      }
    }

    /** PopPenColor: restores the last saved pen colour, if there is one. */
    method PopPenColor()
      requires Valid()
      modifies this, pen
      ensures Valid() && cursor == old(cursor)
      ensures old(buffer) == null || old(colorStack) == [] ==>
        Setup() == old(Setup()) && pen.packed == old(pen.packed)
      ensures old(buffer) != null && old(colorStack) != [] ==>
        Setup() == old(Setup()).(colorStack := colorStack) && colorStack == old(colorStack)[..|old(colorStack)| - 1] &&
        pen.packed == old(colorStack)[|old(colorStack)| - 1]
    {
      if buffer != null && |colorStack| > 0 {
        var top := colorStack[|colorStack| - 1];
        colorStack := colorStack[..|colorStack| - 1];
        pen.SetColor(top);
      }
    }

    /**
     * PushClipRect(r1), PushClipRect(r2), PopClipRect, PopClipRect: the clip
     * rectangle and its stack are as they were.
     */
    method ClipRectRoundTrip(r1: Rect, r2: Rect)
      requires Valid()
      modifies this
      ensures Valid() && Setup() == old(Setup()) && cursor == old(cursor)
    {
      PushClipRect(r1);
      PushClipRect(r2);
      PopClipRect();
      PopClipRect();
    }

    /**
     * PushPenColor(c1), PushPenColor(c2), PopPenColor, PopPenColor: the pen
     * colour and its stack are as they were.
     */
    method PenColorRoundTrip(c1: u32, c2: u32)
      requires Valid()
      modifies this, pen
      ensures Valid() && Setup() == old(Setup()) && cursor == old(cursor) && pen.packed == old(pen.packed)
    {
      PushPenColor(c1);
      PushPenColor(c2);
      PopPenColor();
      PopPenColor();
    }

    /**
     * The ClipRect setter: clamps the CURRENT clip rectangle to the bounds;
     * the value given is not used.
     */
    method SetClipRect(value: Rect)
      requires Valid()
      modifies this
      ensures Valid() && cursor == old(cursor)
      ensures Setup() == old(Setup()).(clipRect := AdjustToBounds(old(bounds), old(clipRect)))
    {
      if buffer != null {
        AdjustedClipWithin(width, height, clipRect);
      }
      clipRect := AdjustToBounds(bounds, clipRect);
    }

    /** The Pen setter: writes the pen's own colour back; the value given is not used. */
    method SetPen(value: Color)
      requires Valid()
      modifies pen
      ensures Valid() && pen.packed == old(pen.packed)
    {
      pen.SetColor(pen.packed);
    }

    /** Cls(color): every row of the image painted with the colour, one WriteRep per row. */
    method Cls(color: u32) returns (o: Outcome)
      requires Valid()
      modifies buffer
      ensures old(buffer) == null ==> o == Fail(PixmapEmpty)
      ensures old(buffer) != null ==> o == Pass && buffer[..] == Filled(old(buffer[..]), Frame(), ColorToRGB(color))
    {
      if buffer == null {
        return Fail(PixmapEmpty);
      }
      var c := ColorToRGB(color);
      ghost var s0 := buffer[..];
      ghost var area := Rect(0, 0, width, height);
      AreaRowsFit(Frame(), buffer.Length, area, height);
      var p := 0;
      var y := 0;
      while y < height
        invariant 0 <= y <= height && p == y * scanLine
        invariant RowsFit(buffer.Length, scanLine, area, y)
        invariant buffer[..] == Rows(s0, scanLine, area, y, c)
      {
        RowsFitPrefix(buffer.Length, scanLine, area, height, y + 1);
        RowsNext(s0, scanLine, area, y, y, c);
        io.WriteRep(buffer, p, width, c);
        MulSucc(y, scanLine);
        p := p + scanLine;
        y := y + 1;
      }
      o := Pass;
    }

    /**
     * RectFill(r, color): r clamped to the clip rectangle, filled row by row
     * with WriteRep. The source does not check that those rows lie in the
     * buffer; the caller must (see Raster.RectFillCanOverrun).
     */
    method RectFill(r: Rect, color: u32) returns (o: Outcome)
      requires Valid()
      requires buffer != null ==> FillFits(buffer.Length, Frame(), r)
      modifies buffer
      ensures Valid()
      ensures old(buffer) == null ==> o == Fail(PixmapEmpty)
      ensures old(buffer) != null ==>
        o == Pass && buffer[..] == FillRect(old(buffer[..]), Frame(), r, ColorToRGB(color))
    {
      if buffer == null {
        return Fail(PixmapEmpty);
      }
      var a := AdjustToClipRect(clipRect, r);
      if !a.IsEmpty() {
        FillRows(io, buffer, scanLine, pxSize, a, ColorToRGB(color));
      }
      o := Pass;
    }

    /**
     * SetPixel(x, y, color): on an allocated bitmap a point inside the clip
     * rectangle is written and becomes the cursor (Raster.Plot); anything
     * else is left alone.
     */
    method SetPixel(x: int, y: int, color: u32) returns (o: Outcome)
      requires Valid()
      modifies this, buffer
      ensures Valid() && Setup() == old(Setup())
      ensures old(buffer) == null ==> o == Fail(PixmapEmpty) && cursor == old(cursor)
      ensures old(buffer) != null ==>
        o == Pass && Canvas() == Plot(old(Canvas()), Frame(), Point(x, y), ColorToRGB(color))
    {
      if buffer == null {
        return Fail(PixmapEmpty);
      }
      if clipRect.Contains(x, y) {
        var c := ColorToRGB(color);
        OffsetInBuffer(Frame(), buffer.Length, x, y);
        io.WriteTriple(buffer, y * scanLine + x * pxSize, c);
        cursor := Point(x, y);
      }
      o := Pass;
    }

    /** MoveTo(p): on an allocated bitmap, the cursor becomes p. */
    method MoveTo(p: Point) returns (o: Outcome)
      requires Valid()
      modifies this
      ensures Valid() && Setup() == old(Setup())
      ensures old(buffer) == null ==> o == Fail(PixmapEmpty) && cursor == old(cursor)
      ensures old(buffer) != null ==> o == Pass && cursor == p
    {
      if buffer == null {
        return Fail(PixmapEmpty);
      }
      cursor := p;
      o := Pass;
    }

    /** Line's flat branch with end.X >= begin.X. */
    method LineXForward(b: Point, e: Point, color: u32)
      requires Valid() && buffer != null && e.x >= b.x
      modifies this, buffer
      ensures Valid() && Setup() == old(Setup())
      ensures Canvas() == Plots(old(Canvas()), Frame(), XForward(b, e, b, TruncDiv(e.x - b.x, 2)), ColorToRGB(color))
    {
      var nextPoint := b;
      var deltax := e.x - b.x;
      var deltay := e.y - b.y;
      var error := TruncDiv(deltax, 2);
      var ystep := 1;
      if e.y < b.y {
        ystep := -1;
      } else if e.y == b.y {
        ystep := 0;
      }
      ghost var f, c := Frame(), ColorToRGB(color);
      ghost var final := Plots(Canvas(), f, XForward(b, e, b, error), c);
      while nextPoint.x < e.x
        invariant Valid() && Setup() == old(Setup())
        invariant Plots(Canvas(), f, XForward(b, e, nextPoint, error), c) == final
        decreases e.x - nextPoint.x
      {
        ghost var before, n, err := Canvas(), nextPoint, error;
        if nextPoint != b && nextPoint != e {
          var _ := SetPixel(nextPoint.x, nextPoint.y, color);
          PlotsSingle(before, f, n, c);
        }
        nextPoint := nextPoint.(x := nextPoint.x + 1);
        error := error - deltay;
        if error < 0 {
          nextPoint := nextPoint.(y := nextPoint.y + ystep);
          error := error + deltax;
        }
        assert (nextPoint, error) == XForwardStep(b, e, n, err);
        PlotsAppend(before, f, Interior(b, e, n), XForward(b, e, nextPoint, error), c);
      }
    }

    /** Line's flat branch with end.X < begin.X. */
    method LineXBackward(b: Point, e: Point, color: u32)
      requires Valid() && buffer != null && e.x < b.x
      modifies this, buffer
      ensures Valid() && Setup() == old(Setup())
      ensures Canvas() == Plots(old(Canvas()), Frame(), XBackward(b, e, b, TruncDiv(e.x - b.x, 2)), ColorToRGB(color))
    {
      var nextPoint := b;
      var deltax := e.x - b.x;
      var deltay := e.y - b.y;
      var error := TruncDiv(deltax, 2);
      var ystep := 1;
      if e.y < b.y {
        ystep := -1;
      } else if e.y == b.y {
        ystep := 0;
      }
      ghost var f, c := Frame(), ColorToRGB(color);
      ghost var final := Plots(Canvas(), f, XBackward(b, e, b, error), c);
      while nextPoint.x > e.x
        invariant Valid() && Setup() == old(Setup())
        invariant Plots(Canvas(), f, XBackward(b, e, nextPoint, error), c) == final
        decreases nextPoint.x - e.x
      {
        ghost var before, n, err := Canvas(), nextPoint, error;
        if nextPoint != b && nextPoint != e {
          var _ := SetPixel(nextPoint.x, nextPoint.y, color);
          PlotsSingle(before, f, n, c);
        }
        nextPoint := nextPoint.(x := nextPoint.x - 1);
        error := error + deltay;
        if error < 0 {
          nextPoint := nextPoint.(y := nextPoint.y + ystep);
          error := error - deltax;
        }
        assert (nextPoint, error) == XBackwardStep(b, e, n, err);
        PlotsAppend(before, f, Interior(b, e, n), XBackward(b, e, nextPoint, error), c);
      }
    }

    /** Line's steep branch with end.Y >= begin.Y, up to its closing endpoints. */
    method LineYForward(b: Point, e: Point, color: u32)
      requires Valid() && buffer != null && e.y >= b.y
      modifies this, buffer
      ensures Valid() && Setup() == old(Setup())
      ensures Canvas() == Plots(old(Canvas()), Frame(), YForward(b, e, b, Abs(TruncDiv(Abs(e.x - b.x), 2))), ColorToRGB(color))
    {
      var nextPoint := b;
      var deltax := Abs(e.x - b.x);
      var deltay := e.y - b.y;
      var error := Abs(TruncDiv(deltax, 2));
      var xstep := 1;
      if e.x < b.x {
        xstep := -1;
      } else if e.x == b.x {
        xstep := 0;
      }
      ghost var f, c := Frame(), ColorToRGB(color);
      ghost var final := Plots(Canvas(), f, YForward(b, e, b, error), c);
      while nextPoint.y < e.y
        invariant Valid() && Setup() == old(Setup())
        invariant Plots(Canvas(), f, YForward(b, e, nextPoint, error), c) == final
        decreases e.y - nextPoint.y
      {
        ghost var before, n, err := Canvas(), nextPoint, error;
        if nextPoint != b && nextPoint != e {
          var _ := SetPixel(nextPoint.x, nextPoint.y, color);
          PlotsSingle(before, f, n, c);
        }
        nextPoint := nextPoint.(y := nextPoint.y + 1);
        error := error - deltax;
        if error < 0 {
          nextPoint := nextPoint.(x := nextPoint.x + xstep);
          error := error + deltay;
        }
        assert (nextPoint, error) == YForwardStep(b, e, n, err);
        PlotsAppend(before, f, Interior(b, e, n), YForward(b, e, nextPoint, error), c);
      }
    }

    /** Line's steep branch with end.Y < begin.Y, up to its closing endpoints. */
    method LineYBackward(b: Point, e: Point, color: u32)
      requires Valid() && buffer != null && e.y < b.y
      modifies this, buffer
      ensures Valid() && Setup() == old(Setup())
      ensures Canvas() == Plots(old(Canvas()), Frame(), YBackward(b, e, b, TruncDiv(e.x - b.x, 2)), ColorToRGB(color))
    {
      var nextPoint := b;
      var deltax := e.x - b.x;
      var deltay := e.y - b.y;
      var error := TruncDiv(deltax, 2);
      var xstep := 1;
      if e.x < b.x {
        xstep := -1;
      } else if e.x == b.x {
        xstep := 0;
      }
      ghost var f, c := Frame(), ColorToRGB(color);
      ghost var final := Plots(Canvas(), f, YBackward(b, e, b, error), c);
      while nextPoint.y > e.y
        invariant Valid() && Setup() == old(Setup())
        invariant Plots(Canvas(), f, YBackward(b, e, nextPoint, error), c) == final
        decreases nextPoint.y - e.y
      {
        ghost var before, n, err := Canvas(), nextPoint, error;
        if nextPoint != b && nextPoint != e {
          var _ := SetPixel(nextPoint.x, nextPoint.y, color);
          PlotsSingle(before, f, n, c);
        }
        nextPoint := nextPoint.(y := nextPoint.y - 1);
        error := error + deltax;
        if error < 0 {
          nextPoint := nextPoint.(x := nextPoint.x + xstep);
          error := error - deltay;
        }
        assert (nextPoint, error) == YBackwardStep(b, e, n, err);
        PlotsAppend(before, f, Interior(b, e, n), YBackward(b, e, nextPoint, error), c);
      }
    }

    /**
     * Line(begin, end, color): the Bresenham walk of Lines.LinePoints, each
     * point handed to SetPixel in turn.
     */
    method Line(b: Point, e: Point, color: u32) returns (o: Outcome)
      requires Valid()
      modifies this, buffer
      ensures Valid() && Setup() == old(Setup())
      ensures old(buffer) == null ==> o == Fail(PixmapEmpty) && cursor == old(cursor)
      ensures old(buffer) != null ==>
        o == Pass && Canvas() == Plots(old(Canvas()), Frame(), LinePoints(b, e), ColorToRGB(color))
    {
      if buffer == null {
        return Fail(PixmapEmpty);
      }
      if Abs(e.y - b.y) < Abs(e.x - b.x) {
        if e.x >= b.x {
          LineXForward(b, e, color);
        } else {
          LineXBackward(b, e, color);
        }
      } else {
        ghost var f, c := Frame(), ColorToRGB(color);
        ghost var cv0 := Canvas();
        ghost var walk := if e.y >= b.y then YForward(b, e, b, Abs(TruncDiv(Abs(e.x - b.x), 2)))
                          else YBackward(b, e, b, TruncDiv(e.x - b.x, 2));
        if e.y >= b.y {
          LineYForward(b, e, color);
        } else {
          LineYBackward(b, e, color);
        }
        ghost var mid := Canvas();
        var _ := SetPixel(b.x, b.y, color);
        var _ := SetPixel(e.x, e.y, color);
        PlotsCons(mid, f, b, [e], c);
        PlotsSingle(Plot(mid, f, b, c), f, e, c);
        assert [b] + [e] == [b, e];
        PlotsAppend(cv0, f, walk, [b, e], c);
      }
      o := Pass;
    }

    /** LineTo(p): a Line from the cursor to p in the pen colour. */
    method LineTo(p: Point) returns (o: Outcome)
      requires Valid()
      modifies this, buffer
      ensures Valid() && Setup() == old(Setup())
      ensures old(buffer) == null ==> o == Fail(PixmapEmpty) && cursor == old(cursor)
      ensures old(buffer) != null ==>
        o == Pass && Canvas() == Plots(old(Canvas()), Frame(), LinePoints(old(cursor), p), ColorToRGB(pen.packed))
    {
      o := Line(cursor, p, pen.packed);
    }

    /**
     * RectOutline(r, color): top, right, left and bottom edges as four
     * Lines in the pen colour; the colour given is not used.
     */
    method RectOutline(r: Rect, color: u32) returns (o: Outcome)
      requires Valid()
      modifies this, buffer
      ensures Valid() && Setup() == old(Setup())
      ensures old(buffer) == null ==> o == Fail(PixmapEmpty) && cursor == old(cursor)
      ensures old(buffer) != null ==>
        o == Pass && Canvas() == Plots(old(Canvas()), Frame(), OutlinePoints(r), ColorToRGB(pen.packed))
    {
      var top1, top2 := Point(r.Left(), r.Top()), Point(r.Right(), r.Top());
      var bot1, bot2 := Point(r.Left(), r.Bottom()), Point(r.Right(), r.Bottom());
      o := Line(top1, top2, pen.packed);
      if o.Fail? {
        return;
      }
      ghost var f, c := Frame(), ColorToRGB(pen.packed);
      ghost var e1, e2 := LinePoints(top1, top2), LinePoints(top2, bot2);
      ghost var e3, e4 := LinePoints(top1, bot1), LinePoints(bot1, bot2);
      var _ := Line(top2, bot2, pen.packed);
      var _ := Line(top1, bot1, pen.packed);
      var _ := Line(bot1, bot2, pen.packed);
      PlotsAppend(old(Canvas()), f, e1, e2, c);
      PlotsAppend(old(Canvas()), f, e1 + e2, e3, c);
      PlotsAppend(old(Canvas()), f, e1 + e2 + e3, e4, c);
    }

    /**
     * Frame3d(r, light, dark, raised): nothing for the empty rectangle;
     * otherwise the left and top edges in the light colour and the bottom
     * and right edges in the dark one, the two swapped when not raised.
     */
    method Frame3d(r: Rect, light: u32, dark: u32, raised: bool) returns (o: Outcome)
      requires Valid()
      modifies this, buffer
      ensures Valid() && Setup() == old(Setup())
      ensures r.IsEmpty() ==>
        o == Pass && cursor == old(cursor) && (old(buffer) != null ==> buffer[..] == old(buffer[..]))
      ensures !r.IsEmpty() && old(buffer) == null ==> o == Fail(PixmapEmpty) && cursor == old(cursor)
      ensures !r.IsEmpty() && old(buffer) != null ==>
        o == Pass && Canvas() == Framed(old(Canvas()), Frame(), r,
          ColorToRGB(if raised then light else dark), ColorToRGB(if raised then dark else light))
    {
      o := Pass;
      if !r.IsEmpty() {
        var lt, dk := light, dark;
        if !raised {
          lt, dk := dark, light;
        }
        var e1b, e1e := Point(r.Left(), r.Bottom()), Point(r.Left(), r.Top());
        var e2b, e2e := Point(r.Left() + 1, r.Top()), Point(r.Right(), r.Top());
        var e3b, e3e := Point(r.Left() + 1, r.Bottom()), Point(r.Right(), r.Bottom());
        var e4b, e4e := Point(r.Right(), r.Bottom() - 1), Point(r.Right(), r.Top() + 1);
        o := Line(e1b, e1e, lt);
        if o.Fail? {
          return;
        }
        ghost var f := Frame();
        var _ := Line(e2b, e2e, lt);
        PlotsAppend(old(Canvas()), f, LinePoints(e1b, e1e), LinePoints(e2b, e2e), ColorToRGB(lt));
        ghost var lit := Canvas();
        var _ := Line(e3b, e3e, dk);
        var _ := Line(e4b, e4e, dk);
        PlotsAppend(lit, f, LinePoints(e3b, e3e), LinePoints(e4b, e4e), ColorToRGB(dk));
      }
    }

    /** The Frame3d overload with a fill colour (FramedFill). */
    method Frame3dFill(r: Rect, light: u32, dark: u32, fill: u32, raised: bool) returns (o: Outcome)
      requires Valid()
      requires buffer != null && !r.IsEmpty() && !Inner(r).IsEmpty() ==>
        FillFits(|Canvas().pixels|, Frame(), Inner(r))
      modifies this, buffer
      ensures Valid() && Setup() == old(Setup())
      ensures r.IsEmpty() ==>
        o == Pass && cursor == old(cursor) && (old(buffer) != null ==> buffer[..] == old(buffer[..]))
      ensures !r.IsEmpty() && old(buffer) == null ==> o == Fail(PixmapEmpty) && cursor == old(cursor)
      ensures !r.IsEmpty() && old(buffer) != null ==>
        o == Pass && Canvas() == FramedFill(old(Canvas()), old(Frame()), r,
          ColorToRGB(if raised then light else dark), ColorToRGB(if raised then dark else light), ColorToRGB(fill))
    {
      o := Pass;
      if !r.IsEmpty() {
        if buffer == null {
          // Frame3d's first Line fails before anything is drawn
          o := Fail(PixmapEmpty);
        } else {
          FrameAndFill(r, light, dark, fill, raised);
        }
      }
    }

    /** Frame3dFill on an allocated bitmap and a rectangle that is not empty. */
    method FrameAndFill(r: Rect, light: u32, dark: u32, fill: u32, raised: bool)
      requires Valid() && buffer != null && !r.IsEmpty()
      requires !Inner(r).IsEmpty() ==> FillFits(|Canvas().pixels|, Frame(), Inner(r))
      modifies this, buffer
      ensures Valid() && Setup() == old(Setup())
      ensures Canvas() == FramedFill(old(Canvas()), old(Frame()), r,
          ColorToRGB(if raised then light else dark), ColorToRGB(if raised then dark else light), ColorToRGB(fill))
    {
      var _ := Frame3d(r, light, dark, raised);
      FillInside(r, fill);
    }

    /** The fill step of Frame3dFill: RectFill of Inner(r) unless that is empty. */
    method FillInside(r: Rect, fill: u32)
      requires Valid() && buffer != null
      requires !Inner(r).IsEmpty() ==> FillFits(|Canvas().pixels|, Frame(), Inner(r))
      modifies buffer
      ensures Canvas() == FillInner(old(Canvas()), Frame(), r, ColorToRGB(fill))
    {
      var inner := Inner(r);
      if !inner.IsEmpty() {
        var _ := RectFill(inner, fill);
      }
    }

    /**
     * PolyOutline(points, color): with two or more points, the pen takes
     * the colour, the cursor moves to the first point and LineTo visits the
     * rest; the pen colour is then put back. On an empty bitmap MoveTo
     * fails and the pen keeps the new colour.
     */
    method PolyOutline(points: seq<Point>, color: u32) returns (o: Outcome)
      requires Valid()
      modifies this, buffer, pen
      ensures Valid() && Setup() == old(Setup())
      ensures |points| <= 1 ==>
        o == Pass && pen.packed == old(pen.packed) && cursor == old(cursor) &&
        (old(buffer) != null ==> buffer[..] == old(buffer[..]))
      ensures |points| > 1 && old(buffer) == null ==>
        o == Fail(PixmapEmpty) && pen.packed == color && cursor == old(cursor)
      ensures |points| > 1 && old(buffer) != null ==>
        o == Pass && pen.packed == old(pen.packed) &&
        Canvas() == PolyFrom(Raster.Canvas(old(buffer[..]), points[0]), Frame(), points[1..], ColorToRGB(color))
    {
      o := Pass;
      if |points| > 1 {
        var oldColor := pen.packed;
        pen.SetColor(color);
        ghost var f, c := Frame(), ColorToRGB(color);
        ghost var final := if buffer == null then Raster.Canvas([], OriginPoint)
                           else PolyFrom(Raster.Canvas(buffer[..], points[0]), f, points[1..], c);
        var i := 0;
        while i < |points|
          invariant 0 <= i <= |points|
          invariant Valid() && Setup() == old(Setup()) && pen.packed == color
          invariant i == 0 ==> cursor == old(cursor) && (buffer != null ==> buffer[..] == old(buffer[..]))
          invariant i > 0 ==> o == Pass && buffer != null && PolyFrom(Canvas(), f, points[i..], c) == final
        {
          if i == 0 {
            o := MoveTo(points[0]);
            if o.Fail? {
              return;
            }
          } else {
            assert points[i..][1..] == points[i + 1..];
            o := LineTo(points[i]);
          }
          i := i + 1;
        }
        pen.SetColor(oldColor);
      }
    }

    /**
     * CircleOutline(midpoint, radius): on an allocated bitmap the pen draws
     * CirclePoints, the four axis points and then an octet per pass of the
     * midpoint loop; the loop's f, ddF_x and ddF_y are the closed forms
     * CircleError(radius, x, y), 2x + 1 and -2y at every pass.
     */
    method CircleOutline(mid: Point, radius: int) returns (o: Outcome)
      requires Valid()
      modifies this, buffer
      ensures Valid() && Setup() == old(Setup())
      ensures old(buffer) == null ==> o == Fail(PixmapEmpty) && cursor == old(cursor)
      ensures old(buffer) != null ==>
        o == Pass && Canvas() == Plots(old(Canvas()), Frame(), CirclePoints(mid, radius), ColorToRGB(pen.packed))
    {
      if buffer == null {
        return Fail(PixmapEmpty);
      }
      var color := pen.packed;
      ghost var fr, c := Frame(), ColorToRGB(color);
      ghost var cv0 := Canvas();
      var f := 1 - radius;
      var ddFx := 1;
      var ddFy := -2 * radius;
      var x := 0;
      var y := radius;
      CircleErrorStart(radius);
      SetPixel4(Point(mid.x, mid.y + radius), Point(mid.x, mid.y - radius),
        Point(mid.x + radius, mid.y), Point(mid.x - radius, mid.y), color);
      ghost var final := Plots(Canvas(), fr, CircleArcs(mid, radius, 0, radius), c);
      PlotsAppend(cv0, fr, AxisPoints(mid, radius), CircleArcs(mid, radius, 0, radius), c);
      while x < y
        invariant Valid() && buffer != null && Setup() == old(Setup()) && pen.packed == color
        invariant f == CircleError(radius, x, y) && ddFx == 2 * x + 1 && ddFy == -2 * y
        invariant Plots(Canvas(), fr, CircleArcs(mid, radius, x, y), c) == final
        decreases y - x
      {
        ghost var before, x0, y0 := Canvas(), x, y;
        if f >= 0 {
          CircleErrorSteps(radius, x, y);
          y := y - 1;
          ddFy := ddFy + 2;
          f := f + ddFy;
        }
        CircleErrorSteps(radius, x, y);
        x := x + 1;
        ddFx := ddFx + 2;
        f := f + ddFx;
        assert CircleArcs(mid, radius, x0, y0) == Octet(mid, x, y) + CircleArcs(mid, radius, x, y);
        SetOctet(mid, x, y, color);
        PlotsAppend(before, fr, Octet(mid, x, y), CircleArcs(mid, radius, x, y), c);
      }
      o := Pass;
    }

    /** One pass of the circle loop's eight SetPixel calls. */
    method SetOctet(mid: Point, x: int, y: int, color: u32)
      requires Valid() && buffer != null
      modifies this, buffer
      ensures Valid() && Setup() == old(Setup())
      ensures Canvas() == Plots(old(Canvas()), Frame(), Octet(mid, x, y), ColorToRGB(color))
    {
      ghost var f, c := Frame(), ColorToRGB(color);
      ghost var cv0 := Canvas();
      var low := [Point(mid.x + x, mid.y + y), Point(mid.x - x, mid.y + y),
        Point(mid.x + x, mid.y - y), Point(mid.x - x, mid.y - y)];
      var high := [Point(mid.x + y, mid.y + x), Point(mid.x - y, mid.y + x),
        Point(mid.x + y, mid.y - x), Point(mid.x - y, mid.y - x)];
      SetPixel4(low[0], low[1], low[2], low[3], color);
      SetPixel4(high[0], high[1], high[2], high[3], color);
      assert Octet(mid, x, y) == low + high;
      PlotsAppend(cv0, f, low, high, c);
    }

    /** TBitmap.CircleOutline(Rectangle): the circle centred in r, with half the shorter side as radius. */
    method CircleOutlineRect(r: Rect) returns (o: Outcome)
      requires Valid()
      modifies this, buffer
      ensures Valid() && Setup() == old(Setup())
      ensures old(buffer) == null ==> o == Fail(PixmapEmpty) && cursor == old(cursor)
      ensures old(buffer) != null ==>
        o == Pass && Canvas() == Plots(old(Canvas()), Frame(),
          CirclePoints(Point(r.Left() + TruncDiv(r.width, 2), r.Top() + TruncDiv(r.height, 2)),
                       TruncDiv(Min(r.width, r.height), 2)),
          ColorToRGB(pen.packed))
    {
      o := CircleOutline(Point(r.Left() + TruncDiv(r.width, 2), r.Top() + TruncDiv(r.height, 2)),
        TruncDiv(Min(r.width, r.height), 2));
    }

    /**
     * TBitmap.EllipseOutline(x1, y1, RadX, RadY, Color): both quadrant loops
     * when both radii exceed 2, nothing otherwise.
     */
    method EllipseOutline(x1: int, y1: int, rx: int, ry: int, color: u32) returns (o: Outcome)
      requires Valid()
      requires buffer != null && rx > 2 && ry > 2 ==> StoppingFits(rx, ry)
      modifies this, buffer
      ensures Valid() && Setup() == old(Setup())
      ensures old(buffer) == null ==> o == Fail(PixmapEmpty) && cursor == old(cursor)
      ensures old(buffer) != null ==>
        o == Pass && Canvas() == Plots(old(Canvas()), Frame(), EllipsePoints(Point(x1, y1), rx, ry), ColorToRGB(color))
    {
      if buffer == null {
        return Fail(PixmapEmpty);
      }
      if rx > 2 && ry > 2 {
        ghost var cv0 := Canvas();
        EllipseRegion1(Point(x1, y1), rx, ry, color);
        EllipseRegion2(Point(x1, y1), rx, ry, color);
        PlotsAppend(cv0, Frame(), Region1(Point(x1, y1), rx, ry, rx, 0), Region2(Point(x1, y1), rx, ry, 0, ry),
          ColorToRGB(color));
      }
      o := Pass;
    }

    /** The first loop of EllipseOutline: from (RadX, 0) while StoppingX >= StoppingY. */
    method EllipseRegion1(mid: Point, rx: int, ry: int, color: u32)
      requires Valid() && buffer != null && rx > 2 && ry > 2 && StoppingFits(rx, ry)
      modifies this, buffer
      ensures Valid() && Setup() == old(Setup())
      ensures Canvas() == Plots(old(Canvas()), Frame(), Region1(mid, rx, ry, rx, 0), ColorToRGB(color))
    {
      ghost var fr, c := Frame(), ColorToRGB(color);
      ghost var final := Plots(Canvas(), fr, Region1(mid, rx, ry, rx, 0), c);
      var twoA := 2 * rx * rx;
      var twoB := 2 * ry * ry;
      var x := rx;
      var y := 0;
      var xChange := ry * ry * (1 - 2 * rx);
      var yChange := rx * rx;
      var e := 0;
      var stopX := twoB * rx;
      var stopY := 0;
      EllipseErrorStarts(rx, ry);
      while stopX >= stopY
        invariant Valid() && buffer != null && Setup() == old(Setup())
        invariant twoA == 2 * rx * rx > 0 && twoB == 2 * ry * ry > 0
        invariant xChange == ry * ry * (1 - 2 * x) && yChange == rx * rx * (2 * y + 1)
        invariant e == EllipseError(rx, ry, x, y)
        invariant stopX == 2 * ry * ry * x && stopY == 2 * rx * rx * y
        invariant Plots(Canvas(), fr, Region1(mid, rx, ry, x, y), c) == final
        decreases stopX - stopY
      {
        ghost var before, x0, y0 := Canvas(), x, y;
        SetPixel4(Point(mid.x + x, mid.y + y), Point(mid.x - x, mid.y + y),
          Point(mid.x - x, mid.y - y), Point(mid.x + x, mid.y - y), color);
        EllipseErrorSteps(rx, ry, x, y);
        y := y + 1;
        stopY := stopY + twoA;
        e := e + yChange;
        yChange := yChange + twoA;
        if 2 * e + xChange > 0 {
          EllipseErrorSteps(rx, ry, x, y);
          x := x - 1;
          stopX := stopX - twoB;
          e := e + xChange;
          xChange := xChange + twoB;
        }
        Region1Increments(rx, ry, x0, y0, x, y);
        assert x == Region1NextX(rx, ry, x0, y0);
        assert Region1(mid, rx, ry, x0, y0) == Quad1(mid, x0, y0) + Region1(mid, rx, ry, x, y);
        PlotsAppend(before, fr, Quad1(mid, x0, y0), Region1(mid, rx, ry, x, y), c);
      }
    }

    /** The second loop of EllipseOutline: from (0, RadY) while StoppingX <= StoppingY. */
    method EllipseRegion2(mid: Point, rx: int, ry: int, color: u32)
      requires Valid() && buffer != null && rx > 2 && ry > 2 && StoppingFits(rx, ry)
      modifies this, buffer
      ensures Valid() && Setup() == old(Setup())
      ensures Canvas() == Plots(old(Canvas()), Frame(), Region2(mid, rx, ry, 0, ry), ColorToRGB(color))
    {
      ghost var fr, c := Frame(), ColorToRGB(color);
      ghost var final := Plots(Canvas(), fr, Region2(mid, rx, ry, 0, ry), c);
      var twoA := 2 * rx * rx;
      var twoB := 2 * ry * ry;
      var x := 0;
      var y := ry;
      var xChange := ry * ry;
      var yChange := rx * rx * (1 - 2 * ry);
      var e := 0;
      var stopX := 0;
      var stopY := twoA * ry;
      EllipseErrorStarts(rx, ry);
      while stopX <= stopY
        invariant Valid() && buffer != null && Setup() == old(Setup())
        invariant twoA == 2 * rx * rx > 0 && twoB == 2 * ry * ry > 0
        invariant xChange == ry * ry * (2 * x + 1) && yChange == rx * rx * (1 - 2 * y)
        invariant e == EllipseError(rx, ry, x, y)
        invariant stopX == 2 * ry * ry * x && stopY == 2 * rx * rx * y
        invariant Plots(Canvas(), fr, Region2(mid, rx, ry, x, y), c) == final
        decreases stopY - stopX
      {
        ghost var before, x0, y0 := Canvas(), x, y;
        SetPixel4(Point(mid.x - x, mid.y - y), Point(mid.x + x, mid.y - y),
          Point(mid.x + x, mid.y + y), Point(mid.x - x, mid.y + y), color);
        EllipseErrorSteps(rx, ry, x, y);
        x := x + 1;
        stopX := stopX + twoB;
        e := e + xChange;
        xChange := xChange + twoB;
        if 2 * e + yChange > 0 {
          EllipseErrorSteps(rx, ry, x, y);
          y := y - 1;
          stopY := stopY - twoA;
          e := e + yChange;
          yChange := yChange + twoA;
        }
        Region2Increments(rx, ry, x0, y0, x, y);
        assert y == Region2NextY(rx, ry, x0, y0);
        assert Region2(mid, rx, ry, x0, y0) == Quad2(mid, x0, y0) + Region2(mid, rx, ry, x, y);
        PlotsAppend(before, fr, Quad2(mid, x0, y0), Region2(mid, rx, ry, x, y), c);
      }
    }

    /**
     * TBitmap.EllipseOutline(Rectangle, Color): the ellipse centred in r with
     * half its width and height as radii, when r is not empty and both sides
     * exceed 2; otherwise nothing happens, not even the missing-pixmap error.
     */
    method EllipseOutlineRect(r: Rect, color: u32) returns (o: Outcome)
      requires Valid()
      requires buffer != null && !r.IsEmpty() && r.width > 2 && r.height > 2 ==> StoppingFits(r.width / 2, r.height / 2)
      modifies this, buffer
      ensures Valid() && Setup() == old(Setup())
      ensures !(!r.IsEmpty() && r.width > 2 && r.height > 2) ==>
        o == Pass && cursor == old(cursor) && (old(buffer) != null ==> buffer[..] == old(buffer[..]))
      ensures !r.IsEmpty() && r.width > 2 && r.height > 2 && old(buffer) == null ==>
        o == Fail(PixmapEmpty) && cursor == old(cursor)
      ensures !r.IsEmpty() && r.width > 2 && r.height > 2 && old(buffer) != null ==>
        o == Pass && Canvas() == Plots(old(Canvas()), Frame(),
          EllipsePoints(Point(r.Left() + r.width / 2, r.Top() + r.height / 2), r.width / 2, r.height / 2),
          ColorToRGB(color))
    {
      o := Pass;
      if !r.IsEmpty() && r.width > 2 && r.height > 2 {
        var wd := r.width / 2;
        var hd := r.height / 2;
        o := EllipseOutline(r.Left() + wd, r.Top() + hd, wd, hd, color);
      }
    }

    /**
     * TBitmap.EllipseOutline(Left, Top, Right, Bottom) as written: it passes
     * the corner (Left, Top) as the centre and the box's centre coordinates
     * as the radii.
     */
    method EllipseOutlineCorners(left: int, top: int, right: int, bottom: int) returns (o: Outcome)
      requires Valid()
      requires var rx, ry := left + TruncDiv(right - left + 1, 2), top + TruncDiv(bottom - top + 1, 2);
        buffer != null && rx > 2 && ry > 2 ==> StoppingFits(rx, ry)
      modifies this, buffer
      ensures Valid() && Setup() == old(Setup())
      ensures old(buffer) == null ==> o == Fail(PixmapEmpty) && cursor == old(cursor)
      ensures old(buffer) != null ==>
        o == Pass && Canvas() == Plots(old(Canvas()), Frame(), CornersAsWritten(left, top, right, bottom),
          ColorToRGB(pen.packed))
    {
      var wd := (right - left) + 1;
      var hd := (bottom - top) + 1;
      var qx := left + TruncDiv(wd, 2);
      var qy := top + TruncDiv(hd, 2);
      o := EllipseOutline(left, top, qx, qy, pen.packed);
    }

    /**
     * The corner overload as evidently intended: the ellipse inscribed in the
     * box from (left, top) to (right, bottom), centred at (qx, qy) with radii
     * half the box's sides.
     */
    method EllipseOutlineBox(left: int, top: int, right: int, bottom: int) returns (o: Outcome)
      requires Valid()
      requires var rx, ry := TruncDiv(right - left + 1, 2), TruncDiv(bottom - top + 1, 2);
        buffer != null && rx > 2 && ry > 2 ==> StoppingFits(rx, ry)
      modifies this, buffer
      ensures Valid() && Setup() == old(Setup())
      ensures old(buffer) == null ==> o == Fail(PixmapEmpty) && cursor == old(cursor)
      ensures old(buffer) != null ==>
        o == Pass && Canvas() == Plots(old(Canvas()), Frame(), CornersIntended(left, top, right, bottom),
          ColorToRGB(pen.packed))
    {
      var wd := (right - left) + 1;
      var hd := (bottom - top) + 1;
      o := EllipseOutline(left + TruncDiv(wd, 2), top + TruncDiv(hd, 2), TruncDiv(wd, 2), TruncDiv(hd, 2), pen.packed);
    }

    /** Four SetPixel calls in a row, as the circle and ellipse loops make them. */
    method SetPixel4(p0: Point, p1: Point, p2: Point, p3: Point, color: u32)
      requires Valid() && buffer != null
      modifies this, buffer
      ensures Valid() && Setup() == old(Setup())
      ensures Canvas() == Plots(old(Canvas()), Frame(), [p0, p1, p2, p3], ColorToRGB(color))
    {
      ghost var f, c := Frame(), ColorToRGB(color);
      ghost var cv0 := Canvas();
      var _ := SetPixel(p0.x, p0.y, color);
      var _ := SetPixel(p1.x, p1.y, color);
      var _ := SetPixel(p2.x, p2.y, color);
      var _ := SetPixel(p3.x, p3.y, color);
      ghost var cv1 := Plot(cv0, f, p0, c);
      ghost var cv2 := Plot(cv1, f, p1, c);
      ghost var cv3 := Plot(cv2, f, p2, c);
      PlotsSingle(cv3, f, p3, c);
      PlotsCons(cv2, f, p2, [p3], c);
      PlotsCons(cv1, f, p1, [p2, p3], c);
      PlotsCons(cv0, f, p0, [p1, p2, p3], c);
    }
  }
}
