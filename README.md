# pixelrage in Dafny

A verified model of `pxlrage.cs`, the C# software rasteriser of pixelrage. The model covers the iOS build, which has 32-bit pixels only. It includes:

- `TColor`: colour packing and the four property setters.
- `TPixelIO32`: the pixel writer over a raw byte buffer.
- `TBitmap`: the allocate/release lifecycle, address arithmetic, rectangle clamping, the clip-rectangle and pen-colour stacks, and every drawing primitive (Cls, RectFill, SetPixel, MoveTo, LineTo, Line, RectOutline, Frame3d, PolyOutline, CircleOutline, EllipseOutline).

Modules follow the parts of the file:

| module | file | what it holds |
|---|---|---|
| `CSharpInt` | csharp_int.dfy | C#'s truncating `/` and `%`, `Math.Abs`, the `int` range |
| `Errors` | errors.dfy | the exceptions TBitmap throws, as `Outcome` / `Result` values |
| `ColorModel` | color_model.dfy | `RGBToColor`, `ColorToRGB`, class `Color` (TColor) |
| `Geometry` | geometry.dfy | `System.Drawing.Point` / `Rectangle`, `CalcStrideAlign`, `AdjustToBounds`, `AdjustToClipRect` |
| `PixelIO` | pixel_io.dfy | the buffer contents after pixel writes (`PutPixel`, `Painted`), class `PixelIO32` (TPixelIO32) |
| `Raster` | raster.dfy | what drawing does to a bitmap, stated on values: `Plot` (one SetPixel), `Plots` (SetPixel on a list of points), `Rows` (RectFill's and Cls's row runs) |
| `Lines` | line.dfy | `LinePoints(begin, end)`: the points `Line` hands to SetPixel, branch by branch |
| `Conics` | conics.dfy | `CirclePoints` and `EllipsePoints`: the points the midpoint loops hand to SetPixel |
| `Pixmap` | bitmap.dfy | class `Bitmap` (TBitmap), with a `byte` array as its buffer |

Each drawing method is proved against a specification function. The method's `ensures` says that the pixels and cursor afterwards are the old ones with `Plots` applied to the method's point list. The point lists are then studied by lemmas: endpoints, columns and rows visited, symmetry, and termination measures.

Each loop in the source (WriteRep's unrolled and single-pixel loops, Cls, RectFill, the four Bresenham branches, the circle loop and the two ellipse loops) is a `while` loop. Its invariant has the form "plotting what is left from here gives the final canvas". The redundant counters of the circle and ellipse loops are tied to closed forms:

- circle: `f`, `ddF_x`, `ddF_y`;
- ellipse: `XChange`, `YChange`, `EllipseError`, `StoppingX`, `StoppingY`.

A `System.Drawing.Rectangle` is `(x, y, width, height)`:

- `Right` and `Bottom` lie one past the last column and row;
- `Contains` is half-open;
- `IsEmpty` holds only when all four fields are zero.

TBitmap often reads `Right` and `Bottom` as if they were inclusive. The model keeps the library's own reading and proves the consequences:

- the bounds `(0, 0, W-1, H-1)` never contain the last column or row;
- a 1×1 bitmap has `Rectangle.Empty` as its bounds;
- `AdjustToClipRect` is not idempotent;
- a clip rectangle set by `PushClipRect` can let `RectFill` write a row past the buffer.

Where a description of this library and its code differ, the model follows the code:

- The change log at pxlrage.cs:19 says `Line` no longer misses its endpoints. In the code only the steep branches (|dy| ≥ |dx|) plot `begin` and `end`; a flat line plots neither (`Lines.FlatLineSkipsEndpoints`). So `Line((x, y), (x+5, y))` plots four pixels, not six (`Lines.HorizontalLineExample`).
- `RectOutline` draws its edges top, right, left, bottom, all in the pen colour; the colour argument is not used.
- A clamp that leaves nothing is not `Rectangle.Empty`. `AdjustToBounds` and `AdjustToClipRect` return a rectangle with a width or height of zero or less, which `IsEmpty` does not recognise.
- `Release` keeps the bounds, the clip rectangle and the pen.

## Model

| member | source | states |
|---|---|---|
| `ColorModel.RGBToColor` | pxlrage.cs:139-140 | the packed colour of R, G, B is below 2^24: the top byte is always zero |
| `ColorModel.ColorToRGB` | pxlrage.cs:151-165 | R, G and B are bytes 0, 1 and 2 of the colour: R + 256·G + 65536·B is the colour modulo 2^24; both overloads unpack the same way |
| `ColorModel.ColorRoundTrip` | pxlrage.cs:139-165 | `ColorToRGB(RGBToColor(r, g, b))` gives `(r, g, b)` back |
| `ColorModel.PackDropsTopByte` | pxlrage.cs:139-165 | repacking an unpacked colour gives the colour modulo 2^24: the top byte is lost |
| `ColorModel.PackInjective` | pxlrage.cs:139-140 | two triples that pack to the same colour are equal |
| `ColorModel.Color.constructor` | pxlrage.cs:68-73 | a new TColor is black in both views and its channels agree with its packed colour |
| `ColorModel.Color.SetRed` | pxlrage.cs:75-82 | Red takes the value, Green and Blue are kept, Color is repacked; channels and Color agree afterwards |
| `ColorModel.Color.SetGreen` | pxlrage.cs:84-91 | the same for Green |
| `ColorModel.Color.SetBlue` | pxlrage.cs:93-100 | the same for Blue |
| `ColorModel.Color.SetColor` | pxlrage.cs:102-109 | Color keeps the value as given, top byte included; the channels become its unpacked bytes |
| `PixelIO.PaintedAt` | pxlrage.cs:195-255 | a run of n pixels from offset p sets bytes p+4k+1..p+4k+3 (0 ≤ k < n) to R, G, B and leaves every pad byte p+4k and every other byte alone; n ≤ 0 changes nothing |
| `PixelIO.PaintedSplit` | pxlrage.cs:200-253 | a run of n + m pixels is a run of n pixels followed by a run of m pixels from where it ended |
| `PixelIO.ReadAfterWrite` | pxlrage.cs:265-287 | ReadFrom at the offset of a WriteTo returns the colour written; the pad byte is unchanged |
| `PixelIO.PixelIO32.WriteRep` | pxlrage.cs:195-255 | the unrolled fill (count / 8 passes of eight, then the rest one by one) leaves the buffer equal to a plain pixel-by-pixel run of count pixels; a negative count writes nothing |
| `PixelIO.PixelIO32.FillPasses` | pxlrage.cs:200-243 | longs passes paint 8·longs pixels and the pointer ends 32·longs bytes further; no pass runs when longs ≤ 0 |
| `PixelIO.PixelIO32.FillSingles` | pxlrage.cs:245-253 | the remainder loop paints its pixels one after another |
| `PixelIO.PixelIO32.WriteEight` | pxlrage.cs:202-241 | one pass of the unrolled loop is a run of eight pixels |
| `PixelIO.PixelIO32.WriteFour` | pxlrage.cs:202-221 | half of that pass is a run of four pixels |
| `PixelIO.PixelIO32.WriteRGB` | pxlrage.cs:258-263 | R, G, B go to bytes 1..3 of the pixel; nothing else changes |
| `PixelIO.PixelIO32.WriteTriple` | pxlrage.cs:265-270 | the same for a TRGBTriple |
| `PixelIO.PixelIO32.WriteColor` | pxlrage.cs:272-278 | the packed colour is unpacked and written as its triple |
| `PixelIO.PixelIO32.ReadFrom` | pxlrage.cs:280-287 | returns bytes 1..3 of the pixel as R, G, B |
| `Geometry.Rect.Inflate` | pxlrage.cs:723 | Inflate(dx, dy) moves Left and Top out by dx and dy, and Right and Bottom out by the same |
| `Geometry.CalcStrideAlign` | pxlrage.cs:574-580 | for a non-negative row length, the stride is the least multiple of the alignment that is at least value × elementSize |
| `Geometry.StrideExamples` | pxlrage.cs:574-580 | 5 pixels of 4 bytes give 20; 3 pixels of 3 bytes give 12 |
| `Geometry.StrideOfFourBytePixels` | pxlrage.cs:574-580 | rows of 4-byte pixels need no padding: the stride is 4 × width |
| `Geometry.AdjustToBounds` | pxlrage.cs:582-594 | empty bounds give Rectangle.Empty; otherwise the result contains a pixel exactly when r holds it and it lies between the origin and the bounds' Right and Bottom, each read as inclusive |
| `Geometry.AdjustToClipRect` | pxlrage.cs:596-608 | the same clamp against the clip rectangle |
| `Geometry.AdjustToBoundsEdges` | pxlrage.cs:582-594 | Left and Top are the larger of r's and zero; Right and Bottom are one past the smaller of r's and the bounds' |
| `Geometry.AdjustToClipRectEdges` | pxlrage.cs:596-608 | the same edges against the clip rectangle |
| `Geometry.AdjustToBoundsIsClipAgainstBounds` | pxlrage.cs:582-608 | against bounds anchored at the origin the two clamps give the same rectangle |
| `Geometry.OnePixelBoundsAreEmpty` | pxlrage.cs:463 | a 1×1 bitmap's bounds are Rectangle.Empty, so AdjustToBounds gives Rectangle.Empty for every rectangle |
| `Geometry.BoundsMissLastColumnAndRow` | pxlrage.cs:463-464 | no pixel of column W-1 or row H-1 lies in the bounds (nor in the clip rectangle Allocate copies from them) |
| `Geometry.AdjustingBoundsGrowsThem` | pxlrage.cs:582-594 | clamping the bounds to themselves gives (0, 0, W, H), not the bounds |
| `Geometry.AdjustToClipRectGrows` | pxlrage.cs:596-608 | AdjustToClipRect is not idempotent: clamping again moves Right out by one |
| `Raster.OffsetInBuffer` | pxlrage.cs:534-544 | for 0 ≤ x < W and 0 ≤ y < H, the pixel's offset plus its 4 bytes lies within stride × H |
| `Raster.OffsetsApart` | pxlrage.cs:534-544 | distinct pixels are at least 4 bytes apart |
| `Raster.PlotChangesOnlyItsPixel` | pxlrage.cs:794-816 | SetPixel changes exactly bytes 1..3 of its pixel, and only when the clip rectangle contains the point; the cursor then moves there and otherwise stays |
| `Raster.PlotsPixel` | pxlrage.cs:794-816 | after SetPixel on a list of points, a pixel has the colour exactly when it is in the list and in the clip rectangle; otherwise it keeps its colour; pad bytes never change |
| `Raster.PlotsCursor` | pxlrage.cs:812-813 | after SetPixel on a list of points, the cursor is the old cursor or a point in the list inside the clip, and it is the last point when that one is inside the clip |
| `Raster.RowsPixel` | pxlrage.cs:741-767 | painting k rows of an area: a pixel has the colour exactly when it lies in those rows between the area's left and right edges |
| `Raster.FilledPixel` | pxlrage.cs:661-684 | after Cls every pixel of the image has the colour and every pad byte is unchanged |
| `Raster.AdjustedClipWithin` | pxlrage.cs:610-617 | a clip rectangle set through AdjustToBounds never leaves the image, though it may end at column W and row H |
| `Raster.FillFitsInsideClip` | pxlrage.cs:741-767 | when the clip rectangle's last column and row lie inside the image, as right after Allocate, every row RectFill writes lies in the buffer |
| `Raster.FillRectPixel` | pxlrage.cs:741-767 | under the same condition RectFill paints exactly the pixels both r and the clip rectangle cover (Right and Bottom inclusive); all else, pad bytes included, keeps its value |
| `Raster.RectFillCanOverrun` | pxlrage.cs:741-767 | for a W×W image after PushClipRect of a rectangle twice its size, RectFill's rows reach row W, past the end of the buffer |
| `Lines.XForwardColumns` | pxlrage.cs:866-878 | from any point past begin, the flat forward loop plots one point per column, from the current column up to the one before end.X |
| `Lines.XBackwardColumns` | pxlrage.cs:891-903 | the same for the flat backward loop |
| `Lines.YForwardRows` | pxlrage.cs:919-931 | the steep forward loop plots one point per row |
| `Lines.YBackwardRows` | pxlrage.cs:944-956 | the same for the steep backward loop |
| `Lines.XForwardAvoidsEnds` | pxlrage.cs:866-878 | the flat forward loop never plots begin or end |
| `Lines.XBackwardAvoidsEnds` | pxlrage.cs:891-903 | the flat backward loop never plots begin or end |
| `Lines.FlatLineSkipsEndpoints` | pxlrage.cs:853-905 | when \|dy\| < \|dx\|, neither begin nor end is passed to SetPixel |
| `Lines.SteepLineEndsWithEndpoints` | pxlrage.cs:906-961 | when \|dy\| ≥ \|dx\|, the last two points passed to SetPixel are begin, then end |
| `Lines.PointLine` | pxlrage.cs:849-966 | Line(p, p) plots p, twice |
| `Lines.FlatLineColumns` | pxlrage.cs:853-905 | a flat line plots \|dx\| - 1 points, the k-th in column begin.X ± (k + 1): one per column strictly between the ends, so the loop ends |
| `Lines.SteepLineRows` | pxlrage.cs:906-961 | a steep line plots max(\|dy\| - 1, 0) interior points, the k-th in row begin.Y ± (k + 1), then begin and end |
| `Lines.XForwardStaysOnRow` | pxlrage.cs:866-877 | with end.Y < begin.Y and a non-negative error, the flat forward loop never changes row |
| `Lines.RisingFlatLineStaysOnRow` | pxlrage.cs:858-877 | because deltay is signed, a flat line to the right that goes up the image is drawn on begin's row |
| `Lines.YBackwardStaysInColumn` | pxlrage.cs:944-956 | with end.X > begin.X and a non-negative error, the steep backward loop never changes column |
| `Lines.RightwardSteepRisingLineStaysInColumn` | pxlrage.cs:936-955 | because deltax is signed, a steep line up the image and to the right keeps begin's column for every interior point |
| `Lines.XBackwardKeepsRow` | pxlrage.cs:891-903 | with end.Y > begin.Y and a non-negative error, the flat backward loop never changes row |
| `Lines.FallingBackwardFlatLineStepsAtMostOnce` | pxlrage.cs:883-903 | a flat line to the left that goes down the image plots only on begin's row and the one below |
| `Lines.HorizontalLineExample` | pxlrage.cs:853-878 | Line((x, y), (x+5, y)) plots (x+1, y) .. (x+4, y) and nothing else |
| `Lines.VerticalLineExample` | pxlrage.cs:906-961 | Line((x, y), (x, y+3)) plots (x, y+1), (x, y+2), then (x, y) and (x, y+3) |
| `Lines.RisingLineExample` | pxlrage.cs:853-878 | Line((x, y), (x+4, y-1)) plots (x+1, y), (x+2, y), (x+3, y): it never reaches row y-1 |
| `Conics.OctetSymmetric` | pxlrage.cs:1008-1040 | the eight points of one pass are closed under reflection in the centre's vertical axis, its horizontal axis and its diagonal |
| `Conics.ArcsSymmetric` | pxlrage.cs:999-1041 | the points of the loop from any state are closed under the same three reflections |
| `Conics.CircleSymmetric` | pxlrage.cs:974-1044 | every point CircleOutline passes to SetPixel has its three mirror images among them |
| `Conics.SmallCircleIsAxisPoints` | pxlrage.cs:985-999 | for a radius below 1 the loop does not run: only the four axis points are plotted |
| `Conics.CircleErrorStart` | pxlrage.cs:979-983 | f = 1 - radius is the closed form at (0, radius) |
| `Conics.CircleErrorSteps` | pxlrage.cs:1001-1009 | the updates of f when y steps down and when x steps up keep it equal to the closed form |
| `Conics.EllipseErrorStarts` | pxlrage.cs:1088-1118 | both ellipse loops start on the ellipse: EllipseError is zero at (RadX, 0) and (0, RadY) |
| `Conics.EllipseErrorSteps` | pxlrage.cs:1101-1136 | adding YChange or XChange moves EllipseError to its closed form at the next y or x |
| `Conics.Region1Decreases` | pxlrage.cs:1095-1112 | each pass of the first ellipse loop brings StoppingY strictly closer to StoppingX, so the loop ends |
| `Conics.Region2Decreases` | pxlrage.cs:1121-1138 | each pass of the second loop brings StoppingX strictly closer to StoppingY |
| `Conics.Region1Increments` | pxlrage.cs:1101-1111 | after one pass of the first loop, YChange, XChange, StoppingX and StoppingY again match their closed forms in the new x and y |
| `Conics.Region2Increments` | pxlrage.cs:1127-1137 | the same for the second loop |
| `Conics.Region1Symmetric` | pxlrage.cs:1095-1112 | the first loop's points are closed under both axis reflections |
| `Conics.Region2Symmetric` | pxlrage.cs:1121-1138 | the second loop's points are closed under both axis reflections |
| `Conics.EllipseSymmetric` | pxlrage.cs:1079-1142 | every point EllipseOutline passes to SetPixel has both axis mirror images among them |
| `Conics.EllipseReachesAxisEnds` | pxlrage.cs:1083-1138 | when both radii exceed 2, the four axis extremes (centre ± RadX, centre ± RadY) are plotted |
| `Conics.StoppingThreshold` | pxlrage.cs:1086-1094 | 2·RadY²·RadX and 2·RadX²·RadY fit an int for RadX = RadY = 1023 but not 1024. Wrapped modulo 2^32 they become int.MinValue at 1024, a negative value at 1100 and +99,032,704 at 1300. With radii 2000 and 600 only StoppingY overflows, to +505,032,704 |
| `Conics.CornersAsWrittenLeavesBox` | pxlrage.cs:1070-1077 | the corner overload draws outside its own box: for a box 6 pixels or more each way, at or right of the origin, it plots (-(wd/2), Top), left of the box |
| `Conics.CornersIntendedIsRectEllipse` | pxlrage.cs:1058-1077 | with the centre and radii corrected, the corner overload plots exactly what EllipseOutline(Rectangle) plots for the same box |
| `Pixmap.FormatSize` | pxlrage.cs:43-53 | a format has a pixel size of zero exactly when it is pfNone |
| `Pixmap.InnerIsInflate` | pxlrage.cs:723 | the fill rectangle of Frame3d is Inflate(-2, -2): two pixels in from every edge |
| `Pixmap.FillRows` | pxlrage.cs:752-764 | RectFill's loop leaves the buffer equal to the area's rows painted, one WriteRep per row |
| `Pixmap.Bitmap.constructor` | pxlrage.cs:363-371 | a new TBitmap is empty, with empty bounds and clip rectangle, empty stacks and a black pen |
| `Pixmap.Bitmap.Release` | pxlrage.cs:501-532 | on an empty bitmap nothing changes; otherwise the bitmap is reset to empty, keeping bounds, clip rectangle and pen, and a failed native free is reported only after the reset |
| `Pixmap.Bitmap.Reset` | pxlrage.cs:517-529 | every size is zero, there is no buffer, driver or format, the cursor is at the origin, and both stacks are empty |
| `Pixmap.Bitmap.Allocate` | pxlrage.cs:404-499 | releases first (a failed release is reported); rejects a non-positive width or height before pfNone; reports a failed allocation; each failure leaves the bitmap empty. On success: W×H pixels of 4 bytes, stride 4W, size 4WH, bounds and clip (0, 0, W-1, H-1), cursor at the origin, empty stacks |
| `Pixmap.Bitmap.Install` | pxlrage.cs:416-482 | Allocate's work once its checks pass: a failed allocation changes nothing; otherwise the fields listed for Allocate |
| `Pixmap.Bitmap.Adopt` | pxlrage.cs:459-482 | the buffer, driver, sizes, format, bounds and clip rectangle take the new values; stacks and cursor are kept |
| `Pixmap.Bitmap.PixelOffset` | pxlrage.cs:534-544 | an empty bitmap fails with PixmapEmpty before any range test; otherwise it succeeds exactly for 0 ≤ x < W and 0 ≤ y < H, fails with InvalidXYPos outside, and the offset is the row's ScanLine offset plus x pixel sizes (`Pixmap.Bitmap.PixelOffsetInBuffer` places it in the buffer) |
| `Pixmap.Bitmap.ScanLine` | pxlrage.cs:546-558 | an empty bitmap fails with PixmapEmpty; otherwise it succeeds exactly for rows 0..H-1 and fails with InvalidRowForScanline(0, H-1) outside (`Pixmap.Bitmap.AddressesAgree`) |
| `Pixmap.Bitmap.PixelAddr` | pxlrage.cs:560-572 | the same value and the same errors as PixelOffset, for every column and row |
| `Pixmap.Bitmap.PixelOffsetInBuffer` | pxlrage.cs:534-544 | PixelOffset succeeds exactly on an allocated bitmap inside [0, W) × [0, H). Its value is y·stride + 4x, and the pixel's bytes lie inside the buffer. On an empty bitmap it fails with PixmapEmpty |
| `Pixmap.Bitmap.PixelOffsetsApart` | pxlrage.cs:534-544 | the offsets of two different pixels are at least a pixel apart |
| `Pixmap.Bitmap.AddressesAgree` | pxlrage.cs:546-572 | PixelAddr equals PixelOffset, errors included. ScanLine succeeds exactly for rows 0..H-1, and a pixel's address is its row's address plus 4x. An out-of-range row reports the range 0..H-1 |
| `Pixmap.Bitmap.SaveClipRect` | pxlrage.cs:619-623 | on an allocated bitmap the clip rectangle is appended to its stack; nothing else changes |
| `Pixmap.Bitmap.PushClipRect` | pxlrage.cs:610-617 | on an allocated bitmap the clip rectangle is appended to its stack and replaced by AdjustToBounds(r); on an empty one nothing changes |
| `Pixmap.Bitmap.PopClipRect` | pxlrage.cs:625-632 | with a saved rectangle, the last one is removed and becomes the clip rectangle; on an empty stack or bitmap nothing changes |
| `Pixmap.Bitmap.SavePenColor` | pxlrage.cs:643-647 | on an allocated bitmap the pen colour is appended to its stack |
| `Pixmap.Bitmap.PushPenColor` | pxlrage.cs:634-641 | on an allocated bitmap the pen colour is appended to its stack and the pen takes c; on an empty one nothing changes |
| `Pixmap.Bitmap.PopPenColor` | pxlrage.cs:649-656 | with a saved colour, the last one is removed and becomes the pen colour; otherwise nothing changes |
| `Pixmap.Bitmap.ClipRectRoundTrip` | pxlrage.cs:610-632 | push r1, push r2, pop, pop leaves the clip rectangle, its stack and everything else as they were |
| `Pixmap.Bitmap.PenColorRoundTrip` | pxlrage.cs:634-656 | push c1, push c2, pop, pop leaves the pen colour and its stack as they were |
| `Pixmap.Bitmap.SetClipRect` | pxlrage.cs:347-351 | the ClipRect setter clamps the current clip rectangle to the bounds and ignores the value given |
| `Pixmap.Bitmap.SetPen` | pxlrage.cs:356-359 | the Pen setter leaves the pen colour as it was, whatever the value given |
| `Pixmap.Bitmap.Cls` | pxlrage.cs:661-684 | fails with PixmapEmpty on an empty bitmap; otherwise every row of the image is painted with the colour (`Raster.FilledPixel`) |
| `Pixmap.Bitmap.RectFill` | pxlrage.cs:741-767 | fails with PixmapEmpty on an empty bitmap; otherwise the rows of r clamped to the clip rectangle are painted, one WriteRep per row (`Raster.FillRectPixel`) |
| `Pixmap.Bitmap.SetPixel` | pxlrage.cs:794-816 | fails with PixmapEmpty on an empty bitmap; otherwise the pixel is written and becomes the cursor when the clip rectangle contains it, and nothing changes when it does not (`Raster.PlotChangesOnlyItsPixel`) |
| `Pixmap.Bitmap.MoveTo` | pxlrage.cs:818-823 | fails with PixmapEmpty on an empty bitmap; otherwise the cursor becomes p and nothing else changes |
| `Pixmap.Bitmap.LineXForward` | pxlrage.cs:855-878 | the flat forward loop passes exactly the points of `Lines.XForward` to SetPixel, in order |
| `Pixmap.Bitmap.LineXBackward` | pxlrage.cs:880-904 | the same for the flat backward loop |
| `Pixmap.Bitmap.LineYForward` | pxlrage.cs:908-931 | the same for the steep forward loop |
| `Pixmap.Bitmap.LineYBackward` | pxlrage.cs:933-956 | the same for the steep backward loop |
| `Pixmap.Bitmap.Line` | pxlrage.cs:849-966 | fails with PixmapEmpty on an empty bitmap; otherwise SetPixel receives exactly `Lines.LinePoints(begin, end)`, in order |
| `Pixmap.Bitmap.LineTo` | pxlrage.cs:835-836 | a Line from the old cursor to p in the pen colour |
| `Pixmap.Bitmap.RectOutline` | pxlrage.cs:733-739 | four Lines (top, right, left, bottom) in the pen colour, whatever colour is given |
| `Pixmap.Bitmap.Frame3d` | pxlrage.cs:703-716 | nothing for an empty rectangle. Otherwise the left and top edges are drawn in the light colour, then the bottom and right edges in the dark one, and the two colours swap when not raised |
| `Pixmap.Bitmap.Frame3dFill` | pxlrage.cs:718-728 | nothing for an empty rectangle; otherwise the frame, then RectFill of the rectangle inflated by -2 unless that is empty |
| `Pixmap.Bitmap.FrameAndFill` | pxlrage.cs:722-726 | the frame followed by the inner fill, on an allocated bitmap |
| `Pixmap.Bitmap.FillInside` | pxlrage.cs:723-726 | RectFill of Inflate(-2, -2) unless that is empty |
| `Pixmap.Bitmap.PolyOutline` | pxlrage.cs:772-786 | with two or more points the cursor moves to the first point and LineTo visits the rest in the given colour, and then the pen colour is restored; fewer points change nothing; on an empty bitmap MoveTo fails and the pen keeps the new colour |
| `Pixmap.SteepPolyIsSegments` | pxlrage.cs:772-786 | when every segment is steep and every vertex is inside the clip, the cursor follows the vertices, so PolyOutline plots the LinePoints of point 0 → 1, 1 → 2, … one after another |
| `Pixmap.FlatSegmentStopsShort` | pxlrage.cs:778-783 | a flat segment at least two columns wide leaves the cursor on its last pixel, one column short of the vertex, and the next LineTo starts from there |
| `Pixmap.Bitmap.CircleOutline` | pxlrage.cs:974-1044 | fails with PixmapEmpty on an empty bitmap; otherwise SetPixel receives exactly `Conics.CirclePoints`, in order, with f, ddF_x and ddF_y at their closed forms on every pass |
| `Pixmap.Bitmap.SetOctet` | pxlrage.cs:1010-1040 | one pass of the circle loop plots its eight points in the source's order |
| `Pixmap.Bitmap.SetPixel4` | pxlrage.cs:1097-1100 | four SetPixel calls in a row plot exactly those four points, in order. The first ellipse loop makes this run on every pass, as do the second loop (1123-1126), the circle's axis points (987-997) and each half of SetOctet |
| `Pixmap.Bitmap.CircleOutlineRect` | pxlrage.cs:968-971 | the circle centred at (Left + W/2, Top + H/2) with radius min(W, H)/2, C# division |
| `Pixmap.Bitmap.EllipseOutline` | pxlrage.cs:1079-1142 | fails with PixmapEmpty on an empty bitmap; otherwise SetPixel receives exactly `Conics.EllipsePoints`: nothing unless both radii exceed 2 |
| `Pixmap.Bitmap.EllipseRegion1` | pxlrage.cs:1085-1112 | the first loop plots `Conics.Region1` from (RadX, 0). TwoASquare, TwoBSquare, XChange, YChange, EllipseError, StoppingX and StoppingY keep their closed forms on every pass |
| `Pixmap.Bitmap.EllipseRegion2` | pxlrage.cs:1114-1138 | the second loop plots `Conics.Region2` from (0, RadY), with the mirrored invariants |
| `Pixmap.Bitmap.EllipseOutlineRect` | pxlrage.cs:1058-1068 | the ellipse centred in r with radii W/2 and H/2 when r is not empty and both sides exceed 2. Otherwise nothing happens, and even an empty bitmap raises no error |
| `Pixmap.Bitmap.EllipseOutlineCorners` | pxlrage.cs:1070-1077 | as written: centre (Left, Top), radii Left + wd/2 and Top + hd/2, in the pen colour |
| `Pixmap.Bitmap.EllipseOutlineBox` | pxlrage.cs:1070-1077 | the corrected overload: centre (Left + wd/2, Top + hd/2), radii wd/2 and hd/2 |

## Left out

- The iOS `CGBitmapContext`: creating it in Allocate, setting its properties, disposing of it in Release, and `toImage`. It is a native graphics context with no behaviour that can be stated here.
- `Marshal.AllocHGlobal` and `Marshal.FreeHGlobal` are represented only by their outcome. The `allocOk` and `freeOk` parameters of Allocate and Release stand for them.
- A fresh buffer is zero-filled in Dafny, while AllocHGlobal leaves it undefined. No contract states anything about the contents of a new buffer.
- The finalizer, `Dispose`, `GC.SuppressFinalize` and the debug `Console.WriteLine`: runtime plumbing.
- `TPixelIO16` and `TPixelIO24` are not part of the iOS build and not defined in the file. The throwing `TPixelIO` base-class stubs are left out as well; only `TPixelIO32` is modelled.
- `RGBToString`, `ColorToString` and the `Presets` constants: .NET formatting and fixed values.
- The read-only properties (Width, Height, PixelSize, ScanLineSize, PixelFormat, Empty, BoundsRect, the ClipRect and Pen getters). They are the class's fields.
- Overloads that only supply `Pen.Color`, `true` or a `Point` and call the full form: Cls(), RectOutline(r), RectFill(r), PolyOutline(points), SetPixel(x, y), MoveTo(x, y), LineTo(x, y), Line(x1, y1, x2, y2), Line(x1, y1, x2, y2, color), Line(begin, end), Frame3d(r, light, dark), EllipseOutline(r).
- `ScanLine` and `PixelAddr` return byte offsets into the buffer rather than pointers.
- 32-bit overflow: coordinates, offsets and the circle and line terms are unbounded integers. Overflow of `int` in the source (very large coordinates or radii, `Math.Abs(int.MinValue)`) is not modelled.
- `Pixmap.Bitmap.EllipseOutline`: requires `Conics.StoppingFits(RadX, RadY)` whenever both radii exceed 2: the starting StoppingX = 2·RadY²·RadX and StoppingY = 2·RadX²·RadY (pxlrage.cs:1093, 1120) must fit an int. Past that bound they wrap to values unrelated to the ellipse (`Conics.StoppingThreshold`), and the loops run a wrong number of passes or none. At RadX = RadY = 1024 (`EllipseOutline(new Rectangle(0, 0, 2048, 2048), c)`) both become int.MinValue and neither loop runs. At 1300 both wrap to +99,032,704 and both loops run with that stopping value. With 2000 and 600 StoppingY wraps to +505,032,704: the second loop still runs but stops early. Near that bound the later values of StoppingY, YChange, XChange and EllipseError may still leave the int range; the model does not bound them and does not model that wrap-around.
- `Pixmap.Bitmap.EllipseRegion1`, `Pixmap.Bitmap.EllipseRegion2`, `Pixmap.Bitmap.EllipseOutlineRect`, `Pixmap.Bitmap.EllipseOutlineCorners` and `Pixmap.Bitmap.EllipseOutlineBox`: carry the same StoppingFits requires on the radii they pass on.
- `Pixmap.Bitmap.Allocate`: requires that the buffer size 4·W·H fits a C# `int`. In the source a larger size overflows before AllocHGlobal is called.
- `Pixmap.Bitmap.Install`: carries the same IsInt32(4·W·H) requires as Allocate, whose successful path it is.
- `Pixmap.Bitmap.RectFill`: requires that the rows it writes lie inside the buffer. The source does not check this and writes past the end when they do not; `Raster.RectFillCanOverrun` gives such an input. Inside the image the condition holds (`Raster.FillFitsInsideClip`).
- `Pixmap.FillRows`: requires RowsFit, the same in-buffer condition as RectFill, whose loop it is.
- `Pixmap.Bitmap.Frame3dFill`: requires the same of the inner fill, `FillFits` on Inner(r), for the same reason.
- `Pixmap.Bitmap.FrameAndFill`: carries Frame3dFill's FillFits requires on Inner(r).
- `Pixmap.Bitmap.FillInside`: carries the same FillFits requires on Inner(r).
- `Pixmap.Bitmap.PolyOutline`: the points are a Dafny sequence, not a C# array. `GetLowerBound(0)` is 0 for such an array.

## Findings

| source | as written | input that shows it | evidently intended | confidence | as-written member | corrected member |
|---|---|---|---|---|---|---|
| pxlrage.cs:1070-1077 | `EllipseOutline(Left, Top, Right, Bottom)` passes `(Left, Top)` as the centre and the box's centre coordinates `(qx, qy)` as the radii | the box (0, 0)–(9, 9): centre (0, 0), radii 5 and 5, so (-5, 0) is plotted, outside the box | centre `(qx, qy)` and radii `wd / 2`, `hd / 2`: the ellipse the Rectangle overload draws for the same box | high (the locals are named as a centre), not executed | `Conics.CornersAsWrittenLeavesBox` | `Conics.CornersIntendedIsRectEllipse` |
