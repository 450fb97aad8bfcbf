/**
 * Points and rectangles as System.Drawing defines them, and the pure
 * geometry of TBitmap: row stride and the two rectangle clamps.
 */
module Geometry {
  import opened CSharpInt

  datatype Point = Point(x: int, y: int)

  /** Point.Empty */
  const OriginPoint := Point(0, 0)

  /**
   * System.Drawing.Rectangle: an origin and an extent. Right and Bottom lie
   * one past the last column and row, and Contains is half-open.
   */
  datatype Rect = Rect(x: int, y: int, width: int, height: int) {
    function Left(): int { x }
    function Top(): int { y }
    function Right(): int { x + width }
    function Bottom(): int { y + height }

    /** Rectangle.IsEmpty: all four fields are zero, whatever the area. */
    predicate IsEmpty() {
      x == 0 && y == 0 && width == 0 && height == 0
    }

    predicate Contains(px: int, py: int) {
      x <= px < x + width && y <= py < y + height
    }

    /** Rectangle.Inflate(dx, dy): grows by dx on the left and on the right, dy at the top and bottom. */
    function Inflate(dx: int, dy: int): (r: Rect)
      ensures r.Left() == Left() - dx && r.Right() == Right() + dx
      ensures r.Top() == Top() - dy && r.Bottom() == Bottom() + dy
    {
      Rect(x - dx, y - dy, width + 2 * dx, height + 2 * dy)
    }
  }

  /** Rectangle.Empty */
  const EmptyRect := Rect(0, 0, 0, 0)

  /** (px, py) lies in r when Right and Bottom are read as the last column and row. */
  predicate ClosedContains(r: Rect, px: int, py: int) {
    r.Left() <= px <= r.Right() && r.Top() <= py <= r.Bottom()
  }

  function Min(a: int, b: int): int { if a < b then a else b }
  function Max(a: int, b: int): int { if a < b then b else a }

  /** The bounds TBitmap.Allocate records: the constructor is (x, y, width, height). */
  function BoundsFor(width: int, height: int): Rect {
    Rect(0, 0, width - 1, height - 1)
  }

  /**
   * TBitmap.CalcStrideAlign: the byte length of a row of `value` elements
   * rounded up to a multiple of `alignSize`.
   */
  function CalcStrideAlign(value: int, elementSize: int, alignSize: int): (r: int)
    requires alignSize > 0
    ensures r >= value * elementSize
    ensures value * elementSize >= 0 ==> r % alignSize == 0 && r < value * elementSize + alignSize
  {
    var t := value * elementSize;
    AlignUpIsLeastMultiple(t, alignSize);
    if TruncMod(t, alignSize) > 0 then (t + alignSize) - TruncMod(t, alignSize) else t
  }

  lemma AlignUpIsLeastMultiple(t: int, a: int)
    requires a > 0
    ensures t >= 0 && TruncMod(t, a) > 0 ==> ((t + a) - TruncMod(t, a)) % a == 0
    ensures t >= 0 && TruncMod(t, a) <= 0 ==> t % a == 0
  {
    if t >= 0 {
      var q := TruncDiv(t, a);
      assert t == q * a + TruncMod(t, a);
      assert (t + a) - TruncMod(t, a) == (q + 1) * a;
      MultipleMod(q + 1, a);
      MultipleMod(q, a);
    }
  }

  lemma MultipleMod(k: int, a: int)
    requires a > 0
    ensures (k * a) % a == 0
  {
    var q, m := (k * a) / a, (k * a) % a;
    assert (k - q) * a == m;
    if k - q >= 1 {
      assert false;
    } else if k - q <= -1 {
      assert false;
    }
  }

  /** Rows of 4-byte pixels are already aligned; 3-byte pixels are padded. */
  lemma StrideExamples()
    ensures CalcStrideAlign(5, 4, 4) == 20
    ensures CalcStrideAlign(3, 3, 4) == 12
  {
  }

  /** A row of 4-byte pixels needs no padding. */
  lemma {:induction false} StrideOfFourBytePixels(width: int)
    requires width >= 0
    ensures CalcStrideAlign(width, 4, 4) == 4 * width
  {
    assert TruncMod(4 * width, 4) == 0;
  }

  /**
   * TBitmap.AdjustToBounds: clamps r to the bounds. Both rectangles are read
   * as if Right and Bottom were the last column and row, and the result is
   * built with the (x, y, width, height) constructor, so its own Right and
   * Bottom come out one further.
   */
  function AdjustToBounds(bounds: Rect, r: Rect): (a: Rect)
    ensures bounds == EmptyRect ==> a == EmptyRect
    ensures bounds != EmptyRect ==> forall px, py :: a.Contains(px, py) <==>
      (ClosedContains(r, px, py) && 0 <= px <= bounds.Right() && 0 <= py <= bounds.Bottom())
  {
    if bounds != EmptyRect then
      var dx := if r.Left() < 0 then 0 else r.Left();
      var dy := if r.Top() < 0 then 0 else r.Top();
      var dx2 := if r.Right() > bounds.Right() then bounds.Right() else r.Right();
      var dy2 := if r.Bottom() > bounds.Bottom() then bounds.Bottom() else r.Bottom();
      Rect(dx, dy, (dx2 - dx) + 1, (dy2 - dy) + 1)
    else
      EmptyRect
  }

  /** TBitmap.AdjustToClipRect: the same clamp against the current clip rectangle. */
  function AdjustToClipRect(clip: Rect, r: Rect): (a: Rect)
    ensures clip == EmptyRect ==> a == EmptyRect
    ensures clip != EmptyRect ==> forall px, py :: a.Contains(px, py) <==>
      (ClosedContains(r, px, py) && ClosedContains(clip, px, py))
  {
    if clip != EmptyRect then
      var dx := if r.Left() < clip.Left() then clip.Left() else r.Left();
      var dy := if r.Top() < clip.Top() then clip.Top() else r.Top();
      var dx2 := if r.Right() > clip.Right() then clip.Right() else r.Right();
      var dy2 := if r.Bottom() > clip.Bottom() then clip.Bottom() else r.Bottom();
      Rect(dx, dy, (dx2 - dx) + 1, (dy2 - dy) + 1)
    else
      EmptyRect
  }

  /**
   * The edges of a clamp: the larger left and top edge, and one past the
   * smaller right and bottom edge.
   */
  lemma AdjustToBoundsEdges(bounds: Rect, r: Rect)
    requires bounds != EmptyRect
    ensures var a := AdjustToBounds(bounds, r);
      a.Left() == Max(r.Left(), 0) && a.Top() == Max(r.Top(), 0) &&
      a.Right() == Min(r.Right(), bounds.Right()) + 1 && a.Bottom() == Min(r.Bottom(), bounds.Bottom()) + 1
  {
  }

  lemma AdjustToClipRectEdges(clip: Rect, r: Rect)
    requires clip != EmptyRect
    ensures var a := AdjustToClipRect(clip, r);
      a.Left() == Max(r.Left(), clip.Left()) && a.Top() == Max(r.Top(), clip.Top()) &&
      a.Right() == Min(r.Right(), clip.Right()) + 1 && a.Bottom() == Min(r.Bottom(), clip.Bottom()) + 1
  {
  }

  /** Against bounds anchored at the origin, the two clamps agree. */
  lemma AdjustToBoundsIsClipAgainstBounds(bounds: Rect, r: Rect)
    requires bounds.Left() == 0 && bounds.Top() == 0
    ensures AdjustToBounds(bounds, r) == AdjustToClipRect(bounds, r)
  {
  }

  /** A 1x1 bitmap's bounds are Rectangle.Empty, so nothing clips into them. */
  lemma OnePixelBoundsAreEmpty()
    ensures BoundsFor(1, 1) == EmptyRect
    ensures forall r: Rect :: AdjustToBounds(BoundsFor(1, 1), r) == EmptyRect
  {
  }

  /** The bounds rectangle never contains the last column or the last row. */
  lemma BoundsMissLastColumnAndRow(width: int, height: int, px: int, py: int)
    requires BoundsFor(width, height).Contains(px, py)
    ensures 0 <= px < width - 1 && 0 <= py < height - 1
  {
  }

  /**
   * Clamping the bounds to themselves does not give the bounds back: the
   * result reaches one column and one row further, up to width and height.
   */
  lemma AdjustingBoundsGrowsThem(width: int, height: int)
    requires width > 0 && height > 0 && (width > 1 || height > 1)
    ensures AdjustToBounds(BoundsFor(width, height), BoundsFor(width, height)) == Rect(0, 0, width, height)
  {
  }

  /**
   * AdjustToClipRect is not idempotent: while r ends before the clip does,
   * every further application moves the right edge out by one.
   */
  lemma AdjustToClipRectGrows(clip: Rect, r: Rect)
    requires clip != EmptyRect && r.Right() < clip.Right()
    ensures AdjustToClipRect(clip, AdjustToClipRect(clip, r)).Right() == AdjustToClipRect(clip, r).Right() + 1
    ensures AdjustToClipRect(clip, AdjustToClipRect(clip, r)) != AdjustToClipRect(clip, r)
  {
  }
}
