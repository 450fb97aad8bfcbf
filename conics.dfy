/**
 * TBitmap.CircleOutline and TBitmap.EllipseOutline as the sequences of
 * points they hand to SetPixel. The loop state is carried as (x, y) alone:
 * the source's running error terms, increments and stopping values are
 * closed forms in x and y (CircleError, EllipseError below), which the
 * drawing methods keep as loop invariants.
 */
module Conics {
  import opened CSharpInt
  import opened Geometry

  /** Reflection across the vertical line through c. */
  function MirrorX(c: Point, p: Point): Point {
    Point(2 * c.x - p.x, p.y)
  }

  /** Reflection across the horizontal line through c. */
  function MirrorY(c: Point, p: Point): Point {
    Point(p.x, 2 * c.y - p.y)
  }

  /** Reflection across the diagonal through c: the offsets from c swap. */
  function Transpose(c: Point, p: Point): Point {
    Point(c.x + (p.y - c.y), c.y + (p.x - c.x))
  }

  /** The four points CircleOutline plots before its loop, in order. */
  function AxisPoints(c: Point, r: int): seq<Point> {
    [Point(c.x, c.y + r), Point(c.x, c.y - r), Point(c.x + r, c.y), Point(c.x - r, c.y)]
  }

  /** The eight points one pass of the circle loop plots, in order. */
  function Octet(c: Point, x: int, y: int): seq<Point> {
    [Point(c.x + x, c.y + y), Point(c.x - x, c.y + y), Point(c.x + x, c.y - y), Point(c.x - x, c.y - y),
     Point(c.x + y, c.y + x), Point(c.x - y, c.y + x), Point(c.x + y, c.y - x), Point(c.x - y, c.y - x)]
  }

  /** The circle loop's `f` at the head of the pass that starts at (x, y). */
  function CircleError(r: int, x: int, y: int): int {
    (x + 1) * (x + 1) + y * y - y - r * r
  }

  /**
   * The circle loop from (x, y): while x < y, y steps down when the error
   * is not negative, x steps up, and the octet of the new (x, y) is plotted.
   */
  function CircleArcs(c: Point, r: int, x: int, y: int): seq<Point>
    decreases y - x
  {
    if x < y then
      var y1 := if CircleError(r, x, y) >= 0 then y - 1 else y;
      Octet(c, x + 1, y1) + CircleArcs(c, r, x + 1, y1)
    else []
  }

  /** TBitmap.CircleOutline(midpoint, radius): every point passed to SetPixel, in order. */
  function CirclePoints(c: Point, r: int): seq<Point> {
    AxisPoints(c, r) + CircleArcs(c, r, 0, r)
  }

  /** Each octet is closed under the three reflections. */
  lemma OctetSymmetric(c: Point, x: int, y: int, p: Point)
    requires p in Octet(c, x, y)
    ensures MirrorX(c, p) in Octet(c, x, y)
    ensures MirrorY(c, p) in Octet(c, x, y)
    ensures Transpose(c, p) in Octet(c, x, y)
  {
    var o := Octet(c, x, y);
    var i :| 0 <= i < 8 && o[i] == p;
    var mx := [1, 0, 3, 2, 5, 4, 7, 6];
    var my := [2, 3, 0, 1, 6, 7, 4, 5];
    var tr := [4, 6, 5, 7, 0, 2, 1, 3];
    assert MirrorX(c, p) == o[mx[i]];
    assert MirrorY(c, p) == o[my[i]];
    assert Transpose(c, p) == o[tr[i]];
  }

  lemma {:induction false} ArcsSymmetric(c: Point, r: int, x: int, y: int, p: Point)
    requires p in CircleArcs(c, r, x, y)
    ensures MirrorX(c, p) in CircleArcs(c, r, x, y)
    ensures MirrorY(c, p) in CircleArcs(c, r, x, y)
    ensures Transpose(c, p) in CircleArcs(c, r, x, y)
    decreases y - x
  {
    if x < y {
      var y1 := if CircleError(r, x, y) >= 0 then y - 1 else y;
      if p in Octet(c, x + 1, y1) {
        OctetSymmetric(c, x + 1, y1, p);
      } else {
        ArcsSymmetric(c, r, x + 1, y1, p);
      }
    }
  }

  /**
   * The circle's points are closed under reflection across the centre's
   * vertical axis, its horizontal axis and its diagonal.
   */
  lemma CircleSymmetric(c: Point, r: int, p: Point)
    requires p in CirclePoints(c, r)
    ensures MirrorX(c, p) in CirclePoints(c, r)
    ensures MirrorY(c, p) in CirclePoints(c, r)
    ensures Transpose(c, p) in CirclePoints(c, r)
  {
    if p in CircleArcs(c, r, 0, r) {
      ArcsSymmetric(c, r, 0, r, p);
    }
  }

  /** A radius below one plots only the four axis points: the loop never runs. */
  lemma SmallCircleIsAxisPoints(c: Point, r: int)
    requires r < 1
    ensures CirclePoints(c, r) == AxisPoints(c, r)
  {
  }

  /**
   * The circle loop's increments: stepping y down adds ddF_y = -2 * (y - 1)
   * to f, and stepping x up adds ddF_x = 2 * (x + 1) + 1.
   */
  lemma CircleErrorSteps(r: int, x: int, y: int)
    ensures CircleError(r, x, y - 1) == CircleError(r, x, y) - 2 * (y - 1)
    ensures CircleError(r, x + 1, y) == CircleError(r, x, y) + 2 * (x + 1) + 1
  {
  }

  /** The circle loop starts with f = 1 - radius. */
  lemma CircleErrorStart(r: int)
    ensures CircleError(r, 0, r) == 1 - r
  {
  }

  /** The ellipse loops' EllipseError at (x, y), the same closed form in both regions. */
  function EllipseError(rx: int, ry: int, x: int, y: int): int {
    ry * ry * (x * x) + rx * rx * (y * y) - rx * rx * (ry * ry)
  }

  /**
   * The ellipse loops' increments: a step of y adds YChange, a step of x
   * adds XChange, where each change is the difference of two squares times
   * the other radius squared.
   */
  lemma EllipseErrorSteps(rx: int, ry: int, x: int, y: int)
    ensures EllipseError(rx, ry, x, y + 1) == EllipseError(rx, ry, x, y) + rx * rx * (2 * y + 1)
    ensures EllipseError(rx, ry, x, y - 1) == EllipseError(rx, ry, x, y) + rx * rx * (1 - 2 * y)
    ensures EllipseError(rx, ry, x + 1, y) == EllipseError(rx, ry, x, y) + ry * ry * (2 * x + 1)
    ensures EllipseError(rx, ry, x - 1, y) == EllipseError(rx, ry, x, y) + ry * ry * (1 - 2 * x)
  {
    ScaledSquareSteps(rx * rx, y);
    ScaledSquareSteps(ry * ry, x);
  }

  /** k * t * t moves by k * (2t + 1) when t steps up and by k * (1 - 2t) when it steps down. */
  lemma ScaledSquareSteps(k: int, t: int)
    ensures k * ((t + 1) * (t + 1)) == k * (t * t) + k * (2 * t + 1)
    ensures k * ((t - 1) * (t - 1)) == k * (t * t) + k * (1 - 2 * t)
  {
    assert (t + 1) * (t + 1) == t * t + (2 * t + 1);
    assert (t - 1) * (t - 1) == t * t + (1 - 2 * t);
  }

  /** Both ellipse loops start on the ellipse itself: EllipseError is zero at (rx, 0) and (0, ry). */
  lemma EllipseErrorStarts(rx: int, ry: int)
    ensures EllipseError(rx, ry, rx, 0) == 0 && EllipseError(rx, ry, 0, ry) == 0
  {
  }

  /** The four points one pass of the first ellipse loop plots, in order. */
  function Quad1(c: Point, x: int, y: int): seq<Point> {
    [Point(c.x + x, c.y + y), Point(c.x - x, c.y + y), Point(c.x - x, c.y - y), Point(c.x + x, c.y - y)]
  }

  /** The four points one pass of the second ellipse loop plots, in order. */
  function Quad2(c: Point, x: int, y: int): seq<Point> {
    [Point(c.x - x, c.y - y), Point(c.x + x, c.y - y), Point(c.x + x, c.y + y), Point(c.x - x, c.y + y)]
  }

  /** A pass of the first ellipse loop brings StoppingY closer to StoppingX. */
  lemma Region1Decreases(rx: int, ry: int, x: int, y: int, x1: int)
    requires rx > 0 && x - 1 <= x1 <= x
    ensures 2 * ry * ry * x1 - 2 * rx * rx * (y + 1) < 2 * ry * ry * x - 2 * rx * rx * y
  {
    assert 2 * rx * rx * (y + 1) == 2 * rx * rx * y + 2 * rx * rx;
    assert 2 * ry * ry * x - 2 * ry * ry * x1 == 2 * ry * ry * (x - x1);
  }

  /** A pass of the second ellipse loop brings StoppingX closer to StoppingY. */
  lemma Region2Decreases(rx: int, ry: int, x: int, y: int, y1: int)
    requires ry > 0 && y - 1 <= y1 <= y
    ensures 2 * rx * rx * y1 - 2 * ry * ry * (x + 1) < 2 * rx * rx * y - 2 * ry * ry * x
  {
    assert 2 * ry * ry * (x + 1) == 2 * ry * ry * x + 2 * ry * ry;
    assert 2 * rx * rx * y - 2 * rx * rx * y1 == 2 * rx * rx * (y - y1);
  }

  /** The increments of XChange, YChange, StoppingX and StoppingY over one pass of the first ellipse loop. */
  lemma Region1Increments(rx: int, ry: int, x0: int, y0: int, x: int, y: int)
    requires y == y0 + 1 && x0 - 1 <= x <= x0
    ensures rx * rx * (2 * y + 1) == rx * rx * (2 * y0 + 1) + 2 * rx * rx
    ensures 2 * rx * rx * y == 2 * rx * rx * y0 + 2 * rx * rx
    ensures ry * ry * (1 - 2 * x) == ry * ry * (1 - 2 * x0) + (x0 - x) * (2 * ry * ry)
    ensures 2 * ry * ry * x == 2 * ry * ry * x0 - (x0 - x) * (2 * ry * ry)
  {
    if x == x0 - 1 {
      assert ry * ry * (1 - 2 * x) == ry * ry * (1 - 2 * x0) + 2 * ry * ry;
    }
  }

  /** The increments of XChange, YChange, StoppingX and StoppingY over one pass of the second ellipse loop. */
  lemma Region2Increments(rx: int, ry: int, x0: int, y0: int, x: int, y: int)
    requires x == x0 + 1 && y0 - 1 <= y <= y0
    ensures ry * ry * (2 * x + 1) == ry * ry * (2 * x0 + 1) + 2 * ry * ry
    ensures 2 * ry * ry * x == 2 * ry * ry * x0 + 2 * ry * ry
    ensures rx * rx * (1 - 2 * y) == rx * rx * (1 - 2 * y0) + (y0 - y) * (2 * rx * rx)
    ensures 2 * rx * rx * y == 2 * rx * rx * y0 - (y0 - y) * (2 * rx * rx)
  {
    if y == y0 - 1 {
      assert rx * rx * (1 - 2 * y) == rx * rx * (1 - 2 * y0) + 2 * rx * rx;
    }
  }

  /** The x after a pass of the first ellipse loop from (x, y). */
  function Region1NextX(rx: int, ry: int, x: int, y: int): (x1: int)
    ensures x - 1 <= x1 <= x
  {
    if 2 * EllipseError(rx, ry, x, y + 1) + ry * ry * (1 - 2 * x) > 0 then x - 1 else x
  }

  /** The y after a pass of the second ellipse loop from (x, y). */
  function Region2NextY(rx: int, ry: int, x: int, y: int): (y1: int)
    ensures y - 1 <= y1 <= y
  {
    if 2 * EllipseError(rx, ry, x + 1, y) + rx * rx * (1 - 2 * y) > 0 then y - 1 else y
  }

  /**
   * The first ellipse loop from (x, y), while StoppingX >= StoppingY: plot
   * the quadrant points, step y, and step x back when 2 * EllipseError +
   * XChange is positive.
   */
  function Region1(c: Point, rx: int, ry: int, x: int, y: int): seq<Point>
    requires rx > 0
    decreases 2 * ry * ry * x - 2 * rx * rx * y
  {
    if 2 * ry * ry * x >= 2 * rx * rx * y then
      var x1 := Region1NextX(rx, ry, x, y);
      Region1Decreases(rx, ry, x, y, x1);
      Quad1(c, x, y) + Region1(c, rx, ry, x1, y + 1)
    else []
  }

  /**
   * The second ellipse loop from (x, y), while StoppingX <= StoppingY: plot
   * the quadrant points, step x, and step y back when 2 * EllipseError +
   * YChange is positive.
   */
  function Region2(c: Point, rx: int, ry: int, x: int, y: int): seq<Point>
    requires ry > 0
    decreases 2 * rx * rx * y - 2 * ry * ry * x
  {
    if 2 * ry * ry * x <= 2 * rx * rx * y then
      var y1 := Region2NextY(rx, ry, x, y);
      Region2Decreases(rx, ry, x, y, y1);
      Quad2(c, x, y) + Region2(c, rx, ry, x + 1, y1)
    else []
  }

  /**
   * The starting values of EllipseOutline's StoppingX (2·RadY²·RadX) and
   * StoppingY (2·RadX²·RadY) are C# ints. Beyond that they wrap to values
   * unrelated to the ellipse, so the loops run a wrong number of passes or
   * none at all.
   */
  predicate StoppingFits(rx: int, ry: int) {
    IsInt32(2 * ry * ry * rx) && IsInt32(2 * rx * rx * ry)
  }

  /**
   * For a circle drawn as an ellipse the largest radius is 1023. Past it the
   * wrapped start may be negative (int.MinValue at 1024, also at 1100), so
   * neither loop test holds on entry, or positive (1300), so both loops run
   * with a wrong stopping value. With radii 2000 and 600 only StoppingY
   * wraps, to a positive value: the second loop runs and stops early.
   */
  lemma StoppingThreshold()
    ensures StoppingFits(1023, 1023) && !StoppingFits(1024, 1024)
    ensures Wrap32(2 * 1024 * 1024 * 1024) == IntMin
    ensures Wrap32(2 * 1100 * 1100 * 1100) < 0
    ensures Wrap32(2 * 1300 * 1300 * 1300) == 99_032_704
    ensures IsInt32(2 * 600 * 600 * 2000) && !IsInt32(2 * 2000 * 2000 * 600)
    ensures Wrap32(2 * 2000 * 2000 * 600) == 505_032_704
  {
  }

  /**
   * TBitmap.EllipseOutline(x1, y1, RadX, RadY, Color): every point passed to
   * SetPixel, in order; nothing unless both radii exceed 2.
   */
  function EllipsePoints(c: Point, rx: int, ry: int): seq<Point> {
    if rx > 2 && ry > 2 then Region1(c, rx, ry, rx, 0) + Region2(c, rx, ry, 0, ry) else []
  }

  lemma Quad1Symmetric(c: Point, x: int, y: int, p: Point)
    requires p in Quad1(c, x, y)
    ensures MirrorX(c, p) in Quad1(c, x, y) && MirrorY(c, p) in Quad1(c, x, y)
  {
  }

  lemma Quad2Symmetric(c: Point, x: int, y: int, p: Point)
    requires p in Quad2(c, x, y)
    ensures MirrorX(c, p) in Quad2(c, x, y) && MirrorY(c, p) in Quad2(c, x, y)
  {
  }

  lemma {:induction false} Region1Symmetric(c: Point, rx: int, ry: int, x: int, y: int, p: Point)
    requires rx > 0 && p in Region1(c, rx, ry, x, y)
    ensures MirrorX(c, p) in Region1(c, rx, ry, x, y) && MirrorY(c, p) in Region1(c, rx, ry, x, y)
    decreases 2 * ry * ry * x - 2 * rx * rx * y
  {
    if 2 * ry * ry * x >= 2 * rx * rx * y {
      var x1 := Region1NextX(rx, ry, x, y);
      Region1Decreases(rx, ry, x, y, x1);
      assert Region1(c, rx, ry, x, y) == Quad1(c, x, y) + Region1(c, rx, ry, x1, y + 1);
      if p in Quad1(c, x, y) {
        Quad1Symmetric(c, x, y, p);
      } else {
        Region1Symmetric(c, rx, ry, x1, y + 1, p);
      }
    }
  }

  lemma {:induction false} Region2Symmetric(c: Point, rx: int, ry: int, x: int, y: int, p: Point)
    requires ry > 0 && p in Region2(c, rx, ry, x, y)
    ensures MirrorX(c, p) in Region2(c, rx, ry, x, y) && MirrorY(c, p) in Region2(c, rx, ry, x, y)
    decreases 2 * rx * rx * y - 2 * ry * ry * x
  {
    if 2 * ry * ry * x <= 2 * rx * rx * y {
      var y1 := Region2NextY(rx, ry, x, y);
      Region2Decreases(rx, ry, x, y, y1);
      assert Region2(c, rx, ry, x, y) == Quad2(c, x, y) + Region2(c, rx, ry, x + 1, y1);
      if p in Quad2(c, x, y) {
        Quad2Symmetric(c, x, y, p);
      } else {
        Region2Symmetric(c, rx, ry, x + 1, y1, p);
      }
    }
  }

  /** The ellipse's points are closed under reflection across both of the centre's axes. */
  lemma EllipseSymmetric(c: Point, rx: int, ry: int, p: Point)
    requires p in EllipsePoints(c, rx, ry)
    ensures MirrorX(c, p) in EllipsePoints(c, rx, ry) && MirrorY(c, p) in EllipsePoints(c, rx, ry)
  {
    if p in Region1(c, rx, ry, rx, 0) {
      Region1Symmetric(c, rx, ry, rx, 0, p);
    } else {
      Region2Symmetric(c, rx, ry, 0, ry, p);
    }
  }

  /** Both loops run at least once: the ellipse reaches the ends of both of its axes. */
  lemma EllipseReachesAxisEnds(c: Point, rx: int, ry: int)
    requires rx > 2 && ry > 2
    ensures Point(c.x + rx, c.y) in EllipsePoints(c, rx, ry) && Point(c.x - rx, c.y) in EllipsePoints(c, rx, ry)
    ensures Point(c.x, c.y + ry) in EllipsePoints(c, rx, ry) && Point(c.x, c.y - ry) in EllipsePoints(c, rx, ry)
  {
    assert 2 * ry * ry * rx >= 2 * rx * rx * 0;
    assert 2 * ry * ry * 0 <= 2 * rx * rx * ry;
    assert Quad1(c, rx, 0) <= Region1(c, rx, ry, rx, 0);
    assert Quad2(c, 0, ry) <= Region2(c, rx, ry, 0, ry);
  }

  /**
   * The points TBitmap.EllipseOutline(Left, Top, Right, Bottom) plots as
   * written: centre (Left, Top), radii Left + wd / 2 and Top + hd / 2.
   */
  function CornersAsWritten(left: int, top: int, right: int, bottom: int): seq<Point> {
    EllipsePoints(Point(left, top), left + TruncDiv(right - left + 1, 2), top + TruncDiv(bottom - top + 1, 2))
  }

  /** The same overload with the centre and radii it evidently means. */
  function CornersIntended(left: int, top: int, right: int, bottom: int): seq<Point> {
    var wd, hd := right - left + 1, bottom - top + 1;
    EllipsePoints(Point(left + TruncDiv(wd, 2), top + TruncDiv(hd, 2)), TruncDiv(wd, 2), TruncDiv(hd, 2))
  }

  /** The points TBitmap.EllipseOutline(Rectangle, Color) plots for r. */
  function RectEllipse(r: Rect): seq<Point> {
    if !r.IsEmpty() && r.width > 2 && r.height > 2 then
      EllipsePoints(Point(r.Left() + r.width / 2, r.Top() + r.height / 2), r.width / 2, r.height / 2)
    else []
  }

  /**
   * As written, the corner overload draws outside its own box: for a box
   * at least six pixels each way in the non-negative quadrant, the
   * ellipse reaches x = -(wd / 2), left of column Left.
   */
  lemma CornersAsWrittenLeavesBox(left: int, top: int, right: int, bottom: int)
    requires left >= 0 && top >= 0 && right - left >= 5 && bottom - top >= 5
    ensures Point(-TruncDiv(right - left + 1, 2), top) in CornersAsWritten(left, top, right, bottom)
    ensures -TruncDiv(right - left + 1, 2) < left
  {
    EllipseReachesAxisEnds(Point(left, top), left + TruncDiv(right - left + 1, 2), top + TruncDiv(bottom - top + 1, 2));
  }

  /**
   * The corrected corner overload draws exactly what the Rectangle overload
   * draws for the box from (left, top) to (right, bottom).
   */
  lemma CornersIntendedIsRectEllipse(left: int, top: int, right: int, bottom: int)
    ensures CornersIntended(left, top, right, bottom) == RectEllipse(Rect(left, top, right - left + 1, bottom - top + 1))
  {
  }
}
