/**
 * TBitmap.Line as the sequence of points it hands to SetPixel. The four
 * branches are Bresenham loops over the driving coordinate (x when the line
 * is flatter than 45 degrees, y otherwise); each function below is one of
 * those loops, started from the loop state (current point, error term).
 * Inside a loop a point is plotted only when it is neither `begin` nor
 * `end`; only the steep branches plot `begin` and `end`, after their loop.
 */
module Lines {
  import opened CSharpInt
  import opened Geometry

  /** The step the source derives from a delta: -1, 0 or 1. */
  function Step(d: int): int {
    if d < 0 then -1 else if d == 0 then 0 else 1
  }

  /** The point itself, unless it is one of the two endpoints. */
  function Interior(b: Point, e: Point, n: Point): seq<Point> {
    if n != b && n != e then [n] else []
  }

  /** One pass of the flat forward loop: x steps right; y steps when the error drops below zero. */
  function XForwardStep(b: Point, e: Point, n: Point, err: int): (r: (Point, int))
    ensures r.0.x == n.x + 1
  {
    var err1 := err - (e.y - b.y);
    if err1 < 0 then (Point(n.x + 1, n.y + Step(e.y - b.y)), err1 + (e.x - b.x))
    else (Point(n.x + 1, n.y), err1)
  }

  /** The flat branch with end.X >= begin.X, from point n and error err: x climbs to end.X. */
  function XForward(b: Point, e: Point, n: Point, err: int): seq<Point>
    decreases e.x - n.x
  {
    if n.x < e.x then
      var next := XForwardStep(b, e, n, err);
      Interior(b, e, n) + XForward(b, e, next.0, next.1)
    else []
  }

  /** One pass of the flat backward loop: x steps left; error rises by deltay. */
  function XBackwardStep(b: Point, e: Point, n: Point, err: int): (r: (Point, int))
    ensures r.0.x == n.x - 1
  {
    var err1 := err + (e.y - b.y);
    if err1 < 0 then (Point(n.x - 1, n.y + Step(e.y - b.y)), err1 - (e.x - b.x))
    else (Point(n.x - 1, n.y), err1)
  }

  /** The flat branch with end.X < begin.X: x falls to end.X. */
  function XBackward(b: Point, e: Point, n: Point, err: int): seq<Point>
    decreases n.x - e.x
  {
    if n.x > e.x then
      var next := XBackwardStep(b, e, n, err);
      Interior(b, e, n) + XBackward(b, e, next.0, next.1)
    else []
  }

  /** One pass of the steep forward loop: y steps down the image; error falls by |deltax|. */
  function YForwardStep(b: Point, e: Point, n: Point, err: int): (r: (Point, int))
    ensures r.0.y == n.y + 1
  {
    var err1 := err - Abs(e.x - b.x);
    if err1 < 0 then (Point(n.x + Step(e.x - b.x), n.y + 1), err1 + (e.y - b.y))
    else (Point(n.x, n.y + 1), err1)
  }

  /** The steep branch with end.Y >= begin.Y: y climbs to end.Y. */
  function YForward(b: Point, e: Point, n: Point, err: int): seq<Point>
    decreases e.y - n.y
  {
    if n.y < e.y then
      var next := YForwardStep(b, e, n, err);
      Interior(b, e, n) + YForward(b, e, next.0, next.1)
    else []
  }

  /** One pass of the steep backward loop: y steps up the image; error rises by the signed deltax. */
  function YBackwardStep(b: Point, e: Point, n: Point, err: int): (r: (Point, int))
    ensures r.0.y == n.y - 1
  {
    var err1 := err + (e.x - b.x);
    if err1 < 0 then (Point(n.x + Step(e.x - b.x), n.y - 1), err1 - (e.y - b.y))
    else (Point(n.x, n.y - 1), err1)
  }

  /** The steep branch with end.Y < begin.Y: y falls to end.Y. */
  function YBackward(b: Point, e: Point, n: Point, err: int): seq<Point>
    decreases n.y - e.y
  {
    if n.y > e.y then
      var next := YBackwardStep(b, e, n, err);
      Interior(b, e, n) + YBackward(b, e, next.0, next.1)
    else []
  }

  /** The line is flat: the x branches run. */
  predicate XMajor(b: Point, e: Point) {
    Abs(e.y - b.y) < Abs(e.x - b.x)
  }

  /** TBitmap.Line(begin, end, color): every point passed to SetPixel, in order. */
  function LinePoints(b: Point, e: Point): seq<Point> {
    var dx := e.x - b.x;
    if XMajor(b, e) then
      if e.x >= b.x then XForward(b, e, b, TruncDiv(dx, 2)) else XBackward(b, e, b, TruncDiv(dx, 2))
    else if e.y >= b.y then YForward(b, e, b, Abs(TruncDiv(Abs(dx), 2))) + [b, e]
    else YBackward(b, e, b, TruncDiv(dx, 2)) + [b, e]
  }

  lemma {:induction false} XForwardAvoidsEnds(b: Point, e: Point, n: Point, err: int)
    ensures b !in XForward(b, e, n, err) && e !in XForward(b, e, n, err)
    decreases e.x - n.x
  {
    if n.x < e.x {
      var next := XForwardStep(b, e, n, err);
      XForwardAvoidsEnds(b, e, next.0, next.1);
    }
  }

  lemma {:induction false} XBackwardAvoidsEnds(b: Point, e: Point, n: Point, err: int)
    ensures b !in XBackward(b, e, n, err) && e !in XBackward(b, e, n, err)
    decreases n.x - e.x
  {
    if n.x > e.x {
      var next := XBackwardStep(b, e, n, err);
      XBackwardAvoidsEnds(b, e, next.0, next.1);
    }
  }

  /** A flat line never plots either of its endpoints. */
  lemma FlatLineSkipsEndpoints(b: Point, e: Point)
    requires XMajor(b, e)
    ensures b !in LinePoints(b, e) && e !in LinePoints(b, e)
  {
    var dx := e.x - b.x;
    if e.x >= b.x {
      XForwardAvoidsEnds(b, e, b, TruncDiv(dx, 2));
    } else {
      XBackwardAvoidsEnds(b, e, b, TruncDiv(dx, 2));
    }
  }

  /** A steep line plots begin and then end, after its interior points. */
  lemma SteepLineEndsWithEndpoints(b: Point, e: Point)
    requires !XMajor(b, e)
    ensures |LinePoints(b, e)| >= 2
    ensures LinePoints(b, e)[|LinePoints(b, e)| - 2] == b && LinePoints(b, e)[|LinePoints(b, e)| - 1] == e
  {
  }

  /** Line(p, p) plots p, twice. */
  lemma PointLine(p: Point)
    ensures LinePoints(p, p) == [p, p]
  {
    assert !XMajor(p, p);
    assert YForward(p, p, p, 0) == [];
  }

  /**
   * Past its first step a flat forward loop plots one point per column,
   * from the current column up to the one before end.X.
   */
  lemma {:induction false} XForwardColumns(b: Point, e: Point, n: Point, err: int)
    requires b.x < n.x
    ensures |XForward(b, e, n, err)| == Max(e.x - n.x, 0)
    ensures forall k :: 0 <= k < |XForward(b, e, n, err)| ==> XForward(b, e, n, err)[k].x == n.x + k
    decreases e.x - n.x
  {
    if n.x < e.x {
      var next := XForwardStep(b, e, n, err);
      XForwardColumns(b, e, next.0, next.1);
      assert XForward(b, e, n, err) == [n] + XForward(b, e, next.0, next.1);
    }
  }

  lemma {:induction false} XBackwardColumns(b: Point, e: Point, n: Point, err: int)
    requires n.x < b.x
    ensures |XBackward(b, e, n, err)| == Max(n.x - e.x, 0)
    ensures forall k :: 0 <= k < |XBackward(b, e, n, err)| ==> XBackward(b, e, n, err)[k].x == n.x - k
    decreases n.x - e.x
  {
    if n.x > e.x {
      var next := XBackwardStep(b, e, n, err);
      XBackwardColumns(b, e, next.0, next.1);
      assert XBackward(b, e, n, err) == [n] + XBackward(b, e, next.0, next.1);
    }
  }

  lemma {:induction false} YForwardRows(b: Point, e: Point, n: Point, err: int)
    requires b.y < n.y
    ensures |YForward(b, e, n, err)| == Max(e.y - n.y, 0)
    ensures forall k :: 0 <= k < |YForward(b, e, n, err)| ==> YForward(b, e, n, err)[k].y == n.y + k
    decreases e.y - n.y
  {
    if n.y < e.y {
      var next := YForwardStep(b, e, n, err);
      YForwardRows(b, e, next.0, next.1);
      assert YForward(b, e, n, err) == [n] + YForward(b, e, next.0, next.1);
    }
  }

  lemma {:induction false} YBackwardRows(b: Point, e: Point, n: Point, err: int)
    requires n.y < b.y
    ensures |YBackward(b, e, n, err)| == Max(n.y - e.y, 0)
    ensures forall k :: 0 <= k < |YBackward(b, e, n, err)| ==> YBackward(b, e, n, err)[k].y == n.y - k
    decreases n.y - e.y
  {
    if n.y > e.y {
      var next := YBackwardStep(b, e, n, err);
      YBackwardRows(b, e, next.0, next.1);
      assert YBackward(b, e, n, err) == [n] + YBackward(b, e, next.0, next.1);
    }
  }

  /**
   * A flat line plots |deltax| - 1 points, the k-th in column
   * begin.X + (k + 1) toward end: one per column strictly between the ends.
   */
  lemma FlatLineColumns(b: Point, e: Point)
    requires XMajor(b, e)
    ensures |LinePoints(b, e)| == Abs(e.x - b.x) - 1
    ensures forall k :: 0 <= k < |LinePoints(b, e)| ==>
      LinePoints(b, e)[k].x == if e.x > b.x then b.x + k + 1 else b.x - k - 1
  {
    var err := TruncDiv(e.x - b.x, 2);
    if e.x >= b.x {
      var next := XForwardStep(b, e, b, err);
      assert XForward(b, e, b, err) == XForward(b, e, next.0, next.1);
      XForwardColumns(b, e, next.0, next.1);
    } else {
      var next := XBackwardStep(b, e, b, err);
      assert XBackward(b, e, b, err) == XBackward(b, e, next.0, next.1);
      XBackwardColumns(b, e, next.0, next.1);
    }
  }

  /**
   * A steep line plots |deltay| - 1 interior points (none when begin and end
   * share a row), the k-th in row begin.Y + (k + 1) toward end, then begin
   * and end.
   */
  lemma SteepLineRows(b: Point, e: Point)
    requires !XMajor(b, e)
    ensures |LinePoints(b, e)| == Max(Abs(e.y - b.y) - 1, 0) + 2
    ensures forall k :: 0 <= k < |LinePoints(b, e)| - 2 ==>
      LinePoints(b, e)[k].y == if e.y > b.y then b.y + k + 1 else b.y - k - 1
  {
    if e.y >= b.y {
      var err := Abs(TruncDiv(Abs(e.x - b.x), 2));
      if e.y > b.y {
        var next := YForwardStep(b, e, b, err);
        assert YForward(b, e, b, err) == YForward(b, e, next.0, next.1);
        YForwardRows(b, e, next.0, next.1);
      }
      assert LinePoints(b, e)[..|LinePoints(b, e)| - 2] == YForward(b, e, b, err);
    } else {
      var err := TruncDiv(e.x - b.x, 2);
      var next := YBackwardStep(b, e, b, err);
      assert YBackward(b, e, b, err) == YBackward(b, e, next.0, next.1);
      YBackwardRows(b, e, next.0, next.1);
      assert LinePoints(b, e)[..|LinePoints(b, e)| - 2] == YBackward(b, e, b, err);
    }
  }

  lemma {:induction false} XForwardStaysOnRow(b: Point, e: Point, n: Point, err: int)
    requires e.y < b.y && err >= 0
    ensures forall p :: p in XForward(b, e, n, err) ==> p.y == n.y
    decreases e.x - n.x
  {
    if n.x < e.x {
      var next := XForwardStep(b, e, n, err);
      XForwardStaysOnRow(b, e, next.0, next.1);
    }
  }

  /**
   * The signed deltay makes a flat forward line that rises (end.Y < begin.Y)
   * keep begin's row: its error term only grows, so y never steps.
   */
  lemma RisingFlatLineStaysOnRow(b: Point, e: Point)
    requires XMajor(b, e) && e.x >= b.x && e.y < b.y
    ensures forall p :: p in LinePoints(b, e) ==> p.y == b.y
  {
    XForwardStaysOnRow(b, e, b, TruncDiv(e.x - b.x, 2));
  }

  lemma {:induction false} YBackwardStaysInColumn(b: Point, e: Point, n: Point, err: int)
    requires e.x > b.x && err >= 0
    ensures forall p :: p in YBackward(b, e, n, err) ==> p.x == n.x
    decreases n.y - e.y
  {
    if n.y > e.y {
      var next := YBackwardStep(b, e, n, err);
      YBackwardStaysInColumn(b, e, next.0, next.1);
    }
  }

  /**
   * The signed deltax makes a steep line that goes up the image (end.Y <
   * begin.Y) and to the right (end.X > begin.X) keep begin's column for
   * every interior point.
   */
  lemma RightwardSteepRisingLineStaysInColumn(b: Point, e: Point)
    requires !XMajor(b, e) && e.y < b.y && e.x > b.x
    ensures forall k :: 0 <= k < |LinePoints(b, e)| - 2 ==> LinePoints(b, e)[k].x == b.x
  {
    var err := TruncDiv(e.x - b.x, 2);
    YBackwardStaysInColumn(b, e, b, err);
    assert LinePoints(b, e)[..|LinePoints(b, e)| - 2] == YBackward(b, e, b, err);
    forall k | 0 <= k < |LinePoints(b, e)| - 2
      ensures LinePoints(b, e)[k].x == b.x
    {
      assert LinePoints(b, e)[k] in YBackward(b, e, b, err);
    }
  }

  lemma {:induction false} XBackwardKeepsRow(b: Point, e: Point, n: Point, err: int)
    requires e.y > b.y && err >= 0
    ensures forall p :: p in XBackward(b, e, n, err) ==> p.y == n.y
    decreases n.x - e.x
  {
    if n.x > e.x {
      var next := XBackwardStep(b, e, n, err);
      XBackwardKeepsRow(b, e, next.0, next.1);
    }
  }

  /**
   * The signed deltay also breaks a flat backward line that goes down the
   * image (end.Y > begin.Y): after at most one step its error term stays
   * non-negative, so every point lies on begin's row or the one below it.
   */
  lemma FallingBackwardFlatLineStepsAtMostOnce(b: Point, e: Point)
    requires XMajor(b, e) && e.x < b.x && e.y > b.y
    ensures forall p :: p in LinePoints(b, e) ==> p.y == b.y || p.y == b.y + 1
  {
    var err := TruncDiv(e.x - b.x, 2);
    var next := XBackwardStep(b, e, b, err);
    assert XBackward(b, e, b, err) == XBackward(b, e, next.0, next.1);
    XBackwardKeepsRow(b, e, next.0, next.1);
  }

  /** A horizontal line five pixels long plots the four points between the ends. */
  lemma HorizontalLineExample(x: int, y: int)
    ensures LinePoints(Point(x, y), Point(x + 5, y)) ==
      [Point(x + 1, y), Point(x + 2, y), Point(x + 3, y), Point(x + 4, y)]
  {
    var b, e := Point(x, y), Point(x + 5, y);
    assert XMajor(b, e) && TruncDiv(5, 2) == 2;
    forall k: int
      ensures XForwardStep(b, e, Point(k, y), 2) == (Point(k + 1, y), 2)
    {
    }
    assert XForward(b, e, Point(x + 5, y), 2) == [];
    assert XForward(b, e, Point(x + 4, y), 2) == [Point(x + 4, y)];
    assert XForward(b, e, Point(x + 3, y), 2) == [Point(x + 3, y), Point(x + 4, y)];
    assert XForward(b, e, Point(x + 2, y), 2) == [Point(x + 2, y), Point(x + 3, y), Point(x + 4, y)];
    assert XForward(b, e, Point(x + 1, y), 2) == [Point(x + 1, y), Point(x + 2, y), Point(x + 3, y), Point(x + 4, y)];
  }

  /** A vertical line three pixels long plots its two interior points, then both ends. */
  lemma VerticalLineExample(x: int, y: int)
    ensures LinePoints(Point(x, y), Point(x, y + 3)) ==
      [Point(x, y + 1), Point(x, y + 2), Point(x, y), Point(x, y + 3)]
  {
    var b, e := Point(x, y), Point(x, y + 3);
    assert !XMajor(b, e);
    assert Abs(TruncDiv(Abs(e.x - b.x), 2)) == 0;
    forall k: int
      ensures YForwardStep(b, e, Point(x, k), 0) == (Point(x, k + 1), 0)
    {
    }
    assert YForward(b, e, Point(x, y + 3), 0) == [];
    assert YForward(b, e, Point(x, y + 2), 0) == [Point(x, y + 2)];
    assert YForward(b, e, Point(x, y + 1), 0) == [Point(x, y + 1), Point(x, y + 2)];
  }

  /** Four across and one up: the line stays on the starting row instead of reaching the end's. */
  lemma RisingLineExample(x: int, y: int)
    ensures LinePoints(Point(x, y), Point(x + 4, y - 1)) == [Point(x + 1, y), Point(x + 2, y), Point(x + 3, y)]
  {
    var b, e := Point(x, y), Point(x + 4, y - 1);
    assert XMajor(b, e) && TruncDiv(4, 2) == 2;
    forall k: int, m: int | m >= 0
      ensures XForwardStep(b, e, Point(k, y), m) == (Point(k + 1, y), m + 1)
    {
    }
    assert XForward(b, e, Point(x + 4, y), 6) == [];
    assert XForward(b, e, Point(x + 3, y), 5) == [Point(x + 3, y)];
    assert XForward(b, e, Point(x + 2, y), 4) == [Point(x + 2, y), Point(x + 3, y)];
    assert XForward(b, e, Point(x + 1, y), 3) == [Point(x + 1, y), Point(x + 2, y), Point(x + 3, y)];
  }
}
