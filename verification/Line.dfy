/**
  The integer line rasterisers `drawLine2D` and `drawLine3D`, and one closed form for both.
 */
module Line {
  import opened Screen
  import opened Cube

  /** `k * m / d` rounded to the nearest whole number, halves down. */
  function Rounded(k: nat, m: nat, d: nat): nat
    requires d > 0
  {
    (2 * (k * m) + d - 1) / (2 * d)
  }

  /** One coordinate of the `k`-th of `d` steps from `from` to `to`. */
  function Coordinate(from: int, to: int, k: nat, d: nat): int {
    if d == 0 then from
    else if to < from then from - Rounded(k, from - to, d)
    else from + Rounded(k, to - from, d)
  }

  /** The number of steps of a 2D line: the longer of its two extents. */
  function Steps2(p: Point2, q: Point2): nat {
    Max(Abs(q.x - p.x), Abs(q.y - p.y))
  }

  function LinePoint2(p: Point2, q: Point2, k: nat): Point2 {
    Point2(Coordinate(p.x, q.x, k, Steps2(p, q)), Coordinate(p.y, q.y, k, Steps2(p, q)))
  }

  function Steps3(p: Point3, q: Point3): nat {
    Max(Abs(q.x - p.x), Max(Abs(q.y - p.y), Abs(q.z - p.z)))
  }

  function LinePoint3(p: Point3, q: Point3, k: nat): Point3 {
    var d := Steps3(p, q);
    Point3(Coordinate(p.x, q.x, k, d), Coordinate(p.y, q.y, k, d), Coordinate(p.z, q.z, k, d))
  }

  // ----- Rounding -----

  /** The defining bounds: less than half a unit above, at most half a unit below. */
  lemma RoundedBounds(k: nat, m: nat, d: nat)
    requires d > 0
    ensures var r := Rounded(k, m, d); 2 * (r * d) - d < 2 * (k * m) <= 2 * (r * d) + d
  {
    var n, r := 2 * (k * m) + d - 1, Rounded(k, m, d);
    assert n == r * (2 * d) + n % (2 * d);
    assert r * (2 * d) == 2 * (r * d);
  }

  lemma RoundedUnique(k: nat, m: nat, d: nat, r: nat)
    requires d > 0 && 2 * (r * d) - d < 2 * (k * m) <= 2 * (r * d) + d
    ensures Rounded(k, m, d) == r
  {
    var s := Rounded(k, m, d);
    RoundedBounds(k, m, d);
    if s < r {
      assert s * d + d <= r * d by { MulGap(s, r, d); }
    } else if r < s {
      assert r * d + d <= s * d by { MulGap(r, s, d); }
    }
  }

  lemma MulGap(a: int, b: int, d: nat)
    requires a < b
    ensures a * d + d <= b * d
  {
    assert (a + 1) * d <= b * d;
  }

  lemma RoundedEnds(m: nat, d: nat)
    requires d > 0
    ensures Rounded(0, m, d) == 0 && Rounded(d, m, d) == m
  {
    RoundedUnique(0, m, d, 0);
    assert d * m == m * d;
    RoundedUnique(d, m, d, m);
  }

  /** The major axis advances by one every step. */
  lemma RoundedMajor(k: nat, d: nat)
    requires d > 0
    ensures Rounded(k, d, d) == k
  {
    RoundedUnique(k, d, d, k);
  }

  /** One more step moves a coordinate by one exactly when the exact position has passed the half. */
  lemma RoundedStep(k: nat, m: nat, d: nat)
    requires d > 0 && m <= d
    ensures var r := Rounded(k, m, d);
            Rounded(k + 1, m, d) == if 2 * (k * m) + 2 * m > 2 * (r * d) + d then r + 1 else r
  {
    var r := Rounded(k, m, d);
    RoundedBounds(k, m, d);
    assert (k + 1) * m == k * m + m;
    if 2 * (k * m) + 2 * m > 2 * (r * d) + d {
      assert (r + 1) * d == r * d + d;
      RoundedUnique(k + 1, m, d, r + 1);
    } else {
      RoundedUnique(k + 1, m, d, r);
    }
  }

  lemma RoundedZero(k: nat, d: nat)
    requires d > 0
    ensures Rounded(k, 0, d) == 0
  {
    RoundedUnique(k, 0, d, 0);
  }

  lemma CoordinateEnds(from: int, to: int, d: nat)
    requires Abs(to - from) <= d
    ensures Coordinate(from, to, 0, d) == from && Coordinate(from, to, d, d) == to
  {
    if d > 0 {
      RoundedEnds(Abs(to - from), d);
    }
  }

  /** The drawn coordinate is within half a pixel of the ideal one. */
  lemma CoordinateNear(from: int, to: int, k: nat, d: nat)
    requires Abs(to - from) <= d && k <= d
    ensures Abs(2 * ((Coordinate(from, to, k, d) - from) * d) - 2 * (k * (to - from))) <= d
  {
    if d > 0 {
      var m := Abs(to - from);
      RoundedBounds(k, m, d);
      hide Rounded;
      if to < from {
        assert k * (to - from) == -(k * m);
        assert (Coordinate(from, to, k, d) - from) * d == -(Rounded(k, m, d) * d);
      }
    }
  }

  /** From one step to the next a coordinate stays or moves by one towards its end; on the axis
      with the longest extent it moves. */
  lemma CoordinateMoves(from: int, to: int, k: nat, d: nat)
    requires d > 0 && Abs(to - from) <= d
    ensures var c := Coordinate(from, to, k + 1, d) - Coordinate(from, to, k, d);
            && (c == 0 || c == if to < from then -1 else 1)
            && (Abs(to - from) == d ==> c != 0)
  {
    var m := Abs(to - from);
    RoundedStep(k, m, d);
    if m == d {
      RoundedMajor(k, d);
      RoundedMajor(k + 1, d);
    }
  }

  // ----- 2D lines -----

  /** The error value before step `k`: with i steps made in x and j in y, (j+1)*dx - (i+1)*|dy|. */
  function Error2(dx: nat, dy: nat, k: nat): int
    requires Max(dx, dy) > 0
  {
    (Rounded(k, dy, Max(dx, dy)) + 1) * dx - (Rounded(k, dx, Max(dx, dy)) + 1) * dy
  }

  predicate MovesX(dx: nat, dy: nat, k: nat)
    requires Max(dx, dy) > 0
  {
    Rounded(k + 1, dx, Max(dx, dy)) == Rounded(k, dx, Max(dx, dy)) + 1
  }

  predicate MovesY(dx: nat, dy: nat, k: nat)
    requires Max(dx, dy) > 0
  {
    Rounded(k + 1, dy, Max(dx, dy)) == Rounded(k, dy, Max(dx, dy)) + 1
  }

  /** The error in terms of the rounded coordinates `i` and `j`. */
  lemma Error2Of(dx: nat, dy: nat, k: nat, i: nat, j: nat)
    requires Max(dx, dy) > 0 && i == Rounded(k, dx, Max(dx, dy)) && j == Rounded(k, dy, Max(dx, dy))
    ensures Error2(dx, dy, k) == j * dx + dx - i * dy - dy
  {
    hide Rounded;
    assert (j + 1) * dx == j * dx + dx;
    assert (i + 1) * dy == i * dy + dy;
  }

  lemma WideLine(dx: nat, dy: nat, k: nat)
    requires dx > 0 && dx >= dy
    ensures MovesX(dx, dy, k) && 2 * Error2(dx, dy, k) + dy > 0
    ensures MovesY(dx, dy, k) <==> 2 * Error2(dx, dy, k) < dx
    ensures !MovesY(dx, dy, k) ==> Rounded(k + 1, dy, dx) == Rounded(k, dy, dx)
  {
    RoundedStep(k, dy, dx);
    RoundedMajor(k, dx);
    RoundedMajor(k + 1, dx);
    RoundedBounds(k, dy, dx);
    hide Rounded;
    Error2Of(dx, dy, k, k, Rounded(k, dy, dx));
    hide Error2;
  }

  lemma SteepLine(dx: nat, dy: nat, k: nat)
    requires dy > dx
    ensures MovesY(dx, dy, k) && 2 * Error2(dx, dy, k) < dx
    ensures MovesX(dx, dy, k) <==> 2 * Error2(dx, dy, k) + dy > 0
    ensures !MovesX(dx, dy, k) ==> Rounded(k + 1, dx, dy) == Rounded(k, dx, dy)
  {
    RoundedStep(k, dx, dy);
    RoundedMajor(k, dy);
    RoundedMajor(k + 1, dy);
    RoundedBounds(k, dx, dy);
    hide Rounded;
    Error2Of(dx, dy, k, Rounded(k, dx, dy), k);
    hide Error2;
  }

  lemma Error2Moves(dx: nat, dy: nat, k: nat, x: bool, y: bool)
    requires Max(dx, dy) > 0
    requires Rounded(k + 1, dx, Max(dx, dy)) == Rounded(k, dx, Max(dx, dy)) + (if x then 1 else 0)
    requires Rounded(k + 1, dy, Max(dx, dy)) == Rounded(k, dy, Max(dx, dy)) + (if y then 1 else 0)
    ensures Error2(dx, dy, k + 1) == Error2(dx, dy, k) - (if x then dy else 0) + (if y then dx else 0)
  {
    hide Rounded;
    var i, j := Rounded(k, dx, Max(dx, dy)), Rounded(k, dy, Max(dx, dy));
    assert (i + 2) * dy == (i + 1) * dy + dy;
    assert (j + 2) * dx == (j + 1) * dx + dx;
  }

  /** The two tests on the error value say which of the rounded coordinates moves next. */
  lemma Error2Decides(dx: nat, dy: nat, k: nat)
    requires Max(dx, dy) > 0
    ensures var d, e := Max(dx, dy), Error2(dx, dy, k);
            && Rounded(k + 1, dx, d) == Rounded(k, dx, d) + (if 2 * e + dy > 0 then 1 else 0)
            && Rounded(k + 1, dy, d) == Rounded(k, dy, d) + (if 2 * e < dx then 1 else 0)
            && Error2(dx, dy, k + 1) == e - (if 2 * e + dy > 0 then dy else 0) + (if 2 * e < dx then dx else 0)
  {
    if dx >= dy {
      WideLine(dx, dy, k);
    } else {
      SteepLine(dx, dy, k);
    }
    Error2Moves(dx, dy, k, 2 * Error2(dx, dy, k) + dy > 0, 2 * Error2(dx, dy, k) < dx);
  }


  /** The first `n` points of a 2D line. */
  function Trail2(p: Point2, q: Point2, n: nat): seq<Point2> {
    seq(n, k requires 0 <= k < n => LinePoint2(p, q, k))
  }

  /** The whole line: both ends and every step between them. */
  function Line2(p: Point2, q: Point2): seq<Point2> {
    Trail2(p, q, Steps2(p, q) + 1)
  }

  lemma Arrives(p: Point2, q: Point2, k: nat)
    requires k <= Steps2(p, q)
    ensures LinePoint2(p, q, k) == q <==> k == Steps2(p, q)
  {
    var d := Steps2(p, q);
    CoordinateEnds(p.x, q.x, d);
    CoordinateEnds(p.y, q.y, d);
    if d > 0 {
      RoundedMajor(k, d);
    }
  }

  /** The loop's two tests move it from each point of the line to the next. */
  /** A coordinate follows its rounded distance. */
  lemma CoordinateStep(from: int, to: int, k: nat, d: nat, moves: bool)
    requires d > 0 && Rounded(k + 1, Abs(to - from), d) == Rounded(k, Abs(to - from), d) + (if moves then 1 else 0)
    ensures Coordinate(from, to, k + 1, d) ==
            Coordinate(from, to, k, d) + (if moves then (if from < to then 1 else -1) else 0)
  {
    RoundedZero(k, d);
    RoundedZero(k + 1, d);
    hide Rounded;
  }

  lemma NextPoint2(p: Point2, q: Point2, k: nat)
    requires k < Steps2(p, q)
    ensures var dx, dy := Abs(q.x - p.x), Abs(q.y - p.y);
            var e := Error2(dx, dy, k);
            && LinePoint2(p, q, k + 1).x ==
               LinePoint2(p, q, k).x + (if 2 * e + dy > 0 then (if p.x < q.x then 1 else -1) else 0)
            && LinePoint2(p, q, k + 1).y ==
               LinePoint2(p, q, k).y + (if 2 * e < dx then (if p.y < q.y then 1 else -1) else 0)
  {
    var dx, dy := Abs(q.x - p.x), Abs(q.y - p.y);
    Error2Decides(dx, dy, k);
    hide Rounded, Error2, Coordinate;
    var e := Error2(dx, dy, k);
    CoordinateStep(p.x, q.x, k, Steps2(p, q), 2 * e + dy > 0);
    CoordinateStep(p.y, q.y, k, Steps2(p, q), 2 * e < dx);
  }

  method DrawLine2D(cube: Cube, screenNr: ScreenNumber, p: Point2, q: Point2, col: Color)
    requires cube.Valid()
    modifies cube.screens
    ensures cube.Valid() && cube.Picture() == Paint(old(cube.Picture()), OnScreen(screenNr, Line2(p, q)), col)
  {
    hide Paint, LinePoint2, Error2, SetVoxel;
    var x0, y0 := p.x, p.y;
    var dx, sx := Abs(q.x - x0), if x0 < q.x then 1 else -1;
    var dy, sy := -(Abs(q.y - y0) as int), if y0 < q.y then 1 else -1;
    var err := dx + dy;
    ghost var start, d, k := cube.Picture(), Steps2(p, q), 0;
    StartOfLine(p, q, screenNr, start, col);
    while true
      invariant 0 <= k <= d && cube.Valid()
      invariant Point2(x0, y0) == LinePoint2(p, q, k)
      invariant d > 0 ==> err == Error2(dx, -dy, k)
      invariant cube.Picture() == Paint(start, OnScreen(screenNr, Trail2(p, q, k)), col)
      decreases d - k
    {
      cube.SetPixel3D(PointOnScreen(screenNr, Point2(x0, y0)), col, false);
      PaintOneMore(start, OnScreen(screenNr, Trail2(p, q, k)), PointOnScreen(screenNr, Point2(x0, y0)), col);
      TrailGrows(screenNr, p, q, k);
      Arrives(p, q, k);
      if x0 == q.x && y0 == q.y {
        break;
      }
      NextPoint2(p, q, k);
      Error2Decides(dx, -dy, k);
      var e2 := 2 * err;
      if e2 > dy {
        err := err + dy;
        x0 := x0 + sx;
      }
      if e2 < dx {
        err := err + dx;
        y0 := y0 + sy;
      }
      k := k + 1;
    }
  }

  lemma TrailGrows(s: ScreenNumber, p: Point2, q: Point2, k: nat)
    ensures OnScreen(s, Trail2(p, q, k + 1)) == OnScreen(s, Trail2(p, q, k)) + [PointOnScreen(s, LinePoint2(p, q, k))]
  {
  }

  lemma StartOfLine(p: Point2, q: Point2, s: ScreenNumber, pic: Picture, col: Color)
    ensures LinePoint2(p, q, 0) == p
    ensures Paint(pic, OnScreen(s, Trail2(p, q, 0)), col) == pic
    ensures Steps2(p, q) > 0 ==> Error2(Abs(q.x - p.x), Abs(q.y - p.y), 0) == Abs(q.x - p.x) - Abs(q.y - p.y)
  {
    CoordinateEnds(p.x, q.x, Steps2(p, q));
    CoordinateEnds(p.y, q.y, Steps2(p, q));
    hide Error2, Coordinate, Rounded;
    if Steps2(p, q) > 0 {
      ErrorStart(Abs(q.x - p.x), Abs(q.y - p.y));
    }
  }

  lemma ErrorStart(dx: nat, dy: nat)
    requires Max(dx, dy) > 0
    ensures Error2(dx, dy, 0) == dx - dy
  {
    RoundedEnds(dx, Max(dx, dy));
    RoundedEnds(dy, Max(dx, dy));
    hide Rounded;
  }

  lemma StepTouches2(p: Point2, q: Point2, k: nat)
    requires k < Steps2(p, q)
    ensures Touching(LinePoint2(p, q, k), LinePoint2(p, q, k + 1))
  {
    var d := Steps2(p, q);
    CoordinateMoves(p.x, q.x, k, d);
    CoordinateMoves(p.y, q.y, k, d);
    hide Coordinate;
  }

  lemma StepIsNear2(p: Point2, q: Point2, k: nat)
    requires k <= Steps2(p, q)
    ensures NearIdeal(p, q, k, LinePoint2(p, q, k))
  {
    var d := Steps2(p, q);
    CoordinateNear(p.x, q.x, k, d);
    CoordinateNear(p.y, q.y, k, d);
    hide Coordinate;
  }

  /** A drawn line starts at one end and stops at the other after as many steps as its longer extent;
      consecutive points touch and differ; every point is within half a pixel of the ideal line. */
  lemma Line2Shape(p: Point2, q: Point2)
    ensures var line, d := Line2(p, q), Steps2(p, q);
            && |line| == d + 1 && line[0] == p && line[d] == q
            && (forall k | 0 <= k < d :: Touching(line[k], line[k + 1]))
            && (forall k | 0 <= k <= d :: NearIdeal(p, q, k, line[k]))
  {
    var line, d := Line2(p, q), Steps2(p, q);
    CoordinateEnds(p.x, q.x, d);
    CoordinateEnds(p.y, q.y, d);
    assert forall k | 0 <= k <= d :: line[k] == LinePoint2(p, q, k);
    hide Touching, NearIdeal, Coordinate;
    assert line[0] == p && line[d] == q;
    hide LinePoint2, Line2, Steps2;
    forall k | 0 <= k < d
      ensures Touching(line[k], line[k + 1])
    {
      StepTouches2(p, q, k);
    }
    forall k | 0 <= k <= d
      ensures NearIdeal(p, q, k, line[k])
    {
      StepIsNear2(p, q, k);
    }
  }

  /** Within half a pixel, in both directions, of the point k/d of the way from p to q. */
  predicate NearIdeal(p: Point2, q: Point2, k: nat, a: Point2) {
    var d := Steps2(p, q);
    && Abs(2 * ((a.x - p.x) * d) - 2 * (k * (q.x - p.x))) <= d
    && Abs(2 * ((a.y - p.y) * d) - 2 * (k * (q.y - p.y))) <= d
  }

  // ----- 3D lines -----

  function Trail3(p: Point3, q: Point3, n: nat): seq<Point3> {
    seq(n, k requires 0 <= k < n => LinePoint3(p, q, k))
  }

  function Line3(p: Point3, q: Point3): seq<Point3> {
    Trail3(p, q, Steps3(p, q) + 1)
  }

  /** The error value of a minor axis with extent `m` before step `k` of `d`. */
  function AxisError(m: nat, d: nat, k: nat): int
    requires d > 0
  {
    2 * (k * m) + 2 * m - d - 2 * (Rounded(k, m, d) * d)
  }

  /** The sign of the error says whether the axis moves, and the loop's updates keep the error right. */
  lemma AxisStep(from: int, to: int, d: nat, k: nat)
    requires d > 0 && Abs(to - from) <= d
    ensures var m := Abs(to - from);
            var e := AxisError(m, d, k);
            && Coordinate(from, to, k + 1, d) == Coordinate(from, to, k, d) + (if e > 0 then (if to < from then -1 else 1) else 0)
            && AxisError(m, d, k + 1) == e - (if e > 0 then 2 * d else 0) + 2 * m
  {
    var m := Abs(to - from);
    var r := Rounded(k, m, d);
    RoundedStep(k, m, d);
    hide Rounded;
    assert (k + 1) * m == k * m + m;
    assert (r + 1) * d == r * d + d;
  }

  lemma MajorStep(from: int, to: int, d: nat, k: nat)
    requires d > 0 && Abs(to - from) == d
    ensures Coordinate(from, to, k + 1, d) == Coordinate(from, to, k, d) + (if to < from then -1 else 1)
  {
    RoundedMajor(k, d);
    RoundedMajor(k + 1, d);
  }

  lemma StartOfLine3(p: Point3, q: Point3, pic: Picture, col: Color)
    ensures LinePoint3(p, q, 0) == p && Paint(pic, Trail3(p, q, 0), col) == pic
  {
    CoordinateEnds(p.x, q.x, Steps3(p, q));
    CoordinateEnds(p.y, q.y, Steps3(p, q));
    CoordinateEnds(p.z, q.z, Steps3(p, q));
  }

  lemma AxisErrorStart(m: nat, d: nat)
    ensures d > 0 ==> AxisError(m, d, 0) == 2 * m - d
  {
    if d > 0 {
      RoundedEnds(m, d);
    }
  }

  lemma PlotGrows(pic: Picture, p: Point3, q: Point3, k: nat, col: Color)
    ensures Paint(pic, Trail3(p, q, k + 1), col) ==
            SetVoxel(Paint(pic, Trail3(p, q, k), col), LinePoint3(p, q, k), col, false)
  {
    hide SetVoxel, Paint, LinePoint3;
    assert Trail3(p, q, k + 1) == Trail3(p, q, k) + [LinePoint3(p, q, k)];
    PaintOneMore(pic, Trail3(p, q, k), LinePoint3(p, q, k), col);
  }

  function Increments(start: Point3, end: Point3): Point3 {
    Point3(if end.x - start.x < 0 then -1 else 1, if end.y - start.y < 0 then -1 else 1, if end.z - start.z < 0 then -1 else 1)
  }

  /** The loop taken when no extent is longer than the one in x. */
  method AlongX(cube: Cube, start: Point3, end: Point3, col: Color) returns (point: Point3)
    requires cube.Valid()
    requires Abs(end.x - start.x) == Steps3(start, end)
    modifies cube.screens
    ensures cube.Valid() && point == LinePoint3(start, end, Steps3(start, end))
    ensures cube.Picture() == Paint(old(cube.Picture()), Trail3(start, end, Steps3(start, end)), col)
  {
    hide Paint, Coordinate, AxisError, SetVoxel, Trail3;
    ghost var pic := cube.Picture();
    var inc := Increments(start, end);
    var l: int, m: int, n: int := Abs(end.x - start.x), Abs(end.y - start.y), Abs(end.z - start.z);
    var err1, err2 := 2 * m - l, 2 * n - l;
    AxisErrorStart(m, l);
    AxisErrorStart(n, l);
    point := start;
    StartOfLine3(start, end, pic, col);
    for i := 0 to l
      invariant cube.Valid() && point == LinePoint3(start, end, i)
      invariant l > 0 ==> err1 == AxisError(m, l, i) && err2 == AxisError(n, l, i)
      invariant cube.Picture() == Paint(pic, Trail3(start, end, i), col)
    {
      cube.SetPixel3D(point, col, false);
      PlotGrows(pic, start, end, i, col);
      MajorStep(start.x, end.x, l, i);
      AxisStep(start.y, end.y, l, i);
      AxisStep(start.z, end.z, l, i);
      if err1 > 0 {
        point := point.(y := point.y + inc.y);
        err1 := err1 - 2 * l;
      }
      if err2 > 0 {
        point := point.(z := point.z + inc.z);
        err2 := err2 - 2 * l;
      }
      err1 := err1 + 2 * m;
      err2 := err2 + 2 * n;
      point := point.(x := point.x + inc.x);
    }
  }

  /** The loop taken when the extent in y is the longest. */
  method AlongY(cube: Cube, start: Point3, end: Point3, col: Color) returns (point: Point3)
    requires cube.Valid()
    requires Abs(end.y - start.y) == Steps3(start, end)
    modifies cube.screens
    ensures cube.Valid() && point == LinePoint3(start, end, Steps3(start, end))
    ensures cube.Picture() == Paint(old(cube.Picture()), Trail3(start, end, Steps3(start, end)), col)
  {
    hide Paint, Coordinate, AxisError, SetVoxel, Trail3;
    ghost var pic := cube.Picture();
    var inc := Increments(start, end);
    var m: int, l: int, n: int := Abs(end.y - start.y), Abs(end.x - start.x), Abs(end.z - start.z);
    var err1, err2 := 2 * l - m, 2 * n - m;
    AxisErrorStart(l, m);
    AxisErrorStart(n, m);
    point := start;
    StartOfLine3(start, end, pic, col);
    for i := 0 to m
      invariant cube.Valid() && point == LinePoint3(start, end, i)
      invariant m > 0 ==> err1 == AxisError(l, m, i) && err2 == AxisError(n, m, i)
      invariant cube.Picture() == Paint(pic, Trail3(start, end, i), col)
    {
      cube.SetPixel3D(point, col, false);
      PlotGrows(pic, start, end, i, col);
      MajorStep(start.y, end.y, m, i);
      AxisStep(start.x, end.x, m, i);
      AxisStep(start.z, end.z, m, i);
      if err1 > 0 {
        point := point.(x := point.x + inc.x);
        err1 := err1 - 2 * m;
      }
      if err2 > 0 {
        point := point.(z := point.z + inc.z);
        err2 := err2 - 2 * m;
      }
      err1 := err1 + 2 * l;
      err2 := err2 + 2 * n;
      point := point.(y := point.y + inc.y);
    }
  }

  lemma StepTouches3(p: Point3, q: Point3, k: nat)
    requires k < Steps3(p, q)
    ensures Touching3(LinePoint3(p, q, k), LinePoint3(p, q, k + 1))
  {
    var d := Steps3(p, q);
    CoordinateMoves(p.x, q.x, k, d);
    CoordinateMoves(p.y, q.y, k, d);
    CoordinateMoves(p.z, q.z, k, d);
    hide Coordinate;
  }

  lemma StepIsNear3(p: Point3, q: Point3, k: nat)
    requires k <= Steps3(p, q)
    ensures NearIdeal3(p, q, k, LinePoint3(p, q, k))
  {
    var d := Steps3(p, q);
    CoordinateNear(p.x, q.x, k, d);
    CoordinateNear(p.y, q.y, k, d);
    CoordinateNear(p.z, q.z, k, d);
    hide Coordinate;
  }

  /** The loop taken when the extent in z is the longest. */
  method AlongZ(cube: Cube, start: Point3, end: Point3, col: Color) returns (point: Point3)
    requires cube.Valid()
    requires Abs(end.z - start.z) == Steps3(start, end)
    modifies cube.screens
    ensures cube.Valid() && point == LinePoint3(start, end, Steps3(start, end))
    ensures cube.Picture() == Paint(old(cube.Picture()), Trail3(start, end, Steps3(start, end)), col)
  {
    hide Paint, Coordinate, AxisError, SetVoxel, Trail3;
    ghost var pic := cube.Picture();
    var inc := Increments(start, end);
    var n: int, m: int, l: int := Abs(end.z - start.z), Abs(end.y - start.y), Abs(end.x - start.x);
    var err1, err2 := 2 * m - n, 2 * l - n;
    AxisErrorStart(m, n);
    AxisErrorStart(l, n);
    point := start;
    StartOfLine3(start, end, pic, col);
    for i := 0 to n
      invariant cube.Valid() && point == LinePoint3(start, end, i)
      invariant n > 0 ==> err1 == AxisError(m, n, i) && err2 == AxisError(l, n, i)
      invariant cube.Picture() == Paint(pic, Trail3(start, end, i), col)
    {
      cube.SetPixel3D(point, col, false);
      PlotGrows(pic, start, end, i, col);
      MajorStep(start.z, end.z, n, i);
      AxisStep(start.y, end.y, n, i);
      AxisStep(start.x, end.x, n, i);
      if err1 > 0 {
        point := point.(y := point.y + inc.y);
        err1 := err1 - 2 * n;
      }
      if err2 > 0 {
        point := point.(x := point.x + inc.x);
        err2 := err2 - 2 * n;
      }
      err1 := err1 + 2 * m;
      err2 := err2 + 2 * l;
      point := point.(z := point.z + inc.z);
    }
  }

  method DrawLine3D(cube: Cube, start: Point3, end: Point3, col: Color)
    requires cube.Valid()
    modifies cube.screens
    ensures cube.Valid() && cube.Picture() == Paint(old(cube.Picture()), Line3(start, end), col)
  {
    hide Paint, LinePoint3, SetVoxel, Trail3;
    var l, m, n := Abs(end.x - start.x), Abs(end.y - start.y), Abs(end.z - start.z);
    var point: Point3;
    if l >= m && l >= n {
      point := AlongX(cube, start, end, col);
    } else if m >= l && m >= n {
      point := AlongY(cube, start, end, col);
    } else {
      point := AlongZ(cube, start, end, col);
    }
    PlotGrows(old(cube.Picture()), start, end, Steps3(start, end), col);
    cube.SetPixel3D(point, col, false);
  }

  predicate Touching3(a: Point3, b: Point3) {
    a != b && Abs(a.x - b.x) <= 1 && Abs(a.y - b.y) <= 1 && Abs(a.z - b.z) <= 1
  }

  predicate NearIdeal3(p: Point3, q: Point3, k: nat, a: Point3) {
    var d := Steps3(p, q);
    && Abs(2 * ((a.x - p.x) * d) - 2 * (k * (q.x - p.x))) <= d
    && Abs(2 * ((a.y - p.y) * d) - 2 * (k * (q.y - p.y))) <= d
    && Abs(2 * ((a.z - p.z) * d) - 2 * (k * (q.z - p.z))) <= d
  }

  lemma Line3Shape(p: Point3, q: Point3)
    ensures var line, d := Line3(p, q), Steps3(p, q);
            && |line| == d + 1 && line[0] == p && line[d] == q
            && (forall k | 0 <= k < d :: Touching3(line[k], line[k + 1]))
            && (forall k | 0 <= k <= d :: NearIdeal3(p, q, k, line[k]))
  {
    var line, d := Line3(p, q), Steps3(p, q);
    CoordinateEnds(p.x, q.x, d);
    CoordinateEnds(p.y, q.y, d);
    CoordinateEnds(p.z, q.z, d);
    assert forall k | 0 <= k <= d :: line[k] == LinePoint3(p, q, k);
    hide Touching3, NearIdeal3, Coordinate;
    assert line[0] == p && line[d] == q;
    hide LinePoint3, Line3, Steps3;
    forall k | 0 <= k < d
      ensures Touching3(line[k], line[k + 1])
    {
      StepTouches3(p, q, k);
    }
    forall k | 0 <= k <= d
      ensures NearIdeal3(p, q, k, line[k])
    {
      StepIsNear3(p, q, k);
    }
  }

  /** Shifting or mirroring both ends shifts or mirrors the drawn coordinate; equal ends keep it. */
  lemma CoordinateMoved(from: int, to: int, k: nat, d: nat, c: int)
    ensures Coordinate(from + c, to + c, k, d) == Coordinate(from, to, k, d) + c
    ensures Coordinate(c - from, c - to, k, d) == c - Coordinate(from, to, k, d)
    ensures Coordinate(c, c, k, d) == c
  {
    if d > 0 {
      RoundedZero(k, d);
    }
    hide Rounded;
  }

  lemma SameSteps(s: ScreenNumber, p: Point2, q: Point2)
    ensures Steps3(PointOnScreen(s, p), PointOnScreen(s, q)) == Steps2(p, q)
  {
  }

  lemma SamePointOnAPanel(s: ScreenNumber, p: Point2, q: Point2, k: nat)
    ensures LinePoint3(PointOnScreen(s, p), PointOnScreen(s, q), k) == PointOnScreen(s, LinePoint2(p, q, k))
  {
    SameSteps(s, p, q);
    hide Coordinate, Steps2, Steps3;
    var d := Steps2(p, q);
    CoordinateMoved(p.x, q.x, k, d, 1);
    CoordinateMoved(p.y, q.y, k, d, 1);
    CoordinateMoved(p.x + 1, q.x + 1, k, d, MAX_INDEX);
    CoordinateMoved(p.y + 1, q.y + 1, k, d, MAX_INDEX);
    CoordinateMoved(0, 0, k, d, 0);
  }

  /** Seen from a panel the 3D line between two panel points is the 2D line between them, point by
      point, whichever axis the 3D loop runs along. */
  lemma SameLineOnAPanel(s: ScreenNumber, p: Point2, q: Point2)
    ensures Line3(PointOnScreen(s, p), PointOnScreen(s, q)) == OnScreen(s, Line2(p, q))
  {
    SameSteps(s, p, q);
    hide Steps2, Steps3, LinePoint2, LinePoint3, PointOnScreen;
    forall k: nat
      ensures LinePoint3(PointOnScreen(s, p), PointOnScreen(s, q), k) == PointOnScreen(s, LinePoint2(p, q, k))
    {
      SamePointOnAPanel(s, p, q, k);
    }
  }

  /** What a 2D line leaves on the cube: its points that lie on the panel, in its colour. */
  lemma LinePixels(pic: Picture, s: ScreenNumber, p: Point2, q: Point2, col: Color, t: ScreenNumber, r: Point2)
    ensures Pixel(Paint(pic, OnScreen(s, Line2(p, q)), col), t, r) ==
            if t == s && OnPanel(r) && exists k | 0 <= k <= Steps2(p, q) :: LinePoint2(p, q, k) == r
            then col else Pixel(pic, t, r)
  {
    PaintPanel(pic, s, Line2(p, q), col, t, r);
    var line := Line2(p, q);
    assert forall k | 0 <= k <= Steps2(p, q) :: line[k] == LinePoint2(p, q, k);
    hide LinePoint2;
    assert r in line <==> exists k | 0 <= k <= Steps2(p, q) :: line[k] == r;
  }

  // ----- The line from its other end -----

  /** Whether step `k` of `d` falls exactly halfway between two whole positions on an axis of extent `m`:
      k * m / d has the fraction one half. */
  predicate Tie(k: nat, m: nat, d: nat)
    requires d > 0
  {
    2 * (k * m) % (2 * d) == d
  }

  lemma RemainderIs(n: nat, q: nat, e: nat, r: nat)
    requires n == q * e + r && r < e
    ensures n % e == r && n / e == q
  {
    assert n == (n / e) * e + n % e;
    if n / e < q {
      MulGap(n / e, q, e);
    } else if q < n / e {
      MulGap(q, n / e, e);
    }
  }

  /** A tie leaves the rounded position half a step behind the exact one; nothing else does. */
  lemma TieIsHalf(k: nat, m: nat, d: nat)
    requires d > 0
    ensures Tie(k, m, d) <==> 2 * (k * m) == 2 * (Rounded(k, m, d) * d) + d
  {
    hide Rounded;
    var r := Rounded(k, m, d);
    if 2 * (k * m) == 2 * (r * d) + d {
      HalfRemainder(2 * (k * m), r, d);
    }
    if Tie(k, m, d) {
      var q := 2 * (k * m) / (2 * d);
      HalfQuotient(2 * (k * m), d);
      hide Tie;
      RoundedUnique(k, m, d, q);
    }
  }

  lemma HalfRemainder(n: nat, r: nat, d: nat)
    requires n == 2 * (r * d) + d && d > 0
    ensures n % (2 * d) == d
  {
    assert r * (2 * d) == 2 * (r * d);
    RemainderIs(n, r, 2 * d, d);
  }

  lemma HalfQuotient(n: nat, d: nat)
    requires d > 0 && n % (2 * d) == d
    ensures n == 2 * (n / (2 * d) * d) + d
  {
    var q := n / (2 * d);
    assert q * (2 * d) == 2 * (q * d);
  }

  lemma RoundedFromTheEnd(k: nat, m: nat, d: nat)
    requires d > 0 && k <= d && m <= d
    ensures Rounded(d - k, m, d) + Rounded(k, m, d) == m <==> !Tie(k, m, d)
  {
    var r := Rounded(k, m, d);
    TieIsHalf(k, m, d);
    RoundedBounds(k, m, d);
    assert (d - k) * m == m * d - k * m;
    assert (m - r) * d == m * d - r * d;
    if Tie(k, m, d) {
      RoundedBounds(d - k, m, d);
      hide Rounded, Tie;
      var s := Rounded(d - k, m, d);
      assert s == m - r ==> s * d == (m - r) * d;
    } else {
      RoundedSmall(k, m, d);
      hide Tie;
      RoundedUnique(d - k, m, d, m - r);
    }
  }

  lemma RoundedSmall(k: nat, m: nat, d: nat)
    requires d > 0 && k <= d && m <= d
    ensures Rounded(k, m, d) <= m
  {
    RoundedBounds(k, m, d);
    hide Rounded;
    var r := Rounded(k, m, d);
    MulLess(k, d, m);
    if r > m {
      MulGap(m, r, d);
    }
  }

  lemma MulLess(a: nat, b: nat, c: nat)
    requires a <= b
    ensures a * c <= c * b
  {
  }

  lemma FromTheEnd(from: int, to: int, k: nat, d: nat)
    requires d > 0 && k <= d && Abs(to - from) <= d
    ensures Coordinate(to, from, d - k, d) == Coordinate(from, to, k, d) <==> !Tie(k, Abs(to - from), d)
  {
    RoundedFromTheEnd(k, Abs(to - from), d);
    RoundedZero(k, d);
    RoundedZero(d - k, d);
    hide Rounded, Tie;
  }

  /** Drawing is not symmetric in the two ends: from the other end a step of the line is the same point
      exactly if it is halfway between two pixels on neither axis. */
  lemma ReversedLine(p: Point2, q: Point2, k: nat)
    requires 0 < Steps2(p, q) && k <= Steps2(p, q)
    ensures var d := Steps2(p, q);
            LinePoint2(q, p, d - k) == LinePoint2(p, q, k) <==>
            !Tie(k, Abs(q.x - p.x), d) && !Tie(k, Abs(q.y - p.y), d)
  {
    var d := Steps2(p, q);
    assert Steps2(q, p) == d && Abs(q.x - p.x) <= d && Abs(q.y - p.y) <= d;
    hide Rounded, Tie, Steps2;
    FromTheEnd(p.x, q.x, k, d);
    FromTheEnd(p.y, q.y, k, d);
    hide Coordinate;
  }

  /** A knight's move, from anywhere, goes through different pixels the other way round. */
  lemma ReversedKnight(p: Point2, q: Point2)
    requires q == Point2(p.x + 2, p.y + 1)
    ensures Tie(1, Abs(q.y - p.y), Steps2(p, q))
    ensures Line2(p, q) == [p, Point2(p.x + 1, p.y), q]
    ensures Line2(q, p) == [q, Point2(p.x + 1, p.y + 1), p]
  {
    hide *;
    KnightSteps(p, q);
    KnightStep(p, q, 0, Steps2(p, q));
    KnightStep(p, q, 1, Steps2(p, q));
    KnightStep(p, q, 2, Steps2(p, q));
    ThreePoints(p, q, p, Point2(p.x + 1, p.y), q);
    ThreePoints(q, p, q, Point2(p.x + 1, p.y + 1), p);
  }

  lemma KnightSteps(p: Point2, q: Point2)
    requires q == Point2(p.x + 2, p.y + 1)
    ensures Steps2(p, q) == 2 && Steps2(q, p) == 2 && Tie(1, Abs(q.y - p.y), Steps2(p, q))
  {
    HalfTie(Abs(q.y - p.y), Steps2(p, q));
  }

  lemma KnightStep(p: Point2, q: Point2, k: nat, d: nat)
    requires q == Point2(p.x + 2, p.y + 1) && d == Steps2(p, q) == Steps2(q, p) == 2 && k <= d
    ensures LinePoint2(p, q, k) == Point2(p.x + k, if k == d then q.y else p.y)
    ensures LinePoint2(q, p, k) == Point2(q.x - k, if k == d then p.y else q.y)
  {
    hide Coordinate, Rounded, Steps2;
    WholeAxis(p.x, k, d);
    HalfAxis(p.y, k, d);
    assert q.x == p.x + d && q.y == p.y + 1;
  }

  lemma HalfTie(m: nat, d: nat)
    requires m == 1 && d == 2
    ensures Tie(m, m, d)
  {
  }

  /** An axis as long as the line moves every step. */
  lemma WholeAxis(from: int, k: nat, d: nat)
    requires d > 0
    ensures Coordinate(from, from + d, k, d) == from + k && Coordinate(from + d, from, k, d) == from + d - k
  {
    RoundedMajor(k, d);
    hide Rounded;
  }

  /** One half as long as a line of two steps moves at the second. */
  lemma HalfAxis(from: int, k: nat, d: nat)
    requires d == 2 && k <= d
    ensures Coordinate(from, from + 1, k, d) == from + (if k == d then 1 else 0)
    ensures Coordinate(from + 1, from, k, d) == from + 1 - (if k == d then 1 else 0)
  {
    var m: nat, r: nat := 1, if k == d then 1 else 0;
    assert k * m == k && r * d == if k == d then d else 0;
    RoundedUnique(k, m, d, r);
    hide Rounded;
  }

  lemma ThreePoints(p: Point2, q: Point2, a: Point2, b: Point2, c: Point2)
    requires Steps2(p, q) == 2
    requires LinePoint2(p, q, 0) == a && LinePoint2(p, q, 1) == b && LinePoint2(p, q, 2) == c
    ensures Line2(p, q) == [a, b, c]
  {
    LineAt(p, q, 0);
    LineAt(p, q, 1);
    LineAt(p, q, 2);
    assert |Line2(p, q)| == Steps2(p, q) + 1;
    hide LinePoint2, Line2, Steps2;
  }

  /** The largest power of two that divides `d`. */
  function Twos(d: nat): (t: nat)
    requires d > 0
    ensures 0 < t
  {
    if d % 2 == 0 then 2 * Twos(d / 2) else 1
  }

  lemma DoubledRemainder(n: nat, e: nat)
    requires e > 0
    ensures 2 * n % (2 * e) == 2 * (n % e)
  {
    assert n == (n / e) * e + n % e;
    assert (n / e) * (2 * e) == 2 * ((n / e) * e);
    RemainderIs(2 * n, n / e, 2 * e, 2 * (n % e));
  }

  lemma DoubledTie(k: nat, m: nat, d: nat)
    requires d > 0
    ensures Tie(k, 2 * m, 2 * d) <==> Tie(k, m, d)
  {
    assert k * (2 * m) == 2 * (k * m);
    DoubledRemainder(2 * (k * m), 2 * d);
  }

  lemma OddHasNoTie(k: nat, m: nat, d: nat)
    requires d % 2 == 1
    ensures !Tie(k, m, d)
  {
    var n := 2 * (k * m);
    assert n == (n / (2 * d)) * (2 * d) + n % (2 * d);
    assert (n / (2 * d)) * (2 * d) == 2 * ((n / (2 * d)) * d);
  }

  lemma OddTiesHalfway(m: nat, e: nat)
    requires m % 2 == 1 && e > 0
    ensures Tie(e, m, 2 * e)
  {
    var j := m / 2;
    assert 2 * (e * m) == j * (2 * (2 * e)) + 2 * e by {
      assert m == 2 * j + 1;
      assert e * (2 * j + 1) == 2 * (e * j) + e;
      assert j * (2 * (2 * e)) == 4 * (e * j);
    }
    RemainderIs(2 * (e * m), j, 2 * (2 * e), 2 * e);
  }

  lemma OddRemainder(m: nat, t: nat)
    requires t > 0 && m % 2 == 1
    ensures m % (2 * t) != 0
  {
    var q := m / (2 * t);
    assert m == q * (2 * t) + m % (2 * t) && q * (2 * t) == 2 * (q * t);
  }

  lemma HalvedRemainder(m: nat, t: nat)
    requires t > 0
    ensures m % (2 * t) == 0 <==> m % 2 == 0 && m / 2 % t == 0
  {
    if m % 2 == 0 {
      var h := m / 2;
      assert m == 2 * h;
      DoubledRemainder(h, t);
    } else {
      OddRemainder(m, t);
    }
  }

  lemma HalvedTwos(m: nat, d: nat)
    requires d > 0 && d % 2 == 0
    ensures m % Twos(d) == 0 <==> m % 2 == 0 && m / 2 % Twos(d / 2) == 0
  {
    var t, u := Twos(d / 2), Twos(d);
    assert u == 2 * t;
    hide Twos;
    HalvedRemainder(m, t);
  }

  lemma {:induction false} NoTie(k: nat, m: nat, d: nat)
    requires d > 0 && m % Twos(d) == 0
    ensures !Tie(k, m, d)
    decreases d
  {
    if d % 2 == 1 {
      OddHasNoTie(k, m, d);
    } else {
      HalvedTwos(m, d);
      NoTie(k, m / 2, d / 2);
      DoubledTie(k, m / 2, d / 2);
    }
  }

  lemma {:induction false} SomeTie(m: nat, d: nat) returns (k: nat)
    requires d > 0 && m % Twos(d) != 0
    ensures k <= d && Tie(k, m, d)
    decreases d
  {
    HalvedTwos(m, d);
    if m % 2 == 1 {
      k := d / 2;
      OddTiesHalfway(m, k);
    } else {
      k := SomeTie(m / 2, d / 2);
      DoubledTie(k, m / 2, d / 2);
    }
  }

  function Reversed(line: seq<Point2>): (r: seq<Point2>)
    ensures |r| == |line| && forall i | 0 <= i < |line| :: r[i] == line[|line| - 1 - i]
  {
    seq(|line|, i requires 0 <= i < |line| => line[|line| - 1 - i])
  }

  /** The whole line: drawn from its other end it is the same points, in the other order, exactly if no
      extent has fewer factors two than the number of steps. */
  lemma ReversedLineIsSame(p: Point2, q: Point2)
    ensures Line2(q, p) == Reversed(Line2(p, q)) <==>
            p == q || (Abs(q.x - p.x) % Twos(Steps2(p, q)) == 0 && Abs(q.y - p.y) % Twos(Steps2(p, q)) == 0)
  {
    if p != q {
      LineBothWays(p, q);
      var d, m, n := Steps2(p, q), Abs(q.x - p.x), Abs(q.y - p.y);
      hide LinePoint2, Tie, Line2, Twos;
      if m % Twos(d) == 0 && n % Twos(d) == 0 {
        forall k | 0 <= k <= d
          ensures SameStep(p, q, k)
        {
          NoTie(k, m, d);
          NoTie(k, n, d);
          ReversedLine(p, q, k);
        }
      } else {
        var k: nat;
        if m % Twos(d) != 0 {
          k := SomeTie(m, d);
        } else {
          k := SomeTie(n, d);
        }
        ReversedLine(p, q, k);
        assert !SameStep(p, q, k);
      }
    }
  }

  predicate SameStep(p: Point2, q: Point2, k: nat)
    requires k <= Steps2(p, q)
  {
    LinePoint2(q, p, Steps2(p, q) - k) == LinePoint2(p, q, k)
  }

  lemma LineBothWays(p: Point2, q: Point2)
    ensures Line2(q, p) == Reversed(Line2(p, q)) <==> forall k | 0 <= k <= Steps2(p, q) :: SameStep(p, q, k)
  {
    var d := Steps2(p, q);
    var back, there := Line2(q, p), Line2(p, q);
    assert Steps2(q, p) == d && |there| == |back| == d + 1;
    hide LinePoint2, Line2, Steps2, Reversed;
    forall k | 0 <= k <= d
      ensures back[d - k] == there[k] <==> SameStep(p, q, k)
    {
      LineAt(p, q, k);
      LineAt(q, p, d - k);
    }
    ReversedMeans(back, there, d);
    hide SameStep;
  }

  lemma LineAt(p: Point2, q: Point2, k: nat)
    requires k <= Steps2(p, q)
    ensures k < |Line2(p, q)| && Line2(p, q)[k] == LinePoint2(p, q, k)
  {
    hide LinePoint2, Steps2;
  }

  lemma ReversedMeans(back: seq<Point2>, there: seq<Point2>, d: nat)
    requires |back| == |there| == d + 1
    ensures back == Reversed(there) <==> forall k | 0 <= k <= d :: back[d - k] == there[k]
  {
    if forall k | 0 <= k <= d :: back[d - k] == there[k] {
      forall i | 0 <= i <= d
        ensures back[i] == Reversed(there)[i]
      {
        assert back[d - (d - i)] == there[d - i];
      }
    }
  }
}
