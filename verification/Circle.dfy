/**
  The midpoint circle `drawCircle2D`: which pixels it plots, for every radius.
 */
module Circle {
  import opened Screen
  import opened Cube

  /** The least squared distance from the centre that the outline of radius `r` may have: the first
      whole number above (r - 1/2)^2. */
  function Inner(r: nat): int {
    r * r - r + 1
  }

  /** In the row `y` of the octant 0 <= y <= x, the innermost column outside radius r - 1/2. */
  predicate OnOctant(x: int, y: int, r: nat) {
    0 <= y <= x && (x - 1) * (x - 1) + y * y < Inner(r) <= x * x + y * y
  }

  /** The outline around the origin: the octant in its eight mirror images. Radius 0 plots the
      centre, a negative radius nothing. */
  predicate OnCircle(a: int, b: int, r: int) {
    if r < 0 then false
    else if r == 0 then a == 0 && b == 0
    else OnOctant(Abs(a), Abs(b), r) || OnOctant(Abs(b), Abs(a), r)
  }

  /** The eight points one turn of the loop plots, in order. */
  function Mirrors(c: Point2, x: int, y: int): seq<Point2> {
    [Point2(x + c.x, y + c.y), Point2(y + c.x, x + c.y), Point2(-x + c.x, y + c.y), Point2(-y + c.x, x + c.y),
     Point2(-x + c.x, -y + c.y), Point2(-y + c.x, -x + c.y), Point2(x + c.x, -y + c.y), Point2(y + c.x, -x + c.y)]
  }

  /** What the decision value is at the point (x, y) of the loop. */
  function Decision(x: int, y: int, r: int): int {
    (x - 1) * (x - 1) + (y + 1) * (y + 1) - r * r + r - 1
  }

  /** The column of the row after the loop's point (x, y), past the diagonal when the octant ends. */
  function NextColumn(x: int, y: int, r: int): int {
    if Decision(x, y, r) < 0 then x else x - 1
  }

  lemma DecisionStep(x: int, y: int, r: int)
    ensures Decision(x, y + 1, r) == Decision(x, y, r) + 2 * (y + 1) + 1
    ensures Decision(x - 1, y + 1, r) == Decision(x, y, r) + 2 * ((y + 1) - (x - 1) + 1)
  {
  }

  /** The loop's move keeps the point on the octant as long as it stays below the diagonal. */
  lemma OctantStep(x: int, y: int, r: nat)
    requires r >= 1 && OnOctant(x, y, r)
    ensures var nx := NextColumn(x, y, r);
            y + 1 <= nx ==> OnOctant(nx, y + 1, r)
  {
  }

  /** Below the diagonal ends the octant: once the loop's point crosses it, no row is missing. */
  lemma OctantEnd(x: int, y: int, r: nat, u: int, v: int)
    requires r >= 1 && OnOctant(x, y, r) && OnOctant(u, v, r)
    requires y + 1 > NextColumn(x, y, r)
    ensures v <= y
  {
    if v >= y + 1 {
      Square(y, u - 1);
      Square(y + 1, v);
      if x >= 0 { Square(x, y + 1); }
    }
  }

  lemma Square(a: int, b: int)
    requires 0 <= a <= b
    ensures a * a <= b * b
  {
  }

  /** Every row has at most one point. */
  lemma OnePerRow(x: int, u: int, y: int, r: nat)
    requires OnOctant(x, y, r) && OnOctant(u, y, r)
    ensures x == u
  {
    if x < u {
      Square(x, u - 1);
    } else if u < x {
      Square(u, x - 1);
    }
  }

  lemma OctantBand(x: int, y: int, r: nat)
    requires r >= 1 && OnOctant(x, y, r)
    ensures x <= r && r * r - r < x * x + y * y < r * r + r
  {
    if x > r {
      Square(r, x - 1);
    }
  }

  /** Every plotted point is strictly within half a pixel of the circle: r - 1/2 < distance < r + 1/2. */
  lemma HalfPixelBand(a: int, b: int, r: nat)
    requires r >= 1 && OnCircle(a, b, r)
    ensures (2 * r - 1) * (2 * r - 1) < 4 * (a * a + b * b) < (2 * r + 1) * (2 * r + 1)
  {
    if OnOctant(Abs(a), Abs(b), r) {
      OctantBand(Abs(a), Abs(b), r);
    } else {
      OctantBand(Abs(b), Abs(a), r);
    }
    hide OnOctant, OnCircle;
    SquareOfAbs(a);
    SquareOfAbs(b);
    HalfSquares(r);
  }

  lemma SquareOfAbs(a: int)
    ensures Abs(a) * Abs(a) == a * a
  {
  }

  lemma HalfSquares(r: int)
    ensures (2 * r - 1) * (2 * r - 1) == 4 * (r * r) - 4 * r + 1
    ensures (2 * r + 1) * (2 * r + 1) == 4 * (r * r) + 4 * r + 1
  {
  }

  /** The octant has no gaps: it starts on the axis, and each point has one in the row before and, unless
      it is next to the diagonal, one in the row after, at most a column away. */
  lemma NoGaps(x: int, y: int, r: nat)
    requires r >= 1
    ensures OnOctant(r, 0, r)
    ensures OnOctant(x, y, r) && y > 0 ==> OnOctant(x, y - 1, r) || OnOctant(x + 1, y - 1, r)
    ensures OnOctant(x, y, r) && x - y > 1 ==> OnOctant(x, y + 1, r) || OnOctant(x - 1, y + 1, r)
  {
    if OnOctant(x, y, r) && x - y > 1 {
      OctantStep(x, y, r);
    }
  }

  /** A circle on which the decision value is zero: radius 4 passes through (3, 2), not through (4, 2). */
  lemma RadiusFour()
    ensures OnCircle(3, 2, 4) && !OnCircle(4, 2, 4) && OnCircle(4, 1, 4) && OnCircle(-2, 3, 4)
  {
  }

  // ----- The outline as a ring -----

  predicate Linked(line: seq<Point2>) {
    forall i | 0 <= i < |line| - 1 :: Touching(line[i], line[i + 1])
  }

  ghost predicate NoRepeats(line: seq<Point2>) {
    forall i, j | 0 <= i < j < |line| :: line[i] != line[j]
  }

  /** The outline from the point (x, y) of the octant through the diagonal to its mirror image (y, x). */
  function Arc(x: int, y: int, r: nat): seq<Point2>
    requires r >= 1 && OnOctant(x, y, r)
    decreases x - y
  {
    if x == y then
      [Point2(x, x)]
    else if y + 1 <= NextColumn(x, y, r) then
      OctantStep(x, y, r);
      [Point2(x, y)] + Arc(NextColumn(x, y, r), y + 1, r) + [Point2(y, x)]
    else
      [Point2(x, y), Point2(y, x)]
  }

  /** A point of the quarter from (x, y) to (y, x). */
  predicate OnArc(p: Point2, y: int, r: nat) {
    (OnOctant(p.x, p.y, r) && p.y >= y) || (OnOctant(p.y, p.x, r) && p.x >= y)
  }

  lemma WrapLinked(a: Point2, line: seq<Point2>, b: Point2)
    requires line != [] && Linked(line) && Touching(a, line[0]) && Touching(line[|line| - 1], b)
    ensures Linked([a] + line + [b])
  {
  }

  lemma WrapNoRepeats(a: Point2, line: seq<Point2>, b: Point2)
    requires NoRepeats(line) && a != b && a !in line && b !in line
    ensures NoRepeats([a] + line + [b])
  {
  }

  lemma {:induction false} ArcLinked(x: int, y: int, r: nat)
    requires r >= 1 && OnOctant(x, y, r)
    ensures var arc := Arc(x, y, r);
            arc != [] && arc[0] == Point2(x, y) && arc[|arc| - 1] == Point2(y, x) && Linked(arc)
    decreases x - y
  {
    if x != y {
      var u := NextColumn(x, y, r);
      if y + 1 <= u {
        OctantStep(x, y, r);
        ArcLinked(u, y + 1, r);
        WrapLinked(Point2(x, y), Arc(u, y + 1, r), Point2(y, x));
      }
    }
  }

  /** The octant after (x, y) is what is left of it from the next row on. */
  lemma OctantRest(x: int, y: int, r: nat, a: int, b: int)
    requires r >= 1 && OnOctant(x, y, r)
    ensures OnOctant(a, b, r) && b >= y <==>
            (a == x && b == y) || (y + 1 <= NextColumn(x, y, r) && OnOctant(a, b, r) && b >= y + 1)
  {
    if OnOctant(a, b, r) && b == y {
      OnePerRow(x, a, y, r);
    }
    if OnOctant(a, b, r) && y + 1 > NextColumn(x, y, r) {
      OctantEnd(x, y, r, a, b);
    }
  }

  lemma {:induction false} ArcIs(x: int, y: int, r: nat, p: Point2)
    requires r >= 1 && OnOctant(x, y, r)
    ensures p in Arc(x, y, r) <==> OnArc(p, y, r)
    decreases x - y
  {
    OctantRest(x, y, r, p.x, p.y);
    OctantRest(x, y, r, p.y, p.x);
    var u := NextColumn(x, y, r);
    if x != y && y + 1 <= u {
      OctantStep(x, y, r);
      ArcIs(u, y + 1, r, p);
    }
    hide OnOctant, NextColumn;
  }

  lemma {:induction false} ArcNoRepeats(x: int, y: int, r: nat)
    requires r >= 1 && OnOctant(x, y, r)
    ensures NoRepeats(Arc(x, y, r))
    decreases x - y
  {
    var u := NextColumn(x, y, r);
    if x != y && y + 1 <= u {
      OctantStep(x, y, r);
      ArcNoRepeats(u, y + 1, r);
      ArcIs(u, y + 1, r, Point2(x, y));
      ArcIs(u, y + 1, r, Point2(y, x));
      WrapNoRepeats(Point2(x, y), Arc(u, y + 1, r), Point2(y, x));
    }
  }

  /** A quarter turn around the centre, and back. */
  function Turned(p: Point2): Point2 {
    Point2(-p.y, p.x)
  }

  function TurnedBack(p: Point2): Point2 {
    Point2(p.y, -p.x)
  }

  function AllTurned(line: seq<Point2>): (r: seq<Point2>)
    ensures |r| == |line| && forall i | 0 <= i < |line| :: r[i] == Turned(line[i])
  {
    seq(|line|, i requires 0 <= i < |line| => Turned(line[i]))
  }

  /** A quarter of the outline, from the axis up to the next axis, which belongs to the next quarter. */
  function Quarter(r: nat): (q: seq<Point2>)
    requires r >= 1
    ensures q != []
  {
    NoGaps(r, 0, r);
    ArcLinked(r, 0, r);
    var arc := Arc(r, 0, r);
    arc[..|arc| - 1]
  }

  /** The whole outline, all the way round from (r, 0). */
  function Ring(r: nat): seq<Point2>
    requires r >= 1
  {
    var a := Quarter(r);
    var b := AllTurned(a);
    var c := AllTurned(b);
    a + b + c + AllTurned(c)
  }

  predicate InQuarter(p: Point2) {
    p.x > 0 && p.y >= 0
  }

  lemma {:induction false} QuarterIs(r: nat)
    requires r >= 1
    ensures var q := Quarter(r);
            && Linked(q + [Turned(q[0])]) && NoRepeats(q)
            && forall p :: p in q <==> InQuarter(p) && OnCircle(p.x, p.y, r)
  {
    NoGaps(r, 0, r);
    var arc, q := Arc(r, 0, r), Quarter(r);
    ArcLinked(r, 0, r);
    ArcNoRepeats(r, 0, r);
    assert arc == q + [Point2(0, r)] && Turned(q[0]) == Point2(0, r);
    forall p
      ensures p in q <==> InQuarter(p) && OnCircle(p.x, p.y, r)
    {
      ArcIs(r, 0, r, p);
      assert p in arc <==> p in q || p == Point2(0, r);
      assert Point2(0, r) !in q by {
        assert forall i | 0 <= i < |q| :: q[i] == arc[i] != arc[|q|];
      }
      OnQuarter(p, r);
    }
  }

  lemma OnQuarter(p: Point2, r: nat)
    requires r >= 1
    ensures OnArc(p, 0, r) && p != Point2(0, r) <==> InQuarter(p) && OnCircle(p.x, p.y, r)
  {
    if p.x == 0 && OnOctant(p.y, 0, r) {
      NoGaps(r, 0, r);
      OnePerRow(p.y, r, 0, r);
    }
  }

  lemma TurnedIn(line: seq<Point2>, p: Point2)
    ensures p in AllTurned(line) <==> TurnedBack(p) in line
  {
    if TurnedBack(p) in line {
      var i :| 0 <= i < |line| && line[i] == TurnedBack(p);
      assert AllTurned(line)[i] == p;
    }
  }

  lemma TurnedLinked(line: seq<Point2>, end: Point2)
    requires Linked(line + [end])
    ensures Linked(AllTurned(line) + [Turned(end)])
  {
    var was, now := line + [end], AllTurned(line) + [Turned(end)];
    assert forall i | 0 <= i < |was| :: now[i] == Turned(was[i]);
  }

  lemma TurnedNoRepeats(line: seq<Point2>)
    requires NoRepeats(line)
    ensures NoRepeats(AllTurned(line))
  {
  }

  lemma JoinLinked(a: seq<Point2>, b: seq<Point2>, end: Point2)
    requires b != [] && Linked(a + [b[0]]) && Linked(b + [end])
    ensures Linked(a + b + [end])
  {
    var all := a + b + [end];
    forall i | 0 <= i < |all| - 1
      ensures Touching(all[i], all[i + 1])
    {
      if i < |a| {
        assert Touching((a + [b[0]])[i], (a + [b[0]])[i + 1]);
      } else {
        assert Touching((b + [end])[i - |a|], (b + [end])[i - |a| + 1]);
      }
    }
  }

  lemma JoinNoRepeats(a: seq<Point2>, b: seq<Point2>)
    requires NoRepeats(a) && NoRepeats(b) && forall p | p in a :: p !in b
    ensures NoRepeats(a + b)
  {
    var all := a + b;
    forall i, j | 0 <= i < j < |all|
      ensures all[i] != all[j]
    {
      assert all[i] == if i < |a| then a[i] else b[i - |a|];
      assert all[j] == if j < |a| then a[j] else b[j - |a|];
      assert i < |a| <= j ==> all[i] in a && all[j] in b;
    }
  }

  /** The quarter of the ring a point is on, if it is on the outline. */
  lemma RingPoint(r: nat, p: Point2)
    requires r >= 1
    ensures var a := Quarter(r);
            var b := AllTurned(a);
            var c := AllTurned(b);
            && (p in a <==> InQuarter(p) && OnCircle(p.x, p.y, r))
            && (p in b <==> InQuarter(TurnedBack(p)) && OnCircle(p.x, p.y, r))
            && (p in c <==> InQuarter(Point2(-p.x, -p.y)) && OnCircle(p.x, p.y, r))
            && (p in AllTurned(c) <==> InQuarter(Turned(p)) && OnCircle(p.x, p.y, r))
  {
    var a := Quarter(r);
    var b := AllTurned(a);
    var c := AllTurned(b);
    TurnedIn(a, p);
    TurnedIn(b, p);
    TurnedIn(a, TurnedBack(p));
    TurnedIn(c, p);
    TurnedIn(b, TurnedBack(p));
    TurnedIn(a, Point2(-p.x, -p.y));
    QuarterIs(r);
    OutlineTurns(p, r);
    hide OnCircle, Quarter, InQuarter, AllTurned, NoRepeats, Linked;
  }

  lemma OutlineTurns(p: Point2, r: nat)
    ensures OnCircle(p.x, p.y, r) == OnCircle(p.y, -p.x, r) == OnCircle(-p.x, -p.y, r) == OnCircle(-p.y, p.x, r)
  {
    hide OnOctant;
  }

  /** A point of the outline is in exactly one of the four quarters. */
  lemma OneQuarter(p: Point2, r: nat)
    requires r >= 1
    ensures OnCircle(p.x, p.y, r) ==>
              InQuarter(p) || InQuarter(TurnedBack(p)) || InQuarter(Point2(-p.x, -p.y)) || InQuarter(Turned(p))
    ensures InQuarter(p) ==> !InQuarter(TurnedBack(p)) && !InQuarter(Point2(-p.x, -p.y)) && !InQuarter(Turned(p))
    ensures InQuarter(TurnedBack(p)) ==> !InQuarter(Point2(-p.x, -p.y)) && !InQuarter(Turned(p))
    ensures InQuarter(Point2(-p.x, -p.y)) ==> !InQuarter(Turned(p))
  {
    NotTheCentre(r);
    hide OnCircle;
  }

  lemma NotTheCentre(r: nat)
    requires r >= 1
    ensures !OnCircle(0, 0, r)
  {
    assert Inner(r) == r * (r - 1) + 1;
  }

  /** The outline of every radius is a closed ring: going round from (r, 0), every pixel touches the next,
      the last one touches the first, and the pixels are those of the outline, each passed once. */
  lemma OutlineIsARing(r: nat)
    requires r >= 1
    ensures var ring := Ring(r);
            && |ring| >= 4 && ring[0] == Point2(r, 0) && Linked(ring) && Touching(ring[|ring| - 1], ring[0])
            && NoRepeats(ring)
            && forall p :: p in ring <==> OnCircle(p.x, p.y, r)
  {
    RingIsClosed(r);
    RingPoints(r);
    hide *;
  }

  lemma RingIsClosed(r: nat)
    requires r >= 1
    ensures var ring := Ring(r);
            |ring| >= 4 && ring[0] == Point2(r, 0) && Linked(ring) && Touching(ring[|ring| - 1], ring[0])
  {
    var a := Quarter(r);
    var b := AllTurned(a);
    var c := AllTurned(b);
    QuarterIs(r);
    QuarterStart(r);
    assert Ring(r) == a + b + c + AllTurned(c);
    hide *;
    RingLinked(a, b, c, AllTurned(c));
  }

  lemma RingPoints(r: nat)
    requires r >= 1
    ensures NoRepeats(Ring(r)) && forall p :: p in Ring(r) <==> OnCircle(p.x, p.y, r)
  {
    var a := Quarter(r);
    var b := AllTurned(a);
    var c := AllTurned(b);
    var d := AllTurned(c);
    QuarterIs(r);
    assert Ring(r) == a + b + c + d;
    hide *;
    TurnedNoRepeats(a);
    TurnedNoRepeats(b);
    TurnedNoRepeats(c);
    forall p
      ensures InAtMostOne(p, a, b, c, d)
      ensures p in a + b + c + d <==> OnCircle(p.x, p.y, r)
    {
      RingPlace(r, p, a, b, c, d);
    }
    FourNoRepeats(a, b, c, d);
  }

  lemma RingPlace(r: nat, p: Point2, a: seq<Point2>, b: seq<Point2>, c: seq<Point2>, d: seq<Point2>)
    requires r >= 1 && a == Quarter(r) && b == AllTurned(a) && c == AllTurned(b) && d == AllTurned(c)
    ensures InAtMostOne(p, a, b, c, d)
    ensures p in a + b + c + d <==> OnCircle(p.x, p.y, r)
  {
    RingPoint(r, p);
    OneQuarter(p, r);
    hide *;
    AtMostOne(p, a, b, c, d);
  }

  predicate InAtMostOne(p: Point2, a: seq<Point2>, b: seq<Point2>, c: seq<Point2>, d: seq<Point2>) {
    (p in a ==> p !in b && p !in c && p !in d) && (p in b ==> p !in c && p !in d) && (p in c ==> p !in d)
  }

  lemma AtMostOne(p: Point2, a: seq<Point2>, b: seq<Point2>, c: seq<Point2>, d: seq<Point2>)
    requires p in a ==> p !in b && p !in c && p !in d
    requires p in b ==> p !in c && p !in d
    requires p in c ==> p !in d
    ensures InAtMostOne(p, a, b, c, d)
  {
  }

  lemma FourNoRepeats(a: seq<Point2>, b: seq<Point2>, c: seq<Point2>, d: seq<Point2>)
    requires NoRepeats(a) && NoRepeats(b) && NoRepeats(c) && NoRepeats(d)
    requires forall p :: InAtMostOne(p, a, b, c, d)
    ensures NoRepeats(a + b + c + d)
  {
    hide NoRepeats;
    forall p
      ensures p in a ==> p !in b
      ensures p in a + b ==> p !in c
      ensures p in a + b + c ==> p !in d
    {
      assert InAtMostOne(p, a, b, c, d);
    }
    hide InAtMostOne;
    JoinNoRepeats(a, b);
    JoinNoRepeats(a + b, c);
    JoinNoRepeats(a + b + c, d);
  }

  lemma QuarterStart(r: nat)
    requires r >= 1
    ensures Quarter(r)[0] == Point2(r, 0)
  {
    NoGaps(r, 0, r);
    ArcLinked(r, 0, r);
  }

  lemma RingLinked(a: seq<Point2>, b: seq<Point2>, c: seq<Point2>, d: seq<Point2>)
    requires a != [] && b == AllTurned(a) && c == AllTurned(b) && d == AllTurned(c)
    requires Linked(a + [Turned(a[0])])
    ensures var ring := a + b + c + d; Linked(ring) && Touching(ring[|ring| - 1], ring[0])
  {
    TurnedLinked(a, b[0]);
    TurnedLinked(b, c[0]);
    TurnedLinked(c, d[0]);
    assert Turned(d[0]) == a[0];
    hide Linked, Touching;
    JoinLinked(a, b, c[0]);
    JoinLinked(a + b, c, d[0]);
    JoinLinked(a + b + c, d, a[0]);
    RingCloses(a + b + c + d, a[0]);
  }

  lemma RingCloses(line: seq<Point2>, end: Point2)
    requires line != [] && Linked(line + [end])
    ensures Linked(line) && Touching(line[|line| - 1], end)
  {
    var all := line + [end];
    assert forall i | 0 <= i < |line| :: all[i] == line[i];
    assert Touching(all[|line| - 1], all[|line|]);
    forall i | 0 <= i < |line| - 1
      ensures Touching(line[i], line[i + 1])
    {
      assert Touching(all[i], all[i + 1]);
    }
  }

  // ----- The loop -----

  /** The part of the outline plotted once the loop has done the rows below `rows`. */
  predicate Plotted(a: int, b: int, r: nat, rows: nat) {
    if r == 0 then rows > 0 && a == 0 && b == 0
    else (OnOctant(Abs(a), Abs(b), r) && Abs(b) < rows) || (OnOctant(Abs(b), Abs(a), r) && Abs(a) < rows)
  }

  lemma MirrorList(c: Point2, x: int, y: int)
    ensures var m := Mirrors(c, x, y);
            && |m| == 8
            && m[0] == Point2(x + c.x, y + c.y) && m[1] == Point2(y + c.x, x + c.y)
            && m[2] == Point2(-x + c.x, y + c.y) && m[3] == Point2(-y + c.x, x + c.y)
            && m[4] == Point2(-x + c.x, -y + c.y) && m[5] == Point2(-y + c.x, -x + c.y)
            && m[6] == Point2(x + c.x, -y + c.y) && m[7] == Point2(y + c.x, -x + c.y)
  {
  }

  /** The eight mirror images are the points with these two distances from the axes. */
  lemma MirrorsAre(c: Point2, x: nat, y: nat, q: Point2)
    ensures q in Mirrors(c, x, y) <==>
            (Abs(q.x - c.x) == x && Abs(q.y - c.y) == y) || (Abs(q.x - c.x) == y && Abs(q.y - c.y) == x)
  {
    var a, b := q.x - c.x, q.y - c.y;
    assert q == Point2(a + c.x, b + c.y);
    var m := Mirrors(c, x, y);
    if Abs(a) == x && Abs(b) == y {
      assert q == m[0] || q == m[2] || q == m[4] || q == m[6];
    }
    if Abs(a) == y && Abs(b) == x {
      assert q == m[1] || q == m[3] || q == m[5] || q == m[7];
    }
  }

  lemma RowAdds(c: Point2, x: nat, y: nat, r: nat, q: Point2)
    requires OnRow(x, y, r)
    ensures Plotted(q.x - c.x, q.y - c.y, r, y + 1) <==>
            Plotted(q.x - c.x, q.y - c.y, r, y) || q in Mirrors(c, x, y)
  {
    var a, b := Abs(q.x - c.x), Abs(q.y - c.y);
    MirrorsAre(c, x, y, q);
    if r > 0 {
      if OnOctant(a, b, r) && b == y {
        OnePerRow(x, a, y, r);
      }
      if OnOctant(b, a, r) && a == y {
        OnePerRow(x, b, y, r);
      }
    }
    hide OnOctant, Mirrors;
  }

  /** `now` is `was` with part of the outline around `c` on panel `s` in one colour. */
  ghost predicate Shows(was: Picture, now: Picture, s: ScreenNumber, c: Point2, r: nat, rows: nat, col: Color) {
    SameRest(was, now) &&
    forall t, q :: Pixel(now, t, q) ==
      if t == s && OnPanel(q) && Plotted(q.x - c.x, q.y - c.y, r, rows) then col else Pixel(was, t, q)
  }

  lemma ShowsAt(was: Picture, now: Picture, s: ScreenNumber, c: Point2, r: nat, rows: nat, col: Color, t: ScreenNumber, q: Point2)
    requires Shows(was, now, s, c, r, rows, col)
    ensures SameRest(was, now)
    ensures Pixel(now, t, q) ==
            if t == s && OnPanel(q) && Plotted(q.x - c.x, q.y - c.y, r, rows) then col else Pixel(was, t, q)
  {
    hide Pixel, Plotted;
  }

  lemma RowShowsAt(was: Picture, now: Picture, next: Picture, s: ScreenNumber, c: Point2, x: nat, y: nat, r: nat, col: Color,
                   t: ScreenNumber, q: Point2)
    requires OnRow(x, y, r)
    requires Shows(was, now, s, c, r, y, col) && next == Paint(now, OnScreen(s, Mirrors(c, x, y)), col)
    ensures Pixel(next, t, q) ==
            if t == s && OnPanel(q) && Plotted(q.x - c.x, q.y - c.y, r, y + 1) then col else Pixel(was, t, q)
  {
    hide *;
    ShowsAt(was, now, s, c, r, y, col, t, q);
    PaintPanel(now, s, Mirrors(c, x, y), col, t, q);
    RowAdds(c, x, y, r, q);
  }

  lemma RowShows(was: Picture, now: Picture, next: Picture, s: ScreenNumber, c: Point2, x: nat, y: nat, r: nat, col: Color)
    requires OnRow(x, y, r)
    requires Shows(was, now, s, c, r, y, col) && next == Paint(now, OnScreen(s, Mirrors(c, x, y)), col)
    ensures Shows(was, next, s, c, r, y + 1, col)
  {
    hide Pixel, Plotted, OnPanel, OnRow, Paint, OnScreen, Mirrors;
    forall t, q
      ensures Pixel(next, t, q) ==
        if t == s && OnPanel(q) && Plotted(q.x - c.x, q.y - c.y, r, y + 1) then col else Pixel(was, t, q)
    {
      RowShowsAt(was, now, next, s, c, x, y, r, col, t, q);
    }
    PaintKeepsRest(now, OnScreen(s, Mirrors(c, x, y)), col);
  }

  /** One `setPixel3D(getPointOnScreen(...))`, the one after the first `k` of `all`. */
  method Plot(cube: Cube, screenNr: ScreenNumber, p: Point2, col: Color, ghost pic: Picture, ghost all: seq<Point2>, ghost k: nat)
    requires k < |all| && all[k] == p
    requires cube.Valid() && cube.Picture() == Paint(pic, OnScreen(screenNr, all[..k]), col)
    modifies cube.screens
    ensures cube.Valid() && cube.Picture() == Paint(pic, OnScreen(screenNr, all[..k + 1]), col)
  {
    hide Paint, SetVoxel, PointOnScreen;
    cube.SetPixel3D(PointOnScreen(screenNr, p), col, false);
    PaintOneMore(pic, OnScreen(screenNr, all[..k]), PointOnScreen(screenNr, p), col);
    assert OnScreen(screenNr, all[..k + 1]) == OnScreen(screenNr, all[..k]) + [PointOnScreen(screenNr, p)];
  }

  /** The last four `setPixel3D` calls of one turn. */
  method PlotOpposite(cube: Cube, screenNr: ScreenNumber, c: Point2, x: int, y: int, col: Color, ghost now: Picture)
    requires cube.Valid() && cube.Picture() == Paint(now, OnScreen(screenNr, Mirrors(c, x, y)[..4]), col)
    modifies cube.screens
    ensures cube.Valid() && cube.Picture() == Paint(now, OnScreen(screenNr, Mirrors(c, x, y)[..8]), col)
  {
    ghost var all := Mirrors(c, x, y);
    hide *;
    MirrorList(c, x, y);
    Plot(cube, screenNr, Point2(-x + c.x, -y + c.y), col, now, all, 4);
    Plot(cube, screenNr, Point2(-y + c.x, -x + c.y), col, now, all, 5);
    Plot(cube, screenNr, Point2(x + c.x, -y + c.y), col, now, all, 6);
    Plot(cube, screenNr, Point2(y + c.x, -x + c.y), col, now, all, 7);
  }

  /** The eight `setPixel3D` calls of one turn. */
  method PlotMirrors(cube: Cube, screenNr: ScreenNumber, c: Point2, x: int, y: int, col: Color)
    requires cube.Valid()
    modifies cube.screens
    ensures cube.Valid() && cube.Picture() == Paint(old(cube.Picture()), OnScreen(screenNr, Mirrors(c, x, y)), col)
  {
    ghost var now, all := cube.Picture(), Mirrors(c, x, y);
    PaintNothing(now, screenNr, all, col);
    hide *;
    MirrorList(c, x, y);
    Plot(cube, screenNr, Point2(x + c.x, y + c.y), col, now, all, 0);
    Plot(cube, screenNr, Point2(y + c.x, x + c.y), col, now, all, 1);
    Plot(cube, screenNr, Point2(-x + c.x, y + c.y), col, now, all, 2);
    Plot(cube, screenNr, Point2(-y + c.x, x + c.y), col, now, all, 3);
    PlotOpposite(cube, screenNr, c, x, y, col, now);
    assert all[..8] == all;
  }

  /** Without a radius there is only the centre, with a negative one nothing. */
  lemma SmallCircles()
    ensures forall a, b :: OnCircle(a, b, 0) <==> a == 0 && b == 0
    ensures forall a, b, r :: r < 0 ==> !OnCircle(a, b, r)
  {
  }

  method DrawCircle2D(cube: Cube, screenNr: ScreenNumber, x0: int, y0: int, radius: int, col: Color)
    requires cube.Valid()
    modifies cube.screens
    ensures cube.Valid() && SameRest(old(cube.Picture()), cube.Picture())
    ensures forall t, q :: Pixel(cube.Picture(), t, q) ==
              if t == screenNr && OnPanel(q) && OnCircle(q.x - x0, q.y - y0, radius) then col
              else Pixel(old(cube.Picture()), t, q)
    ensures radius < 0 ==> forall t, q :: Pixel(cube.Picture(), t, q) == Pixel(old(cube.Picture()), t, q)
    ensures radius == 0 ==>
              forall t, q :: Pixel(cube.Picture(), t, q) ==
                if t == screenNr && q == Point2(x0, y0) && OnPanel(q) then col else Pixel(old(cube.Picture()), t, q)
  {
    hide Paint, Pixel, OnRow, Complete, Shows, OnPanel, OnCircle, Decision, Mirrors, OnScreen;
    var x, y := radius, 0;
    var radiusError := 1 - x;
    var c := Point2(x0, y0);
    ghost var was := cube.Picture();
    CircleStart(was, screenNr, c, radius, col);
    while y <= x
      invariant cube.Valid() && 0 <= y
      invariant radius < 0 ==> x < 0 && y == 0 && cube.Picture() == was
      invariant radius >= 0 ==> Shows(was, cube.Picture(), screenNr, c, radius, y, col)
      invariant radius >= 0 ==> radiusError == Decision(x, y, radius)
      invariant radius >= 0 ==> if y <= x then OnRow(x, y, radius) else Complete(y, radius)
      decreases x - y + 1
    {
      ghost var now := cube.Picture();
      PlotMirrors(cube, screenNr, c, x, y, col);
      RowShows(was, now, cube.Picture(), screenNr, c, x, y, radius, col);
      RowStep(x, y, radius);
      DecisionStep(x, y, radius);
      y := y + 1;
      if radiusError < 0 {
        radiusError := radiusError + 2 * y + 1;
      } else {
        x := x - 1;
        radiusError := radiusError + 2 * (y - x + 1);
      }
    }
    CircleDone(was, cube.Picture(), screenNr, c, radius, y, col);
    SmallCircles();
  }

  lemma PaintNothing(pic: Picture, s: ScreenNumber, all: seq<Point2>, col: Color)
    ensures Paint(pic, OnScreen(s, all[..0]), col) == pic
  {
  }

  /** The loop's point is the one to plot in its row. */
  predicate OnRow(x: int, y: int, r: nat) {
    if r == 0 then x == 0 && y == 0 else OnOctant(x, y, r)
  }

  /** Every row of the outline is below `rows`. */
  ghost predicate Complete(rows: int, r: nat) {
    rows > 0 && forall u, v | OnOctant(u, v, r) :: v < rows
  }

  lemma RowStep(x: int, y: int, r: nat)
    requires OnRow(x, y, r)
    ensures var nx := NextColumn(x, y, r);
            if y + 1 <= nx then OnRow(nx, y + 1, r) else Complete(y + 1, r)
  {
    if r > 0 {
      OctantStep(x, y, r);
      var nx := NextColumn(x, y, r);
      if y + 1 > nx {
        forall u, v | OnOctant(u, v, r)
          ensures v < y + 1
        {
          OctantEnd(x, y, r, u, v);
        }
      }
    } else {
      forall u, v | OnOctant(u, v, r)
        ensures v < y + 1
      {
        Square(0, v);
      }
    }
  }

  lemma CircleStart(was: Picture, s: ScreenNumber, c: Point2, r: int, col: Color)
    ensures r >= 0 ==> OnRow(r, 0, r) && Decision(r, 0, r) == 1 - r && Shows(was, was, s, c, r, 0, col)
  {
    if r > 0 {
      NoGaps(0, 0, r);
    }
  }

  lemma CircleDone(was: Picture, now: Picture, s: ScreenNumber, c: Point2, r: int, rows: nat, col: Color)
    requires r < 0 ==> now == was
    requires r >= 0 ==> Shows(was, now, s, c, r, rows, col) && Complete(rows, r)
    ensures SameRest(was, now)
    ensures forall t, q :: Pixel(now, t, q) ==
              if t == s && OnPanel(q) && OnCircle(q.x - c.x, q.y - c.y, r) then col else Pixel(was, t, q)
  {
    hide Pixel, OnOctant;
  }
}
