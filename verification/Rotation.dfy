/**
  The panel rotations of the hardware renderers: each renderer computes them its own way.
 */
module Rotation {
  import opened Screen
  import opened Cube

  datatype Rotation = Rot0 | Rot90 | Rot180 | Rot270

  /** A screen as a renderer sees it: its pixels, how it is turned, and its place among the panels. */
  datatype Panel = Panel(data: seq<Color>, rotation: Rotation, offsetX: int, offsetY: int)

  /** The pixel the FTDI renderer reads for column x and row y of an n-by-n panel. */
  function Source(rotation: Rotation, n: int, p: Point2): Point2 {
    match rotation
    case Rot0 => p
    case Rot90 => Point2(n - 1 - p.y, p.x)
    case Rot180 => Point2(n - 1 - p.x, n - 1 - p.y)
    case Rot270 => Point2(p.y, n - 1 - p.x)
  }

  /** The store index the SPI renderer reads for column x and row y. */
  function DirectIndex(rotation: Rotation, n: int, x: int, y: int): int {
    match rotation
    case Rot0 => y + x * n
    case Rot90 => x + (n - 1 - y) * n
    case Rot180 => n - 1 - y + (n - 1 - x) * n
    case Rot270 => n - 1 - x + y * n
  }

  function Turns(rotation: Rotation): nat {
    match rotation
    case Rot0 => 0
    case Rot90 => 1
    case Rot180 => 2
    case Rot270 => 3
  }

  /** The rotation by the sum of two angles. */
  function Sum(a: Rotation, b: Rotation): Rotation {
    var t := (Turns(a) + Turns(b)) % 4;
    if t == 0 then Rot0 else if t == 1 then Rot90 else if t == 2 then Rot180 else Rot270
  }

  function Inverse(a: Rotation): Rotation {
    match a
    case Rot0 => Rot0
    case Rot90 => Rot270
    case Rot180 => Rot180
    case Rot270 => Rot90
  }

  /** On square panels the SPI renderer's direct indices read the pixels the FTDI renderer reads. */
  lemma DirectIndexIsSource(rotation: Rotation, n: nat, x: int, y: int)
    requires Inside(n, n, x, y)
    ensures var s := Source(rotation, n, Point2(x, y));
            && Inside(n, n, s.x, s.y)
            && DirectIndex(rotation, n, x, y) == ArrayIndex(n, s.x, s.y)
            && 0 <= DirectIndex(rotation, n, x, y) < n * n
  {
    var s := Source(rotation, n, Point2(x, y));
    IndexInRange(n, n, s.x, s.y);
  }

  /** Where the corners come from: what is shown at the upper left of a turned panel is the pixel at its
      upper left, upper right, lower right or lower left, and one step right follows the turned edge. */
  lemma CornersTurn(n: int)
    ensures Source(Rot0, n, Point2(0, 0)) == Point2(0, 0) && Source(Rot0, n, Point2(1, 0)) == Point2(1, 0)
    ensures Source(Rot90, n, Point2(0, 0)) == Point2(n - 1, 0) && Source(Rot90, n, Point2(1, 0)) == Point2(n - 1, 1)
    ensures Source(Rot180, n, Point2(0, 0)) == Point2(n - 1, n - 1) && Source(Rot180, n, Point2(1, 0)) == Point2(n - 2, n - 1)
    ensures Source(Rot270, n, Point2(0, 0)) == Point2(0, n - 1) && Source(Rot270, n, Point2(1, 0)) == Point2(0, n - 2)
  {
  }

  lemma InverseUndoes(a: Rotation, n: int, p: Point2)
    ensures Source(Inverse(a), n, Source(a, n, p)) == p && Source(a, n, Source(Inverse(a), n, p)) == p
    ensures Inside(n, n, p.x, p.y) <==> Inside(n, n, Source(a, n, p).x, Source(a, n, p).y)
  {
  }

  lemma SumIs(a: Rotation, b: Rotation)
    ensures a == Rot0 ==> Sum(a, b) == b
    ensures b == Rot0 ==> Sum(a, b) == a
    ensures a == b && a != Rot0 ==> Sum(a, b) == if a == Rot180 then Rot0 else Rot180
    ensures a != b && a != Rot0 && b != Rot0 ==>
              Sum(a, b) == if a == Rot180 then Inverse(b) else if b == Rot180 then Inverse(a) else Rot0
  {
  }

  /** The four source maps compose like the rotations by quarter turns. */
  lemma RotationsCompose(a: Rotation, b: Rotation, n: int, p: Point2)
    ensures Source(a, n, Source(b, n, p)) == Source(Sum(a, b), n, p)
    ensures Source(Inverse(a), n, Source(a, n, p)) == p
    ensures Source(a, n, Source(Inverse(a), n, p)) == p
    ensures Inside(n, n, p.x, p.y) <==> Inside(n, n, Source(a, n, p).x, Source(a, n, p).y)
  {
    InverseUndoes(a, n, p);
    SumIs(a, b);
    hide Sum;
  }
}
