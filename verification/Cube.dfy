/**
  The six 64x64 panels of the cube seen as the surface of a 66-cubed lattice: the two outermost
  lattice planes in every direction belong to a panel, except along the cube's edges.
 */
module Cube {
  import opened Bytes
  import opened Screen

  const SIZE: int := 64
  const MAX_INDEX: int := 65

  datatype ScreenNumber = Front | Right | Back | Left | Top | Bottom

  datatype Point2 = Point2(x: int, y: int)
  datatype Point3 = Point3(x: int, y: int, z: int)

  function Abs(v: int): nat {
    if v < 0 then -v else v
  }

  /** Two different points at most one apart in each direction. */
  predicate Touching(p: Point2, q: Point2) {
    p != q && Abs(q.x - p.x) <= 1 && Abs(q.y - p.y) <= 1
  }

  function Max(a: nat, b: nat): nat {
    if a < b then b else a
  }

  function Index(s: ScreenNumber): nat {
    match s
    case Front => 0
    case Right => 1
    case Back => 2
    case Left => 3
    case Top => 4
    case Bottom => 5
  }

  function Constrain(v: int, min: int, max: int): int {
    if v < min then min else if v > max then max else v
  }

  function Clamp(p: Point3): Point3 {
    Point3(Constrain(p.x, 0, MAX_INDEX), Constrain(p.y, 0, MAX_INDEX), Constrain(p.z, 0, MAX_INDEX))
  }

  predicate InLattice(p: Point3) {
    0 <= p.x <= MAX_INDEX && 0 <= p.y <= MAX_INDEX && 0 <= p.z <= MAX_INDEX
  }

  function PointOnScreen(s: ScreenNumber, p: Point2): Point3 {
    var u, v := p.x + 1, p.y + 1;
    match s
    case Front => Point3(u, 0, v)
    case Right => Point3(MAX_INDEX, u, v)
    case Back => Point3(MAX_INDEX - u, MAX_INDEX, v)
    case Left => Point3(0, MAX_INDEX - u, v)
    case Top => Point3(u, MAX_INDEX - v, 0)
    case Bottom => Point3(u, v, MAX_INDEX)
  }

  /** A place a lattice point is drawn at; `None` inside the cube. */
  datatype Place = None | At(screen: ScreenNumber, pixel: Point2)

  /** The panel and pixel chosen for a lattice point, by the order of the tests. */
  function PlaceOf(p: Point3): Place {
    if p.y == 0 then At(Front, Point2(p.x - 1, p.z - 1))
    else if p.x == MAX_INDEX then At(Right, Point2(p.y - 1, p.z - 1))
    else if p.y == MAX_INDEX then At(Back, Point2(MAX_INDEX - p.x - 1, p.z - 1))
    else if p.x == 0 then At(Left, Point2(MAX_INDEX - p.y - 1, p.z - 1))
    else if p.z == 0 then At(Top, Point2(p.x - 1, MAX_INDEX - p.y - 1))
    else if p.z == MAX_INDEX then At(Bottom, Point2(p.x - 1, p.y - 1))
    else None
  }

  predicate OnPanel(p: Point2) {
    Inside(SIZE, SIZE, p.x, p.y)
  }

  /** How many of the six face planes a lattice point lies on. */
  function FaceCount(p: Point3): nat {
    (if p.x == 0 || p.x == MAX_INDEX then 1 else 0) +
    (if p.y == 0 || p.y == MAX_INDEX then 1 else 0) +
    (if p.z == 0 || p.z == MAX_INDEX then 1 else 0)
  }

  /** The stores of all screens, panel by panel. */
  type Picture = p: seq<seq<Color>> | |p| >= 6 && forall i | 0 <= i < 6 :: |p[i]| == SIZE * SIZE
    witness seq(6, _ => seq(SIZE * SIZE, _ => BLACK))

  function Pixel(pic: Picture, s: ScreenNumber, p: Point2): Color {
    PixelOf(pic[Index(s)], SIZE, SIZE, p.x, p.y)
  }

  /** The picture after one full-intensity `setPixel3D`. */
  function SetVoxel(pic: Picture, p: Point3, col: Color, add: bool): Picture {
    match PlaceOf(Clamp(p))
    case None => pic
    case At(s, q) => pic[Index(s) := Write(pic[Index(s)], SIZE, SIZE, q.x, q.y, col, add)]
  }

  class Cube {
    const screens: seq<Screen>

    ghost predicate Valid()
      reads this, screens
    {
      && |screens| >= 6
      && (forall i | 0 <= i < |screens| :: screens[i].Valid())
      && (forall i | 0 <= i < 6 :: screens[i].width == SIZE && screens[i].height == SIZE)
      && (forall i, j | 0 <= i < j < |screens| :: screens[i] != screens[j])
    }

    ghost function Picture(): (pic: Picture)
      requires Valid()
      reads this, screens
    {
      seq(|screens|, i requires 0 <= i < |screens| reads this, screens => screens[i].screenData)
    }

    constructor (setScreens: seq<Screen>)
      requires |setScreens| >= 6
      requires forall i | 0 <= i < |setScreens| :: setScreens[i].Valid()
      requires forall i | 0 <= i < 6 :: setScreens[i].width == SIZE && setScreens[i].height == SIZE
      requires forall i, j | 0 <= i < j < |setScreens| :: setScreens[i] != setScreens[j]
      ensures Valid() && screens == setScreens
    {
      screens := setScreens;
    }

    /** One of the screens changed. */
    twostate lemma OnePanel(i: nat)
      requires i < |screens| && old(Valid()) && screens[i].Valid()
      requires forall j | 0 <= j < |screens| && j != i :: screens[j].screenData == old(screens[j].screenData)
      ensures Valid() && Picture() == old(Picture())[i := screens[i].screenData]
    {
    }

    method SetPixel3D(p: Point3, col: Color, add: bool)
      requires Valid()
      modifies screens
      ensures Valid() && Picture() == SetVoxel(old(Picture()), p, col, add)
    {
      hide Write;
      var x := Constrain(p.x, 0, MAX_INDEX);
      var y := Constrain(p.y, 0, MAX_INDEX);
      var z := Constrain(p.z, 0, MAX_INDEX);
      if y == 0 {
        screens[0].SetPixel(x - 1, z - 1, col, add);
        OnePanel(0);
      } else if x == MAX_INDEX {
        screens[1].SetPixel(y - 1, z - 1, col, add);
        OnePanel(1);
      } else if y == MAX_INDEX {
        screens[2].SetPixel(MAX_INDEX - x - 1, z - 1, col, add);
        OnePanel(2);
      } else if x == 0 {
        screens[3].SetPixel(MAX_INDEX - y - 1, z - 1, col, add);
        OnePanel(3);
      } else if z == 0 {
        screens[4].SetPixel(x - 1, MAX_INDEX - y - 1, col, add);
        OnePanel(4);
      } else if z == MAX_INDEX {
        screens[5].SetPixel(x - 1, y - 1, col, add);
        OnePanel(5);
      }
    }

    method GetPixel3D(p: Point3) returns (c: Color)
      requires Valid()
      ensures c == GetVoxel(Picture(), p)
    {
      if p.y == 0 {
        c := screens[0].GetPixel(p.x - 1, p.z - 1);
      } else if p.x == MAX_INDEX {
        c := screens[1].GetPixel(p.y - 1, p.z - 1);
      } else if p.y == MAX_INDEX {
        c := screens[2].GetPixel(MAX_INDEX - p.x - 1, p.z - 1);
      } else if p.x == 0 {
        c := screens[3].GetPixel(MAX_INDEX - p.y - 1, p.z - 1);
      } else if p.z == 0 {
        c := screens[4].GetPixel(p.x - 1, MAX_INDEX - p.y - 1);
      } else if p.z == MAX_INDEX {
        c := screens[5].GetPixel(p.x - 1, p.y - 1);
      } else {
        c := BLACK;
      }
    }
  }

  function GetVoxel(pic: Picture, p: Point3): Color {
    match PlaceOf(p)
    case None => BLACK
    case At(s, q) => Pixel(pic, s, q)
  }

  lemma PixelAfterVoxel(pic: Picture, p: Point3, col: Color, add: bool, s: ScreenNumber, q: Point2)
    ensures Pixel(SetVoxel(pic, p, col, add), s, q) ==
            if PlaceOf(Clamp(p)) == At(s, q) && OnPanel(q)
            then (if add then Pixel(pic, s, q).Plus(col) else col)
            else Pixel(pic, s, q)
  {
    var place := PlaceOf(Clamp(p));
    if place.At? && place.screen == s {
      ReadBack(pic[Index(s)], SIZE, SIZE, place.pixel.x, place.pixel.y, col, add, q.x, q.y);
    }
  }

  // ----- The six faces -----

  /** A point on or beyond the inside of a face is drawn on that face's screen, at the two coordinates
      along the face; a point within the cube nowhere. */
  lemma DrawnOnItsFace(pic: Picture, p: Point3, col: Color, add: bool)
    ensures p.y <= 0 && 1 <= p.x <= 64 && 1 <= p.z <= 64 ==>
              SetVoxel(pic, p, col, add) == pic[0 := Write(pic[0], 64, 64, p.x - 1, p.z - 1, col, add)]
    ensures p.x >= 65 && 1 <= p.y <= 64 && 1 <= p.z <= 64 ==>
              SetVoxel(pic, p, col, add) == pic[1 := Write(pic[1], 64, 64, p.y - 1, p.z - 1, col, add)]
    ensures p.y >= 65 && 1 <= p.x <= 64 && 1 <= p.z <= 64 ==>
              SetVoxel(pic, p, col, add) == pic[2 := Write(pic[2], 64, 64, 64 - p.x, p.z - 1, col, add)]
    ensures p.x <= 0 && 1 <= p.y <= 64 && 1 <= p.z <= 64 ==>
              SetVoxel(pic, p, col, add) == pic[3 := Write(pic[3], 64, 64, 64 - p.y, p.z - 1, col, add)]
    ensures p.z <= 0 && 1 <= p.x <= 64 && 1 <= p.y <= 64 ==>
              SetVoxel(pic, p, col, add) == pic[4 := Write(pic[4], 64, 64, p.x - 1, 64 - p.y, col, add)]
    ensures p.z >= 65 && 1 <= p.x <= 64 && 1 <= p.y <= 64 ==>
              SetVoxel(pic, p, col, add) == pic[5 := Write(pic[5], 64, 64, p.x - 1, p.y - 1, col, add)]
    ensures 1 <= p.x <= 64 && 1 <= p.y <= 64 && 1 <= p.z <= 64 ==> SetVoxel(pic, p, col, add) == pic
  {
    hide Write;
  }

  /** A point beyond two faces, past an edge of the cube, is drawn nowhere. */
  lemma NothingPastAnEdge(pic: Picture, p: Point3, col: Color, add: bool)
    requires var outside := (if 1 <= p.x <= 64 then 0 else 1) + (if 1 <= p.y <= 64 then 0 else 1) + (if 1 <= p.z <= 64 then 0 else 1);
             outside >= 2
    ensures SetVoxel(pic, p, col, add) == pic
  {
  }

  /** Reading, on the lattice, looks where drawing draws; within the cube it is black. */
  lemma ReadOnItsFace(pic: Picture, p: Point3)
    ensures p.y == 0 && 1 <= p.x <= 64 && 1 <= p.z <= 64 ==> GetVoxel(pic, p) == PixelOf(pic[0], 64, 64, p.x - 1, p.z - 1)
    ensures p.x == 65 && 1 <= p.y <= 64 && 1 <= p.z <= 64 ==> GetVoxel(pic, p) == PixelOf(pic[1], 64, 64, p.y - 1, p.z - 1)
    ensures p.y == 65 && 1 <= p.x <= 64 && 1 <= p.z <= 64 ==> GetVoxel(pic, p) == PixelOf(pic[2], 64, 64, 64 - p.x, p.z - 1)
    ensures p.x == 0 && 1 <= p.y <= 64 && 1 <= p.z <= 64 ==> GetVoxel(pic, p) == PixelOf(pic[3], 64, 64, 64 - p.y, p.z - 1)
    ensures p.z == 0 && 1 <= p.x <= 64 && 1 <= p.y <= 64 ==> GetVoxel(pic, p) == PixelOf(pic[4], 64, 64, p.x - 1, 64 - p.y)
    ensures p.z == 65 && 1 <= p.x <= 64 && 1 <= p.y <= 64 ==> GetVoxel(pic, p) == PixelOf(pic[5], 64, 64, p.x - 1, p.y - 1)
    ensures 1 <= p.x <= 64 && 1 <= p.y <= 64 && 1 <= p.z <= 64 ==> GetVoxel(pic, p) == Color(0, 0, 0)
  {
    hide PixelOf;
  }

  /** On an edge of the lattice, where two or three faces meet, reading is black. */
  lemma EdgesAreBlack(pic: Picture, p: Point3)
    requires 0 <= p.x <= 65 && 0 <= p.y <= 65 && 0 <= p.z <= 65
    requires var outside := (if 1 <= p.x <= 64 then 0 else 1) + (if 1 <= p.y <= 64 then 0 else 1) + (if 1 <= p.z <= 64 then 0 else 1);
             outside >= 2
    ensures GetVoxel(pic, p) == Color(0, 0, 0)
  {
  }

  /** The panels meet at the edges: a step off a panel leads to the same lattice point as a step off its
      neighbour. The four sides go round in order, the top and the bottom join the front and the back. */
  lemma PanelsMeet(k: int)
    ensures PointOnScreen(Front, Point2(64, k)) == PointOnScreen(Right, Point2(-1, k))
    ensures PointOnScreen(Right, Point2(64, k)) == PointOnScreen(Back, Point2(-1, k))
    ensures PointOnScreen(Back, Point2(64, k)) == PointOnScreen(Left, Point2(-1, k))
    ensures PointOnScreen(Left, Point2(64, k)) == PointOnScreen(Front, Point2(-1, k))
    ensures PointOnScreen(Top, Point2(k, 64)) == PointOnScreen(Front, Point2(k, -1))
    ensures PointOnScreen(Bottom, Point2(k, -1)) == PointOnScreen(Front, Point2(k, 64))
    ensures PointOnScreen(Top, Point2(k, -1)) == PointOnScreen(Back, Point2(63 - k, -1))
    ensures PointOnScreen(Bottom, Point2(k, 64)) == PointOnScreen(Back, Point2(63 - k, 64))
  {
  }

  // ----- Folding the panels onto the cube -----

  /** A panel point is drawn at itself, and a point beside its panel nowhere. */
  lemma PlaceOfPanelPoint(s: ScreenNumber, p: Point2)
    ensures OnPanel(p) ==> PlaceOf(Clamp(PointOnScreen(s, p))) == At(s, p)
    ensures !OnPanel(p) ==> var place := PlaceOf(Clamp(PointOnScreen(s, p))); place.None? || !OnPanel(place.pixel)
  {
  }

  /** Drawing at a 2D point of a panel changes that pixel and no other; beside the panel, no pixel of
      any screen. */
  lemma FoldAndClip(pic: Picture, s: ScreenNumber, p: Point2, col: Color, t: ScreenNumber, q: Point2)
    ensures Pixel(SetVoxel(pic, PointOnScreen(s, p), col, false), t, q) ==
            if (t, q) == (s, p) && OnPanel(p) then col else Pixel(pic, t, q)
    ensures !OnPanel(p) ==> SetVoxel(pic, PointOnScreen(s, p), col, false) == pic
  {
    PlaceOfPanelPoint(s, p);
    PixelAfterVoxel(pic, PointOnScreen(s, p), col, false, t, q);
  }

  /** The lattice points on exactly one face are the panel pixels, one for one. */
  lemma SurfaceBijection(p: Point3, s: ScreenNumber, q: Point2)
    requires InLattice(p)
    ensures FaceCount(p) == 1 <==> PlaceOf(p).At? && OnPanel(PlaceOf(p).pixel)
    ensures FaceCount(p) == 1 ==> PointOnScreen(PlaceOf(p).screen, PlaceOf(p).pixel) == p
    ensures OnPanel(q) ==>
              var r := PointOnScreen(s, q); InLattice(r) && FaceCount(r) == 1 && PlaceOf(r) == At(s, q)
  {
  }

  /** Plotting a list of lattice points in one colour. */
  function Paint(pic: Picture, points: seq<Point3>, col: Color): Picture {
    if points == [] then pic
    else SetVoxel(Paint(pic, points[..|points| - 1], col), points[|points| - 1], col, false)
  }

  lemma PaintOneMore(pic: Picture, points: seq<Point3>, p: Point3, col: Color)
    ensures Paint(pic, points + [p], col) == SetVoxel(Paint(pic, points, col), p, col, false)
  {
    assert (points + [p])[..|points|] == points;
  }

  /** Screens past the sixth are no part of the cube. */
  predicate SameRest(was: Picture, now: Picture) {
    |now| == |was| && forall i | 6 <= i < |was| :: now[i] == was[i]
  }

  lemma {:induction false} PaintKeepsRest(pic: Picture, points: seq<Point3>, col: Color)
    ensures SameRest(pic, Paint(pic, points, col))
  {
    if points != [] {
      PaintKeepsRest(pic, points[..|points| - 1], col);
    }
  }

  /** Plotting points of one panel colours exactly the panel pixels among them. */
  lemma {:induction false} PaintPanel(pic: Picture, s: ScreenNumber, points: seq<Point2>, col: Color, t: ScreenNumber, q: Point2)
    ensures Pixel(Paint(pic, OnScreen(s, points), col), t, q) ==
            if t == s && OnPanel(q) && q in points then col else Pixel(pic, t, q)
    decreases |points|
  {
    if points != [] {
      var front, last := points[..|points| - 1], points[|points| - 1];
      PaintPanel(pic, s, front, col, t, q);
      assert points == front + [last];
      assert OnScreen(s, points) == OnScreen(s, front) + [PointOnScreen(s, last)];
      PaintOneMore(pic, OnScreen(s, front), PointOnScreen(s, last), col);
      FoldAndClip(Paint(pic, OnScreen(s, front), col), s, last, col, t, q);
    }
  }

  function OnScreen(s: ScreenNumber, points: seq<Point2>): seq<Point3> {
    seq(|points|, k requires 0 <= k < |points| => PointOnScreen(s, points[k]))
  }

  // ----- The surface as memory -----

  datatype WriteOp = WriteOp(point: Point3, col: Color, add: bool)

  function ApplyAll(pic: Picture, ws: seq<WriteOp>): Picture {
    if ws == [] then pic
    else
      var w := ws[|ws| - 1];
      SetVoxel(ApplyAll(pic, ws[..|ws| - 1]), w.point, w.col, w.add)
  }

  /** One memory cell under the writes whose clamped coordinates are its own. */
  function CellAfter(c: Color, p: Point3, ws: seq<WriteOp>): Color {
    if ws == [] then c
    else
      var w := ws[|ws| - 1];
      var before := CellAfter(c, p, ws[..|ws| - 1]);
      if Clamp(w.point) != p then before else if w.add then before.Plus(w.col) else w.col
  }

  /** Reading a surface point after any writes sees the writes that clamp to it, and no others. */
  lemma {:induction false} SurfaceMemory(pic: Picture, ws: seq<WriteOp>, p: Point3)
    requires InLattice(p) && FaceCount(p) == 1
    ensures GetVoxel(ApplyAll(pic, ws), p) == CellAfter(GetVoxel(pic, p), p, ws)
  {
    if ws != [] {
      var w := ws[|ws| - 1];
      SurfaceMemory(pic, ws[..|ws| - 1], p);
      SurfaceBijection(p, Front, Point2(0, 0));
      var place := PlaceOf(p);
      PixelAfterVoxel(ApplyAll(pic, ws[..|ws| - 1]), w.point, w.col, w.add, place.screen, place.pixel);
      SamePlaceSamePoint(Clamp(w.point), p);
    }
  }

  lemma SamePlaceSamePoint(a: Point3, p: Point3)
    requires InLattice(a) && InLattice(p) && FaceCount(p) == 1
    ensures PlaceOf(a) == PlaceOf(p) <==> a == p
  {
    SurfaceBijection(p, Front, Point2(0, 0));
    SurfaceBijection(a, Front, Point2(0, 0));
  }

  datatype Channel = Red | Green | Blue

  function Level(c: Color, ch: Channel): byte {
    match ch
    case Red => c.r
    case Green => c.g
    case Blue => c.b
  }

  /** What a write adds to a channel of the cell at `p`. */
  function Share(p: Point3, ch: Channel, w: WriteOp): nat {
    if Clamp(w.point) == p then Level(w.col, ch) else 0
  }

  function ChannelSum(p: Point3, ch: Channel, ws: seq<WriteOp>): nat {
    if ws == [] then 0 else ChannelSum(p, ch, ws[..|ws| - 1]) + Share(p, ch, ws[|ws| - 1])
  }

  /** Additive writes to a black cell: each channel is the sum of all of them, stopped at 255. */
  lemma {:induction false} AdditiveLight(p: Point3, ch: Channel, ws: seq<WriteOp>)
    requires forall w | w in ws :: w.add
    ensures Level(CellAfter(Color(0, 0, 0), p, ws), ch) ==
            if ChannelSum(p, ch, ws) < 255 then ChannelSum(p, ch, ws) else 255
  {
    if ws != [] {
      AdditiveLight(p, ch, ws[..|ws| - 1]);
      assert ws[|ws| - 1] in ws;
    }
  }

  function Without(ws: seq<WriteOp>, i: nat): seq<WriteOp>
    requires i < |ws|
  {
    ws[..i] + ws[i + 1..]
  }

  lemma {:induction false} SumWithout(p: Point3, ch: Channel, ws: seq<WriteOp>, i: nat)
    requires i < |ws|
    ensures ChannelSum(p, ch, ws) == ChannelSum(p, ch, Without(ws, i)) + Share(p, ch, ws[i])
  {
    var front, rest := ws[..|ws| - 1], ws[..i] + ws[i + 1..];
    if i == |ws| - 1 {
      assert rest == front;
    } else {
      SumWithout(p, ch, front, i);
      assert rest[..|rest| - 1] == front[..i] + front[i + 1..];
    }
  }

  lemma WithoutBag(ws: seq<WriteOp>, i: nat)
    requires i < |ws|
    ensures multiset(Without(ws, i)) == multiset(ws) - multiset{ws[i]}
  {
    assert ws == ws[..i] + [ws[i]] + ws[i + 1..];
  }

  lemma Partner(ws: seq<WriteOp>, vs: seq<WriteOp>) returns (i: nat)
    requires multiset(ws) == multiset(vs) && ws != []
    ensures i < |vs| && vs[i] == ws[0]
    ensures multiset(Without(ws, 0)) == multiset(Without(vs, i))
  {
    assert ws[0] in multiset(vs);
    i :| 0 <= i < |vs| && vs[i] == ws[0];
    WithoutBag(ws, 0);
    WithoutBag(vs, i);
  }

  lemma {:induction false} SumOfPermutation(p: Point3, ch: Channel, ws: seq<WriteOp>, vs: seq<WriteOp>)
    requires multiset(ws) == multiset(vs)
    ensures ChannelSum(p, ch, ws) == ChannelSum(p, ch, vs)
    decreases |ws|
  {
    if ws == [] {
      assert |vs| == |multiset(vs)| == 0;
    } else {
      var i := Partner(ws, vs);
      SumWithout(p, ch, ws, 0);
      SumWithout(p, ch, vs, i);
      hide ChannelSum, Share;
      SumOfPermutation(p, ch, Without(ws, 0), Without(vs, i));
    }
  }

  /** Light added to a cleared cube is the same whatever order the writes come in. */
  lemma LightIgnoresOrder(p: Point3, ws: seq<WriteOp>, vs: seq<WriteOp>)
    requires (forall w | w in ws :: w.add) && multiset(ws) == multiset(vs)
    ensures CellAfter(Color(0, 0, 0), p, ws) == CellAfter(Color(0, 0, 0), p, vs)
  {
    forall w | w in vs
      ensures w.add
    {
      assert w in multiset(vs);
    }
    var a, b := CellAfter(Color(0, 0, 0), p, ws), CellAfter(Color(0, 0, 0), p, vs);
    forall ch: Channel
      ensures Level(a, ch) == Level(b, ch)
    {
      AdditiveLight(p, ch, ws);
      AdditiveLight(p, ch, vs);
      SumOfPermutation(p, ch, ws, vs);
    }
    assert Level(a, Red) == Level(b, Red) && Level(a, Green) == Level(b, Green) && Level(a, Blue) == Level(b, Blue);
  }

  /** Light added to a cleared cube: at a point of one face each channel reads the sum of what was
      written there, stopped at 255. */
  lemma ClearedCubeLight(pic: Picture, ws: seq<WriteOp>, p: Point3, ch: Channel)
    requires InLattice(p) && FaceCount(p) == 1 && GetVoxel(pic, p) == Color(0, 0, 0)
    requires forall w | w in ws :: w.add
    ensures Level(GetVoxel(ApplyAll(pic, ws), p), ch) ==
            if ChannelSum(p, ch, ws) < 255 then ChannelSum(p, ch, ws) else 255
  {
    SurfaceMemory(pic, ws, p);
    AdditiveLight(p, ch, ws);
  }
}
