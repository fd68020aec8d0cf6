/**
  The RGB-matrix renderer: every panel is scattered onto the canvas by two counters running up or down.
 */
module RgbMatrixRenderer {
  import opened Screen
  import opened Cube
  import opened Rotation

  /** What a canvas holds: the colours last set at its coordinates, and how often each was set. */
  datatype Canvas = Canvas(cells: Point2 -> Color, sets: Point2 -> nat)

  class FrameCanvas {
    var cells: Point2 -> Color
    ghost var sets: Point2 -> nat

    ghost function State(): Canvas
      reads this
    {
      Canvas(cells, sets)
    }

    constructor ()
      ensures forall p :: cells(p) == BLACK && sets(p) == 0
    {
      cells, sets := _ => BLACK, _ => 0;
    }

    method SetPixel(x: int, y: int, col: Color)
      modifies this
      ensures IsSet(old(State()), State(), Point2(x, y), col)
    {
      var before := cells;
      ghost var times := sets;
      cells := p => if p == Point2(x, y) then col else before(p);
      sets := p => times(p) + (if p == Point2(x, y) then 1 else 0);
    }
  }

  /** One cell was set, once. */
  ghost predicate IsSet(was: Canvas, now: Canvas, at: Point2, col: Color) {
    forall p ::
      && now.cells(p) == (if p == at then col else was.cells(p))
      && now.sets(p) == was.sets(p) + (if p == at then 1 else 0)
  }

  /** What a panel leaves at a canvas point inside its own square, `local` to its corner: here 90 and 270
      degrees are exchanged against the other renderers. */
  function Shown(p: Panel, n: nat, local: Point2): Color
    requires |p.data| == n * n
  {
    var s := Source(Inverse(p.rotation), n, local);
    PixelOf(p.data, n, n, s.x, s.y)
  }

  function Local(p: Panel, n: nat, q: Point2): Point2 {
    Point2(q.x - n * p.offsetX, q.y - n * p.offsetY)
  }

  /** Whether a canvas point is in a panel's square. */
  predicate InSquare(p: Panel, n: nat, q: Point2) {
    Inside(n, n, Local(p, n, q).x, Local(p, n, q).y)
  }

  /** The canvas after a panel: its square shows its turned pixels, each cell set once, and everything else
      is as before and was not set. */
  ghost predicate Drawn(was: Canvas, now: Canvas, p: Panel, n: nat)
    requires |p.data| == n * n
  {
    forall q ::
      && now.cells(q) == (if InSquare(p, n, q) then Shown(p, n, Local(p, n, q)) else was.cells(q))
      && now.sets(q) == was.sets(q) + (if InSquare(p, n, q) then 1 else 0)
  }

  /** Whether a point of the square is set before the outer counter has done `i` values and the inner one
      `j` of the next. */
  predicate SetBefore(p: Panel, n: nat, q: Point2, i: nat, j: nat) {
    InSquare(p, n, q) && Before(Counters(p.rotation, n, Local(p, n, q)), i, j)
  }

  /** The part of the panel drawn by then. */
  ghost predicate Reached(was: Canvas, now: Canvas, p: Panel, n: nat, i: nat, j: nat)
    requires |p.data| == n * n
  {
    forall q ::
      && now.cells(q) == (if SetBefore(p, n, q, i, j) then Shown(p, n, Local(p, n, q)) else was.cells(q))
      && now.sets(q) == was.sets(q) + (if SetBefore(p, n, q, i, j) then 1 else 0)
  }

  /** The values of the two loop counters when a local point is set. */
  function Counters(rotation: Rotation, n: nat, l: Point2): Point2 {
    match rotation
    case Rot0 => l
    case Rot90 => Point2(n - 1 - l.x, l.y)
    case Rot180 => Point2(n - 1 - l.x, n - 1 - l.y)
    case Rot270 => Point2(l.x, n - 1 - l.y)
  }

  predicate Before(c: Point2, i: nat, j: nat) {
    c.x < i || (c.x == i && c.y < j)
  }

  /** The store index the loops read. */
  function ScatterIndex(rotation: Rotation, n: nat, i: nat, j: nat): int {
    match rotation
    case Rot0 => j + i * n
    case Rot180 => j + i * n
    case Rot90 => i + j * n
    case Rot270 => i + j * n
  }

  /** The cell set in one turn gets the pixel its panel should show there. */
  lemma ScatterIsShown(p: Panel, n: nat, i: nat, j: nat, l: Point2)
    requires |p.data| == n * n && i < n && j < n && Counters(p.rotation, n, l) == Point2(i, j)
    ensures 0 <= ScatterIndex(p.rotation, n, i, j) < n * n && Inside(n, n, l.x, l.y)
    ensures p.data[ScatterIndex(p.rotation, n, i, j)] == Shown(p, n, l)
  {
    IndexInRange(n, n, i, j);
    IndexInRange(n, n, j, i);
  }

  lemma NextCell(p: Panel, n: nat, i: nat, j: nat, at: Point2, q: Point2)
    requires i < n && j < n && Counters(p.rotation, n, Local(p, n, at)) == Point2(i, j)
    ensures SetBefore(p, n, q, i, j + 1) <==> q == at || SetBefore(p, n, q, i, j)
    ensures !SetBefore(p, n, at, i, j)
  {
    if Counters(p.rotation, n, Local(p, n, q)) == Point2(i, j) {
      assert Local(p, n, q) == Local(p, n, at);
    }
  }

  lemma OneMoreCell(was: Canvas, now: Canvas, next: Canvas, p: Panel, n: nat, i: nat, j: nat, x: int, y: int)
    requires |p.data| == n * n && i < n && j < n
    requires 0 <= ScatterIndex(p.rotation, n, i, j) < n * n
    requires Reached(was, now, p, n, i, j)
    requires Counters(p.rotation, n, Local(p, n, Point2(x, y))) == Point2(i, j)
    requires IsSet(now, next, Point2(x, y), p.data[ScatterIndex(p.rotation, n, i, j)])
    ensures Reached(was, next, p, n, i, j + 1)
  {
    var at := Point2(x, y);
    ScatterIsShown(p, n, i, j, Local(p, n, at));
    hide Shown, SetBefore, Counters;
    forall q
      ensures next.cells(q) == if SetBefore(p, n, q, i, j + 1) then Shown(p, n, Local(p, n, q)) else was.cells(q)
      ensures next.sets(q) == was.sets(q) + (if SetBefore(p, n, q, i, j + 1) then 1 else 0)
    {
      NextCell(p, n, i, j, at, q);
      assert now.sets(q) == was.sets(q) + (if SetBefore(p, n, q, i, j) then 1 else 0);
    }
  }

  lemma NextColumn(was: Canvas, now: Canvas, p: Panel, n: nat, i: nat)
    requires |p.data| == n * n && i < n && Reached(was, now, p, n, i, n)
    ensures Reached(was, now, p, n, i + 1, 0)
  {
    forall q
      ensures SetBefore(p, n, q, i + 1, 0) == SetBefore(p, n, q, i, n)
    {
    }
    hide Shown, SetBefore;
  }

  lemma AllReached(was: Canvas, now: Canvas, p: Panel, n: nat)
    requires |p.data| == n * n
    ensures Reached(was, was, p, n, 0, 0)
    ensures Reached(was, now, p, n, n, 0) ==> Drawn(was, now, p, n)
  {
    forall q
      ensures !SetBefore(p, n, q, 0, 0) && SetBefore(p, n, q, n, 0) == InSquare(p, n, q)
    {
    }
    hide Shown, SetBefore;
  }

  lemma CellIndex(p: Panel, n: nat, i: nat, j: nat, x: int, y: int)
    requires |p.data| == n * n && i < n && j < n
    requires Counters(p.rotation, n, Local(p, n, Point2(x, y))) == Point2(i, j)
    ensures 0 <= ScatterIndex(p.rotation, n, i, j) < |p.data|
  {
    ScatterIsShown(p, n, i, j, Local(p, n, Point2(x, y)));
  }

  method DrawPanel(canvas: FrameCanvas, p: Panel, n: nat)
    requires |p.data| == n * n
    modifies canvas
    ensures Drawn(old(canvas.State()), canvas.State(), p, n)
  {
    hide Reached, Drawn, IsSet;
    ghost var was := canvas.State();
    AllReached(was, was, p, n);
    match p.rotation {
      case Rot0 =>
        var i, x := 0, n * p.offsetX;
        while i < n
          invariant 0 <= i <= n && x == n * p.offsetX + i
          invariant Reached(was, canvas.State(), p, n, i, 0)
        {
          var j, y := 0, n * p.offsetY;
          while j < n
            invariant 0 <= j <= n && y == n * p.offsetY + j
            invariant Reached(was, canvas.State(), p, n, i, j)
          {
            ghost var now := canvas.State();
            CellIndex(p, n, i, j, x, y);
            canvas.SetPixel(x, y, p.data[j + i * n]);
            OneMoreCell(was, now, canvas.State(), p, n, i, j, x, y);
            j, y := j + 1, y + 1;
          }
          NextColumn(was, canvas.State(), p, n, i);
          i, x := i + 1, x + 1;
        }
      case Rot90 =>
        var i, x := 0, n * p.offsetX + n - 1;
        while i < n
          invariant 0 <= i <= n && x == n * p.offsetX + n - 1 - i
          invariant Reached(was, canvas.State(), p, n, i, 0)
        {
          var j, y := 0, n * p.offsetY;
          while j < n
            invariant 0 <= j <= n && y == n * p.offsetY + j
            invariant Reached(was, canvas.State(), p, n, i, j)
          {
            ghost var now := canvas.State();
            CellIndex(p, n, i, j, x, y);
            canvas.SetPixel(x, y, p.data[i + j * n]);
            OneMoreCell(was, now, canvas.State(), p, n, i, j, x, y);
            j, y := j + 1, y + 1;
          }
          NextColumn(was, canvas.State(), p, n, i);
          i, x := i + 1, x - 1;
        }
      case Rot180 =>
        var i, x := 0, n * p.offsetX + n - 1;
        while i < n
          invariant 0 <= i <= n && x == n * p.offsetX + n - 1 - i
          invariant Reached(was, canvas.State(), p, n, i, 0)
        {
          var j, y := 0, n * p.offsetY + n - 1;
          while j < n
            invariant 0 <= j <= n && y == n * p.offsetY + n - 1 - j
            invariant Reached(was, canvas.State(), p, n, i, j)
          {
            ghost var now := canvas.State();
            CellIndex(p, n, i, j, x, y);
            canvas.SetPixel(x, y, p.data[j + i * n]);
            OneMoreCell(was, now, canvas.State(), p, n, i, j, x, y);
            j, y := j + 1, y - 1;
          }
          NextColumn(was, canvas.State(), p, n, i);
          i, x := i + 1, x - 1;
        }
      case Rot270 =>
        var i, x := 0, n * p.offsetX;
        while i < n
          invariant 0 <= i <= n && x == n * p.offsetX + i
          invariant Reached(was, canvas.State(), p, n, i, 0)
        {
          var j, y := 0, n * p.offsetY + n - 1;
          while j < n
            invariant 0 <= j <= n && y == n * p.offsetY + n - 1 - j
            invariant Reached(was, canvas.State(), p, n, i, j)
          {
            ghost var now := canvas.State();
            CellIndex(p, n, i, j, x, y);
            canvas.SetPixel(x, y, p.data[i + j * n]);
            OneMoreCell(was, now, canvas.State(), p, n, i, j, x, y);
            j, y := j + 1, y - 1;
          }
          NextColumn(was, canvas.State(), p, n, i);
          i, x := i + 1, x + 1;
        }
    }
    AllReached(was, canvas.State(), p, n);
  }

  /** The canvas colour after all panels: that of the last panel whose square contains the point. */
  function Final(was: Point2 -> Color, screens: seq<Panel>, n: nat, q: Point2): Color
    requires forall p | p in screens :: |p.data| == n * n
  {
    if screens == [] then was(q)
    else
      var p := screens[|screens| - 1];
      if InSquare(p, n, q) then Shown(p, n, Local(p, n, q)) else Final(was, screens[..|screens| - 1], n, q)
  }

  method Render(canvas: FrameCanvas, screens: seq<Panel>, n: nat)
    requires forall p | p in screens :: |p.data| == n * n
    modifies canvas
    ensures forall q :: canvas.cells(q) == Final(old(canvas.cells), screens, n, q)
  {
    hide Shown, InSquare;
    ghost var was := canvas.cells;
    assert screens[..0] == [];
    for s := 0 to |screens|
      invariant forall q :: canvas.cells(q) == Final(was, screens[..s], n, q)
    {
      DrawPanel(canvas, screens[s], n);
      assert screens[..s + 1][..s] == screens[..s];
    }
    assert screens[..|screens|] == screens;
  }

  /** What a panel leaves on the canvas, in canvas coordinates: its square of `n` by `n` cells at `n` times its
      offsets shows, by the direct index of the inverse turn, its own pixels, each set once. */
  lemma PanelOnCanvas(was: Canvas, now: Canvas, p: Panel, n: nat, q: Point2)
    requires |p.data| == n * n && Drawn(was, now, p, n)
    ensures var x, y := q.x - n * p.offsetX, q.y - n * p.offsetY;
            if 0 <= x < n && 0 <= y < n then
              && 0 <= DirectIndex(Inverse(p.rotation), n, x, y) < n * n
              && now.cells(q) == p.data[DirectIndex(Inverse(p.rotation), n, x, y)] && now.sets(q) == was.sets(q) + 1
            else now.cells(q) == was.cells(q) && now.sets(q) == was.sets(q)
  {
    var l := Local(p, n, q);
    if Inside(n, n, l.x, l.y) {
      RgbAgainstFpga(p, n, l);
    }
    hide Shown, DirectIndex;
  }

  // ----- Agreement of the renderers -----

  /** The RGB matrix shows at every cell what the FPGA renderers read for the inverse rotation, so the
      two agree on a cell exactly when the turn is 0 or 180 degrees or the cell is the panel's centre. */
  lemma RgbAgainstFpga(p: Panel, n: nat, l: Point2)
    requires |p.data| == n * n && Inside(n, n, l.x, l.y)
    ensures 0 <= DirectIndex(Inverse(p.rotation), n, l.x, l.y) < n * n
    ensures Shown(p, n, l) == p.data[DirectIndex(Inverse(p.rotation), n, l.x, l.y)]
    ensures Source(Inverse(p.rotation), n, l) == Source(p.rotation, n, l) <==>
            p.rotation == Rot0 || p.rotation == Rot180 || (2 * l.x == n - 1 && 2 * l.y == n - 1)
  {
    DirectIndexIsSource(Inverse(p.rotation), n, l.x, l.y);
  }
}
