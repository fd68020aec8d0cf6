/** Colours with saturating sums, and a screen's pixel store. */
module Screen {
  import opened Bytes

  datatype Color = Color(r: byte, g: byte, b: byte) {
    /** `operator+`: each channel stops at 255. */
    function Plus(c: Color): Color {
      Color(Saturate(r + c.r), Saturate(g + c.g), Saturate(b + c.b))
    }
  }

  const BLACK := Color(0, 0, 0)

  function Saturate(sum: nat): byte {
    if sum < 255 then sum else 255
  }

  function ArrayIndex(height: int, x: int, y: int): int {
    y + x * height
  }

  predicate Inside(width: int, height: int, x: int, y: int) {
    x >= 0 && y >= 0 && x < width && y < height
  }

  lemma IndexInRange(width: nat, height: nat, x: int, y: int)
    requires Inside(width, height, x, y)
    ensures 0 <= ArrayIndex(height, x, y) < width * height
  {
    assert x * height <= (width - 1) * height;
  }

  lemma RowsApart(height: nat, x: int, u: int)
    requires x < u
    ensures x * height + height <= u * height
  {
    assert (x + 1) * height <= u * height;
  }

  /** Different pixels are kept in different places. */
  lemma IndexInjective(height: nat, x: int, y: int, u: int, v: int)
    requires 0 <= y < height && 0 <= v < height
    requires ArrayIndex(height, x, y) == ArrayIndex(height, u, v)
    ensures x == u && y == v
  {
    if u < x {
      RowsApart(height, u, x);
    } else if x < u {
      RowsApart(height, x, u);
    }
  }

  /** The value `getPixel` reads from a store: black outside. */
  function PixelOf(data: seq<Color>, width: nat, height: nat, x: int, y: int): Color
    requires |data| == width * height
  {
    if Inside(width, height, x, y) then
      IndexInRange(width, height, x, y);
      data[ArrayIndex(height, x, y)]
    else
      BLACK
  }

  /** Every place of the store is that of a pixel on the screen. */
  lemma PixelAt(width: nat, height: nat, i: nat)
    requires i < width * height
    ensures Inside(width, height, i / height, i % height) && ArrayIndex(height, i / height, i % height) == i
  {
    var x := i / height;
    assert i == x * height + i % height;
    if width <= x {
      RowsApart(height, width, x + 1);
    }
  }

  /** A frame is what `getPixel` reads of it: no place of the store is out of sight, so two frames that
      look alike at every coordinate pair are the same data. */
  lemma FrameIsItsPixels(a: seq<Color>, b: seq<Color>, width: nat, height: nat)
    requires |a| == |b| == width * height
    ensures a == b <==> forall x, y :: PixelOf(a, width, height, x, y) == PixelOf(b, width, height, x, y)
  {
    if forall x, y :: PixelOf(a, width, height, x, y) == PixelOf(b, width, height, x, y) {
      forall i | 0 <= i < |a|
        ensures a[i] == b[i]
      {
        PixelAt(width, height, i);
        assert PixelOf(a, width, height, i / height, i % height) == PixelOf(b, width, height, i / height, i % height);
      }
    }
  }

  /** The store after one `setPixel`. */
  function Write(data: seq<Color>, width: nat, height: nat, x: int, y: int, col: Color, add: bool): (r: seq<Color>)
    requires |data| == width * height
    ensures |r| == |data|
  {
    if Inside(width, height, x, y) then
      IndexInRange(width, height, x, y);
      var i := ArrayIndex(height, x, y);
      data[i := if add then data[i].Plus(col) else col]
    else
      data
  }

  lemma ReadBack(data: seq<Color>, width: nat, height: nat, x: int, y: int, col: Color, add: bool, u: int, v: int)
    requires |data| == width * height
    ensures PixelOf(Write(data, width, height, x, y, col, add), width, height, u, v) ==
            if (u, v) == (x, y) && Inside(width, height, u, v)
            then (if add then PixelOf(data, width, height, x, y).Plus(col) else col)
            else PixelOf(data, width, height, u, v)
  {
    if Inside(width, height, x, y) && Inside(width, height, u, v) {
      IndexInRange(width, height, x, y);
      IndexInRange(width, height, u, v);
      if ArrayIndex(height, x, y) == ArrayIndex(height, u, v) {
        IndexInjective(height, x, y, u, v);
      }
    }
  }

  lemma SumStops(a: Color, b: Color)
    ensures a.Plus(b) == Color(if a.r + b.r < 255 then a.r + b.r else 255,
                               if a.g + b.g < 255 then a.g + b.g else 255,
                               if a.b + b.b < 255 then a.b + b.b else 255)
  {
  }

  /** A write is seen at its own pixel, if that is on the screen, and nowhere else; an added colour leaves
      each channel at the sum or at 255. Beside the screen everything reads black. */
  lemma ReadAfterWrite(data: seq<Color>, width: nat, height: nat, x: int, y: int, col: Color, add: bool, u: int, v: int)
    requires |data| == width * height
    ensures var was, now := PixelOf(data, width, height, u, v),
                            PixelOf(Write(data, width, height, x, y, col, add), width, height, u, v);
            if !Inside(width, height, u, v) then now == Color(0, 0, 0)
            else if (u, v) != (x, y) then now == was
            else if !add then now == col
            else
              && now.r == (if was.r + col.r < 255 then was.r + col.r else 255)
              && now.g == (if was.g + col.g < 255 then was.g + col.g else 255)
              && now.b == (if was.b + col.b < 255 then was.b + col.b else 255)
  {
    ReadBack(data, width, height, x, y, col, add, u, v);
    SumStops(PixelOf(data, width, height, u, v), col);
    hide Write, ArrayIndex;
  }

  class Screen {
    const width: nat
    const height: nat
    const screenId: int
    var screenData: seq<Color>

    predicate Valid()
      reads this
    {
      |screenData| == width * height
    }

    constructor (setWidth: nat, setHeight: nat, setScreenId: int)
      ensures width == setWidth && height == setHeight && screenId == setScreenId && Valid()
      ensures forall i | 0 <= i < |screenData| :: screenData[i] == Color(0, 0, 0)
    {
      width, height, screenId := setWidth, setHeight, setScreenId;
      screenData := seq(setWidth * setHeight, _ => BLACK);
    }

    method SetPixel(x: int, y: int, col: Color, add: bool)
      requires Valid()
      modifies this
      ensures Valid() && screenData == Write(old(screenData), width, height, x, y, col, add)
    {
      if x >= 0 && y >= 0 && x < width && y < height {
        IndexInRange(width, height, x, y);
        var i := ArrayIndex(height, x, y);
        screenData := screenData[i := if add then screenData[i].Plus(col) else col];
      }
    }

    function GetPixel(x: int, y: int): (c: Color)
      requires Valid()
      reads this
      ensures c == PixelOf(screenData, width, height, x, y)
      ensures !Inside(width, height, x, y) ==> c == Color(0, 0, 0)
    {
      if x >= 0 && y >= 0 && x < width && y < height then
        IndexInRange(width, height, x, y);
        screenData[ArrayIndex(height, x, y)]
      else
        BLACK
    }

    method Fill(col: Color)
      requires Valid()
      modifies this
      ensures Valid() && forall x, y | Inside(width, height, x, y) :: GetPixel(x, y) == col
    {
      screenData := seq(|screenData|, _ => col);
      forall x, y | Inside(width, height, x, y)
        ensures GetPixel(x, y) == col
      {
        IndexInRange(width, height, x, y);
      }
    }

    method Clear()
      requires Valid()
      modifies this
      ensures Valid() && forall x, y | Inside(width, height, x, y) :: GetPixel(x, y) == Color(0, 0, 0)
    {
      Fill(BLACK);
    }

    /** Takes over a whole frame of the screen's own size. */
    method SetScreenData(data: seq<Color>)
      requires |data| >= width * height
      modifies this
      ensures Valid() && screenData == data[..width * height]
      ensures forall x, y | Inside(width, height, x, y) ::
                0 <= ArrayIndex(height, x, y) < |data| && GetPixel(x, y) == data[ArrayIndex(height, x, y)]
    {
      screenData := data[..width * height];
      forall x, y | Inside(width, height, x, y)
        ensures 0 <= ArrayIndex(height, x, y) < |data| && GetPixel(x, y) == data[ArrayIndex(height, x, y)]
      {
        IndexInRange(width, height, x, y);
      }
    }
  }

  // ----- From the application's screens to the renderer's -----

  /** One screen of a frame message. */
  datatype ScreenData = ScreenData(screenId: int, frameData: seq<Color>)

  /** The store of screen `i` after a frame: the last data for it, or what was there. */
  function Latest(was: seq<Color>, frame: seq<ScreenData>, i: int, size: nat): seq<Color>
    requires forall f | f in frame && f.screenId == i :: |f.frameData| >= size
  {
    if frame == [] then was
    else
      var last := frame[|frame| - 1];
      if last.screenId == i then last.frameData[..size] else Latest(was, frame[..|frame| - 1], i, size)
  }

  /** A renderer takes over a frame: data for screens it does not have is skipped. */
  method SetAllScreenData(screens: seq<Screen>, frame: seq<ScreenData>)
    requires forall i, j | 0 <= i < j < |screens| :: screens[i] != screens[j]
    requires forall s | s in screens :: s.Valid()
    requires forall i, f | 0 <= i < |screens| && f in frame && f.screenId == i ::
               |f.frameData| >= screens[i].width * screens[i].height
    modifies screens
    ensures forall i | 0 <= i < |screens| ::
              && screens[i].Valid()
              && screens[i].screenData == Latest(old(screens[i].screenData), frame, i, screens[i].width * screens[i].height)
  {
    assert frame[..0] == [];
    for k := 0 to |frame|
      invariant forall i | 0 <= i < |screens| ::
                  && screens[i].Valid()
                  && screens[i].screenData == Latest(old(screens[i].screenData), frame[..k], i, screens[i].width * screens[i].height)
    {
      assert frame[..k + 1][..k] == frame[..k];
      var id := frame[k].screenId;
      if 0 <= id < |screens| {
        screens[id].SetScreenData(frame[k].frameData);
      }
    }
    assert frame[..|frame|] == frame;
  }

  /** What an application sends: its screens in order, under their own ids. */
  function FrameOf(stores: seq<seq<Color>>): seq<ScreenData> {
    seq(|stores|, i requires 0 <= i < |stores| => ScreenData(i, stores[i]))
  }

  /** Whatever was there, each of the renderer's screens then shows what the application drew on its own. */
  lemma {:induction false} FrameArrives(was: seq<Color>, stores: seq<seq<Color>>, i: nat, size: nat)
    requires i < |stores| && |stores[i]| == size
    ensures (forall f | f in FrameOf(stores) && f.screenId == i :: |f.frameData| >= size)
    ensures Latest(was, FrameOf(stores), i, size) == stores[i]
    decreases |stores|
  {
    var frame, front := FrameOf(stores), stores[..|stores| - 1];
    assert frame[..|stores| - 1] == FrameOf(front);
    if i < |front| {
      FrameArrives(was, front, i, size);
    }
  }
}
