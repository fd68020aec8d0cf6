/**
  The SPI frame builder for two rows of 64x64 panels: line payloads built in one reused command
  buffer, and a transfer queue over a fixed back buffer.
 */
module SpiRenderer {
  import opened Bytes
  import opened Screen
  import opened Cube
  import opened Rotation

  const BUFFER_SIZE: nat := 65535
  const MAX_TRANSFERS: nat := 1024
  const LINE_COUNT: nat := 128
  const BYTES_PER_SCREEN: nat := 128

  // ----- Colours on the wire -----

  /** The 16-bit pixel word: five bits of each channel, red on top, a gap below green's place. */
  function Packed(c: Color): nat {
    c.r / 8 * 2048 + c.g / 8 * 64 + c.b / 8
  }

  /** The five top bits of each channel. */
  function TopBits(c: Color): (nat, nat, nat) {
    (c.r / 8, c.g / 8, c.b / 8)
  }

  function Unpacked(word: nat): (nat, nat, nat) {
    (word / 2048, word / 64 % 32, word % 64)
  }

  lemma UnpackPacked(c: Color)
    ensures Packed(c) < 65536 && Unpacked(Packed(c)) == TopBits(c)
    ensures Packed(c) / 2048 == c.r / 8 && Packed(c) / 64 % 32 == c.g / 8 && Packed(c) % 64 == c.b / 8
  {
    WordParts(c.r / 8, c.g / 8, c.b / 8);
  }

  /** The two bytes of a pixel word: the low one has green's two lower bits and blue, the high one red and
      green's three upper bits. */
  lemma WordBytes(c: Color)
    ensures Packed(c) % 256 == c.g / 8 % 4 * 64 + c.b / 8 && Packed(c) / 256 == c.r / 8 * 8 + c.g / 8 / 4
  {
    WordHalves(c.r / 8, c.g / 8, c.b / 8);
  }

  // ----- The transfer queue -----

  datatype Transfer = Transfer(offset: nat, length: nat)

  /** Where a queue of transfers ends. */
  function EndOf(transfers: seq<Transfer>): nat {
    if transfers == [] then 0 else transfers[|transfers| - 1].offset + transfers[|transfers| - 1].length
  }

  /** Transfers lie one behind the other, from the start of the buffer. */
  predicate Consecutive(transfers: seq<Transfer>) {
    transfers == [] ||
    (Consecutive(transfers[..|transfers| - 1]) && transfers[|transfers| - 1].offset == EndOf(transfers[..|transfers| - 1]))
  }

  /** The bytes of consecutive transfers. */
  function Segments(bytes: seq<byte>, transfers: seq<Transfer>): seq<seq<byte>>
    requires Consecutive(transfers) && EndOf(transfers) <= |bytes|
  {
    if transfers == [] then []
    else
      var last := transfers[|transfers| - 1];
      Segments(bytes, transfers[..|transfers| - 1]) + [bytes[last.offset..last.offset + last.length]]
  }

  lemma {:induction false} SegmentsAgree(a: seq<byte>, b: seq<byte>, transfers: seq<Transfer>)
    requires Consecutive(transfers) && EndOf(transfers) <= |a| && EndOf(transfers) <= |b|
    requires a[..EndOf(transfers)] == b[..EndOf(transfers)]
    ensures Segments(a, transfers) == Segments(b, transfers)
    ensures |Segments(a, transfers)| == |transfers|
  {
    if transfers != [] {
      var last, end, cut := transfers[|transfers| - 1], EndOf(transfers), EndOf(transfers[..|transfers| - 1]);
      assert a[..cut] == a[..end][..cut] == b[..end][..cut] == b[..cut];
      assert a[last.offset..end] == a[..end][last.offset..] == b[..end][last.offset..] == b[last.offset..end];
      SegmentsAgree(a, b, transfers[..|transfers| - 1]);
    }
  }

  lemma SegmentsMore(bytes: seq<byte>, more: seq<Transfer>)
    requires more != []
    requires var front, last := more[..|more| - 1], more[|more| - 1];
             Consecutive(front) && last.offset == EndOf(front) && last.offset + last.length <= |bytes|
    ensures var front, last := more[..|more| - 1], more[|more| - 1];
            && Consecutive(more) && EndOf(more) == last.offset + last.length
            && Segments(bytes, more) == Segments(bytes, front) + [bytes[last.offset..last.offset + last.length]]
  {
  }

  class SpiWriteQueue {
    const buffer: array<byte>
    var currentPos: nat
    var transfers: seq<Transfer>
    var size: nat

    ghost predicate Valid()
      reads this
    {
      && buffer.Length == BUFFER_SIZE && size <= MAX_TRANSFERS && |transfers| <= size
      && Consecutive(transfers) && currentPos == EndOf(transfers) <= BUFFER_SIZE
    }

    /** The bytes of the queued transfers. */
    ghost function Queued(): seq<seq<byte>>
      requires Valid()
      reads this, buffer
    {
      Segments(buffer[..], transfers)
    }

    constructor ()
      ensures Valid() && Queued() == [] && size == 0 && fresh(buffer)
    {
      buffer := new byte[BUFFER_SIZE];
      currentPos, transfers, size := 0, [], 0;
    }

    method Init(count: nat)
      requires Valid() && count <= MAX_TRANSFERS
      modifies this
      ensures Valid() && Queued() == [] && size == count && currentPos == |transfers| == 0
    {
      currentPos := 0;
      size := count;
      transfers := [];
    }

    /** Copies the data behind the last transfer; the program does not check that it fits. */
    method Add(data: array<byte>, length: nat) returns (ok: bool)
      requires Valid() && data != buffer && length <= data.Length
      requires |transfers| < size ==> currentPos + length <= BUFFER_SIZE
      modifies this, buffer
      ensures Valid() && size == old(size) && ok == (old(|transfers|) < size)
      ensures |transfers| == old(|transfers|) + (if ok then 1 else 0)
      ensures Queued() == if ok then old(Queued()) + [data[..length]] else old(Queued())
      ensures currentPos == old(currentPos) + (if ok then length else 0)
    {
      ok := false;
      if |transfers| < size {
        ghost var was := buffer[..];
        CopyIn(buffer, currentPos, data, length);
        assert buffer[..][currentPos..currentPos + length] == data[..length];
        assert buffer[..][..currentPos] == was[..currentPos];
        SegmentsAgree(was, buffer[..], transfers);
        ghost var more := transfers + [Transfer(currentPos, length)];
        assert more[..|more| - 1] == transfers;
        SegmentsMore(buffer[..], more);
        hide Segments, Consecutive, EndOf;
        transfers := transfers + [Transfer(currentPos, length)];
        currentPos := currentPos + length;
        ok := true;
      }
    }
  }

  method CopyIn(target: array<byte>, at: nat, data: array<byte>, length: nat)
    requires data != target && length <= data.Length && at + length <= target.Length
    modifies target
    ensures target[..at] == old(target[..at]) && target[at..at + length] == data[..length]
  {
    forall i | 0 <= i < length {
      target[at + i] := data[i];
    }
  }

  // ----- One line -----

  /** The panels fill two rows of `half` slots, each slot once. */
  ghost predicate Covered(screens: seq<Panel>, half: nat) {
    && |screens| == 2 * half
    && (forall j | 0 <= j < |screens| :: |screens[j].data| == SIZE * SIZE && InSlots(screens[j], half))
    && (forall i, j | 0 <= i < j < |screens| :: (screens[i].offsetX, screens[i].offsetY) != (screens[j].offsetX, screens[j].offsetY))
    && (forall x, y | 0 <= x < half && 0 <= y < 2 :: Taken(screens, x, y))
  }

  ghost predicate Taken(screens: seq<Panel>, x: int, y: int) {
    exists j :: 0 <= j < |screens| && screens[j].offsetX == x && screens[j].offsetY == y
  }

  predicate InSlots(p: Panel, half: nat) {
    0 <= p.offsetX < half && 0 <= p.offsetY < 2
  }

  /** The test that selects a panel for line `y`. */
  predicate Selected(p: Panel, y: nat) {
    !(y <= 63 && p.offsetY != 0) && !(y > 63 && p.offsetY != 1)
  }

  /** The word of column `x` of a panel in line `y`. */
  function Word(p: Panel, x: nat, y: nat): (w: nat)
    requires |p.data| == SIZE * SIZE && x < SIZE
    ensures w < 65536
  {
    DirectIndexIsSource(p.rotation, SIZE, x, y % SIZE);
    UnpackPacked(p.data[DirectIndex(p.rotation, SIZE, x, y % SIZE)]);
    Packed(p.data[DirectIndex(p.rotation, SIZE, x, y % SIZE)])
  }

  /** The first `n` columns of a panel are in their places in a line, low byte first. */
  ghost predicate Shown(line: seq<byte>, p: Panel, y: nat, n: nat)
    requires |p.data| == SIZE * SIZE && n <= SIZE
  {
    0 <= p.offsetX && 1 + (p.offsetX + 1) * BYTES_PER_SCREEN <= |line| &&
    forall x: nat | x < n ::
      && line[1 + p.offsetX * BYTES_PER_SCREEN + x * 2] == Word(p, x, y) % 256
      && line[1 + p.offsetX * BYTES_PER_SCREEN + x * 2 + 1] == Word(p, x, y) / 256
  }

  method PixelWord(p: Panel, x: nat, y: nat) returns (word: nat)
    requires |p.data| == SIZE * SIZE && x < SIZE
    ensures word == Word(p, x, y)
  {
    var yPos := y % SIZE;
    DirectIndexIsSource(p.rotation, SIZE, x, yPos);
    var tmpColor: Color;
    match p.rotation {
      case Rot0 => tmpColor := p.data[yPos + x * SIZE];
      case Rot90 => tmpColor := p.data[x + (SIZE - 1 - yPos) * SIZE];
      case Rot180 => tmpColor := p.data[SIZE - 1 - yPos + (SIZE - 1 - x) * SIZE];
      case Rot270 => tmpColor := p.data[SIZE - 1 - x + yPos * SIZE];
    }
    word := tmpColor.r / 8 * 2048 + tmpColor.g / 8 * 64 + tmpColor.b / 8;
  }

  method WritePanel(cmd: array<byte>, p: Panel, y: nat)
    requires |p.data| == SIZE * SIZE && 0 <= p.offsetX
    requires 1 + (p.offsetX + 1) * BYTES_PER_SCREEN <= cmd.Length
    modifies cmd
    ensures Shown(cmd[..], p, y, SIZE)
    ensures forall k | 0 <= k < cmd.Length && !(0 <= k - 1 - p.offsetX * BYTES_PER_SCREEN < BYTES_PER_SCREEN) :: cmd[k] == old(cmd[k])
  {
    var at := 1 + p.offsetX * BYTES_PER_SCREEN;
    hide Word;
    for x := 0 to SIZE
      invariant Shown(cmd[..], p, y, x)
      invariant forall k | 0 <= k < cmd.Length && !(0 <= k - at < BYTES_PER_SCREEN) :: cmd[k] == old(cmd[k])
    {
      var word := PixelWord(p, x, y);
      cmd[at + x * 2] := word % 256;
      cmd[at + x * 2 + 1] := word / 256;
    }
  }

  /** The payload transfer of a line: the start byte, then every selected panel in its slot. */
  ghost predicate IsLine(line: seq<byte>, screens: seq<Panel>, half: nat, y: nat)
    requires Covered(screens, half)
  {
    && |line| == 1 + half * BYTES_PER_SCREEN && line[0] == 0x80
    && forall j | 0 <= j < |screens| && Selected(screens[j], y) :: Shown(line, screens[j], y, SIZE)
  }

  method BuildLine(cmd: array<byte>, screens: seq<Panel>, half: nat, y: nat)
    requires Covered(screens, half) && y < LINE_COUNT
    requires cmd.Length == half * BYTES_PER_SCREEN + 128
    modifies cmd
    ensures IsLine(cmd[..1 + half * BYTES_PER_SCREEN], screens, half, y)
  {
    cmd[0] := 0x80;
    for s := 0 to |screens|
      invariant cmd[0] == 0x80
      invariant forall j | 0 <= j < s && Selected(screens[j], y) :: Shown(cmd[..], screens[j], y, SIZE)
    {
      if !(y <= 63 && screens[s].offsetY != 0) && !(y > 63 && screens[s].offsetY != 1) {
        ghost var before := cmd[..];
        WritePanel(cmd, screens[s], y);
        forall j | 0 <= j < s && Selected(screens[j], y)
          ensures Shown(cmd[..], screens[j], y, SIZE)
        {
          assert screens[j].offsetX != screens[s].offsetX;
          ShownElsewhere(before, cmd[..], screens[j], y, screens[s].offsetX);
        }
      }
    }
    ghost var line := cmd[..1 + half * BYTES_PER_SCREEN];
    forall j | 0 <= j < |screens| && Selected(screens[j], y)
      ensures Shown(line, screens[j], y, SIZE)
    {
      assert InSlots(screens[j], half);
      ShownInPrefix(cmd[..], line, screens[j], y);
    }
  }

  /** Writing another slot leaves a panel's columns alone. */
  lemma ShownElsewhere(a: seq<byte>, b: seq<byte>, p: Panel, y: nat, slot: int)
    requires |p.data| == SIZE * SIZE && |a| == |b| && slot != p.offsetX && Shown(a, p, y, SIZE)
    requires forall k | 0 <= k < |a| && !(0 <= k - 1 - slot * BYTES_PER_SCREEN < BYTES_PER_SCREEN) :: a[k] == b[k]
    ensures Shown(b, p, y, SIZE)
  {
    hide Word;
  }

  lemma ShownInPrefix(a: seq<byte>, b: seq<byte>, p: Panel, y: nat)
    requires |p.data| == SIZE * SIZE && b <= a && Shown(a, p, y, SIZE)
    requires 1 + (p.offsetX + 1) * BYTES_PER_SCREEN <= |b|
    ensures Shown(b, p, y, SIZE)
  {
    hide Word;
  }

  // ----- The frame -----

  /** The transfers of a frame: for every line its payload and its flush command, then the swap. */
  ghost predicate IsFrame(transfers: seq<seq<byte>>, screens: seq<Panel>, half: nat)
    requires Covered(screens, half)
  {
    && |transfers| == 2 * LINE_COUNT + 1 && transfers[2 * LINE_COUNT] == [0x04, 0x00]
    && forall y: nat | y < LINE_COUNT ::
         transfers[2 * y + 1] == [0x03, y] && IsLine(transfers[2 * y], screens, half, y)
  }

  /** The first `lines` lines are queued. */
  ghost predicate HasLines(transfers: seq<seq<byte>>, screens: seq<Panel>, half: nat, lines: nat)
    requires Covered(screens, half)
  {
    |transfers| == 2 * lines &&
    forall y: nat | y < lines :: transfers[2 * y + 1] == [0x03, y] && IsLine(transfers[2 * y], screens, half, y)
  }

  lemma OneMoreLine(was: seq<seq<byte>>, now: seq<seq<byte>>, screens: seq<Panel>, half: nat, y: nat, line: seq<byte>, flush: seq<byte>)
    requires Covered(screens, half) && y < 256 && HasLines(was, screens, half, y)
    requires now == was + [line] + [flush] && IsLine(line, screens, half, y) && flush == [0x03, y]
    ensures HasLines(now, screens, half, y + 1)
  {
    hide Covered, IsLine;
    forall k: nat | k < y + 1
      ensures now[2 * k + 1] == [0x03, k] && IsLine(now[2 * k], screens, half, k)
    {
      if k < y {
        assert now[2 * k] == was[2 * k] && now[2 * k + 1] == was[2 * k + 1];
      }
    }
  }

  lemma SwapEndsFrame(was: seq<seq<byte>>, now: seq<seq<byte>>, screens: seq<Panel>, half: nat, swap: seq<byte>)
    requires Covered(screens, half) && HasLines(was, screens, half, LINE_COUNT)
    requires now == was + [swap] && swap == [0x04, 0x00]
    ensures IsFrame(now, screens, half)
  {
    hide Covered, IsLine;
  }

  /** The back buffer holds a frame exactly if there are at most three slots in a row: nothing in the program
      looks whether it does. */
  lemma FrameFitsBuffer(half: nat)
    ensures (half * BYTES_PER_SCREEN + 3) * LINE_COUNT + 2 <= BUFFER_SIZE <==> half <= 3
  {
  }

  method Render(queue: SpiWriteQueue, cmd: array<byte>, screens: seq<Panel>, half: nat)
    requires queue.Valid() && cmd != queue.buffer
    requires Covered(screens, half) && half <= 3
    requires cmd.Length == half * BYTES_PER_SCREEN + 128
    modifies queue, queue.buffer, cmd
    ensures queue.Valid() && IsFrame(queue.Queued(), screens, half)
    ensures |queue.transfers| == queue.size == 2 * LINE_COUNT + 1
    ensures queue.currentPos == (half * BYTES_PER_SCREEN + 3) * LINE_COUNT + 2
  {
    hide SpiWriteQueue.Queued, SpiWriteQueue.Valid, Covered, IsLine, HasLines, IsFrame;
    var bytesPerLine := half * BYTES_PER_SCREEN;
    queue.Init(LINE_COUNT * 2 + 1);
    NoLines(screens, half);
    for y := 0 to LINE_COUNT
      invariant queue.Valid() && queue.size == 2 * LINE_COUNT + 1
      invariant |queue.transfers| == 2 * y && queue.currentPos == (bytesPerLine + 3) * y
      invariant HasLines(queue.Queued(), screens, half, y)
    {
      ghost var was := queue.Queued();
      BuildLine(cmd, screens, half, y);
      ghost var line := cmd[..1 + bytesPerLine];
      var ok := queue.Add(cmd, 1 + bytesPerLine);
      cmd[0] := 0x03;
      cmd[1] := y;
      ok := queue.Add(cmd, 2);
      OneMoreLine(was, queue.Queued(), screens, half, y, line, cmd[..2]);
    }
    ghost var was := queue.Queued();
    cmd[0] := 0x04;
    cmd[1] := 0x00;
    var ok := queue.Add(cmd, 2);
    SwapEndsFrame(was, queue.Queued(), screens, half, cmd[..2]);
  }

  lemma NoLines(screens: seq<Panel>, half: nat)
    requires Covered(screens, half)
    ensures HasLines([], screens, half, 0)
  {
  }

  /** Where column `x` of line `y` of a panel is found in the transfers. */
  function WordAt(transfers: seq<seq<byte>>, p: Panel, x: nat, y: nat): nat
    requires y < SIZE && x < SIZE && 0 <= p.offsetX && 0 <= p.offsetY < 2
    requires |transfers| > 2 * (p.offsetY * SIZE + y)
    requires |transfers[2 * (p.offsetY * SIZE + y)]| >= 1 + (p.offsetX + 1) * BYTES_PER_SCREEN
  {
    var line, at := transfers[2 * (p.offsetY * SIZE + y)], 1 + p.offsetX * BYTES_PER_SCREEN + x * 2;
    line[at] as int + 256 * line[at + 1] as int
  }

  /** The place a pixel of a panel is sent to: its column and its row among the panel's own. */
  function PlaceOfPixel(p: Panel, u: nat, v: nat): Point2 {
    Source(Inverse(p.rotation), SIZE, Point2(u, v))
  }

  lemma PlaceFacts(p: Panel, u: nat, v: nat)
    requires u < SIZE && v < SIZE
    ensures var at := PlaceOfPixel(p, u, v);
            Inside(SIZE, SIZE, at.x, at.y) && Source(p.rotation, SIZE, at) == Point2(u, v)
  {
    RotationsCompose(p.rotation, p.rotation, SIZE, Point2(u, v));
    RotationsCompose(Inverse(p.rotation), p.rotation, SIZE, Point2(u, v));
    hide Source, Inverse;
  }

  lemma WordOfPixel(p: Panel, u: nat, v: nat)
    requires |p.data| == SIZE * SIZE && u < SIZE && v < SIZE && 0 <= p.offsetY
    ensures var at := PlaceOfPixel(p, u, v);
            && Inside(SIZE, SIZE, at.x, at.y)
            && Word(p, at.x, p.offsetY * SIZE + at.y) == Packed(PixelOf(p.data, SIZE, SIZE, u, v))
  {
    var at := PlaceOfPixel(p, u, v);
    hide Packed, Source, DirectIndex, Inverse, PlaceOfPixel;
    PlaceFacts(p, u, v);
    DirectIndexIsSource(p.rotation, SIZE, at.x, at.y);
    RowInPanel(p.offsetY, at.y);
  }

  lemma RowInPanel(offset: int, y: int)
    requires 0 <= y < SIZE
    ensures (offset * SIZE + y) % SIZE == y
  {
  }

  lemma WordShown(line: seq<byte>, p: Panel, y: nat, x: nat)
    requires |p.data| == SIZE * SIZE && x < SIZE && Shown(line, p, y, SIZE)
    ensures var at := 1 + p.offsetX * BYTES_PER_SCREEN + x * 2;
            line[at] == Word(p, x, y) % 256 && line[at + 1] == Word(p, x, y) / 256
  {
    hide Word;
  }

  /** Reading the queue back: for every panel and every one of its pixels, the place its rotation gives
      that pixel holds the pixel's top five bits of each channel, in a line flushed to its own row. */
  lemma ParseBack(transfers: seq<seq<byte>>, screens: seq<Panel>, half: nat, j: nat, u: nat, v: nat)
    requires Covered(screens, half) && IsFrame(transfers, screens, half)
    requires j < |screens| && u < SIZE && v < SIZE
    ensures var p := screens[j];
            var at := PlaceOfPixel(p, u, v);
            && Inside(SIZE, SIZE, at.x, at.y) && InSlots(p, half) && |p.data| == SIZE * SIZE
            && transfers[2 * (p.offsetY * SIZE + at.y) + 1] == [0x03, p.offsetY * SIZE + at.y]
            && |transfers[2 * (p.offsetY * SIZE + at.y)]| >= 1 + (p.offsetX + 1) * BYTES_PER_SCREEN
            && Unpacked(WordAt(transfers, p, at.x, at.y)) == TopBits(PixelOf(p.data, SIZE, SIZE, u, v))
            && var line, i, c := transfers[2 * (64 * p.offsetY + at.y)], 1 + 128 * p.offsetX + 2 * at.x, PixelOf(p.data, 64, 64, u, v);
               line[i] == c.g / 8 % 4 * 64 + c.b / 8 && line[i + 1] == c.r / 8 * 8 + c.g / 8 / 4
  {
    var p := screens[j];
    var at := PlaceOfPixel(p, u, v);
    assert InSlots(p, half) && |p.data| == SIZE * SIZE;
    WordOfPixel(p, u, v);
    var y: nat := p.offsetY * SIZE + at.y;
    hide Covered, IsFrame, Shown, Word, Packed, PlaceOfPixel, PixelOf;
    RowOf(transfers, screens, half, j, y);
    WordShown(transfers[2 * y], p, y, at.x);
    UnpackPacked(PixelOf(p.data, SIZE, SIZE, u, v));
    WordBytes(PixelOf(p.data, SIZE, SIZE, u, v));
    assert WordAt(transfers, p, at.x, at.y) == Word(p, at.x, y);
  }

  /** The line that a panel's row is in. */
  lemma RowOf(transfers: seq<seq<byte>>, screens: seq<Panel>, half: nat, j: nat, y: nat)
    requires Covered(screens, half) && IsFrame(transfers, screens, half) && j < |screens|
    requires screens[j].offsetY * SIZE <= y < (screens[j].offsetY + 1) * SIZE
    ensures y < LINE_COUNT && |transfers| > 2 * y + 1 && transfers[2 * y + 1] == [0x03, y]
    ensures |screens[j].data| == SIZE * SIZE && Shown(transfers[2 * y], screens[j], y, SIZE)
  {
    assert InSlots(screens[j], half) && Selected(screens[j], y);
    assert transfers[2 * y + 1] == [0x03, y] && IsLine(transfers[2 * y], screens, half, y);
    hide Shown;
  }

  /** Nothing else is in the queue: a frame's transfers are determined by the panels. */
  lemma LineIsUnique(a: seq<byte>, b: seq<byte>, screens: seq<Panel>, half: nat, y: nat)
    requires Covered(screens, half) && y < LINE_COUNT
    requires IsLine(a, screens, half, y) && IsLine(b, screens, half, y)
    ensures a == b
  {
    forall k | 0 <= k < |a|
      ensures a[k] == b[k]
    {
      if k > 0 {
        var slot, row := (k - 1) / BYTES_PER_SCREEN, y / SIZE;
        assert Taken(screens, slot, row);
        var j :| 0 <= j < |screens| && screens[j].offsetX == slot && screens[j].offsetY == row;
        assert Selected(screens[j], y) && Shown(a, screens[j], y, SIZE) && Shown(b, screens[j], y, SIZE);
        var x: nat := (k - 1) % BYTES_PER_SCREEN / 2;
        WordShown(a, screens[j], y, x);
        WordShown(b, screens[j], y, x);
      }
    }
  }

  lemma FrameIsUnique(a: seq<seq<byte>>, b: seq<seq<byte>>, screens: seq<Panel>, half: nat)
    requires Covered(screens, half) && IsFrame(a, screens, half) && IsFrame(b, screens, half)
    ensures a == b
  {
    forall k | 0 <= k < |a|
      ensures a[k] == b[k]
    {
      if k < 2 * LINE_COUNT {
        var y: nat := k / 2;
        assert a[2 * y + 1] == [0x03, y] && b[2 * y + 1] == [0x03, y];
        LineIsUnique(a[2 * y], b[2 * y], screens, half, y);
      }
    }
  }
}
