/**
  The FTDI line builder for one row of 64x64 panels: header, payload, line flush, trailer, all in one
  reused command buffer.
 */
module FtdiRenderer {
  import opened Bytes
  import opened Screen
  import opened Cube
  import opened Rotation

  const BYTES_PER_SCREEN: nat := 128
  const HEADER: nat := 7
  const TRAILER: nat := 14

  /** `r >> 3 << 11 | g >> 2 << 6 | b >> 3`: green has six bits here, and its top one falls on red's
      lowest, so that bit is set when either of them is. */
  function Packed(c: Color): nat {
    var red, green := c.r / 8, c.g / 4;
    red / 2 * 4096 + (if red % 2 == 1 || green >= 32 then 2048 else 0) + green % 32 * 64 + c.b / 8
  }

  /** Blue and the lower green bits can be read back; red can exactly when green's top bit is clear or
      red's lowest bit is set anyway, and else reads one too much. */
  lemma PackingIsLossy(c: Color)
    ensures Packed(c) < 65536
    ensures Packed(c) % 64 == c.b / 8 && Packed(c) / 64 % 32 == c.g / 4 % 32
    ensures Packed(c) / 2048 == c.r / 8 <==> c.g < 128 || c.r / 8 % 2 == 1
    ensures Packed(c) / 2048 == c.r / 8 || Packed(c) / 2048 == c.r / 8 + 1
  {
    var red, green, blue := c.r / 8, c.g / 4, c.b / 8;
    var high: nat := if red % 2 == 1 || green >= 32 then 1 else 0;
    assert Packed(c) == (red / 2 * 2 + high) * 2048 + green % 32 * 64 + blue;
    hide Packed;
    WordParts(red / 2 * 2 + high, green % 32, blue);
  }

  /** Pure green is sent with a trace of red. */
  lemma GreenIsSentReddish()
    ensures Packed(Color(0, 128, 0)) / 2048 == 1
  {
  }

  /** The word of column `x` of a panel in line `y`, read as `getPixel` of the turned coordinates. */
  function Word(p: Panel, x: nat, y: nat): (w: nat)
    requires |p.data| == SIZE * SIZE
    ensures w < 65536
  {
    var s := Source(p.rotation, SIZE, Point2(x, y));
    PackingIsLossy(PixelOf(p.data, SIZE, SIZE, s.x, s.y));
    Packed(PixelOf(p.data, SIZE, SIZE, s.x, s.y))
  }

  /** One row of slots, each filled by one panel. */
  ghost predicate Covered(screens: seq<Panel>) {
    && (forall j | 0 <= j < |screens| :: |screens[j].data| == SIZE * SIZE && 0 <= screens[j].offsetX < |screens|)
    && (forall i, j | 0 <= i < j < |screens| :: screens[i].offsetX != screens[j].offsetX)
  }

  ghost predicate Shown(line: seq<byte>, p: Panel, y: nat, n: nat)
    requires |p.data| == SIZE * SIZE && n <= SIZE
  {
    0 <= p.offsetX && HEADER + (p.offsetX + 1) * BYTES_PER_SCREEN <= |line| &&
    forall x: nat | x < n ::
      && line[HEADER + p.offsetX * BYTES_PER_SCREEN + x * 2] == Word(p, x, y) % 256
      && line[HEADER + p.offsetX * BYTES_PER_SCREEN + x * 2 + 1] == Word(p, x, y) / 256
  }

  method PixelWord(p: Panel, x: nat, y: nat) returns (word: nat)
    requires |p.data| == SIZE * SIZE
    ensures word == Word(p, x, y)
  {
    var tmpColor: Color;
    match p.rotation {
      case Rot0 => tmpColor := PixelOf(p.data, SIZE, SIZE, x, y);
      case Rot90 => tmpColor := PixelOf(p.data, SIZE, SIZE, SIZE - 1 - y, x);
      case Rot180 => tmpColor := PixelOf(p.data, SIZE, SIZE, SIZE - 1 - x, SIZE - 1 - y);
      case Rot270 => tmpColor := PixelOf(p.data, SIZE, SIZE, y, SIZE - 1 - x);
    }
    word := Packed(tmpColor);
  }

  method WritePanel(cmd: array<byte>, p: Panel, y: nat)
    requires |p.data| == SIZE * SIZE && 0 <= p.offsetX
    requires HEADER + (p.offsetX + 1) * BYTES_PER_SCREEN <= cmd.Length
    modifies cmd
    ensures Shown(cmd[..], p, y, SIZE)
    ensures forall k | 0 <= k < cmd.Length && !(0 <= k - HEADER - p.offsetX * BYTES_PER_SCREEN < BYTES_PER_SCREEN) ::
              cmd[k] == old(cmd[k])
  {
    var at := HEADER + p.offsetX * BYTES_PER_SCREEN;
    hide Word;
    for x := 0 to SIZE
      invariant Shown(cmd[..], p, y, x)
      invariant forall k | 0 <= k < cmd.Length && !(0 <= k - at < BYTES_PER_SCREEN) :: cmd[k] == old(cmd[k])
    {
      var word := PixelWord(p, x, y);
      cmd[at + x * 2] := word % 256;
      cmd[at + x * 2 + 1] := word / 256;
    }
  }

  /** What is sent for a line: select, a data header with the payload length, the start byte, every
      panel in its slot, deselect, select, a two-byte header, the flush of row `y`, deselect. */
  ghost predicate IsLine(line: seq<byte>, screens: seq<Panel>, y: nat)
    requires Covered(screens)
  {
    var length := |screens| * BYTES_PER_SCREEN;
    && |line| == HEADER + length + TRAILER && y < 256 && length < 65536
    && line[..HEADER] == Header(length) && line[HEADER + length..] == Trailer(y)
    && forall j | 0 <= j < |screens| :: Shown(line, screens[j], y, SIZE)
  }

  function Header(length: nat): seq<byte>
    requires length < 65536
  {
    [0x80, 0x00, 0x2b, 0x11, length % 256, length / 256, 0x80]
  }

  function Trailer(y: byte): seq<byte> {
    [0x80, 0x28, 0x2b, 0x80, 0x00, 0x2b, 0x11, 1, 0, 0x03, y, 0x80, 0x28, 0x2b]
  }

  method PutHeader(cmd: array<byte>, llen: nat) returns (i: nat)
    requires llen < 65536 && cmd.Length >= HEADER
    modifies cmd
    ensures i == HEADER && cmd[..HEADER] == Header(llen)
  {
    cmd[0], cmd[1], cmd[2] := 0x80, 0x00, 0x2b;
    cmd[3], cmd[4], cmd[5] := 0x11, llen % 256, llen / 256;
    cmd[6] := 0x80;
    i := HEADER;
  }

  method PutTrailer(cmd: array<byte>, at: nat, y: byte) returns (i: nat)
    requires at + TRAILER <= cmd.Length
    modifies cmd
    ensures i == at + TRAILER && cmd[..at] == old(cmd[..at]) && cmd[at..i] == Trailer(y)
  {
    i := at;
    cmd[i], cmd[i + 1], cmd[i + 2] := 0x80, 0x28, 0x2b;
    cmd[i + 3], cmd[i + 4], cmd[i + 5] := 0x80, 0x00, 0x2b;
    cmd[i + 6], cmd[i + 7], cmd[i + 8] := 0x11, 1, 0;
    cmd[i + 9], cmd[i + 10] := 0x03, y;
    cmd[i + 11], cmd[i + 12], cmd[i + 13] := 0x80, 0x28, 0x2b;
    i := i + TRAILER;
  }

  /** The line's data header carries its length in sixteen bits, so there are fewer than 512 panels. */
  method BuildLine(cmd: array<byte>, screens: seq<Panel>, y: nat) returns (i: nat)
    requires Covered(screens) && |screens| < 512 && y < SIZE
    requires cmd.Length == |screens| * BYTES_PER_SCREEN + 128
    modifies cmd
    ensures i <= cmd.Length && IsLine(cmd[..i], screens, y)
  {
    hide Word, Header, Trailer, Shown;
    var llen := |screens| * BYTES_PER_SCREEN;
    i := PutHeader(cmd, llen);
    for s := 0 to |screens|
      invariant cmd[..HEADER] == Header(llen)
      invariant forall j | 0 <= j < s :: Shown(cmd[..], screens[j], y, SIZE)
    {
      ghost var before := cmd[..];
      WritePanel(cmd, screens[s], y);
      assert cmd[..HEADER] == before[..HEADER];
      forall j | 0 <= j < s
        ensures Shown(cmd[..], screens[j], y, SIZE)
      {
        ShownStays(before, cmd[..], screens[j], y, screens[s].offsetX);
      }
    }
    i := i + llen;
    ghost var painted := cmd[..];
    assert painted[..i] == cmd[..i];
    i := PutTrailer(cmd, i, y);
    ghost var line := cmd[..i];
    assert line[..HEADER + llen] == cmd[..HEADER + llen];
    assert line[..HEADER + llen] == painted[..HEADER + llen];
    assert line[..HEADER] == painted[..HEADER] by {
      assert line[..HEADER] == line[..HEADER + llen][..HEADER];
      assert painted[..HEADER] == painted[..HEADER + llen][..HEADER];
    }
    assert line[HEADER + llen..] == Trailer(y);
    forall j | 0 <= j < |screens|
      ensures Shown(line, screens[j], y, SIZE)
    {
      ShownKept(painted, line, screens[j], y, HEADER + llen);
    }
  }

  lemma ShownStays(a: seq<byte>, b: seq<byte>, p: Panel, y: nat, slot: int)
    requires |p.data| == SIZE * SIZE && |a| == |b| && slot != p.offsetX && Shown(a, p, y, SIZE)
    requires forall k | 0 <= k < |a| && !(0 <= k - HEADER - slot * BYTES_PER_SCREEN < BYTES_PER_SCREEN) :: a[k] == b[k]
    ensures Shown(b, p, y, SIZE)
  {
    hide Word;
  }

  lemma ShownKept(a: seq<byte>, b: seq<byte>, p: Panel, y: nat, cut: nat)
    requires |p.data| == SIZE * SIZE && Shown(a, p, y, SIZE)
    requires HEADER + (p.offsetX + 1) * BYTES_PER_SCREEN <= cut <= |a| && cut <= |b| && a[..cut] == b[..cut]
    ensures Shown(b, p, y, SIZE)
  {
    hide Word;
    assert forall k | 0 <= k < cut :: a[k] == a[..cut][k] == b[..cut][k] == b[k];
  }

  // ----- Reading the line back -----

  /** What the FTDI chip does with a command buffer: set its pins, or shift bytes out. */
  datatype Command = Pins(level: byte, direction: byte) | Out(data: seq<byte>)

  datatype Parsed = Malformed | Parsed(commands: seq<Command>)

  /** The chip's reading of the two commands used here, FTDI application note AN_108, sections 3.3.2 and
      3.6.1: 0x80 sets the pins, 0x11 shifts out one byte more than its length says, low byte first. */
  function Commands(s: seq<byte>): Parsed
    decreases |s|
  {
    if s == [] then Parsed([])
    else if s[0] == 0x80 && |s| >= 3 then Prefixed(Pins(s[1], s[2]), Commands(s[3..]))
    else if s[0] == 0x11 && |s| >= 3 && |s| >= 3 + Count(s[1], s[2]) then
      var end := 3 + Count(s[1], s[2]);
      Prefixed(Out(s[3..end]), Commands(s[end..]))
    else Malformed
  }

  function Count(low: nat, high: nat): nat {
    1 + low + 256 * high
  }

  function Prefixed(c: Command, rest: Parsed): Parsed {
    match rest
    case Malformed => Malformed
    case Parsed(commands) => Parsed([c] + commands)
  }

  lemma PinsFirst(level: byte, direction: byte, rest: seq<byte>)
    ensures Commands([0x80, level, direction] + rest) == Prefixed(Pins(level, direction), Commands(rest))
  {
    var s := [0x80, level, direction] + rest;
    assert s[3..] == rest;
  }

  lemma OutFirst(low: byte, high: byte, data: seq<byte>, rest: seq<byte>)
    requires |data| == Count(low, high)
    ensures Commands([0x11, low, high] + data + rest) == Prefixed(Out(data), Commands(rest))
  {
    var s := [0x11, low, high] + data + rest;
    assert s[3..3 + |data|] == data && s[3 + |data|..] == rest;
  }

  lemma NothingLeft()
    ensures Commands([]) == Parsed([])
  {
  }

  /** The trailer: deselect, select, shift out the flush of row `y`, deselect. */
  lemma TrailerCommands(y: byte)
    ensures Commands(Trailer(y)) == Parsed([Pins(0x28, 0x2b), Pins(0x00, 0x2b), Out([0x03, y]), Pins(0x28, 0x2b)])
  {
    var last := [0x80, 0x28, 0x2b];
    NothingLeft();
    assert last == [0x80, 0x28, 0x2b] + [] && Count(1, 0) == |[0x03, y]|;
    TrailerIs(y);
    hide *;
    PinsFirst(0x28, 0x2b, []);
    TwoCommands(1, 0, [0x03, y], last);
    PinsFirst(0x28, 0x2b, [0x80, 0x00, 0x2b] + ([0x11, 1, 0] + [0x03, y] + last));
    FourCommands(Pins(0x28, 0x2b), Pins(0x00, 0x2b), Out([0x03, y]), Pins(0x28, 0x2b));
  }

  lemma TrailerIs(y: byte)
    ensures Trailer(y) == [0x80, 0x28, 0x2b] + ([0x80, 0x00, 0x2b] + ([0x11, 1, 0] + [0x03, y] + [0x80, 0x28, 0x2b]))
  {
  }

  lemma FourCommands(a: Command, b: Command, c: Command, d: Command)
    ensures Prefixed(a, Prefixed(b, Prefixed(c, Prefixed(d, Parsed([]))))) == Parsed([a, b, c, d])
  {
  }

  /** The chip takes a whole line for six commands: select, shift out the start byte and the payload,
      deselect, select, shift out the flush of the row, deselect. Nothing is left over. */
  lemma LineCommands(line: seq<byte>, screens: seq<Panel>, y: nat)
    requires Covered(screens) && IsLine(line, screens, y)
    ensures Commands(line) ==
            Parsed([Pins(0x00, 0x2b), Out([0x80] + line[7..7 + 128 * |screens|]), Pins(0x28, 0x2b),
                    Pins(0x00, 0x2b), Out([0x03, y]), Pins(0x28, 0x2b)])
  {
    var length := |screens| * BYTES_PER_SCREEN;
    SplitLine(line, length, y);
    assert |line[HEADER..HEADER + length]| == length && Count(length % 256, length / 256) == 1 + length;
    hide *;
    PayloadCommands(line[HEADER..HEADER + length], length % 256, length / 256, y);
  }

  lemma PayloadCommands(payload: seq<byte>, low: byte, high: byte, y: byte)
    requires Count(low, high) == 1 + |payload|
    ensures Commands([0x80, 0x00, 0x2b] + ([0x11, low, high] + ([0x80] + payload) + Trailer(y))) ==
            Parsed([Pins(0x00, 0x2b), Out([0x80] + payload), Pins(0x28, 0x2b),
                    Pins(0x00, 0x2b), Out([0x03, y]), Pins(0x28, 0x2b)])
  {
    hide *;
    TrailerCommands(y);
    TwoCommands(low, high, [0x80] + payload, Trailer(y));
    SixCommands(Pins(0x00, 0x2b), Out([0x80] + payload), Pins(0x28, 0x2b), Pins(0x00, 0x2b), Out([0x03, y]), Pins(0x28, 0x2b));
  }

  lemma TwoCommands(low: byte, high: byte, data: seq<byte>, rest: seq<byte>)
    requires |data| == Count(low, high)
    ensures Commands([0x80, 0x00, 0x2b] + ([0x11, low, high] + data + rest)) ==
            Prefixed(Pins(0x00, 0x2b), Prefixed(Out(data), Commands(rest)))
  {
    OutFirst(low, high, data, rest);
    hide *;
    PinsFirst(0x00, 0x2b, [0x11, low, high] + data + rest);
  }

  lemma SixCommands(a: Command, b: Command, c: Command, d: Command, e: Command, f: Command)
    ensures Prefixed(a, Prefixed(b, Parsed([c, d, e, f]))) == Parsed([a, b, c, d, e, f])
  {
  }

  lemma SplitLine(line: seq<byte>, length: nat, y: byte)
    requires length < 65536 && |line| == HEADER + length + TRAILER
    requires line[..HEADER] == Header(length) && line[HEADER + length..] == Trailer(y)
    ensures line == [0x80, 0x00, 0x2b] +
                    ([0x11, length % 256, length / 256] + ([0x80] + line[HEADER..HEADER + length]) + Trailer(y))
  {
    assert line == line[..HEADER] + line[HEADER..HEADER + length] + line[HEADER + length..];
    hide Trailer;
  }

  /** Every pixel in the payload: column `x` of the row holds, low byte first, the colour that the panel's
      rotation names, its green and blue in the low eleven bits and its red, or red and one, above. */
  lemma PixelBytes(line: seq<byte>, screens: seq<Panel>, y: nat, j: nat, x: nat)
    requires Covered(screens) && IsLine(line, screens, y) && y < 64 && j < |screens| && x < 64
    ensures var s := Source(screens[j].rotation, 64, Point2(x, y));
            var at := 7 + 128 * screens[j].offsetX + 2 * x;
            && |screens[j].data| == 64 * 64 && 0 <= at && at + 1 < |line|
            && var c := PixelOf(screens[j].data, 64, 64, s.x, s.y);
               var red := c.r / 8 + (if c.g < 128 || c.r / 8 % 2 == 1 then 0 else 1);
               line[at] == c.g / 4 % 4 * 64 + c.b / 8 && line[at + 1] == red * 8 + c.g / 4 % 32 / 4
  {
    var p := screens[j];
    assert Shown(line, p, y, SIZE);
    ShownAt(line, p, y, x);
    var s := Source(p.rotation, SIZE, Point2(x, y));
    WordBytes(PixelOf(p.data, SIZE, SIZE, s.x, s.y));
    hide Shown, Covered, IsLine, Packed, PixelOf, Source;
    assert Word(p, x, y) == Packed(PixelOf(p.data, SIZE, SIZE, s.x, s.y));
  }

  lemma ShownAt(line: seq<byte>, p: Panel, y: nat, x: nat)
    requires |p.data| == SIZE * SIZE && x < SIZE && Shown(line, p, y, SIZE)
    ensures var at := HEADER + p.offsetX * BYTES_PER_SCREEN + x * 2;
            && 0 <= at && at + 1 < |line| && line[at] == Word(p, x, y) % 256 && line[at + 1] == Word(p, x, y) / 256
  {
    hide Word;
  }

  lemma WordBytes(c: Color)
    ensures Packed(c) % 256 == c.g / 4 % 4 * 64 + c.b / 8
    ensures Packed(c) / 256 == (c.r / 8 + (if c.g < 128 || c.r / 8 % 2 == 1 then 0 else 1)) * 8 + c.g / 4 % 32 / 4
  {
    var sent, green, blue := c.r / 8 + (if c.g < 128 || c.r / 8 % 2 == 1 then 0 else 1), c.g / 4 % 32, c.b / 8;
    PackedIs(c);
    LowBits(c.g / 4);
    hide Packed;
    assert Packed(c) == sent * 2048 + green * 64 + blue && blue < 32;
    WordHalves(sent, green, blue);
  }

  lemma LowBits(n: nat)
    ensures n % 32 % 4 == n % 4
  {
  }

  lemma PackedIs(c: Color)
    ensures var sent := c.r / 8 + (if c.g < 128 || c.r / 8 % 2 == 1 then 0 else 1);
            Packed(c) == sent * 2048 + c.g / 4 % 32 * 64 + c.b / 8 && sent < 32
  {
  }
}
