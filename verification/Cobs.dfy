/**
  Consistent Overhead Byte Stuffing as `Cobs::encode` and `Cobs::decode` do it.

  `Stuffed` and `Unstuff` are the specification functions; the two methods are the
  back-patching encoder and the group-copying decoder, proved equal to them.
 */
module Cobs {
  import opened Bytes

  /** What the decoder makes of one frame. Reading past the frame, or removing a byte from
      an empty result, is undefined in the program: the model calls such a frame Damaged. */
  datatype Packet = Decoded(payload: seq<byte>) | Damaged

  datatype Option<+T> = None | Some(value: T)

  /** The code groups still to be written when `run` is the open group and `rest` is unread. */
  function Groups(run: seq<byte>, rest: seq<byte>): seq<byte>
    requires |run| <= 253
    decreases |rest|
  {
    if rest == [] then
      [|run| + 1] + run
    else if rest[0] == 0 then
      [|run| + 1] + run + Groups([], rest[1..])
    else if |run| == 253 then
      [255] + run + [rest[0]] + Groups([], rest[1..])
    else
      Groups(run + [rest[0]], rest[1..])
  }

  /** The frame of a message: its code groups and the zero delimiter. */
  function Stuffed(message: seq<byte>): seq<byte> {
    Groups([], message) + [0]
  }

  /** How many bytes follow a code byte. The copy loop counts from 1, so code 0 copies none. */
  function GroupLength(code: byte): nat {
    if code == 0 then 0 else code - 1
  }

  /** Everything the decoder appends, before it removes the last byte; None on an overrun. */
  function Unstuff(frame: seq<byte>): Option<seq<byte>> {
    if frame == [] then
      Some([])
    else
      var n := GroupLength(frame[0]);
      if 1 + n > |frame| then
        None
      else
        var rest := frame[1 + n..];
        var zero := if frame[0] != 255 && rest != [] then [0] else [];
        match Unstuff(rest)
        case None => None
        case Some(tail) => Some(frame[1..1 + n] + zero + tail)
  }

  /** The frames on which the decoder is defined: no group overruns, and something to remove. */
  predicate WellFormed(frame: seq<byte>) {
    Unstuff(frame).Some? && Unstuff(frame).value != []
  }

  function Decoding(frame: seq<byte>): Packet {
    if WellFormed(frame) then
      var out := Unstuff(frame).value;
      Decoded(out[..|out| - 1])
    else
      Damaged
  }

  // ----- The two loops -----

  /** The encoder's buffer: closed groups, the open group behind an unwritten code byte, zeros. */
  function Layout(closed: seq<byte>, run: seq<byte>, spare: nat): (buffer: seq<byte>)
    ensures |buffer| == |closed| + 1 + |run| + spare
  {
    closed + [0] + run + seq(spare, _ => 0)
  }

  lemma AppendData(closed: seq<byte>, run: seq<byte>, spare: nat, data: byte)
    requires spare > 0
    ensures Layout(closed, run, spare)[|closed| + 1 + |run| := data] == Layout(closed, run + [data], spare - 1)
  {
  }

  lemma CloseGroup(closed: seq<byte>, run: seq<byte>, spare: nat, tail: seq<byte>) returns (all: seq<byte>, run': seq<byte>)
    requires |run| <= 254 && spare > 0
    ensures |all| == |closed| + 1 + |run|
    ensures Layout(closed, run, spare)[|closed| := |run| + 1] == Layout(all, run', spare - 1)
    ensures run' == []
    ensures all + tail == closed + ([|run| + 1] + run + tail)
  {
    all, run' := closed + [|run| + 1] + run, [];
  }

  lemma GroupsStep(run: seq<byte>, rest: seq<byte>)
    requires |run| <= 253 && rest != []
    ensures rest[0] == 0 ==> Groups(run, rest) == [|run| + 1] + run + Groups([], rest[1..])
    ensures rest[0] != 0 && |run| < 253 ==> Groups(run, rest) == Groups(run + [rest[0]], rest[1..])
    ensures rest[0] != 0 && |run| == 253 ==> Groups(run, rest) == [255] + (run + [rest[0]]) + Groups([], rest[1..])
  {
    if rest[0] != 0 && |run| == 253 {
      var later := Groups([], rest[1..]);
      assert Groups(run, rest) == [255] + run + [rest[0]] + later;
      hide Groups;
      Regroup([255], run, [rest[0]]);
    }
  }

  /** One turn of the encoder's loop: the groups written and the open group after it. */
  lemma EncodeStep(buffer: seq<byte>, closed: seq<byte>, run: seq<byte>, spare: nat, rest: seq<byte>)
      returns (closed': seq<byte>, run': seq<byte>)
    requires |run| <= 253 && spare >= 2 && rest != [] && buffer == Layout(closed, run, spare)
    ensures |run'| <= 253 && closed' + Groups(run', rest[1..]) == closed + Groups(run, rest)
    ensures rest[0] == 0 ==>
              && |closed'| == |closed| + 1 + |run| && run' == []
              && buffer[|closed| := |run| + 1] == Layout(closed', run', spare - 1)
    ensures rest[0] != 0 && |run| < 253 ==>
              && |closed'| == |closed| && |run'| == |run| + 1
              && buffer[|closed| + 1 + |run| := rest[0]] == Layout(closed', run', spare - 1)
    ensures rest[0] != 0 && |run| == 253 ==>
              && |closed'| == |closed| + 2 + |run| && run' == []
              && buffer[|closed| + 1 + |run| := rest[0]][|closed| := 255] == Layout(closed', run', spare - 2)
  {
    GroupsStep(run, rest);
    hide Groups, Layout;
    if rest[0] == 0 {
      closed', run' := CloseGroup(closed, run, spare, Groups([], rest[1..]));
    } else if |run| == 253 {
      AppendData(closed, run, spare, rest[0]);
      closed', run' := CloseGroup(closed, run + [rest[0]], spare - 1, Groups([], rest[1..]));
    } else {
      AppendData(closed, run, spare, rest[0]);
      closed', run' := closed, run + [rest[0]];
    }
  }

  lemma EncodeStart(input: seq<byte>, size: nat)
    requires size > 0
    ensures seq(size, _ => 0) == Layout([], [], size - 1)
    ensures Groups([], input) == [] + Groups([], input[0..])
  {
    assert input[0..] == input;
  }

  lemma EncodeEnd(buffer: seq<byte>, closed: seq<byte>, run: seq<byte>, spare: nat)
    requires |run| <= 253 && spare > 0 && buffer == Layout(closed, run, spare)
    ensures buffer[|closed| := |run| + 1][..|closed| + 2 + |run|] == closed + [|run| + 1] + run + [0]
  {
  }

  lemma LastGroup(closed: seq<byte>, run: seq<byte>)
    requires |run| <= 253
    ensures closed + [|run| + 1] + run == closed + Groups(run, [])
  {
  }

  method Encode(input: seq<byte>) returns (result: seq<byte>)
    ensures result == Stuffed(input)
  {
    hide Groups, Layout;
    var n := |input|;
    var size := n + (n + 253) / 254 + 100;
    result := seq(size, _ => 0);
    EncodeStart(input, size);
    var writeIndex, codeIndex := 1, 0;
    var code: byte := 1;
    var readIndex := 0;
    ghost var closed, run, full := [], [], 0;  // groups written, the open group, 0xFF groups
    while readIndex < n
      invariant 0 <= readIndex <= n
      invariant codeIndex == |closed| && code == |run| + 1 <= 254 && writeIndex == codeIndex + code
      invariant writeIndex == 1 + readIndex + full && 254 * full + |run| <= readIndex
      invariant result == Layout(closed, run, size - writeIndex)
      invariant Groups([], input) == closed + Groups(run, input[readIndex..])
    {
      closed, run := EncodeStep(result, closed, run, size - writeIndex, input[readIndex..]);
      if input[readIndex] == 0 {
        result := result[codeIndex := code];
        code := 1;
        codeIndex, writeIndex := writeIndex, writeIndex + 1;
        readIndex := readIndex + 1;
      } else {
        result := result[writeIndex := input[readIndex]];
        writeIndex, readIndex := writeIndex + 1, readIndex + 1;
        code := code + 1;
        if code == 0xFF {
          result := result[codeIndex := code];
          code := 1;
          codeIndex, writeIndex := writeIndex, writeIndex + 1;
          full := full + 1;
        }
      }
    }
    assert input[readIndex..] == [];
    EncodeEnd(result, closed, run, size - writeIndex);
    LastGroup(closed, run);
    result := result[codeIndex := code];
    result := result[..writeIndex + 1];
  }

  method Decode(input: seq<byte>) returns (result: seq<byte>)
    requires WellFormed(input)
    ensures Decoded(result) == Decoding(input)
  {
    hide Unstuff;
    result := [];
    var readIndex := 0;
    ghost var out, rest := Unstuff(input).value, Unstuff(input).value;
    assert input[0..] == input;
    while readIndex < |input|
      invariant 0 <= readIndex <= |input|
      invariant Unstuff(input[readIndex..]) == Some(rest)
      invariant out == result + rest
    {
      ghost var end, group := UnstuffStep(input, readIndex);
      var code := input[readIndex];
      readIndex := readIndex + 1;
      ghost var start, before := readIndex, result;
      var i := 1;
      while i < code
        invariant 1 <= i <= GroupLength(code) + 1
        invariant readIndex == start + i - 1
        invariant result == before + input[start..readIndex]
      {
        result := result + [input[readIndex]];
        readIndex := readIndex + 1;
        i := i + 1;
      }
      if code != 0xFF && readIndex != |input| {
        result := result + [0];
      }
      assert result == before + group;
      rest := Unstuff(input[end..]).value;
      Regroup(before, group, rest);
    }
    UnstuffStop(input);
    result := result[..|result| - 1];
  }

  lemma UnstuffStop(input: seq<byte>)
    ensures Unstuff(input[|input|..]) == Some([])
  {
  }

  /** One group of a readable frame, from position `at` to the returned position. */
  lemma UnstuffStep(input: seq<byte>, at: nat) returns (end: nat, group: seq<byte>)
    requires at < |input| && Unstuff(input[at..]).Some?
    ensures at < end <= |input| && end == at + 1 + GroupLength(input[at])
    ensures Unstuff(input[end..]).Some?
    ensures group == input[at + 1..end] + (if input[at] != 255 && end != |input| then [0] else [])
    ensures Unstuff(input[at..]).value == group + Unstuff(input[end..]).value
  {
    end := at + 1 + GroupLength(input[at]);
    var frame := input[at..];
    group := input[at + 1..end] + (if input[at] != 255 && end != |input| then [0] else []);
    assert frame[1..end - at] == input[at + 1..end] && frame[end - at..] == input[end..];
  }

  // ----- Round trip -----

  /** Reading one closed group back: its bytes, its zero unless the group is full, and the rest. */
  lemma UnstuffGroup(frame: seq<byte>, run: seq<byte>, rest: seq<byte>)
    requires |run| <= 254 && rest != [] && Unstuff(rest).Some?
    requires frame == [|run| + 1] + run + rest
    ensures Unstuff(frame) == Some(run + (if |run| == 254 then [] else [0]) + Unstuff(rest).value)
  {
    assert frame[1..1 + |run|] == run;
    assert frame[1 + |run|..] == rest;
  }

  lemma UnstuffDelimiter()
    ensures Unstuff([0]) == Some([])
  {
    var frame: seq<byte> := [0];
    assert frame[1..1] == frame[1..] == [];
    assert Unstuff(frame).value == [];
  }

  lemma {:induction false} UnstuffGroups(run: seq<byte>, rest: seq<byte>)
    requires |run| <= 253
    ensures Unstuff(Groups(run, rest) + [0]) == Some(run + rest + [0])
    decreases |rest|
  {
    if rest == [] {
      UnstuffLast(run);
      NothingMore(run);
    } else {
      GroupsStep(run, rest);
      hide *;
      if rest[0] == 0 || |run| == 253 {
        UnstuffGroups([], rest[1..]);
        var block := if rest[0] == 0 then run else run + [rest[0]];
        var later := Groups([], rest[1..]);
        Regroup([|block| + 1] + block, later, [0]);
        UnstuffGroup(Groups(run, rest) + [0], block, later + [0]);
        PayloadOf(run, rest, block);
      } else {
        UnstuffGroups(run + [rest[0]], rest[1..]);
        FirstByte(run, rest);
      }
    }
  }

  lemma FirstByte(run: seq<byte>, rest: seq<byte>)
    requires rest != []
    ensures run + [rest[0]] + rest[1..] == run + rest
  {
  }

  lemma UnstuffLast(run: seq<byte>)
    requires |run| <= 253
    ensures Unstuff([|run| + 1] + run + [0]) == Some(run + [0])
  {
    UnstuffDelimiter();
    hide *;
    UnstuffGroup([|run| + 1] + run + [0], run, [0]);
    NothingMore(run + [0]);
  }

  lemma NothingMore(s: seq<byte>)
    ensures s + [] == s
  {
  }

  lemma PayloadOf(run: seq<byte>, rest: seq<byte>, block: seq<byte>)
    requires |run| <= 253 && rest != []
    requires if rest[0] == 0 then block == run else |run| == 253 && block == run + [rest[0]]
    ensures block + (if |block| == 254 then [] else [0]) + ([] + rest[1..] + [0]) == run + rest + [0]
  {
  }

  /** Decoding undoes encoding, for every byte string: the byte the decoder always removes is
      the zero it appended for the last group, never data. */
  lemma RoundTrip(message: seq<byte>)
    ensures Decoding(Stuffed(message)) == Decoded(message)
  {
    UnstuffGroups([], message);
    assert ([] + message + [0])[..|message|] == message;
  }

  lemma StuffedInjective(a: seq<byte>, b: seq<byte>)
    requires Stuffed(a) == Stuffed(b)
    ensures a == b
  {
    RoundTrip(a);
    RoundTrip(b);
  }

  // ----- The encoded form -----

  lemma {:induction false} GroupsZeroFree(run: seq<byte>, rest: seq<byte>)
    requires |run| <= 253 && 0 !in run
    ensures 0 !in Groups(run, rest)
    decreases |rest|
  {
    if rest == [] {
    } else if rest[0] == 0 || |run| == 253 {
      GroupsZeroFree([], rest[1..]);
    } else {
      GroupsZeroFree(run + [rest[0]], rest[1..]);
    }
  }

  /** The delimiter is the only zero of a frame, so a frame never looks like two. */
  lemma OneDelimiter(message: seq<byte>)
    ensures Stuffed(message)[|Stuffed(message)| - 1] == 0
    ensures forall i | 0 <= i < |Stuffed(message)| - 1 :: Stuffed(message)[i] != 0
  {
    GroupsZeroFree([], message);
  }

  /** Full 254-byte blocks: the sum over the zero-free stretches of a message, the first of
      which already has `open` bytes behind it, of their length divided by 254. */
  function FullBlocks(open: nat, rest: seq<byte>): nat
    decreases |rest|
  {
    if rest == [] then open / 254
    else if rest[0] == 0 then open / 254 + FullBlocks(0, rest[1..])
    else FullBlocks(open + 1, rest[1..])
  }

  lemma {:induction false} FullBlocksShift(open: nat, rest: seq<byte>)
    ensures FullBlocks(open + 254, rest) == 1 + FullBlocks(open, rest)
    decreases |rest|
  {
    if rest != [] && rest[0] != 0 {
      FullBlocksShift(open + 1, rest[1..]);
    }
  }

  lemma {:induction false} FullBlocksBound(open: nat, rest: seq<byte>)
    ensures 254 * FullBlocks(open, rest) <= open + |rest|
    decreases |rest|
  {
    if rest == [] {
    } else if rest[0] == 0 {
      FullBlocksBound(0, rest[1..]);
    } else {
      FullBlocksBound(open + 1, rest[1..]);
    }
  }

  lemma {:induction false} GroupsLength(run: seq<byte>, rest: seq<byte>)
    requires |run| <= 253
    ensures |Groups(run, rest)| == 1 + |run| + |rest| + FullBlocks(|run|, rest)
    decreases |rest|
  {
    if rest == [] {
    } else if rest[0] == 0 {
      GroupsLength([], rest[1..]);
    } else if |run| == 253 {
      GroupsLength([], rest[1..]);
      FullBlocksShift(0, rest[1..]);
    } else {
      GroupsLength(run + [rest[0]], rest[1..]);
    }
  }

  /** The exact overhead: a code byte, a delimiter, and one byte for every full block. */
  lemma EncodedLength(message: seq<byte>)
    ensures |Stuffed(message)| == |message| + FullBlocks(0, message) + 2
    ensures FullBlocks(0, message) <= |message| / 254
    ensures |Stuffed(message)| <= |message| + (|message| + 253) / 254 + 100
  {
    GroupsLength([], message);
    FullBlocksBound(0, message);
  }

  // ----- Which foreign frames survive -----

  /** Whether the code groups of a body end exactly at its end, and whether the last one is full
      as asked. */
  predicate EndsOnGroup(body: seq<byte>, full: bool) {
    body != [] &&
    var n := GroupLength(body[0]);
    if 1 + n < |body| then EndsOnGroup(body[1 + n..], full)
    else 1 + n == |body| && (body[0] == 255) == full
  }

  lemma {:induction false} GroupsOfRun(open: seq<byte>, run: seq<byte>, rest: seq<byte>)
    requires 0 !in run && |open| + |run| <= 253
    ensures Groups(open, run + rest) == Groups(open + run, rest)
    decreases |run|
  {
    if run == [] {
      assert run + rest == rest && open + run == open;
    } else {
      assert (run + rest)[1..] == run[1..] + rest;
      GroupsOfRun(open + [run[0]], run[1..], rest);
      assert open + [run[0]] + run[1..] == open + run;
    }
  }

  lemma {:induction false} GroupsEndShort(run: seq<byte>, rest: seq<byte>)
    requires |run| <= 253
    ensures EndsOnGroup(Groups(run, rest), false)
    decreases |rest|
  {
    if rest == [] {
    } else if rest[0] == 0 {
      GroupsEndShort([], rest[1..]);
      var tail := Groups([], rest[1..]);
      var body := [|run| + 1] + run + tail;
      assert body[1 + |run|..] == tail;
    } else if |run| == 253 {
      GroupsEndShort([], rest[1..]);
      var tail := Groups([], rest[1..]);
      var body := [255] + run + [rest[0]] + tail;
      assert body[255..] == tail;
    } else {
      GroupsEndShort(run + [rest[0]], rest[1..]);
    }
  }

  /** The groups the encoder writes when it reads back what one group yields. */
  lemma GroupOfYield(code: byte, run: seq<byte>, payload: seq<byte>)
    requires 1 <= code && |run| == code - 1 && 0 !in run
    ensures code == 255 ==> Groups([], run + payload) == [code] + run + Groups([], payload)
    ensures code != 255 ==> Groups([], run + [0] + payload) == [code] + run + Groups([], payload)
  {
    if code == 255 {
      var init, last := run[..253], run[253];
      var rest := [last] + payload;
      assert run + payload == init + rest && last in run && rest[1..] == payload;
      GroupsOfRun([], init, rest);
      assert [] + init == init;
      GroupsStep(init, rest);
      assert init + [rest[0]] == run;
    } else {
      var rest := [0] + payload;
      assert run + [0] + payload == run + rest && rest[1..] == payload;
      GroupsOfRun([], run, rest);
      assert [] + run == run;
      GroupsStep(run, rest);
    }
  }

  lemma ShortGroupAlone(body: seq<byte>, run: seq<byte>)
    requires body == [|run| + 1] + run && 0 !in run && |run| <= 253
    ensures Unstuff(body + [0]) == Some(run + [0]) && Groups([], run) == body
  {
    UnstuffDelimiter();
    UnstuffGroup(body + [0], run, [0]);
    GroupsOfRun([], run, []);
    LastGroup([], run);
    hide Unstuff, Groups;
    assert run + [0] + [] == run + [0] && run + [] == run && [] + run == run;
  }

  /** A zero-free body that ends on a short group is what the encoder writes for its payload. */
  lemma {:induction false} GroupsOfUnstuffed(body: seq<byte>) returns (payload: seq<byte>)
    requires 0 !in body && EndsOnGroup(body, false)
    ensures Unstuff(body + [0]) == Some(payload + [0])
    ensures Groups([], payload) == body
    decreases |body|
  {
    var code, n := body[0], GroupLength(body[0]);
    var run, rest := body[1..1 + n], body[1 + n..];
    assert code in body;
    assert body == [code] + run + rest && body + [0] == [code] + run + (rest + [0]);
    if rest == [] {
      payload := run;
      ShortGroupAlone(body, run);
    } else {
      var tail := GroupsOfUnstuffed(rest);
      hide *;
      payload := run + (if |run| == 254 then [] else [0]) + tail;
      UnstuffGroup(body + [0], run, rest + [0]);
      Regroup(run + (if |run| == 254 then [] else [0]), tail, [0]);
      GroupOfYield(code, run, tail);
      if code == 255 {
        assert payload == run + tail;
      }
    }
  }

  /** The encoder's image: exactly the zero-free bodies whose groups fill them and end on a short
      group. On these, and no other frames, encoding undoes decoding. */
  lemma ReencodingIsExact(body: seq<byte>)
    requires 0 !in body
    ensures EndsOnGroup(body, false) <==>
            Decoding(body + [0]).Decoded? && Stuffed(Decoding(body + [0]).payload) == body + [0]
  {
    if EndsOnGroup(body, false) {
      var payload := GroupsOfUnstuffed(body);
      assert (payload + [0])[..|payload|] == payload;
    }
    if Decoding(body + [0]).Decoded? && Stuffed(Decoding(body + [0]).payload) == body + [0] {
      var payload := Decoding(body + [0]).payload;
      GroupsEndShort([], payload);
      assert Groups([], payload) == Stuffed(payload)[..|Stuffed(payload)| - 1] == body;
    }
  }

  lemma UnstuffEmptyGroup()
    ensures Unstuff([1, 0]).Some? && Unstuff([1, 0]).value == [0]
  {
    UnstuffDelimiter();
    assert [1, 0] == [1] + [] + [0];
    UnstuffGroup([1, 0], [], [0]);
  }

  lemma {:induction false} UnstuffFullEnd(body: seq<byte>)
    requires 0 !in body && EndsOnGroup(body, true)
    ensures Unstuff(body + [0]).Some? && Unstuff(body + [1, 0]).Some?
    ensures Unstuff(body + [1, 0]).value == Unstuff(body + [0]).value + [0]
    decreases |body|
  {
    var run, rest := body[1..1 + GroupLength(body[0])], body[1 + GroupLength(body[0])..];
    assert body[0] in body && body == [|run| + 1] + run + rest;
    if rest == [] {
      UnstuffDelimiter();
      UnstuffEmptyGroup();
      assert rest + [0] == [0] && rest + [1, 0] == [1, 0];
    } else {
      UnstuffFullEnd(rest);
    }
    hide *;
    Regroup([|run| + 1] + run, rest, [0]);
    Regroup([|run| + 1] + run, rest, [1, 0]);
    UnstuffWrapped(run, rest + [0], rest + [1, 0]);
  }

  /** One more group in front of two frames that differ by a final zero. */
  lemma UnstuffWrapped(run: seq<byte>, a: seq<byte>, b: seq<byte>)
    requires |run| <= 254 && a != [] && b != [] && Unstuff(a).Some? && Unstuff(b).Some?
    requires Unstuff(b).value == Unstuff(a).value + [0]
    ensures var c, d := [|run| + 1] + run + a, [|run| + 1] + run + b;
            Unstuff(c).Some? && Unstuff(d).Some? && Unstuff(d).value == Unstuff(c).value + [0]
  {
    UnstuffGroup([|run| + 1] + run + a, run, a);
    UnstuffGroup([|run| + 1] + run + b, run, b);
    hide Unstuff;
    Regroup(run + (if |run| == 254 then [] else [0]), Unstuff(a).value, [0]);
  }

  lemma DropLast(a: seq<byte>, b: seq<byte>, last: byte)
    requires a + [last] == b + [last]
    ensures a == b
  {
    assert (a + [last])[..|a|] == a && (b + [last])[..|b|] == b;
  }

  lemma EmptyMessage()
    ensures Groups([], []) == [1]
  {
  }

  lemma FullEndFrame(groups: seq<byte>, body: seq<byte>)
    requires groups == body + [1] && 0 !in groups && EndsOnGroup(body, true)
    ensures Unstuff(body + [0]).Some? && Unstuff(groups + [0]).Some?
    ensures Unstuff(groups + [0]).value == Unstuff(body + [0]).value + [0]
  {
    assert body == groups[..|body|];
    UnstuffFullEnd(body);
    assert groups + [0] == body + [1, 0];
  }

  /** The textbook encoder writes no code byte after a full block that ends the message. Such a
      frame decodes here to the message without its last byte. */
  lemma TextbookFrameLosesItsLastByte(message: seq<byte>, body: seq<byte>)
    requires Groups([], message) == body + [1] && EndsOnGroup(body, true)
    ensures message != [] && Decoding(body + [0]) == Decoded(message[..|message| - 1])
  {
    GroupsZeroFree([], message);
    UnstuffGroups([], message);
    FullEndFrame(Groups([], message), body);
    hide Unstuff, Groups;
    assert [] + message == message;
    DropLast(Unstuff(body + [0]).value, message, 0);
    EmptyMessage();
    assert message == [] ==> |body| == 0;
  }
}
