/**
  The incremental receiver `Cobs::insertBytesAndReturnDecodedPackets`: bytes arrive in chunks of
  any size, and the zero delimiters cut the stream into frames.
 */
module CobsStream {
  import opened Bytes
  import opened Cobs

  const MAX_STREAM_BUFFER_SIZE: nat := 1048576

  /** The bytes after the last zero of a stream. */
  function Tail(s: seq<byte>): seq<byte> {
    if s == [] then []
    else if s[|s| - 1] == 0 then []
    else Tail(s[..|s| - 1]) + [s[|s| - 1]]
  }

  /** The complete frames of a stream, each with its delimiter. */
  function Frames(s: seq<byte>): seq<seq<byte>> {
    if s == [] then []
    else
      var front := s[..|s| - 1];
      if s[|s| - 1] == 0 then Frames(front) + [Tail(front) + [0]] else Frames(front)
  }

  /** The packets of a list of frames: frames of one or two bytes are skipped. */
  function Packets(frames: seq<seq<byte>>): seq<Packet> {
    if frames == [] then []
    else
      var last := frames[|frames| - 1];
      Packets(frames[..|frames| - 1]) + (if |last| > 2 then [Decoding(last)] else [])
  }

  /** What one call leaves in the buffer and returns. */
  datatype Received = Received(buffer: seq<byte>, packets: seq<Packet>)

  function Insert(buffer: seq<byte>, data: seq<byte>): Received {
    if |buffer| + |data| > MAX_STREAM_BUFFER_SIZE then
      Received([], [])
    else
      Received(Tail(buffer + data), Packets(Frames(buffer + data)))
  }

  class Decoder {
    var internalStreamBuffer: seq<byte>

    /** Between calls the buffer is an unfinished frame within the size limit. */
    predicate Valid()
      reads this
    {
      0 !in internalStreamBuffer && |internalStreamBuffer| <= MAX_STREAM_BUFFER_SIZE
    }

    constructor ()
      ensures Valid() && internalStreamBuffer == []
    {
      internalStreamBuffer := [];
    }

    method InsertBytesAndReturnDecodedPackets(inputData: seq<byte>) returns (result: seq<Packet>)
      requires Valid()
      modifies this
      ensures Valid() && |internalStreamBuffer| <= 1048576
      ensures Received(internalStreamBuffer, result) == Insert(old(internalStreamBuffer), inputData)
      ensures |old(internalStreamBuffer)| + |inputData| > 1048576 ==> internalStreamBuffer == [] && result == []
      ensures |old(internalStreamBuffer)| + |inputData| <= 1048576 ==>
                && internalStreamBuffer == Tail(old(internalStreamBuffer) + inputData)
                && result == Packets(Frames(old(internalStreamBuffer) + inputData))
    {
      hide Tail, Frames, Packets, Decoding, WellFormed;
      result := [];
      if |internalStreamBuffer| + |inputData| > MAX_STREAM_BUFFER_SIZE {
        internalStreamBuffer := [];
        return;
      }
      ghost var start := internalStreamBuffer;
      TailOfOpen(start);
      TailShape(start + inputData);
      NoPackets();
      var i := 0;
      assert start + inputData[..0] == start;
      while i < |inputData|
        invariant 0 <= i <= |inputData|
        invariant internalStreamBuffer == Tail(start + inputData[..i])
        invariant result == Packets(Frames(start + inputData[..i]))
      {
        NextByte(start + inputData[..i], inputData[i]);
        assert start + inputData[..i + 1] == start + inputData[..i] + [inputData[i]];
        if inputData[i] != 0 {
          internalStreamBuffer := internalStreamBuffer + [inputData[i]];
        } else {
          internalStreamBuffer := internalStreamBuffer + [0];
          if |internalStreamBuffer| > 2 {
            var packet := DecodeFrame(internalStreamBuffer);
            result := result + [packet];
          }
          internalStreamBuffer := [];
        }
        i := i + 1;
      }
      assert start + inputData[..i] == start + inputData;
    }
  }

  /** The call to `decode`, with Damaged where its behaviour is undefined. */
  method DecodeFrame(frame: seq<byte>) returns (packet: Packet)
    ensures packet == Decoding(frame)
  {
    packet := Damaged;
    if WellFormed(frame) {
      var payload := Decode(frame);
      packet := Decoded(payload);
    }
  }

  // ----- Splitting at zeros -----

  /** One more byte: a data byte extends the tail, a zero completes a frame. */
  lemma NextByte(s: seq<byte>, b: byte)
    ensures Tail(s + [b]) == if b == 0 then [] else Tail(s) + [b]
    ensures Frames(s + [b]) == if b == 0 then Frames(s) + [Tail(s) + [0]] else Frames(s)
    ensures Packets(Frames(s + [b])) ==
            Packets(Frames(s)) + (if b == 0 && |Tail(s)| + 1 > 2 then [Decoding(Tail(s) + [0])] else [])
  {
    assert (s + [b])[..|s|] == s;
    if b == 0 {
      PacketsSnoc(Frames(s), Tail(s) + [0]);
    }
  }

  lemma NoPackets()
    ensures Packets([]) == []
  {
  }

  lemma PacketsSnoc(frames: seq<seq<byte>>, last: seq<byte>)
    ensures Packets(frames + [last]) == Packets(frames) + (if |last| > 2 then [Decoding(last)] else [])
  {
    assert (frames + [last])[..|frames|] == frames;
  }

  lemma {:induction false} TailOfOpen(s: seq<byte>)
    requires 0 !in s
    ensures Tail(s) == s && Frames(s) == []
  {
    if s != [] {
      TailOfOpen(s[..|s| - 1]);
      assert s[..|s| - 1] + [s[|s| - 1]] == s;
    }
  }

  /** A frame is a zero-free stretch and its delimiter. */
  ghost predicate IsFrame(f: seq<byte>) {
    f != [] && f[|f| - 1] == 0 && 0 !in f[..|f| - 1]
  }

  lemma {:induction false} TailShape(s: seq<byte>)
    ensures 0 !in Tail(s) && |Tail(s)| <= |s| && Tail(s) == s[|s| - |Tail(s)|..]
  {
    if s != [] {
      TailShape(s[..|s| - 1]);
    }
  }

  /** Splitting loses nothing, and every piece is one frame. */
  lemma {:induction false} SplitIsExact(s: seq<byte>)
    ensures Flatten(Frames(s)) + Tail(s) == s
    ensures forall f | f in Frames(s) :: IsFrame(f)
    ensures 0 !in Tail(s)
  {
    if s != [] {
      var front, b := s[..|s| - 1], s[|s| - 1];
      SplitIsExact(front);
      assert s == front + [b];
      NextByte(front, b);
      hide *;
      if b == 0 {
        OneMoreFrame(Frames(front), Tail(front), front);
      } else {
        Regroup(Flatten(Frames(front)), Tail(front), [b]);
        ZeroFreeSnoc(Tail(front), b);
      }
    }
  }

  lemma ZeroFreeSnoc(s: seq<byte>, b: byte)
    requires 0 !in s && b != 0
    ensures 0 !in s + [b]
  {
  }

  lemma OneMoreFrame(frames: seq<seq<byte>>, tail: seq<byte>, s: seq<byte>)
    requires Flatten(frames) + tail == s && 0 !in tail && forall f | f in frames :: IsFrame(f)
    ensures var more := frames + [tail + [0]];
            Flatten(more) + [] == s + [0] && forall f | f in more :: IsFrame(f)
  {
    FlattenAppend(frames, [tail + [0]]);
    FlattenOne(tail + [0]);
    hide Flatten;
    Regroup(Flatten(frames), tail, [0]);
    assert (tail + [0])[..|tail|] == tail;
    assert s + [0] + [] == s + [0];
  }

  lemma FlattenOne(a: seq<byte>)
    ensures Flatten([a]) == a
  {
    assert [a][1..] == [];
    assert Flatten([a]) == a + [];
  }

  /** What a finished prefix leaves behind is all that later bytes depend on. */
  lemma {:induction false} SplitAppend(a: seq<byte>, b: seq<byte>)
    ensures Frames(a + b) == Frames(a) + Frames(Tail(a) + b)
    ensures Tail(a + b) == Tail(Tail(a) + b)
    decreases |b|
  {
    TailShape(a);
    TailOfOpen(Tail(a));
    hide *;
    if b == [] {
      assert a + b == a && Tail(a) + b == Tail(a);
      assert Frames(a) + [] == Frames(a);
    } else {
      var front, last := b[..|b| - 1], b[|b| - 1];
      SplitAppend(a, front);
      assert b == front + [last];
      SplitSnoc(a + front, Tail(a) + front, Frames(a), last);
      Regroup(a, front, [last]);
      Regroup(Tail(a), front, [last]);
    }
  }

  /** Two streams that differ by finished frames go on alike. */
  lemma SplitSnoc(x: seq<byte>, y: seq<byte>, done: seq<seq<byte>>, b: byte)
    requires Frames(x) == done + Frames(y) && Tail(x) == Tail(y)
    ensures Frames(x + [b]) == done + Frames(y + [b]) && Tail(x + [b]) == Tail(y + [b])
  {
    NextByte(x, b);
    NextByte(y, b);
    hide *;
    Regroup(done, Frames(y), [Tail(y) + [0]]);
  }

  lemma SplitFrame(f: seq<byte>, rest: seq<byte>)
    requires IsFrame(f)
    ensures Frames(f + rest) == [f] + Frames(rest) && Tail(f + rest) == Tail(rest)
  {
    var body := f[..|f| - 1];
    TailOfOpen(body);
    assert f == body + [0];
    NextByte(body, 0);
    SplitAppend(f, rest);
    assert [] + rest == rest;
  }

  lemma FlattenHead(parts: seq<seq<byte>>)
    requires parts != []
    ensures Flatten(parts) == parts[0] + Flatten(parts[1..])
  {
  }

  /** There is no other way to cut a stream into frames and a zero-free rest. */
  lemma {:induction false} SplitIsUnique(frames: seq<seq<byte>>, rest: seq<byte>)
    requires forall f | f in frames :: IsFrame(f)
    requires 0 !in rest
    ensures Frames(Flatten(frames) + rest) == frames && Tail(Flatten(frames) + rest) == rest
    decreases |frames|
  {
    if frames == [] {
      assert Flatten(frames) + rest == rest;
      TailOfOpen(rest);
    } else {
      SplitIsUnique(frames[1..], rest);
      FlattenHead(frames);
      hide Frames, Tail, Flatten;
      SplitFrame(frames[0], Flatten(frames[1..]) + rest);
      Regroup(frames[0], Flatten(frames[1..]), rest);
      assert frames == [frames[0]] + frames[1..];
    }
  }

  lemma {:induction false} PacketsAppend(a: seq<seq<byte>>, b: seq<seq<byte>>)
    ensures Packets(a + b) == Packets(a) + Packets(b)
    decreases |b|
  {
    NoPackets();
    hide Packets, Decoding;
    if b == [] {
      assert a + b == a;
    } else {
      var front, last := b[..|b| - 1], b[|b| - 1];
      PacketsAppend(a, front);
      assert b == front + [last];
      Regroup(a, front, [last]);
      PacketsSnoc(a + front, last);
      PacketsSnoc(front, last);
      Regroup(Packets(a), Packets(front), if |last| > 2 then [Decoding(last)] else []);
    }
  }

  // ----- Any chunking -----

  /** Feeding chunks one call at a time. */
  function Feed(buffer: seq<byte>, chunks: seq<seq<byte>>): Received
    decreases |chunks|
  {
    if chunks == [] then
      Received(buffer, [])
    else
      var first := Insert(buffer, chunks[0]);
      var later := Feed(first.buffer, chunks[1..]);
      Received(later.buffer, first.packets + later.packets)
  }

  /** No call on the way finds more bytes than the buffer may hold. */
  predicate NeverTooLong(buffer: seq<byte>, chunks: seq<seq<byte>>)
    decreases |chunks|
  {
    chunks == [] ||
    (|buffer| + |chunks[0]| <= MAX_STREAM_BUFFER_SIZE && NeverTooLong(Insert(buffer, chunks[0]).buffer, chunks[1..]))
  }

  /** However a stream is chunked, the packets and the buffer left over are those of the whole. */
  lemma {:induction false} ChunkingIndependent(buffer: seq<byte>, chunks: seq<seq<byte>>)
    requires 0 !in buffer && NeverTooLong(buffer, chunks)
    ensures var s := buffer + Flatten(chunks); Feed(buffer, chunks) == Received(Tail(s), Packets(Frames(s)))
    decreases |chunks|
  {
    if chunks == [] {
      assert buffer + Flatten(chunks) == buffer;
      TailOfOpen(buffer);
    } else {
      var a, later := buffer + chunks[0], Flatten(chunks[1..]);
      TailShape(a);
      ChunkingIndependent(Tail(a), chunks[1..]);
      hide Tail, Frames, Packets;
      Regroup(buffer, chunks[0], later);
      SplitAppend(a, later);
      PacketsAppend(Frames(a), Frames(Tail(a) + later));
    }
  }

  /** Every zero-free stretch of a stream has at most `limit` bytes. */
  ghost predicate StretchesAtMost(s: seq<byte>, limit: nat) {
    forall i, j | 0 <= i <= j <= |s| && 0 !in s[i..j] :: j - i <= limit
  }

  lemma SliceOfSlice(s: seq<byte>, lo: nat, hi: nat, i: nat, j: nat)
    requires lo <= hi <= |s| && i <= j <= hi - lo
    ensures s[lo..hi][i..j] == s[lo + i..lo + j]
  {
    var a, b := s[lo..hi][i..j], s[lo + i..lo + j];
    assert forall k | 0 <= k < |a| :: a[k] == b[k];
  }

  lemma StretchesOfSlice(s: seq<byte>, lo: nat, hi: nat, limit: nat)
    requires lo <= hi <= |s| && StretchesAtMost(s, limit)
    ensures StretchesAtMost(s[lo..hi], limit)
  {
    forall i, j | 0 <= i <= j <= hi - lo && 0 !in s[lo..hi][i..j]
      ensures j - i <= limit
    {
      SliceOfSlice(s, lo, hi, i, j);
      assert 0 !in s[lo + i..lo + j];
    }
  }

  /** With short enough reads and frames the overflow branch never runs. */
  lemma {:induction false} ShortFramesFit(buffer: seq<byte>, chunks: seq<seq<byte>>, limit: nat, read: nat)
    requires 0 !in buffer && limit + read <= MAX_STREAM_BUFFER_SIZE
    requires forall c | c in chunks :: |c| <= read
    requires StretchesAtMost(buffer + Flatten(chunks), limit)
    ensures NeverTooLong(buffer, chunks)
    decreases |chunks|
  {
    if chunks != [] {
      var a, later := buffer + chunks[0], Flatten(chunks[1..]);
      FlattenHead(chunks);
      TailShape(a);
      hide Tail, Frames, Packets, Flatten;
      var s := a + later;
      Regroup(buffer, chunks[0], later);
      assert s[0..|buffer|] == buffer;
      var cut := |a| - |Tail(a)|;
      assert s[cut..|s|] == Tail(a) + later;
      StretchesOfSlice(s, cut, |s|, limit);
      ShortFramesFit(Tail(a), chunks[1..], limit, read);
    }
  }

  // ----- Starting again in the middle of a stream -----

  /** A stream that arrives behind a zero-free buffer: the frame being received, and then what follows. */
  lemma SplitAfterHead(buffer: seq<byte>, head: seq<byte>, rest: seq<byte>)
    requires 0 !in buffer && 0 !in head
    ensures var s := buffer + (head + [0] + rest);
            && Tail(s) == Tail(rest)
            && Packets(Frames(s)) ==
               (if |buffer| + |head| > 1 then [Decoding(buffer + head + [0])] else []) + Packets(Frames(rest))
  {
    var f := buffer + head + [0];
    assert f[..|f| - 1] == buffer + head;
    assert buffer + (head + [0] + rest) == f + rest;
    SplitFrame(f, rest);
    hide Tail, Frames;
    PacketsAppend([f], Frames(rest));
    PacketsSnoc([], f);
    assert [] + [f] == [f];
  }

  /** Whatever is in the buffer spoils at most the frame being received: from the next delimiter on, in
      any chunks, the decoder returns and keeps what a fresh one does on any chunks of the rest. */
  lemma Resynchronise(buffer: seq<byte>, head: seq<byte>, rest: seq<byte>, chunks: seq<seq<byte>>, later: seq<seq<byte>>)
    requires 0 !in buffer && 0 !in head
    requires Flatten(chunks) == head + [0] + rest && NeverTooLong(buffer, chunks)
    requires Flatten(later) == rest && NeverTooLong([], later)
    ensures Feed(buffer, chunks).buffer == Feed([], later).buffer
    ensures Feed(buffer, chunks).packets ==
            (if |buffer| + |head| > 1 then [Decoding(buffer + head + [0])] else []) + Feed([], later).packets
  {
    Fed(buffer, chunks, buffer + (head + [0] + rest));
    assert rest == [] + rest;
    Fed([], later, rest);
    hide *;
    SplitAfterHead(buffer, head, rest);
  }

  /** What chunks leave, for the stream they make up. */
  lemma Fed(buffer: seq<byte>, chunks: seq<seq<byte>>, s: seq<byte>)
    requires 0 !in buffer && NeverTooLong(buffer, chunks) && s == buffer + Flatten(chunks)
    ensures Feed(buffer, chunks) == Received(Tail(s), Packets(Frames(s)))
  {
    ChunkingIndependent(buffer, chunks);
  }

  lemma {:induction false} FeedAppend(buffer: seq<byte>, a: seq<seq<byte>>, b: seq<seq<byte>>)
    ensures var first := Feed(buffer, a);
            var second := Feed(first.buffer, b);
            Feed(buffer, a + b) == Received(second.buffer, first.packets + second.packets)
    decreases |a|
  {
    if a == [] {
      assert a + b == b;
      assert [] + Feed(buffer, b).packets == Feed(buffer, b).packets;
    } else {
      var one := Insert(buffer, a[0]);
      assert (a + b)[0] == a[0] && (a + b)[1..] == a[1..] + b;
      FeedAppend(one.buffer, a[1..], b);
      var first := Feed(one.buffer, a[1..]);
      Regroup(one.packets, first.packets, Feed(first.buffer, b).packets);
    }
  }

  /** The same after any calls before, also if the guard tripped in them and threw bytes away. */
  lemma ResynchroniseLater(buffer: seq<byte>, earlier: seq<seq<byte>>, head: seq<byte>, rest: seq<byte>,
                           chunks: seq<seq<byte>>, later: seq<seq<byte>>)
    requires 0 !in buffer && 0 !in head
    requires Flatten(chunks) == head + [0] + rest && NeverTooLong(Feed(buffer, earlier).buffer, chunks)
    requires Flatten(later) == rest && NeverTooLong([], later)
    ensures var was, now := Feed(buffer, earlier), Feed(buffer, earlier + chunks);
            && now.buffer == Feed([], later).buffer
            && now.packets == was.packets
                 + ((if |was.buffer| + |head| > 1 then [Decoding(was.buffer + head + [0])] else []) + Feed([], later).packets)
  {
    FedZeroFree(buffer, earlier);
    FeedAppend(buffer, earlier, chunks);
    hide *;
    Resynchronise(Feed(buffer, earlier).buffer, head, rest, chunks, later);
  }

  lemma {:induction false} FedZeroFree(buffer: seq<byte>, chunks: seq<seq<byte>>)
    requires 0 !in buffer
    ensures 0 !in Feed(buffer, chunks).buffer
    decreases |chunks|
  {
    if chunks != [] {
      TailShape(buffer + chunks[0]);
      FedZeroFree(Insert(buffer, chunks[0]).buffer, chunks[1..]);
    }
  }

  /** A call that trips the guard loses what was in the buffer and the chunk. If the reads and frames after
      it are short again, the frame cut in two is the last damage: everything behind it arrives. */
  lemma OverflowRecovers(buffer: seq<byte>, earlier: seq<seq<byte>>, lost: seq<byte>, head: seq<byte>, rest: seq<byte>,
                         chunks: seq<seq<byte>>, limit: nat, read: nat)
    requires 0 !in head && Flatten(chunks) == head + [0] + rest
    requires |Feed(buffer, earlier).buffer| + |lost| > MAX_STREAM_BUFFER_SIZE
    requires limit + read <= MAX_STREAM_BUFFER_SIZE && StretchesAtMost(Flatten(chunks), limit)
    requires forall c | c in chunks :: |c| <= read
    ensures var now := Feed(buffer, earlier + [lost] + chunks);
            && now.buffer == Tail(rest)
            && now.packets == Feed(buffer, earlier).packets
                 + ((if |head| > 1 then [Decoding(head + [0])] else []) + Packets(Frames(rest)))
  {
    var s := Flatten(chunks);
    Overflows(buffer, earlier, lost);
    FeedAppend(buffer, earlier + [lost], chunks);
    assert s == [] + s && [] + head + [0] == head + [0];
    hide *;
    ShortFramesFit([], chunks, limit, read);
    Fed([], chunks, s);
    SplitAfterHead([], head, rest);
  }

  lemma Overflows(buffer: seq<byte>, earlier: seq<seq<byte>>, lost: seq<byte>)
    requires |Feed(buffer, earlier).buffer| + |lost| > MAX_STREAM_BUFFER_SIZE
    ensures Feed(buffer, earlier + [lost]) == Received([], Feed(buffer, earlier).packets)
  {
    var was := Feed(buffer, earlier);
    assert [lost][1..] == [] && Feed(was.buffer, [lost]) == Received([], []);
    FeedAppend(buffer, earlier, [lost]);
    hide Feed;
    assert was.packets + [] == was.packets;
  }
}
