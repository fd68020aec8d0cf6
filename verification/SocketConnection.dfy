/**
  A stream socket connection: the write queue with one outstanding asynchronous write, the
  receiving side, and the link between two peers as a state machine over their handlers.
 */
module SocketConnection {
  import opened Bytes
  import opened Cobs
  import opened CobsStream

  const RECEIVE_BUFFER_SIZE: nat := 200000
  const QUEUE_FULL: nat := 100

  /** The sending half: encoded frames, the first of which is being written when `writing`. */
  datatype Sender = Sender(queue: seq<seq<byte>>, writing: bool)

  /** The handler `sendMessage` posts. */
  function Posted(s: Sender, frame: seq<byte>): Sender {
    if |s.queue| > QUEUE_FULL then s else Sender(s.queue + [frame], s.writing || s.queue == [])
  }

  /** The completion handler of a write. */
  function Written(s: Sender): Sender
    requires s.queue != []
  {
    Sender(s.queue[1..], |s.queue| > 1)
  }

  class Connection {
    var writeQueue: seq<seq<byte>>
    var isWriting: bool
    var dead: bool
    const cobsDecoder: Decoder

    function Sending(): Sender
      reads this
    {
      Sender(writeQueue, isWriting)
    }

    constructor ()
      ensures Sending() == Sender([], false) && !dead
      ensures fresh(cobsDecoder) && cobsDecoder.Valid() && cobsDecoder.internalStreamBuffer == []
    {
      writeQueue, isWriting, dead := [], false, false;
      cobsDecoder := new Decoder();
    }

    method SendMessage(message: seq<byte>)
      modifies this
      ensures Sending() == Posted(old(Sending()), Stuffed(message))
      ensures |old(writeQueue)| <= 100 ==> writeQueue == old(writeQueue) + [Stuffed(message)]
      ensures |old(writeQueue)| > 100 ==> writeQueue == old(writeQueue) && isWriting == old(isWriting)
      ensures dead == old(dead)
    {
      hide Stuffed;
      var sendBuffer := Encode(message);
      if |writeQueue| > 100 {
        return;
      }
      var empty := writeQueue == [];
      writeQueue := writeQueue + [sendBuffer];
      if empty && !isWriting {
        DoWrite();
      }
    }

    method DoWrite()
      requires writeQueue != []
      modifies this`isWriting
      ensures isWriting
    {
      isWriting := true;
    }

    method HandleWrite(error: bool)
      requires writeQueue != []
      modifies this
      ensures Sending() == Written(old(Sending()))
      ensures writeQueue == old(writeQueue)[1..] && (isWriting <==> |old(writeQueue)| > 1)
      ensures dead == (old(dead) || error)
    {
      if error {
        dead := true;
      }
      writeQueue := writeQueue[1..];
      if writeQueue != [] {
        DoWrite();
      } else {
        isWriting := false;
      }
    }

    /** The packets handed to the message parser, in order. */
    method HandleRead(error: bool, received: seq<byte>) returns (packets: seq<Packet>)
      requires cobsDecoder.Valid()
      modifies this`dead, cobsDecoder
      ensures cobsDecoder.Valid() && dead == (old(dead) || error)
      ensures Received(cobsDecoder.internalStreamBuffer, packets) ==
              if error then Received(old(cobsDecoder.internalStreamBuffer), [])
              else Insert(old(cobsDecoder.internalStreamBuffer), received)
    {
      packets := [];
      if !error {
        packets := cobsDecoder.InsertBytesAndReturnDecodedPackets(received);
      } else {
        dead := true;
      }
    }
  }

  // ----- Two peers and the byte stream between them -----

  /** `sent` bytes of the front frame have left the sender; `wire` is in transit; `read` is the
      history of bytes read, `accepted` that of the messages the queue took, and `tripped` says
      whether the receiver ever threw its buffer away. */
  datatype Link = Link(
    sender: Sender, sent: nat, wire: seq<byte>, buffer: seq<byte>, received: seq<Packet>,
    read: seq<byte>, accepted: seq<seq<byte>>, tripped: bool)

  const FRESH := Link(Sender([], false), 0, [], [], [], [], [], false)

  /** A posted send, part of a write reaching the stream, its completion, or a read. */
  datatype Step = Send(message: seq<byte>) | Transmit(count: nat) | Complete | Read(count: nat)

  predicate Enabled(l: Link, step: Step) {
    match step
    case Send(_) => true
    case Transmit(n) => l.sender.writing && l.sender.queue != [] && 0 < n && l.sent + n <= |l.sender.queue[0]|
    case Complete => l.sender.writing && l.sender.queue != [] && l.sent == |l.sender.queue[0]|
    case Read(n) => 0 < n <= |l.wire| && n <= RECEIVE_BUFFER_SIZE
  }

  function Apply(l: Link, step: Step): Link
    requires Enabled(l, step)
  {
    match step
    case Send(m) =>
      var taken := if |l.sender.queue| > QUEUE_FULL then [] else [m];
      l.(sender := Posted(l.sender, Stuffed(m)), accepted := l.accepted + taken)
    case Transmit(n) =>
      l.(sent := l.sent + n, wire := l.wire + l.sender.queue[0][l.sent..l.sent + n])
    case Complete =>
      l.(sender := Written(l.sender), sent := 0)
    case Read(n) =>
      var r := Insert(l.buffer, l.wire[..n]);
      l.(wire := l.wire[n..], buffer := r.buffer, received := l.received + r.packets, read := l.read + l.wire[..n],
         tripped := l.tripped || |l.buffer| + n > MAX_STREAM_BUFFER_SIZE)
  }

  /** Every step of a run is possible when it is taken. */
  predicate IsRun(l: Link, steps: seq<Step>)
    decreases |steps|
  {
    steps == [] || (Enabled(l, steps[0]) && IsRun(Apply(l, steps[0]), steps[1..]))
  }

  function After(l: Link, steps: seq<Step>): Link
    requires IsRun(l, steps)
    decreases |steps|
  {
    if steps == [] then l else After(Apply(l, steps[0]), steps[1..])
  }

  /** The frames of a list of messages. */
  function FramesOf(messages: seq<seq<byte>>): seq<seq<byte>> {
    if messages == [] then []
    else FramesOf(messages[..|messages| - 1]) + [Stuffed(messages[|messages| - 1])]
  }

  /** What a receiver of these messages should get: all of them but the empty ones. */
  function Delivery(messages: seq<seq<byte>>): seq<Packet> {
    if messages == [] then []
    else
      var last := messages[|messages| - 1];
      Delivery(messages[..|messages| - 1]) + (if last == [] then [] else [Decoded(last)])
  }

  /** Bytes of accepted messages are read, on the wire, or still queued, in that order. */
  ghost predicate Invariant(l: Link) {
    && (l.sender.writing <==> l.sender.queue != [])
    && |l.sender.queue| <= QUEUE_FULL + 1
    && l.sent <= |Flatten(l.sender.queue)|
    && (l.sender.queue == [] ==> l.sent == 0)
    && l.read + l.wire + Flatten(l.sender.queue)[l.sent..] == Flatten(FramesOf(l.accepted))
    && (!l.tripped ==> l.buffer == Tail(l.read) && l.received == Packets(Frames(l.read)))
  }

  lemma FramesOfSnoc(messages: seq<seq<byte>>, m: seq<byte>)
    ensures FramesOf(messages + [m]) == FramesOf(messages) + [Stuffed(m)]
    ensures Delivery(messages + [m]) == Delivery(messages) + (if m == [] then [] else [Decoded(m)])
  {
    assert (messages + [m])[..|messages|] == messages;
  }

  lemma SendKeeps(l: Link, m: seq<byte>)
    requires Invariant(l)
    ensures Invariant(Apply(l, Send(m)))
  {
    if |l.sender.queue| <= QUEUE_FULL {
      FramesOfSnoc(l.accepted, m);
      FlattenAppend(FramesOf(l.accepted), [Stuffed(m)]);
      FlattenAppend(l.sender.queue, [Stuffed(m)]);
      FlattenOne(Stuffed(m));
      hide Flatten, FramesOf, Stuffed, Tail, Frames, Packets;
      var pending := Flatten(l.sender.queue);
      assert (pending + Stuffed(m))[l.sent..] == pending[l.sent..] + Stuffed(m);
      Regroup(l.read + l.wire, pending[l.sent..], Stuffed(m));
    } else {
      assert l.accepted + [] == l.accepted;
    }
  }

  lemma TransmitKeeps(l: Link, n: nat)
    requires Invariant(l) && Enabled(l, Transmit(n))
    ensures Invariant(Apply(l, Transmit(n)))
  {
    FlattenHead(l.sender.queue);
    hide Flatten, FramesOf, Tail, Frames, Packets;
    var pending, out := Flatten(l.sender.queue), l.sender.queue[0][l.sent..l.sent + n];
    assert pending[l.sent..] == out + pending[l.sent + n..];
    Regroup(l.read, l.wire, out);
    Regroup(l.read + l.wire, out, pending[l.sent + n..]);
  }

  lemma CompleteKeeps(l: Link)
    requires Invariant(l) && Enabled(l, Complete)
    ensures Invariant(Apply(l, Complete))
  {
    FlattenHead(l.sender.queue);
    hide FramesOf, Tail, Frames, Packets;
    assert Flatten(l.sender.queue)[l.sent..] == Flatten(l.sender.queue[1..])[0..];
  }

  lemma ReadKeeps(l: Link, n: nat)
    requires Invariant(l) && Enabled(l, Read(n))
    ensures Invariant(Apply(l, Read(n)))
  {
    var chunk, left := l.wire[..n], l.wire[n..];
    hide Flatten, FramesOf, Tail, Frames, Packets;
    SplitAppend(l.read, chunk);
    PacketsAppend(Frames(l.read), Frames(Tail(l.read) + chunk));
    assert l.read + l.wire == l.read + chunk + left by {
      assert l.wire == chunk + left;
      Regroup(l.read, chunk, left);
    }
  }

  lemma StepKeeps(l: Link, step: Step)
    requires Invariant(l) && Enabled(l, step)
    ensures Invariant(Apply(l, step))
  {
    match step
    case Send(m) => SendKeeps(l, m);
    case Transmit(n) => TransmitKeeps(l, n);
    case Complete => CompleteKeeps(l);
    case Read(n) => ReadKeeps(l, n);
  }

  lemma {:induction false} RunKeeps(l: Link, steps: seq<Step>)
    requires Invariant(l) && IsRun(l, steps)
    ensures Invariant(After(l, steps))
    decreases |steps|
  {
    if steps != [] {
      StepKeeps(l, steps[0]);
      RunKeeps(Apply(l, steps[0]), steps[1..]);
    }
  }

  lemma {:induction false} FramesOfAreFrames(messages: seq<seq<byte>>)
    ensures forall f | f in FramesOf(messages) :: IsFrame(f)
    ensures Packets(FramesOf(messages)) == Delivery(messages)
  {
    if messages != [] {
      var front, m := messages[..|messages| - 1], messages[|messages| - 1];
      FramesOfAreFrames(front);
      PacketsSnoc(FramesOf(front), Stuffed(m));
      OneDelimiter(m);
      RoundTrip(m);
      EncodedLength(m);
      EmptyMessage();
    }
  }

  /** The stream of accepted messages splits into exactly their frames. */
  lemma AcceptedStream(messages: seq<seq<byte>>)
    ensures var s := Flatten(FramesOf(messages));
            Frames(s) == FramesOf(messages) && Tail(s) == [] && Packets(Frames(s)) == Delivery(messages)
  {
    FramesOfAreFrames(messages);
    SplitIsUnique(FramesOf(messages), []);
    assert Flatten(FramesOf(messages)) + [] == Flatten(FramesOf(messages));
  }

  lemma Delivered(l: Link)
    requires Invariant(l) && !l.tripped
    ensures l.received <= Delivery(l.accepted)
    ensures l.sender.queue == [] && l.wire == [] ==> l.received == Delivery(l.accepted)
  {
    AcceptedStream(l.accepted);
    var pending := Flatten(l.sender.queue)[l.sent..];
    var later := l.wire + pending;
    Regroup(l.read, l.wire, pending);
    SplitAppend(l.read, later);
    PacketsAppend(Frames(l.read), Frames(Tail(l.read) + later));
    if l.sender.queue == [] && l.wire == [] {
      assert l.read + later == l.read;
    }
  }

  /** End to end: in every run of sends, partial writes, completions and reads of any sizes, the
      peer has a prefix, in order, of the non-empty messages the queue accepted, and all of them
      once the queue and the wire are empty. */
  lemma EndToEnd(steps: seq<Step>)
    requires IsRun(FRESH, steps) && !After(FRESH, steps).tripped
    ensures var l := After(FRESH, steps);
            && l.received <= Delivery(l.accepted)
            && (l.sender.queue == [] && l.wire == [] ==> l.received == Delivery(l.accepted))
  {
    FreshHolds();
    RunKeeps(FRESH, steps);
    Delivered(After(FRESH, steps));
  }

  lemma FreshHolds()
    ensures Invariant(FRESH)
  {
  }

  // ----- When the receiver keeps every byte -----

  const LONGEST_FRAME: nat := MAX_STREAM_BUFFER_SIZE - RECEIVE_BUFFER_SIZE + 1

  ghost predicate ShortFrames(messages: seq<seq<byte>>) {
    forall f | f in FramesOf(messages) :: |f| <= LONGEST_FRAME
  }

  /** Zero-free bytes that start a list of frames lie in the first one, before its delimiter. */
  lemma FirstFrameHolds(frames: seq<seq<byte>>, open: seq<byte>, later: seq<byte>)
    requires 0 !in open && open != [] && Flatten(frames) + [] == open + later
    requires forall f | f in frames :: IsFrame(f)
    ensures frames != [] && |open| < |frames[0]|
  {
    assert |Flatten(frames)| == |open + later|;
    assert frames != [];
    FlattenHead(frames);
    hide Flatten;
    var f, s := frames[0], open + later;
    assert f in frames && s[..|f|] == f && f[|f| - 1] == 0;
    assert s[|f| - 1] == f[|f| - 1];
  }

  /** An unfinished frame at the receiver is a proper part of one frame of the stream. */
  lemma TailIsPartOfFrame(read: seq<byte>, later: seq<byte>)
    requires Tail(read + later) == [] && Tail(read) != []
    ensures exists f :: f in Frames(read + later) && |Tail(read)| < |f|
  {
    TailShape(read);
    SplitAppend(read, later);
    SplitIsExact(Tail(read) + later);
    hide Tail, Frames;
    FirstFrameHolds(Frames(Tail(read) + later), Tail(read), later);
    assert Frames(Tail(read) + later)[0] in Frames(read + later);
  }

  lemma StepTripsNot(l: Link, step: Step)
    requires Invariant(l) && Enabled(l, step) && !l.tripped && ShortFrames(l.accepted)
    ensures !Apply(l, step).tripped
  {
    if step.Read? && l.buffer != [] {
      AcceptedStream(l.accepted);
      var later := l.wire + Flatten(l.sender.queue)[l.sent..];
      Regroup(l.read, l.wire, Flatten(l.sender.queue)[l.sent..]);
      TailIsPartOfFrame(l.read, later);
    }
  }

  lemma AcceptedStaysShort(l: Link, step: Step)
    requires Enabled(l, step) && ShortFrames(l.accepted)
    requires step.Send? ==> |Stuffed(step.message)| <= LONGEST_FRAME
    ensures ShortFrames(Apply(l, step).accepted)
  {
    if step.Send? {
      FramesOfSnoc(l.accepted, step.message);
      assert l.accepted + [] == l.accepted;
    }
  }

  lemma {:induction false} ShortFramesNeverTrip(l: Link, steps: seq<Step>)
    requires Invariant(l) && IsRun(l, steps) && !l.tripped && ShortFrames(l.accepted)
    requires forall m | Send(m) in steps :: |Stuffed(m)| <= LONGEST_FRAME
    ensures !After(l, steps).tripped
    decreases |steps|
  {
    if steps != [] {
      StepTripsNot(l, steps[0]);
      StepKeeps(l, steps[0]);
      assert steps[0] in steps;
      AcceptedStaysShort(l, steps[0]);
      hide Apply, Enabled, Invariant, ShortFrames, Stuffed;
      ShortFramesNeverTrip(Apply(l, steps[0]), steps[1..]);
    }
  }

  /** In a run that sends only frames of at most 848577 bytes the receiver never drops its buffer,
      so delivery needs no further assumption. */
  lemma ShortFramesArrive(steps: seq<Step>)
    requires IsRun(FRESH, steps)
    requires forall m | Send(m) in steps :: |Stuffed(m)| <= 848577
    ensures var l := After(FRESH, steps);
            && !l.tripped && l.received <= Delivery(l.accepted)
            && (l.sender.queue == [] && l.wire == [] ==> l.received == Delivery(l.accepted))
  {
    FreshHolds();
    ShortFramesNeverTrip(FRESH, steps);
    EndToEnd(steps);
  }

  // ----- Which messages the queue accepts -----

  /** The messages of a run that find at most 100 frames queued. */
  function TakenOf(l: Link, steps: seq<Step>): seq<seq<byte>>
    requires IsRun(l, steps)
    decreases |steps|
  {
    if steps == [] then []
    else (if steps[0].Send? && |l.sender.queue| <= 100 then [steps[0].message] else [])
         + TakenOf(Apply(l, steps[0]), steps[1..])
  }

  /** Whether every message of a run finds at most 100 frames queued. */
  predicate Uncrowded(l: Link, steps: seq<Step>)
    requires IsRun(l, steps)
    decreases |steps|
  {
    steps == [] || ((steps[0].Send? ==> |l.sender.queue| <= 100) && Uncrowded(Apply(l, steps[0]), steps[1..]))
  }

  /** The messages sent in a run, in order. */
  function SentIn(steps: seq<Step>): seq<seq<byte>> {
    if steps == [] then []
    else (if steps[0].Send? then [steps[0].message] else []) + SentIn(steps[1..])
  }

  lemma {:induction false} AcceptedIsTaken(l: Link, steps: seq<Step>)
    requires IsRun(l, steps)
    ensures After(l, steps).accepted == l.accepted + TakenOf(l, steps)
    ensures Uncrowded(l, steps) ==> TakenOf(l, steps) == SentIn(steps)
    decreases |steps|
  {
    if steps != [] {
      AcceptedIsTaken(Apply(l, steps[0]), steps[1..]);
      AcceptedStep(l, steps[0]);
      hide Apply, Enabled;
      Regroup(l.accepted, if steps[0].Send? && |l.sender.queue| <= 100 then [steps[0].message] else [],
              TakenOf(Apply(l, steps[0]), steps[1..]));
    } else {
      assert l.accepted + [] == l.accepted;
    }
  }

  lemma AcceptedStep(l: Link, step: Step)
    requires Enabled(l, step)
    ensures Apply(l, step).accepted ==
            l.accepted + (if step.Send? && |l.sender.queue| <= 100 then [step.message] else [])
  {
    assert l.accepted + [] == l.accepted;
    hide Stuffed, Insert;
  }

  /** The receiving peer has a prefix, in order, of the non-empty messages that found at most 100 frames
      queued, and all of them once queue and wire are empty; if every message did, these are the messages
      sent. */
  lemma SentMessagesArrive(steps: seq<Step>)
    requires IsRun(FRESH, steps)
    requires forall m | Send(m) in steps :: |Stuffed(m)| <= 848577
    ensures var l := After(FRESH, steps);
            && l.received <= Delivery(TakenOf(FRESH, steps))
            && (l.sender.queue == [] && l.wire == [] ==> l.received == Delivery(TakenOf(FRESH, steps)))
    ensures Uncrowded(FRESH, steps) ==> TakenOf(FRESH, steps) == SentIn(steps)
  {
    ShortFramesArrive(steps);
    AcceptedIsTaken(FRESH, steps);
    hide *;
    assert [] + TakenOf(FRESH, steps) == TakenOf(FRESH, steps);
  }

  /** Reads of every size up to 200000 bytes are possible, and no other. */
  lemma ReadSizes(l: Link, n: nat)
    requires 0 < n <= |l.wire|
    ensures Enabled(l, Read(n)) <==> n <= 200000
  {
  }
}
