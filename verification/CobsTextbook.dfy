/**
  Frames of the published encoder, which writes no code byte after a full block that ends the message:
  exactly which of them the decoder here gives back.
 */
module CobsTextbook {
  import opened Bytes
  import opened Cobs
  import opened CobsStream

  /** The code groups of Cheshire and Baker's encoder: those written here, but none behind a full block
      at the end of the message. */
  function TextbookGroups(run: seq<byte>, rest: seq<byte>): seq<byte>
    requires |run| <= 253
    decreases |rest|
  {
    if rest == [] then
      [|run| + 1] + run
    else if rest[0] == 0 then
      [|run| + 1] + run + TextbookGroups([], rest[1..])
    else if |run| == 253 then
      [255] + run + [rest[0]] + (if |rest| == 1 then [] else TextbookGroups([], rest[1..]))
    else
      TextbookGroups(run + [rest[0]], rest[1..])
  }

  function Textbook(message: seq<byte>): seq<byte> {
    TextbookGroups([], message) + [0]
  }

  /** The zero-free stretch the message ends with is a whole number of blocks. */
  predicate EndsOnFullBlock(message: seq<byte>) {
    Tail(message) != [] && |Tail(message)| % 254 == 0
  }

  /** The same for what is unread, `open` bytes into a block. */
  predicate EndsFull(open: nat, rest: seq<byte>)
    decreases |rest|
  {
    rest != [] &&
    if rest[0] == 0 then EndsFull(0, rest[1..])
    else if open == 253 then |rest| == 1 || EndsFull(0, rest[1..])
    else EndsFull(open + 1, rest[1..])
  }

  lemma {:induction false} TailFront(b: byte, rest: seq<byte>)
    ensures Tail([b] + rest) == if 0 in rest then Tail(rest) else if b == 0 then rest else [b] + rest
    decreases |rest|
  {
    var all := [b] + rest;
    if rest == [] {
      assert all == [b] && all[..0] == [];
    } else {
      var front, last := rest[..|rest| - 1], rest[|rest| - 1];
      assert all == [b] + front + [last] && rest == front + [last];
      TailFront(b, front);
      hide Tail;
      NextByte([b] + front, last);
      NextByte(front, last);
      Regroup([b], front, [last]);
    }
  }

  lemma TailLength(rest: seq<byte>)
    requires rest != []
    ensures var later := rest[1..];
            && |Tail(rest)| == (if 0 in later then |Tail(later)| else if rest[0] == 0 then |later| else |later| + 1)
            && (0 in rest <==> rest[0] == 0 || 0 in later)
            && (0 !in later ==> |Tail(later)| == |later|)
  {
    var later := rest[1..];
    assert rest == [rest[0]] + later;
    TailFront(rest[0], later);
    if 0 !in later {
      TailOfOpen(later);
    }
    hide Tail;
  }

  lemma {:induction false} EndsFullIs(open: nat, rest: seq<byte>)
    requires open <= 253
    ensures EndsFull(open, rest) <==>
            Tail(rest) != [] && (if 0 in rest then |Tail(rest)| else open + |rest|) % 254 == 0
    decreases |rest|
  {
    if rest != [] {
      TailLength(rest);
      EndsFullIs(if rest[0] == 0 || open == 253 then 0 else open + 1, rest[1..]);
      hide Tail;
    }
  }

  lemma {:induction false} TextbookIs(run: seq<byte>, rest: seq<byte>)
    requires |run| <= 253
    ensures Groups(run, rest) == TextbookGroups(run, rest) + (if EndsFull(|run|, rest) then [1] else [])
    ensures EndsFull(|run|, rest) ==> EndsOnGroup(TextbookGroups(run, rest), true)
    decreases |rest|
  {
    if rest != [] {
      GroupsStep(run, rest);
      var later, body := rest[1..], TextbookGroups(run, rest);
      if rest[0] == 0 || |run| == 253 {
        TextbookIs([], later);
        var block := if rest[0] == 0 then run else run + [rest[0]];
        if |block| == 254 && later == [] {
          assert Groups([], later) == [1];
        } else {
          assert body == [|block| + 1] + block + TextbookGroups([], later);
          assert body[1 + |block|..] == TextbookGroups([], later);
        }
      } else {
        TextbookIs(run + [rest[0]], later);
      }
    }
  }

  lemma EndsFullAtStart(message: seq<byte>)
    ensures EndsFull(0, message) <==> EndsOnFullBlock(message)
  {
    EndsFullIs(0, message);
    if 0 !in message {
      TailOfOpen(message);
    }
    hide Tail, EndsFull;
  }

  /** A textbook frame is decoded to its message if and only if the message does not end on a full block;
      if it does, the byte the decoder always removes is the message's last. */
  lemma TextbookSurvives(message: seq<byte>)
    ensures Decoding(Textbook(message)) == Decoded(message) <==> !EndsOnFullBlock(message)
    ensures EndsOnFullBlock(message) ==>
              message != [] && Decoding(Textbook(message)) == Decoded(message[..|message| - 1])
  {
    TextbookIs([], message);
    EndsFullAtStart(message);
    var body := TextbookGroups([], message);
    assert Textbook(message) == body + [0];
    assert Stuffed(message) == Groups([], message) + [0];
    hide *;
    if EndsFull(0, message) {
      TextbookFrameLosesItsLastByte(message, body);
      assert |message[..|message| - 1]| != |message|;
    } else {
      assert body + [] == body;
      RoundTrip(message);
    }
  }

  /** One block of non-zero bytes is such a message. */
  lemma OneBlockLosesItsLastByte()
    ensures var block: seq<byte> := seq(254, _ => 1);
            EndsOnFullBlock(block) && Decoding(Textbook(block)) == Decoded(block[..253])
  {
    var block: seq<byte> := seq(254, _ => 1);
    TailOfOpen(block);
    TextbookSurvives(block);
  }
}
