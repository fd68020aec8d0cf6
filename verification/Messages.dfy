/** The control part of the messages between the server and its applications. */
module Messages {
  /** `Other` stands for the message types the stack protocol does not look at. */
  datatype Kind =
    | RegisterApp | GetServerInfo | RequestScreenAccess | SetScreenFrame
    | AppAlive | AppPause | AppResume | AppKill | Other

  datatype Message = Message(kind: Kind, appId: int, success: bool)

  /** A message and the connection the server sends it on. */
  datatype Envelope = Envelope(connection: nat, message: Message)

  /** How a rendered frame is acknowledged. */
  const ACK := Message(SetScreenFrame, 0, true)

  // ----- Lists of messages -----

  ghost predicate Has(kind: Kind, ms: seq<Message>) {
    exists m :: m in ms && m.kind == kind
  }

  function Count(kind: Kind, ms: seq<Message>): nat {
    if ms == [] then 0 else Count(kind, ms[..|ms| - 1]) + (if ms[|ms| - 1].kind == kind then 1 else 0)
  }

  lemma HasAppend(kind: Kind, a: seq<Message>, b: seq<Message>)
    ensures Has(kind, a + b) <==> Has(kind, a) || Has(kind, b)
  {
    assert forall m | m in a :: m in a + b;
    assert forall m | m in b :: m in a + b;
  }

  lemma CountSnoc(kind: Kind, ms: seq<Message>, m: Message)
    ensures Count(kind, ms + [m]) == Count(kind, ms) + (if m.kind == kind then 1 else 0)
  {
    assert (ms + [m])[..|ms|] == ms;
  }

  lemma {:induction false} CountHead(kind: Kind, ms: seq<Message>)
    requires ms != []
    ensures Count(kind, ms) == (if ms[0].kind == kind then 1 else 0) + Count(kind, ms[1..])
  {
    if |ms| > 1 {
      CountHead(kind, ms[..|ms| - 1]);
      assert ms[..|ms| - 1][1..] == ms[1..][..|ms| - 2];
    }
  }

  lemma {:induction false} CountNone(kind: Kind, ms: seq<Message>)
    requires forall m | m in ms :: m.kind != kind
    ensures Count(kind, ms) == 0
  {
    if ms != [] {
      CountNone(kind, ms[..|ms| - 1]);
    }
  }

  lemma {:induction false} CountSame(kind: Kind, m: Message, k: nat)
    requires m.kind == kind
    ensures Count(kind, seq(k, _ => m)) == k
  {
    if k > 0 {
      CountSame(kind, m, k - 1);
      assert seq(k, _ => m)[..k - 1] == seq(k - 1, _ => m);
    }
  }

  lemma {:induction false} CountAppend(kind: Kind, a: seq<Message>, b: seq<Message>)
    ensures Count(kind, a + b) == Count(kind, a) + Count(kind, b)
    decreases |b|
  {
    if b == [] {
      assert a + b == a;
    } else {
      CountAppend(kind, a, b[..|b| - 1]);
      assert (a + b)[..|a + b| - 1] == a + b[..|b| - 1];
    }
  }

  lemma {:induction false} CountPrefix(kind: Kind, ms: seq<Message>, k: nat)
    requires k <= |ms|
    ensures Count(kind, ms[..k]) <= Count(kind, ms)
  {
    if k < |ms| {
      CountPrefix(kind, ms[..|ms| - 1], k);
      assert ms[..|ms| - 1][..k] == ms[..k];
    } else {
      assert ms[..k] == ms;
    }
  }

  lemma {:induction false} CountSome(kind: Kind, ms: seq<Message>)
    requires Has(kind, ms)
    ensures Count(kind, ms) > 0
  {
    var m :| m in ms && m.kind == kind;
    var front, last := ms[..|ms| - 1], ms[|ms| - 1];
    assert ms == front + [last];
    if last.kind != kind {
      assert m in front;
      CountSome(kind, front);
    }
  }
}
