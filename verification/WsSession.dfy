/**
  The send queue of a WebSocket session: frames may be dropped when the queue is backed up,
  other messages may not.
 */
module WsSession {
  /** Messages by what they hold; nothing here looks inside them. */
  type Message = string

  /** The queued messages, the first of which is being written when `writing`. */
  datatype Sender = Sender(queue: seq<Message>, writing: bool)

  function Posted(s: Sender, m: Message, droppable: bool): Sender {
    if droppable && |s.queue| > 2 then s else Sender(s.queue + [m], s.writing || s.queue == [])
  }

  /** A failed write leaves the queue and the writing flag as they are. */
  function Written(s: Sender, failed: bool): Sender
    requires s.queue != []
  {
    if failed then s else Sender(s.queue[1..], |s.queue| > 1)
  }

  class Session {
    var writeQueue: seq<Message>
    var isWriting: bool
    var closed: bool  // whether on_close_ was called

    function Sending(): Sender
      reads this
    {
      Sender(writeQueue, isWriting)
    }

    constructor ()
      ensures Sending() == Sender([], false) && !closed
    {
      writeQueue, isWriting, closed := [], false, false;
    }

    method SendMsg(msg: Message, droppable: bool)
      modifies this
      ensures Sending() == Posted(old(Sending()), msg, droppable)
      ensures !droppable || |old(writeQueue)| <= 2 ==> writeQueue == old(writeQueue) + [msg]
      ensures droppable && |old(writeQueue)| > 2 ==> writeQueue == old(writeQueue) && isWriting == old(isWriting)
      ensures closed == old(closed)
    {
      if droppable && |writeQueue| > 2 {
        return;
      }
      var empty := writeQueue == [];
      writeQueue := writeQueue + [msg];
      if empty && !isWriting {
        DoWrite();
      }
    }

    method DoWrite()
      requires writeQueue != []
      modifies this`isWriting
      ensures isWriting
    {
      isWriting := true;
    }

    method OnWrite(failed: bool)
      requires writeQueue != []
      modifies this
      ensures Sending() == Written(old(Sending()), failed)
      ensures if failed then writeQueue == old(writeQueue) && isWriting == old(isWriting)
              else writeQueue == old(writeQueue)[1..] && (isWriting <==> |old(writeQueue)| > 1)
      ensures closed == (old(closed) || failed)
    {
      if failed {
        closed := true;
        return;
      }
      writeQueue := writeQueue[1..];
      if writeQueue != [] {
        DoWrite();
      } else {
        isWriting := false;
      }
    }
  }

  // ----- Whole runs -----

  datatype Post = Post(message: Message, droppable: bool)

  /** A session with its history: every post, the positions of the posts that were queued, and the
      messages whose write completed. No write is outstanding once one has failed. */
  datatype Trace = Trace(sender: Sender, posts: seq<Post>, taken: seq<nat>, sent: seq<Message>, failed: bool)

  datatype Step = Send(post: Post) | Complete(error: bool)

  const FRESH := Trace(Sender([], false), [], [], [], false)

  predicate Enabled(t: Trace, step: Step) {
    step.Complete? ==> t.sender.writing && t.sender.queue != [] && !t.failed
  }

  function Apply(t: Trace, step: Step): Trace
    requires Enabled(t, step)
  {
    match step
    case Send(p) =>
      var s := Posted(t.sender, p.message, p.droppable);
      t.(sender := s, posts := t.posts + [p],
         taken := t.taken + (if |s.queue| > |t.sender.queue| then [|t.posts|] else []))
    case Complete(error) =>
      t.(sender := Written(t.sender, error), failed := error,
         sent := t.sent + (if error then [] else [t.sender.queue[0]]))
  }

  predicate IsRun(t: Trace, steps: seq<Step>)
    decreases |steps|
  {
    steps == [] || (Enabled(t, steps[0]) && IsRun(Apply(t, steps[0]), steps[1..]))
  }

  function After(t: Trace, steps: seq<Step>): Trace
    requires IsRun(t, steps)
    decreases |steps|
  {
    if steps == [] then t else After(Apply(t, steps[0]), steps[1..])
  }

  /** The positions are positions of posts, in increasing order. */
  ghost predicate Selects(posts: seq<Post>, taken: seq<nat>) {
    && (forall j | 0 <= j < |taken| :: taken[j] < |posts|)
    && (forall i, j | 0 <= i < j < |taken| :: taken[i] < taken[j])
  }

  /** The posts that may not be dropped are all taken. */
  ghost predicate KeepsAll(posts: seq<Post>, taken: seq<nat>) {
    forall i | 0 <= i < |posts| && !posts[i].droppable :: i in taken
  }

  /** From position `at` on, the taken posts carry exactly these messages. */
  ghost predicate Carries(posts: seq<Post>, taken: seq<nat>, at: nat, messages: seq<Message>)
    requires Selects(posts, taken)
  {
    at + |messages| <= |taken| &&
    forall j | 0 <= j < |messages| :: messages[j] == posts[taken[at + j]].message
  }

  /** From position `at` on, no taken post could have been dropped. */
  ghost predicate NoneDroppable(posts: seq<Post>, taken: seq<nat>, at: nat)
    requires Selects(posts, taken)
  {
    forall j | at <= j < |taken| :: !posts[taken[j]].droppable
  }

  /** Sent and queued messages are the taken posts in the order they were posted, and only the first
      three places of the queue hold frames that could have been dropped. */
  ghost predicate Invariant(t: Trace) {
    && Selects(t.posts, t.taken) && KeepsAll(t.posts, t.taken)
    && |t.sent| + |t.sender.queue| == |t.taken|
    && Carries(t.posts, t.taken, 0, t.sent) && Carries(t.posts, t.taken, |t.sent|, t.sender.queue)
    && NoneDroppable(t.posts, t.taken, |t.sent| + 3)
    && (t.sender.writing <==> t.sender.queue != [])
    && (t.failed ==> t.sender.writing)
  }

  lemma DropKeeps(t: Trace, p: Post)
    requires Invariant(t) && p.droppable
    ensures Invariant(t.(posts := t.posts + [p]))
  {
  }

  lemma Taking(posts: seq<Post>, taken: seq<nat>, p: Post)
    requires Selects(posts, taken) && KeepsAll(posts, taken)
    ensures Selects(posts + [p], taken + [|posts|]) && KeepsAll(posts + [p], taken + [|posts|])
  {
    assert (taken + [|posts|])[|taken|] == |posts|;
    assert forall i | i in taken :: i in taken + [|posts|];
  }

  lemma TakingCarries(posts: seq<Post>, taken: seq<nat>, p: Post, at: nat, messages: seq<Message>)
    requires Selects(posts, taken) && Selects(posts + [p], taken + [|posts|]) && Carries(posts, taken, at, messages)
    ensures Carries(posts + [p], taken + [|posts|], at, messages)
    ensures at + |messages| == |taken| ==> Carries(posts + [p], taken + [|posts|], at, messages + [p.message])
  {
  }

  lemma TakeKeeps(t: Trace, p: Post)
    requires Invariant(t) && (p.droppable ==> |t.sender.queue| <= 2)
    ensures Invariant(t.(posts := t.posts + [p], taken := t.taken + [|t.posts|],
                         sender := Sender(t.sender.queue + [p.message], true)))
  {
    Taking(t.posts, t.taken, p);
    TakingCarries(t.posts, t.taken, p, 0, t.sent);
    TakingCarries(t.posts, t.taken, p, |t.sent|, t.sender.queue);
    hide Carries, KeepsAll;
  }

  lemma SendKeeps(t: Trace, p: Post)
    requires Invariant(t)
    ensures Invariant(Apply(t, Send(p)))
  {
    if p.droppable && |t.sender.queue| > 2 {
      DropKeeps(t, p);
      assert t.taken + [] == t.taken;
    } else {
      TakeKeeps(t, p);
      hide Invariant;
    }
  }

  lemma CompleteKeeps(t: Trace, error: bool)
    requires Invariant(t) && Enabled(t, Complete(error))
    ensures Invariant(Apply(t, Complete(error)))
  {
  }

  lemma StepKeeps(t: Trace, step: Step)
    requires Invariant(t) && Enabled(t, step)
    ensures Invariant(Apply(t, step))
  {
    match step
    case Send(p) => SendKeeps(t, p);
    case Complete(error) => CompleteKeeps(t, error);
  }

  lemma {:induction false} RunKeeps(t: Trace, steps: seq<Step>)
    requires Invariant(t) && IsRun(t, steps)
    ensures Invariant(After(t, steps))
    decreases |steps|
  {
    if steps != [] {
      StepKeeps(t, steps[0]);
      RunKeeps(Apply(t, steps[0]), steps[1..]);
    }
  }

  /** The posts of a run, in order. */
  function PostsOf(steps: seq<Step>): seq<Post> {
    if steps == [] then []
    else (if steps[0].Send? then [steps[0].post] else []) + PostsOf(steps[1..])
  }

  lemma {:induction false} HistoryIsPosts(t: Trace, steps: seq<Step>)
    requires IsRun(t, steps)
    ensures After(t, steps).posts == t.posts + PostsOf(steps)
    decreases |steps|
  {
    if steps != [] {
      HistoryIsPosts(Apply(t, steps[0]), steps[1..]);
    }
  }

  /** In every run, what was sent is an order-preserving subsequence of what was posted; a post that
      may not be dropped is among the sent or the still queued ones, and among the sent ones once
      the queue is empty; the queue never holds more than three droppable frames. */
  lemma SentInOrder(steps: seq<Step>)
    requires IsRun(FRESH, steps)
    ensures var t := After(FRESH, steps);
            && t.posts == PostsOf(steps)
            && Selects(t.posts, t.taken) && Carries(t.posts, t.taken, 0, t.sent) && KeepsAll(t.posts, t.taken)
            && |t.sent| + |t.sender.queue| == |t.taken|
            && (t.sender.writing <==> t.sender.queue != [])
            && NoneDroppable(t.posts, t.taken, |t.sent| + 3)
  {
    RunKeeps(FRESH, steps);
    HistoryIsPosts(FRESH, steps);
  }

  // ----- Which posts are dropped -----

  lemma {:induction false} RunSplit(t: Trace, steps: seq<Step>, k: nat)
    requires IsRun(t, steps) && k <= |steps|
    ensures IsRun(t, steps[..k]) && IsRun(After(t, steps[..k]), steps[k..])
    ensures After(t, steps) == After(After(t, steps[..k]), steps[k..])
    decreases k
  {
    if k == 0 {
      assert steps[..0] == [] && steps[0..] == steps;
    } else {
      hide Apply, Enabled;
      RunSplit(Apply(t, steps[0]), steps[1..], k - 1);
      assert steps[..k][1..] == steps[1..][..k - 1] && steps[..k][0] == steps[0];
      assert steps[k..] == steps[1..][k - 1..];
    }
  }

  /** Whether a post is taken is settled when it is made. */
  lemma {:induction false} TakenIsSettled(t: Trace, steps: seq<Step>, i: nat)
    requires IsRun(t, steps) && i < |t.posts|
    ensures i in After(t, steps).taken <==> i in t.taken
    decreases |steps|
  {
    if steps != [] {
      var next := Apply(t, steps[0]);
      assert next.taken == t.taken || next.taken == t.taken + [|t.posts|];
      TakenIsSettled(next, steps[1..], i);
    }
  }

  /** In every run a post is lost exactly if it may be dropped and finds more than two messages queued. */
  lemma DroppedIffCrowded(steps: seq<Step>, k: nat)
    requires IsRun(FRESH, steps) && k < |steps| && steps[k].Send?
    ensures IsRun(FRESH, steps[..k])
    ensures var found := After(FRESH, steps[..k]);
            |found.posts| !in After(FRESH, steps).taken <==> steps[k].post.droppable && |found.sender.queue| > 2
  {
    RunSplit(FRESH, steps, k);
    var found := After(FRESH, steps[..k]);
    assert steps[k..][0] == steps[k] && steps[k..][1..] == steps[k + 1..];
    RunKeeps(FRESH, steps[..k]);
    var next := Apply(found, steps[k]);
    assert After(FRESH, steps) == After(next, steps[k + 1..]);
    assert forall i | i in found.taken :: i < |found.posts|;
    hide Invariant, After;
    TakenIsSettled(next, steps[k + 1..], |found.posts|);
    assert next.taken == found.taken || next.taken == found.taken + [|found.posts|];
  }
}
