/**
  What every connection's frames and acknowledgements add up to, for any number of renderers: the server
  sends one acknowledgement for each, the client takes them all for the same right to draw. And when a
  client has no such right left.
 */
module Accounts {
  import opened Messages
  import opened Protocol

  /** How many frames of a connection were rendered: those sent that are neither refused nor on the way. */
  function Rendered(conn: Conn): int {
    conn.frames - conn.refused - Count(SetScreenFrame, conn.toServer)
  }

  function Due(renderers: nat, frames: int): int {
    renderers * frames
  }

  lemma OneMoreDue(renderers: nat, frames: int)
    ensures Due(renderers, frames + 1) == Due(renderers, frames) + renderers
  {
  }

  /** The accounts of a connection. Acknowledgements: as many per rendered frame as there are renderers.
      Frames: besides the first, none is begun without an acknowledgement that was handled before; with at
      most one renderer each acknowledgement handled is one more, none is taken for another. */
  ghost predicate Balanced(conn: Conn, renderers: nat) {
    && conn.read <= |conn.log|
    && !Has(RequestScreenAccess, conn.log)
    && Rendered(conn) >= 0 && Count(SetScreenFrame, conn.log) == Due(renderers, Rendered(conn))
    && Begun(conn) <= 1 + Count(SetScreenFrame, conn.log[..conn.read])
    && (renderers <= 1 ==> Begun(conn) == 1 + Count(SetScreenFrame, conn.log[..conn.read]))
  }

  /** The frames sent, the one being drawn, and the one that may be begun at once. */
  function Begun(conn: Conn): nat {
    conn.frames + (if conn.client.stage == A.Drawing then 1 else 0) + (if conn.client.frameAcked then 1 else 0)
  }

  ghost predicate AllBalanced(n: Net) {
    forall c | 0 <= c < |n.conns| :: Balanced(n.conns[c], n.renderers)
  }

  predicate Plain(m: Message) {
    m.kind != SetScreenFrame && m.kind != RequestScreenAccess
  }

  lemma SentFor(n: Net, c: nat, newId: int)
    requires Enabled(n, Serve(c, newId))
    ensures var m := n.conns[c].toServer[0];
            var sent := S.Handled(n.apps, c, m, newId, n.renderers).sent;
            if m.kind == SetScreenFrame && !Refuses(n.apps, m) then sent == seq(n.renderers, _ => Envelope(c, ACK))
            else forall e | e in sent :: Plain(e.message)
  {
  }

  lemma PlainTick(n: Net, killPressed: bool)
    ensures forall e | e in S.Ticked(n.apps, killPressed, DeadSet(n.conns)).sent :: Plain(e.message)
  {
  }

  lemma PlainLogged(conn: Conn, m: Message, renderers: nat)
    requires Balanced(conn, renderers) && Plain(m)
    ensures Balanced(conn.(log := conn.log + [m]), renderers)
  {
    CountSnoc(SetScreenFrame, conn.log, m);
    HasAppend(RequestScreenAccess, conn.log, [m]);
    assert (conn.log + [m])[..conn.read] == conn.log[..conn.read];
    assert Rendered(conn.(log := conn.log + [m])) == Rendered(conn);
    hide Count, Rendered, Due;
  }

  /** Messages that are no acknowledgements change no account. */
  lemma {:induction false} PlainKeeps(conns: seq<Conn>, sent: seq<Envelope>, renderers: nat)
    requires forall e | e in sent :: Plain(e.message)
    requires forall c | 0 <= c < |conns| :: Balanced(conns[c], renderers)
    ensures |AllLogged(conns, sent)| == |conns|
    ensures forall c | 0 <= c < |conns| :: Balanced(AllLogged(conns, sent)[c], renderers)
  {
    if sent != [] {
      var front, e := sent[..|sent| - 1], sent[|sent| - 1];
      PlainKeeps(conns, front, renderers);
      var before := AllLogged(conns, front);
      hide Balanced;
      if e.connection < |before| {
        PlainLogged(before[e.connection], e.message, renderers);
      }
    }
  }

  /** The connection of a frame that is rendered, once it is acknowledged. */
  lemma RenderedBalanced(conn: Conn, newId: int, renderers: nat)
    requires Balanced(conn, renderers) && conn.toServer != [] && conn.toServer[0].kind == SetScreenFrame
    ensures Balanced(Taken(conn, newId, false).(log := conn.log + seq(renderers, _ => ACK)), renderers)
  {
    CountHead(SetScreenFrame, conn.toServer);
    var acks := seq(renderers, _ => ACK);
    CountAppend(SetScreenFrame, conn.log, acks);
    CountSame(SetScreenFrame, ACK, renderers);
    HasAppend(RequestScreenAccess, conn.log, acks);
    assert (conn.log + acks)[..conn.read] == conn.log[..conn.read];
    assert !Has(RequestScreenAccess, acks);
    OneMoreDue(renderers, Rendered(conn));
    hide Count, Has, Due;
    assert Rendered(Taken(conn, newId, false).(log := conn.log + acks)) == Rendered(conn) + 1;
    hide Rendered;
  }

  /** The connection of any other request, before the answer. */
  lemma TakenBalanced(conn: Conn, newId: int, refused: bool, renderers: nat)
    requires Balanced(conn, renderers) && conn.toServer != [] && (conn.toServer[0].kind == SetScreenFrame <==> refused)
    ensures Balanced(Taken(conn, newId, refused), renderers)
  {
    CountHead(SetScreenFrame, conn.toServer);
    hide Count, Has, Due;
    assert Rendered(Taken(conn, newId, refused)) == Rendered(conn);
    hide Rendered;
  }

  lemma ServeBalanced(n: Net, c: nat, newId: int)
    requires AllBalanced(n) && Enabled(n, Serve(c, newId))
    ensures AllBalanced(Apply(n, Serve(c, newId)))
  {
    var m := n.conns[c].toServer[0];
    var sent := S.Handled(n.apps, c, m, newId, n.renderers).sent;
    var refused := Refuses(n.apps, m);
    var taken := n.conns[c := Taken(n.conns[c], newId, refused)];
    assert Apply(n, Serve(c, newId)).conns == AllLogged(taken, sent);
    assert Apply(n, Serve(c, newId)).renderers == n.renderers;
    SentFor(n, c, newId);
    assert refused ==> m.kind == SetScreenFrame;
    hide Apply, AllLogged, S.Handled, Balanced, Refuses;
    if m.kind == SetScreenFrame && !refused {
      RenderedBalanced(n.conns[c], newId, n.renderers);
      AcksLogged(taken, c, n.renderers);
    } else {
      TakenBalanced(n.conns[c], newId, refused, n.renderers);
      PlainKeeps(taken, sent, n.renderers);
    }
  }

  lemma HandledAs(client: A.Client, m: Message)
    ensures var r := A.Handles(client, m);
            && (forall s | s in r.sent :: s.kind != SetScreenFrame)
            && r.client.stage == client.stage
            && r.client.frameAcked == (client.frameAcked || !Plain(m))
  {
  }

  lemma ReceivedCounts(conn: Conn)
    requires conn.read < |conn.log|
    ensures var m := conn.log[conn.read];
            && Count(SetScreenFrame, conn.toServer + A.Handles(conn.client, m).sent) == Count(SetScreenFrame, conn.toServer)
            && Count(SetScreenFrame, conn.log[..conn.read + 1]) ==
               Count(SetScreenFrame, conn.log[..conn.read]) + (if m.kind == SetScreenFrame then 1 else 0)
  {
    var m := conn.log[conn.read];
    var sent := A.Handles(conn.client, m).sent;
    HandledAs(conn.client, m);
    hide A.Handles;
    assert conn.log[..conn.read + 1] == conn.log[..conn.read] + [m];
    CountSnoc(SetScreenFrame, conn.log[..conn.read], m);
    CountAppend(SetScreenFrame, conn.toServer, sent);
    CountNone(SetScreenFrame, sent);
    hide Count;
  }

  /** With one renderer no acknowledgement comes before the last one is spent. */
  lemma NoneToSpare(conn: Conn, renderers: nat)
    requires renderers <= 1 && Balanced(conn, renderers) && conn.read < |conn.log| && conn.log[conn.read].kind == SetScreenFrame
    ensures !conn.client.frameAcked
  {
    var next := conn.log[..conn.read + 1];
    assert next == conn.log[..conn.read] + [conn.log[conn.read]];
    CountSnoc(SetScreenFrame, conn.log[..conn.read], conn.log[conn.read]);
    CountPrefix(SetScreenFrame, conn.log, conn.read + 1);
    DueOfFew(renderers, Rendered(conn));
    hide Count, Has, Due;
  }

  lemma DueOfFew(renderers: nat, frames: int)
    requires renderers <= 1 && frames >= 0
    ensures Due(renderers, frames) <= frames && (renderers == 1 ==> Due(renderers, frames) == frames)
  {
  }

  lemma ReceiveBalanced(conn: Conn, renderers: nat)
    requires Balanced(conn, renderers) && conn.read < |conn.log|
    ensures Balanced(Told(conn).(toServer := conn.toServer + A.Handles(conn.client, conn.log[conn.read]).sent), renderers)
  {
    assert conn.log[conn.read] in conn.log;
    assert conn.log[conn.read].kind != RequestScreenAccess;
    HandledAs(conn.client, conn.log[conn.read]);
    ReceivedCounts(conn);
    if renderers <= 1 && conn.log[conn.read].kind == SetScreenFrame {
      NoneToSpare(conn, renderers);
    }
    hide Count, A.Handles, Has, Due;
    var next := Told(conn).(toServer := conn.toServer + A.Handles(conn.client, conn.log[conn.read]).sent);
    assert Rendered(next) == Rendered(conn);
    hide Rendered;
  }

  lemma LoopBalanced(conn: Conn, loops: bool, renderers: nat)
    requires Balanced(conn, renderers)
    ensures Balanced(Moved(conn, loops).(toServer := conn.toServer + A.Loops(conn.client, loops).sent), renderers)
  {
    var sent := A.Loops(conn.client, loops).sent;
    hide Count, Has, Due;
    if sent == [] {
      assert conn.toServer + sent == conn.toServer;
    } else {
      CountSnoc(SetScreenFrame, conn.toServer, sent[0]);
    }
    assert Rendered(Moved(conn, loops).(toServer := conn.toServer + sent)) == Rendered(conn);
    hide Rendered;
  }

  lemma NewBalanced(renderers: nat)
    ensures Balanced(NEW_CONN, renderers)
  {
    assert Count(SetScreenFrame, [REGISTER]) == 0;
  }

  lemma StepBalanced(n: Net, step: Step)
    requires AllBalanced(n) && Enabled(n, step)
    ensures AllBalanced(Apply(n, step)) && Apply(n, step).renderers == n.renderers
  {
    NewBalanced(n.renderers);
    match step
    case Serve(c, newId) => ServeBalanced(n, c, newId);
    case Tick(killPressed) =>
      PlainTick(n, killPressed);
      PlainKeeps(n.conns, S.Ticked(n.apps, killPressed, DeadSet(n.conns)).sent, n.renderers);
    case Receive(c) => ReceiveBalanced(n.conns[c], n.renderers);
    case Loop(c, loops) => LoopBalanced(n.conns[c], loops, n.renderers);
    case Connect =>
    case Die(c) =>
  }

  lemma {:induction false} RunBalanced(n: Net, steps: seq<Step>)
    requires AllBalanced(n) && IsRun(n, steps)
    ensures AllBalanced(After(n, steps)) && After(n, steps).renderers == n.renderers
    decreases |steps|
  {
    if steps != [] {
      StepBalanced(n, steps[0]);
      RunBalanced(Apply(n, steps[0]), steps[1..]);
    }
  }

  /** In every reachable state, for every connection and any number of renderers, the accounts hold: the
      acknowledgements sent are the rendered frames times the renderers, and no more frames were begun
      than one and the acknowledgements handled. */
  lemma AccountsBalance(renderers: nat, steps: seq<Step>, c: nat)
    requires IsRun(Start(renderers), steps) && c < |After(Start(renderers), steps).conns|
    ensures Balanced(After(Start(renderers), steps).conns[c], renderers)
  {
    RunBalanced(Start(renderers), steps);
  }

  // ----- One renderer -----

  /** Where the right to send the next frame is: with the client, in a frame being drawn or on its way,
      in an acknowledgement on its way, or spent on a refused frame. */
  function Credit(conn: Conn): nat
    requires conn.read <= |conn.log|
  {
    (if conn.client.frameAcked then 1 else 0) + (if conn.client.stage == A.Drawing then 1 else 0)
    + Count(SetScreenFrame, conn.toServer) + Count(SetScreenFrame, conn.log[conn.read..]) + conn.refused
  }

  /** Frame credit: in every reachable state of a server with one renderer, for every connection, exactly
      one of these holds: the client may take the credit, it is drawing, its frame or its acknowledgement
      is on the way, or a frame was refused. */
  lemma CreditIsConserved(steps: seq<Step>, c: nat)
    requires IsRun(Start(1), steps) && c < |After(Start(1), steps).conns|
    ensures var conn := After(Start(1), steps).conns[c]; conn.read <= |conn.log| && Credit(conn) == 1
  {
    AccountsBalance(1, steps, c);
    CreditOfBalance(After(Start(1), steps).conns[c]);
  }

  lemma CreditOfBalance(conn: Conn)
    requires Balanced(conn, 1)
    ensures Credit(conn) == 1
  {
    assert conn.log == conn.log[..conn.read] + conn.log[conn.read..];
    CountAppend(SetScreenFrame, conn.log[..conn.read], conn.log[conn.read..]);
    DueOfFew(1, Rendered(conn));
    hide Count, Has, Due;
  }

  // ----- The right to another frame -----

  /** What another frame can come from: an acknowledgement at hand or on the way, or a frame being drawn or
      on its way to be acknowledged. */
  ghost predicate HasRight(conn: Conn)
    requires conn.read <= |conn.log|
  {
    || conn.client.frameAcked || conn.client.stage == A.Drawing
    || Has(SetScreenFrame, conn.toServer) || Has(SetScreenFrame, conn.log[conn.read..])
  }

  /** A client without any, to which the server never sent the other message that gives it one. */
  ghost predicate Spent(conn: Conn) {
    conn.read <= |conn.log| && !HasRight(conn) && !Has(RequestScreenAccess, conn.log)
  }

  lemma {:induction false} LoggedWhatWasSent(conns: seq<Conn>, sent: seq<Envelope>, c: nat)
    requires c < |conns|
    ensures |AllLogged(conns, sent)| == |conns|
    ensures AllLogged(conns, sent)[c] == conns[c].(log := AllLogged(conns, sent)[c].log)
    ensures conns[c].log <= AllLogged(conns, sent)[c].log
    ensures forall m | m in AllLogged(conns, sent)[c].log[|conns[c].log|..] :: Envelope(c, m) in sent
  {
    if sent != [] {
      LoggedWhatWasSent(conns, sent[..|sent| - 1], c);
    }
  }

  /** Messages that are no acknowledgements leave a spent client spent. */
  lemma SpentLogged(conn: Conn, log: seq<Message>)
    requires Spent(conn) && conn.log <= log && forall m | m in log[|conn.log|..] :: Plain(m)
    ensures Spent(conn.(log := log))
  {
    var more := log[|conn.log|..];
    assert log == conn.log + more && log[conn.read..] == conn.log[conn.read..] + more;
    HasAppend(RequestScreenAccess, conn.log, more);
    HasAppend(SetScreenFrame, conn.log[conn.read..], more);
    assert !Has(SetScreenFrame, more) && !Has(RequestScreenAccess, more);
    hide Has;
  }

  lemma SpentAllLogged(conns: seq<Conn>, sent: seq<Envelope>, c: nat)
    requires c < |conns| && Spent(conns[c]) && forall e | e in sent && e.connection == c :: Plain(e.message)
    ensures c < |AllLogged(conns, sent)| && Spent(AllLogged(conns, sent)[c])
    ensures AllLogged(conns, sent)[c].frames == conns[c].frames
  {
    LoggedWhatWasSent(conns, sent, c);
    hide AllLogged, Spent;
    SpentLogged(conns[c], AllLogged(conns, sent)[c].log);
  }

  lemma SpentTaken(conn: Conn, newId: int, refused: bool)
    requires Spent(conn) && conn.toServer != []
    ensures conn.toServer[0].kind != SetScreenFrame
    ensures Spent(Taken(conn, newId, refused)) && Taken(conn, newId, refused).frames == conn.frames
  {
    assert conn.toServer[0] in conn.toServer;
    assert forall m | m in conn.toServer[1..] :: m in conn.toServer;
  }

  lemma SpentServed(n: Net, s: nat, newId: int, c: nat)
    requires Enabled(n, Serve(s, newId)) && c < |n.conns| && Spent(n.conns[c])
    ensures var after := Apply(n, Serve(s, newId));
            c < |after.conns| && Spent(after.conns[c]) && after.conns[c].frames == n.conns[c].frames
  {
    var m := n.conns[s].toServer[0];
    var sent := S.Handled(n.apps, s, m, newId, n.renderers).sent;
    var taken := n.conns[s := Taken(n.conns[s], newId, Refuses(n.apps, m))];
    assert Apply(n, Serve(s, newId)).conns == AllLogged(taken, sent);
    SentFor(n, s, newId);
    if s == c {
      SpentTaken(n.conns[c], newId, Refuses(n.apps, m));
    }
    hide Apply, AllLogged, S.Handled, Spent, Refuses;
    SpentAllLogged(taken, sent, c);
  }

  lemma SpentReceives(conn: Conn)
    requires Spent(conn) && conn.read < |conn.log|
    ensures var next := Told(conn).(toServer := conn.toServer + A.Handles(conn.client, conn.log[conn.read]).sent);
            Spent(next) && next.frames == conn.frames
  {
    var m := conn.log[conn.read];
    var sent := A.Handles(conn.client, m).sent;
    assert conn.log[conn.read..][0] == m && m in conn.log[conn.read..] && m in conn.log;
    HandledAs(conn.client, m);
    HasAppend(SetScreenFrame, conn.toServer, sent);
    assert !Has(SetScreenFrame, sent);
    assert forall r | r in conn.log[conn.read + 1..] :: r in conn.log[conn.read..];
    hide A.Handles;
  }

  lemma SpentMoves(conn: Conn, loops: bool)
    requires Spent(conn)
    ensures var next := Moved(conn, loops).(toServer := conn.toServer + A.Loops(conn.client, loops).sent);
            Spent(next) && next.frames == conn.frames
  {
    hide Has;
    assert A.Loops(conn.client, loops).sent == [];
    assert conn.toServer + [] == conn.toServer;
  }

  /** Without a right nothing gives a client one: it sends no frame and stays without. */
  lemma SpentStep(n: Net, step: Step, c: nat)
    requires Enabled(n, step) && c < |n.conns| && Spent(n.conns[c])
    ensures var after := Apply(n, step);
            c < |after.conns| && Spent(after.conns[c]) && after.conns[c].frames == n.conns[c].frames
  {
    match step
    case Serve(s, newId) => SpentServed(n, s, newId, c);
    case Tick(killPressed) =>
      PlainTick(n, killPressed);
      hide S.Ticked, Spent;
      SpentAllLogged(n.conns, S.Ticked(n.apps, killPressed, DeadSet(n.conns)).sent, c);
    case Receive(s) =>
      if s == c {
        SpentReceives(n.conns[c]);
      }
      hide Spent;
    case Loop(s, loops) =>
      if s == c {
        SpentMoves(n.conns[c], loops);
      }
      hide Spent;
    case Connect =>
    case Die(s) =>
  }

  lemma {:induction false} SpentForGood(n: Net, steps: seq<Step>, c: nat)
    requires IsRun(n, steps) && c < |n.conns| && Spent(n.conns[c])
    ensures c < |After(n, steps).conns| && Spent(After(n, steps).conns[c])
    ensures After(n, steps).conns[c].frames == n.conns[c].frames
    decreases |steps|
  {
    if steps != [] {
      SpentStep(n, steps[0], c);
      SpentForGood(Apply(n, steps[0]), steps[1..], c);
    }
  }

  lemma {:induction false} RunAppend(n: Net, steps: seq<Step>, later: seq<Step>)
    requires IsRun(n, steps) && IsRun(After(n, steps), later)
    ensures IsRun(n, steps + later) && After(n, steps + later) == After(After(n, steps), later)
    decreases |steps|
  {
    hide Apply, Enabled;
    if steps == [] {
      assert steps + later == later;
    } else {
      RunAppend(Apply(n, steps[0]), steps[1..], later);
      assert (steps + later)[1..] == steps[1..] + later && (steps + later)[0] == steps[0];
    }
  }

  /** With one renderer a client has a right left exactly if none of its frames was refused. */
  lemma RefusedIsSpent(steps: seq<Step>, c: nat)
    requires IsRun(Start(1), steps) && c < |After(Start(1), steps).conns|
    ensures var conn := After(Start(1), steps).conns[c];
            && conn.read <= |conn.log| && conn.refused <= 1
            && (HasRight(conn) <==> conn.refused == 0) && (Spent(conn) <==> conn.refused == 1)
  {
    AccountsBalance(1, steps, c);
    CreditIsConserved(steps, c);
    RightIsCredit(After(Start(1), steps).conns[c]);
    hide *;
  }

  lemma RightIsCredit(conn: Conn)
    requires Balanced(conn, 1) && Credit(conn) == 1
    ensures conn.refused <= 1 && (HasRight(conn) <==> conn.refused == 0) && (Spent(conn) <==> conn.refused == 1)
  {
    CountIsHas(SetScreenFrame, conn.toServer);
    CountIsHas(SetScreenFrame, conn.log[conn.read..]);
    hide Count, Has;
  }

  lemma CountIsHas(kind: Kind, ms: seq<Message>)
    ensures Count(kind, ms) > 0 <==> Has(kind, ms)
  {
    if Has(kind, ms) {
      CountSome(kind, ms);
    } else {
      CountNone(kind, ms);
    }
  }

  /** With one renderer a client whose frame was refused sends no other on that connection, whatever
      happens next, not even after it is told to resume: the refusal is answered with a pause, never
      acknowledged. */
  lemma RefusedFallsSilent(before: seq<Step>, later: seq<Step>, c: nat)
    requires IsRun(Start(1), before) && IsRun(After(Start(1), before), later)
    requires c < |After(Start(1), before).conns| && After(Start(1), before).conns[c].refused > 0
    ensures var n, m := After(Start(1), before), After(After(Start(1), before), later);
            && c < |m.conns| && m.conns[c].frames == n.conns[c].frames && n.conns[c].refused == m.conns[c].refused == 1
  {
    RefusedIsSpent(before, c);
    SpentForGood(After(Start(1), before), later, c);
    RunAppend(Start(1), before, later);
    hide Spent;
    RefusedIsSpent(before + later, c);
  }
}
