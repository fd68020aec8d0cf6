/**
  What the acknowledgements leave of the flow control when there are several renderers: no bound on the
  frames on the way, and a client that a refused frame does not silence.
 */
module FlowControl {
  import opened Messages
  import opened Protocol
  import opened Accounts
  import opened Stall

  // ----- How many frames can be on the way -----

  function InFlight(conn: Conn): nat {
    Count(SetScreenFrame, conn.toServer)
  }

  /** No run has more than so many frames of one client on the way to the server. */
  ghost predicate Bounded(renderers: nat, bound: nat) {
    forall steps, c: nat | IsRun(Start(renderers), steps) && c < |After(Start(renderers), steps).conns| ::
      InFlight(After(Start(renderers), steps).conns[c]) <= bound
  }

  lemma OneInFlight(conn: Conn, renderers: nat)
    requires renderers <= 1 && Balanced(conn, renderers)
    ensures InFlight(conn) + conn.refused <= 1
  {
    CountPrefix(SetScreenFrame, conn.log, conn.read);
    DueOfFew(renderers, Rendered(conn));
    hide Count, Has, Due;
  }

  // ----- Two renderers: frames without bound -----

  ghost predicate Reachable(renderers: nat, n: Net) {
    exists steps :: IsRun(Start(renderers), steps) && After(Start(renderers), steps) == n
  }

  lemma Reaches(renderers: nat, n: Net, step: Step)
    requires Reachable(renderers, n) && Enabled(n, step)
    ensures Reachable(renderers, Apply(n, step))
  {
    var steps :| IsRun(Start(renderers), steps) && After(Start(renderers), steps) == n;
    RunSnoc(Start(renderers), steps, step);
    hide Enabled, Apply;
    assert IsRun(Start(renderers), steps + [step]);
  }

  /** The first client alone, between two frames: `k` of its frames and `p` acknowledgements are on the way. */
  ghost predicate Supplied(n: Net, k: nat, p: nat) {
    && n.apps == n.registered == [FIRST] && |n.conns| == 1
    && var conn := n.conns[0];
       && conn.client == Client1(A.Running, false, A.Idle) && !conn.dead
       && conn.toServer == seq(k, _ => FRAME_FIRST)
       && conn.read <= |conn.log| && conn.log[conn.read..] == seq(p, _ => ACK)
  }

  lemma FirstSupply(renderers: nat) returns (n: Net)
    ensures Reachable(renderers, n) && Supplied(n, 1, 0) && n.renderers == renderers
  {
    var steps := Draws(renderers);
    var drawing := Alone(renderers, Client1(A.Running, false, A.Drawing), [], [OK, INFO], 2);
    assert Reachable(renderers, drawing);
    n := Apply(drawing, Loop(0, true));
    assert Enabled(drawing, Loop(0, true));
    assert n.conns[0].toServer == [] + [FRAME_FIRST] == seq(1, _ => FRAME_FIRST);
    hide Reachable, Apply;
    Reaches(renderers, drawing, Loop(0, true));
  }

  /** One acknowledgement is enough for one more frame. */
  lemma DrawOne(renderers: nat, n: Net, k: nat, p: nat) returns (m: Net)
    requires Reachable(renderers, n) && Supplied(n, k, p) && p > 0
    ensures Reachable(renderers, m) && Supplied(m, k + 1, p - 1) && m.renderers == n.renderers
  {
    var conn := n.conns[0];
    assert conn.log[conn.read..][0] == ACK;
    assert conn.log[conn.read + 1..] == conn.log[conn.read..][1..] == seq(p - 1, _ => ACK);
    var acked := conn.(client := Client1(A.Running, true, A.Idle), read := conn.read + 1);
    assert conn.toServer + [] == conn.toServer;
    assert Enabled(n, Receive(0)) && Apply(n, Receive(0)) == n.(conns := [acked]);
    assert conn.toServer + [FRAME_FIRST] == seq(k + 1, _ => FRAME_FIRST);
    hide Reachable, Enabled, Apply;
    Reaches(renderers, n, Receive(0));
    m := DrawAcked(renderers, n.(conns := [acked]));
  }

  lemma DrawAcked(renderers: nat, n: Net) returns (m: Net)
    requires Reachable(renderers, n) && |n.conns| == 1 && !n.conns[0].dead
    requires n.conns[0].client == Client1(A.Running, true, A.Idle)
    ensures var conn := n.conns[0];
            m == n.(conns := [conn.(client := Client1(A.Running, false, A.Idle), frames := conn.frames + 1,
                                    toServer := conn.toServer + [FRAME_FIRST])])
    ensures Reachable(renderers, m)
  {
    var conn := n.conns[0];
    var n2 := n.(conns := [conn.(client := Client1(A.Running, true, A.Waiting))]);
    var n3 := n.(conns := [conn.(client := Client1(A.Running, false, A.Drawing))]);
    m := n.(conns := [conn.(client := Client1(A.Running, false, A.Idle), frames := conn.frames + 1,
                            toServer := conn.toServer + [FRAME_FIRST])]);
    assert conn.toServer + [] == conn.toServer;
    assert Enabled(n, Loop(0, true)) && Apply(n, Loop(0, true)) == n2;
    assert Enabled(n2, Loop(0, true)) && Apply(n2, Loop(0, true)) == n3;
    assert Enabled(n3, Loop(0, true)) && Apply(n3, Loop(0, true)) == m;
    hide Enabled, Apply, Reachable;
    Reaches(renderers, n, Loop(0, true));
    Reaches(renderers, n2, Loop(0, true));
    Reaches(renderers, n3, Loop(0, true));
  }

  /** A rendered frame is acknowledged by every renderer. */
  lemma ServeOne(renderers: nat, n: Net, k: nat, p: nat) returns (m: Net)
    requires Reachable(renderers, n) && Supplied(n, k, p) && k > 0 && n.renderers > 0
    ensures Reachable(renderers, m) && Supplied(m, k - 1, p + n.renderers) && m.renderers == n.renderers
  {
    var conn, acks := n.conns[0], seq(n.renderers, _ => ACK);
    assert conn.toServer[0] == FRAME_FIRST;
    m := Apply(n, Serve(0, 2));
    assert Enabled(n, Serve(0, 2));
    var taken := n.conns[0 := Taken(conn, 2, false)];
    AcksLogged(taken, 0, n.renderers);
    assert m.conns == [Taken(conn, 2, false).(log := conn.log + acks)];
    hide Apply, Reachable, Enabled, AllLogged;
    Reaches(renderers, n, Serve(0, 2));
    assert conn.toServer[1..] == seq(k - 1, _ => FRAME_FIRST);
    assert (conn.log + acks)[conn.read..] == conn.log[conn.read..] + acks == seq(p + n.renderers, _ => ACK);
  }

  /** Each round of one frame leaves more acknowledgements waiting than it found. */
  lemma {:induction false} Gather(renderers: nat, wanted: nat) returns (n: Net, p: nat)
    requires renderers >= 2
    ensures Reachable(renderers, n) && n.renderers == renderers && Supplied(n, 0, p) && p >= wanted && p > 0
  {
    if wanted == 0 {
      n := FirstSupply(renderers);
      n := ServeOne(renderers, n, 1, 0);
      p := renderers;
    } else {
      n, p := Gather(renderers, wanted - 1);
      n := DrawOne(renderers, n, 0, p);
      n := ServeOne(renderers, n, 1, p - 1);
      p := p - 1 + renderers;
    }
  }

  /** All of them can be spent on frames before the server reads the first. */
  lemma {:induction false} Spend(renderers: nat, n: Net, k: nat, p: nat) returns (m: Net)
    requires Reachable(renderers, n) && Supplied(n, k, p)
    ensures Reachable(renderers, m) && Supplied(m, k + p, 0)
    decreases p
  {
    m := n;
    if p > 0 {
      m := DrawOne(renderers, n, k, p);
      m := Spend(renderers, m, k + 1, p - 1);
    }
  }

  /** Flow control: with at most one renderer a client never has more than one frame on the way to the
      server; with two or more there is no bound at all. */
  lemma FramesBoundedIffOneRenderer(renderers: nat)
    ensures renderers <= 1 ==> Bounded(renderers, 1)
    ensures renderers >= 2 ==> forall bound :: !Bounded(renderers, bound)
  {
    if renderers <= 1 {
      forall steps, c: nat | IsRun(Start(renderers), steps) && c < |After(Start(renderers), steps).conns|
        ensures InFlight(After(Start(renderers), steps).conns[c]) <= 1
      {
        AccountsBalance(renderers, steps, c);
        OneInFlight(After(Start(renderers), steps).conns[c], renderers);
      }
    } else {
      forall bound
        ensures !Bounded(renderers, bound)
      {
        ManyInFlight(renderers, bound);
      }
    }
  }

  lemma ManyInFlight(renderers: nat, bound: nat)
    requires renderers >= 2
    ensures !Bounded(renderers, bound)
  {
    var n, p := Gather(renderers, bound + 1);
    var m := Spend(renderers, n, 0, p);
    CountSame(SetScreenFrame, FRAME_FIRST, p);
    var steps :| IsRun(Start(renderers), steps) && After(Start(renderers), steps) == m;
    hide Count, IsRun, After;
    assert InFlight(After(Start(renderers), steps).conns[0]) == p;
  }

  // ----- Two renderers: a refusal does not silence -----

  /** An acknowledgement undelivered is one more frame, also for a client that is no longer on top. */
  lemma DrawsOnAck(n: Net)
    requires n.conns != []
    requires var conn := n.conns[0];
             && conn.client == Client1(A.Running, false, A.Idle) && !conn.dead
             && conn.read < |conn.log| && conn.log[conn.read].kind == SetScreenFrame
    ensures CanDraw(n, 0)
  {
    var n1 := Apply(n, Receive(0));
    var n2 := Apply(n1, Loop(0, true));
    var n3 := Apply(n2, Loop(0, true));
    assert n3.conns[0].client == Client1(A.Running, false, A.Drawing);
    hide CanDraw;
    DrawsAtOnce(n3, Loop(0, true), 0);
    CanDrawBefore(n2, Loop(0, true), 0);
    CanDrawBefore(n1, Loop(0, true), 0);
    CanDrawBefore(n, Receive(0), 0);
  }

  /** The first client's frame meets a second client that has taken the top. */
  lemma TopTaken(renderers: nat, n: Net, p: nat) returns (m: Net)
    requires Reachable(renderers, n) && Supplied(n, 1, p) && p > 0
    ensures Reachable(renderers, m) && m.renderers == n.renderers && m.apps == m.registered == [FIRST, SECOND]
    ensures |m.conns| == 2 && m.conns[0] == n.conns[0].(log := n.conns[0].log + [PAUSE_FIRST])
  {
    var n1 := n.(conns := n.conns + [NEW_CONN]);
    assert Enabled(n, Connect) && Apply(n, Connect) == n1;
    assert Enabled(n1, Serve(1, 2));
    RegisterIs(n1, 1, 2);
    m := Apply(n1, Serve(1, 2));
    assert [FIRST] + [SECOND] == [FIRST, SECOND];
    hide Apply, Reachable, Enabled;
    Reaches(renderers, n, Connect);
    Reaches(renderers, n1, Serve(1, 2));
  }

  /** With two or more renderers a client can have a frame refused and still send another: an earlier
      frame's second acknowledgement is on its way. */
  lemma RefusedStillDraws(renderers: nat) returns (n: Net)
    requires renderers >= 2
    ensures Reachable(renderers, n) && n.conns != [] && n.conns[0].refused > 0 && CanDraw(n, 0)
  {
    n := FirstSupply(renderers);
    n := ServeOne(renderers, n, 1, 0);
    n := DrawOne(renderers, n, 0, renderers);
    var conn := n.conns[0];
    assert conn.log[conn.read..][0] == ACK && conn.toServer[0] == FRAME_FIRST;
    n := TopTaken(renderers, n, renderers - 1);
    assert Enabled(n, Serve(0, 3));
    ServeIsAnswer(n, 0, 3);
    var m := Apply(n, Serve(0, 3));
    assert m.conns[0].refused == conn.refused + 1 && m.conns[0].client == conn.client;
    assert m.conns[0].log == conn.log + [PAUSE_FIRST] + [PAUSE_FIRST];
    hide Apply, Reachable, Enabled, Answered, CanDraw;
    Reaches(renderers, n, Serve(0, 3));
    DrawsOnAck(m);
    n := m;
  }
}
