/**
  Where a client gets stuck. An application on top can draw again exactly if none of its frames was ever
  refused, and there is a run in which it cannot although it was told to resume and is running. A killed
  application ends exactly if it was not waiting for an acknowledgement, and there is a run in which it was.
 */
module Stall {
  import opened Messages
  import opened Protocol
  import opened Accounts

  const OK := Message(RegisterApp, 1, true)
  const INFO := Message(GetServerInfo, 0, false)
  const PAUSE_FIRST := Message(AppPause, 1, false)
  const RESUME_FIRST := Message(AppResume, 1, false)
  const FRAME_FIRST := Message(SetScreenFrame, 1, false)

  const FIRST := S.App(1, 0, S.Unknown)
  const SECOND := S.App(2, 1, S.Unknown)
  const RIVAL := Conn(A.NEW_CLIENT, [], [Message(RegisterApp, 2, true)], 0, 0, 0, 2, false)

  function Client1(state: A.AppState, acked: bool, stage: A.Stage): A.Client {
    A.Client(state, 1, acked, stage, false)
  }

  /** The first client while it is alone. */
  function Alone(renderers: nat, client: A.Client, toServer: seq<Message>, log: seq<Message>, read: nat): Net {
    Net([FIRST], [Conn(client, toServer, log, read, 0, 0, 1, false)], [FIRST], renderers)
  }

  /** The run so far and one more step. */
  lemma Then(renderers: nat, steps: seq<Step>, step: Step, now: Net, next: Net) returns (more: seq<Step>)
    requires IsRun(Start(renderers), steps) && After(Start(renderers), steps) == now
    requires Enabled(now, step) && Apply(now, step) == next
    ensures IsRun(Start(renderers), more) && After(Start(renderers), more) == next
  {
    RunSnoc(Start(renderers), steps, step);
    more := steps + [step];
  }

  lemma RunSnoc(n: Net, steps: seq<Step>, step: Step)
    requires IsRun(n, steps) && Enabled(After(n, steps), step)
    ensures IsRun(n, steps + [step]) && After(n, steps + [step]) == Apply(After(n, steps), step)
  {
    assert [step][1..] == [];
    assert IsRun(After(n, steps), [step]) && After(After(n, steps), [step]) == Apply(After(n, steps), step);
    hide Apply, Enabled;
    RunAppend(n, steps, [step]);
  }

  lemma FirstRegisters(renderers: nat)
    ensures Enabled(Net([], [NEW_CONN], [], renderers), Serve(0, 1))
    ensures Apply(Net([], [NEW_CONN], [], renderers), Serve(0, 1)) == Alone(renderers, A.NEW_CLIENT, [], [OK], 0)
  {
    RegisterIs(Net([], [NEW_CONN], [], renderers), 0, 1);
    hide Apply;
    assert [NEW_CONN][0 := Confirmed(NEW_CONN, 1)] == Alone(renderers, A.NEW_CLIENT, [], [OK], 0).conns;
    assert [] + [FIRST] == [FIRST];
  }

  lemma Registered(renderers: nat) returns (steps: seq<Step>)
    ensures IsRun(Start(renderers), steps)
    ensures After(Start(renderers), steps) == Alone(renderers, A.NEW_CLIENT, [], [OK], 0)
  {
    assert [] + [NEW_CONN] == [NEW_CONN];
    FirstRegisters(renderers);
    assert Apply(Start(renderers), Connect) == Net([], [NEW_CONN], [], renderers) && Enabled(Start(renderers), Connect);
    assert IsRun(Start(renderers), []) && After(Start(renderers), []) == Start(renderers);
    hide *;
    steps := Then(renderers, [], Connect, Start(renderers), Net([], [NEW_CONN], [], renderers));
    steps := Then(renderers, steps, Serve(0, 1), Net([], [NEW_CONN], [], renderers), Alone(renderers, A.NEW_CLIENT, [], [OK], 0));
  }

  const SCHEMA := Message(Other, 1, false)
  const ASK := Message(GetServerInfo, 1, false)

  lemma Introduces(renderers: nat)
    ensures var n1 := Alone(renderers, A.NEW_CLIENT, [], [OK], 0);
            && Enabled(n1, Receive(0))
            && Apply(n1, Receive(0)) == Alone(renderers, Client1(A.Starting, true, A.Idle), [SCHEMA, ASK], [OK], 1)
  {
    assert [] + [SCHEMA, ASK] == [SCHEMA, ASK];
  }

  lemma SchemaServed(renderers: nat)
    ensures var n2 := Alone(renderers, Client1(A.Starting, true, A.Idle), [SCHEMA, ASK], [OK], 1);
            && Enabled(n2, Serve(0, 2))
            && Apply(n2, Serve(0, 2)) == Alone(renderers, Client1(A.Starting, true, A.Idle), [ASK], [OK], 1)
  {
    var n2 := Alone(renderers, Client1(A.Starting, true, A.Idle), [SCHEMA, ASK], [OK], 1);
    assert [SCHEMA, ASK][1..] == [ASK];
    ServeIsAnswer(n2, 0, 2);
    hide Apply;
    assert n2.conns[0 := Answered(n2, 0, 2)] == Alone(renderers, Client1(A.Starting, true, A.Idle), [ASK], [OK], 1).conns;
  }

  /** The client learns its id and asks for the server info. */
  lemma Asks(renderers: nat) returns (steps: seq<Step>)
    ensures IsRun(Start(renderers), steps)
    ensures After(Start(renderers), steps) == Alone(renderers, Client1(A.Starting, true, A.Idle), [ASK], [OK], 1)
  {
    steps := Registered(renderers);
    Introduces(renderers);
    SchemaServed(renderers);
    hide *;
    var n2 := Alone(renderers, Client1(A.Starting, true, A.Idle), [SCHEMA, ASK], [OK], 1);
    steps := Then(renderers, steps, Receive(0), Alone(renderers, A.NEW_CLIENT, [], [OK], 0), n2);
    steps := Then(renderers, steps, Serve(0, 2), n2, Alone(renderers, Client1(A.Starting, true, A.Idle), [ASK], [OK], 1));
  }

  /** The client gets the server info and runs. */
  lemma SetUp(renderers: nat) returns (steps: seq<Step>)
    ensures IsRun(Start(renderers), steps)
    ensures After(Start(renderers), steps) == Alone(renderers, Client1(A.Running, true, A.Idle), [], [OK, INFO], 2)
  {
    steps := Asks(renderers);
    var n3 := Alone(renderers, Client1(A.Starting, true, A.Idle), [ASK], [OK], 1);
    var n4 := Alone(renderers, Client1(A.Starting, true, A.Idle), [], [OK, INFO], 1);
    var n5 := Alone(renderers, Client1(A.Running, true, A.Idle), [], [OK, INFO], 2);
    var none: seq<Message> := [];
    assert [ASK][1..] == none && [OK] + [INFO] == [OK, INFO] && none + none == none;
    ServeIsAnswer(n3, 0, 2);
    assert n3.conns[0 := Answered(n3, 0, 2)] == n4.conns;
    assert Apply(n4, Receive(0)) == n5;
    assert Enabled(n3, Serve(0, 2)) && Enabled(n4, Receive(0));
    hide *;
    steps := Then(renderers, steps, Serve(0, 2), n3, n4);
    steps := Then(renderers, steps, Receive(0), n4, n5);
  }

  /** The client starts to draw. */
  lemma Draws(renderers: nat) returns (steps: seq<Step>)
    ensures IsRun(Start(renderers), steps)
    ensures After(Start(renderers), steps) == Alone(renderers, Client1(A.Running, false, A.Drawing), [], [OK, INFO], 2)
  {
    steps := SetUp(renderers);
    var n5 := Alone(renderers, Client1(A.Running, true, A.Idle), [], [OK, INFO], 2);
    var n6 := Alone(renderers, Client1(A.Running, true, A.Waiting), [], [OK, INFO], 2);
    var n7 := Alone(renderers, Client1(A.Running, false, A.Drawing), [], [OK, INFO], 2);
    var none: seq<Message> := [];
    assert none + none == none;
    assert Apply(n5, Loop(0, true)) == n6;
    assert Apply(n6, Loop(0, true)) == n7;
    assert Enabled(n5, Loop(0, true)) && Enabled(n6, Loop(0, true));
    hide *;
    steps := Then(renderers, steps, Loop(0, true), n5, n6);
    steps := Then(renderers, steps, Loop(0, true), n6, n7);
  }

  /** The first client beside a second one that registered on top of it. */
  function Beside(renderers: nat, client: A.Client, toServer: seq<Message>, log: seq<Message>, read: nat, refused: nat, frames: nat): Net {
    Net([FIRST, SECOND], [Conn(client, toServer, log, read, refused, frames, 1, false), RIVAL], [FIRST, SECOND], renderers)
  }

  /** A second client takes the top while the first is drawing. */
  lemma TakesOver(renderers: nat) returns (steps: seq<Step>)
    ensures IsRun(Start(renderers), steps)
    ensures After(Start(renderers), steps) == Beside(renderers, Client1(A.Running, false, A.Drawing), [], [OK, INFO, PAUSE_FIRST], 2, 0, 0)
  {
    steps := Draws(renderers);
    var n7 := Alone(renderers, Client1(A.Running, false, A.Drawing), [], [OK, INFO], 2);
    var n8 := n7.(conns := n7.conns + [NEW_CONN]);
    var n9 := Beside(renderers, Client1(A.Running, false, A.Drawing), [], [OK, INFO, PAUSE_FIRST], 2, 0, 0);
    assert Apply(n7, Connect) == n8;
    RegisterIs(n8, 1, 2);
    assert [OK, INFO] + [PAUSE_FIRST] == [OK, INFO, PAUSE_FIRST];
    assert MadeRoom(n8)[1 := Confirmed(n8.conns[1], 2)] == n9.conns;
    assert Enabled(n7, Connect) && Enabled(n8, Serve(1, 2)) && Apply(n8, Serve(1, 2)) == n9;
    hide *;
    steps := Then(renderers, steps, Connect, n7, n8);
    steps := Then(renderers, steps, Serve(1, 2), n8, n9);
  }

  /** The first client's frame is refused. */
  lemma IsRefused(renderers: nat) returns (steps: seq<Step>)
    ensures IsRun(Start(renderers), steps)
    ensures After(Start(renderers), steps) ==
            Beside(renderers, Client1(A.Running, false, A.Idle), [], [OK, INFO, PAUSE_FIRST, PAUSE_FIRST], 2, 1, 1)
  {
    steps := TakesOver(renderers);
    var n9 := Beside(renderers, Client1(A.Running, false, A.Drawing), [], [OK, INFO, PAUSE_FIRST], 2, 0, 0);
    var n10 := Beside(renderers, Client1(A.Running, false, A.Idle), [FRAME_FIRST], [OK, INFO, PAUSE_FIRST], 2, 0, 1);
    var n11 := Beside(renderers, Client1(A.Running, false, A.Idle), [], [OK, INFO, PAUSE_FIRST, PAUSE_FIRST], 2, 1, 1);
    assert [] + [FRAME_FIRST] == [FRAME_FIRST];
    assert Apply(n9, Loop(0, true)) == n10;
    ServeIsAnswer(n10, 0, 3);
    assert [FRAME_FIRST][1..] == [] && [OK, INFO, PAUSE_FIRST] + [PAUSE_FIRST] == [OK, INFO, PAUSE_FIRST, PAUSE_FIRST];
    assert n10.conns[0 := Answered(n10, 0, 3)] == n11.conns;
    assert Enabled(n9, Loop(0, true)) && Enabled(n10, Serve(0, 3)) && Apply(n10, Serve(0, 3)) == n11;
    hide *;
    steps := Then(renderers, steps, Loop(0, true), n9, n10);
    steps := Then(renderers, steps, Serve(0, 3), n10, n11);
  }

  const FULL_LOG := [OK, INFO, PAUSE_FIRST, PAUSE_FIRST, RESUME_FIRST]

  /** The first client on top again, its connection as given, the other one dead. */
  function Again(renderers: nat, client: A.Client, toServer: seq<Message>, read: nat): Net {
    Net([FIRST], [Conn(client, toServer, FULL_LOG, read, 1, 1, 1, false), RIVAL.(dead := true)], [FIRST, SECOND], renderers)
  }

  /** The second client's connection dies, and the first application is told to resume. */
  lemma IsResumed(renderers: nat) returns (steps: seq<Step>)
    ensures IsRun(Start(renderers), steps)
    ensures After(Start(renderers), steps) == Again(renderers, Client1(A.Running, false, A.Idle), [], 2)
  {
    steps := IsRefused(renderers);
    var n11 := Beside(renderers, Client1(A.Running, false, A.Idle), [], [OK, INFO, PAUSE_FIRST, PAUSE_FIRST], 2, 1, 1);
    var n12 := n11.(conns := [n11.conns[0], RIVAL.(dead := true)]);
    var n13 := Again(renderers, Client1(A.Running, false, A.Idle), [], 2);
    assert Apply(n11, Die(1)) == n12;
    assert DeadSet(n12.conns) == {1};
    assert n12.apps[..1] == [FIRST] && [FIRST][..0] == [];
    assert S.Alive([FIRST], {1}) == [FIRST];
    assert S.Alive(n12.apps, {1}) == [FIRST];
    var e := S.ToApp(FIRST, AppResume);
    AllLoggedFew(n12.conns, e, e);
    assert S.Ticked(n12.apps, false, {1}).sent == [e];
    assert [OK, INFO, PAUSE_FIRST, PAUSE_FIRST] + [RESUME_FIRST] == FULL_LOG;
    hide AllLogged, S.Alive;
    assert Apply(n12, Tick(false)) == n13;
    assert Enabled(n11, Die(1)) && Enabled(n12, Tick(false));
    hide *;
    steps := Then(renderers, steps, Die(1), n11, n12);
    steps := Then(renderers, steps, Tick(false), n12, n13);
  }

  /** The first client's replies to the two pauses and the resume. */
  const REPLIES := [Message(AppPause, 1, true), Message(AppPause, 1, false), Message(AppResume, 1, true)]

  /** The first client handles one more message of the whole log. */
  lemma HandlesOne(renderers: nat, client: A.Client, next: A.Client, toServer: seq<Message>, reply: Message, read: nat)
    requires read < |FULL_LOG| && !client.joining && A.Handles(client, FULL_LOG[read]) == A.Reaction(next, [reply])
    ensures Enabled(Again(renderers, client, toServer, read), Receive(0))
    ensures Apply(Again(renderers, client, toServer, read), Receive(0)) ==
            Again(renderers, next, toServer + [reply], read + 1)
  {
    hide A.Handles;
  }

  lemma HandlesAll(renderers: nat) returns (steps: seq<Step>)
    ensures IsRun(Start(renderers), steps)
    ensures After(Start(renderers), steps) == Again(renderers, Client1(A.Running, false, A.Idle), REPLIES, 5)
  {
    steps := IsResumed(renderers);
    var running, paused := Client1(A.Running, false, A.Idle), Client1(A.Paused, false, A.Idle);
    var n13 := Again(renderers, running, [], 2);
    var n14 := Again(renderers, paused, [] + [REPLIES[0]], 3);
    var n15 := Again(renderers, paused, [] + [REPLIES[0]] + [REPLIES[1]], 4);
    var n16 := Again(renderers, running, REPLIES, 5);
    assert [] + [REPLIES[0]] + [REPLIES[1]] + [REPLIES[2]] == REPLIES;
    assert FULL_LOG[2] == FULL_LOG[3] == PAUSE_FIRST && FULL_LOG[4] == RESUME_FIRST;
    hide Enabled, Apply, IsRun, After, Again;
    HandlesOne(renderers, running, paused, [], REPLIES[0], 2);
    HandlesOne(renderers, paused, paused, [] + [REPLIES[0]], REPLIES[1], 3);
    HandlesOne(renderers, paused, running, [] + [REPLIES[0]] + [REPLIES[1]], REPLIES[2], 4);
    steps := Then(renderers, steps, Receive(0), n13, n14);
    steps := Then(renderers, steps, Receive(0), n14, n15);
    steps := Then(renderers, steps, Receive(0), n15, n16);
  }

  /** The application on top has handled everything sent to it, the last of it a resume, and is running;
      but in every continuation of this run it sends no further frame. */
  lemma ResumedButSilent(renderers: nat) returns (steps: seq<Step>)
    ensures IsRun(Start(renderers), steps)
    ensures var n := After(Start(renderers), steps);
            && n.apps == [FIRST] && |n.conns| == 2 && n.conns[0].read == |n.conns[0].log| && n.conns[0].client.state == A.Running
            && Standing(n.conns[0].log) == AppResume && !n.conns[0].dead
    ensures forall later | IsRun(After(Start(renderers), steps), later) ::
              var m := After(After(Start(renderers), steps), later);
              |m.conns| > 0 && m.conns[0].frames == After(Start(renderers), steps).conns[0].frames
  {
    steps := HandlesAll(renderers);
    var n := Again(renderers, Client1(A.Running, false, A.Idle), REPLIES, 5);
    assert Spent(n.conns[0]);
    hide IsRun, After, Spent;
    forall later | IsRun(n, later)
      ensures |After(n, later).conns| > 0 && After(n, later).conns[0].frames == n.conns[0].frames
    {
      SpentForGood(n, later, 0);
    }
  }

  // ----- Running below the top -----

  /** The first client, asking for the server info when the second one takes the top. */
  function Asking(renderers: nat, client: A.Client, toServer: seq<Message>, log: seq<Message>, read: nat): Net {
    Net([FIRST, SECOND], [Conn(client, toServer, log, read, 0, 0, 1, false), RIVAL], [FIRST, SECOND], renderers)
  }

  lemma InfoAfterPause(renderers: nat) returns (steps: seq<Step>)
    ensures IsRun(Start(renderers), steps)
    ensures After(Start(renderers), steps) ==
            Asking(renderers, Client1(A.Starting, true, A.Idle), [], [OK, PAUSE_FIRST, INFO], 1)
  {
    steps := Asks(renderers);
    var n3 := Alone(renderers, Client1(A.Starting, true, A.Idle), [ASK], [OK], 1);
    var n4 := n3.(conns := n3.conns + [NEW_CONN]);
    var n5 := Asking(renderers, Client1(A.Starting, true, A.Idle), [ASK], [OK, PAUSE_FIRST], 1);
    var n6 := Asking(renderers, Client1(A.Starting, true, A.Idle), [], [OK, PAUSE_FIRST, INFO], 1);
    assert Apply(n3, Connect) == n4;
    RegisterIs(n4, 1, 2);
    assert [OK] + [PAUSE_FIRST] == [OK, PAUSE_FIRST] && [OK, PAUSE_FIRST] + [INFO] == [OK, PAUSE_FIRST, INFO];
    assert MadeRoom(n4)[1 := Confirmed(n4.conns[1], 2)] == n5.conns;
    assert Enabled(n3, Connect) && Enabled(n4, Serve(1, 2)) && Apply(n4, Serve(1, 2)) == n5;
    ServeIsAnswer(n5, 0, 3);
    assert [ASK][1..] == [] && n5.conns[0 := Answered(n5, 0, 3)] == n6.conns;
    assert Enabled(n5, Serve(0, 3)) && Apply(n5, Serve(0, 3)) == n6;
    hide *;
    steps := Then(renderers, steps, Connect, n3, n4);
    steps := Then(renderers, steps, Serve(1, 2), n4, n5);
    steps := Then(renderers, steps, Serve(0, 3), n5, n6);
  }

  /** An application that is not on top and has handled everything sent to it can be running: the pause met
      it before the server info did, which starts it whatever came before. */
  lemma RunsBelowTheTop(renderers: nat) returns (steps: seq<Step>)
    ensures IsRun(Start(renderers), steps)
    ensures var n := After(Start(renderers), steps);
            && n.apps == [FIRST, SECOND] && |n.conns| == 2 && !n.conns[0].dead && n.conns[0].appId == FIRST.id
            && n.conns[0].read == |n.conns[0].log| && Standing(n.conns[0].log) == AppPause
            && n.conns[0].client.state == A.Running
  {
    steps := InfoAfterPause(renderers);
    var no := Message(AppPause, 1, false);
    var n6 := Asking(renderers, Client1(A.Starting, true, A.Idle), [], [OK, PAUSE_FIRST, INFO], 1);
    var n7 := Asking(renderers, Client1(A.Starting, true, A.Idle), [no], [OK, PAUSE_FIRST, INFO], 2);
    var n8 := Asking(renderers, Client1(A.Running, true, A.Idle), [no], [OK, PAUSE_FIRST, INFO], 3);
    assert [] + [no] == [no] && [no] + [] == [no];
    assert Enabled(n6, Receive(0)) && Apply(n6, Receive(0)) == n7;
    assert Enabled(n7, Receive(0)) && Apply(n7, Receive(0)) == n8;
    assert [OK, PAUSE_FIRST, INFO] == [OK] + [PAUSE_FIRST] + [INFO];
    StandingSnoc([OK] + [PAUSE_FIRST], INFO);
    StandingSnoc([OK], PAUSE_FIRST);
    hide Apply, IsRun, After, Standing;
    steps := Then(renderers, steps, Receive(0), n6, n7);
    steps := Then(renderers, steps, Receive(0), n7, n8);
  }

  // ----- What a client was told and what it asked for -----

  /** A client that handled no kill waits for no thread to end and answered none. Once it knows its id its
      request for the server info, or the answer, is on the way. */
  ghost predicate Tame(conn: Conn) {
    && conn.read <= |conn.log|
    && (Count(AppKill, conn.log[..conn.read]) == 0 ==> !conn.client.joining && !Has(AppKill, conn.toServer))
    && (conn.read > 0 ==> Has(GetServerInfo, conn.toServer) || Has(GetServerInfo, conn.log))
  }

  ghost predicate AllTame(n: Net) {
    Holds(n) && forall c | 0 <= c < |n.conns| :: Tame(n.conns[c])
  }

  lemma LoggedTame(conn: Conn, log: seq<Message>)
    requires Tame(conn) && conn.log <= log
    ensures Tame(conn.(log := log))
  {
    assert log[..conn.read] == conn.log[..conn.read];
    assert forall m | m in conn.log :: m in log;
  }

  lemma RepliesTame(client: A.Client, m: Message)
    ensures m.kind != AppKill ==>
              !Has(AppKill, A.Handles(client, m).sent) && A.Handles(client, m).client.joining == client.joining
    ensures m.kind == RegisterApp && m.success ==> Has(GetServerInfo, A.Handles(client, m).sent)
  {
    var sent := A.Handles(client, m).sent;
    if m.kind == RegisterApp && m.success {
      assert sent[1] in sent && sent[1].kind == GetServerInfo;
    }
  }

  lemma ToldIs(conn: Conn)
    requires conn.read < |conn.log|
    ensures Told(conn) == conn.(client := A.Handles(conn.client, conn.log[conn.read]).client, read := conn.read + 1)
  {
  }

  lemma FirstIsConfirmation(conn: Conn)
    requires ConnHolds(conn) && conn.read == 0 < |conn.log|
    ensures conn.log[0].kind == RegisterApp && conn.log[0].success
  {
    hide InStep;
  }

  lemma ReceivedTame(conn: Conn)
    requires Tame(conn) && ConnHolds(conn) && conn.read < |conn.log|
    ensures Tame(Told(conn).(toServer := conn.toServer + A.Handles(conn.client, conn.log[conn.read]).sent))
  {
    hide ConnHolds, Count, A.Handles, Has, Told;
    ToldIs(conn);
    var m := conn.log[conn.read];
    var sent := A.Handles(conn.client, m).sent;
    if conn.read == 0 {
      FirstIsConfirmation(conn);
    }
    assert conn.log[..conn.read + 1] == conn.log[..conn.read] + [m];
    CountSnoc(AppKill, conn.log[..conn.read], m);
    RepliesTame(conn.client, m);
    HasAppend(AppKill, conn.toServer, sent);
    HasAppend(GetServerInfo, conn.toServer, sent);
  }

  lemma MovedTame(conn: Conn, loops: bool)
    requires Tame(conn)
    ensures Tame(Moved(conn, loops).(toServer := conn.toServer + A.Loops(conn.client, loops).sent))
  {
    hide Count;
    var all := conn.toServer + A.Loops(conn.client, loops).sent;
    assert forall r | r in conn.toServer :: r in all;
    assert forall r | r in all :: r in conn.toServer || r.kind == SetScreenFrame;
  }

  /** The server takes a request and answers it, a question for its info with the info. */
  lemma TakenTame(conn: Conn, newId: int, refused: bool, log: seq<Message>)
    requires Tame(conn) && conn.toServer != [] && conn.log <= log
    requires conn.toServer[0].kind == GetServerInfo ==> Has(GetServerInfo, log)
    ensures Tame(Taken(conn, newId, refused).(log := log))
  {
    LoggedTame(conn, log);
    hide Count;
    assert forall r | r in conn.toServer[1..] :: r in conn.toServer;
    assert forall r | r in conn.toServer :: r == conn.toServer[0] || r in conn.toServer[1..];
  }

  lemma ServedTame(n: Net, c: nat, newId: int)
    requires AllTame(n) && Enabled(n, Serve(c, newId))
    ensures |Apply(n, Serve(c, newId)).conns| == |n.conns|
    ensures forall i | 0 <= i < |n.conns| :: Tame(Apply(n, Serve(c, newId)).conns[i])
  {
    var m := n.conns[c].toServer[0];
    var out := S.Handled(n.apps, c, m, newId, n.renderers);
    var refused := Refuses(n.apps, m);
    var taken := n.conns[c := Taken(n.conns[c], newId, refused)];
    var after := AllLogged(taken, out.sent);
    AllLoggedKeepsClients(taken, out.sent);
    assert Apply(n, Serve(c, newId)).conns == after;
    if m.kind == GetServerInfo {
      var e := Envelope(c, Message(GetServerInfo, 0, false));
      AllLoggedFew(taken, e, e);
      assert after[c].log == n.conns[c].log + [e.message];
      assert e.message in after[c].log;
    }
    hide Apply, AllLogged, Count, S.Handled, Holds;
    TakenTame(n.conns[c], newId, refused, after[c].log);
    forall i | 0 <= i < |n.conns|
      ensures Tame(after[i])
    {
      assert after[i] == taken[i].(log := after[i].log);
      if i != c {
        LoggedTame(n.conns[i], after[i].log);
      }
    }
  }

  lemma TickedTame(n: Net, killPressed: bool)
    requires AllTame(n)
    ensures |Apply(n, Tick(killPressed)).conns| == |n.conns|
    ensures forall i | 0 <= i < |n.conns| :: Tame(Apply(n, Tick(killPressed)).conns[i])
  {
    var sent := S.Ticked(n.apps, killPressed, DeadSet(n.conns)).sent;
    var after := AllLogged(n.conns, sent);
    assert Apply(n, Tick(killPressed)).conns == after;
    hide Apply, AllLogged, Tame, Holds, S.Ticked, DeadSet;
    AllLoggedKeepsClients(n.conns, sent);
    forall i | 0 <= i < |n.conns|
      ensures Tame(after[i])
    {
      assert after[i] == n.conns[i].(log := after[i].log);
      LoggedTame(n.conns[i], after[i].log);
    }
  }

  lemma NewTame()
    ensures Tame(NEW_CONN)
  {
  }

  lemma StepTame(n: Net, step: Step)
    requires AllTame(n) && Enabled(n, step)
    ensures AllTame(Apply(n, step))
  {
    StepKeeps(n, step);
    NewTame();
    hide Holds, ConnHolds;
    match step
    case Connect =>
    case Tick(killPressed) => TickedTame(n, killPressed);
    case Serve(c, newId) => ServedTame(n, c, newId);
    case Receive(c) =>
      ConnOf(n, c);
      ReceivedTame(n.conns[c]);
    case Loop(c, loops) => MovedTame(n.conns[c], loops);
    case Die(c) =>
  }

  lemma ConnOf(n: Net, c: nat)
    requires Holds(n) && c < |n.conns|
    ensures ConnHolds(n.conns[c])
  {
  }

  lemma {:induction false} RunTame(n: Net, steps: seq<Step>)
    requires AllTame(n) && IsRun(n, steps)
    ensures AllTame(After(n, steps))
    decreases |steps|
  {
    if steps != [] {
      StepTame(n, steps[0]);
      RunTame(Apply(n, steps[0]), steps[1..]);
    }
  }

  // ----- When the application on top can draw again -----

  /** The application of connection `c` is on top, its connection is alive, its drawing thread has not
      ended, and it was never sent a kill. */
  ghost predicate OnTop(n: Net, c: nat) {
    && c < |n.conns| && n.apps != [] && S.Top(n.apps).connection == c
    && !n.conns[c].dead && n.conns[c].client.stage != A.Done && Count(AppKill, n.conns[c].log) == 0
  }

  ghost predicate CanDraw(n: Net, c: nat) {
    exists steps :: DrawsIn(n, steps, c)
  }

  ghost predicate DrawsIn(n: Net, steps: seq<Step>, c: nat) {
    c < |n.conns| && IsRun(n, steps) && c < |After(n, steps).conns| && After(n, steps).conns[c].frames > n.conns[c].frames
  }

  /** What can be drawn after a step that draws nothing could be drawn before it. */
  lemma CanDrawBefore(n: Net, step: Step, c: nat)
    requires Enabled(n, step) && c < |n.conns| && CanDraw(Apply(n, step), c)
    requires c < |Apply(n, step).conns| && Apply(n, step).conns[c].frames >= n.conns[c].frames
    ensures CanDraw(n, c)
  {
    var next := Apply(n, step);
    var steps :| DrawsIn(next, steps, c);
    var all := [step] + steps;
    assert all[1..] == steps;
    assert IsRun(n, all) && After(n, all) == After(next, steps);
    hide Apply, Enabled;
    assert DrawsIn(n, all, c);
  }

  /** What the handler of the application on top can still be told: nothing it was sent is a kill. */
  lemma NotJoining(n: Net, c: nat)
    requires AllTame(n) && OnTop(n, c)
    ensures n.conns[c].read <= |n.conns[c].log|
    ensures !n.conns[c].client.joining && !Has(AppKill, n.conns[c].toServer)
    ensures n.conns[c].read < |n.conns[c].log| ==> n.conns[c].log[n.conns[c].read].kind != AppKill
  {
    var conn := n.conns[c];
    assert Tame(conn);
    CountPrefix(AppKill, conn.log, conn.read);
    if conn.read < |conn.log| {
      CountPrefix(AppKill, conn.log, conn.read + 1);
      assert conn.log[..conn.read + 1] == conn.log[..conn.read] + [conn.log[conn.read]];
      CountSnoc(AppKill, conn.log[..conn.read], conn.log[conn.read]);
    }
    hide Holds, Count, Has;
  }

  /** The messages still to be handled are server infos and acknowledgements only, which are not
      answered. */
  ghost predicate Calm(n: Net, c: nat) {
    && c < |n.conns|
    && forall i | n.conns[c].read <= i < |n.conns[c].log| ::
         n.conns[c].log[i].kind == GetServerInfo || n.conns[c].log[i].kind == SetScreenFrame
  }

  lemma ReceiveOnTop(n: Net, c: nat)
    requires AllTame(n) && OnTop(n, c) && n.conns[c].read < |n.conns[c].log|
    ensures Enabled(n, Receive(c)) && AllTame(Apply(n, Receive(c))) && OnTop(Apply(n, Receive(c)), c)
    ensures Calm(n, c) ==> Calm(Apply(n, Receive(c)), c)
    ensures var conn, next := n.conns[c], Apply(n, Receive(c)).conns[c];
            && next.log == conn.log && next.read == conn.read + 1 && next.frames == conn.frames
            && (Calm(n, c) ==> next.toServer == conn.toServer)
            && (HasRight(conn) ==> HasRight(next))
    ensures Apply(n, Receive(c)).renderers == n.renderers
  {
    NotJoining(n, c);
    StepTame(n, Receive(c));
    var conn := n.conns[c];
    hide AllTame, Count, HasRight;
    ReceivedAs(conn);
    if HasRight(conn) {
      RightReceived(conn);
    }
    hide A.Handles, Told;
  }

  /** What handling a message changes of a connection. */
  lemma ReceivedAs(conn: Conn)
    requires conn.read < |conn.log| && conn.client.stage != A.Done
    ensures var m, sent := conn.log[conn.read], A.Handles(conn.client, conn.log[conn.read]).sent;
            && Told(conn).(client := conn.client, read := conn.read) == conn && Told(conn).read == conn.read + 1
            && Told(conn).client.stage == conn.client.stage
            && (m.kind == GetServerInfo || m.kind == SetScreenFrame ==> conn.toServer + sent == conn.toServer)
  {
    assert conn.toServer + [] == conn.toServer;
  }

  lemma RightReceived(conn: Conn)
    requires conn.read < |conn.log| && HasRight(conn)
    ensures HasRight(Told(conn).(toServer := conn.toServer + A.Handles(conn.client, conn.log[conn.read]).sent))
  {
    var m := conn.log[conn.read];
    HandledAs(conn.client, m);
    HasAppend(SetScreenFrame, conn.toServer, A.Handles(conn.client, m).sent);
    assert conn.log[conn.read..] == [m] + conn.log[conn.read + 1..];
    HasAppend(SetScreenFrame, [m], conn.log[conn.read + 1..]);
    hide A.Handles;
  }

  lemma {:induction false} FreshId(registered: seq<S.App>) returns (id: int)
    ensures id > 0 && forall a | a in registered :: a.id < id
  {
    if registered == [] {
      id := 1;
    } else {
      var last := registered[|registered| - 1];
      var before := FreshId(registered[..|registered| - 1]);
      id := if last.id < before then before else last.id + 1;
    }
  }

  /** What the server answers to a request of the application on top. */
  function Answer(m: Message, renderers: nat): seq<Message> {
    match m.kind
    case GetServerInfo => [Message(GetServerInfo, 0, false)]
    case SetScreenFrame => seq(renderers, _ => ACK)
    case _ => []
  }

  lemma AnswerIs(n: Net, c: nat, newId: int)
    requires Enabled(n, Serve(c, newId)) && n.apps != []
    requires var m := n.conns[c].toServer[0]; m.kind != RegisterApp && m.appId == S.Top(n.apps).id
    ensures var conn := n.conns[c];
            Answered(n, c, newId) ==
            conn.(toServer := conn.toServer[1..], log := conn.log + Answer(conn.toServer[0], n.renderers))
  {
    var conn := n.conns[c];
    assert conn.log + [] == conn.log;
    assert !Refuses(n.apps, conn.toServer[0]);
  }

  lemma AnswerOnTop(conn: Conn, next: Conn, renderers: nat)
    requires conn.toServer != []
    requires next == conn.(toServer := conn.toServer[1..], log := conn.log + Answer(conn.toServer[0], renderers))
    ensures conn.log <= next.log && Count(AppKill, next.log) == Count(AppKill, conn.log)
    ensures forall i | |conn.log| <= i < |next.log| :: next.log[i].kind == GetServerInfo || next.log[i].kind == SetScreenFrame
    ensures conn.toServer[0].kind == SetScreenFrame && renderers > 0 ==> Has(SetScreenFrame, next.log[|conn.log|..])
  {
    var more := Answer(conn.toServer[0], renderers);
    AnswerKinds(conn.toServer[0], renderers);
    hide Answer, Count, Has;
    CountNone(AppKill, more);
    CountAppend(AppKill, conn.log, more);
    assert next.log[|conn.log|..] == more;
    assert forall i | |conn.log| <= i < |next.log| :: next.log[i] == more[i - |conn.log|];
  }

  lemma AnswerKinds(m: Message, renderers: nat)
    ensures var more := Answer(m, renderers);
            && (forall i | 0 <= i < |more| :: more[i].kind == GetServerInfo || more[i].kind == SetScreenFrame)
            && (m.kind == SetScreenFrame && renderers > 0 ==> Has(SetScreenFrame, more))
  {
    var more := Answer(m, renderers);
    if m.kind == SetScreenFrame && renderers > 0 {
      assert more[0] in more;
    }
  }

  lemma RightServed(conn: Conn, next: Conn)
    requires conn.read <= |conn.log| && HasRight(conn) && conn.toServer != []
    requires next.client == conn.client && next.read == conn.read && next.toServer == conn.toServer[1..] && conn.log <= next.log
    requires conn.toServer[0].kind == SetScreenFrame ==> Has(SetScreenFrame, next.log[|conn.log|..])
    ensures HasRight(next)
  {
    var more := next.log[|conn.log|..];
    assert next.log == conn.log + more && next.log[conn.read..] == conn.log[conn.read..] + more;
    HasAppend(SetScreenFrame, conn.log[conn.read..], more);
    assert conn.toServer == [conn.toServer[0]] + conn.toServer[1..];
    HasAppend(SetScreenFrame, [conn.toServer[0]], conn.toServer[1..]);
  }

  lemma TopStays(n: Net, c: nat, newId: int)
    requires Enabled(n, Serve(c, newId)) && n.apps != [] && S.Top(n.apps).connection == c
    requires var m := n.conns[c].toServer[0];
             m.kind != RegisterApp && m.kind != AppKill && m.appId == S.TopId(n.apps) > 0
    ensures var next := Apply(n, Serve(c, newId));
            && next.apps != [] && S.Top(next.apps).connection == c
            && next.conns == n.conns[c := Answered(n, c, newId)] && next.renderers == n.renderers
  {
    ServeIsAnswer(n, c, newId);
    var m := n.conns[c].toServer[0];
    WithStateFacts(n.apps, m.appId, S.Paused);
    WithStateFacts(n.apps, m.appId, S.Running);
    hide Apply, Answered, S.WithState;
  }

  lemma ServeOnTop(n: Net, c: nat, newId: int)
    requires AllTame(n) && OnTop(n, c) && Calm(n, c) && n.conns[c].toServer != [] && Enabled(n, Serve(c, newId))
    ensures AllTame(Apply(n, Serve(c, newId))) && OnTop(Apply(n, Serve(c, newId)), c) && Calm(Apply(n, Serve(c, newId)), c)
    ensures var conn, next := n.conns[c], Apply(n, Serve(c, newId)).conns[c];
            && |next.toServer| == |conn.toServer| - 1 && next.frames == conn.frames
            && (HasRight(conn) && n.renderers > 0 ==> HasRight(next))
    ensures Apply(n, Serve(c, newId)).renderers == n.renderers
  {
    StepTame(n, Serve(c, newId));
    NotJoining(n, c);
    MessageOf(n, c);
    assert n.conns[c].toServer[0] in n.conns[c].toServer;
    AnswerIs(n, c, newId);
    AnswerOnTop(n.conns[c], Answered(n, c, newId), n.renderers);
    TopStays(n, c, newId);
    hide AllTame, Apply, Enabled, Answered, Count;
    if HasRight(n.conns[c]) && n.renderers > 0 {
      RightServed(n.conns[c], Answered(n, c, newId));
    }
    hide HasRight, Has;
  }

  lemma MessageOf(n: Net, c: nat)
    requires Holds(n) && c < |n.conns| && n.conns[c].toServer != []
    requires n.apps != [] && S.Top(n.apps).connection == c
    ensures var m := n.conns[c].toServer[0]; m.kind != RegisterApp && m.appId == S.TopId(n.apps) > 0
    ensures n.conns[c].appId != 0
  {
    assert ConnHolds(n.conns[c]) && n.conns[c].toServer[0] in n.conns[c].toServer && S.Top(n.apps) in n.apps;
    hide Standing, InStep;
  }

  /** Once it has handled everything sent to it and been answered, the application on top is running. */
  lemma DrainedRuns(n: Net, c: nat)
    requires AllTame(n) && OnTop(n, c) && n.conns[c].toServer == [] && n.conns[c].read == |n.conns[c].log|
    ensures n.conns[c].client.state == A.Running
  {
    var conn := n.conns[c];
    assert Tame(conn) && ConnHolds(conn) && S.Top(n.apps) in n.apps;
    assert conn.appId != 0;
    CountSome(GetServerInfo, conn.log);
    StateOfLog(conn.log);
    assert conn.log[..conn.read] == conn.log;
    hide Count, StateAfter, LastWord, Standing;
  }

  function Rank(stage: A.Stage): nat {
    match stage
    case Idle => 3
    case Waiting => 2
    case Drawing => 1
    case Done => 0
  }

  lemma LoopOnTop(n: Net, c: nat)
    requires AllTame(n) && OnTop(n, c) && HasRight(n.conns[c])
    requires n.conns[c].toServer == [] && n.conns[c].read == |n.conns[c].log|
    ensures var next := Apply(n, Loop(c, true));
            && Enabled(n, Loop(c, true)) && next.renderers == n.renderers
            && if n.conns[c].client.stage == A.Drawing then next.conns[c].frames == n.conns[c].frames + 1
               else AllTame(next) && OnTop(next, c) && next.conns[c].toServer == []
                    && next.conns[c].read == |next.conns[c].log| && next.conns[c].frames == n.conns[c].frames
                    && HasRight(next.conns[c]) && Rank(next.conns[c].client.stage) < Rank(n.conns[c].client.stage)
  {
    StepTame(n, Loop(c, true));
    DrainedRuns(n, c);
    var conn := n.conns[c];
    assert conn.log[conn.read..] == [];
    assert conn.toServer + [] == conn.toServer;
    hide AllTame, Count;
  }

  lemma {:induction false} CalmCanDraw(n: Net, c: nat)
    requires AllTame(n) && OnTop(n, c) && Calm(n, c) && HasRight(n.conns[c]) && n.renderers > 0
    ensures CanDraw(n, c)
    decreases |n.conns[c].toServer|, |n.conns[c].log| - n.conns[c].read, Rank(n.conns[c].client.stage)
  {
    if n.conns[c].read < |n.conns[c].log| {
      ReceiveOnTop(n, c);
      hide AllTame, OnTop, Calm, HasRight, Apply, Enabled;
      CalmCanDraw(Apply(n, Receive(c)), c);
      CanDrawBefore(n, Receive(c), c);
    } else if n.conns[c].toServer != [] {
      var newId := FreshId(n.registered);
      assert Enabled(n, Serve(c, newId));
      ServeOnTop(n, c, newId);
      hide AllTame, OnTop, Calm, HasRight, Apply, Enabled;
      CalmCanDraw(Apply(n, Serve(c, newId)), c);
      CanDrawBefore(n, Serve(c, newId), c);
    } else {
      NotJoining(n, c);
      LoopOnTop(n, c);
      var next := Apply(n, Loop(c, true));
      hide AllTame, OnTop, HasRight, Apply, Enabled;
      if n.conns[c].client.stage == A.Drawing {
        DrawsAtOnce(n, Loop(c, true), c);
      } else {
        CalmCanDraw(next, c);
        CanDrawBefore(n, Loop(c, true), c);
      }
    }
  }

  lemma DrawsAtOnce(n: Net, step: Step, c: nat)
    requires Enabled(n, step) && c < |n.conns| && c < |Apply(n, step).conns|
    requires Apply(n, step).conns[c].frames > n.conns[c].frames
    ensures CanDraw(n, c)
  {
    var steps := [step];
    assert steps[1..] == [] && IsRun(Apply(n, step), steps[1..]) && After(Apply(n, step), steps[1..]) == Apply(n, step);
    assert IsRun(n, steps) && After(n, steps) == Apply(n, step);
    hide Apply, Enabled;
    assert DrawsIn(n, steps, c);
  }

  /** First the client handles all it was sent, whatever that is; from then on the server's answers call for
      no further replies. */
  lemma {:induction false} RightCanDraw(n: Net, c: nat)
    requires AllTame(n) && OnTop(n, c) && HasRight(n.conns[c]) && n.renderers > 0
    ensures CanDraw(n, c)
    decreases |n.conns[c].log| - n.conns[c].read
  {
    if n.conns[c].read < |n.conns[c].log| {
      ReceiveOnTop(n, c);
      hide AllTame, OnTop, Calm, HasRight, Apply, Enabled;
      RightCanDraw(Apply(n, Receive(c)), c);
      CanDrawBefore(n, Receive(c), c);
    } else {
      hide AllTame, HasRight;
      CalmCanDraw(n, c);
    }
  }

  /** In every reachable state, with one or more renderers, an application on top that was never sent a
      kill and whose drawing thread has not ended can send another frame exactly if it has an
      acknowledgement at hand or on the way, or a frame being drawn or on its way to be acknowledged. */
  lemma DrawsAgainIffRightLeft(renderers: nat, before: seq<Step>, c: nat)
    requires renderers > 0 && IsRun(Start(renderers), before) && OnTop(After(Start(renderers), before), c)
    ensures var n := After(Start(renderers), before);
            n.conns[c].read <= |n.conns[c].log| && (CanDraw(n, c) <==> HasRight(n.conns[c]))
  {
    var n := After(Start(renderers), before);
    RunTame(Start(renderers), before);
    RunBalanced(Start(renderers), before);
    hide AllTame, Apply, Enabled;
    if HasRight(n.conns[c]) {
      RightCanDraw(n, c);
    } else if CanDraw(n, c) {
      var later :| DrawsIn(n, later, c);
      SpentForGood(n, later, c);
    }
  }

  /** With one renderer that is the case exactly if none of its frames was ever refused. */
  lemma DrawsAgainIffNeverRefused(before: seq<Step>, c: nat)
    requires IsRun(Start(1), before) && OnTop(After(Start(1), before), c)
    ensures CanDraw(After(Start(1), before), c) <==> After(Start(1), before).conns[c].refused == 0
  {
    DrawsAgainIffRightLeft(1, before, c);
    RefusedIsSpent(before, c);
  }

  // ----- When a killed application ends -----

  ghost predicate CanEnd(n: Net, c: nat) {
    exists steps :: EndsIn(n, steps, c)
  }

  ghost predicate EndsIn(n: Net, steps: seq<Step>, c: nat) {
    IsRun(n, steps) && c < |After(n, steps).conns| && After(n, steps).conns[c].client.stage == A.Done
  }

  lemma CanEndBefore(n: Net, step: Step, c: nat)
    requires Enabled(n, step) && CanEnd(Apply(n, step), c)
    ensures CanEnd(n, c)
  {
    var next := Apply(n, step);
    var steps :| EndsIn(next, steps, c);
    var all := [step] + steps;
    assert all[1..] == steps;
    assert IsRun(n, all) && After(n, all) == After(next, steps);
    hide Apply, Enabled;
    assert EndsIn(n, all, c);
  }

  lemma {:induction false} KilledCanEnd(n: Net, c: nat)
    requires c < |n.conns| && !n.conns[c].dead && n.conns[c].client.state == A.Killed
    requires n.conns[c].client.stage == A.Waiting ==> n.conns[c].client.frameAcked
    ensures CanEnd(n, c)
    decreases Rank(n.conns[c].client.stage)
  {
    if n.conns[c].client.stage == A.Done {
      assert EndsIn(n, [], c);
    } else {
      KilledCanEnd(Apply(n, Loop(c, true)), c);
      CanEndBefore(n, Loop(c, true), c);
    }
  }

  /** A killed application ends, in some continuation, exactly if its drawing thread was not waiting for an
      acknowledgement when the kill was handled: if it was, the handler waits for the thread and the thread
      for a message only the handler could take. */
  lemma KillEndsIffNotWaiting(n: Net, c: nat)
    requires Enabled(n, Receive(c)) && n.conns[c].log[n.conns[c].read].kind == AppKill
    ensures CanEnd(Apply(n, Receive(c)), c) <==>
            !(n.conns[c].client.stage == A.Waiting && !n.conns[c].client.frameAcked)
  {
    var next := Apply(n, Receive(c));
    if n.conns[c].client.stage == A.Waiting && !n.conns[c].client.frameAcked {
      if CanEnd(next, c) {
        var steps :| EndsIn(next, steps, c);
        KilledWhileWaitingHangs(next, steps, c);
      }
    } else {
      KilledCanEnd(next, c);
    }
  }

  /** The first client sent its first frame and waits for the acknowledgement, killed or not. */
  function Awaits(renderers: nat, state: A.AppState, killed: bool, log: seq<Message>, read: nat, more: seq<Message>): Net {
    Net([FIRST], [Conn(A.Client(state, 1, false, A.Waiting, killed), [FRAME_FIRST] + more, log, read, 0, 1, 1, false)],
        [FIRST], renderers)
  }

  lemma SendsFirstFrame(renderers: nat) returns (steps: seq<Step>)
    ensures IsRun(Start(renderers), steps)
    ensures After(Start(renderers), steps) == Awaits(renderers, A.Running, false, [OK, INFO], 2, [])
  {
    steps := Draws(renderers);
    var n7 := Alone(renderers, Client1(A.Running, false, A.Drawing), [], [OK, INFO], 2);
    var n8 := n7.(conns := [n7.conns[0].(client := Client1(A.Running, false, A.Idle), toServer := [FRAME_FIRST], frames := 1)]);
    var n9 := Awaits(renderers, A.Running, false, [OK, INFO], 2, []);
    assert [] + [FRAME_FIRST] == [FRAME_FIRST] && [FRAME_FIRST] + [] == [FRAME_FIRST];
    assert Apply(n7, Loop(0, true)) == n8 && Enabled(n7, Loop(0, true));
    assert Apply(n8, Loop(0, true)) == n9 && Enabled(n8, Loop(0, true));
    hide *;
    steps := Then(renderers, steps, Loop(0, true), n7, n8);
    steps := Then(renderers, steps, Loop(0, true), n8, n9);
  }

  /** An application is killed in the ordinary course, none of its frames refused, while it waits for the
      acknowledgement of the one it just sent: in no continuation does it end. */
  lemma KilledInTheOrdinaryCourse(renderers: nat) returns (steps: seq<Step>)
    ensures IsRun(Start(renderers), steps)
    ensures var n := After(Start(renderers), steps);
            && |n.conns| == 1 && n.conns[0].client.state == A.Killed && n.conns[0].refused == 0 && !n.conns[0].dead
            && n.conns[0].toServer != [] && n.conns[0].toServer[0] == FRAME_FIRST
            && !CanEnd(n, 0)
  {
    steps := SendsFirstFrame(renderers);
    var kill, killed := Message(AppKill, 0, false), Message(AppKill, 1, true);
    var n9 := Awaits(renderers, A.Running, false, [OK, INFO], 2, []);
    var n10 := Awaits(renderers, A.Running, false, [OK, INFO, kill], 2, []);
    var n11 := Awaits(renderers, A.Killed, true, [OK, INFO, kill], 3, [killed]);
    assert [OK, INFO] + [kill] == [OK, INFO, kill] && [FRAME_FIRST] + [] + [killed] == [FRAME_FIRST] + [killed];
    KillPressed(n9);
    assert Apply(n10, Receive(0)) == n11 && Enabled(n10, Receive(0));
    KillEndsIffNotWaiting(n10, 0);
    assert n11.conns[0].toServer[0] == FRAME_FIRST;
    hide Apply, Enabled, IsRun, After, CanEnd;
    steps := Then(renderers, steps, Tick(true), n9, n10);
    steps := Then(renderers, steps, Receive(0), n10, n11);
  }

  /** The button is pressed while the first application is alone and alive. */
  lemma KillPressed(n: Net)
    requires n.apps == [FIRST] && |n.conns| == 1 && !n.conns[0].dead
    ensures Enabled(n, Tick(true))
    ensures Apply(n, Tick(true)) == n.(conns := [n.conns[0].(log := n.conns[0].log + [Message(AppKill, 0, false)])])
  {
    var e := Envelope(0, Message(AppKill, 0, false));
    AllLoggedFew(n.conns, e, e);
    assert DeadSet(n.conns) == {};
    assert [FIRST][..0] == [];
    assert S.Alive([FIRST], {}) == [FIRST];
    assert S.Ticked(n.apps, true, {}).sent == [e] + [];
    assert [e] + [] == [e];
    hide AllLogged, S.Alive;
  }
}
