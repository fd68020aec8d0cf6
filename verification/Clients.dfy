/**
  What the server and a client can take from each other's messages: a client that does not run begins no
  frame, a killed one says so and leaves the stack, a kill goes to the application on top only, and the
  server's record of an application is the last word it sent, once that is answered.
 */
module Clients {
  import opened Messages
  import opened Protocol

  // ----- A client that does not run draws nothing -----

  /** What a step of others leaves of a connection: its client, and of what it sent all but perhaps the
      oldest message, which was served. */
  ghost predicate Left(was: Conn, now: Conn) {
    && now.client == was.client && now.frames == was.frames && now.read == was.read
    && was.log <= now.log && (now.toServer == was.toServer || (was.toServer != [] && now.toServer == was.toServer[1..]))
  }

  /** Every step but a message handled by the client and a step of its drawing thread. */
  lemma OthersLeave(n: Net, step: Step, c: nat)
    requires Enabled(n, step) && c < |n.conns|
    requires step != Receive(c) && !(step.Loop? && step.c == c)
    ensures c < |Apply(n, step).conns| && Left(n.conns[c], Apply(n, step).conns[c])
  {
    match step
    case Serve(s, newId) =>
      var m := n.conns[s].toServer[0];
      var out := S.Handled(n.apps, s, m, newId, n.renderers);
      var taken := n.conns[s := Taken(n.conns[s], newId, Refuses(n.apps, m))];
      assert Apply(n, step).conns == AllLogged(taken, out.sent);
      hide S.Handled, AllLogged, Apply;
      AllLoggedKeepsClients(taken, out.sent);
      LeftOf(n.conns[c], taken[c], AllLogged(taken, out.sent)[c]);
    case Tick(killPressed) =>
      var sent := S.Ticked(n.apps, killPressed, DeadSet(n.conns)).sent;
      assert Apply(n, step).conns == AllLogged(n.conns, sent);
      hide S.Ticked, AllLogged, Apply;
      AllLoggedKeepsClients(n.conns, sent);
      LeftOf(n.conns[c], n.conns[c], AllLogged(n.conns, sent)[c]);
    case _ =>
  }

  lemma LeftOf(was: Conn, taken: Conn, now: Conn)
    requires taken == was || (was.toServer != [] && taken.toServer == was.toServer[1..]
      && taken.(toServer := was.toServer, refused := was.refused, appId := was.appId) == was)
    requires now.(log := []) == taken.(log := []) && taken.log <= now.log
    ensures Left(was, now)
  {
    assert now.client == now.(log := []).client && now.toServer == now.(log := []).toServer;
    assert now.frames == now.(log := []).frames && now.read == now.(log := []).read;
  }

  /** The client is not running, and between two frames. */
  predicate Resting(conn: Conn) {
    conn.client.state != A.Running && (conn.client.stage == A.Idle || conn.client.stage == A.Done)
  }

  /** What is left of a channel after some of its oldest messages were taken. */
  predicate Rest(was: seq<Message>, now: seq<Message>) {
    |now| <= |was| && now == was[|was| - |now|..]
  }

  lemma RestStep(was: seq<Message>, now: seq<Message>)
    requires Rest(was, now) && now != []
    ensures Rest(was, now[1..])
  {
  }

  /** A client that was paused, or not started yet, and is between two frames begins none: whatever happens
      as long as it handles no message, it sends nothing. */
  lemma {:induction false} NotRunningDrawsNothing(n: Net, steps: seq<Step>, c: nat)
    requires IsRun(n, steps) && c < |n.conns| && Resting(n.conns[c])
    requires forall s | s in steps :: s != Receive(c)
    ensures c < |After(n, steps).conns| && After(n, steps).conns[c].frames == n.conns[c].frames
    ensures Rest(n.conns[c].toServer, After(n, steps).conns[c].toServer)
    decreases |steps|
  {
    if steps != [] {
      var next := Apply(n, steps[0]);
      assert steps[0] in steps && forall s | s in steps[1..] :: s in steps;
      RestingStep(n, steps[0], c);
      hide Apply, Enabled, Resting;
      NotRunningDrawsNothing(next, steps[1..], c);
      RestTwice(n.conns[c].toServer, next.conns[c].toServer, After(next, steps[1..]).conns[c].toServer);
    }
  }

  lemma RestingStep(n: Net, step: Step, c: nat)
    requires Enabled(n, step) && c < |n.conns| && Resting(n.conns[c]) && step != Receive(c)
    ensures var after := Apply(n, step);
            && c < |after.conns| && Resting(after.conns[c]) && after.conns[c].frames == n.conns[c].frames
            && Rest(n.conns[c].toServer, after.conns[c].toServer)
  {
    if step.Loop? && step.c == c {
      assert n.conns[c].toServer + [] == n.conns[c].toServer;
    } else {
      OthersLeave(n, step, c);
      hide Apply, Enabled;
    }
  }

  lemma RestTwice(a: seq<Message>, b: seq<Message>, c: seq<Message>)
    requires Rest(a, b) && Rest(b, c)
    ensures Rest(a, c)
  {
  }

  // ----- One pass of the drawing thread -----

  /** The end of a pass: whatever `loop()` returned, one frame goes out under the application's id; the
      thread goes on exactly if `loop()` asked for it and the application was not killed meanwhile. */
  lemma PassSendsOneFrame(n: Net, c: nat, loops: bool)
    requires Holds(n) && Enabled(n, Loop(c, loops)) && n.conns[c].client.stage == A.Drawing
    ensures var was, now := n.conns[c], Apply(n, Loop(c, loops)).conns[c];
            && now.toServer == was.toServer + [Message(SetScreenFrame, was.appId, false)] && now.frames == was.frames + 1
            && now.client == was.client.(stage := if loops && was.client.state != A.Killed then A.Idle else A.Done)
  {
    assert ConnHolds(n.conns[c]);
    assert n.conns[c].read != 0;
    hide StateAfter;
  }

  /** A thread that has ended stays so and sends no frame, whatever its application is told. */
  lemma {:induction false} EndedForGood(n: Net, steps: seq<Step>, c: nat)
    requires IsRun(n, steps) && c < |n.conns| && n.conns[c].client.stage == A.Done
    ensures c < |After(n, steps).conns| && After(n, steps).conns[c].client.stage == A.Done
    ensures After(n, steps).conns[c].frames == n.conns[c].frames
    decreases |steps|
  {
    if steps != [] {
      EndedStep(n, steps[0], c);
      EndedForGood(Apply(n, steps[0]), steps[1..], c);
    }
  }

  lemma EndedStep(n: Net, step: Step, c: nat)
    requires Enabled(n, step) && c < |n.conns| && n.conns[c].client.stage == A.Done
    ensures var after := Apply(n, step);
            c < |after.conns| && after.conns[c].client.stage == A.Done && after.conns[c].frames == n.conns[c].frames
  {
    if step != Receive(c) && !(step.Loop? && step.c == c) {
      OthersLeave(n, step, c);
      hide Apply, Enabled;
    }
  }

  // ----- What a client answers -----

  /** Every pause, resume, kill and question whether it is alive is answered by one message of its kind under
      the application's id. A pause or a resume is confirmed exactly if it changed the client's state, the
      question exactly if a pause or a resume would, a kill always. */
  lemma ControlIsAnswered(c: A.Client, m: Message)
    requires m.kind == AppPause || m.kind == AppResume || m.kind == AppKill || m.kind == AppAlive
    ensures var r := A.Handles(c, m);
            && |r.sent| == 1 && r.sent[0].kind == m.kind && r.sent[0].appId == c.appId
            && (m.kind == AppPause || m.kind == AppResume ==> (r.sent[0].success <==> r.client.state != c.state))
            && (m.kind == AppKill ==> r.sent[0].success && r.client.state == A.Killed && r.client.joining)
            && (m.kind == AppAlive ==>
                  && r.client == c
                  && (r.sent[0].success <==>
                        || A.Handles(c, Message(AppPause, m.appId, false)).client.state != c.state
                        || A.Handles(c, Message(AppResume, m.appId, false)).client.state != c.state))
  {
  }

  /** A confirmed registration gives the client its id, under which it sends its parameter schema and then
      asks for the server info. */
  lemma RegistrationIsAnswered(c: A.Client, m: Message)
    requires m.kind == RegisterApp && m.success
    ensures var r := A.Handles(c, m);
            && r.client == c.(appId := m.appId) && |r.sent| == 2
            && r.sent[0].kind == Other && r.sent[1].kind == GetServerInfo
            && r.sent[0].appId == r.sent[1].appId == m.appId
  {
  }

  /** A registration that failed, and messages of other kinds, leave the client alone. */
  lemma FailureIsIgnored(c: A.Client, m: Message)
    requires m.kind == Other || (m.kind == RegisterApp && !m.success)
    ensures A.Handles(c, m) == A.Reaction(c, [])
  {
  }

  // ----- A killed application leaves the stack -----

  ghost predicate OnStack(apps: seq<S.App>, id: int) {
    exists a :: a in apps && a.id == id
  }

  /** A client that handled a kill has its confirmation on the way, or is on the stack no longer. */
  ghost predicate KillConfirmed(conn: Conn, apps: seq<S.App>) {
    conn.read <= |conn.log| && conn.appId != 0 && Has(AppKill, conn.log[..conn.read]) ==>
      Message(AppKill, conn.appId, true) in conn.toServer || !OnStack(apps, conn.appId)
  }

  ghost predicate KillsConfirmed(n: Net) {
    Holds(n) && forall c | 0 <= c < |n.conns| :: KillConfirmed(n.conns[c], n.apps)
  }

  ghost predicate Registered(n: Net, id: int) {
    exists a :: a in n.registered && a.id == id
  }

  /** An id that was registered once comes to the stack by no later step. */
  lemma NoReturn(n: Net, step: Step, id: int)
    requires Enabled(n, step) && Registered(n, id) && OnStack(Apply(n, step).apps, id)
    ensures OnStack(n.apps, id)
  {
    match step
    case Serve(c, newId) =>
      var m := n.conns[c].toServer[0];
      assert newId != id;
      ServedApps(n, c, newId);
      hide *;
      WithoutFacts(n.apps, m.appId);
      StillOn(n.apps, S.Without(n.apps, m.appId), id);
      StateStillOn(n.apps, m.appId, S.Paused, id);
      StateStillOn(n.apps, m.appId, S.Running, id);
      PushedOn(n.apps, S.App(newId, c, S.Unknown), id);
    case Tick(killPressed) =>
      var rest := S.Alive(n.apps, DeadSet(n.conns));
      assert Apply(n, step).apps == rest;
      AliveFacts(n.apps, DeadSet(n.conns));
      hide *;
      StillOn(n.apps, rest, id);
    case _ =>
  }

  lemma StillOn(apps: seq<S.App>, rest: seq<S.App>, id: int)
    requires forall a | a in rest :: a in apps
    ensures OnStack(rest, id) ==> OnStack(apps, id)
  {
  }

  lemma PushedOn(apps: seq<S.App>, app: S.App, id: int)
    ensures OnStack(apps + [app], id) ==> OnStack(apps, id) || app.id == id
  {
  }

  lemma StateStillOn(apps: seq<S.App>, of: int, state: S.AppState, id: int)
    ensures OnStack(S.WithState(apps, of, state), id) ==> OnStack(apps, id)
  {
    WithStateRooted(apps, of, state);
    hide S.WithState;
  }

  /** What the service of a request makes of the stack. */
  lemma ServedApps(n: Net, c: nat, newId: int)
    requires Enabled(n, Serve(c, newId))
    ensures var m, after := n.conns[c].toServer[0], Apply(n, Serve(c, newId)).apps;
            match m.kind
            case RegisterApp => after == if m.appId != 0 then n.apps else n.apps + [S.App(newId, c, S.Unknown)]
            case AppPause => after == S.WithState(n.apps, m.appId, S.Paused)
            case AppResume => after == S.WithState(n.apps, m.appId, S.Running)
            case AppKill => after == S.Without(n.apps, m.appId)
            case _ => after == n.apps
  {
    hide AllLogged, S.WithState, S.Without, Refuses;
  }

  lemma KilledIsOff(n: Net, c: nat, newId: int)
    requires Enabled(n, Serve(c, newId)) && n.conns[c].toServer[0].kind == AppKill
    ensures !OnStack(Apply(n, Serve(c, newId)).apps, n.conns[c].toServer[0].appId)
  {
    WithoutFacts(n.apps, n.conns[c].toServer[0].appId);
    hide S.Without, AllLogged;
  }

  /** A step of others, or the service of a message, leaves a kill confirmed. */
  lemma LeftConfirmed(was: Conn, now: Conn, apps: seq<S.App>, after: seq<S.App>)
    requires was.read <= |was.log| && KillConfirmed(was, apps) && Left(was, now) && now.appId == was.appId
    requires OnStack(after, was.appId) ==> OnStack(apps, was.appId)
    requires now.toServer != was.toServer && was.toServer[0].kind == AppKill ==> !OnStack(after, was.toServer[0].appId)
    ensures KillConfirmed(now, after)
  {
    assert now.log[..now.read] == was.log[..was.read];
    hide OnStack, Has;
    var kill := Message(AppKill, was.appId, true);
    if kill in was.toServer && now.toServer != was.toServer {
      assert was.toServer == [was.toServer[0]] + now.toServer;
    }
  }

  lemma ReceiveConfirms(conn: Conn, apps: seq<S.App>)
    requires ConnHolds(conn) && conn.read < |conn.log| && KillConfirmed(conn, apps)
    ensures KillConfirmed(Told(conn).(toServer := conn.toServer + A.Handles(conn.client, conn.log[conn.read]).sent), apps)
  {
    var m := conn.log[conn.read];
    var sent := A.Handles(conn.client, m).sent;
    assert conn.log[..conn.read + 1] == conn.log[..conn.read] + [m];
    HasAppend(AppKill, conn.log[..conn.read], [m]);
    if m.kind == AppKill {
      assert conn.read > 0 && conn.client.appId == conn.appId;
      assert sent == [Message(AppKill, conn.appId, true)];
      assert sent[0] in conn.toServer + sent;
    } else {
      assert !Has(AppKill, [m]);
      assert forall r | r in conn.toServer :: r in conn.toServer + sent;
    }
    hide OnStack, Has, StateAfter;
  }

  lemma LoopConfirms(conn: Conn, loops: bool, apps: seq<S.App>)
    requires conn.read <= |conn.log| && KillConfirmed(conn, apps)
    ensures KillConfirmed(Moved(conn, loops).(toServer := conn.toServer + A.Loops(conn.client, loops).sent), apps)
  {
    hide OnStack, Has;
    assert forall r | r in conn.toServer :: r in conn.toServer + A.Loops(conn.client, loops).sent;
  }

  lemma IsRegistered(n: Net, c: nat)
    requires Holds(n) && c < |n.conns| && n.conns[c].appId != 0
    ensures Registered(n, n.conns[c].appId)
  {
    assert S.App(n.conns[c].appId, c, S.Unknown) in n.registered;
    hide ConnHolds, Standing;
  }

  /** One connection over one step. */
  lemma ConnConfirms(n: Net, step: Step, c: nat)
    requires KillsConfirmed(n) && Enabled(n, step) && c < |n.conns|
    ensures c < |Apply(n, step).conns| && KillConfirmed(Apply(n, step).conns[c], Apply(n, step).apps)
  {
    assert ConnHolds(n.conns[c]) && KillConfirmed(n.conns[c], n.apps);
    if step == Receive(c) {
      ReceiveConfirms(n.conns[c], n.apps);
    } else if step.Loop? && step.c == c {
      LoopConfirms(n.conns[c], step.loops, n.apps);
    } else {
      OthersLeave(n, step, c);
      ConnLeft(n, step, c);
    }
  }

  lemma ConnLeft(n: Net, step: Step, c: nat)
    requires KillsConfirmed(n) && Enabled(n, step) && c < |n.conns| && step != Receive(c) && !(step.Loop? && step.c == c)
    requires c < |Apply(n, step).conns| && Left(n.conns[c], Apply(n, step).conns[c])
    ensures KillConfirmed(Apply(n, step).conns[c], Apply(n, step).apps)
  {
    var was, now := n.conns[c], Apply(n, step).conns[c];
    assert ConnHolds(was) && KillConfirmed(was, n.apps);
    if was.appId == 0 {
      assert was.read == 0;
      assert now.log[..0] == [];
    } else {
      IdStays(n, step, c);
      IsRegistered(n, c);
      if step.Serve? && step.c == c && was.toServer[0].kind == AppKill {
        KilledIsOff(n, c, step.newId);
      }
      if !(step.Serve? && step.c == c) {
        OthersChannel(n, step, c);
      }
      if OnStack(Apply(n, step).apps, was.appId) {
        NoReturn(n, step, was.appId);
      }
      hide Apply, OnStack, ConnHolds, KillsConfirmed, Holds;
      LeftConfirmed(was, now, n.apps, Apply(n, step).apps);
    }
  }

  /** A registered connection keeps its id. */
  lemma IdStays(n: Net, step: Step, c: nat)
    requires Holds(n) && Enabled(n, step) && c < |n.conns| && n.conns[c].appId != 0
    requires step != Receive(c) && !(step.Loop? && step.c == c)
    ensures c < |Apply(n, step).conns| && Apply(n, step).conns[c].appId == n.conns[c].appId
  {
    assert ConnHolds(n.conns[c]);
    hide ConnHolds, Standing;
    match step
    case Serve(s, newId) =>
      var m := n.conns[s].toServer[0];
      var sent := S.Handled(n.apps, s, m, newId, n.renderers).sent;
      var taken := n.conns[s := Taken(n.conns[s], newId, Refuses(n.apps, m))];
      assert Apply(n, step).conns == AllLogged(taken, sent);
      RequestOfRegistered(n.conns[c], s == c, m);
      hide S.Handled, AllLogged, Apply, Holds;
      AllLoggedKeepsClients(taken, sent);
      assert AllLogged(taken, sent)[c].(log := []) == taken[c].(log := []);
      SameBesideLog(AllLogged(taken, sent)[c], taken[c]);
    case Tick(killPressed) =>
      var sent := S.Ticked(n.apps, killPressed, DeadSet(n.conns)).sent;
      assert Apply(n, step).conns == AllLogged(n.conns, sent);
      hide S.Ticked, AllLogged, Apply, Holds;
      AllLoggedKeepsClients(n.conns, sent);
      SameBesideLog(AllLogged(n.conns, sent)[c], n.conns[c]);
    case _ =>
  }

  lemma RequestOfRegistered(conn: Conn, served: bool, m: Message)
    requires ConnHolds(conn) && conn.appId != 0 && (served ==> conn.toServer != [] && conn.toServer[0] == m)
    ensures served ==> m != REGISTER
  {
    hide InStep;
    if served {
      assert m in conn.toServer;
    }
  }

  lemma SameBesideLog(a: Conn, b: Conn)
    requires a.(log := []) == b.(log := [])
    ensures a.appId == b.appId && a.toServer == b.toServer && a.client == b.client && a.read == b.read
  {
    assert a.appId == a.(log := []).appId && a.toServer == a.(log := []).toServer;
    assert a.client == a.(log := []).client && a.read == a.(log := []).read;
  }

  lemma StepConfirms(n: Net, step: Step)
    requires KillsConfirmed(n) && Enabled(n, step)
    ensures KillsConfirmed(Apply(n, step))
  {
    StepKeeps(n, step);
    forall c | 0 <= c < |n.conns|
      ensures c < |Apply(n, step).conns| && KillConfirmed(Apply(n, step).conns[c], Apply(n, step).apps)
    {
      ConnConfirms(n, step, c);
    }
    ConnsGrow(n, step);
    hide Apply, Holds, KillConfirmed;
    assert KillConfirmed(NEW_CONN, Apply(n, step).apps) by {
      NewConfirmed(Apply(n, step).apps);
    }
  }

  lemma NewConfirmed(apps: seq<S.App>)
    ensures KillConfirmed(NEW_CONN, apps)
  {
  }

  /** Connections come by a start only, one at a time. */
  lemma ConnsGrow(n: Net, step: Step)
    requires Enabled(n, step)
    ensures if step == Connect then Apply(n, step).conns == n.conns + [NEW_CONN] else |Apply(n, step).conns| == |n.conns|
  {
    match step
    case Serve(s, newId) =>
      var m := n.conns[s].toServer[0];
      hide S.Handled;
      AllLoggedKeepsClients(n.conns[s := Taken(n.conns[s], newId, Refuses(n.apps, m))],
                            S.Handled(n.apps, s, m, newId, n.renderers).sent);
    case Tick(killPressed) =>
      hide S.Ticked;
      AllLoggedKeepsClients(n.conns, S.Ticked(n.apps, killPressed, DeadSet(n.conns)).sent);
    case _ =>
  }

  lemma {:induction false} RunConfirms(n: Net, steps: seq<Step>)
    requires KillsConfirmed(n) && IsRun(n, steps)
    ensures KillsConfirmed(After(n, steps))
    decreases |steps|
  {
    if steps != [] {
      StepConfirms(n, steps[0]);
      RunConfirms(Apply(n, steps[0]), steps[1..]);
    }
  }

  /** In every reachable state an application that handled a kill has its confirmation on the way to the
      server or is not on the stack; so once everything it sent is served, it is not. */
  lemma KilledLeaves(renderers: nat, steps: seq<Step>, c: nat)
    requires IsRun(Start(renderers), steps) && c < |After(Start(renderers), steps).conns|
    ensures var n := After(Start(renderers), steps);
            var conn := n.conns[c];
            && conn.read <= |conn.log|
            && (conn.appId != 0 && Has(AppKill, conn.log[..conn.read]) ==>
                  || Message(AppKill, conn.appId, true) in conn.toServer
                  || forall a | a in n.apps :: a.id != conn.appId)
            && (conn.appId != 0 && Has(AppKill, conn.log[..conn.read]) && conn.toServer == [] ==>
                  forall a | a in n.apps :: a.id != conn.appId)
  {
    RunConfirms(Start(renderers), steps);
    var n := After(Start(renderers), steps);
    assert ConnHolds(n.conns[c]) && KillConfirmed(n.conns[c], n.apps);
    hide ConnHolds, Standing;
  }

  // ----- A kill goes to the top -----

  /** How many of the messages of a kind go out on connection `c`. */
  function CountTo(kind: Kind, sent: seq<Envelope>, c: nat): nat {
    if sent == [] then 0
    else
      var last := sent[|sent| - 1];
      CountTo(kind, sent[..|sent| - 1], c) + (if last.connection == c && last.message.kind == kind then 1 else 0)
  }

  lemma {:induction false} CountLogged(kind: Kind, conns: seq<Conn>, sent: seq<Envelope>, c: nat)
    requires c < |conns|
    ensures |AllLogged(conns, sent)| == |conns|
    ensures Count(kind, AllLogged(conns, sent)[c].log) == Count(kind, conns[c].log) + CountTo(kind, sent, c)
  {
    if sent != [] {
      var last := sent[|sent| - 1];
      CountLogged(kind, conns, sent[..|sent| - 1], c);
      var before := AllLogged(conns, sent[..|sent| - 1]);
      CountSnoc(kind, before[c].log, last.message);
      hide Count;
    }
  }

  lemma {:induction false} CountToNone(kind: Kind, sent: seq<Envelope>, c: nat)
    requires forall e | e in sent :: e.message.kind != kind
    ensures CountTo(kind, sent, c) == 0
  {
    if sent != [] {
      CountToNone(kind, sent[..|sent| - 1], c);
    }
  }

  lemma {:induction false} CountToAppend(kind: Kind, a: seq<Envelope>, b: seq<Envelope>, c: nat)
    ensures CountTo(kind, a + b, c) == CountTo(kind, a, c) + CountTo(kind, b, c)
    decreases |b|
  {
    if b == [] {
      assert a + b == a;
    } else {
      CountToAppend(kind, a, b[..|b| - 1], c);
      assert (a + b)[..|a + b| - 1] == a + b[..|b| - 1];
    }
  }

  lemma KillIsTo(apps: seq<S.App>, killPressed: bool, dead: set<nat>, c: nat)
    ensures CountTo(AppKill, S.Ticked(apps, killPressed, dead).sent, c) ==
            if killPressed && apps != [] && S.Top(apps).connection == c then 1 else 0
  {
    var kill, rest := KillSent(apps, killPressed), S.Alive(apps, dead);
    var resume := if S.TopId(apps) != S.TopId(rest) && S.TopId(rest) != -1 then S.Resumed(rest) else [];
    assert S.Ticked(apps, killPressed, dead).sent == kill + resume;
    hide S.Alive, S.Ticked;
    CountToNone(AppKill, resume, c);
    CountToAppend(AppKill, kill, resume, c);
    assert kill != [] ==> kill[..0] == [];
  }

  /** The server tells an application to die only when the button is pressed, and only the one on top. */
  lemma KillGoesToTop(n: Net, step: Step, c: nat)
    requires Enabled(n, step) && c < |n.conns|
    ensures c < |Apply(n, step).conns|
    ensures Count(AppKill, Apply(n, step).conns[c].log) ==
            Count(AppKill, n.conns[c].log) +
            (if step == Tick(true) && n.apps != [] && S.Top(n.apps).connection == c then 1 else 0)
  {
    match step
    case Serve(s, newId) => ServeKillsNone(n, s, newId, c);
    case Tick(killPressed) =>
      var sent := S.Ticked(n.apps, killPressed, DeadSet(n.conns)).sent;
      assert Apply(n, step).conns == AllLogged(n.conns, sent);
      hide S.Ticked, AllLogged, Apply, Count, DeadSet;
      KillIsTo(n.apps, killPressed, DeadSet(n.conns), c);
      CountLogged(AppKill, n.conns, sent, c);
    case _ => hide Count;
  }

  lemma ServeKillsNone(n: Net, s: nat, newId: int, c: nat)
    requires Enabled(n, Serve(s, newId)) && c < |n.conns|
    ensures c < |Apply(n, Serve(s, newId)).conns|
    ensures Count(AppKill, Apply(n, Serve(s, newId)).conns[c].log) == Count(AppKill, n.conns[c].log)
  {
    var m := n.conns[s].toServer[0];
    var sent := S.Handled(n.apps, s, m, newId, n.renderers).sent;
    var taken := n.conns[s := Taken(n.conns[s], newId, Refuses(n.apps, m))];
    hide S.Handled, AllLogged, Count, Refuses;
    assert Apply(n, Serve(s, newId)).conns == AllLogged(taken, sent) && taken[c].log == n.conns[c].log;
    HandledKillsNone(n.apps, s, m, newId, n.renderers);
    hide *;
    CountLogged(AppKill, taken, sent, c);
    CountToNone(AppKill, sent, c);
  }

  lemma HandledKillsNone(apps: seq<S.App>, c: nat, m: Message, newId: int, renderers: nat)
    ensures forall e | e in S.Handled(apps, c, m, newId, renderers).sent :: e.message.kind != AppKill
  {
    hide S.WithState, S.Without;
  }

  // ----- The server's record of its applications -----

  /** The state the server keeps for an application that confirmed this word last. */
  function Recorded(word: Kind): S.AppState {
    match word
    case AppPause => S.Paused
    case AppResume => S.Running
    case _ => S.Unknown
  }

  ghost predicate RecordIs(apps: seq<S.App>, c: nat, state: S.AppState) {
    forall a | a in apps && a.connection == c :: a.state == state
  }

  /** The last pause or resume a client handled is the last one it confirmed: the confirmation is on its
      way, or the server has recorded it. */
  ghost predicate WordConfirmed(conn: Conn, c: nat, apps: seq<S.App>) {
    conn.read <= |conn.log| ==>
      var handled, pending := Standing(conn.log[..conn.read]), Standing(conn.toServer);
      if pending != Other then pending == handled else RecordIs(apps, c, Recorded(handled))
  }

  ghost predicate DistinctIds(apps: seq<S.App>) {
    forall i, j | 0 <= i < j < |apps| :: apps[i].id != apps[j].id
  }

  ghost predicate WordsConfirmed(n: Net) {
    Holds(n) && DistinctIds(n.apps) && forall c | 0 <= c < |n.conns| :: WordConfirmed(n.conns[c], c, n.apps)
  }

  lemma {:induction false} DistinctWithout(apps: seq<S.App>, id: int)
    requires DistinctIds(apps)
    ensures DistinctIds(S.Without(apps, id))
  {
    if apps != [] {
      var front := apps[..|apps| - 1];
      assert forall i | 0 <= i < |front| :: front[i] == apps[i];
      DistinctWithout(front, id);
      WithoutFacts(front, id);
      DistinctSnoc(S.Without(front, id), S.Top(apps));
      assert S.Without(front, id) + [] == S.Without(front, id);
    }
  }

  lemma {:induction false} DistinctAlive(apps: seq<S.App>, dead: set<nat>)
    requires DistinctIds(apps)
    ensures DistinctIds(S.Alive(apps, dead))
  {
    if apps != [] {
      var front := apps[..|apps| - 1];
      assert forall i | 0 <= i < |front| :: front[i] == apps[i];
      DistinctAlive(front, dead);
      AliveFacts(front, dead);
      DistinctSnoc(S.Alive(front, dead), S.Top(apps));
      assert S.Alive(front, dead) + [] == S.Alive(front, dead);
    }
  }

  lemma DistinctSnoc(apps: seq<S.App>, top: S.App)
    requires DistinctIds(apps)
    ensures (forall a | a in apps :: a.id != top.id) ==> DistinctIds(apps + [top])
  {
    assert forall i | 0 <= i < |apps| :: apps[i] in apps;
  }

  /** Only the first application with the id changes; with distinct ids that is the only one. */
  lemma {:induction false} WithStateIs(apps: seq<S.App>, id: int, state: S.AppState)
    requires DistinctIds(apps)
    ensures DistinctIds(S.WithState(apps, id, state))
    ensures forall a | a in S.WithState(apps, id, state) :: if a.id == id then a.state == state else a in apps
  {
    WithStateFacts(apps, id, state);
    if apps != [] {
      var rest := apps[1..];
      assert forall i | 0 <= i < |rest| :: rest[i] == apps[i + 1];
      if apps[0].id != id {
        WithStateIs(rest, id, state);
        assert forall a | a in rest :: a in apps;
      } else {
        forall a | a in rest
          ensures a.id != id
        {
          var i :| 0 <= i < |rest| && rest[i] == a;
          assert apps[i + 1].id != apps[0].id;
        }
      }
    }
  }

  lemma StandingHead(ms: seq<Message>)
    requires ms != []
    ensures Standing(ms) ==
            if Standing(ms[1..]) != Other then Standing(ms[1..])
            else if ms[0].kind == AppPause || ms[0].kind == AppResume then ms[0].kind else Other
    decreases |ms|
  {
    if |ms| > 1 {
      StandingHead(ms[..|ms| - 1]);
      assert ms[..|ms| - 1][1..] == ms[1..][..|ms| - 2];
    }
  }

  /** The records of connection `c` that a step leaves were there before. */
  ghost predicate RecordsStay(apps: seq<S.App>, after: seq<S.App>, c: nat) {
    forall a | a in after && a.connection == c :: a in apps
  }

  /** Who is on the stack and in what recorded state changes only by the request of that application, by its
      registration or by a removal. */
  lemma OthersRecords(n: Net, step: Step, c: nat)
    requires WordsConfirmed(n) && Enabled(n, step) && c < |n.conns|
    requires step.Serve? && step.c == c ==> n.conns[c].toServer[0].kind != AppPause && n.conns[c].toServer[0].kind != AppResume
    requires step.Serve? && step.c == c ==> n.conns[c].toServer[0].kind != RegisterApp
    ensures RecordsStay(n.apps, Apply(n, step).apps, c)
  {
    match step
    case Serve(s, newId) =>
      var m := n.conns[s].toServer[0];
      assert ConnHolds(n.conns[s]);
      RequestIds(n.conns[s]);
      ServedApps(n, s, newId);
      WithoutFacts(n.apps, m.appId);
      hide Apply, AllLogged, S.Without, S.WithState, WordConfirmed, ConnHolds, DistinctIds;
      if m.kind == AppPause {
        StateOfOther(n, s, c, S.Paused);
      } else if m.kind == AppResume {
        StateOfOther(n, s, c, S.Running);
      }
    case Tick(killPressed) =>
      AliveFacts(n.apps, DeadSet(n.conns));
      hide S.Alive, DeadSet, AllLogged, Holds, WordConfirmed;
    case _ => hide Holds, WordConfirmed;
  }

  /** The reported state of one application is nothing to the record of another. */
  lemma StateOfOther(n: Net, s: nat, c: nat, state: S.AppState)
    requires Holds(n) && DistinctIds(n.apps) && s < |n.conns| && c < |n.conns| && s != c && n.conns[s].appId != 0
    ensures RecordsStay(n.apps, S.WithState(n.apps, n.conns[s].appId, state), c)
  {
    var id := n.conns[s].appId;
    WithStateIs(n.apps, id, state);
    WithStateRooted(n.apps, id, state);
    hide S.WithState, ConnHolds, Standing, DistinctIds;
    forall a | a in S.WithState(n.apps, id, state) && a.connection == c
      ensures a in n.apps
    {
      var b :| b in n.apps && b.id == a.id && b.connection == a.connection;
      assert a.id == n.conns[c].appId != id;
    }
  }

  lemma RequestIds(conn: Conn)
    requires ConnHolds(conn) && conn.toServer != []
    ensures conn.toServer[0].kind == AppPause || conn.toServer[0].kind == AppResume ==>
              conn.appId != 0 && conn.toServer[0].appId == conn.appId
  {
    assert conn.toServer[0] in conn.toServer;
    hide InStep;
  }

  lemma WithStateRooted(apps: seq<S.App>, id: int, state: S.AppState)
    ensures forall a | a in S.WithState(apps, id, state) :: exists b :: b in apps && b.id == a.id && b.connection == a.connection
  {
    WithStateFacts(apps, id, state);
    var r := S.WithState(apps, id, state);
    forall a | a in r
      ensures exists b :: b in apps && b.id == a.id && b.connection == a.connection
    {
      var i :| 0 <= i < |r| && r[i] == a;
      assert apps[i] in apps;
    }
  }

  lemma StandingKinds(ms: seq<Message>)
    ensures Standing(ms) == AppPause || Standing(ms) == AppResume || Standing(ms) == Other
  {
  }

  lemma ReceiveWord(conn: Conn, c: nat, apps: seq<S.App>)
    requires conn.read < |conn.log| && WordConfirmed(conn, c, apps)
    ensures WordConfirmed(Told(conn).(toServer := conn.toServer + A.Handles(conn.client, conn.log[conn.read]).sent), c, apps)
  {
    var m := conn.log[conn.read];
    var sent := A.Handles(conn.client, m).sent;
    assert conn.log[..conn.read + 1] == conn.log[..conn.read] + [m];
    StandingSnoc(conn.log[..conn.read], m);
    if m.kind == AppPause || m.kind == AppResume {
      assert |sent| == 1 && sent == [sent[0]] && sent[0].kind == m.kind;
      StandingSnoc(conn.toServer, sent[0]);
    } else {
      assert forall r | r in sent :: r.kind != AppPause && r.kind != AppResume;
      StandingAppend(conn.toServer, sent);
    }
    hide Standing, A.Handles, RecordIs;
  }

  lemma LoopWord(conn: Conn, loops: bool, c: nat, apps: seq<S.App>)
    requires WordConfirmed(conn, c, apps)
    ensures WordConfirmed(Moved(conn, loops).(toServer := conn.toServer + A.Loops(conn.client, loops).sent), c, apps)
  {
    StandingAppend(conn.toServer, A.Loops(conn.client, loops).sent);
    hide Standing, RecordIs;
  }

  /** A step that confirms nothing new. */
  lemma LeftWord(was: Conn, now: Conn, c: nat, apps: seq<S.App>, after: seq<S.App>)
    requires was.read <= |was.log| && WordConfirmed(was, c, apps) && Left(was, now) && RecordsStay(apps, after, c)
    requires now.toServer != was.toServer ==> was.toServer[0].kind != AppPause && was.toServer[0].kind != AppResume
    ensures WordConfirmed(now, c, after)
  {
    assert now.log[..now.read] == was.log[..was.read];
    if was.toServer != [] {
      StandingHead(was.toServer);
    }
    StandingKinds(now.toServer);
    hide Standing;
  }

  /** The service of a confirmation records it. */
  lemma ConfirmedWord(was: Conn, now: Conn, c: nat, apps: seq<S.App>, after: seq<S.App>)
    requires was.read <= |was.log| && WordConfirmed(was, c, apps) && Left(was, now)
    requires was.toServer != [] && now.toServer == was.toServer[1..]
    requires was.toServer[0].kind == AppPause || was.toServer[0].kind == AppResume
    requires RecordIs(after, c, Recorded(was.toServer[0].kind))
    ensures WordConfirmed(now, c, after)
  {
    assert now.log[..now.read] == was.log[..was.read];
    StandingHead(was.toServer);
    StandingKinds(now.toServer);
    hide Standing, RecordIs;
  }

  lemma ServeRecords(n: Net, c: nat, newId: int)
    requires WordsConfirmed(n) && Enabled(n, Serve(c, newId))
    requires n.conns[c].toServer[0].kind == AppPause || n.conns[c].toServer[0].kind == AppResume
    ensures var after := Apply(n, Serve(c, newId));
            && c < |after.conns| && after.conns[c].toServer == n.conns[c].toServer[1..]
            && RecordIs(after.apps, c, Recorded(n.conns[c].toServer[0].kind))
  {
    var m := n.conns[c].toServer[0];
    var state := Recorded(m.kind);
    ServeIsAnswer(n, c, newId);
    assert ConnHolds(n.conns[c]);
    RequestIds(n.conns[c]);
    WithStateIs(n.apps, m.appId, state);
    WithStateRooted(n.apps, m.appId, state);
    hide ConnHolds, Standing, Apply, S.WithState, WordConfirmed;
    forall a | a in S.WithState(n.apps, m.appId, state) && a.connection == c
      ensures a.state == state
    {
      var b :| b in n.apps && b.id == a.id && b.connection == a.connection;
    }
  }

  /** A registration: nothing was said to the new application, and its record says so. */
  lemma RegisterWord(n: Net, c: nat, newId: int)
    requires WordsConfirmed(n) && Enabled(n, Serve(c, newId)) && n.conns[c].appId == 0
    ensures var after := Apply(n, Serve(c, newId));
            && n.conns[c].toServer[0] == REGISTER
            && c < |after.conns| && WordConfirmed(after.conns[c], c, after.apps)
  {
    assert ConnHolds(n.conns[c]) && Holds(n);
    OthersLeave(n, Serve(c, newId), c);
    hide Apply, Holds, ConnHolds, RecordIs, WordConfirmed, Enabled;
    NotYetRegistered(n.conns[c]);
    RegisteredApps(n, c, newId);
    ServedTail(n, c, newId);
    SilentWord(Apply(n, Serve(c, newId)).conns[c], c, Apply(n, Serve(c, newId)).apps);
  }

  lemma SilentWord(conn: Conn, c: nat, apps: seq<S.App>)
    requires conn.read == 0 && conn.toServer == [] && RecordIs(apps, c, S.Unknown)
    ensures WordConfirmed(conn, c, apps)
  {
    assert conn.log[..0] == [];
    hide RecordIs;
  }

  lemma NotYetRegistered(conn: Conn)
    requires ConnHolds(conn) && conn.appId == 0
    ensures conn.toServer == [REGISTER] && conn.toServer[1..] == [] && conn.read == 0
  {
  }

  lemma RegisteredApps(n: Net, c: nat, newId: int)
    requires Holds(n) && Enabled(n, Serve(c, newId)) && n.conns[c].appId == 0 && n.conns[c].toServer[0] == REGISTER
    ensures RecordIs(Apply(n, Serve(c, newId)).apps, c, S.Unknown)
  {
    ServedApps(n, c, newId);
    hide Apply, ConnHolds, Standing;
  }

  lemma ServedTail(n: Net, c: nat, newId: int)
    requires Enabled(n, Serve(c, newId))
    ensures c < |Apply(n, Serve(c, newId)).conns|
    ensures Apply(n, Serve(c, newId)).conns[c].toServer == n.conns[c].toServer[1..]
  {
    var m := n.conns[c].toServer[0];
    var sent := S.Handled(n.apps, c, m, newId, n.renderers).sent;
    var taken := n.conns[c := Taken(n.conns[c], newId, Refuses(n.apps, m))];
    assert Apply(n, Serve(c, newId)).conns == AllLogged(taken, sent) && taken[c].toServer == n.conns[c].toServer[1..];
    hide S.Handled, AllLogged, Apply;
    AllLoggedKeepsClients(taken, sent);
    SameBesideLog(AllLogged(taken, sent)[c], taken[c]);
  }

  lemma ConnWord(n: Net, step: Step, c: nat)
    requires WordsConfirmed(n) && Enabled(n, step) && c < |n.conns|
    ensures c < |Apply(n, step).conns| && WordConfirmed(Apply(n, step).conns[c], c, Apply(n, step).apps)
  {
    assert ConnHolds(n.conns[c]) && WordConfirmed(n.conns[c], c, n.apps);
    if step == Receive(c) {
      ReceiveWord(n.conns[c], c, n.apps);
    } else if step.Loop? && step.c == c {
      LoopWord(n.conns[c], step.loops, c, n.apps);
    } else if step.Serve? && step.c == c {
      ServedWord(n, c, step.newId);
    } else {
      OthersLeave(n, step, c);
      OthersRecords(n, step, c);
      OthersChannel(n, step, c);
      hide Apply, WordConfirmed, WordsConfirmed, Left, RecordsStay, ConnHolds;
      assert n.conns[c].read <= |n.conns[c].log| by {
        ReadInLog(n.conns[c]);
      }
      LeftWord(n.conns[c], Apply(n, step).conns[c], c, n.apps, Apply(n, step).apps);
    }
  }

  lemma ReadInLog(conn: Conn)
    requires ConnHolds(conn)
    ensures conn.read <= |conn.log|
  {
  }

  lemma ServedWord(n: Net, c: nat, newId: int)
    requires WordsConfirmed(n) && Enabled(n, Serve(c, newId))
    ensures c < |Apply(n, Serve(c, newId)).conns|
    ensures WordConfirmed(Apply(n, Serve(c, newId)).conns[c], c, Apply(n, Serve(c, newId)).apps)
  {
    var m := n.conns[c].toServer[0];
    assert ConnHolds(n.conns[c]) && WordConfirmed(n.conns[c], c, n.apps);
    ReadInLog(n.conns[c]);
    if n.conns[c].appId == 0 {
      RegisterWord(n, c, newId);
    } else {
      NoRegistration(n.conns[c]);
      OthersLeave(n, Serve(c, newId), c);
      var now, after := Apply(n, Serve(c, newId)).conns[c], Apply(n, Serve(c, newId)).apps;
      if m.kind == AppPause || m.kind == AppResume {
        ServeRecords(n, c, newId);
        hide Apply, WordConfirmed, WordsConfirmed, Left, RecordIs, ConnHolds;
        ConfirmedWord(n.conns[c], now, c, n.apps, after);
      } else {
        OthersRecords(n, Serve(c, newId), c);
        hide Apply, WordConfirmed, WordsConfirmed, Left, RecordsStay, ConnHolds;
        LeftWord(n.conns[c], now, c, n.apps, after);
      }
    }
  }

  lemma NoRegistration(conn: Conn)
    requires ConnHolds(conn) && conn.appId != 0 && conn.toServer != []
    ensures conn.toServer[0].kind != RegisterApp
  {
    assert conn.toServer[0] in conn.toServer;
    hide InStep;
  }

  /** No other step touches what a client sent. */
  lemma OthersChannel(n: Net, step: Step, c: nat)
    requires Holds(n) && Enabled(n, step) && c < |n.conns|
    requires step != Receive(c) && !(step.Loop? && step.c == c) && !(step.Serve? && step.c == c)
    ensures c < |Apply(n, step).conns| && Apply(n, step).conns[c].toServer == n.conns[c].toServer
  {
    match step
    case Serve(s, newId) =>
      var m := n.conns[s].toServer[0];
      var sent := S.Handled(n.apps, s, m, newId, n.renderers).sent;
      var taken := n.conns[s := Taken(n.conns[s], newId, Refuses(n.apps, m))];
      assert Apply(n, step).conns == AllLogged(taken, sent);
      hide S.Handled, AllLogged, Apply, Holds;
      AllLoggedKeepsClients(taken, sent);
      SameBesideLog(AllLogged(taken, sent)[c], taken[c]);
    case Tick(killPressed) =>
      var sent := S.Ticked(n.apps, killPressed, DeadSet(n.conns)).sent;
      assert Apply(n, step).conns == AllLogged(n.conns, sent);
      hide S.Ticked, AllLogged, Apply, Holds;
      AllLoggedKeepsClients(n.conns, sent);
      SameBesideLog(AllLogged(n.conns, sent)[c], n.conns[c]);
    case _ => hide Holds;
  }

  lemma StepDistinct(n: Net, step: Step)
    requires Holds(n) && DistinctIds(n.apps) && Enabled(n, step)
    ensures DistinctIds(Apply(n, step).apps)
  {
    match step
    case Serve(c, newId) =>
      var m := n.conns[c].toServer[0];
      FreshIsNew(n, newId);
      ServedApps(n, c, newId);
      hide *;
      DistinctWithout(n.apps, m.appId);
      WithStateIs(n.apps, m.appId, S.Paused);
      WithStateIs(n.apps, m.appId, S.Running);
      DistinctSnoc(n.apps, S.App(newId, c, S.Unknown));
    case Tick(killPressed) =>
      assert Apply(n, step).apps == S.Alive(n.apps, DeadSet(n.conns));
      hide *;
      DistinctAlive(n.apps, DeadSet(n.conns));
    case _ => hide DistinctIds, Holds;
  }

  lemma StepWords(n: Net, step: Step)
    requires WordsConfirmed(n) && Enabled(n, step)
    ensures WordsConfirmed(Apply(n, step))
  {
    StepKeeps(n, step);
    StepDistinct(n, step);
    forall c | 0 <= c < |n.conns|
      ensures c < |Apply(n, step).conns| && WordConfirmed(Apply(n, step).conns[c], c, Apply(n, step).apps)
    {
      ConnWord(n, step, c);
    }
    ConnsGrow(n, step);
    if step == Connect {
      NoRecordYet(n);
    }
    hide Apply, Holds, WordConfirmed, DistinctIds, Enabled;
  }

  lemma NoRecordYet(n: Net)
    requires Holds(n)
    ensures WordConfirmed(NEW_CONN, |n.conns|, Apply(n, Connect).apps)
  {
    hide ConnHolds, Standing;
    assert Standing([REGISTER]) == Standing([]) == Other by {
      StandingEmpty();
    }
  }

  lemma StandingEmpty()
    ensures Standing([]) == Other && Standing([REGISTER]) == Other && Standing(NEW_CONN.log[..NEW_CONN.read]) == Other
  {
    StandingSnoc([], REGISTER);
    assert [] + [REGISTER] == [REGISTER] && NEW_CONN.log[..NEW_CONN.read] == [];
  }

  lemma {:induction false} RunWords(n: Net, steps: seq<Step>)
    requires WordsConfirmed(n) && IsRun(n, steps)
    ensures WordsConfirmed(After(n, steps))
    decreases |steps|
  {
    if steps != [] {
      StepWords(n, steps[0]);
      RunWords(Apply(n, steps[0]), steps[1..]);
    }
  }

  /** In every reachable state, once everything an application sent is served, the state the server keeps for
      it is that of the last pause or resume the application handled: paused, running, or unknown when there
      was none. */
  lemma RecordIsLastWord(renderers: nat, steps: seq<Step>, a: S.App)
    requires IsRun(Start(renderers), steps) && a in After(Start(renderers), steps).apps
    ensures var n := After(Start(renderers), steps);
            && a.connection < |n.conns| && n.conns[a.connection].read <= |n.conns[a.connection].log|
            && var conn := n.conns[a.connection];
               var word := Standing(conn.log[..conn.read]);
               conn.toServer == [] ==>
                 a.state == if word == AppPause then S.Paused else if word == AppResume then S.Running else S.Unknown
  {
    RunWords(Start(renderers), steps);
    var n := After(Start(renderers), steps);
    assert ConnHolds(n.conns[a.connection]) && WordConfirmed(n.conns[a.connection], a.connection, n.apps);
    StandingKinds(n.conns[a.connection].log[..n.conns[a.connection].read]);
    StandingEmpty();
    hide ConnHolds, Standing;
  }
}
