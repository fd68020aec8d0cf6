/**
  The server and its clients as one state machine. Every handler call, server tick and drawing
  thread step is one atomic step; each connection is a FIFO channel in both directions; the ids of
  registered applications are non-zero and distinct. The server has any number of renderers.
 */
module Protocol {
  import opened Messages
  import S = Server
  import A = Application

  /** One connection: its client, the messages on their way to the server, everything the server ever
      sent on it, how much of that was delivered, how many of its frames were refused and how many it
      sent, the id registered on it (0 before), and whether it died. */
  datatype Conn = Conn(
    client: A.Client, toServer: seq<Message>, log: seq<Message>, read: nat,
    refused: nat, frames: nat, appId: int, dead: bool)

  /** The stack, the connections by number, the applications ever registered, in that order, and the
      number of the server's renderers. */
  datatype Net = Net(apps: seq<S.App>, conns: seq<Conn>, registered: seq<S.App>, renderers: nat)

  function Start(renderers: nat): Net {
    Net([], [], [], renderers)
  }

  const REGISTER := Message(RegisterApp, 0, false)

  const NEW_CONN := Conn(A.NEW_CLIENT, [REGISTER], [], 0, 0, 0, 0, false)

  datatype Step =
    | Connect                             // a client starts and asks to be registered
    | Serve(c: nat, newId: int)           // the server handles the oldest message of a connection
    | Tick(killPressed: bool)
    | Receive(c: nat)                     // a client handles the oldest undelivered message
    | Loop(c: nat, loops: bool)           // a drawing thread moves on
    | Die(c: nat)

  predicate Enabled(n: Net, step: Step) {
    match step
    case Connect => true
    case Tick(_) => true
    case Serve(c, newId) =>
      c < |n.conns| && n.conns[c].toServer != [] && newId > 0 && forall a | a in n.registered :: a.id != newId
    case Receive(c) =>
      c < |n.conns| && !n.conns[c].dead && n.conns[c].read < |n.conns[c].log| &&
      (n.conns[c].client.joining ==> n.conns[c].client.stage == A.Done)
    case Loop(c, _) => c < |n.conns| && !n.conns[c].dead
    case Die(c) => c < |n.conns|
  }

  function Logged(conns: seq<Conn>, e: Envelope): seq<Conn> {
    if e.connection < |conns| then
      conns[e.connection := conns[e.connection].(log := conns[e.connection].log + [e.message])]
    else conns
  }

  function AllLogged(conns: seq<Conn>, sent: seq<Envelope>): seq<Conn> {
    if sent == [] then conns else Logged(AllLogged(conns, sent[..|sent| - 1]), sent[|sent| - 1])
  }

  function DeadSet(conns: seq<Conn>): set<nat> {
    set c | 0 <= c < |conns| && conns[c].dead
  }

  /** Whether this is a frame of an application that is not on top. */
  predicate Refuses(apps: seq<S.App>, m: Message) {
    m.kind == SetScreenFrame && !(apps != [] && m.appId == S.Top(apps).id)
  }

  /** The connection a message is taken from, before what it causes is sent. */
  function Taken(conn: Conn, newId: int, refused: bool): Conn
    requires conn.toServer != []
  {
    conn.(toServer := conn.toServer[1..],
          refused := conn.refused + (if refused then 1 else 0),
          appId := if conn.toServer[0] == REGISTER then newId else conn.appId)
  }

  /** The client after the handler ran, before its replies are sent. */
  function Told(conn: Conn): Conn
    requires conn.read < |conn.log|
  {
    conn.(client := A.Handles(conn.client, conn.log[conn.read]).client, read := conn.read + 1)
  }

  /** The client after a step of its drawing thread, before the frame is sent. */
  function Moved(conn: Conn, loops: bool): Conn {
    var r := A.Loops(conn.client, loops);
    conn.(client := r.client, frames := conn.frames + |r.sent|)
  }

  function Apply(n: Net, step: Step): Net
    requires Enabled(n, step)
  {
    match step
    case Connect => n.(conns := n.conns + [NEW_CONN])
    case Serve(c, newId) =>
      var m := n.conns[c].toServer[0];
      var out := S.Handled(n.apps, c, m, newId, n.renderers);
      var taken := n.conns[c := Taken(n.conns[c], newId, Refuses(n.apps, m))];
      n.(apps := out.apps, conns := AllLogged(taken, out.sent),
         registered := n.registered + (if m == REGISTER then [S.App(newId, c, S.Unknown)] else []))
    case Tick(killPressed) =>
      var out := S.Ticked(n.apps, killPressed, DeadSet(n.conns));
      n.(apps := out.apps, conns := AllLogged(n.conns, out.sent))
    case Receive(c) =>
      var conn := n.conns[c];
      var replies := A.Handles(conn.client, conn.log[conn.read]).sent;
      n.(conns := n.conns[c := Told(conn).(toServer := conn.toServer + replies)])
    case Loop(c, loops) =>
      var conn := n.conns[c];
      var frames := A.Loops(conn.client, loops).sent;
      n.(conns := n.conns[c := Moved(conn, loops).(toServer := conn.toServer + frames)])
    case Die(c) => n.(conns := n.conns[c := n.conns[c].(dead := true)])
  }

  predicate IsRun(n: Net, steps: seq<Step>)
    decreases |steps|
  {
    steps == [] || (Enabled(n, steps[0]) && IsRun(Apply(n, steps[0]), steps[1..]))
  }

  function After(n: Net, steps: seq<Step>): Net
    requires IsRun(n, steps)
    decreases |steps|
  {
    if steps == [] then n else After(Apply(n, steps[0]), steps[1..])
  }

  // ----- What holds of every connection -----

  /** The state a client is in after handling these messages. */
  function StateAfter(ms: seq<Message>): A.AppState {
    if ms == [] then A.Starting else A.NextState(StateAfter(ms[..|ms| - 1]), ms[|ms| - 1].kind)
  }

  /** Before registration nothing but the request has happened; afterwards the first message sent to
      the client is the confirmation, and everything it sends carries its id. */
  ghost predicate Introduced(conn: Conn) {
    if conn.appId == 0 then
      conn.(dead := false) == NEW_CONN
    else
      && conn.appId > 0 && conn.log != [] && conn.log[0] == Message(RegisterApp, conn.appId, true)
      && (forall i | 1 <= i < |conn.log| :: conn.log[i].kind != RegisterApp && conn.log[i].kind != RequestScreenAccess)
      && (forall m | m in conn.toServer :: m.kind != RegisterApp && m.appId == conn.appId)
  }

  /** The client is what the delivered messages made it. */
  ghost predicate InStep(conn: Conn)
    requires conn.read <= |conn.log|
  {
    && conn.client.appId == (if conn.read == 0 then 0 else conn.appId)
    && conn.client.state == StateAfter(conn.log[..conn.read])
    && (conn.read == 0 ==> conn.client == A.NEW_CLIENT)
  }

  ghost predicate ConnHolds(conn: Conn) {
    conn.read <= |conn.log| && Introduced(conn) && InStep(conn)
  }

  /** The server sends messages other than a confirmation on a registered connection. */
  lemma LogKeeps(conn: Conn, ms: seq<Message>)
    requires ConnHolds(conn) && conn.appId != 0
    requires forall m | m in ms :: m.kind != RegisterApp && m.kind != RequestScreenAccess
    ensures ConnHolds(conn.(log := conn.log + ms))
  {
    var log := conn.log + ms;
    assert log[..conn.read] == conn.log[..conn.read];
    hide StateAfter;
    forall i | 1 <= i < |log|
      ensures log[i].kind != RegisterApp && log[i].kind != RequestScreenAccess
    {
      assert i >= |conn.log| ==> log[i] in ms;
    }
  }

  /** The client sends messages with its id. */
  lemma SendKeeps(conn: Conn, ms: seq<Message>)
    requires ConnHolds(conn) && conn.appId != 0
    requires forall m | m in ms :: m.kind != RegisterApp && m.appId == conn.appId
    ensures ConnHolds(conn.(toServer := conn.toServer + ms))
  {
    hide StateAfter;
  }

  lemma ToldState(conn: Conn)
    requires conn.read < |conn.log| && Introduced(conn) && InStep(conn)
    ensures InStep(Told(conn))
  {
    var delivered := conn.log[..conn.read + 1];
    assert delivered[..conn.read] == conn.log[..conn.read];
    assert StateAfter(delivered) == A.NextState(StateAfter(conn.log[..conn.read]), conn.log[conn.read].kind);
    hide StateAfter;
  }

  lemma RepliesAre(conn: Conn)
    requires conn.read < |conn.log| && ConnHolds(conn)
    ensures Introduced(Told(conn)) && conn.appId != 0
    ensures forall m | m in A.Handles(conn.client, conn.log[conn.read]).sent :: m.kind != RegisterApp && m.appId == conn.appId
  {
    hide StateAfter;
  }

  lemma ReceiveKeeps(conn: Conn)
    requires conn.read < |conn.log| && ConnHolds(conn)
    ensures ConnHolds(Told(conn).(toServer := conn.toServer + A.Handles(conn.client, conn.log[conn.read]).sent))
  {
    ToldState(conn);
    RepliesAre(conn);
    hide Introduced, InStep, A.Handles;
    SendKeeps(Told(conn), A.Handles(conn.client, conn.log[conn.read]).sent);
  }

  lemma MovedKeeps(conn: Conn, loops: bool)
    requires ConnHolds(conn)
    ensures ConnHolds(Moved(conn, loops)) && Moved(conn, loops).toServer == conn.toServer
    ensures var sent := A.Loops(conn.client, loops).sent;
            sent == [] || (conn.appId != 0 && sent == [Message(SetScreenFrame, conn.appId, false)])
  {
    hide StateAfter;
    assert conn.log[..0] == [];
  }

  lemma LoopKeeps(conn: Conn, loops: bool)
    requires ConnHolds(conn)
    ensures ConnHolds(Moved(conn, loops).(toServer := conn.toServer + A.Loops(conn.client, loops).sent))
  {
    var sent := A.Loops(conn.client, loops).sent;
    MovedKeeps(conn, loops);
    assert Moved(conn, loops).appId == conn.appId;
    hide ConnHolds, A.Loops, Moved;
    if sent == [] {
      assert conn.toServer + sent == conn.toServer;
    } else {
      SendKeeps(Moved(conn, loops), sent);
    }
  }

  // ----- What holds of the stack -----

  /** The last pause or resume among these messages; Other when there is none. */
  function Standing(ms: seq<Message>): Kind {
    if ms == [] then Other
    else if ms[|ms| - 1].kind == AppPause || ms[|ms| - 1].kind == AppResume then ms[|ms| - 1].kind
    else Standing(ms[..|ms| - 1])
  }

  /** Every application on the stack is the one registered on its connection. */
  ghost predicate Rooted(apps: seq<S.App>, conns: seq<Conn>) {
    forall a | a in apps :: a.connection < |conns| && a.id == conns[a.connection].appId && a.id > 0
  }

  /** The last word the server sent to an application was a pause exactly when it is not `top`. */
  ghost predicate Controlled(apps: seq<S.App>, conns: seq<Conn>, top: int)
    requires Rooted(apps, conns)
  {
    forall a | a in apps :: Standing(conns[a.connection].log) == AppPause <==> a.id != top
  }

  /** No id is registered on two connections, and every id in use was registered. */
  ghost predicate Distinct(conns: seq<Conn>, registered: seq<S.App>) {
    && (forall i, j | 0 <= i < j < |conns| && conns[i].appId != 0 :: conns[i].appId != conns[j].appId)
    && (forall i | 0 <= i < |conns| && conns[i].appId != 0 :: S.App(conns[i].appId, i, S.Unknown) in registered)
  }

  ghost predicate Sound(apps: seq<S.App>, conns: seq<Conn>, registered: seq<S.App>, top: int) {
    && (forall c | 0 <= c < |conns| :: ConnHolds(conns[c]))
    && Rooted(apps, conns) && Controlled(apps, conns, top) && Distinct(conns, registered)
  }

  /** The invariant of every reachable state. */
  ghost predicate Holds(n: Net) {
    Sound(n.apps, n.conns, n.registered, S.TopId(n.apps))
  }

  lemma StandingSnoc(ms: seq<Message>, m: Message)
    ensures Standing(ms + [m]) == if m.kind == AppPause || m.kind == AppResume then m.kind else Standing(ms)
  {
    assert (ms + [m])[..|ms|] == ms;
  }

  lemma {:induction false} StandingAppend(ms: seq<Message>, more: seq<Message>)
    requires forall m | m in more :: m.kind != AppPause && m.kind != AppResume
    ensures Standing(ms + more) == Standing(ms)
    decreases |more|
  {
    if more == [] {
      assert ms + more == ms;
    } else {
      StandingAppend(ms, more[..|more| - 1]);
      assert (ms + more)[..|ms + more| - 1] == ms + more[..|more| - 1];
    }
  }

  /** All acknowledgements of a frame go out on its connection. */
  lemma {:induction false} AcksLogged(conns: seq<Conn>, c: nat, k: nat)
    requires c < |conns|
    ensures AllLogged(conns, seq(k, _ => Envelope(c, ACK))) == conns[c := conns[c].(log := conns[c].log + seq(k, _ => ACK))]
  {
    var sent := seq(k, _ => Envelope(c, ACK));
    if k == 0 {
      assert sent == [] && conns[c].log + seq(k, _ => ACK) == conns[c].log;
      assert conns[c := conns[c]] == conns;
    } else {
      AcksLogged(conns, c, k - 1);
      assert sent[..k - 1] == seq(k - 1, _ => Envelope(c, ACK)) && sent[k - 1] == Envelope(c, ACK);
      hide AllLogged;
      assert conns[c].log + seq(k - 1, _ => ACK) + [ACK] == conns[c].log + seq(k, _ => ACK);
    }
  }

  lemma AllLoggedFew(conns: seq<Conn>, e: Envelope, f: Envelope)
    ensures AllLogged(conns, []) == conns
    ensures AllLogged(conns, [e]) == Logged(conns, e)
    ensures AllLogged(conns, [e, f]) == Logged(Logged(conns, e), f)
  {
    assert [e][..0] == [] && [e, f][..1] == [e];
  }

  lemma ConnectKeeps(n: Net)
    requires Holds(n)
    ensures Holds(Apply(n, Connect))
  {
    var conns := n.conns + [NEW_CONN];
    assert forall c | 0 <= c < |n.conns| :: conns[c] == n.conns[c];
    assert ConnHolds(NEW_CONN);
    hide ConnHolds, Standing;
  }

  /** One connection changes, and with it possibly which application counts as the top one. */
  lemma ConnKeeps(apps: seq<S.App>, conns: seq<Conn>, registered: seq<S.App>, top: int, c: nat, next: Conn, newTop: int)
    requires Sound(apps, conns, registered, top) && c < |conns|
    requires ConnHolds(next) && next.appId == conns[c].appId
    requires forall a | a in apps && a.connection != c :: a.id != top <==> a.id != newTop
    requires if Standing(next.log) == Standing(conns[c].log) then conns[c].appId != top <==> conns[c].appId != newTop
             else Standing(next.log) == AppPause <==> conns[c].appId != newTop
    ensures Sound(apps, conns[c := next], registered, newTop)
  {
    hide ConnHolds, Standing;
    var after := conns[c := next];
    assert forall i | 0 <= i < |conns| :: after[i].appId == conns[i].appId;
  }

  /** The server sends a message that neither confirms a registration nor acknowledges a frame. */
  lemma TellKeeps(apps: seq<S.App>, conns: seq<Conn>, registered: seq<S.App>, top: int, e: Envelope, newTop: int)
    requires Sound(apps, conns, registered, top) && e.connection < |conns| && conns[e.connection].appId != 0
    requires e.message.kind != RegisterApp && e.message.kind != RequestScreenAccess && e.message.kind != SetScreenFrame
    requires forall a | a in apps && a.connection != e.connection :: a.id != top <==> a.id != newTop
    requires match e.message.kind
             case AppPause => conns[e.connection].appId != newTop
             case AppResume => conns[e.connection].appId == newTop
             case _ => newTop == top
    ensures Sound(apps, Logged(conns, e), registered, newTop)
  {
    var conn := conns[e.connection];
    var next := conn.(log := conn.log + [e.message]);
    LogKeeps(conn, [e.message]);
    StandingSnoc(conn.log, e.message);
    assert ConnHolds(next);
    if forall a | a in apps :: a.connection != e.connection {
      UnrootedKeeps(apps, conns, registered, top, e.connection, next, newTop);
    } else {
      ConnKeeps(apps, conns, registered, top, e.connection, next, newTop);
    }
  }

  /** A connection changes that no application on the stack belongs to. */
  lemma UnrootedKeeps(apps: seq<S.App>, conns: seq<Conn>, registered: seq<S.App>, top: int, c: nat, next: Conn, newTop: int)
    requires Sound(apps, conns, registered, top) && c < |conns|
    requires ConnHolds(next) && next.appId == conns[c].appId
    requires forall a | a in apps :: a.connection != c && (a.id != top <==> a.id != newTop)
    ensures Sound(apps, conns[c := next], registered, newTop)
  {
    hide ConnHolds, Standing;
    var after := conns[c := next];
    assert forall i | 0 <= i < |conns| :: after[i].appId == conns[i].appId;
  }

  /** Applications leave the stack. */
  lemma ShrinkKeeps(apps: seq<S.App>, rest: seq<S.App>, conns: seq<Conn>, registered: seq<S.App>, top: int)
    requires Sound(apps, conns, registered, top)
    requires forall a | a in rest :: a in apps
    ensures Sound(rest, conns, registered, top)
  {
    hide ConnHolds, Standing;
  }

  function ResumeSent(apps: seq<S.App>, rest: seq<S.App>): seq<Envelope> {
    if S.TopId(rest) != S.TopId(apps) then S.Resumed(rest) else []
  }

  /** After a removal the new top application, if there is one, is told to resume. */
  lemma RemovalKeeps(apps: seq<S.App>, rest: seq<S.App>, conns: seq<Conn>, registered: seq<S.App>)
    requires Sound(apps, conns, registered, S.TopId(apps))
    requires forall a | a in rest :: a in apps
    requires S.TopId(rest) == S.TopId(apps) || forall a | a in rest :: a.id != S.TopId(apps)
    ensures Sound(rest, AllLogged(conns, ResumeSent(apps, rest)), registered, S.TopId(rest))
  {
    var e := if rest == [] then Envelope(0, REGISTER) else S.ToApp(S.Top(rest), AppResume);
    AllLoggedFew(conns, e, e);
    ShrinkKeeps(apps, rest, conns, registered, S.TopId(apps));
    hide AllLogged, ConnHolds, Standing;
    if S.TopId(rest) != S.TopId(apps) && rest != [] {
      assert S.Top(rest) in rest;
      TellKeeps(rest, conns, registered, S.TopId(apps), e, S.TopId(rest));
    }
  }

  lemma {:induction false} WithoutFacts(apps: seq<S.App>, id: int)
    ensures forall a | a in S.Without(apps, id) :: a in apps && a.id != id
    ensures apps != [] && S.Top(apps).id != id ==> S.TopId(S.Without(apps, id)) == S.TopId(apps)
  {
    if apps != [] {
      WithoutFacts(apps[..|apps| - 1], id);
    }
  }

  lemma {:induction false} AliveFacts(apps: seq<S.App>, dead: set<nat>)
    ensures forall a | a in S.Alive(apps, dead) :: a in apps && a.connection !in dead
    ensures apps != [] && S.Top(apps).connection !in dead ==> S.TopId(S.Alive(apps, dead)) == S.TopId(apps)
  {
    if apps != [] {
      AliveFacts(apps[..|apps| - 1], dead);
    }
  }

  lemma {:induction false} WithStateFacts(apps: seq<S.App>, id: int, state: S.AppState)
    ensures var r := S.WithState(apps, id, state);
            |r| == |apps| && forall i | 0 <= i < |r| :: r[i].id == apps[i].id && r[i].connection == apps[i].connection
  {
    if apps != [] && apps[0].id != id {
      WithStateFacts(apps[1..], id, state);
    }
  }

  lemma WithStateKeeps(apps: seq<S.App>, conns: seq<Conn>, registered: seq<S.App>, id: int, state: S.AppState)
    requires Sound(apps, conns, registered, S.TopId(apps))
    ensures var r := S.WithState(apps, id, state); Sound(r, conns, registered, S.TopId(r))
  {
    WithStateFacts(apps, id, state);
    hide ConnHolds, Standing;
    var r := S.WithState(apps, id, state);
    forall a | a in r
      ensures exists b :: b in apps && b.id == a.id && b.connection == a.connection
    {
      var i :| 0 <= i < |r| && r[i] == a;
      assert apps[i] in apps;
    }
  }

  lemma {:induction false} AllLoggedAppend(conns: seq<Conn>, a: seq<Envelope>, b: seq<Envelope>)
    ensures AllLogged(conns, a + b) == AllLogged(AllLogged(conns, a), b)
    decreases |b|
  {
    if b == [] {
      assert a + b == a;
    } else {
      AllLoggedAppend(conns, a, b[..|b| - 1]);
      assert (a + b)[..|a + b| - 1] == a + b[..|b| - 1];
    }
  }

  /** A removed top application shares its id with none that stays. */
  lemma TopIsGone(apps: seq<S.App>, conns: seq<Conn>, registered: seq<S.App>, dead: set<nat>)
    requires Sound(apps, conns, registered, S.TopId(apps))
    ensures var rest := S.Alive(apps, dead);
            && (forall a | a in rest :: a in apps)
            && (S.TopId(rest) == S.TopId(apps) || forall a | a in rest :: a.id != S.TopId(apps))
            && (S.TopId(rest) == -1 ==> S.Resumed(rest) == [])
  {
    AliveFacts(apps, dead);
    hide ConnHolds, Standing;
    var rest := S.Alive(apps, dead);
    if rest != [] {
      assert S.Top(rest) in rest;
    }
    if apps != [] && S.Top(apps).connection in dead {
      assert S.Top(apps) in apps;
      forall a | a in rest
        ensures a.id != S.TopId(apps)
      {
        assert a in apps && a.connection != S.Top(apps).connection;
      }
    }
  }

  function KillSent(apps: seq<S.App>, killPressed: bool): seq<Envelope> {
    if killPressed && apps != [] then [Envelope(S.Top(apps).connection, Message(AppKill, 0, false))] else []
  }

  lemma KillKeeps(n: Net, killPressed: bool)
    requires Holds(n)
    ensures Sound(n.apps, AllLogged(n.conns, KillSent(n.apps, killPressed)), n.registered, S.TopId(n.apps))
  {
    var e := Envelope(if n.apps != [] then S.Top(n.apps).connection else 0, Message(AppKill, 0, false));
    AllLoggedFew(n.conns, e, e);
    hide AllLogged, ConnHolds, Standing;
    if killPressed && n.apps != [] {
      assert S.Top(n.apps) in n.apps;
      TellKeeps(n.apps, n.conns, n.registered, S.TopId(n.apps), e, S.TopId(n.apps));
    }
  }

  lemma TickIs(n: Net, killPressed: bool)
    requires var rest := S.Alive(n.apps, DeadSet(n.conns)); S.TopId(rest) == -1 ==> S.Resumed(rest) == []
    ensures var rest, kill := S.Alive(n.apps, DeadSet(n.conns)), KillSent(n.apps, killPressed);
            Apply(n, Tick(killPressed)) ==
            n.(apps := rest, conns := AllLogged(AllLogged(n.conns, kill), ResumeSent(n.apps, rest)))
  {
    var dead := DeadSet(n.conns);
    var rest, kill := S.Alive(n.apps, dead), KillSent(n.apps, killPressed);
    AllLoggedAppend(n.conns, kill, ResumeSent(n.apps, rest));
    hide AllLogged, S.Alive, DeadSet;
    assert S.Ticked(n.apps, killPressed, dead).sent == kill + ResumeSent(n.apps, rest);
  }

  lemma TickKeeps(n: Net, killPressed: bool)
    requires Holds(n)
    ensures Holds(Apply(n, Tick(killPressed)))
  {
    var rest := S.Alive(n.apps, DeadSet(n.conns));
    TopIsGone(n.apps, n.conns, n.registered, DeadSet(n.conns));
    KillKeeps(n, killPressed);
    TickIs(n, killPressed);
    hide AllLogged, Sound, DeadSet, Apply, S.Alive, S.Resumed, KillSent;
    RemovalKeeps(n.apps, rest, AllLogged(n.conns, KillSent(n.apps, killPressed)), n.registered);
  }

  // ----- Requests -----

  /** The server takes a message of a registered client off the channel. */
  lemma TakenKeeps(conn: Conn, newId: int, refused: bool)
    requires ConnHolds(conn) && conn.appId != 0 && conn.toServer != []
    ensures var next := Taken(conn, newId, refused);
            ConnHolds(next) && next.appId == conn.appId && next.log == conn.log
    ensures conn.toServer[0].appId == conn.appId && conn.toServer[0].kind != RegisterApp
  {
    assert conn.toServer[0] in conn.toServer;
    hide StateAfter;
  }

  /** A request of a registered client that is not for its removal, as the server leaves its connection. */
  function Answered(n: Net, c: nat, newId: int): Conn
    requires Enabled(n, Serve(c, newId))
  {
    var m := n.conns[c].toServer[0];
    var refused := Refuses(n.apps, m);
    var next := Taken(n.conns[c], newId, refused);
    match m.kind
    case GetServerInfo => next.(log := next.log + [Message(GetServerInfo, 0, false)])
    case SetScreenFrame =>
      next.(log := next.log + (if refused then [Message(AppPause, m.appId, false)] else seq(n.renderers, _ => ACK)))
    case _ => next
  }

  lemma AnsweredKeeps(n: Net, c: nat, newId: int)
    requires Holds(n) && Enabled(n, Serve(c, newId)) && n.conns[c].appId != 0
    ensures var next := Answered(n, c, newId);
            && ConnHolds(next) && next.appId == n.conns[c].appId
            && (if Refuses(n.apps, n.conns[c].toServer[0])
                then Standing(next.log) == AppPause else Standing(next.log) == Standing(n.conns[c].log))
    ensures n.conns[c].toServer[0].appId == n.conns[c].appId
  {
    var conn := n.conns[c];
    var m := conn.toServer[0];
    var refused := Refuses(n.apps, m);
    assert ConnHolds(conn);
    TakenKeeps(conn, newId, refused);
    hide ConnHolds, Standing, Sound, Refuses;
    var next, last := Taken(conn, newId, refused), Answered(n, c, newId);
    if m.kind == GetServerInfo {
      LogKeeps(next, [Message(GetServerInfo, 0, false)]);
      StandingAppend(conn.log, [Message(GetServerInfo, 0, false)]);
    } else if m.kind == SetScreenFrame && !refused {
      LogKeeps(next, seq(n.renderers, _ => ACK));
      StandingAppend(conn.log, seq(n.renderers, _ => ACK));
    } else if refused {
      OnlyFramesRefused(n.apps, m);
      LogKeeps(next, [Message(AppPause, m.appId, false)]);
      StandingSnoc(conn.log, Message(AppPause, m.appId, false));
    }
  }

  lemma OnlyFramesRefused(apps: seq<S.App>, m: Message)
    ensures Refuses(apps, m) ==> m.kind == SetScreenFrame
  {
  }

  lemma AnsweredIsSound(n: Net, c: nat, newId: int)
    requires Holds(n) && Enabled(n, Serve(c, newId)) && n.conns[c].appId != 0
    ensures Sound(n.apps, n.conns[c := Answered(n, c, newId)], n.registered, S.TopId(n.apps))
  {
    AnsweredKeeps(n, c, newId);
    assert ConnHolds(n.conns[c]);
    assert Refuses(n.apps, n.conns[c].toServer[0]) ==> n.conns[c].appId != S.TopId(n.apps);
    var next := Answered(n, c, newId);
    hide ConnHolds, Standing, Answered, Refuses;
    if forall a | a in n.apps :: a.connection != c {
      UnrootedKeeps(n.apps, n.conns, n.registered, S.TopId(n.apps), c, next, S.TopId(n.apps));
    } else {
      ConnKeeps(n.apps, n.conns, n.registered, S.TopId(n.apps), c, next, S.TopId(n.apps));
    }
  }

  /** Apart from its answer on the same connection, a registered client's request changes the stack
      only by an application's reported state or by its removal. */
  lemma ServeIsAnswer(n: Net, c: nat, newId: int)
    requires Enabled(n, Serve(c, newId)) && n.conns[c].toServer[0].kind != RegisterApp
    ensures var m, conns := n.conns[c].toServer[0], n.conns[c := Answered(n, c, newId)];
            var after := Apply(n, Serve(c, newId));
            && after.registered == n.registered && after.renderers == n.renderers
            && match m.kind
               case AppPause => after.apps == S.WithState(n.apps, m.appId, S.Paused) && after.conns == conns
               case AppResume => after.apps == S.WithState(n.apps, m.appId, S.Running) && after.conns == conns
               case AppKill =>
                 var rest := S.Without(n.apps, m.appId);
                 after.apps == rest && after.conns ==
                   AllLogged(conns, if n.apps != [] && S.TopId(n.apps) == m.appId then S.Resumed(rest) else [])
               case _ => after.apps == n.apps && after.conns == conns
  {
    var m := n.conns[c].toServer[0];
    var out := S.Handled(n.apps, c, m, newId, n.renderers);
    var e := if out.sent == [] then Envelope(0, m) else out.sent[0];
    var taken := Taken(n.conns[c], newId, Refuses(n.apps, m));
    AllLoggedFew(n.conns[c := taken], e, e);
    AcksLogged(n.conns[c := taken], c, n.renderers);
    hide AllLogged;
    assert n.conns[c := taken][c := Answered(n, c, newId)] == n.conns[c := Answered(n, c, newId)];
    if m.kind == GetServerInfo || Refuses(n.apps, m) {
      assert out.sent == [e];
    } else if m.kind == SetScreenFrame {
      assert out.sent == seq(n.renderers, _ => Envelope(c, ACK));
    }
    assert n.registered + [] == n.registered;
  }

  lemma ServeKeeps(n: Net, c: nat, newId: int)
    requires Holds(n) && Enabled(n, Serve(c, newId)) && n.conns[c].appId != 0
    ensures Holds(Apply(n, Serve(c, newId)))
  {
    var m, conns := n.conns[c].toServer[0], n.conns[c := Answered(n, c, newId)];
    assert ConnHolds(n.conns[c]) && m in n.conns[c].toServer;
    AnsweredIsSound(n, c, newId);
    ServeIsAnswer(n, c, newId);
    hide Sound, Apply, AllLogged, Answered, ConnHolds;
    if m.kind == AppPause {
      WithStateKeeps(n.apps, conns, n.registered, m.appId, S.Paused);
    } else if m.kind == AppResume {
      WithStateKeeps(n.apps, conns, n.registered, m.appId, S.Running);
    } else if m.kind == AppKill {
      WithoutFacts(n.apps, m.appId);
      var rest := S.Without(n.apps, m.appId);
      WithoutTop(n.apps, m.appId);
      RemovalKeeps(n.apps, rest, conns, n.registered);
    }
  }

  /** Removing an id changes the top application exactly if it is the top one. */
  lemma WithoutTop(apps: seq<S.App>, id: int)
    requires forall a | a in apps :: a.id > 0
    ensures var rest := S.Without(apps, id);
            apps != [] && S.TopId(apps) == id <==> S.TopId(rest) != S.TopId(apps)
  {
    WithoutFacts(apps, id);
    var rest := S.Without(apps, id);
    if rest != [] {
      assert S.Top(rest) in rest;
    }
    if apps != [] {
      assert S.Top(apps) in apps;
    }
  }

  // ----- Registration -----

  function Confirmed(conn: Conn, newId: int): Conn {
    conn.(toServer := [], appId := newId, log := [Message(RegisterApp, newId, true)])
  }

  lemma ConfirmedHolds(conn: Conn, newId: int)
    requires ConnHolds(conn) && conn.appId == 0 && newId > 0
    ensures var next := Confirmed(conn, newId);
            ConnHolds(next) && Standing(next.log) != AppPause
  {
    var next := Confirmed(conn, newId);
    assert next.log[..0] == [];
    assert next.log[0..] == next.log;
    CountNone(SetScreenFrame, next.log);
  }

  /** A client is registered while every application on the stack is paused. */
  lemma PushKeeps(apps: seq<S.App>, conns: seq<Conn>, registered: seq<S.App>, c: nat, newId: int)
    requires Sound(apps, conns, registered, newId) && c < |conns| && conns[c].appId == 0
    requires newId > 0 && forall a | a in registered :: a.id != newId
    ensures var app := S.App(newId, c, S.Unknown);
            Sound(apps + [app], conns[c := Confirmed(conns[c], newId)], registered + [app], newId)
  {
    assert ConnHolds(conns[c]);
    ConfirmedHolds(conns[c], newId);
    hide ConnHolds, Standing, Distinct, Confirmed;
    assert forall i | 0 <= i < |conns| && i != c :: conns[c := Confirmed(conns[c], newId)][i] == conns[i];
    PushDistinct(conns, registered, c, newId);
  }

  lemma PushDistinct(conns: seq<Conn>, registered: seq<S.App>, c: nat, newId: int)
    requires Distinct(conns, registered) && c < |conns| && newId > 0
    requires forall a | a in registered :: a.id != newId
    ensures Distinct(conns[c := Confirmed(conns[c], newId)], registered + [S.App(newId, c, S.Unknown)])
    ensures Confirmed(conns[c], newId).appId == newId
  {
    var after, app := conns[c := Confirmed(conns[c], newId)], S.App(newId, c, S.Unknown);
    forall i | 0 <= i < |after| && after[i].appId != 0
      ensures S.App(after[i].appId, i, S.Unknown) in registered + [app]
    {
      assert i != c ==> S.App(conns[i].appId, i, S.Unknown) in registered;
    }
    assert forall i | 0 <= i < |conns| && conns[i].appId != 0 :: conns[i].appId != newId;
  }

  /** The connections once the top application was told to make room. */
  function MadeRoom(n: Net): seq<Conn> {
    if n.apps == [] then n.conns else Logged(n.conns, S.ToApp(S.Top(n.apps), AppPause))
  }

  lemma RegisterIs(n: Net, c: nat, newId: int)
    requires Enabled(n, Serve(c, newId)) && n.conns[c].(dead := false) == NEW_CONN
    requires n.apps != [] ==> S.Top(n.apps).connection != c
    ensures var app := S.App(newId, c, S.Unknown);
            Apply(n, Serve(c, newId)) ==
            n.(apps := n.apps + [app], conns := MadeRoom(n)[c := Confirmed(n.conns[c], newId)],
               registered := n.registered + [app])
  {
    var ok := Envelope(c, Message(RegisterApp, newId, true));
    var e := if n.apps == [] then ok else S.ToApp(S.Top(n.apps), AppPause);
    var taken := n.conns[c := Taken(n.conns[c], newId, false)];
    AllLoggedFew(taken, if n.apps == [] then ok else e, ok);
    hide AllLogged;
    assert [] + [ok.message] == [ok.message];
    assert [REGISTER][1..] == [];
    var logs := if n.apps == [] then Logged(taken, ok) else Logged(Logged(taken, e), ok);
    assert logs == MadeRoom(n)[c := Confirmed(n.conns[c], newId)];
    assert S.Handled(n.apps, c, REGISTER, newId, n.renderers).sent == if n.apps == [] then [ok] else [e, ok];
  }

  lemma RoomKeeps(n: Net, newId: int)
    requires Holds(n) && forall a | a in n.registered :: a.id != newId
    ensures Sound(n.apps, MadeRoom(n), n.registered, newId)
    ensures |MadeRoom(n)| == |n.conns|
    ensures forall i | 0 <= i < |n.conns| && n.conns[i].appId == 0 :: MadeRoom(n)[i] == n.conns[i]
  {
    FreshIsNew(n, newId);
    hide ConnHolds, Standing;
    if n.apps != [] {
      assert S.Top(n.apps) in n.apps;
      TellKeeps(n.apps, n.conns, n.registered, S.TopId(n.apps), S.ToApp(S.Top(n.apps), AppPause), newId);
    }
  }

  lemma RegisterKeeps(n: Net, c: nat, newId: int)
    requires Holds(n) && Enabled(n, Serve(c, newId)) && n.conns[c].appId == 0
    ensures Holds(Apply(n, Serve(c, newId)))
  {
    assert ConnHolds(n.conns[c]);
    if n.apps != [] {
      assert S.Top(n.apps) in n.apps;
    }
    RegisterIs(n, c, newId);
    RoomKeeps(n, newId);
    hide Sound, Apply, MadeRoom;
    PushKeeps(n.apps, MadeRoom(n), n.registered, c, newId);
  }

  lemma FreshIsNew(n: Net, newId: int)
    requires Holds(n) && forall a | a in n.registered :: a.id != newId
    ensures forall i | 0 <= i < |n.conns| :: n.conns[i].appId != 0 ==> n.conns[i].appId != newId
    ensures forall a | a in n.apps :: a.id != newId
  {
    hide ConnHolds, Standing;
  }

  // ----- Every run -----

  lemma StepKeeps(n: Net, step: Step)
    requires Holds(n) && Enabled(n, step)
    ensures Holds(Apply(n, step))
  {
    match step
    case Connect => ConnectKeeps(n);
    case Tick(killPressed) => TickKeeps(n, killPressed);
    case Serve(c, newId) =>
      if n.conns[c].appId == 0 {
        RegisterKeeps(n, c, newId);
      } else {
        ServeKeeps(n, c, newId);
      }
    case Receive(c) =>
      ReceiveKeeps(n.conns[c]);
      ClientKeeps(n, c, Apply(n, step).conns[c]);
    case Loop(c, loops) =>
      LoopKeeps(n.conns[c], loops);
      ClientKeeps(n, c, Apply(n, step).conns[c]);
    case Die(c) =>
      DieKeeps(n.conns[c]);
      ClientKeeps(n, c, Apply(n, step).conns[c]);
  }

  lemma DieKeeps(conn: Conn)
    requires ConnHolds(conn)
    ensures ConnHolds(conn.(dead := true))
  {
  }

  /** A step of a client, or its death, is no news for the server's side. */
  lemma ClientKeeps(n: Net, c: nat, next: Conn)
    requires Holds(n) && c < |n.conns| && ConnHolds(next)
    requires next.appId == n.conns[c].appId && next.log == n.conns[c].log
    ensures Holds(n.(conns := n.conns[c := next]))
  {
    hide ConnHolds, Standing;
    var after := n.conns[c := next];
    assert forall i | 0 <= i < |after| :: after[i].appId == n.conns[i].appId && after[i].log == n.conns[i].log;
  }

  lemma {:induction false} RunKeeps(n: Net, steps: seq<Step>)
    requires Holds(n) && IsRun(n, steps)
    ensures Holds(After(n, steps))
    decreases |steps|
  {
    if steps != [] {
      StepKeeps(n, steps[0]);
      RunKeeps(Apply(n, steps[0]), steps[1..]);
    }
  }

  /** Stack control: in every reachable state the last pause or resume sent to an application is a
      pause exactly when the application is not on top. */
  lemma OnlyTheTopIsUnpaused(renderers: nat, steps: seq<Step>, a: S.App)
    requires IsRun(Start(renderers), steps) && a in After(Start(renderers), steps).apps
    ensures var n := After(Start(renderers), steps);
            && a.connection < |n.conns| && a.id == n.conns[a.connection].appId
            && (Standing(n.conns[a.connection].log) == AppPause <==> a.id != S.TopId(n.apps))
  {
    RunKeeps(Start(renderers), steps);
  }

  // ----- What clients can rely on -----

  /** The last pause, resume or server info among these messages; Other when there is none. */
  function LastWord(ms: seq<Message>): Kind {
    if ms == [] then Other
    else
      var k := ms[|ms| - 1].kind;
      if k == AppPause || k == AppResume || k == GetServerInfo then k else LastWord(ms[..|ms| - 1])
  }

  /** The state a client that was not killed is in: starting until the server info came, then paused
      exactly if the last word was a pause. */
  lemma {:induction false} StateOfLog(ms: seq<Message>)
    requires Count(AppKill, ms) == 0
    ensures StateAfter(ms) == if Count(GetServerInfo, ms) == 0 then A.Starting
                              else if LastWord(ms) == AppPause then A.Paused else A.Running
    ensures LastWord(ms) == AppPause ==> Standing(ms) == AppPause
    ensures Count(GetServerInfo, ms) == 0 ==> LastWord(ms) == Standing(ms)
    ensures LastWord(ms) == AppResume ==> Standing(ms) == AppResume
  {
    if ms != [] {
      StateOfLog(ms[..|ms| - 1]);
    }
  }

  /** An application that handled everything sent to it, finished its setup and was not killed is
      running if it is on top. If it is not, it is paused, unless its server info came after the
      last pause: only then does it run, and its next frame will be refused. */
  lemma CaughtUp(renderers: nat, steps: seq<Step>, a: S.App)
    requires IsRun(Start(renderers), steps) && a in After(Start(renderers), steps).apps
    ensures var n := After(Start(renderers), steps);
            && a.connection < |n.conns|
            && var conn := n.conns[a.connection];
               conn.read == |conn.log| && Count(GetServerInfo, conn.log) > 0 && Count(AppKill, conn.log) == 0 ==>
                 && (a.id == S.TopId(n.apps) ==> conn.client.state == A.Running)
                 && (a.id != S.TopId(n.apps) ==>
                       conn.client.state == if LastWord(conn.log) == AppPause then A.Paused else A.Running)
  {
    RunKeeps(Start(renderers), steps);
    var n := After(Start(renderers), steps);
    var conn := n.conns[a.connection];
    assert ConnHolds(conn);
    if conn.read == |conn.log| && Count(AppKill, conn.log) == 0 {
      StateOfLog(conn.log);
      assert conn.log[..conn.read] == conn.log;
    }
  }

  /** The server draws a frame, on every renderer, only for the connection whose application is on top, and
      acknowledges it once for each; the frame of any other registered connection is answered with a pause. */
  lemma OnlyTheTopIsDrawn(n: Net, c: nat, newId: int)
    requires Holds(n) && Enabled(n, Serve(c, newId)) && n.conns[c].toServer[0].kind == SetScreenFrame
    ensures var out := S.Handled(n.apps, c, n.conns[c].toServer[0], newId, n.renderers);
            if n.apps != [] && S.Top(n.apps).connection == c then
              out == S.Outcome(n.apps, seq(n.renderers, _ => Envelope(c, ACK)), n.renderers)
            else
              out == S.Outcome(n.apps, [Envelope(c, Message(AppPause, n.conns[c].appId, false))], 0)
  {
    assert ConnHolds(n.conns[c]) && n.conns[c].toServer[0] in n.conns[c].toServer;
    hide ConnHolds, Standing, InStep;
    if n.apps != [] {
      assert S.Top(n.apps) in n.apps;
    }
  }

  lemma {:induction false} AllLoggedKeepsClients(conns: seq<Conn>, sent: seq<Envelope>)
    ensures |AllLogged(conns, sent)| == |conns|
    ensures forall c | 0 <= c < |conns| ::
              AllLogged(conns, sent)[c].(log := []) == conns[c].(log := []) && conns[c].log <= AllLogged(conns, sent)[c].log
  {
    if sent != [] {
      AllLoggedKeepsClients(conns, sent[..|sent| - 1]);
    }
  }

  /** A client killed while it waits for an acknowledgement hangs: its handler waits for the drawing
      thread, the drawing thread for a message only the handler could take. */
  lemma {:induction false} KilledWhileWaitingHangs(n: Net, steps: seq<Step>, c: nat)
    requires IsRun(n, steps) && c < |n.conns|
    requires n.conns[c].client.joining && n.conns[c].client.stage == A.Waiting && !n.conns[c].client.frameAcked
    ensures c < |After(n, steps).conns| && After(n, steps).conns[c].client == n.conns[c].client
    decreases |steps|
  {
    if steps != [] {
      HangingStep(n, steps[0], c);
      KilledWhileWaitingHangs(Apply(n, steps[0]), steps[1..], c);
    }
  }

  lemma HangingStep(n: Net, step: Step, c: nat)
    requires Enabled(n, step) && c < |n.conns|
    requires n.conns[c].client.joining && n.conns[c].client.stage == A.Waiting && !n.conns[c].client.frameAcked
    ensures c < |Apply(n, step).conns| && Apply(n, step).conns[c].client == n.conns[c].client
  {
    match step
    case Serve(s, newId) =>
      var m := n.conns[s].toServer[0];
      var out := S.Handled(n.apps, s, m, newId, n.renderers);
      var taken := n.conns[s := Taken(n.conns[s], newId, Refuses(n.apps, m))];
      AllLoggedKeepsClients(taken, out.sent);
      assert Apply(n, step).conns[c].(log := []) == taken[c].(log := []);
    case Tick(killPressed) =>
      var sent := S.Ticked(n.apps, killPressed, DeadSet(n.conns)).sent;
      AllLoggedKeepsClients(n.conns, sent);
      assert Apply(n, step).conns[c].(log := []) == n.conns[c].(log := []);
    case _ =>
  }
}
