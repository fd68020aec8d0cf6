/**
  The server's stack of applications: `handleRequest` and `tick`. The application that
  registered last is on top; it alone may draw.
 */
module Server {
  import opened Messages

  datatype AppState = Running | Paused | Ended | Killed | Unknown

  datatype App = App(id: int, connection: nat, state: AppState)

  /** The stack afterwards, what was sent and in which order, and how often the frame was rendered. */
  datatype Outcome = Outcome(apps: seq<App>, sent: seq<Envelope>, rendered: nat)

  function Top(apps: seq<App>): App
    requires apps != []
  {
    apps[|apps| - 1]
  }

  function ToApp(app: App, kind: Kind): Envelope {
    Envelope(app.connection, Message(kind, app.id, false))
  }

  function Resumed(apps: seq<App>): seq<Envelope> {
    if apps == [] then [] else [ToApp(Top(apps), AppResume)]
  }

  /** The stack without the applications of this id. */
  function Without(apps: seq<App>, id: int): seq<App> {
    if apps == [] then []
    else Without(apps[..|apps| - 1], id) + (if Top(apps).id == id then [] else [Top(apps)])
  }

  /** The stack without the applications whose connection is dead. */
  function Alive(apps: seq<App>, dead: set<nat>): seq<App> {
    if apps == [] then []
    else Alive(apps[..|apps| - 1], dead) + (if Top(apps).connection in dead then [] else [Top(apps)])
  }

  function TopId(apps: seq<App>): int {
    if apps == [] then -1 else Top(apps).id
  }

  /** The state an application reports, kept with its first entry. */
  function WithState(apps: seq<App>, id: int, state: AppState): seq<App> {
    if apps == [] then []
    else if apps[0].id == id then [apps[0].(state := state)] + apps[1..]
    else [apps[0]] + WithState(apps[1..], id, state)
  }

  lemma WithStateFrom(apps: seq<App>, i: nat, id: int, state: AppState)
    requires i <= |apps|
    ensures i == 0 ==> apps[..i] + WithState(apps[i..], id, state) == WithState(apps, id, state)
    ensures i == |apps| ==> apps[..i] + WithState(apps[i..], id, state) == apps
    ensures i < |apps| ==>
              apps[..i] + WithState(apps[i..], id, state) ==
              if apps[i].id == id then apps[i := apps[i].(state := state)]
              else apps[..i + 1] + WithState(apps[i + 1..], id, state)
  {
    if i == 0 {
      assert apps[i..] == apps;
    }
    if i < |apps| {
      var rest := apps[i..];
      assert rest[1..] == apps[i + 1..];
      var later := WithState(apps[i + 1..], id, state);
      if apps[i].id == id {
        assert WithState(rest, id, state) == [apps[i].(state := state)] + apps[i + 1..];
        hide WithState;
        assert apps[..i] + ([apps[i].(state := state)] + apps[i + 1..]) == apps[i := apps[i].(state := state)];
      } else {
        assert WithState(rest, id, state) == [apps[i]] + later;
        hide WithState;
        assert apps[..i] + ([apps[i]] + later) == apps[..i + 1] + later;
      }
    } else {
      assert apps[i..] == [] && apps[..i] == apps;
    }
  }

  function Handled(apps: seq<App>, connection: nat, m: Message, newId: int, renderers: nat): Outcome {
    match m.kind
    case RegisterApp =>
      if m.appId != 0 then Outcome(apps, [], 0)
      else
        var pause := if apps == [] then [] else [ToApp(Top(apps), AppPause)];
        Outcome(apps + [App(newId, connection, Unknown)],
                pause + [Envelope(connection, Message(RegisterApp, newId, true))], 0)
    case GetServerInfo => Outcome(apps, [Envelope(connection, Message(GetServerInfo, 0, false))], 0)
    case SetScreenFrame =>
      if apps != [] && m.appId == Top(apps).id then
        Outcome(apps, seq(renderers, _ => Envelope(connection, Message(SetScreenFrame, 0, true))), renderers)
      else
        Outcome(apps, [Envelope(connection, Message(AppPause, m.appId, false))], 0)
    case AppPause => Outcome(WithState(apps, m.appId, Paused), [], 0)
    case AppResume => Outcome(WithState(apps, m.appId, Running), [], 0)
    case AppKill =>
      var rest := Without(apps, m.appId);
      Outcome(rest, if apps != [] && Top(apps).id == m.appId then Resumed(rest) else [], 0)
    case _ => Outcome(apps, [], 0)
  }

  function Ticked(apps: seq<App>, killPressed: bool, dead: set<nat>): Outcome {
    var kill := if killPressed && apps != [] then [Envelope(Top(apps).connection, Message(AppKill, 0, false))] else [];
    var rest := Alive(apps, dead);
    Outcome(rest, kill + (if TopId(apps) != TopId(rest) && TopId(rest) != -1 then Resumed(rest) else []), 0)
  }

  class Server {
    var apps: seq<App>
    const renderers: nat

    constructor (setRenderers: nat)
      ensures apps == [] && renderers == setRenderers
    {
      apps, renderers := [], setRenderers;
    }

    method ResumeTopApp() returns (sent: seq<Envelope>)
      ensures sent == Resumed(apps)
    {
      sent := [];
      if apps != [] {
        sent := [Envelope(apps[|apps| - 1].connection, Message(AppResume, apps[|apps| - 1].id, false))];
      }
    }

    method SetAppState(id: int, state: AppState)
      modifies this
      ensures apps == WithState(old(apps), id, state)
    {
      WithStateFrom(apps, 0, id, state);
      hide WithState;
      var i := 0;
      while i < |apps|
        invariant 0 <= i <= |apps| && apps == old(apps)
        invariant WithState(apps, id, state) == apps[..i] + WithState(apps[i..], id, state)
      {
        WithStateFrom(apps, i, id, state);
        if apps[i].id == id {
          apps := apps[i := apps[i].(state := state)];
          return;
        }
        i := i + 1;
      }
      WithStateFrom(apps, i, id, state);
    }

    /** One request as one step: the id of a newly registered application is drawn by the caller. */
    method HandleRequest(connection: nat, message: Message, newId: int) returns (sent: seq<Envelope>, rendered: nat)
      modifies this
      ensures Outcome(apps, sent, rendered) == Handled(old(apps), connection, message, newId, renderers)
    {
      sent, rendered := [], 0;
      match message.kind
      case RegisterApp =>
        if message.appId == 0 {
          if apps != [] {
            sent := sent + [Envelope(apps[|apps| - 1].connection, Message(AppPause, apps[|apps| - 1].id, false))];
          }
          apps := apps + [App(newId, connection, Unknown)];
          sent := sent + [Envelope(connection, Message(RegisterApp, newId, true))];
        }
      case GetServerInfo =>
        sent := [Envelope(connection, Message(GetServerInfo, 0, false))];
      case SetScreenFrame =>
        var isTopApp := apps != [] && message.appId == apps[|apps| - 1].id;
        if isTopApp {
          for r := 0 to renderers
            invariant rendered == r && apps == old(apps)
            invariant sent == seq(r, _ => Envelope(connection, Message(SetScreenFrame, 0, true)))
          {
            rendered := rendered + 1;
            sent := sent + [Envelope(connection, Message(SetScreenFrame, 0, true))];
          }
        } else {
          sent := [Envelope(connection, Message(AppPause, message.appId, false))];
        }
      case AppPause =>
        SetAppState(message.appId, Paused);
      case AppResume =>
        SetAppState(message.appId, Running);
      case AppKill =>
        var wasTopApp := apps != [] && apps[|apps| - 1].id == message.appId;
        apps := Without(apps, message.appId);
        if wasTopApp {
          sent := ResumeTopApp();
        }
      case _ =>
    }

    method Tick(killPressed: bool, dead: set<nat>) returns (sent: seq<Envelope>)
      modifies this
      ensures Outcome(apps, sent, 0) == Ticked(old(apps), killPressed, dead)
    {
      sent := [];
      if killPressed {
        if apps != [] {
          sent := sent + [Envelope(apps[|apps| - 1].connection, Message(AppKill, 0, false))];
        }
      }
      var topAppIdBefore := TopId(apps);
      apps := Alive(apps, dead);
      var topAppIdAfter := TopId(apps);
      if topAppIdBefore != topAppIdAfter && topAppIdAfter != -1 {
        var resume := ResumeTopApp();
        sent := sent + resume;
      }
    }
  }
}
