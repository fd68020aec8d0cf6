/**
  The client side of the stack protocol: the message handler of an application and the steps of
  its drawing thread, which may send a frame only when the previous one was acknowledged.
 */
module Application {
  import opened Messages

  datatype AppState = Starting | Running | Paused | Ended | Killed | Failure

  /** Where the drawing thread stands: at the head of its loop, waiting for the acknowledgement,
      between taking it and sending the frame, or ended. */
  datatype Stage = Idle | Waiting | Drawing | Done

  /** `joining` is set while the message handler waits in `stop` for the drawing thread to end. */
  datatype Client = Client(state: AppState, appId: int, frameAcked: bool, stage: Stage, joining: bool)

  const NEW_CLIENT := Client(Starting, 0, true, Idle, false)

  /** The client afterwards and what it sent. */
  datatype Reaction = Reaction(client: Client, sent: seq<Message>)

  function NextState(s: AppState, kind: Kind): AppState {
    match kind
    case GetServerInfo => Running
    case AppPause => if s == Running then Paused else s
    case AppResume => if s == Paused then Running else s
    case AppKill => Killed
    case _ => s
  }

  function Handles(c: Client, m: Message): Reaction {
    match m.kind
    case RegisterApp =>
      if m.success then
        Reaction(c.(appId := m.appId), [Message(Other, m.appId, false), Message(GetServerInfo, m.appId, false)])
      else
        Reaction(c, [])
    case GetServerInfo => Reaction(c.(state := Running), [])
    case AppPause => Reaction(c.(state := NextState(c.state, AppPause)), [Message(AppPause, c.appId, c.state == Running)])
    case AppAlive => Reaction(c, [Message(AppAlive, c.appId, c.state == Running || c.state == Paused)])
    case AppResume => Reaction(c.(state := NextState(c.state, AppResume)), [Message(AppResume, c.appId, c.state == Paused)])
    case AppKill => Reaction(c.(state := Killed, joining := true), [Message(AppKill, c.appId, true)])
    case RequestScreenAccess => Reaction(c.(frameAcked := true), [])
    case SetScreenFrame => Reaction(c.(frameAcked := true), [])
    case Other => Reaction(c, [])
  }

  /** One step of the drawing thread; `loops` is what the application's `loop` returned. */
  function Loops(c: Client, loops: bool): Reaction {
    match c.stage
    case Idle => Reaction(c.(stage := if c.state == Running then Waiting else if c.state == Killed then Done else Idle), [])
    case Waiting => Reaction(if c.frameAcked then c.(frameAcked := false, stage := Drawing) else c, [])
    case Drawing =>
      Reaction(c.(stage := if c.state == Killed || !loops then Done else Idle), [Message(SetScreenFrame, c.appId, false)])
    case Done => Reaction(c, [])
  }

  class MatrixApplication {
    var appState: AppState
    var appId: int
    var frameAcked: bool
    var stage: Stage
    var joining: bool

    function Value(): Client
      reads this
    {
      Client(appState, appId, frameAcked, stage, joining)
    }

    constructor ()
      ensures Value() == NEW_CLIENT
    {
      appState, appId, frameAcked, stage, joining := Starting, 0, true, Idle, false;
    }

    method Pause() returns (done: bool)
      modifies this`appState
      ensures appState == NextState(old(appState), AppPause)
      ensures done == (old(appState) == Running)
    {
      if appState == Running {
        appState := Paused;
        return true;
      }
      return false;
    }

    method Resume() returns (done: bool)
      modifies this`appState
      ensures appState == NextState(old(appState), AppResume)
      ensures done == (old(appState) == Paused)
    {
      if appState == Paused {
        appState := Running;
        return true;
      }
      return false;
    }

    method Stop()
      modifies this`appState, this`joining
      ensures appState == Killed && joining
    {
      appState := Killed;
      joining := true;
    }

    method HandleRequest(message: Message) returns (sent: seq<Message>)
      modifies this
      ensures Reaction(Value(), sent) == Handles(old(Value()), message)
    {
      sent := [];
      match message.kind
      case RegisterApp =>
        if message.success {
          appId := message.appId;
          sent := sent + [Message(Other, appId, false)];
          sent := sent + [Message(GetServerInfo, appId, false)];
        }
      case GetServerInfo =>
        appState := Running;
      case AppPause =>
        var done := Pause();
        sent := [Message(AppPause, appId, done)];
      case AppAlive =>
        sent := [Message(AppAlive, appId, appState == Running || appState == Paused)];
      case AppResume =>
        var done := Resume();
        sent := [Message(AppResume, appId, done)];
      case AppKill =>
        sent := [Message(AppKill, appId, true)];
        Stop();
      case RequestScreenAccess =>
        frameAcked := true;
      case SetScreenFrame =>
        frameAcked := true;
      case Other =>
    }

    method RenderToScreens() returns (sent: seq<Message>)
      ensures sent == [Message(SetScreenFrame, appId, false)]
    {
      sent := [Message(SetScreenFrame, appId, false)];
    }

    /** The part of one pass of `internalLoop` up to the next point where other threads can act. */
    method InternalLoopStep(loops: bool) returns (sent: seq<Message>)
      modifies this
      ensures Reaction(Value(), sent) == Loops(old(Value()), loops)
    {
      sent := [];
      match stage
      case Idle =>
        if appState == Running {
          stage := Waiting;
        } else if appState == Killed {
          stage := Done;
        }
      case Waiting =>
        if frameAcked {
          frameAcked := false;
          stage := Drawing;
        }
      case Drawing =>
        var running := loops;
        sent := RenderToScreens();
        if appState == Killed {
          running := false;
        }
        stage := if running then Idle else Done;
      case Done =>
    }
  }
}
