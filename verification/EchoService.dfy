/** The echo service, and what it makes of a WebSocket session. */
module EchoService {
  import opened WebsocketMachine
  import opened WebsocketInvariant
  import opened WebsocketTheorems
  import opened WebsocketSession

  const HELLO := "welcome to access ws://a.b.c.d:12345/"

  /** What `recv_message` does to a connection it is called on. */
  function EchoCalls(s: Session): seq<Call> {
    if s.recvQueue == [] then [] else [Drop, Fill(s.recvQueue[0].text, s.recvQueue[0].data)]
  }

  class EchoService {
    var connectCount: int
    var disconnectCount: int
    var asserted: bool         // an assert of the service has failed

    constructor ()
      ensures connectCount == 0 && disconnectCount == 0 && !asserted
    {
      connectCount, disconnectCount, asserted := 0, 0, false;
    }

    method OnConnect(connection: WebsocketSession) returns (keep: bool)
      modifies this
      ensures !keep && asserted
    {
      asserted := true;
      keep := false;
    }

    method OnAccept(connection: WebsocketSession) returns (keep: bool)
      modifies this, connection
      ensures keep && asserted == old(asserted) && connectCount == old(connectCount) + 1
      ensures connection.View() == ApplyAll(old(connection.View()), [Fill(true, HELLO)])
    {
      keep := InsertConnection();
      if keep {
        keep := SendMessage(connection, true, HELLO);
      }
      assert [Fill(true, HELLO)][1..] == [];
    }

    method OnRecv(connection: WebsocketSession) returns (keep: bool)
      modifies this, connection
      ensures connection.View() == ApplyAll(old(connection.View()), EchoCalls(old(connection.View())))
      ensures keep <==> old(connection.recvQueue) != []
      ensures asserted == (old(asserted) || old(connection.recvQueue) == [])
    {
      keep := RecvMessage(connection);
    }

    method OnSend(connection: WebsocketSession) returns (keep: bool)
      ensures keep
    {
      keep := true;
    }

    method OnClose(connection: WebsocketSession)
      modifies this
      ensures disconnectCount == old(disconnectCount) + 1 && connectCount == old(connectCount)
      ensures asserted == old(asserted)
    {
      disconnectCount := disconnectCount + 1;
    }

    method InsertConnection() returns (ok: bool)
      modifies this`connectCount
      ensures ok && connectCount == old(connectCount) + 1
    {
      connectCount := connectCount + 1;
      ok := true;
    }

    method SendMessage(connection: WebsocketSession, text: bool, data: string) returns (ok: bool)
      modifies this, connection
      ensures connection.View() == Apply(old(connection.View()), Fill(text, data))
      ensures ok && asserted == old(asserted) && connectCount == old(connectCount)
    {
      ok := connection.SendBufferFill(text, data);
      if !ok {
        assert false;
      }
    }

    method RecvMessage(connection: WebsocketSession) returns (ok: bool)
      modifies this, connection
      ensures connection.View() == ApplyAll(old(connection.View()), EchoCalls(old(connection.View())))
      ensures ok <==> old(connection.recvQueue) != []
      ensures asserted == (old(asserted) || old(connection.recvQueue) == [])
    {
      ok := connection.RecvBufferHasData();
      if !ok {
        asserted := true;
        return;
      }
      var text := connection.RecvBufferDataIsText();
      var data := connection.RecvBufferData();
      ok := connection.RecvBufferDrop();
      if !ok {
        assert false;
      }
      ok := SendMessage(connection, text, data);
      EchoCallsInTwo(old(connection.View()));
    }
  }

  lemma EchoCallsInTwo(s: Session)
    requires s.recvQueue != []
    ensures ApplyAll(s, EchoCalls(s)) ==
            Apply(Apply(s, Drop), Fill(s.recvQueue[0].text, s.recvQueue[0].data))
  {
    var fill := Fill(s.recvQueue[0].text, s.recvQueue[0].data);
    assert EchoCalls(s)[1..] == [fill];
    ApplyOne(Apply(s, Drop), fill);
  }

  // ---------------------------------------------------------------------------------------------
  // A session run by the echo service

  predicate Mute(app: App) {
    app.onError == [] && app.onClose == []
  }

  /** The application behind event `e` is the echo service, called on a session in state `s`. */
  predicate EchoEvent(s: Session, e: Event) {
    match e
    case Start(_, _) => false
    case AcceptDone(_, app) => Mute(app) && app.calls == [Fill(true, HELLO)] && app.keep
    case RecvDone(_, frame, app) =>
      Mute(app) && (s.reading > 0 && s.recvQueue != [] ==> app.calls == EchoCalls(Arrived(s, frame)) && app.keep)
    case SendDone(_, _, app) => Mute(app) && app.calls == [] && app.keep
    case CloseDone(app) => Mute(app)
    case RunPosted => true
    case AppCall(_) => false
  }

  predicate EchoRun(s: Session, es: seq<Event>)
    decreases |es|
  {
    es == [] || (EchoEvent(s, es[0]) && Enabled(s, es[0]) && EchoRun(Step(s, es[0]), es[1..]))
  }

  lemma {:induction false} EchoRunIsRun(s: Session, es: seq<Event>)
    requires EchoRun(s, es)
    ensures IsRun(s, es)
    decreases |es|
  {
    if es != [] { EchoRunIsRun(Step(s, es[0]), es[1..]); }
  }

  /** The greeting, once the connection is open, and then every frame received. */
  function Answer(s: Session): seq<Frame> {
    (if s.phase == Opened then [Frame(true, HELLO)] else []) + s.received
  }

  predicate EchoInv(s: Session) {
    && Inv(s) && !s.misused
    && s.filled == Answer(s)
    && s.recvQueueSize == 0
    && (s.phase == Opened || s.phase == Accepting || s == Fresh(Rejected).(log := s.log))
  }

  lemma EchoAcceptKeeps(s: Session, ec: ErrorCode, app: App)
    requires EchoInv(s) && Enabled(s, AcceptDone(ec, app)) && EchoEvent(s, AcceptDone(ec, app))
    ensures EchoInv(HandleAccept(s, ec, app))
  {
    AcceptKeeps(s, ec, app);
    if ec == Success {
      var t := s.(phase := Opened, log := s.log + [ToldAccept]);
      ApplyOne(t, app.calls[0]);
      var u := Apply(t, app.calls[0]);
      assert HandleAccept(s, ec, app) == Recv(u);
      assert u.filled == Answer(u);
    }
  }

  lemma EchoArrivedStep(s: Session, frame: Frame, app: App)
    requires s.reading == 1 && |s.recvQueue| == 1 && s.recvQueueSize == 0
    requires EchoEvent(s, RecvDone(Success, frame, app))
    ensures HandleRecv(s, Success, frame, app) ==
            s.(recvQueue := [Frame(true, "")], log := s.log + [ToldRecv],
               received := s.received + [frame], dropped := s.dropped + [frame],
               posted := s.posted + [frame], filled := s.filled + [frame])
  {
    var t := Arrived(s, frame);
    assert t.recvQueue == [frame];
    EchoCallsInTwo(t.(log := t.log + [ToldRecv]));
  }

  lemma EchoArrivedKeeps(s: Session, frame: Frame, app: App)
    requires EchoInv(s) && Enabled(s, RecvDone(Success, frame, app)) && EchoEvent(s, RecvDone(Success, frame, app))
    ensures EchoInv(HandleRecv(s, Success, frame, app))
  {
    EchoArrivedStep(s, frame, app);
    assert Inv(HandleRecv(s, Success, frame, app)) by { RecvDoneKeeps(s, Success, frame, app); }
    assert Answer(s) + [frame] == Answer(s.(received := s.received + [frame]));
  }

  lemma FailMute(s: Session, loud: bool, what: string, app: App)
    requires Mute(app)
    ensures var t := Fail(s, loud, what, app); t == s.(log := t.log, hasClose := true)
  {
  }

  /** Openings and receipts apart, nothing is filled or received. */
  lemma EchoStandsBy(s: Session, e: Event)
    requires Enabled(s, e) && EchoEvent(s, e) && !e.AcceptDone? && (e.RecvDone? ==> e.ec != Success)
    ensures var t := Step(s, e);
            && t.filled == s.filled && t.received == s.received && t.phase == s.phase
            && t.recvQueueSize == s.recvQueueSize && t.misused == s.misused
  {
    hide Fail;
    match e
    case RecvDone(ec, _, app) =>
      FailMute(s.(reading := s.reading - 1), ec != StreamTruncated && ec != Closed, "recv", app);
    case SendDone(ec, _, app) =>
      FailMute(s.(writing := s.writing[1..]), ec != StreamTruncated, "send", app);
    case _ =>
  }

  lemma EchoOtherKeeps(s: Session, e: Event)
    requires EchoInv(s) && Enabled(s, e) && EchoEvent(s, e) && !e.AcceptDone? && (e.RecvDone? ==> e.ec != Success)
    ensures EchoInv(Step(s, e))
  {
    hide Step, Core;
    StepKeeps(s, e);
    EchoStandsBy(s, e);
    EchoIsOpen(s, e);
  }

  lemma EchoIsOpen(s: Session, e: Event)
    requires EchoInv(s) && Enabled(s, e) && EchoEvent(s, e) && !e.AcceptDone?
    ensures s.phase == Opened
  {
  }

  lemma EchoStepKeeps(s: Session, e: Event)
    requires EchoInv(s) && Enabled(s, e) && EchoEvent(s, e)
    ensures EchoInv(Step(s, e))
  {
    hide Inv, HandleAccept;
    match e
    case AcceptDone(ec, app) => EchoAcceptKeeps(s, ec, app);
    case RecvDone(Success, frame, app) => EchoArrivedKeeps(s, frame, app);
    case _ => EchoOtherKeeps(s, e);
  }

  lemma {:induction false} EchoRunKeeps(s: Session, es: seq<Event>)
    requires EchoInv(s) && EchoRun(s, es)
    ensures IsRun(s, es) && EchoInv(Exec(s, es))
    decreases |es|
  {
    if es != [] {
      EchoStepKeeps(s, es[0]);
      EchoRunKeeps(Step(s, es[0]), es[1..]);
    }
  }

  /** In every run of the echo service, what has been written, is queued and is posted is the greeting
      followed by every frame received, text flags and bytes included; so the peer sees a prefix of
      that. When no completion stops the sender and nothing is left to do, the peer has seen it all. */
  lemma EchoRefinement(es: seq<Event>)
    requires EchoRun(Fresh(Accepting), es)
    ensures IsRun(Fresh(Accepting), es)
    ensures var s := Exec(Fresh(Accepting), es);
            && s.written + Pending(s) + s.posted == Answer(s)
            && s.written <= Answer(s) && s.handed <= Answer(s)
            && !s.fault
            && (Smooth(Fresh(Accepting), es) && s.posted == [] && s.writing == [] ==> s.written == Answer(s))
  {
    EchoRunKeeps(Fresh(Accepting), es);
    SendingDrains(Accepting, es);
  }
}
