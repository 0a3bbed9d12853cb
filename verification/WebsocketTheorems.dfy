/** What the WebSocket session promises over whole runs about the frames it sends and receives. */
module WebsocketTheorems {
  import opened WebsocketMachine
  import opened WebsocketInvariant

  lemma FreshInv(phase: Phase)
    requires phase == Created || phase == Accepting
    ensures Inv(Fresh(phase))
  {
  }

  /** An application that does nothing in its callbacks and keeps the connection. */
  const IDLE := App([], [], true, [])

  lemma RunOfOne(s: Session, e: Event)
    requires Enabled(s, e)
    ensures IsRun(s, [e]) && Exec(s, [e]) == Step(s, e)
  {
    RunCons(s, e, []);
    assert [e] + [] == [e];
  }

  lemma RunCons(s: Session, e: Event, es: seq<Event>)
    requires Enabled(s, e) && IsRun(Step(s, e), es)
    ensures IsRun(s, [e] + es) && Exec(s, [e] + es) == Exec(Step(s, e), es)
  {
    hide Enabled, Step;
    assert ([e] + es)[0] == e && ([e] + es)[1..] == es;
  }

  // ---------------------------------------------------------------------------------------------
  // Sending

  /** In every run: one write at a time, always of the front node; and what was written in full, what
      is queued and what is posted make up exactly what was filled, in order. */
  lemma SendingIsOrdered(phase: Phase, es: seq<Event>)
    requires phase == Created || phase == Accepting
    requires IsRun(Fresh(phase), es)
    ensures var s := Exec(Fresh(phase), es);
            && |s.writing| <= 1
            && (s.writing != [] ==> s.sendQueue != [] && s.writing[0] == Write(|s.written|, s.sendQueue[0]))
            && s.sendQueueSize == |s.sendQueue|
            && s.filled == s.written + Pending(s) + s.posted
            && s.written <= s.handed <= s.filled
  {
    RunKeeps(Fresh(phase), es);
    HandedCoversWritten(Exec(Fresh(phase), es));
  }

  lemma HandedCoversWritten(s: Session)
    requires Inv(s)
    ensures s.written <= s.handed
  {
    assert s.written <= s.filled;
  }

  // ---------------------------------------------------------------------------------------------
  // What each handler does, whatever the application does inside it

  lemma RecvDoneEffect(s: Session, ec: ErrorCode, frame: Frame, app: App)
    requires Inv(s) && Enabled(s, RecvDone(ec, frame, app))
    ensures var t := HandleRecv(s, ec, frame, app);
            && t.sendQueue == s.sendQueue && t.writing == s.writing && t.written == s.written
            && t.handed == s.handed && s.posted <= t.posted && s.filled <= t.filled && t.phase == s.phase
            && (ec != Success ==> t.reading == 0 && t.hasClose && t.received == s.received)
            && (ec == Success && s.recvQueue != [] ==>
                  t.received == s.received + [frame] && t.reading == (if app.keep then 1 else 0))
  {
    hide Fail, Tell;
    if ec != Success {
      FailKeeps(s.(reading := s.reading - 1), ec != StreamTruncated && ec != Closed, "recv", app);
    } else if s.recvQueue != [] {
      ArrivedKeeps(s, frame);
      TellKeeps(Arrived(s, frame), ToldRecv, app.calls);
    }
  }

  lemma SendDoneEffect(s: Session, ec: ErrorCode, bytes: nat, app: App)
    requires Inv(s) && Enabled(s, SendDone(ec, bytes, app))
    ensures var t := HandleSend(s, ec, bytes, app);
            && t.reading == s.reading && t.received == s.received && t.phase == s.phase
            && s.posted <= t.posted && s.filled <= t.filled
            && if ec != Success || bytes < |s.sendQueue[0].data| then
                 t.writing == [] && t.written == s.written && |t.sendQueue| == |s.sendQueue|
               else
                 && t.sendQueue == s.sendQueue[1..] && t.written == s.written + [s.sendQueue[0]]
                 && (t.writing != [] <==> app.keep && t.sendQueue != [])
  {
    hide Fail, Tell;
    var t := s.(writing := s.writing[1..]);
    if ec != Success {
      FailKeeps(t, ec != StreamTruncated, "send", app);
    } else if |s.sendQueue[0].data| <= bytes {
      PoppedKeeps(s);
      TellKeeps(Popped(s), ToldSend, app.calls);
    }
  }

  /** A write that falls short takes what it did transfer off the front node, and nothing else. */
  lemma ShortWriteConsumes(s: Session, bytes: nat, app: App)
    requires Inv(s) && Enabled(s, SendDone(Success, bytes, app)) && bytes < |s.sendQueue[0].data|
    ensures var t := HandleSend(s, Success, bytes, app);
            && s.sendQueue[0].data == s.sendQueue[0].data[..bytes] + t.sendQueue[0].data
            && t == s.(writing := [], torn := s.sendQueue[0].data[..bytes],
                       sendQueue := s.sendQueue[0 := s.sendQueue[0].(data := t.sendQueue[0].data)])
  {
    hide RecvInv, LogInv, Settled, Apply, Tell;
    var t := HandleSend(s, Success, bytes, app);
    assert s.writing[1..] == [];
    assert t.sendQueue == s.sendQueue[0 := t.sendQueue[0]];
    assert "" + s.sendQueue[0].data[..bytes] == s.sendQueue[0].data[..bytes];
  }

  /** Handlers other than those of the sender leave the sender alone. */
  predicate SenderSpared(s: Session, t: Session) {
    && t.sendQueue == s.sendQueue && t.writing == s.writing && t.written == s.written
    && t.handed == s.handed && s.posted <= t.posted && s.filled <= t.filled
  }

  lemma OpeningSparesSender(s: Session, e: Event)
    requires Inv(s) && Enabled(s, e) && (e.Start? || e.AcceptDone?)
    ensures SenderSpared(s, Step(s, e))
  {
    match e
    case Start(identity, app) =>
      ApplyAllKeeps(s.(phase := Opened, log := s.log + [ToldConnect(identity)]), app.calls);
    case AcceptDone(ec, app) =>
      if ec == Success {
        ApplyAllKeeps(s.(phase := Opened, log := s.log + [ToldAccept]), app.calls);
      } else if ec != StreamTruncated {
        TellKeeps(s.(phase := Rejected), ToldError("accept"), app.onError);
      }
  }

  lemma OthersSpareSender(s: Session, e: Event)
    requires Inv(s) && Enabled(s, e) && !e.SendDone? && !e.RunPosted?
    ensures SenderSpared(s, Step(s, e))
  {
    if e.Start? || e.AcceptDone? {
      hide HandleStart, HandleAccept;
      OpeningSparesSender(s, e);
    } else if e.RecvDone? {
      hide HandleRecv;
      RecvDoneEffect(s, e.ec, e.frame, e.app);
    } else if e.CloseDone? {
      hide HandleClose;
      HandleCloseKeeps(s.(closing := s.closing - 1), e.app.onClose);
    } else {
      ApplyKeeps(s, e.call);
    }
  }

  lemma WriteOutlives(s: Session, e: Event)
    requires Inv(s) && Enabled(s, e) && s.writing != [] && !e.SendDone?
    ensures var t := Step(s, e);
            && t.writing == s.writing && t.written == s.written
            && s.sendQueue <= t.sendQueue
            && t.writing[0] == Write(|t.written|, t.sendQueue[0])
  {
    StepKeeps(s, e);
    if !e.RunPosted? {
      hide Step;
      OthersSpareSender(s, e);
    }
  }

  /** Until its own completion, a write keeps its buffer: the node it reads from stays at the front of the
      queue, untouched, whatever else happens in the meantime. */
  lemma {:induction false} WriteIsStable(s: Session, es: seq<Event>)
    requires Inv(s) && IsRun(s, es) && s.writing != []
    requires forall e :: e in es ==> !e.SendDone?
    ensures var t := Exec(s, es);
            && t.writing == s.writing && t.written == s.written
            && s.sendQueue <= t.sendQueue
            && t.writing[0] == Write(|t.written|, t.sendQueue[0])
    decreases |es|
  {
    hide Step, SendInv, RecvInv, LogInv, Settled;
    if es != [] {
      StepKeeps(s, es[0]);
      WriteOutlives(s, es[0]);
      WriteIsStable(Step(s, es[0]), es[1..]);
    } else {
      hide *;
      WriteHeld(s);
    }
  }

  lemma WriteHeld(s: Session)
    requires Inv(s) && s.writing != []
    ensures s.sendQueue != [] && s.writing[0] == Write(|s.written|, s.sendQueue[0])
  {
  }

  /** All this rests on a fill being posted: were `on_post` run inside the `on_send` callback that found
      the queue just emptied, the handler's own test would then start a second write. */
  lemma FillMustBePosted(s: Session, text: bool, data: string)
    requires Inv(s) && s.writing != [] && |s.sendQueue| == 1 && s.posted == []
    ensures var t := HandlePost(Apply(Popped(s), Fill(text, data)));
            t.sendQueue != [] && |Send(t).writing| == 2
  {
    assert s.writing[1..] == [];
  }

  // ---------------------------------------------------------------------------------------------
  // Sending, continued: when it stops

  /** A send queue that nobody is going to empty. */
  predicate Stalled(s: Session) {
    s.sendQueue != [] && s.writing == []
  }

  /** The completions after which the sender is not restarted: an error, a write that fell short, or
      `on_send` giving up the connection while more is queued. */
  predicate Stalling(s: Session, e: Event) {
    && e.SendDone?
    && s.sendQueue != []
    && (e.ec != Success || e.bytes < |s.sendQueue[0].data| || (!e.app.keep && |s.sendQueue| > 1))
  }

  lemma StallsExactly(s: Session, e: Event)
    requires Inv(s) && Enabled(s, e)
    ensures Stalled(Step(s, e)) <==> Stalled(s) || Stalling(s, e)
  {
    StepKeeps(s, e);
    if e.SendDone? {
      hide HandleSend;
      SendDoneEffect(s, e.ec, e.bytes, e.app);
    } else if !e.RunPosted? {
      hide Step;
      OthersSpareSender(s, e);
    }
  }

  /** Once stalled, the session never starts another write. */
  lemma {:induction false} StalledForEver(s: Session, es: seq<Event>)
    requires Inv(s) && Stalled(s) && IsRun(s, es)
    ensures var t := Exec(s, es); Stalled(t) && t.handed == s.handed && t.written == s.written
    decreases |es|
  {
    if es != [] {
      StepKeeps(s, es[0]);
      StallsExactly(s, es[0]);
      if !es[0].RunPosted? { OthersSpareSender(s, es[0]); }
      StalledForEver(Step(s, es[0]), es[1..]);
    }
  }

  /** No completion along the run stops the sender. */
  predicate Smooth(s: Session, es: seq<Event>)
    requires IsRun(s, es)
    decreases |es|
  {
    es == [] || (!Stalling(s, es[0]) && Smooth(Step(s, es[0]), es[1..]))
  }

  lemma {:induction false} StalledByRun(s: Session, es: seq<Event>)
    requires Inv(s) && !Stalled(s) && IsRun(s, es)
    ensures Smooth(s, es) <==> !Stalled(Exec(s, es))
    decreases |es|
  {
    if es != [] {
      StepKeeps(s, es[0]);
      StallsExactly(s, es[0]);
      if Stalling(s, es[0]) {
        StalledForEver(Step(s, es[0]), es[1..]);
      } else {
        StalledByRun(Step(s, es[0]), es[1..]);
      }
    }
  }

  /** Between handlers a write is outstanding exactly when something is queued, if and only if no
      completion has stopped the sender; then a session with nothing posted and nothing outstanding
      has written everything it was given. */
  lemma SendingDrains(phase: Phase, es: seq<Event>)
    requires phase == Created || phase == Accepting
    requires IsRun(Fresh(phase), es)
    ensures var s := Exec(Fresh(phase), es);
            && (Smooth(Fresh(phase), es) <==> (s.sendQueue != [] <==> s.writing != []))
            && (Smooth(Fresh(phase), es) && s.posted == [] && s.writing == [] ==> s.written == s.filled)
  {
    RunKeeps(Fresh(phase), es);
    StalledByRun(Fresh(phase), es);
  }

  // ---------------------------------------------------------------------------------------------
  // Receiving

  predicate NoDrop(calls: seq<Call>) {
    Drop !in calls
  }

  /** The application drops frames inside `on_recv` and nowhere else. */
  predicate DropsInRecvOnly(e: Event) {
    match e
    case Start(_, app) => NoDrop(app.calls)
    case AcceptDone(_, app) => NoDrop(app.onError) && NoDrop(app.calls)
    case RecvDone(_, _, app) => NoDrop(app.onError) && NoDrop(app.onClose)
    case SendDone(_, _, app) => NoDrop(app.onError) && NoDrop(app.calls) && NoDrop(app.onClose)
    case CloseDone(app) => NoDrop(app.onClose)
    case RunPosted => true
    case AppCall(call) => call != Drop
  }

  /** A drop is harmless exactly when a completed frame is held or the queue is empty, which the
      application can ask of `recv_queue_size` and `recv_buffer_has_data`. */
  lemma DropHarmlessExactly(s: Session)
    requires Inv(s) && !s.misused
    ensures !Apply(s, Drop).misused <==> s.recvQueueSize != 0 || s.recvQueue == []
    ensures !Apply(s, Drop).misused <==> RecvInv(Apply(s, Drop))
  {
    ApplyKeeps(s, Drop);
  }

  /** Dropping the slot a read is filling wraps the counter and makes the read's completion fail. */
  lemma DroppingTheSlotFaults(s: Session, frame: Frame, app: App)
    requires Inv(s) && !s.misused && s.reading == 1 && s.recvQueueSize == 0
    ensures var t := Apply(s, Drop);
            && s.recvQueue != [] && t.recvQueueSize == SIZE_MAX
            && HandleRecv(t, Success, frame, app).fault
  {
  }

  lemma AcceptedIdle()
    ensures Step(Fresh(Accepting), AcceptDone(Success, IDLE)) ==
            Fresh(Opened).(recvQueue := [Frame(true, "")], reading := 1, log := [ToldAccept])
  {
    var s := Fresh(Accepting).(phase := Opened, log := [] + [ToldAccept]);
    assert ApplyAll(s, []) == s;
    assert Recv(s).recvQueue == [] + [Frame(true, "")] == [Frame(true, "")];
  }

  lemma IdleFailure(s: Session)
    requires Enabled(s, RecvDone(Failed, Frame(true, ""), IDLE))
    ensures var t := Step(s, RecvDone(Failed, Frame(true, ""), IDLE));
            t.reading == s.reading - 1 && t.recvQueue == s.recvQueue && t.recvQueueSize == s.recvQueueSize
  {
  }

  /** A run in which that happens: the application drops a frame it has not been told of. */
  lemma DroppingTooEarly(frame: Frame)
    ensures var drop := [AcceptDone(Success, IDLE), AppCall(Drop)];
            && IsRun(Fresh(Accepting), drop) && Exec(Fresh(Accepting), drop).recvQueueSize == SIZE_MAX
    ensures var es := [AcceptDone(Success, IDLE), AppCall(Drop), RecvDone(Success, frame, IDLE)];
            IsRun(Fresh(Accepting), es) && Exec(Fresh(Accepting), es).fault
  {
    var accept, drop, read := AcceptDone(Success, IDLE), AppCall(Drop), RecvDone(Success, frame, IDLE);
    var s := Step(Fresh(Accepting), accept);
    AcceptedIdle();
    var t := Step(s, drop);
    assert t.recvQueueSize == SIZE_MAX && Step(t, read).fault;
    hide Step, Exec, IsRun;
    RunOfOne(s, drop);
    RunOfOne(t, read);
    RunCons(s, drop, [read]);
    assert [drop] + [read] == [drop, read];
    RunCons(Fresh(Accepting), accept, [drop]);
    assert [accept] + [drop] == [accept, drop];
    RunCons(Fresh(Accepting), accept, [drop, read]);
    assert [accept] + [drop, read] == [accept, drop, read];
  }

  lemma {:induction false} NoDropNoMisuse(s: Session, calls: seq<Call>)
    requires Core(s) && (NoDrop(calls) || (!s.misused && Slots(s) == 0))
    ensures ApplyAll(s, calls).misused == s.misused
    decreases |calls|
  {
    if calls != [] {
      ApplyKeeps(s, calls[0]);
      NoDropNoMisuse(Apply(s, calls[0]), calls[1..]);
    }
  }

  lemma CloseNoMisuse(s: Session, calls: seq<Call>)
    requires Core(s) && s.log != [] && NoDrop(calls)
    ensures HandleClose(s, calls).misused == s.misused
  {
    if !s.hasClose {
      CountAppend(s.log, ToldClose, ToldClose);
      NoDropNoMisuse(s.(hasClose := true, log := s.log + [ToldClose]), calls);
    }
  }

  lemma TellNoMisuse(s: Session, notice: Notice, calls: seq<Call>)
    requires Core(s) && (NoDrop(calls) || (!s.misused && Slots(s) == 0))
    requires !Opening(notice) && notice != ToldClose
    requires s.log == [] ==> s.phase == Rejected && notice == ToldError("accept")
    ensures Tell(s, notice, calls).misused == s.misused
  {
    CountAppend(s.log, ToldClose, notice);
    NoDropNoMisuse(s.(log := s.log + [notice]), calls);
  }

  lemma FailNoMisuse(s: Session, loud: bool, what: string, app: App)
    requires Core(s) && s.log != [] && NoDrop(app.onError) && NoDrop(app.onClose)
    ensures Fail(s, loud, what, app).misused == s.misused
  {
    if loud {
      TellKeeps(s, ToldError(what), app.onError);
      TellNoMisuse(s, ToldError(what), app.onError);
    }
    CloseNoMisuse(if loud then Tell(s, ToldError(what), app.onError) else s, app.onClose);
  }

  lemma RecvDoneNoMisuse(s: Session, ec: ErrorCode, frame: Frame, app: App)
    requires var e := RecvDone(ec, frame, app); Inv(s) && !s.misused && Enabled(s, e) && DropsInRecvOnly(e)
    ensures !HandleRecv(s, ec, frame, app).misused
  {
    if ec != Success {
      FailNoMisuse(s.(reading := s.reading - 1), ec != StreamTruncated && ec != Closed, "recv", app);
    } else {
      ArrivedKeeps(s, frame);
      TellNoMisuse(Arrived(s, frame), ToldRecv, app.calls);
    }
  }

  lemma SendDoneNoMisuse(s: Session, ec: ErrorCode, bytes: nat, app: App)
    requires var e := SendDone(ec, bytes, app); Inv(s) && !s.misused && Enabled(s, e) && DropsInRecvOnly(e)
    ensures !HandleSend(s, ec, bytes, app).misused
  {
    if ec != Success {
      FailNoMisuse(s.(writing := s.writing[1..]), ec != StreamTruncated, "send", app);
    } else if |s.sendQueue[0].data| <= bytes {
      PoppedKeeps(s);
      TellNoMisuse(Popped(s), ToldSend, app.calls);
    }
  }

  lemma OpeningNoMisuse(s: Session, e: Event)
    requires Inv(s) && !s.misused && Enabled(s, e) && DropsInRecvOnly(e) && (e.Start? || e.AcceptDone?)
    ensures !Step(s, e).misused
  {
    match e
    case Start(identity, app) =>
      NoDropNoMisuse(s.(phase := Opened, log := s.log + [ToldConnect(identity)]), app.calls);
    case AcceptDone(ec, app) =>
      if ec == Success {
        NoDropNoMisuse(s.(phase := Opened, log := s.log + [ToldAccept]), app.calls);
      } else if ec != StreamTruncated {
        TellNoMisuse(s.(phase := Rejected), ToldError("accept"), app.onError);
      }
  }

  lemma StepNoMisuse(s: Session, e: Event)
    requires Inv(s) && !s.misused && Enabled(s, e) && DropsInRecvOnly(e)
    ensures !Step(s, e).misused
  {
    hide HandleStart, HandleAccept, HandleRecv, HandleSend, HandleClose;
    match e
    case Start(identity, app) => OpeningNoMisuse(s, e);
    case AcceptDone(ec, app) => OpeningNoMisuse(s, e);
    case RecvDone(ec, frame, app) => RecvDoneNoMisuse(s, ec, frame, app);
    case SendDone(ec, bytes, app) => SendDoneNoMisuse(s, ec, bytes, app);
    case CloseDone(app) => CloseNoMisuse(s.(closing := s.closing - 1), app.onClose);
    case RunPosted =>
    case AppCall(call) =>
  }

  lemma {:induction false} RunNoMisuse(s: Session, es: seq<Event>)
    requires Inv(s) && !s.misused && IsRun(s, es)
    requires forall i :: 0 <= i < |es| ==> DropsInRecvOnly(es[i])
    ensures !Exec(s, es).misused
    decreases |es|
  {
    if es != [] {
      StepKeeps(s, es[0]);
      StepNoMisuse(s, es[0]);
      RunNoMisuse(Step(s, es[0]), es[1..]);
    }
  }

  predicate ReadFails(e: Event) {
    e.RecvDone? && e.ec != Success
  }

  /** Some read of the run failed. */
  predicate ReadFailed(es: seq<Event>) {
    exists e :: e in es && ReadFails(e)
  }

  /** Slots that no read is filling. */
  function Leftover(s: Session): int {
    Slots(s) - s.reading
  }

  lemma OpenSlots(s: Session, notice: Notice, app: App)
    requires s == Fresh(s.phase) && Opening(notice)
    ensures var t := Tell(s.(phase := Opened), notice, app.calls);
            var u := if app.keep then Recv(t) else Apply(t, Close);
            !u.misused ==> Leftover(u) == 0
  {
    hide ApplyAll;
    ApplyAllKeeps(s.(phase := Opened, log := s.log + [notice]), app.calls);
  }

  lemma OpeningSlots(s: Session, e: Event)
    requires Inv(s) && !s.misused && Enabled(s, e) && !Step(s, e).misused && (e.Start? || e.AcceptDone?)
    ensures Leftover(Step(s, e)) == Leftover(s)
  {
    hide Tell, Leftover;
    OpeningIsFresh(s);
    match e
    case Start(identity, app) => OpenSlots(s, ToldConnect(identity), app);
    case AcceptDone(ec, app) =>
      if ec == Success {
        OpenSlots(s, ToldAccept, app);
      } else if ec != StreamTruncated {
        RejectedSlots(s, app);
      }
  }

  lemma OpeningIsFresh(s: Session)
    requires Inv(s) && (s.phase == Created || s.phase == Accepting)
    ensures s == Fresh(s.phase) && Leftover(s) == Leftover(s.(phase := Rejected)) == 0
  {
  }

  lemma RejectedSlots(s: Session, app: App)
    requires s == Fresh(s.phase)
    ensures var t := Tell(s.(phase := Rejected), ToldError("accept"), app.onError);
            !t.misused ==> Leftover(t) == 0
  {
    TellKeeps(s.(phase := Rejected), ToldError("accept"), app.onError);
  }

  lemma RecvDoneSlots(s: Session, ec: ErrorCode, frame: Frame, app: App)
    requires Inv(s) && !s.misused && s.reading > 0 && !HandleRecv(s, ec, frame, app).misused
    ensures Leftover(s) == 0 && Leftover(HandleRecv(s, ec, frame, app)) == if ec == Success then 0 else 1
  {
    if ec != Success {
      FailKeeps(s.(reading := s.reading - 1), ec != StreamTruncated && ec != Closed, "recv", app);
    } else {
      ArrivedKeeps(s, frame);
      TellKeeps(Arrived(s, frame), ToldRecv, app.calls);
    }
  }

  lemma SendDoneSlots(s: Session, ec: ErrorCode, bytes: nat, app: App)
    requires Inv(s) && Enabled(s, SendDone(ec, bytes, app)) && !HandleSend(s, ec, bytes, app).misused
    ensures Leftover(HandleSend(s, ec, bytes, app)) == Leftover(s)
  {
    if ec != Success {
      FailKeeps(s.(writing := s.writing[1..]), ec != StreamTruncated, "send", app);
    } else if |s.sendQueue[0].data| <= bytes {
      PoppedKeeps(s);
      TellKeeps(Popped(s), ToldSend, app.calls);
    }
  }

  /** Only a read that fails leaves its slot behind, and it always does. */
  lemma StepSlots(s: Session, e: Event)
    requires Inv(s) && !s.misused && Enabled(s, e) && DropsInRecvOnly(e)
    ensures Leftover(Step(s, e)) == if ReadFails(e) then 1 else Leftover(s)
  {
    hide HandleStart, HandleAccept, HandleRecv, HandleSend, HandleClose;
    StepNoMisuse(s, e);
    match e
    case Start(identity, app) => OpeningSlots(s, e);
    case AcceptDone(ec, app) => OpeningSlots(s, e);
    case RecvDone(ec, frame, app) => RecvDoneSlots(s, ec, frame, app);
    case SendDone(ec, bytes, app) => SendDoneSlots(s, ec, bytes, app);
    case CloseDone(app) => HandleCloseKeeps(s.(closing := s.closing - 1), app.onClose);
    case RunPosted =>
    case AppCall(call) => ApplyKeeps(s, call);
  }

  lemma {:induction false} RunSlots(s: Session, es: seq<Event>)
    requires Inv(s) && !s.misused && IsRun(s, es)
    requires forall i :: 0 <= i < |es| ==> DropsInRecvOnly(es[i])
    ensures Leftover(Exec(s, es)) == if ReadFailed(es) then 1 else Leftover(s)
    decreases |es|
  {
    hide Inv, Step, Leftover, DropsInRecvOnly, ReadFails;
    if es != [] {
      StepKeeps(s, es[0]);
      StepNoMisuse(s, es[0]);
      StepSlots(s, es[0]);
      RunSlots(Step(s, es[0]), es[1..]);
      assert es == [es[0]] + es[1..];
      assert ReadFailed(es) <==> ReadFails(es[0]) || ReadFailed(es[1..]);
    }
  }

  /** In every run whose application drops frames inside `on_recv` only: frames received are those
      dropped and those held, in order; the counter is the number held and never wraps; the queue holds
      one node more while a read is outstanding, and for good once a read has failed, so that it holds
      one more exactly while a read is outstanding if and only if none has; no assertion fails. */
  lemma ReceivingIsOrdered(phase: Phase, es: seq<Event>)
    requires phase == Created || phase == Accepting
    requires IsRun(Fresh(phase), es)
    requires forall i :: 0 <= i < |es| ==> DropsInRecvOnly(es[i])
    ensures var s := Exec(Fresh(phase), es);
            && s.reading <= 1 && !s.fault
            && |s.recvQueue| == s.recvQueueSize + (if s.reading == 1 || ReadFailed(es) then 1 else 0)
            && ((|s.recvQueue| == s.recvQueueSize + 1 <==> s.reading == 1) <==> !ReadFailed(es))
            && s.received == s.dropped + s.recvQueue[..s.recvQueueSize]
  {
    hide Inv, ReadFailed, Leftover;
    FreshHolds(phase);
    RunKeeps(Fresh(phase), es);
    RunNoMisuse(Fresh(phase), es);
    RunSlots(Fresh(phase), es);
    QueueIs(Exec(Fresh(phase), es));
  }

  lemma FreshHolds(phase: Phase)
    requires phase == Created || phase == Accepting
    ensures Inv(Fresh(phase)) && !Fresh(phase).misused && Leftover(Fresh(phase)) == 0
  {
  }

  lemma QueueIs(s: Session)
    requires Inv(s) && !s.misused
    ensures s.reading <= 1 && !s.fault && s.reading + Leftover(s) <= 1
    ensures |s.recvQueue| == s.recvQueueSize + s.reading + Leftover(s)
    ensures Leftover(s) >= 0 && s.received == s.dropped + s.recvQueue[..s.recvQueueSize]
  {
    hide SendInv, LogInv, Settled;
  }

  /** A run in which a read fails and its slot stays. */
  lemma FailedReadLeavesSlot()
    ensures var es := [AcceptDone(Success, IDLE), RecvDone(Failed, Frame(true, ""), IDLE)];
            IsRun(Fresh(Accepting), es)
    ensures var s := Exec(Fresh(Accepting), [AcceptDone(Success, IDLE), RecvDone(Failed, Frame(true, ""), IDLE)]);
            s.reading == 0 && |s.recvQueue| == 1 && s.recvQueueSize == 0
  {
    var accept, broken := AcceptDone(Success, IDLE), RecvDone(Failed, Frame(true, ""), IDLE);
    var s := Step(Fresh(Accepting), accept);
    AcceptedIdle();
    IdleFailure(s);
    hide Step, Exec, IsRun;
    RunOfOne(s, broken);
    RunCons(Fresh(Accepting), accept, [broken]);
    assert [accept] + [broken] == [accept, broken];
  }
}
