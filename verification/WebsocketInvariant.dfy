/** The invariant of a WebSocket session, and the proof that every step keeps it. */
module WebsocketInvariant {
  import opened WebsocketMachine

  // ---------------------------------------------------------------------------------------------
  // The invariant

  /** The send queue, with what a torn write took from its front put back. */
  function Pending(s: Session): seq<Frame> {
    if s.sendQueue == [] then [] else
      [Frame(s.sendQueue[0].text, s.torn + s.sendQueue[0].data)] + s.sendQueue[1..]
  }

  /** At most one write, reading from the front node; nothing filled is lost, duplicated or
      reordered; every node is handed over at most once. */
  predicate SendInv(s: Session) {
    && |s.writing| <= 1
    && s.sendQueueSize == |s.sendQueue|
    && (s.writing != [] ==>
          s.sendQueue != [] && s.writing[0] == Write(|s.written|, s.sendQueue[0]) && s.torn == "")
    && (s.torn != "" ==> s.sendQueue != [])
    && s.filled == s.written + Pending(s) + s.posted
    && s.handed <= s.filled
    && |s.written| + |s.writing| <= |s.handed| <= |s.written| + (if s.sendQueue == [] then 0 else 1)
  }

  /** Nodes at the back of the receive queue that hold no completed frame. */
  function Slots(s: Session): int {
    |s.recvQueue| - s.recvQueueSize
  }

  /** At most one read, into the back node; the counter is the number of completed frames held; every
      frame received is dropped or held, in order. */
  predicate RecvInv(s: Session) {
    && s.reading <= Slots(s) <= 1
    && s.received == s.dropped + s.recvQueue[..s.recvQueueSize]
  }

  function Count(log: seq<Notice>, notice: Notice): nat {
    if log == [] then 0 else (if log[0] == notice then 1 else 0) + Count(log[1..], notice)
  }

  predicate Opening(notice: Notice) {
    notice.ToldConnect? || notice == ToldAccept
  }

  /** An opening callback comes first or not at all, and `on_close` comes at most once. */
  predicate LogInv(s: Session) {
    && Count(s.log, ToldClose) == (if s.hasClose then 1 else 0)
    && (forall i :: 0 < i < |s.log| ==> !Opening(s.log[i]))
    && (s.phase == Opened ==> s.log != [] && Opening(s.log[0]))
    && (s.phase == Rejected ==> s.reading == 0 && (s.log != [] ==> s.log[0] == ToldError("accept")))
  }

  /** What holds even while a handler is running. */
  predicate Core(s: Session) {
    && SendInv(s)
    && LogInv(s)
    && s.reading <= 1
    && (!s.misused ==> RecvInv(s) && !s.fault)
  }

  /** What holds between handlers: something is left that will end in `on_close`, or it has been
      called; and only a read that failed leaves its slot behind. */
  predicate Settled(s: Session) {
    && (s.phase == Opened && !s.fault ==> s.reading > 0 || s.closing > 0 || s.hasClose)
    && (!s.misused && Slots(s) == 1 && s.reading == 0 ==> s.hasClose)
    && (s.phase == Created || s.phase == Accepting || s.log == [] ==> s == Fresh(s.phase))
  }

  predicate Inv(s: Session) {
    Core(s) && Settled(s)
  }

  // ---------------------------------------------------------------------------------------------
  // Every step keeps it

  /** What the application cannot touch. */
  predicate Within(s: Session, t: Session) {
    && t.sendQueue == s.sendQueue && t.sendQueueSize == s.sendQueueSize && t.writing == s.writing
    && t.written == s.written && t.handed == s.handed && t.torn == s.torn
    && t.reading == s.reading && t.received == s.received
    && t.log == s.log && t.hasClose == s.hasClose && t.phase == s.phase && t.fault == s.fault
    && s.closing <= t.closing && s.posted <= t.posted && s.filled <= t.filled
    && (s.misused ==> t.misused)
    && (!t.misused ==> Slots(t) == Slots(s))
  }

  lemma FillKeeps(s: Session, text: bool, data: string)
    requires Core(s)
    ensures var t := Apply(s, Fill(text, data)); Core(t) && Within(s, t)
  {
    var t := Apply(s, Fill(text, data));
    assert t.filled == s.written + Pending(s) + t.posted;
  }

  lemma DropReceives(s: Session)
    requires RecvInv(s)
    ensures var t := Apply(s, Drop); !t.misused ==> RecvInv(t) && Slots(t) == Slots(s)
  {
    var t := Apply(s, Drop);
    if s.recvQueue != [] && !t.misused {
      assert s.recvQueue[..s.recvQueueSize] == [s.recvQueue[0]] + t.recvQueue[..t.recvQueueSize];
    }
  }

  lemma DropKeeps(s: Session)
    requires Core(s)
    ensures var t := Apply(s, Drop); Core(t) && Within(s, t)
  {
    hide RecvInv, Slots;
    if !s.misused { DropReceives(s); }
  }

  lemma CloseCallKeeps(s: Session)
    requires Core(s)
    ensures var t := Apply(s, Close); Core(t) && Within(s, t)
  {
  }

  lemma UserDataKeeps(s: Session, value: nat)
    requires Core(s)
    ensures var t := Apply(s, SetUserData(value)); Core(t) && Within(s, t)
  {
  }

  lemma ApplyKeeps(s: Session, call: Call)
    requires Core(s)
    ensures Core(Apply(s, call)) && Within(s, Apply(s, call))
  {
    hide Core, Within, Apply;
    match call
    case Fill(text, data) => FillKeeps(s, text, data);
    case Drop => DropKeeps(s);
    case Close => CloseCallKeeps(s);
    case SetUserData(value) => UserDataKeeps(s, value);
  }

  lemma ApplyOne(s: Session, call: Call)
    ensures ApplyAll(s, [call]) == Apply(s, call)
  {
    assert [call][1..] == [];
    assert ApplyAll(Apply(s, call), []) == Apply(s, call);
  }

  lemma {:induction false} ApplyAllKeeps(s: Session, calls: seq<Call>)
    requires Core(s)
    ensures Core(ApplyAll(s, calls)) && Within(s, ApplyAll(s, calls))
    decreases |calls|
  {
    if calls != [] {
      ApplyKeeps(s, calls[0]);
      ApplyAllKeeps(Apply(s, calls[0]), calls[1..]);
    }
  }

  lemma {:induction false} CountAppend(log: seq<Notice>, notice: Notice, last: Notice)
    ensures Count(log + [last], notice) == Count(log, notice) + if last == notice then 1 else 0
  {
    if log == [] {
      assert log + [last] == [last];
    } else {
      assert (log + [last])[1..] == log[1..] + [last];
      CountAppend(log[1..], notice, last);
    }
  }

  lemma TellKeeps(s: Session, notice: Notice, calls: seq<Call>)
    requires Core(s)
    requires !Opening(notice) && notice != ToldClose
    requires s.log == [] ==> s.phase == Rejected && notice == ToldError("accept")
    ensures Core(Tell(s, notice, calls)) && Within(s.(log := s.log + [notice]), Tell(s, notice, calls))
  {
    CountAppend(s.log, ToldClose, notice);
    ApplyAllKeeps(s.(log := s.log + [notice]), calls);
  }

  /** What `on_close` tells the application. */
  function Closing(s: Session): seq<Notice> {
    if s.hasClose then [] else [ToldClose]
  }

  lemma HandleCloseKeeps(s: Session, calls: seq<Call>)
    requires Core(s) && s.log != []
    ensures var t := HandleClose(s, calls);
            && Core(t) && t.hasClose
            && t.log == s.log + Closing(s)
            && Within(s.(log := t.log, hasClose := true), t)
  {
    if !s.hasClose {
      CountAppend(s.log, ToldClose, ToldClose);
      ApplyAllKeeps(s.(hasClose := true, log := s.log + [ToldClose]), calls);
    }
  }

  lemma FailKeeps(s: Session, loud: bool, what: string, app: App)
    requires Core(s) && s.log != []
    ensures var t := Fail(s, loud, what, app);
            && Core(t) && t.hasClose
            && t.log == s.log + ((if loud then [ToldError(what)] else []) + Closing(s))
            && Within(s.(log := t.log, hasClose := true), t)
  {
    if loud { TellKeeps(s, ToldError(what), app.onError); }
    HandleCloseKeeps(if loud then Tell(s, ToldError(what), app.onError) else s, app.onClose);
  }

  lemma RecvKeeps(s: Session)
    requires Core(s) && s.reading == 0 && s.phase == Opened
    requires !s.misused ==> Slots(s) == 0
    ensures Core(Recv(s))
  {
    if !s.misused {
      assert Recv(s).recvQueue[..s.recvQueueSize] == s.recvQueue[..s.recvQueueSize];
    }
  }

  lemma SendKeeps(s: Session)
    requires Core(s) && s.writing == [] && s.sendQueue != [] && s.torn == "" && |s.handed| == |s.written|
    ensures Core(Send(s))
  {
    assert s.filled[|s.written|] == Pending(s)[0];
    assert Pending(s)[0] == s.sendQueue[0];
  }

  lemma OpenKeeps(s: Session, notice: Notice, app: App)
    requires s == Fresh(s.phase) && Opening(notice)
    ensures var t := Tell(s.(phase := Opened), notice, app.calls);
            Inv(if app.keep then Recv(t) else Apply(t, Close))
  {
    var t := Tell(s.(phase := Opened), notice, app.calls);
    ApplyAllKeeps(s.(phase := Opened, log := s.log + [notice]), app.calls);
    if app.keep { RecvKeeps(t); } else { ApplyKeeps(t, Close); }
  }

  lemma AcceptKeeps(s: Session, ec: ErrorCode, app: App)
    requires Inv(s) && Enabled(s, AcceptDone(ec, app))
    ensures Inv(HandleAccept(s, ec, app))
  {
    if ec == Success {
      OpenKeeps(s, ToldAccept, app);
    } else if ec != StreamTruncated {
      TellKeeps(s.(phase := Rejected), ToldError("accept"), app.onError);
    }
  }

  lemma ArrivedKeeps(s: Session, frame: Frame)
    requires Inv(s) && s.reading > 0 && s.recvQueue != []
    ensures Core(Arrived(s, frame))
    ensures !s.misused ==> Slots(Arrived(s, frame)) == 0
  {
    var t := Arrived(s, frame);
    if !s.misused {
      assert t.recvQueue[..t.recvQueueSize] == s.recvQueue[..s.recvQueueSize] + [frame];
    }
  }

  lemma ReadFailedKeeps(s: Session, loud: bool, app: App)
    requires Inv(s) && s.reading > 0
    ensures Inv(Fail(s.(reading := s.reading - 1), loud, "recv", app))
  {
    hide Fail;
    FailKeeps(s.(reading := s.reading - 1), loud, "recv", app);
  }

  lemma ReadKeeps(s: Session, frame: Frame, app: App)
    requires Inv(s) && s.reading > 0 && s.recvQueue != []
    ensures var t := Tell(Arrived(s, frame), ToldRecv, app.calls);
            Inv(if app.keep then Recv(t) else Apply(t, Close))
  {
    hide Tell;
    ArrivedKeeps(s, frame);
    TellKeeps(Arrived(s, frame), ToldRecv, app.calls);
    var t := Tell(Arrived(s, frame), ToldRecv, app.calls);
    if app.keep { RecvKeeps(t); } else { ApplyKeeps(t, Close); }
  }

  lemma RecvDoneKeeps(s: Session, ec: ErrorCode, frame: Frame, app: App)
    requires Inv(s) && Enabled(s, RecvDone(ec, frame, app))
    ensures Inv(HandleRecv(s, ec, frame, app))
  {
    hide Fail, Tell, Arrived, Recv, Apply;
    if ec != Success {
      ReadFailedKeeps(s, ec != StreamTruncated && ec != Closed, app);
    } else if s.recvQueue != [] {
      ReadKeeps(s, frame, app);
    }
  }

  lemma SendTornKeeps(s: Session, bytes: nat, app: App)
    requires Inv(s) && Enabled(s, SendDone(Success, bytes, app)) && |s.sendQueue[0].data| > bytes
    ensures Inv(HandleSend(s, Success, bytes, app))
  {
    var u := HandleSend(s, Success, bytes, app);
    assert u.torn + u.sendQueue[0].data == s.sendQueue[0].data == s.torn + s.sendQueue[0].data;
    assert Pending(u) == Pending(s);
  }

  lemma PendingUntorn(s: Session)
    requires s.torn == ""
    ensures Pending(s) == s.sendQueue
  {
    if s.sendQueue != [] {
      assert "" + s.sendQueue[0].data == s.sendQueue[0].data;
    }
  }

  lemma PoppedSends(s: Session)
    requires SendInv(s) && s.writing != []
    ensures SendInv(Popped(s)) && |s.handed| == |Popped(s).written|
  {
    hide Pending;
    var u := Popped(s);
    PendingUntorn(s);
    PendingUntorn(u);
    assert s.sendQueue == [s.sendQueue[0]] + u.sendQueue;
    assert u.filled == u.written + Pending(u) + u.posted;
  }

  lemma PoppedKeeps(s: Session)
    requires Inv(s) && s.writing != []
    ensures Core(Popped(s)) && |s.handed| == |Popped(s).written|
  {
    PoppedSends(s);
    hide SendInv;
  }

  lemma SendDoneKeeps(s: Session, ec: ErrorCode, bytes: nat, app: App)
    requires Inv(s) && Enabled(s, SendDone(ec, bytes, app))
    ensures Inv(HandleSend(s, ec, bytes, app))
  {
    hide Fail, Tell;
    if ec != Success {
      FailKeeps(s.(writing := s.writing[1..]), ec != StreamTruncated, "send", app);
    } else if |s.sendQueue[0].data| > bytes {
      SendTornKeeps(s, bytes, app);
    } else {
      PoppedKeeps(s);
      TellKeeps(Popped(s), ToldSend, app.calls);
      var u := Tell(Popped(s), ToldSend, app.calls);
      if !app.keep { ApplyKeeps(u, Close); } else if u.sendQueue != [] { SendKeeps(u); }
    }
  }

  /** The session when a posted node has joined the queue. */
  function Joined(s: Session): Session
    requires s.posted != []
  {
    s.(posted := s.posted[1..], sendQueue := s.sendQueue + [s.posted[0]], sendQueueSize := s.sendQueueSize + 1)
  }

  lemma JoinedPending(s: Session)
    requires s.posted != [] && (s.torn != "" ==> s.sendQueue != [])
    ensures Pending(Joined(s)) == Pending(s) + [s.posted[0]]
  {
    if s.sendQueue == [] { assert "" + s.posted[0].data == s.posted[0].data; }
  }

  lemma JoinedKeeps(s: Session)
    requires SendInv(s) && s.posted != []
    ensures SendInv(Joined(s))
  {
    hide Pending;
    var t := Joined(s);
    JoinedPending(s);
    assert s.posted == [s.posted[0]] + t.posted;
    assert t.filled == t.written + Pending(t) + t.posted;
  }

  lemma PostKeeps(s: Session)
    requires Inv(s) && Enabled(s, RunPosted)
    ensures Inv(HandlePost(s))
  {
    JoinedKeeps(s);
    if s.sendQueue == [] { SendKeeps(Joined(s)); }
  }

  lemma StartKeeps(s: Session, identity: nat, app: App)
    requires Inv(s) && Enabled(s, Start(identity, app))
    ensures Inv(HandleStart(s, identity, app))
  {
    OpenKeeps(s, ToldConnect(identity), app);
  }

  lemma CloseDoneKeeps(s: Session, app: App)
    requires Inv(s) && Enabled(s, CloseDone(app))
    ensures Inv(HandleClose(s.(closing := s.closing - 1), app.onClose))
  {
    HandleCloseKeeps(s.(closing := s.closing - 1), app.onClose);
  }

  lemma CallKeeps(s: Session, call: Call)
    requires Inv(s) && s.log != []
    ensures Inv(Apply(s, call))
  {
    ApplyKeeps(s, call);
  }

  lemma StepKeeps(s: Session, e: Event)
    requires Inv(s) && Enabled(s, e)
    ensures Inv(Step(s, e))
  {
    hide Inv, HandleStart, HandleAccept, HandleRecv, HandleSend, HandlePost, HandleClose, Apply;
    match e
    case Start(identity, app) => StartKeeps(s, identity, app);
    case AcceptDone(ec, app) => AcceptKeeps(s, ec, app);
    case RecvDone(ec, frame, app) => RecvDoneKeeps(s, ec, frame, app);
    case SendDone(ec, bytes, app) => SendDoneKeeps(s, ec, bytes, app);
    case CloseDone(app) => CloseDoneKeeps(s, app);
    case RunPosted => PostKeeps(s);
    case AppCall(call) => CallKeeps(s, call);
  }

  lemma {:induction false} RunKeeps(s: Session, es: seq<Event>)
    requires Inv(s) && IsRun(s, es)
    ensures Inv(Exec(s, es))
    decreases |es|
  {
    if es != [] {
      StepKeeps(s, es[0]);
      RunKeeps(Step(s, es[0]), es[1..]);
    }
  }
}
