/** What the WebSocket session promises over whole runs about the callbacks it makes. */
module WebsocketCallbacks {
  import opened WebsocketMachine
  import opened WebsocketInvariant
  import opened WebsocketTheorems

  // ---------------------------------------------------------------------------------------------
  // Closing

  lemma StaysOpened(s: Session, e: Event)
    requires Inv(s) && s.phase == Opened && Enabled(s, e)
    ensures Step(s, e).phase == Opened
  {
    hide HandleRecv, HandleSend, HandleClose;
    match e
    case RecvDone(ec, frame, app) => RecvDoneEffect(s, ec, frame, app);
    case SendDone(ec, bytes, app) => SendDoneEffect(s, ec, bytes, app);
    case CloseDone(app) => HandleCloseKeeps(s.(closing := s.closing - 1), app.onClose);
    case _ =>
  }

  lemma {:induction false} OpenedStays(s: Session, es: seq<Event>)
    requires Inv(s) && s.phase == Opened && IsRun(s, es)
    ensures Exec(s, es).phase == Opened
    decreases |es|
  {
    if es != [] {
      hide Step, Inv;
      StepKeeps(s, es[0]);
      StaysOpened(s, es[0]);
      OpenedStays(Step(s, es[0]), es[1..]);
    }
  }

  /** An opened session that has come to rest has called `on_close` exactly once; no session ever
      calls it twice; and the opening callback came before all others. */
  lemma ClosesExactlyOnce(phase: Phase, es: seq<Event>)
    requires phase == Created || phase == Accepting
    requires IsRun(Fresh(phase), es)
    ensures var s := Exec(Fresh(phase), es);
            && Count(s.log, ToldClose) <= 1
            && (s.phase == Opened && !s.fault && s.reading == 0 && s.closing == 0 ==> Count(s.log, ToldClose) == 1)
            && (s.phase == Opened ==> s.log != [] && Opening(s.log[0]))
            && forall i :: 0 < i < |s.log| ==> !Opening(s.log[i])
  {
    RunKeeps(Fresh(phase), es);
  }

  /** The callbacks that one completion makes. */
  function Notices(s: Session, e: Event): seq<Notice> {
    match e
    case Start(identity, _) => [ToldConnect(identity)]
    case AcceptDone(ec, _) =>
      if ec == Success then [ToldAccept] else if ec == StreamTruncated then [] else [ToldError("accept")]
    case RecvDone(ec, _, _) =>
      if ec == Success then (if s.recvQueue == [] then [] else [ToldRecv])
      else (if ec == Failed then [ToldError("recv")] else []) + Closing(s)
    case SendDone(ec, bytes, _) =>
      if ec == Success then (if s.sendQueue == [] || bytes < |s.sendQueue[0].data| then [] else [ToldSend])
      else (if ec == StreamTruncated then [] else [ToldError("send")]) + Closing(s)
    case CloseDone(_) => Closing(s)
    case _ => []
  }

  lemma OpeningLog(s: Session, e: Event)
    requires Inv(s) && Enabled(s, e) && (e.Start? || e.AcceptDone?)
    ensures Step(s, e).log == s.log + Notices(s, e)
    ensures Step(s, e).phase == Opened <==> e.Start? || e.ec == Success
  {
    match e
    case Start(identity, app) => ApplyAllKeeps(s.(phase := Opened, log := s.log + [ToldConnect(identity)]), app.calls);
    case AcceptDone(ec, app) =>
      if ec == Success {
        ApplyAllKeeps(s.(phase := Opened, log := s.log + [ToldAccept]), app.calls);
      } else if ec != StreamTruncated {
        TellKeeps(s.(phase := Rejected), ToldError("accept"), app.onError);
      }
  }

  lemma RecvLog(s: Session, ec: ErrorCode, frame: Frame, app: App)
    requires Inv(s) && s.reading > 0
    ensures HandleRecv(s, ec, frame, app).log == s.log + Notices(s, RecvDone(ec, frame, app))
  {
    hide Fail, Tell;
    if ec != Success {
      FailKeeps(s.(reading := s.reading - 1), ec != StreamTruncated && ec != Closed, "recv", app);
    } else if s.recvQueue != [] {
      ArrivedKeeps(s, frame);
      TellKeeps(Arrived(s, frame), ToldRecv, app.calls);
    }
  }

  lemma SendLog(s: Session, ec: ErrorCode, bytes: nat, app: App)
    requires Inv(s) && s.writing != []
    ensures HandleSend(s, ec, bytes, app).log == s.log + Notices(s, SendDone(ec, bytes, app))
  {
    if ec != Success {
      FailKeeps(s.(writing := s.writing[1..]), ec != StreamTruncated, "send", app);
    } else if |s.sendQueue[0].data| <= bytes {
      PoppedKeeps(s);
      TellKeeps(Popped(s), ToldSend, app.calls);
    }
  }

  /** Which callbacks a completion makes depends on the completion and the close latch alone: never on
      what the application does in them. */
  lemma LogIsExact(s: Session, e: Event)
    requires Inv(s) && Enabled(s, e)
    ensures Step(s, e).log == s.log + Notices(s, e)
  {
    hide HandleStart, HandleAccept, HandleRecv, HandleSend, HandleClose;
    match e
    case Start(identity, app) => OpeningLog(s, e);
    case AcceptDone(ec, app) => OpeningLog(s, e);
    case RecvDone(ec, frame, app) => RecvLog(s, ec, frame, app);
    case SendDone(ec, bytes, app) => SendLog(s, ec, bytes, app);
    case CloseDone(app) => HandleCloseKeeps(s.(closing := s.closing - 1), app.onClose);
    case RunPosted =>
    case AppCall(call) => ApplyKeeps(s, call);
  }

  /** One `on_recv` for each frame received, and one `on_send` for each frame written in full. */
  predicate Tally(s: Session) {
    Count(s.log, ToldRecv) == |s.received| && Count(s.log, ToldSend) == |s.written|
  }

  lemma {:induction false} CountConcat(xs: seq<Notice>, ys: seq<Notice>, notice: Notice)
    ensures Count(xs + ys, notice) == Count(xs, notice) + Count(ys, notice)
  {
    if xs == [] {
      assert xs + ys == ys;
    } else {
      assert (xs + ys)[1..] == xs[1..] + ys;
      CountConcat(xs[1..], ys, notice);
    }
  }

  /** A write that transferred its whole buffer. */
  predicate Completes(s: Session, e: Event) {
    e.SendDone? && e.ec == Success && s.sendQueue != [] && |s.sendQueue[0].data| <= e.bytes
  }

  /** A read that brought a frame. */
  predicate Delivers(s: Session, e: Event) {
    e.RecvDone? && e.ec == Success && s.recvQueue != []
  }

  lemma Receives(s: Session, e: Event)
    requires Inv(s) && Enabled(s, e)
    ensures |Step(s, e).received| == |s.received| + (if Delivers(s, e) then 1 else 0)
  {
    hide HandleRecv, HandleSend, HandleClose, HandleStart, HandleAccept;
    match e
    case RecvDone(ec, frame, app) =>
      RecvDoneEffect(s, ec, frame, app);
      if ec == Success && s.recvQueue == [] { FaultReceivesNothing(s, frame, app); }
    case SendDone(ec, bytes, app) => SendDoneEffect(s, ec, bytes, app);
    case CloseDone(app) => HandleCloseKeeps(s.(closing := s.closing - 1), app.onClose);
    case RunPosted =>
    case AppCall(call) => ApplyKeeps(s, call);
    case _ => OpeningReceivesNothing(s, e);
  }

  lemma Writes(s: Session, e: Event)
    requires Inv(s) && Enabled(s, e)
    ensures |Step(s, e).written| == |s.written| + (if Completes(s, e) then 1 else 0)
  {
    if e.SendDone? {
      hide HandleSend;
      SendDoneEffect(s, e.ec, e.bytes, e.app);
    } else if !e.RunPosted? {
      hide Step;
      OthersSpareSender(s, e);
    }
  }

  lemma FaultReceivesNothing(s: Session, frame: Frame, app: App)
    requires s.reading > 0 && s.recvQueue == []
    ensures HandleRecv(s, Success, frame, app).received == s.received
  {
  }

  lemma OpeningReceivesNothing(s: Session, e: Event)
    requires Inv(s) && Enabled(s, e) && (e.Start? || e.AcceptDone?)
    ensures Step(s, e).received == s.received
  {
    match e
    case Start(identity, app) => ApplyAllKeeps(s.(phase := Opened, log := s.log + [ToldConnect(identity)]), app.calls);
    case AcceptDone(ec, app) =>
      if ec == Success {
        ApplyAllKeeps(s.(phase := Opened, log := s.log + [ToldAccept]), app.calls);
      } else if ec != StreamTruncated {
        TellKeeps(s.(phase := Rejected), ToldError("accept"), app.onError);
      }
  }

  lemma StepTally(s: Session, e: Event)
    requires Inv(s) && Tally(s) && Enabled(s, e)
    ensures Tally(Step(s, e))
  {
    hide Inv, Step, SendInv, LogInv, RecvInv;
    LogIsExact(s, e);
    Receives(s, e);
    Writes(s, e);
    CountConcat(s.log, Notices(s, e), ToldRecv);
    CountConcat(s.log, Notices(s, e), ToldSend);
    NoticesTally(s, e);
  }

  lemma NoticesTally(s: Session, e: Event)
    ensures Count(Notices(s, e), ToldRecv) == if Delivers(s, e) then 1 else 0
    ensures Count(Notices(s, e), ToldSend) == if Completes(s, e) then 1 else 0
  {
    if (e.RecvDone? || e.SendDone?) && e.ec != Success {
      var loud := if e.RecvDone? then e.ec == Failed else e.ec != StreamTruncated;
      var told := if loud then [ToldError(if e.RecvDone? then "recv" else "send")] else [];
      CountConcat(told, Closing(s), ToldRecv);
      CountConcat(told, Closing(s), ToldSend);
    }
  }

  lemma {:induction false} RunTally(s: Session, es: seq<Event>)
    requires Inv(s) && Tally(s) && IsRun(s, es)
    ensures Tally(Exec(s, es))
    decreases |es|
  {
    if es != [] {
      StepKeeps(s, es[0]);
      StepTally(s, es[0]);
      RunTally(Step(s, es[0]), es[1..]);
    }
  }

  /** The callbacks made match the transfers made. */
  lemma CallbacksMatchTransfers(phase: Phase, es: seq<Event>)
    requires phase == Created || phase == Accepting
    requires IsRun(Fresh(phase), es)
    ensures Tally(Exec(Fresh(phase), es))
  {
    RunTally(Fresh(phase), es);
  }

  /** When `on_send` is called, everything filled so far has been sent exactly if the frame just written
      was the only one queued and nothing is posted. */
  lemma AllSentExactly(phase: Phase, es: seq<Event>, e: Event)
    requires phase == Created || phase == Accepting
    requires IsRun(Fresh(phase), es) && Enabled(Exec(Fresh(phase), es), e) && Completes(Exec(Fresh(phase), es), e)
    ensures var s := Exec(Fresh(phase), es); var shown := Popped(s);
            shown.written == shown.filled <==> |s.sendQueue| == 1 && s.posted == []
  {
    RunKeeps(Fresh(phase), es);
    var s := Exec(Fresh(phase), es);
    PoppedKeeps(s);
    assert Popped(s).filled == Popped(s).written + Pending(Popped(s)) + s.posted;
  }

  /** A session that has accepted and been given two frames to send. */
  lemma AcceptedWithTwo(a: Frame, b: Frame)
    ensures var e := AcceptDone(Success, App([], [Fill(a.text, a.data), Fill(b.text, b.data)], true, []));
            Step(Fresh(Accepting), e) == Recv(Fresh(Opened).(posted := [a, b], filled := [a, b], log := [ToldAccept]))
  {
    var first, second := Fill(a.text, a.data), Fill(b.text, b.data);
    var s := Fresh(Opened).(log := [ToldAccept]);
    assert [first, second][1..] == [second];
    ApplyOne(Apply(s, first), second);
    var t := Apply(Apply(s, first), second);
    assert t.posted == [] + [a] + [b] == [a, b] && t.filled == [] + [a] + [b] == [a, b];
    assert Fresh(Accepting).(phase := Opened, log := [] + [ToldAccept]) == s;
    assert Tell(Fresh(Accepting).(phase := Opened), ToldAccept, [first, second]) == t;
  }

  /** A run that calls `on_send` with a frame still to be sent. */
  lemma SentWithMoreQueued(a: Frame, b: Frame)
    ensures var es := [AcceptDone(Success, App([], [Fill(a.text, a.data), Fill(b.text, b.data)], true, [])),
                       RunPosted, RunPosted, SendDone(Success, |a.data|, IDLE)];
            && IsRun(Fresh(Accepting), es)
            && var s := Exec(Fresh(Accepting), es);
               s.log == [ToldAccept, ToldSend] && s.written == [a] && s.sendQueue == [b]
  {
    var accept := AcceptDone(Success, App([], [Fill(a.text, a.data), Fill(b.text, b.data)], true, []));
    AcceptedWithTwo(a, b);
    var s := Step(Fresh(Accepting), accept);
    var es := [RunPosted, RunPosted, SendDone(Success, |a.data|, IDLE)];
    SendsFirst(s, a, b);
    hide Step, Exec, IsRun;
    RunCons(Fresh(Accepting), accept, es);
    assert [accept] + es == [accept, RunPosted, RunPosted, SendDone(Success, |a.data|, IDLE)];
  }

  lemma SendsFirst(s: Session, a: Frame, b: Frame)
    requires s == Recv(Fresh(Opened).(posted := [a, b], filled := [a, b], log := [ToldAccept]))
    ensures var es := [RunPosted, RunPosted, SendDone(Success, |a.data|, IDLE)];
            && IsRun(s, es)
            && var t := Exec(s, es); t.log == [ToldAccept, ToldSend] && t.written == [a] && t.sendQueue == [b]
  {
    var sent := SendDone(Success, |a.data|, IDLE);
    var t := Step(s, RunPosted);
    assert t.sendQueue == [a] && t.writing == [Write(0, a)] && t.posted == [b];
    var u := Step(t, RunPosted);
    assert u.sendQueue == [a, b] && u.writing == [Write(0, a)];
    assert Step(u, sent).sendQueue == [b];
    RunOfOne(u, sent);
    hide Step;
    RunCons(t, RunPosted, [sent]);
    RunCons(s, RunPosted, [RunPosted] + [sent]);
    assert [RunPosted] + ([RunPosted] + [sent]) == [RunPosted, RunPosted, sent];
  }

  lemma {:induction false} NoReadNoRead(s: Session, es: seq<Event>)
    requires Inv(s) && s.phase == Opened && s.reading == 0 && IsRun(s, es)
    ensures var t := Exec(s, es); t.reading == 0 && t.received == s.received
    decreases |es|
  {
    if es != [] {
      var e := es[0];
      StepKeeps(s, e);
      OpenedStays(s, [e]);
      assert Exec(s, [e]) == Step(s, e);
      hide HandleSend, HandleClose;
      match e {
        case SendDone(ec, bytes, app) => SendDoneEffect(s, ec, bytes, app);
        case CloseDone(app) => HandleCloseKeeps(s.(closing := s.closing - 1), app.onClose);
        case AppCall(call) => ApplyKeeps(s, call);
        case _ =>
      }
      NoReadNoRead(Step(s, e), es[1..]);
    }
  }

  /** Once an opened session has no read outstanding, because a read failed or `on_recv` or the
      opening callback gave it up, no read is started again and `on_recv` is never called again. */
  lemma ReadingEndsForGood(phase: Phase, es: seq<Event>, more: seq<Event>)
    requires phase == Created || phase == Accepting
    requires IsRun(Fresh(phase), es) && IsRun(Exec(Fresh(phase), es), more)
    ensures var s := Exec(Fresh(phase), es); var t := Exec(s, more);
            s.phase == Opened && s.reading == 0 ==>
              t.reading == 0 && Count(t.log, ToldRecv) == Count(s.log, ToldRecv)
  {
    var s := Exec(Fresh(phase), es);
    RunKeeps(Fresh(phase), es);
    RunTally(Fresh(phase), es);
    RunTally(s, more);
    if s.phase == Opened && s.reading == 0 { NoReadNoRead(s, more); }
  }

  /** In particular after a read that failed. */
  lemma FailedReadIsLast(s: Session, ec: ErrorCode, frame: Frame, app: App)
    requires Inv(s) && Enabled(s, RecvDone(ec, frame, app)) && ec != Success
    ensures var t := HandleRecv(s, ec, frame, app); t.phase == Opened && t.reading == 0 && t.hasClose
  {
    RecvDoneEffect(s, ec, frame, app);
  }

  // ---------------------------------------------------------------------------------------------
  // Is `on_close` the last callback?

  ghost predicate Silent(s: Session) {
    forall es :: IsRun(s, es) ==> Exec(s, es).log == s.log
  }

  predicate Dead(s: Session) {
    s.hasClose && s.reading == 0 && Stalled(s)
  }

  lemma {:induction false} DeadIsSilent(s: Session, es: seq<Event>)
    requires Inv(s) && Dead(s) && IsRun(s, es)
    ensures Exec(s, es).log == s.log
    decreases |es|
  {
    if es != [] {
      StepKeeps(s, es[0]);
      if es[0].AppCall? { ApplyKeeps(s, es[0].call); }
      DeadIsSilent(Step(s, es[0]), es[1..]);
    }
  }

  /** The calls made by the application behind an event. */
  function CallsOf(e: Event): seq<Call> {
    match e
    case RunPosted => []
    case AppCall(call) => [call]
    case _ => e.app.onError + e.app.calls + e.app.onClose
  }

  predicate FillsNothing(e: Event) {
    forall call :: call in CallsOf(e) ==> !call.Fill?
  }

  ghost predicate SilentUnlessFilled(s: Session) {
    forall es :: IsRun(s, es) && (forall e :: e in es ==> FillsNothing(e)) ==> Exec(s, es).log == s.log
  }

  /** Closed, and with no read or write left, nor anything posted that would be written. */
  predicate Spent(s: Session) {
    s.hasClose && s.reading == 0 && s.writing == [] && (s.posted == [] || s.sendQueue != [])
  }

  lemma {:induction false} SpentIsSilent(s: Session, es: seq<Event>)
    requires Inv(s) && Spent(s) && IsRun(s, es)
    requires forall e :: e in es ==> FillsNothing(e)
    ensures Exec(s, es).log == s.log
    decreases |es|
  {
    if es != [] {
      var e := es[0];
      StepKeeps(s, e);
      if e.AppCall? {
        assert FillsNothing(e) && e.call in CallsOf(e);
        ApplyKeeps(s, e.call);
      }
      SpentIsSilent(Step(s, e), es[1..]);
    }
  }

  /** A closed session that is not spent has a run that makes another callback, though the application
      fills nothing. */
  lemma UnspentIsHeard(s: Session) returns (es: seq<Event>)
    requires Inv(s) && s.hasClose && !s.fault && !Spent(s)
    ensures IsRun(s, es) && (forall e :: e in es ==> FillsNothing(e)) && Exec(s, es).log != s.log
  {
    if s.reading > 0 {
      es := [RecvDone(Failed, Frame(true, ""), IDLE)];
      RunOfOne(s, es[0]);
    } else if s.writing != [] {
      es := [SendDone(Failed, 0, IDLE)];
      RunOfOne(s, es[0]);
    } else {
      var sent := SendDone(Failed, 0, IDLE);
      RunOfOne(Step(s, RunPosted), sent);
      RunCons(s, RunPosted, [sent]);
      es := [RunPosted] + [sent];
    }
  }

  /** A closed session that is not dead has a run that makes another callback. */
  lemma AliveIsHeard(s: Session) returns (es: seq<Event>)
    requires Inv(s) && s.hasClose && !s.fault && !Dead(s)
    ensures IsRun(s, es) && Exec(s, es).log != s.log
  {
    if !Spent(s) {
      es := UnspentIsHeard(s);
    } else {
      assert s.log != [];
      var fill := AppCall(Fill(true, ""));
      StepKeeps(s, fill);
      var rest := UnspentIsHeard(Step(s, fill));
      RunCons(s, fill, rest);
      es := [fill] + rest;
    }
  }

  /** After `on_close`, as long as the application fills nothing more, no further callback can come if
      and only if no read and no write is outstanding, and nothing is posted that would be written. */
  lemma LastCallbackUnlessFilled(phase: Phase, es: seq<Event>)
    requires phase == Created || phase == Accepting
    requires IsRun(Fresh(phase), es)
    ensures var s := Exec(Fresh(phase), es);
            s.hasClose && !s.fault ==>
              (SilentUnlessFilled(s) <==>
               s.reading == 0 && s.writing == [] && (s.posted == [] || s.sendQueue != []))
  {
    var s := Exec(Fresh(phase), es);
    RunKeeps(Fresh(phase), es);
    hide Inv, FillsNothing;
    if s.hasClose && !s.fault {
      if Spent(s) {
        forall more | IsRun(s, more) && (forall e :: e in more ==> FillsNothing(e)) ensures Exec(s, more).log == s.log {
          SpentIsSilent(s, more);
        }
      } else {
        var more := UnspentIsHeard(s);
      }
    }
  }

  /** And if the application may fill again, also after `on_close`: if and only if no read is outstanding
      and the sender has stalled with something queued. */
  lemma LastCallbackExactly(phase: Phase, es: seq<Event>)
    requires phase == Created || phase == Accepting
    requires IsRun(Fresh(phase), es)
    ensures var s := Exec(Fresh(phase), es);
            s.hasClose && !s.fault ==> (Silent(s) <==> s.reading == 0 && s.writing == [] && s.sendQueue != [])
  {
    var s := Exec(Fresh(phase), es);
    RunKeeps(Fresh(phase), es);
    if s.hasClose && !s.fault {
      if Dead(s) {
        forall more | IsRun(s, more) ensures Exec(s, more).log == s.log {
          DeadIsSilent(s, more);
        }
      } else {
        var more := AliveIsHeard(s);
      }
    }
  }

  /** A run that makes a callback after `on_close`: a greeting is being written when the read fails. */
  lemma CallbackAfterClose(text: bool, data: string)
    ensures var es := [AcceptDone(Success, App([], [Fill(text, data)], true, [])), RunPosted,
                       RecvDone(Failed, Frame(true, ""), IDLE)];
            && IsRun(Fresh(Accepting), es) && Exec(Fresh(Accepting), es).hasClose
            && !Silent(Exec(Fresh(Accepting), es))
  {
    hide Inv, Core, SendInv, RecvInv, LogInv;
    var greet := AcceptDone(Success, App([], [Fill(text, data)], true, []));
    var broken := RecvDone(Failed, Frame(true, ""), IDLE);
    var es := [greet, RunPosted, broken];
    assert es[1..] == [RunPosted, broken] && es[1..][1..] == [broken];
    FreshInv(Accepting);
    var s := Step(Fresh(Accepting), greet);
    StepKeeps(Fresh(Accepting), greet);
    ApplyOne(Fresh(Accepting).(phase := Opened, log := [] + [ToldAccept]), Fill(text, data));
    assert s.reading == 1 && s.posted == [] + [Frame(text, data)];
    var t := Step(s, RunPosted);
    StepKeeps(s, RunPosted);
    var u := Step(t, broken);
    StepKeeps(t, broken);
    RunOfOne(t, broken);
    assert IsRun(s, es[1..]) && Exec(s, es[1..]) == u;
    assert u.writing != [];
    var more := AliveIsHeard(u);
  }
}
