/** What the pipelining HTTP session promises over whole runs. */
module HttpTheorems {
  import opened HttpUtility
  import opened HttpMachine

  // ---------------------------------------------------------------------------------------------
  // The invariant

  /** The queue is what has been answered and not completed: its front already handed over, the rest
      waiting, in the order of the requests. */
  predicate QueueInv(s: Session) {
    && |s.queue| <= QUEUE_LIMIT
    && |s.handled| == s.sent + |s.queue|
    && |s.handed| == s.sent + (if s.queue == [] then 0 else 1)
    && (s.queue != [] ==> s.queue[0].Moved?)
    && (forall i :: 0 < i < |s.queue| ==> s.queue[i] == Full(Answer(s.handled[s.sent + i])))
    && (forall i :: 0 <= i < |s.handed| ==> s.handed[i] == Answer(s.handled[i]))
    && (forall i :: 0 <= i < s.sent ==> s.handled[i].req.keepAlive)
  }

  /** At most one read and one write, the write that of the front. */
  predicate StreamInv(s: Session) {
    && s.reading <= 1
    && (s.reading == 1 ==> |s.queue| < QUEUE_LIMIT)
    && |s.writing| <= 1
    && (s.writing != [] ==>
          |s.handed| == s.sent + 1 && s.writing[0] == Write(!s.handed[s.sent].keepAlive, s.handed[s.sent]))
    && (s.upgraded ==> s.reading == 0 && |s.queue| < QUEUE_LIMIT)
    && !s.fault
  }

  predicate Inv(s: Session) {
    QueueInv(s) && StreamInv(s)
  }

  /** Between the end of a write and the start of the next: nothing in the queue handed over yet. */
  predicate Waiting(s: Session) {
    && |s.queue| < QUEUE_LIMIT
    && |s.handled| == s.sent + |s.queue|
    && |s.handed| == s.sent
    && (forall i :: 0 <= i < |s.queue| ==> s.queue[i] == Full(Answer(s.handled[s.sent + i])))
    && (forall i :: 0 <= i < |s.handed| ==> s.handed[i] == Answer(s.handled[i]))
    && (forall i :: 0 <= i < s.sent ==> s.handled[i].req.keepAlive)
    && s.reading <= 1 && s.writing == [] && (s.upgraded ==> s.reading == 0) && !s.fault
  }

  lemma SendKeeps(s: Session)
    requires Waiting(s)
    ensures var t := Send(s);
            && Inv(t) && (t.writing == [] <==> s.queue == [])
            && |t.queue| == |s.queue| && t.sent == s.sent && t.handled == s.handled && t.reading == s.reading
  {
    hide HandleRequest, Answer;
    if s.queue != [] {
      hide QueueInv;
      FrontSent(s);
    }
  }

  lemma FrontSent(s: Session)
    requires Waiting(s) && s.queue != []
    ensures QueueInv(Send(s))
  {
    hide HandleRequest, Answer;
    var t := Send(s);
    assert s.queue[0] == Full(Answer(s.handled[s.sent + 0]));
    forall i | 0 < i < |t.queue| ensures t.queue[i] == Full(Answer(t.handled[t.sent + i])) {
      assert t.queue[i] == s.queue[i];
    }
    forall i | 0 <= i < |t.handed| ensures t.handed[i] == Answer(t.handled[i]) {
      if i < |s.handed| { assert t.handed[i] == s.handed[i]; }
    }
  }

  lemma QueuedKeeps(s: Session, x: Exchange)
    requires Inv(s) && s.reading == 0 && |s.queue| < QUEUE_LIMIT && !s.upgraded
    ensures var t := Queued(s, x);
            && Inv(t) && (t.writing == [] <==> s.queue != [] && s.writing == [])
            && |t.queue| == |s.queue| + 1 && t.sent == s.sent && t.handled == s.handled + [x]
            && t.reading == 0 && !t.upgraded
  {
    hide HandleRequest, Answer;
    if s.queue == [] {
      SendKeeps(s.(queue := s.queue + [Full(Answer(x))], handled := s.handled + [x]));
    }
  }

  /** The session when a write has completed and the front has been popped. */
  function Popped(s: Session): Session
    requires s.writing != [] && s.queue != []
  {
    var t := s.(writing := s.writing[1..]);
    var u := if |t.queue| == QUEUE_LIMIT then Recv(t) else t;
    u.(queue := u.queue[1..], sent := u.sent + 1)
  }

  lemma PoppedWaits(s: Session)
    requires Inv(s) && s.writing != [] && !s.writing[0].close
    ensures Waiting(Popped(s))
    ensures Popped(s).reading == if |s.queue| == QUEUE_LIMIT then 1 else s.reading
  {
    hide HandleRequest, Answer;
  }

  lemma ArrivedKeeps(s: Session, x: Exchange)
    requires Inv(s) && s.reading > 0
    ensures Inv(HandleRecv(s, Arrived(x)))
  {
    hide Queued, Answer;
    QueuedKeeps(s.(reading := s.reading - 1), x);
  }

  lemma RecvDoneKeeps(s: Session, arrival: Arrival)
    requires Inv(s) && s.reading > 0
    ensures Inv(HandleRecv(s, arrival))
  {
    hide Queued, Answer;
    if arrival.Arrived? { ArrivedKeeps(s, arrival.exchange); }
  }

  lemma SendDoneKeeps(s: Session, departure: Departure)
    requires Inv(s) && s.writing != []
    ensures Inv(HandleSend(s, departure))
  {
    hide Answer, Send;
    if departure.Sent? && !s.writing[0].close {
      PoppedWaits(s);
      SendKeeps(Popped(s));
    }
  }

  lemma StepKeeps(s: Session, e: Event)
    requires Inv(s) && Enabled(s, e)
    ensures Inv(Step(s, e))
  {
    match e
    case RecvDone(arrival) => RecvDoneKeeps(s, arrival);
    case SendDone(departure) => SendDoneKeeps(s, departure);
  }

  lemma {:induction false} RunKeeps(s: Session, es: seq<Event>)
    requires Inv(s) && IsRun(s, es)
    ensures Inv(Exec(s, es))
    decreases |es|
  {
    if es != [] {
      StepKeeps(s, es[0]);
      RunKeeps(Step(s, es[0]), es[1..]);
    }
  }

  lemma StartedKeeps()
    ensures Inv(STARTED)
  {
  }

  // ---------------------------------------------------------------------------------------------
  // Pipelining

  /** The requests that the reads of a run brought. */
  function Requests(es: seq<Event>): seq<Exchange> {
    if es == [] then [] else
      (match es[0] case RecvDone(Arrived(x)) => [x] case _ => []) + Requests(es[1..])
  }

  lemma {:induction false} RunTakesRequests(s: Session, es: seq<Event>)
    requires Inv(s) && IsRun(s, es)
    ensures Exec(s, es).handled == s.handled + Requests(es)
    decreases |es|
  {
    hide Step, Inv, Enabled;
    if es != [] {
      StepEffect(s, es[0]);
      RunTakesRequests(Step(s, es[0]), es[1..]);
    }
  }

  /** In every run: the responses written answer the requests in the order they were read, each handed
      over once; no more than eight requests are answered and not yet completed; and once a request that
      ends the connection has been answered, nothing after its response is written. */
  lemma ResponsesFollowRequests(es: seq<Event>)
    requires IsRun(STARTED, es)
    ensures var s := Exec(STARTED, es);
            && s.handled == Requests(es) && |s.handed| <= |s.handled|
            && (forall i :: 0 <= i < |s.handed| ==> s.handed[i] == HandleRequest(s.handled[i].req, s.handled[i].site))
            && 0 <= |s.handled| - s.sent == |s.queue| <= 8
            && (forall k :: 0 <= k < |s.handled| && !s.handled[k].req.keepAlive ==> |s.handed| <= k + 1)
            && (forall i :: 0 <= i < |s.handed| && !s.handed[i].keepAlive ==> i == |s.handed| - 1)
            && !s.fault
  {
    StartedKeeps();
    RunKeeps(STARTED, es);
    RunTakesRequests(STARTED, es);
    hide Exec, IsRun, HandleRequest;
    var s := Exec(STARTED, es);
    assert s.handled == [] + Requests(es) == Requests(es);
    forall i | 0 <= i < |s.handed| && !s.handed[i].keepAlive ensures i == |s.handed| - 1 {
      assert s.handed[i].keepAlive == s.handled[i].req.keepAlive;
    }
  }

  // ---------------------------------------------------------------------------------------------
  // Back-pressure

  /** Room in the queue and no read: the session has stopped reading. */
  predicate ReaderRetired(s: Session) {
    s.reading == 0 && |s.queue| < QUEUE_LIMIT
  }

  /** Something in the queue and no write: the session has stopped writing. */
  predicate WriterRetired(s: Session) {
    s.writing == [] && s.queue != []
  }

  predicate RetiresReader(e: Event) {
    e.RecvDone? && !e.arrival.Arrived?
  }

  predicate RetiresWriter(s: Session, e: Event) {
    e.SendDone? && (e.departure.SendError? || (s.writing != [] && s.writing[0].close))
  }

  /** What one step does to the queue, the reads and the writes. */
  lemma StepEffect(s: Session, e: Event)
    requires Inv(s) && Enabled(s, e)
    ensures var t := Step(s, e);
            && Inv(t)
            && match e
               case RecvDone(Arrived(x)) =>
                 && |t.queue| == |s.queue| + 1 && t.handled == s.handled + [x] && t.sent == s.sent
                 && t.reading == (if |t.queue| < QUEUE_LIMIT then 1 else 0)
                 && (t.writing == [] <==> s.queue != [] && s.writing == [])
                 && (s.queue != [] ==> t.handed == s.handed)
               case RecvDone(_) =>
                 && t.queue == s.queue && t.writing == s.writing && t.reading == 0
                 && t.handled == s.handled && t.handed == s.handed && t.sent == s.sent
               case SendDone(_) =>
                 && t.handled == s.handled
                 && if RetiresWriter(s, e) then
                      t.queue == s.queue && t.writing == [] && t.reading == s.reading && t.handed == s.handed
                    else
                      && |t.queue| == |s.queue| - 1 && (t.writing == [] <==> t.queue == [])
                      && t.reading == if |s.queue| == QUEUE_LIMIT then 1 else s.reading
  {
    hide HandleRecv, HandleSend;
    StepKeeps(s, e);
    match e
    case RecvDone(Arrived(x)) => ArrivedEffect(s, x);
    case RecvDone(arrival) => EndedEffect(s, arrival);
    case SendDone(departure) => SendDoneEffect(s, departure);
  }

  lemma ArrivedEffect(s: Session, x: Exchange)
    requires Inv(s) && s.reading > 0
    ensures var t := HandleRecv(s, Arrived(x));
            && |t.queue| == |s.queue| + 1 && t.handled == s.handled + [x] && t.sent == s.sent
            && t.reading == (if |t.queue| < QUEUE_LIMIT then 1 else 0)
            && (t.writing == [] <==> s.queue != [] && s.writing == [])
            && (s.queue != [] ==> t.handed == s.handed)
  {
    hide Queued, Answer;
    var t := s.(reading := s.reading - 1);
    QueuedKeeps(t, x);
    if s.queue != [] { QueuedBehind(t, x); }
  }

  lemma EndedEffect(s: Session, arrival: Arrival)
    requires Inv(s) && s.reading > 0 && !arrival.Arrived?
    ensures var t := HandleRecv(s, arrival);
            && t.queue == s.queue && t.writing == s.writing && t.reading == 0
            && t.handled == s.handled && t.handed == s.handed && t.sent == s.sent
  {
    hide Queued, Answer, QueueInv;
  }

  lemma SendDoneEffect(s: Session, departure: Departure)
    requires Inv(s) && s.writing != []
    ensures var t := HandleSend(s, departure);
            && t.handled == s.handled
            && if departure.SendError? || s.writing[0].close then
                 t.queue == s.queue && t.writing == [] && t.reading == s.reading && t.handed == s.handed
               else
                 && |t.queue| == |s.queue| - 1 && (t.writing == [] <==> t.queue == [])
                 && t.reading == if |s.queue| == QUEUE_LIMIT then 1 else s.reading
  {
    hide Send, Answer, QueueInv;
    QueueFacts(s);
    if departure.Sent? && !s.writing[0].close {
      PoppedWaits(s);
      SendKeeps(Popped(s));
    }
  }

  lemma QueueFacts(s: Session)
    requires Inv(s)
    ensures |s.queue| <= QUEUE_LIMIT && (s.writing != [] ==> s.queue != [])
  {
  }

  lemma QueuedBehind(s: Session, x: Exchange)
    requires s.queue != []
    ensures Queued(s, x).handed == s.handed
  {
  }

  /** The reader retires at exactly the reads that bring no request to answer; the writer at exactly the
      writes that fail or close. */
  lemma RetiresExactly(s: Session, e: Event)
    requires Inv(s) && Enabled(s, e)
    ensures ReaderRetired(Step(s, e)) <==> ReaderRetired(s) || RetiresReader(e)
    ensures WriterRetired(Step(s, e)) <==> WriterRetired(s) || RetiresWriter(s, e)
  {
    hide Step;
    StepEffect(s, e);
  }

  predicate Steady(s: Session, es: seq<Event>)
    requires IsRun(s, es)
    decreases |es|
  {
    es == [] || (!RetiresReader(es[0]) && !RetiresWriter(s, es[0]) && Steady(Step(s, es[0]), es[1..]))
  }

  lemma {:induction false} RetiredForEver(s: Session, es: seq<Event>)
    requires Inv(s) && IsRun(s, es)
    ensures ReaderRetired(s) ==> ReaderRetired(Exec(s, es)) && Exec(s, es).handled == s.handled
    ensures WriterRetired(s) ==>
              var t := Exec(s, es);
              && WriterRetired(t) && t.handed == s.handed
              && |t.handled| - |s.handled| == |t.queue| - |s.queue| <= QUEUE_LIMIT - |s.queue|
    decreases |es|
  {
    hide Step;
    if es != [] {
      StepEffect(s, es[0]);
      RetiresExactly(s, es[0]);
      RetiredForEver(Step(s, es[0]), es[1..]);
    }
  }

  lemma {:induction false} SteadyExactly(s: Session, es: seq<Event>)
    requires Inv(s) && !ReaderRetired(s) && !WriterRetired(s) && IsRun(s, es)
    ensures Steady(s, es) <==> !ReaderRetired(Exec(s, es)) && !WriterRetired(Exec(s, es))
    decreases |es|
  {
    hide Inv, Step, ReaderRetired, WriterRetired;
    if es != [] {
      var t := Step(s, es[0]);
      StepKeeps(s, es[0]);
      RetiresExactly(s, es[0]);
      if ReaderRetired(t) || WriterRetired(t) {
        RetiredForEver(t, es[1..]);
      } else {
        SteadyExactly(t, es[1..]);
      }
    }
  }

  /** A read is outstanding exactly while fewer than eight responses are queued, and a write exactly
      while any is, if and only if no read or write so far was the last of its kind; then the session
      always has something outstanding. */
  lemma BackPressure(es: seq<Event>)
    requires IsRun(STARTED, es)
    ensures var s := Exec(STARTED, es);
            && (Steady(STARTED, es) <==> (s.reading == 1 <==> |s.queue| < 8) && (s.writing != [] <==> s.queue != []))
            && (Steady(STARTED, es) ==> s.reading == 1 || s.writing != [])
  {
    StartedKeeps();
    RunKeeps(STARTED, es);
    SteadyExactly(STARTED, es);
  }

  /** Once reading has ended no request is ever taken in again; once writing has ended with `n` responses
      queued, nothing more is written and at most `8 - n` further requests are taken in. */
  lemma EndingsAreFinal(es: seq<Event>, more: seq<Event>)
    requires IsRun(STARTED, es) && IsRun(Exec(STARTED, es), more)
    ensures var s := Exec(STARTED, es); var t := Exec(s, more);
            && (s.reading == 0 && |s.queue| < 8 ==> t.reading == 0 && t.handled == s.handled)
            && (s.writing == [] && s.queue != [] ==>
                  t.writing == [] && t.handed == s.handed && |t.handled| - |s.handled| <= 8 - |s.queue|)
  {
    StartedKeeps();
    RunKeeps(STARTED, es);
    RetiredForEver(Exec(STARTED, es), more);
  }

  // ---------------------------------------------------------------------------------------------
  // How each side ends

  function One(b: bool): nat {
    if b then 1 else 0
  }

  function Number(es: seq<Event>, p: Event -> bool): nat {
    if es == [] then 0 else One(p(es[0])) + Number(es[1..], p)
  }

  /** The client has finished sending. */
  predicate StreamEnds(e: Event) {
    e == RecvDone(EndOfStream)
  }

  predicate WriteFails(e: Event) {
    e.SendDone? && e.departure.SendError?
  }

  predicate HandsOver(e: Event) {
    e == RecvDone(Upgrade(true))
  }

  /** An error of the kind that only says the connection has gone. */
  predicate Silent(e: Event) {
    e == RecvDone(ReadError(true)) || e == SendDone(SendError(true))
  }

  lemma StepSignals(s: Session, e: Event)
    requires Enabled(s, e) && (s.reading > 0 ==> !s.upgraded)
    ensures var t := Step(s, e);
            && t.shutdowns + One(WriteFails(e)) == s.shutdowns + One(StreamEnds(e)) + One(RetiresWriter(s, e))
            && One(t.upgraded) == One(s.upgraded) + One(HandsOver(e))
            && t.reports + t.shutdowns + One(HandsOver(e)) + One(Silent(e))
               == s.reports + s.shutdowns + One(RetiresReader(e)) + One(RetiresWriter(s, e))
  {
    hide Answer;
  }

  lemma ReadingIsKept(s: Session)
    requires Inv(s) && s.reading > 0
    ensures !s.upgraded
  {
  }

  lemma {:induction false} RunSignals(s: Session, es: seq<Event>)
    requires Inv(s) && IsRun(s, es)
    ensures var t := Exec(s, es);
            && t.shutdowns + Number(es, WriteFails) + One(WriterRetired(s))
               == s.shutdowns + Number(es, StreamEnds) + One(WriterRetired(t))
            && One(t.upgraded) == One(s.upgraded) + Number(es, HandsOver)
            && t.reports + t.shutdowns + Number(es, HandsOver) + Number(es, Silent)
               + One(ReaderRetired(s)) + One(WriterRetired(s))
               == s.reports + s.shutdowns + One(ReaderRetired(t)) + One(WriterRetired(t))
    decreases |es|
  {
    hide Inv, Step;
    if es != [] {
      StepKeeps(s, es[0]);
      if s.reading > 0 { ReadingIsKept(s); }
      StepSignals(s, es[0]);
      RetiresOnce(s, es[0]);
      RunSignals(Step(s, es[0]), es[1..]);
    }
  }

  lemma RetiresOnce(s: Session, e: Event)
    requires Inv(s) && Enabled(s, e)
    ensures One(ReaderRetired(Step(s, e))) == One(ReaderRetired(s)) + One(RetiresReader(e))
    ensures One(WriterRetired(Step(s, e))) == One(WriterRetired(s)) + One(RetiresWriter(s, e))
  {
    hide Step;
    RetiresExactly(s, e);
  }

  /** In every run each side that has ended has given exactly one sign of it, and no other sign is given:
      an error reported, the stream shut down or the stream handed over, unless the error was one to keep
      silent about. A shutdown means that the client's stream had ended or that a closing response had
      been written in full. */
  lemma EndingsAreSignalled(es: seq<Event>)
    requires IsRun(STARTED, es)
    ensures var s := Exec(STARTED, es);
            && s.reports + s.shutdowns + One(s.upgraded) + Number(es, Silent)
               == One(s.reading == 0 && |s.queue| < 8) + One(s.writing == [] && s.queue != [])
            && s.shutdowns == Number(es, StreamEnds) + One(s.writing == [] && s.queue != []) - Number(es, WriteFails)
            && One(s.upgraded) == Number(es, HandsOver)
            && (Steady(STARTED, es) ==> s.reports + s.shutdowns == 0 && !s.upgraded)
  {
    StartedKeeps();
    RunSignals(STARTED, es);
    SteadyExactly(STARTED, es);
  }

  // ---------------------------------------------------------------------------------------------
  // Upgrading

  /** The session never runs another handler. */
  ghost predicate Over(s: Session) {
    forall es :: IsRun(s, es) ==> es == []
  }

  /** Handing the stream to a WebSocket session leaves this one with nothing outstanding exactly when no
      write was; in a run free of endings, exactly when the response queue was empty. */
  lemma UpgradeIsClean(es: seq<Event>)
    requires IsRun(STARTED, es) && Enabled(Exec(STARTED, es), RecvDone(Upgrade(true)))
    ensures var s := Exec(STARTED, es); var t := Step(s, RecvDone(Upgrade(true)));
            && t.upgraded
            && (Over(t) <==> s.writing == [])
            && (Steady(STARTED, es) ==> (Over(t) <==> s.queue == []))
  {
    var s := Exec(STARTED, es);
    var t := Step(s, RecvDone(Upgrade(true)));
    StartedKeeps();
    RunKeeps(STARTED, es);
    BackPressure(es);
    if s.writing != [] {
      var more := [SendDone(Sent)];
      assert more[1..] == [] && IsRun(Step(t, more[0]), more[1..]);
      assert IsRun(t, more);
    }
  }

  /** So an upgrade request pipelined behind one whose response is still being written is not clean. */
  lemma UpgradeBehindResponse(x: Exchange)
    ensures var es := [RecvDone(Arrived(x)), RecvDone(Upgrade(true))];
            IsRun(STARTED, es) && Exec(STARTED, es).upgraded && Exec(STARTED, es).writing != []
  {
    var first, second := RecvDone(Arrived(x)), RecvDone(Upgrade(true));
    StartedKeeps();
    StepEffect(STARTED, first);
    var s := Step(STARTED, first);
    assert [first, second][1..] == [second] && [second][1..] == [];
    assert IsRun(Step(s, second), []);
    assert IsRun(s, [second]) && Exec(s, [second]) == Step(s, second);
  }
}
