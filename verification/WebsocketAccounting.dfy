/** What a WebSocket session owes to its application: every operation a handler starts, and every change
    the application asks for, is accounted for by the callbacks made and by what they answered. */
module WebsocketAccounting {
  import opened WebsocketMachine
  import opened WebsocketInvariant
  import opened WebsocketTheorems
  import opened WebsocketCallbacks

  // ---------------------------------------------------------------------------------------------
  // What the application says

  function One(b: bool): nat {
    if b then 1 else 0
  }

  /** What the application does in one callback. */
  function CallsIn(app: App, notice: Notice): seq<Call> {
    match notice
    case ToldError(_) => app.onError
    case ToldClose => app.onClose
    case _ => app.calls
  }

  function CallsInAll(app: App, notices: seq<Notice>): seq<Call>
    decreases |notices|
  {
    if notices == [] then [] else CallsIn(app, notices[0]) + CallsInAll(app, notices[1..])
  }

  /** The calls the application makes during one event, in order. */
  function CallsMade(s: Session, e: Event): seq<Call> {
    match e
    case AppCall(call) => [call]
    case RunPosted => []
    case _ => CallsInAll(e.app, Notices(s, e))
  }

  /** The event makes a callback that the application answers: an opening, `on_recv` or `on_send`. */
  predicate Asked(s: Session, e: Event) {
    exists notice :: notice in Notices(s, e) && (Opening(notice) || notice == ToldRecv || notice == ToldSend)
  }

  /** The answer is to give the connection up. */
  predicate GivesUp(s: Session, e: Event) {
    !e.RunPosted? && !e.AppCall? && Asked(s, e) && !e.app.keep
  }

  /** The answer is to keep the connection. */
  predicate Keeps(s: Session, e: Event) {
    !e.RunPosted? && !e.AppCall? && Asked(s, e) && e.app.keep
  }

  function Fills(calls: seq<Call>): seq<Frame> {
    if calls == [] then [] else
      (if calls[0].Fill? then [Frame(calls[0].text, calls[0].data)] else []) + Fills(calls[1..])
  }

  function Closes(calls: seq<Call>): nat {
    if calls == [] then 0 else One(calls[0].Close?) + Closes(calls[1..])
  }

  /** The user data after some calls. */
  function Stored(value: nat, calls: seq<Call>): nat {
    if calls == [] then value
    else if calls[|calls| - 1].SetUserData? then calls[|calls| - 1].value
    else Stored(value, calls[..|calls| - 1])
  }

  lemma Associative<T>(a: seq<T>, b: seq<T>, c: seq<T>)
    ensures a + (b + c) == (a + b) + c
  {
  }

  lemma {:induction false} FillsConcat(xs: seq<Call>, ys: seq<Call>)
    ensures Fills(xs + ys) == Fills(xs) + Fills(ys)
    decreases |xs|
  {
    if xs == [] {
      assert xs + ys == ys && Fills(xs) + Fills(ys) == Fills(ys);
    } else {
      var first := if xs[0].Fill? then [Frame(xs[0].text, xs[0].data)] else [];
      assert (xs + ys)[1..] == xs[1..] + ys && (xs + ys)[0] == xs[0];
      FillsConcat(xs[1..], ys);
      Associative(first, Fills(xs[1..]), Fills(ys));
    }
  }

  lemma {:induction false} ClosesConcat(xs: seq<Call>, ys: seq<Call>)
    ensures Closes(xs + ys) == Closes(xs) + Closes(ys)
    decreases |xs|
  {
    if xs == [] {
      assert xs + ys == ys;
    } else {
      assert (xs + ys)[1..] == xs[1..] + ys;
      ClosesConcat(xs[1..], ys);
    }
  }

  lemma {:induction false} StoredConcat(value: nat, xs: seq<Call>, ys: seq<Call>)
    ensures Stored(value, xs + ys) == Stored(Stored(value, xs), ys)
    decreases |ys|
  {
    if ys == [] {
      assert xs + ys == xs;
    } else {
      assert (xs + ys)[..|xs + ys| - 1] == xs + ys[..|ys| - 1];
      StoredConcat(value, xs, ys[..|ys| - 1]);
    }
  }

  // ---------------------------------------------------------------------------------------------
  // What a handler makes of it

  /** `t` is `s` after some calls of the application, and whatever it cannot touch is as it was. */
  predicate Obeyed(s: Session, t: Session, calls: seq<Call>) {
    && t.filled == s.filled + Fills(calls)
    && t.closing == s.closing + Closes(calls)
    && t.userData == Stored(s.userData, calls)
    && t.reading == s.reading && t.writing == s.writing && t.sendQueue == s.sendQueue && t.hasClose == s.hasClose
    && t.received == s.received
  }

  lemma ObeyedOnce(s: Session, call: Call)
    ensures Obeyed(s, Apply(s, call), [call])
  {
    assert [call][1..] == [] && [call][..0] == [];
  }

  lemma ObeyedTwice(s: Session, t: Session, u: Session, xs: seq<Call>, ys: seq<Call>)
    requires Obeyed(s, t, xs) && Obeyed(t, u, ys)
    ensures Obeyed(s, u, xs + ys)
  {
    FillsConcat(xs, ys);
    ClosesConcat(xs, ys);
    StoredConcat(s.userData, xs, ys);
    assert s.filled + Fills(xs) + Fills(ys) == s.filled + (Fills(xs) + Fills(ys));
  }

  lemma {:induction false} ObeyedAll(s: Session, calls: seq<Call>)
    ensures Obeyed(s, ApplyAll(s, calls), calls)
    decreases |calls|
  {
    hide Apply;
    if calls != [] {
      ObeyedOnce(s, calls[0]);
      ObeyedAll(Apply(s, calls[0]), calls[1..]);
      hide Obeyed;
      ObeyedTwice(s, Apply(s, calls[0]), ApplyAll(s, calls), [calls[0]], calls[1..]);
      assert [calls[0]] + calls[1..] == calls;
    }
  }

  lemma ObeyedTell(s: Session, notice: Notice, calls: seq<Call>)
    ensures Obeyed(s, Tell(s, notice, calls), calls)
  {
    hide ApplyAll;
    ObeyedAll(s.(log := s.log + [notice]), calls);
  }

  lemma ObeyedClose(s: Session, calls: seq<Call>)
    ensures Obeyed(s.(hasClose := true), HandleClose(s, calls), if s.hasClose then [] else calls)
  {
    hide Tell;
    if !s.hasClose { ObeyedTell(s.(hasClose := true), ToldClose, calls); }
  }

  lemma ObeyedFail(s: Session, loud: bool, what: string, app: App)
    ensures Obeyed(s.(hasClose := true), Fail(s, loud, what, app),
                   (if loud then app.onError else []) + if s.hasClose then [] else app.onClose)
  {
    hide Tell, HandleClose;
    var t := if loud then Tell(s, ToldError(what), app.onError) else s;
    if loud { ObeyedTell(s, ToldError(what), app.onError); }
    ObeyedClose(t, app.onClose);
    ObeyedTwice(s.(hasClose := true), t.(hasClose := true), Fail(s, loud, what, app),
                if loud then app.onError else [], if s.hasClose then [] else app.onClose);
  }

  /** The frame that a read brought. */
  function Brought(s: Session, e: Event): seq<Frame> {
    if Delivers(s, e) then [e.frame] else []
  }

  /** Everything a handler owes: what is filled and stored is what the callbacks it made asked for; it
      starts a close for each they asked for and one if the connection is given up; and a read if an
      opening or `on_recv` keeps the connection. Nothing else starts a close or a read. And a frame is
      received for each read that brings one. */
  predicate Accounts(s: Session, e: Event, t: Session) {
    && t.filled == s.filled + Fills(CallsMade(s, e))
    && t.userData == Stored(s.userData, CallsMade(s, e))
    && t.closing + One(e.CloseDone?) == s.closing + Closes(CallsMade(s, e)) + One(GivesUp(s, e))
    && t.reading + One(e.RecvDone?) == s.reading + One(Keeps(s, e) && !e.SendDone?)
    && t.received == s.received + Brought(s, e)
  }

  /** A write is started for a node posted to an empty queue, and after `on_send` keeps a connection
      with more queued. */
  predicate StartsWrite(s: Session, e: Event) {
    || (e.RunPosted? && s.sendQueue == [])
    || (e.SendDone? && Keeps(s, e) && |s.sendQueue| > 1)
  }

  lemma OneCallback(app: App, notice: Notice)
    ensures CallsInAll(app, [notice]) == CallsIn(app, notice)
  {
    assert [notice][1..] == [];
  }

  lemma TwoCallbacks(app: App, first: Notice, second: Notice)
    ensures CallsInAll(app, [first] + [second]) == CallsIn(app, first) + CallsIn(app, second)
  {
    assert ([first] + [second])[1..] == [second];
    OneCallback(app, second);
  }

  /** The calls made when a read or a write has failed. */
  lemma FailureCalls(app: App, loud: bool, what: string, closed: bool)
    ensures CallsInAll(app, (if loud then [ToldError(what)] else []) + if closed then [] else [ToldClose]) ==
            (if loud then app.onError else []) + if closed then [] else app.onClose
  {
    OneCallback(app, ToldError(what));
    OneCallback(app, ToldClose);
    TwoCallbacks(app, ToldError(what), ToldClose);
    var told: seq<Notice> := if loud then [ToldError(what)] else [];
    var end: seq<Notice> := if closed then [] else [ToldClose];
    assert told + [] == told && [] + end == end;
  }

  lemma AnsweredAccounts(s: Session, e: Event, notice: Notice)
    requires !e.RunPosted? && !e.AppCall? && Notices(s, e) == [notice]
    requires Opening(notice) || notice == ToldRecv || notice == ToldSend
    ensures CallsMade(s, e) == e.app.calls && (GivesUp(s, e) <==> !e.app.keep) && (Keeps(s, e) <==> e.app.keep)
  {
    OneCallback(e.app, notice);
    assert notice in Notices(s, e);
  }

  lemma OpeningAccounts(s: Session, e: Event)
    requires Enabled(s, e) && (e.Start? || e.AcceptDone?)
    ensures Accounts(s, e, Step(s, e)) && Step(s, e).writing == s.writing
  {
    hide Tell;
    var t := s.(phase := Opened);
    if e.Start? {
      ObeyedTell(t, ToldConnect(e.identity), e.app.calls);
      AnsweredAccounts(s, e, ToldConnect(e.identity));
    } else if e.ec == Success {
      ObeyedTell(t, ToldAccept, e.app.calls);
      AnsweredAccounts(s, e, ToldAccept);
    } else if e.ec != StreamTruncated {
      ObeyedTell(s.(phase := Rejected), ToldError("accept"), e.app.onError);
      OneCallback(e.app, ToldError("accept"));
    }
  }

  lemma FailureAccounts(s: Session, e: Event, loud: bool, what: string)
    requires e.RecvDone? || e.SendDone?
    requires Notices(s, e) == (if loud then [ToldError(what)] else []) + if s.hasClose then [] else [ToldClose]
    ensures CallsMade(s, e) == (if loud then e.app.onError else []) + if s.hasClose then [] else e.app.onClose
    ensures !GivesUp(s, e) && !Keeps(s, e)
  {
    hide Notices, CallsInAll;
    FailureCalls(e.app, loud, what, s.hasClose);
  }

  lemma RecvFailedAccounts(s: Session, e: Event)
    requires Enabled(s, e) && e.RecvDone? && e.ec != Success
    ensures Accounts(s, e, Step(s, e)) && Step(s, e).writing == s.writing
  {
    hide Fail, CallsMade, GivesUp, Keeps;
    var loud := e.ec != StreamTruncated && e.ec != Closed;
    ObeyedFail(s.(reading := s.reading - 1), loud, "recv", e.app);
    FailureAccounts(s, e, loud, "recv");
  }

  lemma RecvAccounts(s: Session, e: Event)
    requires Enabled(s, e) && e.RecvDone?
    ensures Accounts(s, e, Step(s, e)) && Step(s, e).writing == s.writing
  {
    if e.ec != Success {
      hide Step, Accounts;
      RecvFailedAccounts(s, e);
    } else if s.recvQueue != [] {
      hide Tell, Fail, CallsMade, GivesUp, Keeps;
      ObeyedTell(Arrived(s, e.frame), ToldRecv, e.app.calls);
      AnsweredAccounts(s, e, ToldRecv);
    }
  }

  lemma FailureAsksNothing(s: Session, e: Event)
    requires e.SendDone? && e.ec != Success
    ensures !Keeps(s, e)
  {
  }

  lemma SendFailedAccounts(s: Session, e: Event)
    requires Enabled(s, e) && e.SendDone? && e.ec != Success
    ensures Accounts(s, e, Step(s, e)) && |Step(s, e).writing| + 1 == |s.writing|
  {
    hide Fail, CallsMade, GivesUp, Keeps;
    var loud := e.ec != StreamTruncated;
    ObeyedFail(s.(writing := s.writing[1..]), loud, "send", e.app);
    FailureAccounts(s, e, loud, "send");
  }

  lemma SentAccounts(s: Session, e: Event)
    requires Enabled(s, e) && e.SendDone? && e.ec == Success && s.sendQueue != [] && |s.sendQueue[0].data| <= e.bytes
    ensures Accounts(s, e, Step(s, e)) && |Step(s, e).writing| + 1 == |s.writing| + One(StartsWrite(s, e))
  {
    hide Tell, Fail, CallsMade, GivesUp, Keeps, Notices;
    ObeyedTell(Popped(s), ToldSend, e.app.calls);
    assert Notices(s, e) == [ToldSend] by { SentIsTold(s, e); }
    AnsweredAccounts(s, e, ToldSend);
  }

  lemma SentIsTold(s: Session, e: Event)
    requires e.SendDone? && e.ec == Success && s.sendQueue != [] && |s.sendQueue[0].data| <= e.bytes
    ensures Notices(s, e) == [ToldSend]
  {
  }

  lemma ShortAccounts(s: Session, e: Event)
    requires Enabled(s, e) && e.SendDone? && e.ec == Success
    requires s.sendQueue == [] || |s.sendQueue[0].data| > e.bytes
    ensures Accounts(s, e, Step(s, e)) && |Step(s, e).writing| + 1 == |s.writing| + One(StartsWrite(s, e))
  {
    hide Tell, Fail;
    assert Notices(s, e) == [] && CallsMade(s, e) == [];
  }

  lemma SendAccounts(s: Session, e: Event)
    requires Enabled(s, e) && e.SendDone?
    ensures Accounts(s, e, Step(s, e)) && |Step(s, e).writing| + 1 == |s.writing| + One(StartsWrite(s, e))
  {
    if e.ec != Success {
      hide Step, Accounts, Notices, CallsMade;
      SendFailedAccounts(s, e);
      FailureAsksNothing(s, e);
    } else {
      hide Step, Accounts, StartsWrite;
      if s.sendQueue != [] && |s.sendQueue[0].data| <= e.bytes {
        SentAccounts(s, e);
      } else {
        ShortAccounts(s, e);
      }
    }
  }

  lemma CloseAccounts(s: Session, e: Event)
    requires Enabled(s, e) && e.CloseDone?
    ensures Accounts(s, e, Step(s, e)) && Step(s, e).writing == s.writing
  {
    hide HandleClose;
    ObeyedClose(s.(closing := s.closing - 1), e.app.onClose);
    OneCallback(e.app, ToldClose);
  }

  /** Every handler accounts for what it starts and changes. */
  lemma StepAccounts(s: Session, e: Event)
    requires Enabled(s, e)
    ensures Accounts(s, e, Step(s, e))
    ensures |Step(s, e).writing| + One(e.SendDone?) == |s.writing| + One(StartsWrite(s, e))
  {
    if e.Start? || e.AcceptDone? {
      hide Step, Accounts;
      OpeningAccounts(s, e);
    } else if e.RecvDone? {
      hide Step, Accounts;
      RecvAccounts(s, e);
    } else if e.SendDone? {
      hide Step, Accounts;
      SendAccounts(s, e);
    } else if e.CloseDone? {
      hide Step, Accounts;
      CloseAccounts(s, e);
    } else if e.AppCall? {
      ObeyedOnce(s, e.call);
    }
  }

  // ---------------------------------------------------------------------------------------------
  // Over whole runs

  /** The calls of the application along a run. */
  function CallsAlong(s: Session, es: seq<Event>): seq<Call>
    requires IsRun(s, es)
    decreases |es|
  {
    if es == [] then [] else CallsMade(s, es[0]) + CallsAlong(Step(s, es[0]), es[1..])
  }

  /** The frames that the reads of a run brought. */
  function BroughtAlong(s: Session, es: seq<Event>): seq<Frame>
    requires IsRun(s, es)
    decreases |es|
  {
    if es == [] then [] else Brought(s, es[0]) + BroughtAlong(Step(s, es[0]), es[1..])
  }

  /** How often the application gave the connection up. */
  function TimesGivenUp(s: Session, es: seq<Event>): nat
    requires IsRun(s, es)
    decreases |es|
  {
    if es == [] then 0 else One(GivesUp(s, es[0])) + TimesGivenUp(Step(s, es[0]), es[1..])
  }

  /** How often it kept the connection when it was opened or had received. */
  function TimesKept(s: Session, es: seq<Event>): nat
    requires IsRun(s, es)
    decreases |es|
  {
    if es == [] then 0 else One(Keeps(s, es[0]) && !es[0].SendDone?) + TimesKept(Step(s, es[0]), es[1..])
  }

  function ClosesDone(es: seq<Event>): nat {
    if es == [] then 0 else One(es[0].CloseDone?) + ClosesDone(es[1..])
  }

  function ReadsDone(es: seq<Event>): nat {
    if es == [] then 0 else One(es[0].RecvDone?) + ReadsDone(es[1..])
  }

  lemma {:induction false} RunAccounts(s: Session, es: seq<Event>)
    requires IsRun(s, es)
    ensures var t := Exec(s, es); var calls := CallsAlong(s, es);
            && t.filled == s.filled + Fills(calls)
            && t.userData == Stored(s.userData, calls)
            && t.closing + ClosesDone(es) == s.closing + Closes(calls) + TimesGivenUp(s, es)
            && t.reading + ReadsDone(es) == s.reading + TimesKept(s, es)
            && t.received == s.received + BroughtAlong(s, es)
    decreases |es|
  {
    hide Step, Enabled, CallsMade, GivesUp, Keeps, Brought;
    if es != [] {
      StepAccounts(s, es[0]);
      var t, now := Step(s, es[0]), CallsMade(s, es[0]);
      RunAccounts(t, es[1..]);
      var later := CallsAlong(t, es[1..]);
      FillsConcat(now, later);
      ClosesConcat(now, later);
      StoredConcat(s.userData, now, later);
      Associative(s.filled, Fills(now), Fills(later));
      Associative(s.received, Brought(s, es[0]), BroughtAlong(t, es[1..]));
    }
  }

  /** In every run: the closes started, completed or not, are those the application asked for and one for
      each time it gave the connection up; the reads started are one for each time it kept the connection
      in an opening callback or `on_recv`; what was received is what the reads brought; and what was
      filled and stored is what it asked for, in every callback it was given. */
  lemma OperationsAreAccounted(phase: Phase, es: seq<Event>)
    requires IsRun(Fresh(phase), es)
    ensures var s := Exec(Fresh(phase), es); var calls := CallsAlong(Fresh(phase), es);
            && s.closing + ClosesDone(es) == Closes(calls) + TimesGivenUp(Fresh(phase), es)
            && s.reading + ReadsDone(es) == TimesKept(Fresh(phase), es)
            && s.filled == Fills(calls) && s.received == BroughtAlong(Fresh(phase), es)
            && s.userData == Stored(0, calls)
  {
    hide IsRun, Exec, CallsAlong, TimesGivenUp, TimesKept, BroughtAlong;
    RunAccounts(Fresh(phase), es);
    assert [] + Fills(CallsAlong(Fresh(phase), es)) == Fills(CallsAlong(Fresh(phase), es));
    assert [] + BroughtAlong(Fresh(phase), es) == BroughtAlong(Fresh(phase), es);
  }
}
