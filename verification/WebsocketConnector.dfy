/** The client connectors, plain and over TLS: a chain of stages that ends in a session or in a report. */
module WebsocketConnector {
  import opened Text
  import opened WebsocketMachine
  import opened WebsocketInvariant
  import opened WebsocketTheorems
  import opened WebsocketCallbacks
  import opened WebsocketSession

  datatype Stage = Resolve | Connect | SslHandshake | Handshake

  function StageName(stage: Stage): string {
    match stage
    case Resolve => "resolve"
    case Connect => "connect"
    case SslHandshake => "ssl handshake"
    case Handshake => "handshake"
  }

  /** What the connector has told the service: an error, or that it has no connection to give. */
  datatype Told = Report(protocol: string, what: string) | NullConnect(identity: nat)

  function NextStage(ssl: bool, stage: Stage): Option<Stage> {
    match stage
    case Resolve => Some(Connect)
    case Connect => Some(if ssl then SslHandshake else Handshake)
    case SslHandshake => Some(Handshake)
    case Handshake => None
  }

  /** One attempt to connect: the stage under way, what has been said, and the session it led to. */
  datatype Attempt = Attempt(
    ssl: bool,
    identity: nat,      // what the service gave to tell its attempts apart
    pending: Option<Stage>,
    told: seq<Told>,
    session: Option<Session>)

  /** An attempt whose name resolution has been started. */
  function Begun(ssl: bool, identity: nat): Attempt {
    Attempt(ssl, identity, Some(Resolve), [], None)
  }

  function Protocol(ssl: bool): string {
    if ssl then "wss" else "ws"
  }

  /** The stage under way has ended; `app` is the service, should a session start. */
  function EndStage(a: Attempt, ok: bool, app: App): Attempt
    requires a.pending.Some?
  {
    var stage := a.pending.value;
    if !ok then
      a.(pending := None, told := a.told + [Report(Protocol(a.ssl), StageName(stage)), NullConnect(a.identity)])
    else
      match NextStage(a.ssl, stage)
      case Some(next) => a.(pending := Some(next))
      case None => a.(pending := None, session := Some(HandleStart(Fresh(Created), a.identity, app)))
  }

  class Connector {
    const ssl: bool
    const identity: nat
    var pending: Option<Stage>
    var told: seq<Told>
    var session: WebsocketSession?

    ghost function View(): Attempt
      reads this, session
    {
      Attempt(ssl, identity, pending, told, if session == null then None else Some(session.View()))
    }

    /** A connector whose name resolution has been started. */
    constructor (ssl: bool, identity: nat)
      ensures this.ssl == ssl && this.identity == identity && View() == Begun(ssl, identity)
    {
      this.ssl, this.identity, pending, told, session := ssl, identity, Some(Resolve), [], null;
    }

    method Error(what: string)
      modifies this`told
      ensures told == old(told) + [Report(Protocol(ssl), what), NullConnect(identity)]
    {
      told := told + [Report(if ssl then "wss" else "ws", what)];
      told := told + [NullConnect(identity)];
    }

    method OnResolve(ok: bool, ghost app: App)
      requires pending == Some(Resolve)
      modifies this
      ensures View() == EndStage(old(View()), ok, app) && session == old(session)
    {
      pending := None;
      if !ok {
        Error("resolve");
        return;
      }
      pending := Some(Connect);
    }

    method OnConnect(ok: bool, ghost app: App)
      requires pending == Some(Connect)
      modifies this
      ensures View() == EndStage(old(View()), ok, app) && session == old(session)
    {
      pending := None;
      if !ok {
        Error("connect");
        return;
      }
      pending := Some(if ssl then SslHandshake else Handshake);
    }

    method OnSslHandshake(ok: bool, ghost app: App)
      requires pending == Some(SslHandshake)
      modifies this
      ensures View() == EndStage(old(View()), ok, app) && session == old(session)
    {
      pending := None;
      if !ok {
        Error("ssl handshake");
        return;
      }
      pending := Some(Handshake);
    }

    method OnHandshake(ok: bool, app: App)
      requires pending == Some(Handshake)
      modifies this
      ensures View() == EndStage(old(View()), ok, app)
      ensures ok ==> session != null && fresh(session)
    {
      pending := None;
      if !ok {
        Error("handshake");
        return;
      }
      var made := new WebsocketSession(false);
      made.Run(identity, app);
      session := made;
    }
  }

  // ---------------------------------------------------------------------------------------------
  // Whole attempts, the session's life included

  datatype AttemptEvent = StageDone(ok: bool, app: App) | InSession(event: Event)

  predicate AttemptEnabled(a: Attempt, e: AttemptEvent) {
    match e
    case StageDone(_, _) => a.pending.Some?
    case InSession(event) => a.session.Some? && Enabled(a.session.value, event)
  }

  function AttemptStep(a: Attempt, e: AttemptEvent): Attempt
    requires AttemptEnabled(a, e)
  {
    match e
    case StageDone(ok, app) => EndStage(a, ok, app)
    case InSession(event) => a.(session := Some(Step(a.session.value, event)))
  }

  predicate IsAttempt(a: Attempt, es: seq<AttemptEvent>)
    decreases |es|
  {
    es == [] || (AttemptEnabled(a, es[0]) && IsAttempt(AttemptStep(a, es[0]), es[1..]))
  }

  function AttemptExec(a: Attempt, es: seq<AttemptEvent>): Attempt
    requires IsAttempt(a, es)
    decreases |es|
  {
    if es == [] then a else AttemptExec(AttemptStep(a, es[0]), es[1..])
  }

  /** The session of a client: its first callback is `on_connect`, and no other is. */
  predicate ClientSession(identity: nat, s: Session) {
    && Inv(s) && s.phase == Opened
    && s.log != [] && s.log[0] == ToldConnect(identity)
    && forall i :: 0 < i < |s.log| ==> !Opening(s.log[i])
  }

  /** The three ways an attempt can stand. */
  predicate AttemptInv(a: Attempt) {
    if a.pending.Some? then
      && a.told == [] && a.session.None?
      && (a.pending.value == SslHandshake ==> a.ssl)
    else if a.session.Some? then
      a.told == [] && ClientSession(a.identity, a.session.value)
    else
      && |a.told| == 2 && a.told[1] == NullConnect(a.identity)
      && exists stage :: a.told[0] == Report(Protocol(a.ssl), StageName(stage)) && (stage == SslHandshake ==> a.ssl)
  }

  lemma ClientSessionKeeps(identity: nat, s: Session, e: Event)
    requires ClientSession(identity, s) && Enabled(s, e)
    ensures ClientSession(identity, Step(s, e))
  {
    hide Step, SendInv, RecvInv, Settled;
    StepKeeps(s, e);
    LogIsExact(s, e);
    OpenedStays(s, [e]);
    RunOfOne(s, e);
  }

  lemma StartIsClient(identity: nat, app: App)
    ensures ClientSession(identity, HandleStart(Fresh(Created), identity, app))
  {
    hide Inv, HandleStart;
    var s := Fresh(Created);
    FreshInv(Created);
    StepKeeps(s, Start(identity, app));
    OpeningLog(s, Start(identity, app));
  }

  lemma AttemptStepKeeps(a: Attempt, e: AttemptEvent)
    requires AttemptInv(a) && AttemptEnabled(a, e)
    ensures AttemptInv(AttemptStep(a, e))
  {
    hide HandleStart, Step, ClientSession, StageName;
    match e
    case StageDone(ok, app) =>
      StartIsClient(a.identity, app);
      if !ok {
        assert AttemptStep(a, e).told[0] == Report(Protocol(a.ssl), StageName(a.pending.value));
      }
    case InSession(event) => ClientSessionKeeps(a.identity, a.session.value, event);
  }

  lemma {:induction false} AttemptKeeps(a: Attempt, es: seq<AttemptEvent>)
    requires AttemptInv(a) && IsAttempt(a, es)
    ensures AttemptInv(AttemptExec(a, es))
    ensures AttemptExec(a, es).ssl == a.ssl && AttemptExec(a, es).identity == a.identity
    decreases |es|
  {
    hide AttemptInv;
    if es != [] {
      AttemptStepKeeps(a, es[0]);
      AttemptKeeps(AttemptStep(a, es[0]), es[1..]);
    }
  }

  /** Callbacks of `on_connect` for this attempt so far, with a connection or without. */
  function Connects(a: Attempt): nat {
    multiset(a.told)[NullConnect(a.identity)] +
    if a.session.Some? then Count(a.session.value.log, ToldConnect(a.identity)) else 0
  }

  lemma {:induction false} CountNone(log: seq<Notice>, notice: Notice)
    requires notice !in log
    ensures Count(log, notice) == 0
  {
    if log != [] { CountNone(log[1..], notice); }
  }

  lemma NamesAreLiteral(ssl: bool, stage: Stage)
    ensures Protocol(ssl) == if ssl then "wss" else "ws"
    ensures StageName(stage) in ["resolve", "connect", "handshake"]
            || (stage == SslHandshake && StageName(stage) == "ssl handshake")
  {
  }

  /** In every run of an attempt: while a stage is under way the service has been told nothing; after it,
      `on_connect` has been called exactly once, with the identity the attempt was given: either with no
      connection, straight after one error naming the stage that failed, or with a connection, before
      every other callback of that connection. */
  lemma ConnectsExactlyOnce(ssl: bool, identity: nat, es: seq<AttemptEvent>)
    requires IsAttempt(Begun(ssl, identity), es)
    ensures var a := AttemptExec(Begun(ssl, identity), es);
            && a.identity == identity
            && Connects(a) == (if a.pending.Some? then 0 else 1)
            && (a.session.None? && a.pending.None? ==>
                  exists what :: a.told == [Report(if ssl then "wss" else "ws", what), NullConnect(identity)]
                                 && (what in ["resolve", "connect", "handshake"] || (ssl && what == "ssl handshake")))
            && (a.session.Some? ==>
                  var log := a.session.value.log;
                  && a.told == [] && log != [] && log[0] == ToldConnect(identity)
                  && forall i :: 0 < i < |log| ==> !log[i].ToldConnect?)
  {
    hide Inv, StageName, AttemptStep;
    AttemptKeeps(Begun(ssl, identity), es);
    var a := AttemptExec(Begun(ssl, identity), es);
    if a.session.Some? {
      var log := a.session.value.log;
      forall i | 0 <= i < |log[1..]| ensures log[1..][i] != ToldConnect(identity) {
        assert log[1..][i] == log[i + 1];
      }
      CountNone(log[1..], ToldConnect(identity));
    } else if a.pending.None? {
      var stage :| a.told[0] == Report(Protocol(ssl), StageName(stage)) && (stage == SslHandshake ==> ssl);
      assert a.told == [Report(Protocol(ssl), StageName(stage)), NullConnect(identity)];
      NamesAreLiteral(ssl, stage);
    }
  }

  /** The stages of an attempt, in order. */
  function Stages(ssl: bool): (stages: seq<Stage>)
    ensures |stages| == if ssl then 4 else 3
  {
    [Resolve, Connect] + (if ssl then [SslHandshake] else []) + [Handshake]
  }

  /** What the service is told when a stage of an attempt fails. */
  function Failure(a: Attempt, stage: Stage): seq<Told> {
    [Report(Protocol(a.ssl), StageName(stage)), NullConnect(a.identity)]
  }

  predicate AllSucceed(es: seq<AttemptEvent>) {
    forall e :: e in es ==> e.StageDone? && e.ok
  }

  lemma StagesAreLiteral(ssl: bool, k: nat)
    requires k < |Stages(ssl)|
    ensures Protocol(ssl) == if ssl then "wss" else "ws"
    ensures StageName(Stages(ssl)[k]) ==
            (if ssl then ["resolve", "connect", "ssl handshake", "handshake"]
             else ["resolve", "connect", "handshake"])[k]
    ensures Stages(ssl)[k] ==
            (if ssl then [Resolve, Connect, SslHandshake, Handshake] else [Resolve, Connect, Handshake])[k]
  {
  }

  /** The stages run in order until one fails. If none has, the next is under way, or after the last the
      session exists, freshly started; if one has, it was the last to run and is the one the service is
      told about, under the protocol's name and its own. */
  lemma StagesInOrder(ssl: bool, identity: nat, es: seq<AttemptEvent>)
    requires IsAttempt(Begun(ssl, identity), es)
    requires forall e :: e in es ==> e.StageDone?
    ensures var a := AttemptExec(Begun(ssl, identity), es);
            var stages := if ssl then [Resolve, Connect, SslHandshake, Handshake] else [Resolve, Connect, Handshake];
            var names := if ssl then ["resolve", "connect", "ssl handshake", "handshake"]
                         else ["resolve", "connect", "handshake"];
            && |es| <= |stages|
            && if AllSucceed(es) then
                 && a.told == []
                 && a.pending == (if |es| < |stages| then Some(stages[|es|]) else None)
                 && a.session == if |es| < |stages| then None
                                 else Some(Step(Fresh(Created), Start(identity, es[|es| - 1].app)))
               else
                 && AllSucceed(es[..|es| - 1])
                 && a.pending == None && a.session == None
                 && a.told == [Report(if ssl then "wss" else "ws", names[|es| - 1]), NullConnect(identity)]
  {
    hide Step, HandleStart, AttemptStep, Stages, StageName, Protocol;
    StagesAreLiteral(ssl, 0);
    StagesFrom(Begun(ssl, identity), 0, es);
    if !AllSucceed(es) {
      StagesAreLiteral(ssl, |es| - 1);
    } else if |es| < |Stages(ssl)| {
      StagesAreLiteral(ssl, |es|);
    }
  }

  lemma StageAfter(ssl: bool, k: nat)
    requires k < |Stages(ssl)|
    ensures NextStage(ssl, Stages(ssl)[k]) == if k + 1 < |Stages(ssl)| then Some(Stages(ssl)[k + 1]) else None
  {
  }

  lemma {:induction false} StagesFrom(a: Attempt, k: nat, es: seq<AttemptEvent>)
    requires k < |Stages(a.ssl)| && a == Begun(a.ssl, a.identity).(pending := Some(Stages(a.ssl)[k]))
    requires IsAttempt(a, es) && forall e :: e in es ==> e.StageDone?
    ensures var b := AttemptExec(a, es); var stages := Stages(a.ssl);
            && k + |es| <= |stages|
            && if AllSucceed(es) then
                 && b.told == []
                 && b.pending == (if k + |es| < |stages| then Some(stages[k + |es|]) else None)
                 && b.session == if k + |es| < |stages| then None
                                 else Some(Step(Fresh(Created), Start(a.identity, es[|es| - 1].app)))
               else
                 && AllSucceed(es[..|es| - 1])
                 && b == a.(pending := None, told := Failure(a, stages[k + |es| - 1]))
    decreases |es|
  {
    hide HandleStart, StageName, Protocol, Stages, NextStage;
    if es != [] {
      var t := AttemptStep(a, es[0]);
      StageAfter(a.ssl, k);
      assert es == [es[0]] + es[1..];
      if t.pending.Some? {
        StagesFrom(t, k + 1, es[1..]);
        if !AllSucceed(es) {
          assert es[..|es| - 1] == [es[0]] + es[1..][..|es[1..]| - 1];
        }
      } else {
        assert es[1..] == [] by { assert IsAttempt(t, es[1..]); }
      }
    }
  }
}
