/** The WebSocket session as a state machine over values: one step per completion handler.

    The fields above the first blank line of `Session` are the session's own. The next group is
    what the stream and its executor owe the session: operations that have been started and have
    not completed, and closures that have been posted and have not run. The last group is history
    and is read by no handler. */
module WebsocketMachine {

  /** A message, or a queue node holding one. */
  datatype Frame = Frame(text: bool, data: string)

  /** An outstanding write: the ordinal of the queue node it reading from, and the bytes it was given. */
  datatype Write = Write(node: nat, frame: Frame)

  datatype ErrorCode = Success | StreamTruncated | Closed | Failed

  /** What the application may do to a connection, inside a callback or outside. */
  datatype Call =
    | Fill(text: bool, data: string)
    | Drop
    | Close
    | SetUserData(value: nat)

  /** How the application behaves in the callbacks that one handler makes. */
  datatype App = App(onError: seq<Call>, calls: seq<Call>, keep: bool, onClose: seq<Call>)

  /** A callback that has been made. */
  datatype Notice =
    | ToldConnect(identity: nat)
    | ToldAccept
    | ToldRecv
    | ToldSend
    | ToldError(what: string)
    | ToldClose

  datatype Phase = Created | Accepting | Opened | Rejected

  datatype Event =
    | Start(identity: nat, app: App)
    | AcceptDone(ec: ErrorCode, app: App)
    | RecvDone(ec: ErrorCode, frame: Frame, app: App)
    | SendDone(ec: ErrorCode, bytes: nat, app: App)
    | CloseDone(app: App)
    | RunPosted
    | AppCall(call: Call)

  datatype Session = Session(
    recvQueue: seq<Frame>,
    sendQueue: seq<Frame>,
    recvQueueSize: nat,
    sendQueueSize: nat,
    userData: nat,
    hasClose: bool,

    phase: Phase,
    reading: nat,
    writing: seq<Write>,
    closing: nat,
    posted: seq<Frame>,

    filled: seq<Frame>,     // every frame given to send_buffer_fill
    handed: seq<Frame>,     // every frame given to async_write
    written: seq<Frame>,    // the frames whose write completed in full
    torn: string,           // what a write that fell short did transfer
    received: seq<Frame>,
    dropped: seq<Frame>,
    log: seq<Notice>,
    misused: bool,          // a node holding no completed frame has been dropped
    fault: bool             // a BOOST_ASSERT of the session has failed
  )

  const SIZE_MAX: nat := 0xFFFF_FFFF_FFFF_FFFF

  /** `--` on a std::atomic<std::size_t>. */
  function Decrement(n: nat): nat {
    if n == 0 then SIZE_MAX else n - 1
  }

  function Fresh(phase: Phase): Session {
    Session([], [], 0, 0, 0, false, phase, 0, [], 0, [], [], [], [], "", [], [], [], false, false)
  }

  function Apply(s: Session, call: Call): Session {
    match call
    case Fill(text, data) =>
      s.(posted := s.posted + [Frame(text, data)], filled := s.filled + [Frame(text, data)])
    case Drop =>
      if s.recvQueue == [] then s else
        s.(recvQueue := s.recvQueue[1..],
           recvQueueSize := Decrement(s.recvQueueSize),
           dropped := s.dropped + [s.recvQueue[0]],
           misused := s.misused || s.recvQueueSize == 0)
    case Close => s.(closing := s.closing + 1)
    case SetUserData(value) => s.(userData := value)
  }

  function ApplyAll(s: Session, calls: seq<Call>): Session
    decreases |calls|
  {
    if calls == [] then s else ApplyAll(Apply(s, calls[0]), calls[1..])
  }

  function Tell(s: Session, notice: Notice, calls: seq<Call>): Session {
    ApplyAll(s.(log := s.log + [notice]), calls)
  }

  function Recv(s: Session): Session {
    s.(recvQueue := s.recvQueue + [Frame(true, "")], reading := s.reading + 1)
  }

  function Send(s: Session): Session {
    if s.sendQueue == [] then s.(fault := true) else
      s.(writing := s.writing + [Write(|s.written|, s.sendQueue[0])], handed := s.handed + [s.sendQueue[0]])
  }

  /** `on_close`. */
  function HandleClose(s: Session, calls: seq<Call>): Session {
    if s.hasClose then s else Tell(s.(hasClose := true), ToldClose, calls)
  }

  /** The error branch of `on_recv` and of `on_send`; `loud` errors are reported. */
  function Fail(s: Session, loud: bool, what: string, app: App): Session {
    HandleClose(if loud then Tell(s, ToldError(what), app.onError) else s, app.onClose)
  }

  /** `run(identity)`. */
  function HandleStart(s: Session, identity: nat, app: App): Session {
    var t := Tell(s.(phase := Opened), ToldConnect(identity), app.calls);
    if app.keep then Recv(t) else Apply(t, Close)
  }

  /** `on_accept`. */
  function HandleAccept(s: Session, ec: ErrorCode, app: App): Session {
    if ec != Success then
      var t := s.(phase := Rejected);
      if ec == StreamTruncated then t else Tell(t, ToldError("accept"), app.onError)
    else
      var t := Tell(s.(phase := Opened), ToldAccept, app.calls);
      if app.keep then Recv(t) else Apply(t, Close)
  }

  /** The session as `on_recv` hands it to the callback of a completed read. */
  function Arrived(s: Session, frame: Frame): Session
    requires s.reading > 0 && s.recvQueue != []
  {
    s.(reading := s.reading - 1,
       recvQueue := s.recvQueue[..|s.recvQueue| - 1] + [frame],
       recvQueueSize := s.recvQueueSize + 1,
       received := s.received + [frame])
  }

  /** `on_recv`. */
  function HandleRecv(s: Session, ec: ErrorCode, frame: Frame, app: App): Session
    requires s.reading > 0
  {
    if ec != Success then
      Fail(s.(reading := s.reading - 1), ec != StreamTruncated && ec != Closed, "recv", app)
    else if s.recvQueue == [] then
      s.(reading := s.reading - 1, fault := true)
    else
      var t := Tell(Arrived(s, frame), ToldRecv, app.calls);
      if app.keep then Recv(t) else Apply(t, Close)
  }

  /** The session as `on_send` hands it to the callback of a write that completed in full. */
  function Popped(s: Session): Session
    requires s.writing != [] && s.sendQueue != []
  {
    s.(writing := s.writing[1..], sendQueue := s.sendQueue[1..], sendQueueSize := Decrement(s.sendQueueSize),
       written := s.written + [s.writing[0].frame])
  }

  /** The session after a write that fell short: what it did transfer is consumed. */
  function Torn(s: Session, bytes: nat): Session
    requires s.writing != [] && s.sendQueue != [] && bytes < |s.sendQueue[0].data|
  {
    var front, sent := s.sendQueue[0], s.writing[0].frame.data;
    s.(writing := s.writing[1..],
       sendQueue := [Frame(front.text, front.data[bytes..])] + s.sendQueue[1..],
       torn := s.torn + if bytes <= |sent| then sent[..bytes] else sent)
  }

  /** `on_send`. */
  function HandleSend(s: Session, ec: ErrorCode, bytes: nat, app: App): Session
    requires s.writing != []
  {
    var t := s.(writing := s.writing[1..]);
    if ec != Success then
      Fail(t, ec != StreamTruncated, "send", app)
    else if t.sendQueue == [] then
      t.(fault := true)
    else if |t.sendQueue[0].data| > bytes then
      Torn(s, bytes)
    else
      var u := Tell(Popped(s), ToldSend, app.calls);
      if !app.keep then Apply(u, Close) else if u.sendQueue != [] then Send(u) else u
  }

  /** `on_post`. */
  function HandlePost(s: Session): Session
    requires s.posted != []
  {
    var t := s.(posted := s.posted[1..],
                sendQueue := s.sendQueue + [s.posted[0]],
                sendQueueSize := s.sendQueueSize + 1);
    if |t.sendQueue| == 1 then Send(t) else t
  }

  /** An operation completes only if it is outstanding, and the application acts on a connection
      only once some callback has shown it to it. */
  predicate Enabled(s: Session, e: Event) {
    && !s.fault
    && match e
       case Start(_, _) => s.phase == Created
       case AcceptDone(_, _) => s.phase == Accepting
       case RecvDone(_, _, _) => s.reading > 0
       case SendDone(_, _, _) => s.writing != []
       case CloseDone(_) => s.closing > 0
       case RunPosted => s.posted != []
       case AppCall(_) => s.log != []
  }

  function Step(s: Session, e: Event): Session
    requires Enabled(s, e)
  {
    match e
    case Start(identity, app) => HandleStart(s, identity, app)
    case AcceptDone(ec, app) => HandleAccept(s, ec, app)
    case RecvDone(ec, frame, app) => HandleRecv(s, ec, frame, app)
    case SendDone(ec, bytes, app) => HandleSend(s, ec, bytes, app)
    case CloseDone(app) => HandleClose(s.(closing := s.closing - 1), app.onClose)
    case RunPosted => HandlePost(s)
    case AppCall(call) => Apply(s, call)
  }

  predicate IsRun(s: Session, es: seq<Event>)
    decreases |es|
  {
    es == [] || (Enabled(s, es[0]) && IsRun(Step(s, es[0]), es[1..]))
  }

  function Exec(s: Session, es: seq<Event>): Session
    requires IsRun(s, es)
    decreases |es|
  {
    if es == [] then s else Exec(Step(s, es[0]), es[1..])
  }
}
