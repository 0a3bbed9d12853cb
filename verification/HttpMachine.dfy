/** The pipelining HTTP session as a state machine over values: one step per completion handler. */
module HttpMachine {
  import opened HttpUtility

  const QUEUE_LIMIT := 8

  /** A request that has been read, and what its handler will find when it answers it. */
  datatype Exchange = Exchange(req: Request, site: Site)

  function Answer(x: Exchange): (r: Response)
    ensures r.keepAlive == x.req.keepAlive
  {
    HandleRequest(x.req, x.site)
  }

  /** A node of the response queue; async_write moves the response out and leaves the node. */
  datatype Slot = Full(response: Response) | Moved

  /** An outstanding write, with what its completion handler has captured. */
  datatype Write = Write(close: bool, response: Response)

  /** How a read can end. */
  datatype Arrival =
    | EndOfStream
    | ReadError(quiet: bool)
    | Upgrade(supported: bool)
    | Unsupported
    | Arrived(exchange: Exchange)

  datatype Departure = Sent | SendError(quiet: bool)

  datatype Event = RecvDone(arrival: Arrival) | SendDone(departure: Departure)

  datatype Session = Session(
    queue: seq<Slot>,

    reading: nat,               // reads outstanding, each of them using the parser
    writing: seq<Write>,

    handled: seq<Exchange>,     // the requests answered
    handed: seq<Response>,      // the responses given to async_write
    sent: nat,                  // the responses completed and popped
    reports: nat,               // calls of on_error
    shutdowns: nat,
    upgraded: bool,             // the stream has been given to a WebSocket session
    fault: bool)                // the parser replaced in use, or a moved or missing node used

  const FRESH := Session([], 0, [], [], [], 0, 0, 0, false, false)

  function Recv(s: Session): Session {
    s.(reading := s.reading + 1, fault := s.fault || s.reading > 0)
  }

  function Send(s: Session): Session {
    if s.queue == [] then s
    else if s.queue[0].Moved? then s.(fault := true)
    else
      var r := s.queue[0].response;
      s.(queue := [Moved] + s.queue[1..],
         writing := s.writing + [Write(!r.keepAlive, r)],
         handed := s.handed + [r])
  }

  /** The answer queued, and written at once if it is alone. */
  function Queued(s: Session, x: Exchange): Session {
    var t := s.(queue := s.queue + [Full(Answer(x))], handled := s.handled + [x]);
    if |t.queue| == 1 then Send(t) else t
  }

  /** `on_recv`. */
  function HandleRecv(s: Session, arrival: Arrival): Session
    requires s.reading > 0
  {
    var t := s.(reading := s.reading - 1);
    match arrival
    case EndOfStream => t.(shutdowns := t.shutdowns + 1)
    case ReadError(quiet) => if quiet then t else t.(reports := t.reports + 1)
    case Upgrade(supported) => if supported then t.(upgraded := true) else t.(reports := t.reports + 1)
    case Unsupported => t.(reports := t.reports + 1)
    case Arrived(x) =>
      var u := Queued(t, x);
      if |u.queue| < QUEUE_LIMIT then Recv(u) else u
  }

  /** `on_send`. */
  function HandleSend(s: Session, departure: Departure): Session
    requires s.writing != []
  {
    var close := s.writing[0].close;
    var t := s.(writing := s.writing[1..]);
    if departure.SendError? then
      if departure.quiet then t else t.(reports := t.reports + 1)
    else if close then
      t.(shutdowns := t.shutdowns + 1)
    else
      var u := if |t.queue| == QUEUE_LIMIT then Recv(t) else t;
      if u.queue == [] then u.(fault := true) else
        Send(u.(queue := u.queue[1..], sent := u.sent + 1))
  }

  predicate Enabled(s: Session, e: Event) {
    && !s.fault
    && match e
       case RecvDone(_) => s.reading > 0
       case SendDone(_) => s.writing != []
  }

  function Step(s: Session, e: Event): Session
    requires Enabled(s, e)
  {
    match e
    case RecvDone(arrival) => HandleRecv(s, arrival)
    case SendDone(departure) => HandleSend(s, departure)
  }

  predicate IsRun(s: Session, es: seq<Event>)
    decreases |es|
  {
    es == [] || (Enabled(s, es[0]) && IsRun(Step(s, es[0]), es[1..]))
  }

  function Exec(s: Session, es: seq<Event>): Session
    requires IsRun(s, es)
    decreases |es|
  {
    if es == [] then s else Exec(Step(s, es[0]), es[1..])
  }

  /** A session whose first read has just been started. */
  const STARTED := Recv(FRESH)
}
