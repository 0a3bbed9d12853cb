/** The HTTP session itself: an object whose handlers update its response queue in place, proved
    against `HttpMachine`. */
module HttpSession {
  import opened HttpUtility
  import opened HttpMachine
  import opened HttpTheorems

  class HttpSession {
    var queue: seq<Slot>
    var reading: nat
    var writing: seq<Write>
    ghost var handled: seq<Exchange>
    ghost var handed: seq<Response>
    ghost var sent: nat
    var reports: nat
    var shutdowns: nat
    var upgraded: bool
    var fault: bool

    ghost function View(): Session
      reads this
    {
      Session(queue, reading, writing, handled, handed, sent, reports, shutdowns, upgraded, fault)
    }

    ghost predicate Valid()
      reads this
    {
      Inv(View())
    }

    constructor ()
      ensures View() == STARTED && Valid()
    {
      queue, reading, writing, handled, handed, sent := [], 0, [], [], [], 0;
      reports, shutdowns, upgraded, fault := 0, 0, false, false;
      new;
      Recv();
      StartedKeeps();
    }

    method Recv()
      modifies this
      ensures View() == HttpMachine.Recv(old(View()))
    {
      if reading > 0 {
        fault := true;
      }
      reading := reading + 1;
    }

    method Eof()
      modifies this
      ensures View() == old(View()).(shutdowns := old(shutdowns) + 1)
    {
      shutdowns := shutdowns + 1;
    }

    method OnError()
      modifies this
      ensures View() == old(View()).(reports := old(reports) + 1)
    {
      reports := reports + 1;
    }

    method OnRecv(arrival: Arrival)
      requires reading > 0
      modifies this
      ensures View() == HandleRecv(old(View()), arrival)
    {
      reading := reading - 1;
      match arrival
      case EndOfStream => Eof();
      case ReadError(quiet) => if !quiet { OnError(); }
      case Upgrade(supported) => if supported { upgraded := true; } else { OnError(); }
      case Unsupported => OnError();
      case Arrived(exchange) =>
        var message := HandleRequest(exchange.req, exchange.site);
        handled := handled + [exchange];
        queue := queue + [Full(message)];
        if |queue| == 1 {
          Send();
        }
        if |queue| < QUEUE_LIMIT {
          Recv();
        }
    }

    method Send()
      modifies this
      ensures View() == HttpMachine.Send(old(View()))
    {
      if queue == [] {
        return;
      }
      if queue[0].Moved? {
        fault := true;
        return;
      }
      var response := queue[0].response;
      var close := !response.keepAlive;
      queue := [Moved] + queue[1..];
      writing := writing + [Write(close, response)];
      handed := handed + [response];
    }

    method OnSend(departure: Departure)
      requires writing != []
      modifies this
      ensures View() == HandleSend(old(View()), departure)
    {
      hide HttpMachine.Send;
      var close := writing[0].close;
      writing := writing[1..];
      if departure.SendError? {
        if !departure.quiet {
          OnError();
        }
        return;
      }
      if close {
        Eof();
        return;
      }
      if |queue| == QUEUE_LIMIT {
        Recv();
      }
      if queue == [] {
        fault := true;
        return;
      }
      queue := queue[1..];
      sent := sent + 1;
      Send();
    }

    /** The strand: one completion, one handler, run to its end. */
    method Dispatch(e: Event)
      requires Enabled(View(), e)
      modifies this
      ensures View() == Step(old(View()), e)
      ensures old(Valid()) ==> Valid()
    {
      hide Inv, HandleRecv, HandleSend;
      ghost var before := View();
      match e {
        case RecvDone(arrival) => OnRecv(arrival);
        case SendDone(departure) => OnSend(departure);
      }
      if Inv(before) {
        StepKeeps(before, e);
      }
    }
  }
}
