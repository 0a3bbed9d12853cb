/** The WebSocket session itself: an object whose handlers update its queues and counters in place,
    proved against `WebsocketMachine`. */
module WebsocketSession {
  import opened WebsocketMachine
  import opened WebsocketInvariant

  class WebsocketSession {
    var recvQueue: seq<Frame>
    var sendQueue: seq<Frame>
    var recvQueueSize: nat
    var sendQueueSize: nat
    var userData: nat
    var hasClose: bool

    var phase: Phase
    var reading: nat
    ghost var writing: seq<Write>
    var closing: nat
    var posted: seq<Frame>

    ghost var filled: seq<Frame>
    ghost var handed: seq<Frame>
    ghost var written: seq<Frame>
    ghost var torn: string
    ghost var received: seq<Frame>
    ghost var dropped: seq<Frame>
    ghost var log: seq<Notice>
    ghost var misused: bool
    var fault: bool

    ghost function View(): Session
      reads this
    {
      Session(recvQueue, sendQueue, recvQueueSize, sendQueueSize, userData, hasClose,
              phase, reading, writing, closing, posted,
              filled, handed, written, torn, received, dropped, log, misused, fault)
    }

    ghost predicate Valid()
      reads this
    {
      Inv(View())
    }

    /** A session that has just been made: `server` ones have already been asked to accept. */
    constructor (server: bool)
      ensures View() == Fresh(if server then Accepting else Created)
      ensures Valid()
    {
      recvQueue, sendQueue, recvQueueSize, sendQueueSize, userData, hasClose := [], [], 0, 0, 0, false;
      phase := if server then Accepting else Created;
      reading, writing, closing, posted := 0, [], 0, [];
      filled, handed, written, torn, received, dropped, log := [], [], [], "", [], [], [];
      misused, fault := false, false;
    }

    // -------------------------------------------------------------------------------------------
    // What the application calls

    method RecvBufferHasData() returns (has: bool)
      ensures has <==> recvQueue != []
    {
      has := recvQueue != [];
    }

    method RecvBufferDataIsText() returns (text: bool)
      ensures text <==> recvQueue != [] && recvQueue[0].text
    {
      if recvQueue == [] {
        return false;
      }
      text := recvQueue[0].text;
    }

    /** `recv_buffer_data` and `recv_buffer_size` together. */
    method RecvBufferData() returns (data: string)
      ensures data == if recvQueue == [] then "" else recvQueue[0].data
    {
      if recvQueue == [] {
        return "";
      }
      data := recvQueue[0].data;
    }

    method RecvBufferDrop() returns (ok: bool)
      modifies this
      ensures View() == Apply(old(View()), Drop)
      ensures ok <==> old(recvQueue) != []
    {
      if recvQueue == [] {
        return false;
      }
      DropFront();
      ok := true;
    }

    method DropFront()
      requires recvQueue != []
      modifies `dropped, `misused, `recvQueue, `recvQueueSize
      ensures dropped == old(dropped) + [old(recvQueue[0])] && misused == (old(misused) || old(recvQueueSize) == 0)
      ensures recvQueue == old(recvQueue[1..]) && recvQueueSize == Decrement(old(recvQueueSize))
    {
      dropped := dropped + [recvQueue[0]];
      misused := misused || recvQueueSize == 0;
      recvQueue := recvQueue[1..];
      recvQueueSize := Decrement(recvQueueSize);
    }

    method SendBufferFill(text: bool, data: string) returns (ok: bool)
      modifies this
      ensures View() == Apply(old(View()), Fill(text, data))
      ensures ok
    {
      var node := Frame(text, data);
      posted := posted + [node];
      filled := filled + [node];
      ok := true;
    }

    method SetUserData(value: nat)
      modifies this
      ensures View() == Apply(old(View()), WebsocketMachine.SetUserData(value))
    {
      userData := value;
    }

    method Close()
      modifies this
      ensures View() == Apply(old(View()), WebsocketMachine.Close)
    {
      closing := closing + 1;
    }

    // -------------------------------------------------------------------------------------------
    // What the handlers are made of

    method Call(call: Call)
      modifies this
      ensures View() == Apply(old(View()), call)
    {
      match call
      case Fill(text, data) => var ok := SendBufferFill(text, data);
      case Drop => var ok := RecvBufferDrop();
      case Close => Close();
      case SetUserData(value) => SetUserData(value);
    }

    /** Call the application back, and let it do what it does. */
    method Notify(notice: Notice, calls: seq<Call>)
      modifies this
      ensures View() == Tell(old(View()), notice, calls)
    {
      log := log + [notice];
      for i := 0 to |calls|
        invariant ApplyAll(View(), calls[i..]) == Tell(old(View()), notice, calls)
      {
        Call(calls[i]);
        assert calls[i..][1..] == calls[i + 1..];
      }
    }

    method Recv()
      modifies this
      ensures View() == WebsocketMachine.Recv(old(View()))
    {
      recvQueue := recvQueue + [Frame(true, "")];
      reading := reading + 1;
    }

    method Send()
      modifies this
      ensures View() == WebsocketMachine.Send(old(View()))
    {
      if sendQueue == [] {
        fault := true;
        return;
      }
      writing := writing + [Write(|written|, sendQueue[0])];
      handed := handed + [sendQueue[0]];
    }

    /** A read completed: the slot at the back holds its frame. */
    method FillBack(frame: Frame)
      requires reading > 0 && recvQueue != []
      modifies this
      ensures View() == Arrived(old(View()), frame)
    {
      reading := reading - 1;
      recvQueue := recvQueue[..|recvQueue| - 1] + [frame];
      recvQueueSize := recvQueueSize + 1;
      received := received + [frame];
    }

    /** Report an error unless it is a quiet one, and close. */
    method Abandon(loud: bool, what: string, app: App)
      modifies this
      ensures View() == Fail(old(View()), loud, what, app)
    {
      if loud {
        Notify(ToldError(what), app.onError);
      }
      OnClose(app.onClose);
    }

    /** The front node's write fell short: keep what it did not transfer. */
    method ConsumeFront(bytes: nat)
      requires writing != [] && sendQueue != [] && bytes < |sendQueue[0].data|
      modifies this
      ensures View() == Torn(old(View()), bytes)
    {
      var front := sendQueue[0];
      ghost var sent := writing[0].frame.data;
      torn := torn + if bytes <= |sent| then sent[..bytes] else sent;
      writing := writing[1..];
      sendQueue := [Frame(front.text, front.data[bytes..])] + sendQueue[1..];
    }

    /** The front node's write completed: drop the node. */
    method PopFront()
      requires writing != [] && sendQueue != []
      modifies this
      ensures View() == Popped(old(View()))
    {
      written := written + [writing[0].frame];
      writing := writing[1..];
      sendQueue := sendQueue[1..];
      sendQueueSize := Decrement(sendQueueSize);
    }

    // -------------------------------------------------------------------------------------------
    // The handlers

    method Run(identity: nat, app: App)
      requires phase == Created
      modifies this
      ensures View() == HandleStart(old(View()), identity, app)
    {
      phase := Opened;
      Notify(ToldConnect(identity), app.calls);
      if !app.keep {
        Close();
        return;
      }
      Recv();
    }

    method OnAccept(ec: ErrorCode, app: App)
      requires phase == Accepting
      modifies this
      ensures View() == HandleAccept(old(View()), ec, app)
    {
      if ec != Success {
        phase := Rejected;
        if ec != StreamTruncated {
          Notify(ToldError("accept"), app.onError);
        }
        return;
      }
      phase := Opened;
      Notify(ToldAccept, app.calls);
      if !app.keep {
        Close();
        return;
      }
      Recv();
    }

    method OnRecv(ec: ErrorCode, frame: Frame, app: App)
      requires reading > 0
      modifies this
      ensures View() == HandleRecv(old(View()), ec, frame, app)
    {
      hide Fail, Tell, Arrived;
      if ec != Success {
        reading := reading - 1;
        Abandon(ec != StreamTruncated && ec != Closed, "recv", app);
        return;
      }
      if recvQueue == [] {
        reading := reading - 1;
        fault := true;
        return;
      }
      FillBack(frame);
      Notify(ToldRecv, app.calls);
      if !app.keep {
        Close();
        return;
      }
      Recv();
    }

    method OnSend(ec: ErrorCode, bytes: nat, app: App)
      requires writing != []
      modifies this
      ensures View() == HandleSend(old(View()), ec, bytes, app)
    {
      hide Fail, Tell, Popped, Torn;
      if ec != Success {
        writing := writing[1..];
        Abandon(ec != StreamTruncated, "send", app);
        return;
      }
      if sendQueue == [] {
        writing := writing[1..];
        fault := true;
        return;
      }
      if |sendQueue[0].data| > bytes {
        ConsumeFront(bytes);
        return;
      }
      PopFront();
      Notify(ToldSend, app.calls);
      if !app.keep {
        Close();
        return;
      }
      if sendQueue != [] {
        Send();
      }
    }

    /** `on_close`, whether called by a handler or as the completion of a close. */
    method OnClose(calls: seq<Call>)
      modifies this
      ensures View() == HandleClose(old(View()), calls)
    {
      if !hasClose {
        hasClose := true;
        Notify(ToldClose, calls);
      }
    }

    method OnCloseDone(app: App)
      requires closing > 0
      modifies this
      ensures View() == HandleClose(old(View()).(closing := old(closing) - 1), app.onClose)
    {
      closing := closing - 1;
      OnClose(app.onClose);
    }

    method OnPost()
      requires posted != []
      modifies this
      ensures View() == HandlePost(old(View()))
    {
      var node := posted[0];
      posted := posted[1..];
      sendQueue := sendQueue + [node];
      sendQueueSize := sendQueueSize + 1;
      if |sendQueue| == 1 {
        Send();
      }
    }

    /** The strand: one completion, one handler, run to its end. */
    method Dispatch(e: Event)
      requires Enabled(View(), e)
      modifies this
      ensures View() == Step(old(View()), e)
      ensures old(Valid()) ==> Valid()
    {
      hide Inv, HandleStart, HandleAccept, HandleRecv, HandleSend, HandlePost, HandleClose, Apply;
      ghost var before := View();
      match e {
        case Start(identity, app) => Run(identity, app);
        case AcceptDone(ec, app) => OnAccept(ec, app);
        case RecvDone(ec, frame, app) => OnRecv(ec, frame, app);
        case SendDone(ec, bytes, app) => OnSend(ec, bytes, app);
        case CloseDone(app) => OnCloseDone(app);
        case RunPosted => OnPost();
        case AppCall(call) => Call(call);
      }
      if Inv(before) {
        StepKeeps(before, e);
      }
    }
  }
}
