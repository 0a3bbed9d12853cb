/** Two test services counting to a limit over one connection: two sessions, each run by a service,
    joined by a wire that loses and reorders nothing. A message is on the wire from the moment it is
    given to async_write. */
module CountingProtocol {
  import opened WebsocketMachine
  import opened WebsocketInvariant
  import opened WebsocketTheorems
  import opened TestService

  datatype Side = Client | Server

  datatype LinkEvent = LinkEvent(side: Side, event: Event)

  datatype Link = Link(
    client: Session,
    server: Session,
    clientFinishes: nat,
    serverFinishes: nat,
    asserted: bool)

  const INITIAL := Link(Fresh(Created), Fresh(Accepting), 0, 0, false)

  const NOTHING := Outcome([], true, false, false)

  function AppOf(o: Outcome): App {
    App([], o.calls, o.keep, [])
  }

  /** What the test service does in the callback of event `e`. */
  function Service(limit: nat, text: bool, s: Session, e: Event): Outcome {
    match e
    case Start(_, _) => ConnectOutcome(limit, text)
    case AcceptDone(ec, _) => if ec == Success then ACCEPT_OUTCOME else NOTHING
    case RecvDone(ec, frame, _) =>
      if ec == Success && s.reading > 0 && s.recvQueue != [] then RecvOutcome(limit, text, Arrived(s, frame))
      else NOTHING
    case _ => NOTHING
  }

  /** The application behind event `e` is the test service, which never acts outside a callback. */
  predicate ServedBy(limit: nat, text: bool, s: Session, e: Event) {
    !e.AppCall? && (!e.RunPosted? ==> e.app == AppOf(Service(limit, text, s, e)))
  }

  function Of(l: Link, side: Side): Session {
    if side == Client then l.client else l.server
  }

  function Other(side: Side): Side {
    if side == Client then Server else Client
  }

  predicate LinkEnabled(limit: nat, text: bool, l: Link, le: LinkEvent) {
    var s, peer := Of(l, le.side), Of(l, Other(le.side));
    && Enabled(s, le.event)
    && ServedBy(limit, text, s, le.event)
    && (le.event.RecvDone? && le.event.ec == Success ==>
          |s.received| < |peer.handed| && le.event.frame == peer.handed[|s.received|])
  }

  function LinkStep(limit: nat, text: bool, l: Link, le: LinkEvent): Link
    requires LinkEnabled(limit, text, l, le)
  {
    var s := Of(l, le.side);
    var o := Service(limit, text, s, le.event);
    var t := Step(s, le.event);
    var finish := if o.finishes then 1 else 0;
    if le.side == Client then
      l.(client := t, clientFinishes := l.clientFinishes + finish, asserted := l.asserted || o.asserts)
    else
      l.(server := t, serverFinishes := l.serverFinishes + finish, asserted := l.asserted || o.asserts)
  }

  predicate IsLinkRun(limit: nat, text: bool, l: Link, es: seq<LinkEvent>)
    decreases |es|
  {
    es == [] || (LinkEnabled(limit, text, l, es[0]) && IsLinkRun(limit, text, LinkStep(limit, text, l, es[0]), es[1..]))
  }

  function LinkExec(limit: nat, text: bool, l: Link, es: seq<LinkEvent>): Link
    requires IsLinkRun(limit, text, l, es)
    decreases |es|
  {
    if es == [] then l else LinkExec(limit, text, LinkStep(limit, text, l, es[0]), es[1..])
  }

  // ---------------------------------------------------------------------------------------------
  // One endpoint

  /** The client sends messages 1, 3, 5 and so on, the server 2, 4, 6 and so on. */
  function First(side: Side): nat {
    if side == Client then 1 else 2
  }

  function Numbered(text: bool, k: nat): Frame {
    Frame(text, Message(k))
  }

  /** The endpoint's last receipt reached the limit, and it gave up the connection. */
  predicate Finished(limit: nat, side: Side, s: Session) {
    limit > 0 && s.phase == Opened && |s.filled| < |s.received| + 2 - First(side)
  }

  /** An endpoint answers every message it receives with the next one, up to the limit, and its count
      is the number of messages it has handled. */
  predicate Counting(limit: nat, text: bool, side: Side, s: Session) {
    && s.userData == |s.filled| + |s.received|
    && (forall i :: 0 <= i < |s.filled| ==> s.filled[i] == Numbered(text, 2 * i + First(side)))
    && (s.filled != [] ==> 2 * (|s.filled| - 1) + First(side) <= limit)
    && (if s.phase == Opened then
          || |s.filled| == |s.received| + 2 - First(side)
          || (|s.filled| == |s.received| + 1 - First(side) && |s.filled| + |s.received| == limit)
        else s.filled == [] && s.received == [])
  }

  predicate Endpoint(limit: nat, text: bool, side: Side, s: Session) {
    && Inv(s) && !s.misused && s.recvQueueSize == 0
    && s.phase != (if side == Client then Accepting else Created)
    && Counting(limit, text, side, s)
  }

  /** What handling message number `userData + 1` leaves. */
  function Handled(limit: nat, text: bool, s: Session, frame: Frame): Session {
    var count := s.userData + 1;
    var t := s.(recvQueue := [], reading := 0, userData := count, log := s.log + [ToldRecv],
                received := s.received + [frame], dropped := s.dropped + [frame]);
    if count >= limit then t.(closing := t.closing + 1) else
      var next := Numbered(text, count + 1);
      Recv(t.(userData := count + 1, posted := t.posted + [next], filled := t.filled + [next]))
  }

  lemma RecvTells(limit: nat, text: bool, s: Session, frame: Frame)
    requires s.reading == 1 && |s.recvQueue| == 1 && s.recvQueueSize == 0
    requires s.userData < limit && frame == Numbered(text, s.userData + 1)
    ensures var o := RecvOutcome(limit, text, Arrived(s, frame)); var count := s.userData + 1;
            var t := s.(recvQueue := [], reading := 0, userData := count, log := s.log + [ToldRecv],
                        received := s.received + [frame], dropped := s.dropped + [frame]);
            && !o.asserts && (o.finishes <==> count >= limit) && (o.keep <==> count < limit)
            && Tell(Arrived(s, frame), ToldRecv, o.calls) == ApplyAll(t, SendOutcome(limit, text, count).calls)
  {
    hide Message, ApplyAll;
    var t := Arrived(s, frame);
    assert t.recvQueue == [frame];
    var u := t.(log := t.log + [ToldRecv]);
    RecvOutcomeStages(limit, text, u);
    assert RecvOutcome(limit, text, u) == RecvOutcome(limit, text, t);
    assert Apply(Apply(u, SetUserData(s.userData + 1)), Drop).recvQueue == [];
  }

  lemma RecvHandles(limit: nat, text: bool, s: Session, frame: Frame, app: App)
    requires s.reading == 1 && |s.recvQueue| == 1 && s.recvQueueSize == 0
    requires s.userData < limit && frame == Numbered(text, s.userData + 1)
    requires app == AppOf(RecvOutcome(limit, text, Arrived(s, frame)))
    ensures var o := RecvOutcome(limit, text, Arrived(s, frame));
            !o.asserts && (o.finishes <==> s.userData + 1 >= limit)
    ensures HandleRecv(s, Success, frame, app) == Handled(limit, text, s, frame)
  {
    hide Message, RecvOutcome;
    RecvTells(limit, text, s, frame);
    var count := s.userData + 1;
    var t := s.(recvQueue := [], reading := 0, userData := count, log := s.log + [ToldRecv],
                received := s.received + [frame], dropped := s.dropped + [frame]);
    if count < limit {
      ApplyTwo(t, SetUserData(count + 1), Fill(text, Message(count + 1)));
    }
  }

  lemma CountingDue(limit: nat, text: bool, side: Side, s: Session)
    requires Counting(limit, text, side, s) && s.phase == Opened
    requires 2 * |s.received| + 3 - First(side) <= limit
    ensures !Finished(limit, side, s) && s.userData + 1 == 2 * |s.received| + 3 - First(side)
    ensures |s.filled| == |s.received| + 2 - First(side)
  {
    hide Numbered;
  }

  /** A message that its sender was entitled to send reaches an endpoint that has not finished. */
  lemma CountingRecv(limit: nat, text: bool, side: Side, s: Session, frame: Frame)
    requires Counting(limit, text, side, s)
    requires s.phase == Opened
    requires var k := 2 * |s.received| + 3 - First(side); frame == Numbered(text, k) && k <= limit
    ensures !Finished(limit, side, s) && s.userData + 1 == 2 * |s.received| + 3 - First(side)
    ensures var t := Handled(limit, text, s, frame);
            Counting(limit, text, side, t) && (Finished(limit, side, t) <==> s.userData + 1 >= limit)
  {
    hide Numbered;
    CountingDue(limit, text, side, s);
    var t := Handled(limit, text, s, frame);
    forall i | 0 <= i < |t.filled| ensures t.filled[i] == Numbered(text, 2 * i + First(side)) {
      if i < |s.filled| { assert t.filled[i] == s.filled[i]; }
    }
  }

  lemma EndpointRecv(limit: nat, text: bool, side: Side, s: Session, frame: Frame, app: App)
    requires Endpoint(limit, text, side, s) && Enabled(s, RecvDone(Success, frame, app))
    requires ServedBy(limit, text, s, RecvDone(Success, frame, app))
    requires s.phase == Opened
    requires var k := 2 * |s.received| + 3 - First(side); frame == Numbered(text, k) && k <= limit
    ensures !Finished(limit, side, s)
    ensures HandleRecv(s, Success, frame, app) == Handled(limit, text, s, frame)
    ensures var o := Service(limit, text, s, RecvDone(Success, frame, app)); var t := Handled(limit, text, s, frame);
            !o.asserts && (o.finishes <==> Finished(limit, side, t)) && Endpoint(limit, text, side, t)
  {
    CountingRecv(limit, text, side, s, frame);
    RecvHandles(limit, text, s, frame, app);
    RecvDoneKeeps(s, Success, frame, app);
  }

  lemma FailQuiet(s: Session, loud: bool, what: string)
    ensures var t := Fail(s, loud, what, AppOf(NOTHING));
            t == s.(log := t.log, hasClose := true)
  {
  }

  /** What the end of a read, a write or a close, or a posted fill, changes when the service does
      nothing in the callback. */
  predicate Bystander(s: Session, t: Session) {
    && t.filled == s.filled && t.received == s.received && t.phase == s.phase && t.userData == s.userData
    && t.recvQueueSize == s.recvQueueSize && t.misused == s.misused && s.handed <= t.handed
  }

  lemma OthersStandBy(s: Session, e: Event)
    requires Enabled(s, e) && (e.RecvDone? ==> e.ec != Success)
    requires e.SendDone? || e.RunPosted? || e.CloseDone? || e.RecvDone?
    requires !e.RunPosted? ==> e.app == AppOf(NOTHING)
    ensures Bystander(s, Step(s, e))
  {
    hide Fail;
    match e
    case RecvDone(ec, _, _) =>
      FailQuiet(s.(reading := s.reading - 1), ec != StreamTruncated && ec != Closed, "recv");
    case SendDone(ec, _, _) =>
      FailQuiet(s.(writing := s.writing[1..]), ec != StreamTruncated, "send");
    case _ =>
  }

  /** Every event but an opening and a receipt leaves the counting as it was. */
  lemma EndpointOther(limit: nat, text: bool, side: Side, s: Session, e: Event)
    requires Endpoint(limit, text, side, s) && Enabled(s, e) && ServedBy(limit, text, s, e)
    requires e.RecvDone? ==> e.ec != Success
    requires e.SendDone? || e.RunPosted? || e.CloseDone? || e.RecvDone?
    ensures Endpoint(limit, text, side, Step(s, e)) && Bystander(s, Step(s, e))
    ensures Service(limit, text, s, e) == NOTHING
  {
    hide Core, Step;
    OthersStandBy(s, e);
    StepKeeps(s, e);
  }

  /** What opening a connection leaves. */
  function Greeted(limit: nat, text: bool, s: Session, e: Event): Session {
    if e.Start? then
      var t := s.(phase := Opened, log := [ToldConnect(e.identity)]);
      Recv(if limit == 0 then t else
             t.(userData := 1, posted := [Numbered(text, 1)], filled := [Numbered(text, 1)]))
    else if e.AcceptDone? && e.ec == Success then
      Recv(s.(phase := Opened, log := [ToldAccept]))
    else
      s.(phase := Rejected, log := if e.AcceptDone? && e.ec == StreamTruncated then [] else [ToldError("accept")])
  }

  lemma ConnectTells(limit: nat, text: bool, s: Session)
    requires s.posted == [] && s.filled == [] && s.userData == 0
    ensures ApplyAll(s, ConnectOutcome(limit, text).calls) ==
            if limit == 0 then s else
              s.(userData := 1, posted := [Numbered(text, 1)], filled := [Numbered(text, 1)])
  {
    var put := SetUserData(0);
    assert [put][1..] == [];
    assert Apply(s, put) == s;
    assert ApplyAll(s, [put]) == s;
    ApplyAllConcat(s, [put], SendOutcome(limit, text, 0).calls);
    if limit > 0 {
      ApplyTwo(s, SetUserData(1), Fill(text, Message(1)));
    }
  }

  lemma OpeningGreets(limit: nat, text: bool, s: Session, e: Event)
    requires s == Fresh(s.phase) && Enabled(s, e) && ServedBy(limit, text, s, e)
    requires e.Start? || e.AcceptDone?
    ensures var o := Service(limit, text, s, e);
            Step(s, e) == Greeted(limit, text, s, e) && !o.asserts && !o.finishes
  {
    if e.Start? {
      ConnectTells(limit, text, s.(phase := Opened, log := s.log + [ToldConnect(e.identity)]));
      assert s.log + [ToldConnect(e.identity)] == [ToldConnect(e.identity)];
    } else {
      assert [SetUserData(0)][1..] == [];
    }
  }

  lemma CountingOpens(limit: nat, text: bool, side: Side, s: Session, e: Event)
    requires s == Fresh(s.phase) && (e.Start? || e.AcceptDone?)
    requires e.Start? <==> side == Client
    ensures var t := Greeted(limit, text, s, e);
            && Counting(limit, text, side, t) && !t.misused && t.recvQueueSize == 0 && t.received == []
            && t.phase != Accepting && t.phase != Created
            && t.handed == [] && !Finished(limit, side, t)
  {
  }

  lemma EndpointOpens(limit: nat, text: bool, side: Side, s: Session, e: Event)
    requires Endpoint(limit, text, side, s) && Enabled(s, e) && ServedBy(limit, text, s, e)
    requires e.Start? || e.AcceptDone?
    ensures var t := Step(s, e); var o := Service(limit, text, s, e);
            && t == Greeted(limit, text, s, e) && Endpoint(limit, text, side, t)
            && !o.asserts && !o.finishes && !Finished(limit, side, s) && !Finished(limit, side, t)
  {
    OpeningGreets(limit, text, s, e);
    CountingOpens(limit, text, side, s, e);
    assert Inv(Greeted(limit, text, s, e)) by { StepKeeps(s, e); }
  }

  // ---------------------------------------------------------------------------------------------
  // Both endpoints

  function One(b: bool): nat {
    if b then 1 else 0
  }

  predicate LinkInv(limit: nat, text: bool, l: Link) {
    && Endpoint(limit, text, Client, l.client) && Endpoint(limit, text, Server, l.server)
    && l.server.received <= l.client.handed && l.client.received <= l.server.handed
    && l.clientFinishes == One(Finished(limit, Client, l.client))
    && l.serverFinishes == One(Finished(limit, Server, l.server))
    && !l.asserted
  }

  lemma PrefixTransitive<T>(a: seq<T>, b: seq<T>, c: seq<T>)
    requires a <= b && b <= c
    ensures a <= c
  {
    assert a == b[..|a|] == c[..|b|][..|a|];
  }

  /** The next message on the wire is the one its receiver is waiting for. */
  lemma NextIsExpected(limit: nat, text: bool, side: Side, s: Session, peer: Session)
    requires Endpoint(limit, text, Other(side), peer)
    requires s.received <= peer.handed && |s.received| < |peer.handed|
    ensures var k := 2 * |s.received| + 3 - First(side);
            peer.handed[|s.received|] == Numbered(text, k) && k <= limit
  {
    assert peer.handed[|s.received|] == peer.filled[|s.received|];
  }

  /** One endpoint's step, seen from the wire. */
  lemma EndpointStep(limit: nat, text: bool, side: Side, s: Session, e: Event, peer: Session)
    requires Endpoint(limit, text, side, s) && Endpoint(limit, text, Other(side), peer)
    requires Enabled(s, e) && ServedBy(limit, text, s, e) && s.received <= peer.handed
    requires e.RecvDone? && e.ec == Success ==> |s.received| < |peer.handed| && e.frame == peer.handed[|s.received|]
    ensures var t := Step(s, e); var o := Service(limit, text, s, e);
            && Endpoint(limit, text, side, t) && t.received <= peer.handed && s.handed <= t.handed
            && !o.asserts
            && One(Finished(limit, side, t)) == One(Finished(limit, side, s)) + One(o.finishes)
  {
    hide Inv, HandleStart, HandleAccept, HandleRecv, HandleSend, HandlePost, HandleClose, Counting;
    if e.Start? || e.AcceptDone? {
      EndpointOpens(limit, text, side, s, e);
    } else if e.RecvDone? && e.ec == Success {
      NextIsExpected(limit, text, side, s, peer);
      ReadingIsOpened(s);
      EndpointRecv(limit, text, side, s, e.frame, e.app);
    } else {
      EndpointOther(limit, text, side, s, e);
    }
  }

  lemma ReadingIsOpened(s: Session)
    requires Inv(s) && s.reading > 0
    ensures s.phase == Opened
  {
  }

  lemma LinkStepKeeps(limit: nat, text: bool, l: Link, le: LinkEvent)
    requires LinkInv(limit, text, l) && LinkEnabled(limit, text, l, le)
    ensures LinkInv(limit, text, LinkStep(limit, text, l, le))
  {
    hide Endpoint, Step, Service, Finished, Enabled, ServedBy;
    var s, peer := Of(l, le.side), Of(l, Other(le.side));
    EndpointStep(limit, text, le.side, s, le.event, peer);
    PrefixTransitive(peer.received, s.handed, Step(s, le.event).handed);
  }

  lemma {:induction false} LinkRunKeeps(limit: nat, text: bool, l: Link, es: seq<LinkEvent>)
    requires LinkInv(limit, text, l) && IsLinkRun(limit, text, l, es)
    ensures LinkInv(limit, text, LinkExec(limit, text, l, es))
    decreases |es|
  {
    if es != [] {
      LinkStepKeeps(limit, text, l, es[0]);
      LinkRunKeeps(limit, text, LinkStep(limit, text, l, es[0]), es[1..]);
    }
  }

  /** Messages filled by `side` and not yet received by the other. */
  function InFlight(l: Link, side: Side): int {
    |Of(l, side).filled| - |Of(l, Other(side)).received|
  }

  lemma InitialLink(limit: nat, text: bool)
    ensures LinkInv(limit, text, INITIAL)
  {
    hide Message;
  }

  lemma LinkReached(limit: nat, text: bool, es: seq<LinkEvent>)
    requires IsLinkRun(limit, text, INITIAL, es)
    ensures LinkInv(limit, text, LinkExec(limit, text, INITIAL, es))
  {
    hide IsLinkRun, LinkExec, LinkInv;
    InitialLink(limit, text);
    LinkRunKeeps(limit, text, INITIAL, es);
  }

  /** While a message is under way, its sender has counted to its number and its receiver to one less. */
  predicate CountsAgree(text: bool, s: Session, peer: Session) {
    && s.filled != [] && s.filled[|s.filled| - 1] == Numbered(text, s.userData)
    && peer.userData == s.userData - 1
  }

  lemma InFlightCounts(limit: nat, text: bool, side: Side, s: Session, peer: Session)
    requires Counting(limit, text, side, s) && Counting(limit, text, Other(side), peer)
    requires |s.received| <= |peer.filled| && |peer.received| <= |s.filled|
    ensures |s.filled| - |peer.received| + |peer.filled| - |s.received| <= 1
    ensures |s.filled| - |peer.received| == 1 ==> CountsAgree(text, s, peer)
  {
  }

  lemma LinkCounts(limit: nat, text: bool, l: Link)
    requires LinkInv(limit, text, l)
    ensures |l.client.received| <= |l.server.filled| && |l.server.received| <= |l.client.filled|
    ensures Counting(limit, text, Client, l.client) && Counting(limit, text, Server, l.server)
  {
    hide Counting;
  }

  /** In every run, errors included: no assert of either service fails; at most one message is under
      way; and while message `k` is, its sender has counted to `k` and its receiver to `k - 1`. */
  lemma CountersAgree(limit: nat, text: bool, es: seq<LinkEvent>)
    requires IsLinkRun(limit, text, INITIAL, es)
    ensures var l := LinkExec(limit, text, INITIAL, es);
            && !l.asserted
            && 0 <= InFlight(l, Client) && 0 <= InFlight(l, Server)
            && InFlight(l, Client) + InFlight(l, Server) <= 1
            && (InFlight(l, Client) == 1 ==> CountsAgree(text, l.client, l.server))
            && (InFlight(l, Server) == 1 ==> CountsAgree(text, l.server, l.client))
  {
    hide IsLinkRun, LinkExec, Endpoint, Counting, CountsAgree;
    LinkReached(limit, text, es);
    var l := LinkExec(limit, text, INITIAL, es);
    LinkCounts(limit, text, l);
    InFlightCounts(limit, text, Client, l.client, l.server);
    InFlightCounts(limit, text, Server, l.server, l.client);
  }

  lemma FinishParity(limit: nat, text: bool, side: Side, s: Session)
    requires Counting(limit, text, side, s) && Finished(limit, side, s)
    ensures limit == 2 * |s.received| + 1 - First(side)
  {
  }

  lemma LinkFinishesOnce(limit: nat, text: bool, l: Link)
    requires LinkInv(limit, text, l)
    ensures l.clientFinishes + l.serverFinishes <= One(limit > 0)
    ensures l.serverFinishes > 0 ==> limit % 2 == 1
    ensures l.clientFinishes > 0 ==> limit % 2 == 0
  {
    hide Endpoint, Counting;
    LinkCounts(limit, text, l);
    if Finished(limit, Client, l.client) { FinishParity(limit, text, Client, l.client); }
    if Finished(limit, Server, l.server) { FinishParity(limit, text, Server, l.server); }
  }

  /** In every run, at most one finish is counted between the two; by the server only when the limit is
      odd, by the client only when it is even; and none at all when the limit is zero. */
  lemma FinishesAtMostOnce(limit: nat, text: bool, es: seq<LinkEvent>)
    requires IsLinkRun(limit, text, INITIAL, es)
    ensures var l := LinkExec(limit, text, INITIAL, es);
            && l.clientFinishes + l.serverFinishes <= One(limit > 0)
            && (l.serverFinishes > 0 ==> limit % 2 == 1)
            && (l.clientFinishes > 0 ==> limit % 2 == 0)
  {
    hide IsLinkRun, LinkExec, LinkInv;
    LinkReached(limit, text, es);
    LinkFinishesOnce(limit, text, LinkExec(limit, text, INITIAL, es));
  }
}
