/** What the two counting services achieve when nothing goes wrong between them, and what many pairs
    of them count together. */
module CountingCompletion {
  import opened WebsocketMachine
  import opened WebsocketInvariant
  import opened WebsocketTheorems
  import opened WebsocketCallbacks
  import opened TestService
  import opened CountingProtocol

  // ---------------------------------------------------------------------------------------------
  // One endpoint, free of errors

  /** The peer is closing the connection, and everything it has handed over has arrived. */
  predicate HungUp(s: Session, peer: Session) {
    (peer.closing > 0 || peer.hasClose) && s.received == peer.handed
  }

  /** The completion reports no error, or the end of a connection that the peer is closing; and a write
      transferred its whole buffer. */
  predicate Good(s: Session, e: Event, peer: Session) {
    match e
    case AcceptDone(ec, _) => ec == Success
    case RecvDone(ec, _, _) => ec == Success || (ec == Closed && HungUp(s, peer))
    case SendDone(ec, bytes, _) => ec == Success && s.sendQueue != [] && |s.sendQueue[0].data| <= bytes
    case AppCall(_) => false
    case _ => true
  }

  /** An endpoint writes while it can and reads until it finishes or is hung up on; if it finishes, it
      closes once. */
  predicate Sound(limit: nat, side: Side, s: Session) {
    && s.phase != Rejected
    && !Stalled(s)
    && if Finished(limit, side, s) then
         s.reading == 0 && s.closing + One(s.hasClose) == 1
       else
         s.closing == 0 && s.reading + One(s.hasClose) == One(s.phase == Opened)
  }

  /** An endpoint that has been closed without finishing has a peer that did. */
  predicate Parted(limit: nat, side: Side, s: Session, peer: Session) {
    s.hasClose && !Finished(limit, side, s) ==> Finished(limit, Other(side), peer)
  }

  /** Handlers run so far: openings, posts, writes, reads and closes. */
  function WorkOf(s: Session): int {
    One(s.phase == Opened) + (|s.filled| - |s.posted|) + |s.written| + |s.received| + One(s.hasClose)
  }

  lemma GoodOpening(limit: nat, text: bool, side: Side, s: Session, e: Event)
    requires s == Fresh(s.phase) && (e.AcceptDone? ==> e.ec == Success)
    requires (e.Start? && side == Client) || (e.AcceptDone? && side == Server)
    requires Enabled(s, e)
    ensures var t := Greeted(limit, text, s, e); Sound(limit, side, t) && WorkOf(t) == WorkOf(s) + 1
  {
  }

  lemma GoodRecv(limit: nat, text: bool, side: Side, s: Session, frame: Frame)
    requires Sound(limit, side, s) && s.phase == Opened && s.reading > 0
    requires Finished(limit, side, Handled(limit, text, s, frame)) <==> s.userData + 1 >= limit
    ensures var t := Handled(limit, text, s, frame); Sound(limit, side, t) && WorkOf(t) == WorkOf(s) + 1
  {
  }

  lemma GoodSend(limit: nat, side: Side, s: Session, bytes: nat)
    requires Inv(s) && Sound(limit, side, s) && s.writing != [] && !s.fault
    requires s.sendQueue != [] && |s.sendQueue[0].data| <= bytes
    ensures var t := HandleSend(s, Success, bytes, AppOf(NOTHING));
            Sound(limit, side, t) && WorkOf(t) == WorkOf(s) + 1
  {
    hide Inv;
    SendDoneEffect(s, Success, bytes, AppOf(NOTHING));
  }

  lemma GoodPost(limit: nat, side: Side, s: Session)
    requires Sound(limit, side, s) && s.posted != []
    ensures var t := HandlePost(s); Sound(limit, side, t) && WorkOf(t) == WorkOf(s) + 1
  {
  }

  lemma GoodClose(limit: nat, side: Side, s: Session)
    requires Sound(limit, side, s) && s.closing > 0
    ensures var t := HandleClose(s.(closing := s.closing - 1), []);
            Sound(limit, side, t) && WorkOf(t) == WorkOf(s) + 1
  {
  }

  lemma GoodHangUp(limit: nat, side: Side, s: Session, frame: Frame)
    requires Sound(limit, side, s) && s.reading > 0 && s.phase == Opened
    ensures !Finished(limit, side, s)
    ensures var t := HandleRecv(s, Closed, frame, AppOf(NOTHING));
            Sound(limit, side, t) && WorkOf(t) == WorkOf(s) + 1
  {
    FailQuiet(s.(reading := s.reading - 1), false, "recv");
  }

  /** No other completion than a hang-up and a close ends an endpoint. */
  lemma GoodKeepsOpen(s: Session, e: Event, peer: Session)
    requires Inv(s) && Enabled(s, e) && Good(s, e, peer)
    requires !e.CloseDone? && (e.RecvDone? ==> e.ec == Success)
    ensures Step(s, e).hasClose == s.hasClose
  {
    hide Step;
    StepKeeps(s, e);
    LogIsExact(s, e);
    CountConcat(s.log, Notices(s, e), ToldClose);
  }

  lemma GoodRead(limit: nat, text: bool, side: Side, s: Session, frame: Frame, app: App, peer: Session)
    requires Endpoint(limit, text, side, s) && Endpoint(limit, text, Other(side), peer)
    requires Enabled(s, RecvDone(Success, frame, app)) && ServedBy(limit, text, s, RecvDone(Success, frame, app))
    requires s.received <= peer.handed && |s.received| < |peer.handed| && frame == peer.handed[|s.received|]
    requires Sound(limit, side, s)
    ensures var t := HandleRecv(s, Success, frame, app); Sound(limit, side, t) && WorkOf(t) == WorkOf(s) + 1
  {
    hide HandleRecv, Counting, Sound, WorkOf, Handled, Service;
    ReadingIsOpened(s);
    NextIsExpected(limit, text, side, s, peer);
    EndpointRecv(limit, text, side, s, frame, app);
    assert Finished(limit, side, Handled(limit, text, s, frame)) <==> s.userData + 1 >= limit by {
      CountingRecv(limit, text, side, s, frame);
    }
    GoodRecv(limit, text, side, s, frame);
  }

  lemma GoodStep(limit: nat, text: bool, side: Side, s: Session, e: Event, peer: Session)
    requires Endpoint(limit, text, side, s) && Endpoint(limit, text, Other(side), peer)
    requires Enabled(s, e) && ServedBy(limit, text, s, e) && s.received <= peer.handed
    requires e.RecvDone? && e.ec == Success ==> |s.received| < |peer.handed| && e.frame == peer.handed[|s.received|]
    requires Sound(limit, side, s) && Good(s, e, peer)
    ensures Sound(limit, side, Step(s, e)) && WorkOf(Step(s, e)) == WorkOf(s) + 1
  {
    hide HandleStart, HandleAccept, HandleRecv, HandleSend, HandlePost, HandleClose;
    hide Counting, Sound, WorkOf, Greeted;
    match e
    case RecvDone(Closed, frame, app) =>
      ReadingIsOpened(s);
      GoodHangUp(limit, side, s, frame);
    case RecvDone(_, frame, app) =>
      GoodRead(limit, text, side, s, frame, app, peer);
    case SendDone(_, bytes, app) => GoodSend(limit, side, s, bytes);
    case RunPosted => GoodPost(limit, side, s);
    case CloseDone(app) => GoodClose(limit, side, s);
    case _ =>
      EndpointOpens(limit, text, side, s, e);
      GoodOpening(limit, text, side, s, e);
  }

  lemma GoodStepParts(limit: nat, text: bool, side: Side, s: Session, e: Event, peer: Session)
    requires Endpoint(limit, text, side, s) && Endpoint(limit, text, Other(side), peer)
    requires Enabled(s, e) && ServedBy(limit, text, s, e) && s.received <= peer.handed
    requires e.RecvDone? && e.ec == Success ==> |s.received| < |peer.handed| && e.frame == peer.handed[|s.received|]
    requires Sound(limit, side, s) && Sound(limit, Other(side), peer) && Good(s, e, peer)
    requires Parted(limit, side, s, peer) && Parted(limit, Other(side), peer, s)
    ensures Parted(limit, side, Step(s, e), peer) && Parted(limit, Other(side), peer, Step(s, e))
  {
    hide Inv, Step, Service, Counting, Finished;
    EndpointStep(limit, text, side, s, e, peer);
    if !e.CloseDone? && (e.RecvDone? ==> e.ec == Success) {
      GoodKeepsOpen(s, e, peer);
    }
  }

  // ---------------------------------------------------------------------------------------------
  // Both endpoints

  predicate GoodEvent(limit: nat, text: bool, l: Link, le: LinkEvent) {
    LinkEnabled(limit, text, l, le) && Good(Of(l, le.side), le.event, Of(l, Other(le.side)))
  }

  predicate IsGoodRun(limit: nat, text: bool, l: Link, es: seq<LinkEvent>)
    ensures IsGoodRun(limit, text, l, es) ==> IsLinkRun(limit, text, l, es)
    decreases |es|
  {
    es == [] || (GoodEvent(limit, text, l, es[0]) && IsGoodRun(limit, text, LinkStep(limit, text, l, es[0]), es[1..]))
  }

  /** No completion is outstanding that could still go well. */
  ghost predicate AtRest(limit: nat, text: bool, l: Link) {
    forall le :: LinkEnabled(limit, text, l, le) ==> !Good(Of(l, le.side), le.event, Of(l, Other(le.side)))
  }

  predicate GoodLink(limit: nat, text: bool, l: Link) {
    && LinkInv(limit, text, l)
    && Sound(limit, Client, l.client) && Sound(limit, Server, l.server)
    && Parted(limit, Client, l.client, l.server) && Parted(limit, Server, l.server, l.client)
  }

  function Work(l: Link): int {
    WorkOf(l.client) + WorkOf(l.server)
  }

  lemma GoodLinkStep(limit: nat, text: bool, l: Link, le: LinkEvent)
    requires GoodLink(limit, text, l) && GoodEvent(limit, text, l, le)
    ensures GoodLink(limit, text, LinkStep(limit, text, l, le))
    ensures Work(LinkStep(limit, text, l, le)) == Work(l) + 1
  {
    hide Endpoint, Step, Service, Finished, Enabled, ServedBy, Sound, WorkOf, Good, Parted;
    LinkStepKeeps(limit, text, l, le);
    GoodStep(limit, text, le.side, Of(l, le.side), le.event, Of(l, Other(le.side)));
    GoodStepParts(limit, text, le.side, Of(l, le.side), le.event, Of(l, Other(le.side)));
  }

  lemma {:induction false} GoodRunKeeps(limit: nat, text: bool, l: Link, es: seq<LinkEvent>)
    requires GoodLink(limit, text, l) && IsGoodRun(limit, text, l, es)
    ensures GoodLink(limit, text, LinkExec(limit, text, l, es))
    ensures Work(LinkExec(limit, text, l, es)) == Work(l) + |es|
    decreases |es|
  {
    hide GoodLink, Work, GoodEvent, LinkEnabled, LinkStep;
    if es != [] {
      GoodLinkStep(limit, text, l, es[0]);
      GoodRunKeeps(limit, text, LinkStep(limit, text, l, es[0]), es[1..]);
    }
  }

  lemma WorkBound(limit: nat, text: bool, l: Link)
    requires GoodLink(limit, text, l)
    ensures Work(l) <= 3 * limit + 2 + 2 * One(limit > 0)
  {
    hide Endpoint, Counting;
    LinkCounts(limit, text, l);
    EndpointBounds(limit, text, Client, l.client);
    EndpointBounds(limit, text, Server, l.server);
    if Finished(limit, Client, l.client) { FinishParity(limit, text, Client, l.client); }
    if Finished(limit, Server, l.server) { FinishParity(limit, text, Server, l.server); }
  }

  lemma EndpointBounds(limit: nat, text: bool, side: Side, s: Session)
    requires Endpoint(limit, text, side, s)
    ensures |s.filled| >= |s.posted| + |s.written|
    ensures 2 * |s.filled| + First(side) - 2 <= limit || s.filled == []
  {
  }

  /** An endpoint of a link at rest has opened, and has nothing posted, being written or being closed. */
  lemma RestingSide(limit: nat, text: bool, l: Link, side: Side)
    requires GoodLink(limit, text, l) && AtRest(limit, text, l)
    ensures var s := Of(l, side);
            s.phase == Opened && s.posted == [] && s.sendQueue == [] && s.closing == 0
  {
    hide LinkInv, Step;
    var s, peer := Of(l, side), Of(l, Other(side));
    RestingFacts(limit, text, l, side);
    var start := LinkEvent(side, Start(0, AppOf(ConnectOutcome(limit, text))));
    var accept := LinkEvent(side, AcceptDone(Success, AppOf(ACCEPT_OUTCOME)));
    var post := LinkEvent(side, RunPosted);
    var bytes := if s.sendQueue == [] then 0 else |s.sendQueue[0].data|;
    var sent := LinkEvent(side, SendDone(Success, bytes, AppOf(NOTHING)));
    var closed := LinkEvent(side, CloseDone(AppOf(NOTHING)));
    assert !LinkEnabled(limit, text, l, start) || !Good(s, start.event, peer);
    assert !LinkEnabled(limit, text, l, accept) || !Good(s, accept.event, peer);
    assert !LinkEnabled(limit, text, l, post) || !Good(s, post.event, peer);
    assert !LinkEnabled(limit, text, l, sent) || !Good(s, sent.event, peer);
    assert !LinkEnabled(limit, text, l, closed) || !Good(s, closed.event, peer);
  }

  lemma RestingFacts(limit: nat, text: bool, l: Link, side: Side)
    requires GoodLink(limit, text, l)
    ensures !Of(l, side).fault
  {
  }

  /** When an endpoint finishes, its peer has received everything it ever sent. */
  lemma FinishedIsHeard(limit: nat, text: bool, side: Side, s: Session, peer: Session)
    requires Counting(limit, text, side, s) && Counting(limit, text, Other(side), peer)
    requires |s.received| <= |peer.filled| && |peer.received| <= |s.filled|
    requires Finished(limit, Other(side), peer)
    ensures |s.received| == |peer.filled|
  {
  }

  /** While a message is on the wire to an endpoint, the endpoint can still read it. */
  lemma WireCanBeRead(limit: nat, text: bool, l: Link, side: Side) returns (le: LinkEvent)
    requires GoodLink(limit, text, l) && Of(l, side).phase == Opened
    requires |Of(l, side).received| < |Of(l, Other(side)).handed|
    ensures GoodEvent(limit, text, l, le)
  {
    hide Counting, Step, RecvOutcome, Arrived, Sound, Parted, Finished, Inv;
    var s, peer := Of(l, side), Of(l, Other(side));
    RestingFacts(limit, text, l, side);
    var frame := peer.handed[|s.received|];
    NextIsExpected(limit, text, side, s, peer);
    CountingRecv(limit, text, side, s, frame);
    WireKeepsReading(limit, text, l, side);
    var read := RecvDone(Success, frame, App([], [], true, []));
    le := LinkEvent(side, RecvDone(Success, frame, AppOf(Service(limit, text, s, read))));
  }

  lemma WireKeepsReading(limit: nat, text: bool, l: Link, side: Side)
    requires GoodLink(limit, text, l) && Of(l, side).phase == Opened && !Finished(limit, side, Of(l, side))
    requires |Of(l, side).received| < |Of(l, Other(side)).handed|
    ensures Of(l, side).reading == 1
  {
    hide Counting, Finished;
    var s, peer := Of(l, side), Of(l, Other(side));
    LinkCounts(limit, text, l);
    if Finished(limit, Other(side), peer) { FinishedIsHeard(limit, text, side, s, peer); }
  }

  /** An endpoint of a link at rest has received everything the other one filled. */
  lemma RestingWire(limit: nat, text: bool, l: Link, side: Side)
    requires GoodLink(limit, text, l) && AtRest(limit, text, l)
    ensures var s, peer := Of(l, side), Of(l, Other(side));
            s.received == peer.filled && peer.written == peer.filled
  {
    hide Counting, LinkEnabled;
    var s, peer := Of(l, side), Of(l, Other(side));
    RestingSide(limit, text, l, side);
    RestingSide(limit, text, l, Other(side));
    assert peer.written == peer.filled == peer.handed;
    if |s.received| < |peer.handed| {
      var le := WireCanBeRead(limit, text, l, side);
      assert false;
    }
  }

  /** Bytes in a sequence of messages. */
  function Bytes(frames: seq<Frame>): nat {
    if frames == [] then 0 else |frames[0].data| + Bytes(frames[1..])
  }

  lemma {:induction false} BytesAppend(frames: seq<Frame>, last: Frame)
    ensures Bytes(frames + [last]) == Bytes(frames) + |last.data|
  {
    if frames == [] {
      assert frames + [last] == [last];
    } else {
      assert (frames + [last])[1..] == frames[1..] + [last];
      BytesAppend(frames[1..], last);
    }
  }

  /** The first `n` messages of a side amount to `n * (n + First - 1)` blocks. */
  lemma {:induction false} BytesFilled(text: bool, side: Side, frames: seq<Frame>)
    requires forall i :: 0 <= i < |frames| ==> frames[i] == Numbered(text, 2 * i + First(side))
    ensures Bytes(frames) == MSG_LEN * (|frames| * (|frames| + First(side) - 1))
    decreases |frames|
  {
    hide Message;
    if frames != [] {
      var n := |frames| - 1;
      BytesFilled(text, side, frames[..n]);
      BytesAppend(frames[..n], frames[n]);
      assert frames[..n] + [frames[n]] == frames;
      NextSquare(n, First(side));
    }
  }

  lemma NextSquare(n: nat, f: nat)
    requires f > 0
    ensures (n + 1) * (n + 1 + f - 1) == n * (n + f - 1) + 2 * n + f
  {
  }

  /** The counts of a link at rest. */
  lemma RestingCounts(limit: nat, text: bool, l: Link)
    requires GoodLink(limit, text, l) && AtRest(limit, text, l) && limit > 0
    ensures |l.client.filled| + |l.server.filled| == limit
    ensures l.server.received == l.client.filled == l.client.written
    ensures l.client.received == l.server.filled == l.server.written
    ensures |l.client.filled| == |l.server.filled| + (limit % 2)
    ensures Finished(limit, Client, l.client) <==> limit % 2 == 0
    ensures Finished(limit, Server, l.server) <==> limit % 2 == 1
    ensures Counting(limit, text, Client, l.client) && Counting(limit, text, Server, l.server)
  {
    hide AtRest, Endpoint;
    RestingSide(limit, text, l, Client);
    RestingSide(limit, text, l, Server);
    RestingWire(limit, text, l, Client);
    RestingWire(limit, text, l, Server);
    LinkCounts(limit, text, l);
  }

  /** An endpoint with nothing left to happen, that has been closed once. */
  predicate Ended(s: Session) {
    && s.reading == 0 && s.writing == [] && s.closing == 0 && s.posted == []
    && s.hasClose && Count(s.log, ToldClose) == 1
  }

  /** At rest, the endpoint that finished has closed, and so the other has been hung up on. */
  lemma RestingEnds(limit: nat, text: bool, l: Link, side: Side)
    requires GoodLink(limit, text, l) && AtRest(limit, text, l) && limit > 0
    ensures Ended(Of(l, side))
  {
    hide Counting, Step;
    var s, peer := Of(l, side), Of(l, Other(side));
    RestingSide(limit, text, l, side);
    RestingSide(limit, text, l, Other(side));
    RestingWire(limit, text, l, side);
    RestingCounts(limit, text, l);
    if !Finished(limit, side, s) {
      var hangUp := LinkEvent(side, RecvDone(Closed, Frame(text, ""), AppOf(NOTHING)));
      assert peer.hasClose && s.received == peer.handed;
      assert !LinkEnabled(limit, text, l, hangUp) || !Good(s, hangUp.event, peer);
    }
  }

  lemma RestingBytes(limit: nat, text: bool, l: Link)
    requires GoodLink(limit, text, l) && AtRest(limit, text, l) && limit > 0
    ensures 2 * (Bytes(l.server.received) + Bytes(l.client.received)) == MSG_LEN * (limit * (limit + 1))
  {
    hide AtRest, GoodLink;
    RestingCounts(limit, text, l);
    BytesFilled(text, Client, l.client.filled);
    BytesFilled(text, Server, l.server.filled);
    SquaresAndPronics(limit, |l.client.filled|, |l.server.filled|);
  }

  lemma SquaresAndPronics(limit: nat, a: nat, b: nat)
    requires a + b == limit && a == b + limit % 2
    ensures 2 * (a * a + b * (b + 1)) == limit * (limit + 1)
  {
    if limit % 2 == 0 {
      assert limit == 2 * b && a == b;
    } else {
      assert limit == 2 * b + 1 && a == b + 1;
    }
  }

  lemma InitialIsGood(limit: nat, text: bool)
    ensures GoodLink(limit, text, INITIAL) && Work(INITIAL) == 0
  {
  }

  /** Every error-free run is at most `3 * limit + 4` handlers long. */
  lemma GoodRunsEnd(limit: nat, text: bool, es: seq<LinkEvent>)
    requires IsGoodRun(limit, text, INITIAL, es)
    ensures |es| <= 3 * limit + 4
  {
    hide IsGoodRun, LinkExec, GoodLink, Work;
    InitialIsGood(limit, text);
    GoodRunKeeps(limit, text, INITIAL, es);
    WorkBound(limit, text, LinkExec(limit, text, INITIAL, es));
  }

  /** Every message delivered once, in order; one finish counted, at the server when the limit is odd
      and at the client when it is even; and both ends closed, with nothing left to happen. */
  predicate Complete(limit: nat, text: bool, l: Link) {
    && l.server.received == l.client.filled && l.client.received == l.server.filled
    && |l.server.received| + |l.client.received| == limit
    && (forall i :: 0 <= i < |l.server.received| ==> l.server.received[i] == Numbered(text, 2 * i + 1))
    && (forall i :: 0 <= i < |l.client.received| ==> l.client.received[i] == Numbered(text, 2 * i + 2))
    && 2 * (Bytes(l.server.received) + Bytes(l.client.received)) == MSG_LEN * (limit * (limit + 1))
    && l.serverFinishes == limit % 2 && l.clientFinishes == 1 - limit % 2
    && Ended(l.client) && Ended(l.server)
    && !l.asserted
  }

  lemma RestingWork(limit: nat, text: bool, l: Link)
    requires GoodLink(limit, text, l) && AtRest(limit, text, l) && limit > 0
    ensures Work(l) == 3 * limit + 4
  {
    hide AtRest, GoodLink, Counting;
    RestingSide(limit, text, l, Client);
    RestingSide(limit, text, l, Server);
    RestingCounts(limit, text, l);
    RestingEnds(limit, text, l, Client);
    RestingEnds(limit, text, l, Server);
  }

  lemma RestingIsComplete(limit: nat, text: bool, l: Link)
    requires GoodLink(limit, text, l) && AtRest(limit, text, l) && limit > 0
    ensures Complete(limit, text, l)
  {
    hide AtRest, Endpoint, Sound, Bytes, Numbered, Ended;
    RestingCounts(limit, text, l);
    RestingBytes(limit, text, l);
    RestingEnds(limit, text, l, Client);
    RestingEnds(limit, text, l, Server);
  }

  /** An error-free run that has come to rest is complete, and took exactly `3 * limit + 4` handlers. */
  lemma CountingCompletes(limit: nat, text: bool, es: seq<LinkEvent>)
    requires limit > 0 && IsGoodRun(limit, text, INITIAL, es)
    requires AtRest(limit, text, LinkExec(limit, text, INITIAL, es))
    ensures Complete(limit, text, LinkExec(limit, text, INITIAL, es))
    ensures |es| == 3 * limit + 4
  {
    hide IsGoodRun, LinkExec, AtRest, GoodLink, Work, Complete;
    InitialIsGood(limit, text);
    GoodRunKeeps(limit, text, INITIAL, es);
    var l := LinkExec(limit, text, INITIAL, es);
    RestingWork(limit, text, l);
    RestingIsComplete(limit, text, l);
  }
}
