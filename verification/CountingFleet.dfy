/** Many connections between one client service and one server service, sharing each service's finish
    counter, their handlers interleaved in any way. */
module CountingFleet {
  import opened WebsocketMachine
  import opened CountingProtocol
  import opened CountingCompletion

  datatype Fleet = Fleet(links: seq<Link>, clientFinishCount: nat, serverFinishCount: nat)

  datatype FleetEvent = FleetEvent(link: nat, event: LinkEvent)

  function Initial(connections: nat): Fleet {
    Fleet(seq(connections, i => INITIAL), 0, 0)
  }

  predicate FleetEnabled(limit: nat, text: bool, f: Fleet, fe: FleetEvent) {
    fe.link < |f.links| && LinkEnabled(limit, text, f.links[fe.link], fe.event)
  }

  function FleetStep(limit: nat, text: bool, f: Fleet, fe: FleetEvent): Fleet
    requires FleetEnabled(limit, text, f, fe)
  {
    var l := f.links[fe.link];
    var finish := One(Service(limit, text, Of(l, fe.event.side), fe.event.event).finishes);
    var links := f.links[fe.link := LinkStep(limit, text, l, fe.event)];
    if fe.event.side == Client then
      Fleet(links, f.clientFinishCount + finish, f.serverFinishCount)
    else
      Fleet(links, f.clientFinishCount, f.serverFinishCount + finish)
  }

  predicate IsFleetRun(limit: nat, text: bool, f: Fleet, es: seq<FleetEvent>)
    decreases |es|
  {
    || es == []
    || (FleetEnabled(limit, text, f, es[0]) && IsFleetRun(limit, text, FleetStep(limit, text, f, es[0]), es[1..]))
  }

  function FleetExec(limit: nat, text: bool, f: Fleet, es: seq<FleetEvent>): Fleet
    requires IsFleetRun(limit, text, f, es)
    decreases |es|
  {
    if es == [] then f else FleetExec(limit, text, FleetStep(limit, text, f, es[0]), es[1..])
  }

  function FinishesOf(l: Link, side: Side): nat {
    if side == Client then l.clientFinishes else l.serverFinishes
  }

  /** Finishes counted by one side on the given links. */
  function Finishes(links: seq<Link>, side: Side): nat {
    if links == [] then 0 else FinishesOf(links[0], side) + Finishes(links[1..], side)
  }

  lemma {:induction false} FinishesUpdate(links: seq<Link>, k: nat, l: Link, side: Side)
    requires k < |links|
    ensures Finishes(links[k := l], side) + FinishesOf(links[k], side) == Finishes(links, side) + FinishesOf(l, side)
  {
    if k == 0 {
      assert links[k := l][1..] == links[1..];
    } else {
      assert links[k := l][1..] == links[1..][k - 1 := l];
      FinishesUpdate(links[1..], k - 1, l, side);
    }
  }

  predicate FleetInv(limit: nat, text: bool, f: Fleet) {
    && (forall i :: 0 <= i < |f.links| ==> LinkInv(limit, text, f.links[i]))
    && f.clientFinishCount == Finishes(f.links, Client)
    && f.serverFinishCount == Finishes(f.links, Server)
  }

  lemma FleetStepKeeps(limit: nat, text: bool, f: Fleet, fe: FleetEvent)
    requires FleetInv(limit, text, f) && FleetEnabled(limit, text, f, fe)
    ensures FleetInv(limit, text, FleetStep(limit, text, f, fe))
    ensures |FleetStep(limit, text, f, fe).links| == |f.links|
  {
    hide LinkInv, Step, Service, LinkEnabled;
    var l := f.links[fe.link];
    LinkStepKeeps(limit, text, l, fe.event);
    FinishesUpdate(f.links, fe.link, LinkStep(limit, text, l, fe.event), Client);
    FinishesUpdate(f.links, fe.link, LinkStep(limit, text, l, fe.event), Server);
  }

  lemma {:induction false} FleetRunKeeps(limit: nat, text: bool, f: Fleet, es: seq<FleetEvent>)
    requires FleetInv(limit, text, f) && IsFleetRun(limit, text, f, es)
    ensures FleetInv(limit, text, FleetExec(limit, text, f, es))
    ensures |FleetExec(limit, text, f, es).links| == |f.links|
    decreases |es|
  {
    hide FleetInv, FleetEnabled, FleetStep;
    if es != [] {
      FleetStepKeeps(limit, text, f, es[0]);
      FleetRunKeeps(limit, text, FleetStep(limit, text, f, es[0]), es[1..]);
    }
  }

  lemma {:induction false} FinishesBound(limit: nat, text: bool, links: seq<Link>)
    requires forall i :: 0 <= i < |links| ==> LinkInv(limit, text, links[i])
    ensures Finishes(links, Client) + Finishes(links, Server) <= |links|
    ensures if limit % 2 == 1 then Finishes(links, Client) == 0 else Finishes(links, Server) == 0
    decreases |links|
  {
    hide LinkInv;
    if links != [] {
      LinkFinishesOnce(limit, text, links[0]);
      FinishesBound(limit, text, links[1..]);
    }
  }

  lemma {:induction false} InitialFinishes(connections: nat, side: Side)
    ensures Finishes(seq(connections, i => INITIAL), side) == 0
    decreases connections
  {
    if connections > 0 {
      assert seq(connections, i => INITIAL)[1..] == seq(connections - 1, i => INITIAL);
      InitialFinishes(connections - 1, side);
    }
  }

  lemma InitialFleet(limit: nat, text: bool, connections: nat)
    ensures FleetInv(limit, text, Initial(connections))
  {
    hide LinkInv;
    InitialLink(limit, text);
    InitialFinishes(connections, Client);
    InitialFinishes(connections, Server);
  }

  /** However the handlers of `connections` connections interleave, errors included, the two services
      between them never count more finishes than there are connections: the server none when the limit
      is even, the client none when it is odd. */
  lemma FleetFinishes(limit: nat, text: bool, connections: nat, es: seq<FleetEvent>)
    requires IsFleetRun(limit, text, Initial(connections), es)
    ensures var f := FleetExec(limit, text, Initial(connections), es);
            && f.clientFinishCount + f.serverFinishCount <= connections
            && if limit % 2 == 1 then f.clientFinishCount == 0 else f.serverFinishCount == 0
  {
    hide IsFleetRun, FleetExec, LinkInv;
    InitialFleet(limit, text, connections);
    FleetRunKeeps(limit, text, Initial(connections), es);
    var f := FleetExec(limit, text, Initial(connections), es);
    FinishesBound(limit, text, f.links);
  }

  // ---------------------------------------------------------------------------------------------
  // Without errors

  predicate GoodFleetEvent(limit: nat, text: bool, f: Fleet, fe: FleetEvent) {
    fe.link < |f.links| && GoodEvent(limit, text, f.links[fe.link], fe.event)
  }

  predicate IsGoodFleetRun(limit: nat, text: bool, f: Fleet, es: seq<FleetEvent>)
    ensures IsGoodFleetRun(limit, text, f, es) ==> IsFleetRun(limit, text, f, es)
    decreases |es|
  {
    || es == []
    || (GoodFleetEvent(limit, text, f, es[0]) &&
        IsGoodFleetRun(limit, text, FleetStep(limit, text, f, es[0]), es[1..]))
  }

  /** No completion is outstanding on any connection that could still go well. */
  ghost predicate FleetAtRest(limit: nat, text: bool, f: Fleet) {
    forall fe :: !GoodFleetEvent(limit, text, f, fe)
  }

  predicate GoodFleet(limit: nat, text: bool, f: Fleet) {
    && FleetInv(limit, text, f)
    && forall i :: 0 <= i < |f.links| ==> GoodLink(limit, text, f.links[i])
  }

  lemma GoodFleetStep(limit: nat, text: bool, f: Fleet, fe: FleetEvent)
    requires GoodFleet(limit, text, f) && GoodFleetEvent(limit, text, f, fe)
    ensures GoodFleet(limit, text, FleetStep(limit, text, f, fe))
    ensures |FleetStep(limit, text, f, fe).links| == |f.links|
  {
    hide FleetInv, GoodLink, LinkStep, Service, LinkEnabled, Good;
    FleetStepKeeps(limit, text, f, fe);
    GoodLinkStep(limit, text, f.links[fe.link], fe.event);
  }

  lemma {:induction false} GoodFleetRunKeeps(limit: nat, text: bool, f: Fleet, es: seq<FleetEvent>)
    requires GoodFleet(limit, text, f) && IsGoodFleetRun(limit, text, f, es)
    ensures GoodFleet(limit, text, FleetExec(limit, text, f, es))
    ensures |FleetExec(limit, text, f, es).links| == |f.links|
    decreases |es|
  {
    hide GoodFleet, GoodFleetEvent, FleetStep;
    if es != [] {
      GoodFleetStep(limit, text, f, es[0]);
      GoodFleetRunKeeps(limit, text, FleetStep(limit, text, f, es[0]), es[1..]);
    }
  }

  lemma RestingLink(limit: nat, text: bool, f: Fleet, i: nat)
    requires FleetAtRest(limit, text, f) && i < |f.links|
    ensures AtRest(limit, text, f.links[i])
  {
    hide LinkEnabled, Good;
    forall le | LinkEnabled(limit, text, f.links[i], le)
      ensures !Good(Of(f.links[i], le.side), le.event, Of(f.links[i], Other(le.side)))
    {
      assert !GoodFleetEvent(limit, text, f, FleetEvent(i, le));
    }
  }

  lemma {:induction false} CompleteFinishes(limit: nat, text: bool, links: seq<Link>)
    requires forall i :: 0 <= i < |links| ==> Complete(limit, text, links[i])
    ensures Finishes(links, Server) == |links| * (limit % 2)
    ensures Finishes(links, Client) == |links| * (1 - limit % 2)
    decreases |links|
  {
    if links != [] {
      CompleteFinishes(limit, text, links[1..]);
      assert limit % 2 == 0 || limit % 2 == 1;
    }
  }

  lemma RestingFleet(limit: nat, text: bool, f: Fleet)
    requires limit > 0 && GoodFleet(limit, text, f) && FleetAtRest(limit, text, f)
    ensures forall i :: 0 <= i < |f.links| ==> Complete(limit, text, f.links[i])
    ensures f.serverFinishCount == (if limit % 2 == 1 then |f.links| else 0)
    ensures f.clientFinishCount == (if limit % 2 == 0 then |f.links| else 0)
  {
    hide GoodLink, LinkInv, Complete, AtRest, FleetAtRest;
    forall i | 0 <= i < |f.links| ensures Complete(limit, text, f.links[i]) {
      RestingLink(limit, text, f, i);
      RestingIsComplete(limit, text, f.links[i]);
    }
    CompleteFinishes(limit, text, f.links);
  }

  lemma InitialFleetIsGood(limit: nat, text: bool, connections: nat)
    ensures GoodFleet(limit, text, Initial(connections))
  {
    hide FleetInv, GoodLink, Work;
    InitialFleet(limit, text, connections);
    InitialIsGood(limit, text);
  }

  /** When an error-free fleet has come to rest, every connection is complete, and one finish has been
      counted for each: all of them by the server when the limit is odd, by the client when it is even. */
  lemma FleetCompletes(limit: nat, text: bool, connections: nat, es: seq<FleetEvent>)
    requires limit > 0 && IsGoodFleetRun(limit, text, Initial(connections), es)
    requires FleetAtRest(limit, text, FleetExec(limit, text, Initial(connections), es))
    ensures var f := FleetExec(limit, text, Initial(connections), es);
            && |f.links| == connections
            && (forall i :: 0 <= i < connections ==> Complete(limit, text, f.links[i]))
            && f.serverFinishCount == (if limit % 2 == 1 then connections else 0)
            && f.clientFinishCount == (if limit % 2 == 0 then connections else 0)
  {
    hide IsGoodFleetRun, FleetExec, GoodFleet, Complete, FleetAtRest;
    InitialFleetIsGood(limit, text, connections);
    GoodFleetRunKeeps(limit, text, Initial(connections), es);
    RestingFleet(limit, text, FleetExec(limit, text, Initial(connections), es));
  }
}
