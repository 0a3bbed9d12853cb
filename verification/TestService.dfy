/** The counting half of the test service: what it sends, and how it checks what it receives. */
module TestService {
  import opened WebsocketMachine
  import opened WebsocketInvariant
  import opened WebsocketSession

  const MSG_BLK := "this is a message\n"
  const MSG_LEN: nat := |MSG_BLK|

  /** Message number `k`: the block, `k` times over. */
  function Message(k: nat): (data: string)
    ensures |data| == MSG_LEN * k
  {
    if k == 0 then "" else Message(k - 1) + MSG_BLK
  }

  /** Messages are equal block by block. */
  lemma NextBlock(seen: string, block: string, index: nat)
    requires |seen| == MSG_LEN * index && |block| == MSG_LEN
    ensures seen + block == Message(index + 1) <==> seen == Message(index) && block == MSG_BLK
  {
    assert (seen + block)[..|seen|] == seen && (seen + block)[|seen|..] == block;
    assert Message(index + 1)[..|seen|] == Message(index) && Message(index + 1)[|seen|..] == MSG_BLK;
  }

  /** What a callback of the service does: to its connection, to the connection's fate, and whether it
      counts a finish or fails an assert on the way. */
  datatype Outcome = Outcome(calls: seq<Call>, keep: bool, finishes: bool, asserts: bool)

  /** `send_message` when the connection's count is `count`. */
  function SendOutcome(limit: nat, text: bool, count: nat): (o: Outcome)
    ensures !o.asserts
  {
    if limit == 0 then Outcome([], true, false, false)
    else if count >= limit then Outcome([], false, true, false)
    else Outcome([SetUserData(count + 1), Fill(text, Message(count + 1))], true, false, false)
  }

  function ConnectOutcome(limit: nat, text: bool): Outcome {
    var o := SendOutcome(limit, text, 0);
    o.(calls := [SetUserData(0)] + o.calls)
  }

  const ACCEPT_OUTCOME := Outcome([SetUserData(0)], true, false, false)

  /** `recv_message` on a connection in state `s`. */
  function RecvOutcome(limit: nat, text: bool, s: Session): Outcome {
    if s.recvQueue == [] || s.recvQueue[0].text != text || s.userData >= limit then
      Outcome([], false, false, true)
    else if |s.recvQueue[0].data| != MSG_LEN * (s.userData + 1) then
      Outcome([SetUserData(s.userData + 1)], false, false, true)
    else
      var o := SendOutcome(limit, text, s.userData + 1);
      o.(calls := [SetUserData(s.userData + 1), Drop] + o.calls,
         asserts := s.recvQueue[0].data != Message(s.userData + 1))
  }

  /** The frame at the front is of the service's kind, due, and as long as the message that is due. */
  predicate LooksDue(limit: nat, text: bool, s: Session) {
    && s.recvQueue != [] && s.recvQueue[0].text == text
    && s.userData < limit && |s.recvQueue[0].data| == MSG_LEN * (s.userData + 1)
  }

  /** A receipt keeps the connection exactly if the frame looks due and is not the last: then the frame is
      dropped and the next message filled. It finishes exactly if the frame looks due and is the last. An
      assert fails exactly if the frame does not look due or is not the message; and one that fails before
      the check is over gives the connection up, with nothing dropped or filled. */
  lemma ReceiptExactly(limit: nat, text: bool, s: Session)
    ensures var o := RecvOutcome(limit, text, s); var due := s.userData + 1;
            && (o.keep <==> LooksDue(limit, text, s) && due < limit)
            && (o.finishes <==> LooksDue(limit, text, s) && due == limit)
            && (o.asserts <==> !LooksDue(limit, text, s) || s.recvQueue[0].data != Message(due))
            && (Drop in o.calls <==> LooksDue(limit, text, s))
            && (forall call :: call in o.calls && call.Fill? ==> o.keep && call == Fill(text, Message(due + 1)))
            && (o.keep ==> Fill(text, Message(due + 1)) in o.calls)
  {
    hide Message;
  }

  lemma {:induction false} ApplyAllConcat(s: Session, xs: seq<Call>, ys: seq<Call>)
    ensures ApplyAll(s, xs + ys) == ApplyAll(ApplyAll(s, xs), ys)
    decreases |xs|
  {
    if xs == [] {
      assert xs + ys == ys;
    } else {
      assert (xs + ys)[1..] == xs[1..] + ys;
      ApplyAllConcat(Apply(s, xs[0]), xs[1..], ys);
    }
  }

  lemma ApplyTwo(s: Session, a: Call, b: Call)
    ensures ApplyAll(s, [a, b]) == Apply(Apply(s, a), b)
  {
    ApplyAllConcat(s, [a], [b]);
    assert [a] + [b] == [a, b];
    assert [a][1..] == [] && [b][1..] == [];
  }

  lemma ApplyNone(s: Session)
    ensures ApplyAll(s, []) == s
  {
  }

  /** The calls of `recv_message`, one stage after the other. */
  lemma RecvOutcomeStages(limit: nat, text: bool, s: Session)
    ensures var count := s.userData + 1;
            ApplyAll(s, RecvOutcome(limit, text, s).calls) ==
            if s.recvQueue == [] || s.recvQueue[0].text != text || s.userData >= limit then s
            else if |s.recvQueue[0].data| != MSG_LEN * count then Apply(s, SetUserData(count))
            else ApplyAll(Apply(Apply(s, SetUserData(count)), Drop), SendOutcome(limit, text, count).calls)
  {
    hide Message, SendOutcome, ApplyAll;
    var put := SetUserData(s.userData + 1);
    ApplyNone(s);
    ApplyOne(s, put);
    ApplyTwo(s, put, Drop);
    ApplyAllConcat(s, [put, Drop], SendOutcome(limit, text, s.userData + 1).calls);
  }

  /** `data` with `count` blocks copied into it. */
  method BuildMessage(count: nat) returns (message: string)
    ensures message == Message(count)
  {
    var data := new char[MSG_LEN * count];
    for index := 0 to count
      invariant data[..MSG_LEN * index] == Message(index)
    {
      forall i | 0 <= i < MSG_LEN {
        data[MSG_LEN * index + i] := MSG_BLK[i];
      }
      assert data[..MSG_LEN * index] == Message(index);
      assert data[MSG_LEN * index..MSG_LEN * (index + 1)] == MSG_BLK;
      assert data[..MSG_LEN * (index + 1)] == data[..MSG_LEN * index] + data[MSG_LEN * index..MSG_LEN * (index + 1)];
    }
    message := data[..];
  }

  class TestService {
    const text: bool
    const maxMessageCount: nat
    var connectCount: int
    var disconnectCount: int
    var sendFinishCount: int
    var asserted: bool         // an assert of the service has failed

    constructor (text: bool, sendTimes: nat)
      ensures this.text == text && maxMessageCount == sendTimes
      ensures connectCount == 0 && disconnectCount == 0 && sendFinishCount == 0 && !asserted
    {
      this.text, maxMessageCount := text, sendTimes;
      connectCount, disconnectCount, sendFinishCount, asserted := 0, 0, 0, false;
    }

    /** What a callback with outcome `o` leaves behind. */
    twostate predicate Did(o: Outcome, connection: WebsocketSession, keep: bool)
      reads this, connection
    {
      && connection.View() == ApplyAll(old(connection.View()), o.calls)
      && keep == o.keep
      && sendFinishCount == old(sendFinishCount) + (if o.finishes then 1 else 0)
      && asserted == (old(asserted) || o.asserts)
    }

    method OnConnect(connection: WebsocketSession) returns (keep: bool)
      modifies this, connection
      ensures Did(ConnectOutcome(maxMessageCount, text), connection, keep)
    {
      InsertConnection(connection);
      keep := SendMessage(connection);
      assert [SetUserData(0)][1..] == [];
      ApplyAllConcat(old(connection.View()), [SetUserData(0)], SendOutcome(maxMessageCount, text, 0).calls);
    }

    method OnAccept(connection: WebsocketSession) returns (keep: bool)
      modifies this, connection
      ensures Did(ACCEPT_OUTCOME, connection, keep)
    {
      InsertConnection(connection);
      assert [SetUserData(0)][1..] == [];
      keep := true;
    }

    method OnRecv(connection: WebsocketSession) returns (keep: bool)
      modifies this, connection
      ensures Did(RecvOutcome(maxMessageCount, text, old(connection.View())), connection, keep)
    {
      keep := RecvMessage(connection);
    }

    method InsertConnection(connection: WebsocketSession)
      modifies this`connectCount, connection
      ensures connection.View() == Apply(old(connection.View()), SetUserData(0))
      ensures connectCount == old(connectCount) + 1
    {
      connectCount := connectCount + 1;
      connection.SetUserData(0);
    }

    method RemoveConnection(connection: WebsocketSession)
      modifies this`disconnectCount
      ensures disconnectCount == old(disconnectCount) + 1
    {
      disconnectCount := disconnectCount + 1;
    }

    method SendMessage(connection: WebsocketSession) returns (keep: bool)
      modifies this, connection
      ensures Did(SendOutcome(maxMessageCount, text, old(connection.userData)), connection, keep)
    {
      if maxMessageCount == 0 {
        return true;
      }
      var count := connection.userData;
      if count >= maxMessageCount {
        sendFinishCount := sendFinishCount + 1;
        return false;
      }
      count := count + 1;
      connection.SetUserData(count);
      var data := BuildMessage(count);
      keep := connection.SendBufferFill(text, data);
      ApplyTwo(old(connection.View()), SetUserData(count), Fill(text, data));
    }

    method RecvMessage(connection: WebsocketSession) returns (keep: bool)
      modifies this, connection
      ensures Did(RecvOutcome(maxMessageCount, text, old(connection.View())), connection, keep)
    {
      hide ApplyAll, SendOutcome, Message;
      RecvOutcomeStages(maxMessageCount, text, connection.View());
      if maxMessageCount == 0 {
        asserted := true;
      }
      var has := connection.RecvBufferHasData();
      if !has {
        asserted := true;
        return false;
      }
      var isText := connection.RecvBufferDataIsText();
      if isText != text {
        asserted := true;
        return false;
      }
      var data := connection.RecvBufferData();
      keep := CheckMessage(connection, data);
      if !keep {
        asserted := true;
        return;
      }
      var dropped := connection.RecvBufferDrop();
      if !dropped {
        assert false;
      }
      keep := SendMessage(connection);
    }

    method CheckMessage(connection: WebsocketSession, data: string) returns (ok: bool)
      modifies this`asserted, connection
      ensures var count := old(connection.userData);
              && (ok <==> count < maxMessageCount && |data| == MSG_LEN * (count + 1))
              && (asserted <==> old(asserted) || count >= maxMessageCount || data != Message(count + 1))
              && connection.View() ==
                   if count < maxMessageCount then Apply(old(connection.View()), SetUserData(count + 1))
                   else old(connection.View())
    {
      hide Message;
      var count := connection.userData;
      if count >= maxMessageCount {
        asserted := true;
        return false;
      }
      count := count + 1;
      connection.SetUserData(count);
      if MSG_LEN * count != |data| {
        asserted := true;
        return false;
      }
      ghost var seen := "";
      var rest := data;
      for index := 0 to count
        invariant data == seen + rest && |seen| == MSG_LEN * index
        invariant asserted <==> old(asserted) || seen != Message(index)
        invariant connection.View() == Apply(old(connection.View()), SetUserData(count))
      {
        assert |rest| == MSG_LEN * (count - index) >= MSG_LEN;
        NextBlock(seen, rest[..MSG_LEN], index);
        if rest[..MSG_LEN] != MSG_BLK {
          asserted := true;
        }
        seen := seen + rest[..MSG_LEN];
        rest := rest[MSG_LEN..];
      }
      assert rest == "" && data == seen;
      ok := true;
    }
  }
}
