// MiddleboxAgent.c: one hop's main dispatch and handler loops, proved against
// the transition system of module Agent.
module UserAgent {
  import opened Wrappers
  import opened Wire
  import FlowHash
  import Agent
  import Rules

  const UPDATE_SYN: Word := 4
  const UPDATE_SYN_ACK: Word := 5
  const UPDATE_ACK: Word := 6

  // The flow that every message of updateNotify and settingAck names.
  const THE_FLOW := FlowHash.FlowKey(FLOW_SRC, FLOW_DST, 1, 1)

  type FlowMap = map<FlowHash.FlowKey, FlowHash.FlowVal>

  function RecordOf(flows: FlowMap): Option<int> {
    if THE_FLOW in flows then Some(flows[THE_FLOW].sequenceNumber) else None
  }

  // What the dispatch does is what the transition system's main does: the same
  // test, the same new record, a thread and a kernel SYN for each accepted SYN.
  lemma DispatchIsStep(flows: FlowMap, st: Agent.State, d: Agent.Dgram)
    requires d.dest.Host?
    requires Agent.NodeAt(st, d.dest.addr).rec == RecordOf(flows) && Agent.NodeAt(st, d.dest.addr).main.Idle?
    ensures d.body.UpdateSyn? ==>
              var st' := Agent.AcceptSyn(st, d);
              var spawn := THE_FLOW in flows ==> flows[THE_FLOW].sequenceNumber < d.s;
              && (|st'.threads| == if spawn then |st.threads| + 1 else |st.threads|)
              && Agent.NodeAt(st', d.dest.addr).rec
                 == RecordOf(if spawn then flows[THE_FLOW := FlowHash.FlowVal(d.s, 0)] else flows)
    ensures d.body.UpdateAck? ==>
              var st' := Agent.AcceptAck(st, d);
              && (st'.crashed == (st.crashed || THE_FLOW !in flows))
              && (Agent.NodeAt(st', d.dest.addr).main.AckWaits?
                  <==> THE_FLOW in flows && flows[THE_FLOW].sequenceNumber == d.s)
  {}

  class MiddleboxAgent {
    const flows: FlowHash.FlowRecords
    var updateAck: int

    ghost predicate Valid()
      reads flows, flows.records, flows.records.buckets, flows.records.order
    {
      flows.Valid()
    }

    constructor (hash: FlowHash.FlowKey -> nat)
      ensures Valid() && fresh(flows.Repr()) && flows.flows == map[] && updateAck == 0
    {
      flows := new FlowHash.FlowRecords(hash);
      updateAck := 0;
    }

    // main, for one message.  told is the netlink command issued, spawn whether a
    // handler thread is started.  The ACK path reads the record unchecked.
    method Dispatch(action: Word, key: FlowHash.FlowKey, sequenceNum: Word) returns (told: Rules.Command, spawn: bool)
      requires Valid()
      requires action == UPDATE_ACK ==> key in flows.flows
      modifies flows.Repr(), this`updateAck
      ensures Valid() && fresh(flows.Repr() - old(flows.Repr()))
      ensures var m := old(flows.flows);
              && (spawn <==> action == 4 && (key in m ==> m[key].sequenceNumber < sequenceNum))
              && flows.flows == (if spawn then m[key := FlowHash.FlowVal(sequenceNum, 0)] else m)
              && (told == Rules.Syn <==> spawn)
              && (told == Rules.Ack <==> action == 6 && m[key].sequenceNumber == sequenceNum)
              && told != Rules.Reset
      ensures updateAck == if told == Rules.Ack then 1 else old(updateAck)
    {
      hide FlowHash.FlowRecords.Valid;
      var retv := flows.FindItem(key);
      told, spawn := Rules.Other, false;
      if action == UPDATE_SYN {
        if retv != null && retv.val.sequenceNumber >= sequenceNum {
        } else {
          told := Rules.Syn;
          flows.AddItem(key, sequenceNum);
          spawn := true;
        }
      } else if action == UPDATE_ACK {
        if retv.val.sequenceNumber == sequenceNum {
          updateAck := 1;
          told := Rules.Ack;
        }
      }
    }

    // The locked section of updateForward's loop: relay the answer to the hop
    // before, or, once acknowledged, build the ACK for the next hop and leave.
    method RelayOrRelease(reply: array<Byte>, m: nat, ackMesg: array<Byte>) returns (relayed: seq<Byte>, released: bool)
      requires HEADER <= m <= reply.Length && ackMesg.Length == HEADER + 4 && ackMesg != reply
      modifies ackMesg
      ensures released == (updateAck == 1)
      ensures !released ==> relayed == reply[..m] && ackMesg[..] == old(ackMesg[..])
      ensures released ==> relayed == []
      ensures released ==> ackMesg[..] == Sync(Header(UPDATE_ACK, WordAt(reply[..], 4), FLOW_SRC, FLOW_DST, 1, 1), [])
    {
      hide Sync, WordAt;
      if updateAck != 1 {
        relayed, released := reply[..m], false;
      } else {
        SettingAck(ackMesg, WordAt(reply[..], 4));
        relayed, released := [], true;
      }
    }

    // The end of both handlers.
    method ClearAck()
      modifies this`updateAck
      ensures updateAck == 0
    {
      updateAck := 0;
    }

    // updateBack: the answer again and again, and then update_ack is cleared,
    // whichever way the loop was left.  seen(t) is update_ack as the locked
    // section of turn t finds it.
    method UpdateBack(request: array<Byte>, n: nat, seen: nat -> bool)
        returns (count: nat, released: bool, sent: seq<seq<Byte>>)
      requires n == HEADER + 8 <= request.Length
      modifies this`updateAck
      ensures updateAck == 0
      ensures 1 <= count <= 1000 && forall t: nat :: 1 <= t < count ==> !seen(t)
      ensures released == seen(count) && (!released ==> count == 1000)
      ensures |sent| == if released then count - 1 else 1000
      ensures forall j :: 0 <= j < |sent| ==> sent[j] == Bytes4(UPDATE_SYN_ACK) + request[4..HEADER] + Bytes4(0)
    {
      hide Bytes4, AnsweredTurns;
      var response := BackResponse(request, n);
      count, released, sent := AnswerLoop(response[..], seen);
      ClearAck();
    }
  }

  datatype Handling = Ignored | Forwarded(msg: seq<Byte>, next: Word) | Answers

  // handleUpdate up to its loop: what a handler does first with a well-formed
  // request.
  method HandleUpdate(request: array<Byte>, n: nat, ghost h: Header, ghost list: seq<Word>) returns (r: Handling)
    requires n <= request.Length && list != [] && request[..n] == Sync(h, list)
    ensures r == if h.sequenceNum <= 0 then Ignored
                 else if |list| > 1 then Forwarded(Sync(h.(action := UPDATE_SYN), list[1..]), list[1])
                 else Answers
  {
    hide Sync, HeaderOf, Strip, NextHop, AddressesFrom;
    SyncRoundTrip(h, list);
    SameWord(request[..], request[..n], 4);
    if WordAt(request[..], 4) <= 0 {
      r := Ignored;
    } else if n > HEADER + 8 {
      StripDropsHead(h, list, UPDATE_SYN);
      var sendmsg, next := ForwardMessage(request, n, UPDATE_SYN);
      r := Forwarded(sendmsg[..], next);
    } else {
      r := Answers;
    }
    SequenceAt(h, list);
  }

  lemma SameWord(m: seq<Byte>, prefix: seq<Byte>, i: nat)
    requires prefix <= m && i + 4 <= |prefix|
    ensures WordAt(m, i) == WordAt(prefix, i)
  {}

  lemma SequenceAt(h: Header, list: seq<Word>)
    ensures WordAt(Sync(h, list), 4) == h.sequenceNum
  {
    hide Sync, AddressesFrom, WordAt;
    SyncRoundTrip(h, list);
  }

  // updateBack's variables: turns taken, answers sent, and how the loop was left.
  datatype Answering = Answering(count: nat, sent: nat, over: bool, released: bool)

  // One turn; acked is update_ack as its locked section finds it.
  function AnswerTurn(l: Answering, acked: bool): Answering {
    if acked then Answering(l.count + 1, l.sent, true, true)
    else Answering(l.count + 1, l.sent + 1, l.count + 1 >= Agent.TURNS, false)
  }

  function AnsweredTurns(seen: nat -> bool, n: nat): Answering {
    if n == 0 then Answering(0, 0, false, false) else AnswerTurn(AnsweredTurns(seen, n - 1), seen(n))
  }

  lemma AnsweredNext(seen: nat -> bool, n: nat)
    ensures AnsweredTurns(seen, 0) == Answering(0, 0, false, false)
    ensures AnsweredTurns(seen, n + 1) == AnswerTurn(AnsweredTurns(seen, n), seen(n + 1))
  {}

  // updateBack's loop: answer in every turn until the locked section of some turn
  // sees update_ack set.  The answer of the last allowed turn is still sent.
  method AnswerLoop(answer: seq<Byte>, seen: nat -> bool)
      returns (count: nat, released: bool, sent: seq<seq<Byte>>)
    ensures 1 <= count <= 1000 && forall t: nat :: 1 <= t < count ==> !seen(t)
    ensures released == seen(count) && (!released ==> count == 1000)
    ensures AnsweredTurns(seen, count) == Answering(count, |sent|, true, released)
    ensures |sent| == if released then count - 1 else 1000
    ensures forall j :: 0 <= j < |sent| ==> sent[j] == answer
  {
    hide AnsweredTurns;
    AnsweredNext(seen, 0);
    count, released, sent := 0, false, [];
    while true
      invariant count < Agent.TURNS && !released && |sent| == count
      invariant AnsweredTurns(seen, count) == Answering(count, |sent|, false, false)
      invariant forall t: nat :: 1 <= t <= count ==> !seen(t)
      invariant forall j :: 0 <= j < |sent| ==> sent[j] == answer
      decreases Agent.TURNS - count
    {
      AnsweredNext(seen, count);
      count := count + 1;
      if seen(count) {
        released := true;
        break;
      }
      sent := sent + [answer];
      if count >= Agent.TURNS {
        break;
      }
    }
  }

  // A thread's state after one action, its hop's node being n.
  function Acts(thread: Agent.Thread, n: Agent.Node, t: nat): Agent.Thread {
    Agent.ThreadNext(thread, n, t).0
  }

  // A turn of updateBack is the thread's actions count, lock and test, and when
  // not acknowledged unlock and answer; the hop's node may be another one, n1 to
  // n5, before each.
  lemma TurnIsActions(thread: Agent.Thread, t: nat, l: Answering, n1: Agent.Node, n2: Agent.Node, n3: Agent.Node,
                      n4: Agent.Node, n5: Agent.Node)
    requires thread.pc.Counting? && thread.count == l.count
    ensures AnswerTurn(l, n3.updateAck).over <==> n3.updateAck || l.count + 1 >= 1000
    ensures var tested, l' := Acts(Acts(Acts(thread, n1, t), n2, t), n3, t), AnswerTurn(l, n3.updateAck);
            && (n3.updateAck ==>
                  tested == thread.(pc := Agent.Clearing, count := l'.count, released := true) && l'.over)
            && (!n3.updateAck ==>
                  var free := Acts(tested, n4, t);
                  && Agent.ThreadSends(free, n5, t)
                     == [Agent.Dgram(Agent.Socket(thread.cli), Agent.Listen(thread.hop), Agent.UpdateSynAck,
                                     thread.s, thread.pos)]
                  && l'.sent == l.sent + 1
                  && Acts(free, n5, t)
                     == thread.(count := l'.count, pc := if l'.over then Agent.Clearing else Agent.Counting,
                                timedOut := thread.timedOut || l'.over))
  {}

  // The bytes are those of an answer or an ACK that the transition system calls d.
  ghost predicate Carries(bytes: seq<Byte>, d: Agent.Dgram) {
    && |bytes| >= HEADER
    && HeaderOf(bytes).sequenceNum == d.s
    && (d.body.UpdateSynAck? ==> HeaderOf(bytes).action == UPDATE_SYN_ACK)
    && (d.body.UpdateAck? ==>
          bytes == Sync(Header(UPDATE_ACK, HeaderOf(bytes).sequenceNum, FLOW_SRC, FLOW_DST, 1, 1), []))
  }

  // What RelayOrRelease promises is what the thread does in its locked section:
  // it leaves exactly when the thread does, and its bytes are those of the
  // datagram the thread sends -- the answer it received, or the ACK to the next
  // hop.
  lemma RelayIsAction(thread: Agent.Thread, n: Agent.Node, t: nat, reply: seq<Byte>,
                      relayed: seq<Byte>, released: bool, ackMesg: seq<Byte>)
    requires thread.pc.Deciding? && thread.pc.m.body.UpdateSynAck? && Carries(reply, thread.pc.m)
    requires released == n.updateAck
    requires !released ==> relayed == reply
    requires released ==> ackMesg == Sync(Header(UPDATE_ACK, WordAt(reply, 4), FLOW_SRC, FLOW_DST, 1, 1), [])
    ensures Acts(thread, n, t).pc == if released then Agent.Clearing else Agent.Releasing
    ensures var out := Agent.ThreadSends(thread, n, t);
            && |out| == 1
            && Carries(if released then ackMesg else relayed, out[0])
            && out[0].dest == (if released then Agent.Host(Agent.Second(thread.list)) else Agent.Socket(thread.cli))
  {
    hide Sync, WordAt, HalfAt;
    if released {
      SyncRoundTrip(Header(UPDATE_ACK, WordAt(reply, 4), FLOW_SRC, FLOW_DST, 1, 1), []);
    }
  }

  // The initiator's check succeeds on the answer to its own message, however
  // long the list: what the last hop receives, and answers, still has its number.
  lemma AnswerPasses(h: Header, list: seq<Word>)
    requires list != [] && h.action == UPDATE_SYN
    ensures AtPosition(Sync(h, list), UPDATE_SYN, |list| - 1) == Some(Sync(h, [list[|list| - 1]]))
    ensures var m := Sync(h, [list[|list| - 1]]);
            var answer := Bytes4(UPDATE_SYN_ACK) + m[4..HEADER] + Bytes4(0);
            HeaderOf(answer).action == 5 && HeaderOf(answer).sequenceNum == h.sequenceNum
  {
    hide Bytes4, HeaderOf, Sync, AtPosition;
    HopMessage(h, list, |list| - 1);
    assert list[|list| - 1..] == [list[|list| - 1]];
    ResponseHeader(h, list[|list| - 1]);
    SyncRoundTrip(h.(action := UPDATE_SYN_ACK), []);
  }
}
