// serverUDP.c: a hop of the emulator.  Its main dispatch and its retry loops are
// proved against the transition system of module Emulator.
module ServerUdp {
  import opened Wire
  import FlowHash
  import Emulator

  // sockaddr_in
  datatype SockAddr = SockAddr(addr: int, port: int)

  const SYN: Word := 1
  const ACK: Word := 3

  // The hop's flow records hold what the transition system says they hold;
  // name gives the socket behind a client address.
  ghost predicate Matches(flows: FlowMap, records: map<(Emulator.Addr, Emulator.Sock), Emulator.Rec>,
                          hop: Emulator.Addr, name: FlowHash.FlowKey -> Emulator.Sock) {
    forall k: FlowHash.FlowKey ::
      (k in flows <==> (hop, name(k)) in records)
      && (k in flows ==> records[(hop, name(k))] == Emulator.Rec(flows[k].sequenceNumber, flows[k].acked == 1))
  }

  ghost predicate Injective(name: FlowHash.FlowKey -> Emulator.Sock) {
    forall k: FlowHash.FlowKey, l: FlowHash.FlowKey :: name(k) == name(l) ==> k == l
  }

  type FlowMap = map<FlowHash.FlowKey, FlowHash.FlowVal>

  // A SYN that is new, or newer than its record.
  predicate Spawns(flows: FlowMap, key: FlowHash.FlowKey, action: Word, s: int) {
    action == SYN && !(key in flows && flows[key].sequenceNumber >= s)
  }

  function Dispatched(flows: FlowMap, key: FlowHash.FlowKey, action: Word, s: int): FlowMap {
    if Spawns(flows, key, action, s) then flows[key := FlowHash.FlowVal(s, 0)]
    else if action == ACK && key in flows && flows[key].sequenceNumber == s then flows[key := FlowHash.FlowVal(s, 1)]
    else flows
  }

  // main's dispatch is the transition system's step.
  lemma DispatchIsStep(flows: FlowMap, st: Emulator.State, i: nat, name: FlowHash.FlowKey -> Emulator.Sock,
                       key: FlowHash.FlowKey, action: Word)
    requires Injective(name)
    requires i < |st.net| && st.net[i].dest.Host? && st.net[i].from == name(key)
    requires (st.net[i].body.Syn? && action == SYN) || (st.net[i].body.Ack? && action == ACK)
    requires Matches(flows, st.records, st.net[i].dest.addr, name)
    ensures var st' := Emulator.Apply(st, if action == SYN then Emulator.RecvSyn(i) else Emulator.RecvAck(i));
            && Matches(Dispatched(flows, key, action, st.net[i].s), st'.records, st.net[i].dest.addr, name)
            && (Spawns(flows, key, action, st.net[i].s) <==> |st'.handlers| == |st.handlers| + 1)
  {}

  class Server {
    const flows: FlowHash.FlowRecords
    const servaddr: SockAddr
    var hashport: Word

    ghost predicate Valid()
      reads flows, flows.records, flows.records.buckets, flows.records.order
    {
      flows.Valid()
    }

    constructor (hash: FlowHash.FlowKey -> nat, port: int)
      ensures Valid() && fresh(flows.Repr()) && flows.flows == map[] && hashport == 1025
      ensures servaddr == SockAddr(0, port)
    {
      flows := new FlowHash.FlowRecords(hash);
      servaddr := SockAddr(0, port);
      hashport := 1025;
    }

    function KeyFor(client: SockAddr): FlowHash.FlowKey {
      FlowHash.FlowKey(servaddr.addr, client.addr, servaddr.port, client.port)
    }

    // Clients at different addresses or ports have different flows.
    lemma KeysApart(c: SockAddr, d: SockAddr)
      requires c != d
      ensures KeyFor(c) != KeyFor(d)
    {}

    // main, for one datagram; a new SYN also starts a handler.
    method Dispatch(action: Word, sequenceNum: Word, client: SockAddr) returns (spawn: bool)
      requires Valid()
      modifies flows.Repr()
      ensures Valid() && fresh(flows.Repr() - old(flows.Repr()))
      ensures spawn == Spawns(old(flows.flows), KeyFor(client), action, sequenceNum)
      ensures flows.flows == Dispatched(old(flows.flows), KeyFor(client), action, sequenceNum)
      ensures var m, key := old(flows.flows), KeyFor(client);
              && (spawn <==> action == 1 && (key in m ==> m[key].sequenceNumber < sequenceNum))
              && flows.flows == if spawn then m[key := FlowHash.FlowVal(sequenceNum, 0)]
                                else if action == 3 && key in m && m[key].sequenceNumber == sequenceNum
                                then m[key := FlowHash.FlowVal(sequenceNum, 1)]
                                else m
    {
      hide FlowHash.FlowRecords.Valid;
      var key := KeyFor(client);
      var retv := flows.FindItem(key);
      spawn := false;
      if action == SYN {
        if retv != null && retv.val.sequenceNumber >= sequenceNum {
        } else {
          flows.AddItem(key, sequenceNum);
          spawn := true;
        }
      } else if action == ACK {
        if retv != null && retv.val.sequenceNumber == sequenceNum {
          flows.Update(retv, FlowHash.FlowVal(sequenceNum, 1));
        }
      }
    }

    // sendBack: a fresh hash port, then the answer again and again until the
    // record is acknowledged or the turns are used up.  seen(t) is what the
    // lookup of turn t finds: a record with acked set, or not.
    method SendBack(request: array<Byte>, n: nat, seen: nat -> bool)
        returns (count: nat, acked: bool, sent: seq<seq<Byte>>)
      requires HEADER + 4 <= n <= request.Length
      modifies this`hashport
      ensures hashport == PortAfter(old(hashport), 1)
      ensures Retried(seen, count, acked) && |sent| == (count + 39) / 40 && (!acked ==> |sent| == 25)
      ensures forall j :: 0 <= j < |sent| ==>
                sent[j] == Bytes4(2) + request[4..HEADER] + Bytes4(old(hashport)) + request[HEADER + 4..n]
    {
      hide Bytes4;
      var response := SendBackResponse(request, n, hashport);
      hashport := NextPort(hashport);
      count, acked, sent := Retry(response[..], seen);
    }

    // sendForward once the next hop has answered: relay the answer in the same
    // way; when acknowledged, pass the ACK on.  The ACK buffer is not cleared.
    method SendForward(request: array<Byte>, n: nat, reply: array<Byte>, m: nat, ackMesg: array<Byte>,
                       seen: nat -> bool)
        returns (sendmsg: array<Byte>, next: Word, count: nat, acked: bool, sent: seq<seq<Byte>>)
      requires HEADER + 8 < n <= request.Length && HEADER <= m <= reply.Length && ackMesg.Length == HEADER
      requires ackMesg != request && ackMesg != reply
      modifies ackMesg
      ensures fresh(sendmsg) && sendmsg[..] == Strip(request[..n], SYN) && next == NextHop(request[..n])
      ensures Retried(seen, count, acked) && |sent| == (count + 39) / 40 && (!acked ==> |sent| == 25)
      ensures forall j :: 0 <= j < |sent| ==> sent[j] == reply[..m]
      ensures acked ==> WordAt(ackMesg[..], 0) == ACK && WordAt(ackMesg[..], 4) == WordAt(reply[..], 4)
      ensures !acked ==> ackMesg[..] == old(ackMesg[..])
    {
      hide Bytes4, Strip, WordAt, NextHop;
      sendmsg, next := ForwardMessage(request, n, SYN);
      var sequenceNumber := WordAt(reply[..], 4);
      count, acked, sent := Retry(reply[..m], seen);
      if acked {
        PutWord(ackMesg, 0, ACK);
        assert ackMesg[..][0..4] == Bytes4(ACK);
        assert ackMesg[..4] == Bytes4(ACK);
        PutWord(ackMesg, 4, sequenceNumber);
        assert ackMesg[..8] == Bytes4(ACK) + Bytes4(sequenceNumber);
        assert ackMesg[..][0..4] == ackMesg[..8][..4] == Bytes4(ACK);
        assert ackMesg[..][4..8] == ackMesg[..8][4..] == Bytes4(sequenceNumber);
        WordRoundTrip(ACK, ackMesg[..], 0);
        WordRoundTrip(sequenceNumber, ackMesg[..], 4);
      }
    }
  }

  // hashport++
  function NextPort(p: Word): Word {
    if p == 0x7FFF_FFFF then -0x8000_0000 else p + 1
  }

  function PortAfter(p: Word, k: nat): Word {
    if k == 0 then p else NextPort(PortAfter(p, k - 1))
  }

  lemma {:induction false} PortAfterIs(p: Word, k: nat) returns (laps: nat)
    ensures PortAfter(p, k) == p + k - laps * 0x1_0000_0000
  {
    if k == 0 {
      laps := 0;
    } else {
      laps := PortAfterIs(p, k - 1);
      if PortAfter(p, k - 1) == 0x7FFF_FFFF {
        laps := laps + 1;
      }
    }
  }

  // No two of four billion answers in a row carry the same hash port.
  lemma PortsDiffer(p: Word, i: nat, j: nat)
    requires i < j < i + 0x1_0000_0000
    ensures PortAfter(p, i) != PortAfter(p, j) && Bytes4(PortAfter(p, i)) != Bytes4(PortAfter(p, j))
  {
    hide Bytes4, WordAt;
    var a := PortAfterIs(p, i);
    var b := PortAfterIs(p, j);
    WordRoundTrip(PortAfter(p, i), Bytes4(PortAfter(p, i)), 0);
    WordRoundTrip(PortAfter(p, j), Bytes4(PortAfter(p, j)), 0);
  }

  // The retry loop's variables: turns taken, messages sent, and how it was left.
  datatype Retrying = Retrying(count: nat, sent: nat, over: bool, acked: bool)

  // One turn; acked is what its lookup finds.
  function RetryTurn(l: Retrying, acked: bool): Retrying {
    var c := l.count + 1;
    Retrying(c, l.sent + (if c % Emulator.SEND_PERIOD == 1 then 1 else 0), acked || c >= Emulator.RETRY_LIMIT, acked)
  }

  function RetriedTurns(seen: nat -> bool, n: nat): Retrying {
    if n == 0 then Retrying(0, 0, false, false) else RetryTurn(RetriedTurns(seen, n - 1), seen(n))
  }

  lemma RetriedNext(seen: nat -> bool, n: nat)
    ensures RetriedTurns(seen, 0) == Retrying(0, 0, false, false)
    ensures RetriedTurns(seen, n + 1) == RetryTurn(RetriedTurns(seen, n), seen(n + 1))
  {}

  // The loop left at turn count: the first one whose lookup found the record
  // acknowledged, or else the thousandth.
  ghost predicate Retried(seen: nat -> bool, count: nat, acked: bool) {
    && 1 <= count <= 1000
    && (forall t: nat :: 1 <= t < count ==> !seen(t))
    && acked == seen(count)
    && (!acked ==> count == 1000)
  }

  // The loop both senders share.
  method Retry(msg: seq<Byte>, seen: nat -> bool) returns (count: nat, acked: bool, sent: seq<seq<Byte>>)
    ensures Retried(seen, count, acked)
    ensures RetriedTurns(seen, count) == Retrying(count, |sent|, true, acked)
    ensures |sent| == (count + 39) / 40 <= 25 && (!acked ==> |sent| == 25)
    ensures forall j :: 0 <= j < |sent| ==> sent[j] == msg
  {
    hide RetriedTurns;
    RetriedNext(seen, 0);
    count, acked, sent := 0, false, [];
    while true
      invariant count < Emulator.RETRY_LIMIT && !acked
      invariant forall t: nat :: 1 <= t <= count ==> !seen(t)
      invariant RetriedTurns(seen, count) == Retrying(count, |sent|, false, false)
      invariant |sent| == (count + 39) / 40
      invariant forall j :: 0 <= j < |sent| ==> sent[j] == msg
      decreases Emulator.RETRY_LIMIT - count
    {
      RetriedNext(seen, count);
      count := count + 1;
      if count % 40 == 1 {
        sent := sent + [msg];
      }
      if seen(count) {
        acked := true;
        break;
      }
      if count >= Emulator.RETRY_LIMIT {
        break;
      }
    }
  }

  // A turn of the loop is the handler's send and its lookup, with anything that
  // leaves the handler alone (st to mid) in between.
  lemma TurnIsSteps(st: Emulator.State, mid: Emulator.State, h: nat, l: Retrying, acked: bool)
    requires Emulator.Enabled(st, Emulator.Send(h)) && st.handlers[h].count == l.count
    requires h < |mid.handlers| && mid.handlers[h] == Emulator.Apply(st, Emulator.Send(h)).handlers[h]
    requires var key := (st.handlers[h].hop, st.handlers[h].cli);
             acked == (key in mid.records && mid.records[key].acked)
    ensures var handler, l' := st.handlers[h], RetryTurn(l, acked);
            var answer := handler.phase.m.(dest := Emulator.Socket(handler.cli),
                                           from := Emulator.Listen(handler.hop), pos := handler.pos + 1);
            Emulator.Apply(st, Emulator.Send(h)).net == st.net + (if l'.sent > l.sent then [answer] else [])
    ensures var l' := RetryTurn(l, acked);
            && (l'.sent > l.sent <==> (l.count + 1) % 40 == 1)
            && (l'.over <==> acked || l.count + 1 >= 1000)
    ensures Emulator.Enabled(mid, Emulator.Check(h))
    ensures var handler, l', st' := st.handlers[h], RetryTurn(l, acked), Emulator.Apply(mid, Emulator.Check(h));
            && st'.handlers[h].count == l'.count
            && st'.handlers[h].phase == (if l'.over then Emulator.Done(l'.acked) else handler.phase)
            && st'.net == mid.net + (if acked && handler.Forwards()
                                     then [Emulator.Dgram(Emulator.Host(handler.hops[1]), Emulator.Own(h), Emulator.Ack,
                                                          handler.phase.m.s, handler.phase.m.upd, handler.pos + 1)]
                                     else [])
  {}
}
