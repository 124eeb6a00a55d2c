// However the network duplicates and reorders, one update over k hops makes the
// participants send at most 27 * k datagrams, and each flow accepts a sequence
// number at most once.
module MessageBound {
  import opened Emulator
  import opened EmulatorSafety

  predicate From(d: Dgram, u: nat, p: int) {
    d.upd == u && d.pos == p
  }

  // Datagrams of update u sent from place p.
  function Count(net: seq<Dgram>, u: nat, p: int): nat {
    if net == [] then 0
    else Count(net[..|net| - 1], u, p) + (if From(net[|net| - 1], u, p) then 1 else 0)
  }

  // All datagrams of update u.
  function Sent(net: seq<Dgram>, u: nat): nat {
    if net == [] then 0
    else Sent(net[..|net| - 1], u) + (if net[|net| - 1].upd == u then 1 else 0)
  }

  // What a handler has sent so far: its SYN, a SYN-ACK on turns 1, 41, 81 and so
  // on, and its ACK.
  function Sends(handler: Handler): nat {
    (if handler.Forwards() && handler.s > 0 && !handler.phase.Start? then 1 else 0)
    + (handler.count + SEND_PERIOD - 1) / SEND_PERIOD
    + (if handler.Forwards() && handler.phase == Done(true) then 1 else 0)
  }

  predicate SameKey(first: Handler, second: Handler) {
    first.hop == second.hop && first.cli == second.cli
  }

  // Handlers of one flow were spawned with rising sequence numbers.
  ghost predicate Rising(st: State) {
    forall g, h :: 0 <= g < h < |st.handlers| && SameKey(st.handlers[g], st.handlers[h]) ==>
      st.handlers[g].s < st.handlers[h].s
  }

  ghost predicate CountOk(handler: Handler) {
    match handler.phase
    case Start => handler.count == 0
    case Waiting => handler.count == 0 && handler.s > 0
    case Sending(_) => handler.count < RETRY_LIMIT && handler.s > 0
    case Checking(_) => handler.count <= RETRY_LIMIT && handler.s > 0
    case Done(a) => handler.count <= RETRY_LIMIT && (handler.s <= 0 ==> !a && handler.count == 0)
  }

  ghost predicate CountsOk(st: State) {
    forall h :: 0 <= h < |st.handlers| ==>
      CountOk(st.handlers[h])
      && Count(st.net, st.handlers[h].upd, st.handlers[h].pos + 1) == Sends(st.handlers[h])
  }

  ghost predicate ClientsOk(st: State) {
    forall u :: 0 <= u < |st.clients| ==> Count(st.net, u, 0) == 1 + (if st.clients[u].acked then 1 else 0)
  }

  ghost predicate BoundInv(st: State) {
    Rising(st) && CountsOk(st) && ClientsOk(st)
  }

  lemma CountPut(net: seq<Dgram>, d: Dgram, u: nat, p: int)
    ensures Count(net + [d], u, p) == Count(net, u, p) + (if From(d, u, p) then 1 else 0)
  {
    assert (net + [d])[..|net|] == net;
  }

  lemma {:induction false} CountNone(net: seq<Dgram>, u: nat, p: int)
    requires forall i :: 0 <= i < |net| ==> !From(net[i], u, p)
    ensures Count(net, u, p) == 0
  {
    if net != [] {
      CountNone(net[..|net| - 1], u, p);
    }
  }

  // Two handlers at one place of one update are the same handler.
  lemma {:induction false} OneHandler(st: State, u: nat, p: nat, g: int, h: int)
    requires HandlersOk(st) && Rising(st)
    requires HandlerAt(st, u, p, g) && HandlerAt(st, u, p, h)
    ensures g == h
    decreases p
  {
    hide PhaseOk, Reached, Rising;
    assert Placed(st, st.handlers[g]) && Placed(st, st.handlers[h]);
    if p > 0 {
      OneHandler(st, u, p - 1, st.handlers[g].cli.handler, st.handlers[h].cli.handler);
    }
    SameFlowOnce(st, g, h);
  }

  lemma SameFlowOnce(st: State, g: int, h: int)
    requires Rising(st) && 0 <= g < |st.handlers| && 0 <= h < |st.handlers|
    requires SameKey(st.handlers[g], st.handlers[h]) && st.handlers[g].s == st.handlers[h].s
    ensures g == h
  {}

  // Nobody has sent from a place that has no handler yet.
  lemma SilentPlace(st: State, u: nat, p: nat)
    requires NetOk(st) && !HasHandler(st, u, p)
    ensures Count(st.net, u, p + 1) == 0
  {
    hide NetOk;
    forall i | 0 <= i < |st.net| ensures !From(st.net[i], u, p + 1) {
      SentByHandler(st, i);
    }
    CountNone(st.net, u, p + 1);
  }

  lemma SentByHandler(st: State, i: nat)
    requires NetOk(st) && i < |st.net|
    ensures st.net[i].upd < |st.clients|
    ensures st.net[i].pos > 0 ==> HasHandler(st, st.net[i].upd, st.net[i].pos - 1)
  {
    var d := st.net[i];
    assert Legit(st, d);
    if d.pos > 0 && !d.body.SynAck? {
      assert HandlerAt(st, d.upd, d.pos - 1, d.from.handler);
    }
  }

  // A handler's own step: it may send one datagram, which its count shows.
  lemma HandlerStepCounts(st: State, h: nat, moved: Handler, out: seq<Dgram>)
    requires HandlersOk(st) && BoundInv(st) && h < |st.handlers| && SameUpdate(moved, st.handlers[h])
    requires |out| <= 1 && (out != [] ==> From(out[0], moved.upd, moved.pos + 1))
    requires CountOk(moved) && Sends(moved) == Sends(st.handlers[h]) + |out|
    ensures BoundInv(After(st, h, moved, out))
  {
    hide HandlersOk, Sends, CountOk, Count, Rising, ClientsOk;
    var st' := After(st, h, moved, out);
    RisingAfter(st, h, moved, out);
    forall g | 0 <= g < |st'.handlers|
      ensures CountOk(st'.handlers[g])
      ensures Count(st'.net, st'.handlers[g].upd, st'.handlers[g].pos + 1) == Sends(st'.handlers[g])
    {
      CountAfter(st, h, moved, out, g);
    }
    ClientsAfter(st, h, moved, out);
  }

  lemma CountAfter(st: State, h: nat, moved: Handler, out: seq<Dgram>, g: nat)
    requires HandlersOk(st) && Rising(st) && h < |st.handlers| && g < |st.handlers| && SameUpdate(moved, st.handlers[h])
    requires |out| <= 1 && (out != [] ==> From(out[0], moved.upd, moved.pos + 1))
    ensures var other := st.handlers[g];
            Count(st.net + out, other.upd, other.pos + 1)
            == Count(st.net, other.upd, other.pos + 1) + (if g == h then |out| else 0)
  {
    hide HandlersOk, Count, Rising;
    var other := st.handlers[g];
    if out == [] {
      assert st.net + out == st.net;
    } else {
      CountPut(st.net, out[0], other.upd, other.pos + 1);
      assert out == [out[0]];
      if From(out[0], other.upd, other.pos + 1) {
        assert HandlerAt(st, other.upd, other.pos, g) && HandlerAt(st, other.upd, other.pos, h);
        OneHandler(st, other.upd, other.pos, g, h);
      }
    }
  }

  lemma RisingAfter(st: State, h: nat, moved: Handler, out: seq<Dgram>)
    requires Rising(st) && h < |st.handlers| && SameUpdate(moved, st.handlers[h])
    ensures Rising(After(st, h, moved, out))
  {}

  lemma ClientsAfter(st: State, h: nat, moved: Handler, out: seq<Dgram>)
    requires ClientsOk(st) && h < |st.handlers|
    requires |out| <= 1 && (out != [] ==> out[0].pos > 0)
    ensures ClientsOk(After(st, h, moved, out))
  {
    var st' := After(st, h, moved, out);
    forall u | 0 <= u < |st.clients| ensures Count(st'.net, u, 0) == 1 + (if st.clients[u].acked then 1 else 0) {
      if out == [] {
        assert st'.net == st.net;
      } else {
        CountPut(st.net, out[0], u, 0);
        assert st'.net == st.net + [out[0]];
      }
    }
  }

  lemma BeginCounts(st: State, h: nat)
    requires Inv(st) && BoundInv(st) && Enabled(st, Begin(h))
    ensures BoundInv(Apply(st, Begin(h)))
  {
    hide HandlersOk, NetOk, Rising, ClientsOk, Count;
    var handler := st.handlers[h];
    assert CountOk(handler);
    assert st.net + [] == st.net;
    hide CountsOk;
    if handler.s <= 0 {
      HandlerStepCounts(st, h, handler.(phase := Done(false)), []);
    } else if handler.Forwards() {
      var d := Dgram(Host(handler.hops[1]), Own(h), Syn(handler.hops[1..]), handler.s, handler.upd, handler.pos + 1);
      HandlerStepCounts(st, h, handler.(phase := Waiting), [d]);
    } else {
      HandlerStepCounts(st, h, handler.(phase := Sending(Response(handler))), []);
    }
  }

  lemma ReceiveCounts(st: State, h: nat, i: nat)
    requires Inv(st) && BoundInv(st) && Enabled(st, Receive(h, i))
    ensures BoundInv(Apply(st, Receive(h, i)))
  {
    hide HandlersOk, NetOk, Rising, ClientsOk, Count;
    var handler := st.handlers[h];
    assert CountOk(handler);
    assert st.net + [] == st.net;
    HandlerStepCounts(st, h, handler.(phase := Sending(st.net[i])), []);
  }

  lemma SendCounts(st: State, h: nat)
    requires Inv(st) && BoundInv(st) && Enabled(st, Send(h))
    ensures BoundInv(Apply(st, Send(h)))
  {
    hide NetOk, Rising, ClientsOk, Count, Placed, Reached;
    var handler := st.handlers[h];
    var m := handler.phase.m;
    assert CountOk(handler) && PhaseOk(st, handler);
    assert st.net + [] == st.net;
    var d := m.(dest := Socket(handler.cli), from := Listen(handler.hop), pos := handler.pos + 1);
    var moved := handler.(phase := Checking(m), count := handler.count + 1);
    hide HandlersOk, CountsOk;
    if (handler.count + 1) % SEND_PERIOD == 1 {
      HandlerStepCounts(st, h, moved, [d]);
    } else {
      HandlerStepCounts(st, h, moved, []);
    }
  }

  lemma CheckCounts(st: State, h: nat)
    requires Inv(st) && BoundInv(st) && Enabled(st, Check(h))
    ensures BoundInv(Apply(st, Check(h)))
  {
    hide NetOk, Rising, ClientsOk, Count, Placed, Reached;
    var handler := st.handlers[h];
    var m := handler.phase.m;
    assert CountOk(handler) && PhaseOk(st, handler);
    assert st.net + [] == st.net;
    hide HandlersOk, CountsOk;
    var key := (handler.hop, handler.cli);
    if key in st.records && st.records[key].acked {
      if handler.Forwards() {
        HandlerStepCounts(st, h, handler.(phase := Done(true)),
                          [Dgram(Host(handler.hops[1]), Own(h), Ack, m.s, m.upd, handler.pos + 1)]);
      } else {
        HandlerStepCounts(st, h, handler.(phase := Done(true)), []);
      }
    } else if handler.count >= RETRY_LIMIT {
      HandlerStepCounts(st, h, handler.(phase := Done(false)), []);
    } else {
      HandlerStepCounts(st, h, handler.(phase := Sending(m)), []);
    }
  }

  // main's test keeps numbers rising: the record is never older than a handler.
  lemma SpawnRises(st: State, d: Dgram)
    requires HandlersOk(st) && Rising(st) && d.dest.Host? && d.body.Syn?
    requires Fresh(st.records, (d.dest.addr, d.from), d.s)
    ensures Rising(Spawn(st, d))
  {
    hide PhaseOk, Reached, Speaks;
    forall g | 0 <= g < |st.handlers| && st.handlers[g].hop == d.dest.addr && st.handlers[g].cli == d.from
      ensures st.handlers[g].s < d.s
    {
      assert Placed(st, st.handlers[g]);
    }
  }

  lemma SpawnCounts(st: State, i: nat)
    requires Inv(st) && BoundInv(st) && Enabled(st, RecvSyn(i))
    ensures BoundInv(Apply(st, RecvSyn(i)))
  {
    hide Inv, Count, Rising;
    var d := st.net[i];
    if Fresh(st.records, (d.dest.addr, d.from), d.s) {
      var st' := Spawn(st, d);
      SpawnAlone(st, i);
    }
  }

  lemma SpawnAlone(st: State, i: nat)
    requires Inv(st) && BoundInv(st) && Enabled(st, RecvSyn(i))
    requires var d := st.net[i]; Fresh(st.records, (d.dest.addr, d.from), d.s)
    ensures Rising(Spawn(st, st.net[i]))
    ensures Count(st.net, st.net[i].upd, st.net[i].pos + 1) == 0
  {
    hide Count, CountsOk, ClientsOk, NetOk, HandlersOk, Rising;
    SpawnRises(st, st.net[i]);
    RecvSynKeeps(st, i);
    SpawnSilent(st, st.net[i]);
  }

  // The new handler's place was empty, so nothing was sent from it.
  lemma SpawnSilent(st: State, d: Dgram)
    requires NetOk(st) && d.dest.Host? && d.body.Syn? && HandlersOk(Spawn(st, d)) && Rising(Spawn(st, d))
    ensures Count(st.net, d.upd, d.pos + 1) == 0
  {
    hide Count, NetOk, HandlersOk, Rising;
    var st' := Spawn(st, d);
    if HasHandler(st, d.upd, d.pos) {
      var g :| HandlerAt(st, d.upd, d.pos, g);
      assert HandlerAt(st', d.upd, d.pos, g) && HandlerAt(st', d.upd, d.pos, |st.handlers|);
      OneHandler(st', d.upd, d.pos, g, |st.handlers|);
    }
    SilentPlace(st, d.upd, d.pos);
  }

  // A datagram from a client adds nothing to any hop's count.
  lemma ClientPut(st: State, d: Dgram)
    requires CountsOk(st) && d.pos == 0
    ensures CountsOk(Put(st, d))
  {
    hide Sends, CountOk, Count;
    var st' := Put(st, d);
    forall h | 0 <= h < |st.handlers|
      ensures CountOk(st.handlers[h])
      ensures Count(st'.net, st.handlers[h].upd, st.handlers[h].pos + 1) == Sends(st.handlers[h])
    {
      CountPut(st.net, d, st.handlers[h].upd, st.handlers[h].pos + 1);
    }
  }

  lemma ClientSynCounts(st: State, port: nat, s: int, list: seq<Addr>)
    requires Inv(st) && BoundInv(st) && list != []
    ensures BoundInv(Apply(st, ClientSyn(port, s, list)))
  {
    var d := Dgram(Host(list[0]), Port(port), Syn(list), s, |st.clients|, 0);
    ClientPut(st, d);
    NewClientSilent(st);
    NewClientCounts(st, Client(port, s, list, false), d);
    hide CountsOk, ClientsOk, Inv;
    var st' := Apply(st, ClientSyn(port, s, list));
    SameHandlersCount(Put(st, d), st');
  }

  lemma SameHandlersCount(st: State, st': State)
    requires CountsOk(st) && st'.handlers == st.handlers && st'.net == st.net
    ensures CountsOk(st')
  {}

  lemma NewClientCounts(st: State, c: Client, d: Dgram)
    requires ClientsOk(st) && !c.acked && d.upd == |st.clients| && d.pos == 0 && Count(st.net, |st.clients|, 0) == 0
    ensures ClientsOk(Put(st.(clients := st.clients + [c]), d))
  {
    hide Count;
    forall u | 0 <= u <= |st.clients|
      ensures Count(st.net + [d], u, 0) == Count(st.net, u, 0) + (if u == |st.clients| then 1 else 0)
    {
      CountPut(st.net, d, u, 0);
    }
  }

  lemma ClientAckCounts(st: State, u: nat, i: nat)
    requires BoundInv(st) && Enabled(st, ClientAck(u, i))
    ensures BoundInv(Apply(st, ClientAck(u, i)))
  {
    var st' := Apply(st, ClientAck(u, i));
    var d := st'.net[|st.net|];
    hide Count, CountOk, Sends;
    ClientPut(st, d);
    forall v | 0 <= v < |st'.clients| ensures Count(st'.net, v, 0) == 1 + (if st'.clients[v].acked then 1 else 0) {
      CountPut(st.net, d, v, 0);
    }
  }

  lemma NewClientSilent(st: State)
    requires NetOk(st)
    ensures Count(st.net, |st.clients|, 0) == 0
  {
    hide NetOk;
    forall i | 0 <= i < |st.net| ensures !From(st.net[i], |st.clients|, 0) {
      SentByHandler(st, i);
    }
    CountNone(st.net, |st.clients|, 0);
  }

  lemma StepKeepsBound(st: State, step: Step)
    requires Inv(st) && BoundInv(st) && Enabled(st, step)
    ensures BoundInv(Apply(st, step))
  {
    match step
    case RecvAck(i) => hide HandlersOk, NetOk, Count;
    case Begin(h) => hide *; BeginCounts(st, h);
    case Receive(h, i) => hide *; ReceiveCounts(st, h, i);
    case Send(h) => hide *; SendCounts(st, h);
    case Check(h) => hide *; CheckCounts(st, h);
    case RecvSyn(i) => hide *; SpawnCounts(st, i);
    case ClientSyn(port, s, list) => hide *; ClientSynCounts(st, port, s, list);
    case ClientAck(u, i) => hide *; ClientAckCounts(st, u, i);
  }

  lemma {:induction false} RunKeepsBound(run: seq<State>)
    requires IsRun(run)
    ensures BoundInv(Last(run))
  {
    hide Apply, Enabled, Inv, Rising, CountsOk, ClientsOk;
    if |run| == 1 {
      InitBound();
    } else {
      RunKeepsBound(run[..|run| - 1]);
      RunKeepsInv(run[..|run| - 1]);
      var st := run[|run| - 2];
      assert Next(st, run[|run| - 1]);
      var step :| Enabled(st, step) && Last(run) == Apply(st, step);
      StepKeepsBound(st, step);
    }
  }

  lemma InitBound()
    ensures BoundInv(Init())
  {}

  // Sum of Count over the places below p.
  function CountBelow(net: seq<Dgram>, u: nat, p: nat): nat {
    if p == 0 then 0 else CountBelow(net, u, p - 1) + Count(net, u, p - 1)
  }

  lemma {:induction false} SentIsSum(net: seq<Dgram>, u: nat, p: nat)
    requires forall i :: 0 <= i < |net| && net[i].upd == u ==> net[i].pos < p
    ensures Sent(net, u) == CountBelow(net, u, p)
  {
    if net == [] {
      SumOfNone(u, p);
    } else {
      var d := net[|net| - 1];
      SentIsSum(net[..|net| - 1], u, p);
      SumPut(net, u, p);
    }
  }

  lemma {:induction false} SumOfNone(u: nat, p: nat)
    ensures CountBelow([], u, p) == 0
  {
    if p > 0 {
      SumOfNone(u, p - 1);
    }
  }

  lemma {:induction false} SumPut(net: seq<Dgram>, u: nat, p: nat)
    requires net != []
    ensures CountBelow(net, u, p) == CountBelow(net[..|net| - 1], u, p)
                                     + (if net[|net| - 1].upd == u && net[|net| - 1].pos < p then 1 else 0)
  {
    if p > 0 {
      SumPut(net, u, p - 1);
    }
  }

  lemma SendsBound(handler: Handler)
    requires CountOk(handler)
    ensures Sends(handler) <= if handler.Forwards() then 27 else 25
  {}

  lemma PlaceBound(st: State, u: nat, p: nat)
    requires Inv(st) && BoundInv(st) && u < |st.clients| && p < |st.clients[u].list|
    ensures Count(st.net, u, p + 1) <= if p + 1 < |st.clients[u].list| then 27 else 25
  {
    hide Count, Sends, CountOk, Rising, PhaseOk, Reached, Speaks;
    if HasHandler(st, u, p) {
      var h :| HandlerAt(st, u, p, h);
      assert Placed(st, st.handlers[h]);
      SendsBound(st.handlers[h]);
    } else {
      SilentPlace(st, u, p);
    }
  }

  lemma {:induction false} BelowBound(st: State, u: nat, p: nat)
    requires Inv(st) && BoundInv(st) && u < |st.clients| && 0 < p <= |st.clients[u].list|
    ensures CountBelow(st.net, u, p) <= 2 + 27 * (p - 1)
  {
    hide Inv, Count, Rising, CountsOk;
    if p == 1 {
      assert CountBelow(st.net, u, 0) == 0;
    } else {
      BelowBound(st, u, p - 1);
      PlaceBound(st, u, p - 2);
    }
  }

  lemma PlacesFit(st: State, u: nat, i: nat)
    requires NetOk(st) && i < |st.net| && st.net[i].upd == u
    ensures u < |st.clients| && st.net[i].pos <= |st.clients[u].list|
  {
    assert Legit(st, st.net[i]);
  }

  lemma {:induction false} ListsNotEmpty(run: seq<State>)
    requires IsRun(run)
    ensures forall u :: 0 <= u < |Last(run).clients| ==> Last(run).clients[u].list != []
  {
    hide Apply, Enabled;
    if |run| == 1 {
    } else {
      ListsNotEmpty(run[..|run| - 1]);
      var st := run[|run| - 2];
      assert Last(run[..|run| - 1]) == st;
      assert Next(st, run[|run| - 1]);
      var step :| Enabled(st, step) && Last(run) == Apply(st, step);
      StepKeepsLists(st, step);
    }
  }

  lemma StepKeepsLists(st: State, step: Step)
    requires Enabled(st, step)
    ensures forall u :: 0 <= u < |Apply(st, step).clients| ==>
              (u < |st.clients| && Apply(st, step).clients[u].list == st.clients[u].list)
              || Apply(st, step).clients[u].list != []
  {}

  // The bound: 2 datagrams from the client, 27 from every forwarding hop and 25
  // from the last one.
  lemma UpdateIsBounded(run: seq<State>, u: nat)
    requires IsRun(run) && u < |Last(run).clients|
    ensures Sent(Last(run).net, u) <= 27 * |Last(run).clients[u].list|
  {
    hide Sent, Count, CountBelow, NetOk, HandlersOk, Rising, CountsOk, ClientsOk;
    RunKeepsInv(run);
    RunKeepsBound(run);
    ListsNotEmpty(run);
    var st := Last(run);
    var k := |st.clients[u].list|;
    forall i | 0 <= i < |st.net| && st.net[i].upd == u ensures st.net[i].pos < k + 1 {
      PlacesFit(st, u, i);
    }
    SentIsSum(st.net, u, k + 1);
    BelowBound(st, u, k);
    PlaceBound(st, u, k - 1);
    BelowNext(st.net, u, k);
  }

  lemma BelowNext(net: seq<Dgram>, u: nat, k: nat)
    ensures CountBelow(net, u, k + 1) == CountBelow(net, u, k) + Count(net, u, k)
  {}

  // One handler per accepted (flow, number), and per flow the numbers rise in
  // the order of acceptance.
  lemma AcceptedOnce(run: seq<State>, g: nat, h: nat)
    requires IsRun(run) && g < h < |Last(run).handlers|
    requires SameKey(Last(run).handlers[g], Last(run).handlers[h])
    ensures Last(run).handlers[g].s < Last(run).handlers[h].s
  {
    RunKeepsBound(run);
  }
}
