// What every run of the emulator protocol keeps: SYN-ACKs vouch for the hops
// ahead, and acknowledgement advances along the hop list as a prefix.
module EmulatorSafety {
  import opened Emulator

  // g is update u's handler at place j of its hop list.
  ghost predicate HandlerAt(st: State, u: nat, j: int, g: int) {
    0 <= g < |st.handlers| && st.handlers[g].upd == u && st.handlers[g].pos == j
  }

  ghost predicate HasHandler(st: State, u: nat, j: int) {
    exists g :: HandlerAt(st, u, j, g)
  }

  // Update u has a handler at every place up to, not including, n.
  ghost predicate Reached(st: State, u: nat, n: nat) {
    forall j :: 0 <= j < n ==> HasHandler(st, u, j)
  }

  // x is the socket that update u uses to talk to the hop at place p.
  ghost predicate Speaks(st: State, u: nat, p: nat, x: Sock)
    requires u < |st.clients|
  {
    if p == 0 then x == Port(st.clients[u].port)
    else x.Own? && HandlerAt(st, u, p - 1, x.handler)
  }

  ghost predicate Legit(st: State, d: Dgram) {
    && d.upd < |st.clients|
    && var c := st.clients[d.upd];
    && d.s == c.s
    && d.pos <= |c.list|
    && match d.body
       case Syn(hops) =>
         d.pos < |c.list| && d.dest == Host(c.list[d.pos]) && hops == c.list[d.pos..]
         && Speaks(st, d.upd, d.pos, d.from)
       case Ack =>
         d.pos < |c.list| && d.dest == Host(c.list[d.pos]) && Speaks(st, d.upd, d.pos, d.from)
         && (d.pos > 0 ==> Reached(st, d.upd, |c.list|))
       case SynAck =>
         d.s > 0 && d.pos > 0 && d.dest.Socket? && Speaks(st, d.upd, d.pos - 1, d.dest.sock)
         && Reached(st, d.upd, |c.list|)
  }

  // What a handler knows about its update and its hop's record.
  ghost predicate Placed(st: State, handler: Handler) {
    && handler.upd < |st.clients|
    && var c := st.clients[handler.upd];
    && handler.pos < |c.list| && handler.s == c.s
    && handler.hop == c.list[handler.pos] && handler.hops == c.list[handler.pos..]
    && Speaks(st, handler.upd, handler.pos, handler.cli)
    && Reached(st, handler.upd, handler.pos + 1)
    && (handler.hop, handler.cli) in st.records && st.records[(handler.hop, handler.cli)].s >= handler.s
  }

  ghost predicate PhaseOk(st: State, handler: Handler) {
    match handler.phase
    case Sending(m) => Relays(st, handler, m)
    case Checking(m) => Relays(st, handler, m)
    case Waiting => handler.Forwards()
    case _ => true
  }

  ghost predicate Relays(st: State, handler: Handler, m: Dgram) {
    && m.upd == handler.upd < |st.clients| && m.s == handler.s > 0 && m.body == SynAck
    && Reached(st, handler.upd, |st.clients[handler.upd].list|)
  }

  ghost predicate NetOk(st: State) {
    forall i :: 0 <= i < |st.net| ==> Legit(st, st.net[i])
  }

  ghost predicate HandlersOk(st: State) {
    forall h :: 0 <= h < |st.handlers| ==> Placed(st, st.handlers[h]) && PhaseOk(st, st.handlers[h])
  }

  // A later state: nothing recorded is lost, and histories grow.
  ghost predicate Extends(st: State, st': State) {
    && |st.clients| <= |st'.clients|
    && (forall u :: 0 <= u < |st.clients| ==> st'.clients[u].(acked := true) == st.clients[u].(acked := true))
    && |st.handlers| <= |st'.handlers|
    && (forall h :: 0 <= h < |st.handlers| ==>
          st'.handlers[h].(phase := Start, count := 0) == st.handlers[h].(phase := Start, count := 0))
    && (forall k :: k in st.records ==> k in st'.records && st'.records[k].s >= st.records[k].s)
    && st.net <= st'.net
    && st.acks <= st'.acks
  }

  lemma ReachedMono(st: State, st': State, u: nat, n: nat)
    requires Extends(st, st') && Reached(st, u, n)
    ensures Reached(st', u, n)
  {
    forall j | 0 <= j < n ensures HasHandler(st', u, j) {
      assert HasHandler(st, u, j);
      var g :| HandlerAt(st, u, j, g);
      assert st'.handlers[g].(phase := Start, count := 0) == st.handlers[g].(phase := Start, count := 0);
      assert HandlerAt(st', u, j, g);
    }
  }

  lemma SpeaksMono(st: State, st': State, u: nat, p: nat, x: Sock)
    requires Extends(st, st') && u < |st.clients| && Speaks(st, u, p, x)
    ensures Speaks(st', u, p, x)
  {
    assert st'.clients[u].(acked := true) == st.clients[u].(acked := true);
    if p > 0 {
      var g := x.handler;
      assert st'.handlers[g].(phase := Start, count := 0) == st.handlers[g].(phase := Start, count := 0);
    }
  }

  lemma LegitMono(st: State, st': State, d: Dgram)
    requires Extends(st, st') && Legit(st, d)
    ensures Legit(st', d)
  {
    hide Reached, Speaks;
    assert st'.clients[d.upd].(acked := true) == st.clients[d.upd].(acked := true);
    match d.body
    case Syn(hops) => SpeaksMono(st, st', d.upd, d.pos, d.from);
    case Ack =>
      SpeaksMono(st, st', d.upd, d.pos, d.from);
      if d.pos > 0 {
        ReachedMono(st, st', d.upd, |st.clients[d.upd].list|);
      }
    case SynAck =>
      SpeaksMono(st, st', d.upd, d.pos - 1, d.dest.sock);
      ReachedMono(st, st', d.upd, |st.clients[d.upd].list|);
  }

  lemma PlacedMono(st: State, st': State, handler: Handler)
    requires Extends(st, st') && Placed(st, handler)
    ensures Placed(st', handler)
  {
    hide Reached, Speaks;
    assert st'.clients[handler.upd].(acked := true) == st.clients[handler.upd].(acked := true);
    SpeaksMono(st, st', handler.upd, handler.pos, handler.cli);
    ReachedMono(st, st', handler.upd, handler.pos + 1);
  }

  lemma PhaseMono(st: State, st': State, handler: Handler)
    requires Extends(st, st') && PhaseOk(st, handler)
    ensures PhaseOk(st', handler)
  {
    hide Reached;
    if handler.phase.Sending? || handler.phase.Checking? {
      assert st'.clients[handler.upd].(acked := true) == st.clients[handler.upd].(acked := true);
      ReachedMono(st, st', handler.upd, |st.clients[handler.upd].list|);
    }
  }

  ghost predicate Inv(st: State) {
    NetOk(st) && HandlersOk(st)
  }

  // Handler h has moved, and out is sent.
  ghost function After(st: State, h: nat, moved: Handler, out: seq<Dgram>): State
    requires h < |st.handlers|
  {
    st.(handlers := st.handlers[h := moved], net := st.net + out)
  }

  ghost predicate SameUpdate(first: Handler, second: Handler) {
    first.(phase := Start, count := 0) == second.(phase := Start, count := 0)
  }

  lemma AfterExtends(st: State, h: nat, moved: Handler, out: seq<Dgram>)
    requires h < |st.handlers| && SameUpdate(moved, st.handlers[h])
    ensures Extends(st, After(st, h, moved, out))
  {}

  lemma ClientExtends(st: State, step: Step)
    requires Enabled(st, step) && (step.ClientSyn? || step.ClientAck? || step.RecvSyn? || step.RecvAck?)
    ensures Extends(st, Apply(st, step))
  {}

  lemma HandlerExtends(st: State, step: Step)
    requires Enabled(st, step) && (step.Begin? || step.Receive? || step.Send?)
    ensures Extends(st, Apply(st, step))
  {}

  lemma CheckExtends(st: State, h: nat)
    requires Enabled(st, Check(h))
    ensures Extends(st, Apply(st, Check(h)))
  {}

  lemma ApplyExtends(st: State, step: Step)
    requires Enabled(st, step)
    ensures Extends(st, Apply(st, step))
  {
    hide *;
    if step.Check? {
      CheckExtends(st, step.h);
    } else if step.Begin? || step.Receive? || step.Send? {
      HandlerExtends(st, step);
    } else {
      ClientExtends(st, step);
    }
  }

  // Everything that was there stays fine; what is new has to be shown.
  lemma InvByCases(st: State, st': State)
    requires Inv(st) && Extends(st, st')
    requires forall i :: |st.net| <= i < |st'.net| ==> Legit(st', st'.net[i])
    requires forall h :: 0 <= h < |st'.handlers| && (h >= |st.handlers| || st'.handlers[h] != st.handlers[h]) ==>
      Placed(st', st'.handlers[h]) && PhaseOk(st', st'.handlers[h])
    ensures Inv(st')
  {
    hide Legit, Placed, PhaseOk;
    forall i | 0 <= i < |st'.net| ensures Legit(st', st'.net[i]) {
      if i < |st.net| {
        assert st'.net[i] == st.net[i];
        LegitMono(st, st', st.net[i]);
      }
    }
    forall h | 0 <= h < |st'.handlers| ensures Placed(st', st'.handlers[h]) && PhaseOk(st', st'.handlers[h]) {
      if h < |st.handlers| && st'.handlers[h] == st.handlers[h] {
        PlacedMono(st, st', st.handlers[h]);
        PhaseMono(st, st', st.handlers[h]);
      }
    }
  }

  lemma PlacedStatic(st: State, handler: Handler, moved: Handler)
    requires Placed(st, handler) && SameUpdate(moved, handler)
    ensures Placed(st, moved)
  {}

  // The obligations of a handler's own step.
  lemma HandlerStepKeeps(st: State, h: nat, moved: Handler, out: seq<Dgram>)
    requires Inv(st) && h < |st.handlers| && SameUpdate(moved, st.handlers[h])
    requires PhaseOk(After(st, h, moved, out), moved)
    requires |out| <= 1 && (out != [] ==> Legit(After(st, h, moved, out), out[0]))
    ensures Inv(After(st, h, moved, out))
  {
    hide Placed, PhaseOk, Legit, Extends, SameUpdate;
    var st' := After(st, h, moved, out);
    AfterExtends(st, h, moved, out);
    PlacedMono(st, st', st.handlers[h]);
    PlacedStatic(st', st.handlers[h], moved);
    InvByCases(st, st');
  }

  // A forwarding handler's messages to the next hop, sent on its own socket.
  lemma ForwardLegit(st: State, h: nat, d: Dgram)
    requires h < |st.handlers| && Placed(st, st.handlers[h]) && st.handlers[h].Forwards()
    requires var handler := st.handlers[h];
             && d.dest == Host(handler.hops[1]) && d.from == Own(h)
             && d.s == handler.s && d.upd == handler.upd && d.pos == handler.pos + 1
             && (d.body == Syn(handler.hops[1..])
                 || (d.body == Ack && Reached(st, handler.upd, |st.clients[handler.upd].list|)))
    ensures Legit(st, d)
  {
    hide Reached;
    var handler := st.handlers[h];
    var list := st.clients[handler.upd].list;
    assert handler.hops[1..] == list[handler.pos + 1..];
    assert HandlerAt(st, handler.upd, handler.pos, h);
  }

  lemma ReachedNext(st: State, u: nat, n: nat, g: nat)
    requires Reached(st, u, n) && HandlerAt(st, u, n, g)
    ensures Reached(st, u, n + 1)
  {
    hide HandlerAt;
    assert HasHandler(st, u, n);
  }

  lemma ClientSynKeeps(st: State, port: nat, s: int, list: seq<Addr>)
    requires Inv(st) && list != []
    ensures Inv(Apply(st, ClientSyn(port, s, list)))
  {
    hide Placed, PhaseOk, NetOk, HandlersOk;
    var st' := Apply(st, ClientSyn(port, s, list));
    assert Extends(st, st');
    assert list[0..] == list;
    assert Legit(st', st'.net[|st.net|]);
    InvByCases(st, st');
  }

  lemma ClientAckKeeps(st: State, u: nat, i: nat)
    requires Inv(st) && Enabled(st, ClientAck(u, i))
    ensures Inv(Apply(st, ClientAck(u, i)))
  {
    hide Placed, PhaseOk, NetOk, HandlersOk;
    var st' := Apply(st, ClientAck(u, i));
    assert Extends(st, st');
    assert Legit(st', st'.net[|st.net|]);
    InvByCases(st, st');
  }

  lemma RecvSynKeeps(st: State, i: nat)
    requires Inv(st) && Enabled(st, RecvSyn(i))
    ensures Inv(Apply(st, RecvSyn(i)))
  {
    hide PhaseOk, HandlersOk, Speaks, Reached, Placed;
    var d := st.net[i];
    assert Legit(st, d);
    if Fresh(st.records, (d.dest.addr, d.from), d.s) {
      var st' := Spawn(st, d);
      SpawnExtends(st, d);
      SpawnPlaced(st, st', d);
      hide Legit, Extends;
      InvByCases(st, st');
    }
  }

  lemma SpawnExtends(st: State, d: Dgram)
    requires d.dest.Host? && d.body.Syn? && Fresh(st.records, (d.dest.addr, d.from), d.s)
    ensures Extends(st, Spawn(st, d))
  {}

  lemma SpawnPlaced(st: State, st': State, d: Dgram)
    requires Inv(st) && Legit(st, d) && d.dest.Host? && d.body.Syn? && st' == Spawn(st, d) && Extends(st, st')
    ensures Placed(st', st'.handlers[|st.handlers|]) && PhaseOk(st', st'.handlers[|st.handlers|])
  {
    hide NetOk, Reached, HandlersOk, Speaks;
    SpeaksMono(st, st', d.upd, d.pos, d.from);
    SpawnReached(st, st', d);
    hide Extends;
  }

  // The hops before the new handler's are all there.
  lemma SpawnReached(st: State, st': State, d: Dgram)
    requires HandlersOk(st) && Legit(st, d) && d.body.Syn? && st' == Spawn(st, d) && Extends(st, st')
    ensures Reached(st', d.upd, d.pos + 1)
  {
    hide Reached, HandlersOk, Extends;
    if d.pos > 0 {
      SenderReached(st, d.from.handler);
      ReachedMono(st, st', d.upd, d.pos);
    } else {
      ReachedZero(st', d.upd);
    }
    assert HandlerAt(st', d.upd, d.pos, |st.handlers|);
    ReachedNext(st', d.upd, d.pos, |st.handlers|);
  }

  lemma SenderReached(st: State, g: nat)
    requires HandlersOk(st) && g < |st.handlers|
    ensures Reached(st, st.handlers[g].upd, st.handlers[g].pos + 1)
  {
    hide Reached, PhaseOk;
    assert Placed(st, st.handlers[g]);
  }

  lemma ReachedZero(st: State, u: nat)
    ensures Reached(st, u, 0)
  {}

  lemma BeginKeeps(st: State, h: nat)
    requires Inv(st) && Enabled(st, Begin(h))
    ensures Inv(Apply(st, Begin(h)))
  {
    var handler := st.handlers[h];
    if handler.s <= 0 {
      hide NetOk, Reached, Legit, Extends, Placed, HandlersOk;
      HandlerStepKeeps(st, h, handler.(phase := Done(false)), []);
      assert st.net + [] == st.net;
    } else if handler.Forwards() {
      hide *;
      BeginForwardKeeps(st, h);
    } else {
      hide *;
      BeginBackKeeps(st, h);
    }
  }

  // The last hop starts answering: every hop of the list has its handler.
  lemma BeginBackKeeps(st: State, h: nat)
    requires Inv(st) && Enabled(st, Begin(h)) && st.handlers[h].s > 0 && !st.handlers[h].Forwards()
    ensures Inv(Apply(st, Begin(h)))
  {
    hide NetOk, Reached, Legit, Extends, Placed, HandlersOk;
    var handler := st.handlers[h];
    var moved := handler.(phase := Sending(Response(handler)));
    LastHop(st, h);
    AfterExtends(st, h, moved, []);
    RelaysMono(st, After(st, h, moved, []), handler, Response(handler));
    RelaysStatic(After(st, h, moved, []), handler, moved, Response(handler));
    HandlerStepKeeps(st, h, moved, []);
    assert st.net + [] == st.net;
  }

  lemma LastHop(st: State, h: nat)
    requires HandlersOk(st) && h < |st.handlers| && st.handlers[h].s > 0 && !st.handlers[h].Forwards()
    ensures Relays(st, st.handlers[h], Response(st.handlers[h]))
  {
    hide Reached;
    assert Placed(st, st.handlers[h]);
  }

  lemma BeginForwardKeeps(st: State, h: nat)
    requires Inv(st) && Enabled(st, Begin(h)) && st.handlers[h].s > 0 && st.handlers[h].Forwards()
    ensures Inv(Apply(st, Begin(h)))
  {
    hide NetOk, Reached, Legit, Extends, Placed;
    var handler := st.handlers[h];
    var moved := handler.(phase := Waiting);
    var d := Dgram(Host(handler.hops[1]), Own(h), Syn(handler.hops[1..]), handler.s, handler.upd, handler.pos + 1);
    AfterPlaced(st, h, moved, [d]);
    ForwardLegit(After(st, h, moved, [d]), h, d);
    HandlerStepKeeps(st, h, moved, [d]);
  }

  lemma AfterPlaced(st: State, h: nat, moved: Handler, out: seq<Dgram>)
    requires HandlersOk(st) && h < |st.handlers| && SameUpdate(moved, st.handlers[h])
    ensures Extends(st, After(st, h, moved, out))
    ensures Placed(After(st, h, moved, out), moved)
  {
    hide Placed, PhaseOk, Extends, SameUpdate;
    AfterExtends(st, h, moved, out);
    PlacedMono(st, After(st, h, moved, out), st.handlers[h]);
    PlacedStatic(After(st, h, moved, out), st.handlers[h], moved);
  }

  lemma ReceiveKeeps(st: State, h: nat, i: nat)
    requires Inv(st) && Enabled(st, Receive(h, i))
    ensures Inv(Apply(st, Receive(h, i)))
  {
    hide Reached, Extends;
    var handler, m := st.handlers[h], st.net[i];
    assert Legit(st, m);
    assert Placed(st, handler);
    var moved := handler.(phase := Sending(m));
    assert m.body == SynAck;
    AfterExtends(st, h, moved, []);
    ReachedMono(st, After(st, h, moved, []), handler.upd, |st.clients[handler.upd].list|);
    HandlerStepKeeps(st, h, moved, []);
    assert st.net + [] == st.net;
  }

  // The response a handler sends or relays to the hop before it.
  lemma ResponseLegit(st: State, handler: Handler, m: Dgram)
    requires Placed(st, handler) && Relays(st, handler, m)
    ensures Legit(st, m.(dest := Socket(handler.cli), from := Listen(handler.hop), pos := handler.pos + 1))
  {
    hide Reached;
  }

  lemma SendKeeps(st: State, h: nat)
    requires Inv(st) && Enabled(st, Send(h))
    ensures Inv(Apply(st, Send(h)))
  {
    hide Reached, NetOk, Placed, Legit, Extends;
    var handler := st.handlers[h];
    var m := handler.phase.m;
    var moved := handler.(phase := Checking(m), count := handler.count + 1);
    var d := m.(dest := Socket(handler.cli), from := Listen(handler.hop), pos := handler.pos + 1);
    var out := if (handler.count + 1) % SEND_PERIOD == 1 then [d] else [];
    AfterPlaced(st, h, moved, out);
    RelaysMono(st, After(st, h, moved, out), handler, m);
    RelaysStatic(After(st, h, moved, out), handler, moved, m);
    ResponseLegit(After(st, h, moved, out), moved, m);
    HandlerStepKeeps(st, h, moved, out);
    assert st.net + [] == st.net;
  }

  lemma RelaysMono(st: State, st': State, handler: Handler, m: Dgram)
    requires Extends(st, st') && Relays(st, handler, m)
    ensures Relays(st', handler, m)
  {
    hide Reached;
    assert st'.clients[handler.upd].(acked := true) == st.clients[handler.upd].(acked := true);
    ReachedMono(st, st', handler.upd, |st.clients[handler.upd].list|);
  }

  lemma RelaysStatic(st: State, handler: Handler, moved: Handler, m: Dgram)
    requires Relays(st, handler, m) && SameUpdate(moved, handler)
    ensures Relays(st, moved, m)
  {
    hide Reached;
  }

  lemma CheckKeeps(st: State, h: nat)
    requires Inv(st) && Enabled(st, Check(h))
    ensures Inv(Apply(st, Check(h)))
  {
    hide Reached, NetOk, Placed, Legit, Extends;
    var handler := st.handlers[h];
    var m := handler.phase.m;
    var key := (handler.hop, handler.cli);
    assert Relays(st, handler, m);
    assert st.net + [] == st.net;
    if key in st.records && st.records[key].acked {
      CheckAckedKeeps(st, h);
    } else if handler.count >= RETRY_LIMIT {
      HandlerStepKeeps(st, h, handler.(phase := Done(false)), []);
    } else {
      var moved := handler.(phase := Sending(m));
      AfterExtends(st, h, moved, []);
      RelaysMono(st, After(st, h, moved, []), handler, m);
      RelaysStatic(After(st, h, moved, []), handler, moved, m);
      HandlerStepKeeps(st, h, moved, []);
    }
  }

  lemma CheckAckedKeeps(st: State, h: nat)
    requires Inv(st) && Enabled(st, Check(h))
    requires var handler := st.handlers[h];
             (handler.hop, handler.cli) in st.records && st.records[(handler.hop, handler.cli)].acked
    ensures Inv(Apply(st, Check(h)))
  {
    hide Reached, NetOk, Placed, Legit, Extends;
    var handler := st.handlers[h];
    var m := handler.phase.m;
    var moved := handler.(phase := Done(true));
    assert Relays(st, handler, m);
    if handler.Forwards() {
      var d := Dgram(Host(handler.hops[1]), Own(h), Ack, m.s, m.upd, handler.pos + 1);
      AfterPlaced(st, h, moved, [d]);
      RelaysMono(st, After(st, h, moved, [d]), handler, m);
      ForwardLegit(After(st, h, moved, [d]), h, d);
      HandlerStepKeeps(st, h, moved, [d]);
    } else {
      HandlerStepKeeps(st, h, moved, []);
      assert st.net + [] == st.net;
    }
  }

  lemma RecvAckKeeps(st: State, i: nat)
    requires Inv(st) && Enabled(st, RecvAck(i))
    ensures Inv(Apply(st, RecvAck(i)))
  {
    hide Placed, PhaseOk, Legit;
    assert Extends(st, Apply(st, RecvAck(i)));
    InvByCases(st, Apply(st, RecvAck(i)));
  }

  lemma StepKeepsInv(st: State, step: Step)
    requires Inv(st) && Enabled(st, step)
    ensures Inv(Apply(st, step))
  {
    hide Inv, Apply;
    match step
    case ClientSyn(port, s, list) => ClientSynKeeps(st, port, s, list);
    case ClientAck(u, i) => ClientAckKeeps(st, u, i);
    case RecvSyn(i) => RecvSynKeeps(st, i);
    case RecvAck(i) => RecvAckKeeps(st, i);
    case Begin(h) => BeginKeeps(st, h);
    case Receive(h, i) => ReceiveKeeps(st, h, i);
    case Send(h) => SendKeeps(st, h);
    case Check(h) => CheckKeeps(st, h);
  }

  lemma {:induction false} RunKeepsInv(run: seq<State>)
    requires IsRun(run)
    ensures Inv(Last(run))
  {
    hide Inv, Apply, Enabled;
    if |run| == 1 {
      InitInv();
    } else {
      RunKeepsInv(run[..|run| - 1]);
      var st := run[|run| - 2];
      assert Next(st, run[|run| - 1]);
      var step :| Enabled(st, step) && Last(run) == Apply(st, step);
      StepKeepsInv(st, step);
    }
  }

  lemma InitInv()
    ensures Inv(Init())
  {}

  // The hop at place j holds a record for update u's sender, u's number or newer.
  ghost predicate Recorded(st: State, u: nat, j: int)
    requires u < |st.clients| && 0 <= j < |st.clients[u].list|
  {
    exists g :: HandlerAt(st, u, j, g) && RecordedBy(st, u, j, st.handlers[g])
  }

  ghost predicate RecordedBy(st: State, u: nat, j: int, handler: Handler)
    requires u < |st.clients| && 0 <= j < |st.clients[u].list|
  {
    && handler.hop == st.clients[u].list[j] && Speaks(st, u, j, handler.cli)
    && (handler.hop, handler.cli) in st.records && st.records[(handler.hop, handler.cli)].s >= st.clients[u].s
  }

  lemma ReachedRecorded(st: State, u: nat, j: int)
    requires Inv(st) && u < |st.clients| && 0 <= j < |st.clients[u].list|
    requires Reached(st, u, |st.clients[u].list|)
    ensures Recorded(st, u, j)
  {
    hide NetOk, PhaseOk;
    assert HasHandler(st, u, j);
    var g :| HandlerAt(st, u, j, g);
    assert Placed(st, st.handlers[g]);
    assert RecordedBy(st, u, j, st.handlers[g]);
  }

  // A SYN-ACK vouches for the whole hop list: whenever one is in the network,
  // every hop has recorded its number or a newer one.  Addressed to a client, it
  // goes to its own update's port; addressed to a hop, it answers exactly the
  // number that was sent from that socket.
  lemma SynAckVouches(run: seq<State>, d: Dgram)
    requires IsRun(run) && d in Last(run).net && d.body.SynAck?
    ensures var st := Last(run);
            && d.upd < |st.clients| && d.s == st.clients[d.upd].s
            && (forall j :: 0 <= j < |st.clients[d.upd].list| ==> Recorded(st, d.upd, j))
    ensures d.dest.Socket?
    ensures d.dest.sock.Port? ==> d.dest.sock == Port(Last(run).clients[d.upd].port)
    ensures d.dest.sock.Own? ==>
              forall e :: e in Last(run).net && e.body.Syn? && e.from == d.dest.sock ==> e.s == d.s
  {
    RunKeepsInv(run);
    var st := Last(run);
    assert Legit(st, d);
    hide Reached, Recorded;
    forall j | 0 <= j < |st.clients[d.upd].list| ensures Recorded(st, d.upd, j) {
      hide *;
      ReachedRecorded(st, d.upd, j);
    }
    forall e | e in st.net && e.body.Syn? && e.from == d.dest.sock && d.dest.sock.Own? ensures e.s == d.s {
      assert Legit(st, e);
    }
  }
}
