// The migration: whatever the network does to the agents' messages and to the
// connection's packets, and however rule updates interleave with packets in
// flight, both applications see one unbroken connection.
module Migration {
  import opened Rules
  import opened Agent
  import opened AgentSafety

  // A number whose update can be answered: positive, and no hop listed twice.
  ghost predicate Answerable(plan: Plan, s: int) {
    s > 0 && Once(plan(s))
  }

  // An update that can be answered visits both endpoints or neither.
  ghost predicate EndpointsTogether(plan: Plan) {
    forall s :: Answerable(plan, s) ==> (HOST_107 in plan(s) <==> HOST_108 in plan(s))
  }

  predicate IsBox(a: int) {
    a == HOST_106 || a == HOST_109
  }

  ghost predicate ClientOk(m: RuleMap) {
    && CLIENT_OLD_KEY in m && m[CLIENT_OLD_KEY] == Rule(HOST_108, 0)
    && CLIENT_OUT_KEY in m && IsBox(m[CLIENT_OUT_KEY].dst)
    && (CLIENT_NEW_KEY in m ==> m[CLIENT_NEW_KEY] == Rule(HOST_108, 0))
  }

  ghost predicate ServerOk(m: RuleMap) {
    && SERVER_OLD_KEY in m && m[SERVER_OLD_KEY] == Rule(HOST_107, 0)
    && SERVER_OUT_KEY in m && IsBox(m[SERVER_OUT_KEY].dst)
    && (SERVER_NEW_KEY in m ==> m[SERVER_NEW_KEY] == Rule(HOST_107, 0))
  }

  // An endpoint that has accepted any SYN accepts packets from the new box.
  ghost predicate Installed(st: State) {
    forall k :: k in st.accepted ==>
      (k.0 == HOST_107 ==> CLIENT_NEW_KEY in st.client) && (k.0 == HOST_108 ==> SERVER_NEW_KEY in st.server)
  }

  // Sending to the new box implies that the other side accepts from it.
  ghost predicate Switched(st: State)
    requires ClientOk(st.client) && ServerOk(st.server)
  {
    && (st.client[CLIENT_OUT_KEY].dst == HOST_109 ==> SERVER_NEW_KEY in st.server)
    && (st.server[SERVER_OUT_KEY].dst == HOST_109 ==> CLIENT_NEW_KEY in st.client)
  }

  ghost predicate Kernels(st: State) {
    ClientOk(st.client) && ServerOk(st.server) && Installed(st) && Switched(st)
  }

  // On its way through box own, before or after it.
  ghost predicate Via(p: Packet, own: int) {
    p.h == p.orig.(daddr := own) || p.h == p.orig.(saddr := own)
  }

  ghost predicate PacketOk(st: State, p: Packet) {
    && (FromClient(p.orig) || FromServer(p.orig))
    && (Via(p, HOST_106)
        || (Via(p, HOST_109)
            && (if FromClient(p.orig) then SERVER_NEW_KEY in st.server else CLIENT_NEW_KEY in st.client)))
  }

  ghost predicate PacketsOk(st: State) {
    forall i :: 0 <= i < |st.packets| ==> PacketOk(st, st.packets[i])
  }

  ghost predicate DeliveredOk(st: State) {
    forall i :: 0 <= i < |st.delivered| ==> st.delivered[i].h == st.delivered[i].orig
  }

  ghost predicate TrafficInv(st: State) {
    Kernels(st) && PacketsOk(st) && DeliveredOk(st)
  }

  // Rules for the new box are never taken away.
  ghost predicate Grows(st: State, st': State) {
    (CLIENT_NEW_KEY in st.client ==> CLIENT_NEW_KEY in st'.client)
    && (SERVER_NEW_KEY in st.server ==> SERVER_NEW_KEY in st'.server)
  }

  lemma PacketsMono(st: State, st': State)
    requires PacketsOk(st) && Grows(st, st') && st'.packets == st.packets
    ensures PacketsOk(st')
  {}

  // ----- kernel commands -----

  lemma SynKeepsKernels(st: State, d: Dgram)
    requires Kernels(st) && d.dest.Host? && d.body.UpdateSyn?
    ensures Kernels(AcceptSyn(st, d)) && Grows(st, AcceptSyn(st, d))
  {}

  // The kernel is told of an ACK for s only when both endpoints accepted s.
  lemma AckKeepsKernels(st: State, a: Addr, s: int)
    requires Kernels(st)
    requires a == HOST_107 || a == HOST_108 ==> (HOST_107, s) in st.accepted && (HOST_108, s) in st.accepted
    ensures Kernels(Netlink(st, a, Ack)) && Grows(st, Netlink(st, a, Ack))
  {}

  lemma SweptBoth(plan: Plan, st: State, a: Addr, s: int)
    requires EndpointsTogether(plan) && Acked(plan, st, a, s) && (a == HOST_107 || a == HOST_108)
    ensures (HOST_107, s) in st.accepted && (HOST_108, s) in st.accepted
  {
    var j :| 0 <= j < |plan(s)| && plan(s)[j] == HOST_107;
    var k :| 0 <= k < |plan(s)| && plan(s)[k] == HOST_108;
  }

  lemma MainKeepsKernels(plan: Plan, st: State, a: Addr)
    requires EndpointsTogether(plan) && MainsOk(plan, st) && Kernels(st) && !NodeAt(st, a).main.Idle?
    ensures Kernels(TurnMain(st, a)) && Grows(st, TurnMain(st, a))
  {
    hide EndpointsTogether, Acked;
    var s := NodeAt(st, a).main.s;
    if a == HOST_107 || a == HOST_108 {
      SweptBoth(plan, st, a, s);
    }
    hide MainsOk, ClientOk, ServerOk, Switched, MainNode, Netlink;
    if NodeAt(st, a).main.AckTellsKernel? {
      AckKeepsKernels(st, a, s);
      SameKernels(Netlink(st, a, Ack), TurnMain(st, a));
    } else {
      SameKernels(st, TurnMain(st, a));
    }
    NetlinkKeeps(st, a, Ack);
  }

  lemma NetlinkKeeps(st: State, a: Addr, c: Command)
    ensures var st' := Netlink(st, a, c);
            st'.packets == st.packets && st'.delivered == st.delivered && st'.accepted == st.accepted
  {}

  lemma SameKernels(st: State, st': State)
    requires Kernels(st) && st'.client == st.client && st'.server == st.server && st'.accepted == st.accepted
    ensures Kernels(st')
  {}

  // ----- packets -----

  lemma SendOk(st: State, h: Header)
    requires Kernels(st)
    ensures FromClient(h) ==> PacketOk(st, Packet(ClientOut(st.client, h), h))
    ensures FromServer(h) ==> PacketOk(st, Packet(ServerOut(st.server, h), h))
  {}

  lemma RelayOk(st: State, own: int, p: Packet)
    requires PacketOk(st, p) && IsBox(own) && p.h.daddr == own
    ensures PacketOk(st, Packet(Box(own, p.h), p.orig))
  {
    hide Box;
    BoxRelays(own, p.orig);
    assert p.h == p.orig.(daddr := own);
  }

  // The accept rules restore the sender's own address.
  lemma DeliverOk(st: State, p: Packet)
    requires Kernels(st) && PacketOk(st, p)
    ensures p.h.daddr == HOST_107 ==> ClientIn(st.client, p.h) == p.orig
    ensures p.h.daddr == HOST_108 ==> ServerIn(st.server, p.h) == p.orig
  {
    hide Installed, Switched;
    if p.h.daddr == HOST_107 {
      assert FromServer(p.orig) && (p.h == p.orig.(saddr := HOST_106) || p.h == p.orig.(saddr := HOST_109));
    }
    if p.h.daddr == HOST_108 {
      assert FromClient(p.orig) && (p.h == p.orig.(saddr := HOST_106) || p.h == p.orig.(saddr := HOST_109));
    }
  }

  lemma TrafficStep(plan: Plan, st: State, step: Step)
    requires TrafficInv(st) && Enabled(st, step)
    requires step.ClientSends? || step.ServerSends? || step.BoxRelay? || step.ClientReceives? || step.ServerReceives?
    ensures TrafficInv(Apply(plan, st, step))
  {
    hide Kernels, PacketOk, ClientOut, ServerOut, ClientIn, ServerIn, Box;
    var st' := Apply(plan, st, step);
    SameKernelsOf(st, st');
    SamePacketOk(st, st');
    match step
    case ClientSends(h) => SendOk(st, h);
    case ServerSends(h) => SendOk(st, h);
    case BoxRelay(own, p) => RelayOk(st, own, st.packets[p]);
    case ClientReceives(p) => DeliverOk(st, st.packets[p]);
    case ServerReceives(p) => DeliverOk(st, st.packets[p]);
  }

  lemma SameKernelsOf(st: State, st': State)
    requires st'.client == st.client && st'.server == st.server && st'.accepted == st.accepted
    ensures Kernels(st) ==> Kernels(st')
  {}

  lemma SamePacketOk(st: State, st': State)
    requires st'.client == st.client && st'.server == st.server
    ensures forall p :: PacketOk(st, p) ==> PacketOk(st', p)
  {}

  lemma StepKeepsTraffic(plan: Plan, st: State, step: Step)
    requires EndpointsTogether(plan) && MainsOk(plan, st) && TrafficInv(st) && Enabled(st, step)
    ensures TrafficInv(Apply(plan, st, step))
  {
    hide EndpointsTogether, MainsOk, Kernels, PacketsOk, DeliveredOk;
    if step.ClientSends? || step.ServerSends? || step.BoxRelay? || step.ClientReceives? || step.ServerReceives? {
      hide *;
      TrafficStep(plan, st, step);
    } else {
      var st' := Apply(plan, st, step);
      ProtocolKeepsTraffic(plan, st, step);
      hide Apply, Enabled, Grows;
      PacketsMono(st, st');
      DeliveredSame(st, st');
    }
  }

  lemma DeliveredSame(st: State, st': State)
    requires DeliveredOk(st) && st'.delivered == st.delivered
    ensures DeliveredOk(st')
  {}

  lemma ProtocolKeepsTraffic(plan: Plan, st: State, step: Step)
    requires EndpointsTogether(plan) && MainsOk(plan, st) && Kernels(st) && Enabled(st, step)
    requires !(step.ClientSends? || step.ServerSends? || step.BoxRelay? || step.ClientReceives? || step.ServerReceives?)
    ensures var st' := Apply(plan, st, step);
            Kernels(st') && Grows(st, st') && st'.packets == st.packets && st'.delivered == st.delivered
  {
    var st' := Apply(plan, st, step);
    hide EndpointsTogether, MainsOk, Kernels;
    if step.MainReceive? && st.net[step.i].body.UpdateSyn? {
      hide ClientCommand, ServerCommand;
      SynKeepsKernels(st, st.net[step.i]);
    } else if step.MainTurn? {
      hide Netlink;
      MainKeepsKernels(plan, st, step.a);
    } else {
      hide *;
      OthersKeep(plan, st, step);
      SameKernelsOf(st, st');
      SameGrows(st, st');
    }
  }

  lemma SameGrows(st: State, st': State)
    requires st'.client == st.client && st'.server == st.server
    ensures Grows(st, st')
  {}

  // The other protocol steps leave kernels and packets alone.
  ghost predicate SameTraffic(st: State, st': State) {
    && st'.client == st.client && st'.server == st.server && st'.accepted == st.accepted
    && st'.packets == st.packets && st'.delivered == st.delivered
  }

  lemma OthersKeep(plan: Plan, st: State, step: Step)
    requires Enabled(st, step) && !step.MainTurn? && !(step.MainReceive? && st.net[step.i].body.UpdateSyn?)
    requires !(step.ClientSends? || step.ServerSends? || step.BoxRelay? || step.ClientReceives? || step.ServerReceives?)
    ensures SameTraffic(st, Apply(plan, st, step))
  {
    hide InitiateSyn, Answered, AcceptAck, BeginThread, TurnThread;
    match step
    case Initiate(port, s) => InitiateSame(plan, st, port, s);
    case InitiatorReceive(u, i) => AnsweredSame(plan, st, u, st.net[i]);
    case MainReceive(i) => AcceptAckSame(st, st.net[i]);
    case Begin(t) => BeginSame(st, t);
    case Turn(t) => TurnSame(st, t);
    case _ =>
  }

  lemma InitiateSame(plan: Plan, st: State, port: nat, s: int)
    ensures SameTraffic(st, InitiateSyn(plan, st, port, s))
  {}

  lemma AnsweredSame(plan: Plan, st: State, u: nat, d: Dgram)
    requires u < |st.clients|
    ensures SameTraffic(st, Answered(plan, st, u, d))
  {}

  lemma AcceptAckSame(st: State, d: Dgram)
    requires d.dest.Host?
    ensures SameTraffic(st, AcceptAck(st, d))
  {}

  lemma BeginSame(st: State, t: nat)
    requires t < |st.threads|
    ensures SameTraffic(st, BeginThread(st, t))
  {}

  lemma TurnSame(st: State, t: nat)
    requires t < |st.threads|
    ensures SameTraffic(st, TurnThread(st, t))
  {
    hide ThreadNext, ThreadSends;
  }

  lemma {:induction false} RunKeepsTraffic(plan: Plan, run: seq<State>)
    requires Plans(plan) && EndpointsTogether(plan) && IsRun(plan, run)
    ensures TrafficInv(Last(run))
  {
    hide Inv, TrafficInv, Apply, Enabled, Plans, EndpointsTogether;
    if |run| == 1 {
      InitTraffic();
    } else {
      RunKeepsTraffic(plan, run[..|run| - 1]);
      RunKeepsInv(plan, run[..|run| - 1]);
      var st := run[|run| - 2];
      assert Next(plan, st, run[|run| - 1]);
      var step :| Enabled(st, step) && Last(run) == Apply(plan, st, step);
      InvMains(plan, st);
      StepKeepsTraffic(plan, st, step);
    }
  }

  lemma InvMains(plan: Plan, st: State)
    requires Inv(plan, st)
    ensures MainsOk(plan, st)
  {}

  lemma InitTraffic()
    ensures TrafficInv(Init())
  {}

  // Whenever an endpoint sends the connection to the new box, the other endpoint
  // already turns what comes from there back into what was sent.
  ghost predicate LossFreeAt(st: State) {
    && (forall h :: FromClient(h) && ClientOut(st.client, h).daddr == HOST_109 ==>
          ServerIn(st.server, h.(saddr := HOST_109)) == h)
    && (forall h :: FromServer(h) && ServerOut(st.server, h).daddr == HOST_109 ==>
          ClientIn(st.client, h.(saddr := HOST_109)) == h)
  }

  // Loss-free migration, in every reachable state.
  lemma LossFree(plan: Plan, run: seq<State>)
    requires Plans(plan) && EndpointsTogether(plan) && IsRun(plan, run)
    ensures LossFreeAt(Last(run))
  {
    RunKeepsTraffic(plan, run);
  }

  // What has been delivered shows the addresses and ports that the sending
  // application wrote.
  ghost predicate TransparentAt(st: State) {
    forall p :: p in st.delivered ==> p.h == p.orig
  }

  // End-to-end transparency, in every reachable state.
  lemma Transparent(plan: Plan, run: seq<State>)
    requires Plans(plan) && EndpointsTogether(plan) && IsRun(plan, run)
    ensures TransparentAt(Last(run))
  {
    RunKeepsTraffic(plan, run);
  }

  // ----- other connections -----

  // The endpoints' rules are what some commands have left.
  ghost predicate Commanded(st: State) {
    (exists cs :: st.client == ClientRules(cs)) && (exists cs :: st.server == ServerRules(cs))
  }

  lemma NetlinkCommands(st: State, a: Addr, c: Command)
    requires Commanded(st)
    ensures Commanded(Netlink(st, a, c))
  {
    hide ClientRules, ServerRules, ClientCommand, ServerCommand;
    var cs :| st.client == ClientRules(cs);
    var ss :| st.server == ServerRules(ss);
    ClientRulesNext(cs, c);
    ServerRulesNext(ss, c);
  }

  lemma StepKeepsCommanded(plan: Plan, st: State, step: Step)
    requires Commanded(st) && Enabled(st, step)
    ensures Commanded(Apply(plan, st, step))
  {
    hide Netlink, ClientRules, ServerRules;
    match step
    case MainReceive(i) => NetlinkCommands(st, st.net[i].dest.addr, Syn);
    case MainTurn(a) => NetlinkCommands(st, a, Ack);
    case _ =>
  }

  lemma {:induction false} RunKeepsCommanded(plan: Plan, run: seq<State>)
    requires IsRun(plan, run)
    ensures Commanded(Last(run))
  {
    hide Apply, Enabled;
    if |run| == 1 {
      assert Last(run).client == ClientRules([]) && Last(run).server == ServerRules([]);
    } else {
      RunKeepsCommanded(plan, run[..|run| - 1]);
      var st := run[|run| - 2];
      assert Last(run[..|run| - 1]) == st;
      assert Next(plan, st, run[|run| - 1]);
      var step :| Enabled(st, step) && Last(run) == Apply(plan, st, step);
      hide Commanded;
      StepKeepsCommanded(plan, st, step);
    }
  }

  // Whatever updates run, the endpoints' hooks leave alone every packet that does
  // not name the connection's address and port.
  lemma OtherTraffic(plan: Plan, run: seq<State>, h: Header)
    requires IsRun(plan, run)
    ensures var st, box := Last(run), h.saddr == HOST_106 || h.saddr == HOST_109;
            && (!(h.tcp && h.daddr == HOST_108 && h.dport == 5001) ==> ClientOut(st.client, h) == h)
            && (!(h.tcp && box && h.sport == 5001) ==> ClientIn(st.client, h) == h)
            && (!(h.tcp && h.daddr == HOST_107 && h.sport == 5001) ==> ServerOut(st.server, h) == h)
            && (!(h.tcp && box && h.dport == 5001) ==> ServerIn(st.server, h) == h)
  {
    RunKeepsCommanded(plan, run);
    var cs :| Last(run).client == ClientRules(cs);
    var ss :| Last(run).server == ServerRules(ss);
    hide IsRun, ClientRules, ServerRules;
    ClientHooks(cs, h);
    ServerHooks(ss, h);
  }
}
