// The middlebox user agent (MiddleboxAgent.c) and the initiator (updateNotify.c)
// as a transition system, together with the two endpoint kernels they command
// and the packets of the migrated connection.
//
// Every hop has a main thread and one handler thread per accepted SYN; all of
// them share update_ack under a mutex, and a step is one action between two
// scheduling points.  The network and the packets are logs: anything in them
// may be received any number of times, in any order, or never.  All messages
// name the one flow of settingAck, so a hop has at most one flow record.
// plan(s) is the hop list that sequence number s names.
module Agent {
  import opened Wrappers
  import opened Rules

  type Addr = int
  type Plan = int -> seq<Addr>

  // A client's port may be used again; every forwarding thread has its own socket.
  datatype Sock = Port(id: nat) | Own(thread: nat) | Listen(hop: Addr)

  datatype Dest = Host(addr: Addr) | Socket(sock: Sock)

  datatype Body = UpdateSyn(list: seq<Addr>) | UpdateSynAck | UpdateAck

  // pos is history: the place of the hop a SYN or ACK is sent to, of the sender
  // of a SYN-ACK.
  datatype Dgram = Dgram(dest: Dest, from: Sock, body: Body, s: int, pos: nat)

  datatype Owner = Free | Main | Handler(t: nat)

  // Where main is between receiving an ACK and having told the kernel.
  datatype MainPc = Idle | AckWaits(s: int) | AckHolds(s: int) | AckIsSet(s: int) | AckTellsKernel(s: int)

  // sets is history: how often main has set update_ack.
  datatype Node = Node(rec: Option<int>, updateAck: bool, lock: Owner, main: MainPc, sets: nat)

  datatype Pc =
    | Start
    // updateForward
    | Polling
    | Received(m: Dgram)      // wants the lock
    | Deciding(m: Dgram)      // has it
    | Releasing               // relayed, about to unlock
    // updateBack
    | Counting
    | Wanting
    | Testing
    | Letting                 // not acknowledged, about to unlock
    | Answering
    // both
    | Clearing                // left the loop
    | Unlocking
    | Exited

  // released, timedOut and pos are history: how the loop was left, and the
  // hop's place in the list.
  datatype Thread = Thread(hop: Addr, cli: Sock, s: int, list: seq<Addr>, pc: Pc, count: nat,
                           released: bool, timedOut: bool, pos: nat)

  datatype Client = Client(port: nat, s: int, done: bool)

  // orig is what the sending application wrote.
  datatype Packet = Packet(h: Header, orig: Header)

  // accepted is history: which hops accepted a SYN, and told their kernel.
  datatype State = State(net: seq<Dgram>, clients: seq<Client>, nodes: map<Addr, Node>, threads: seq<Thread>,
                         accepted: set<(Addr, int)>, crashed: bool,
                         client: RuleMap, server: RuleMap, packets: seq<Packet>, delivered: seq<Packet>)

  const TURNS: nat := 1000
  const IDLE_NODE: Node := Node(None, false, Free, Idle, 0)

  ghost function Init(): State {
    State([], [], map[], [], {}, false, ClientInit(), ServerInit(), [], [])
  }

  function NodeAt(st: State, a: Addr): Node {
    if a in st.nodes then st.nodes[a] else IDLE_NODE
  }

  function SetNode(st: State, a: Addr, n: Node): State {
    st.(nodes := st.nodes[a := n])
  }

  function Put(st: State, d: Dgram): State {
    st.(net := st.net + [d])
  }

  // send_netlink: only the endpoints' kernels have commands.
  ghost function Netlink(st: State, a: Addr, c: Command): State {
    if a == HOST_107 then st.(client := ClientCommand(st.client, c))
    else if a == HOST_108 then st.(server := ServerCommand(st.server, c))
    else st
  }

  datatype Step =
    | Initiate(port: nat, s: int)
    | InitiatorReceive(u: nat, i: nat)
    | MainReceive(i: nat)
    | MainTurn(a: Addr)
    | Begin(t: nat)
    | Receive(t: nat, i: nat)
    | Turn(t: nat)
    | ClientSends(h: Header)
    | ServerSends(h: Header)
    | BoxRelay(own: int, p: nat)
    | ClientReceives(p: nat)
    | ServerReceives(p: nat)

  predicate WantsLock(pc: Pc) {
    pc.Received? || pc.Wanting?
  }

  // Between pthread_mutex_lock and pthread_mutex_unlock.
  predicate InCritical(pc: Pc) {
    pc.Deciding? || pc.Releasing? || pc.Testing? || pc.Letting? || pc.Clearing? || pc.Unlocking?
  }

  predicate MainCritical(m: MainPc) {
    m.AckHolds? || m.AckIsSet?
  }

  predicate Enabled(st: State, step: Step) {
    match step
    case Initiate(port, s) => true
    case InitiatorReceive(u, i) =>
      u < |st.clients| && !st.clients[u].done && i < |st.net| && st.net[i].dest == Socket(Port(st.clients[u].port))
    case MainReceive(i) =>
      i < |st.net| && st.net[i].dest.Host? && NodeAt(st, st.net[i].dest.addr).main.Idle?
      && !st.net[i].body.UpdateSynAck?
    case MainTurn(a) =>
      var n := NodeAt(st, a);
      !n.main.Idle? && (n.main.AckWaits? ==> n.lock.Free?)
    case Begin(t) => t < |st.threads| && st.threads[t].pc.Start?
    case Receive(t, i) =>
      t < |st.threads| && st.threads[t].pc.Polling? && i < |st.net| && st.net[i].dest == Socket(Own(t))
    case Turn(t) =>
      t < |st.threads| && var thread := st.threads[t];
      && !thread.pc.Start? && !thread.pc.Polling? && !thread.pc.Exited?
      && (WantsLock(thread.pc) ==> NodeAt(st, thread.hop).lock.Free?)
    case ClientSends(h) => h.tcp && h.saddr == HOST_107 && h.daddr == HOST_108 && h.dport == PORT
    case ServerSends(h) => h.tcp && h.saddr == HOST_108 && h.daddr == HOST_107 && h.sport == PORT
    case BoxRelay(own, p) => (own == HOST_106 || own == HOST_109) && p < |st.packets| && st.packets[p].h.daddr == own
    case ClientReceives(p) => p < |st.packets| && st.packets[p].h.daddr == HOST_107
    case ServerReceives(p) => p < |st.packets| && st.packets[p].h.daddr == HOST_108
  }

  // ----- the initiator -----

  function InitiateSyn(plan: Plan, st: State, port: nat, s: int): State {
    Put(st.(clients := st.clients + [Client(port, s, false)]),
        Dgram(Host(First(plan(s))), Port(port), UpdateSyn(plan(s)), s, 0))
  }

  function First(list: seq<Addr>): Addr {
    if list == [] then 0 else list[0]
  }

  function Second(list: seq<Addr>): Addr {
    if |list| > 1 then list[1] else 0
  }

  // One answer decides: the ACK, or nothing.
  function Answered(plan: Plan, st: State, u: nat, d: Dgram): State
    requires u < |st.clients|
  {
    var c := st.clients[u];
    var st1 := st.(clients := st.clients[u := c.(done := true)]);
    if d.body.UpdateSynAck? && d.s == c.s
    then Put(st1, Dgram(Host(First(plan(c.s))), Port(c.port), UpdateAck, c.s, 0))
    else st1
  }

  // ----- main -----

  // The SYN test: new, or newer than what is recorded.
  predicate Newer(rec: Option<int>, s: int) {
    rec.Some? ==> rec.value < s
  }

  ghost function AcceptSyn(st: State, d: Dgram): State
    requires d.dest.Host? && d.body.UpdateSyn?
  {
    var a := d.dest.addr;
    var n := NodeAt(st, a);
    if !Newer(n.rec, d.s) then st
    else
      SetNode(Netlink(st, a, Syn), a, n.(rec := Some(d.s)))
        .(accepted := st.accepted + {(a, d.s)},
          threads := st.threads + [Thread(a, d.from, d.s, d.body.list, Start, 0, false, false, d.pos)])
  }

  // An ACK reads the record without asking whether there is one.
  function AcceptAck(st: State, d: Dgram): State
    requires d.dest.Host?
  {
    var a := d.dest.addr;
    var n := NodeAt(st, a);
    if n.rec.None? then st.(crashed := true)
    else if n.rec.value == d.s then SetNode(st, a, n.(main := AckWaits(d.s)))
    else st
  }

  function MainNode(n: Node): Node
    requires !n.main.Idle?
  {
    match n.main
    case AckWaits(s) => n.(lock := Main, main := AckHolds(s))
    case AckHolds(s) => n.(updateAck := true, main := AckIsSet(s), sets := n.sets + 1)
    case AckIsSet(s) => n.(lock := Free, main := AckTellsKernel(s))
    case AckTellsKernel(s) => n.(main := Idle)
  }

  ghost function TurnMain(st: State, a: Addr): State
    requires !NodeAt(st, a).main.Idle?
  {
    var n := NodeAt(st, a);
    var st1 := if n.main.AckTellsKernel? then Netlink(st, a, Ack) else st;
    SetNode(st1, a, MainNode(n))
  }

  // ----- handler threads -----

  // handleUpdate up to its loop.
  function BeginThread(st: State, t: nat): State
    requires t < |st.threads|
  {
    var thread := st.threads[t];
    if thread.s <= 0 then st.(threads := st.threads[t := thread.(pc := Exited)])
    else if |thread.list| > 1 then
      Put(st.(threads := st.threads[t := thread.(pc := Polling)]),
          Dgram(Host(Second(thread.list)), Own(t), UpdateSyn(thread.list[1..]), thread.s, thread.pos + 1))
    else st.(threads := st.threads[t := thread.(pc := Counting)])
  }

  // A thread's next action on itself and on what its hop shares.  The unlock at
  // the end is not conditional on holding the lock.
  function ThreadNext(thread: Thread, n: Node, t: nat): (Thread, Node)
  {
    match thread.pc
    case Received(m) => (thread.(pc := Deciding(m)), n.(lock := Handler(t)))
    case Deciding(m) =>
      if n.updateAck then (thread.(pc := Clearing, released := true), n) else (thread.(pc := Releasing), n)
    case Releasing => (thread.(pc := Polling), n.(lock := Free))
    case Counting => (thread.(pc := Wanting, count := thread.count + 1), n)
    case Wanting => (thread.(pc := Testing), n.(lock := Handler(t)))
    case Testing => if n.updateAck then (thread.(pc := Clearing, released := true), n) else (thread.(pc := Letting), n)
    case Letting => (thread.(pc := Answering), n.(lock := Free))
    case Answering =>
      (if thread.count >= TURNS then thread.(pc := Clearing, timedOut := true) else thread.(pc := Counting), n)
    case Clearing => (thread.(pc := Unlocking), n.(updateAck := false))
    case Unlocking => (thread.(pc := Exited), n.(lock := Free))
    case _ => (thread, n)
  }

  // What it sends meanwhile.
  function ThreadSends(thread: Thread, n: Node, t: nat): seq<Dgram>
  {
    match thread.pc
    case Deciding(m) =>
      if n.updateAck then [Dgram(Host(Second(thread.list)), Own(t), UpdateAck, m.s, thread.pos + 1)]
      else [m.(dest := Socket(thread.cli), from := Listen(thread.hop), pos := thread.pos)]
    case Answering => [Dgram(Socket(thread.cli), Listen(thread.hop), UpdateSynAck, thread.s, thread.pos)]
    case _ => []
  }

  function TurnThread(st: State, t: nat): State
    requires t < |st.threads|
  {
    var thread := st.threads[t];
    var n := NodeAt(st, thread.hop);
    var (thread', n') := ThreadNext(thread, n, t);
    SetNode(st, thread.hop, n').(threads := st.threads[t := thread'], net := st.net + ThreadSends(thread, n, t))
  }

  // ----- the connection's packets -----

  function Deliver(st: State, h: Header, orig: Header): State {
    st.(delivered := st.delivered + [Packet(h, orig)])
  }

  function Emit(st: State, h: Header, orig: Header): State {
    st.(packets := st.packets + [Packet(h, orig)])
  }

  ghost function Apply(plan: Plan, st: State, step: Step): State
    requires Enabled(st, step)
  {
    match step
    case Initiate(port, s) => InitiateSyn(plan, st, port, s)
    case InitiatorReceive(u, i) => Answered(plan, st, u, st.net[i])
    case MainReceive(i) => if st.net[i].body.UpdateSyn? then AcceptSyn(st, st.net[i]) else AcceptAck(st, st.net[i])
    case MainTurn(a) => TurnMain(st, a)
    case Begin(t) => BeginThread(st, t)
    case Receive(t, i) => st.(threads := st.threads[t := st.threads[t].(pc := Received(st.net[i]))])
    case Turn(t) => TurnThread(st, t)
    case ClientSends(h) => Emit(st, ClientOut(st.client, h), h)
    case ServerSends(h) => Emit(st, ServerOut(st.server, h), h)
    case BoxRelay(own, p) => Emit(st, Box(own, st.packets[p].h), st.packets[p].orig)
    case ClientReceives(p) => Deliver(st, ClientIn(st.client, st.packets[p].h), st.packets[p].orig)
    case ServerReceives(p) => Deliver(st, ServerIn(st.server, st.packets[p].h), st.packets[p].orig)
  }

  ghost predicate Next(plan: Plan, st: State, st': State) {
    exists step :: Enabled(st, step) && st' == Apply(plan, st, step)
  }

  ghost predicate IsRun(plan: Plan, run: seq<State>) {
    run != [] && run[0] == Init() && forall i :: 0 < i < |run| ==> Next(plan, run[i - 1], run[i])
  }

  function Last(run: seq<State>): State
    requires run != []
  {
    run[|run| - 1]
  }

  // A run goes on with any enabled step.
  lemma Go(plan: Plan, run: seq<State>, step: Step) returns (next: seq<State>)
    requires IsRun(plan, run) && Enabled(Last(run), step)
    ensures next != [] && IsRun(plan, next) && Last(next) == Apply(plan, Last(run), step)
  {
    next := run + [Apply(plan, Last(run), step)];
    assert Next(plan, Last(run), Last(next));
    hide Next;
  }

  lemma OnlyInit(plan: Plan) returns (run: seq<State>)
    ensures run != [] && IsRun(plan, run) && Last(run) == Init()
  {
    run := [Init()];
  }

  // Every sequence number names a list with at least one hop.
  ghost predicate Plans(plan: Plan) {
    forall s :: plan(s) != []
  }
}
