// The emulator's hop-by-hop update protocol (serverUDP.c and clientUDP.c) over
// a network that may lose, duplicate and reorder datagrams.
//
// The network is the log of every datagram ever sent: any of them can be
// received at any time, any number of times, or never.  Several updates may run
// at once.  A datagram's upd and pos, a handler's upd and pos, and acks are
// history: no step looks at them to decide what to do.
module Emulator {

  type Addr = int

  // A client's port may be used again by a later client; every forwarding
  // handler opens a socket of its own; Listen is a hop's main socket.
  datatype Sock = Port(id: nat) | Own(handler: nat) | Listen(hop: Addr)

  datatype Dest = Host(addr: Addr) | Socket(sock: Sock)

  datatype Body = Syn(hops: seq<Addr>) | SynAck | Ack

  // pos is the sender's place: 0 for the client, i + 1 for the i-th hop.
  datatype Dgram = Dgram(dest: Dest, from: Sock, body: Body, s: int, upd: nat, pos: nat)

  // The fields of a flow record; the key is the receiving hop and the sender.
  datatype Rec = Rec(s: int, acked: bool)

  datatype Phase =
    | Start                      // spawned
    | Waiting                    // forwarding: SYN sent, in recvfrom
    | Sending(m: Dgram)          // at the top of the retry loop, about to count
    | Checking(m: Dgram)         // about to look up the record
    | Done(acked: bool)

  datatype Handler = Handler(hop: Addr, cli: Sock, s: int, hops: seq<Addr>, phase: Phase, count: nat,
                             upd: nat, pos: nat)
  {
    // n > sizeof(header) + 8: more than one address is left.
    predicate Forwards() { |hops| > 1 }
  }

  datatype Client = Client(port: nat, s: int, list: seq<Addr>, acked: bool)

  datatype State = State(net: seq<Dgram>, records: map<(Addr, Sock), Rec>, handlers: seq<Handler>,
                         clients: seq<Client>, acks: set<(Addr, Sock, int)>)

  const RETRY_LIMIT: nat := 1000
  const SEND_PERIOD: nat := 40

  function Init(): State {
    State([], map[], [], [], {})
  }

  // main's test on a SYN: new, or newer than what is recorded.
  predicate Fresh(records: map<(Addr, Sock), Rec>, key: (Addr, Sock), s: int) {
    key in records ==> records[key].s < s
  }

  // main's test on an ACK.
  predicate Acknowledges(records: map<(Addr, Sock), Rec>, key: (Addr, Sock), s: int) {
    key in records && records[key].s == s
  }

  datatype Step =
    | ClientSyn(port: nat, s: int, list: seq<Addr>)
    | ClientAck(u: nat, i: nat)   // client u receives datagram i
    | RecvSyn(i: nat)
    | RecvAck(i: nat)
    | Begin(h: nat)
    | Receive(h: nat, i: nat)
    | Send(h: nat)
    | Check(h: nat)

  predicate Enabled(st: State, step: Step) {
    match step
    case ClientSyn(port, s, list) => list != []
    case ClientAck(u, i) =>
      u < |st.clients| && !st.clients[u].acked && st.clients[u].list != [] && i < |st.net|
      && st.net[i].dest == Socket(Port(st.clients[u].port))
    case RecvSyn(i) => i < |st.net| && st.net[i].dest.Host? && st.net[i].body.Syn?
    case RecvAck(i) => i < |st.net| && st.net[i].dest.Host? && st.net[i].body.Ack?
    case Begin(h) => h < |st.handlers| && st.handlers[h].phase.Start?
    case Receive(h, i) =>
      h < |st.handlers| && st.handlers[h].phase.Waiting?
      && i < |st.net| && st.net[i].dest == Socket(Own(h))
    case Send(h) => h < |st.handlers| && st.handlers[h].phase.Sending?
    case Check(h) => h < |st.handlers| && st.handlers[h].phase.Checking?
  }

  function Put(st: State, d: Dgram): State {
    st.(net := st.net + [d])
  }

  function SetPhase(st: State, h: nat, phase: Phase): State
    requires h < |st.handlers|
  {
    st.(handlers := st.handlers[h := st.handlers[h].(phase := phase)])
  }

  // addItem and the new thread.
  function Spawn(st: State, d: Dgram): State
    requires d.dest.Host? && d.body.Syn?
  {
    var a := d.dest.addr;
    st.(records := st.records[(a, d.from) := Rec(d.s, false)],
        handlers := st.handlers + [Handler(a, d.from, d.s, d.body.hops, Start, 0, d.upd, d.pos)])
  }

  // sendBack's response; hashport, a counter, is not part of this model.
  function Response(handler: Handler): Dgram {
    Dgram(Socket(handler.cli), Listen(handler.hop), SynAck, handler.s, handler.upd, handler.pos + 1)
  }

  // handleRequest up to the retry loop.
  function BeginHandler(st: State, h: nat): State
    requires h < |st.handlers|
  {
    var handler := st.handlers[h];
    if handler.s <= 0 then SetPhase(st, h, Done(false))
    else if handler.Forwards() then
      Put(SetPhase(st, h, Waiting),
          Dgram(Host(handler.hops[1]), Own(h), Syn(handler.hops[1..]), handler.s, handler.upd, handler.pos + 1))
    else SetPhase(st, h, Sending(Response(handler)))
  }

  // One turn's count and, on every 40th, the send to the previous hop.
  function SendTurn(st: State, h: nat): State
    requires h < |st.handlers| && st.handlers[h].phase.Sending?
  {
    var handler := st.handlers[h];
    var m := handler.phase.m;
    var st1 := st.(handlers := st.handlers[h := handler.(phase := Checking(m), count := handler.count + 1)]);
    if (handler.count + 1) % SEND_PERIOD == 1
    then Put(st1, m.(dest := Socket(handler.cli), from := Listen(handler.hop), pos := handler.pos + 1))
    else st1
  }

  // The turn's lookup: leave when acknowledged or at the limit.
  function CheckTurn(st: State, h: nat): State
    requires h < |st.handlers| && st.handlers[h].phase.Checking?
  {
    var handler := st.handlers[h];
    var m := handler.phase.m;
    var key := (handler.hop, handler.cli);
    if key in st.records && st.records[key].acked then
      var st1 := SetPhase(st, h, Done(true));
      if handler.Forwards()
      then Put(st1, Dgram(Host(handler.hops[1]), Own(h), Ack, m.s, m.upd, handler.pos + 1))
      else st1
    else if handler.count >= RETRY_LIMIT then SetPhase(st, h, Done(false))
    else SetPhase(st, h, Sending(m))
  }

  function Apply(st: State, step: Step): State
    requires Enabled(st, step)
  {
    match step
    case ClientSyn(port, s, list) =>
      Put(st.(clients := st.clients + [Client(port, s, list, false)]),
          Dgram(Host(list[0]), Port(port), Syn(list), s, |st.clients|, 0))
    case ClientAck(u, i) =>
      // Whatever the datagram says: both branches of the test reach the send.
      var c := st.clients[u];
      Put(st.(clients := st.clients[u := c.(acked := true)]),
          Dgram(Host(c.list[0]), Port(c.port), Ack, c.s, u, 0))
    case RecvSyn(i) =>
      var d := st.net[i];
      if Fresh(st.records, (d.dest.addr, d.from), d.s) then Spawn(st, d) else st
    case RecvAck(i) =>
      var d := st.net[i];
      var key := (d.dest.addr, d.from);
      if Acknowledges(st.records, key, d.s)
      then st.(records := st.records[key := st.records[key].(acked := true)],
               acks := st.acks + {(d.dest.addr, d.from, d.s)})
      else st
    case Begin(h) => BeginHandler(st, h)
    case Receive(h, i) => SetPhase(st, h, Sending(st.net[i]))
    case Send(h) => SendTurn(st, h)
    case Check(h) => CheckTurn(st, h)
  }

  ghost predicate Next(st: State, st': State) {
    exists step :: Enabled(st, step) && st' == Apply(st, step)
  }

  // A finite run of the protocol; it may stop anywhere.
  ghost predicate IsRun(run: seq<State>) {
    run != [] && run[0] == Init() && forall i :: 0 < i < |run| ==> Next(run[i - 1], run[i])
  }

  function Last(run: seq<State>): State
    requires run != []
  {
    run[|run| - 1]
  }

  // A run goes on with any enabled step.
  lemma Go(run: seq<State>, step: Step) returns (next: seq<State>)
    requires IsRun(run) && Enabled(Last(run), step)
    ensures next != [] && IsRun(next) && Last(next) == Apply(Last(run), step)
  {
    next := run + [Apply(Last(run), step)];
    assert Next(Last(run), Last(next));
    hide Next;
  }

  lemma OnlyInit() returns (run: seq<State>)
    ensures run != [] && IsRun(run) && Last(run) == Init()
  {
    run := [Init()];
  }
}
