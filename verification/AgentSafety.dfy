// What every run of the agents keeps: an ACK follows a complete sweep of the
// hop list, it finds a record wherever it arrives, and every flow accepts each
// sequence number at most once.
module AgentSafety {
  import opened Wrappers
  import opened Agent

  // The first n hops of s's list have accepted s and told their kernel.
  ghost predicate Swept(plan: Plan, st: State, s: int, n: int) {
    forall j :: 0 <= j < n && j < |plan(s)| ==> (plan(s)[j], s) in st.accepted
  }

  // No hop is in the list twice.
  ghost predicate Once(list: seq<Addr>) {
    forall i, j :: 0 <= i < j < |list| ==> list[i] != list[j]
  }

  // x is a socket from which s is sent to place p.
  ghost predicate Speaks(st: State, s: int, p: nat, x: Sock) {
    if p == 0 then x.Port?
    else x.Own? && x.thread < |st.threads| && st.threads[x.thread].s == s && st.threads[x.thread].pos == p - 1
  }

  // The whole list has been swept.  Numbers that are not positive, and lists that
  // come back to a hop, never get that far.
  ghost predicate Complete(plan: Plan, st: State, s: int) {
    s > 0 && Once(plan(s)) && Swept(plan, st, s, |plan(s)|)
  }

  ghost predicate Legit(plan: Plan, st: State, d: Dgram) {
    && d.pos < |plan(d.s)|
    && match d.body
       case UpdateSyn(list) =>
         d.dest == Host(plan(d.s)[d.pos]) && list == plan(d.s)[d.pos..] && Speaks(st, d.s, d.pos, d.from)
         && Swept(plan, st, d.s, d.pos) && Once(plan(d.s)[..d.pos])
       case UpdateSynAck =>
         d.dest.Socket? && Speaks(st, d.s, d.pos, d.dest.sock) && Complete(plan, st, d.s)
       case UpdateAck =>
         d.dest == Host(plan(d.s)[d.pos]) && Complete(plan, st, d.s)
  }

  ghost predicate AtLeast(rec: Option<int>, s: int) {
    rec.Some? && rec.value >= s
  }

  ghost predicate Placed(plan: Plan, st: State, thread: Thread) {
    && thread.pos < |plan(thread.s)|
    && thread.hop == plan(thread.s)[thread.pos] && thread.list == plan(thread.s)[thread.pos..]
    && Speaks(st, thread.s, thread.pos, thread.cli)
    && Swept(plan, st, thread.s, thread.pos + 1) && Once(plan(thread.s)[..thread.pos + 1])
    && AtLeast(NodeAt(st, thread.hop).rec, thread.s)
  }

  // Forwarding threads hold SYN-ACKs of their own number; the others are last.
  ghost predicate PcOk(plan: Plan, st: State, thread: Thread) {
    match thread.pc
    case Received(m) => Relays(plan, st, thread, m)
    case Deciding(m) => Relays(plan, st, thread, m)
    case Polling => |thread.list| > 1
    case Releasing => |thread.list| > 1
    case Counting => |thread.list| <= 1 && thread.s > 0
    case Wanting => |thread.list| <= 1 && thread.s > 0
    case Testing => |thread.list| <= 1 && thread.s > 0
    case Letting => |thread.list| <= 1 && thread.s > 0
    case Answering => |thread.list| <= 1 && thread.s > 0
    case _ => true
  }

  ghost predicate Relays(plan: Plan, st: State, thread: Thread, m: Dgram) {
    |thread.list| > 1 && m.body.UpdateSynAck? && m.s == thread.s && Complete(plan, st, thread.s)
  }

  ghost predicate NetOk(plan: Plan, st: State) {
    forall i :: 0 <= i < |st.net| ==> Legit(plan, st, st.net[i])
  }

  ghost predicate ThreadsOk(plan: Plan, st: State) {
    forall t :: 0 <= t < |st.threads| ==> Placed(plan, st, st.threads[t]) && PcOk(plan, st, st.threads[t])
  }

  // Accepted numbers stay recorded, or are overtaken.
  ghost predicate RecordsOk(st: State) {
    forall k :: k in st.accepted ==> AtLeast(NodeAt(st, k.0).rec, k.1)
  }

  // An ACK that main is working on is for the hop and followed a complete sweep.
  ghost predicate MainsOk(plan: Plan, st: State) {
    forall a :: a in st.nodes && !st.nodes[a].main.Idle? ==> Acked(plan, st, a, st.nodes[a].main.s)
  }

  ghost predicate Acked(plan: Plan, st: State, a: Addr, s: int) {
    a in plan(s) && Complete(plan, st, s)
  }

  ghost predicate Inv(plan: Plan, st: State) {
    NetOk(plan, st) && ThreadsOk(plan, st) && RecordsOk(st) && MainsOk(plan, st) && !st.crashed
  }

  function Fixed(thread: Thread): Thread {
    thread.(pc := Start, count := 0, released := false, timedOut := false)
  }

  // What only ever grows.
  ghost predicate Extends(st: State, st': State) {
    && |st.threads| <= |st'.threads|
    && (forall t :: 0 <= t < |st.threads| ==> Fixed(st'.threads[t]) == Fixed(st.threads[t]))
    && (forall a, s :: AtLeast(NodeAt(st, a).rec, s) ==> AtLeast(NodeAt(st', a).rec, s))
    && st.net <= st'.net
    && st.accepted <= st'.accepted
  }

  lemma SpeaksMono(st: State, st': State, s: int, p: nat, x: Sock)
    requires Extends(st, st') && Speaks(st, s, p, x)
    ensures Speaks(st', s, p, x)
  {
    if p > 0 {
      assert Fixed(st'.threads[x.thread]) == Fixed(st.threads[x.thread]);
    }
  }

  lemma SweptMono(plan: Plan, st: State, st': State, s: int, n: int)
    requires Extends(st, st') && Swept(plan, st, s, n)
    ensures Swept(plan, st', s, n)
  {}

  lemma LegitMono(plan: Plan, st: State, st': State, d: Dgram)
    requires Extends(st, st') && Legit(plan, st, d)
    ensures Legit(plan, st', d)
  {
    hide Swept, Speaks, Extends;
    match d.body
    case UpdateSyn(list) =>
      SpeaksMono(st, st', d.s, d.pos, d.from);
      SweptMono(plan, st, st', d.s, d.pos);
    case UpdateSynAck =>
      SpeaksMono(st, st', d.s, d.pos, d.dest.sock);
      SweptMono(plan, st, st', d.s, |plan(d.s)|);
    case UpdateAck =>
      SweptMono(plan, st, st', d.s, |plan(d.s)|);
  }

  lemma PlacedMono(plan: Plan, st: State, st': State, thread: Thread)
    requires Extends(st, st') && Placed(plan, st, thread)
    ensures Placed(plan, st', thread)
  {
    hide Swept, Speaks;
    SpeaksMono(st, st', thread.s, thread.pos, thread.cli);
    SweptMono(plan, st, st', thread.s, thread.pos + 1);
  }

  lemma PcMono(plan: Plan, st: State, st': State, thread: Thread)
    requires Extends(st, st') && PcOk(plan, st, thread)
    ensures PcOk(plan, st', thread)
  {
    hide Swept, Extends;
    if thread.pc.Received? || thread.pc.Deciding? {
      SweptMono(plan, st, st', thread.s, |plan(thread.s)|);
    }
  }

  lemma NetByCases(plan: Plan, st: State, st': State)
    requires NetOk(plan, st) && Extends(st, st')
    requires forall i :: |st.net| <= i < |st'.net| ==> Legit(plan, st', st'.net[i])
    ensures NetOk(plan, st')
  {
    hide Legit;
    forall i | 0 <= i < |st'.net| ensures Legit(plan, st', st'.net[i]) {
      if i < |st.net| {
        assert st'.net[i] == st.net[i];
        LegitMono(plan, st, st', st.net[i]);
      }
    }
  }

  lemma ThreadsByCases(plan: Plan, st: State, st': State)
    requires ThreadsOk(plan, st) && Extends(st, st')
    requires forall t :: 0 <= t < |st'.threads| && (t >= |st.threads| || st'.threads[t] != st.threads[t]) ==>
               Placed(plan, st', st'.threads[t]) && PcOk(plan, st', st'.threads[t])
    ensures ThreadsOk(plan, st')
  {
    hide Placed, PcOk;
    forall t | 0 <= t < |st'.threads|
      ensures Placed(plan, st', st'.threads[t]) && PcOk(plan, st', st'.threads[t])
    {
      if t < |st.threads| && st'.threads[t] == st.threads[t] {
        PlacedMono(plan, st, st', st.threads[t]);
        PcMono(plan, st, st', st.threads[t]);
      }
    }
  }

  lemma MainsByCases(plan: Plan, st: State, st': State)
    requires MainsOk(plan, st) && Extends(st, st')
    requires forall a ::
               (a in st'.nodes && !st'.nodes[a].main.Idle?
                && !(a in st.nodes && !st.nodes[a].main.Idle? && st.nodes[a].main.s == st'.nodes[a].main.s)) ==>
               Acked(plan, st', a, st'.nodes[a].main.s)
    ensures MainsOk(plan, st')
  {
    hide Swept, Extends;
    forall a | a in st'.nodes && !st'.nodes[a].main.Idle? ensures Acked(plan, st', a, st'.nodes[a].main.s) {
      if a in st.nodes && !st.nodes[a].main.Idle? && st.nodes[a].main.s == st'.nodes[a].main.s {
        SweptMono(plan, st, st', st'.nodes[a].main.s, |plan(st'.nodes[a].main.s)|);
      }
    }
  }

  // ----- the initiator -----

  lemma InitiateKeeps(plan: Plan, st: State, port: nat, s: int)
    requires Plans(plan) && Inv(plan, st)
    ensures Inv(plan, InitiateSyn(plan, st, port, s))
  {
    hide NetOk, ThreadsOk, Plans;
    var st' := InitiateSyn(plan, st, port, s);
    assert Extends(st, st');
    FirstLegit(plan, st', port, s);
    hide Legit, Extends;
    NetByCases(plan, st, st');
    ThreadsByCases(plan, st, st');
  }

  lemma FirstLegit(plan: Plan, st: State, port: nat, s: int)
    requires Plans(plan)
    ensures Legit(plan, st, Dgram(Host(First(plan(s))), Port(port), UpdateSyn(plan(s)), s, 0))
  {
    assert plan(s)[0..] == plan(s);
  }

  lemma AnsweredKeeps(plan: Plan, st: State, u: nat, d: Dgram)
    requires Plans(plan) && Inv(plan, st) && u < |st.clients| && Legit(plan, st, d)
    ensures Inv(plan, Answered(plan, st, u, d))
  {
    hide NetOk, ThreadsOk, Swept, Plans;
    var st' := Answered(plan, st, u, d);
    assert Extends(st, st');
    if d.body.UpdateSynAck? && d.s == st.clients[u].s {
      SweptMono(plan, st, st', d.s, |plan(d.s)|);
      ListExists(plan, d.s);
    }
    MainsByCases(plan, st, st');
    hide Extends, MainsOk;
    NetByCases(plan, st, st');
    hide Legit;
    ThreadsByCases(plan, st, st');
  }

  lemma ListExists(plan: Plan, s: int)
    requires Plans(plan)
    ensures plan(s) != [] && First(plan(s)) == plan(s)[0]
  {}

  // ----- main -----

  lemma AcceptSynExtends(st: State, d: Dgram)
    requires d.dest.Host? && d.body.UpdateSyn?
    ensures Extends(st, AcceptSyn(st, d))
  {}

  lemma AcceptSynKeeps(plan: Plan, st: State, d: Dgram)
    requires Inv(plan, st) && Legit(plan, st, d) && d.dest.Host? && d.body.UpdateSyn?
    ensures Inv(plan, AcceptSyn(st, d))
  {
    hide NetOk, ThreadsOk, Extends, MainsOk, Legit;
    var st' := AcceptSyn(st, d);
    AcceptSynExtends(st, d);
    if Newer(NodeAt(st, d.dest.addr).rec, d.s) {
      NewThreadPlaced(plan, st, d);
    }
    AcceptSynRecords(st, d);
    hide RecordsOk, Placed, PcOk;
    NetByCases(plan, st, st');
    ThreadsByCases(plan, st, st');
    AcceptSynMains(plan, st, d);
  }

  lemma AcceptSynRecords(st: State, d: Dgram)
    requires RecordsOk(st) && d.dest.Host? && d.body.UpdateSyn?
    ensures RecordsOk(AcceptSyn(st, d))
  {}

  lemma AcceptSynMains(plan: Plan, st: State, d: Dgram)
    requires MainsOk(plan, st) && d.dest.Host? && d.body.UpdateSyn?
    ensures MainsOk(plan, AcceptSyn(st, d))
  {
    hide Swept, Extends;
    AcceptSynExtends(st, d);
    MainsByCases(plan, st, AcceptSyn(st, d));
  }

  lemma NewThreadPlaced(plan: Plan, st: State, d: Dgram)
    requires Legit(plan, st, d) && RecordsOk(st) && d.dest.Host? && d.body.UpdateSyn?
    requires Newer(NodeAt(st, d.dest.addr).rec, d.s)
    ensures var st' := AcceptSyn(st, d);
            |st'.threads| == |st.threads| + 1
            && Placed(plan, st', st'.threads[|st.threads|]) && PcOk(plan, st', st'.threads[|st.threads|])
  {
    var st' := AcceptSyn(st, d);
    AcceptSynExtends(st, d);
    SpeaksMono(st, st', d.s, d.pos, d.from);
    SweptMono(plan, st, st', d.s, d.pos);
    NewHopIsNew(plan, st, d);
    hide Speaks, Extends, Once, RecordsOk;
    assert (d.dest.addr, d.s) in st'.accepted;
    assert Swept(plan, st', d.s, d.pos + 1);
  }

  // A hop that the SYN has already passed would not accept it again.
  lemma NewHopIsNew(plan: Plan, st: State, d: Dgram)
    requires Legit(plan, st, d) && RecordsOk(st) && d.dest.Host? && d.body.UpdateSyn?
    requires Newer(NodeAt(st, d.dest.addr).rec, d.s)
    ensures Once(plan(d.s)[..d.pos + 1])
  {
    hide Speaks;
    var list := plan(d.s)[..d.pos + 1];
    forall i | 0 <= i < d.pos ensures list[i] != list[d.pos] {
      assert (plan(d.s)[i], d.s) in st.accepted;
    }
    assert list[..d.pos] == plan(d.s)[..d.pos];
    forall i, j | 0 <= i < j < |list| ensures list[i] != list[j] {
      if j < d.pos {
        assert plan(d.s)[..d.pos][i] != plan(d.s)[..d.pos][j];
      }
    }
  }

  lemma AcceptAckKeeps(plan: Plan, st: State, d: Dgram)
    requires Inv(plan, st) && Legit(plan, st, d) && d.body.UpdateAck?
    ensures Inv(plan, AcceptAck(st, d))
  {
    hide NetOk, ThreadsOk;
    var st' := AcceptAck(st, d);
    assert (d.dest.addr, d.s) in st.accepted;
    assert AtLeast(NodeAt(st, d.dest.addr).rec, d.s);
    assert Extends(st, st');
    SweptMono(plan, st, st', d.s, |plan(d.s)|);
    hide Swept, Extends, Legit;
    MainsByCases(plan, st, st');
    NetByCases(plan, st, st');
    ThreadsByCases(plan, st, st');
  }

  lemma TurnMainKeeps(plan: Plan, st: State, a: Addr)
    requires Inv(plan, st) && !NodeAt(st, a).main.Idle?
    ensures Inv(plan, TurnMain(st, a))
  {
    hide NetOk, ThreadsOk, Swept;
    var st' := TurnMain(st, a);
    assert Extends(st, st');
    MainsByCases(plan, st, st');
    hide Extends, MainsOk;
    NetByCases(plan, st, st');
    ThreadsByCases(plan, st, st');
  }

  // ----- handler threads -----

  // A thread's own step: it moves to thread, its hop's node to n, and out is sent.
  ghost function After(st: State, t: nat, thread: Thread, n: Node, out: seq<Dgram>): State
    requires t < |st.threads|
  {
    SetNode(st, thread.hop, n).(threads := st.threads[t := thread], net := st.net + out)
  }

  lemma AfterExtends(st: State, t: nat, thread: Thread, n: Node, out: seq<Dgram>)
    requires t < |st.threads| && Fixed(thread) == Fixed(st.threads[t]) && n.rec == NodeAt(st, thread.hop).rec
    ensures Extends(st, After(st, t, thread, n, out))
  {}

  lemma AfterPlaced(plan: Plan, st: State, t: nat, thread: Thread, n: Node, out: seq<Dgram>)
    requires ThreadsOk(plan, st)
    requires t < |st.threads| && Fixed(thread) == Fixed(st.threads[t]) && n.rec == NodeAt(st, thread.hop).rec
    ensures Extends(st, After(st, t, thread, n, out)) && Placed(plan, After(st, t, thread, n, out), thread)
  {
    hide Extends, PcOk, Placed;
    AfterExtends(st, t, thread, n, out);
    assert Placed(plan, st, st.threads[t]);
    PlacedMono(plan, st, After(st, t, thread, n, out), st.threads[t]);
    SamePlaced(plan, After(st, t, thread, n, out), st.threads[t], thread);
  }

  lemma SamePlaced(plan: Plan, st: State, thread: Thread, other: Thread)
    requires Placed(plan, st, thread) && Fixed(other) == Fixed(thread)
    ensures Placed(plan, st, other)
  {}

  lemma ThreadStepKeeps(plan: Plan, st: State, t: nat, thread: Thread, n: Node, out: seq<Dgram>)
    requires Inv(plan, st) && t < |st.threads| && Fixed(thread) == Fixed(st.threads[t])
    requires n.rec == NodeAt(st, thread.hop).rec && n.main == NodeAt(st, thread.hop).main
    requires PcOk(plan, After(st, t, thread, n, out), thread)
    requires |out| <= 1 && (out != [] ==> Legit(plan, After(st, t, thread, n, out), out[0]))
    ensures Inv(plan, After(st, t, thread, n, out))
  {
    hide Placed, PcOk, Legit, Extends, Swept, ThreadsOk, NetOk;
    var st' := After(st, t, thread, n, out);
    AfterPlaced(plan, st, t, thread, n, out);
    MainsByCases(plan, st, st');
    hide MainsOk;
    NetByCases(plan, st, st');
    ThreadsByCases(plan, st, st');
  }

  // Inv looks at the protocol's part of the state only.
  lemma SameNodes(plan: Plan, st: State, st': State)
    requires Inv(plan, st) && st'.net == st.net && st'.threads == st.threads && st'.accepted == st.accepted
    requires st'.crashed == st.crashed
    requires forall a :: NodeAt(st', a) == NodeAt(st, a)
    ensures Inv(plan, st')
  {
    hide NetOk, ThreadsOk, Swept;
    assert Extends(st, st');
    assert forall a :: a in st'.nodes ==> NodeAt(st', a) == st'.nodes[a];
    MainsByCases(plan, st, st');
    hide Extends, MainsOk;
    NetByCases(plan, st, st');
    ThreadsByCases(plan, st, st');
  }

  lemma BeginKeeps(plan: Plan, st: State, t: nat)
    requires Inv(plan, st) && t < |st.threads| && st.threads[t].pc.Start?
    ensures Inv(plan, BeginThread(st, t))
  {
    hide NetOk, ThreadsOk, Placed, Legit, Extends, RecordsOk, MainsOk;
    var thread := st.threads[t];
    var n := NodeAt(st, thread.hop);
    assert st.net + [] == st.net;
    if thread.s > 0 && |thread.list| > 1 {
      var thread' := thread.(pc := Polling);
      var d := Dgram(Host(Second(thread.list)), Own(t), UpdateSyn(thread.list[1..]), thread.s, thread.pos + 1);
      AfterPlaced(plan, st, t, thread', n, [d]);
      NextSynLegit(plan, After(st, t, thread', n, [d]), t, d);
      ThreadStepKeeps(plan, st, t, thread', n, [d]);
      SameNodes(plan, After(st, t, thread', n, [d]), BeginThread(st, t));
    } else {
      var thread' := thread.(pc := if thread.s <= 0 then Exited else Counting);
      ThreadStepKeeps(plan, st, t, thread', n, []);
      SameNodes(plan, After(st, t, thread', n, []), BeginThread(st, t));
    }
  }

  lemma NextSynLegit(plan: Plan, st: State, t: nat, d: Dgram)
    requires t < |st.threads| && Placed(plan, st, st.threads[t]) && |st.threads[t].list| > 1
    requires var thread := st.threads[t];
             d == Dgram(Host(Second(thread.list)), Own(t), UpdateSyn(thread.list[1..]), thread.s, thread.pos + 1)
    ensures Legit(plan, st, d)
  {
    hide Swept;
    var thread := st.threads[t];
    assert thread.list[1..] == plan(thread.s)[thread.pos + 1..];
  }

  lemma ReceiveKeeps(plan: Plan, st: State, t: nat, i: nat)
    requires Inv(plan, st) && Enabled(st, Receive(t, i))
    ensures Inv(plan, st.(threads := st.threads[t := st.threads[t].(pc := Received(st.net[i]))]))
  {
    hide ThreadsOk, Swept, Extends, RecordsOk, MainsOk, Placed;
    var thread, m := st.threads[t], st.net[i];
    var n := NodeAt(st, thread.hop);
    var thread' := thread.(pc := Received(m));
    assert Legit(plan, st, m);
    PollingHasNext(plan, st, t);
    AfterExtends(st, t, thread', n, []);
    SweptMono(plan, st, After(st, t, thread', n, []), thread.s, |plan(thread.s)|);
    hide NetOk;
    ThreadStepKeeps(plan, st, t, thread', n, []);
    assert st.net + [] == st.net;
    SameNodes(plan, After(st, t, thread', n, []), st.(threads := st.threads[t := thread']));
  }

  lemma PollingHasNext(plan: Plan, st: State, t: nat)
    requires ThreadsOk(plan, st) && t < |st.threads| && st.threads[t].pc.Polling?
    ensures |st.threads[t].list| > 1
  {
    hide Placed;
    assert PcOk(plan, st, st.threads[t]);
  }

  lemma TurnKeeps(plan: Plan, st: State, t: nat)
    requires Inv(plan, st) && Enabled(st, Turn(t))
    ensures Inv(plan, TurnThread(st, t))
  {
    hide NetOk, ThreadsOk, Placed, Legit, Extends, RecordsOk, MainsOk, ThreadNext, ThreadSends, PcOk;
    var thread := st.threads[t];
    var n := NodeAt(st, thread.hop);
    var (thread', n') := ThreadNext(thread, n, t);
    var out := ThreadSends(thread, n, t);
    var st' := After(st, t, thread', n', out);
    TurnFixed(thread, n, t);
    AfterPlaced(plan, st, t, thread', n', out);
    TurnPcOk(plan, st, t);
    TurnSends(plan, st, t);
    ThreadStepKeeps(plan, st, t, thread', n', out);
  }

  // A turn changes neither what the thread is about nor its hop's record.
  lemma TurnFixed(thread: Thread, n: Node, t: nat)
    ensures Fixed(ThreadNext(thread, n, t).0) == Fixed(thread)
    ensures ThreadNext(thread, n, t).1.rec == n.rec && ThreadNext(thread, n, t).1.main == n.main
    ensures |ThreadSends(thread, n, t)| <= 1
  {}

  lemma TurnPcOk(plan: Plan, st: State, t: nat)
    requires ThreadsOk(plan, st) && Enabled(st, Turn(t))
    requires Extends(st, TurnThread(st, t))
    ensures PcOk(plan, TurnThread(st, t), TurnThread(st, t).threads[t])
  {
    hide Placed, Extends, Swept, ThreadSends;
    var thread := st.threads[t];
    assert PcOk(plan, st, thread);
    hide ThreadsOk;
    if thread.pc.Received? {
      SweptMono(plan, st, TurnThread(st, t), thread.s, |plan(thread.s)|);
    }
  }

  lemma TurnSends(plan: Plan, st: State, t: nat)
    requires ThreadsOk(plan, st) && Enabled(st, Turn(t))
    requires var st' := TurnThread(st, t);
             Extends(st, st') && Placed(plan, st', st'.threads[t])
    ensures var out := ThreadSends(st.threads[t], NodeAt(st, st.threads[t].hop), t);
            |out| <= 1 && (out != [] ==> Legit(plan, TurnThread(st, t), out[0]))
  {
    hide ThreadsOk, Extends, Swept, Placed, PcOk, TurnThread, Legit;
    var thread := st.threads[t];
    if thread.pc.Deciding? {
      DecidingSends(plan, st, TurnThread(st, t), t);
    } else if thread.pc.Answering? {
      AnsweringSends(plan, st, TurnThread(st, t), t);
    }
  }

  lemma DecidingSends(plan: Plan, st: State, st': State, t: nat)
    requires ThreadsOk(plan, st) && Extends(st, st') && t < |st.threads| && st.threads[t].pc.Deciding?
    ensures var thread, m := st.threads[t], st.threads[t].pc.m;
            && Legit(plan, st', Dgram(Host(Second(thread.list)), Own(t), UpdateAck, m.s, thread.pos + 1))
            && Legit(plan, st', m.(dest := Socket(thread.cli), from := Listen(thread.hop), pos := thread.pos))
  {
    var thread := st.threads[t];
    assert Placed(plan, st, thread) && PcOk(plan, st, thread);
    hide ThreadsOk, Swept, Extends;
    SweptMono(plan, st, st', thread.s, |plan(thread.s)|);
    SpeaksMono(st, st', thread.s, thread.pos, thread.cli);
  }

  lemma AnsweringSends(plan: Plan, st: State, st': State, t: nat)
    requires ThreadsOk(plan, st) && Extends(st, st') && t < |st.threads| && st.threads[t].pc.Answering?
    ensures var thread := st.threads[t];
            Legit(plan, st', Dgram(Socket(thread.cli), Listen(thread.hop), UpdateSynAck, thread.s, thread.pos))
  {
    hide Swept, Speaks, Extends, Placed;
    var thread := st.threads[t];
    assert Placed(plan, st, thread) && PcOk(plan, st, thread);
    hide ThreadsOk, PcOk;
    LastPlace(plan, st, thread);
    SweptMono(plan, st, st', thread.s, |plan(thread.s)|);
    SpeaksMono(st, st', thread.s, thread.pos, thread.cli);
  }

  lemma LastPlace(plan: Plan, st: State, thread: Thread)
    requires Placed(plan, st, thread) && |thread.list| <= 1
    ensures thread.pos < |plan(thread.s)| && Speaks(st, thread.s, thread.pos, thread.cli)
    ensures Swept(plan, st, thread.s, |plan(thread.s)|) && Once(plan(thread.s))
  {
    hide Speaks, Swept, Once;
    assert thread.pos + 1 == |plan(thread.s)| && plan(thread.s)[..thread.pos + 1] == plan(thread.s);
  }

  lemma StepKeepsInv(plan: Plan, st: State, step: Step)
    requires Plans(plan) && Inv(plan, st) && Enabled(st, step)
    ensures Inv(plan, Apply(plan, st, step))
  {
    hide Inv, Legit, InitiateSyn, Answered, AcceptSyn, AcceptAck, TurnMain, BeginThread, TurnThread;
    match step
    case Initiate(port, s) => InitiateKeeps(plan, st, port, s);
    case InitiatorReceive(u, i) =>
      NetLegit(plan, st, i);
      AnsweredKeeps(plan, st, u, st.net[i]);
    case MainReceive(i) =>
      NetLegit(plan, st, i);
      if st.net[i].body.UpdateSyn? {
        AcceptSynKeeps(plan, st, st.net[i]);
      } else {
        AcceptAckKeeps(plan, st, st.net[i]);
      }
    case MainTurn(a) => TurnMainKeeps(plan, st, a);
    case Begin(t) => BeginKeeps(plan, st, t);
    case Receive(t, i) => ReceiveKeeps(plan, st, t, i);
    case Turn(t) => TurnKeeps(plan, st, t);
    case _ => SameNodes(plan, st, Apply(plan, st, step));
  }

  lemma NetLegit(plan: Plan, st: State, i: nat)
    requires Inv(plan, st) && i < |st.net|
    ensures Legit(plan, st, st.net[i])
  {
    hide Legit;
  }

  lemma {:induction false} RunKeepsInv(plan: Plan, run: seq<State>)
    requires Plans(plan) && IsRun(plan, run)
    ensures Inv(plan, Last(run))
  {
    hide Inv, Apply, Enabled, Plans;
    if |run| == 1 {
      InitInv(plan);
    } else {
      RunKeepsInv(plan, run[..|run| - 1]);
      var st := run[|run| - 2];
      assert Next(plan, st, run[|run| - 1]);
      var step :| Enabled(st, step) && Last(run) == Apply(plan, st, step);
      StepKeepsInv(plan, st, step);
    }
  }

  lemma InitInv(plan: Plan)
    ensures Inv(plan, Init())
  {}

  // While an ACK for s is in the network, every hop of s's list has accepted s
  // and told its kernel -- whoever's update_ack released the hops on the way.
  lemma AckFollowsSweep(plan: Plan, run: seq<State>, d: Dgram, j: nat)
    requires Plans(plan) && IsRun(plan, run) && d in Last(run).net && d.body.UpdateAck? && j < |plan(d.s)|
    ensures d.s > 0 && Once(plan(d.s))
    ensures (plan(d.s)[j], d.s) in Last(run).accepted
  {
    RunKeepsInv(plan, run);
    assert Legit(plan, Last(run), d);
  }

  // So does a SYN-ACK, and it answers the number that was sent from the socket
  // it is addressed to.
  lemma SynAckFollowsSweep(plan: Plan, run: seq<State>, d: Dgram, j: nat)
    requires Plans(plan) && IsRun(plan, run) && d in Last(run).net && d.body.UpdateSynAck? && j < |plan(d.s)|
    ensures d.s > 0 && Once(plan(d.s))
    ensures (plan(d.s)[j], d.s) in Last(run).accepted
    ensures d.dest.Socket?
    ensures d.dest.sock.Own? ==>
              d.dest.sock.thread < |Last(run).threads| && Last(run).threads[d.dest.sock.thread].s == d.s
  {
    RunKeepsInv(plan, run);
    assert Legit(plan, Last(run), d);
  }

  // An ACK arriving at a hop finds a record, its number or newer, so the
  // unchecked read of the record is defined; no run crashes there.
  lemma AckFindsRecord(plan: Plan, run: seq<State>, d: Dgram)
    requires Plans(plan) && IsRun(plan, run) && d in Last(run).net && d.body.UpdateAck?
    ensures d.dest.Host? && AtLeast(NodeAt(Last(run), d.dest.addr).rec, d.s)
    ensures !Last(run).crashed
  {
    RunKeepsInv(plan, run);
    assert Legit(plan, Last(run), d);
    assert (d.dest.addr, d.s) in Last(run).accepted;
  }

  // ----- one handler per accepted number -----

  // A hop's handlers were spawned with rising sequence numbers.
  ghost predicate Rising(st: State) {
    forall g, h :: 0 <= g < h < |st.threads| && st.threads[g].hop == st.threads[h].hop ==>
      st.threads[g].s < st.threads[h].s
  }

  lemma AcceptSynRises(plan: Plan, st: State, d: Dgram)
    requires ThreadsOk(plan, st) && Rising(st) && d.dest.Host? && d.body.UpdateSyn?
    ensures Rising(AcceptSyn(st, d))
  {
    hide PcOk, Swept, Speaks;
    forall g | 0 <= g < |st.threads| && st.threads[g].hop == d.dest.addr && Newer(NodeAt(st, d.dest.addr).rec, d.s)
      ensures st.threads[g].s < d.s
    {
      assert Placed(plan, st, st.threads[g]);
    }
  }

  lemma StepKeepsRising(plan: Plan, st: State, step: Step)
    requires ThreadsOk(plan, st) && Rising(st) && Enabled(st, step)
    ensures Rising(Apply(plan, st, step))
  {
    hide Rising, ThreadsOk;
    if step.MainReceive? && st.net[step.i].body.UpdateSyn? {
      hide AcceptSyn;
      AcceptSynRises(plan, st, st.net[step.i]);
    } else if step.Begin? || step.Receive? || step.Turn? {
      hide Apply, Enabled;
      var t := step.t;
      OneThreadMoves(plan, st, step, t);
      OneThreadRises(st, Apply(plan, st, step), t);
    } else {
      hide Apply, Enabled;
      NoThreadMoves(plan, st, step);
      SameThreadsRise(st, Apply(plan, st, step));
    }
  }

  // Between st and st' only thread t moved, and stayed what it is about.
  ghost predicate OneMoved(st: State, st': State, t: nat) {
    t < |st.threads| == |st'.threads| && st'.threads == st.threads[t := st'.threads[t]]
    && Fixed(st'.threads[t]) == Fixed(st.threads[t])
  }

  lemma OneThreadMoves(plan: Plan, st: State, step: Step, t: nat)
    requires Enabled(st, step) && (step == Begin(t) || step == Turn(t) || (step.Receive? && step.t == t))
    ensures OneMoved(st, Apply(plan, st, step), t)
  {
    hide OneMoved, BeginThread, TurnThread;
    match step
    case Turn(t) => TurnMovesOne(st, t);
    case Begin(t) => BeginMovesOne(st, t);
    case Receive(t, i) => ReceiveMovesOne(st, t, st.net[i]);
    case _ => assert false;
  }

  lemma BeginMovesOne(st: State, t: nat)
    requires t < |st.threads|
    ensures OneMoved(st, BeginThread(st, t), t)
  {}

  lemma ReceiveMovesOne(st: State, t: nat, m: Dgram)
    requires t < |st.threads|
    ensures OneMoved(st, st.(threads := st.threads[t := st.threads[t].(pc := Received(m))]), t)
  {}

  lemma TurnMovesOne(st: State, t: nat)
    requires t < |st.threads|
    ensures OneMoved(st, TurnThread(st, t), t)
  {
    hide ThreadNext, ThreadSends, Fixed;
    TurnFixed(st.threads[t], NodeAt(st, st.threads[t].hop), t);
  }

  lemma NoThreadMoves(plan: Plan, st: State, step: Step)
    requires Enabled(st, step) && !step.Begin? && !step.Receive? && !step.Turn?
    requires !(step.MainReceive? && st.net[step.i].body.UpdateSyn?)
    ensures Apply(plan, st, step).threads == st.threads
  {}

  lemma SameThreadsRise(st: State, st': State)
    requires Rising(st) && st'.threads == st.threads
    ensures Rising(st')
  {}

  lemma OneThreadRises(st: State, st': State, t: nat)
    requires Rising(st) && OneMoved(st, st', t)
    ensures Rising(st')
  {}

  lemma {:induction false} RunKeepsRising(plan: Plan, run: seq<State>)
    requires Plans(plan) && IsRun(plan, run)
    ensures Rising(Last(run))
  {
    hide Inv, Rising, Apply, Enabled, Plans;
    if |run| == 1 {
      InitRises();
    } else {
      RunKeepsRising(plan, run[..|run| - 1]);
      RunKeepsInv(plan, run[..|run| - 1]);
      var st := run[|run| - 2];
      assert Next(plan, st, run[|run| - 1]);
      var step :| Enabled(st, step) && Last(run) == Apply(plan, st, step);
      InvThreads(plan, st);
      StepKeepsRising(plan, st, step);
    }
  }

  lemma InvThreads(plan: Plan, st: State)
    requires Inv(plan, st)
    ensures ThreadsOk(plan, st)
  {}

  lemma InitRises()
    ensures Rising(Init())
  {}

  // A hop accepts each number at most once, and the numbers it accepts rise.
  lemma AcceptedOnce(plan: Plan, run: seq<State>, g: nat, h: nat)
    requires Plans(plan) && IsRun(plan, run) && g < h < |Last(run).threads|
    requires Last(run).threads[g].hop == Last(run).threads[h].hop
    ensures Last(run).threads[g].s < Last(run).threads[h].s
  {
    RunKeepsRising(plan, run);
  }
}
