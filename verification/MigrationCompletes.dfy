// Every answerable update can complete: for any hop list, a run in which the SYN
// reaches every hop, the SYN-ACK comes back and the ACK passes every hop, each
// telling its kernel.  When both endpoints are on the list the connection has
// moved to the new box; when only one is, the migration loses packets.
module MigrationCompletes {
  import opened Wrappers
  import opened Rules
  import opened Agent
  import opened AgentSafety
  import opened AgentRuns
  import opened Migration

  // The socket that speaks to place j.
  function Cli(j: nat): Sock {
    if j == 0 then Port(0) else Own(j - 1)
  }

  function SynTo(list: seq<Addr>, s: int, j: nat): Dgram
    requires j < |list|
  {
    Dgram(Host(list[j]), Cli(j), UpdateSyn(list[j..]), s, j)
  }

  function AckTo(list: seq<Addr>, s: int, j: nat): Dgram
    requires j < |list|
  {
    Dgram(Host(list[j]), Cli(j), UpdateAck, s, j)
  }

  // The handler at place j.
  function ThreadAt(list: seq<Addr>, s: int, j: nat, pc: Pc, count: nat): Thread
    requires j < |list|
  {
    Thread(list[j], Cli(j), s, list[j..], pc, count, false, false, j)
  }

  function Ready(s: int): Node {
    Node(Some(s), false, Free, Idle, 0)
  }

  // ----- the kernels -----

  ghost function ClientAfter(syn: bool, ack: bool): RuleMap {
    var m := if syn then ClientCommand(ClientInit(), Syn) else ClientInit();
    if ack then ClientCommand(m, Ack) else m
  }

  ghost function ServerAfter(syn: bool, ack: bool): RuleMap {
    var m := if syn then ServerCommand(ServerInit(), Syn) else ServerInit();
    if ack then ServerCommand(m, Ack) else m
  }

  // The first n hops have told their kernels of the SYN, the first a of the ACK.
  ghost predicate Told(list: seq<Addr>, st: State, n: nat, a: nat)
    requires a <= n <= |list|
  {
    && st.client == ClientAfter(HOST_107 in list[..n], HOST_107 in list[..a])
    && st.server == ServerAfter(HOST_108 in list[..n], HOST_108 in list[..a])
    && st.packets == [] && st.delivered == []
  }

  lemma PrefixIn(list: seq<Addr>, n: nat, b: Addr)
    requires n < |list| && Once(list)
    ensures b in list[..n + 1] <==> b in list[..n] || b == list[n]
    ensures list[n] !in list[..n]
  {
    assert list[..n + 1] == list[..n] + [list[n]];
  }

  lemma TellSyn(list: seq<Addr>, st: State, n: nat)
    requires n < |list| && Once(list) && Told(list, st, n, 0)
    ensures Told(list, Netlink(st, list[n], Syn), n + 1, 0)
  {
    hide ClientCommand, ServerCommand, Once;
    PrefixIn(list, n, HOST_107);
    PrefixIn(list, n, HOST_108);
  }

  lemma TellAck(list: seq<Addr>, st: State, a: nat)
    requires a < |list| && Once(list) && Told(list, st, |list|, a)
    ensures Told(list, Netlink(st, list[a], Ack), |list|, a + 1)
  {
    hide ClientCommand, ServerCommand, Once;
    PrefixIn(list, a, HOST_107);
    PrefixIn(list, a, HOST_108);
  }

  lemma SameTold(list: seq<Addr>, st: State, st': State, n: nat, a: nat)
    requires a <= n <= |list| && Told(list, st, n, a)
    requires st'.client == st.client && st'.server == st.server
    requires st'.packets == st.packets && st'.delivered == st.delivered
    ensures Told(list, st', n, a)
  {}

  // ----- hops -----

  // Hops a to n have accepted s and are idle; hops past n know nothing.
  ghost predicate Hops(list: seq<Addr>, s: int, st: State, n: nat, a: nat)
    requires a <= n <= |list|
  {
    && (forall j :: a <= j < n ==> NodeAt(st, list[j]) == Ready(s))
    && (forall j :: n <= j < |list| ==> NodeAt(st, list[j]) == IDLE_NODE)
  }

  // Only hop list[j] may have changed, and is as it was.
  lemma SameHops(list: seq<Addr>, s: int, st: State, st': State, n: nat, a: nat)
    requires a <= n <= |list| && Hops(list, s, st, n, a)
    requires forall j :: a <= j < |list| ==> NodeAt(st', list[j]) == NodeAt(st, list[j])
    ensures Hops(list, s, st', n, a)
  {}

  // ----- the sweep -----

  // The first n hops have their handlers, at their loops.
  ghost predicate Sweeping(list: seq<Addr>, s: int, st: State, n: nat) {
    && n <= |list|
    && st.clients == [Client(0, s, false)]
    && |st.threads| == n
    && (forall j :: 0 <= j < n ==>
          st.threads[j] == ThreadAt(list, s, j, if j + 1 < |list| then Polling else Counting, 0))
    && Hops(list, s, st, n, 0) && Told(list, st, n, 0)
    && |st.net| == (if n < |list| then n + 1 else n)
    && (n < |list| ==> st.net[n] == SynTo(list, s, n))
  }

  lemma Starts(plan: Plan, s: int) returns (run: seq<State>)
    requires plan(s) != []
    ensures run != [] && IsRun(plan, run) && Sweeping(plan(s), s, Last(run), 0)
  {
    hide IsRun;
    run := OnlyInit(plan);
    run := Go(plan, run, Initiate(0, s));
    assert plan(s)[0..] == plan(s);
  }

  lemma SynArrives(list: seq<Addr>, s: int, st: State, n: nat)
    requires Once(list) && Sweeping(list, s, st, n) && n < |list|
    ensures Enabled(st, MainReceive(n))
    ensures var st' := AcceptSyn(st, st.net[n]);
            && st'.clients == st.clients && st'.net == st.net
            && st'.threads == st.threads + [ThreadAt(list, s, n, Start, 0)]
            && Hops(list, s, st', n + 1, 0) && Told(list, st', n + 1, 0)
  {
    hide Told, Netlink;
    TellSyn(list, st, n);
    NetlinkOnly(st, list[n], Syn);
    SameTold(list, Netlink(st, list[n], Syn), AcceptSyn(st, st.net[n]), n + 1, 0);
  }

  lemma NetlinkOnly(st: State, a: Addr, c: Command)
    ensures var st' := Netlink(st, a, c);
            st'.net == st.net && st'.clients == st.clients && st'.nodes == st.nodes && st'.threads == st.threads
            && st'.packets == st.packets && st'.delivered == st.delivered
  {}

  // Before hop n's handler begins: it is the only one not at its loop.
  ghost predicate Arrived(list: seq<Addr>, s: int, st: State, n: nat) {
    && n < |list|
    && st.clients == [Client(0, s, false)]
    && |st.threads| == n + 1 && st.threads[n] == ThreadAt(list, s, n, Start, 0)
    && (forall j :: 0 <= j < n ==> st.threads[j] == ThreadAt(list, s, j, Polling, 0))
    && Hops(list, s, st, n + 1, 0) && Told(list, st, n + 1, 0)
    && |st.net| == n + 1
  }

  lemma BeginsAt(list: seq<Addr>, s: int, st: State, n: nat)
    requires s > 0 && n < |list| && n < |st.threads| && st.threads[n] == ThreadAt(list, s, n, Start, 0)
    ensures Enabled(st, Begin(n))
    ensures var st', last := BeginThread(st, n), n + 1 == |list|;
            && st'.threads == st.threads[n := ThreadAt(list, s, n, if last then Counting else Polling, 0)]
            && st'.net == st.net + (if last then [] else [SynTo(list, s, n + 1)])
            && st'.nodes == st.nodes && SameAround(st, st')
  {
    assert list[n..][1..] == list[n + 1..];
  }

  lemma HandlerBegins(list: seq<Addr>, s: int, st: State, n: nat)
    requires s > 0 && Arrived(list, s, st, n)
    ensures Enabled(st, Begin(n)) && Sweeping(list, s, BeginThread(st, n), n + 1)
  {
    hide Told, Hops, BeginThread, ThreadAt, SynTo;
    BeginsAt(list, s, st, n);
    SameTold(list, st, BeginThread(st, n), n + 1, 0);
    SameHops(list, s, st, BeginThread(st, n), n + 1, 0);
  }

  lemma SweepOne(plan: Plan, s: int, run: seq<State>, n: nat) returns (next: seq<State>)
    requires s > 0 && Once(plan(s)) && run != [] && IsRun(plan, run)
    requires Sweeping(plan(s), s, Last(run), n) && n < |plan(s)|
    ensures next != [] && IsRun(plan, next) && Sweeping(plan(s), s, Last(next), n + 1)
  {
    hide IsRun, Told, Hops, AcceptSyn, BeginThread;
    var list := plan(s);
    SynArrives(list, s, Last(run), n);
    next := Go(plan, run, MainReceive(n));
    HandlerBegins(list, s, Last(next), n);
    hide Sweeping;
    next := Go(plan, next, Begin(n));
  }

  lemma {:induction false} Sweeps(plan: Plan, s: int, n: nat) returns (run: seq<State>)
    requires s > 0 && Once(plan(s)) && plan(s) != [] && n <= |plan(s)|
    ensures run != [] && IsRun(plan, run) && Sweeping(plan(s), s, Last(run), n)
  {
    hide IsRun, Sweeping, Once;
    if n == 0 {
      run := Starts(plan, s);
    } else {
      run := Sweeps(plan, s, n - 1);
      run := SweepOne(plan, s, run, n - 1);
    }
  }

  // ----- the answer -----

  // Every hop has its handler at its loop; the last handler has counted count
  // turns.
  ghost predicate Waits(list: seq<Addr>, s: int, st: State, count: nat) {
    && list != []
    && |st.threads| == |list|
    && (forall j :: 0 <= j < |list| - 1 ==> st.threads[j] == ThreadAt(list, s, j, Polling, 0))
    && st.threads[|list| - 1] == ThreadAt(list, s, |list| - 1, Counting, count)
  }

  // The answer to place j is in the network, where it was put.
  ghost predicate AnswerTo(list: seq<Addr>, s: int, net: seq<Dgram>, j: int) {
    && 0 <= j < |list| && 2 * |list| - j - 1 < |net|
    && IsAnswer(net[2 * |list| - j - 1], s, j)
  }

  ghost predicate IsAnswer(d: Dgram, s: int, j: nat) {
    d.dest == Socket(Cli(j)) && d.body == UpdateSynAck && d.s == s
  }

  // The answer has come back to place n, hop by hop.
  ghost predicate AnswerReached(list: seq<Addr>, s: int, st: State, n: nat) {
    && n < |list| && Waits(list, s, st, 1)
    && st.clients == [Client(0, s, false)]
    && Hops(list, s, st, |list|, 0) && Told(list, st, |list|, 0)
    && |st.net| == 2 * |list| - n
    && (forall j :: n <= j < |list| ==> AnswerTo(list, s, st.net, j))
  }

  // The last handler's first turn: count, lock, test, unlock, answer.
  lemma LastTurn(plan: Plan, list: seq<Addr>, s: int, run: seq<State>) returns (next: seq<State>)
    requires list != [] && run != [] && IsRun(plan, run) && Sweeping(list, s, Last(run), |list|)
    ensures next != [] && IsRun(plan, next)
    ensures var k := |list| - 1;
            Moved(Last(run), Last(next), k, ThreadAt(list, s, k, Counting, 1), Ready(s),
                  [Dgram(Socket(Cli(k)), Listen(list[k]), UpdateSynAck, s, k)])
  {
    var st, k := Last(run), |list| - 1;
    var thread, n := ThreadAt(list, s, k, Counting, 0), Ready(s);
    assert NodeAt(st, list[k]) == n && st.threads[k] == thread;
    NotMoved(st, k);
    hide IsRun, Moved, Sweeping, ThreadAt;
    next := GoTurn(plan, st, run, k, thread, n, []);
    next := GoTurn(plan, st, next, k, thread.(pc := Wanting, count := 1), n, []);
    next := GoTurn(plan, st, next, k, thread.(pc := Testing, count := 1), n.(lock := Handler(k)), []);
    next := LastSays(plan, st, next, list, s);
  }

  // Not acknowledged: unlock and answer.
  lemma LastSays(plan: Plan, st: State, run: seq<State>, list: seq<Addr>, s: int) returns (next: seq<State>)
    requires list != [] && run != [] && IsRun(plan, run)
    requires var k := |list| - 1;
             Moved(st, Last(run), k, ThreadAt(list, s, k, Letting, 1), Ready(s).(lock := Handler(k)), [])
    ensures next != [] && IsRun(plan, next)
    ensures var k := |list| - 1;
            Moved(st, Last(next), k, ThreadAt(list, s, k, Counting, 1), Ready(s),
                  [Dgram(Socket(Cli(k)), Listen(list[k]), UpdateSynAck, s, k)])
  {
    hide IsRun, Moved;
    var k := |list| - 1;
    var thread, n := ThreadAt(list, s, k, Letting, 1), Ready(s);
    var d := Dgram(Socket(Cli(k)), Listen(list[k]), UpdateSynAck, s, k);
    assert ThreadNext(thread, n.(lock := Handler(k)), k) == (thread.(pc := Answering), n);
    assert [] + ThreadSends(thread, n.(lock := Handler(k)), k) == [];
    next := GoTurn(plan, st, run, k, thread, n.(lock := Handler(k)), []);
    assert ThreadNext(thread.(pc := Answering), n, k) == (thread.(pc := Counting), n);
    assert [] + ThreadSends(thread.(pc := Answering), n, k) == [d];
    next := GoTurn(plan, st, next, k, thread.(pc := Answering), n, []);
  }

  lemma LastAnswers(plan: Plan, s: int, run: seq<State>) returns (next: seq<State>)
    requires s > 0 && Once(plan(s)) && plan(s) != [] && run != [] && IsRun(plan, run)
    requires Sweeping(plan(s), s, Last(run), |plan(s)|)
    ensures next != [] && IsRun(plan, next) && AnswerReached(plan(s), s, Last(next), |plan(s)| - 1)
  {
    hide IsRun, Told;
    var list := plan(s);
    next := LastTurn(plan, list, s, run);
    SameTold(list, Last(run), Last(next), |list|, 0);
    SameHops(list, s, Last(run), Last(next), |list|, 0);
  }

  // One hop's relay: receive, lock, relay, unlock.
  lemma Relays1(plan: Plan, list: seq<Addr>, s: int, run: seq<State>, j: nat, i: nat) returns (next: seq<State>)
    requires run != [] && IsRun(plan, run) && j < |list| && j < |Last(run).threads| && i < |Last(run).net|
    requires Last(run).threads[j] == ThreadAt(list, s, j, Polling, 0) && NodeAt(Last(run), list[j]) == Ready(s)
    requires IsAnswer(Last(run).net[i], s, j + 1)
    ensures next != [] && IsRun(plan, next)
    ensures var m := Last(run).net[i];
            Moved(Last(run), Last(next), j, ThreadAt(list, s, j, Polling, 0), Ready(s),
                  [m.(dest := Socket(Cli(j)), from := Listen(list[j]), pos := j)])
  {
    var st, m := Last(run), Last(run).net[i];
    hide IsRun, Moved;
    var thread, n := ThreadAt(list, s, j, Polling, 0), Ready(s);
    next := GoReceive(plan, run, j, i);
    next := GoTurn(plan, st, next, j, thread.(pc := Received(m)), n, []);
    next := GoTurn(plan, st, next, j, thread.(pc := Deciding(m)), n.(lock := Handler(j)), []);
    var out := [m.(dest := Socket(Cli(j)), from := Listen(list[j]), pos := j)];
    next := GoTurn(plan, st, next, j, thread.(pc := Releasing), n.(lock := Handler(j)), out);
  }

  lemma RelayOne(plan: Plan, s: int, run: seq<State>, n: nat) returns (next: seq<State>)
    requires run != [] && IsRun(plan, run) && Once(plan(s)) && AnswerReached(plan(s), s, Last(run), n) && n > 0
    ensures next != [] && IsRun(plan, next) && AnswerReached(plan(s), s, Last(next), n - 1)
  {
    hide IsRun, Told;
    var list := plan(s);
    var st := Last(run);
    assert AnswerTo(list, s, st.net, n);
    next := Relays1(plan, list, s, run, n - 1, 2 * |list| - n - 1);
    SameTold(list, st, Last(next), |list|, 0);
    SameHops(list, s, st, Last(next), |list|, 0);
    hide Hops;
    forall j | n - 1 <= j < |list| ensures AnswerTo(list, s, Last(next).net, j) {
      assert j >= n ==> AnswerTo(list, s, st.net, j);
    }
  }

  lemma {:induction false} Answers(plan: Plan, s: int, n: nat) returns (run: seq<State>)
    requires s > 0 && Once(plan(s)) && n < |plan(s)|
    ensures run != [] && IsRun(plan, run) && AnswerReached(plan(s), s, Last(run), n)
    decreases |plan(s)| - n
  {
    hide IsRun, AnswerReached, Sweeping, Once;
    if n == |plan(s)| - 1 {
      run := Sweeps(plan, s, |plan(s)|);
      run := LastAnswers(plan, s, run);
    } else {
      run := Answers(plan, s, n + 1);
      run := RelayOne(plan, s, run, n + 1);
    }
  }

  // ----- the ACK -----

  // The first n hops have accepted the ACK and told their kernels; it is on its
  // way to the next.
  ghost predicate AckReached(list: seq<Addr>, s: int, st: State, n: nat) {
    && n <= |list| && list != []
    && |st.threads| == |list|
    && (forall j :: n <= j < |list| - 1 ==> st.threads[j] == ThreadAt(list, s, j, Polling, 0))
    && Hops(list, s, st, |list|, n) && Told(list, st, |list|, n)
    && |st.net| == 2 * |list| + (if n < |list| then n + 1 else n)
    && (forall j :: 1 <= j < |list| ==> AnswerTo(list, s, st.net, j))
    && (n < |list| ==> st.net[|st.net| - 1] == AckTo(list, s, n))
  }

  lemma InitiatorAcks(plan: Plan, s: int, run: seq<State>) returns (next: seq<State>)
    requires run != [] && IsRun(plan, run) && AnswerReached(plan(s), s, Last(run), 0)
    ensures next != [] && IsRun(plan, next) && AckReached(plan(s), s, Last(next), 0)
  {
    hide IsRun, Told;
    var list := plan(s);
    var st := Last(run);
    assert AnswerTo(list, s, st.net, 0);
    next := Go(plan, run, InitiatorReceive(0, 2 * |list| - 1));
    SameTold(list, st, Last(next), |list|, 0);
    SameHops(list, s, st, Last(next), |list|, 0);
    hide Hops;
    forall j | 1 <= j < |list| ensures AnswerTo(list, s, Last(next).net, j) {
      assert AnswerTo(list, s, st.net, j);
    }
  }

  // main: receive the ACK, lock, set update_ack, unlock, tell the kernel.
  lemma MainAcks(plan: Plan, list: seq<Addr>, s: int, run: seq<State>, a: Addr, i: nat) returns (next: seq<State>)
    requires run != [] && IsRun(plan, run) && NodeAt(Last(run), a) == Ready(s)
    requires i < |Last(run).net| && Last(run).net[i].dest == Host(a) && Last(run).net[i].body == UpdateAck
    requires Last(run).net[i].s == s
    ensures next != [] && IsRun(plan, next)
    ensures var st, st' := Last(run), Last(next);
            && NodeAt(st', a) == Ready(s).(updateAck := true, sets := 1)
            && (forall b :: b != a ==> NodeAt(st', b) == NodeAt(st, b))
            && st'.net == st.net && st'.threads == st.threads
            && SameAround(Netlink(st, a, Ack), st')
  {
    hide IsRun, ClientCommand, ServerCommand;
    next := Go(plan, run, MainReceive(i));
    next := Go(plan, next, MainTurn(a));
    next := Go(plan, next, MainTurn(a));
    next := Go(plan, next, MainTurn(a));
    next := Go(plan, next, MainTurn(a));
  }

  // The hop is acknowledged: the next answer makes its handler pass the ACK on.
  lemma PassesOn(plan: Plan, list: seq<Addr>, s: int, run: seq<State>, j: nat, i: nat) returns (next: seq<State>)
    requires run != [] && IsRun(plan, run) && j + 1 < |list| && j < |Last(run).threads| && i < |Last(run).net|
    requires Last(run).threads[j] == ThreadAt(list, s, j, Polling, 0)
    requires NodeAt(Last(run), list[j]) == Ready(s).(updateAck := true, sets := 1)
    requires IsAnswer(Last(run).net[i], s, j + 1)
    ensures next != [] && IsRun(plan, next)
    ensures var st, st' := Last(run), Last(next);
            && |st'.threads| == |st.threads|
            && (forall t :: 0 <= t < |st.threads| && t != j ==> st'.threads[t] == st.threads[t])
            && (forall b :: b != list[j] ==> NodeAt(st', b) == NodeAt(st, b))
            && st'.net == st.net + [AckTo(list, s, j + 1)]
            && SameAround(st, st')
  {
    var st, m := Last(run), Last(run).net[i];
    hide IsRun;
    var thread, n := ThreadAt(list, s, j, Polling, 0), Ready(s).(updateAck := true, sets := 1);
    next := GoReceive(plan, run, j, i);
    next := GoTurn(plan, st, next, j, thread.(pc := Received(m)), n, []);
    next := GoTurn(plan, st, next, j, thread.(pc := Deciding(m)), n.(lock := Handler(j)), []);
  }

  lemma HopAcks(plan: Plan, s: int, run: seq<State>, n: nat) returns (next: seq<State>)
    requires run != [] && IsRun(plan, run) && Once(plan(s)) && AckReached(plan(s), s, Last(run), n) && n < |plan(s)|
    ensures next != [] && IsRun(plan, next)
    ensures var list, st, st' := plan(s), Last(run), Last(next);
            && NodeAt(st', list[n]) == Ready(s).(updateAck := true, sets := 1)
            && st'.net == st.net && st'.threads == st.threads
            && Hops(list, s, st', |list|, n + 1) && Told(list, st', |list|, n + 1)
  {
    hide IsRun, Told, Netlink;
    var list, st := plan(s), Last(run);
    next := MainAcks(plan, list, s, run, list[n], |st.net| - 1);
    TellAck(list, st, n);
    SameTold(list, Netlink(st, list[n], Ack), Last(next), |list|, n + 1);
  }

  lemma AckOne(plan: Plan, s: int, run: seq<State>, n: nat) returns (next: seq<State>)
    requires run != [] && IsRun(plan, run) && Once(plan(s)) && AckReached(plan(s), s, Last(run), n) && n < |plan(s)|
    ensures next != [] && IsRun(plan, next) && AckReached(plan(s), s, Last(next), n + 1)
  {
    hide IsRun, Told;
    var list := plan(s);
    next := HopAcks(plan, s, run, n);
    var st := Last(next);
    if n + 1 < |list| {
      assert AnswerTo(list, s, st.net, n + 1);
      next := PassesOn(plan, list, s, next, n, 2 * |list| - n - 2);
      SameTold(list, st, Last(next), |list|, n + 1);
      SameHops(list, s, st, Last(next), |list|, n + 1);
      forall j | 1 <= j < |list| ensures AnswerTo(list, s, Last(next).net, j) {
        assert AnswerTo(list, s, st.net, j);
      }
    }
  }

  lemma {:induction false} Acks(plan: Plan, s: int, n: nat) returns (run: seq<State>)
    requires s > 0 && Once(plan(s)) && plan(s) != [] && n <= |plan(s)|
    ensures run != [] && IsRun(plan, run) && AckReached(plan(s), s, Last(run), n)
  {
    hide IsRun, AnswerReached, AckReached, Once;
    if n == 0 {
      run := Answers(plan, s, 0);
      run := InitiatorAcks(plan, s, run);
    } else {
      run := Acks(plan, s, n - 1);
      run := AckOne(plan, s, run, n - 1);
    }
  }

  // ----- what follows -----

  // Any answerable number: every hop of its list is told of the SYN and of the
  // ACK.
  lemma UpdateCompletes(plan: Plan, s: int) returns (run: seq<State>)
    requires Answerable(plan, s) && plan(s) != []
    ensures run != [] && IsRun(plan, run)
    ensures Last(run).client == ClientAfter(HOST_107 in plan(s), HOST_107 in plan(s))
    ensures Last(run).server == ServerAfter(HOST_108 in plan(s), HOST_108 in plan(s))
    ensures Last(run).packets == [] && Last(run).delivered == []
  {
    hide IsRun;
    run := Acks(plan, s, |plan(s)|);
    assert plan(s)[..|plan(s)|] == plan(s);
  }

  // An answerable update that visits exactly one endpoint loses packets.
  lemma OneSidedUpdateLoses(plan: Plan, s: int) returns (run: seq<State>)
    requires Answerable(plan, s) && plan(s) != [] && !(HOST_107 in plan(s) <==> HOST_108 in plan(s))
    ensures run != [] && IsRun(plan, run) && !LossFreeAt(Last(run))
  {
    hide IsRun;
    run := UpdateCompletes(plan, s);
    if HOST_107 in plan(s) {
      ClientAlone(Last(run));
    } else {
      ServerAlone(Last(run));
    }
  }

  lemma ClientAlone(st: State)
    requires st.client == ClientAfter(true, true) && st.server == ServerAfter(false, false)
    ensures !LossFreeAt(st)
  {
    var h := Header(true, HOST_107, HOST_108, 0, PORT);
    ServerShowsPeer(st.server, h, HOST_109);
    assert FromClient(h) && ClientOut(st.client, h).daddr == HOST_109;
  }

  lemma ServerAlone(st: State)
    requires st.client == ClientAfter(false, false) && st.server == ServerAfter(true, true)
    ensures !LossFreeAt(st)
  {
    var h := Header(true, HOST_108, HOST_107, PORT, 0);
    ClientShowsPeer(st.client, h, HOST_109);
    assert FromServer(h) && ServerOut(st.server, h).daddr == HOST_109;
  }

  // Migration is loss-free in every run exactly when every answerable update
  // visits both endpoints or neither.
  lemma LossFreeExactly(plan: Plan)
    requires Plans(plan)
    ensures EndpointsTogether(plan) <==> forall run :: IsRun(plan, run) ==> LossFreeAt(Last(run))
  {
    hide IsRun, LossFreeAt;
    if EndpointsTogether(plan) {
      forall run | IsRun(plan, run) ensures run != [] && LossFreeAt(Last(run)) {
        NotEmpty(plan, run);
        LossFree(plan, run);
      }
    } else {
      var s :| Answerable(plan, s) && !(HOST_107 in plan(s) <==> HOST_108 in plan(s));
      var run := OneSidedUpdateLoses(plan, s);
    }
  }

  // ... and shows the application at the other end the box's address.
  lemma OneSidedUpdateShows(plan: Plan, s: int) returns (run: seq<State>)
    requires Answerable(plan, s) && plan(s) != [] && !(HOST_107 in plan(s) <==> HOST_108 in plan(s))
    ensures run != [] && IsRun(plan, run) && !TransparentAt(Last(run))
  {
    hide IsRun;
    run := UpdateCompletes(plan, s);
    if HOST_107 in plan(s) {
      run := ClientShown(plan, run);
    } else {
      run := ServerShown(plan, run);
    }
  }

  // The client has switched and the server does not know the new box.
  lemma ClientShown(plan: Plan, run: seq<State>) returns (next: seq<State>)
    requires run != [] && IsRun(plan, run)
    requires Last(run).client == ClientAfter(true, true) && Last(run).server == ServerAfter(false, false)
    requires Last(run).packets == [] && Last(run).delivered == []
    ensures next != [] && IsRun(plan, next) && !TransparentAt(Last(next))
  {
    hide IsRun, Box;
    var h := Header(true, HOST_107, HOST_108, 0, PORT);
    next := Go(plan, run, ClientSends(h));
    BoxRelays(HOST_109, h);
    next := Go(plan, next, BoxRelay(HOST_109, 0));
    next := Go(plan, next, ServerReceives(1));
    ServerShowsPeer(Last(run).server, h, HOST_109);
    assert Last(next).delivered[0].orig == h;
  }

  lemma ServerShown(plan: Plan, run: seq<State>) returns (next: seq<State>)
    requires run != [] && IsRun(plan, run)
    requires Last(run).client == ClientAfter(false, false) && Last(run).server == ServerAfter(true, true)
    requires Last(run).packets == [] && Last(run).delivered == []
    ensures next != [] && IsRun(plan, next) && !TransparentAt(Last(next))
  {
    hide IsRun, Box;
    var h := Header(true, HOST_108, HOST_107, PORT, 0);
    next := Go(plan, run, ServerSends(h));
    BoxRelays(HOST_109, h);
    next := Go(plan, next, BoxRelay(HOST_109, 0));
    next := Go(plan, next, ClientReceives(1));
    ClientShowsPeer(Last(run).client, h, HOST_109);
    assert Last(next).delivered[0].orig == h;
  }

  // Every packet delivered in any run shows its sender's addresses and ports
  // exactly when every answerable update visits both endpoints or neither.
  lemma TransparentExactly(plan: Plan)
    requires Plans(plan)
    ensures EndpointsTogether(plan) <==> forall run :: IsRun(plan, run) ==> TransparentAt(Last(run))
  {
    hide IsRun, TransparentAt;
    if EndpointsTogether(plan) {
      forall run | IsRun(plan, run) ensures run != [] && TransparentAt(Last(run)) {
        NotEmpty(plan, run);
        Transparent(plan, run);
      }
    } else {
      var s :| Answerable(plan, s) && !(HOST_107 in plan(s) <==> HOST_108 in plan(s));
      var run := OneSidedUpdateShows(plan, s);
    }
  }

  lemma NotEmpty(plan: Plan, run: seq<State>)
    requires IsRun(plan, run)
    ensures run != []
  {}

  // An answerable update that visits both endpoints moves the connection: the
  // client's packet leaves for the new box and reaches the server as sent, and
  // the server's packets leave for the new box too.
  lemma MigrationHappens(plan: Plan, s: int, h: Header) returns (run: seq<State>)
    requires Answerable(plan, s) && HOST_107 in plan(s) && HOST_108 in plan(s) && FromClient(h)
    ensures run != [] && IsRun(plan, run)
    ensures ClientOut(Last(run).client, h).daddr == HOST_109
    ensures Last(run).delivered == [Packet(h, h)]
    ensures forall g :: FromServer(g) ==> ServerOut(Last(run).server, g).daddr == HOST_109
  {
    hide IsRun, Box;
    run := UpdateCompletes(plan, s);
    run := Go(plan, run, ClientSends(h));
    BoxRelays(HOST_109, h);
    run := Go(plan, run, BoxRelay(HOST_109, 0));
    run := Go(plan, run, ServerReceives(1));
  }
}
