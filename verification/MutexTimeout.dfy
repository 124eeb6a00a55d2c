// Why the mutex needs runs without timeouts.  A handler of the last hop times
// out and then unlocks what another handler holds: the sections overlap, and one
// accepted ACK releases two handlers.
module MutexTimeout {
  import opened Wrappers
  import opened Agent
  import opened AgentRuns
  import AgentMutex
  import Rules

  const HOP: Addr := 5
  const PLAN: Plan := (s: int) => [HOP]

  // A handler of the last hop, for number s.
  function Waiter(s: int, pc: Pc, count: nat): Thread {
    Thread(HOP, Port(0), s, [HOP], pc, count, false, false, 0)
  }

  // The handler of number 1 once it has used up its turns.
  function Late(pc: Pc): Thread {
    Waiter(1, pc, TURNS).(timedOut := true)
  }

  function NodeOf(s: int, updateAck: bool, lock: Owner, sets: nat): Node {
    Node(Some(s), updateAck, lock, Idle, sets)
  }

  // All there is: these handlers, their hop, and the initiators of the numbers
  // from 1 to m.
  ghost predicate Group(st: State, threads: seq<Thread>, n: Node, m: nat) {
    && st.threads == threads && NodeAt(st, HOP) == n
    && |st.clients| == m && forall u :: 0 <= u < m ==> st.clients[u] == Client(0, u + 1, false)
  }

  // Handler t takes its next action.
  lemma Act(run: seq<State>, threads: seq<Thread>, n: Node, m: nat, t: nat, threads': seq<Thread>, n': Node)
      returns (next: seq<State>)
    requires run != [] && IsRun(PLAN, run) && Group(Last(run), threads, n, m)
    requires t < |threads| && threads[t].hop == HOP && CanTurn(threads[t], n)
    requires threads' == threads[t := ThreadNext(threads[t], n, t).0] && n' == ThreadNext(threads[t], n, t).1
    ensures next != [] && IsRun(PLAN, next) && Group(Last(next), threads', n', m)
    ensures Last(next).net == Last(run).net + ThreadSends(threads[t], n, t)
  {
    hide IsRun, ThreadNext, ThreadSends;
    NotMoved(Last(run), t);
    next := GoTurn(PLAN, Last(run), run, t, threads[t], n, []);
    assert [] + ThreadSends(threads[t], n, t) == ThreadSends(threads[t], n, t);
  }

  // A new number arrives: its handler is at its loop.
  lemma Update(run: seq<State>, threads: seq<Thread>, n: Node, m: nat, threads': seq<Thread>)
      returns (next: seq<State>)
    requires run != [] && IsRun(PLAN, run) && Group(Last(run), threads, n, m)
    requires n.main.Idle? && (n.rec.Some? ==> n.rec.value < m + 1)
    requires threads' == threads + [Waiter(m + 1, Counting, 0)]
    ensures next != [] && IsRun(PLAN, next) && Group(Last(next), threads', n.(rec := Some(m + 1)), m + 1)
  {
    hide IsRun;
    var i := |Last(run).net|;
    next := Go(PLAN, run, Initiate(0, m + 1));
    assert Group(Last(next), threads, n, m + 1);
    next := Go(PLAN, next, MainReceive(i));
    assert Group(Last(next), threads + [Waiter(m + 1, Start, 0)], n.(rec := Some(m + 1)), m + 1);
    next := Go(PLAN, next, Begin(|threads|));
  }

  // ----- the first handler times out -----

  ghost predicate First(st: State, pc: Pc, count: nat, lock: Owner) {
    Group(st, [Waiter(1, pc, count)], NodeOf(1, false, lock, 0), 1)
  }

  // A turn up to its answer.
  lemma TurnToAnswer(run: seq<State>, count: nat) returns (next: seq<State>)
    requires run != [] && IsRun(PLAN, run) && First(Last(run), Counting, count, Free)
    ensures next != [] && IsRun(PLAN, next) && First(Last(next), Answering, count + 1, Free)
  {
    hide IsRun, Group;
    var c := count + 1;
    next := FirstActs(run, Counting, count, Free, Wanting, c, Free);
    next := FirstActs(next, Wanting, c, Free, Testing, c, Handler(0));
    next := FirstActs(next, Testing, c, Handler(0), Letting, c, Handler(0));
    next := FirstActs(next, Letting, c, Handler(0), Answering, c, Free);
  }

  lemma FirstActs(run: seq<State>, pc: Pc, count: nat, lock: Owner, pc': Pc, count': nat, lock': Owner)
      returns (next: seq<State>)
    requires run != [] && IsRun(PLAN, run) && First(Last(run), pc, count, lock)
    requires CanTurn(Waiter(1, pc, count), NodeOf(1, false, lock, 0))
    requires ThreadNext(Waiter(1, pc, count), NodeOf(1, false, lock, 0), 0)
             == (Waiter(1, pc', count'), NodeOf(1, false, lock', 0))
    ensures next != [] && IsRun(PLAN, next) && First(Last(next), pc', count', lock')
  {
    hide IsRun, Group, ThreadNext;
    next := Act(run, [Waiter(1, pc, count)], NodeOf(1, false, lock, 0), 1, 0,
                [Waiter(1, pc', count')], NodeOf(1, false, lock', 0));
  }

  lemma {:induction false} ManyTurns(count: nat) returns (run: seq<State>)
    requires count < TURNS
    ensures run != [] && IsRun(PLAN, run) && First(Last(run), Counting, count, Free)
  {
    if count == 0 {
      run := OnlyInit(PLAN);
      hide IsRun;
      run := Update(run, [], IDLE_NODE, 0, [Waiter(1, Counting, 0)]);
    } else {
      hide IsRun, Group;
      run := ManyTurns(count - 1);
      run := TurnToAnswer(run, count - 1);
      run := FirstActs(run, Answering, count, Free, Counting, count, Free);
    }
  }

  lemma TimesOut() returns (run: seq<State>)
    ensures run != [] && IsRun(PLAN, run) && Group(Last(run), [Late(Clearing)], NodeOf(1, false, Free, 0), 1)
  {
    hide IsRun, Group;
    run := ManyTurns(TURNS - 1);
    run := TurnToAnswer(run, TURNS - 1);
    run := Act(run, [Waiter(1, Answering, TURNS)], NodeOf(1, false, Free, 0), 1, 0,
               [Late(Clearing)], NodeOf(1, false, Free, 0));
  }

  // ----- the sections overlap -----

  // The lock is free though handler 1 has not unlocked it.
  lemma TimeoutBreaksMutex() returns (run: seq<State>)
    ensures run != [] && IsRun(PLAN, run) && Plans(PLAN)
    ensures var st := Last(run);
            |st.threads| == 2 && st.threads[1].hop == HOP && InCritical(st.threads[1].pc) && NodeAt(st, HOP).lock.Free?
  {
    hide IsRun, Group;
    run := TimesOut();
    var free, held := NodeOf(2, false, Free, 0), NodeOf(2, false, Handler(1), 0);
    var g0, g1 := [Late(Clearing), Waiter(2, Counting, 0)], [Late(Clearing), Waiter(2, Wanting, 1)];
    var g2, g3 := [Late(Clearing), Waiter(2, Testing, 1)], [Late(Unlocking), Waiter(2, Testing, 1)];
    var g4 := [Late(Exited), Waiter(2, Testing, 1)];
    run := Update(run, [Late(Clearing)], NodeOf(1, false, Free, 0), 1, g0);
    run := Act(run, g0, free, 2, 1, g1, free);
    run := Act(run, g1, free, 2, 1, g2, held);
    run := Act(run, g2, held, 2, 0, g3, held);
    run := Act(run, g3, held, 2, 0, g4, free);
    GroupIs(Last(run), g4, free, 2);
  }

  lemma GroupIs(st: State, threads: seq<Thread>, n: Node, m: nat)
    requires Group(st, threads, n, m)
    ensures st.threads == threads && NodeAt(st, HOP) == n
  {}

  // ----- one ACK, two releases -----

  // The first handler is about to unlock, or has; two more are at work.
  function Three(late: Pc, second: Thread, third: Thread): seq<Thread> {
    [Late(late), second, third]
  }

  // Two more numbers arrive.
  lemma ThreeWait() returns (run: seq<State>)
    ensures run != [] && IsRun(PLAN, run)
    ensures Group(Last(run), Three(Unlocking, Waiter(2, Counting, 0), Waiter(3, Counting, 0)),
                  NodeOf(3, false, Free, 0), 3)
  {
    hide IsRun, Group;
    run := TimesOut();
    var two := [Late(Unlocking), Waiter(2, Counting, 0)];
    run := Act(run, [Late(Clearing)], NodeOf(1, false, Free, 0), 1, 0, [Late(Unlocking)], NodeOf(1, false, Free, 0));
    run := Update(run, [Late(Unlocking)], NodeOf(1, false, Free, 0), 1, two);
    run := Update(run, two, NodeOf(2, false, Free, 0), 2,
                  Three(Unlocking, Waiter(2, Counting, 0), Waiter(3, Counting, 0)));
  }

  // The third handler answers its initiator.
  lemma ThirdAnswers() returns (run: seq<State>)
    ensures run != [] && IsRun(PLAN, run)
    ensures Group(Last(run), Three(Unlocking, Waiter(2, Counting, 0), Waiter(3, Counting, 1)),
                  NodeOf(3, false, Free, 0), 3)
    ensures var net := Last(run).net;
            net != [] && net[|net| - 1] == Dgram(Socket(Port(0)), Listen(HOP), UpdateSynAck, 3, 0)
  {
    hide IsRun, Group;
    run := ThreeWait();
    var second, free, held := Waiter(2, Counting, 0), NodeOf(3, false, Free, 0), NodeOf(3, false, Handler(2), 0);
    var g0, g1 := Three(Unlocking, second, Waiter(3, Counting, 0)), Three(Unlocking, second, Waiter(3, Wanting, 1));
    var g2, g3 := Three(Unlocking, second, Waiter(3, Testing, 1)), Three(Unlocking, second, Waiter(3, Letting, 1));
    var g4, g5 := Three(Unlocking, second, Waiter(3, Answering, 1)), Three(Unlocking, second, Waiter(3, Counting, 1));
    run := Act(run, g0, free, 3, 2, g1, free);
    run := Act(run, g1, free, 3, 2, g2, held);
    run := Act(run, g2, held, 3, 2, g3, held);
    run := Act(run, g3, held, 3, 2, g4, free);
    run := Act(run, g4, free, 3, 2, g5, free);
  }

  // The initiator's ACK is accepted: update_ack is set, once.
  lemma OneAck() returns (run: seq<State>)
    ensures run != [] && IsRun(PLAN, run)
    ensures Last(run).threads == Three(Unlocking, Waiter(2, Counting, 0), Waiter(3, Counting, 1))
    ensures NodeAt(Last(run), HOP) == NodeOf(3, true, Free, 1)
  {
    hide IsRun, Netlink, Three;
    run := ThirdAnswers();
    var i := |Last(run).net|;
    run := Go(PLAN, run, InitiatorReceive(2, i - 1));
    run := Go(PLAN, run, MainReceive(i));
    run := MainSets(run);
  }

  // main from the accepted ACK on.
  lemma MainSets(run: seq<State>) returns (next: seq<State>)
    requires run != [] && IsRun(PLAN, run)
    requires NodeAt(Last(run), HOP) == NodeOf(3, false, Free, 0).(main := AckWaits(3))
    ensures next != [] && IsRun(PLAN, next)
    ensures Last(next).threads == Last(run).threads && NodeAt(Last(next), HOP) == NodeOf(3, true, Free, 1)
  {
    hide IsRun, Netlink;
    next := run;
    AgentMutex.NetlinkKeepsNodes(Last(next), HOP, Rules.Ack);
    next := Go(PLAN, next, MainTurn(HOP));
    next := Go(PLAN, next, MainTurn(HOP));
    next := Go(PLAN, next, MainTurn(HOP));
    AgentMutex.NetlinkKeepsNodes(Last(next), HOP, Rules.Ack);
    next := Go(PLAN, next, MainTurn(HOP));
  }

  // As Act, whoever the initiators are.
  lemma ActAlone(run: seq<State>, threads: seq<Thread>, n: Node, t: nat, threads': seq<Thread>, n': Node)
      returns (next: seq<State>)
    requires run != [] && IsRun(PLAN, run) && Last(run).threads == threads && NodeAt(Last(run), HOP) == n
    requires t < |threads| && threads[t].hop == HOP && CanTurn(threads[t], n)
    requires threads' == threads[t := ThreadNext(threads[t], n, t).0] && n' == ThreadNext(threads[t], n, t).1
    ensures next != [] && IsRun(PLAN, next) && Last(next).threads == threads' && NodeAt(Last(next), HOP) == n'
  {
    hide IsRun, ThreadNext, ThreadSends;
    NotMoved(Last(run), t);
    next := GoTurn(PLAN, Last(run), run, t, threads[t], n, []);
  }

  // The second handler is released; before it clears update_ack the first one
  // unlocks ...
  lemma SecondReleased() returns (run: seq<State>)
    ensures run != [] && IsRun(PLAN, run)
    ensures Last(run).threads == Three(Exited, Waiter(2, Clearing, 1).(released := true), Waiter(3, Counting, 1))
    ensures NodeAt(Last(run), HOP) == NodeOf(3, true, Free, 1)
  {
    hide IsRun;
    run := OneAck();
    var third, free, held := Waiter(3, Counting, 1), NodeOf(3, true, Free, 1), NodeOf(3, true, Handler(1), 1);
    var g0, g1 := Three(Unlocking, Waiter(2, Counting, 0), third), Three(Unlocking, Waiter(2, Wanting, 1), third);
    var g2 := Three(Unlocking, Waiter(2, Testing, 1), third);
    var g3 := Three(Unlocking, Waiter(2, Clearing, 1).(released := true), third);
    var g4 := Three(Exited, Waiter(2, Clearing, 1).(released := true), third);
    run := ActAlone(run, g0, free, 1, g1, free);
    run := ActAlone(run, g1, free, 1, g2, held);
    run := ActAlone(run, g2, held, 1, g3, held);
    run := ActAlone(run, g3, held, 0, g4, free);
  }

  // ... and the third handler is released too.
  lemma OneAckTwoReleases() returns (run: seq<State>)
    ensures run != [] && IsRun(PLAN, run) && Plans(PLAN)
    ensures AgentMutex.Releases(Last(run).threads, HOP) == 2 && NodeAt(Last(run), HOP).sets == 1
  {
    hide IsRun;
    run := SecondReleased();
    var second := Waiter(2, Clearing, 1).(released := true);
    var free, held := NodeOf(3, true, Free, 1), NodeOf(3, true, Handler(2), 1);
    var g0, g1 := Three(Exited, second, Waiter(3, Counting, 1)), Three(Exited, second, Waiter(3, Wanting, 2));
    var g2 := Three(Exited, second, Waiter(3, Testing, 2));
    var g3 := Three(Exited, second, Waiter(3, Clearing, 2).(released := true));
    run := ActAlone(run, g0, free, 2, g1, free);
    run := ActAlone(run, g1, free, 2, g2, held);
    run := ActAlone(run, g2, held, 2, g3, held);
    CountReleases(Late(Exited), second, Waiter(3, Clearing, 2).(released := true));
  }

  lemma CountReleases(a: Thread, b: Thread, c: Thread)
    ensures AgentMutex.Releases([a, b, c], HOP)
            == AgentMutex.Release(a, HOP) + AgentMutex.Release(b, HOP) + AgentMutex.Release(c, HOP)
  {
    assert AgentMutex.Releases([], HOP) == 0;
    hide AgentMutex.Releases, AgentMutex.Release;
    AgentMutex.ReleasesPut([], a, HOP);
    AgentMutex.ReleasesPut([a], b, HOP);
    AgentMutex.ReleasesPut([a, b], c, HOP);
    assert [] + [a] == [a] && [a] + [b] == [a, b] && [a, b] + [c] == [a, b, c];
  }
}
