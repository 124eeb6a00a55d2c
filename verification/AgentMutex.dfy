// The agent's mutex: as long as no handler of a hop leaves by timeout, the lock
// is held by whoever unlocks it, and an accepted ACK releases one handler only.
module AgentMutex {
  import opened Rules
  import opened Agent

  // No handler of hop a has left updateBack by timeout.
  ghost predicate Quiet(st: State, a: Addr) {
    forall t :: 0 <= t < |st.threads| && st.threads[t].hop == a ==> !st.threads[t].timedOut
  }

  // The owner is a thread of the hop between its lock and its unlock.
  ghost predicate OwnerOk(st: State, a: Addr) {
    var n := NodeAt(st, a);
    n.lock.Handler? ==>
      n.lock.t < |st.threads| && st.threads[n.lock.t].hop == a
      && InCritical(st.threads[n.lock.t].pc) && !st.threads[n.lock.t].timedOut
  }

  // Nobody else is between a lock and an unlock.
  ghost predicate Exclusive(st: State, a: Addr) {
    && (forall t :: 0 <= t < |st.threads| && st.threads[t].hop == a && InCritical(st.threads[t].pc) ==>
          NodeAt(st, a).lock == Handler(t))
    && (MainCritical(NodeAt(st, a).main) <==> NodeAt(st, a).lock.Main?)
  }

  // Handlers of hop a that left because they saw update_ack set.
  function Releases(threads: seq<Thread>, a: Addr): nat {
    if threads == [] then 0
    else Releases(threads[..|threads| - 1], a) + Release(threads[|threads| - 1], a)
  }

  function Release(thread: Thread, a: Addr): nat {
    if thread.hop == a && thread.released then 1 else 0
  }

  // update_ack is set and nobody has taken it yet.
  predicate Pending(st: State, a: Addr) {
    var n := NodeAt(st, a);
    n.updateAck && !(n.lock.Handler? && n.lock.t < |st.threads| && st.threads[n.lock.t].pc.Clearing?)
  }

  ghost predicate Budget(st: State, a: Addr) {
    Releases(st.threads, a) + (if Pending(st, a) then 1 else 0) <= NodeAt(st, a).sets
  }

  // Only leaving the loop can time out.
  ghost predicate LeftOk(st: State, a: Addr) {
    forall t :: 0 <= t < |st.threads| && st.threads[t].hop == a && st.threads[t].timedOut ==> Left(st.threads[t].pc)
  }

  predicate Left(pc: Pc) {
    pc.Clearing? || pc.Unlocking? || pc.Exited?
  }

  ghost predicate LockInv(st: State, a: Addr) {
    OwnerOk(st, a) && LeftOk(st, a) && (Quiet(st, a) ==> Exclusive(st, a) && Budget(st, a))
  }

  lemma {:induction false} ReleasesUpdate(threads: seq<Thread>, t: nat, thread: Thread, a: Addr)
    requires t < |threads|
    ensures Releases(threads[t := thread], a) == Releases(threads, a) - Release(threads[t], a) + Release(thread, a)
  {
    var n := |threads| - 1;
    if t == n {
      assert threads[t := thread][..n] == threads[..n];
    } else {
      ReleasesUpdate(threads[..n], t, thread, a);
      assert threads[t := thread][..n] == threads[..n][t := thread];
    }
  }

  // One thread of the hop moves, and its node with it.
  ghost predicate Moves(st: State, st': State, t: nat) {
    && t < |st.threads| == |st'.threads| && st'.threads == st.threads[t := st'.threads[t]]
    && var thread, thread' := st.threads[t], st'.threads[t];
    && thread'.hop == thread.hop
    && (forall b :: b != thread.hop ==> NodeAt(st', b) == NodeAt(st, b))
    && (thread', NodeAt(st', thread.hop)) == ThreadNext(thread, NodeAt(st, thread.hop), t)
    && (WantsLock(thread.pc) ==> NodeAt(st, thread.hop).lock.Free?)
  }

  lemma MovesElsewhere(st: State, st': State, t: nat, a: Addr)
    requires Moves(st, st', t) && st.threads[t].hop != a && LockInv(st, a)
    ensures LockInv(st', a)
  {
    hide ThreadNext, Releases, InCritical;
    ReleasesUpdate(st.threads, t, st'.threads[t], a);
    if Quiet(st', a) {
      QuietBefore(st, st', t, a);
    }
  }

  // Whoever had timed out still has.
  lemma QuietBefore(st: State, st': State, t: nat, a: Addr)
    requires t < |st.threads| == |st'.threads| && st'.threads == st.threads[t := st'.threads[t]]
    requires st'.threads[t].hop == st.threads[t].hop
    requires (st.threads[t].timedOut ==> st'.threads[t].timedOut) || st.threads[t].hop != a
    requires Quiet(st', a)
    ensures Quiet(st, a)
  {
    forall u | 0 <= u < |st.threads| && st.threads[u].hop == a ensures !st.threads[u].timedOut {
      assert st'.threads[u].hop == a;
    }
  }

  lemma OwnerMoves(st: State, st': State, t: nat)
    requires Moves(st, st', t) && OwnerOk(st, st.threads[t].hop) && LeftOk(st, st.threads[t].hop)
    ensures OwnerOk(st', st.threads[t].hop) && LeftOk(st', st.threads[t].hop)
  {}

  // The two sides of one turn, seen from the lock.
  lemma TurnAndLock(thread: Thread, n: Node, t: nat)
    requires InCritical(thread.pc) ==> n.lock == Handler(t)
    requires n.lock == Handler(t) ==> InCritical(thread.pc)
    requires WantsLock(thread.pc) ==> n.lock.Free?
    requires !ThreadNext(thread, n, t).0.timedOut
    ensures var (thread', n') := ThreadNext(thread, n, t);
            && (InCritical(thread'.pc) ==> n'.lock == Handler(t))
            && (n'.lock == n.lock || (n.lock.Free? && n'.lock == Handler(t)) || (n.lock == Handler(t) && n'.lock.Free?))
            && n'.main == n.main && n'.sets == n.sets && !thread.timedOut
            && (n.lock.Handler? && n.lock != Handler(t) ==> n' == n && thread'.released == thread.released)
  {}

  lemma TurnAndBudget(thread: Thread, n: Node, t: nat)
    requires InCritical(thread.pc) ==> n.lock == Handler(t)
    requires WantsLock(thread.pc) ==> n.lock.Free?
    requires !ThreadNext(thread, n, t).0.timedOut
    ensures var (thread', n') := ThreadNext(thread, n, t);
            Release(thread', thread.hop)
            + (if n'.updateAck && !(n'.lock == Handler(t) && thread'.pc.Clearing?) then 1 else 0)
            <= Release(thread, thread.hop)
               + (if n.updateAck && !(n.lock == Handler(t) && thread.pc.Clearing?) then 1 else 0)
  {}

  lemma ExclusiveMoves(st: State, st': State, t: nat)
    requires Moves(st, st', t) && OwnerOk(st, st.threads[t].hop) && Exclusive(st, st.threads[t].hop)
    requires !st'.threads[t].timedOut
    ensures Exclusive(st', st.threads[t].hop)
  {
    hide ThreadNext, InCritical, WantsLock, MainCritical;
    TurnAndLock(st.threads[t], NodeAt(st, st.threads[t].hop), t);
  }

  lemma BudgetMoves(st: State, st': State, t: nat)
    requires Moves(st, st', t) && OwnerOk(st, st.threads[t].hop) && Exclusive(st, st.threads[t].hop)
    requires Budget(st, st.threads[t].hop) && !st'.threads[t].timedOut
    ensures Budget(st', st.threads[t].hop)
  {
    hide ThreadNext, InCritical, WantsLock, MainCritical, Releases;
    var a := st.threads[t].hop;
    TurnAndLock(st.threads[t], NodeAt(st, a), t);
    TurnAndBudget(st.threads[t], NodeAt(st, a), t);
    ReleasesUpdate(st.threads, t, st'.threads[t], a);
  }

  lemma TimedOutStays(thread: Thread, n: Node, t: nat)
    ensures thread.timedOut ==> ThreadNext(thread, n, t).0.timedOut
  {}

  lemma MovesHere(st: State, st': State, t: nat)
    requires Moves(st, st', t) && LockInv(st, st.threads[t].hop)
    ensures LockInv(st', st.threads[t].hop)
  {
    var a := st.threads[t].hop;
    hide ThreadNext, Exclusive, Budget, InCritical, WantsLock, OwnerOk, LeftOk;
    OwnerMoves(st, st', t);
    if Quiet(st', a) {
      assert st'.threads[t].hop == a;
      TimedOutStays(st.threads[t], NodeAt(st, a), t);
      QuietBefore(st, st', t, a);
      hide Quiet, Moves;
      ExclusiveMoves(st, st', t);
      BudgetMoves(st, st', t);
    }
  }

  lemma TurnMoves(st: State, t: nat)
    requires Enabled(st, Turn(t))
    ensures Moves(st, TurnThread(st, t), t)
  {
    hide ThreadSends;
  }

  // A thread goes about something that is not the lock.
  lemma ThreadOnly(st: State, st': State, t: nat, a: Addr)
    requires LockInv(st, a) && t < |st.threads| == |st'.threads| && st'.threads == st.threads[t := st'.threads[t]]
    requires st'.nodes == st.nodes
    requires var thread, thread' := st.threads[t], st'.threads[t];
             thread'.hop == thread.hop && thread'.released == thread.released && thread'.timedOut == thread.timedOut
             && (thread.pc.Start? || thread.pc.Polling?) && !InCritical(thread'.pc)
    ensures LockInv(st', a)
  {
    hide Releases, MainCritical;
    ReleasesUpdate(st.threads, t, st'.threads[t], a);
    if Quiet(st', a) {
      QuietBefore(st, st', t, a);
    }
  }

  lemma MainMoves(st: State, a: Addr, b: Addr)
    requires Enabled(st, MainTurn(a)) && LockInv(st, b)
    ensures LockInv(TurnMain(st, a), b)
  {
    hide Releases, InCritical, Netlink;
    NetlinkKeepsNodes(st, a, Ack);
  }

  lemma NetlinkKeepsNodes(st: State, a: Addr, c: Command)
    ensures Netlink(st, a, c).nodes == st.nodes && Netlink(st, a, c).threads == st.threads
  {}

  lemma {:induction false} ReleasesPut(threads: seq<Thread>, thread: Thread, a: Addr)
    ensures Releases(threads + [thread], a) == Releases(threads, a) + Release(thread, a)
  {
    assert (threads + [thread])[..|threads|] == threads;
  }

  lemma SynMoves(st: State, d: Dgram, a: Addr)
    requires d.dest.Host? && d.body.UpdateSyn? && LockInv(st, a)
    ensures LockInv(AcceptSyn(st, d), a)
  {
    hide LockInv;
    NetlinkKeepsNodes(st, d.dest.addr, Syn);
    if Newer(NodeAt(st, d.dest.addr).rec, d.s) {
      NewThreadLocks(st, AcceptSyn(st, d), a);
    }
  }

  // A new thread holds nothing and has left nothing.
  lemma NewThreadLocks(st: State, st': State, a: Addr)
    requires LockInv(st, a)
    requires |st'.threads| == |st.threads| + 1 && st'.threads == st.threads + [st'.threads[|st.threads|]]
    requires var thread := st'.threads[|st.threads|]; thread.pc.Start? && !thread.released && !thread.timedOut
    requires var n, n' := NodeAt(st, a), NodeAt(st', a);
             n'.lock == n.lock && n'.main == n.main && n'.sets == n.sets && n'.updateAck == n.updateAck
    ensures LockInv(st', a)
  {
    hide Releases, MainCritical;
    ReleasesPut(st.threads, st'.threads[|st.threads|], a);
    assert forall t :: 0 <= t < |st.threads| ==> st'.threads[t] == st.threads[t];
  }

  lemma AckMoves(st: State, d: Dgram, a: Addr)
    requires d.dest.Host? && NodeAt(st, d.dest.addr).main.Idle? && LockInv(st, a)
    ensures LockInv(AcceptAck(st, d), a)
  {
    hide Releases, InCritical;
  }

  lemma SameLocks(st: State, st': State, a: Addr)
    requires LockInv(st, a) && st'.threads == st.threads && st'.nodes == st.nodes
    ensures LockInv(st', a)
  {
    hide Releases, InCritical, MainCritical;
  }

  lemma StepKeepsLocks(plan: Plan, st: State, step: Step, a: Addr)
    requires LockInv(st, a) && Enabled(st, step)
    ensures LockInv(Apply(plan, st, step), a)
  {
    hide LockInv;
    if step.Turn? {
      hide *;
      TurnKeepsLocks(plan, st, step.t, a);
    } else if step.Begin? {
      hide BeginThread;
      BeginKeepsLocks(st, step.t, a);
    } else if step.Receive? {
      ReceiveKeepsLocks(st, step.t, st.net[step.i], a);
    } else if step.MainReceive? || step.MainTurn? {
      hide *;
      MainKeepsLocks(plan, st, step, a);
    } else {
      hide *;
      OthersKeepLocks(plan, st, step, a);
    }
  }

  lemma TurnKeepsLocks(plan: Plan, st: State, t: nat, a: Addr)
    requires LockInv(st, a) && Enabled(st, Turn(t))
    ensures LockInv(Apply(plan, st, Turn(t)), a)
  {
    hide LockInv, TurnThread, Moves;
    TurnMoves(st, t);
    if st.threads[t].hop == a {
      MovesHere(st, TurnThread(st, t), t);
    } else {
      MovesElsewhere(st, TurnThread(st, t), t, a);
    }
  }

  function BeginPc(thread: Thread): Pc {
    if thread.s <= 0 then Exited else if |thread.list| > 1 then Polling else Counting
  }

  lemma BeginMoves(st: State, t: nat)
    requires t < |st.threads|
    ensures var st' := BeginThread(st, t);
            st'.threads == st.threads[t := st.threads[t].(pc := BeginPc(st.threads[t]))] && st'.nodes == st.nodes
  {}

  lemma BeginKeepsLocks(st: State, t: nat, a: Addr)
    requires LockInv(st, a) && t < |st.threads| && st.threads[t].pc.Start?
    ensures LockInv(BeginThread(st, t), a)
  {
    hide LockInv, BeginThread;
    BeginMoves(st, t);
    ThreadOnly(st, BeginThread(st, t), t, a);
  }

  lemma ReceiveKeepsLocks(st: State, t: nat, m: Dgram, a: Addr)
    requires LockInv(st, a) && t < |st.threads| && st.threads[t].pc.Polling?
    ensures LockInv(st.(threads := st.threads[t := st.threads[t].(pc := Received(m))]), a)
  {
    hide LockInv;
    ThreadOnly(st, st.(threads := st.threads[t := st.threads[t].(pc := Received(m))]), t, a);
  }

  lemma MainKeepsLocks(plan: Plan, st: State, step: Step, a: Addr)
    requires LockInv(st, a) && Enabled(st, step) && (step.MainReceive? || step.MainTurn?)
    ensures LockInv(Apply(plan, st, step), a)
  {
    hide LockInv, AcceptSyn, AcceptAck, TurnMain;
    if step.MainTurn? {
      MainMoves(st, step.a, a);
    } else if st.net[step.i].body.UpdateSyn? {
      SynMoves(st, st.net[step.i], a);
    } else {
      AckMoves(st, st.net[step.i], a);
    }
  }

  lemma OthersKeepLocks(plan: Plan, st: State, step: Step, a: Addr)
    requires LockInv(st, a) && Enabled(st, step)
    requires !(step.Begin? || step.Receive? || step.Turn? || step.MainReceive? || step.MainTurn?)
    ensures LockInv(Apply(plan, st, step), a)
  {
    hide LockInv;
    SameLocks(st, Apply(plan, st, step), a);
  }

  lemma {:induction false} RunKeepsLocks(plan: Plan, run: seq<State>, a: Addr)
    requires IsRun(plan, run)
    ensures LockInv(Last(run), a)
  {
    hide LockInv, Apply, Enabled;
    if |run| == 1 {
      InitLocks(a);
    } else {
      RunKeepsLocks(plan, run[..|run| - 1], a);
      var st := run[|run| - 2];
      assert Next(plan, st, run[|run| - 1]);
      var step :| Enabled(st, step) && Last(run) == Apply(plan, st, step);
      StepKeepsLocks(plan, st, step, a);
    }
  }

  lemma InitLocks(a: Addr)
    ensures LockInv(Init(), a)
  {}

  predicate Inside(thread: Thread, a: Addr) {
    thread.hop == a && InCritical(thread.pc)
  }

  // About to call pthread_mutex_unlock.
  predicate Unlocks(pc: Pc) {
    pc.Releasing? || pc.Letting? || pc.Unlocking?
  }

  // While no handler of its hop has timed out, a thread that unlocks holds the
  // lock, main included; so the sections between lock and unlock exclude one
  // another.
  lemma UnlockedByHolder(plan: Plan, run: seq<State>, a: Addr)
    requires IsRun(plan, run) && Quiet(Last(run), a)
    ensures var st := Last(run);
            forall t :: 0 <= t < |st.threads| && st.threads[t].hop == a && Unlocks(st.threads[t].pc) ==>
              NodeAt(st, a).lock == Handler(t)
    ensures NodeAt(Last(run), a).main.AckIsSet? ==> NodeAt(Last(run), a).lock == Main
    ensures var st := Last(run);
            forall t, u ::
              0 <= t < |st.threads| && 0 <= u < |st.threads| && Inside(st.threads[t], a) && Inside(st.threads[u], a) ==>
                t == u
  {
    RunKeepsLocks(plan, run, a);
  }

  // A handler that timed out never holds the lock when it unlocks.
  lemma TimedOutNeverHolds(plan: Plan, run: seq<State>, t: nat)
    requires IsRun(plan, run) && t < |Last(run).threads| && Last(run).threads[t].timedOut
    ensures NodeAt(Last(run), Last(run).threads[t].hop).lock != Handler(t)
  {
    RunKeepsLocks(plan, run, Last(run).threads[t].hop);
  }

  // Without timeouts, the handlers that left as acknowledged are no more than
  // the ACKs that main accepted: the test and the clearing are one.
  lemma ReleasesAreAcknowledged(plan: Plan, run: seq<State>, a: Addr)
    requires IsRun(plan, run) && Quiet(Last(run), a)
    ensures Releases(Last(run).threads, a) <= NodeAt(Last(run), a).sets
  {
    RunKeepsLocks(plan, run, a);
  }
}
