// Building runs of the agents: one thread taking its actions while nothing else
// moves.
module AgentRuns {
  import opened Agent
  import opened AgentSafety

  // From st0 to st only the t-th thread moved, to thread, leaving its hop at n and
  // having sent out.
  ghost predicate Moved(st0: State, st: State, t: nat, thread: Thread, n: Node, out: seq<Dgram>) {
    && t < |st0.threads| && st.threads == st0.threads[t := thread] && thread.hop == st0.threads[t].hop
    && NodeAt(st, thread.hop) == n && (forall b :: b != thread.hop ==> NodeAt(st, b) == NodeAt(st0, b))
    && st.net == st0.net + out
    && SameAround(st0, st)
  }

  ghost predicate SameAround(st: State, st': State) {
    && st'.client == st.client && st'.server == st.server && st'.clients == st.clients
    && st'.packets == st.packets && st'.delivered == st.delivered
  }

  predicate CanTurn(thread: Thread, n: Node) {
    !thread.pc.Start? && !thread.pc.Polling? && !thread.pc.Exited? && (WantsLock(thread.pc) ==> n.lock.Free?)
  }

  lemma GoTurn(plan: Plan, st0: State, run: seq<State>, t: nat, thread: Thread, n: Node, out: seq<Dgram>)
      returns (next: seq<State>)
    requires run != [] && IsRun(plan, run) && Moved(st0, Last(run), t, thread, n, out) && CanTurn(thread, n)
    ensures next != [] && IsRun(plan, next)
    ensures Moved(st0, Last(next), t, ThreadNext(thread, n, t).0, ThreadNext(thread, n, t).1,
                  out + ThreadSends(thread, n, t))
  {
    hide IsRun, ThreadNext, ThreadSends;
    TurnFixed(thread, n, t);
    assert Last(run).threads[t] == thread;
    next := Go(plan, run, Turn(t));
  }

  lemma NotMoved(st: State, t: nat)
    requires t < |st.threads|
    ensures Moved(st, st, t, st.threads[t], NodeAt(st, st.threads[t].hop), [])
  {}

  lemma GoReceive(plan: Plan, run: seq<State>, t: nat, i: nat) returns (next: seq<State>)
    requires run != [] && IsRun(plan, run) && Enabled(Last(run), Receive(t, i))
    ensures next != [] && IsRun(plan, next)
    ensures var st := Last(run);
            Moved(st, Last(next), t, st.threads[t].(pc := Received(st.net[i])), NodeAt(st, st.threads[t].hop), [])
  {
    hide IsRun;
    next := Go(plan, run, Receive(t, i));
  }
}
