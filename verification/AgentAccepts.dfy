// What an agent's main accepts in any run: a SYN with a number above the record,
// whatever that number, and an ACK with exactly the recorded number.
module AgentAccepts {
  import opened Wrappers
  import opened Rules
  import opened Agent
  import AgentMutex
  import AgentSafety

  // Any message ever sent can arrive, however often and however late, wherever
  // somebody waits for it; any packet can be sent, relayed and received.
  lemma AnythingArrives(st: State, i: nat, t: nat, u: nat)
    requires i < |st.net|
    ensures st.net[i].dest.Host? && NodeAt(st, st.net[i].dest.addr).main.Idle? && !st.net[i].body.UpdateSynAck? ==>
              Enabled(st, MainReceive(i))
    ensures t < |st.threads| && st.threads[t].pc.Polling? && st.net[i].dest == Socket(Own(t)) ==>
              Enabled(st, Receive(t, i))
    ensures u < |st.clients| && !st.clients[u].done && st.net[i].dest == Socket(Port(st.clients[u].port)) ==>
              Enabled(st, InitiatorReceive(u, i))
  {}

  lemma AnythingTravels(st: State, h: Header, p: nat)
    ensures FromClient(h) ==> Enabled(st, ClientSends(h))
    ensures FromServer(h) ==> Enabled(st, ServerSends(h))
    ensures p < |st.packets| ==>
              var to := st.packets[p].h.daddr;
              && (to == HOST_106 || to == HOST_109 ==> Enabled(st, BoxRelay(to, p)))
              && (to == HOST_107 ==> Enabled(st, ClientReceives(p)))
              && (to == HOST_108 ==> Enabled(st, ServerReceives(p)))
  {}

  // A received SYN is recorded, starts a handler and is told to the kernel exactly
  // when the hop has no record or a smaller one; otherwise nothing changes.
  lemma SynAccepted(plan: Plan, st: State, i: nat)
    requires i < |st.net| && st.net[i].dest.Host? && st.net[i].body.UpdateSyn?
    requires NodeAt(st, st.net[i].dest.addr).main.Idle?
    ensures Enabled(st, MainReceive(i))
    ensures var d, st' := st.net[i], Apply(plan, st, MainReceive(i));
            var a := d.dest.addr;
            var rec := NodeAt(st, a).rec;
            if rec.None? || rec.value < d.s then
              && NodeAt(st', a) == NodeAt(st, a).(rec := Some(d.s))
              && (forall b :: b != a ==> NodeAt(st', b) == NodeAt(st, b))
              && |st'.threads| == |st.threads| + 1 && st'.threads[..|st.threads|] == st.threads
              && (var thread := st'.threads[|st.threads|];
                  thread.hop == a && thread.cli == d.from && thread.s == d.s && thread.list == d.body.list
                  && thread.pc.Start?)
              && st'.client == (if a == HOST_107 then ClientCommand(st.client, Syn) else st.client)
              && st'.server == (if a == HOST_108 then ServerCommand(st.server, Syn) else st.server)
            else st' == st
  {
    hide ClientCommand, ServerCommand;
  }

  // In every run a received ACK finds a record.  It makes main set update_ack and
  // tell the kernel exactly when it carries the recorded number; with any other
  // it changes nothing at all.
  lemma AckAccepted(plan: Plan, run: seq<State>, i: nat)
    requires Plans(plan) && IsRun(plan, run) && i < |Last(run).net| && Last(run).net[i].body.UpdateAck?
    requires Last(run).net[i].dest.Host? && NodeAt(Last(run), Last(run).net[i].dest.addr).main.Idle?
    ensures Enabled(Last(run), MainReceive(i))
    ensures var st, d := Last(run), Last(run).net[i];
            var st', n := Apply(plan, st, MainReceive(i)), NodeAt(st, d.dest.addr);
            && n.rec.Some? && n.rec.value >= d.s
            && (n.rec.value == d.s ==> st' == SetNode(st, d.dest.addr, n.(main := AckWaits(d.s))))
            && (n.rec.value != d.s ==> st' == st)
  {
    AgentSafety.AckFindsRecord(plan, run, Last(run).net[i]);
  }

  // Records only rise.
  ghost predicate RecordsRise(st: State, st': State) {
    forall a :: NodeAt(st, a).rec.Some? ==>
      NodeAt(st', a).rec.Some? && NodeAt(st, a).rec.value <= NodeAt(st', a).rec.value
  }

  // What main is at work on is the number its hop has recorded.
  ghost predicate MainsFit(st: State) {
    forall a :: !NodeAt(st, a).main.Idle? ==> NodeAt(st, a).rec == Some(NodeAt(st, a).main.s)
  }

  lemma SynFits(st: State, d: Dgram)
    requires d.dest.Host? && d.body.UpdateSyn? && NodeAt(st, d.dest.addr).main.Idle?
    ensures RecordsRise(st, AcceptSyn(st, d)) && (MainsFit(st) ==> MainsFit(AcceptSyn(st, d)))
  {
    AgentMutex.NetlinkKeepsNodes(st, d.dest.addr, Syn);
    hide Netlink;
  }

  lemma AckFits(st: State, d: Dgram)
    requires d.dest.Host?
    ensures RecordsRise(st, AcceptAck(st, d)) && (MainsFit(st) ==> MainsFit(AcceptAck(st, d)))
  {}

  lemma MainFits(st: State, a: Addr)
    requires !NodeAt(st, a).main.Idle?
    ensures RecordsRise(st, TurnMain(st, a)) && (MainsFit(st) ==> MainsFit(TurnMain(st, a)))
  {
    AgentMutex.NetlinkKeepsNodes(st, a, Ack);
    hide Netlink;
  }

  lemma TurnFits(st: State, t: nat)
    requires t < |st.threads|
    ensures RecordsRise(st, TurnThread(st, t)) && (MainsFit(st) ==> MainsFit(TurnThread(st, t)))
  {
    var thread := st.threads[t];
    var n := NodeAt(st, thread.hop);
    assert ThreadNext(thread, n, t).1.rec == n.rec && ThreadNext(thread, n, t).1.main == n.main;
    hide ThreadNext, ThreadSends;
  }

  lemma SameNodesFit(st: State, st': State)
    requires st'.nodes == st.nodes
    ensures RecordsRise(st, st') && (MainsFit(st) ==> MainsFit(st'))
  {}

  lemma StepFits(plan: Plan, st: State, step: Step)
    requires Enabled(st, step)
    ensures RecordsRise(st, Apply(plan, st, step)) && (MainsFit(st) ==> MainsFit(Apply(plan, st, step)))
  {
    hide RecordsRise, MainsFit, AcceptSyn, AcceptAck, TurnMain, TurnThread, NodeAt;
    match step
    case MainReceive(i) =>
      if st.net[i].body.UpdateSyn? {
        SynFits(st, st.net[i]);
      } else {
        AckFits(st, st.net[i]);
      }
    case MainTurn(a) => MainFits(st, a);
    case Turn(t) => TurnFits(st, t);
    case _ => SameNodesFit(st, Apply(plan, st, step));
  }

  lemma {:induction false} RunFits(plan: Plan, run: seq<State>, j: nat, k: nat)
    requires IsRun(plan, run) && j <= k < |run|
    ensures RecordsRise(run[j], run[k]) && (MainsFit(run[j]) ==> MainsFit(run[k]))
  {
    hide Apply, Enabled, MainsFit;
    if j < k {
      RunFits(plan, run, j, k - 1);
      assert Next(plan, run[k - 1], run[k]);
      var step :| Enabled(run[k - 1], step) && run[k] == Apply(plan, run[k - 1], step);
      StepFits(plan, run[k - 1], step);
    }
  }

  // In every run, from a received ACK to the kernel's being told of it, main works
  // for exactly the number that its hop has recorded.
  lemma MainServesRecord(plan: Plan, run: seq<State>, a: Addr)
    requires IsRun(plan, run) && !NodeAt(Last(run), a).main.Idle?
    ensures NodeAt(Last(run), a).rec == Some(NodeAt(Last(run), a).main.s)
  {
    RunFits(plan, run, 0, |run| - 1);
    assert MainsFit(Init());
  }

  // From the moment a SYN is received on, whether accepted or not, the hop's
  // record is at least its number.
  lemma ReceivedIsRecorded(plan: Plan, run: seq<State>, j: nat, k: nat, i: nat)
    requires IsRun(plan, run) && j < k < |run| && Enabled(run[j], MainReceive(i)) && run[j].net[i].body.UpdateSyn?
    requires run[j + 1] == Apply(plan, run[j], MainReceive(i))
    ensures var d := run[j].net[i];
            var rec := NodeAt(run[k], d.dest.addr).rec;
            rec.Some? && d.s <= rec.value
  {
    hide IsRun;
    SynAccepted(plan, run[j], i);
    hide Apply, Enabled, MainsFit;
    RunFits(plan, run, j + 1, k);
  }
}
