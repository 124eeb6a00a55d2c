// What a hop's main accepts in any run of the emulator: a SYN with a number above
// the record, whatever that number, and an ACK with exactly the recorded number.
module EmulatorAccepts {
  import opened Emulator

  // Records only rise.
  ghost predicate RecordsRise(st: State, st': State) {
    forall k :: k in st.records ==> k in st'.records && st.records[k].s <= st'.records[k].s
  }

  lemma StepRaises(st: State, step: Step)
    requires Enabled(st, step)
    ensures RecordsRise(st, Apply(st, step))
  {}

  lemma {:induction false} RunRaises(run: seq<State>, j: nat, k: nat)
    requires IsRun(run) && j <= k < |run|
    ensures RecordsRise(run[j], run[k])
  {
    hide Apply, Enabled;
    if j < k {
      RunRaises(run, j, k - 1);
      assert Next(run[k - 1], run[k]);
      var step :| Enabled(run[k - 1], step) && run[k] == Apply(run[k - 1], step);
      StepRaises(run[k - 1], step);
    }
  }

  // Any datagram ever sent can arrive, however often and however late, wherever
  // somebody waits for it.
  lemma AnythingArrives(st: State, i: nat, h: nat, u: nat)
    requires i < |st.net|
    ensures st.net[i].dest.Host? && st.net[i].body.Syn? ==> Enabled(st, RecvSyn(i))
    ensures st.net[i].dest.Host? && st.net[i].body.Ack? ==> Enabled(st, RecvAck(i))
    ensures h < |st.handlers| && st.handlers[h].phase.Waiting? && st.net[i].dest == Socket(Own(h)) ==>
              Enabled(st, Receive(h, i))
    ensures u < |st.clients| && !st.clients[u].acked && st.clients[u].list != []
            && st.net[i].dest == Socket(Port(st.clients[u].port)) ==>
              Enabled(st, ClientAck(u, i))
  {}

  // A received SYN is recorded, and starts a handler, exactly when the flow has no
  // record or a smaller one; otherwise nothing changes.
  lemma SynAccepted(st: State, i: nat)
    requires i < |st.net| && st.net[i].dest.Host? && st.net[i].body.Syn?
    ensures Enabled(st, RecvSyn(i))
    ensures var d, st' := st.net[i], Apply(st, RecvSyn(i));
            var key := (d.dest.addr, d.from);
            if key !in st.records || st.records[key].s < d.s then
              && st'.records == st.records[key := Rec(d.s, false)]
              && |st'.handlers| == |st.handlers| + 1 && st'.handlers[..|st.handlers|] == st.handlers
              && var handler := st'.handlers[|st.handlers|];
                 handler.hop == d.dest.addr && handler.cli == d.from && handler.s == d.s && handler.hops == d.body.hops
                 && handler.phase.Start?
            else st' == st
  {}

  // A received ACK changes a record exactly when it carries the recorded number.
  lemma AckAccepted(st: State, i: nat)
    requires i < |st.net| && st.net[i].dest.Host? && st.net[i].body.Ack?
    ensures Enabled(st, RecvAck(i))
    ensures var d, st' := st.net[i], Apply(st, RecvAck(i));
            var key := (d.dest.addr, d.from);
            if key in st.records && st.records[key].s == d.s then
              && st'.records == st.records[key := Rec(d.s, true)]
              && st'.handlers == st.handlers && st'.net == st.net
            else st' == st
  {}

  // From the moment a SYN is received on, whether accepted or not, its flow's
  // record is at least its number.
  lemma ReceivedIsRecorded(run: seq<State>, j: nat, k: nat, i: nat)
    requires IsRun(run) && j < k < |run| && Enabled(run[j], RecvSyn(i)) && run[j + 1] == Apply(run[j], RecvSyn(i))
    ensures var d := run[j].net[i];
            var key := (d.dest.addr, d.from);
            key in run[k].records && d.s <= run[k].records[key].s
  {
    hide IsRun;
    SynAccepted(run[j], i);
    hide Apply, Enabled;
    RunRaises(run, j + 1, k);
  }

  // ----- acknowledged records -----

  ghost predicate AcksFit(st: State) {
    && (forall t :: t in st.acks ==> (t.0, t.1) in st.records && t.2 <= st.records[(t.0, t.1)].s)
    && (forall k :: k in st.records ==> (st.records[k].acked <==> (k.0, k.1, st.records[k].s) in st.acks))
  }

  lemma SpawnFits(st: State, d: Dgram)
    requires AcksFit(st) && d.dest.Host? && d.body.Syn? && Fresh(st.records, (d.dest.addr, d.from), d.s)
    ensures AcksFit(Spawn(st, d))
  {
    var st', key := Spawn(st, d), (d.dest.addr, d.from);
    forall k | k in st'.records ensures st'.records[k].acked <==> (k.0, k.1, st'.records[k].s) in st'.acks {
      if k == key {
        assert (key.0, key.1, d.s) !in st.acks;
      }
    }
  }

  lemma AckFits(st: State, i: nat)
    requires AcksFit(st) && Enabled(st, RecvAck(i))
    ensures AcksFit(Apply(st, RecvAck(i)))
  {}

  lemma SameAcksFit(st: State, st': State)
    requires AcksFit(st) && st'.records == st.records && st'.acks == st.acks
    ensures AcksFit(st')
  {}

  lemma StepKeepsFit(st: State, step: Step)
    requires AcksFit(st) && Enabled(st, step)
    ensures AcksFit(Apply(st, step))
  {
    hide AcksFit;
    if step.RecvAck? {
      AckFits(st, step.i);
    } else if step.RecvSyn? && Fresh(st.records, (st.net[step.i].dest.addr, st.net[step.i].from), st.net[step.i].s) {
      SpawnFits(st, st.net[step.i]);
    } else {
      SameAcksFit(st, Apply(st, step));
    }
  }

  lemma {:induction false} RunKeepsFit(run: seq<State>)
    requires IsRun(run)
    ensures AcksFit(Last(run))
  {
    hide AcksFit, Apply, Enabled;
    if |run| == 1 {
      InitFits();
    } else {
      RunKeepsFit(run[..|run| - 1]);
      var st := run[|run| - 2];
      assert Last(run[..|run| - 1]) == st;
      assert Next(st, run[|run| - 1]);
      var step :| Enabled(st, step) && Last(run) == Apply(st, step);
      StepKeepsFit(st, step);
    }
  }

  lemma InitFits()
    ensures AcksFit(Init())
  {}

  // In every run a record is acknowledged exactly when an ACK has been accepted
  // for its own number: a late ACK for an older one does not count.
  lemma AckedForItsNumber(run: seq<State>, key: (Addr, Sock))
    requires IsRun(run) && key in Last(run).records
    ensures var st := Last(run); st.records[key].acked <==> (key.0, key.1, st.records[key].s) in st.acks
  {
    RunKeepsFit(run);
  }
}
