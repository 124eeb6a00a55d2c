// What an ACK says about the SYN sweep before it.  The client's check of the
// SYN-ACK falls through to the send, so any datagram on its port releases it.
module AckVouches {
  import opened Emulator
  import opened EmulatorSafety

  // No other client on client u's port has a number that hops answer.
  ghost predicate OwnPort(st: State, u: nat)
    requires u < |st.clients|
  {
    forall v :: 0 <= v < |st.clients| && v != u && st.clients[v].port == st.clients[u].port ==> st.clients[v].s <= 0
  }

  // ACKs that are not released early: a hop's, and a client's on its own port.
  ghost predicate Covered(st: State, d: Dgram) {
    d.body.Ack? && d.upd < |st.clients| && (d.pos > 0 || OwnPort(st, d.upd))
  }

  ghost predicate AcksVouch(st: State) {
    forall i :: 0 <= i < |st.net| && Covered(st, st.net[i]) ==> Vouches(st, st.net[i])
  }

  ghost predicate Vouches(st: State, d: Dgram) {
    d.upd < |st.clients| && Reached(st, d.upd, |st.clients[d.upd].list|)
  }

  // Clients only get more, so a port that is a client's own was so before.
  lemma OwnPortBefore(st: State, st': State, u: nat)
    requires Extends(st, st') && u < |st.clients| && OwnPort(st', u)
    ensures OwnPort(st, u)
  {
    forall v | 0 <= v < |st.clients| && v != u && st.clients[v].port == st.clients[u].port
      ensures st.clients[v].s <= 0
    {
      assert st'.clients[u].(acked := true) == st.clients[u].(acked := true);
      assert st'.clients[v].(acked := true) == st.clients[v].(acked := true);
    }
  }

  lemma VouchMono(st: State, st': State, d: Dgram)
    requires Extends(st, st') && Vouches(st, d)
    ensures Vouches(st', d)
  {
    hide Reached;
    assert st'.clients[d.upd].(acked := true) == st.clients[d.upd].(acked := true);
    ReachedMono(st, st', d.upd, |st.clients[d.upd].list|);
  }

  // A client whose port is its own is released by its own SYN-ACK only.
  lemma OwnPortOwnAnswer(st: State, u: nat, i: nat)
    requires NetOk(st) && Enabled(st, ClientAck(u, i)) && OwnPort(st, u)
    ensures st.net[i].body.SynAck? && st.net[i].upd == u && Reached(st, u, |st.clients[u].list|)
  {
    hide Reached;
    assert Legit(st, st.net[i]);
  }

  // Only a client's own step sends an ACK from place 0.
  lemma NewAckPlace(st: State, step: Step, j: nat)
    requires Enabled(st, step) && |st.net| <= j < |Apply(st, step).net| && Apply(st, step).net[j].body.Ack?
    ensures Apply(st, step).net[j].pos > 0 || (step.ClientAck? && Apply(st, step).net[j].upd == step.u)
  {}

  lemma StepKeepsVouch(st: State, step: Step)
    requires Inv(st) && AcksVouch(st) && Enabled(st, step)
    ensures AcksVouch(Apply(st, step))
  {
    hide Apply, Enabled, Reached, HandlersOk, Extends, Vouches, Legit, Covered;
    var st' := Apply(st, step);
    ApplyExtends(st, step);
    StepKeepsInv(st, step);
    forall j | 0 <= j < |st'.net| && Covered(st', st'.net[j]) ensures Vouches(st', st'.net[j]) {
      if j < |st.net| {
        OldAck(st, st', j);
      } else {
        NewAckVouches(st, step, j);
      }
    }
  }

  lemma OldAck(st: State, st': State, j: nat)
    requires Extends(st, st') && NetOk(st) && AcksVouch(st) && j < |st.net| && j < |st'.net| && Covered(st', st'.net[j])
    ensures Vouches(st', st'.net[j])
  {
    hide Vouches, Reached;
    assert st'.net[j] == st.net[j] && Legit(st, st.net[j]);
    if st.net[j].pos == 0 {
      OwnPortBefore(st, st', st.net[j].upd);
    }
    VouchMono(st, st', st.net[j]);
  }

  lemma NewAckVouches(st: State, step: Step, j: nat)
    requires Inv(st) && Enabled(st, step)
    requires Extends(st, Apply(st, step)) && NetOk(Apply(st, step))
    requires |st.net| <= j < |Apply(st, step).net| && Covered(Apply(st, step), Apply(st, step).net[j])
    ensures Vouches(Apply(st, step), Apply(st, step).net[j])
  {
    hide Apply, OwnPort, Reached, HandlersOk, Extends;
    var st' := Apply(st, step);
    var d := st'.net[j];
    NewAckPlace(st, step, j);
    assert Legit(st', d);
    if d.pos == 0 {
      OwnPortBefore(st, st', step.u);
      OwnPortOwnAnswer(st, step.u, step.i);
      VouchMono(st, st', d);
    }
  }

  lemma {:induction false} RunKeepsVouch(run: seq<State>)
    requires IsRun(run)
    ensures AcksVouch(Last(run))
  {
    hide Apply, Enabled, Inv, Extends, Vouches, Covered;
    if |run| == 1 {
    } else {
      var st := run[|run| - 2];
      assert Next(st, run[|run| - 1]);
      var step :| Enabled(st, step) && Last(run) == Apply(st, step);
      RunKeepsVouch(run[..|run| - 1]);
      RunKeepsInv(run[..|run| - 1]);
      StepKeepsVouch(st, step);
    }
  }

  // An ACK, from a hop or from a client whose port is its own, exists only when
  // every hop of its list has recorded its number or a newer one.
  lemma AckVouches(run: seq<State>, d: Dgram)
    requires IsRun(run) && d in Last(run).net && d.body.Ack?
    requires d.pos > 0 || (d.upd < |Last(run).clients| && OwnPort(Last(run), d.upd))
    ensures var st := Last(run);
            && d.upd < |st.clients|
            && forall j :: 0 <= j < |st.clients[d.upd].list| ==> Recorded(st, d.upd, j)
  {
    var st := Last(run);
    RunKeepsInv(run);
    assert Legit(st, d);
    RunKeepsVouch(run);
    assert Covered(st, d);
    assert Vouches(st, d);
    hide Reached, Recorded;
    forall j | 0 <= j < |st.clients[d.upd].list| ensures Recorded(st, d.upd, j) {
      hide *;
      ReachedRecorded(st, d.upd, j);
    }
  }
}
