// Acknowledgement advances along the hop list as a prefix: an ACK leaves a hop
// only after that hop and every hop before it have accepted one.
module AckPrefix {
  import opened Emulator
  import opened EmulatorSafety

  // The handler's hop has accepted an ACK from its sender, numbered s or later.
  ghost predicate AckedBy(st: State, handler: Handler, s: int) {
    exists n :: n >= s && (handler.hop, handler.cli, n) in st.acks
  }

  ghost predicate AckedAt(st: State, u: nat, j: int, s: int) {
    exists g :: HandlerAt(st, u, j, g) && AckedBy(st, st.handlers[g], s)
  }

  ghost predicate Prefix(st: State, u: nat, p: int, s: int) {
    forall j :: 0 <= j < p ==> AckedAt(st, u, j, s)
  }

  // An accepted ACK was sent by the socket it was accepted from.
  ghost predicate AckSent(st: State, a: Addr, x: Sock, s: int) {
    exists d :: d in st.net && d.body.Ack? && d.dest == Host(a) && d.from == x && d.s == s
  }

  ghost predicate AcksFollow(st: State) {
    forall i :: 0 <= i < |st.net| && st.net[i].body.Ack? ==>
      Prefix(st, st.net[i].upd, st.net[i].pos, st.net[i].s)
  }

  ghost predicate AcksSent(st: State) {
    forall k :: k in st.acks ==> AckSent(st, k.0, k.1, k.2)
  }

  // A flow record's flag tells the truth about its current number: addItem
  // clears it whenever the number changes.
  ghost predicate FlagsTrue(st: State) {
    forall k :: k in st.records && st.records[k].acked ==> (k.0, k.1, st.records[k].s) in st.acks
  }

  ghost predicate AckInv(st: State) {
    AcksFollow(st) && AcksSent(st) && FlagsTrue(st)
  }

  lemma AckedMono(st: State, st': State, u: nat, j: int, s: int)
    requires Extends(st, st') && AckedAt(st, u, j, s)
    ensures AckedAt(st', u, j, s)
  {
    var g :| HandlerAt(st, u, j, g) && AckedBy(st, st.handlers[g], s);
    assert st'.handlers[g].(phase := Start, count := 0) == st.handlers[g].(phase := Start, count := 0);
    assert HandlerAt(st', u, j, g) && AckedBy(st', st'.handlers[g], s);
  }

  lemma PrefixMono(st: State, st': State, u: nat, p: int, s: int)
    requires Extends(st, st') && Prefix(st, u, p, s)
    ensures Prefix(st', u, p, s)
  {
    hide Extends, AckedAt;
    forall j | 0 <= j < p ensures AckedAt(st', u, j, s) {
      AckedMono(st, st', u, j, s);
    }
  }

  lemma AcksByCases(st: State, st': State)
    requires AckInv(st) && Extends(st, st') && FlagsTrue(st')
    requires forall i :: |st.net| <= i < |st'.net| && st'.net[i].body.Ack? ==>
               Prefix(st', st'.net[i].upd, st'.net[i].pos, st'.net[i].s)
    requires forall k :: k in st'.acks && k !in st.acks ==> AckSent(st', k.0, k.1, k.2)
    ensures AckInv(st')
  {
    hide Prefix, FlagsTrue;
    forall i | 0 <= i < |st'.net| && st'.net[i].body.Ack?
      ensures Prefix(st', st'.net[i].upd, st'.net[i].pos, st'.net[i].s)
    {
      if i < |st.net| {
        assert st'.net[i] == st.net[i];
        PrefixMono(st, st', st.net[i].upd, st.net[i].pos, st.net[i].s);
      }
    }
    forall k | k in st'.acks ensures AckSent(st', k.0, k.1, k.2) {
      if k in st.acks {
        var d :| d in st.net && d.body.Ack? && d.dest == Host(k.0) && d.from == k.1 && d.s == k.2;
        assert d in st'.net;
      }
    }
  }

  // A handler's hop accepted a recent enough ACK; then every hop before it did too.
  lemma PrefixGrows(st: State, h: nat, n: int)
    requires Inv(st) && AckInv(st) && h < |st.handlers|
    requires var handler := st.handlers[h]; n >= handler.s && (handler.hop, handler.cli, n) in st.acks
    ensures Prefix(st, st.handlers[h].upd, st.handlers[h].pos + 1, st.handlers[h].s)
  {
    hide Prefix, Reached, PhaseOk, FlagsTrue, AckedAt;
    var handler := st.handlers[h];
    assert Placed(st, handler);
    assert AckSent(st, handler.hop, handler.cli, n);
    var d :| d in st.net && d.body.Ack? && d.dest == Host(handler.hop) && d.from == handler.cli && d.s == n;
    assert Legit(st, d);
    if handler.pos > 0 {
      assert d.upd == handler.upd && d.pos == handler.pos;
      assert Prefix(st, d.upd, d.pos, d.s);
    }
    hide *;
    PrefixExtend(st, h, n);
  }

  lemma PrefixExtend(st: State, h: nat, n: int)
    requires h < |st.handlers|
    requires var handler := st.handlers[h];
             && n >= handler.s && (handler.hop, handler.cli, n) in st.acks
             && (handler.pos > 0 ==> Prefix(st, handler.upd, handler.pos, handler.s))
    ensures Prefix(st, st.handlers[h].upd, st.handlers[h].pos + 1, st.handlers[h].s)
  {
    var handler := st.handlers[h];
    assert HandlerAt(st, handler.upd, handler.pos, h) && AckedBy(st, handler, handler.s);
  }

  lemma CheckKeepsAcks(st: State, h: nat)
    requires Inv(st) && AckInv(st) && Enabled(st, Check(h))
    ensures AckInv(Apply(st, Check(h)))
  {
    hide Prefix, Extends, Reached, Legit, Placed;
    var st' := Apply(st, Check(h));
    CheckExtends(st, h);
    var handler := st.handlers[h];
    var key := (handler.hop, handler.cli);
    assert Placed(st, handler) && PhaseOk(st, handler);
    if key in st.records && st.records[key].acked {
      RecordIsNew(st, h);
      PrefixGrows(st, h, st.records[key].s);
      PrefixMono(st, st', handler.upd, handler.pos + 1, handler.s);
    }
    hide NetOk, HandlersOk, AcksFollow, AcksSent, PhaseOk;
    AcksByCases(st, st');
  }

  lemma RecordIsNew(st: State, h: nat)
    requires Inv(st) && h < |st.handlers|
    ensures var handler := st.handlers[h];
            (handler.hop, handler.cli) in st.records && st.records[(handler.hop, handler.cli)].s >= handler.s
  {
    hide Legit, PhaseOk, Reached;
    assert Placed(st, st.handlers[h]);
  }

  lemma RecvKeepsAcks(st: State, step: Step)
    requires Inv(st) && AckInv(st) && Enabled(st, step) && (step.RecvSyn? || step.RecvAck?)
    ensures AckInv(Apply(st, step))
  {
    hide Prefix, Inv, AcksFollow, AcksSent;
    var st' := Apply(st, step);
    assert Extends(st, st');
    if step.RecvAck? {
      assert st.net[step.i] in st'.net;
    }
    hide Extends;
    AcksByCases(st, st');
  }

  lemma ClientKeepsAcks(st: State, step: Step)
    requires AckInv(st) && Enabled(st, step) && (step.ClientSyn? || step.ClientAck?)
    ensures AckInv(Apply(st, step))
  {
    hide AcksFollow, AcksSent;
    var st' := Apply(st, step);
    assert Extends(st, st');
    hide Extends;
    AcksByCases(st, st');
  }

  lemma HandlerKeepsAcks(st: State, step: Step)
    requires Inv(st) && AckInv(st) && Enabled(st, step) && (step.Begin? || step.Receive? || step.Send?)
    ensures AckInv(Apply(st, step))
  {
    hide AcksFollow, AcksSent, Placed, Legit, Prefix, NetOk;
    var st' := Apply(st, step);
    assert Extends(st, st');
    assert PhaseOk(st, st.handlers[step.h]);
    hide Extends;
    AcksByCases(st, st');
  }

  lemma StepKeepsAcks(st: State, step: Step)
    requires Inv(st) && AckInv(st) && Enabled(st, step)
    ensures AckInv(Apply(st, step))
  {
    hide *;
    if step.Check? {
      CheckKeepsAcks(st, step.h);
    } else if step.RecvSyn? || step.RecvAck? {
      RecvKeepsAcks(st, step);
    } else if step.ClientSyn? || step.ClientAck? {
      ClientKeepsAcks(st, step);
    } else {
      HandlerKeepsAcks(st, step);
    }
  }

  lemma {:induction false} RunKeepsAcks(run: seq<State>)
    requires IsRun(run)
    ensures AckInv(Last(run))
  {
    hide AckInv, Apply, Enabled, Inv;
    if |run| == 1 {
      InitAcks();
    } else {
      RunKeepsAcks(run[..|run| - 1]);
      RunKeepsInv(run[..|run| - 1]);
      var st := run[|run| - 2];
      assert Next(st, run[|run| - 1]);
      var step :| Enabled(st, step) && Last(run) == Apply(st, step);
      StepKeepsAcks(st, step);
    }
  }

  lemma InitAcks()
    ensures AckInv(Init())
  {}

  // An ACK sent by the hop at place p - 1 (p == 0: by the client) follows an
  // accepted ACK, numbered at least as high, at every hop before place p.
  lemma AckedPrefix(run: seq<State>, d: Dgram, j: nat)
    requires IsRun(run) && d in Last(run).net && d.body.Ack? && j < d.pos
    ensures AckedAt(Last(run), d.upd, j, d.s)
  {
    hide Inv, AckedAt;
    RunKeepsAcks(run);
    assert Prefix(Last(run), d.upd, d.pos, d.s);
  }
}
