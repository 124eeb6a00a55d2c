// Every update can complete: for any hop list a run in which the SYN reaches
// every hop, the SYN-ACK comes back and the ACK passes every hop, in three
// datagrams a hop.
module EmulatorCompletes {
  import opened Emulator
  import EmulatorSafety
  import AckVouches
  import MessageBound

  datatype Update = Update(port: nat, s: int, list: seq<Addr>)
  {
    predicate Valid() { s > 0 && list != [] }

    // The socket that speaks to place j.
    function Cli(j: nat): Sock {
      if j == 0 then Port(port) else Own(j - 1)
    }

    function Key(j: nat): (Addr, Sock)
      requires j < |list|
    {
      (list[j], Cli(j))
    }

    function SynTo(j: nat): Dgram
      requires j < |list|
    {
      Dgram(Host(list[j]), Cli(j), Syn(list[j..]), s, 0, j)
    }

    function AckTo(j: nat): Dgram
      requires j < |list|
    {
      Dgram(Host(list[j]), Cli(j), Ack, s, 0, j)
    }

    // The handler at place j.
    function At(j: nat, phase: Phase, count: nat): Handler
      requires j < |list|
    {
      Handler(list[j], Cli(j), s, list[j..], phase, count, 0, j)
    }
  }

  // Records of the first n places, and no others; the first a are acknowledged.
  ghost predicate Recorded(u: Update, st: State, n: nat, a: nat)
    requires n <= |u.list|
  {
    && (forall j :: 0 <= j < n ==> u.Key(j) in st.records && st.records[u.Key(j)] == Rec(u.s, j < a))
    && (forall k :: k in st.records ==> exists j :: 0 <= j < n && k.1 == u.Cli(j))
  }

  // The first n hops have their handlers; those that can have forwarded.
  ghost predicate Swept(u: Update, st: State, n: nat) {
    && n <= |u.list|
    && st.clients == [Client(u.port, u.s, u.list, false)]
    && |st.handlers| == n
    && (forall j :: 0 <= j < n ==> st.handlers[j] == u.At(j, if j + 1 < |u.list| then Waiting else Start, 0))
    && Recorded(u, st, n, 0)
    && |st.net| == (if n < |u.list| then n + 1 else n)
    && (n < |u.list| ==> st.net[n] == u.SynTo(n))
  }

  lemma Starts(u: Update) returns (run: seq<State>)
    requires u.Valid()
    ensures run != [] && IsRun(run) && Swept(u, Last(run), 0)
  {
    hide IsRun;
    run := OnlyInit();
    run := Go(run, ClientSyn(u.port, u.s, u.list));
    assert u.list[0..] == u.list;
  }

  // The next hop records the SYN and starts its handler.
  lemma SynArrives(u: Update, st: State, n: nat)
    requires Swept(u, st, n) && n < |u.list|
    ensures Enabled(st, RecvSyn(n))
    ensures var st' := Apply(st, RecvSyn(n));
            && st'.clients == st.clients && st'.net == st.net
            && st'.handlers == st.handlers + [u.At(n, Start, 0)] && Recorded(u, st', n + 1, 0)
  {
    var st' := Apply(st, RecvSyn(n));
    assert forall j :: 0 <= j < n ==> u.Cli(j) != u.Cli(n);
    forall k | k in st'.records ensures exists j :: 0 <= j < n + 1 && k.1 == u.Cli(j) {
      if k in st.records {
        var j :| 0 <= j < n && k.1 == u.Cli(j);
      } else {
        assert k.1 == u.Cli(n);
      }
    }
  }

  lemma SweepOne(u: Update, run: seq<State>, n: nat) returns (next: seq<State>)
    requires u.Valid() && run != [] && IsRun(run) && Swept(u, Last(run), n) && n < |u.list|
    ensures next != [] && IsRun(next) && Swept(u, Last(next), n + 1)
  {
    hide IsRun, Recorded;
    SynArrives(u, Last(run), n);
    next := Go(run, RecvSyn(n));
    if n + 1 < |u.list| {
      var st := Last(next);
      assert u.list[n..][1..] == u.list[n + 1..];
      next := Go(next, Begin(n));
      SameRecorded(u, st, Last(next), n + 1, 0);
    }
  }

  lemma SameRecorded(u: Update, st: State, st': State, n: nat, a: nat)
    requires n <= |u.list| && Recorded(u, st, n, a) && st'.records == st.records
    ensures Recorded(u, st', n, a)
  {}

  lemma {:induction false} Sweeps(u: Update, n: nat) returns (run: seq<State>)
    requires u.Valid() && n <= |u.list|
    ensures run != [] && IsRun(run) && Swept(u, Last(run), n)
  {
    hide IsRun, Swept;
    if n == 0 {
      run := Starts(u);
    } else {
      run := Sweeps(u, n - 1);
      run := SweepOne(u, run, n - 1);
    }
  }

  // How many answers the first t turns of a retry loop send.
  function Answers(t: nat): nat {
    (t + 39) / 40
  }

  // A handler in turn t of its retry loop that has yet to look up its record.
  ghost predicate InTurn(u: Update, handler: Handler, j: nat, t: nat)
    requires j < |u.list|
  {
    && handler.phase.Checking? && handler.phase.m.s == u.s && handler.phase.m.upd == 0 && handler.phase.m.body == SynAck
    && handler == u.At(j, handler.phase, t)
  }

  // The answer has come back to place n, whose handler is in turn t; every hop
  // after it is in turn c.
  ghost predicate Answered(u: Update, st: State, n: nat, c: nat, t: nat) {
    && n < |u.list|
    && st.clients == [Client(u.port, u.s, u.list, false)]
    && |st.handlers| == |u.list|
    && (forall j :: 0 <= j < n ==> st.handlers[j] == u.At(j, Waiting, 0))
    && (forall j :: n <= j < |u.list| ==> InTurn(u, st.handlers[j], j, if j == n then t else c))
    && Recorded(u, st, |u.list|, 0)
    && |st.net| == |u.list| + (|u.list| - n - 1) * Answers(c) + Answers(t)
    && st.net != []
    && var d := st.net[|st.net| - 1];
       d.dest == Socket(u.Cli(n)) && d.body == SynAck && d.s == u.s && d.upd == 0
  }

  lemma LastAnswers(u: Update, run: seq<State>, c: nat) returns (next: seq<State>)
    requires u.Valid() && run != [] && IsRun(run) && Swept(u, Last(run), |u.list|)
    ensures next != [] && IsRun(next) && Answered(u, Last(next), |u.list| - 1, c, 1)
  {
    hide IsRun, Recorded;
    var st := Last(run);
    next := Go(run, Begin(|u.list| - 1));
    next := Go(next, Send(|u.list| - 1));
    SameRecorded(u, st, Last(next), |u.list|, 0);
  }

  lemma AnswersNext(t: nat)
    ensures Answers(t + 1) == Answers(t) + if (t + 1) % 40 == 1 then 1 else 0
  {}

  // Not acknowledged yet: one more turn.
  lemma TurnOne(u: Update, run: seq<State>, n: nat, c: nat, t: nat) returns (next: seq<State>)
    requires u.Valid() && run != [] && IsRun(run) && Answered(u, Last(run), n, c, t) && t < 1000
    ensures next != [] && IsRun(next) && Answered(u, Last(next), n, c, t + 1)
  {
    hide IsRun, Answers;
    var st := Last(run);
    AnswersNext(t);
    assert u.Key(n) in st.records && !st.records[u.Key(n)].acked;
    hide Recorded;
    next := Go(run, Check(n));
    next := Go(next, Send(n));
    SameRecorded(u, st, Last(next), |u.list|, 0);
  }

  lemma {:induction false} TakesTurns(u: Update, run: seq<State>, n: nat, c: nat, t: nat) returns (next: seq<State>)
    requires u.Valid() && run != [] && IsRun(run) && Answered(u, Last(run), n, c, 1) && 1 <= t <= 1000
    ensures next != [] && IsRun(next) && Answered(u, Last(next), n, c, t)
  {
    hide IsRun, Answered;
    if t == 1 {
      next := run;
    } else {
      next := TakesTurns(u, run, n, c, t - 1);
      next := TurnOne(u, next, n, c, t - 1);
    }
  }

  lemma RelayOne(u: Update, run: seq<State>, n: nat, c: nat) returns (next: seq<State>)
    requires u.Valid() && run != [] && IsRun(run) && Answered(u, Last(run), n, c, c) && n > 0
    ensures next != [] && IsRun(next) && Answered(u, Last(next), n - 1, c, 1)
  {
    assert Answers(1) == 1;
    hide IsRun, Recorded, Answers;
    var st := Last(run);
    next := Go(run, Receive(n - 1, |st.net| - 1));
    next := Go(next, Send(n - 1));
    assert (|u.list| - n) * Answers(c) == (|u.list| - n - 1) * Answers(c) + Answers(c);
    SameRecorded(u, st, Last(next), |u.list|, 0);
  }

  lemma {:induction false} ComesBack(u: Update, n: nat, c: nat) returns (run: seq<State>)
    requires u.Valid() && n < |u.list| && 1 <= c <= 1000
    ensures run != [] && IsRun(run) && Answered(u, Last(run), n, c, c)
    decreases |u.list| - n
  {
    hide IsRun, Answered, Swept;
    if n == |u.list| - 1 {
      run := Sweeps(u, |u.list|);
      run := LastAnswers(u, run, c);
    } else {
      run := ComesBack(u, n + 1, c);
      run := RelayOne(u, run, n + 1, c);
    }
    run := TakesTurns(u, run, n, c, c);
  }

  // The first n hops are acknowledged; the ACK is on its way to the next.
  ghost predicate Acked(u: Update, st: State, n: nat, c: nat) {
    && n <= |u.list|
    && st.clients == [Client(u.port, u.s, u.list, true)]
    && |st.handlers| == |u.list|
    && (forall j :: 0 <= j < n ==> st.handlers[j] == u.At(j, Done(true), c))
    && (forall j :: n <= j < |u.list| ==> InTurn(u, st.handlers[j], j, c))
    && Recorded(u, st, |u.list|, n)
    && |st.net| == |u.list| + |u.list| * Answers(c) + (if n < |u.list| then n + 1 else n)
    && (n < |u.list| ==> st.net[|st.net| - 1] == u.AckTo(n))
  }

  lemma ClientAcks(u: Update, run: seq<State>, c: nat) returns (next: seq<State>)
    requires u.Valid() && run != [] && IsRun(run) && Answered(u, Last(run), 0, c, c)
    ensures next != [] && IsRun(next) && Acked(u, Last(next), 0, c)
  {
    hide IsRun, Recorded, Answers;
    var st := Last(run);
    assert |u.list| * Answers(c) == (|u.list| - 1) * Answers(c) + Answers(c);
    next := Go(run, ClientAck(0, |st.net| - 1));
    SameRecorded(u, st, Last(next), |u.list|, 0);
  }

  lemma AckArrives(u: Update, st: State, n: nat, c: nat)
    requires Acked(u, st, n, c) && n < |u.list|
    ensures Enabled(st, RecvAck(|st.net| - 1))
    ensures var st' := Apply(st, RecvAck(|st.net| - 1));
            && st'.clients == st.clients && st'.net == st.net && st'.handlers == st.handlers
            && Recorded(u, st', |u.list|, n + 1)
  {
    forall j | 0 <= j < |u.list| && j != n ensures u.Key(j) != u.Key(n) {
      assert u.Cli(j) != u.Cli(n);
    }
  }

  lemma AckOne(u: Update, run: seq<State>, n: nat, c: nat) returns (next: seq<State>)
    requires u.Valid() && run != [] && IsRun(run) && Acked(u, Last(run), n, c) && n < |u.list|
    ensures next != [] && IsRun(next) && Acked(u, Last(next), n + 1, c)
  {
    hide IsRun, Recorded, Answers;
    var i := |Last(run).net| - 1;
    AckArrives(u, Last(run), n, c);
    next := Go(run, RecvAck(i));
    AckChecked(u, Last(run), Last(next), n, c);
    next := Go(next, Check(n));
  }

  // The handler finds its record acknowledged and passes the ACK on.
  lemma AckChecked(u: Update, st0: State, st: State, n: nat, c: nat)
    requires Acked(u, st0, n, c) && n < |u.list|
    requires st.clients == st0.clients && st.net == st0.net && st.handlers == st0.handlers
    requires Recorded(u, st, |u.list|, n + 1)
    ensures Enabled(st, Check(n)) && Acked(u, Apply(st, Check(n)), n + 1, c)
  {
    hide Answers;
    var handler := st.handlers[n];
    assert InTurn(u, handler, n, c);
    assert u.Key(n) in st.records && st.records[u.Key(n)].acked;
    hide Recorded;
    SameRecorded(u, st, Apply(st, Check(n)), |u.list|, n + 1);
  }

  lemma {:induction false} Acks(u: Update, n: nat, c: nat) returns (run: seq<State>)
    requires u.Valid() && n <= |u.list| && 1 <= c <= 1000
    ensures run != [] && IsRun(run) && Acked(u, Last(run), n, c)
  {
    hide IsRun, Answered, Acked;
    if n == 0 {
      run := ComesBack(u, 0, c);
      run := ClientAcks(u, run, c);
    } else {
      run := Acks(u, n - 1, c);
      run := AckOne(u, run, n - 1, c);
    }
  }

  // Any positive number over any hop list, with every hop acknowledged in any
  // one turn of the thousand: every hop ends acknowledged, and the participants
  // have sent one SYN and one ACK a hop, and the answers of that many turns.
  lemma UpdateCompletes(u: Update, c: nat) returns (run: seq<State>)
    requires u.Valid() && 1 <= c <= 1000
    ensures run != [] && IsRun(run)
    ensures var st := Last(run);
            && st.clients == [Client(u.port, u.s, u.list, true)]
            && |st.net| == 2 * |u.list| + |u.list| * ((c + 39) / 40)
            && |st.handlers| == |u.list|
            && forall j :: 0 <= j < |u.list| ==>
                 st.handlers[j].hop == u.list[j] && st.handlers[j].phase == Done(true) && st.handlers[j].count == c
                 && u.Key(j) in st.records && st.records[u.Key(j)] == Rec(u.s, true)
  {
    hide IsRun;
    run := Acks(u, |u.list|, c);
  }

  // The bound on an update's datagrams is attained, over every list.
  lemma BoundAttained(u: Update) returns (run: seq<State>)
    requires u.Valid()
    ensures run != [] && IsRun(run) && |Last(run).clients| == 1 && Last(run).clients[0].list == u.list
    ensures MessageBound.Sent(Last(run).net, 0) == 27 * |u.list|
  {
    hide *;
    run := UpdateCompletes(u, 1000);
    EmulatorSafety.RunKeepsInv(run);
    OnlyUpdate(Last(run), Last(run).net);
  }

  lemma {:induction false} OnlyUpdate(st: State, net: seq<Dgram>)
    requires EmulatorSafety.Inv(st) && |st.clients| == 1 && net <= st.net
    ensures MessageBound.Sent(net, 0) == |net|
  {
    if net != [] {
      var n := |net| - 1;
      assert net[n] == st.net[n];
      MessageBound.PlacesFit(st, st.net[n].upd, n);
      hide EmulatorSafety.Inv;
      OnlyUpdate(st, net[..n]);
    }
  }

  // Why a client needs a port of its own: whatever the two lists, the answer to
  // another client with a positive number on the port releases it, before any
  // hop has heard of its update.
  lemma SharedPortAcksEarly(u: Update, s: int, list: seq<Addr>) returns (run: seq<State>, d: Dgram)
    requires u.Valid() && list != []
    ensures run != [] && IsRun(run) && d in Last(run).net && d.body.Ack? && d.pos == 0
    ensures var st := Last(run);
            && d.upd < |st.clients| && st.clients[d.upd].port == u.port && st.clients[d.upd].list == list && d.s == s
            && !AckVouches.OwnPort(st, d.upd)
            && forall j :: 0 <= j < |list| ==> !EmulatorSafety.Recorded(st, d.upd, j)
  {
    hide IsRun;
    run := ComesBack(u, 0, 1);
    var i := |Last(run).net| - 1;
    var first := Last(run);
    run := Go(run, ClientSyn(u.port, s, list));
    run := Go(run, ClientAck(1, i));
    var st := Last(run);
    d := Dgram(Host(list[0]), Port(u.port), Ack, s, 1, 0);
    assert st.net[|st.net| - 1] == d;
    assert st.handlers == first.handlers;
    assert st.clients[0].port == u.port && st.clients[0].s == u.s;
    forall g | 0 <= g < |st.handlers| ensures st.handlers[g].upd == 0 {
      assert InTurn(u, first.handlers[g], g, 1);
    }
  }
}
