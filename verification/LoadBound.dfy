// How long bucket chains can get.  The table's counters alone -- item count,
// per-bucket count and expand_mult, and the expansion statistics -- form a
// state machine whose steps are an add that does not trigger an expansion, an
// add that does, and a delete.  UtHash.Table's methods are proved to take
// exactly these steps; here every run of them is shown to keep chains short.
module LoadBound {
  import opened Bits

  const INITIAL_NUM_BUCKETS_LOG2: nat := 5
  const BKT_CAPACITY_THRESH: nat := 10

  function Sum(s: seq<nat>): nat {
    if s == [] then 0 else s[0] + Sum(s[1..])
  }

  lemma {:induction false} SumUpdate(s: seq<nat>, i: nat, v: nat)
    requires i < |s|
    ensures Sum(s[i := v]) + s[i] == Sum(s) + v
  {
    var t := s[i := v];
    if i == 0 {
      assert t[1..] == s[1..];
    } else {
      assert t[1..] == s[1..][i - 1 := v];
      SumUpdate(s[1..], i - 1, v);
    }
  }

  lemma {:induction false} SumZeros(s: seq<nat>)
    requires forall i :: 0 <= i < |s| ==> s[i] == 0
    ensures Sum(s) == 0
  {
    if s != [] { SumZeros(s[1..]); }
  }

  // If every cap is at most 10 * w + 9, so is their sum, bucket by bucket.
  lemma {:induction false} SumOfCaps(counts: seq<nat>, w: seq<nat>)
    requires |counts| == |w|
    requires forall b :: 0 <= b < |w| ==> counts[b] <= 10 * w[b] + 9
    ensures Sum(counts) <= 10 * Sum(w) + 9 * |w|
  {
    if w != [] { SumOfCaps(counts[1..], w[1..]); }
  }

  // The expand_mult that redistribution leaves in a bucket of c items: it is
  // overwritten with count / ideal each time count exceeds ideal.
  function MultOf(c: nat, ideal: nat): nat
    requires ideal > 0
  {
    if c > ideal then Quotient(c, ideal) else 0
  }

  // m is that expand_mult: the quotient, or 0 for a bucket within the ideal length.
  ghost predicate IsMult(c: nat, m: nat, ideal: nat) {
    if c > ideal then m * ideal <= c < (m + 1) * ideal else m == 0
  }

  lemma MultIs(c: nat, ideal: nat)
    requires ideal > 0
    ensures IsMult(c, MultOf(c, ideal), ideal)
  {
    QuotientIsDivision(c, ideal);
  }

  lemma MultIsOnly(c: nat, m: nat, ideal: nat)
    requires ideal > 0 && IsMult(c, m, ideal)
    ensures m == MultOf(c, ideal)
  {
    if c > ideal {
      QuotientIsDivision(c, ideal);
      OneMore(m, ideal);
      RemainderIs(c, ideal, m, c - m * ideal);
    }
  }

  // The items of a bucket whose chain position is past the ideal length.
  function Excess(c: nat, ideal: nat): nat {
    if c > ideal then c - ideal else 0
  }

  function Mults(counts: seq<nat>, ideal: nat): (m: seq<nat>)
    requires ideal > 0
    ensures |m| == |counts|
  {
    seq(|counts|, b requires 0 <= b < |counts| => MultOf(counts[b], ideal))
  }

  function SumExcess(counts: seq<nat>, ideal: nat): nat {
    if counts == [] then 0 else Excess(counts[0], ideal) + SumExcess(counts[1..], ideal)
  }

  lemma {:induction false} SumExcessUpdate(s: seq<nat>, i: nat, v: nat, ideal: nat)
    requires i < |s|
    ensures SumExcess(s[i := v], ideal) + Excess(s[i], ideal) == SumExcess(s, ideal) + Excess(v, ideal)
  {
    var t := s[i := v];
    if i == 0 {
      assert t[1..] == s[1..];
    } else {
      assert t[1..] == s[1..][i - 1 := v];
      SumExcessUpdate(s[1..], i - 1, v, ideal);
    }
  }

  // The items of every bucket up to the ideal length.
  function SumWithin(counts: seq<nat>, ideal: nat): nat {
    if counts == [] then 0
    else (if counts[0] < ideal then counts[0] else ideal) + SumWithin(counts[1..], ideal)
  }

  // What is not within the ideal length is past it.
  lemma {:induction false} WithinOrPast(counts: seq<nat>, ideal: nat)
    ensures SumWithin(counts, ideal) + SumExcess(counts, ideal) == Sum(counts)
  {
    if counts != [] { WithinOrPast(counts[1..], ideal); }
  }

  lemma {:induction false} SumExcessZeros(s: seq<nat>, ideal: nat)
    requires forall i :: 0 <= i < |s| ==> s[i] == 0
    ensures SumExcess(s, ideal) == 0
  {
    if s != [] { SumExcessZeros(s[1..], ideal); }
  }

  datatype Load = Load(items: nat, log2: nat, counts: seq<nat>, mults: seq<nat>,
                       ideal: nat, nonideal: nat, ineff: nat, noexpand: bool)

  // HASH_MAKE_TABLE's counters; also the view of a table that is not there.
  function Fresh(): Load {
    var n := Pow2(INITIAL_NUM_BUCKETS_LOG2);
    Load(0, INITIAL_NUM_BUCKETS_LOG2, seq(n, _ => 0), seq(n, _ => 0), 0, 0, 0, false)
  }

  predicate Triggers(l: Load, b: nat)
    requires b < |l.counts| == |l.mults|
  {
    l.counts[b] + 1 >= (l.mults[b] + 1) * BKT_CAPACITY_THRESH && !l.noexpand
  }

  // Doubling the table divides every bucket's items between it and its twin.
  ghost predicate Splits(olds: seq<nat>, news: seq<nat>) {
    |news| == 2 * |olds| && forall i :: 0 <= i < |olds| ==> news[i] + news[i + |olds|] == olds[i]
  }

  lemma {:induction false} SumConcat(s: seq<nat>, t: seq<nat>)
    ensures Sum(s + t) == Sum(s) + Sum(t)
  {
    if s == [] {
      assert s + t == t;
    } else {
      assert (s + t)[1..] == s[1..] + t;
      SumConcat(s[1..], t);
    }
  }

  lemma {:induction false} SumOfPairs(s: seq<nat>, t: seq<nat>, u: seq<nat>)
    requires |s| == |t| == |u| && forall i :: 0 <= i < |u| ==> s[i] + t[i] == u[i]
    ensures Sum(s) + Sum(t) == Sum(u)
  {
    if u != [] { SumOfPairs(s[1..], t[1..], u[1..]); }
  }

  lemma SplitsSum(olds: seq<nat>, news: seq<nat>)
    requires Splits(olds, news)
    ensures Sum(news) == Sum(olds)
  {
    var n := |olds|;
    assert news == news[..n] + news[n..];
    SumConcat(news[..n], news[n..]);
    SumOfPairs(news[..n], news[n..], olds);
  }

  // An add to bucket b up to, but not including, the expansion it may trigger.
  function Grow(l: Load, b: nat): Load
    requires b < |l.counts| == |l.mults|
  {
    l.(items := l.items + 1, counts := l.counts[b := l.counts[b] + 1])
  }

  function Shrink(l: Load, b: nat): Load
    requires b < |l.counts| == |l.mults| && l.counts[b] > 0 && l.items > 0
  {
    if l.items == 1 then Fresh()
    else l.(items := l.items - 1, counts := l.counts[b := l.counts[b] - 1])
  }

  // HASH_EXPAND_BUCKETS, given how the items fall into the doubled buckets.
  function Expand(l: Load, counts: seq<nat>): Load
    requires l.items > 0
  {
    var ideal := IdealChain(l.items, l.log2 + 1);
    IdealChainIsCeil(l.items, l.log2 + 1);
    var nonideal := SumExcess(counts, ideal);
    var ineff := if nonideal > ShiftRight(l.items, 1) then l.ineff + 1 else 0;
    Load(l.items, l.log2 + 1, counts, Mults(counts, ideal), ideal, nonideal,
         ineff, l.noexpand || ineff > 1)
  }

  // What an expansion to twice as many buckets decides, in numbers.
  lemma ExpandMeans(l: Load, counts: seq<nat>)
    requires l.items > 0
    ensures var m := Expand(l, counts);
            && m.counts == counts && |m.mults| == |counts|
            && m.ideal > 0 && IsCeil(m.ideal, l.items, 2 * Pow2(l.log2))
            && (forall b :: 0 <= b < |counts| ==> IsMult(counts[b], m.mults[b], m.ideal))
            && m.nonideal + SumWithin(counts, m.ideal) == Sum(counts)
            && m.ineff == (if 2 * m.nonideal > l.items then l.ineff + 1 else 0)
            && m.noexpand == (l.noexpand || m.ineff >= 2)
  {
    hide IdealChain, SumExcess, SumWithin, Sum, MultOf, IsMult;
    var m := Expand(l, counts);
    IdealChainIsCeil(l.items, l.log2 + 1);
    forall b | 0 <= b < |counts| ensures IsMult(counts[b], m.mults[b], m.ideal) {
      MultIs(counts[b], m.ideal);
    }
    WithinOrPast(counts, m.ideal);
    ShiftIsQuotient(l.items, 1);
    assert Pow2(1) == 2;
  }

  datatype Step = Add(b: nat) | AddExpand(b: nat, counts: seq<nat>) | Delete(b: nat)

  ghost predicate Enabled(l: Load, s: Step) {
    && s.b < |l.counts| == |l.mults|
    && match s
       case Add(b) => !Triggers(l, b)
       case AddExpand(b, counts) =>
         Triggers(l, b) && Splits(Grow(l, b).counts, counts)
       case Delete(b) => l.counts[b] > 0 && l.items > 0
  }

  // One more item makes bucket b ten times as long as its expand_mult plus one.
  ghost predicate TenTimes(l: Load, b: nat) {
    && b < |l.counts| == |l.mults|
    && !l.noexpand && l.counts[b] + 1 >= 10 * (l.mults[b] + 1)
  }

  lemma ExpandsAtTen(l: Load, s: Step)
    requires Enabled(l, s) && !s.Delete?
    ensures s.AddExpand? <==> TenTimes(l, s.b)
  {
    hide Splits;
  }

  ghost function Apply(l: Load, s: Step): Load
    requires Enabled(l, s)
  {
    match s
    case Add(b) => Grow(l, b)
    case AddExpand(b, counts) => Expand(Grow(l, b), counts)
    case Delete(b) => Shrink(l, b)
  }

  // A bucket's cap: one short of its trigger, or 10 for a bucket that an
  // expansion left with exactly 10 items and expand_mult 0.
  function Cap(mult: nat, w: nat): nat {
    if mult == 0 && w == 1 then 10 else 10 * mult + 9
  }

  // w gives each bucket its share of the number of buckets.
  ghost predicate Shares(l: Load, w: seq<nat>) {
    && |w| == |l.counts| == |l.mults|
    && Sum(w) <= |w|
    && forall b :: 0 <= b < |w| ==> l.mults[b] <= w[b] && l.counts[b] <= Cap(l.mults[b], w[b])
  }

  ghost predicate Inv(l: Load) {
    && |l.counts| == |l.mults| == Pow2(l.log2)
    && Sum(l.counts) == l.items
    && Sum(l.mults) <= |l.mults|
    && l.ideal <= 10
    && (l.noexpand <==> l.ineff > 1)
    && (!l.noexpand ==> exists w :: Shares(l, w))
  }

  // What the invariant says about chain lengths.
  ghost predicate Bounded(l: Load) {
    && |l.counts| == |l.mults|
    && Sum(l.mults) <= |l.counts|
    && l.ideal <= 10
    && (!l.noexpand ==> forall b :: 0 <= b < |l.counts| ==> l.counts[b] <= 10 * (l.mults[b] + 1))
  }

  lemma InvBounds(l: Load)
    requires Inv(l)
    ensures Bounded(l)
  {
    if !l.noexpand { var w :| Shares(l, w); }
  }

  lemma FreshInv()
    ensures Inv(Fresh())
  {
    var l := Fresh();
    SumZeros(l.counts);
    SumZeros(l.mults);
    assert Shares(l, l.mults) by {
      forall b | 0 <= b < |l.mults|
        ensures l.mults[b] <= l.mults[b] && l.counts[b] <= Cap(l.mults[b], l.mults[b]) {}
    }
  }

  // While expansion is allowed a table of B buckets holds at most 19 B items,
  // so the doubled table's ideal chain is at most 10 even one item later.
  lemma TriggerIdeal(l: Load, b: nat)
    requires Inv(l) && b < |l.counts| && Triggers(l, b)
    ensures var c := IdealChain(l.items + 1, l.log2 + 1);
            0 < c <= 10 && l.items + 1 <= c * Pow2(l.log2 + 1)
  {
    hide ShiftRight, And, IdealChain, Sum;
    var w :| Shares(l, w);
    SumOfCaps(l.counts, w);
    var n := Pow2(l.log2);
    assert l.items <= 19 * n;
    hide Inv, Shares;
    IdealChainIsCeil(l.items + 1, l.log2 + 1);
    var c := IdealChain(l.items + 1, l.log2 + 1);
    if c >= 11 { MulMono(10, c - 1, 2 * n); }
  }

  lemma Distribute(x: int, y: int, d: int)
    ensures (x + y) * d == x * d + y * d
  {}

  lemma {:induction false} SumOfQuotients(counts: seq<nat>, ideal: nat, w: seq<nat>)
    requires ideal > 0 && |w| == |counts|
    requires forall b :: 0 <= b < |w| ==> w[b] == Quotient(counts[b], ideal)
    ensures Sum(w) * ideal <= Sum(counts)
  {
    if counts != [] {
      SumOfQuotients(counts[1..], ideal, w[1..]);
      QuotientIsDivision(counts[0], ideal);
      Distribute(w[0], Sum(w[1..]), ideal);
    }
  }

  lemma {:induction false} SumMono(s: seq<nat>, t: seq<nat>)
    requires |s| == |t| && forall i :: 0 <= i < |s| ==> s[i] <= t[i]
    ensures Sum(s) <= Sum(t)
  {
    if s != [] { SumMono(s[1..], t[1..]); }
  }

  lemma QuotientFits(c: nat, ideal: nat)
    requires 0 < ideal <= 10
    ensures var m, q := MultOf(c, ideal), Quotient(c, ideal); m <= q && c <= Cap(m, q)
  {
    QuotientIsDivision(c, ideal);
    var q := Quotient(c, ideal);
    if c > ideal {
      MulMono(ideal, 10, q + 1);
      assert (q + 1) * ideal == ideal * (q + 1);
    }
  }

  lemma QuotientShares(counts: seq<nat>, ideal: nat) returns (w: seq<nat>)
    requires 0 < ideal <= 10 && Sum(counts) <= ideal * |counts|
    ensures |w| == |counts| && Sum(w) <= |w|
    ensures forall b :: 0 <= b < |w| ==>
      Mults(counts, ideal)[b] <= w[b] && counts[b] <= Cap(Mults(counts, ideal)[b], w[b])
  {
    hide Quotient, MultOf, Cap, Sum;
    w := seq(|counts|, b requires 0 <= b < |counts| => Quotient(counts[b], ideal));
    SumOfQuotients(counts, ideal, w);
    DivideBound(Sum(w), |w|, ideal);
    forall b | 0 <= b < |w|
      ensures Mults(counts, ideal)[b] <= w[b] && counts[b] <= Cap(Mults(counts, ideal)[b], w[b])
    {
      QuotientFits(counts[b], ideal);
    }
  }

  lemma DivideBound(x: nat, y: nat, d: nat)
    requires d > 0 && x * d <= d * y
    ensures x <= y
  {
    if x >= y + 1 { MulMono(y + 1, x, d); }
  }

  lemma ExpandKeeps(l: Load, counts: seq<nat>)
    requires l.items > 0 && |counts| == Pow2(l.log2 + 1) && Sum(counts) == l.items
    requires 0 < IdealChain(l.items, l.log2 + 1) <= 10
    requires !l.noexpand && l.ineff <= 1
    ensures Inv(Expand(l, counts))
  {
    var m := Expand(l, counts);
    IdealChainIsCeil(l.items, l.log2 + 1);
    var w := QuotientShares(counts, m.ideal);
    assert Shares(m, w);
    SumMono(m.mults, w);
  }

  lemma GrowKeeps(l: Load, b: nat)
    requires Inv(l) && b < |l.counts| && !Triggers(l, b)
    ensures Inv(Grow(l, b))
  {
    var m := Grow(l, b);
    SumUpdate(l.counts, b, l.counts[b] + 1);
    if !l.noexpand {
      var w :| Shares(l, w);
      assert Shares(m, w);
    }
  }

  lemma ShrinkKeeps(l: Load, b: nat)
    requires Inv(l) && b < |l.counts| && l.counts[b] > 0 && l.items > 0
    ensures Inv(Shrink(l, b))
  {
    if l.items == 1 {
      FreshInv();
    } else {
      var m := Shrink(l, b);
      SumUpdate(l.counts, b, l.counts[b] - 1);
      if !l.noexpand {
        var w :| Shares(l, w);
        assert Shares(m, w);
      }
    }
  }

  lemma StepKeepsInv(l: Load, s: Step)
    requires Inv(l) && Enabled(l, s)
    ensures Inv(Apply(l, s))
  {
    match s
    case Add(b) => GrowKeeps(l, b);
    case AddExpand(b, counts) =>
      TriggerIdeal(l, b);
      SumUpdate(l.counts, b, l.counts[b] + 1);
      SplitsSum(Grow(l, b).counts, counts);
      ExpandKeeps(Grow(l, b), counts);
    case Delete(b) => ShrinkKeeps(l, b);
  }

  // The states a fresh table can reach.
  ghost predicate IsRun(run: seq<Load>, steps: seq<Step>) {
    && |run| == |steps| + 1
    && run[0] == Fresh()
    && forall i :: 0 <= i < |steps| ==> Enabled(run[i], steps[i]) && run[i + 1] == Apply(run[i], steps[i])
  }

  lemma {:induction false} RunKeepsInv(run: seq<Load>, steps: seq<Step>, i: nat)
    requires IsRun(run, steps) && i < |run|
    ensures Inv(run[i])
  {
    if i == 0 {
      FreshInv();
    } else {
      RunKeepsInv(run, steps, i - 1);
      StepKeepsInv(run[i - 1], steps[i - 1]);
    }
  }

  // Over every run of adds and deletes: while noexpand is 0 every chain is at
  // most 10 * (expand_mult + 1) long; the expand_mults never sum to more than
  // the number of buckets, and the ideal chain length never exceeds 10.
  lemma ChainsStayBounded(run: seq<Load>, steps: seq<Step>)
    requires IsRun(run, steps)
    ensures forall i :: 0 <= i < |run| ==> Bounded(run[i])
  {
    forall i | 0 <= i < |run| ensures Bounded(run[i]) {
      RunKeepsInv(run, steps, i);
      InvBounds(run[i]);
    }
  }

  // Step j is an expansion that left more than half the items past the ideal
  // chain length.
  ghost predicate Ineffective(run: seq<Load>, steps: seq<Step>, j: int)
    requires IsRun(run, steps)
  {
    0 <= j < |steps| && steps[j].AddExpand? && run[j + 1].nonideal > ShiftRight(run[j + 1].items, 1)
  }

  // No expansion and no emptying of the table from step a up to step b.
  ghost predicate Calm(run: seq<Load>, steps: seq<Step>, a: int, b: int)
    requires IsRun(run, steps)
  {
    forall m :: a <= m < b && 0 <= m < |steps| ==>
      !steps[m].AddExpand? && !(steps[m].Delete? && run[m].items == 1)
  }

  // The last expansion was ineffective.
  lemma {:induction false} LastIneffective(run: seq<Load>, steps: seq<Step>, i: nat) returns (k: nat)
    requires IsRun(run, steps) && i < |run| && run[i].ineff >= 1
    ensures k < i && Ineffective(run, steps, k) && Calm(run, steps, k + 1, i) && run[k + 1].ineff == run[i].ineff
  {
    hide Inv, Mults, SumExcess, IdealChain;
    if i == 0 {
      assert false;
    }
    var s := steps[i - 1];
    assert run[i] == Apply(run[i - 1], s);
    if s.AddExpand? {
      k := i - 1;
    } else {
      k := LastIneffective(run, steps, i - 1);
    }
  }

  // noexpand is set only after two consecutive ineffective expansions, with no
  // other expansion and no emptying of the table between them or since.
  lemma NoexpandAfterTwo(run: seq<Load>, steps: seq<Step>, i: nat) returns (j: nat, k: nat)
    requires IsRun(run, steps) && i < |run| && run[i].noexpand
    ensures j < k < i && Ineffective(run, steps, j) && Ineffective(run, steps, k)
    ensures Calm(run, steps, j + 1, k) && Calm(run, steps, k + 1, i)
  {
    hide Calm, SumExcess, IdealChain, Shares;
    RunKeepsInv(run, steps, i);
    k := LastIneffective(run, steps, i);
    assert run[k + 1] == Apply(run[k], steps[k]);
    j := LastIneffective(run, steps, k);
  }
}
