// The bound on chain lengths with < for <=: exactly when it holds, and a table
// for which it does not.
module StrictBound {
  import opened Bits
  import opened LoadBound
  import opened Buckets
  import opened UtHash
  import opened HashLoads

  ghost predicate Strict(l: Load, b: nat)
    requires b < |l.counts| == |l.mults|
  {
    l.counts[b] < 10 * (l.mults[b] + 1)
  }

  // The corner: ten items in a bucket that an expansion with ideal chain length
  // ten left without a multiple.
  ghost predicate FullAtTen(l: Load, b: nat)
    requires b < |l.counts| == |l.mults|
  {
    l.ideal == 10 && l.mults[b] == 0 && l.counts[b] == 10
  }

  ghost predicate StrictButTen(l: Load) {
    && |l.counts| == |l.mults|
    && (!l.noexpand ==> forall b :: 0 <= b < |l.counts| ==> Strict(l, b) || FullAtTen(l, b))
  }

  lemma MultFits(c: nat, ideal: nat)
    requires 0 < ideal <= 10
    ensures c < 10 * (MultOf(c, ideal) + 1) <==> !(ideal == 10 && c == 10)
    ensures ideal == 10 && c == 10 ==> MultOf(c, ideal) == 0
  {
    QuotientIsDivision(c, ideal);
    if c > ideal {
      MulMono(ideal, 10, Quotient(c, ideal) + 1);
    }
  }

  // What an expansion leaves meets the strict form unless the ideal chain length
  // is ten and a bucket gets ten items.
  lemma ExpansionIsStrict(counts: seq<nat>, ideal: nat)
    requires 0 < ideal <= 10
    ensures (forall b :: 0 <= b < |counts| ==> counts[b] < 10 * (Mults(counts, ideal)[b] + 1))
            <==> !(ideal == 10 && 10 in counts)
  {
    hide MultOf;
    forall b | 0 <= b < |counts|
      ensures counts[b] < 10 * (Mults(counts, ideal)[b] + 1) <==> !(ideal == 10 && counts[b] == 10)
    {
      MultFits(counts[b], ideal);
    }
  }

  lemma ExpandStrictButTen(l: Load, counts: seq<nat>)
    requires l.items > 0 && 0 < IdealChain(l.items, l.log2 + 1) <= 10
    ensures StrictButTen(Expand(l, counts))
  {
    hide MultOf, IdealChain, SumExcess;
    var m := Expand(l, counts);
    forall b | 0 <= b < |counts| ensures Strict(m, b) || FullAtTen(m, b) {
      MultFits(counts[b], m.ideal);
    }
  }

  lemma StepKeepsStrict(l: Load, s: Step)
    requires Inv(l) && StrictButTen(l) && Enabled(l, s)
    ensures StrictButTen(Apply(l, s))
  {
    hide Inv, IdealChain, Splits, SumExcess, MultOf;
    match s
    case Add(b) => AddStrict(l, b);
    case AddExpand(b, counts) =>
      InvIsTable(l);
      TriggerIdeal(l, b);
      ExpandStrictButTen(Grow(l, b), counts);
    case Delete(b) => ShrinkStrict(l, b);
  }

  lemma AddStrict(l: Load, b: nat)
    requires StrictButTen(l) && b < |l.counts| == |l.mults| && !Triggers(l, b)
    ensures StrictButTen(Grow(l, b))
  {
    var m := Grow(l, b);
    if !l.noexpand {
      forall c | 0 <= c < |m.counts| ensures Strict(m, c) || FullAtTen(m, c) {
        assert Strict(l, c) || FullAtTen(l, c);
      }
    }
  }

  lemma ShrinkStrict(l: Load, b: nat)
    requires StrictButTen(l) && b < |l.counts| == |l.mults| && l.counts[b] > 0 && l.items > 0
    ensures StrictButTen(Shrink(l, b))
  {
    if l.items == 1 {
      FreshStrict();
    } else if !l.noexpand {
      var m := Shrink(l, b);
      forall c | 0 <= c < |m.counts| ensures Strict(m, c) || FullAtTen(m, c) {
        assert Strict(l, c) || FullAtTen(l, c);
      }
    }
  }

  lemma InvIsTable(l: Load)
    requires Inv(l)
    ensures |l.counts| == |l.mults| == Pow2(l.log2)
  {}

  lemma {:induction false} RunKeepsStrict(run: seq<Load>, steps: seq<Step>, i: nat)
    requires IsRun(run, steps) && i < |run|
    ensures StrictButTen(run[i])
  {
    hide Inv, StrictButTen, Enabled, Apply;
    if i == 0 {
      FreshStrict();
    } else {
      RunKeepsStrict(run, steps, i - 1);
      RunKeepsInv(run, steps, i - 1);
      StepKeepsStrict(run[i - 1], steps[i - 1]);
    }
  }

  lemma FreshStrict()
    ensures StrictButTen(Fresh())
  {}

  // In every run, while noexpand is 0, the strict form fails at a bucket exactly
  // when the ideal chain length is ten, the bucket's expand_mult is 0 and it
  // holds ten items.
  lemma StrictExactly(run: seq<Load>, steps: seq<Step>, i: nat, b: nat)
    requires IsRun(run, steps) && i < |run| && !run[i].noexpand && b < |run[i].counts|
    ensures |run[i].counts| == |run[i].mults|
    ensures Strict(run[i], b) <==> !FullAtTen(run[i], b)
  {
    RunKeepsStrict(run, steps, i);
  }

  // ----- a table in the corner -----

  ghost predicate BelowTriggers(counts: seq<nat>, mults: seq<nat>) {
    |counts| == |mults| && forall b :: 0 <= b < |counts| ==> counts[b] <= 10 * mults[b] + 9
  }

  lemma QuietStep(l: Load, hs: seq<nat>, h: nat)
    requires |l.counts| == |l.mults| == Pow2(l.log2) && l.counts == Occupancy(hs, |l.counts|)
    requires BelowTriggers(Occupancy(hs + [h], |l.counts|), l.mults)
    ensures AddHash(l, hs + [h]) == l.(items := l.items + 1, counts := Occupancy(hs + [h], |l.counts|))
  {
    OccupancySnoc(hs, h, |l.counts|);
    hide Occupancy, ToBkt;
  }

  lemma BelowBefore(hs: seq<nat>, h: nat, mults: seq<nat>)
    requires mults != [] && BelowTriggers(Occupancy(hs + [h], |mults|), mults)
    ensures BelowTriggers(Occupancy(hs, |mults|), mults)
  {
    OccupancySnoc(hs, h, |mults|);
    hide Occupied, ToBkt;
    forall b | 0 <= b < |mults| ensures Occupancy(hs, |mults|)[b] <= Occupancy(hs + [h], |mults|)[b] {}
  }

  // As long as no bucket is filled beyond one short of its trigger, adding only
  // counts.
  lemma {:induction false} AddsQuiet(hs: seq<nat>, more: seq<nat>)
    requires var l := Adds(hs); BelowTriggers(Occupancy(hs + more, |l.counts|), l.mults)
    ensures var l := Adds(hs);
            Adds(hs + more) == l.(items := |hs + more|, counts := Occupancy(hs + more, |l.counts|))
  {
    var l := Adds(hs);
    if more == [] {
      AddsCount(hs);
      assert hs + more == hs;
    } else {
      hide *;
      var m := |more| - 1;
      var most := hs + more[..m];
      assert hs + more == most + [more[m]];
      BelowBefore(most, more[m], l.mults);
      AddsQuiet(hs, more[..m]);
      AddsSnoc(most, more[m]);
      QuietStep(Adds(most), most, more[m]);
    }
  }

  lemma {:induction false} OccupiedConcat(hs: seq<nat>, more: seq<nat>, n: nat, b: nat)
    requires n > 0
    ensures Occupied(hs + more, n, b) == Occupied(hs, n, b) + Occupied(more, n, b)
  {
    hide ToBkt;
    if more == [] {
      assert hs + more == hs;
    } else {
      assert (hs + more)[..|hs + more| - 1] == hs + more[..|more| - 1];
      OccupiedConcat(hs, more[..|more| - 1], n, b);
    }
  }

  // The numbers from low to high, low included, in the class of s modulo 128.
  function Block(s: nat, low: nat, high: nat): seq<nat> {
    if low >= high then [] else Block(s, low, high - 1) + [s + 128 * (high - 1)]
  }

  // ... in every class, from low[s] to high[s].
  function Blocks(low: seq<nat>, high: seq<nat>): seq<nat>
    requires |low| == |high|
  {
    if low == [] then []
    else var m := |low| - 1; Blocks(low[..m], high[..m]) + Block(m, low[m], high[m])
  }

  lemma SlotOf128(s: nat, j: nat)
    requires s < 128
    ensures ToBkt(s + 128 * j, 128) == s && (s + 128 * j) % 128 == s && (s + 128 * j) / 128 == j
  {
    assert Pow2(7) == 128;
    MaskIsRemainder(s + 128 * j, 7);
    RemainderIs(s + 128 * j, 128, j, s);
  }

  lemma {:induction false} BlockOccupied(s: nat, low: nat, high: nat, b: nat)
    requires s < 128 && low <= high
    ensures Occupied(Block(s, low, high), 128, b) == if s == b then high - low else 0
  {
    hide ToBkt;
    if low < high {
      BlockOccupied(s, low, high - 1, b);
      SlotOf128(s, high - 1);
      assert Block(s, low, high)[..|Block(s, low, high)| - 1] == Block(s, low, high - 1);
    }
  }

  lemma {:induction false} BlocksOccupied(low: seq<nat>, high: seq<nat>, b: nat)
    requires |low| == |high| <= 128 && forall s :: 0 <= s < |low| ==> low[s] <= high[s]
    ensures Occupied(Blocks(low, high), 128, b) == if b < |low| then high[b] - low[b] else 0
  {
    if low != [] {
      var m := |low| - 1;
      BlocksOccupied(low[..m], high[..m], b);
      BlockOccupied(m, low[m], high[m], b);
      OccupiedConcat(Blocks(low[..m], high[..m]), Block(m, low[m], high[m]), 128, b);
    }
  }

  // How the first 63 keys fall into 128 buckets: in 32, bucket 0 is one short of
  // its trigger and 27 buckets have two items.
  const NONE: seq<nat> := seq(128, (i: int) => 0)
  const FIRST: seq<nat> := seq(128, (i: int) => if i == 0 then 4 else if i == 32 then 5
                                               else if 0 < i < 28 then 2 else 0)
  const HALF: seq<nat> := seq(32, (i: int) => if i == 0 then 9 else if 0 < i < 28 then 2 else 0)
  // Once bucket 0's ten items are divided equally, the pairs kept together.
  const PAIRS: seq<nat> := seq(64, (i: int) => if i == 0 || i == 32 then 5 else if 0 < i < 28 then 2 else 0)
  const CAPS: seq<nat> := seq(64, (i: int) requires 0 <= i < 64 => 10 * PAIRS[i] + 9)
  const TENS: seq<nat> := seq(128, (i: int) => if i == 0 || i == 64 || i == 32 then 30 else if i == 96 then 29
                                              else if 0 < i < 28 then 10 else if 64 < i < 92 then 19
                                              else if i < 64 then 9 else 0)

  lemma {:induction false} SumFrom(s: seq<nat>, v: nat)
    requires forall i :: 0 <= i < |s| ==> s[i] == v
    ensures Sum(s) == v * |s|
  {
    if s != [] { SumFrom(s[1..], v); }
  }

  lemma HalfSum()
    ensures Sum(HALF) == 63
  {
    assert HALF == [9] + (HALF[1..28] + HALF[28..]);
    SumConcat([9], HALF[1..28] + HALF[28..]);
    SumConcat(HALF[1..28], HALF[28..]);
    SumFrom(HALF[1..28], 2);
    SumFrom(HALF[28..], 0);
    assert [9][1..] == [];
  }

  lemma {:induction false} SumLinear(s: seq<nat>, t: seq<nat>)
    requires |t| == |s| && forall i :: 0 <= i < |s| ==> t[i] == 10 * s[i] + 9
    ensures Sum(t) == 10 * Sum(s) + 9 * |s|
  {
    if s != [] { SumLinear(s[1..], t[1..]); }
  }

  lemma {:induction false} ExcessConcat(s: seq<nat>, t: seq<nat>, ideal: nat)
    ensures SumExcess(s + t, ideal) == SumExcess(s, ideal) + SumExcess(t, ideal)
  {
    if s == [] {
      assert s + t == t;
    } else {
      assert (s + t)[1..] == s[1..] + t;
      ExcessConcat(s[1..], t, ideal);
    }
  }

  lemma {:induction false} ExcessOfPairs(s: seq<nat>, t: seq<nat>, w: seq<nat>)
    requires |s| == |t| == |w| && forall i :: 0 <= i < |w| ==> Excess(s[i], 10) + Excess(t[i], 10) <= 8 * w[i]
    ensures SumExcess(s, 10) + SumExcess(t, 10) <= 8 * Sum(w)
  {
    if w != [] { ExcessOfPairs(s[1..], t[1..], w[1..]); }
  }

  lemma IdealIs(n: nat, lb: nat, c: nat)
    requires IsCeil(c, n, Pow2(lb))
    ensures IdealChain(n, lb) == c
  {
    IdealChainIsCeil(n, lb);
    var d, p := IdealChain(n, lb), Pow2(lb);
    if d > c {
      MulMono(c, d - 1, p);
    } else if d < c {
      MulMono(d, c - 1, p);
    }
  }

  lemma PairMults()
    ensures Mults(PAIRS, 1) == PAIRS
  {
    QuotientIsDivision(2, 1);
    QuotientIsDivision(5, 1);
  }

  lemma InvAdds(hs: seq<nat>)
    ensures Inv(Adds(hs)) && Sum(Adds(hs).counts) == |hs|
  {
    hide IsRun, Adds;
    var run, steps := AddsRun(hs);
    RunKeepsInv(run, steps, |run| - 1);
    AddsCount(hs);
  }

  lemma BucketZero(j: nat)
    ensures ToBkt(128 * j, 32) == ToBkt(128 * j, 64) == ToBkt(128 * j, 128) == 0
  {
    ZeroAt(4 * j, 5, 32);
    ZeroAt(2 * j, 6, 64);
    ZeroAt(j, 7, 128);
  }

  lemma ZeroAt(q: nat, k: nat, n: nat)
    requires Pow2(k) == n
    ensures ToBkt(n * q, n) == 0
  {
    hide Pow2, And;
    MaskIsRemainder(n * q, k);
    RemainderIs(n * q, n, q, 0);
  }

  // Halving the number of buckets.
  function Fold(counts: seq<nat>): seq<nat>
    requires |counts| % 2 == 0
  {
    var n := |counts| / 2;
    seq(n, b requires 0 <= b < n => counts[b] + counts[b + n])
  }

  lemma Folds(hs: seq<nat>)
    ensures Occupancy(hs, 64) == Fold(Occupancy(hs, 128))
    ensures Occupancy(hs, 32) == Fold(Occupancy(hs, 64))
  {
    assert Pow2(5) == 32 && Pow2(6) == 64;
    hide Occupied;
    OccupancySplits(hs, 6);
    OccupancySplits(hs, 5);
  }

  lemma FoldConstants()
    ensures Fold(FIRST[0 := 5]) == PAIRS && Fold(TENS[0 := 29]) == CAPS
    ensures Fold(FIRST) == PAIRS[0 := 4] && Fold(Fold(FIRST)) == HALF
  {}

  const FIRST_KEYS: seq<nat> := Blocks(NONE, FIRST) + [512]

  lemma FirstFill()
    ensures var hs := Blocks(NONE, FIRST);
            Occupancy(hs, 128) == FIRST && Adds(hs) == Fresh().(items := 63, counts := HALF)
  {
    hide Occupied, Adds;
    var hs := Blocks(NONE, FIRST);
    forall b | 0 <= b < 128 ensures Occupied(hs, 128, b) == FIRST[b] {
      BlocksOccupied(NONE, FIRST, b);
    }
    assert Occupancy(hs, 128) == FIRST;
    Folds(hs);
    FoldConstants();
    AddsNone();
    assert Pow2(5) == 32;
    assert [] + hs == hs;
    AddsQuiet([], hs);
    InvAdds(hs);
    HalfSum();
  }

  lemma AddsNone()
    ensures Adds([]) == Fresh()
  {}

  // Ideal chain length one: every pair gives its bucket a multiple of two.
  lemma FirstExpansion()
    ensures var l := Adds(FIRST_KEYS);
            l.items == 64 == Sum(PAIRS) && l.log2 == 6 && l.counts == PAIRS && l.mults == PAIRS && !l.noexpand
    ensures Occupancy(FIRST_KEYS, 128) == FIRST[0 := 5]
  {
    hide Occupancy, Adds, ToBkt, Sum, SumExcess, IdealChain, MultOf;
    var hs, l := Blocks(NONE, FIRST), Fresh().(items := 63, counts := HALF);
    FirstFill();
    BucketZero(4);
    AddsSnoc(hs, 512);
    OccupancySnoc(hs, 512, 128);
    Folds(FIRST_KEYS);
    FoldConstants();
    InvAdds(FIRST_KEYS);
    IdealIs(64, 6, 1);
    PairMults();
    assert Pow2(5) == 32;
    assert Triggers(l, 0);
  }

  const MORE_KEYS: seq<nat> := Blocks(FIRST[0 := 5], TENS[0 := 29])
  const KEYS: seq<nat> := FIRST_KEYS + MORE_KEYS + [3712]

  lemma SecondFill()
    ensures var l := Adds(FIRST_KEYS + MORE_KEYS);
            && l.items == 1216 && l.log2 == 6 && l.counts == CAPS && l.mults == PAIRS && !l.noexpand
            && Sum(PAIRS) == 64
    ensures Occupancy(FIRST_KEYS + MORE_KEYS, 128) == TENS[0 := 29]
  {
    hide Occupied, Adds, Sum;
    var hs := FIRST_KEYS + MORE_KEYS;
    FirstExpansion();
    forall b | 0 <= b < 128 ensures Occupied(hs, 128, b) == TENS[0 := 29][b] {
      BlocksOccupied(FIRST[0 := 5], TENS[0 := 29], b);
      OccupiedConcat(FIRST_KEYS, MORE_KEYS, 128, b);
      assert Occupied(FIRST_KEYS, 128, b) == Occupancy(FIRST_KEYS, 128)[b];
    }
    assert Occupancy(hs, 128) == TENS[0 := 29];
    Folds(hs);
    FoldConstants();
    AddsQuiet(FIRST_KEYS, MORE_KEYS);
    InvAdds(hs);
    SumLinear(PAIRS, CAPS);
  }

  lemma TensFew()
    ensures SumExcess(TENS, 10) <= 8 * Sum(PAIRS)
  {
    ExcessOfPairs(TENS[..64], TENS[64..], PAIRS);
    ExcessConcat(TENS[..64], TENS[64..], 10);
    assert TENS == TENS[..64] + TENS[64..];
  }

  ghost predicate Cornered(l: Load) {
    && 1 < |l.counts| == |l.mults| && !l.noexpand && l.counts[1] == 10 && l.mults[1] == 0
    && !Strict(l, 1)
  }

  // After two expansions, with 64 adds and then 1153, bucket 1 holds ten items
  // with expand_mult 0 while expansion is still allowed.
  lemma StrictFailsAt()
    ensures Cornered(Adds(KEYS))
  {
    hide Occupancy, Adds, ToBkt, Sum, SumExcess, IdealChain;
    var hs := FIRST_KEYS + MORE_KEYS;
    SecondFill();
    TensFew();
    BucketZero(29);
    AddsSnoc(hs, 3712);
    OccupancySnoc(hs, 3712, 128);
    assert Occupancy(KEYS, 128) == TENS;
    IdealIs(1217, 7, 10);
  }

  // ... which is the end of a run.
  lemma StrictFails() returns (run: seq<Load>, steps: seq<Step>)
    ensures run != [] && IsRun(run, steps) && Last(run) == Adds(KEYS)
    ensures Cornered(Last(run))
  {
    hide Cornered, Adds, IsRun;
    StrictFailsAt();
    run, steps := AddsRun(KEYS);
  }

  // The keys are below, or not below, how far the block of their class reaches.
  ghost predicate Under(keys: seq<nat>, reach: seq<nat>) {
    |reach| == 128 && forall i :: 0 <= i < |keys| ==> keys[i] / 128 < reach[keys[i] % 128]
  }

  ghost predicate Over(keys: seq<nat>, reach: seq<nat>) {
    |reach| == 128 && forall i :: 0 <= i < |keys| ==> keys[i] / 128 >= reach[keys[i] % 128]
  }

  lemma DistinctConcat(keys: seq<nat>, more: seq<nat>, reach: seq<nat>)
    requires Distinct(keys) && Distinct(more) && Under(keys, reach) && Over(more, reach)
    ensures Distinct(keys + more)
  {}

  lemma {:induction false} BlockDistinct(s: nat, low: nat, high: nat)
    requires s < 128 && low <= high
    ensures var keys := Block(s, low, high);
            Distinct(keys) && forall i :: 0 <= i < |keys| ==> keys[i] % 128 == s && low <= keys[i] / 128 < high
  {
    if low < high {
      BlockDistinct(s, low, high - 1);
      SlotOf128(s, high - 1);
    }
  }

  lemma {:induction false} BlocksDistinct(low: seq<nat>, high: seq<nat>)
    requires |low| == |high| <= 128 && forall s :: 0 <= s < |low| ==> low[s] <= high[s]
    ensures var keys := Blocks(low, high);
            Distinct(keys) && forall i :: 0 <= i < |keys| ==>
              var s := keys[i] % 128; s < |low| && low[s] <= keys[i] / 128 < high[s]
  {
    if low != [] {
      var m := |low| - 1;
      BlocksDistinct(low[..m], high[..m]);
      BlockDistinct(m, low[m], high[m]);
    }
  }

  lemma KeysDistinct()
    ensures Distinct(KEYS) && KEYS != []
  {
    BlocksDistinct(NONE, FIRST);
    BlocksDistinct(FIRST[0 := 5], TENS[0 := 29]);
    DistinctConcat(Blocks(NONE, FIRST), [512], FIRST);
    DistinctConcat(FIRST_KEYS, MORE_KEYS, FIRST[0 := 5]);
    DistinctConcat(FIRST_KEYS + MORE_KEYS, [3712], TENS[0 := 29]);
  }

  lemma IdentityHashes(hash: nat -> nat, s: seq<Element<nat, bool>>, keys: seq<nat>)
    requires |s| == |keys| && forall i :: 0 <= i < |keys| ==> s[i].key == keys[i]
    requires forall k :: hash(k) == k
    ensures Hashes(hash, s) == keys
  {}

  lemma TableShows<K, V>(t: Table<K, V>)
    requires t.Valid() && t.order != []
    ensures t.head != null && |t.buckets| == |t.load.counts| == |t.load.mults| && t.noexpand == t.load.noexpand
    ensures forall b :: 0 <= b < |t.buckets| ==>
      && t.buckets[b].count == t.load.counts[b] == |t.buckets[b].chain|
      && t.buckets[b].expandMult == t.load.mults[b]
  {
    hide Inv, Placed;
  }

  ghost predicate InTheCorner<K, V>(t: Table<K, V>)
    reads t, t.buckets
  {
    && t.head != null && !t.noexpand && 1 < |t.buckets|
    && t.buckets[1].expandMult == 0 && t.buckets[1].count == |t.buckets[1].chain| == 10
  }

  lemma KeysReachCorner<K, V>(t: Table<K, V>)
    requires t.Valid() && t.order != [] && t.load == Adds(KEYS)
    ensures InTheCorner(t)
  {
    hide Table.Valid, Adds;
    StrictFailsAt();
    TableShows(t);
  }

  // The table whose hash is the identity and to which these keys are added, all
  // different.
  method StrictFailsInTable() returns (t: Table<nat, bool>)
    ensures t.Valid() && fresh(t) && InTheCorner(t)
    ensures |t.order| == |KEYS| && forall i :: 0 <= i < |KEYS| ==> t.order[i].key == KEYS[i]
    ensures Distinct(KEYS)
  {
    hide *;
    var hash := (k: nat) => k;
    t := AddKeys(hash, KEYS, false);
    KeysDistinct();
    IdentityHashes(hash, t.order, KEYS);
    KeysReachCorner(t);
  }
}
