// The counters of a table to which items are only added: a function of their
// hash values, in the order of adding.
module HashLoads {
  import opened Bits
  import opened LoadBound
  import opened Buckets
  import opened UtHash

  // How many of the hash values hs fall into bucket b of n.
  function Occupied(hs: seq<nat>, n: nat, b: nat): nat
    requires n > 0
  {
    if hs == [] then 0
    else Occupied(hs[..|hs| - 1], n, b) + if ToBkt(hs[|hs| - 1], n) == b then 1 else 0
  }

  function Occupancy(hs: seq<nat>, n: nat): seq<nat>
    requires n > 0
  {
    seq(n, b requires 0 <= b < n => Occupied(hs, n, b))
  }

  // An add that makes the hash values hs.
  function AddHash(l: Load, hs: seq<nat>): (l': Load)
    requires hs != [] && |l.counts| == |l.mults| == Pow2(l.log2)
    ensures |l'.counts| == |l'.mults| == Pow2(l'.log2)
  {
    var n := |l.counts|;
    var b := ToBkt(hs[|hs| - 1], n);
    if Triggers(l, b) then Expand(Grow(l, b), Occupancy(hs, 2 * n)) else Grow(l, b)
  }

  function Adds(hs: seq<nat>): (l: Load)
    ensures |l.counts| == |l.mults| == Pow2(l.log2)
  {
    if hs == [] then Fresh() else AddHash(Adds(hs[..|hs| - 1]), hs)
  }

  lemma {:induction false} NoneOccupied(n: nat)
    requires n > 0
    ensures forall b :: 0 <= b < n ==> Occupancy([], n)[b] == 0
  {}

  lemma OccupancySnoc(hs: seq<nat>, h: nat, n: nat)
    requires n > 0
    ensures var b := ToBkt(h, n);
            Occupancy(hs + [h], n) == Occupancy(hs, n)[b := Occupancy(hs, n)[b] + 1]
  {
    hide ToBkt;
    assert (hs + [h])[..|hs|] == hs;
  }

  lemma {:induction false} OccupancySplits(hs: seq<nat>, k: nat)
    ensures Splits(Occupancy(hs, Pow2(k)), Occupancy(hs, 2 * Pow2(k)))
  {
    if hs != [] {
      var m, n := |hs| - 1, Pow2(k);
      OccupancySplits(hs[..m], k);
      hide ToBkt;
      forall b | 0 <= b < n
        ensures Occupied(hs, 2 * n, b) + Occupied(hs, 2 * n, b + n) == Occupied(hs, n, b)
      {
        var s, t := Occupancy(hs[..m], n), Occupancy(hs[..m], 2 * n);
        assert t[b] + t[b + n] == s[b];
        SlotSplits(hs[m], k, b);
      }
    }
  }

  lemma {:induction false} AddsCount(hs: seq<nat>)
    ensures var l := Adds(hs); l.counts == Occupancy(hs, |l.counts|) && l.items == |hs|
  {
    if hs == [] {
      NoneOccupied(32);
      assert Pow2(5) == 32;
    } else {
      hide *;
      var m := |hs| - 1;
      AddsCount(hs[..m]);
      assert hs == hs[..m] + [hs[m]];
      AddsSnoc(hs[..m], hs[m]);
      AddHashCounts(Adds(hs[..m]), hs[..m], hs[m]);
    }
  }

  lemma AddsSnoc(hs: seq<nat>, h: nat)
    ensures Adds(hs + [h]) == AddHash(Adds(hs), hs + [h])
  {
    hide AddHash;
    assert (hs + [h])[..|hs|] == hs;
  }

  lemma AddHashCounts(l: Load, hs: seq<nat>, h: nat)
    requires |l.counts| == |l.mults| == Pow2(l.log2) && l.counts == Occupancy(hs, |l.counts|) && l.items == |hs|
    ensures var l' := AddHash(l, hs + [h]); l'.counts == Occupancy(hs + [h], |l'.counts|) && l'.items == |hs| + 1
  {
    OccupancySnoc(hs, h, |l.counts|);
    assert |Occupancy(hs + [h], 2 * |l.counts|)| == 2 * |l.counts|;
    hide Occupancy, Mults, SumExcess, IdealChain, ToBkt;
  }

  // ----- such counters are a run's, and a table's -----

  function Last(run: seq<Load>): Load
    requires run != []
  {
    run[|run| - 1]
  }

  lemma Go(run: seq<Load>, steps: seq<Step>, s: Step) returns (run': seq<Load>, steps': seq<Step>)
    requires run != [] && IsRun(run, steps) && Enabled(Last(run), s)
    ensures run' != [] && IsRun(run', steps') && Last(run') == Apply(Last(run), s)
  {
    run', steps' := run + [Apply(Last(run), s)], steps + [s];
    hide Enabled, Apply;
    forall i | 0 <= i < |steps'| ensures Enabled(run'[i], steps'[i]) && run'[i + 1] == Apply(run'[i], steps'[i]) {
      if i < |steps| {
        assert run'[i] == run[i] && run'[i + 1] == run[i + 1];
      }
    }
  }

  lemma {:induction false} AddsRun(hs: seq<nat>) returns (run: seq<Load>, steps: seq<Step>)
    ensures run != [] && IsRun(run, steps) && Last(run) == Adds(hs)
  {
    if hs == [] {
      run, steps := [Fresh()], [];
    } else {
      hide IsRun, Occupancy, Mults, SumExcess, IdealChain, ToBkt;
      var m := |hs| - 1;
      run, steps := AddsRun(hs[..m]);
      var l := Last(run);
      var b := ToBkt(hs[m], |l.counts|);
      AddsCount(hs[..m]);
      assert hs == hs[..m] + [hs[m]];
      OccupancySnoc(hs[..m], hs[m], |l.counts|);
      OccupancySplits(hs, l.log2);
      run, steps := Go(run, steps, if Triggers(l, b) then AddExpand(b, Occupancy(hs, 2 * |l.counts|)) else Step.Add(b));
    }
  }

  ghost function Hashes<K, V>(hash: K -> nat, s: seq<Element<K, V>>): seq<nat> {
    seq(|s|, i requires 0 <= i < |s| => hash(s[i].key))
  }

  lemma {:induction false} SlotOccupied<K, V>(hash: K -> nat, s: seq<Element<K, V>>, n: nat, b: nat)
    requires n > 0 && Distinct(s) && forall e :: e in s ==> e.hashv == hash(e.key)
    ensures |InSlot(SlotOf(n), SetOf(s), b)| == Occupied(Hashes(hash, s), n, b)
  {
    hide ToBkt, InSlot, SlotOf;
    if s == [] {
      NoneInSlot<K, V>(SlotOf(n), b);
      assert SetOf(s) == {};
    } else {
      var m := |s| - 1;
      SlotOccupied(hash, s[..m], n, b);
      assert Hashes(hash, s)[..m] == Hashes(hash, s[..m]);
      assert s == s[..m] + [s[m]] && SetOf(s) == SetOf(s[..m]) + {s[m]};
      InSlotSnoc(SlotOf(n), SetOf(s[..m]), s[m], b);
      SlotAt(n, s[m].hashv);
    }
  }

  lemma NoneInSlot<K, V>(slot: nat -> nat, b: nat)
    ensures InSlot<K, V>(slot, {}, b) == {}
  {}

  lemma InSlotSnoc<K, V>(slot: nat -> nat, els: set<Element<K, V>>, e: Element<K, V>, b: nat)
    requires e !in els
    ensures |InSlot(slot, els + {e}, b)| == |InSlot(slot, els, b)| + if slot(e.hashv) == b then 1 else 0
  {
    assert InSlot(slot, els + {e}, b) == InSlot(slot, els, b) + if slot(e.hashv) == b then {e} else {};
  }

  // The buckets' counts are how the keys' hash values fall.
  lemma TableOccupancy<K, V>(t: Table<K, V>)
    requires t.Valid() && |t.load.counts| > 0
    ensures t.load.counts == Occupancy(Hashes(t.hash, t.order), |t.load.counts|)
  {
    hide Inv, ToBkt, Holds;
    var n, hs := |t.load.counts|, Hashes(t.hash, t.order);
    if t.head == null {
      NoneOccupied(n);
    } else {
      HoldsFiled(SlotOf(n), t.buckets, SetOf(t.order));
      forall b | 0 <= b < n ensures t.load.counts[b] == Occupied(hs, n, b) {
        FiledIn(SlotOf(n), t.buckets, SetOf(t.order), b);
        SlotOccupied(t.hash, t.order, n, b);
      }
    }
  }

  lemma StepIsAddHash(l: Load, step: Step, hs: seq<nat>, l': Load)
    requires |l.counts| == |l.mults| == Pow2(l.log2) && hs != [] && !step.Delete?
    requires Enabled(l, step) && l' == Apply(l, step) && step.b == ToBkt(hs[|hs| - 1], |l.counts|)
    requires l'.counts == Occupancy(hs, |l'.counts|)
    ensures l' == AddHash(l, hs)
  {
    hide Occupancy, Mults, SumExcess, IdealChain, ToBkt;
  }

  lemma NoKeys<K, V>(t: Table<K, V>)
    requires t.Valid() && t.order == []
    ensures t.load == Adds(Hashes(t.hash, t.order))
  {
    hide Inv, Holds, Shows, Fresh;
  }

  lemma AddedKey<K, V>(t: Table<K, V>, l: Load, s: seq<Element<K, V>>, e: Element<K, V>, step: Step)
    requires t.Valid() && t.order == s + [e] && l == Adds(Hashes(t.hash, s))
    requires !step.Delete? && Enabled(l, step) && t.load == Apply(l, step)
    requires step.b == ToBkt(t.hash(e.key), |l.counts|)
    ensures t.load == Adds(Hashes(t.hash, t.order))
  {
    hide *;
    HashesSnoc(t.hash, s, e);
    AddsSnoc(Hashes(t.hash, s), t.hash(e.key));
    ValidShape(t);
    TableOccupancy(t);
    StepIsAddHash(l, step, Hashes(t.hash, t.order), t.load);
  }

  lemma HashesSnoc<K, V>(hash: K -> nat, s: seq<Element<K, V>>, e: Element<K, V>)
    ensures Hashes(hash, s + [e]) == Hashes(hash, s) + [hash(e.key)]
  {}

  lemma ValidShape<K, V>(t: Table<K, V>)
    requires t.Valid()
    ensures |t.load.counts| == Pow2(t.load.log2)
  {}

  method AddKey<K(==), V>(t: Table<K, V>, key: K, val: V)
    requires t.Valid() && t.load == Adds(Hashes(t.hash, t.order))
    modifies t, t.buckets, t.order`next, t.order`hhNext, t.order`hhPrev
    ensures t.Valid() && t.load == Adds(Hashes(t.hash, t.order))
    ensures |t.order| == old(|t.order|) + 1 && t.order[..old(|t.order|)] == old(t.order)
    ensures fresh(t.order[old(|t.order|)]) && t.order[old(|t.order|)].key == key
    ensures t.buckets == old(t.buckets) || forall b :: 0 <= b < |t.buckets| ==> fresh(t.buckets[b])
  {
    hide *;
    var e := new Element<K, V>(key, val);
    ghost var l, s := t.load, t.order;
    ghost var step := t.Add(e);
    AddedKey(t, l, s, e, step);
  }

  // A new table to which the keys are added in turn.
  method AddKeys<K(==), V>(hash: K -> nat, keys: seq<K>, val: V) returns (t: Table<K, V>)
    ensures t.Valid() && fresh(t) && t.hash == hash
    ensures |t.order| == |keys| && forall i :: 0 <= i < |keys| ==> t.order[i].key == keys[i]
    ensures t.load == Adds(Hashes(hash, t.order))
  {
    hide *;
    t := new Table<K, V>(hash);
    NoKeys(t);
    var i := 0;
    while i < |keys|
      invariant i <= |keys|
      invariant t.Valid() && t.hash == hash && t.load == Adds(Hashes(t.hash, t.order))
      invariant fresh(t) && forall b :: 0 <= b < |t.buckets| ==> fresh(t.buckets[b])
      invariant |t.order| == i && forall j :: 0 <= j < i ==> fresh(t.order[j]) && t.order[j].key == keys[j]
    {
      AddKey(t, keys[i], val);
      i := i + 1;
    }
  }
}
