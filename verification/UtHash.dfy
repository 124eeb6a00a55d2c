// The hash table itself: the application-order list, the bucket array and the
// counters, with HASH_ADD_KEYPTR, HASH_FIND, HASH_DELETE and bucket expansion.
module UtHash {
  import opened Bits
  import opened LoadBound
  import opened Buckets
  import opened Relink
  import ListSort

  // s is doubly linked in application order, from end to end.
  ghost predicate Ordered<K, V>(s: seq<Element<K, V>>)
    reads s`next, s`prev
  {
    && Distinct(s)
    && (forall i {:trigger s[i].next} :: 0 <= i < |s| ==> s[i].next == At(s, i + 1))
    && (forall i {:trigger s[i].prev} :: 0 <= i < |s| ==> s[i].prev == At(s, i - 1))
  }

  lemma OrderedSnoc<K, V>(s: seq<Element<K, V>>, e: Element<K, V>)
    requires Distinct(s) && e !in s
    requires e.prev == At(s, |s| - 1) && e.next == null
    requires forall i {:trigger s[i].next} :: 0 <= i < |s| ==> s[i].next == if i == |s| - 1 then e else s[i + 1]
    requires forall i {:trigger s[i].prev} :: 0 <= i < |s| ==> s[i].prev == At(s, i - 1)
    ensures Ordered(s + [e])
  {
    var d := s + [e];
    forall i | 0 <= i < |d| ensures d[i].next == At(d, i + 1) && d[i].prev == At(d, i - 1) {
      if i < |s| { assert d[i] == s[i]; }
    }
  }

  lemma OrderedOne<K, V>(e: Element<K, V>)
    requires e.prev == null && e.next == null
    ensures Ordered([e])
  {}

  lemma OrderedIntact<K, V>(s: seq<Element<K, V>>)
    requires Ordered(s)
    ensures Distinct(s) && Intact(s, 0, |s|)
  {}

  lemma SameElements<T>(s: seq<T>, t: seq<T>)
    requires multiset(s) == multiset(t)
    ensures SetOf(s) == SetOf(t)
  {
    forall x ensures x in s <==> x in t {
      assert x in s <==> x in multiset(s);
      assert x in t <==> x in multiset(t);
    }
  }

  lemma MergedOrdered<K, V>(out: seq<Element<K, V>>, orig: seq<Element<K, V>>)
    requires Merging(out, orig, |orig|, |orig|, |orig|)
    ensures Growing(out)
  {}

  method Terminate<K, V>(tl: Element<K, V>, ghost out: seq<Element<K, V>>)
    requires Growing(out) && tl == At(out, |out| - 1)
    modifies tl`next
    ensures Ordered(out)
  {
    tl.next := null;
  }

  lemma OrderedWithout<K, V>(s: seq<Element<K, V>>, k: nat)
    requires Distinct(s) && k < |s|
    requires forall i {:trigger s[i].next} :: 0 <= i < |s| && i != k ==> s[i].next == AfterWithout(s, k, i)
    requires forall i {:trigger s[i].prev} :: 0 <= i < |s| && i != k ==> s[i].prev == BeforeWithout(s, k, i)
    ensures Ordered(Without(s, k))
  {
    var d := Without(s, k);
    DistinctWithout(s, k);
    hide At, AfterWithout, BeforeWithout, Distinct;
    forall i | 0 <= i < |d| ensures d[i].next == At(d, i + 1) && d[i].prev == At(d, i - 1) {
      AroundIsWithout(s, k, i);
    }
  }

  // The bucket that a table of n buckets gives to a hash value.
  ghost function SlotOf(n: nat): nat -> nat {
    (h: nat) => if n == 0 then 0 else ToBkt(h, n)
  }

  class Table<K(==), V> {
    const hash: K -> nat
    var head: Element?<K, V>
    var tail: Element?<K, V>
    var buckets: seq<Bucket<K, V>>
    var numBuckets: nat
    var log2NumBuckets: nat
    var numItems: nat
    var idealChainMaxlen: nat
    var nonidealItems: nat
    var ineffExpands: nat
    var noexpand: bool
    ghost var order: seq<Element<K, V>>  // the elements in application order
    ghost var load: Load                 // the counters, as LoadBound sees them

    ghost predicate Listed()
      reads `head, `tail, `order, order`next, order`prev
    {
      Ordered(order) && head == At(order, 0) && tail == At(order, |order| - 1)
    }

    ghost predicate Counted()
      reads `buckets, `numBuckets, `log2NumBuckets, `numItems
      reads `idealChainMaxlen, `nonidealItems, `ineffExpands, `noexpand
      reads `load, buckets`count, buckets`expandMult
    {
      && |buckets| == numBuckets == Pow2(log2NumBuckets)
      && Shows(buckets, load.counts, load.mults)
      && load == Load(numItems, log2NumBuckets, load.counts, load.mults,
                      idealChainMaxlen, nonidealItems, ineffExpands, noexpand)
    }

    ghost predicate Hashed(els: set<Element<K, V>>)
      reads `buckets, `numBuckets, buckets`hhHead, buckets`count, buckets`chain, els`hashv, els`hhNext, els`hhPrev
    {
      && Holds(SlotOf(numBuckets), buckets, els)
      && forall e :: e in els ==> e.hashv == hash(e.key)
    }

    // HASH_FSCK's checks, and the bound on chain lengths.  While head is null
    // there is no table and the other fields mean nothing.
    ghost predicate Valid()
      reads this, buckets, order`next, order`prev, order`hashv, order`hhNext, order`hhPrev
    {
      && Inv(load)
      && if head == null then order == [] && load == Fresh()
         else Listed() && Counted() && Hashed(SetOf(order)) && numItems == |order|
    }

    ghost function Repr(): set<object>
      reads this
    {
      {this} + SetOf(buckets) + SetOf(order)
    }

    constructor (hash: K -> nat)
      ensures Valid() && order == [] && buckets == [] && this.hash == hash && fresh(Repr())
    {
      this.hash := hash;
      head, tail, buckets := null, null, [];
      numBuckets, log2NumBuckets, numItems := 0, 0, 0;
      idealChainMaxlen, nonidealItems, ineffExpands, noexpand := 0, 0, 0, false;
      order, load := [], Fresh();
      new;
      FreshInv();
    }

    // HASH_FIND: an element with this key, or null when there is none.
    method Find(key: K) returns (out: Element?<K, V>)
      requires Valid()
      ensures out == null ==> forall e :: e in order ==> e.key != key
      ensures out != null ==> out in order && out.key == key
    {
      hide Inv, Listed, Counted, Holds, ToBkt;
      out := null;
      if head != null {
        CountedBuckets();
        var b := ToBkt(hash(key), numBuckets);
        assert b == SlotOf(numBuckets)(hash(key));
        ChainHolds(SlotOf(numBuckets), buckets, SetOf(order), b);
        out := buckets[b].FindIn(key);
        assert forall e :: e in order ==> e in SetOf(order);
      }
    }

    lemma CountedBuckets()
      requires Counted()
      ensures numBuckets == |buckets| == |load.counts| > 0 && load.items == numItems
    {}

    // The application-order half of HASH_ADD_KEYPTR on a live table.
    method AppendOrder(e: Element<K, V>)
      requires Listed() && head != null && e !in order
      modifies `tail, `order, e`next, e`prev, order`next
      ensures Listed() && order == old(order) + [e]
    {
      ghost var s := order;
      e.next := null;
      assert s[|s| - 1] == tail;
      tail.next := e;
      e.prev := tail;
      tail := e;
      order := s + [e];
      OrderedSnoc(s, e);
    }

    // The application-order half of HASH_DELETE when others remain.
    method UnlinkOrder(e: Element<K, V>, ghost k: nat)
      requires Listed() && k < |order| && order[k] == e && |order| > 1
      modifies `head, `tail, `order, order`next, order`prev
      ensures Listed() && order == Without(old(order), k) && head != null
    {
      ghost var s := order;
      assert e.next == At(s, k + 1) && e.prev == At(s, k - 1);
      if e == tail {
        tail := e.prev;
      }
      if e.prev != null {
        e.prev.next := e.next;
      } else {
        head := e.next;
      }
      if e.next != null {
        e.next.prev := e.prev;
      }
      order := Without(s, k);
      OrderedWithout(s, k);
    }

    // The allocation and the two loops of HASH_EXPAND_BUCKETS.
    method Rehash(ideal: nat, ghost els: set<Element<K, V>>)
        returns (news: seq<Bucket<K, V>>, nonideal: nat, ghost counts: seq<nat>, ghost mults: seq<nat>)
      requires numBuckets == |buckets| == Pow2(log2NumBuckets) && Shows(buckets, load.counts, load.mults)
      requires Hashed(els) && ideal > 0
      modifies els`hhNext, els`hhPrev
      ensures |news| == |counts| == 2 * numBuckets && forall b :: 0 <= b < |news| ==> fresh(news[b])
      ensures Holds(SlotOf(2 * numBuckets), news, els) && Shows(news, counts, mults)
      ensures mults == Mults(counts, ideal) && nonideal == SumExcess(counts, ideal)
      ensures Splits(load.counts, counts)
    {
      hide Holds, Shows, Spread, ToBkt, Filed;
      HoldsFiled(SlotOf(numBuckets), buckets, els);
      news := NewBuckets<K, V>(2 * numBuckets);
      ghost var zeros: seq<nat> := seq(2 * numBuckets, _ => 0);
      SpreadZeros(zeros, ideal);
      ShownCounts(buckets, load.counts, load.mults);
      NewHolds(SlotOf(2 * numBuckets), news);
      assert forall b :: 0 <= b < |buckets| ==> buckets[b] !in news;
      nonideal, counts, mults := Redistribute(buckets, news, ideal,
        SlotOf(numBuckets), SlotOf(2 * numBuckets), els, load.counts, zeros);
      ShownCounts(news, counts, mults);
      SpreadIs(counts, mults, ideal, nonideal, Sum(load.counts));
      HoldsFiled(SlotOf(2 * numBuckets), news, els);
      RehashSplits(log2NumBuckets, buckets, news, els, load.counts, counts);
    }

    // The rest of HASH_EXPAND_BUCKETS: switch over and judge the expansion.
    method Adopt(news: seq<Bucket<K, V>>, nonideal: nat, ghost l: Load)
      requires numBuckets == Pow2(log2NumBuckets)
      modifies `buckets, `numBuckets, `log2NumBuckets, `nonidealItems, `ineffExpands, `noexpand, `load
      ensures buckets == news && numBuckets == 2 * old(numBuckets) == Pow2(log2NumBuckets)
      ensures log2NumBuckets == old(log2NumBuckets) + 1 && nonidealItems == nonideal && load == l
      ensures ineffExpands == if nonideal > ShiftRight(numItems, 1) then old(ineffExpands) + 1 else 0
      ensures noexpand == (old(noexpand) || ineffExpands > 1)
    {
      numBuckets := numBuckets * 2;
      log2NumBuckets := log2NumBuckets + 1;
      buckets := news;
      nonidealItems := nonideal;
      ineffExpands := if nonidealItems > ShiftRight(numItems, 1) then ineffExpands + 1 else 0;
      if ineffExpands > 1 {
        noexpand := true;
      }
      load := l;
    }

    // The table as an expansion leaves it, ineff0 ineffective ones having come
    // just before: the ideal length is the ceiling, every expand_mult the quotient.
    ghost predicate JustExpanded(ineff0: nat)
      reads `buckets, `numBuckets, `numItems, `idealChainMaxlen, `nonidealItems, `ineffExpands, `noexpand
      reads buckets`count, buckets`expandMult
    {
      && idealChainMaxlen > 0 && IsCeil(idealChainMaxlen, numItems, numBuckets)
      && (forall b :: 0 <= b < |buckets| ==> IsMult(buckets[b].count, buckets[b].expandMult, idealChainMaxlen))
      && ineffExpands == (if 2 * nonidealItems > numItems then ineff0 + 1 else 0)
      && (noexpand <==> ineffExpands >= 2)
    }

    lemma ExpandedShows(l: Load, counts: seq<nat>)
      requires Counted() && l.items == numItems > 0 && !l.noexpand && load == Expand(l, counts)
      ensures JustExpanded(l.ineff)
      ensures nonidealItems + SumWithin(counts, idealChainMaxlen) == Sum(counts)
    {
      hide IsMult, IsCeil, IdealChain, SumExcess, SumWithin, Sum, Mults;
      ExpandMeans(l, counts);
    }

    // HASH_EXPAND_BUCKETS: the same elements in twice as many buckets.
    method ExpandBuckets(ghost els: set<Element<K, V>>) returns (ghost counts: seq<nat>)
      requires Counted() && Hashed(els)
      requires load.items > 0 && Sum(load.counts) == load.items && !noexpand
      modifies `buckets, `numBuckets, `log2NumBuckets, `load
      modifies `idealChainMaxlen, `nonidealItems, `ineffExpands, `noexpand
      modifies els`hhNext, els`hhPrev
      ensures Counted() && Hashed(els) && forall b :: 0 <= b < |buckets| ==> fresh(buckets[b])
      ensures Splits(old(load.counts), counts)
      ensures old(load.items) > 0 && load == Expand(old(load), counts)
      ensures JustExpanded(old(ineffExpands))
      ensures nonidealItems + SumWithin(counts, idealChainMaxlen) == numItems
    {
      hide JustExpanded, SumWithin, Sum, Holds, Shows, ToBkt, IdealChain, SlotOf, Mults, SumExcess, Pow2, ShiftRight;
      ghost var l := load;
      ShownCounts(buckets, l.counts, l.mults);
      ExpandIdeal(l, ShiftRight(numItems, log2NumBuckets + 1)
                     + if And(numItems, 2 * numBuckets - 1) != 0 then 1 else 0);
      idealChainMaxlen := ShiftRight(numItems, log2NumBuckets + 1)
                          + if And(numItems, 2 * numBuckets - 1) != 0 then 1 else 0;
      var news, nonideal;
      ghost var mults;
      news, nonideal, counts, mults := Rehash(idealChainMaxlen, els);
      Adopt(news, nonideal, Expand(l, counts));
      SplitsSum(l.counts, counts);
      ExpandedShows(l, counts);
    }

    // HASH_MAKE_TABLE
    method MakeTable(e: Element<K, V>)
      modifies this
      ensures Counted() && Hashed({}) && load == Fresh() && forall b :: 0 <= b < |buckets| ==> fresh(buckets[b])
      ensures |buckets| == 32 && tail == e && head == old(head) && order == old(order) && numItems == 0
    {
      hide Shows, Holds, SlotOf, Sum;
      var n := Pow2(INITIAL_NUM_BUCKETS_LOG2);
      tail := e;
      numBuckets, log2NumBuckets := n, INITIAL_NUM_BUCKETS_LOG2;
      numItems, idealChainMaxlen, nonidealItems, ineffExpands, noexpand := 0, 0, 0, 0, false;
      load := Fresh();
      buckets := NewBuckets<K, V>(n);
      NewHolds(SlotOf(n), buckets);
    }

    // HASH_ADD_TO_BKT without the expansion; the caller has counted the item.
    method PushCounted(b: nat, e: Element<K, V>, ghost els: set<Element<K, V>>)
      requires Counted() && Hashed(els) && e !in els
      requires e.hashv == hash(e.key) && b == ToBktOf(e.hashv) < |buckets|
      modifies `load, buckets, (els + {e})`hhNext, (els + {e})`hhPrev
      ensures Counted() && Hashed(els + {e})
      ensures b < |old(load.counts)| == |old(load.mults)|
      ensures load == Grow(old(load), b).(items := old(load.items))
    {
      hide Holds, SlotOf;
      BucketsApart(SlotOf(numBuckets), buckets, els);
      PushInto(buckets[b], e, SlotOf(numBuckets), buckets, els);
      load := Grow(load, b).(items := load.items);
    }

    // HASH_ADD_TO_BKT
    method AddToBkt(b: nat, e: Element<K, V>, ghost els: set<Element<K, V>>) returns (ghost step: Step)
      requires Counted() && Hashed(els) && e !in els
      requires e.hashv == hash(e.key) && b == ToBktOf(e.hashv) < |buckets|
      requires load.items > 0 && Inv(load.(items := load.items - 1))
      modifies `buckets, `numBuckets, `log2NumBuckets, `load
      modifies `idealChainMaxlen, `nonidealItems, `ineffExpands, `noexpand
      modifies buckets, (els + {e})`hhNext, (els + {e})`hhPrev
      ensures Counted() && Hashed(els + {e}) && Inv(load)
      ensures buckets == old(buckets) || forall c :: 0 <= c < |buckets| ==> fresh(buckets[c])
      ensures AddedBy(old(load), b, step, load)
    {
      hide Holds, Sum, Inv, Hashed, SlotOf, Expand, IdealChain, Shows, JustExpanded, SumWithin;
      ghost var l := load.(items := load.items - 1);
      InvShape(l);
      PushCounted(b, e, els);
      ghost var g := load;
      step := Step.Add(b);
      BucketShows(buckets, load.counts, load.mults, b);
      if buckets[b].count >= (buckets[b].expandMult + 1) * BKT_CAPACITY_THRESH && !noexpand {
        SumUpdate(l.counts, b, l.counts[b] + 1);
        ghost var counts := ExpandBuckets(els + {e});
        step := AddExpand(b, counts);
      }
      StepKeepsInv(l, step);
    }

    // HASH_ADD_KEYPTR up to the item count: the application order.
    method Thread(e: Element<K, V>)
      requires Valid() && e !in order
      modifies this, e`next, e`prev, order`next
      ensures Listed() && order == old(order) + [e] && head != null
      ensures Counted() && Hashed(SetOf(old(order))) && numItems == |order|
      ensures load == old(load).(items := old(load).items + 1)
      ensures buckets == old(buckets) || forall b :: 0 <= b < |buckets| ==> fresh(buckets[b])
    {
      hide Shows, Holds, SlotOf, Inv, Fresh, Hashed, Ordered;
      e.next := null;
      if head == null {
        head := e;
        e.prev := null;
        assert SetOf(order) == {};
        MakeTable(e);
        order := [e];
        OrderedOne(e);
      } else {
        AppendOrder(e);
      }
      numItems := numItems + 1;
      load := load.(items := load.items + 1);
    }

    // HASH_ADD_KEYPTR
    method Add(e: Element<K, V>) returns (ghost step: Step)
      requires Valid() && e !in order
      modifies this, buckets, e`next, e`prev, e`hashv, e`hhNext, e`hhPrev, order`next, order`hhNext, order`hhPrev
      ensures Valid() && order == old(order) + [e]
      ensures buckets == old(buckets) || forall b :: 0 <= b < |buckets| ==> fresh(buckets[b])
      ensures !step.Delete? && Enabled(old(load), step) && load == Apply(old(load), step)
      ensures old(|load.counts|) > 0 && step.b == ToBkt(hash(e.key), old(|load.counts|))
      ensures step.AddExpand? <==> TenTimes(old(load), step.b)
    {
      hide SlotOf, Inv, Fresh, ToBkt, Enabled, Apply, Listed, Counted, Hashed, TenTimes;
      ghost var els := SetOf(order);
      Thread(e);
      CountedBuckets();
      e.hashv := hash(e.key);
      SlotAt(numBuckets, e.hashv);
      var b := ToBkt(e.hashv, numBuckets);
      step := AddToBkt(b, e, els);
      assert els + {e} == SetOf(order);
      ExpandsAtTen(old(load), step);
    }

    // HASH_DEL_IN_BKT and the item count.
    method RemoveCounted(b: nat, e: Element<K, V>, ghost els: set<Element<K, V>>)
      requires Counted() && Hashed(els) && e in els && numItems > 0
      requires b == ToBktOf(e.hashv) < |buckets|
      modifies `load, `numItems, buckets, els`hhNext, els`hhPrev
      ensures Counted() && Hashed(els - {e}) && numItems == old(numItems) - 1
      ensures b < |old(load.counts)| == |old(load.mults)| && old(load.counts)[b] > 0
      ensures load == old(load).(items := old(load).items - 1, counts := old(load.counts)[b := old(load.counts)[b] - 1])
    {
      hide Holds, SlotOf;
      BucketsApart(SlotOf(numBuckets), buckets, els);
      ChainHolds(SlotOf(numBuckets), buckets, els, b);
      ghost var l := load;
      BucketShows(buckets, l.counts, l.mults, b);
      RemoveFrom(buckets[b], e, SlotOf(numBuckets), buckets, els);
      numItems := numItems - 1;
      load := l.(items := l.items - 1, counts := l.counts[b := l.counts[b] - 1]);
    }

    lemma CountPositive(e: Element<K, V>, els: set<Element<K, V>>)
      requires Counted() && Hashed(els) && e in els
      ensures var b := ToBktOf(e.hashv);
              b < |buckets| == |load.counts| == |load.mults| && load.counts[b] > 0
    {
      hide SlotOf, Holds;
      var b := ToBktOf(e.hashv);
      SlotBelow(SlotOf(numBuckets), buckets, els, e);
      ChainHolds(SlotOf(numBuckets), buckets, els, b);
    }

    // HASH_DELETE's second branch.
    method DeleteAmong(e: Element<K, V>, ghost k: nat)
      requires Listed() && Counted() && Hashed(SetOf(order)) && numItems == |order| > 1
      requires k < |order| && order[k] == e
      modifies this, buckets, order`next, order`prev, order`hhNext, order`hhPrev
      ensures Listed() && Counted() && Hashed(SetOf(order)) && numItems == |order|
      ensures order == Without(old(order), k) && buckets == old(buckets) && head != null
      ensures var b := old(ToBktOf(e.hashv)); var l := old(load);
              b < |l.counts| == |l.mults| && l.counts[b] > 0 && l.items > 1 && load == Shrink(l, b)
    {
      hide SlotOf, ToBkt, Hashed, Listed, Counted, Fresh;
      CountPositive(e, SetOf(order));
      CountedBuckets();
      SlotAt(numBuckets, e.hashv);
      EndsOf(k);
      DistinctWithout(order, k);
      assert SetOf(Without(order, k)) == SetOf(order) - {e};
      ghost var els := SetOf(order);
      UnlinkOrder(e, k);
      var b := ToBkt(e.hashv, numBuckets);
      RemoveCounted(b, e, els);
    }

    // HASH_DELETE
    method Delete(e: Element<K, V>, ghost k: nat) returns (ghost step: Step)
      requires Valid() && k < |order| && order[k] == e
      modifies this, buckets, order`next, order`prev, order`hhNext, order`hhPrev
      ensures Valid() && order == Without(old(order), k) && buckets == old(buckets)
      ensures step.Delete? && Enabled(old(load), step) && load == Apply(old(load), step)
    {
      hide SlotOf, Inv, Fresh, Hashed, Listed, Counted;
      step := Step.Delete(ToBktOf(e.hashv));
      CountPositive(e, SetOf(order));
      CountedBuckets();
      StepKeepsInv(load, step);
      EndsOf(k);
      if e.prev == null && e.next == null {
        head := null;
        order := [];
        load := Fresh();
      } else {
        DeleteAmong(e, k);
      }
    }

    lemma EndsOf(k: nat)
      requires Listed() && k < |order|
      ensures Distinct(order)
      ensures order[k].prev == null && order[k].next == null <==> |order| == 1
    {}

    // HASH_ITER with HASH_DEL and a free on every element: flowhash.h's
    // clearHash and the kernel modules' exit loops.
    method Clear() returns (n: nat)
      requires Valid()
      modifies this, buckets, order`next, order`prev, order`hhNext, order`hhPrev
      ensures Valid() && order == [] && buckets == old(buckets)
      ensures n == |old(order)|
    {
      hide Valid, Enabled, Apply, Without, At;
      n := 0;
      ghost var s := order;
      HeadLinks(s, 0);
      var el := head;
      var tmp := if head != null then head.next else null;
      while el != null
        invariant Valid() && n <= |s| && order == s[n..] && buckets == old(buckets)
        invariant el == At(s, n) && tmp == At(s, n + 1) && (el != null <==> n < |s|)
        decreases |s| - n
      {
        HeadLinks(s, n);
        ghost var step := Delete(el, 0);
        n := n + 1;
        el := tmp;
        HeadLinks(s, n);
        tmp := if tmp != null then tmp.next else null;
      }
    }

    // The list is what is left of s from position n on.
    lemma HeadLinks(s: seq<Element<K, V>>, n: nat)
      requires Valid() && n <= |s| && order == s[n..]
      ensures head == At(s, n) && (head != null <==> n < |s|)
      ensures n < |s| ==> order[0] == head && head.next == At(s, n + 1) && Without(order, 0) == s[n + 1..]
      ensures n == |s| ==> At(s, n + 1) == null
      ensures n == 0 ==> s[0..] == s
    {
      hide Inv, Fresh, Counted, Hashed;
    }

    // One turn of HASH_SRT's outer loop, ending with the new last element.
    method SortPass(list0: Element<K, V>, insize: nat, cmp: Comparison<K, V>, ghost vals: map<Element<K, V>, V>,
                    ghost cur: seq<Element<K, V>>)
        returns (list: Element<K, V>, tl: Element<K, V>, nmerges: nat, ghost out: seq<Element<K, V>>)
      requires insize > 0 && Ordered(cur) && list0 == At(cur, 0) && Hold(cur, vals)
      modifies cur`next, cur`prev
      ensures out == ListSort.Pass(LeqOf(cmp, vals), cur, insize)
      ensures Ordered(out) && list == At(out, 0) && tl == At(out, |out| - 1)
      ensures SetOf(out) == SetOf(cur)
      ensures nmerges <= 1 <==> |cur| <= 2 * insize
    {
      hide ListSort.Pass, ListSort.Merge, LeqOf, Hold, Distinct, Merging;
      OrderedIntact(cur);
      var l, t;
      l, t, nmerges, out := MergePass(list0, insize, cmp, vals, cur);
      ListSort.PassPermutes(LeqOf(cmp, vals), cur, insize);
      SameElements(cur, out);
      list, tl := l, t;
      MergedOrdered(out, cur);
      assert tl in SetOf(cur);
      Terminate(tl, out);
    }

    // HASH_SRT's passes.
    method SortPasses(cmp: Comparison<K, V>, ghost vals: map<Element<K, V>, V>)
      requires Valid() && Hold(order, vals)
      modifies `head, `tail, `order, order`next, order`prev
      ensures Valid() && order == ListSort.Sort(LeqOf(cmp, vals), old(order), 1)
    {
      hide Inv, Fresh, ListSort.Pass, LeqOf, Hold, Counted, Hashed, Distinct, Ordered;
      ghost var leq := LeqOf(cmp, vals);
      if head == null {
        ListSort.SortNone(leq, order);
        return;
      }
      var list, insize, looping := head, 1, true;
      ghost var cur := order;
      while looping
        invariant insize > 0 && head != null && order == old(order)
        invariant Ordered(cur) && list == At(cur, 0) && SetOf(cur) == SetOf(order)
        invariant looping ==> ListSort.Sort(leq, cur, insize) == ListSort.Sort(leq, order, 1)
        invariant !looping ==> cur == ListSort.Sort(leq, order, 1) && head == list && tail == At(cur, |cur| - 1)
        decreases looping, if |cur| > insize then |cur| - insize else 0
      {
        var tl, nmerges;
        assert forall i :: 0 <= i < |cur| ==> cur[i] in SetOf(order);
        HoldSame(order, cur, vals);
        list, tl, nmerges, cur := SortPass(list, insize, cmp, vals, cur);
        if nmerges <= 1 {
          looping := false;
          tail := tl;
          head := list;
        }
        insize := insize * 2;
      }
      order := cur;
    }

    // HASH_SRT: the same elements, and when cmp is a total preorder on what they
    // hold, in order, with ties as they were.
    method Sort(cmp: Comparison<K, V>)
      requires Valid()
      modifies `head, `tail, `order, order`next, order`prev
      ensures Valid() && order == ListSort.Sort(LeqOf(cmp, old(ValsOf(order))), old(order), 1)
      ensures multiset(order) == multiset(old(order))
      ensures old(Comparable(cmp, order)) ==> InOrder(cmp, order)
      ensures old(Comparable(cmp, order)) ==> TiesKept(LeqOf(cmp, old(ValsOf(order))), old(order), order)
    {
      hide Valid, LeqOf, ListSort.Sort, ListSort.TotalPreorder, Comparable, InOrder, TiesKept;
      ghost var s, vals := order, ValsOf(order);
      SortPasses(cmp, vals);
      ListSort.SortPermutes(LeqOf(cmp, vals), s, 1);
      SameElements(s, order);
      SortMeans(cmp, s, order, vals);
    }

    ghost function ToBktOf(hashv: nat): nat
      reads `numBuckets
    {
      SlotOf(numBuckets)(hashv)
    }
  }

  // cmp is a total preorder on what the elements of s hold.
  ghost predicate Comparable<K, V>(cmp: Comparison<K, V>, s: seq<Element<K, V>>)
    reads s`val
  {
    && (forall x, y :: x in s && y in s ==>
          cmp(x.key, x.val, y.key, y.val) <= 0 || cmp(y.key, y.val, x.key, x.val) <= 0)
    && (forall x, y, z :: x in s && y in s && z in s
                          && cmp(x.key, x.val, y.key, y.val) <= 0 && cmp(y.key, y.val, z.key, z.val) <= 0 ==>
          cmp(x.key, x.val, z.key, z.val) <= 0)
  }

  ghost predicate InOrder<K, V>(cmp: Comparison<K, V>, s: seq<Element<K, V>>)
    reads s`val
  {
    forall i, j :: 0 <= i < j < |s| ==> cmp(s[i].key, s[i].val, s[j].key, s[j].val) <= 0
  }

  // The elements that tie with x come in the same order in s and in t.
  ghost predicate TiesKept<T>(leq: (T, T) -> bool, s: seq<T>, t: seq<T>) {
    forall x :: x in s ==> ListSort.Ties(leq, t, x) == ListSort.Ties(leq, s, x)
  }

  lemma HoldSame<K, V>(s: seq<Element<K, V>>, t: seq<Element<K, V>>, vals: map<Element<K, V>, V>)
    requires Hold(s, vals) && SetOf(t) == SetOf(s)
    ensures Hold(t, vals)
  {
    forall i | 0 <= i < |t| ensures t[i] in s {
      assert t[i] in SetOf(t);
    }
  }

  lemma SortMeans<K, V>(cmp: Comparison<K, V>, s: seq<Element<K, V>>, t: seq<Element<K, V>>,
                        vals: map<Element<K, V>, V>)
    requires t == ListSort.Sort(LeqOf(cmp, vals), s, 1) && SetOf(t) == SetOf(s) && vals == ValsOf(s)
    ensures Comparable(cmp, s) ==> InOrder(cmp, t) && TiesKept(LeqOf(cmp, vals), s, t)
  {
    hide ListSort.Sort;
    if Comparable(cmp, s) {
      HoldSame(s, t, vals);
      ListSort.SortIsStableSort(LeqOf(cmp, vals), s);
    }
  }

  // In twice as many buckets, bucket b's hashes go to b and to b + n.
  lemma SlotSplits(h: nat, k: nat, b: nat)
    requires b < Pow2(k)
    ensures ToBkt(h, Pow2(k)) == b <==> ToBkt(h, 2 * Pow2(k)) == b || ToBkt(h, 2 * Pow2(k)) == b + Pow2(k)
  {
    var n := Pow2(k);
    MaskIsRemainder(h, k);
    MaskIsRemainder(h, k + 1);
    hide And, Pow2;
    RemainderSplits(h, n);
  }

  lemma RemainderSplits(h: nat, n: nat)
    requires n > 0
    ensures h % (2 * n) == h % n || h % (2 * n) == h % n + n
  {
    var q, r := h / (2 * n), h % (2 * n);
    DivMod(h, 2 * n);
    if r < n {
      RemainderIs(h, n, 2 * q, r);
    } else {
      RemainderIs(h, n, 2 * q + 1, r - n);
    }
  }

  lemma {:induction false} DistinctSize<T>(s: seq<T>)
    requires Distinct(s)
    ensures |SetOf(s)| == |s|
  {
    if s != [] {
      var n := |s| - 1;
      DistinctSize(s[..n]);
      assert SetOf(s) == SetOf(s[..n]) + {s[n]};
    }
  }

  // Which element is in which bucket, links aside.
  ghost predicate Filed<K, V>(slot: nat -> nat, bs: seq<Bucket<K, V>>, els: set<Element<K, V>>)
    reads bs`chain, bs`count, els`hashv
  {
    Placed(slot, bs, els) && forall b :: 0 <= b < |bs| ==> Distinct(bs[b].chain) && bs[b].count == |bs[b].chain|
  }

  lemma HoldsFiled<K, V>(slot: nat -> nat, bs: seq<Bucket<K, V>>, els: set<Element<K, V>>)
    requires Holds(slot, bs, els)
    ensures Filed(slot, bs, els)
  {}

  ghost function InSlot<K, V>(slot: nat -> nat, els: set<Element<K, V>>, b: nat): set<Element<K, V>>
    reads els`hashv
  {
    set x | x in els && slot(x.hashv) == b
  }

  lemma FiledIn<K, V>(slot: nat -> nat, bs: seq<Bucket<K, V>>, els: set<Element<K, V>>, b: nat)
    requires Filed(slot, bs, els) && b < |bs|
    ensures bs[b].count == |InSlot(slot, els, b)| && SetOf(bs[b].chain) == InSlot(slot, els, b)
  {
    var c := bs[b].chain;
    forall x | x in c ensures x in els && slot(x.hashv) == b {
      var i :| 0 <= i < |c| && c[i] == x;
    }
    assert SetOf(c) == InSlot(slot, els, b);
    DistinctSize(c);
  }

  // The two new buckets share out the old bucket's elements.
  lemma ChainSplits<K, V>(k: nat, olds: seq<Bucket<K, V>>, news: seq<Bucket<K, V>>, els: set<Element<K, V>>, b: nat)
    requires b < |olds| == Pow2(k) && |news| == 2 * Pow2(k)
    requires Filed(SlotOf(Pow2(k)), olds, els) && Filed(SlotOf(2 * Pow2(k)), news, els)
    ensures SetOf(olds[b].chain) == SetOf(news[b].chain) + SetOf(news[b + Pow2(k)].chain)
    ensures SetOf(news[b].chain) !! SetOf(news[b + Pow2(k)].chain)
    ensures news[b].count + news[b + Pow2(k)].count == olds[b].count
  {
    hide Filed, ToBkt, SetOf;
    var n := Pow2(k);
    FiledIn(SlotOf(n), olds, els, b);
    FiledIn(SlotOf(2 * n), news, els, b);
    FiledIn(SlotOf(2 * n), news, els, b + n);
    var c, c1, c2 := InSlot(SlotOf(n), els, b), InSlot(SlotOf(2 * n), els, b), InSlot(SlotOf(2 * n), els, b + n);
    forall x | x in els ensures x in c <==> x in c1 + c2 {
      SlotSplits(x.hashv, k, b);
    }
    assert c == c1 + c2 && c1 * c2 == {};
  }

  lemma RehashSplits<K, V>(k: nat, olds: seq<Bucket<K, V>>, news: seq<Bucket<K, V>>, els: set<Element<K, V>>,
                           counts0: seq<nat>, counts: seq<nat>)
    requires |counts0| == |olds| == Pow2(k) && |counts| == |news| == 2 * Pow2(k)
    requires Filed(SlotOf(Pow2(k)), olds, els) && Filed(SlotOf(2 * Pow2(k)), news, els)
    requires forall b :: 0 <= b < |olds| ==> olds[b].count == counts0[b]
    requires forall b :: 0 <= b < |news| ==> news[b].count == counts[b]
    ensures Splits(counts0, counts)
  {
    hide Filed, SlotOf;
    forall b | 0 <= b < |olds| ensures counts[b] + counts[b + |olds|] == counts0[b] {
      ChainSplits(k, olds, news, els, b);
    }
  }

  // What ChainsStayBounded says about runs, about a table: its chains are short
  // while it may still expand.
  lemma ChainBound<K, V>(t: Table<K, V>, b: nat)
    requires t.Valid() && t.head != null && !t.noexpand && b < |t.buckets|
    ensures |t.buckets[b].chain| <= 10 * (t.buckets[b].expandMult + 1) && t.idealChainMaxlen <= 10
  {
    InvBounds(t.load);
    hide Inv;
  }

  // Adding the counted item to bucket b took this step.
  ghost predicate AddedBy(counted: Load, b: nat, step: Step, l: Load) {
    && counted.items > 0
    && var l0 := counted.(items := counted.items - 1);
       step.b == b && !step.Delete? && Enabled(l0, step) && l == Apply(l0, step)
  }

  lemma BucketShows<K, V>(bs: seq<Bucket<K, V>>, counts: seq<nat>, mults: seq<nat>, b: nat)
    requires Shows(bs, counts, mults) && b < |bs|
    ensures |counts| == |mults| == |bs| && bs[b].count == counts[b] && bs[b].expandMult == mults[b]
  {}

  lemma SlotAt(n: nat, h: nat)
    requires n > 0
    ensures SlotOf(n)(h) == ToBkt(h, n)
  {}

  lemma SlotBelow<K, V>(slot: nat -> nat, bs: seq<Bucket<K, V>>, els: set<Element<K, V>>, e: Element<K, V>)
    requires Holds(slot, bs, els) && e in els
    ensures slot(e.hashv) < |bs|
  {}

  lemma InvShape(l: Load)
    requires Inv(l)
    ensures |l.counts| == |l.mults| == Pow2(l.log2) && Sum(l.counts) == l.items
  {}

  lemma ExpandIdeal(l: Load, ideal: nat)
    requires l.items > 0
    requires ideal == ShiftRight(l.items, l.log2 + 1) + if And(l.items, 2 * Pow2(l.log2) - 1) != 0 then 1 else 0
    ensures ideal == IdealChain(l.items, l.log2 + 1) && ideal > 0
  {
    IdealChainIsCeil(l.items, l.log2 + 1);
  }

  method NewBuckets<K, V>(n: nat) returns (bs: seq<Bucket<K, V>>)
    ensures |bs| == n && Distinct(bs) && forall b :: 0 <= b < n ==> fresh(bs[b])
    ensures forall b :: 0 <= b < n ==> bs[b].Valid() && bs[b].chain == [] && bs[b].expandMult == 0
  {
    bs := [];
    while |bs| < n
      invariant |bs| <= n && Distinct(bs) && forall b :: 0 <= b < |bs| ==> fresh(bs[b])
      invariant forall b :: 0 <= b < |bs| ==> bs[b].Valid() && bs[b].chain == [] && bs[b].expandMult == 0
    {
      var b := new Bucket<K, V>();
      bs := bs + [b];
    }
  }

  lemma NewHolds<K, V>(slot: nat -> nat, bs: seq<Bucket<K, V>>)
    requires Distinct(bs)
    requires forall b :: 0 <= b < |bs| ==> bs[b].Valid() && bs[b].chain == [] && bs[b].expandMult == 0
    ensures Holds(slot, bs, {})
    ensures Shows(bs, seq(|bs|, _ => 0), seq(|bs|, _ => 0))
  {}

  lemma SpreadZeros(zeros: seq<nat>, ideal: nat)
    requires ideal > 0 && forall b :: 0 <= b < |zeros| ==> zeros[b] == 0
    ensures Spread(zeros, zeros, ideal, 0, 0)
  {
    SumZeros(zeros);
    SumExcessZeros(zeros, ideal);
  }

  lemma ShownCounts<K, V>(bs: seq<Bucket<K, V>>, counts: seq<nat>, mults: seq<nat>)
    requires Shows(bs, counts, mults)
    ensures |counts| == |bs| && forall b :: 0 <= b < |bs| ==> bs[b].count == counts[b]
  {}

  lemma SpreadIs(counts: seq<nat>, mults: seq<nat>, ideal: nat, nonideal: nat, m: nat)
    requires Spread(counts, mults, ideal, nonideal, m)
    ensures ideal > 0 && mults == Mults(counts, ideal) && nonideal == SumExcess(counts, ideal) && Sum(counts) == m
  {
    hide MultOf, IsMult;
    forall b | 0 <= b < |counts| ensures mults[b] == MultOf(counts[b], ideal) {
      MultIsOnly(counts[b], mults[b], ideal);
    }
  }

  // The elements s, with distinct keys, represent the map m.
  ghost predicate Represents<K, V>(s: seq<Element<K, V>>, m: map<K, V>)
    reads s`val
  {
    && (forall i, j :: 0 <= i < j < |s| ==> s[i].key != s[j].key)
    && (forall i :: 0 <= i < |s| ==> s[i].key in m && s[i].val == m[s[i].key])
    && (forall k :: k in m ==> exists i :: 0 <= i < |s| && s[i].key == k)
  }

  // Find's answer on a table that represents m is m's answer.
  lemma FindRefines<K, V>(s: seq<Element<K, V>>, m: map<K, V>, key: K, out: Element?<K, V>)
    requires Represents(s, m)
    requires out == null ==> forall e :: e in s ==> e.key != key
    requires out != null ==> out in s && out.key == key
    ensures out == null <==> key !in m
    ensures out != null ==> out.val == m[key]
    ensures forall e :: e in s && e.key == key ==> e == out
  {}

  lemma AddRefines<K, V>(s: seq<Element<K, V>>, m: map<K, V>, e: Element<K, V>)
    requires Represents(s, m) && e.key !in m
    ensures Represents(s + [e], m[e.key := e.val])
  {
    var t, n := s + [e], m[e.key := e.val];
    forall k | k in n ensures exists i :: 0 <= i < |t| && t[i].key == k {
      if k == e.key {
        assert t[|s|].key == k;
      } else {
        var i :| 0 <= i < |s| && s[i].key == k;
        assert t[i].key == k;
      }
    }
  }

  lemma DeleteRefines<K, V>(s: seq<Element<K, V>>, m: map<K, V>, k: nat)
    requires Represents(s, m) && k < |s|
    ensures Represents(Without(s, k), m - {s[k].key})
  {
    WithoutAt(s, k);
    var t, n := Without(s, k), m - {s[k].key};
    forall x | x in n ensures exists i :: 0 <= i < |t| && t[i].key == x {
      var i :| 0 <= i < |s| && s[i].key == x;
      assert t[if i < k then i else i - 1].key == x;
    }
  }

  lemma {:induction false} DistinctOnce<T>(s: seq<T>, x: T)
    requires Distinct(s)
    ensures multiset(s)[x] <= 1
  {
    if s != [] {
      var n := |s| - 1;
      DistinctOnce(s[..n], x);
      assert s == s[..n] + [s[n]];
      if s[n] == x {
        assert x !in multiset(s[..n]);
      }
    }
  }

  lemma DistinctPermuted<T>(s: seq<T>, t: seq<T>)
    requires Distinct(s) && multiset(s) == multiset(t)
    ensures Distinct(t)
  {
    forall i, j | 0 <= i < j < |t| ensures t[i] != t[j] {
      if t[i] == t[j] {
        assert t == t[..j] + t[j..];
        assert t[i] in t[..j] && t[i] in t[j..];
        DistinctOnce(s, t[i]);
      }
    }
  }

  // A representation does not depend on the order of the elements.
  lemma RepresentsSame<K, V>(s: seq<Element<K, V>>, t: seq<Element<K, V>>, m: map<K, V>)
    requires Represents(s, m) && Distinct(t) && SetOf(s) == SetOf(t)
    ensures Represents(t, m)
  {
    forall i | 0 <= i < |t| ensures exists j :: 0 <= j < |s| && s[j] == t[i] {
      assert t[i] in SetOf(t);
      assert t[i] in s;
    }
    forall k | k in m ensures exists i :: 0 <= i < |t| && t[i].key == k {
      var i :| 0 <= i < |s| && s[i].key == k;
      assert s[i] in SetOf(s);
      var j :| 0 <= j < |t| && t[j] == s[i];
    }
  }

  lemma SortRefines<K, V>(s: seq<Element<K, V>>, m: map<K, V>, leq: (Element<K, V>, Element<K, V>) -> bool)
    requires Represents(s, m) && Distinct(s)
    ensures Represents(ListSort.Sort(leq, s, 1), m)
  {
    hide ListSort.Sort, Represents, Distinct, SetOf;
    var t := ListSort.Sort(leq, s, 1);
    ListSort.SortPermutes(leq, s, 1);
    SameElements(s, t);
    DistinctPermuted(s, t);
    RepresentsSame(s, t, m);
  }
}
