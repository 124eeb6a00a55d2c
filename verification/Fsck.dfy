// HASH_FSCK, uthash's own consistency check: what exactly it finds out about a
// table it can walk, and that it finds nothing wrong with any valid table.
module Fsck {
  import opened LoadBound
  import opened Buckets
  import opened UtHash

  // The forward pointers of both kinds of list come to an end; nothing else is
  // taken for granted.
  ghost predicate Walkable<K, V>(t: Table<K, V>)
    reads *
  {
    && t.head != null && t.numBuckets == |t.buckets|
    && t.head == At(t.order, 0) && Forward(t.order)
    && forall b :: 0 <= b < |t.buckets| ==> HeadsChain(t.buckets[b])
  }

  ghost predicate Forward<K, V>(s: seq<Element<K, V>>)
    reads s`next
  {
    forall i {:trigger s[i].next} :: 0 <= i < |s| ==> s[i].next == At(s, i + 1)
  }

  ghost predicate HeadsChain<K, V>(b: Bucket<K, V>)
    reads *
  {
    b.hhHead == At(b.chain, 0) && NextLinked(b.chain)
  }

  // Backward pointers and counts, as HASH_FSCK wants them.
  ghost predicate Consistent<K, V>(t: Table<K, V>)
    reads *
  {
    && (forall b :: 0 <= b < |t.buckets| ==> ChainConsistent(t.buckets[b]))
    && ChainTotal(t.buckets) == t.numItems == |t.order|
    && Backward(t.order, |t.order|)
  }

  ghost predicate ChainConsistent<K, V>(b: Bucket<K, V>)
    reads *
  {
    b.count == |b.chain| && ChainBackward(b.chain, |b.chain|)
  }

  // The first n backward pointers are right.
  ghost predicate Backward<K, V>(s: seq<Element<K, V>>, n: nat)
    reads s`prev
  {
    forall i {:trigger s[i].prev} :: 0 <= i < n && i < |s| ==> s[i].prev == At(s, i - 1)
  }

  ghost predicate ChainBackward<K, V>(s: seq<Element<K, V>>, n: nat)
    reads s`hhPrev
  {
    forall i {:trigger s[i].hhPrev} :: 0 <= i < n && i < |s| ==> s[i].hhPrev == At(s, i - 1)
  }

  ghost function ChainTotal<K, V>(bs: seq<Bucket<K, V>>): nat
    reads bs`chain
  {
    if bs == [] then 0 else ChainTotal(bs[..|bs| - 1]) + |bs[|bs| - 1].chain|
  }

  // One bucket's walk.
  method WalkChain<K(==), V>(b: Bucket<K, V>) returns (ok: bool, bktCount: nat)
    requires HeadsChain(b)
    ensures ok <==> ChainBackward(b.chain, |b.chain|)
    ensures ok ==> bktCount == |b.chain|
  {
    bktCount := 0;
    var thh, prev := b.hhHead, null;
    while thh != null
      invariant bktCount <= |b.chain| && thh == At(b.chain, bktCount) && prev == At(b.chain, bktCount - 1)
      invariant ChainBackward(b.chain, bktCount)
      decreases |b.chain| - bktCount
    {
      assert b.chain[bktCount] == thh;
      if prev != thh.hhPrev {
        return false, bktCount;
      }
      bktCount := bktCount + 1;
      prev := thh;
      thh := thh.hhNext;
    }
    ok := true;
  }

  method WalkOrder<K(==), V>(t: Table<K, V>) returns (ok: bool, count: nat)
    requires Walkable(t)
    ensures ok <==> Backward(t.order, |t.order|)
    ensures ok ==> count == |t.order|
  {
    count := 0;
    var thh, prev := t.head, null;
    while thh != null
      invariant count <= |t.order| && thh == At(t.order, count) && prev == At(t.order, count - 1)
      invariant Backward(t.order, count)
      decreases |t.order| - count
    {
      assert t.order[count] == thh;
      if prev != thh.prev {
        return false, count;
      }
      count := count + 1;
      prev := thh;
      thh := thh.next;
    }
    ok := true;
  }

  // HASH_FSCK accepts exactly the tables whose backward pointers and counts are
  // right.
  method Fsck<K(==), V>(t: Table<K, V>) returns (ok: bool)
    requires Walkable(t)
    ensures ok <==> Consistent(t)
  {
    hide ChainBackward, Backward, HeadsChain, Forward;
    var count := 0;
    var i := 0;
    while i < t.numBuckets
      invariant i <= t.numBuckets && count == ChainTotal(t.buckets[..i])
      invariant forall b :: 0 <= b < i ==> ChainConsistent(t.buckets[b])
    {
      var chainOk, bktCount := WalkChain(t.buckets[i]);
      if !chainOk {
        return false;
      }
      assert t.buckets[..i + 1][..i] == t.buckets[..i];
      count := count + bktCount;
      if t.buckets[i].count != bktCount {
        return false;
      }
      i := i + 1;
    }
    assert t.buckets[..i] == t.buckets;
    if count != t.numItems {
      return false;
    }
    var orderOk, n := WalkOrder(t);
    ok := orderOk && n == t.numItems;
  }

  lemma {:induction false} TotalIsSum<K, V>(bs: seq<Bucket<K, V>>, counts: seq<nat>)
    requires |bs| == |counts| && forall b :: 0 <= b < |bs| ==> |bs[b].chain| == counts[b]
    ensures ChainTotal(bs) == Sum(counts)
  {
    if bs != [] {
      var n := |bs| - 1;
      TotalIsSum(bs[..n], counts[..n]);
      SumPrefix(counts, n);
      assert counts[..n + 1] == counts;
    }
  }

  lemma ChainFine<K, V>(b: Bucket<K, V>)
    requires b.Valid()
    ensures HeadsChain(b) && ChainConsistent(b)
  {}

  lemma OrderFine<K, V>(s: seq<Element<K, V>>)
    requires Ordered(s)
    ensures Forward(s) && Backward(s, |s|)
  {}

  // Whatever adds, deletes, expansions and sorts made of it, a table in use
  // passes the check.
  lemma ValidPasses<K, V>(t: Table<K, V>)
    requires t.Valid() && t.head != null
    ensures Walkable(t) && Consistent(t)
  {
    var l := t.load;
    InvShape(l);
    hide Inv, HeadsChain, ChainConsistent, Backward, Forward, Ordered;
    OrderFine(t.order);
    forall b | 0 <= b < |t.buckets| ensures HeadsChain(t.buckets[b]) && ChainConsistent(t.buckets[b]) {
      ChainFine(t.buckets[b]);
    }
    forall b | 0 <= b < |t.buckets| ensures |t.buckets[b].chain| == l.counts[b] {
      ChainCount(t.buckets[b]);
    }
    TotalIsSum(t.buckets, l.counts);
  }

  lemma ChainCount<K, V>(b: Bucket<K, V>)
    requires b.Valid()
    ensures |b.chain| == b.count
  {}
}
