// uthash's intrusive hash table.  Every element is threaded on two doubly
// linked lists at once: the application order (prev / next) and its bucket's
// chain (hhPrev / hhNext).
module Buckets {
  import opened Bits
  import opened LoadBound

  class Element<K(==), V> {
    const key: K
    var val: V
    var hashv: nat
    var prev: Element?<K, V>
    var next: Element?<K, V>
    var hhPrev: Element?<K, V>
    var hhNext: Element?<K, V>

    constructor (key: K, val: V)
      ensures this.key == key && this.val == val
    {
      this.key, this.val, hashv := key, val, 0;
      prev, next, hhPrev, hhNext := null, null, null, null;
    }
  }

  // The i-th element of a list, or null past either end.
  ghost function At<K, V>(s: seq<Element<K, V>>, i: int): Element?<K, V> {
    if 0 <= i < |s| then s[i] else null
  }

  ghost predicate Distinct<T>(s: seq<T>) {
    forall i, j :: 0 <= i < j < |s| ==> s[i] != s[j]
  }

  ghost function Without<T>(s: seq<T>, i: nat): seq<T>
    requires i < |s|
  {
    s[..i] + s[i + 1..]
  }

  // HASH_TO_BKT
  function ToBkt(hashv: nat, numBkts: nat): (b: nat)
    requires numBkts > 0
    ensures b < numBkts
  {
    And(hashv, numBkts - 1)
  }

  // c is doubly linked through the bucket handles, from end to end.
  ghost predicate Chained<K, V>(c: seq<Element<K, V>>)
    reads c`hhNext, c`hhPrev
  {
    && Distinct(c)
    && (forall i {:trigger c[i].hhNext} :: 0 <= i < |c| ==> c[i].hhNext == At(c, i + 1))
    && (forall i {:trigger c[i].hhPrev} :: 0 <= i < |c| ==> c[i].hhPrev == At(c, i - 1))
  }

  lemma ChainedCons<K, V>(c: seq<Element<K, V>>, e: Element<K, V>)
    requires Distinct(c) && e !in c
    requires e.hhNext == At(c, 0) && e.hhPrev == null
    requires forall i {:trigger c[i].hhNext} :: 0 <= i < |c| ==> c[i].hhNext == At(c, i + 1)
    requires forall i {:trigger c[i].hhPrev} :: 0 <= i < |c| ==> c[i].hhPrev == if i == 0 then e else c[i - 1]
    ensures Chained([e] + c)
  {
    var d := [e] + c;
    forall i | 0 <= i < |d|
      ensures d[i].hhNext == At(d, i + 1) && d[i].hhPrev == At(d, i - 1)
    {
      if i > 0 {
        assert d[i] == c[i - 1];
        assert c[i - 1].hhNext == At(c, i);
      }
    }
  }

  lemma WithoutAt<T>(s: seq<T>, k: nat)
    requires k < |s|
    ensures |Without(s, k)| == |s| - 1
    ensures forall i :: 0 <= i < |s| - 1 ==> Without(s, k)[i] == s[if i < k then i else i + 1]
  {}

  lemma DistinctWithout<T>(s: seq<T>, k: nat)
    requires Distinct(s) && k < |s|
    ensures Distinct(Without(s, k))
    ensures forall x :: x in Without(s, k) <==> x in s && x != s[k]
  {
    WithoutAt(s, k);
    var d := Without(s, k);
    forall x | x in s && x != s[k] ensures x in d {
      var i :| 0 <= i < |s| && s[i] == x;
      assert d[if i < k then i else i - 1] == x;
    }
  }

  // The successor and the predecessor of position i once the k-th element has
  // been taken out.
  ghost function AfterWithout<K, V>(c: seq<Element<K, V>>, k: nat, i: int): Element?<K, V> {
    At(c, if i == k - 1 then k + 1 else i + 1)
  }

  ghost function BeforeWithout<K, V>(c: seq<Element<K, V>>, k: nat, i: int): Element?<K, V> {
    At(c, if i == k + 1 then k - 1 else i - 1)
  }

  lemma AroundIsWithout<K, V>(c: seq<Element<K, V>>, k: nat, i: nat)
    requires k < |c| && i < |c| - 1
    ensures var j := if i < k then i else i + 1;
            && Without(c, k)[i] == c[j]
            && AfterWithout(c, k, j) == At(Without(c, k), i + 1)
            && BeforeWithout(c, k, j) == At(Without(c, k), i - 1)
  {
    WithoutAt(c, k);
  }

  lemma ChainedWithout<K, V>(c: seq<Element<K, V>>, k: nat)
    requires Distinct(c) && k < |c|
    requires forall i {:trigger c[i].hhNext} :: 0 <= i < |c| && i != k ==> c[i].hhNext == AfterWithout(c, k, i)
    requires forall i {:trigger c[i].hhPrev} :: 0 <= i < |c| && i != k ==> c[i].hhPrev == BeforeWithout(c, k, i)
    ensures Chained(Without(c, k))
  {
    var d := Without(c, k);
    DistinctWithout(c, k);
    hide At, AfterWithout, BeforeWithout, Distinct;
    forall i | 0 <= i < |d| ensures d[i].hhNext == At(d, i + 1) && d[i].hhPrev == At(d, i - 1) {
      AroundIsWithout(c, k, i);
    }
  }

  // UT_hash_bucket, with the chain it heads for the proof.
  class Bucket<K(==), V> {
    var hhHead: Element?<K, V>
    var count: nat
    var expandMult: nat
    ghost var chain: seq<Element<K, V>>

    ghost predicate Valid()
      reads `hhHead, `count, `chain, chain`hhNext, chain`hhPrev
    {
      Chained(chain) && hhHead == At(chain, 0) && count == |chain|
    }

    constructor ()
      ensures Valid() && chain == [] && expandMult == 0
    {
      hhHead, count, expandMult, chain := null, 0, 0, [];
    }

    // The list half of HASH_ADD_TO_BKT, also inlined in HASH_EXPAND_BUCKETS.
    method PushFront(e: Element<K, V>)
      requires Valid() && e !in chain
      modifies `hhHead, `count, `chain, e`hhNext, e`hhPrev, chain`hhPrev
      ensures Valid() && chain == [e] + old(chain) && count == old(count) + 1
    {
      ghost var c := chain;
      e.hhNext := hhHead;
      e.hhPrev := null;
      if hhHead != null {
        assert c[0] == hhHead;
        hhHead.hhPrev := e;
      }
      hhHead := e;
      count := count + 1;
      chain := [e] + c;
      ChainedCons(c, e);
    }

    // Redistribution's bookkeeping for the item just counted.
    method Tally(ideal: nat, nonideal0: nat) returns (nonideal: nat)
      requires ideal > 0
      modifies `expandMult
      ensures expandMult == if count > ideal then MultOf(count, ideal) else old(expandMult)
      ensures count > ideal ==> expandMult * ideal <= count < (expandMult + 1) * ideal
      ensures nonideal == nonideal0 + if count > ideal then 1 else 0
    {
      nonideal := nonideal0;
      if count > ideal {
        nonideal := nonideal + 1;
        expandMult := count / ideal;
        QuotientIsDivision(count, ideal);
      }
    }

    // HASH_DEL_IN_BKT
    method Remove(e: Element<K, V>, ghost k: nat)
      requires Valid() && k < |chain| && chain[k] == e
      modifies `hhHead, `count, `chain, chain`hhNext, chain`hhPrev
      ensures Valid() && chain == Without(old(chain), k) && count == old(count) - 1
    {
      ghost var c := chain;
      assert e.hhNext == At(c, k + 1) && e.hhPrev == At(c, k - 1);
      count := count - 1;
      if hhHead == e {
        hhHead := e.hhNext;
      }
      if e.hhPrev != null {
        e.hhPrev.hhNext := e.hhNext;
      }
      if e.hhNext != null {
        e.hhNext.hhPrev := e.hhPrev;
      }
      chain := Without(c, k);
      ChainedWithout(c, k);
    }

    // HASH_FIND_IN_BKT: the first element of the chain with this key.
    method FindIn(key: K) returns (out: Element?<K, V>)
      requires Valid()
      ensures out == null ==> forall e :: e in chain ==> e.key != key
      ensures out != null ==> out in chain && out.key == key
    {
      out := hhHead;
      ghost var i := 0;
      while out != null
        invariant 0 <= i <= |chain| && out == At(chain, i)
        invariant forall j :: 0 <= j < i ==> chain[j].key != key
        decreases |chain| - i
      {
        if out.key == key { return; }
        out := out.hhNext;
        i := i + 1;
      }
    }
  }

  // The chains hold exactly els, each element in the bucket of its hash.
  ghost predicate Placed<K, V>(slot: nat -> nat, bs: seq<Bucket<K, V>>, els: set<Element<K, V>>)
    reads bs`chain, els`hashv
  {
    && (forall b, i :: 0 <= b < |bs| && 0 <= i < |bs[b].chain| ==>
          bs[b].chain[i] in els && slot(bs[b].chain[i].hashv) == b)
    && (forall e :: e in els ==> slot(e.hashv) < |bs| && e in bs[slot(e.hashv)].chain)
  }

  ghost predicate Holds<K, V>(slot: nat -> nat, bs: seq<Bucket<K, V>>, els: set<Element<K, V>>)
    reads bs`hhHead, bs`count, bs`chain, els`hashv, els`hhNext, els`hhPrev
  {
    && Distinct(bs)
    && Placed(slot, bs, els)
    && (forall b :: 0 <= b < |bs| ==> bs[b].Valid())
  }

  lemma BucketsApart<K, V>(slot: nat -> nat, bs: seq<Bucket<K, V>>, els: set<Element<K, V>>)
    requires Holds(slot, bs, els)
    ensures forall b, c :: 0 <= b < |bs| && 0 <= c < |bs| && b != c ==> bs[b] != bs[c]
  {}

  lemma ChainHolds<K, V>(slot: nat -> nat, bs: seq<Bucket<K, V>>, els: set<Element<K, V>>, b: nat)
    requires Holds(slot, bs, els) && b < |bs|
    ensures bs[b].Valid()
    ensures forall x :: x in bs[b].chain <==> x in els && slot(x.hashv) == b
  {
    forall x | x in bs[b].chain ensures x in els && slot(x.hashv) == b {
      var i :| 0 <= i < |bs[b].chain| && bs[b].chain[i] == x;
    }
  }

  method PushInto<K, V>(bkt: Bucket<K, V>, e: Element<K, V>,
      ghost slot: nat -> nat, ghost bs: seq<Bucket<K, V>>, ghost els: set<Element<K, V>>)
    requires Holds(slot, bs, els) && e !in els
    requires slot(e.hashv) < |bs| && bkt == bs[slot(e.hashv)]
    modifies bkt`hhHead, bkt`count, bkt`chain, e`hhNext, e`hhPrev, els`hhPrev
    ensures Holds(slot, bs, els + {e})
    ensures bkt.chain == [e] + old(bkt.chain) && bkt.count == old(bkt.count) + 1
  {
    ghost var b := slot(e.hashv);
    bkt.PushFront(e);
    forall c | 0 <= c < |bs| && c != b
      ensures bs[c] != bkt && bs[c].Valid()
    {
      assert old(bs[c].Valid());
    }
    assert bkt.chain[0] == e;
  }

  lemma DisjointChains<K, V>(slot: nat -> nat, bs: seq<Bucket<K, V>>, els: set<Element<K, V>>, b: nat, d: nat)
    requires Placed(slot, bs, els) && b < |bs| && d < |bs| && b != d
    ensures forall x :: x in bs[d].chain ==> x !in bs[b].chain
  {
    forall x | x in bs[d].chain ensures slot(x.hashv) == d {
      var i :| 0 <= i < |bs[d].chain| && bs[d].chain[i] == x;
    }
  }

  // Placed, for the chains as they are at some moment.
  ghost predicate PlacedIn<K, V>(slot: nat -> nat, chains: seq<seq<Element<K, V>>>, els: set<Element<K, V>>)
    reads els`hashv
  {
    && (forall b, i :: 0 <= b < |chains| && 0 <= i < |chains[b]| ==>
          chains[b][i] in els && slot(chains[b][i].hashv) == b)
    && (forall e :: e in els ==> slot(e.hashv) < |chains| && e in chains[slot(e.hashv)])
  }

  lemma ChainWithout<K, V>(slot: nat -> nat, chains: seq<seq<Element<K, V>>>, els: set<Element<K, V>>, b: nat, k: nat)
    requires PlacedIn(slot, chains, els) && b < |chains| && k < |chains[b]| && Distinct(chains[b])
    ensures PlacedIn(slot, chains[b := Without(chains[b], k)], els - {chains[b][k]})
  {
    var c, e := chains[b], chains[b][k];
    WithoutAt(c, k);
    var after := chains[b := Without(c, k)];
    forall d, i | 0 <= d < |after| && 0 <= i < |after[d]|
      ensures after[d][i] in els && after[d][i] != e && slot(after[d][i].hashv) == d
    {
      if d == b {
        assert after[d][i] == c[if i < k then i else i + 1];
      } else {
        assert after[d][i] == chains[d][i];
      }
    }
  }

  lemma PlacedNow<K, V>(slot: nat -> nat, bs: seq<Bucket<K, V>>, chains: seq<seq<Element<K, V>>>,
                        els: set<Element<K, V>>)
    requires |chains| == |bs| && forall d :: 0 <= d < |bs| ==> bs[d].chain == chains[d]
    ensures Placed(slot, bs, els) <==> PlacedIn(slot, chains, els)
  {}

  method RemoveFrom<K, V>(bkt: Bucket<K, V>, e: Element<K, V>,
      ghost slot: nat -> nat, ghost bs: seq<Bucket<K, V>>, ghost els: set<Element<K, V>>)
    requires Holds(slot, bs, els) && e in els
    requires bkt == bs[slot(e.hashv)]
    modifies bkt`hhHead, bkt`count, bkt`chain, els`hhNext, els`hhPrev
    ensures Holds(slot, bs, els - {e})
    ensures bkt.count == old(bkt.count) - 1
  {
    ghost var b := slot(e.hashv);
    ghost var chains := seq(|bs|, d requires 0 <= d < |bs| reads bs => bs[d].chain);
    ghost var k :| 0 <= k < |chains[b]| && chains[b][k] == e;
    forall d | 0 <= d < |bs| && d != b
      ensures bs[d].Valid() && bs[d] != bkt && forall x :: x in bs[d].chain ==> x !in chains[b]
    {
      DisjointChains(slot, bs, els, b, d);
    }
    PlacedNow(slot, bs, chains, els);
    ChainWithout(slot, chains, els, b, k);
    ValidElsewhere(slot, bs, els, b);
    hide Placed, PlacedIn, Holds;
    bkt.Remove(e, k);
    HoldsAgain(slot, bs, chains[b := Without(chains[b], k)], els - {e});
  }

  lemma ValidElsewhere<K, V>(slot: nat -> nat, bs: seq<Bucket<K, V>>, els: set<Element<K, V>>, b: nat)
    requires Holds(slot, bs, els) && b < |bs|
    ensures Distinct(bs) && bs[b].Valid() && forall x :: x in bs[b].chain ==> x in els
  {
    ChainHolds(slot, bs, els, b);
  }

  lemma HoldsAgain<K, V>(slot: nat -> nat, bs: seq<Bucket<K, V>>, chains: seq<seq<Element<K, V>>>,
                         els: set<Element<K, V>>)
    requires Distinct(bs) && forall d :: 0 <= d < |bs| ==> bs[d].Valid()
    requires |chains| == |bs| && forall d :: 0 <= d < |bs| ==> bs[d].chain == chains[d]
    requires PlacedIn(slot, chains, els)
    ensures Holds(slot, bs, els)
  {
    PlacedNow(slot, bs, chains, els);
  }

  // The counters in the buckets.
  ghost predicate Shows<K, V>(bs: seq<Bucket<K, V>>, counts: seq<nat>, mults: seq<nat>)
    reads bs`count, bs`expandMult
  {
    && |counts| == |mults| == |bs|
    && forall b :: 0 <= b < |bs| ==> bs[b].count == counts[b] && bs[b].expandMult == mults[b]
  }

  // The counters of buckets into which m items have been redistributed.
  ghost predicate Spread(counts: seq<nat>, mults: seq<nat>, ideal: nat, nonideal: nat, m: nat) {
    && ideal > 0
    && |mults| == |counts| && (forall b :: 0 <= b < |counts| ==> IsMult(counts[b], mults[b], ideal))
    && nonideal == SumExcess(counts, ideal)
    && Sum(counts) == m
  }

  lemma SpreadStep(counts: seq<nat>, mults: seq<nat>, ideal: nat, nonideal: nat, m: nat, b: nat)
    requires Spread(counts, mults, ideal, nonideal, m) && b < |counts|
    ensures var c := counts[b] + 1;
            Spread(counts[b := c], mults[b := if c > ideal then MultOf(c, ideal) else mults[b]], ideal,
                   nonideal + (if c > ideal then 1 else 0), m + 1)
  {
    hide MultOf, Quotient, Sum, SumExcess;
    SumUpdate(counts, b, counts[b] + 1);
    SumExcessUpdate(counts, b, counts[b] + 1, ideal);
    MultIs(counts[b] + 1, ideal);
  }

  // One turn of HASH_EXPAND_BUCKETS's inner loop.
  method MoveTo<K, V>(bkt: Bucket<K, V>, e: Element<K, V>, ideal: nat, nonideal0: nat,
      ghost slot: nat -> nat, ghost bs: seq<Bucket<K, V>>, ghost els: set<Element<K, V>>,
      ghost counts0: seq<nat>, ghost mults0: seq<nat>, ghost m: nat)
      returns (nonideal: nat, ghost counts: seq<nat>, ghost mults: seq<nat>)
    requires Holds(slot, bs, els) && e !in els
    requires slot(e.hashv) < |bs| && bkt == bs[slot(e.hashv)]
    requires Shows(bs, counts0, mults0) && Spread(counts0, mults0, ideal, nonideal0, m)
    modifies bkt, e`hhNext, e`hhPrev, els`hhPrev
    ensures Holds(slot, bs, els + {e})
    ensures Shows(bs, counts, mults) && Spread(counts, mults, ideal, nonideal, m + 1)
  {
    hide Holds, Spread;
    BucketsApart(slot, bs, els);
    ghost var b := slot(e.hashv);
    SpreadStep(counts0, mults0, ideal, nonideal0, m, b);
    PushInto(bkt, e, slot, bs, els);
    nonideal := bkt.Tally(ideal, nonideal0);
    counts := counts0[b := bkt.count];
    mults := mults0[b := bkt.expandMult];
  }

  ghost function SetOf<T>(s: seq<T>): set<T> {
    set x | x in s
  }

  // The forward half of Chained: all that a traversal needs.
  ghost predicate NextLinked<K, V>(c: seq<Element<K, V>>)
    reads c`hhNext
  {
    && Distinct(c)
    && forall i {:trigger c[i].hhNext} :: 0 <= i < |c| ==> c[i].hhNext == At(c, i + 1)
  }

  // HASH_EXPAND_BUCKETS's inner loop: move one old chain.
  method MoveChain<K, V>(h: Element?<K, V>, news: seq<Bucket<K, V>>, ideal: nat, nonideal0: nat,
      ghost c: seq<Element<K, V>>, ghost slot: nat -> nat, ghost els: set<Element<K, V>>,
      ghost counts0: seq<nat>, ghost mults0: seq<nat>, ghost m: nat)
      returns (nonideal: nat, ghost counts: seq<nat>, ghost mults: seq<nat>)
    requires h == At(c, 0) && NextLinked(c) && SetOf(c) !! els
    requires |news| > 0
    requires forall n: nat {:trigger slot(n)} :: slot(n) == ToBkt(n, |news|)
    requires Holds(slot, news, els)
    requires Shows(news, counts0, mults0) && Spread(counts0, mults0, ideal, nonideal0, m)
    modifies news, c`hhNext, c`hhPrev, els`hhPrev
    ensures Holds(slot, news, els + SetOf(c))
    ensures Shows(news, counts, mults) && Spread(counts, mults, ideal, nonideal, m + |c|)
  {
    hide Holds, Shows, Spread, ToBkt;
    nonideal, counts, mults := nonideal0, counts0, mults0;
    var thh := h;
    ghost var j := 0;
    assert els + SetOf(c[..0]) == els;
    while thh != null
      invariant 0 <= j <= |c| && thh == At(c, j)
      invariant forall i {:trigger c[i].hhNext} :: j <= i < |c| ==> c[i].hhNext == At(c, i + 1)
      invariant Holds(slot, news, els + SetOf(c[..j]))
      invariant Shows(news, counts, mults) && Spread(counts, mults, ideal, nonideal, m + j)
      decreases |c| - j
    {
      var nxt := thh.hhNext;
      assert forall i :: j < i < |c| ==> c[i] != thh;
      assert thh !in els + SetOf(c[..j]);
      assert els + SetOf(c[..j]) + {thh} == els + SetOf(c[..j + 1]);
      var b := ToBkt(thh.hashv, |news|);
      assert b == slot(thh.hashv);
      nonideal, counts, mults := MoveTo(news[b], thh, ideal, nonideal, slot, news, els + SetOf(c[..j]),
                                         counts, mults, m + j);
      thh := nxt;
      j := j + 1;
    }
    assert c[..j] == c;
  }

  // The elements of the first b buckets.
  ghost function Below<K, V>(slot: nat -> nat, els: set<Element<K, V>>, b: nat): set<Element<K, V>>
    reads els`hashv
  {
    set e | e in els && slot(e.hashv) < b
  }

  lemma BelowStep<K, V>(slot: nat -> nat, bs: seq<Bucket<K, V>>, els: set<Element<K, V>>, b: nat)
    requires Placed(slot, bs, els) && b < |bs|
    ensures SetOf(bs[b].chain) <= els && Below(slot, els, b) <= els
    ensures SetOf(bs[b].chain) !! Below(slot, els, b)
    ensures Below(slot, els, b) + SetOf(bs[b].chain) == Below(slot, els, b + 1)
  {
    forall x | x in bs[b].chain ensures x in els && slot(x.hashv) == b {
      var i :| 0 <= i < |bs[b].chain| && bs[b].chain[i] == x;
    }
  }

  lemma BelowNone<K, V>(slot: nat -> nat, els: set<Element<K, V>>)
    ensures Below(slot, els, 0) == {}
  {}

  lemma BelowAll<K, V>(slot: nat -> nat, bs: seq<Bucket<K, V>>, els: set<Element<K, V>>)
    requires Placed(slot, bs, els)
    ensures Below(slot, els, |bs|) == els
  {}

  lemma {:induction false} SumPrefix(s: seq<nat>, b: nat)
    requires b < |s|
    ensures Sum(s[..b + 1]) == Sum(s[..b]) + s[b]
  {
    if b == 0 {
      assert s[..1][1..] == [];
    } else {
      assert s[..b + 1][1..] == s[1..][..b] && s[..b][1..] == s[1..][..b - 1];
      SumPrefix(s[1..], b - 1);
    }
  }

  lemma ChainsOf<K, V>(slot: nat -> nat, bs: seq<Bucket<K, V>>, els: set<Element<K, V>>)
    requires Holds(slot, bs, els)
    ensures Placed(slot, bs, els)
    ensures forall b :: 0 <= b < |bs| ==>
      NextLinked(bs[b].chain) && bs[b].hhHead == At(bs[b].chain, 0) && bs[b].count == |bs[b].chain|
  {}

  // HASH_EXPAND_BUCKETS's loop over the old buckets.
  method Redistribute<K, V>(olds: seq<Bucket<K, V>>, news: seq<Bucket<K, V>>, ideal: nat,
      ghost slot0: nat -> nat, ghost slot: nat -> nat, ghost els: set<Element<K, V>>,
      ghost counts0: seq<nat>, ghost mults0: seq<nat>)
      returns (nonideal: nat, ghost counts: seq<nat>, ghost mults: seq<nat>)
    requires forall b :: 0 <= b < |olds| ==> olds[b] !in news
    requires Holds(slot0, olds, els) && |counts0| == |olds|
    requires forall b :: 0 <= b < |olds| ==> olds[b].count == counts0[b]
    requires |news| > 0
    requires forall n: nat {:trigger slot(n)} :: slot(n) == ToBkt(n, |news|)
    requires Holds(slot, news, {})
    requires Shows(news, mults0, mults0) && Spread(mults0, mults0, ideal, 0, 0)
    modifies news, els`hhNext, els`hhPrev
    ensures Holds(slot, news, els)
    ensures Shows(news, counts, mults) && Spread(counts, mults, ideal, nonideal, Sum(counts0))
  {
    hide Holds, Placed, Shows, Spread, ToBkt, Below, NextLinked;
    ChainsOf(slot0, olds, els);
    nonideal, counts, mults := 0, mults0, mults0;
    var b := 0;
    BelowNone(slot0, els);
    while b < |olds|
      invariant 0 <= b <= |olds| && Placed(slot0, olds, els)
      invariant Holds(slot, news, Below(slot0, els, b))
      invariant Shows(news, counts, mults) && Spread(counts, mults, ideal, nonideal, Sum(counts0[..b]))
      invariant forall k :: b <= k < |olds| ==> NextLinked(olds[k].chain)
    {
      ghost var c := olds[b].chain;
      BelowStep(slot0, olds, els, b);
      SumPrefix(counts0, b);
      forall k | b < k < |olds| ensures forall x :: x in olds[k].chain ==> x !in c {
        DisjointChains(slot0, olds, els, b, k);
      }
      nonideal, counts, mults := MoveChain(olds[b].hhHead, news, ideal, nonideal, c, slot,
                                           Below(slot0, els, b), counts, mults, Sum(counts0[..b]));
      b := b + 1;
    }
    BelowAll(slot0, olds, els);
    assert counts0[..b] == counts0;
  }
}
