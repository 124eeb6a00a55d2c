// HASH_SRT's bottom-up mergesort on sequences: what each pass computes, and
// that the whole is a stable sort.  UtHash.Table.Sort relinks the elements in
// place and is proved to produce exactly Sort(order, 1).
module ListSort {

  function Min(a: nat, b: nat): nat {
    if a <= b then a else b
  }

  // Merge two runs, taking from the first on ties.
  function Merge<T>(leq: (T, T) -> bool, a: seq<T>, b: seq<T>): (m: seq<T>)
    ensures |m| == |a| + |b|
    decreases |a| + |b|
  {
    if a == [] then b
    else if b == [] then a
    else if leq(a[0], b[0]) then [a[0]] + Merge(leq, a[1..], b)
    else [b[0]] + Merge(leq, a, b[1..])
  }

  // A pass's first two runs and the rest.
  function Runs<T>(s: seq<T>, k: nat): (r: (seq<T>, seq<T>, seq<T>))
    requires k > 0
    ensures s == r.0 + r.1 + r.2
    ensures s != [] ==> |r.2| < |s|
  {
    var i, j := Min(k, |s|), Min(2 * k, |s|);
    (s[..i], s[i..j], s[j..])
  }

  // One pass: merge neighbouring runs of k.
  function Pass<T>(leq: (T, T) -> bool, s: seq<T>, k: nat): (m: seq<T>)
    requires k > 0
    ensures |m| == |s|
    decreases |s|
  {
    if s == [] then []
    else
      var (a, b, r) := Runs(s, k);
      Merge(leq, a, b) + Pass(leq, r, k)
  }

  // Passes with doubling run size until a single merge covers the list.
  function Sort<T>(leq: (T, T) -> bool, s: seq<T>, k: nat): (m: seq<T>)
    requires k > 0
    ensures |m| == |s|
    decreases if |s| > k then |s| - k else 0
  {
    if |s| <= 2 * k then Pass(leq, s, k) else Sort(leq, Pass(leq, s, k), 2 * k)
  }

  // leq is a total preorder on dom.
  ghost predicate TotalPreorder<T>(leq: (T, T) -> bool, dom: set<T>) {
    && (forall x, y :: x in dom && y in dom ==> leq(x, y) || leq(y, x))
    && (forall x, y, z :: x in dom && y in dom && z in dom && leq(x, y) && leq(y, z) ==> leq(x, z))
  }

  ghost predicate Over<T>(s: seq<T>, dom: set<T>) {
    forall x :: x in s ==> x in dom
  }

  ghost predicate Sorted<T>(leq: (T, T) -> bool, s: seq<T>) {
    forall i, j :: 0 <= i < j < |s| ==> leq(s[i], s[j])
  }

  // The elements of s that tie with x, in order.
  ghost function Ties<T>(leq: (T, T) -> bool, s: seq<T>, x: T): seq<T> {
    if s == [] then []
    else (if leq(x, s[0]) && leq(s[0], x) then [s[0]] else []) + Ties(leq, s[1..], x)
  }

  lemma {:induction false} TiesConcat<T>(leq: (T, T) -> bool, a: seq<T>, b: seq<T>, x: T)
    ensures Ties(leq, a + b, x) == Ties(leq, a, x) + Ties(leq, b, x)
  {
    if a == [] {
      assert a + b == b;
    } else {
      assert (a + b)[1..] == a[1..] + b;
      TiesConcat(leq, a[1..], b, x);
    }
  }

  lemma {:induction false} TiesNone<T>(leq: (T, T) -> bool, s: seq<T>, x: T)
    requires forall i :: 0 <= i < |s| ==> !(leq(x, s[i]) && leq(s[i], x))
    ensures Ties(leq, s, x) == []
  {
    if s != [] { TiesNone(leq, s[1..], x); }
  }

  lemma ConcatMultiset<T>(a: seq<T>, b: seq<T>)
    ensures multiset(a + b) == multiset(a) + multiset(b)
  {}

  lemma {:induction false} MergePermutes<T>(leq: (T, T) -> bool, a: seq<T>, b: seq<T>)
    ensures multiset(Merge(leq, a, b)) == multiset(a) + multiset(b)
    decreases |a| + |b|
  {
    if a != [] && b != [] {
      if leq(a[0], b[0]) {
        MergePermutes(leq, a[1..], b);
        ConsMoves(a, b, Merge(leq, a[1..], b));
      } else {
        MergePermutes(leq, a, b[1..]);
        ConsMoves(b, a, Merge(leq, a, b[1..]));
      }
    }
  }

  lemma ConsMoves<T>(a: seq<T>, b: seq<T>, m: seq<T>)
    requires a != [] && multiset(m) == multiset(a[1..]) + multiset(b)
    ensures multiset([a[0]] + m) == multiset(a) + multiset(b)
  {
    assert a == [a[0]] + a[1..];
  }

  lemma {:induction false} MergeSorts<T>(leq: (T, T) -> bool, dom: set<T>, a: seq<T>, b: seq<T>)
    requires TotalPreorder(leq, dom) && Over(a, dom) && Over(b, dom) && Sorted(leq, a) && Sorted(leq, b)
    ensures Sorted(leq, Merge(leq, a, b))
    decreases |a| + |b|
  {
    if a != [] && b != [] {
      if leq(a[0], b[0]) {
        MergeSorts(leq, dom, a[1..], b);
        HeadFirst(leq, a[0], a[1..], b);
      } else {
        MergeSorts(leq, dom, a, b[1..]);
        HeadFirst(leq, b[0], a, b[1..]);
      }
    }
  }

  // x before a sorted merge whose members it precedes.
  lemma HeadFirst<T>(leq: (T, T) -> bool, x: T, a: seq<T>, b: seq<T>)
    requires Sorted(leq, Merge(leq, a, b))
    requires forall y :: y in a || y in b ==> leq(x, y)
    ensures Sorted(leq, [x] + Merge(leq, a, b))
  {
    MergePermutes(leq, a, b);
    var m := Merge(leq, a, b);
    forall y | y in m ensures leq(x, y) {
      assert y in multiset(m);
    }
  }

  lemma {:induction false} TiesCons<T>(leq: (T, T) -> bool, y: T, s: seq<T>, x: T)
    ensures Ties(leq, [y] + s, x) == Ties(leq, [y], x) + Ties(leq, s, x)
  {
    TiesConcat(leq, [y], s, x);
  }

  // Nothing in a sorted run ties with what strictly precedes its head.
  lemma TiesPast<T>(leq: (T, T) -> bool, dom: set<T>, a: seq<T>, y: T, x: T)
    requires TotalPreorder(leq, dom) && Over(a, dom) && x in dom && y in dom
    requires Sorted(leq, a) && a != [] && !leq(a[0], y)
    ensures Ties(leq, a, x) == [] || Ties(leq, [y], x) == []
  {
    if leq(x, y) && leq(y, x) {
      forall i | 0 <= i < |a| ensures !(leq(x, a[i]) && leq(a[i], x)) {
        assert leq(a[0], a[i]) || i == 0;
      }
      TiesNone(leq, a, x);
    } else {
      assert Ties(leq, [y][1..], x) == [];
    }
  }

  lemma SortedTail<T>(leq: (T, T) -> bool, s: seq<T>)
    requires Sorted(leq, s) && s != []
    ensures Sorted(leq, s[1..]) && s == [s[0]] + s[1..]
  {}

  lemma {:induction false} MergeStable<T>(leq: (T, T) -> bool, dom: set<T>, a: seq<T>, b: seq<T>, x: T)
    requires TotalPreorder(leq, dom) && Over(a, dom) && Over(b, dom) && x in dom && Sorted(leq, a) && Sorted(leq, b)
    ensures Ties(leq, Merge(leq, a, b), x) == Ties(leq, a, x) + Ties(leq, b, x)
    decreases |a| + |b|
  {
    hide TotalPreorder, Sorted, Ties;
    if a == [] || b == [] {
      TiesConcat(leq, a, b, x);
      assert a + b == Merge(leq, a, b);
    } else if leq(a[0], b[0]) {
      SortedTail(leq, a);
      MergeStable(leq, dom, a[1..], b, x);
      TiesCons(leq, a[0], Merge(leq, a[1..], b), x);
      TiesCons(leq, a[0], a[1..], x);
    } else {
      SortedTail(leq, b);
      MergeStable(leq, dom, a, b[1..], x);
      TiesCons(leq, b[0], Merge(leq, a, b[1..]), x);
      TiesCons(leq, b[0], b[1..], x);
      TiesPast(leq, dom, a, b[0], x);
    }
  }

  // Every run of k that a pass starts from is sorted.
  ghost predicate RunsSorted<T>(leq: (T, T) -> bool, s: seq<T>, k: nat)
    requires k > 0
    decreases |s|
  {
    s == [] || (Sorted(leq, s[..Min(k, |s|)]) && RunsSorted(leq, s[Min(k, |s|)..], k))
  }

  lemma {:induction false} OnesSorted<T>(leq: (T, T) -> bool, s: seq<T>)
    ensures RunsSorted(leq, s, 1)
    decreases |s|
  {
    if s != [] { OnesSorted(leq, s[1..]); }
  }

  lemma RunsSplit<T>(leq: (T, T) -> bool, s: seq<T>, k: nat)
    requires k > 0 && s != [] && RunsSorted(leq, s, k)
    ensures var (a, b, r) := Runs(s, k);
            Sorted(leq, a) && Sorted(leq, b) && RunsSorted(leq, r, k)
  {
    var (a, b, r) := Runs(s, k);
    var t := s[Min(k, |s|)..];
    assert b == t[..Min(k, |t|)] && r == t[Min(k, |t|)..];
  }

  lemma {:induction false} PassPermutes<T>(leq: (T, T) -> bool, s: seq<T>, k: nat)
    requires k > 0
    ensures multiset(Pass(leq, s, k)) == multiset(s)
    decreases |s|
  {
    if s != [] {
      var (a, b, r) := Runs(s, k);
      MergePermutes(leq, a, b);
      PassPermutes(leq, r, k);
      ConcatMultiset(Merge(leq, a, b), Pass(leq, r, k));
      ConcatMultiset(a + b, r);
      ConcatMultiset(a, b);
    }
  }

  // A pass doubles the sorted runs...
  lemma {:induction false} PassDoubles<T>(leq: (T, T) -> bool, dom: set<T>, s: seq<T>, k: nat)
    requires k > 0 && TotalPreorder(leq, dom) && Over(s, dom) && RunsSorted(leq, s, k)
    ensures RunsSorted(leq, Pass(leq, s, k), 2 * k)
    decreases |s|
  {
    hide Merge, Sorted;
    if s != [] {
      var (a, b, r) := Runs(s, k);
      RunsSplit(leq, s, k);
      PassDoubles(leq, dom, r, k);
      MergeSorts(leq, dom, a, b);
      var m, p := Merge(leq, a, b), Pass(leq, r, k);
      assert (m + p)[..|m|] == m && (m + p)[|m|..] == p;
    }
  }

  // ... and keeps ties in order.
  lemma {:induction false} PassStable<T>(leq: (T, T) -> bool, dom: set<T>, s: seq<T>, k: nat, x: T)
    requires k > 0 && TotalPreorder(leq, dom) && Over(s, dom) && x in dom && RunsSorted(leq, s, k)
    ensures Ties(leq, Pass(leq, s, k), x) == Ties(leq, s, x)
    decreases |s|
  {
    hide Merge, Sorted, Ties;
    if s != [] {
      var (a, b, r) := Runs(s, k);
      RunsSplit(leq, s, k);
      PassStable(leq, dom, r, k, x);
      MergeStable(leq, dom, a, b, x);
      TiesConcat(leq, a + b, r, x);
      TiesConcat(leq, a, b, x);
      TiesConcat(leq, Merge(leq, a, b), Pass(leq, r, k), x);
    }
  }

  lemma {:induction false} RunsOne<T>(leq: (T, T) -> bool, s: seq<T>, k: nat)
    requires k > 0 && |s| <= k && RunsSorted(leq, s, k)
    ensures Sorted(leq, s)
  {
    assert s[..|s|] == s;
  }

  lemma OverPermuted<T>(s: seq<T>, t: seq<T>, dom: set<T>)
    requires Over(s, dom) && multiset(t) == multiset(s)
    ensures Over(t, dom)
  {
    forall x | x in t ensures x in dom {
      assert x in multiset(t);
    }
  }

  lemma {:induction false} SortFrom<T>(leq: (T, T) -> bool, dom: set<T>, s: seq<T>, k: nat, x: T)
    requires k > 0 && TotalPreorder(leq, dom) && Over(s, dom) && x in dom && RunsSorted(leq, s, k)
    ensures Sorted(leq, Sort(leq, s, k))
    ensures Ties(leq, Sort(leq, s, k), x) == Ties(leq, s, x)
    decreases if |s| > k then |s| - k else 0
  {
    hide Pass, Ties, TotalPreorder, Over, RunsSorted, Sorted;
    PassDoubles(leq, dom, s, k);
    PassStable(leq, dom, s, k, x);
    PassPermutes(leq, s, k);
    OverPermuted(s, Pass(leq, s, k), dom);
    if |s| <= 2 * k {
      RunsOne(leq, Pass(leq, s, k), 2 * k);
    } else {
      SortFrom(leq, dom, Pass(leq, s, k), 2 * k, x);
    }
  }

  lemma {:induction false} SortPermutes<T>(leq: (T, T) -> bool, s: seq<T>, k: nat)
    requires k > 0
    ensures multiset(Sort(leq, s, k)) == multiset(s)
    decreases if |s| > k then |s| - k else 0
  {
    PassPermutes(leq, s, k);
    if |s| > 2 * k { SortPermutes(leq, Pass(leq, s, k), 2 * k); }
  }

  lemma SortNone<T>(leq: (T, T) -> bool, s: seq<T>)
    requires s == []
    ensures Sort(leq, s, 1) == s
  {}

  // For any total preorder on the list's elements: sorted, a permutation, and
  // ties keep their order.
  lemma SortIsStableSort<T>(leq: (T, T) -> bool, s: seq<T>)
    requires TotalPreorder(leq, set x | x in s)
    ensures Sorted(leq, Sort(leq, s, 1))
    ensures multiset(Sort(leq, s, 1)) == multiset(s)
    ensures forall x :: x in s ==> Ties(leq, Sort(leq, s, 1), x) == Ties(leq, s, x)
  {
    var dom := set x | x in s;
    SortPermutes(leq, s, 1);
    OnesSorted(leq, s);
    forall x | x in s ensures Ties(leq, Sort(leq, s, 1), x) == Ties(leq, s, x) {
      SortFrom(leq, dom, s, 1, x);
    }
    if s != [] { SortFrom(leq, dom, s, 1, s[0]); }
  }
}
