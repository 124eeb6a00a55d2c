// HASH_SRT's loops: the merges relink next and prev in place, consuming the
// old list from the front while the new one grows behind it.
module Relink {
  import opened Buckets
  import opened ListSort

  // A comparison function looks at two records' contents.
  type Comparison<!K, !V> = (K, V, K, V) -> int

  // What the elements of s hold.
  ghost function ValsOf<K, V>(s: seq<Element<K, V>>): map<Element<K, V>, V>
    reads s`val
  {
    map e | e in s :: e.val
  }

  // cmp <= 0 on elements that hold vals.
  ghost function LeqOf<K, V>(cmp: Comparison<K, V>, vals: map<Element<K, V>, V>)
      : (Element<K, V>, Element<K, V>) -> bool
  {
    (x: Element<K, V>, y: Element<K, V>) => x in vals && y in vals && cmp(x.key, vals[x], y.key, vals[y]) <= 0
  }

  // The elements of s still hold vals.
  ghost predicate Hold<K, V>(s: seq<Element<K, V>>, vals: map<Element<K, V>, V>)
    reads s`val
  {
    forall i :: 0 <= i < |s| ==> s[i] in vals && vals[s[i]] == s[i].val
  }

  // The new list so far; the last element's next is still a leftover.
  ghost predicate Growing<K, V>(out: seq<Element<K, V>>)
    reads out`next, out`prev
  {
    && Distinct(out)
    && (forall i {:trigger out[i].next} :: 0 <= i < |out| - 1 ==> out[i].next == out[i + 1])
    && (forall i {:trigger out[i].prev} :: 0 <= i < |out| ==> out[i].prev == At(out, i - 1))
  }

  // The old list from position i up to position j.
  ghost predicate Intact<K, V>(orig: seq<Element<K, V>>, i: int, j: int)
    requires 0 <= i && j <= |orig|
    reads orig`next
  {
    forall k {:trigger orig[k].next} :: i <= k < j ==> orig[k].next == At(orig, k + 1)
  }

  // None of the old list from position i up to position j is in the new one.
  ghost predicate Apart<T>(out: seq<T>, orig: seq<T>, i: int, j: int)
    requires 0 <= i && j <= |orig|
  {
    forall k :: i <= k < j ==> orig[k] !in out
  }

  method Append<K, V>(list0: Element?<K, V>, tl: Element?<K, V>, e: Element<K, V>, ghost out: seq<Element<K, V>>)
      returns (list: Element?<K, V>)
    requires Growing(out) && e !in out
    requires list0 == At(out, 0) && tl == At(out, |out| - 1)
    modifies out`next, e`prev
    ensures Growing(out + [e])
    ensures list == At(out + [e], 0)
  {
    list := list0;
    if tl != null {
      tl.next := e;
    } else {
      list := e;
    }
    e.prev := tl;
  }

  // Where a merge stands: the new list out, and what is left of the two runs
  // orig[pi..pe] and orig[qi..], which share nothing with it.
  ghost predicate Merging<K, V>(out: seq<Element<K, V>>, orig: seq<Element<K, V>>, pi: nat, pe: nat, qi: nat)
    reads out`next, out`prev, orig`next
  {
    && pi <= pe <= qi <= |orig|
    && Growing(out)
    && Intact(orig, pi, pe) && Intact(orig, qi, |orig|)
    && Apart(out, orig, pi, pe) && Apart(out, orig, qi, |orig|)
  }

  // Append the head of the first or the second run.
  method Take<K, V>(list0: Element?<K, V>, tl: Element?<K, V>, e: Element<K, V>, ghost fromP: bool,
      ghost out: seq<Element<K, V>>, ghost orig: seq<Element<K, V>>, ghost pi: nat, ghost pe: nat, ghost qi: nat)
      returns (list: Element?<K, V>)
    requires Distinct(orig) && Merging(out, orig, pi, pe, qi)
    requires if fromP then pi < pe && orig[pi] == e else qi < |orig| && orig[qi] == e
    requires list0 == At(out, 0) && tl == At(out, |out| - 1)
    modifies out`next, e`prev
    ensures list == At(out + [e], 0)
    ensures if fromP then Merging(out + [e], orig, pi + 1, pe, qi) else Merging(out + [e], orig, pi, pe, qi + 1)
  {
    list := Append(list0, tl, e, out);
  }

  lemma TakeFirst<T>(leq: (T, T) -> bool, s: seq<T>, pi: nat, pe: nat, qi: nat, qe: nat)
    requires pi < pe <= |s| && qi <= qe <= |s|
    requires qi == qe || leq(s[pi], s[qi])
    ensures Merge(leq, s[pi..pe], s[qi..qe]) == [s[pi]] + Merge(leq, s[pi + 1..pe], s[qi..qe])
  {
    assert s[pi..pe][1..] == s[pi + 1..pe];
    assert s[pi..pe] == [s[pi]] + s[pi + 1..pe];
  }

  lemma TakeSecond<T>(leq: (T, T) -> bool, s: seq<T>, pi: nat, pe: nat, qi: nat, qe: nat)
    requires pi <= pe <= |s| && qi < qe <= |s|
    requires pi == pe || !leq(s[pi], s[qi])
    ensures Merge(leq, s[pi..pe], s[qi..qe]) == [s[qi]] + Merge(leq, s[pi..pe], s[qi + 1..qe])
  {
    assert s[qi..qe][1..] == s[qi + 1..qe];
    assert s[qi..qe] == [s[qi]] + s[qi + 1..qe];
  }

  lemma AppendOne<T>(out: seq<T>, x: T, rest: seq<T>)
    ensures out + ([x] + rest) == (out + [x]) + rest
  {}

  // The next element is the first run's unless that run is spent or the second
  // run's head comes strictly before its head.
  ghost predicate FromFirst<T>(leq: (T, T) -> bool, orig: seq<T>, pi: nat, pe: nat, qi: nat, qsize: nat)
    requires pi <= pe <= |orig| && qi <= |orig|
  {
    pi < pe && (qsize == 0 || qi == |orig| || leq(orig[pi], orig[qi]))
  }

  // Choose the next element and step past it.
  method Select<K, V>(p0: Element?<K, V>, q0: Element?<K, V>, psize0: nat, qsize0: nat,
      cmp: Comparison<K, V>, ghost vals: map<Element<K, V>, V>,
      ghost out: seq<Element<K, V>>, ghost orig: seq<Element<K, V>>, ghost pi: nat, ghost pe: nat, ghost qi: nat)
      returns (e: Element<K, V>, p: Element?<K, V>, q: Element?<K, V>, psize: nat, qsize: nat)
    requires Merging(out, orig, pi, pe, qi) && psize0 == pe - pi && Hold(orig, vals)
    requires p0 == At(orig, pi) && q0 == At(orig, qi)
    requires psize0 > 0 || (qsize0 > 0 && q0 != null)
    ensures pi <= pe <= |orig| && qi <= |orig|
    ensures var first := FromFirst(LeqOf(cmp, vals), orig, pi, pe, qi, qsize0);
            && e == At(orig, if first then pi else qi)
            && p == At(orig, if first then pi + 1 else pi) && q == At(orig, if first then qi else qi + 1)
            && psize == psize0 - (if first then 1 else 0) && qsize == qsize0 - (if first then 0 else 1)
  {
    p, q, psize, qsize := p0, q0, psize0, qsize0;
    if psize == 0 {
      e := q; q := q.next; qsize := qsize - 1;
    } else if qsize == 0 || q == null {
      e := p; p := p.next; psize := psize - 1;
    } else if cmp(p.key, p.val, q.key, q.val) <= 0 {
      e := p; p := p.next; psize := psize - 1;
    } else {
      e := q; q := q.next; qsize := qsize - 1;
    }
  }

  lemma TakeMerge<T>(leq: (T, T) -> bool, s: seq<T>, out: seq<T>, fromP: bool, pi: nat, pe: nat, qi: nat, qe: nat)
    requires pi <= pe <= |s| && qi <= qe <= |s|
    requires if fromP then pi < pe && (qi == qe || leq(s[pi], s[qi]))
             else qi < qe && (pi == pe || !leq(s[pi], s[qi]))
    ensures out + Merge(leq, s[pi..pe], s[qi..qe]) ==
            if fromP then out + [s[pi]] + Merge(leq, s[pi + 1..pe], s[qi..qe])
            else out + [s[qi]] + Merge(leq, s[pi..pe], s[qi + 1..qe])
  {
    hide Merge;
    if fromP {
      TakeFirst(leq, s, pi, pe, qi, qe);
      AppendOne(out, s[pi], Merge(leq, s[pi + 1..pe], s[qi..qe]));
    } else {
      TakeSecond(leq, s, pi, pe, qi, qe);
      AppendOne(out, s[qi], Merge(leq, s[pi..pe], s[qi + 1..qe]));
    }
  }

  // The innermost loop: merge the run of psize elements at p with the run of
  // up to insize elements at q.
  method MergeRuns<K, V>(p0: Element<K, V>, q0: Element?<K, V>, psize0: nat, insize: nat,
      list0: Element?<K, V>, tl0: Element?<K, V>, cmp: Comparison<K, V>, ghost vals: map<Element<K, V>, V>,
      ghost out0: seq<Element<K, V>>, ghost orig: seq<Element<K, V>>, ghost pi0: nat)
      returns (q: Element?<K, V>, list: Element?<K, V>, tl: Element?<K, V>, ghost out: seq<Element<K, V>>)
    requires Hold(orig, vals)
    requires Distinct(orig) && psize0 > 0 && Merging(out0, orig, pi0, pi0 + psize0, pi0 + psize0)
    requires p0 == orig[pi0] && q0 == At(orig, pi0 + psize0)
    requires list0 == At(out0, 0) && tl0 == At(out0, |out0| - 1)
    modifies out0`next, orig`next, orig`prev
    ensures var pe := pi0 + psize0; var qe := Min(pe + insize, |orig|);
            && Merging(out, orig, pe, pe, qe) && q == At(orig, qe)
            && out == out0 + Merge(LeqOf(cmp, vals), orig[pi0..pe], orig[pe..qe])
    ensures list == At(out, 0) && tl == At(out, |out| - 1)
    ensures forall i :: 0 <= i < |out| ==> out[i] in out0 || out[i] in orig
  {
    hide Merging, Merge, LeqOf, Hold, Distinct;
    ghost var leq := LeqOf(cmp, vals);
    var p: Element?<K, V> := p0;
    q, list, tl, out := q0, list0, tl0, out0;
    var psize, qsize := psize0, insize;
    MergingBounds(out, orig, pi0, pi0 + psize0, pi0 + psize0);
    ghost var pe := pi0 + psize0;
    ghost var qe := Min(pe + insize, |orig|);
    ghost var pi, qi := pi0, pe;
    ghost var target := out0 + Merge(leq, orig[pi0..pe], orig[pe..qe]);
    while psize > 0 || (qsize > 0 && q != null)
      invariant pi0 <= pi && psize == pe - pi && qsize == pe + insize - qi && pe <= qi <= qe
      invariant p == At(orig, pi) && q == At(orig, qi)
      invariant Merging(out, orig, pi, pe, qi)
      invariant out + Merge(leq, orig[pi..pe], orig[qi..qe]) == target
      invariant list == At(out, 0) && tl == At(out, |out| - 1)
      invariant forall i :: 0 <= i < |out| ==> out[i] in out0 || out[i] in orig
      decreases psize + qsize
    {
      ghost var fromP := FromFirst(leq, orig, pi, pe, qi, qsize);
      var e;
      e, p, q, psize, qsize := Select(p, q, psize, qsize, cmp, vals, out, orig, pi, pe, qi);
      list := Take(list, tl, e, fromP, out, orig, pi, pe, qi);
      TakeMerge(leq, orig, out, fromP, pi, pe, qi, qe);
      pi, qi := if fromP then pi + 1 else pi, if fromP then qi else qi + 1;
      out := out + [e];
      tl := e;
    }
    MergeNone(leq, orig, pe, qe, out);
  }

  lemma MergeNone<T>(leq: (T, T) -> bool, s: seq<T>, pe: nat, qe: nat, out: seq<T>)
    requires pe <= |s| && qe <= |s|
    ensures out + Merge(leq, s[pe..pe], s[qe..qe]) == out
  {}

  lemma MergingBounds<K, V>(out: seq<Element<K, V>>, orig: seq<Element<K, V>>, pi: nat, pe: nat, qi: nat)
    requires Merging(out, orig, pi, pe, qi)
    ensures pi <= pe <= qi <= |orig|
  {}

  // Step over a run of up to insize elements.
  method CountRun<K, V>(p: Element<K, V>, insize: nat, ghost orig: seq<Element<K, V>>, ghost pi: nat)
      returns (q: Element?<K, V>, psize: nat)
    requires insize > 0 && pi < |orig| && p == orig[pi] && Intact(orig, pi, |orig|)
    ensures psize == Min(insize, |orig| - pi) && q == At(orig, pi + psize)
  {
    q, psize := p, 0;
    for i := 0 to insize
      invariant psize == i < |orig| - pi && q == At(orig, pi + i)
    {
      psize := psize + 1;
      q := q.next;
      if q == null { break; }
    }
  }

  lemma AppendAll<T>(out: seq<T>, m: seq<T>, rest: seq<T>)
    ensures out + (m + rest) == (out + m) + rest
  {}

  lemma RunsAt<T>(s: seq<T>, pi: nat, k: nat)
    requires k > 0 && pi < |s|
    ensures var pe := pi + Min(k, |s| - pi); var qe := Min(pe + k, |s|);
            Runs(s[pi..], k) == (s[pi..pe], s[pe..qe], s[qe..])
  {
    var pe := pi + Min(k, |s| - pi);
    var qe := Min(pe + k, |s|);
    var t := s[pi..];
    assert t[..Min(k, |t|)] == s[pi..pe];
    assert t[Min(k, |t|)..Min(2 * k, |t|)] == s[pe..qe];
    assert t[Min(2 * k, |t|)..] == s[qe..];
  }

  lemma PassStep<T>(leq: (T, T) -> bool, out: seq<T>, s: seq<T>, pi: nat, k: nat)
    requires k > 0 && pi < |s|
    ensures var pe := pi + Min(k, |s| - pi); var qe := Min(pe + k, |s|);
            out + Pass(leq, s[pi..], k) == (out + Merge(leq, s[pi..pe], s[pe..qe])) + Pass(leq, s[qe..], k)
  {
    hide Merge, Runs;
    RunsAt(s, pi, k);
    var pe := pi + Min(k, |s| - pi);
    var qe := Min(pe + k, |s|);
    AppendAll(out, Merge(leq, s[pi..pe], s[pe..qe]), Pass(leq, s[qe..], k));
  }

  lemma PassNone<T>(leq: (T, T) -> bool, out: seq<T>, s: seq<T>, k: nat)
    requires k > 0
    ensures out + Pass(leq, s[|s|..], k) == out && [] + Pass(leq, s[0..], k) == Pass(leq, s, k)
  {
    assert s[0..] == s;
  }

  lemma MergingStart<K, V>(orig: seq<Element<K, V>>)
    requires Intact(orig, 0, |orig|)
    ensures Merging([], orig, 0, 0, 0)
  {}

  lemma MergingRun<K, V>(out: seq<Element<K, V>>, orig: seq<Element<K, V>>, pi: nat, pe: nat)
    requires Merging(out, orig, pi, pi, pi) && pi <= pe <= |orig|
    ensures Merging(out, orig, pi, pe, pe) && Intact(orig, pi, |orig|)
  {}

  lemma MergingSpent<K, V>(out: seq<Element<K, V>>, orig: seq<Element<K, V>>, pi: nat, qi: nat)
    requires Merging(out, orig, pi, pi, qi)
    ensures Merging(out, orig, qi, qi, qi)
  {}

  // One turn of the pass loop: merge the two runs that start at p.
  method MergeNext<K, V>(p: Element<K, V>, insize: nat, list0: Element?<K, V>, tl0: Element?<K, V>,
      cmp: Comparison<K, V>, ghost vals: map<Element<K, V>, V>,
      ghost out0: seq<Element<K, V>>, ghost orig: seq<Element<K, V>>, ghost pi: nat)
      returns (q: Element?<K, V>, list: Element?<K, V>, tl: Element?<K, V>,
               ghost out: seq<Element<K, V>>, ghost qe: nat)
    requires Hold(orig, vals)
    requires insize > 0 && Distinct(orig) && pi < |orig| && p == orig[pi]
    requires Merging(out0, orig, pi, pi, pi)
    requires list0 == At(out0, 0) && tl0 == At(out0, |out0| - 1)
    modifies out0`next, orig`next, orig`prev
    ensures qe == Min(pi + 2 * insize, |orig|) && q == At(orig, qe)
    ensures Merging(out, orig, qe, qe, qe)
    ensures out0 + Pass(LeqOf(cmp, vals), orig[pi..], insize) == out + Pass(LeqOf(cmp, vals), orig[qe..], insize)
    ensures list == At(out, 0) && tl == At(out, |out| - 1)
    ensures forall i :: 0 <= i < |out| ==> out[i] in out0 || out[i] in orig
  {
    hide Merging, Merge, LeqOf, Hold, Distinct, Pass, Intact;
    MergingRun(out0, orig, pi, |orig|);
    var psize;
    q, psize := CountRun(p, insize, orig, pi);
    MergingRun(out0, orig, pi, pi + psize);
    PassStep(LeqOf(cmp, vals), out0, orig, pi, insize);
    qe := Min(pi + psize + insize, |orig|);
    q, list, tl, out := MergeRuns(p, q, psize, insize, list0, tl0, cmp, vals, out0, orig, pi);
    MergingSpent(out, orig, pi + psize, qe);
  }

  // One pass over the list.
  method MergePass<K, V>(list0: Element?<K, V>, insize: nat, cmp: Comparison<K, V>,
      ghost vals: map<Element<K, V>, V>, ghost orig: seq<Element<K, V>>)
      returns (list: Element?<K, V>, tl: Element?<K, V>, nmerges: nat, ghost out: seq<Element<K, V>>)
    requires insize > 0 && orig != [] && Distinct(orig) && Intact(orig, 0, |orig|)
    requires list0 == At(orig, 0) && Hold(orig, vals)
    modifies orig`next, orig`prev
    ensures out == Pass(LeqOf(cmp, vals), orig, insize)
    ensures Merging(out, orig, |orig|, |orig|, |orig|)
    ensures list == At(out, 0) && tl == At(out, |out| - 1)
    ensures nmerges <= 1 <==> |orig| <= 2 * insize
  {
    hide Merging, Merge, LeqOf, Hold, Distinct, Pass, Intact;
    ghost var leq := LeqOf(cmp, vals);
    var p := list0;
    list, tl, nmerges, out := null, null, 0, [];
    ghost var pi := 0;
    MergingStart(orig);
    PassNone(leq, out, orig, insize);
    while p != null
      invariant pi <= |orig| && p == At(orig, pi)
      invariant Merging(out, orig, pi, pi, pi)
      invariant out + Pass(leq, orig[pi..], insize) == Pass(leq, orig, insize)
      invariant list == At(out, 0) && tl == At(out, |out| - 1)
      invariant forall i :: 0 <= i < |out| ==> out[i] in orig
      invariant nmerges == 0 ==> pi == 0
      invariant nmerges == 1 ==> pi == Min(2 * insize, |orig|)
      invariant nmerges > 1 ==> |orig| > 2 * insize
      decreases |orig| - pi
    {
      nmerges := nmerges + 1;
      p, list, tl, out, pi := MergeNext(p, insize, list, tl, cmp, vals, out, orig, pi);
    }
    PassNone(leq, out, orig, insize);
  }
}
