// The Internet checksum (sections 1 and 2 of RFC 1071) in its two forms:
// comp_chksum folds the carries in a loop, csum folds exactly twice.
module Checksum {

  type Word16 = x: int | 0 <= x < 0x1_0000

  const ALL_ONES: Word16 := 0xFFFF

  // Ones'-complement addition: the carry comes round.
  function OnesAdd(a: Word16, b: Word16): Word16 {
    if a + b > ALL_ONES then a + b - ALL_ONES else a + b
  }

  function OnesSum(ws: seq<Word16>): Word16 {
    if ws == [] then 0 else OnesAdd(OnesSum(ws[..|ws| - 1]), ws[|ws| - 1])
  }

  // The ordinary sum, carries deferred.
  function Total(ws: seq<Word16>): nat {
    if ws == [] then 0 else Total(ws[..|ws| - 1]) + ws[|ws| - 1]
  }

  // (sum >> 16) + (sum & 0xffff)
  function Fold(s: nat): nat {
    s / 0x1_0000 + s % 0x1_0000
  }

  // What csum returns for an accumulated sum.
  function FoldTwice(s: nat): Word16 {
    var s1 := Fold(s);
    var s2 := s1 + s1 / 0x1_0000;
    ALL_ONES - s2 % 0x1_0000
  }

  // The one number from 0 to 0xFFFF that is 0 for 0 and otherwise positive and
  // congruent to s modulo 0xFFFF.
  function Canon(s: nat): Word16 {
    if s == 0 then 0 else (s - 1) % 0xFFFF + 1
  }

  lemma CanonUnique(s: nat, r: Word16, q: int)
    requires s == r + 0xFFFF * q && (r == 0 <==> s == 0)
    ensures Canon(s) == r
  {
    if s > 0 {
      assert s - 1 == (r - 1) + 0xFFFF * q;
    }
  }

  lemma CanonWitness(s: nat) returns (q: nat)
    ensures s == Canon(s) + 0xFFFF * q
  {
    q := if s == 0 then 0 else (s - 1) / 0xFFFF;
  }

  lemma FoldKeepsCanon(s: nat)
    ensures Canon(Fold(s)) == Canon(s)
  {
    var q := CanonWitness(Fold(s));
    var hi := s / 0x1_0000;
    assert s == Fold(s) + 0xFFFF * hi;
    CanonUnique(s, Canon(Fold(s)), q + hi);
  }

  lemma CanonAdd(s: nat, w: Word16)
    ensures Canon(s + w) == OnesAdd(Canon(s), w)
  {
    var q := CanonWitness(s);
    if Canon(s) + w > ALL_ONES {
      CanonUnique(s + w, OnesAdd(Canon(s), w), q + 1);
    } else {
      CanonUnique(s + w, OnesAdd(Canon(s), w), q);
    }
  }

  // Deferring the carries is allowed.
  lemma {:induction false} DeferredCarries(ws: seq<Word16>)
    ensures OnesSum(ws) == Canon(Total(ws))
  {
    if ws != [] {
      var n := |ws| - 1;
      DeferredCarries(ws[..n]);
      CanonAdd(Total(ws[..n]), ws[n]);
    }
  }

  // comp_chksum; on an odd length it reads one whole word more.
  method CompChksum(addr: array<Word16>, length: int) returns (c: Word16)
    requires (length + 1) / 2 <= addr.Length
    ensures length > 0 ==> c == ALL_ONES - OnesSum(addr[..(length + 1) / 2])
    ensures length <= 0 ==> c == ALL_ONES
  {
    var sum: int := 0;
    var len, p := length, 0;
    while len > 1
      invariant 0 <= p && len == length - 2 * p && (len >= 0 || p == 0) && 0 <= sum
      invariant p <= addr.Length && sum == Total(addr[..p])
    {
      assert addr[..p + 1][..p] == addr[..p];
      sum := sum + addr[p];
      p := p + 1;
      len := len - 2;
    }
    if len > 0 {
      assert addr[..p + 1][..p] == addr[..p];
      sum := sum + addr[p];
      p := p + 1;
    }
    assert length > 0 ==> p == (length + 1) / 2;
    DeferredCarries(addr[..p]);
    ghost var total := sum;
    while sum / 0x1_0000 != 0
      invariant sum >= 0 && Canon(sum) == Canon(total)
      decreases sum
    {
      FoldKeepsCanon(sum);
      sum := sum % 0x1_0000 + sum / 0x1_0000;
    }
    CanonUnique(sum, sum, 0);
    c := ALL_ONES - sum;
  }

  method Csum(buf: array<Word16>, nwords: int) returns (c: Word16)
    requires nwords <= buf.Length
    ensures nwords >= 0 ==> c == FoldTwice(Total(buf[..nwords]))
    ensures nwords < 0 ==> c == ALL_ONES
  {
    var sum: int := 0;
    var n, p := nwords, 0;
    while n > 0
      invariant 0 <= p && p + n == nwords && 0 <= sum && (n >= 0 || p == 0)
      invariant p <= buf.Length && sum == Total(buf[..p])
    {
      assert buf[..p + 1][..p] == buf[..p];
      sum := sum + buf[p];
      p, n := p + 1, n - 1;
    }
    sum := sum / 0x1_0000 + sum % 0x1_0000;
    sum := sum + sum / 0x1_0000;
    c := ALL_ONES - sum % 0x1_0000;
  }

  // Two folds leave no carry.
  predicate FoldsInTwo(s: nat) {
    Fold(Fold(s)) <= ALL_ONES
  }

  lemma {:induction false} TotalBound(ws: seq<Word16>)
    ensures Total(ws) <= 0xFFFF * |ws|
  {
    if ws != [] {
      TotalBound(ws[..|ws| - 1]);
    }
  }

  lemma FoldTwiceWhen(s: nat)
    requires s < 0x8000_0000 * 0x1_0000
    ensures FoldTwice(s) == ALL_ONES - Canon(s) <==> FoldsInTwo(s)
  {
    hide Canon;
    var s1 := Fold(s);
    var t := Fold(s1);
    FoldKeepsCanon(s);
    FoldKeepsCanon(s1);
    SecondFold(s1);
    if t <= ALL_ONES {
      CanonUnique(t, t, 0);
    } else {
      CanonUnique(t, t - 0xFFFF, 1);
    }
  }

  // csum's second fold drops the carry that a third one would add.
  lemma SecondFold(s1: nat)
    requires s1 < 0x8001_0000
    ensures (s1 + s1 / 0x1_0000) % 0x1_0000 == if Fold(s1) <= ALL_ONES then Fold(s1) else Fold(s1) - 0x1_0000
  {
    var a := s1 / 0x1_0000;
    assert s1 + a == 0x1_0000 * a + Fold(s1);
    assert a <= 0x8000;
  }

  // csum computes the checksum of RFC 1071 exactly when two folds are enough.
  // An int counts the words, so there are fewer than 2^31.
  lemma CsumWhen(ws: seq<Word16>)
    requires |ws| < 0x8000_0000
    ensures FoldTwice(Total(ws)) == ALL_ONES - OnesSum(ws) <==> FoldsInTwo(Total(ws))
  {
    TotalBound(ws);
    DeferredCarries(ws);
    assert Total(ws) < 0x8000_0000 * 0x1_0000;
    FoldTwiceWhen(Total(ws));
  }

  // Both forms on one buffer of nwords words, the whole buffer included.
  method BothChecksums(buf: array<Word16>, nwords: nat) returns (two: Word16, loop: Word16)
    requires nwords <= buf.Length && nwords < 0x8000_0000
    ensures loop == ALL_ONES - OnesSum(buf[..nwords])
    ensures two == loop <==> FoldsInTwo(Total(buf[..nwords]))
    ensures nwords <= 65538 ==> two == loop
  {
    two := Csum(buf, nwords);
    loop := CompChksum(buf, 2 * nwords);
    assert nwords == 0 ==> buf[..nwords] == [];
    CsumWhen(buf[..nwords]);
    if nwords <= 65538 {
      CsumIsChecksum(buf[..nwords]);
    }
  }

  // Two folds are enough for any 65538 words ...
  lemma CsumIsChecksum(ws: seq<Word16>)
    requires |ws| <= 65538
    ensures FoldTwice(Total(ws)) == ALL_ONES - OnesSum(ws)
  {
    TotalBound(ws);
    CsumWhen(ws);
    var s := Total(ws);
    assert s <= 0xFFFF * 65538;
    assert s / 0x1_0000 <= 0x1_0000;
  }

  function Repeat(w: Word16, n: nat): (ws: seq<Word16>)
    ensures |ws| == n
  {
    seq(n, i => w)
  }

  lemma {:induction false} TotalRepeat(w: Word16, n: nat)
    ensures Total(Repeat(w, n)) == w * n
  {
    if n > 0 {
      TotalRepeat(w, n - 1);
      assert Repeat(w, n)[..n - 1] == Repeat(w, n - 1);
    }
  }

  // ... and not for every 65539 words.
  lemma CsumFailsBeyond() returns (ws: seq<Word16>)
    ensures |ws| == 65539
    ensures FoldTwice(Total(ws)) != ALL_ONES - OnesSum(ws)
  {
    var full := Repeat(ALL_ONES, 65538);
    ws := full + [1];
    TotalRepeat(ALL_ONES, 65538);
    assert ws[..65538] == full;
    assert Total(ws) == 0x1_0000_FFFF;
    CsumWhen(ws);
  }

  // ----- the order of the words does not matter -----

  lemma {:induction false} TotalConcat(a: seq<Word16>, b: seq<Word16>)
    ensures Total(a + b) == Total(a) + Total(b)
  {
    if b == [] {
      assert a + b == a;
    } else {
      var n := |b| - 1;
      TotalConcat(a, b[..n]);
      assert (a + b)[..|a + b| - 1] == a + b[..n];
    }
  }

  lemma {:induction false} TotalPermuted(a: seq<Word16>, b: seq<Word16>)
    requires multiset(a) == multiset(b)
    ensures Total(a) == Total(b)
  {
    if a == [] {
      assert |multiset(b)| == 0;
    } else {
      var w, n := a[|a| - 1], |a| - 1;
      assert a == a[..n] + [w];
      assert w in multiset(b);
      var k :| 0 <= k < |b| && b[k] == w;
      TakenOut(a[..n], b, k);
      TotalPermuted(a[..n], b[..k] + b[k + 1..]);
      TotalWithout(b, k);
    }
  }

  lemma TakenOut(a: seq<Word16>, b: seq<Word16>, k: nat)
    requires k < |b| && multiset(a + [b[k]]) == multiset(b)
    ensures multiset(a) == multiset(b[..k] + b[k + 1..])
  {
    assert b == b[..k] + [b[k]] + b[k + 1..];
    assert multiset(b) == multiset(b[..k] + b[k + 1..]) + multiset{b[k]};
    assert multiset(a) == multiset(a + [b[k]]) - multiset{b[k]};
  }

  lemma TotalWithout(b: seq<Word16>, k: nat)
    requires k < |b|
    ensures Total(b) == Total(b[..k] + b[k + 1..]) + b[k]
  {
    assert (b[..k] + [b[k]])[..k] == b[..k];
    assert Total(b[..k] + [b[k]]) == Total(b[..k]) + b[k];
    assert b == b[..k] + [b[k]] + b[k + 1..];
    hide Total;
    TotalConcat(b[..k], b[k + 1..]);
    TotalConcat(b[..k] + [b[k]], b[k + 1..]);
  }

  lemma ChecksumPermuted(a: seq<Word16>, b: seq<Word16>)
    requires multiset(a) == multiset(b)
    ensures OnesSum(a) == OnesSum(b) && FoldTwice(Total(a)) == FoldTwice(Total(b))
  {
    TotalPermuted(a, b);
    DeferredCarries(a);
    DeferredCarries(b);
  }

  // ----- the receiver's check -----

  // Put into a word that was zero, the checksum makes the sum all ones, so
  // checking the whole gives zero.
  lemma ChecksumVerifies(ws: seq<Word16>, k: nat)
    requires k < |ws| && ws[k] == 0
    ensures OnesSum(ws[k := ALL_ONES - OnesSum(ws)]) == ALL_ONES
  {
    var c := ALL_ONES - OnesSum(ws);
    var ws' := ws[k := c];
    var a, b := ws[..k], ws[k + 1..];
    assert ws == a + [0] + b && ws' == a + [c] + b;
    TotalConcat(a + [0], b);
    TotalConcat(a + [c], b);
    assert (a + [0])[..k] == a && (a + [c])[..k] == a;
    DeferredCarries(ws);
    DeferredCarries(ws');
    var q := CanonWitness(Total(ws));
    CanonUnique(Total(ws'), ALL_ONES, q);
  }

  lemma CsumVerifies(ws: seq<Word16>, k: nat)
    requires k < |ws| <= 65538 && ws[k] == 0
    ensures FoldTwice(Total(ws[k := FoldTwice(Total(ws))])) == 0
  {
    CsumIsChecksum(ws);
    CsumIsChecksum(ws[k := FoldTwice(Total(ws))]);
    ChecksumVerifies(ws, k);
  }
}
