// The kernel modules' record table: a uthash table that a plain HASH_ADD can
// leave holding several records with one key.
module KernelTable {
  import opened Buckets
  import opened UtHash
  import opened Rules

  type Record = Element<RuleKey, Rule>

  // Every record carries its key's rule, so it does not matter which of
  // several records with one key a lookup meets first.  Only keys in multi
  // have several.
  ghost predicate Agrees(s: seq<Record>, m: RuleMap, multi: set<RuleKey>)
    reads s`val
  {
    && (forall i :: 0 <= i < |s| ==> s[i].key in m && s[i].val == m[s[i].key])
    && (forall k :: k in m ==> exists i :: 0 <= i < |s| && s[i].key == k)
    && (forall i, j :: 0 <= i < j < |s| && s[i].key == s[j].key ==> s[i].key in multi)
  }

  // Lookup results do not depend on chain order or expansion.
  lemma AnyFindAgrees(s: seq<Record>, m: RuleMap, multi: set<RuleKey>, key: RuleKey, out: Element?<RuleKey, Rule>)
    requires Agrees(s, m, multi)
    requires out == null ==> forall e :: e in s ==> e.key != key
    requires out != null ==> out in s && out.key == key
    ensures out == null <==> key !in m
    ensures out != null ==> out.val == m[key]
  {}

  lemma AgreesNone(s: seq<Record>, multi: set<RuleKey>)
    requires s == []
    ensures Agrees(s, map[], multi)
  {}

  lemma AgreesAdd(s: seq<Record>, m: RuleMap, multi: set<RuleKey>, e: Record)
    requires Agrees(s, m, multi)
    requires e.key in m ==> e.key in multi && m[e.key] == e.val
    ensures Agrees(s + [e], m[e.key := e.val], multi)
  {
    var t, n := s + [e], m[e.key := e.val];
    forall k | k in n ensures exists i :: 0 <= i < |t| && t[i].key == k {
      if k == e.key {
        assert t[|s|].key == k;
      } else {
        var i :| 0 <= i < |s| && s[i].key == k;
        assert t[i].key == k;
      }
    }
  }

  ghost predicate Several(s: seq<Record>, key: RuleKey) {
    exists i, j :: 0 <= i < j < |s| && s[i].key == key && s[j].key == key
  }

  lemma OnlyMultiSeveral(s: seq<Record>, m: RuleMap, multi: set<RuleKey>, key: RuleKey)
    requires Agrees(s, m, multi)
    ensures Several(s, key) ==> key in multi
  {}

  lemma AbsentNotSeveral(s: seq<Record>, m: RuleMap, multi: set<RuleKey>, key: RuleKey)
    requires Agrees(s, m, multi) && key !in m
    ensures !Several(s, key)
  {}

  // The last record of a key takes the rule with it ...
  lemma AgreesDelete(s: seq<Record>, m: RuleMap, multi: set<RuleKey>, k: nat)
    requires Agrees(s, m, multi) && k < |s| && !Several(s, s[k].key)
    ensures Agrees(Without(s, k), m - {s[k].key}, multi)
  {
    WithoutAt(s, k);
    var t, n := Without(s, k), m - {s[k].key};
    forall i | 0 <= i < |t| ensures t[i].key in n && t[i].val == n[t[i].key] {
      var j := if i < k then i else i + 1;
      assert t[i] == s[j] && s[j].key != s[k].key;
    }
    forall x | x in n ensures exists i :: 0 <= i < |t| && t[i].key == x {
      var i :| 0 <= i < |s| && s[i].key == x;
      assert t[if i < k then i else i - 1].key == x;
    }
  }

  // ... any other leaves the rule to its duplicates.
  lemma AgreesDeleteOne(s: seq<Record>, m: RuleMap, multi: set<RuleKey>, k: nat)
    requires Agrees(s, m, multi) && k < |s| && Several(s, s[k].key)
    ensures Agrees(Without(s, k), m, multi)
  {
    WithoutAt(s, k);
    var t := Without(s, k);
    forall x | x in m ensures exists i :: 0 <= i < |t| && t[i].key == x {
      var i :| 0 <= i < |s| && i != k && s[i].key == x;
      assert t[if i < k then i else i - 1].key == x;
    }
  }

  class RuleTable {
    const records: Table<RuleKey, Rule>
    ghost const multi: set<RuleKey>
    ghost var rules: RuleMap

    ghost predicate Valid()
      reads this, records, records.buckets, records.order
    {
      records.Valid() && Agrees(records.order, rules, multi)
    }

    ghost function Repr(): set<object>
      reads this, records
    {
      {this} + records.Repr()
    }

    constructor (hash: RuleKey -> nat, ghost multi: set<RuleKey>)
      ensures Valid() && rules == map[] && this.multi == multi && fresh(Repr())
    {
      hide Table.Valid, Agrees;
      var t := new Table<RuleKey, Rule>(hash);
      AgreesNone(t.order, multi);
      records := t;
      this.multi := multi;
      rules := map[];
    }

    // HASH_FIND under the read lock.
    method Lookup(key: RuleKey) returns (p: Element?<RuleKey, Rule>)
      requires Valid()
      ensures p == null <==> key !in rules
      ensures p != null ==> p in records.order && p.key == key && p.val == rules[key]
    {
      p := records.Find(key);
      AnyFindAgrees(records.order, rules, multi, key, p);
    }

    // kmalloc and HASH_ADD, with no check for an existing record.
    method Insert(key: RuleKey, r: Rule)
      requires Valid() && (key in rules ==> key in multi && rules[key] == r)
      modifies Repr()
      ensures Valid() && fresh(Repr() - old(Repr()))
      ensures rules == old(rules)[key := r]
    {
      hide Table.Valid, Agrees;
      var e := new Element(key, r);
      ghost var s := records.order;
      ghost var step := records.Add(e);
      AgreesAdd(s, rules, multi, e);
      rules := rules[key := r];
    }

    // addHash
    method AddHash(key: RuleKey, r: Rule)
      requires Valid()
      modifies Repr()
      ensures Valid() && fresh(Repr() - old(Repr()))
      ensures rules == AddAbsent(old(rules), key, r)
    {
      hide Table.Valid, Agrees;
      var p := Lookup(key);
      if p == null {
        Insert(key, r);
      }
    }

    // deleteHash frees one record: with duplicates the key keeps its rule.
    method DeleteHash(key: RuleKey)
      requires Valid()
      modifies Repr()
      ensures Valid() && Repr() <= old(Repr())
      ensures rules == if old(Several(records.order, key)) then old(rules) else old(rules) - {key}
      ensures key !in multi ==> rules == old(rules) - {key}
    {
      hide Table.Valid, Agrees, Several;
      var p := Lookup(key);
      if p != null {
        ghost var s := records.order;
        ghost var k :| 0 <= k < |s| && s[k] == p;
        ghost var step := records.Delete(p, k);
        OnlyMultiSeveral(s, rules, multi, key);
        DistinctWithoutSet(s, k);
        if Several(s, key) {
          AgreesDeleteOne(s, rules, multi, k);
        } else {
          AgreesDelete(s, rules, multi, k);
          rules := rules - {key};
        }
      } else {
        AbsentNotSeveral(records.order, rules, multi, key);
      }
    }

    // p->dst = dst under the write lock.
    method Redirect(key: RuleKey, dst: int)
      requires Valid() && key !in multi
      modifies Repr()
      ensures Valid() && Repr() == old(Repr())
      ensures rules == SetDst(old(rules), key, dst)
    {
      hide Table.Valid;
      var p := Lookup(key);
      if p != null {
        p.val := p.val.(dst := dst);
        rules := rules[key := rules[key].(dst := dst)];
      }
    }

    // The exit loop: every record is deleted exactly once.
    method Unload() returns (counter: nat)
      requires Valid()
      modifies Repr()
      ensures Valid() && rules == map[] && counter == |old(records.order)|
    {
      counter := records.Clear();
      rules := map[];
    }
  }

  lemma DistinctWithoutSet<T>(s: seq<T>, k: nat)
    requires k < |s|
    ensures SetOf(Without(s, k)) <= SetOf(s)
  {
    WithoutAt(s, k);
  }
}
