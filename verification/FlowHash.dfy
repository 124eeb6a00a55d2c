// flowhash.h: the per-flow records that both user-space agents keep.
module FlowHash {
  import opened Buckets
  import opened UtHash

  datatype FlowKey = FlowKey(srcIp: int, dstIp: int, srcPort: int, dstPort: int)
  datatype FlowVal = FlowVal(sequenceNumber: int, acked: int)

  class FlowRecords {
    const records: Table<FlowKey, FlowVal>
    ghost var flows: map<FlowKey, FlowVal>

    ghost predicate Valid()
      reads this, records, records.buckets, records.order
    {
      records.Valid() && Represents(records.order, flows)
    }

    ghost function Repr(): set<object>
      reads this, records
    {
      {this} + records.Repr()
    }

    constructor (hash: FlowKey -> nat)
      ensures Valid() && flows == map[] && fresh(Repr())
    {
      records := new Table<FlowKey, FlowVal>(hash);
      flows := map[];
    }

    method FindItem(key: FlowKey) returns (ret: Element?<FlowKey, FlowVal>)
      requires Valid()
      ensures ret == null <==> key !in flows
      ensures ret != null ==> ret in records.order && ret.key == key && ret.val == flows[key]
    {
      ret := records.Find(key);
      FindRefines(records.order, flows, key, ret);
    }

    // Overwrite a record in place.
    method Update(e: Element<FlowKey, FlowVal>, val: FlowVal)
      requires Valid() && e in records.order
      modifies this, e`val
      ensures Valid() && flows == old(flows)[e.key := val] && e.val == val
      ensures records.Repr() == old(records.Repr())
    {
      hide Table.Valid;
      e.val := val;
      flows := flows[e.key := val];
    }

    // addItem: a new record, or the old one with acked reset.
    method AddItem(key: FlowKey, sequenceNumber: int)
      requires Valid()
      modifies Repr()
      ensures Valid() && fresh(Repr() - old(Repr()))
      ensures flows == old(flows)[key := FlowVal(sequenceNumber, 0)]
    {
      hide Table.Valid, Represents;
      var ret := FindItem(key);
      if ret == null {
        var e := new Element(key, FlowVal(sequenceNumber, 0));
        ghost var s := records.order;
        ghost var step := records.Add(e);
        AddRefines(s, flows, e);
        flows := flows[key := e.val];
      } else {
        Update(ret, FlowVal(sequenceNumber, 0));
      }
    }

    // clearHash
    method ClearHash()
      requires Valid()
      modifies Repr()
      ensures Valid() && flows == map[] && Repr() <= old(Repr())
    {
      var n := records.Clear();
      flows := map[];
    }
  }
}
