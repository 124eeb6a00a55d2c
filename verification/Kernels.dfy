// The three kernel modules: their tables at load time, their netlink commands
// and the hooks that overwrite addresses in a packet's header.
module Kernels {
  import opened Rules
  import opened KernelTable

  class SkBuff {
    var tcp: bool
    var saddr: int
    var daddr: int
    var source: int
    var dest: int

    ghost function Hdr(): Header
      reads this
    {
      Header(tcp, saddr, daddr, source, dest)
    }

    constructor (tcp: bool, saddr: int, daddr: int, source: int, dest: int)
      ensures Hdr() == Header(tcp, saddr, daddr, source, dest)
    {
      this.tcp, this.saddr, this.daddr, this.source, this.dest := tcp, saddr, daddr, source, dest;
    }
  }

  // What every init function does: an empty table, then two records.
  method LoadTable(hash: RuleKey -> nat, ghost multi: set<RuleKey>, k1: RuleKey, r1: Rule, k2: RuleKey, r2: Rule)
      returns (table: RuleTable)
    requires k1 != k2
    ensures table.Valid() && table.multi == multi && fresh(table.Repr())
    ensures table.rules == map[k1 := r1, k2 := r2]
  {
    hide RuleTable.Valid;
    table := new RuleTable(hash, multi);
    table.Insert(k1, r1);
    table.Insert(k2, r2);
  }

  class ClientKernel {
    const table: RuleTable
    ghost var history: seq<Command>  // the commands so far

    ghost predicate Valid()
      reads this, table, table.records, table.records.buckets, table.records.order
    {
      table.Valid() && table.multi == {CLIENT_NEW_KEY} && table.rules == ClientRules(history)
    }

    // pkt_mangle_init
    constructor (hash: RuleKey -> nat)
      ensures Valid() && table.rules == ClientInit() && history == [] && fresh(table.Repr())
    {
      hide RuleTable.Valid, RuleTable.Repr;
      var t := LoadTable(hash, {CLIENT_NEW_KEY}, CLIENT_OUT_KEY, Rule(0, HOST_106), CLIENT_OLD_KEY, Rule(HOST_108, 0));
      table := t;
      history := [];
    }

    // netlink_agent
    method NetlinkAgent(c: Command)
      requires Valid()
      modifies table.Repr(), this`history
      ensures Valid() && fresh(table.Repr() - old(table.Repr()))
      ensures table.rules == ClientCommand(old(table.rules), c) && history == old(history) + [c]
    {
      hide RuleTable.Valid, ClientRules;
      ClientRulesAre(history);
      ClientRulesNext(history, c);
      history := history + [c];
      match c {
        case Ack => table.Redirect(CLIENT_OUT_KEY, HOST_109);
        case Syn => table.Insert(CLIENT_NEW_KEY, Rule(HOST_108, 0));
        case Reset =>
          ghost var states := ResetRules();
          ResetWindow(old(table.rules), Header(false, 0, 0, 0, 0));
        case Other =>
      }
    }

    // RESET: four separately locked steps, and what each leaves.
    method ResetRules() returns (ghost states: seq<RuleMap>)
      requires table.Valid() && table.multi == {CLIENT_NEW_KEY}
      modifies table.Repr()
      ensures table.Valid() && fresh(table.Repr() - old(table.Repr()))
      ensures states == ResetStates(old(table.rules)) && table.rules == states[3]
    {
      hide RuleTable.Valid;
      ghost var m := table.rules;
      table.DeleteHash(CLIENT_OUT_KEY);
      states := [table.rules];
      table.AddHash(CLIENT_OUT_KEY, Rule(0, HOST_106));
      states := states + [table.rules];
      table.DeleteHash(CLIENT_OLD_KEY);
      states := states + [table.rules];
      table.AddHash(CLIENT_OLD_KEY, Rule(HOST_108, 0));
      states := states + [table.rules];
    }

    // outgoing_begin
    method OutgoingBegin(skb: SkBuff)
      requires Valid()
      modifies skb`daddr
      ensures skb.Hdr() == ClientOut(table.rules, old(skb.Hdr()))
      ensures skb.Hdr() == ClientEmits(history, old(skb.Hdr()))
    {
      hide RuleTable.Valid, ClientRules;
      ClientHooks(history, skb.Hdr());
      if skb.tcp {
        var p := table.Lookup(RuleKey(0, skb.daddr, 0, skb.dest));
        if p != null {
          skb.daddr := p.val.dst;
        }
      }
    }

    // incoming_begin and tcp_header_write_prerouting
    method IncomingBegin(skb: SkBuff)
      requires Valid()
      modifies skb`saddr
      ensures skb.Hdr() == ClientIn(table.rules, old(skb.Hdr()))
      ensures skb.Hdr() == ClientShows(history, old(skb.Hdr()))
    {
      hide RuleTable.Valid, ClientRules;
      ClientHooks(history, skb.Hdr());
      if skb.tcp {
        var p := table.Lookup(RuleKey(skb.saddr, 0, skb.source, 0));
        if p != null {
          skb.saddr := p.val.src;
        }
      }
    }

    // pkt_mangle_exit
    method Exit() returns (counter: nat)
      requires Valid()
      modifies table.Repr()
      ensures table.Valid() && table.rules == map[] && counter == |old(table.records.order)|
    {
      counter := table.Unload();
    }
  }

  class ServerKernel {
    const table: RuleTable
    ghost var history: seq<Command>  // the commands so far

    ghost predicate Valid()
      reads this, table, table.records, table.records.buckets, table.records.order
    {
      table.Valid() && table.multi == {} && table.rules == ServerRules(history)
    }

    constructor (hash: RuleKey -> nat)
      ensures Valid() && table.rules == ServerInit() && history == [] && fresh(table.Repr())
    {
      hide RuleTable.Valid, RuleTable.Repr;
      var t := LoadTable(hash, {}, SERVER_OUT_KEY, Rule(0, HOST_106), SERVER_OLD_KEY, Rule(HOST_107, 0));
      table := t;
      history := [];
    }

    // hello_nl_recv_msg
    method NetlinkAgent(c: Command)
      requires Valid()
      modifies table.Repr(), this`history
      ensures Valid() && fresh(table.Repr() - old(table.Repr()))
      ensures table.rules == ServerCommand(old(table.rules), c) && history == old(history) + [c]
    {
      hide RuleTable.Valid, ServerRules;
      ServerRulesNext(history, c);
      history := history + [c];
      if c == Ack {
        table.Redirect(SERVER_OUT_KEY, HOST_109);
      }
      if c == Syn {
        table.AddHash(SERVER_NEW_KEY, Rule(HOST_107, 0));
      } else if c == Reset {
        table.AddHash(SERVER_OUT_KEY, Rule(0, HOST_106));
      }
    }

    method OutgoingBegin(skb: SkBuff)
      requires Valid()
      modifies skb`daddr
      ensures skb.Hdr() == ServerOut(table.rules, old(skb.Hdr()))
      ensures skb.Hdr() == ServerEmits(history, old(skb.Hdr()))
    {
      hide RuleTable.Valid, ServerRules;
      ServerHooks(history, skb.Hdr());
      if skb.tcp {
        var p := table.Lookup(RuleKey(0, skb.daddr, skb.source, 0));
        if p != null {
          skb.daddr := p.val.dst;
        }
      }
    }

    method IncomingBegin(skb: SkBuff)
      requires Valid()
      modifies skb`saddr
      ensures skb.Hdr() == ServerIn(table.rules, old(skb.Hdr()))
      ensures skb.Hdr() == ServerShows(history, old(skb.Hdr()))
    {
      hide RuleTable.Valid, ServerRules;
      ServerHooks(history, skb.Hdr());
      if skb.tcp {
        var p := table.Lookup(RuleKey(skb.saddr, 0, 0, skb.dest));
        if p != null {
          skb.saddr := p.val.src;
        }
      }
    }

    method Exit() returns (counter: nat)
      requires Valid()
      modifies table.Repr()
      ensures table.Valid() && table.rules == map[] && counter == |old(table.records.order)|
    {
      counter := table.Unload();
    }
  }

  class MiddleboxKernel {
    const own: int
    const table: RuleTable

    ghost predicate Valid()
      reads table, table.records, table.records.buckets, table.records.order
    {
      table.Valid() && table.multi == {} && table.rules == BoxInit(own)
    }

    constructor (own: int, hash: RuleKey -> nat)
      ensures Valid() && this.own == own && fresh(table.Repr())
    {
      this.own := own;
      hide RuleTable.Valid, RuleTable.Repr;
      var t := LoadTable(hash, {}, RuleKey(HOST_107, 0, 0, PORT), Rule(own, HOST_108),
                         RuleKey(HOST_108, 0, PORT, 0), Rule(own, HOST_107));
      table := t;
    }

    // incoming_change_begin and tcp_header_write_prerouting
    method IncomingChangeBegin(skb: SkBuff)
      requires Valid()
      modifies skb`daddr
      ensures skb.Hdr() == BoxIn(BoxInit(own), old(skb.Hdr()))
      ensures var h := old(skb.Hdr());
              skb.Hdr() == if FromClientHost(h) then h.(daddr := HOST_108)
                           else if FromServerHost(h) then h.(daddr := HOST_107)
                           else h
    {
      hide RuleTable.Valid;
      BoxHooks(own, skb.Hdr());
      if skb.tcp {
        var p := table.Lookup(RuleKey(skb.saddr, 0, skb.source, 0));
        if p != null {
          skb.daddr := p.val.dst;
          return;
        }
        p := table.Lookup(RuleKey(skb.saddr, 0, 0, skb.dest));
        if p != null {
          skb.daddr := p.val.dst;
        }
      }
    }

    // outgoing_change_begin and tcp_header_rewrite
    method OutgoingChangeBegin(skb: SkBuff)
      requires Valid()
      modifies skb`saddr
      ensures skb.Hdr() == BoxOut(BoxInit(own), old(skb.Hdr()))
      ensures var h := old(skb.Hdr());
              skb.Hdr() == if FromClientHost(h) || FromServerHost(h) then h.(saddr := own) else h
    {
      hide RuleTable.Valid;
      BoxHooks(own, skb.Hdr());
      if skb.tcp {
        var p := table.Lookup(RuleKey(skb.saddr, 0, 0, skb.dest));
        if p != null {
          skb.saddr := p.val.src;
          return;
        }
        p := table.Lookup(RuleKey(skb.saddr, 0, skb.source, 0));
        if p != null {
          skb.saddr := p.val.src;
        }
      }
    }

    // The way of one packet through the box.
    method Forward(skb: SkBuff)
      requires Valid()
      modifies skb
      ensures skb.Hdr() == Box(own, old(skb.Hdr()))
      ensures var h := old(skb.Hdr());
              skb.Hdr() == if FromClientHost(h) then h.(saddr := own, daddr := HOST_108)
                           else if FromServerHost(h) then h.(saddr := own, daddr := HOST_107)
                           else h
    {
      BoxHooks(own, skb.Hdr());
      IncomingChangeBegin(skb);
      OutgoingChangeBegin(skb);
    }

    method Exit() returns (counter: nat)
      requires Valid()
      modifies table.Repr()
      ensures table.Valid() && table.rules == map[] && counter == |old(table.records.order)|
    {
      counter := table.Unload();
    }
  }
}
