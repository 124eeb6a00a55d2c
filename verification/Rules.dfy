// The rewrite rules of the client, server and middlebox kernel modules: which
// records a netlink command leaves, and what a hook does to a packet's header.
module Rules {

  // 128.112.93.x
  const HOST_106: int := 0x80705D6A  // the old middlebox
  const HOST_107: int := 0x80705D6B  // the client
  const HOST_108: int := 0x80705D6C  // the server
  const HOST_109: int := 0x80705D6D  // the new middlebox
  const PORT: int := 5001            // the server's service port

  // record_key_t; lookups leave the fields they do not use at 0.
  datatype RuleKey = RuleKey(src: int, dst: int, sport: int, dport: int)

  // The addresses of a record_t.
  datatype Rule = Rule(src: int, dst: int)

  type RuleMap = map<RuleKey, Rule>

  datatype Command = Syn | Ack | Reset | Other

  datatype Header = Header(tcp: bool, saddr: int, daddr: int, sport: int, dport: int)

  // ----- client -----

  const CLIENT_OUT_KEY := RuleKey(0, HOST_108, 0, PORT)
  const CLIENT_NEW_KEY := RuleKey(HOST_109, 0, PORT, 0)
  const CLIENT_OLD_KEY := RuleKey(HOST_106, 0, PORT, 0)

  ghost function ClientInit(): RuleMap {
    map[CLIENT_OUT_KEY := Rule(0, HOST_106), CLIENT_OLD_KEY := Rule(HOST_108, 0)]
  }

  ghost function SetDst(m: RuleMap, k: RuleKey, dst: int): RuleMap {
    if k in m then m[k := m[k].(dst := dst)] else m
  }

  ghost function ClientCommand(m: RuleMap, c: Command): RuleMap {
    match c
    case Syn => m[CLIENT_NEW_KEY := Rule(HOST_108, 0)]
    case Ack => SetDst(m, CLIENT_OUT_KEY, HOST_109)
    case Reset => m[CLIENT_OUT_KEY := Rule(0, HOST_106)][CLIENT_OLD_KEY := Rule(HOST_108, 0)]
    case Other => m
  }

  ghost function ClientOut(m: RuleMap, h: Header): Header {
    var k := RuleKey(0, h.daddr, 0, h.dport);
    if h.tcp && k in m then h.(daddr := m[k].dst) else h
  }

  ghost function ClientIn(m: RuleMap, h: Header): Header {
    var k := RuleKey(h.saddr, 0, h.sport, 0);
    if h.tcp && k in m then h.(saddr := m[k].src) else h
  }

  // ----- server -----

  const SERVER_OUT_KEY := RuleKey(0, HOST_107, PORT, 0)
  const SERVER_NEW_KEY := RuleKey(HOST_109, 0, 0, PORT)
  const SERVER_OLD_KEY := RuleKey(HOST_106, 0, 0, PORT)

  ghost function ServerInit(): RuleMap {
    map[SERVER_OUT_KEY := Rule(0, HOST_106), SERVER_OLD_KEY := Rule(HOST_107, 0)]
  }

  // addHash: an existing record wins.
  ghost function AddAbsent(m: RuleMap, k: RuleKey, r: Rule): RuleMap {
    if k in m then m else m[k := r]
  }

  ghost function ServerCommand(m: RuleMap, c: Command): RuleMap {
    match c
    case Syn => AddAbsent(m, SERVER_NEW_KEY, Rule(HOST_107, 0))
    case Ack => SetDst(m, SERVER_OUT_KEY, HOST_109)
    case Reset => AddAbsent(m, SERVER_OUT_KEY, Rule(0, HOST_106))
    case Other => m
  }

  ghost function ServerOut(m: RuleMap, h: Header): Header {
    var k := RuleKey(0, h.daddr, h.sport, 0);
    if h.tcp && k in m then h.(daddr := m[k].dst) else h
  }

  ghost function ServerIn(m: RuleMap, h: Header): Header {
    var k := RuleKey(h.saddr, 0, 0, h.dport);
    if h.tcp && k in m then h.(saddr := m[k].src) else h
  }

  // ----- middlebox, at address own -----

  ghost function BoxInit(own: int): RuleMap {
    map[RuleKey(HOST_107, 0, 0, PORT) := Rule(own, HOST_108),
        RuleKey(HOST_108, 0, PORT, 0) := Rule(own, HOST_107)]
  }

  // Before routing: source-port record first, then destination-port record.
  ghost function BoxIn(m: RuleMap, h: Header): Header {
    var k1, k2 := RuleKey(h.saddr, 0, h.sport, 0), RuleKey(h.saddr, 0, 0, h.dport);
    if !h.tcp then h
    else if k1 in m then h.(daddr := m[k1].dst)
    else if k2 in m then h.(daddr := m[k2].dst)
    else h
  }

  // After routing: the other way round.
  ghost function BoxOut(m: RuleMap, h: Header): Header {
    var k1, k2 := RuleKey(h.saddr, 0, 0, h.dport), RuleKey(h.saddr, 0, h.sport, 0);
    if !h.tcp then h
    else if k1 in m then h.(saddr := m[k1].src)
    else if k2 in m then h.(saddr := m[k2].src)
    else h
  }

  ghost function Box(own: int, h: Header): Header {
    BoxOut(BoxInit(own), BoxIn(BoxInit(own), h))
  }

  // The connection's headers as the two applications write them.
  ghost predicate FromClient(h: Header) {
    h.tcp && h.saddr == HOST_107 && h.daddr == HOST_108 && h.dport == PORT
  }

  ghost predicate FromServer(h: Header) {
    h.tcp && h.saddr == HOST_108 && h.daddr == HOST_107 && h.sport == PORT
  }

  // A middlebox turns a packet addressed to itself into one from itself to the
  // other endpoint, whatever the client's port -- 5001 and 0 included, where
  // the two lookups could be taken for one another.
  lemma BoxRelays(own: int, h: Header)
    ensures FromClient(h) ==> Box(own, h.(daddr := own)) == h.(saddr := own)
    ensures FromServer(h) ==> Box(own, h.(daddr := own)) == h.(saddr := own)
  {
    var m := BoxInit(own);
    if FromClient(h) {
      assert RuleKey(HOST_107, 0, h.sport, 0) !in m;
      assert BoxIn(m, h.(daddr := own)) == h;
    }
    if FromServer(h) {
      assert RuleKey(HOST_108, 0, 0, h.dport) !in m;
      assert BoxIn(m, h.(daddr := own)) == h;
    }
  }

  // An endpoint shows its application the peer exactly when the accept rule for
  // the box is in its table with the peer's address; otherwise the box's own
  // address shows through.
  lemma ClientShowsPeer(m: RuleMap, h: Header, own: int)
    requires FromServer(h) && own != HOST_108
    ensures ClientIn(m, h.(saddr := own)) == h
            <==> RuleKey(own, 0, PORT, 0) in m && m[RuleKey(own, 0, PORT, 0)].src == HOST_108
  {
    if RuleKey(own, 0, PORT, 0) in m && m[RuleKey(own, 0, PORT, 0)].src == HOST_108 {
      assert ClientIn(m, h.(saddr := own)) == h;
    }
  }

  lemma ServerShowsPeer(m: RuleMap, h: Header, own: int)
    requires FromClient(h) && own != HOST_107
    ensures ServerIn(m, h.(saddr := own)) == h
            <==> RuleKey(own, 0, 0, PORT) in m && m[RuleKey(own, 0, 0, PORT)].src == HOST_107
  {
    if RuleKey(own, 0, 0, PORT) in m && m[RuleKey(own, 0, 0, PORT)].src == HOST_107 {
      assert ServerIn(m, h.(saddr := own)) == h;
    }
  }

  // ----- after any commands -----

  // What the commands cs, from the load-time table on, leave.
  ghost function ClientRules(cs: seq<Command>): RuleMap {
    if cs == [] then ClientInit() else ClientCommand(ClientRules(cs[..|cs| - 1]), cs[|cs| - 1])
  }

  ghost function ServerRules(cs: seq<Command>): RuleMap {
    if cs == [] then ServerInit() else ServerCommand(ServerRules(cs[..|cs| - 1]), cs[|cs| - 1])
  }

  // An ACK has come since the last RESET.
  ghost predicate AckStands(cs: seq<Command>) {
    exists i :: 0 <= i < |cs| && cs[i] == Ack && forall j :: i < j < |cs| ==> cs[j] != Reset
  }

  // The packets that the client's hooks rewrite, and how: those to the server's
  // port go to a box, those of a known box's port 5001 become the server's, and
  // all others are left alone.
  ghost function ClientEmits(cs: seq<Command>, h: Header): Header {
    if h.tcp && h.daddr == HOST_108 && h.dport == 5001
    then h.(daddr := if AckStands(cs) then HOST_109 else HOST_106)
    else h
  }

  ghost function ClientShows(cs: seq<Command>, h: Header): Header {
    if h.tcp && h.sport == 5001 && (h.saddr == HOST_106 || (h.saddr == HOST_109 && Syn in cs))
    then h.(saddr := HOST_108)
    else h
  }

  // The same at the server, which no RESET takes back.
  ghost function ServerEmits(cs: seq<Command>, h: Header): Header {
    if h.tcp && h.daddr == HOST_107 && h.sport == 5001
    then h.(daddr := if Ack in cs then HOST_109 else HOST_106)
    else h
  }

  ghost function ServerShows(cs: seq<Command>, h: Header): Header {
    if h.tcp && h.dport == 5001 && (h.saddr == HOST_106 || (h.saddr == HOST_109 && Syn in cs))
    then h.(saddr := HOST_107)
    else h
  }

  // A box rewrites what comes from either endpoint and names the server's port,
  // whomever it is addressed to.
  ghost predicate FromClientHost(h: Header) {
    h.tcp && h.saddr == HOST_107 && h.dport == 5001
  }

  ghost predicate FromServerHost(h: Header) {
    h.tcp && h.saddr == HOST_108 && h.sport == 5001
  }

  lemma {:induction false} ClientRulesAre(cs: seq<Command>)
    ensures var m := map[CLIENT_OUT_KEY := Rule(0, if AckStands(cs) then HOST_109 else HOST_106),
                         CLIENT_OLD_KEY := Rule(HOST_108, 0)];
            ClientRules(cs) == if Syn in cs then m[CLIENT_NEW_KEY := Rule(HOST_108, 0)] else m
  {
    if cs != [] {
      var n := |cs| - 1;
      ClientRulesAre(cs[..n]);
      assert cs == cs[..n] + [cs[n]];
      AckStandsNext(cs);
    }
  }

  lemma AckStandsNext(cs: seq<Command>)
    requires cs != []
    ensures var last := cs[|cs| - 1];
            AckStands(cs) <==> last == Ack || (last != Reset && AckStands(cs[..|cs| - 1]))
  {
    var n := |cs| - 1;
    if cs[n] == Ack {
      assert AckStands(cs);
    } else if AckStands(cs[..n]) {
      var i :| 0 <= i < n && cs[..n][i] == Ack && forall j :: i < j < n ==> cs[..n][j] != Reset;
      assert cs[i] == Ack;
    }
    if AckStands(cs) && cs[n] != Ack {
      var i :| 0 <= i < |cs| && cs[i] == Ack && forall j :: i < j < |cs| ==> cs[j] != Reset;
      assert cs[..n][i] == Ack;
      assert cs[n] != Reset;
    }
  }

  lemma {:induction false} ServerRulesAre(cs: seq<Command>)
    ensures var m := map[SERVER_OUT_KEY := Rule(0, if Ack in cs then HOST_109 else HOST_106),
                         SERVER_OLD_KEY := Rule(HOST_107, 0)];
            ServerRules(cs) == if Syn in cs then m[SERVER_NEW_KEY := Rule(HOST_107, 0)] else m
  {
    if cs != [] {
      var n := |cs| - 1;
      ServerRulesAre(cs[..n]);
      assert cs == cs[..n] + [cs[n]];
    }
  }

  lemma ClientRulesNext(cs: seq<Command>, c: Command)
    ensures ClientRules(cs + [c]) == ClientCommand(ClientRules(cs), c)
  {
    assert (cs + [c])[..|cs|] == cs;
  }

  lemma ServerRulesNext(cs: seq<Command>, c: Command)
    ensures ServerRules(cs + [c]) == ServerCommand(ServerRules(cs), c)
  {
    assert (cs + [c])[..|cs|] == cs;
  }

  // After any commands, every packet -- of this connection or not.
  lemma ClientHooks(cs: seq<Command>, h: Header)
    ensures ClientOut(ClientRules(cs), h) == ClientEmits(cs, h)
    ensures ClientIn(ClientRules(cs), h) == ClientShows(cs, h)
  {
    hide AckStands;
    ClientRulesAre(cs);
  }

  lemma ServerHooks(cs: seq<Command>, h: Header)
    ensures ServerOut(ServerRules(cs), h) == ServerEmits(cs, h)
    ensures ServerIn(ServerRules(cs), h) == ServerShows(cs, h)
  {
    ServerRulesAre(cs);
  }

  lemma BoxHooks(own: int, h: Header)
    ensures BoxIn(BoxInit(own), h) == if FromClientHost(h) then h.(daddr := HOST_108)
                                      else if FromServerHost(h) then h.(daddr := HOST_107)
                                      else h
    ensures BoxOut(BoxInit(own), h) == if FromClientHost(h) || FromServerHost(h) then h.(saddr := own) else h
    ensures Box(own, h) == if FromClientHost(h) then h.(saddr := own, daddr := HOST_108)
                           else if FromServerHost(h) then h.(saddr := own, daddr := HOST_107)
                           else h
  {
    var m := BoxInit(own);
    assert RuleKey(h.saddr, 0, h.sport, 0) in m <==> h.saddr == HOST_108 && h.sport == PORT;
    assert RuleKey(h.saddr, 0, 0, h.dport) in m <==> h.saddr == HOST_107 && h.dport == PORT;
  }

  // Whatever the table was, an ACK redirects an outgoing rule that is there, and
  // makes none where there is none.
  lemma AckRedirects(m: RuleMap, h: Header)
    ensures FromClient(h) ==>
              ClientOut(ClientCommand(m, Ack), h) == if CLIENT_OUT_KEY in m then h.(daddr := HOST_109) else h
    ensures FromServer(h) ==>
              ServerOut(ServerCommand(m, Ack), h) == if SERVER_OUT_KEY in m then h.(daddr := HOST_109) else h
  {
    assert FromClient(h) ==> RuleKey(0, h.daddr, 0, h.dport) == CLIENT_OUT_KEY;
    assert FromServer(h) ==> RuleKey(0, h.daddr, h.sport, 0) == SERVER_OUT_KEY;
  }

  // ----- RESET -----

  // Whatever the table was, RESET sends the client's packets through the old box
  // again and shows that box's as the server's; the accept rule for the new box
  // stays as it was.
  lemma ResetRestores(m: RuleMap, h: Header)
    ensures FromClient(h) ==> ClientOut(ClientCommand(m, Reset), h) == h.(daddr := HOST_106)
    ensures FromServer(h) ==> ClientIn(ClientCommand(m, Reset), h.(saddr := HOST_106)) == h
    ensures FromServer(h) ==>
              ClientIn(ClientCommand(m, Reset), h.(saddr := HOST_109)) == ClientIn(m, h.(saddr := HOST_109))
  {
    assert FromClient(h) ==> RuleKey(0, h.daddr, 0, h.dport) == CLIENT_OUT_KEY;
    assert FromServer(h) ==> RuleKey(HOST_106, 0, h.sport, 0) == CLIENT_OLD_KEY;
  }

  // At the server it does so only when the outgoing rule is missing.
  lemma ServerResetRestores(m: RuleMap, h: Header)
    requires FromServer(h)
    ensures ServerOut(ServerCommand(m, Reset), h)
            == if SERVER_OUT_KEY in m then ServerOut(m, h) else h.(daddr := HOST_106)
  {
    assert RuleKey(0, h.daddr, h.sport, 0) == SERVER_OUT_KEY;
  }

  // The tables the client's RESET leaves after each of its four locked steps.
  ghost function ResetStates(m: RuleMap): seq<RuleMap> {
    var m1 := m - {CLIENT_OUT_KEY};
    var m2 := m1[CLIENT_OUT_KEY := Rule(0, HOST_106)];
    var m3 := m2 - {CLIENT_OLD_KEY};
    [m1, m2, m3, m3[CLIENT_OLD_KEY := Rule(HOST_108, 0)]]
  }

  // After the first step a packet to the server leaves without the detour, after
  // the third one from the old box is shown with the box's address; the last
  // step leaves what the command promises.
  lemma ResetWindow(m: RuleMap, h: Header)
    ensures FromClient(h) ==> ClientOut(ResetStates(m)[0], h) == h
    ensures FromServer(h) ==> ClientIn(ResetStates(m)[2], h.(saddr := HOST_106)) != h
    ensures ResetStates(m)[3] == ClientCommand(m, Reset)
  {
    if FromServer(h) {
      ClientShowsPeer(ResetStates(m)[2], h, HOST_106);
    }
    assert m[CLIENT_OUT_KEY := Rule(0, HOST_106)] == ResetStates(m)[1];
  }

  // The server's RESET does nothing while it has its outgoing rule, which no
  // command removes: it does not undo an ACK.
  lemma ServerResetKeeps(m: RuleMap, c: Command)
    requires SERVER_OUT_KEY in m
    ensures SERVER_OUT_KEY in ServerCommand(m, c)
    ensures ServerCommand(ServerCommand(m, c), Reset) == ServerCommand(m, c)
  {}
}
