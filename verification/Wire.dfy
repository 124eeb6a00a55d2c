// The update protocol's messages as bytes: how they are filled in place, how a
// hop strips its own address, and where the message therefore goes.
//
// A message is a 20-byte header, the hop list with 4 bytes an address, and a
// 4-byte zero.  Words are little-endian, as on the machines the agents run on.
module Wire {
  import opened Wrappers

  type Byte = x: int | 0 <= x < 0x100
  type Half = x: int | 0 <= x < 0x1_0000
  type Word = x: int | -0x8000_0000 <= x < 0x8000_0000

  datatype Header = Header(action: Word, sequenceNum: Word, srcIP: Word, dstIP: Word, srcPort: Half, dstPort: Half)

  const HEADER := 20

  function Bytes4(x: Word): (b: seq<Byte>)
    ensures |b| == 4
  {
    var u := if x < 0 then x + 0x1_0000_0000 else x;
    var v := u / 0x100;
    var w := v / 0x100;
    [u % 0x100, v % 0x100, w % 0x100, w / 0x100]
  }

  function Bytes2(x: Half): (b: seq<Byte>)
    ensures |b| == 2
  {
    [x % 0x100, x / 0x100]
  }

  function WordAt(m: seq<Byte>, i: nat): Word
    requires i + 4 <= |m|
  {
    var u: int := m[i] as int + 0x100 * m[i + 1] as int + 0x1_0000 * m[i + 2] as int + 0x100_0000 * m[i + 3] as int;
    if u < 0x8000_0000 then u else u - 0x1_0000_0000
  }

  function HalfAt(m: seq<Byte>, i: nat): Half
    requires i + 2 <= |m|
  {
    m[i] as int + 0x100 * m[i + 1] as int
  }

  lemma WordRoundTrip(x: Word, m: seq<Byte>, i: nat)
    requires i + 4 <= |m| && m[i..i + 4] == Bytes4(x)
    ensures WordAt(m, i) == x
  {
    var b := Bytes4(x);
    assert m[i] == b[0] && m[i + 1] == b[1] && m[i + 2] == b[2] && m[i + 3] == b[3];
  }

  lemma HalfRoundTrip(x: Half, m: seq<Byte>, i: nat)
    requires i + 2 <= |m| && m[i..i + 2] == Bytes2(x)
    ensures HalfAt(m, i) == x
  {
    var b := Bytes2(x);
    assert m[i] == b[0] && m[i + 1] == b[1];
  }

  function HeaderBytes(h: Header): (b: seq<Byte>)
    ensures |b| == HEADER
  {
    Bytes4(h.action) + Bytes4(h.sequenceNum) + Bytes4(h.srcIP) + Bytes4(h.dstIP) + Bytes2(h.srcPort) + Bytes2(h.dstPort)
  }

  // What a receiver reads through the header pointer.
  function HeaderOf(m: seq<Byte>): Header
    requires |m| >= HEADER
  {
    Header(WordAt(m, 0), WordAt(m, 4), WordAt(m, 8), WordAt(m, 12), HalfAt(m, 16), HalfAt(m, 18))
  }

  lemma HeaderRoundTrip(h: Header, rest: seq<Byte>)
    ensures HeaderOf(HeaderBytes(h) + rest) == h
  {
    hide Bytes4, Bytes2, WordAt, HalfAt;
    var m := HeaderBytes(h) + rest;
    assert m[0..4] == Bytes4(h.action);
    assert m[4..8] == Bytes4(h.sequenceNum);
    assert m[8..12] == Bytes4(h.srcIP);
    assert m[12..16] == Bytes4(h.dstIP);
    assert m[16..18] == Bytes2(h.srcPort);
    assert m[18..20] == Bytes2(h.dstPort);
    WordRoundTrip(h.action, m, 0);
    WordRoundTrip(h.sequenceNum, m, 4);
    WordRoundTrip(h.srcIP, m, 8);
    WordRoundTrip(h.dstIP, m, 12);
    HalfRoundTrip(h.srcPort, m, 16);
    HalfRoundTrip(h.dstPort, m, 18);
  }

  function ListBytes(hops: seq<Word>): (b: seq<Byte>)
    ensures |b| == 4 * |hops|
  {
    if hops == [] then [] else ListBytes(hops[..|hops| - 1]) + Bytes4(hops[|hops| - 1])
  }

  function Sync(h: Header, hops: seq<Word>): (m: seq<Byte>)
    ensures |m| == HEADER + 4 + 4 * |hops|
  {
    HeaderBytes(h) + ListBytes(hops) + Bytes4(0)
  }

  lemma {:induction false} ListSlice(hops: seq<Word>, i: nat)
    requires i < |hops|
    ensures ListBytes(hops)[4 * i..4 * i + 4] == Bytes4(hops[i])
  {
    hide Bytes4;
    var n := |hops| - 1;
    if i < n {
      ListSlice(hops[..n], i);
      assert ListBytes(hops)[4 * i..4 * i + 4] == ListBytes(hops[..n])[4 * i..4 * i + 4];
    }
  }

  lemma {:induction false} ListDrop(hops: seq<Word>)
    requires hops != []
    ensures ListBytes(hops)[4..] == ListBytes(hops[1..])
  {
    hide Bytes4;
    var n := |hops| - 1;
    if n > 0 {
      ListDrop(hops[..n]);
      assert hops[1..][..n - 1] == hops[..n][1..];
      assert ListBytes(hops)[4..] == ListBytes(hops[..n])[4..] + Bytes4(hops[n]);
    }
  }

  // The addresses a hop finds in a message: i = 20, 24, ... while i < n - 4.
  function AddressesFrom(m: seq<Byte>, i: nat): seq<Word>
    decreases |m| - i
  {
    if i < |m| - 4 then [WordAt(m, i)] + AddressesFrom(m, i + 4) else []
  }

  lemma AddressAt(h: Header, hops: seq<Word>, j: nat)
    requires j < |hops|
    ensures WordAt(Sync(h, hops), HEADER + 4 * j) == hops[j]
  {
    hide Bytes4, HeaderBytes, WordAt, ListBytes;
    var m := Sync(h, hops);
    ListSlice(hops, j);
    assert m[HEADER + 4 * j..HEADER + 4 * j + 4] == ListBytes(hops)[4 * j..4 * j + 4];
    WordRoundTrip(hops[j], m, HEADER + 4 * j);
  }

  lemma {:induction false} AddressesRoundTrip(h: Header, hops: seq<Word>, j: nat)
    requires j <= |hops|
    ensures AddressesFrom(Sync(h, hops), HEADER + 4 * j) == hops[j..]
    decreases |hops| - j
  {
    hide Sync, WordAt;
    if j < |hops| {
      AddressAt(h, hops, j);
      AddressesRoundTrip(h, hops, j + 1);
    }
  }

  // Encoding loses nothing: header and hop list come back.
  lemma SyncRoundTrip(h: Header, hops: seq<Word>)
    ensures HeaderOf(Sync(h, hops)) == h
    ensures AddressesFrom(Sync(h, hops), HEADER) == hops
  {
    hide HeaderOf, HeaderBytes, ListBytes, AddressesFrom, Bytes4;
    assert Sync(h, hops) == HeaderBytes(h) + (ListBytes(hops) + Bytes4(0));
    HeaderRoundTrip(h, ListBytes(hops) + Bytes4(0));
    AddressesRoundTrip(h, hops, 0);
  }

  // Where each field of a sync message is, and in which order its bytes.
  lemma SyncLayout(h: Header, hops: seq<Word>)
    ensures var m, k := Sync(h, hops), |hops|;
            && |m| == 24 + 4 * k
            && WordAt(m, 0) == h.action && WordAt(m, 4) == h.sequenceNum
            && WordAt(m, 8) == h.srcIP && WordAt(m, 12) == h.dstIP
            && HalfAt(m, 16) == h.srcPort && HalfAt(m, 18) == h.dstPort
            && (forall j :: 0 <= j < k ==> WordAt(m, 20 + 4 * j) == hops[j])
            && WordAt(m, 20 + 4 * k) == 0
            && (0 <= h.action < 256 ==> m[..4] == [h.action, 0, 0, 0])
  {
    var m, k := Sync(h, hops), |hops|;
    assert m[..4] == Bytes4(h.action);
    hide Sync, WordAt, HalfAt, AddressesFrom;
    SyncRoundTrip(h, hops);
    forall j | 0 <= j < k ensures WordAt(m, 20 + 4 * j) == hops[j] {
      AddressAt(h, hops, j);
    }
    Terminated(h, hops);
  }

  lemma Terminated(h: Header, hops: seq<Word>)
    ensures WordAt(Sync(h, hops), 20 + 4 * |hops|) == 0
  {
    hide Bytes4, HeaderBytes, ListBytes, WordAt;
    var m := Sync(h, hops);
    assert m[20 + 4 * |hops|..] == Bytes4(0);
    WordRoundTrip(0, m, 20 + 4 * |hops|);
  }

  // ----- a hop's forwarding -----

  // n > sizeof(header) + 8
  predicate Forwards(m: seq<Byte>) {
    |m| > HEADER + 8
  }

  // The forwarded message: own address dropped, action overwritten.
  function Strip(m: seq<Byte>, action: Word): (r: seq<Byte>)
    requires Forwards(m)
    ensures |r| == |m| - 4
  {
    Bytes4(action) + m[4..HEADER] + m[HEADER + 4..]
  }

  // Where it goes: the address after the hop's own.
  function NextHop(m: seq<Byte>): Word
    requires Forwards(m)
  {
    WordAt(m, HEADER + 4)
  }

  lemma StripDropsHead(h: Header, hops: seq<Word>, action: Word)
    requires |hops| >= 2
    ensures Strip(Sync(h, hops), action) == Sync(h.(action := action), hops[1..])
    ensures NextHop(Sync(h, hops)) == hops[1]
  {
    AddressAt(h, hops, 1);
    hide Bytes4, Bytes2, ListBytes, WordAt;
    var m := Sync(h, hops);
    ListDrop(hops);
    StripHeader(h, action);
    assert m[4..HEADER] == HeaderBytes(h)[4..];
    assert m[HEADER + 4..] == ListBytes(hops)[4..] + Bytes4(0);
  }

  lemma StripHeader(h: Header, action: Word)
    ensures HeaderBytes(h.(action := action)) == Bytes4(action) + HeaderBytes(h)[4..]
  {
    hide Bytes4, Bytes2;
  }

  // The message after i forwardings.
  function AtPosition(m: seq<Byte>, action: Word, i: nat): Option<seq<Byte>>
    decreases i
  {
    if i == 0 then Some(m)
    else if Forwards(m) then AtPosition(Strip(m, action), action, i - 1)
    else None
  }

  // The hops a message is forwarded to.
  function Visited(m: seq<Byte>, action: Word): seq<Word>
    decreases |m|
  {
    if Forwards(m) then [NextHop(m)] + Visited(Strip(m, action), action) else []
  }

  // Position i holds the sender's header and the list from i on, and forwards it
  // exactly when i is not the last.
  lemma {:induction false} HopMessage(h: Header, list: seq<Word>, i: nat)
    requires i < |list|
    ensures AtPosition(Sync(h, list), h.action, i) == Some(Sync(h, list[i..]))
    ensures |Sync(h, list[i..])| == 24 + 4 * (|list| - i)
    ensures Forwards(Sync(h, list[i..])) <==> i + 1 < |list|
    decreases i
  {
    hide Strip, NextHop, HeaderBytes, ListBytes;
    if i == 0 {
      assert list[0..] == list;
    } else {
      StripDropsHead(h, list, h.action);
      HopMessage(h, list[1..], i - 1);
      assert list[1..][i - 1..] == list[i..];
    }
  }

  // There is no position past the end of the list.
  lemma {:induction false} NoMessageAfterLast(h: Header, list: seq<Word>, i: nat)
    requires 0 < |list| <= i
    ensures AtPosition(Sync(h, list), h.action, i) == None
    decreases i
  {
    hide Strip, NextHop, HeaderBytes, ListBytes;
    if |list| > 1 {
      StripDropsHead(h, list, h.action);
      NoMessageAfterLast(h, list[1..], i - 1);
    }
  }

  // The message given to the first hop is forwarded to the rest of the list, in
  // order, and to nobody else.
  lemma {:induction false} VisitsTheList(h: Header, list: seq<Word>)
    requires list != []
    ensures Visited(Sync(h, list), h.action) == list[1..]
  {
    hide Strip, NextHop, HeaderBytes, ListBytes;
    if |list| > 1 {
      StripDropsHead(h, list, h.action);
      VisitsTheList(h, list[1..]);
      assert [list[1]] + list[1..][1..] == list[1..];
    }
  }

  // ----- filling the buffers -----

  method Memcpy(dst: array<Byte>, at: nat, src: array<Byte>, from: nat, len: nat)
    requires dst != src && at + len <= dst.Length && from + len <= src.Length
    modifies dst
    ensures dst[..] == old(dst[..at]) + src[from..from + len] + old(dst[at + len..])
  {
    var k := 0;
    while k < len
      invariant k <= len
      invariant dst[..at + k] == old(dst[..at]) + src[from..from + k]
      invariant dst[at + k..] == old(dst[at + k..])
    {
      ghost var rest := dst[at + k..];
      dst[at + k] := src[from + k];
      assert dst[at + k + 1..] == rest[1..];
      assert src[from..from + k + 1] == src[from..from + k] + [src[from + k]];
      k := k + 1;
    }
    assert dst[..] == dst[..at + len] + dst[at + len..];
  }

  // *(int *)(buffer + at) = x
  method PutWord(buffer: array<Byte>, at: nat, x: Word)
    requires at + 4 <= buffer.Length
    modifies buffer
    ensures buffer[..at + 4] == old(buffer[..at]) + Bytes4(x)
    ensures buffer[at + 4..] == old(buffer[at + 4..])
  {
    hide Bytes4;
    var b := Bytes4(x);
    buffer[at], buffer[at + 1], buffer[at + 2], buffer[at + 3] := b[0], b[1], b[2], b[3];
  }

  method PutHalf(buffer: array<Byte>, at: nat, x: Half)
    requires at + 2 <= buffer.Length
    modifies buffer
    ensures buffer[..at + 2] == old(buffer[..at]) + Bytes2(x)
    ensures buffer[at + 2..] == old(buffer[at + 2..])
  {
    hide Bytes2;
    var b := Bytes2(x);
    buffer[at], buffer[at + 1] := b[0], b[1];
  }

  // The header's fields, one by one.
  method PutHeader(buffer: array<Byte>, h: Header)
    requires HEADER <= buffer.Length
    modifies buffer
    ensures buffer[..HEADER] == HeaderBytes(h)
    ensures buffer[HEADER..] == old(buffer[HEADER..])
  {
    hide Bytes4, Bytes2;
    PutHeaderWords(buffer, h);
    label Words:
    PutHalf(buffer, 16, h.srcPort);
    assert buffer[HEADER..] == buffer[18..][2..];
    PutHalf(buffer, 18, h.dstPort);
    assert buffer[HEADER..] == old@Words(buffer[16..])[4..] == old(buffer[HEADER..]);
  }

  method PutHeaderWords(buffer: array<Byte>, h: Header)
    requires HEADER <= buffer.Length
    modifies buffer
    ensures buffer[..16] == Bytes4(h.action) + Bytes4(h.sequenceNum) + Bytes4(h.srcIP) + Bytes4(h.dstIP)
    ensures buffer[16..] == old(buffer[16..])
  {
    hide Bytes4;
    ghost var tail := buffer[16..];
    PutWord(buffer, 0, h.action);
    assert buffer[..0] == [];
    assert buffer[16..] == buffer[4..][12..] == tail;
    PutWord(buffer, 4, h.sequenceNum);
    assert buffer[16..] == buffer[8..][8..] == tail;
    PutWord(buffer, 8, h.srcIP);
    assert buffer[16..] == buffer[12..][4..] == tail;
    PutWord(buffer, 12, h.dstIP);
  }

  // sync_packet's loop: the addresses, one after the other.
  method PutList(buffer: array<Byte>, mbox: seq<Word>)
    requires HEADER + 4 * |mbox| <= buffer.Length
    modifies buffer
    ensures buffer[..HEADER + 4 * |mbox|] == old(buffer[..HEADER]) + ListBytes(mbox)
    ensures buffer[HEADER + 4 * |mbox|..] == old(buffer[HEADER + 4 * |mbox|..])
  {
    assert ListBytes([]) == [];
    hide ListBytes, Bytes4;
    var i := 0;
    while i < |mbox|
      invariant i <= |mbox|
      invariant buffer[..HEADER + 4 * i] == old(buffer[..HEADER]) + ListBytes(mbox[..i])
      invariant buffer[HEADER + 4 * i..] == old(buffer[HEADER + 4 * i..])
    {
      ghost var at := HEADER + 4 * i;
      label Before:
      PutWord(buffer, HEADER + 4 * i, mbox[i]);
      assert buffer[at + 4..] == old@Before(buffer[at..])[4..] == old(buffer[at..])[4..] == old(buffer[at + 4..]);
      ListBytesNext(mbox, i);
      i := i + 1;
    }
    assert mbox[..i] == mbox;
  }

  // sync_packet; the caller has cleared the buffer, which gives the terminator.
  method SyncPacket(buffer: array<Byte>, h: Header, mbox: seq<Word>) returns (n: nat)
    requires HEADER + 4 + 4 * |mbox| <= buffer.Length
    requires forall i :: 0 <= i < buffer.Length ==> buffer[i] == 0
    modifies buffer
    ensures n == HEADER + 4 + 4 * |mbox|
    ensures buffer[..n] == Sync(h, mbox)
  {
    hide HeaderBytes, ListBytes, Bytes4;
    n := HEADER + 4 + 4 * |mbox|;
    ghost var tail := buffer[HEADER..];
    PutHeader(buffer, h);
    PutList(buffer, mbox);
    assert buffer[n - 4..] == tail[4 * |mbox|..];
    ZeroWord();
    assert buffer[..n] == buffer[..n - 4] + buffer[n - 4..][..4];
  }

  lemma ListBytesNext(hops: seq<Word>, i: nat)
    requires i < |hops|
    ensures ListBytes(hops[..i + 1]) == ListBytes(hops[..i]) + Bytes4(hops[i])
  {
    hide Bytes4;
    assert hops[..i + 1][..i] == hops[..i];
  }

  lemma ZeroWord()
    ensures Bytes4(0) == [0, 0, 0, 0]
  {}

  // updateForward's and sendForward's message to the next hop.
  method ForwardMessage(request: array<Byte>, n: nat, action: Word) returns (sendmsg: array<Byte>, next: Word)
    requires HEADER + 8 < n <= request.Length
    ensures fresh(sendmsg) && sendmsg[..] == Strip(request[..n], action)
    ensures next == NextHop(request[..n])
  {
    hide Bytes4;
    next := WordAt(request[..], HEADER + 4);
    sendmsg := new Byte[n - 4](i => 0);
    Memcpy(sendmsg, 4, request, 4, 16);
    Memcpy(sendmsg, HEADER, request, HEADER + 4, n - HEADER - 4);
    assert sendmsg[4..] == request[4..HEADER] + request[HEADER + 4..n];
    PutWord(sendmsg, 0, action);
    assert sendmsg[..4] == Bytes4(action);
    assert request[..n][4..HEADER] == request[4..HEADER];
    assert request[..n][HEADER + 4..] == request[HEADER + 4..n];
    assert sendmsg[..] == sendmsg[..4] + sendmsg[4..];
  }

  // updateBack's answer: the header with action 5, and a zero word.
  method BackResponse(request: array<Byte>, n: nat) returns (response: array<Byte>)
    requires n == HEADER + 8 <= request.Length
    ensures fresh(response) && response[..] == Bytes4(5) + request[4..HEADER] + Bytes4(0)
  {
    hide Bytes4;
    response := new Byte[n - 4](i => 0);
    Memcpy(response, 4, request, 4, HEADER - 4);
    assert response[4..][..16] == request[4..HEADER];
    PutWord(response, 0, 5);
    assert response[..4] == Bytes4(5);
    assert response[..HEADER] == response[..4] + response[4..][..16];
    PutWord(response, HEADER, 0);
    assert response[..] == response[..n - 4];
  }

  // The answer is the sender's own header, so the client's check of action and
  // number succeeds on it.
  lemma ResponseHeader(h: Header, hop: Word)
    ensures var m := Sync(h, [hop]);
            Bytes4(5) + m[4..HEADER] + Bytes4(0) == Sync(h.(action := 5), [])
  {
    hide Bytes4, Bytes2;
    StripHeader(h, 5);
    assert Sync(h, [hop])[4..HEADER] == HeaderBytes(h)[4..];
  }

  // sendBack's answer: action 2, the address overwritten by the next hash port.
  method SendBackResponse(request: array<Byte>, n: nat, hashport: Word) returns (response: array<Byte>)
    requires HEADER + 4 <= n <= request.Length
    ensures fresh(response)
    ensures response[..] == Bytes4(2) + request[4..HEADER] + Bytes4(hashport) + request[HEADER + 4..n]
  {
    hide Bytes4;
    response := new Byte[n](i => 0);
    Memcpy(response, 4, request, 4, n - 4);
    assert response[4..] == request[4..n];
    PutWord(response, 0, 2);
    ghost var r := response[..];
    assert r[..4] == response[..4] == Bytes4(2) && r[4..] == response[4..] == request[4..n];
    PutWord(response, HEADER, hashport);
    assert response[..][..HEADER] == r[..HEADER] && response[..][HEADER + 4..] == r[HEADER + 4..];
    assert response[..][HEADER..HEADER + 4] == response[..HEADER + 4][HEADER..] == Bytes4(hashport);
    AnswerParts(response[..], r, request[..n], hashport);
    assert request[..n][4..HEADER] == request[4..HEADER];
    assert request[..n][HEADER + 4..] == request[HEADER + 4..n];
  }

  lemma AnswerParts(m: seq<Byte>, r: seq<Byte>, request: seq<Byte>, hashport: Word)
    requires |m| == |r| == |request| >= HEADER + 4 && r[..4] == Bytes4(2) && r[4..] == request[4..]
    requires m[..HEADER] == r[..HEADER] && m[HEADER + 4..] == r[HEADER + 4..]
    requires m[HEADER..HEADER + 4] == Bytes4(hashport)
    ensures m == Bytes4(2) + request[4..HEADER] + Bytes4(hashport) + request[HEADER + 4..]
  {
    hide Bytes4;
    assert m == m[..HEADER] + m[HEADER..HEADER + 4] + m[HEADER + 4..];
    assert r[..HEADER] == r[..4] + r[4..][..16];
    assert r[HEADER + 4..] == r[4..][HEADER..] == request[4..][HEADER..] == request[HEADER + 4..];
  }

  // 10.0.0.1 and 10.0.0.5 in network byte order.
  const FLOW_SRC: Word := 0x0100_000A
  const FLOW_DST: Word := 0x0500_000A

  // settingAck: the flow it names is fixed.
  method SettingAck(ackMesg: array<Byte>, sequenceNumber: Word)
    requires ackMesg.Length == HEADER + 4
    modifies ackMesg
    ensures ackMesg[..] == Sync(Header(6, sequenceNumber, FLOW_SRC, FLOW_DST, 1, 1), [])
    ensures ackMesg[8..16] == [10, 0, 0, 1, 10, 0, 0, 5]
  {
    FlowBytes();
    hide Bytes4, HeaderBytes;
    PutWord(ackMesg, HEADER, 0);
    assert ackMesg[HEADER..] == Bytes4(0);
    var h := Header(6, sequenceNumber, FLOW_SRC, FLOW_DST, 1, 1);
    PutHeader(ackMesg, h);
    assert ackMesg[HEADER..] == Bytes4(0);
    assert ackMesg[..] == HeaderBytes(h) + ListBytes([]) + Bytes4(0);
    FlowAt(h, ackMesg[..]);
  }

  lemma FlowBytes()
    ensures Bytes4(FLOW_SRC) == [10, 0, 0, 1] && Bytes4(FLOW_DST) == [10, 0, 0, 5]
  {}

  lemma FlowAt(h: Header, m: seq<Byte>)
    requires HeaderBytes(h) <= m
    ensures m[8..16] == Bytes4(h.srcIP) + Bytes4(h.dstIP)
  {
    hide Bytes4, Bytes2;
    assert m[8..16] == HeaderBytes(h)[8..16];
  }

  datatype Flow = Flow(srcIP: Word, dstIP: Word, srcPort: Half, dstPort: Half)

  function FlowOf(m: seq<Byte>): Flow
    requires |m| >= HEADER
  {
    var h := HeaderOf(m);
    Flow(h.srcIP, h.dstIP, h.srcPort, h.dstPort)
  }

  // A relayed ACK finds the record its SYN made exactly when the SYN was for the
  // one flow the agents know.
  lemma AckNamesFlow(h: Header, list: seq<Word>, s: Word)
    ensures FlowOf(Sync(Header(6, s, FLOW_SRC, FLOW_DST, 1, 1), [])) == FlowOf(Sync(h, list))
            <==> Flow(h.srcIP, h.dstIP, h.srcPort, h.dstPort) == Flow(FLOW_SRC, FLOW_DST, 1, 1)
  {
    hide Sync, HeaderOf;
    SyncRoundTrip(h, list);
    SyncRoundTrip(Header(6, s, FLOW_SRC, FLOW_DST, 1, 1), []);
  }
}
