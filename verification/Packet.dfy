/** What the XDP program reads off a frame, branch by branch. */
module Packet {
  import opened Basics
  import opened Maps

  /** Byte order of the machine: addresses and ports are loaded from memory as they are. */
  datatype Endian = Little | Big

  datatype Flow = Flow(saddr: U32, daddr: U32, sport: U16, dport: U16, proto: U8)

  /** The counters of one VIP on one CPU, and those of the global slot. */
  datatype Count = Short | OtherIp | Options | Fragment

  datatype Parsed =
    | Bad(why: Count)
    | Host
    | Packet(flow: Flow, bareSyn: bool, mayInsert: bool, isIcmp: bool, len: U16, tos: U8)

  const ETH_LEN: nat := 14
  const IP_LEN: nat := 20
  const TCP: U8 := 6
  const UDP: U8 := 17
  const ICMP: U8 := 1
  const UNREACHABLE: U8 := 3
  const FRAG_NEEDED: U8 := 4

  function Word(high: int, low: int): (w: int) {
    0x100 * high + low
  }

  function Load16(frame: seq<U8>, at: nat, e: Endian): (w: U16)
    requires at + 2 <= |frame|
  {
    if e == Little then Word(frame[at + 1], frame[at]) else Word(frame[at], frame[at + 1])
  }

  function Quad(a: int, b: int, c: int, d: int): (w: int) {
    0x100_0000 * a + 0x1_0000 * b + 0x100 * c + d
  }

  function Load32(frame: seq<U8>, at: nat, e: Endian): (w: U32)
    requires at + 4 <= |frame|
  {
    if e == Little then Quad(frame[at + 3], frame[at + 2], frame[at + 1], frame[at])
    else Quad(frame[at], frame[at + 1], frame[at + 2], frame[at + 3])
  }

  function Store16(w: U16, e: Endian): (bytes: seq<U8>)
    ensures |bytes| == 2
  {
    if e == Little then [w % 0x100, w / 0x100] else [w / 0x100, w % 0x100]
  }

  function Store32(w: U32, e: Endian): (bytes: seq<U8>)
    ensures |bytes| == 4
  {
    if e == Little then [w % 0x100, w / 0x100 % 0x100, w / 0x1_0000 % 0x100, w / 0x100_0000]
    else [w / 0x100_0000, w / 0x1_0000 % 0x100, w / 0x100 % 0x100, w % 0x100]
  }

  /** The VIP a flow is for. */
  function KeyOf(f: Flow): (k: VipSpec) {
    VipSpec(f.daddr, f.dport, f.proto)
  }

  /** The IPv4 header checks, common to every protocol; the total length if they pass. */
  function ParseIp(frame: seq<U8>): (r: Option<Count>)
    requires |frame| >= ETH_LEN
    ensures r.None? ==> |frame| >= ETH_LEN + IP_LEN && TotalLength(frame) >= IP_LEN
                        && ETH_LEN + TotalLength(frame) <= |frame|
  {
    if |frame| < ETH_LEN + IP_LEN then Some(Short)
    else if frame[14] / 0x10 != 4 then Some(OtherIp)
    else if frame[14] % 0x10 != 5 then Some(Options)
    else if frame[20] % 0x40 != 0 || frame[21] != 0 then Some(Fragment)
    else if TotalLength(frame) < IP_LEN || ETH_LEN + TotalLength(frame) > |frame| then Some(Short)
    else None
  }

  function TotalLength(frame: seq<U8>): (len: U16)
    requires |frame| >= ETH_LEN + IP_LEN
  {
    Word(frame[16], frame[17])
  }

  function ParseTcp(frame: seq<U8>, e: Endian): (r: Parsed)
    requires |frame| >= ETH_LEN + IP_LEN
  {
    if |frame| < 54 then Bad(Short) else
      var flags := frame[47];
      var syn, rst, ack := flags / 2 % 2 == 1, flags / 4 % 2 == 1, flags / 16 % 2 == 1;
      Packet(Flow(Load32(frame, 26, e), Load32(frame, 30, e), Load16(frame, 34, e), Load16(frame, 36, e), TCP),
             syn && !ack, !rst, false, TotalLength(frame), frame[15])
  }

  function ParseUdp(frame: seq<U8>, e: Endian): (r: Parsed)
    requires |frame| >= ETH_LEN + IP_LEN
  {
    if |frame| < 42 then Bad(Short) else
      Packet(Flow(Load32(frame, 26, e), Load32(frame, 30, e), Load16(frame, 34, e), Load16(frame, 36, e), UDP),
             false, true, false, TotalLength(frame), frame[15])
  }

  /** Only "fragmentation needed" is of interest; the quoted datagram is the reply, so its ends are swapped. */
  function ParseIcmp(frame: seq<U8>, pmtu: bool, e: Endian): (r: Parsed)
    requires |frame| >= ETH_LEN + IP_LEN
  {
    if |frame| < 42 then Bad(Short)
    else if !pmtu || frame[34] != UNREACHABLE || frame[35] != FRAG_NEEDED then Host
    else if |frame| < 62 then Bad(Short)
    else if frame[42] % 0x10 != 5 || (frame[51] != TCP && frame[51] != UDP) then Host
    else if |frame| < 66 then Bad(Short)
    else
      Packet(Flow(Load32(frame, 58, e), Load32(frame, 54, e), Load16(frame, 64, e), Load16(frame, 62, e), frame[51]),
             false, false, true, TotalLength(frame), frame[15])
  }

  function Parse(frame: seq<U8>, pmtu: bool, e: Endian): (r: Parsed) {
    if |frame| < ETH_LEN then Bad(Short)
    else if frame[12] != 0x08 || frame[13] != 0x00 then Host
    else
      var bad := ParseIp(frame);
      if bad.Some? then Bad(bad.value)
      else if frame[23] == TCP then ParseTcp(frame, e)
      else if frame[23] == UDP then ParseUdp(frame, e)
      else if frame[23] == ICMP then ParseIcmp(frame, pmtu, e)
      else Host
  }

  /** What a parsed packet's frame is sure to hold. */
  lemma ParsedFacts(frame: seq<U8>, pmtu: bool, e: Endian)
    requires Parse(frame, pmtu, e).Packet?
    ensures |frame| >= ETH_LEN + IP_LEN && ETH_LEN + Parse(frame, pmtu, e).len <= |frame|
    ensures Parse(frame, pmtu, e).len == TotalLength(frame) >= IP_LEN
    ensures Parse(frame, pmtu, e).flow.proto in {TCP, UDP}
    ensures Parse(frame, pmtu, e).isIcmp ==> !Parse(frame, pmtu, e).bareSyn && !Parse(frame, pmtu, e).mayInsert
  {
  }

  lemma StoreLoad16(w: U16, e: Endian)
    ensures Load16(Store16(w, e), 0, e) == w
  {
  }

  lemma StoreLoad32(w: U32, e: Endian)
    ensures Load32(Store32(w, e), 0, e) == w
  {
    Quarters(w);
  }

  lemma Quarters(w: int)
    requires w >= 0
    ensures Quad(w / 0x100_0000, w / 0x1_0000 % 0x100, w / 0x100 % 0x100, w % 0x100) == w
  {
    var x := w / 0x100;
    var y := x / 0x100;
    assert w == 0x100 * x + w % 0x100 && x == 0x100 * y + x % 0x100 && y == 0x100 * (y / 0x100) + y % 0x100;
  }

  /** The frame carries this IPv4 header's ends and ports, from `ip` on. */
  ghost predicate Carries(frame: seq<U8>, ip: nat, saddr: U32, daddr: U32, sport: U16, dport: U16, proto: U8,
                          e: Endian) {
    && ip + 24 <= |frame| && frame[ip + 9] == proto && frame[ip] % 0x10 == 5
    && Load32(frame, ip + 12, e) == saddr && Load32(frame, ip + 16, e) == daddr
    && Load16(frame, ip + 20, e) == sport && Load16(frame, ip + 22, e) == dport
  }

  /**
   An ICMP "fragmentation needed" that quotes a reply from the VIP to a client is about the very flow
   that the client's own packets to the VIP belong to.
   */
  lemma QuotedReplyIsTheFlow(request: seq<U8>, icmp: seq<U8>, f: Flow, e: Endian)
    requires Parse(request, true, e).Packet? && !Parse(request, true, e).isIcmp && Parse(request, true, e).flow == f
    requires Parse(icmp, true, e).Packet? && Parse(icmp, true, e).isIcmp
    requires Carries(icmp, 42, f.daddr, f.saddr, f.dport, f.sport, f.proto, e)
    ensures Parse(icmp, true, e).flow == f && KeyOf(Parse(icmp, true, e).flow) == KeyOf(f)
    ensures Carries(request, 14, f.saddr, f.daddr, f.sport, f.dport, f.proto, e)
  {
  }
}
