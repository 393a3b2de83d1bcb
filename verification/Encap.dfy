/** IP-in-IP: a fresh Ethernet header and an outer IPv4 header in front of the untouched packet. */
module Encap {
  import opened Basics
  import opened Maps
  import opened Packet
  import opened Checksum

  const OUTER_TTL: U8 := 64
  const IPIP: U8 := 4
  const MAX_PACKET: nat := 3500

  // ---- bitwise operators on words of n bits

  function And(x: nat, y: nat, n: nat): (z: nat) {
    if n == 0 then 0 else 2 * And(x / 2, y / 2, n - 1) + (if x % 2 == 1 && y % 2 == 1 then 1 else 0)
  }

  function Or(x: nat, y: nat, n: nat): (z: nat) {
    if n == 0 then 0 else 2 * Or(x / 2, y / 2, n - 1) + (if x % 2 == 1 || y % 2 == 1 then 1 else 0)
  }

  function Not(x: nat, n: nat): (z: nat) {
    if n == 0 then 0 else 2 * Not(x / 2, n - 1) + (if x % 2 == 1 then 0 else 1)
  }

  function Pow2(n: nat): (p: nat) {
    if n == 0 then 1 else 2 * Pow2(n - 1)
  }

  lemma {:induction false} OrBound(x: nat, y: nat, n: nat)
    ensures Or(x, y, n) < Pow2(n)
  {
    if n > 0 {
      OrBound(x / 2, y / 2, n - 1);
    }
  }

  /** Prefix bits under the mask, hash bits elsewhere. */
  function Mix(prefix: nat, mask: nat, hash: nat, n: nat): (z: nat) {
    Or(And(prefix, mask, n), And(hash, Not(mask, n), n), n)
  }

  /** One bit at a time, each bit of the mix comes from the prefix or from the hash. */
  lemma {:induction false} MixBits(prefix: nat, mask: nat, hash: nat, n: nat)
    ensures And(Mix(prefix, mask, hash, n), mask, n) == And(prefix, mask, n)
    ensures And(Mix(prefix, mask, hash, n), Not(mask, n), n) == And(hash, Not(mask, n), n)
  {
    if n > 0 {
      MixBits(prefix / 2, mask / 2, hash / 2, n - 1);
      MixStep(prefix, mask, hash, n);
    }
  }

  lemma MixStep(prefix: nat, mask: nat, hash: nat, n: nat)
    requires n > 0
    ensures Mix(prefix, mask, hash, n) / 2 == Mix(prefix / 2, mask / 2, hash / 2, n - 1)
    ensures Mix(prefix, mask, hash, n) % 2 == if mask % 2 == 1 then prefix % 2 else hash % 2
    ensures Not(mask, n) / 2 == Not(mask / 2, n - 1) && Not(mask, n) % 2 == 1 - mask % 2
  {
    var a, b := And(prefix, mask, n), And(hash, Not(mask, n), n);
    assert Not(mask, n) / 2 == Not(mask / 2, n - 1) && Not(mask, n) % 2 == 1 - mask % 2;
    assert a / 2 == And(prefix / 2, mask / 2, n - 1) && b / 2 == And(hash / 2, Not(mask / 2, n - 1), n - 1);
  }

  // ---- the frame that is sent

  function OuterSource(c: PbConfig, hash: U32): (a: U32) {
    Pow32();
    OrBound(And(c.prefix, c.mask, 32), And(hash, Not(c.mask, 32), 32), 32);
    Mix(c.prefix, c.mask, hash, 32)
  }

  lemma Pow32()
    ensures Pow2(32) == 0x1_0000_0000
  {
    FourMore(0);
    FourMore(4);
    FourMore(8);
    FourMore(12);
    FourMore(16);
    FourMore(20);
    FourMore(24);
    FourMore(28);
  }

  lemma FourMore(n: nat)
    ensures Pow2(n + 4) == 16 * Pow2(n)
  {
    assert Pow2(n + 2) == 4 * Pow2(n);
  }

  function MacBytes(m: Mac): (b: seq<U8>)
    ensures |b| == 6
  {
    [m.b0, m.b1, m.b2, m.b3, m.b4, m.b5]
  }

  function EthernetHeader(dmac: Mac, c: PbConfig): (b: seq<U8>)
    ensures |b| == ETH_LEN
  {
    MacBytes(dmac) + MacBytes(c.lbMac) + [0x08, 0x00]
  }

  /** The outer IPv4 header, its checksum field still zero. */
  function OuterHeader(tos: U8, len: nat, saddr: U32, daddr: U32, e: Endian): (h: seq<U8>)
    requires len + IP_LEN < 0x1_0000
    ensures |h| == IP_LEN
  {
    [0x45, tos, (len + IP_LEN) / 0x100, (len + IP_LEN) % 0x100, 0, 0, 0, 0, OUTER_TTL, IPIP, 0, 0]
    + Store32(saddr, e) + Store32(daddr, e)
  }

  /** Everything encap_ipip is told. */
  datatype Job = Job(daddr: U32, dmac: Mac, config: PbConfig, hash: U32, len: nat, tos: U8, endian: Endian)

  ghost function Outer(j: Job): (h: seq<U8>)
    requires j.len + IP_LEN <= MAX_PACKET
    ensures |h| == IP_LEN
  {
    var h := OuterHeader(j.tos, j.len, OuterSource(j.config, j.hash), j.daddr, j.endian);
    ChecksumVerifies(h, j.endian, j.endian);
    WithCheck(h, Csum(h, j.endian), j.endian)
  }

  /** encap_ipip: the new frame. */
  ghost function Encapsulated(frame: seq<U8>, j: Job): (out: seq<U8>)
    requires |frame| >= ETH_LEN && j.len + IP_LEN <= MAX_PACKET
  {
    EthernetHeader(j.dmac, j.config) + Outer(j) + frame[ETH_LEN..]
  }

  lemma LoadStored(h: seq<U8>, at: nat, w: U32, e: Endian)
    requires at + 4 <= |h| && h[at..at + 4] == Store32(w, e)
    ensures Load32(h, at, e) == w
  {
    StoreLoad32(w, e);
    var s := Store32(w, e);
    assert h[at] == s[0] && h[at + 1] == s[1] && h[at + 2] == s[2] && h[at + 3] == s[3];
  }

  /** Setting bytes 10 and 11 leaves the rest of a header where it is. */
  lemma CheckApart(p: seq<U8>, src: seq<U8>, dst: seq<U8>, check: seq<U8>)
    requires |p| == 12 && |src| == 4 && |dst| == 4 && |check| == 2
    ensures var h := p + src + dst;
            var h' := h[..10] + check + h[12..];
            h'[..10] == p[..10] && h'[12..16] == src && h'[16..20] == dst
  {
    var h := p + src + dst;
    var h' := h[..10] + check + h[12..];
    assert h[12..] == src + dst;
    assert h' == p[..10] + check + src + dst;
  }

  ghost function OuterStart(j: Job): (p: seq<U8>)
    requires j.len + IP_LEN <= MAX_PACKET
  {
    [0x45, j.tos, (j.len + IP_LEN) / 0x100, (j.len + IP_LEN) % 0x100, 0, 0, 0, 0, OUTER_TTL, IPIP, 0, 0]
  }

  lemma OuterFields(j: Job)
    requires j.len + IP_LEN <= MAX_PACKET
    ensures var h := Outer(j);
            && h[0] == 0x45 && h[1] == j.tos && Word(h[2], h[3]) == j.len + IP_LEN && h[6] == h[7] == 0 && h[9] == IPIP
            && Load32(h, 12, j.endian) == OuterSource(j.config, j.hash) && Load32(h, 16, j.endian) == j.daddr
  {
    var h, src := Outer(j), OuterSource(j.config, j.hash);
    var h0 := OuterHeader(j.tos, j.len, src, j.daddr, j.endian);
    ChecksumVerifies(h0, j.endian, j.endian);
    CheckApart(OuterStart(j), Store32(src, j.endian), Store32(j.daddr, j.endian),
      Store16(Csum(h0, j.endian), j.endian));
    LoadStored(h, 12, src, j.endian);
    LoadStored(h, 16, j.daddr, j.endian);
    assert h[..10] == OuterStart(j)[..10];
    assert h[0] == h[..10][0] && h[1] == h[..10][1] && h[2] == h[..10][2] && h[3] == h[..10][3];
    assert h[6] == h[..10][6] && h[7] == h[..10][7] && h[9] == h[..10][9];
  }

  /**
   What is sent: the packet from its IP header on is untouched, 34 bytes further in; the outer
   total length is the inner one plus 20; the outer header verifies in either byte order; it goes
   to the real, from an address in the configured prefix.
   */
  lemma EncapsulatedFacts(frame: seq<U8>, j: Job, e: Endian)
    requires |frame| >= ETH_LEN + IP_LEN && j.len + IP_LEN <= MAX_PACKET
    ensures var out := Encapsulated(frame, j);
            && |out| == |frame| + IP_LEN && out[ETH_LEN + IP_LEN..] == frame[ETH_LEN..]
            && out[12] == 0x08 && out[13] == 0x00 && out[14] == 0x45 && out[23] == IPIP
            && TotalLength(out) == j.len + IP_LEN && Verifies(out[14..34], e)
            && Load32(out, 30, j.endian) == j.daddr && Load32(out, 26, j.endian) == OuterSource(j.config, j.hash)
            && And(Load32(out, 26, j.endian), j.config.mask, 32) == And(j.config.prefix, j.config.mask, 32)
  {
    var out := Encapsulated(frame, j);
    OuterFields(j);
    ChecksumVerifies(OuterHeader(j.tos, j.len, OuterSource(j.config, j.hash), j.daddr, j.endian), j.endian, e);
    MixBits(j.config.prefix, j.config.mask, j.hash, 32);
    assert out[14..34] == Outer(j);
    assert forall i :: 0 <= i < 20 ==> out[14 + i] == out[14..34][i];
  }

  // ---- in the packet buffer

  /** An XDP packet buffer: the frame between `start` and `end`, and what headroom there is before it. */
  class Buffer {
    const bytes: array<U8>
    const end: nat
    var start: nat

    ghost predicate Valid()
      reads this
    {
      start <= end <= bytes.Length
    }

    ghost function Data(): (frame: seq<U8>)
      requires Valid()
      reads this, bytes
    {
      bytes[start..end]
    }

    constructor (frame: seq<U8>, headroom: nat)
      ensures Valid() && fresh(bytes) && Data() == frame && start == headroom
    {
      var b := new U8[headroom + |frame|](i => if headroom <= i < headroom + |frame| then frame[i - headroom] else 0);
      bytes := b;
      start, end := headroom, headroom + |frame|;
      new;
      assert b[headroom..headroom + |frame|] == frame;
    }

    method Write(at: nat, b: seq<U8>)
      requires at + |b| <= bytes.Length
      modifies bytes
      ensures bytes[..] == old(bytes[..at]) + b + old(bytes[at + |b|..])
    {
      for i := 0 to |b|
        invariant bytes[..] == old(bytes[..at]) + b[..i] + old(bytes[at + i..])
      {
        bytes[at + i] := b[i];
      }
    }

    /** Bytes of the frame from offset `at` on. */
    method Overwrite(at: nat, b: seq<U8>)
      requires Valid() && start + at + |b| <= end
      modifies bytes
      ensures Data() == Replaced(old(Data()), at, b)
    {
      Write(start + at, b);
    }

    method PutHeaders(eth: seq<U8>, header: seq<U8>)
      requires Valid() && |eth| == ETH_LEN && |header| == IP_LEN && end - start >= ETH_LEN + IP_LEN
      modifies bytes
      ensures Data() == eth + header + old(Data())[ETH_LEN + IP_LEN..] && Data()[ETH_LEN..ETH_LEN + IP_LEN] == header
    {
      ghost var before := Data();
      Overwrite(0, eth);
      Overwrite(ETH_LEN, header);
      HeaderInPlace(before, eth, header);
    }

    method Slice(at: nat, n: nat) returns (b: seq<U8>)
      requires Valid() && start + at + n <= end
      ensures b == Data()[at..at + n]
    {
      b := bytes[start + at..start + at + n];
      assert |b| == |Data()[at..at + n]|;
      assert forall i :: 0 <= i < n ==> b[i] == Data()[at..at + n][i];
    }

    /** encap_ipip: fails, with nothing changed, exactly when there is no room for the outer header. */
    method EncapIpip(j: Job) returns (ok: bool)
      requires Valid() && end - start >= ETH_LEN && j.len + IP_LEN <= MAX_PACKET
      modifies this, bytes
      ensures Valid() && ok == (old(start) >= IP_LEN)
      ensures Data() == if ok then Encapsulated(old(Data()), j) else old(Data())
    {
      if start < IP_LEN {
        return false;
      }
      start := start - IP_LEN;
      ghost var grown := Data();
      var eth := EthernetHeader(j.dmac, j.config);
      var header := OuterHeader(j.tos, j.len, OuterSource(j.config, j.hash), j.daddr, j.endian);
      PutHeaders(eth, header);
      var outer := Slice(ETH_LEN, IP_LEN);
      var check := Ipv4Csum(outer, j.endian);
      Overwrite(ETH_LEN + 10, Store16(check, j.endian));
      CheckInPlace(grown, eth, header, check, j.endian);
      assert grown[ETH_LEN + IP_LEN..] == old(Data())[ETH_LEN..];
      return true;
    }
  }

  ghost function Replaced(s: seq<U8>, at: nat, b: seq<U8>): (r: seq<U8>)
    requires at + |b| <= |s|
  {
    s[..at] + b + s[at + |b|..]
  }

  lemma HeaderInPlace(s: seq<U8>, eth: seq<U8>, header: seq<U8>)
    requires |s| >= ETH_LEN + IP_LEN && |eth| == ETH_LEN && |header| == IP_LEN
    ensures Replaced(Replaced(s, 0, eth), ETH_LEN, header) == eth + header + s[ETH_LEN + IP_LEN..]
    ensures Replaced(Replaced(s, 0, eth), ETH_LEN, header)[ETH_LEN..ETH_LEN + IP_LEN] == header
  {
    assert Replaced(s, 0, eth) == eth + s[ETH_LEN..];
  }

  lemma CheckInPlace(s: seq<U8>, eth: seq<U8>, header: seq<U8>, check: U16, e: Endian)
    requires |s| >= ETH_LEN + IP_LEN && |eth| == ETH_LEN && |header| == IP_LEN
    ensures Replaced(eth + header + s[ETH_LEN + IP_LEN..], ETH_LEN + 10, Store16(check, e))
         == eth + WithCheck(header, check, e) + s[ETH_LEN + IP_LEN..]
  {
  }
}
