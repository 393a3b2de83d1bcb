/**
 The two planes together: where a flow goes, on any load balancer with the same reals in the ring,
 at any map state of the control plane, and across a restart.
 */
module Failover {
  import opened Basics
  import opened Primes
  import opened BuildMaglev
  import opened Ring
  import opened Maps
  import opened Reals
  import opened LbModel
  import opened Control
  import opened ControlLaws
  import opened Packet
  import opened Encap
  import opened DataPlane
  import opened Flows

  /** The address the ring gives a flow hash: a function of the pairs in the ring and the mode alone. */
  ghost function AddrAt(pairs: map<U32, nat>, mode: HashMode, h: Hashes, hash: U32): (a: Option<U32>)
    requires Positive(pairs)
  {
    RingSizeIsPrime();
    AddrRing(pairs, mode, RING_SIZE, h)[hash % RING_SIZE]
  }

  /** A VIP served by a daemon in a settled state, with a table filled under the ring in force. */
  ghost predicate Serves(s: Lb, dp: Dp, k: VipSpec, h: Hashes, mc: Machine) {
    && Inv(s) && k in s.vips && Steady(s, h, k) && DpOk(dp)
    && Cached(dp, k, VipRing(s.vips[k].members, s.t.byAddr, s.hash, h), mc)
  }

  lemma ServesInForce(s: Lb, dp: Dp, k: VipSpec, h: Hashes, mc: Machine)
    requires Serves(s, dp, k, h, mc)
    ensures IdsInRange(s.t.k.maps) && InForce(s.t.k.maps, k, s.vips[k].id,
            VipRing(s.vips[k].members, s.t.byAddr, s.hash, h))
  {
    assert Holds(s, TablePart);
    forall j | j in s.t.k.maps.vipMap
      ensures s.t.k.maps.vipMap[j].id < MAX_VIPS
    {
      assert VipSafe(s.t.k.maps, j);
    }
  }

  /** The ring slot of a hash holds the id of that address, and the id is live under it. */
  lemma SlotMeansAddress(s: Lb, k: VipSpec, h: Hashes, hash: U32)
    requires Inv(s) && k in s.vips && Steady(s, h, k)
    ensures var pairs, m := InRing(s.vips[k].members), s.t.k.maps;
            var id := RingLookup(m, s.vips[k].id, hash);
            match AddrAt(pairs, s.hash, h, hash)
            case None => id == REAL_NONE
            case Some(a) => a in s.t.byAddr && id == s.t.byAddr[a] && Sendable(m, id) && m.reals[id] == a
  {
    Open(s);
    var v, slot := s.vips[k], hash % RING_SIZE;
    VipRingIs(v.members, s.t.byAddr, s.hash, h);
    AddrRingIsWhole(InRing(v.members), s.hash, RING_SIZE, h, slot);
    var at := AddrAt(InRing(v.members), s.hash, h, hash);
    if at.Some? {
      var a := at.value;
      assert AddrOk(s.t.slots, s.t.byAddr, a);
      assert SlotShown(s.t.slots[s.t.byAddr[a]], s.t.k.maps, s.t.byAddr[a])
        && SlotOk(s.t.slots, s.t.byAddr, s.t.byAddr[a]);
    }
  }

  /** Where the packet goes, said without ids: to the address the ring gives its hash, or nowhere. */
  lemma SentToAddress(s: Lb, dp: Dp, a: Arrival, k: VipSpec, h: Hashes, mc: Machine)
    requires Serves(s, dp, k, h, mc) && a.cpu < |dp.cpus| && a.headroom >= IP_LEN
    requires Asked(s.t.k.maps, a, mc).Some? && KeyOf(Asked(s.t.k.maps, a, mc).value.flow) == k
    ensures IdsInRange(s.t.k.maps)
    ensures var v, q := Step(dp, s.t.k.maps, a, mc).verdict, Asked(s.t.k.maps, a, mc).value;
            match AddrAt(InRing(s.vips[k].members), s.hash, h, q.hash)
            case None => v == Drop
            case Some(addr) => v.Tx? && |v.out| >= 34 && Load32(v.out, 30, mc.endian) == addr
                               && Load32(v.out, 26, mc.endian) == OuterSource(s.t.k.maps.config, q.hash)
  {
    var m, q := s.t.k.maps, Asked(s.t.k.maps, a, mc).value;
    ServesInForce(s, dp, k, h, mc);
    PickedIsRing(dp, m, a, mc, k, s.vips[k].id, VipRing(s.vips[k].members, s.t.byAddr, s.hash, h));
    SlotMeansAddress(s, k, h, q.hash);
    StepVerdict(dp, m, a, mc);
    var p := Parse(a.frame, m.config.icmpPmtu, mc.endian);
    ParsedFacts(a.frame, m.config.icmpPmtu, mc.endian);
    if AddrAt(InRing(s.vips[k].members), s.hash, h, q.hash).Some? {
      EncapsulatedFacts(a.frame, JobOf(m, p, RingLookup(m, q.vipId, q.hash), q.hash, mc.endian), mc.endian);
    }
  }

  /** Same encap prefix and, for an ICMP frame, the same handling of ICMP. */
  ghost predicate SameOutside(c1: PbConfig, c2: PbConfig, frame: seq<U8>) {
    c1.prefix == c2.prefix && c1.mask == c2.mask && SameIcmp(c1, c2, frame)
  }

  ghost predicate SameIcmp(c1: PbConfig, c2: PbConfig, frame: seq<U8>) {
    |frame| > 23 && frame[23] == ICMP ==> c1.icmpPmtu == c2.icmpPmtu
  }

  /**
   Failover: two load balancers that agree on the (address, weight) pairs in a VIP's ring, the hash
   mode and the encap prefix, with any real ids, any order of insertion, any allocation history and
   any table filled under that ring, send a frame of the VIP to the same outer destination from the
   same outer source, or both drop it.
   */
  lemma FailoverAgrees(s1: Lb, dp1: Dp, a1: Arrival, s2: Lb, dp2: Dp, a2: Arrival, k: VipSpec, h: Hashes, mc: Machine)
    requires Serves(s1, dp1, k, h, mc) && Serves(s2, dp2, k, h, mc)
    requires InRing(s1.vips[k].members) == InRing(s2.vips[k].members) && s1.hash == s2.hash
    requires SameOutside(s1.t.k.maps.config, s2.t.k.maps.config, a1.frame)
    requires a1.frame == a2.frame && a1.headroom >= IP_LEN && a2.headroom >= IP_LEN && a1.cpu < |dp1.cpus|
             && a2.cpu < |dp2.cpus|
    requires Asked(s1.t.k.maps, a1, mc).Some? && KeyOf(Asked(s1.t.k.maps, a1, mc).value.flow) == k
    ensures IdsInRange(s1.t.k.maps) && IdsInRange(s2.t.k.maps)
    ensures var v1, v2 := Step(dp1, s1.t.k.maps, a1, mc).verdict, Step(dp2, s2.t.k.maps, a2, mc).verdict;
            || (v1 == Drop && v2 == Drop)
            || (v1.Tx? && v2.Tx? && |v1.out| >= 34 && |v2.out| >= 34
                && Load32(v1.out, 30, mc.endian) == Load32(v2.out, 30, mc.endian)
                && Load32(v1.out, 26, mc.endian) == Load32(v2.out, 26, mc.endian))
  {
    AskedAlike(s1.t.k.maps, a1, s2.t.k.maps, a2, mc);
    ServesInForce(s2, dp2, k, h, mc);
    SentToAddress(s1, dp1, a1, k, h, mc);
    SentToAddress(s2, dp2, a2, k, h, mc);
  }

  lemma AskedAlike(m1: Maps, a1: Arrival, m2: Maps, a2: Arrival, mc: Machine)
    requires a1.frame == a2.frame && SameIcmp(m1.config, m2.config, a1.frame) && Asked(m1, a1, mc).Some?
    ensures KeyOf(Asked(m1, a1, mc).value.flow) in m2.vipMap ==>
              && Asked(m2, a2, mc).Some? && Asked(m2, a2, mc).value.flow == Asked(m1, a1, mc).value.flow
              && Asked(m2, a2, mc).value.hash == Asked(m1, a1, mc).value.hash
  {
  }

  // ---- between two writes

  /**
   At every map state the control plane passes through: a packet placed by the ring can be sent
   unless the ring is empty, that is, unless the VIP has no real in its ring at all.
   */
  lemma RingPlacedIsSendable(m: Maps, k: VipSpec, hash: U32)
    requires MapsSafe(m) && k in m.vipMap
    ensures m.vipMap[k].id in m.rings
    ensures var id, ring := RingLookup(m, m.vipMap[k].id, hash), m.rings[m.vipMap[k].id];
            Sendable(m, id) || (id == REAL_NONE && forall s :: 0 <= s < |ring| ==> ring[s] == REAL_NONE)
  {
    assert VipSafe(m, k);
    var ring := m.rings[m.vipMap[k].id];
    assert Live(m, ring[hash % RING_SIZE]) || ring[hash % RING_SIZE] == REAL_NONE;
  }

  /** A settled VIP's ring is empty exactly when no member is in it. */
  lemma EmptyRingIff(s: Lb, k: VipSpec, h: Hashes, hash: U32)
    requires Inv(s) && k in s.vips && Steady(s, h, k)
    ensures RingLookup(s.t.k.maps, s.vips[k].id, hash) == REAL_NONE <==> InRing(s.vips[k].members) == map[]
  {
    SlotMeansAddress(s, k, h, hash);
    RingSizeIsPrime();
    AddrRingIsWhole(InRing(s.vips[k].members), s.hash, RING_SIZE, h, hash % RING_SIZE);
    assert Holds(s, TablePart);
  }
}
