/**
 What the daemon knows about its VIPs and members, and the relations between that knowledge,
 the real table and the maps that every operation keeps.
 */
module LbModel {
  import opened Basics
  import opened Primes
  import opened BuildMaglev
  import opened Ring
  import opened Maps
  import opened Reals
  import opened Health

  datatype Member = Member(weight: U32, draining: bool, health: Health, inRing: bool, incarnation: nat)

  datatype Vip = Vip(id: nat, noConntrack: bool, generation: nat, members: map<U32, Member>)

  // ---- vip ids

  /** Distinct ids below the limit, and the VIP map shows the id the daemon holds for each VIP. */
  ghost predicate IdsOk(vips: map<VipSpec, Vip>, adopted: map<VipSpec, nat>, vipMap: map<VipSpec, VipValue>) {
    && (forall k :: k in vips ==> vips[k].id < MAX_VIPS && k !in adopted)
    && (forall j, k :: j in vips && k in vips && j != k ==> vips[j].id != vips[k].id)
    && (forall k :: k in adopted ==> k in vipMap && vipMap[k].id == adopted[k])
    && (forall j, k :: j in vips && k in adopted ==> vips[j].id != adopted[k])
    && (forall k :: k in vipMap && k !in adopted ==> k in vips && vips[k].id == vipMap[k].id)
  }

  // ---- reference counts

  ghost function HolderSet(vips: map<VipSpec, Vip>, a: U32): (ks: set<VipSpec>) {
    set k | k in vips && a in vips[k].members
  }

  /** How many VIPs hold this address. */
  ghost function Holders(vips: map<VipSpec, Vip>, a: U32): (n: nat) {
    |HolderSet(vips, a)|
  }

  ghost predicate HeldAt(vips: map<VipSpec, Vip>, slots: seq<Slot>, byAddr: map<U32, U32>, leak: multiset<U32>, a: U32)
    requires a in byAddr
  {
    byAddr[a] < |slots| && slots[byAddr[a]].refs == Holders(vips, a) + leak[a]
  }

  /**
   Every member has an id, and the references of an address are the VIPs that hold it plus those
   in `leak`: taken off a VIP but not, or never, released.
   */
  ghost predicate HeldOk(vips: map<VipSpec, Vip>, slots: seq<Slot>, byAddr: map<U32, U32>, leak: multiset<U32>) {
    && (forall k, a :: k in vips && a in vips[k].members ==> a in byAddr)
    && (forall a :: a in leak ==> a in byAddr)
    && (forall a :: a in byAddr ==> HeldAt(vips, slots, byAddr, leak, a))
  }

  lemma HoldersDrop(vips: map<VipSpec, Vip>, k: VipSpec, a: U32)
    ensures Holders(vips - {k}, a) + (if k in vips && a in vips[k].members then 1 else 0) == Holders(vips, a)
  {
    var before, after := HolderSet(vips, a), HolderSet(vips - {k}, a);
    assert after == before - {k};
    assert before == after + (if k in before then {k} else {});
  }

  lemma HoldersPut(vips: map<VipSpec, Vip>, k: VipSpec, v: Vip, a: U32)
    ensures Holders(vips[k := v], a) + (if k in vips && a in vips[k].members then 1 else 0)
         == Holders(vips, a) + (if a in v.members then 1 else 0)
  {
    HoldersDrop(vips, k, a);
    HoldersDrop(vips[k := v], k, a);
    assert vips[k := v] - {k} == vips - {k};
  }

  lemma HolderCounts(vips: map<VipSpec, Vip>, k: VipSpec, a: U32)
    requires k in vips && a in vips[k].members
    ensures Holders(vips, a) > 0
  {
    assert k in HolderSet(vips, a);
  }

  // ---- generations

  ghost predicate GenOk(vips: map<VipSpec, Vip>, installs: map<nat, nat>, base: map<VipSpec, nat>) {
    forall k :: k in vips ==> k in base && vips[k].generation + base[k] == Installed(installs, vips[k].id)
  }

  // ---- health

  ghost predicate MemberHealth(m: Member, next: nat, reports: map<nat, seq<Report>>) {
    && m.incarnation < next && m.incarnation in reports
    && m.health == After(reports[m.incarnation], |reports[m.incarnation]|)
  }

  /** A member's health is what its own counted reports make of it, and no two share reports. */
  ghost predicate HealthOk(vips: map<VipSpec, Vip>, next: nat, reports: map<nat, seq<Report>>) {
    && (forall k, a :: k in vips && a in vips[k].members ==> MemberHealth(vips[k].members[a], next, reports))
    && (forall j, a, k, b :: Apart(vips, j, a, k, b))
  }

  ghost predicate Apart(vips: map<VipSpec, Vip>, j: VipSpec, a: U32, k: VipSpec, b: U32) {
    j in vips && a in vips[j].members && k in vips && b in vips[k].members && (j != k || a != b) ==>
      vips[j].members[a].incarnation != vips[k].members[b].incarnation
  }

  /** All of the above at once. */
  ghost predicate Consistent(vips: map<VipSpec, Vip>, adopted: map<VipSpec, nat>, vipMap: map<VipSpec, VipValue>,
                             slots: seq<Slot>, byAddr: map<U32, U32>, leak: multiset<U32>, installs: map<nat, nat>,
                             base: map<VipSpec, nat>, next: nat, reports: map<nat, seq<Report>>) {
    && IdsOk(vips, adopted, vipMap) && HeldOk(vips, slots, byAddr, leak) && GenOk(vips, installs, base)
    && HealthOk(vips, next, reports)
  }

  // ---- rings

  predicate Eligible(slots: seq<Slot>, byAddr: map<U32, U32>, a: U32, m: Member) {
    m.weight > 0 && !m.draining && m.health.up && a in byAddr && byAddr[a] < |slots| && slots[byAddr[a]].mac.Some?
  }

  /** The pairs a VIP's ring is built from: its members recorded in_ring, at their weights. */
  ghost function InRing(members: map<U32, Member>): (pairs: map<U32, nat>)
    ensures Positive(pairs)
  {
    map a | a in members && members[a].inRing && members[a].weight > 0 :: members[a].weight
  }

  /** Slot s of the ring of a VIP with these members. */
  ghost predicate VipSlot(ring: seq<U32>, members: map<U32, Member>, byAddr: map<U32, U32>, mode: HashMode, h: Hashes,
                          s: nat) {
    && GoodSize(RING_SIZE) && |ring| == RING_SIZE && s < RING_SIZE
    && ring[s] == RingOf(InRing(members), byAddr, mode, RING_SIZE, h)[s]
  }

  ghost predicate IsVipRing(ring: seq<U32>, members: map<U32, Member>, byAddr: map<U32, U32>, mode: HashMode,
                            h: Hashes) {
    |ring| == RING_SIZE && forall s: nat :: s < RING_SIZE ==> VipSlot(ring, members, byAddr, mode, h, s)
  }

  /** build_ring of the members recorded in_ring, numbered by the real table. */
  ghost function VipRing(members: map<U32, Member>, byAddr: map<U32, U32>, mode: HashMode, h: Hashes): (ring: seq<U32>)
    ensures |ring| == RING_SIZE
  {
    VipRingExists(members, byAddr, mode, h);
    var ring :| IsVipRing(ring, members, byAddr, mode, h);
    ring
  }

  lemma VipRingExists(members: map<U32, Member>, byAddr: map<U32, U32>, mode: HashMode, h: Hashes)
    ensures exists ring :: IsVipRing(ring, members, byAddr, mode, h)
  {
    RingSizeIsPrime();
    assert IsVipRing(RingOf(InRing(members), byAddr, mode, RING_SIZE, h), members, byAddr, mode, h);
  }

  lemma VipRingIs(members: map<U32, Member>, byAddr: map<U32, U32>, mode: HashMode, h: Hashes)
    ensures GoodSize(RING_SIZE)
    ensures VipRing(members, byAddr, mode, h) == RingOf(InRing(members), byAddr, mode, RING_SIZE, h)
  {
    RingSizeIsPrime();
    var ring := VipRing(members, byAddr, mode, h);
    var spec := RingOf(InRing(members), byAddr, mode, RING_SIZE, h);
    assert IsVipRing(ring, members, byAddr, mode, h);
    forall s: nat | s < RING_SIZE
      ensures ring[s] == spec[s]
    {
      assert VipSlot(ring, members, byAddr, mode, h, s);
    }
    assert ring == spec;
  }

  /** The ring a packet reads for a VIP mentions only addresses that are referenced. */
  ghost predicate Accounted(v: Vip, ring: seq<U32>, slots: seq<Slot>, leak: multiset<U32>) {
    forall s :: 0 <= s < |ring| && ring[s] != REAL_NONE ==>
      && ring[s] < |slots|
      && (slots[ring[s]].addr in v.members || slots[ring[s]].addr in leak)
  }

  /** The installed ring is the ring of the members recorded in_ring, and those are eligible. */
  ghost predicate Settled(v: Vip, rings: map<nat, seq<U32>>, slots: seq<Slot>, byAddr: map<U32, U32>, mode: HashMode,
                          h: Hashes) {
    && v.id in rings && rings[v.id] == VipRing(v.members, byAddr, mode, h)
    && forall a :: a in v.members && v.members[a].inRing ==> Eligible(slots, byAddr, a, v.members[a])
  }

  lemma VipRingSlot(members: map<U32, Member>, byAddr: map<U32, U32>, mode: HashMode, h: Hashes, s: nat)
    requires s < RING_SIZE
    ensures VipRing(members, byAddr, mode, h)[s] == REAL_NONE
         || exists a :: a in InRing(members) && a in byAddr && VipRing(members, byAddr, mode, h)[s] == byAddr[a]
    ensures InRing(members) == map[] ==> VipRing(members, byAddr, mode, h)[s] == REAL_NONE
    ensures InRing(members) != map[] && InRing(members).Keys <= byAddr.Keys ==>
              exists a :: a in InRing(members) && VipRing(members, byAddr, mode, h)[s] == byAddr[a]
  {
    VipRingIs(members, byAddr, mode, h);
    AddrRingIsWhole(InRing(members), mode, RING_SIZE, h, s);
  }

  // ---- what a change of the real table leaves alone

  /** The ring of some pairs depends only on the ids of those pairs. */
  lemma RingOfAgrees(pairs: map<U32, nat>, ids: map<U32, U32>, ids': map<U32, U32>, mode: HashMode, h: Hashes)
    requires Positive(pairs) && forall a :: a in pairs ==> a in ids && a in ids' && ids'[a] == ids[a]
    ensures GoodSize(RING_SIZE)
    ensures RingOf(pairs, ids, mode, RING_SIZE, h) == RingOf(pairs, ids', mode, RING_SIZE, h)
  {
    RingSizeIsPrime();
    var r, r' := RingOf(pairs, ids, mode, RING_SIZE, h), RingOf(pairs, ids', mode, RING_SIZE, h);
    forall s | 0 <= s < RING_SIZE
      ensures r[s] == r'[s]
    {
      AddrRingIsWhole(pairs, mode, RING_SIZE, h, s);
    }
    assert r == r';
  }

  lemma SettledKept(v: Vip, rings: map<nat, seq<U32>>, slots: seq<Slot>, byAddr: map<U32, U32>,
                    rings': map<nat, seq<U32>>, slots': seq<Slot>, byAddr': map<U32, U32>, mode: HashMode, h: Hashes)
    requires Settled(v, rings, slots, byAddr, mode, h)
    requires v.id in rings' && rings'[v.id] == rings[v.id]
    requires forall a :: a in v.members ==> KeepsAddr(slots, byAddr, slots', byAddr', a)
    ensures Settled(v, rings', slots', byAddr', mode, h)
  {
    RingOfAgrees(InRing(v.members), byAddr, byAddr', mode, h);
    VipRingIs(v.members, byAddr, mode, h);
    VipRingIs(v.members, byAddr', mode, h);
  }

  lemma AccountedKept(v: Vip, ring: seq<U32>, slots: seq<Slot>, byAddr: map<U32, U32>, leak: multiset<U32>,
                      slots': seq<Slot>, byAddr': map<U32, U32>)
    requires TableOk(slots, byAddr) && Accounted(v, ring, slots, leak)
    requires forall a :: a in v.members || a in leak ==> KeepsAddr(slots, byAddr, slots', byAddr', a)
    ensures Accounted(v, ring, slots', leak)
  {
    forall s | 0 <= s < |ring| && ring[s] != REAL_NONE
      ensures ring[s] < |slots'| && (slots'[ring[s]].addr in v.members || slots'[ring[s]].addr in leak)
    {
      assert SlotOk(slots, byAddr, ring[s]);
      assert KeepsAddr(slots, byAddr, slots', byAddr', slots[ring[s]].addr);
    }
  }

  /** A whole ring stays whole while the addresses it names keep their ids and MACs. */
  lemma RingSafeKept(v: Vip, ring: seq<U32>, slots: seq<Slot>, byAddr: map<U32, U32>, m: Maps, leak: multiset<U32>,
                     slots': seq<Slot>, byAddr': map<U32, U32>, m': Maps)
    requires TableOk(slots, byAddr) && Mirrors(slots, m) && TableOk(slots', byAddr') && Mirrors(slots', m')
    requires RingSafe(m, ring) && Accounted(v, ring, slots, leak)
    requires forall a :: a in v.members || a in leak ==> KeepsAddr(slots, byAddr, slots', byAddr', a)
    ensures RingSafe(m', ring)
  {
    forall id: U32 | Live(m, id) && id in ring
      ensures Live(m', id)
    {
      var s :| 0 <= s < |ring| && ring[s] == id;
      assert SlotShown(slots[id], m, id) && SlotShown(slots'[id], m', id) && SlotOk(slots', byAddr', id);
      assert SlotOk(slots, byAddr, id);
      assert KeepsAddr(slots, byAddr, slots', byAddr', slots[id].addr);
    }
    RingSafeMono(m, m', ring);
  }

  // ---- rings that may be installed

  /** A ring built from eligible members is whole and names only live reals. */
  lemma RebuiltIsSafe(members: map<U32, Member>, slots: seq<Slot>, byAddr: map<U32, U32>, m: Maps, mode: HashMode,
                      h: Hashes)
    requires TableOk(slots, byAddr) && Mirrors(slots, m)
    requires forall a :: a in members && members[a].inRing ==> Eligible(slots, byAddr, a, members[a])
    ensures RingSafe(m, VipRing(members, byAddr, mode, h))
  {
    var ring := VipRing(members, byAddr, mode, h);
    forall s | 0 <= s < |ring|
      ensures InRing(members) == map[] ==> ring[s] == REAL_NONE
      ensures InRing(members) != map[] ==> Live(m, ring[s])
    {
      VipRingSlot(members, byAddr, mode, h, s);
      if InRing(members) != map[] {
        var a :| a in InRing(members) && ring[s] == byAddr[a];
        assert AddrOk(slots, byAddr, a);
        assert SlotOk(slots, byAddr, byAddr[a]) && SlotShown(slots[byAddr[a]], m, byAddr[a]);
      }
    }
  }

  lemma SettledIsAccounted(v: Vip, rings: map<nat, seq<U32>>, slots: seq<Slot>, byAddr: map<U32, U32>, mode: HashMode,
                           h: Hashes, leak: multiset<U32>)
    requires TableOk(slots, byAddr) && Settled(v, rings, slots, byAddr, mode, h)
    ensures Accounted(v, rings[v.id], slots, leak)
  {
    var ring := rings[v.id];
    forall s | 0 <= s < |ring| && ring[s] != REAL_NONE
      ensures ring[s] < |slots| && slots[ring[s]].addr in v.members
    {
      VipRingSlot(v.members, byAddr, mode, h, s);
      var a :| a in InRing(v.members) && a in byAddr && ring[s] == byAddr[a];
      assert AddrOk(slots, byAddr, a);
    }
  }

  // ---- changing one VIP

  /** Same id and same members with the same health; weights, drain and in_ring may differ. */
  ghost predicate SameMembers(v: Vip, v': Vip) {
    && v'.id == v.id && v'.members.Keys == v.members.Keys
    && forall a :: a in v.members ==>
         v'.members[a].health == v.members[a].health && v'.members[a].incarnation == v.members[a].incarnation
  }

  lemma IdsTouched(vips: map<VipSpec, Vip>, adopted: map<VipSpec, nat>, vipMap: map<VipSpec, VipValue>, k: VipSpec,
                   v: Vip)
    requires IdsOk(vips, adopted, vipMap) && k in vips && v.id == vips[k].id
    ensures IdsOk(vips[k := v], adopted, vipMap)
  {
  }

  lemma HeldTouched(vips: map<VipSpec, Vip>, slots: seq<Slot>, byAddr: map<U32, U32>, leak: multiset<U32>, k: VipSpec,
                    v: Vip)
    requires HeldOk(vips, slots, byAddr, leak) && k in vips && v.members.Keys == vips[k].members.Keys
    ensures HeldOk(vips[k := v], slots, byAddr, leak)
  {
    forall a | a in byAddr
      ensures HeldAt(vips[k := v], slots, byAddr, leak, a)
    {
      assert HeldAt(vips, slots, byAddr, leak, a);
      HoldersPut(vips, k, v, a);
    }
  }

  lemma HealthTouched(vips: map<VipSpec, Vip>, next: nat, reports: map<nat, seq<Report>>, k: VipSpec, v: Vip)
    requires HealthOk(vips, next, reports) && k in vips && SameMembers(vips[k], v)
    ensures HealthOk(vips[k := v], next, reports)
  {
    var vips' := vips[k := v];
    forall j, a | j in vips' && a in vips'[j].members
      ensures MemberHealth(vips'[j].members[a], next, reports)
      ensures vips'[j].members[a].incarnation == vips[j].members[a].incarnation
    {
      assert MemberHealth(vips[j].members[a], next, reports);
    }
    forall i, a, j, b
      ensures Apart(vips', i, a, j, b)
    {
      assert Apart(vips, i, a, j, b);
    }
  }

  lemma GenTouched(vips: map<VipSpec, Vip>, installs: map<nat, nat>, base: map<VipSpec, nat>, k: VipSpec, v: Vip)
    requires GenOk(vips, installs, base) && k in vips && v.id == vips[k].id && v.generation == vips[k].generation
    ensures GenOk(vips[k := v], installs, base)
  {
  }

  /** One install for a VIP raises its generation by one and nobody else's. */
  lemma GenInstalled(vips: map<VipSpec, Vip>, installs: map<nat, nat>, base: map<VipSpec, nat>, k: VipSpec, v: Vip)
    requires GenOk(vips, installs, base) && k in vips && v.id == vips[k].id && v.generation == vips[k].generation + 1
    requires forall j :: j in vips && j != k ==> vips[j].id != v.id
    ensures GenOk(vips[k := v], CountInstall(installs, v.id), base)
  {
  }

  // ---- adding and removing members

  function NewMember(weight: U32, incarnation: nat): (m: Member) {
    Member(weight, false, NEW_REAL, false, incarnation)
  }

  ghost predicate HasRefs(slots: seq<Slot>, byAddr: map<U32, U32>, a: U32) {
    a in byAddr && byAddr[a] < |slots| && slots[byAddr[a]].refs > 0
  }

  lemma HeldAddedAt(vips: map<VipSpec, Vip>, slots: seq<Slot>, byAddr: map<U32, U32>, slots': seq<Slot>,
                    byAddr': map<U32, U32>, leak: multiset<U32>, k: VipSpec, addr: U32, v: Vip, a: U32)
    requires HeldOk(vips, slots, byAddr, leak) && k in vips && addr !in vips[k].members
             && v.members.Keys == vips[k].members.Keys + {addr}
    requires RefAdded(slots, byAddr, slots', byAddr', addr) && a in byAddr'
    ensures HeldAt(vips[k := v], slots', byAddr', leak, a)
  {
    HoldersPut(vips, k, v, a);
    assert RefsAfter(slots, byAddr, slots', byAddr', addr, a);
    if a in byAddr {
      assert HeldAt(vips, slots, byAddr, leak, a);
    } else {
      NobodyHolds(vips, a);
    }
  }

  lemma HeldAdded(vips: map<VipSpec, Vip>, slots: seq<Slot>, byAddr: map<U32, U32>, slots': seq<Slot>,
                  byAddr': map<U32, U32>, leak: multiset<U32>, k: VipSpec, addr: U32, m: Member)
    requires HeldOk(vips, slots, byAddr, leak) && k in vips && addr !in vips[k].members
    requires RefAdded(slots, byAddr, slots', byAddr', addr)
    ensures HeldOk(vips[k := vips[k].(members := vips[k].members[addr := m])], slots', byAddr', leak)
  {
    var v := vips[k].(members := vips[k].members[addr := m]);
    assert v.members.Keys == vips[k].members.Keys + {addr};
    forall a | a in byAddr'
      ensures HeldAt(vips[k := v], slots', byAddr', leak, a)
    {
      HeldAddedAt(vips, slots, byAddr, slots', byAddr', leak, k, addr, v, a);
    }
  }

  lemma NobodyHolds(vips: map<VipSpec, Vip>, a: U32)
    requires forall k :: k in vips ==> a !in vips[k].members
    ensures Holders(vips, a) == 0
  {
    assert HolderSet(vips, a) == {};
  }

  lemma HealthAdded(vips: map<VipSpec, Vip>, next: nat, reports: map<nat, seq<Report>>, k: VipSpec, addr: U32,
                    weight: U32)
    requires HealthOk(vips, next, reports) && k in vips && addr !in vips[k].members
    ensures HealthOk(vips[k := vips[k].(members := vips[k].members[addr := NewMember(weight, next)])], next + 1,
            reports[next := []])
  {
    var v := vips[k].(members := vips[k].members[addr := NewMember(weight, next)]);
    var vips', reports' := vips[k := v], reports[next := []];
    forall j, a | j in vips' && a in vips'[j].members
      ensures MemberHealth(vips'[j].members[a], next + 1, reports')
    {
      assert j != k || a != addr ==> MemberHealth(vips[j].members[a], next, reports);
    }
    forall i, a, j, b
      ensures Apart(vips', i, a, j, b)
    {
      assert Apart(vips, i, a, j, b);
      assert i in vips && a in vips[i].members ==> MemberHealth(vips[i].members[a], next, reports);
      assert j in vips && b in vips[j].members ==> MemberHealth(vips[j].members[b], next, reports);
    }
  }

  lemma HealthDropped(vips: map<VipSpec, Vip>, next: nat, reports: map<nat, seq<Report>>, k: VipSpec, v: Vip)
    requires HealthOk(vips, next, reports) && k in vips
    requires forall a :: a in v.members ==> a in vips[k].members && v.members[a] == vips[k].members[a]
    ensures HealthOk(vips[k := v], next, reports)
  {
    var vips' := vips[k := v];
    forall j, a | j in vips' && a in vips'[j].members
      ensures MemberHealth(vips'[j].members[a], next, reports)
    {
      assert MemberHealth(vips[j].members[a], next, reports);
    }
    forall i, a, j, b
      ensures Apart(vips', i, a, j, b)
    {
      assert Apart(vips, i, a, j, b);
    }
  }

  /** A member taken off a VIP but not yet released is still accounted for. */
  lemma HeldRemoved(vips: map<VipSpec, Vip>, slots: seq<Slot>, byAddr: map<U32, U32>, leak: multiset<U32>, k: VipSpec,
                    gone: set<U32>)
    requires HeldOk(vips, slots, byAddr, leak) && k in vips && gone <= vips[k].members.Keys
    ensures HeldOk(vips[k := vips[k].(members := vips[k].members - gone)], slots, byAddr, leak + multiset(gone))
  {
    var v := vips[k].(members := vips[k].members - gone);
    forall a | a in byAddr
      ensures HeldAt(vips[k := v], slots, byAddr, leak + multiset(gone), a)
    {
      HoldersPut(vips, k, v, a);
      assert HeldAt(vips, slots, byAddr, leak, a);
    }
  }

  lemma HeldDeleted(vips: map<VipSpec, Vip>, slots: seq<Slot>, byAddr: map<U32, U32>, leak: multiset<U32>, k: VipSpec)
    requires HeldOk(vips, slots, byAddr, leak) && k in vips
    ensures HeldOk(vips - {k}, slots, byAddr, leak + multiset(vips[k].members.Keys))
  {
    forall a | a in byAddr
      ensures HeldAt(vips - {k}, slots, byAddr, leak + multiset(vips[k].members.Keys), a)
    {
      HoldersDrop(vips, k, a);
      assert HeldAt(vips, slots, byAddr, leak, a);
    }
  }

  function Joined(v: Vip, addr: U32, weight: U32, incarnation: nat): (v': Vip) {
    v.(members := v.members[addr := NewMember(weight, incarnation)])
  }

  lemma JoinKeeps(vips: map<VipSpec, Vip>, adopted: map<VipSpec, nat>, vipMap: map<VipSpec, VipValue>, slots: seq<Slot>,
                  byAddr: map<U32, U32>, leak: multiset<U32>, installs: map<nat, nat>, base: map<VipSpec, nat>,
                  next: nat, reports: map<nat, seq<Report>>, slots': seq<Slot>, byAddr': map<U32, U32>, k: VipSpec,
                  addr: U32, weight: U32)
    requires Consistent(vips, adopted, vipMap, slots, byAddr, leak, installs, base, next, reports)
    requires k in vips && addr !in vips[k].members && RefAdded(slots, byAddr, slots', byAddr', addr)
    ensures Consistent(vips[k := Joined(vips[k], addr, weight, next)], adopted, vipMap, slots', byAddr', leak,
                       installs, base, next + 1, reports[next := []])
  {
    var v := Joined(vips[k], addr, weight, next);
    HeldAdded(vips, slots, byAddr, slots', byAddr', leak, k, addr, NewMember(weight, next));
    HealthAdded(vips, next, reports, k, addr, weight);
    IdsTouched(vips, adopted, vipMap, k, v);
    GenTouched(vips, installs, base, k, v);
  }
}
