/**
 The pinned maps the two planes share, one write at a time. The data plane may run, and the
 daemon may die, between any two writes, so what matters is what holds after each of them.
 */
module Maps {
  import opened Basics

  datatype VipSpec = VipSpec(addr: U32, port: U16, proto: U8)

  datatype VipValue = VipValue(id: nat, noConntrack: bool)

  datatype Mac = Mac(b0: U8, b1: U8, b2: U8, b3: U8, b4: U8, b5: U8)

  const NO_MAC: Mac := Mac(0, 0, 0, 0, 0, 0)

  datatype PbConfig = PbConfig(lbMac: Mac, prefix: U32, mask: U32, noConntrack: bool, icmpPmtu: bool)

  /** `reals` and `neigh` are arrays indexed by real id; address 0 marks a free slot. */
  datatype Maps = Maps(vipMap: map<VipSpec, VipValue>, rings: map<nat, seq<U32>>, reals: seq<U32>,
                       neigh: seq<Mac>, config: PbConfig)

  datatype Write =
    | PutVip(key: VipSpec, value: VipValue)
    | DelVip(key: VipSpec)
    | PutRing(vipId: nat, ring: seq<U32>)
    | DelRing(vipId: nat)
    | PutReal(realId: nat, addr: U32)
    | PutNeigh(realId: nat, mac: Mac)
    | PutConfig(config: PbConfig)
    | ResetVip(vipId: nat)
    | ResetReal(realId: nat)

  /** The maps after one update call. Counter resets touch none of the maps modelled here. */
  function Perform(m: Maps, w: Write): (m': Maps) {
    match w
    case PutVip(k, v) => m.(vipMap := m.vipMap[k := v])
    case DelVip(k) => m.(vipMap := m.vipMap - {k})
    case PutRing(id, ring) => m.(rings := m.rings[id := ring])
    case DelRing(id) => m.(rings := m.rings - {id})
    case PutReal(id, a) => if id < |m.reals| then m.(reals := m.reals[id := a]) else m
    case PutNeigh(id, mac) => if id < |m.neigh| then m.(neigh := m.neigh[id := mac]) else m
    case PutConfig(c) => m.(config := c)
    case ResetVip(_) => m
    case ResetReal(_) => m
  }

  // ---- what the data plane relies on

  ghost predicate Sized(m: Maps) {
    |m.reals| == |m.neigh| == MAX_REALS && m.reals[0] == 0
  }

  ghost predicate Live(m: Maps, id: U32) {
    0 < id < |m.reals| && id < |m.neigh| && m.reals[id] != 0 && m.neigh[id] != NO_MAC
  }

  /** A whole ring: no slot taken, or every slot names a real with an address and a MAC. */
  ghost predicate RingSafe(m: Maps, ring: seq<U32>) {
    && |ring| == RING_SIZE
    && ((forall s :: 0 <= s < |ring| ==> ring[s] == REAL_NONE) || (forall s :: 0 <= s < |ring| ==> Live(m, ring[s])))
  }

  ghost predicate VipSafe(m: Maps, k: VipSpec)
    requires k in m.vipMap
  {
    var id := m.vipMap[k].id;
    id < MAX_VIPS && id in m.rings && RingSafe(m, m.rings[id])
  }

  ghost predicate DistinctReals(m: Maps) {
    forall i: nat, j: nat :: i < j < |m.reals| ==> Differ(m, i, j)
  }

  ghost predicate Differ(m: Maps, i: nat, j: nat)
    requires i < |m.reals| && j < |m.reals|
  {
    m.reals[i] != 0 ==> m.reals[i] != m.reals[j]
  }

  ghost predicate DistinctIds(m: Maps) {
    forall j, k :: j in m.vipMap && k in m.vipMap && j != k ==> m.vipMap[j].id != m.vipMap[k].id
  }

  ghost predicate MapsSafe(m: Maps) {
    && Sized(m) && DistinctReals(m) && DistinctIds(m)
    && forall k {:trigger VipSafe(m, k)} :: k in m.vipMap ==> VipSafe(m, k)
  }

  /** No ring that a packet can reach mentions this real id. */
  ghost predicate Unused(m: Maps, id: nat) {
    forall k :: k in m.vipMap && m.vipMap[k].id in m.rings ==> id !in m.rings[m.vipMap[k].id]
  }

  /** The guard under which a single write keeps the maps safe. */
  ghost predicate Allowed(m: Maps, w: Write) {
    match w
    case PutVip(k, v) =>
      && v.id < MAX_VIPS && v.id in m.rings && RingSafe(m, m.rings[v.id])
      && forall j :: j in m.vipMap && j != k ==> m.vipMap[j].id != v.id
    case PutRing(id, ring) => RingSafe(m, ring)
    case DelRing(id) => forall k :: k in m.vipMap ==> m.vipMap[k].id != id
    case PutReal(id, a) =>
      0 < id < |m.reals| && (a == m.reals[id] || (m.reals[id] == 0 && a !in m.reals) || (a == 0 && Unused(m, id)))
    case PutNeigh(id, mac) => id < |m.reals| && (mac != NO_MAC || m.reals[id] == 0)
    case _ => true
  }

  lemma RingSafeMono(m: Maps, m': Maps, ring: seq<U32>)
    requires RingSafe(m, ring) && forall id: U32 :: Live(m, id) && id in ring ==> Live(m', id)
    ensures RingSafe(m', ring)
  {
    if forall s :: 0 <= s < |ring| ==> ring[s] == REAL_NONE {
    } else {
      forall s | 0 <= s < |ring|
        ensures Live(m', ring[s])
      {
        assert Live(m, ring[s]) && ring[s] in ring;
      }
    }
  }

  lemma KeepsVips(m: Maps, m': Maps)
    requires MapsSafe(m) && m'.vipMap == m.vipMap && m'.rings == m.rings
    requires forall id: U32 :: Live(m, id) && !Live(m', id) ==> Unused(m, id)
    ensures forall k :: k in m'.vipMap ==> VipSafe(m', k)
  {
    forall k | k in m'.vipMap
      ensures VipSafe(m', k)
    {
      assert VipSafe(m, k);
      RingSafeMono(m, m', m.rings[m.vipMap[k].id]);
    }
  }

  /** Every guarded write keeps the maps safe, whichever map it goes to. */
  lemma GuardedWriteIsSafe(m: Maps, w: Write)
    requires MapsSafe(m) && Allowed(m, w)
    ensures MapsSafe(Perform(m, w))
  {
    var m' := Perform(m, w);
    match w
    case PutReal(id, a) =>
      KeepsVips(m, m');
      forall i: nat, j: nat | i < j < |m'.reals|
        ensures Differ(m', i, j)
      {
        assert Differ(m, i, j);
      }
    case PutNeigh(id, mac) =>
      KeepsVips(m, m');
      SameAddresses(m, m');
    case PutRing(id, ring) => RingStored(m, id, ring);
    case DelRing(id) => RingRemoved(m, id);
    case PutVip(k, v) => VipStored(m, k, v);
    case DelVip(k) => VipRemoved(m, k);
    case PutConfig(_) => SameEverything(m, m');
    case ResetVip(_) =>
    case ResetReal(_) =>
  }

  lemma SameEverything(m: Maps, m': Maps)
    requires MapsSafe(m) && m' == m.(config := m'.config)
    ensures MapsSafe(m')
  {
    SameAddresses(m, m');
    KeepsVips(m, m');
  }

  lemma SameAddresses(m: Maps, m': Maps)
    requires DistinctReals(m) && m'.reals == m.reals
    ensures DistinctReals(m')
  {
    forall i: nat, j: nat | i < j < |m'.reals|
      ensures Differ(m', i, j)
    {
      assert Differ(m, i, j);
    }
  }

  lemma SameReals(m: Maps, m': Maps, ring: seq<U32>)
    requires RingSafe(m, ring) && m'.reals == m.reals && m'.neigh == m.neigh
    ensures RingSafe(m', ring)
  {
    RingSafeMono(m, m', ring);
  }

  lemma RingStored(m: Maps, id: nat, ring: seq<U32>)
    requires MapsSafe(m) && RingSafe(m, ring)
    ensures MapsSafe(Perform(m, PutRing(id, ring)))
  {
    var m' := Perform(m, PutRing(id, ring));
    SameAddresses(m, m');
    forall k | k in m'.vipMap
      ensures VipSafe(m', k)
    {
      assert VipSafe(m, k);
      SameReals(m, m', m'.rings[m.vipMap[k].id]);
    }
  }

  lemma RingRemoved(m: Maps, id: nat)
    requires MapsSafe(m) && forall k :: k in m.vipMap ==> m.vipMap[k].id != id
    ensures MapsSafe(Perform(m, DelRing(id)))
  {
    var m' := Perform(m, DelRing(id));
    SameAddresses(m, m');
    forall k | k in m'.vipMap
      ensures VipSafe(m', k)
    {
      assert VipSafe(m, k);
      SameReals(m, m', m.rings[m.vipMap[k].id]);
    }
  }

  lemma VipStored(m: Maps, k: VipSpec, v: VipValue)
    requires MapsSafe(m) && Allowed(m, PutVip(k, v))
    ensures MapsSafe(Perform(m, PutVip(k, v)))
  {
    var m' := Perform(m, PutVip(k, v));
    SameAddresses(m, m');
    forall j | j in m'.vipMap
      ensures VipSafe(m', j)
    {
      assert j != k ==> VipSafe(m, j);
      SameReals(m, m', m.rings[m'.vipMap[j].id]);
    }
  }

  lemma VipRemoved(m: Maps, k: VipSpec)
    requires MapsSafe(m)
    ensures MapsSafe(Perform(m, DelVip(k)))
  {
    var m' := Perform(m, DelVip(k));
    SameAddresses(m, m');
    forall j | j in m'.vipMap
      ensures VipSafe(m', j)
    {
      assert VipSafe(m, j);
      SameReals(m, m', m.rings[m.vipMap[j].id]);
    }
  }

  // ---- the record of every map state

  datatype Entry = Entry(write: Write, after: Maps)

  ghost predicate AllSafe(log: seq<Entry>, from: nat) {
    forall i :: from <= i < |log| ==> MapsSafe(log[i].after)
  }

  /** Nothing that is live has been renumbered, readdressed, unresolved or taken off the VIP list. */
  ghost predicate Extends(m: Maps, m': Maps) {
    && |m'.reals| == |m.reals| && |m'.neigh| == |m.neigh|
    && (forall id :: 0 <= id < |m.reals| && m.reals[id] != 0 ==> m'.reals[id] == m.reals[id])
    && (forall id :: 0 <= id < |m.reals| && id < |m.neigh| && m.reals[id] != 0 && m.neigh[id] != NO_MAC ==>
          m'.neigh[id] == m.neigh[id])
    && (forall k :: k in m.vipMap ==> k in m'.vipMap && m'.vipMap[k].id == m.vipMap[k].id)
  }

  /** Every state from entry `from` on extends `m`. */
  ghost predicate AllExtend(m: Maps, log: seq<Entry>, from: nat) {
    forall i :: from <= i < |log| ==> Extends(m, log[i].after)
  }

  // ---- the kernel's side, as a value and as an object

  /** The maps now, every state they have been in, and how many rings each vip id has been given. */
  datatype Plane = Plane(maps: Maps, log: seq<Entry>, installs: map<nat, nat>)

  ghost function Installed(installs: map<nat, nat>, id: nat): (n: nat) {
    if id in installs then installs[id] else 0
  }

  ghost function CountInstall(installs: map<nat, nat>, id: nat): (counted: map<nat, nat>) {
    installs[id := Installed(installs, id) + 1]
  }

  /** One update call. */
  ghost function Put(k: Plane, w: Write): (k': Plane) {
    var m := Perform(k.maps, w);
    Plane(m, k.log + [Entry(w, m)], if w.PutRing? then CountInstall(k.installs, w.vipId) else k.installs)
  }

  ghost predicate PlaneSafe(k: Plane) {
    MapsSafe(k.maps) && AllSafe(k.log, 0)
  }

  lemma PutSafe(k: Plane, w: Write)
    requires PlaneSafe(k) && Allowed(k.maps, w)
    ensures PlaneSafe(Put(k, w))
  {
    GuardedWriteIsSafe(k.maps, w);
  }

  /** From k to k' the maps only grew, at every write on the way. */
  ghost predicate Grown(k: Plane, k': Plane) {
    k.log <= k'.log && AllExtend(k.maps, k'.log, |k.log|) && Extends(k.maps, k'.maps)
  }

  lemma ExtendsTransitive(m: Maps, m1: Maps, m2: Maps)
    requires Extends(m, m1) && Extends(m1, m2)
    ensures Extends(m, m2)
  {
  }

  lemma GrownTransitive(k: Plane, k1: Plane, k2: Plane)
    requires Grown(k, k1) && Grown(k1, k2)
    ensures Grown(k, k2)
  {
    ExtendsTransitive(k.maps, k1.maps, k2.maps);
    forall i | |k.log| <= i < |k2.log|
      ensures Extends(k.maps, k2.log[i].after)
    {
      if i < |k1.log| {
        assert k2.log[i] == k1.log[i];
      } else {
        ExtendsTransitive(k.maps, k1.maps, k2.log[i].after);
      }
    }
  }

  lemma PutGrows(k: Plane, w: Write)
    requires Extends(k.maps, Perform(k.maps, w))
    ensures Grown(k, Put(k, w))
  {
  }

  /** Only the two arrays indexed by real id differ. */
  ghost predicate OnlyReals(m: Maps, m': Maps) {
    m' == m.(reals := m'.reals, neigh := m'.neigh)
  }

  /** The pinned maps. They outlive the daemon. */
  class Kernel {
    var maps: Maps
    ghost var log: seq<Entry>
    ghost var installs: map<nat, nat>

    ghost function View(): (k: Plane)
      reads this
    {
      Plane(maps, log, installs)
    }

    constructor (m: Maps)
      ensures View() == Plane(m, [], map[])
    {
      maps, log, installs := m, [], map[];
    }

    method Update(w: Write)
      modifies this
      ensures View() == Put(old(View()), w)
    {
      maps := Perform(maps, w);
      log := log + [Entry(w, maps)];
      installs := if w.PutRing? then CountInstall(installs, w.vipId) else installs;
    }
  }
}
