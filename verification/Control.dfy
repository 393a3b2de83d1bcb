/**
 The control plane as functions on values: what every operation does to the daemon's state and
 which map writes it makes, in order. Loops over a std::map run in key order.
 */
module Control {
  import opened Basics
  import opened BuildMaglev
  import opened Ring
  import opened Maps
  import opened Reals
  import opened Health
  import opened LbModel

  datatype Lb = Lb(vips: map<VipSpec, Vip>, adopted: map<VipSpec, nat>, hash: HashMode, nextHop: Option<U32>,
                   initialized: bool, next: nat, t: Tab, leak: multiset<U32>, base: map<VipSpec, nat>,
                   reports: map<nat, seq<Report>>)

  /** An operation that may stop half way: the state it leaves, and whether it completed. */
  datatype Done = Done(s: Lb, ok: bool)

  ghost function Send(s: Lb, w: Write): (s': Lb) {
    s.(t := s.t.(k := Put(s.t.k, w)))
  }

  // ---- key order

  ghost predicate Lowest(s: set<U32>, a: U32) {
    a in s && forall b :: b in s ==> a <= b
  }

  ghost function Least(s: set<U32>): (a: U32)
    requires s != {}
    ensures Lowest(s, a)
  {
    HasLeast(s);
    var a :| Lowest(s, a);
    a
  }

  lemma {:induction false} HasLeast(s: set<U32>)
    requires s != {}
    ensures exists a :: Lowest(s, a)
  {
    var x :| x in s;
    var rest := s - {x};
    if rest == {} {
      assert forall b :: b in s ==> b == x || b in rest;
      assert Lowest(s, x);
    } else {
      HasLeast(rest);
      var y :| Lowest(rest, y);
      assert forall b :: b in s ==> b == x || b in rest;
      assert Lowest(s, x) || Lowest(s, y);
    }
  }

  function Key(k: VipSpec): (n: nat) {
    k.addr * 0x100_0000 + k.port * 0x100 + k.proto
  }

  ghost predicate Foremost(s: set<VipSpec>, k: VipSpec) {
    k in s && forall j :: j in s ==> Key(k) <= Key(j)
  }

  ghost function First(s: set<VipSpec>): (k: VipSpec)
    requires s != {}
    ensures Foremost(s, k)
  {
    HasFirst(s);
    var k :| Foremost(s, k);
    k
  }

  lemma {:induction false} HasFirst(s: set<VipSpec>)
    requires s != {}
    ensures exists k :: Foremost(s, k)
  {
    var x :| x in s;
    var rest := s - {x};
    if rest == {} {
      assert forall b :: b in s ==> b == x || b in rest;
      assert Foremost(s, x);
    } else {
      HasFirst(rest);
      var y :| Foremost(rest, y);
      assert forall b :: b in s ==> b == x || b in rest;
      assert Foremost(s, x) || Foremost(s, y);
    }
  }

  // ---- rings

  /** The member as rebuild_locked leaves it. */
  function Refreshed(slots: seq<Slot>, byAddr: map<U32, U32>, a: U32, m: Member): (m': Member) {
    m.(inRing := Eligible(slots, byAddr, a, m))
  }

  ghost function RefreshedAll(slots: seq<Slot>, byAddr: map<U32, U32>,
                              members: map<U32, Member>): (r: map<U32, Member>) {
    map a | a in members :: Refreshed(slots, byAddr, a, members[a])
  }

  ghost function Rebuilt(v: Vip, slots: seq<Slot>, byAddr: map<U32, U32>): (v': Vip) {
    v.(generation := v.generation + 1, members := RefreshedAll(slots, byAddr, v.members))
  }

  /** rebuild_locked: in_ring decided anew, the ring built in private, one store. */
  ghost function Rebuild(s: Lb, k: VipSpec, h: Hashes): (s': Lb)
    requires k in s.vips
  {
    var v := Rebuilt(s.vips[k], s.t.slots, s.t.byAddr);
    Send(s.(vips := s.vips[k := v]), PutRing(v.id, VipRing(v.members, s.t.byAddr, s.hash, h)))
  }

  // ---- members

  ghost function Resolve(t: Tab, addr: U32, nextHop: Option<U32>, arp: map<U32, Mac>): (t': Tab)
    requires Ranged(t)
    ensures Ranged(t')
  {
    assert InRange(t.slots, t.byAddr, addr);
    var target := if nextHop.Some? then nextHop.value else addr;
    if addr in t.byAddr && t.slots[t.byAddr[addr]].mac.None? && target in arp then SetMac(t, addr, arp[target]) else t
  }

  /** add_member_locked; None, and nothing changes, when the address cannot get an id. */
  ghost function AddMember(s: Lb, k: VipSpec, addr: U32, weight: U32, arp: map<U32, Mac>): (r: Option<Lb>)
    requires Ranged(s.t) && k in s.vips
    ensures r.Some? ==> Ranged(r.value.t) && k in r.value.vips
  {
    var got := Acquire(s.t, addr);
    if got.None? then None else
      Some(s.(t := Resolve(got.value, addr, s.nextHop, arp),
        vips := s.vips[k := Joined(s.vips[k], addr, weight, s.next)],
              next := s.next + 1, reports := s.reports[s.next := []]))
  }

  /** remove_member_locked for a set of members: they leave the model, their references stay. */
  ghost function RemoveMembers(s: Lb, k: VipSpec, gone: set<U32>): (s': Lb)
    requires k in s.vips
  {
    s.(vips := s.vips[k := s.vips[k].(members := s.vips[k].members - gone)], leak := s.leak + multiset(gone))
  }

  ghost function ReleaseOne(s: Lb, a: U32): (s': Lb)
    requires Ranged(s.t)
    ensures Ranged(s'.t)
  {
    s.(t := Release(s.t, a), leak := s.leak - multiset{a})
  }

  ghost function ReleaseAll(s: Lb, todo: set<U32>): (s': Lb)
    requires Ranged(s.t)
    ensures Ranged(s'.t)
    decreases todo
  {
    if todo == {} then s else ReleaseAll(ReleaseOne(s, Least(todo)), todo - {Least(todo)})
  }

  /** The members of `want` not yet handled: new ones join, the weights of the others are set. */
  ghost function Merge(s: Lb, k: VipSpec, want: map<U32, U32>, todo: set<U32>, arp: map<U32, Mac>): (d: Done)
    requires Ranged(s.t) && k in s.vips && todo <= want.Keys
    ensures Ranged(d.s.t) && k in d.s.vips
    decreases todo
  {
    if todo == {} then Done(s, true) else
      var a := Least(todo);
      if a in s.vips[k].members then Merge(Reweigh(s, k, a, want[a]), k, want, todo - {a}, arp) else
        var r := AddMember(s, k, a, want[a], arp);
        if r.None? then Done(s, false) else Merge(r.value, k, want, todo - {a}, arp)
  }

  ghost function Reweigh(s: Lb, k: VipSpec, a: U32, weight: U32): (s': Lb)
    requires k in s.vips && a in s.vips[k].members
  {
    s.(vips := s.vips[k := s.vips[k].(members := s.vips[k].members[a := s.vips[k].members[a].(weight := weight)])])
  }

  // ---- VIPs

  ghost function SendVip(s: Lb, k: VipSpec): (s': Lb)
    requires k in s.vips
  {
    Send(s, PutVip(k, VipValue(s.vips[k].id, s.vips[k].noConntrack)))
  }

  ghost function UsedIds(s: Lb): (ids: set<nat>) {
    (set k | k in s.vips :: s.vips[k].id) + (set k | k in s.adopted :: s.adopted[k])
  }

  /** allocate_vip_id: the least id not in use, MAX_VIPS if there is none. */
  function LeastUnused(used: set<nat>, id: nat): (r: nat)
    requires id <= MAX_VIPS
    ensures id <= r <= MAX_VIPS && (r < MAX_VIPS ==> r !in used) && forall i :: id <= i < r ==> i in used
    decreases MAX_VIPS - id
  {
    if id == MAX_VIPS || id !in used then id else LeastUnused(used, id + 1)
  }

  /** The new VIP enters the model; an adopted one under its old id, with its counters. */
  ghost function Enter(s: Lb, k: VipSpec, noConntrack: bool): (r: Option<Lb>)
    ensures r.Some? ==> k in r.value.vips && r.value.t == s.t.(k := r.value.t.k)
  {
    if k in s.adopted then
      var id := s.adopted[k];
      Some(s.(vips := s.vips[k := Vip(id, noConntrack, 0, map[])], adopted := s.adopted - {k},
              base := s.base[k := Installed(s.t.k.installs, id)]))
    else
      var id := LeastUnused(UsedIds(s), 0);
      if id == MAX_VIPS then None else
        Some(Send(s, ResetVip(id)).(vips := s.vips[k := Vip(id, noConntrack, 0, map[])],
                                    base := s.base[k := Installed(s.t.k.installs, id)]))
  }

  /** create_vip_locked: members, then the ring, then the VIP map entry. */
  ghost function CreateVip(s: Lb, k: VipSpec, noConntrack: bool, want: map<U32, U32>, arp: map<U32, Mac>,
                           h: Hashes): (d: Done)
    requires Ranged(s.t)
    ensures Ranged(d.s.t)
  {
    var r := Enter(s, k, noConntrack);
    if r.None? then Done(s, false) else
      RangedSame(s.t, r.value.t);
      var d := Merge(r.value, k, want, want.Keys, arp);
      if !d.ok then d else Done(SendVip(Rebuild(d.s, k, h), k), true)
  }

  /**
   delete_vip_locked: the VIP map entry, then the ring, then the references. (The daemon erases its
   own record last; all of it happens under the lock and only the map writes can be seen.)
   */
  ghost function DeleteVip(s: Lb, k: VipSpec): (s': Lb)
    requires Ranged(s.t)
    ensures Ranged(s'.t)
  {
    if k !in s.vips then s else
      ReleaseAll(Forget(Send(Send(s, Write.DelVip(k)), DelRing(s.vips[k].id)), k), s.vips[k].members.Keys)
  }

  ghost function Forget(s: Lb, k: VipSpec): (s': Lb)
    requires k in s.vips
  {
    s.(vips := s.vips - {k}, leak := s.leak + multiset(s.vips[k].members.Keys))
  }

  // ---- the API

  ghost function AddVip(s: Lb, k: VipSpec, noConntrack: bool, arp: map<U32, Mac>, h: Hashes): (d: Done)
    requires Ranged(s.t)
    ensures Ranged(d.s.t)
  {
    if k in s.vips then Done(s, false) else CreateVip(s, k, noConntrack, map[], arp, h)
  }

  ghost function DelVip(s: Lb, k: VipSpec): (d: Done)
    requires Ranged(s.t)
    ensures Ranged(d.s.t)
  {
    if k !in s.vips then Done(s, false) else Done(DeleteVip(s, k), true)
  }

  ghost function AddReal(s: Lb, k: VipSpec, addr: U32, weight: U32, arp: map<U32, Mac>, h: Hashes): (d: Done)
    requires Ranged(s.t)
    ensures Ranged(d.s.t)
  {
    if k !in s.vips || addr == 0 || addr in s.vips[k].members || weight > MAX_WEIGHT then Done(s, false) else
      var r := AddMember(s, k, addr, weight, arp);
      if r.None? then Done(s, false) else Done(Rebuild(r.value, k, h), true)
  }

  ghost function DelReal(s: Lb, k: VipSpec, addr: U32, h: Hashes): (d: Done)
    requires Ranged(s.t)
    ensures Ranged(d.s.t)
  {
    if k !in s.vips || addr !in s.vips[k].members then Done(s, false) else
      Done(ReleaseOne(Rebuild(RemoveMembers(s, k, {addr}), k, h), addr), true)
  }

  ghost function SetWeight(s: Lb, k: VipSpec, addr: U32, weight: U32, h: Hashes): (d: Done)
    requires Ranged(s.t)
    ensures Ranged(d.s.t)
  {
    if weight > MAX_WEIGHT || k !in s.vips || addr !in s.vips[k].members then Done(s, false)
    else if s.vips[k].members[addr].weight == weight then Done(s, true)
    else Done(Rebuild(Reweigh(s, k, addr, weight), k, h), true)
  }

  ghost function Redrain(s: Lb, k: VipSpec, a: U32, draining: bool): (s': Lb)
    requires k in s.vips && a in s.vips[k].members
  {
    s.(vips := s.vips[k := s.vips[k].(members := s.vips[k].members[a := s.vips[k].members[a].(draining := draining)])])
  }

  ghost function SetDraining(s: Lb, k: VipSpec, addr: U32, draining: bool, h: Hashes): (d: Done)
    requires Ranged(s.t)
    ensures Ranged(d.s.t)
  {
    if k !in s.vips || addr !in s.vips[k].members then Done(s, false)
    else if s.vips[k].members[addr].draining == draining then Done(s, true)
    else Done(Rebuild(Redrain(s, k, addr, draining), k, h), true)
  }

  // ---- health and neighbours

  datatype Target = Target(vip: VipSpec, addr: U32, incarnation: nat)

  datatype Probe = Probe(ok: bool, localError: bool)

  /** A probe result counts if its member is still the one that was probed and the LB could probe at all. */
  ghost predicate Counts(s: Lb, x: Target, p: Probe) {
    && x.vip in s.vips && x.addr in s.vips[x.vip].members
    && s.vips[x.vip].members[x.addr].incarnation == x.incarnation && !p.localError
  }

  ghost function Noted(s: Lb, x: Target, r: Report): (s': Lb)
    requires x.vip in s.vips && x.addr in s.vips[x.vip].members
  {
    var v := s.vips[x.vip];
    var m := v.members[x.addr];
    s.(vips := s.vips[x.vip := v.(members := v.members[x.addr := m.(health := Observe(m.health, r))])],
       reports := s.reports[x.incarnation := (if x.incarnation in s.reports then s.reports[x.incarnation] else [])
         + [r]])
  }

  /** report_health: the member's counters move, and a flip rebuilds the ring. */
  ghost function ReportHealth(s: Lb, x: Target, p: Probe, rise: U32, fall: U32, h: Hashes): (s': Lb)
    requires Ranged(s.t)
    ensures Ranged(s'.t)
  {
    if !Counts(s, x, p) then s else
      var s1 := Noted(s, x, Report(p.ok, rise, fall));
      if s1.vips[x.vip].members[x.addr].health.up == s.vips[x.vip].members[x.addr].health.up then s1
      else Rebuild(s1, x.vip, h)
  }

  ghost function SetMacs(s: Lb, todo: set<U32>, mac: Mac): (s': Lb)
    requires Ranged(s.t)
    ensures Ranged(s'.t) && s' == s.(t := s'.t) && s'.t.byAddr == s.t.byAddr
    decreases todo
  {
    if todo == {} then s else SetMacs(s.(t := SetMac(s.t, Least(todo), mac)), todo - {Least(todo)}, mac)
  }

  ghost function RebuildAll(s: Lb, todo: set<VipSpec>, h: Hashes): (s': Lb)
    requires Ranged(s.t) && todo <= s.vips.Keys
    ensures Ranged(s'.t)
    decreases todo
  {
    if todo == {} then s else RebuildAll(Rebuild(s, First(todo), h), todo - {First(todo)}, h)
  }

  /** The reals whose MAC `ip` resolves. */
  ghost function Behind(s: Lb, ip: U32): (addrs: set<U32>) {
    if s.nextHop.Some? then (if ip == s.nextHop.value then s.t.byAddr.Keys else {})
    else if ip in s.t.byAddr then {ip} else {}
  }

  ghost function Unresolved(s: Lb, addrs: set<U32>): (r: set<U32>)
    requires Ranged(s.t)
  {
    set a | a in addrs && InRange(s.t.slots, s.t.byAddr, a) && a in s.t.byAddr && s.t.slots[s.t.byAddr[a]].mac.None?
  }

  ghost function HoldingAny(s: Lb, addrs: set<U32>): (ks: set<VipSpec>) {
    set k | k in s.vips && s.vips[k].members.Keys * addrs != {}
  }

  /** neighbor_resolved: MACs are stored, and VIPs with a newly usable real get a new ring. */
  ghost function NeighborResolved(s: Lb, ip: U32, mac: Mac, h: Hashes): (s': Lb)
    requires Ranged(s.t)
    ensures Ranged(s'.t)
  {
    var usable := Unresolved(s, Behind(s, ip));
    var s1 := SetMacs(s, Behind(s, ip), mac);
    RebuildAll(s1, HoldingAny(s1, usable), h)
  }

  // ---- configuration

  datatype RealConfig = RealConfig(addr: U32, weight: U32)

  datatype VipConfig = VipConfig(spec: VipSpec, noConntrack: bool, reals: seq<RealConfig>)

  datatype Config = Config(hash: HashMode, nextHop: Option<U32>, conntrack: bool, icmpPmtu: bool, prefix: U32,
                           mask: U32, vips: seq<VipConfig>)

  function ConfigOf(c: Config, lbMac: Mac): (m: PbConfig) {
    PbConfig(lbMac, c.prefix, c.mask, !c.conntrack, c.icmpPmtu)
  }

  /** addr -> weight, a later line for an address winning. */
  function WantTo(reals: seq<RealConfig>, n: nat): (want: map<U32, U32>)
    requires n <= |reals|
  {
    if n == 0 then map[] else WantTo(reals, n - 1)[reals[n - 1].addr := reals[n - 1].weight]
  }

  function Want(vc: VipConfig): (want: map<U32, U32>) {
    WantTo(vc.reals, |vc.reals|)
  }

  ghost function Specs(c: Config): (ks: set<VipSpec>) {
    set i | 0 <= i < |c.vips| :: c.vips[i].spec
  }

  ghost function Reflag(s: Lb, k: VipSpec, noConntrack: bool): (s': Lb)
    requires k in s.vips
  {
    if s.vips[k].noConntrack == noConntrack then s
    else SendVip(s.(vips := s.vips[k := s.vips[k].(noConntrack := noConntrack)]), k)
  }

  /** Whether the reload of this VIP touches its ring. */
  predicate RingChanges(v: Vip, want: map<U32, U32>, hashChanged: bool) {
    || hashChanged || v.members.Keys != want.Keys
    || exists a :: a in want && a in v.members && v.members[a].weight != want[a]
  }

  /** The members the configuration no longer lists. */
  ghost function Gone(s: Lb, vc: VipConfig): (gone: set<U32>)
    requires vc.spec in s.vips
  {
    s.vips[vc.spec].members.Keys - Want(vc).Keys
  }

  ghost function Prune(s: Lb, vc: VipConfig): (s': Lb)
    requires vc.spec in s.vips
    ensures vc.spec in s'.vips && s'.t == s.t.(k := s'.t.k)
  {
    RemoveMembers(Reflag(s, vc.spec, vc.noConntrack), vc.spec, Gone(s, vc))
  }

  /** One VIP of the configuration, already known: the difference is applied. */
  ghost function ReloadVip(s: Lb, vc: VipConfig, hashChanged: bool, arp: map<U32, Mac>, h: Hashes): (d: Done)
    requires Ranged(s.t) && vc.spec in s.vips
    ensures Ranged(d.s.t)
  {
    var d := Merge(Prune(s, vc), vc.spec, Want(vc), Want(vc).Keys, arp);
    if !d.ok then d else
      var s' := if RingChanges(s.vips[vc.spec], Want(vc), hashChanged) then Rebuild(d.s, vc.spec, h) else d.s;
      Done(ReleaseAll(s', Gone(s, vc)), true)
  }

  ghost function ApplyVip(s: Lb, vc: VipConfig, hashChanged: bool, arp: map<U32, Mac>, h: Hashes): (d: Done)
    requires Ranged(s.t)
    ensures Ranged(d.s.t)
  {
    if vc.spec in s.vips then ReloadVip(s, vc, hashChanged, arp, h)
    else CreateVip(s, vc.spec, vc.noConntrack, Want(vc), arp, h)
  }

  ghost function ApplyVips(s: Lb, vcs: seq<VipConfig>, n: nat, hashChanged: bool, arp: map<U32, Mac>,
                           h: Hashes): (d: Done)
    requires Ranged(s.t) && n <= |vcs|
    ensures Ranged(d.s.t)
  {
    if n == 0 then Done(s, true) else
      var d := ApplyVips(s, vcs, n - 1, hashChanged, arp, h);
      if !d.ok then d else ApplyVip(d.s, vcs[n - 1], hashChanged, arp, h)
  }

  ghost function DeleteAll(s: Lb, todo: set<VipSpec>): (s': Lb)
    requires Ranged(s.t)
    ensures Ranged(s'.t)
    decreases todo
  {
    if todo == {} then s else DeleteAll(DeleteVip(s, First(todo)), todo - {First(todo)})
  }

  /** Pinned VIPs the new configuration does not have leave the data plane. */
  ghost function Purge(s: Lb, todo: set<VipSpec>): (s': Lb)
    requires Ranged(s.t) && todo <= s.adopted.Keys
    ensures Ranged(s'.t) && s' == s.(t := s.t.(k := s'.t.k))
    decreases todo
  {
    if todo == {} then s else
      var k := First(todo);
      var s1 := Send(Send(s, Write.DelVip(k)), DelRing(s.adopted[k]));
      RangedSame(s.t, s1.t);
      Purge(s1, todo - {k})
  }

  ghost function AdoptAll(s: Lb): (s': Lb)
    requires |s.t.k.maps.reals| == |s.t.k.maps.neigh| == MAX_REALS
  {
    s.(t := Adopt(s.t.k), adopted := map k | k in s.t.k.maps.vipMap :: s.t.k.maps.vipMap[k].id)
  }

  ghost function Configure(s: Lb, c: Config, lbMac: Mac): (s': Lb) {
    Send(s, PutConfig(ConfigOf(c, lbMac))).(nextHop := c.nextHop, hash := c.hash)
  }

  /** apply, once the daemon knows what the maps hold. */
  ghost function Reload(s: Lb, c: Config, lbMac: Mac, arp: map<U32, Mac>, h: Hashes): (d: Done)
    requires Ranged(s.t)
    ensures Ranged(d.s.t)
  {
    var s1 := Configure(s, c, lbMac);
    ApplyVips(DeleteAll(s1, s1.vips.Keys - Specs(c)), c.vips, |c.vips|, s.hash != c.hash, arp, h)
  }

  /** The end of the first apply: what the configuration does not mention goes. */
  ghost function Cleanup(s: Lb): (s': Lb)
    requires Ranged(s.t)
    ensures Ranged(s'.t)
  {
    var s1 := Purge(s, s.adopted.Keys - s.vips.Keys);
    s1.(adopted := map[], t := Drop(s1.t), initialized := true)
  }

  /** The first apply of a daemon. */
  ghost function Start(s: Lb, c: Config, lbMac: Mac, arp: map<U32, Mac>, h: Hashes): (d: Done)
    requires |s.t.k.maps.reals| == |s.t.k.maps.neigh| == MAX_REALS
    ensures Ranged(d.s.t)
  {
    AdoptRanged(s.t.k);
    var d := Reload(AdoptAll(s), c, lbMac, arp, h);
    if !d.ok then d else Done(Cleanup(d.s), true)
  }

  /** A daemon that has just been started on these maps. */
  ghost function Fresh(k: Plane): (s: Lb) {
    Lb(map[], map[], ByMaglev, None, false, 1, Tab(seq(MAX_REALS, i => FREE), map[], 1, 0, map[], k), multiset{},
      map[], map[])
  }
}
