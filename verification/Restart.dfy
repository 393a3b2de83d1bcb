/** Hitless restart: the clean-up after the first apply, and what no write of a restart changes. */
module Restart {
  import opened Basics
  import opened Maps
  import opened Reals
  import opened LbModel
  import opened Control
  import opened ControlLaws
  import opened ReleaseLaws

  // ---- what is spared

  /** From m to m' these VIPs keep their vip_id, and these ids keep their address and their MAC if they had one. */
  ghost predicate Spared(m: Maps, m': Maps, ks: set<VipSpec>, ids: set<nat>) {
    && |m'.reals| == |m.reals| && |m'.neigh| == |m.neigh|
    && (forall k :: k in ks && k in m.vipMap ==> k in m'.vipMap && m'.vipMap[k].id == m.vipMap[k].id)
    && (forall id :: id in ids && id < |m.reals| && id < |m.neigh| ==> SparedId(m, m', id))
  }

  ghost predicate SparedId(m: Maps, m': Maps, id: nat)
    requires id < |m.reals| == |m'.reals| && id < |m.neigh| == |m'.neigh|
  {
    m'.reals[id] == m.reals[id] && (m.neigh[id] != NO_MAC ==> m'.neigh[id] == m.neigh[id])
  }

  /** The same at every write from k to k'. */
  ghost predicate SparedAll(k: Plane, k': Plane, ks: set<VipSpec>, ids: set<nat>) {
    && k.log <= k'.log && Spared(k.maps, k'.maps, ks, ids)
    && forall i :: |k.log| <= i < |k'.log| ==> Spared(k.maps, k'.log[i].after, ks, ids)
  }

  lemma SparedThen(m: Maps, m1: Maps, m2: Maps, ks: set<VipSpec>, ids: set<nat>)
    requires Spared(m, m1, ks, ids) && Spared(m1, m2, ks, ids)
    ensures Spared(m, m2, ks, ids)
  {
    forall id | id in ids && id < |m.reals| && id < |m.neigh|
      ensures SparedId(m, m2, id)
    {
      assert SparedId(m, m1, id) && SparedId(m1, m2, id);
    }
  }

  lemma SparedAllThen(k: Plane, k1: Plane, k2: Plane, ks: set<VipSpec>, ids: set<nat>)
    requires SparedAll(k, k1, ks, ids) && SparedAll(k1, k2, ks, ids)
    ensures SparedAll(k, k2, ks, ids)
  {
    SparedThen(k.maps, k1.maps, k2.maps, ks, ids);
    forall i | |k.log| <= i < |k2.log|
      ensures Spared(k.maps, k2.log[i].after, ks, ids)
    {
      if i < |k1.log| {
        assert k2.log[i] == k1.log[i];
      } else {
        SparedThen(k.maps, k1.maps, k2.log[i].after, ks, ids);
      }
    }
  }

  lemma ExtendsSpares(m: Maps, m': Maps, ks: set<VipSpec>, ids: set<nat>)
    requires Extends(m, m') && forall id :: id in ids && id < |m.reals| ==> m.reals[id] != 0
    ensures Spared(m, m', ks, ids)
  {
  }

  lemma GrownSpares(k: Plane, k': Plane, ks: set<VipSpec>, ids: set<nat>)
    requires Grown(k, k') && forall id :: id in ids && id < |k.maps.reals| ==> k.maps.reals[id] != 0
    ensures SparedAll(k, k', ks, ids)
  {
    ExtendsSpares(k.maps, k'.maps, ks, ids);
    forall i | |k.log| <= i < |k'.log|
      ensures Spared(k.maps, k'.log[i].after, ks, ids)
    {
      ExtendsSpares(k.maps, k'.log[i].after, ks, ids);
    }
  }

  // ---- pinned VIPs the configuration does not have

  ghost function Only(adopted: map<VipSpec, nat>, ks: set<VipSpec>): (r: map<VipSpec, nat>) {
    map k | k in adopted && k in ks :: adopted[k]
  }

  /** One pinned VIP taken out, in the model's own terms. */
  ghost function Unpin(s: Lb, k: VipSpec): (s': Lb)
    requires k in s.adopted
  {
    Send(Send(s, Write.DelVip(k)), DelRing(s.adopted[k])).(adopted := s.adopted - {k})
  }

  lemma IdsUnpinned(vips: map<VipSpec, Vip>, adopted: map<VipSpec, nat>, vipMap: map<VipSpec, VipValue>, k: VipSpec)
    requires IdsOk(vips, adopted, vipMap) && k in adopted
    ensures IdsOk(vips, adopted - {k}, vipMap - {k})
  {
  }

  lemma UnpinTab(s: Lb, k: VipSpec)
    requires Inv(s) && k in s.adopted
    ensures TabOk(Unpin(s, k).t)
  {
    assert Holds(s, TablePart) && Holds(s, IdsPart);
    SendTab(s.t, Write.DelVip(k));
    SendTab(s.t.(k := Put(s.t.k, Write.DelVip(k))), DelRing(s.adopted[k]));
  }

  lemma UnpinOk(s: Lb, k: VipSpec)
    requires Inv(s) && k in s.adopted && !s.initialized
    ensures Inv(Unpin(s, k))
  {
    UnpinTab(s, k);
    UnpinMaps(s, k);
    Open(s);
    IdsUnpinned(s.vips, s.adopted, s.t.k.maps.vipMap, k);
    Close(Unpin(s, k));
  }

  lemma UnpinMaps(s: Lb, k: VipSpec)
    requires k in s.adopted
    ensures Unpin(s, k).t.k.maps == s.t.k.maps.(vipMap := s.t.k.maps.vipMap - {k},
            rings := s.t.k.maps.rings - {s.adopted[k]})
    ensures Unpin(s, k).t == s.t.(k := Unpin(s, k).t.k) && Unpin(s, k).t.k.installs == s.t.k.installs
  {
  }

  lemma UnpinLeaves(s: Lb, k: VipSpec, j: VipSpec)
    requires Inv(s) && k in s.adopted && j in s.vips
    ensures Untouched(s, Unpin(s, k), s.leak, j)
  {
    assert Holds(s, TablePart) && Holds(s, IdsPart) && Holds(s, HeldPart);
    KeepsSelf(s.t.slots, s.t.byAddr);
  }

  lemma UnpinSpares(s: Lb, k: VipSpec, ks: set<VipSpec>, ids: set<nat>)
    requires k in s.adopted && k !in ks
    ensures SparedAll(s.t.k, Unpin(s, k).t.k, ks, ids)
  {
    var k1 := Put(s.t.k, Write.DelVip(k));
    var k2 := Put(k1, DelRing(s.adopted[k]));
    assert forall i :: |s.t.k.log| <= i < |k2.log| ==> k2.log[i].after == k1.maps || k2.log[i].after == k2.maps;
  }

  /** `Purge` is `Unpin` for each VIP in turn; the list of adopted VIPs is only cleared at the end. */
  lemma PurgeStep(s: Lb, todo: set<VipSpec>)
    requires Ranged(s.t) && todo != {} && todo <= s.adopted.Keys
    ensures var k := First(todo);
            var s1 := Send(Send(s, Write.DelVip(k)), DelRing(s.adopted[k]));
            && Purge(s, todo) == Purge(s1, todo - {k})
            && s1.(adopted := Only(s1.adopted, todo - {k})) == Unpin(s.(adopted := Only(s.adopted, todo)), k)
  {
    var k := First(todo);
    assert Only(s.adopted, todo) - {k} == Only(s.adopted, todo - {k});
  }

  ghost predicate Purged(s: Lb, s': Lb, ks: set<VipSpec>, ids: set<nat>) {
    && Inv(s'.(adopted := map[])) && s' == s.(t := s.t.(k := s'.t.k)) && SparedAll(s.t.k, s'.t.k, ks, ids)
    && forall j :: j in s.vips ==> Untouched(s, s', s.leak, j)
  }

  lemma PurgeMore(s: Lb, s1: Lb, s': Lb, k: VipSpec, ks: set<VipSpec>, ids: set<nat>)
    requires s1 == s.(t := s.t.(k := s1.t.k)) && Purged(s1, s', ks, ids) && SparedAll(s.t.k, s1.t.k, ks, ids)
    requires forall j :: j in s.vips ==> Untouched(s, s1, s.leak, j)
    ensures Purged(s, s', ks, ids)
  {
    SparedAllThen(s.t.k, s1.t.k, s'.t.k, ks, ids);
    forall j | j in s.vips
      ensures Untouched(s, s', s.leak, j)
    {
      UntouchedThen(s, s1, s', s.leak, j);
    }
  }

  lemma PurgeNone(s: Lb, ks: set<VipSpec>, ids: set<nat>)
    requires Inv(s.(adopted := map[]))
    ensures Purged(s, s, ks, ids)
  {
    UntouchedSelf(s.(adopted := map[]), s.leak);
    forall j
      ensures Untouched(s, s, s.leak, j)
    {
      assert Untouched(s.(adopted := map[]), s.(adopted := map[]), s.leak, j);
    }
  }

  lemma {:induction false} PurgeOk(s: Lb, todo: set<VipSpec>, ks: set<VipSpec>, ids: set<nat>)
    requires Inv(s.(adopted := Only(s.adopted, todo))) && todo <= s.adopted.Keys && todo !! ks && !s.initialized
    ensures Ranged(s.t) && Purged(s, Purge(s, todo), ks, ids)
    decreases todo
  {
    var r := s.(adopted := Only(s.adopted, todo));
    InvRanged(r);
    if todo == {} {
      assert Only(s.adopted, todo) == map[];
      PurgeNone(s, ks, ids);
    } else {
      var k := First(todo);
      var s1 := Send(Send(s, Write.DelVip(k)), DelRing(s.adopted[k]));
      PurgeStep(s, todo);
      UnpinOk(r, k);
      UnpinSpares(r, k, ks, ids);
      PurgeOk(s1, todo - {k}, ks, ids);
      forall j | j in s.vips
        ensures Untouched(s, s1, s.leak, j)
      {
        UnpinLeaves(r, k, j);
      }
      PurgeMore(s, s1, Purge(s, todo), k, ks, ids);
    }
  }

  // ---- reals nobody refers to

  /** With every ring accounted for, an id without references is on no reachable ring. */
  lemma UnreferencedIsUnused(s: Lb, id: nat)
    requires Inv(s) && s.adopted == map[] && s.leak == multiset{} && AllTraced(s, s.leak)
    requires id < |s.t.slots| && s.t.slots[id].refs == 0
    ensures Unused(s.t.k.maps, id)
  {
    Open(s);
    var a := s.t.slots[id].addr;
    assert SlotOk(s.t.slots, s.t.byAddr, id);
    if a != 0 {
      assert HeldAt(s.vips, s.t.slots, s.t.byAddr, s.leak, a);
      UnheldIsUnused(s, s.leak, a);
    } else {
      EmptyIsUnused(s.t, id);
    }
  }

  lemma EmptyIsUnused(t: Tab, id: nat)
    requires TabOk(t) && id < |t.slots| && t.slots[id].addr == 0
    ensures Unused(t.k.maps, id)
  {
    var m := t.k.maps;
    assert SlotShown(t.slots[id], m, id);
    forall k | k in m.vipMap && m.vipMap[k].id in m.rings
      ensures id !in m.rings[m.vipMap[k].id]
    {
      assert VipSafe(m, k);
    }
  }

  /** t' is t without the slots that have no references. */
  ghost predicate Dropped(t: Tab, t': Tab) {
    && TabOk(t) && TabOk(t') && t'.k.installs == t.k.installs && t.k.log <= t'.k.log
       && HeldKept(t.slots, t.k.maps, t'.k.maps)
    && (forall x: nat :: x < MAX_REALS ==> t'.slots[x] == if t.slots[x].refs == 0 then FREE else t.slots[x])
    && (forall i :: |t.k.log| <= i < |t'.k.log| ==> HeldKept(t.slots, t.k.maps, t'.k.log[i].after))
  }

  lemma DropAllOk(s: Lb)
    requires Inv(s) && s.adopted == map[] && s.leak == multiset{} && AllTraced(s, s.leak)
    ensures |s.t.slots| == MAX_REALS && Dropped(s.t, Drop(s.t))
  {
    assert Holds(s, TablePart);
    forall id: nat | id < MAX_REALS && s.t.slots[id].refs == 0
      ensures Unused(s.t.k.maps, id)
    {
      UnreferencedIsUnused(s, id);
    }
    DropOk(s.t, MAX_REALS);
  }

  lemma DroppedAddr(t: Tab, t': Tab, a: U32)
    requires Dropped(t, t')
    ensures a in t'.byAddr <==> a in t.byAddr && HasRefs(t.slots, t.byAddr, a)
    ensures a in t'.byAddr ==> KeepsAddr(t.slots, t.byAddr, t'.slots, t'.byAddr, a)
                               && t'.slots[t'.byAddr[a]] == t.slots[t.byAddr[a]]
  {
    if a in t'.byAddr {
      assert AddrOk(t'.slots, t'.byAddr, a);
      assert SlotOk(t.slots, t.byAddr, t'.byAddr[a]);
    }
    if a in t.byAddr {
      assert AddrOk(t.slots, t.byAddr, a);
      assert SlotOk(t'.slots, t'.byAddr, t.byAddr[a]);
    }
  }

  lemma DroppedHeld(vips: map<VipSpec, Vip>, t: Tab, t': Tab)
    requires Dropped(t, t') && HeldOk(vips, t.slots, t.byAddr, multiset{})
    ensures HeldOk(vips, t'.slots, t'.byAddr, multiset{}) && AllHeld(t'.slots, t'.byAddr)
  {
    forall a | a in t'.byAddr
      ensures HeldAt(vips, t'.slots, t'.byAddr, multiset{}, a) && HasRefs(t'.slots, t'.byAddr, a)
    {
      DroppedAddr(t, t', a);
      assert HeldAt(vips, t.slots, t.byAddr, multiset{}, a);
    }
    forall k, a | k in vips && a in vips[k].members
      ensures a in t'.byAddr
    {
      MemberHasRefs(vips, t, k, a);
      DroppedAddr(t, t', a);
    }
  }

  lemma MemberHasRefs(vips: map<VipSpec, Vip>, t: Tab, k: VipSpec, a: U32)
    requires HeldOk(vips, t.slots, t.byAddr, multiset{}) && k in vips && a in vips[k].members
    ensures HasRefs(t.slots, t.byAddr, a)
  {
    assert HeldAt(vips, t.slots, t.byAddr, multiset{}, a);
    HolderCounts(vips, k, a);
  }

  lemma DroppedSpares(t: Tab, t': Tab, ks: set<VipSpec>, ids: set<nat>)
    requires Dropped(t, t') && forall id :: id in ids && id < MAX_REALS ==> t.slots[id].refs > 0
    ensures SparedAll(t.k, t'.k, ks, ids)
  {
    HeldSpares(t.slots, t.k.maps, t'.k.maps, ks, ids);
    forall i | |t.k.log| <= i < |t'.k.log|
      ensures Spared(t.k.maps, t'.k.log[i].after, ks, ids)
    {
      HeldSpares(t.slots, t.k.maps, t'.k.log[i].after, ks, ids);
    }
  }

  lemma HeldSpares(slots: seq<Slot>, m: Maps, m': Maps, ks: set<VipSpec>, ids: set<nat>)
    requires HeldKept(slots, m, m') && |m.reals| == |m.neigh| == |slots| == MAX_REALS
    requires forall id :: id in ids && id < MAX_REALS ==> slots[id].refs > 0
    ensures Spared(m, m', ks, ids)
  {
  }
}
