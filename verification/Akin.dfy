/**
 Two daemons that differ only in what the VIP map shows, in the flags of their VIPs and in the record
 of map states. No operation reads any of these to decide about members, ids, references or rings, so
 the two stay alike; what is proved of one of them in these matters holds of the other.
 */
module Akin {
  import opened Basics
  import opened BuildMaglev
  import opened Maps
  import opened Reals
  import opened Health
  import opened LbModel
  import opened Control
  import opened Calls

  ghost predicate SamePlane(k: Plane, k': Plane) {
    k'.maps == k.maps.(vipMap := k'.maps.vipMap) && k'.installs == k.installs
  }

  ghost predicate SameTab(t: Tab, t': Tab) {
    t' == t.(k := t'.k) && SamePlane(t.k, t'.k)
  }

  ghost predicate SameVip(vips: map<VipSpec, Vip>, vips': map<VipSpec, Vip>, k: VipSpec) {
    (k in vips <==> k in vips') && (k in vips ==> vips'[k] == vips[k].(noConntrack := vips'[k].noConntrack))
  }

  ghost predicate SameVips(vips: map<VipSpec, Vip>, vips': map<VipSpec, Vip>) {
    forall k :: SameVip(vips, vips', k)
  }

  datatype Matter = Settings | Table | VipList

  ghost predicate Agree(s: Lb, s': Lb, x: Matter) {
    match x
    case Settings => s' == s.(vips := s'.vips, t := s'.t)
    case Table => SameTab(s.t, s'.t)
    case VipList => SameVips(s.vips, s'.vips)
  }

  ghost predicate Alike(s: Lb, s': Lb) {
    forall x: Matter {:trigger Agree(s, s', x)} :: Agree(s, s', x)
  }

  lemma Means(s: Lb, s': Lb)
    requires Alike(s, s')
    ensures s' == s.(vips := s'.vips, t := s'.t) && SameTab(s.t, s'.t) && SameVips(s.vips, s'.vips)
  {
    assert Agree(s, s', Settings) && Agree(s, s', Table) && Agree(s, s', VipList);
  }

  // ---- the table

  lemma PutAlike(k: Plane, k': Plane, w: Write)
    requires SamePlane(k, k')
    ensures SamePlane(Put(k, w), Put(k', w))
  {
  }

  lemma PutSlotAlike(t: Tab, t': Tab, id: nat)
    requires SameTab(t, t') && id < |t.slots|
    ensures SameTab(PutSlot(t, id), PutSlot(t', id))
  {
    var s := t.slots[id];
    var toNeigh, toReal := PutNeigh(id, MacOf(s)), PutReal(id, s.addr);
    PutAlike(t.k, t'.k, toNeigh);
    PutAlike(t.k, t'.k, toReal);
    PutAlike(Put(t.k, toNeigh), Put(t'.k, toNeigh), toReal);
    PutAlike(Put(t.k, toReal), Put(t'.k, toReal), toNeigh);
  }

  lemma CreateAlike(t: Tab, t': Tab, addr: U32, id: nat, met: nat)
    requires SameTab(t, t') && 0 < id < |t.slots| <= MAX_REALS
    ensures SameTab(Create(t, addr, id, met), Create(t', addr, id, met))
  {
    PutAlike(t.k, t'.k, ResetReal(id));
    var t1 := t.(slots := t.slots[id := Slot(addr, 1, None)], byAddr := t.byAddr[addr := id], cursor := Next(id),
                 tick := t.tick + met + 1, born := t.born[id := t.tick + met], k := Put(t.k, ResetReal(id)));
    PutSlotAlike(t1, t1.(k := Put(t'.k, ResetReal(id))), id);
  }

  lemma AcquireAlike(t: Tab, t': Tab, addr: U32)
    requires Ranged(t) && Ranged(t') && SameTab(t, t')
    ensures Acquire(t, addr).Some? <==> Acquire(t', addr).Some?
    ensures Acquire(t, addr).Some? ==> SameTab(Acquire(t, addr).value, Acquire(t', addr).value)
  {
    if addr != 0 && addr !in t.byAddr {
      var met := Taken(t.slots, t.cursor, MAX_REALS - 1);
      if met < MAX_REALS - 1 {
        CreateAlike(t, t', addr, Around(t.cursor, met), met);
      }
    }
  }

  lemma ReleaseAlike(t: Tab, t': Tab, addr: U32)
    requires Ranged(t) && Ranged(t') && SameTab(t, t')
    ensures SameTab(Release(t, addr), Release(t', addr))
  {
    if addr in t.byAddr {
      assert InRange(t.slots, t.byAddr, addr);
      var id := t.byAddr[addr];
      if t.slots[id].refs <= 1 {
        var t1 := t.(byAddr := t.byAddr - {addr}, slots := t.slots[id := FREE]);
        PutSlotAlike(t1, t1.(k := t'.k), id);
      }
    }
  }

  lemma SetMacAlike(t: Tab, t': Tab, addr: U32, mac: Mac)
    requires Ranged(t) && Ranged(t') && SameTab(t, t')
    ensures SameTab(SetMac(t, addr, mac), SetMac(t', addr, mac))
  {
    if MacChanges(t, addr, mac) {
      assert InRange(t.slots, t.byAddr, addr);
      var id := t.byAddr[addr];
      var t1 := t.(slots := t.slots[id := t.slots[id].(mac := Some(mac))]);
      PutSlotAlike(t1, t1.(k := t'.k), id);
    }
  }

  lemma ResolveAlike(t: Tab, t': Tab, addr: U32, nextHop: Option<U32>, arp: map<U32, Mac>)
    requires Ranged(t) && Ranged(t') && SameTab(t, t')
    ensures SameTab(Resolve(t, addr, nextHop, arp), Resolve(t', addr, nextHop, arp))
  {
    var target := if nextHop.Some? then nextHop.value else addr;
    if target in arp {
      SetMacAlike(t, t', addr, arp[target]);
    }
  }

  // ---- VIPs and members

  lemma PutVips(vips: map<VipSpec, Vip>, vips': map<VipSpec, Vip>, k: VipSpec, v: Vip, v': Vip)
    requires SameVips(vips, vips') && v' == v.(noConntrack := v'.noConntrack)
    ensures SameVips(vips[k := v], vips'[k := v'])
  {
    var more, more' := vips[k := v], vips'[k := v'];
    forall j
      ensures SameVip(more, more', j)
    {
      assert SameVip(vips, vips', j);
    }
  }

  lemma DropVips(vips: map<VipSpec, Vip>, vips': map<VipSpec, Vip>, gone: set<VipSpec>)
    requires SameVips(vips, vips')
    ensures SameVips(vips - gone, vips' - gone)
  {
    var rest, rest' := vips - gone, vips' - gone;
    forall j
      ensures SameVip(rest, rest', j)
    {
      assert SameVip(vips, vips', j);
    }
  }

  lemma SameKeys(s: Lb, s': Lb)
    requires Alike(s, s')
    ensures s'.vips.Keys == s.vips.Keys
  {
    Means(s, s');
    forall k
      ensures k in s.vips <==> k in s'.vips
    {
      assert SameVip(s.vips, s'.vips, k);
    }
  }

  lemma SendAlike(s: Lb, s': Lb, w: Write)
    requires Alike(s, s')
    ensures Alike(Send(s, w), Send(s', w))
  {
    Means(s, s');
    PutAlike(s.t.k, s'.t.k, w);
  }

  /** Publishing makes no difference, on either side. */
  lemma ShowAlike(s: Lb, s': Lb, k: VipSpec, value: VipValue)
    requires Alike(s, s')
    ensures Alike(Send(s, PutVip(k, value)), s') && Alike(s, Send(s', PutVip(k, value)))
  {
    Means(s, s');
  }

  lemma SendVipAlike(s: Lb, s': Lb, k: VipSpec)
    requires Alike(s, s') && k in s.vips && k in s'.vips
    ensures Alike(SendVip(s, k), SendVip(s', k))
  {
    ShowAlike(s, s', k, VipValue(s.vips[k].id, s.vips[k].noConntrack));
    ShowAlike(SendVip(s, k), s', k, VipValue(s'.vips[k].id, s'.vips[k].noConntrack));
  }

  lemma RebuildAlike(s: Lb, s': Lb, k: VipSpec, h: Hashes)
    requires Alike(s, s') && k in s.vips && k in s'.vips
    ensures Alike(Rebuild(s, k, h), Rebuild(s', k, h))
  {
    Means(s, s');
    assert SameVip(s.vips, s'.vips, k);
    var v, v' := Rebuilt(s.vips[k], s.t.slots, s.t.byAddr), Rebuilt(s'.vips[k], s.t.slots, s.t.byAddr);
    PutVips(s.vips, s'.vips, k, v, v');
    SendAlike(s.(vips := s.vips[k := v]), s'.(vips := s'.vips[k := v']),
      PutRing(v.id, VipRing(v.members, s.t.byAddr, s.hash, h)));
  }

  lemma AddMemberAlike(s: Lb, s': Lb, k: VipSpec, addr: U32, weight: U32, arp: map<U32, Mac>)
    requires Ranged(s.t) && Ranged(s'.t) && Alike(s, s') && k in s.vips && k in s'.vips
    ensures AddMember(s, k, addr, weight, arp).Some? <==> AddMember(s', k, addr, weight, arp).Some?
    ensures AddMember(s, k, addr, weight, arp).Some? ==>
              Alike(AddMember(s, k, addr, weight, arp).value, AddMember(s', k, addr, weight, arp).value)
  {
    Means(s, s');
    AcquireAlike(s.t, s'.t, addr);
    var got, got' := Acquire(s.t, addr), Acquire(s'.t, addr);
    if got.Some? {
      ResolveAlike(got.value, got'.value, addr, s.nextHop, arp);
      assert SameVip(s.vips, s'.vips, k);
      PutVips(s.vips, s'.vips, k, Joined(s.vips[k], addr, weight, s.next), Joined(s'.vips[k], addr, weight, s.next));
    }
  }

  lemma EditAlike(s: Lb, s': Lb, k: VipSpec, members: map<U32, Member>)
    requires Alike(s, s') && k in s.vips && k in s'.vips
    ensures Alike(s.(vips := s.vips[k := s.vips[k].(members := members)]),
            s'.(vips := s'.vips[k := s'.vips[k].(members := members)]))
  {
    Means(s, s');
    assert SameVip(s.vips, s'.vips, k);
    PutVips(s.vips, s'.vips, k, s.vips[k].(members := members), s'.vips[k].(members := members));
  }

  lemma SameMembers(s: Lb, s': Lb, k: VipSpec)
    requires Alike(s, s') && k in s.vips
    ensures k in s'.vips && s'.vips[k].members == s.vips[k].members && s'.vips[k].id == s.vips[k].id
    ensures s'.vips[k].generation == s.vips[k].generation
  {
    Means(s, s');
    assert SameVip(s.vips, s'.vips, k);
  }

  /** The two runs of an operation that may stop half way stop, or complete, together. */
  ghost predicate BothDone(d: Done, d': Done) {
    d'.ok == d.ok && Alike(d.s, d'.s)
  }

  lemma {:induction false} MergeAlike(s: Lb, s': Lb, k: VipSpec, want: map<U32, U32>, todo: set<U32>,
                                      arp: map<U32, Mac>)
    requires Ranged(s.t) && Ranged(s'.t) && Alike(s, s') && k in s.vips && k in s'.vips && todo <= want.Keys
    ensures BothDone(Merge(s, k, want, todo, arp), Merge(s', k, want, todo, arp))
    decreases todo
  {
    Means(s, s');
    if todo != {} {
      var a := Least(todo);
      SameMembers(s, s', k);
      if a in s.vips[k].members {
        EditAlike(s, s', k, s.vips[k].members[a := s.vips[k].members[a].(weight := want[a])]);
        MergeAlike(Reweigh(s, k, a, want[a]), Reweigh(s', k, a, want[a]), k, want, todo - {a}, arp);
      } else {
        AddMemberAlike(s, s', k, a, want[a], arp);
        var r, r' := AddMember(s, k, a, want[a], arp), AddMember(s', k, a, want[a], arp);
        if r.Some? {
          MergeAlike(r.value, r'.value, k, want, todo - {a}, arp);
        }
      }
    }
  }

  lemma {:induction false} ReleaseAllAlike(s: Lb, s': Lb, todo: set<U32>)
    requires Ranged(s.t) && Ranged(s'.t) && Alike(s, s')
    ensures Alike(ReleaseAll(s, todo), ReleaseAll(s', todo))
    decreases todo
  {
    Means(s, s');
    if todo != {} {
      var a := Least(todo);
      ReleaseAlike(s.t, s'.t, a);
      ReleaseAllAlike(ReleaseOne(s, a), ReleaseOne(s', a), todo - {a});
    }
  }

  lemma SameUsedIds(s: Lb, s': Lb)
    requires Alike(s, s')
    ensures UsedIds(s') == UsedIds(s)
  {
    Means(s, s');
    SameKeys(s, s');
    forall k | k in s.vips
      ensures s'.vips[k].id == s.vips[k].id
    {
      SameMembers(s, s', k);
    }
    assert (set k | k in s.vips :: s.vips[k].id) == (set k | k in s'.vips :: s'.vips[k].id);
  }

  /** The new VIP under this id. */
  ghost function EnteredAs(s: Lb, k: VipSpec, noConntrack: bool, id: nat): (s': Lb) {
    Send(s, ResetVip(id)).(vips := s.vips[k := Vip(id, noConntrack, 0, map[])],
      base := s.base[k := Installed(s.t.k.installs, id)])
  }

  lemma ListAlike(s: Lb, s': Lb, k: VipSpec, v: Vip, base: map<VipSpec, nat>)
    requires Alike(s, s')
    ensures Alike(s.(vips := s.vips[k := v], base := base), s'.(vips := s'.vips[k := v], base := base))
  {
    Means(s, s');
    PutVips(s.vips, s'.vips, k, v, v);
  }

  lemma EnteredAlike(s: Lb, s': Lb, k: VipSpec, noConntrack: bool, id: nat)
    requires Alike(s, s')
    ensures Alike(EnteredAs(s, k, noConntrack, id), EnteredAs(s', k, noConntrack, id))
  {
    Means(s, s');
    SendAlike(s, s', ResetVip(id));
    ListAlike(Send(s, ResetVip(id)), Send(s', ResetVip(id)), k, Vip(id, noConntrack, 0, map[]),
              s.base[k := Installed(s.t.k.installs, id)]);
  }

  lemma EnterNewAlike(s: Lb, s': Lb, k: VipSpec, noConntrack: bool, id: nat)
    requires Alike(s, s') && k !in s.adopted && k !in s'.adopted && UsedIds(s') == UsedIds(s)
    requires id == LeastUnused(UsedIds(s), 0) < MAX_VIPS
    ensures Enter(s, k, noConntrack) == Some(EnteredAs(s, k, noConntrack, id))
    ensures Enter(s', k, noConntrack) == Some(EnteredAs(s', k, noConntrack, id))
  {
  }

  lemma EnterAdoptedAlike(s: Lb, s': Lb, k: VipSpec, noConntrack: bool)
    requires Alike(s, s') && k in s.adopted
    ensures Enter(s, k, noConntrack).Some? && Enter(s', k, noConntrack).Some?
    ensures Alike(Enter(s, k, noConntrack).value, Enter(s', k, noConntrack).value)
  {
    Means(s, s');
    var v := Vip(s.adopted[k], noConntrack, 0, map[]);
    PutVips(s.vips, s'.vips, k, v, v);
  }

  lemma EnterAlike(s: Lb, s': Lb, k: VipSpec, noConntrack: bool)
    requires Alike(s, s')
    ensures Enter(s, k, noConntrack).Some? <==> Enter(s', k, noConntrack).Some?
    ensures Enter(s, k, noConntrack).Some? ==> Alike(Enter(s, k, noConntrack).value, Enter(s', k, noConntrack).value)
  {
    Means(s, s');
    SameUsedIds(s, s');
    if k in s.adopted {
      EnterAdoptedAlike(s, s', k, noConntrack);
    } else if LeastUnused(UsedIds(s), 0) < MAX_VIPS {
      EnterNewAlike(s, s', k, noConntrack, LeastUnused(UsedIds(s), 0));
      EnteredAlike(s, s', k, noConntrack, LeastUnused(UsedIds(s), 0));
    }
  }

  lemma PublishAlike(s: Lb, s': Lb, k: VipSpec, h: Hashes)
    requires Alike(s, s') && k in s.vips && k in s'.vips
    ensures Alike(SendVip(Rebuild(s, k, h), k), SendVip(Rebuild(s', k, h), k))
  {
    RebuildAlike(s, s', k, h);
    SendVipAlike(Rebuild(s, k, h), Rebuild(s', k, h), k);
  }

  lemma CreateVipAlike(s: Lb, s': Lb, k: VipSpec, noConntrack: bool, want: map<U32, U32>, arp: map<U32, Mac>, h: Hashes)
    requires Ranged(s.t) && Ranged(s'.t) && Alike(s, s')
    ensures BothDone(CreateVip(s, k, noConntrack, want, arp, h), CreateVip(s', k, noConntrack, want, arp, h))
  {
    EnterAlike(s, s', k, noConntrack);
    var r, r' := Enter(s, k, noConntrack), Enter(s', k, noConntrack);
    if r.Some? {
      RangedSame(s.t, r.value.t);
      RangedSame(s'.t, r'.value.t);
      MergeAlike(r.value, r'.value, k, want, want.Keys, arp);
      var d, d' := Merge(r.value, k, want, want.Keys, arp), Merge(r'.value, k, want, want.Keys, arp);
      if d.ok {
        PublishAlike(d.s, d'.s, k, h);
      }
    }
  }

  lemma DeleteVipAlike(s: Lb, s': Lb, k: VipSpec)
    requires Ranged(s.t) && Ranged(s'.t) && Alike(s, s')
    ensures Alike(DeleteVip(s, k), DeleteVip(s', k))
  {
    Means(s, s');
    SameKeys(s, s');
    if k in s.vips {
      SameMembers(s, s', k);
      SendAlike(s, s', Write.DelVip(k));
      SendAlike(Send(s, Write.DelVip(k)), Send(s', Write.DelVip(k)), DelRing(s.vips[k].id));
      DropVips(s.vips, s'.vips, {k});
      var s1 := Forget(Send(Send(s, Write.DelVip(k)), DelRing(s.vips[k].id)), k);
      var s1' := Forget(Send(Send(s', Write.DelVip(k)), DelRing(s'.vips[k].id)), k);
      RangedSame(s.t, s1.t);
      RangedSame(s'.t, s1'.t);
      ReleaseAllAlike(s1, s1', s.vips[k].members.Keys);
    }
  }

  lemma {:induction false} DeleteAllAlike(s: Lb, s': Lb, todo: set<VipSpec>)
    requires Ranged(s.t) && Ranged(s'.t) && Alike(s, s')
    ensures Alike(DeleteAll(s, todo), DeleteAll(s', todo))
    decreases todo
  {
    if todo != {} {
      var k := First(todo);
      DeleteVipAlike(s, s', k);
      DeleteAllAlike(DeleteVip(s, k), DeleteVip(s', k), todo - {k});
    }
  }

  // ---- a reload

  lemma ReflagAlike(s: Lb, s': Lb, k: VipSpec, noConntrack: bool)
    requires Alike(s, s') && k in s.vips && k in s'.vips
    ensures Alike(Reflag(s, k, noConntrack), Reflag(s', k, noConntrack))
  {
    OneReflagged(s, s', k, noConntrack);
    OtherReflagged(Reflag(s, k, noConntrack), s', k, noConntrack);
  }

  lemma OneReflagged(s: Lb, s': Lb, k: VipSpec, noConntrack: bool)
    requires Alike(s, s') && k in s.vips
    ensures Alike(Reflag(s, k, noConntrack), s')
  {
    Means(s, s');
    var v := s.vips[k].(noConntrack := noConntrack);
    var s1 := s.(vips := s.vips[k := v]);
    assert SameVip(s.vips, s'.vips, k);
    PutVips(s.vips, s'.vips, k, v, s'.vips[k]);
    assert s'.vips[k := s'.vips[k]] == s'.vips;
    ShowAlike(s1, s', k, VipValue(v.id, v.noConntrack));
  }

  lemma OtherReflagged(s: Lb, s': Lb, k: VipSpec, noConntrack: bool)
    requires Alike(s, s') && k in s'.vips
    ensures Alike(s, Reflag(s', k, noConntrack))
  {
    Means(s, s');
    var v := s'.vips[k].(noConntrack := noConntrack);
    var s1 := s'.(vips := s'.vips[k := v]);
    assert SameVip(s.vips, s'.vips, k);
    PutVips(s.vips, s'.vips, k, s.vips[k], v);
    assert s.vips[k := s.vips[k]] == s.vips;
    ShowAlike(s, s1, k, VipValue(v.id, v.noConntrack));
  }

  lemma RemoveAlike(s: Lb, s': Lb, k: VipSpec, gone: set<U32>)
    requires Alike(s, s') && k in s.vips && k in s'.vips
    ensures Alike(RemoveMembers(s, k, gone), RemoveMembers(s', k, gone))
  {
    Means(s, s');
    assert SameVip(s.vips, s'.vips, k);
    var members := s.vips[k].members - gone;
    PutVips(s.vips, s'.vips, k, s.vips[k].(members := members), s'.vips[k].(members := members));
  }

  lemma PruneAlike(s: Lb, s': Lb, vc: VipConfig)
    requires Alike(s, s') && vc.spec in s.vips && vc.spec in s'.vips
    ensures Alike(Prune(s, vc), Prune(s', vc)) && Gone(s', vc) == Gone(s, vc)
  {
    var k := vc.spec;
    SameMembers(s, s', k);
    ReflagAlike(s, s', k, vc.noConntrack);
    RemoveAlike(Reflag(s, k, vc.noConntrack), Reflag(s', k, vc.noConntrack), k, Gone(s, vc));
  }

  lemma FinishAlike(s: Lb, s': Lb, k: VipSpec, changed: bool, gone: set<U32>, h: Hashes)
    requires Ranged(s.t) && Ranged(s'.t) && Alike(s, s') && k in s.vips && k in s'.vips
    ensures Alike(ReleaseAll(if changed then Rebuild(s, k, h) else s, gone),
            ReleaseAll(if changed then Rebuild(s', k, h) else s', gone))
  {
    if changed {
      RebuildAlike(s, s', k, h);
      ReleaseAllAlike(Rebuild(s, k, h), Rebuild(s', k, h), gone);
    } else {
      ReleaseAllAlike(s, s', gone);
    }
  }

  lemma ReloadVipAlike(s: Lb, s': Lb, vc: VipConfig, hashChanged: bool, arp: map<U32, Mac>, h: Hashes)
    requires Ranged(s.t) && Ranged(s'.t) && Alike(s, s') && vc.spec in s.vips && vc.spec in s'.vips
    ensures BothDone(ReloadVip(s, vc, hashChanged, arp, h), ReloadVip(s', vc, hashChanged, arp, h))
  {
    SameMembers(s, s', vc.spec);
    PruneAlike(s, s', vc);
    RangedSame(s.t, Prune(s, vc).t);
    RangedSame(s'.t, Prune(s', vc).t);
    MergeAlike(Prune(s, vc), Prune(s', vc), vc.spec, Want(vc), Want(vc).Keys, arp);
    var d, d' := Merge(Prune(s, vc), vc.spec, Want(vc), Want(vc).Keys, arp),
      Merge(Prune(s', vc), vc.spec, Want(vc), Want(vc).Keys, arp);
    if d.ok {
      FinishAlike(d.s, d'.s, vc.spec, RingChanges(s.vips[vc.spec], Want(vc), hashChanged), Gone(s, vc), h);
    }
  }

  lemma ApplyVipAlike(s: Lb, s': Lb, vc: VipConfig, hashChanged: bool, arp: map<U32, Mac>, h: Hashes)
    requires Ranged(s.t) && Ranged(s'.t) && Alike(s, s')
    ensures BothDone(ApplyVip(s, vc, hashChanged, arp, h), ApplyVip(s', vc, hashChanged, arp, h))
  {
    SameKeys(s, s');
    if vc.spec in s.vips {
      ReloadVipAlike(s, s', vc, hashChanged, arp, h);
    } else {
      CreateVipAlike(s, s', vc.spec, vc.noConntrack, Want(vc), arp, h);
    }
  }

  lemma ApplyNextAlike(s: Lb, s': Lb, d: Done, d': Done, vcs: seq<VipConfig>, m: nat, hashChanged: bool,
                       arp: map<U32, Mac>, h: Hashes)
    requires Ranged(s.t) && Ranged(s'.t) && m < |vcs| && BothDone(d, d')
    requires d == ApplyVips(s, vcs, m, hashChanged, arp, h) && d' == ApplyVips(s', vcs, m, hashChanged, arp, h)
    ensures BothDone(ApplyVips(s, vcs, m + 1, hashChanged, arp, h), ApplyVips(s', vcs, m + 1, hashChanged, arp, h))
  {
    if d.ok {
      ApplyVipAlike(d.s, d'.s, vcs[m], hashChanged, arp, h);
    }
  }

  lemma {:induction false} ApplyVipsAlike(s: Lb, s': Lb, vcs: seq<VipConfig>, n: nat, hashChanged: bool,
                                          arp: map<U32, Mac>, h: Hashes)
    requires Ranged(s.t) && Ranged(s'.t) && Alike(s, s') && n <= |vcs|
    ensures BothDone(ApplyVips(s, vcs, n, hashChanged, arp, h), ApplyVips(s', vcs, n, hashChanged, arp, h))
  {
    if n > 0 {
      var m := n - 1;
      assert m + 1 == n;
      ApplyVipsAlike(s, s', vcs, m, hashChanged, arp, h);
      ApplyNextAlike(s, s', ApplyVips(s, vcs, m, hashChanged, arp, h), ApplyVips(s', vcs, m, hashChanged, arp, h),
                     vcs, m, hashChanged, arp, h);
    }
  }

  lemma ReloadAlike(s: Lb, s': Lb, c: Config, lbMac: Mac, arp: map<U32, Mac>, h: Hashes)
    requires Ranged(s.t) && Ranged(s'.t) && Alike(s, s')
    ensures BothDone(Reload(s, c, lbMac, arp, h), Reload(s', c, lbMac, arp, h))
  {
    Means(s, s');
    var s1, s1' := Configure(s, c, lbMac), Configure(s', c, lbMac);
    PutAlike(s.t.k, s'.t.k, PutConfig(ConfigOf(c, lbMac)));
    assert Alike(s1, s1');
    SameKeys(s1, s1');
    var gone := s1.vips.Keys - Specs(c);
    RangedSame(s.t, s1.t);
    RangedSame(s'.t, s1'.t);
    DeleteAllAlike(s1, s1', gone);
    ApplyVipsAlike(DeleteAll(s1, gone), DeleteAll(s1', gone), c.vips, |c.vips|, s.hash != c.hash, arp, h);
  }

  // ---- the other calls

  lemma AddRealAlike(s: Lb, s': Lb, k: VipSpec, addr: U32, weight: U32, arp: map<U32, Mac>, h: Hashes)
    requires Ranged(s.t) && Ranged(s'.t) && Alike(s, s')
    ensures BothDone(AddReal(s, k, addr, weight, arp, h), AddReal(s', k, addr, weight, arp, h))
  {
    SameKeys(s, s');
    if k in s.vips {
      SameMembers(s, s', k);
      AddMemberAlike(s, s', k, addr, weight, arp);
      var r, r' := AddMember(s, k, addr, weight, arp), AddMember(s', k, addr, weight, arp);
      if r.Some? {
        RebuildAlike(r.value, r'.value, k, h);
      }
    }
  }

  lemma ReleaseOneAlike(s: Lb, s': Lb, a: U32)
    requires Ranged(s.t) && Ranged(s'.t) && Alike(s, s')
    ensures Alike(ReleaseOne(s, a), ReleaseOne(s', a))
  {
    Means(s, s');
    ReleaseAlike(s.t, s'.t, a);
  }

  lemma DelRealAlike(s: Lb, s': Lb, k: VipSpec, addr: U32, h: Hashes)
    requires Ranged(s.t) && Ranged(s'.t) && Alike(s, s')
    ensures BothDone(DelReal(s, k, addr, h), DelReal(s', k, addr, h))
  {
    SameKeys(s, s');
    if k in s.vips {
      SameMembers(s, s', k);
      if addr in s.vips[k].members {
        var s1, s1' := RemoveMembers(s, k, {addr}), RemoveMembers(s', k, {addr});
        RemoveAlike(s, s', k, {addr});
        RebuildAlike(s1, s1', k, h);
        ReleaseOneAlike(Rebuild(s1, k, h), Rebuild(s1', k, h), addr);
      }
    }
  }

  lemma EditRebuildAlike(s: Lb, s': Lb, k: VipSpec, members: map<U32, Member>, h: Hashes)
    requires Alike(s, s') && k in s.vips && k in s'.vips
    ensures Alike(Rebuild(s.(vips := s.vips[k := s.vips[k].(members := members)]), k, h),
                  Rebuild(s'.(vips := s'.vips[k := s'.vips[k].(members := members)]), k, h))
  {
    EditAlike(s, s', k, members);
    RebuildAlike(s.(vips := s.vips[k := s.vips[k].(members := members)]),
      s'.(vips := s'.vips[k := s'.vips[k].(members := members)]), k, h);
  }

  lemma SetWeightAlike(s: Lb, s': Lb, k: VipSpec, addr: U32, weight: U32, h: Hashes)
    requires Ranged(s.t) && Ranged(s'.t) && Alike(s, s')
    ensures BothDone(SetWeight(s, k, addr, weight, h), SetWeight(s', k, addr, weight, h))
  {
    SameKeys(s, s');
    if k in s.vips {
      SameMembers(s, s', k);
      if addr in s.vips[k].members {
        EditRebuildAlike(s, s', k, s.vips[k].members[addr := s.vips[k].members[addr].(weight := weight)], h);
      }
    }
  }

  lemma SetDrainingAlike(s: Lb, s': Lb, k: VipSpec, addr: U32, draining: bool, h: Hashes)
    requires Ranged(s.t) && Ranged(s'.t) && Alike(s, s')
    ensures BothDone(SetDraining(s, k, addr, draining, h), SetDraining(s', k, addr, draining, h))
  {
    SameKeys(s, s');
    if k in s.vips {
      SameMembers(s, s', k);
      if addr in s.vips[k].members {
        EditRebuildAlike(s, s', k, s.vips[k].members[addr := s.vips[k].members[addr].(draining := draining)], h);
      }
    }
  }

  lemma NotedAlike(s: Lb, s': Lb, x: Target, r: Report)
    requires Alike(s, s') && x.vip in s.vips && x.addr in s.vips[x.vip].members
    ensures x.vip in s'.vips && x.addr in s'.vips[x.vip].members && Alike(Noted(s, x, r), Noted(s', x, r))
  {
    Means(s, s');
    SameMembers(s, s', x.vip);
    var members := Noted(s, x, r).vips[x.vip].members;
    assert SameVip(s.vips, s'.vips, x.vip);
    PutVips(s.vips, s'.vips, x.vip, s.vips[x.vip].(members := members), s'.vips[x.vip].(members := members));
  }

  lemma SameCounts(s: Lb, s': Lb, x: Target, p: Probe)
    requires Alike(s, s')
    ensures Counts(s, x, p) <==> Counts(s', x, p)
  {
    SameKeys(s, s');
    if x.vip in s.vips {
      SameMembers(s, s', x.vip);
    }
  }

  lemma ReportAlike(s: Lb, s': Lb, x: Target, p: Probe, rise: U32, fall: U32, h: Hashes)
    requires Ranged(s.t) && Ranged(s'.t) && Alike(s, s')
    ensures Alike(ReportHealth(s, x, p, rise, fall, h), ReportHealth(s', x, p, rise, fall, h))
  {
    SameCounts(s, s', x, p);
    if Counts(s, x, p) {
      var r := Report(p.ok, rise, fall);
      SameMembers(s, s', x.vip);
      NotedAlike(s, s', x, r);
      RebuildAlike(Noted(s, x, r), Noted(s', x, r), x.vip, h);
    }
  }

  lemma {:induction false} SetMacsAlike(s: Lb, s': Lb, todo: set<U32>, mac: Mac)
    requires Ranged(s.t) && Ranged(s'.t) && Alike(s, s')
    ensures Alike(SetMacs(s, todo, mac), SetMacs(s', todo, mac))
    decreases todo
  {
    Means(s, s');
    if todo != {} {
      var a := Least(todo);
      SetMacAlike(s.t, s'.t, a, mac);
      SetMacsAlike(s.(t := SetMac(s.t, a, mac)), s'.(t := SetMac(s'.t, a, mac)), todo - {a}, mac);
    }
  }

  lemma {:induction false} RebuildAllAlike(s: Lb, s': Lb, todo: set<VipSpec>, h: Hashes)
    requires Ranged(s.t) && Ranged(s'.t) && Alike(s, s') && todo <= s.vips.Keys && todo <= s'.vips.Keys
    ensures Alike(RebuildAll(s, todo, h), RebuildAll(s', todo, h))
    decreases todo
  {
    if todo != {} {
      var k := First(todo);
      RebuildAlike(s, s', k, h);
      RebuildAllAlike(Rebuild(s, k, h), Rebuild(s', k, h), todo - {k}, h);
    }
  }

  lemma SameHolders(s: Lb, s': Lb, addrs: set<U32>)
    requires Alike(s, s')
    ensures HoldingAny(s', addrs) == HoldingAny(s, addrs)
  {
    SameKeys(s, s');
    forall k | k in s.vips
      ensures s'.vips[k].members == s.vips[k].members
    {
      SameMembers(s, s', k);
    }
  }

  lemma NeighborAlike(s: Lb, s': Lb, ip: U32, mac: Mac, h: Hashes)
    requires Ranged(s.t) && Ranged(s'.t) && Alike(s, s')
    ensures Alike(NeighborResolved(s, ip, mac, h), NeighborResolved(s', ip, mac, h))
  {
    Means(s, s');
    var behind := Behind(s, ip);
    SetMacsAlike(s, s', behind, mac);
    var s1, s1' := SetMacs(s, behind, mac), SetMacs(s', behind, mac);
    SameHolders(s1, s1', Unresolved(s, behind));
    RebuildAllAlike(s1, s1', HoldingAny(s1, Unresolved(s, behind)), h);
  }

  lemma VipStepAlike(s: Lb, s': Lb, call: Call, h: Hashes)
    requires Ranged(s.t) && Ranged(s'.t) && Alike(s, s') && (call.op.AddVipOp? || call.op.DelVipOp?)
    ensures Alike(Step(s, call, h), Step(s', call, h))
  {
    SameKeys(s, s');
    match call.op
    case AddVipOp(k, noConntrack) => CreateVipAlike(s, s', k, noConntrack, map[], call.arp, h);
    case DelVipOp(k) => DeleteVipAlike(s, s', k);
  }

  lemma RealStepAlike(s: Lb, s': Lb, call: Call, h: Hashes)
    requires Ranged(s.t) && Ranged(s'.t) && Alike(s, s')
    requires call.op.AddRealOp? || call.op.DelRealOp? || call.op.WeightOp? || call.op.DrainOp?
    ensures Alike(Step(s, call, h), Step(s', call, h))
  {
    match call.op
    case AddRealOp(k, addr, weight) => AddRealAlike(s, s', k, addr, weight, call.arp, h);
    case DelRealOp(k, addr) => DelRealAlike(s, s', k, addr, h);
    case WeightOp(k, addr, weight) => SetWeightAlike(s, s', k, addr, weight, h);
    case DrainOp(k, addr, draining) => SetDrainingAlike(s, s', k, addr, draining, h);
  }

  lemma EventStepAlike(s: Lb, s': Lb, call: Call, h: Hashes)
    requires Ranged(s.t) && Ranged(s'.t) && Alike(s, s') && (call.op.HealthOp? || call.op.NeighborOp?)
    ensures Alike(Step(s, call, h), Step(s', call, h))
  {
    match call.op
    case HealthOp(x, p, rise, fall) => ReportAlike(s, s', x, p, rise, fall, h);
    case NeighborOp(ip, mac) => NeighborAlike(s, s', ip, mac, h);
  }

  /** Every call keeps the two alike. */
  lemma StepAlike(s: Lb, s': Lb, call: Call, h: Hashes)
    requires Ranged(s.t) && Ranged(s'.t) && Alike(s, s')
    ensures Alike(Step(s, call, h), Step(s', call, h))
  {
    if call.op.AddVipOp? || call.op.DelVipOp? {
      VipStepAlike(s, s', call, h);
    } else if call.op.HealthOp? || call.op.NeighborOp? {
      EventStepAlike(s, s', call, h);
    } else if call.op.ReloadOp? {
      ReloadAlike(s, s', call.op.c, call.op.lbMac, call.arp, h);
    } else {
      RealStepAlike(s, s', call, h);
    }
  }
}
