/**
 What the daemon relies on while it works: every member it rebuilds a ring from is in the table. This
 too holds in every run, since it is a matter in which alike states agree.
 */
module Standing {
  import opened Basics
  import opened BuildMaglev
  import opened Ring
  import opened Maps
  import opened Reals
  import opened Health
  import opened LbModel
  import opened Control
  import opened ControlLaws
  import opened MemberLaws
  import opened OpLaws
  import opened EventLaws
  import opened VipLaws
  import opened VipOps
  import opened ApplyLaws
  import opened Convergence
  import opened Akin
  import opened Soundness

  /** Alike to a state in which the invariant holds. */
  ghost predicate Upright(s: Lb) {
    exists g :: Inv(g) && Alike(g, s)
  }

  /** Every member of VIP k has an id. */
  ghost predicate Indexed(s: Lb, k: VipSpec) {
    k in s.vips && forall a :: a in s.vips[k].members ==> a in s.t.byAddr && s.t.byAddr[a] < MAX_REALS
  }

  lemma InvUpright(s: Lb)
    requires Inv(s)
    ensures Upright(s)
  {
    forall k
      ensures SameVip(s.vips, s.vips, k)
    {
    }
    assert Alike(s, s);
  }

  lemma SoundUpright(s: Lb)
    requires Sound(s)
    ensures Upright(s)
  {
    var g :| Good(g) && Alike(g, s);
  }

  lemma UprightIndexed(s: Lb, k: VipSpec)
    requires Upright(s) && k in s.vips
    ensures Indexed(s, k)
  {
    var g :| Inv(g) && Alike(g, s);
    Open(g);
    Means(g, s);
    assert SameVip(g.vips, s.vips, k);
    forall a | a in s.vips[k].members
      ensures a in s.t.byAddr && s.t.byAddr[a] < MAX_REALS
    {
      assert InRange(g.t.slots, g.t.byAddr, a);
    }
  }

  lemma UprightTable(s: Lb)
    requires Upright(s)
    ensures Ranged(s.t) && TableOk(s.t.slots, s.t.byAddr)
  {
    var g :| Inv(g) && Alike(g, s);
    Open(g);
    Means(g, s);
    RangedSame(g.t, s.t);
  }

  // ---- before a rebuild

  lemma EnteredMembers(s: Lb, s1: Lb, k: VipSpec, noConntrack: bool, want: map<U32, U32>, arp: map<U32, Mac>)
    requires Upright(s) && k !in s.vips && MacsOk(arp) && Enter(s, k, noConntrack) == Some(s1)
    ensures Ranged(s1.t) && k in s1.vips && Indexed(Merge(s1, k, want, want.Keys, arp).s, k)
  {
    UprightTable(s);
    var g :| Inv(g) && Alike(g, s);
    InvRanged(g);
    SameKeys(g, s);
    EnterAlike(g, s, k, noConntrack);
    EnterOk(g, k, noConntrack);
    var g1 := Enter(g, k, noConntrack).value;
    InvRanged(g1);
    RangedSame(s.t, s1.t);
    MergeOk(g1, k, want, want.Keys, arp);
    MergeAlike(g1, s1, k, want, want.Keys, arp);
    UprightIndexed(Merge(s1, k, want, want.Keys, arp).s, k);
  }

  lemma AddedMember(s: Lb, k: VipSpec, addr: U32, weight: U32, arp: map<U32, Mac>)
    requires Upright(s) && Ranged(s.t) && k in s.vips && addr !in s.vips[k].members && MacsOk(arp)
    ensures AddMember(s, k, addr, weight, arp).Some? ==>
              Indexed(AddMember(s, k, addr, weight, arp).value, k)
                && addr in AddMember(s, k, addr, weight, arp).value.t.byAddr
  {
    var g :| Inv(g) && Alike(g, s);
    InvRanged(g);
    Means(g, s);
    assert SameVip(g.vips, s.vips, k);
    AddMemberAlike(g, s, k, addr, weight, arp);
    AddMemberOk(g, k, addr, weight, arp);
    var r := AddMember(s, k, addr, weight, arp);
    if r.Some? {
      UprightIndexed(r.value, k);
    }
  }

  lemma FewerMembers(s: Lb, k: VipSpec, gone: set<U32>)
    requires Upright(s) && k in s.vips
    ensures Indexed(RemoveMembers(s, k, gone), k)
  {
    UprightIndexed(s, k);
  }

  /** Weights, drain state, health and flags do not matter. */
  lemma TouchedMembers(s: Lb, v: Vip, k: VipSpec)
    requires Upright(s) && k in s.vips && v.members.Keys == s.vips[k].members.Keys
    ensures Indexed(s.(vips := s.vips[k := v]), k)
  {
    UprightIndexed(s, k);
  }

  /** A good state alike in which VIP vc has the configured flags already. */
  lemma Flagged(s: Lb, vc: VipConfig) returns (g: Lb)
    requires Sound(s)
    ensures Good(g) && Ranged(g.t) && Alike(g, s) && FlagsOk(g, vc)
  {
    var g0 :| Good(g0) && Alike(g0, s);
    var c := Config(ByMaglev, None, false, false, 0, 0, [vc]);
    g := g0.(vips := Preset(g0.vips, c));
    PresetIs(g0, g, c, s);
    assert FlagsOk(g, c.vips[0]);
    InvRanged(g);
  }

  lemma MergedMembers(s: Lb, vc: VipConfig, arp: map<U32, Mac>)
    requires Sound(s) && Ranged(s.t) && vc.spec in s.vips && MacsOk(arp)
    ensures Indexed(Merge(Prune(s, vc), vc.spec, Want(vc), Want(vc).Keys, arp).s, vc.spec)
  {
    var g := Flagged(s, vc);
    SameKeys(g, s);
    PruneOk(g, vc);
    PruneAlike(g, s, vc);
    RangedSame(g.t, Prune(g, vc).t);
    RangedSame(s.t, Prune(s, vc).t);
    MergeOk(Prune(g, vc), vc.spec, Want(vc), Want(vc).Keys, arp);
    MergeAlike(Prune(g, vc), Prune(s, vc), vc.spec, Want(vc), Want(vc).Keys, arp);
    UprightIndexed(Merge(Prune(s, vc), vc.spec, Want(vc), Want(vc).Keys, arp).s, vc.spec);
  }

  lemma MacsUpright(s: Lb, addrs: set<U32>, mac: Mac, h: Hashes)
    requires Sound(s) && Ranged(s.t) && mac != NO_MAC
    ensures Upright(SetMacs(s, addrs, mac))
  {
    var g :| Good(g) && Alike(g, s);
    SetMacsOk(g, addrs, mac, h);
    SetMacsAlike(g, s, addrs, mac);
  }

  lemma RebuiltUpright(s: Lb, k: VipSpec, h: Hashes)
    requires Upright(s) && k in s.vips
    ensures Upright(Rebuild(s, k, h))
  {
    var g :| Inv(g) && Alike(g, s);
    SameKeys(g, s);
    RebuildOk(g, k, h);
    RebuildAlike(g, s, k, h);
  }

  // ---- a reload, VIP by VIP

  lemma PrunedSound(s: Lb, c: Config, lbMac: Mac)
    requires Sound(s)
    ensures Ranged(s.t) && Sound(Pruned(s, c, lbMac))
  {
    SoundRanged(s);
    var g :| Good(g) && Alike(g, s);
    PrunedOk(g, c, lbMac);
    SameKeys(g, s);
    Means(g, s);
    var g1, s1 := Configure(g, c, lbMac), Configure(s, c, lbMac);
    PutAlike(g.t.k, s.t.k, PutConfig(ConfigOf(c, lbMac)));
    assert Alike(g1, s1);
    RangedSame(g.t, g1.t);
    RangedSame(s.t, s1.t);
    DeleteAllAlike(g1, s1, s1.vips.Keys - Specs(c));
  }

  lemma PrunedHash(s: Lb, c: Config, lbMac: Mac)
    requires Ranged(s.t)
    ensures Pruned(s, c, lbMac).hash == c.hash
  {
    var s1 := Configure(s, c, lbMac);
    DeleteAllHash(s1, s1.vips.Keys - Specs(c));
  }

  lemma {:induction false} DeleteAllHash(s: Lb, todo: set<VipSpec>)
    requires Ranged(s.t)
    ensures DeleteAll(s, todo).hash == s.hash
    decreases todo
  {
    if todo != {} {
      var k := First(todo);
      if k in s.vips {
        ReleaseHash(Withdrawn(s, k), s.vips[k].members.Keys);
      }
      DeleteAllHash(DeleteVip(s, k), todo - {k});
    }
  }

  lemma {:induction false} ReleaseHash(s: Lb, todo: set<U32>)
    requires Ranged(s.t)
    ensures ReleaseAll(s, todo).hash == s.hash
    decreases todo
  {
    if todo != {} {
      ReleaseHash(ReleaseOne(s, Least(todo)), todo - {Least(todo)});
    }
  }

  /** The good state alike that has all the configured flags serves for every turn. */
  lemma TurnsSound(s: Lb, vcs: seq<VipConfig>, n: nat, hashChanged: bool, was: HashMode, arp: map<U32, Mac>, h: Hashes)
    requires Sound(s) && Ranged(s.t) && n <= |vcs| && DistinctSpecs(vcs) && MacsOk(arp)
             && hashChanged == (s.hash != was)
    ensures Sound(ApplyVips(s, vcs, n, hashChanged, arp, h).s)
  {
    var g0 :| Good(g0) && Alike(g0, s);
    var c := Config(ByMaglev, None, false, false, 0, 0, vcs);
    var g := g0.(vips := Preset(g0.vips, c));
    PresetIs(g0, g, c, s);
    Means(g, s);
    ApplyVipsOk(g, vcs, n, was, arp, h);
    ApplyVipsAlike(g, s, vcs, n, hashChanged, arp, h);
  }

  lemma NotedMembers(s: Lb, x: Target, r: Report)
    requires Upright(s) && x.vip in s.vips && x.addr in s.vips[x.vip].members
    ensures Indexed(Noted(s, x, r), x.vip)
  {
    UprightIndexed(s, x.vip);
  }

  // ---- whole calls

  /** The daemon stays sound, and good if it was. */
  ghost predicate SoundKept(s: Lb, s': Lb) {
    Sound(s') && (Good(s) ==> Good(s'))
  }

  lemma AddVipSound(s: Lb, k: VipSpec, noConntrack: bool, arp: map<U32, Mac>, h: Hashes)
    requires Sound(s) && MacsOk(arp)
    ensures Ranged(s.t) && SoundKept(s, AddVip(s, k, noConntrack, arp, h).s)
  {
    SoundRanged(s);
    var g :| Good(g) && Alike(g, s);
    AddVipOk(g, k, noConntrack, arp, h);
    SameKeys(g, s);
    CreateVipAlike(g, s, k, noConntrack, map[], arp, h);
    if Good(s) {
      AddVipOk(s, k, noConntrack, arp, h);
    }
  }

  lemma DelVipSound(s: Lb, k: VipSpec, h: Hashes)
    requires Sound(s)
    ensures Ranged(s.t) && SoundKept(s, Control.DelVip(s, k).s)
  {
    SoundRanged(s);
    var g :| Good(g) && Alike(g, s);
    DelVipOk(g, k, h);
    SameKeys(g, s);
    DeleteVipAlike(g, s, k);
    if Good(s) {
      DelVipOk(s, k, h);
    }
  }

  lemma AddRealSound(s: Lb, k: VipSpec, addr: U32, weight: U32, arp: map<U32, Mac>, h: Hashes)
    requires Sound(s) && MacsOk(arp)
    ensures Ranged(s.t) && SoundKept(s, AddReal(s, k, addr, weight, arp, h).s)
  {
    SoundRanged(s);
    var g :| Good(g) && Alike(g, s);
    AddRealOk(g, k, addr, weight, arp, h);
    AddRealAlike(g, s, k, addr, weight, arp, h);
    if Good(s) {
      AddRealOk(s, k, addr, weight, arp, h);
    }
  }

  lemma DelRealSound(s: Lb, k: VipSpec, addr: U32, h: Hashes)
    requires Sound(s)
    ensures Ranged(s.t) && SoundKept(s, DelReal(s, k, addr, h).s)
  {
    SoundRanged(s);
    var g :| Good(g) && Alike(g, s);
    DelRealOk(g, k, addr, h);
    DelRealAlike(g, s, k, addr, h);
    if Good(s) {
      DelRealOk(s, k, addr, h);
    }
  }

  lemma SetWeightSound(s: Lb, k: VipSpec, addr: U32, weight: U32, h: Hashes)
    requires Sound(s)
    ensures Ranged(s.t) && SoundKept(s, SetWeight(s, k, addr, weight, h).s)
  {
    SoundRanged(s);
    var g :| Good(g) && Alike(g, s);
    SetWeightOk(g, k, addr, weight, h);
    SetWeightAlike(g, s, k, addr, weight, h);
    if Good(s) {
      SetWeightOk(s, k, addr, weight, h);
    }
  }

  lemma SetDrainingSound(s: Lb, k: VipSpec, addr: U32, draining: bool, h: Hashes)
    requires Sound(s)
    ensures Ranged(s.t) && SoundKept(s, SetDraining(s, k, addr, draining, h).s)
  {
    SoundRanged(s);
    var g :| Good(g) && Alike(g, s);
    SetDrainingOk(g, k, addr, draining, h);
    SetDrainingAlike(g, s, k, addr, draining, h);
    if Good(s) {
      SetDrainingOk(s, k, addr, draining, h);
    }
  }

  lemma ReportSound(s: Lb, x: Target, p: Probe, rise: U32, fall: U32, h: Hashes)
    requires Sound(s)
    ensures Ranged(s.t) && SoundKept(s, ReportHealth(s, x, p, rise, fall, h))
  {
    SoundRanged(s);
    var g :| Good(g) && Alike(g, s);
    ReportHealthOk(g, x, p, rise, fall, h);
    ReportAlike(g, s, x, p, rise, fall, h);
    if Good(s) {
      ReportHealthOk(s, x, p, rise, fall, h);
    }
  }

  lemma NeighborSound(s: Lb, ip: U32, mac: Mac, h: Hashes)
    requires Sound(s) && mac != NO_MAC
    ensures Ranged(s.t) && SoundKept(s, NeighborResolved(s, ip, mac, h))
  {
    SoundRanged(s);
    var g :| Good(g) && Alike(g, s);
    NeighborResolvedOk(g, ip, mac, h);
    NeighborAlike(g, s, ip, mac, h);
    if Good(s) {
      NeighborResolvedOk(s, ip, mac, h);
    }
  }

  lemma MacKeepsTable(t: Tab, addr: U32, mac: Mac)
    requires Ranged(t) && TableOk(t.slots, t.byAddr) && mac != NO_MAC
    ensures TableOk(SetMac(t, addr, mac).slots, t.byAddr)
  {
    var t' := SetMac(t, addr, mac);
    if MacChanges(t, addr, mac) {
      assert AddrOk(t.slots, t.byAddr, addr);
      forall id: nat | id < |t'.slots|
        ensures SlotOk(t'.slots, t.byAddr, id)
      {
        assert SlotOk(t.slots, t.byAddr, id);
      }
      forall a | a in t.byAddr
        ensures AddrOk(t'.slots, t.byAddr, a)
      {
        assert AddrOk(t.slots, t.byAddr, a);
      }
    }
  }
}
