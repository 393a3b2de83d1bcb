/**
 What every call does to any daemon, whatever state it is in: the record of map states only grows,
 and a member is either one that was there or one with a number never given out before.
 */
module Evolution {
  import opened Basics
  import opened BuildMaglev
  import opened Maps
  import opened Reals
  import opened Health
  import opened LbModel
  import opened Control
  import opened Calls

  /** This member of s' was a member of s, or joined since. */
  ghost predicate KeptOrNew(s: Lb, s': Lb, k: VipSpec, a: U32) {
    k in s'.vips && a in s'.vips[k].members ==>
      || s.next <= s'.vips[k].members[a].incarnation
      || (k in s.vips && a in s.vips[k].members && s'.vips[k].members[a].incarnation
         == s.vips[k].members[a].incarnation)
  }

  /** A ring that belongs to a VIP which has been given one. */
  ghost predicate Owned(s: Lb, id: nat) {
    exists k :: k in s.vips && s.vips[k].id == id && s.vips[k].generation > 0
  }

  /** This ring of s' belongs to a VIP, or was there before and belonged to none. */
  ghost predicate OwnedOrStale(s: Lb, s': Lb, id: nat) {
    id in s'.t.k.maps.rings ==> Owned(s', id) || (id in s.t.k.maps.rings && !Owned(s, id))
  }

  datatype Aspect = Record | Numbers | Members | Rings

  ghost predicate Goes(s: Lb, s': Lb, x: Aspect) {
    match x
    case Record => s.t.k.log <= s'.t.k.log
    case Numbers => s.next <= s'.next
    case Members => forall k, a :: KeptOrNew(s, s', k, a)
    case Rings => forall id: nat :: OwnedOrStale(s, s', id)
  }

  ghost predicate Evolves(s: Lb, s': Lb) {
    forall x: Aspect {:trigger Goes(s, s', x)} :: Goes(s, s', x)
  }

  lemma Evolved(s: Lb, s': Lb)
    requires Evolves(s, s')
    ensures s.t.k.log <= s'.t.k.log && s.next <= s'.next && forall k, a :: KeptOrNew(s, s', k, a)
    ensures forall id: nat :: OwnedOrStale(s, s', id)
  {
    assert Goes(s, s', Record) && Goes(s, s', Numbers) && Goes(s, s', Members) && Goes(s, s', Rings);
  }

  lemma Then(s: Lb, s1: Lb, s2: Lb)
    requires Evolves(s, s1) && Evolves(s1, s2)
    ensures Evolves(s, s2)
  {
    Evolved(s, s1);
    Evolved(s1, s2);
    forall k, a
      ensures KeptOrNew(s, s2, k, a)
    {
      assert KeptOrNew(s1, s2, k, a) && KeptOrNew(s, s1, k, a);
    }
    forall id: nat
      ensures OwnedOrStale(s, s2, id)
    {
      assert OwnedOrStale(s1, s2, id) && OwnedOrStale(s, s1, id);
    }
  }

  /** Members, their numbers, the counter and the rings are the same. */
  lemma SameMembersEvolve(s: Lb, s': Lb)
    requires s.t.k.log <= s'.t.k.log && s'.next == s.next && s'.vips == s.vips && s'.t.k.maps.rings == s.t.k.maps.rings
    ensures Evolves(s, s')
  {
    forall id: nat
      ensures OwnedOrStale(s, s', id)
    {
      assert Owned(s', id) <==> Owned(s, id);
    }
  }

  /** No VIP with a ring lost it, and no ring came into being. */
  lemma SameRingsEvolve(s: Lb, s': Lb)
    requires s'.t.k.maps.rings.Keys <= s.t.k.maps.rings.Keys
    requires forall k :: k in s.vips && s.vips[k].generation > 0 && s.vips[k].id in s'.t.k.maps.rings ==>
               k in s'.vips && s'.vips[k].id == s.vips[k].id && s'.vips[k].generation > 0
    ensures forall id: nat :: OwnedOrStale(s, s', id)
  {
    forall id: nat
      ensures OwnedOrStale(s, s', id)
    {
      if id in s'.t.k.maps.rings && Owned(s, id) {
        var k :| k in s.vips && s.vips[k].id == id && s.vips[k].generation > 0;
        assert k in s'.vips && s'.vips[k].id == id;
      }
    }
  }

  // ---- the table

  lemma AcquireLogs(t: Tab, addr: U32)
    requires Ranged(t) && Acquire(t, addr).Some?
    ensures t.k.log <= Acquire(t, addr).value.k.log && Acquire(t, addr).value.k.maps.rings == t.k.maps.rings
  {
  }

  lemma ReleaseLogs(t: Tab, addr: U32)
    requires Ranged(t)
    ensures t.k.log <= Release(t, addr).k.log && Release(t, addr).k.maps.rings == t.k.maps.rings
  {
  }

  lemma SetMacLogs(t: Tab, addr: U32, mac: Mac)
    requires Ranged(t)
    ensures t.k.log <= SetMac(t, addr, mac).k.log && SetMac(t, addr, mac).k.maps.rings == t.k.maps.rings
  {
  }

  lemma ResolveLogs(t: Tab, addr: U32, nextHop: Option<U32>, arp: map<U32, Mac>)
    requires Ranged(t)
    ensures t.k.log <= Resolve(t, addr, nextHop, arp).k.log
            && Resolve(t, addr, nextHop, arp).k.maps.rings == t.k.maps.rings
  {
    var target := if nextHop.Some? then nextHop.value else addr;
    if target in arp {
      SetMacLogs(t, addr, arp[target]);
    }
  }

  // ---- members

  lemma RebuildEvolves(s: Lb, k: VipSpec, h: Hashes)
    requires k in s.vips
    ensures Evolves(s, Rebuild(s, k, h))
  {
    var s' := Rebuild(s, k, h);
    forall id: nat
      ensures OwnedOrStale(s, s', id)
    {
      if id == s.vips[k].id {
        assert k in s'.vips && s'.vips[k].id == id;
      } else if Owned(s, id) {
        var j :| j in s.vips && s.vips[j].id == id && s.vips[j].generation > 0;
        assert j in s'.vips && s'.vips[j].id == id;
      }
    }
  }

  lemma ThenRebuild(s: Lb, s1: Lb, k: VipSpec, h: Hashes)
    requires Evolves(s, s1) && k in s1.vips
    ensures Evolves(s, Rebuild(s1, k, h))
  {
    RebuildEvolves(s1, k, h);
    Then(s, s1, Rebuild(s1, k, h));
  }

  lemma TouchEvolves(s: Lb, s': Lb, k: VipSpec, v: Vip)
    requires k in s.vips && v.members.Keys <= s.vips[k].members.Keys && s' == s.(vips := s.vips[k := v])
    requires forall a :: a in v.members ==> v.members[a].incarnation == s.vips[k].members[a].incarnation
    requires v.id == s.vips[k].id && v.generation == s.vips[k].generation
    ensures Evolves(s, s')
  {
    SameRingsEvolve(s, s');
  }

  lemma AddMemberEvolves(s: Lb, k: VipSpec, addr: U32, weight: U32, arp: map<U32, Mac>)
    requires Ranged(s.t) && k in s.vips && AddMember(s, k, addr, weight, arp).Some?
    ensures Evolves(s, AddMember(s, k, addr, weight, arp).value)
  {
    AcquireLogs(s.t, addr);
    ResolveLogs(Acquire(s.t, addr).value, addr, s.nextHop, arp);
    SameRingsEvolve(s, AddMember(s, k, addr, weight, arp).value);
  }

  lemma {:induction false} MergeEvolves(s: Lb, k: VipSpec, want: map<U32, U32>, todo: set<U32>, arp: map<U32, Mac>)
    requires Ranged(s.t) && k in s.vips && todo <= want.Keys
    ensures Evolves(s, Merge(s, k, want, todo, arp).s)
    decreases todo
  {
    if todo != {} {
      var a := Least(todo);
      if a in s.vips[k].members {
        var s1 := Reweigh(s, k, a, want[a]);
        TouchEvolves(s, s1, k, s1.vips[k]);
        MergeEvolves(s1, k, want, todo - {a}, arp);
        Then(s, s1, Merge(s1, k, want, todo - {a}, arp).s);
      } else {
        var r := AddMember(s, k, a, want[a], arp);
        if r.Some? {
          AddMemberEvolves(s, k, a, want[a], arp);
          MergeEvolves(r.value, k, want, todo - {a}, arp);
          Then(s, r.value, Merge(r.value, k, want, todo - {a}, arp).s);
        }
      }
    }
  }

  lemma {:induction false} ReleaseAllEvolves(s: Lb, todo: set<U32>)
    requires Ranged(s.t)
    ensures Evolves(s, ReleaseAll(s, todo)) && ReleaseAll(s, todo).vips == s.vips
    decreases todo
  {
    if todo != {} {
      var s1 := ReleaseOne(s, Least(todo));
      ReleaseLogs(s.t, Least(todo));
      SameMembersEvolve(s, s1);
      ReleaseAllEvolves(s1, todo - {Least(todo)});
      Then(s, s1, ReleaseAll(s, todo));
    }
  }

  // ---- VIPs

  lemma EnterOnlyAdds(s: Lb, k: VipSpec, noConntrack: bool)
    requires k !in s.vips && Enter(s, k, noConntrack).Some?
    ensures var s' := Enter(s, k, noConntrack).value;
            && k in s'.vips && s'.vips == s.vips[k := s'.vips[k]] && s'.vips[k].members == map[]
            && s'.t.k.maps.rings == s.t.k.maps.rings && s'.next == s.next && s.t.k.log <= s'.t.k.log
  {
  }

  lemma NewVipEvolves(s: Lb, s': Lb, k: VipSpec)
    requires k !in s.vips && k in s'.vips && s'.vips == s.vips[k := s'.vips[k]] && s'.vips[k].members == map[]
    requires s'.t.k.maps.rings == s.t.k.maps.rings && s'.next == s.next && s.t.k.log <= s'.t.k.log
    ensures Evolves(s, s')
  {
    SameRingsEvolve(s, s');
  }

  lemma EnterEvolves(s: Lb, k: VipSpec, noConntrack: bool)
    requires k !in s.vips && Enter(s, k, noConntrack).Some?
    ensures Evolves(s, Enter(s, k, noConntrack).value)
  {
    EnterOnlyAdds(s, k, noConntrack);
    NewVipEvolves(s, Enter(s, k, noConntrack).value, k);
  }

  lemma PublishEvolves(s: Lb, k: VipSpec, h: Hashes)
    requires k in s.vips
    ensures Evolves(s, SendVip(Rebuild(s, k, h), k))
  {
    var s1 := Rebuild(s, k, h);
    RebuildEvolves(s, k, h);
    SameMembersEvolve(s1, SendVip(s1, k));
    Then(s, s1, SendVip(s1, k));
  }

  lemma CreateVipEvolves(s: Lb, k: VipSpec, noConntrack: bool, want: map<U32, U32>, arp: map<U32, Mac>, h: Hashes)
    requires Ranged(s.t) && k !in s.vips
    ensures Evolves(s, CreateVip(s, k, noConntrack, want, arp, h).s)
  {
    var r := Enter(s, k, noConntrack);
    if r.Some? {
      EnterEvolves(s, k, noConntrack);
      RangedSame(s.t, r.value.t);
      MergeEvolves(r.value, k, want, want.Keys, arp);
      var d := Merge(r.value, k, want, want.Keys, arp);
      Then(s, r.value, d.s);
      if d.ok {
        PublishEvolves(d.s, k, h);
        Then(s, d.s, SendVip(Rebuild(d.s, k, h), k));
      }
    }
  }

  lemma WithdrawLogs(s: Lb, s1: Lb, k: VipSpec)
    requires k in s.vips && s1 == Forget(Send(Send(s, Write.DelVip(k)), DelRing(s.vips[k].id)), k)
    ensures s1.vips == s.vips - {k} && s1.t.k.maps.rings == s.t.k.maps.rings - {s.vips[k].id}
    ensures s1.next == s.next && s.t.k.log <= s1.t.k.log
  {
  }

  lemma ForgottenEvolves(s: Lb, s1: Lb, k: VipSpec)
    requires k in s.vips && s1.vips == s.vips - {k} && s1.t.k.maps.rings == s.t.k.maps.rings - {s.vips[k].id}
    requires s1.next == s.next && s.t.k.log <= s1.t.k.log
    ensures Evolves(s, s1)
  {
    SameRingsEvolve(s, s1);
  }

  lemma DeleteVipEvolves(s: Lb, k: VipSpec)
    requires Ranged(s.t)
    ensures Evolves(s, DeleteVip(s, k))
  {
    if k in s.vips {
      var s1 := Forget(Send(Send(s, Write.DelVip(k)), DelRing(s.vips[k].id)), k);
      WithdrawLogs(s, s1, k);
      ForgottenEvolves(s, s1, k);
      ReleaseAllEvolves(s1, s.vips[k].members.Keys);
      Then(s, s1, DeleteVip(s, k));
    }
  }

  lemma {:induction false} DeleteAllEvolves(s: Lb, todo: set<VipSpec>)
    requires Ranged(s.t)
    ensures Evolves(s, DeleteAll(s, todo))
    decreases todo
  {
    if todo != {} {
      var k := First(todo);
      DeleteVipEvolves(s, k);
      DeleteAllEvolves(DeleteVip(s, k), todo - {k});
      Then(s, DeleteVip(s, k), DeleteAll(s, todo));
    }
  }

  // ---- a reload

  lemma ReflagEvolves(s: Lb, k: VipSpec, noConntrack: bool)
    requires k in s.vips
    ensures Evolves(s, Reflag(s, k, noConntrack))
  {
    var s1 := s.(vips := s.vips[k := s.vips[k].(noConntrack := noConntrack)]);
    TouchEvolves(s, s1, k, s1.vips[k]);
    SameMembersEvolve(s1, SendVip(s1, k));
    Then(s, s1, SendVip(s1, k));
    SameMembersEvolve(s, s);
  }

  lemma RemoveEvolves(s: Lb, k: VipSpec, gone: set<U32>)
    requires k in s.vips
    ensures Evolves(s, RemoveMembers(s, k, gone))
  {
    SameRingsEvolve(s, RemoveMembers(s, k, gone));
  }

  lemma PruneEvolves(s: Lb, vc: VipConfig)
    requires vc.spec in s.vips
    ensures Evolves(s, Prune(s, vc))
  {
    var s1 := Reflag(s, vc.spec, vc.noConntrack);
    ReflagEvolves(s, vc.spec, vc.noConntrack);
    RemoveEvolves(s1, vc.spec, Gone(s, vc));
    Then(s, s1, Prune(s, vc));
  }

  lemma FinishEvolves(s: Lb, s1: Lb, vc: VipConfig, changed: bool, h: Hashes)
    requires Ranged(s1.t) && vc.spec in s.vips && vc.spec in s1.vips && Evolves(s, s1)
    ensures Evolves(s, ReleaseAll(if changed then Rebuild(s1, vc.spec, h) else s1, Gone(s, vc)))
  {
    var s2 := if changed then Rebuild(s1, vc.spec, h) else s1;
    if changed {
      RebuildEvolves(s1, vc.spec, h);
      Then(s, s1, s2);
    }
    ReleaseAllEvolves(s2, Gone(s, vc));
    Then(s, s2, ReleaseAll(s2, Gone(s, vc)));
  }

  lemma ReloadVipEvolves(s: Lb, vc: VipConfig, hashChanged: bool, arp: map<U32, Mac>, h: Hashes)
    requires Ranged(s.t) && vc.spec in s.vips
    ensures Evolves(s, ReloadVip(s, vc, hashChanged, arp, h).s)
  {
    PruneEvolves(s, vc);
    MergeEvolves(Prune(s, vc), vc.spec, Want(vc), Want(vc).Keys, arp);
    var d := Merge(Prune(s, vc), vc.spec, Want(vc), Want(vc).Keys, arp);
    Then(s, Prune(s, vc), d.s);
    if d.ok {
      FinishEvolves(s, d.s, vc, RingChanges(s.vips[vc.spec], Want(vc), hashChanged), h);
    }
  }

  lemma ApplyVipEvolves(s: Lb, vc: VipConfig, hashChanged: bool, arp: map<U32, Mac>, h: Hashes)
    requires Ranged(s.t)
    ensures Evolves(s, ApplyVip(s, vc, hashChanged, arp, h).s)
  {
    if vc.spec in s.vips {
      ReloadVipEvolves(s, vc, hashChanged, arp, h);
    } else {
      CreateVipEvolves(s, vc.spec, vc.noConntrack, Want(vc), arp, h);
    }
  }

  lemma ApplyNextEvolves(s: Lb, d: Done, vcs: seq<VipConfig>, m: nat, hashChanged: bool, arp: map<U32, Mac>, h: Hashes)
    requires Ranged(s.t) && m < |vcs| && d == ApplyVips(s, vcs, m, hashChanged, arp, h) && Evolves(s, d.s)
    ensures Evolves(s, ApplyVips(s, vcs, m + 1, hashChanged, arp, h).s)
  {
    if d.ok {
      ApplyVipEvolves(d.s, vcs[m], hashChanged, arp, h);
      Then(s, d.s, ApplyVip(d.s, vcs[m], hashChanged, arp, h).s);
    }
  }

  lemma {:induction false} ApplyVipsEvolve(s: Lb, vcs: seq<VipConfig>, n: nat, hashChanged: bool, arp: map<U32, Mac>,
                                           h: Hashes)
    requires Ranged(s.t) && n <= |vcs|
    ensures Evolves(s, ApplyVips(s, vcs, n, hashChanged, arp, h).s)
  {
    if n > 0 {
      var m := n - 1;
      assert m + 1 == n;
      ApplyVipsEvolve(s, vcs, m, hashChanged, arp, h);
      ApplyNextEvolves(s, ApplyVips(s, vcs, m, hashChanged, arp, h), vcs, m, hashChanged, arp, h);
    }
  }

  lemma ReloadEvolves(s: Lb, c: Config, lbMac: Mac, arp: map<U32, Mac>, h: Hashes)
    requires Ranged(s.t)
    ensures Evolves(s, Reload(s, c, lbMac, arp, h).s)
  {
    var s1 := Configure(s, c, lbMac);
    SameMembersEvolve(s, s1);
    DeleteAllEvolves(s1, s1.vips.Keys - Specs(c));
    var s2 := DeleteAll(s1, s1.vips.Keys - Specs(c));
    Then(s, s1, s2);
    ApplyVipsEvolve(s2, c.vips, |c.vips|, s.hash != c.hash, arp, h);
    Then(s, s2, Reload(s, c, lbMac, arp, h).s);
  }

  // ---- the other calls

  lemma RealEvolves(s: Lb, call: Call, h: Hashes)
    requires Ranged(s.t) && (call.op.AddRealOp? || call.op.DelRealOp? || call.op.WeightOp? || call.op.DrainOp?)
    ensures Evolves(s, Step(s, call, h))
  {
    match call.op
    case AddRealOp(k, addr, weight) => AddRealEvolves(s, k, addr, weight, call.arp, h);
    case DelRealOp(k, addr) => DelRealEvolves(s, k, addr, h);
    case WeightOp(k, addr, weight) => SetWeightEvolves(s, k, addr, weight, h);
    case DrainOp(k, addr, draining) => SetDrainingEvolves(s, k, addr, draining, h);
  }

  lemma AddRealEvolves(s: Lb, k: VipSpec, addr: U32, weight: U32, arp: map<U32, Mac>, h: Hashes)
    requires Ranged(s.t)
    ensures Evolves(s, AddReal(s, k, addr, weight, arp, h).s)
  {
    if k in s.vips {
      var r := AddMember(s, k, addr, weight, arp);
      if r.Some? {
        AddMemberEvolves(s, k, addr, weight, arp);
        ThenRebuild(s, r.value, k, h);
      }
    }
  }

  lemma SetWeightEvolves(s: Lb, k: VipSpec, addr: U32, weight: U32, h: Hashes)
    requires Ranged(s.t)
    ensures Evolves(s, SetWeight(s, k, addr, weight, h).s)
  {
    if k in s.vips && addr in s.vips[k].members {
      EditEvolves(s, Reweigh(s, k, addr, weight).vips[k], k, h);
    }
  }

  lemma SetDrainingEvolves(s: Lb, k: VipSpec, addr: U32, draining: bool, h: Hashes)
    requires Ranged(s.t)
    ensures Evolves(s, SetDraining(s, k, addr, draining, h).s)
  {
    if k in s.vips && addr in s.vips[k].members {
      EditEvolves(s, Redrain(s, k, addr, draining).vips[k], k, h);
    }
  }

  lemma EditEvolves(s: Lb, v: Vip, k: VipSpec, h: Hashes)
    requires k in s.vips && v.members.Keys <= s.vips[k].members.Keys
    requires forall a :: a in v.members ==> v.members[a].incarnation == s.vips[k].members[a].incarnation
    requires v.id == s.vips[k].id && v.generation == s.vips[k].generation
    ensures Evolves(s, Rebuild(s.(vips := s.vips[k := v]), k, h))
  {
    var s1 := s.(vips := s.vips[k := v]);
    TouchEvolves(s, s1, k, v);
    ThenRebuild(s, s1, k, h);
  }

  lemma DelRealEvolves(s: Lb, k: VipSpec, addr: U32, h: Hashes)
    requires Ranged(s.t)
    ensures Evolves(s, DelReal(s, k, addr, h).s)
  {
    if k in s.vips && addr in s.vips[k].members {
      var s1 := RemoveMembers(s, k, {addr});
      RemoveEvolves(s, k, {addr});
      var s2 := Rebuild(s1, k, h);
      RebuildEvolves(s1, k, h);
      Then(s, s1, s2);
      ReleaseLogs(s2.t, addr);
      SameMembersEvolve(s2, ReleaseOne(s2, addr));
      Then(s, s2, ReleaseOne(s2, addr));
    }
  }

  lemma ReportEvolves(s: Lb, x: Target, p: Probe, rise: U32, fall: U32, h: Hashes)
    requires Ranged(s.t)
    ensures Evolves(s, ReportHealth(s, x, p, rise, fall, h))
  {
    if Counts(s, x, p) {
      var s1 := Noted(s, x, Report(p.ok, rise, fall));
      SameRingsEvolve(s, s1);
      ThenRebuild(s, s1, x.vip, h);
    }
  }

  lemma {:induction false} SetMacsEvolve(s: Lb, todo: set<U32>, mac: Mac)
    requires Ranged(s.t)
    ensures Evolves(s, SetMacs(s, todo, mac))
    decreases todo
  {
    if todo != {} {
      var a := Least(todo);
      var s1 := s.(t := SetMac(s.t, a, mac));
      SetMacLogs(s.t, a, mac);
      SameMembersEvolve(s, s1);
      SetMacsEvolve(s1, todo - {a}, mac);
      Then(s, s1, SetMacs(s, todo, mac));
    }
  }

  lemma {:induction false} RebuildAllEvolves(s: Lb, todo: set<VipSpec>, h: Hashes)
    requires Ranged(s.t) && todo <= s.vips.Keys
    ensures Evolves(s, RebuildAll(s, todo, h))
    decreases todo
  {
    if todo != {} {
      var k := First(todo);
      RebuildEvolves(s, k, h);
      RebuildAllEvolves(Rebuild(s, k, h), todo - {k}, h);
      Then(s, Rebuild(s, k, h), RebuildAll(s, todo, h));
    }
  }

  lemma NeighborEvolves(s: Lb, ip: U32, mac: Mac, h: Hashes)
    requires Ranged(s.t)
    ensures Evolves(s, NeighborResolved(s, ip, mac, h))
  {
    SetMacsEvolve(s, Behind(s, ip), mac);
    var s1 := SetMacs(s, Behind(s, ip), mac);
    RebuildAllEvolves(s1, HoldingAny(s1, Unresolved(s, Behind(s, ip))), h);
    Then(s, s1, NeighborResolved(s, ip, mac, h));
  }

  lemma StepEvolves(s: Lb, call: Call, h: Hashes)
    requires Ranged(s.t)
    ensures Evolves(s, Step(s, call, h))
  {
    match call.op
    case AddVipOp(k, noConntrack) =>
      if k !in s.vips {
        CreateVipEvolves(s, k, noConntrack, map[], call.arp, h);
      }
    case DelVipOp(k) => DeleteVipEvolves(s, k);
    case HealthOp(x, p, rise, fall) => ReportEvolves(s, x, p, rise, fall, h);
    case NeighborOp(ip, mac) => NeighborEvolves(s, ip, mac, h);
    case ReloadOp(c, lbMac) => ReloadEvolves(s, c, lbMac, call.arp, h);
    case _ => RealEvolves(s, call, h);
  }

  lemma NextEvolves(run: seq<Lb>, calls: seq<Call>, n: nat, h: Hashes)
    requires IsRun(run, calls, h) && 0 < n <= |calls|
    ensures Evolves(run[n - 1], run[n])
  {
    assert StepAt(run, calls, n - 1, h);
    StepEvolves(run[n - 1], calls[n - 1], h);
  }

  lemma {:induction false} RunEvolves(run: seq<Lb>, calls: seq<Call>, m: nat, n: nat, h: Hashes)
    requires IsRun(run, calls, h) && m <= n <= |calls|
    ensures Evolves(run[m], run[n])
    decreases n
  {
    if n == m {
      SameMembersEvolve(run[m], run[m]);
    } else {
      RunEvolves(run, calls, m, n - 1, h);
      NextEvolves(run, calls, n, h);
      Then(run[m], run[n - 1], run[n]);
    }
  }

  // ---- probes of members that are gone

  /** The number was given out, and no member has it. */
  ghost predicate Retired(s: Lb, n: nat) {
    n < s.next && forall k, a :: k in s.vips && a in s.vips[k].members ==> s.vips[k].members[a].incarnation != n
  }

  /** A retired number is never given out again. */
  lemma StaysRetired(s: Lb, s': Lb, n: nat)
    requires Retired(s, n) && Evolves(s, s')
    ensures Retired(s', n)
  {
    Evolved(s, s');
    forall k, a | k in s'.vips && a in s'.vips[k].members
      ensures s'.vips[k].members[a].incarnation != n
    {
      assert KeptOrNew(s, s', k, a);
    }
  }

  /** As soon as a member is gone from its VIP, or another one stands in its place, its number is retired. */
  lemma GoneIsRetired(s: Lb, s': Lb, k: VipSpec, a: U32)
    requires HealthOk(s.vips, s.next, s.reports) && k in s.vips && a in s.vips[k].members && Evolves(s, s')
    requires k in s'.vips && a in s'.vips[k].members
             ==> s'.vips[k].members[a].incarnation != s.vips[k].members[a].incarnation
    ensures Retired(s', s.vips[k].members[a].incarnation)
  {
    Evolved(s, s');
    var n := s.vips[k].members[a].incarnation;
    assert MemberHealth(s.vips[k].members[a], s.next, s.reports);
    forall j, b | j in s'.vips && b in s'.vips[j].members
      ensures s'.vips[j].members[b].incarnation != n
    {
      assert KeptOrNew(s, s', j, b) && Apart(s.vips, k, a, j, b);
    }
  }

  /**
   A probe of a member that has been removed never counts again, whatever calls follow: not when the
   address is added again, to the same VIP or to another, by the API or by a reload.
   */
  lemma RemovedNeverCounts(run: seq<Lb>, calls: seq<Call>, m: nat, n: nat, h: Hashes, x: Target, p: Probe)
    requires IsRun(run, calls, h) && m <= n <= |calls| && Retired(run[m], x.incarnation)
    ensures !Counts(run[n], x, p)
  {
    RunEvolves(run, calls, m, n, h);
    StaysRetired(run[m], run[n], x.incarnation);
  }

  /** An unsafe map state stays on the record. */
  lemma UnsafeStays(s: Lb, s': Lb)
    requires Evolves(s, s') && !AllSafe(s.t.k.log, 0)
    ensures !AllSafe(s'.t.k.log, 0)
  {
    Evolved(s, s');
    var i :| 0 <= i < |s.t.k.log| && !MapsSafe(s.t.k.log[i].after);
    assert s'.t.k.log[i] == s.t.k.log[i];
  }

  // ---- rings nobody owns

  /** Every ring belongs to a VIP which has been given one. */
  ghost predicate AllOwned(s: Lb) {
    forall id: nat :: id in s.t.k.maps.rings ==> Owned(s, id)
  }

  lemma StaysOwned(s: Lb, s': Lb)
    requires AllOwned(s) && Evolves(s, s')
    ensures AllOwned(s')
  {
    Evolved(s, s');
    forall id: nat | id in s'.t.k.maps.rings
      ensures Owned(s', id)
    {
      assert OwnedOrStale(s, s', id);
    }
  }
}
