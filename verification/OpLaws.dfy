/** The operations on a running daemon. */
module OpLaws {
  import opened Basics
  import opened BuildMaglev
  import opened Maps
  import opened Reals
  import opened LbModel
  import opened Control
  import opened ControlLaws
  import opened MemberLaws
  import opened ReleaseLaws

  /** Holds in every run, whatever failed. */
  ghost predicate Good(s: Lb) {
    Inv(s) && s.initialized && AllTraced(s, s.leak)
  }

  ghost predicate AllSteady(s: Lb, h: Hashes) {
    forall j :: Steady(s, h, j)
  }

  /** Holds while no reload has run out of ids: nothing pending, every VIP published with its own ring. */
  ghost predicate Neat(s: Lb, h: Hashes) {
    Inv(s) && s.initialized && s.leak == multiset{} && AllSteady(s, h)
  }

  lemma NeatIsGood(s: Lb, h: Hashes)
    requires Neat(s, h)
    ensures Good(s)
  {
    Open(s);
    forall j
      ensures Traced(s, s.leak, j)
    {
      assert Steady(s, h, j);
      if j in s.vips {
        SettledTraced(s, s.leak, h, j);
      }
    }
  }

  // ---- changing one VIP and rebuilding its ring

  /** s1 is s with VIP k's members changed, those in `gone` still referenced. */
  ghost predicate Edited(s: Lb, s1: Lb, k: VipSpec, gone: set<U32>) {
    && k in s.vips && k in s1.vips && s1.leak == s.leak + multiset(gone)
    && s1 == s.(vips := s.vips[k := s1.vips[k]], t := s1.t, leak := s1.leak, next := s1.next, reports := s1.reports)
    && s1.vips[k].id == s.vips[k].id && s1.vips[k].noConntrack == s.vips[k].noConntrack
    && SameAt(s.t.k.maps.vipMap, s1.t.k.maps.vipMap, k)
    && forall j :: j != k ==> Untouched(s, s1, s.leak, j)
  }

  /** s' is s with VIP k rebuilt to `v`. */
  ghost predicate Changed(s: Lb, s': Lb, k: VipSpec, v: Vip, h: Hashes) {
    && Inv(s') && AllTraced(s', s.leak) && s'.leak == s.leak
    && k in s.vips && s'.vips == s.vips[k := v]
    && s' == s.(vips := s'.vips, t := s'.t, next := s'.next, reports := s'.reports)
    && v.generation > 0 && v.id == s.vips[k].id && v.noConntrack == s.vips[k].noConntrack
    && SameAt(s.t.k.maps.vipMap, s'.t.k.maps.vipMap, k)
    && Settled(v, s'.t.k.maps.rings, s'.t.slots, s'.t.byAddr, s'.hash, h)
    && forall j :: j != k ==> Untouched(s, s', s.leak, j)
  }

  ghost function Finish(s1: Lb, k: VipSpec, gone: set<U32>, h: Hashes): (s': Lb)
    requires Ranged(s1.t) && k in s1.vips
  {
    ReleaseAll(Rebuild(s1, k, h), gone)
  }

  lemma RebuiltTraced(s: Lb, s1: Lb, k: VipSpec, gone: set<U32>, h: Hashes)
    requires Good(s) && Inv(s1) && Edited(s, s1, k, gone)
    ensures var s2 := Rebuild(s1, k, h);
            Inv(s2) && AllTraced(s2, s.leak) && forall j :: j != k ==> Untouched(s, s2, s.leak, j)
  {
    var s2 := Rebuild(s1, k, h);
    RebuildOk(s1, k, h);
    assert TabOk(s.t) && TabOk(s2.t) by { assert Holds(s, TablePart) && Holds(s2, TablePart); }
    forall j
      ensures Traced(s2, s.leak, j) && (j != k ==> Untouched(s, s2, s.leak, j))
    {
      if j == k {
        SettledTraced(s2, s.leak, h, k);
      } else {
        RebuildLeaves(s1, k, h, s.leak, j);
        UntouchedThen(s, s1, s2, s.leak, j);
        assert Traced(s, s.leak, j);
        UntouchedTraced(s, s2, s.leak, j);
      }
    }
  }

  /** Edit, rebuild, release: safe at every write, and nobody else notices. */
  lemma ChangeOk(s: Lb, s1: Lb, k: VipSpec, gone: set<U32>, h: Hashes)
    requires Good(s) && Inv(s1) && Edited(s, s1, k, gone)
    ensures Ranged(s1.t)
    ensures Changed(s, Finish(s1, k, gone, h), k, Rebuilt(s1.vips[k], s1.t.slots, s1.t.byAddr), h)
  {
    InvRanged(s1);
    var s2, s' := Rebuild(s1, k, h), Finish(s1, k, gone, h);
    RebuiltTraced(s, s1, k, gone, h);
    assert s.adopted == map[] by { assert Holds(s, LivePart); }
    ReleaseAllOk(s2, s.leak, gone);
    RebuildOk(s1, k, h);
    assert Untouched(s2, s', s.leak, k);
    SettledKept(s2.vips[k], s2.t.k.maps.rings, s2.t.slots, s2.t.byAddr, s'.t.k.maps.rings, s'.t.slots, s'.t.byAddr,
      s2.hash, h);
    forall j | j != k
      ensures Untouched(s, s', s.leak, j)
    {
      UntouchedThen(s, s2, s', s.leak, j);
    }
  }

  lemma ChangedGood(s: Lb, s': Lb, k: VipSpec, v: Vip, h: Hashes)
    requires Good(s) && Changed(s, s', k, v, h)
    ensures Good(s') && (Neat(s, h) ==> Neat(s', h))
  {
    if Neat(s, h) {
      forall j
        ensures Steady(s', h, j)
      {
        assert Steady(s, h, j);
        if j != k {
          UntouchedSteady(s, s', s.leak, h, j);
        }
      }
    }
  }

  /** Changing flags that do not touch the table. */
  lemma TouchEdits(s: Lb, k: VipSpec, v: Vip)
    requires Inv(s) && k in s.vips && SameMembers(s.vips[k], v)
    requires v.generation == s.vips[k].generation && v.noConntrack == s.vips[k].noConntrack
    ensures Inv(s.(vips := s.vips[k := v])) && Edited(s, s.(vips := s.vips[k := v]), k, {})
  {
    TouchOk(s, k, v);
    UntouchedSelf(s, s.leak);
    var s1 := s.(vips := s.vips[k := v]);
    assert s.leak + multiset({}) == s.leak;
    forall j | j != k
      ensures Untouched(s, s1, s.leak, j)
    {
      assert Untouched(s, s, s.leak, j);
    }
  }

  lemma GrewLeaves(s: Lb, s1: Lb, stuck: multiset<U32>, j: VipSpec)
    requires Inv(s) && stuck <= s.leak && Grew(s.t, s1.t) && SameAt(s.vips, s1.vips, j)
    ensures Untouched(s, s1, stuck, j)
  {
    assert Holds(s, HeldPart);
    if j in s.vips {
      forall a | a in s.vips[j].members || a in stuck
        ensures KeepsAddr(s.t.slots, s.t.byAddr, s1.t.slots, s1.t.byAddr, a)
      {
        assert a in s.t.byAddr;
      }
    }
  }

  lemma GrewEdits(s: Lb, s1: Lb, k: VipSpec)
    requires Inv(s) && k in s.vips && OnlyVip(s, s1, k) && Grew(s.t, s1.t)
    requires s1.vips[k].id == s.vips[k].id && s1.vips[k].noConntrack == s.vips[k].noConntrack
    ensures Edited(s, s1, k, {})
  {
    assert s.leak + multiset({}) == s.leak;
    forall j | j != k
      ensures Untouched(s, s1, s.leak, j)
    {
      GrewLeaves(s, s1, s.leak, j);
    }
  }

  lemma RemoveOk(s: Lb, k: VipSpec, gone: set<U32>)
    requires Inv(s) && k in s.vips && gone <= s.vips[k].members.Keys
    ensures Inv(RemoveMembers(s, k, gone)) && Edited(s, RemoveMembers(s, k, gone), k, gone)
  {
    Open(s);
    var s1 := RemoveMembers(s, k, gone);
    var v := s1.vips[k];
    IdsTouched(s.vips, s.adopted, s.t.k.maps.vipMap, k, v);
    HeldRemoved(s.vips, s.t.slots, s.t.byAddr, s.leak, k, gone);
    HealthDropped(s.vips, s.next, s.reports, k, v);
    GenTouched(s.vips, s.t.k.installs, s.base, k, v);
    Close(s1);
    UntouchedSelf(s, s.leak);
    forall j | j != k
      ensures Untouched(s, s1, s.leak, j)
    {
      assert Untouched(s, s, s.leak, j);
    }
  }

  // ---- reals

  lemma ReleaseNone(s: Lb)
    requires Ranged(s.t)
    ensures ReleaseAll(s, {}) == s
  {
  }

  lemma ReleaseSingle(s: Lb, a: U32)
    requires Ranged(s.t)
    ensures ReleaseAll(s, {a}) == ReleaseOne(s, a)
  {
    assert Least({a}) == a;
    assert {a} - {a} == {};
    ReleaseNone(ReleaseOne(s, a));
  }

  /** After a change that goes through, and after one that is refused. */
  ghost predicate Kept(s: Lb, s': Lb, h: Hashes) {
    Good(s') && (Neat(s, h) ==> Neat(s', h))
  }

  lemma EditKept(s: Lb, s1: Lb, k: VipSpec, h: Hashes)
    requires Good(s) && Inv(s1) && Edited(s, s1, k, {})
    ensures Kept(s, Rebuild(s1, k, h), h)
    ensures Changed(s, Rebuild(s1, k, h), k, Rebuilt(s1.vips[k], s1.t.slots, s1.t.byAddr), h)
  {
    ChangeOk(s, s1, k, {}, h);
    ReleaseNone(Rebuild(s1, k, h));
    ChangedGood(s, Rebuild(s1, k, h), k, Rebuilt(s1.vips[k], s1.t.slots, s1.t.byAddr), h);
  }

  /** real.add is refused exactly for the reasons the API gives, and then changes nothing. */
  lemma AddRealOk(s: Lb, k: VipSpec, addr: U32, weight: U32, arp: map<U32, Mac>, h: Hashes)
    requires Good(s) && MacsOk(arp)
    ensures Ranged(s.t)
    ensures var d := AddReal(s, k, addr, weight, arp, h);
            && Kept(s, d.s, h) && (!d.ok ==> d.s == s)
            && (d.ok <==> k in s.vips && addr != 0 && addr !in s.vips[k].members && weight <= MAX_WEIGHT
                          && (addr in s.t.byAddr || !Full(s.t.slots)))
  {
    InvRanged(s);
    if k in s.vips && addr != 0 && addr !in s.vips[k].members && weight <= MAX_WEIGHT {
      AddMemberOk(s, k, addr, weight, arp);
      var r := AddMember(s, k, addr, weight, arp);
      if r.Some? {
        GrewEdits(s, r.value, k);
        EditKept(s, r.value, k, h);
      }
    }
  }

  lemma DelRealOk(s: Lb, k: VipSpec, addr: U32, h: Hashes)
    requires Good(s)
    ensures Ranged(s.t)
    ensures var d := DelReal(s, k, addr, h);
            Kept(s, d.s, h) && (!d.ok ==> d.s == s) && (d.ok <==> k in s.vips && addr in s.vips[k].members)
  {
    InvRanged(s);
    if k in s.vips && addr in s.vips[k].members {
      var s1 := RemoveMembers(s, k, {addr});
      RemoveOk(s, k, {addr});
      ChangeOk(s, s1, k, {addr}, h);
      ReleaseSingle(Rebuild(s1, k, h), addr);
      ChangedGood(s, Finish(s1, k, {addr}, h), k, Rebuilt(s1.vips[k], s1.t.slots, s1.t.byAddr), h);
    }
  }

  /** b's record once member a is m: in_ring decided anew. */
  ghost function RecordAfter(s: Lb, s': Lb, k: VipSpec, a: U32, m: Member, b: U32): (r: Member)
    requires k in s.vips && b in s.vips[k].members
  {
    Refreshed(s'.t.slots, s'.t.byAddr, b, if b == a then m else s.vips[k].members[b])
  }

  /** Member a of VIP k is m now; nothing else changed but in_ring of that VIP's members, and the ring is theirs. */
  ghost predicate MemberIs(s: Lb, s': Lb, k: VipSpec, a: U32, m: Member, h: Hashes) {
    && k in s.vips && k in s'.vips && a in s.vips[k].members && s'.vips == s.vips[k := s'.vips[k]]
    && s'.vips[k].id == s.vips[k].id && s'.vips[k].noConntrack == s.vips[k].noConntrack
    && s'.vips[k].members.Keys == s.vips[k].members.Keys
    && (forall b :: b in s.vips[k].members ==> s'.vips[k].members[b] == RecordAfter(s, s', k, a, m, b))
    && Settled(s'.vips[k], s'.t.k.maps.rings, s'.t.slots, s'.t.byAddr, s'.hash, h)
  }

  lemma MemberChanged(s: Lb, s1: Lb, k: VipSpec, a: U32, m: Member, h: Hashes)
    requires Good(s) && k in s.vips && a in s.vips[k].members
    requires s1 == s.(vips := s.vips[k := s.vips[k].(members := s.vips[k].members[a := m])])
    requires m.incarnation == s.vips[k].members[a].incarnation && m.health == s.vips[k].members[a].health
    ensures Kept(s, Rebuild(s1, k, h), h) && MemberIs(s, Rebuild(s1, k, h), k, a, m, h)
  {
    TouchEdits(s, k, s1.vips[k]);
    EditKept(s, s1, k, h);
  }

  /**
   real.weight is refused exactly for the reasons the API gives; otherwise the member has the weight, and
   the ring shows it.
   */
  lemma SetWeightOk(s: Lb, k: VipSpec, addr: U32, weight: U32, h: Hashes)
    requires Good(s)
    ensures Ranged(s.t)
    ensures var d := SetWeight(s, k, addr, weight, h);
            && Kept(s, d.s, h) && (!d.ok ==> d.s == s)
            && (d.ok <==> weight <= MAX_WEIGHT && k in s.vips && addr in s.vips[k].members)
            && (d.ok ==> var m := s.vips[k].members[addr];
                         if m.weight == weight then d.s == s else MemberIs(s, d.s, k, addr, m.(weight := weight), h))
  {
    InvRanged(s);
    if k in s.vips && addr in s.vips[k].members {
      MemberChanged(s, Reweigh(s, k, addr, weight), k, addr, s.vips[k].members[addr].(weight := weight), h);
    }
  }

  /** real.drain is refused exactly for a member that is not there; otherwise the member drains or no longer does. */
  lemma SetDrainingOk(s: Lb, k: VipSpec, addr: U32, draining: bool, h: Hashes)
    requires Good(s)
    ensures Ranged(s.t)
    ensures var d := SetDraining(s, k, addr, draining, h);
            && Kept(s, d.s, h) && (!d.ok ==> d.s == s)
            && (d.ok <==> k in s.vips && addr in s.vips[k].members)
            && (d.ok ==> var m := s.vips[k].members[addr];
                         if m.draining == draining then d.s == s
                           else MemberIs(s, d.s, k, addr, m.(draining := draining), h))
  {
    InvRanged(s);
    if k in s.vips && addr in s.vips[k].members {
      MemberChanged(s, Redrain(s, k, addr, draining), k, addr, s.vips[k].members[addr].(draining := draining), h);
    }
  }
}
