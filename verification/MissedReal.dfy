/** An eligible real that is in no ring, on the smallest daemon that has one: two VIPs that share a real. */
module MissedReal {
  import opened Basics
  import opened BuildMaglev
  import opened Maps
  import opened Reals
  import opened LbModel
  import opened Control
  import opened ControlLaws
  import opened MemberLaws
  import opened OpLaws
  import opened VipLaws
  import opened VipOps
  import opened Capacity
  import opened Convergence
  import opened Soundness
  import opened Hitless
  import opened Completeness
  import opened Unfinished

  /** A daemon with no VIP. */
  lemma StartEmpty(lbMac: Mac, h: Hashes)
    ensures PlaneSafe(BlankPlane()) && Start(Fresh(BlankPlane()), Conf([]), lbMac, map[], h).ok
    ensures var s := Start(Fresh(BlankPlane()), Conf([]), lbMac, map[], h).s;
            Good(s) && s.vips == map[] && s.nextHop == None && s.t.byAddr == map[]
  {
    var k, c := BlankPlane(), Conf([]);
    BlankIsSafe();
    BlankAdopts();
    assert AllReals(c) == {} && Specs(c) == {};
    AtMostIs(k.maps.vipMap.Keys + Specs(c), MAX_VIPS);
    StartEndsIff(k, c, lbMac, map[], h);
    HitlessRestart(k, c, lbMac, map[], h);
    var s := Start(Fresh(k), c, lbMac, map[], h).s;
    NeatIsGood(s, h);
    GoodIsSound(s);
    forall a
      ensures a !in s.t.byAddr
    {
      LiveAddresses(s, c, a);
    }
  }

  lemma VipFits(s: Lb, k: VipSpec, others: set<VipSpec>, h: Hashes)
    requires Good(s) && k !in s.vips && s.vips.Keys == others && |others| < MAX_VIPS
    ensures Ranged(s.t) && AddVip(s, k, false, map[], h).ok && Good(AddVip(s, k, false, map[], h).s)
            && Enter(s, k, false).Some?
  {
    InvRanged(s);
    assert s.adopted == map[] by { assert Holds(s, LivePart); }
    VipIdLeft(s, others + {k}, k);
    AddVipOk(s, k, false, map[], h);
  }

  /** s' is s with the VIP k, which has no members. */
  ghost predicate VipAdded(s: Lb, s': Lb, k: VipSpec) {
    && Good(s') && k in s'.vips && s'.vips == s.vips[k := s'.vips[k]] && s'.vips[k].members == map[]
    && s'.t.slots == s.t.slots && s'.t.byAddr == s.t.byAddr && s'.nextHop == s.nextHop
  }

  lemma EnteredAdded(s: Lb, s1: Lb, s': Lb, k: VipSpec, h: Hashes)
    requires Entered(s, s1, k, false) && s' == SendVip(Rebuild(s1, k, h), k) && Good(s')
    ensures VipAdded(s, s', k)
  {
    var v := Rebuilt(s1.vips[k], s1.t.slots, s1.t.byAddr);
    assert v.members == map[];
    assert s.vips[k := s1.vips[k]][k := v] == s.vips[k := v];
  }

  lemma AddVipAdds(s: Lb, k: VipSpec, others: set<VipSpec>, h: Hashes)
    requires Good(s) && k !in s.vips && s.vips.Keys == others && |others| < MAX_VIPS
    ensures Ranged(s.t) && VipAdded(s, AddVip(s, k, false, map[], h).s, k)
  {
    VipFits(s, k, others, h);
    EnterOk(s, k, false);
    var s1 := Enter(s, k, false).value;
    EmptyVip(s, s1, k, false, map[], h);
    EnteredAdded(s, s1, AddVip(s, k, false, map[], h).s, k, h);
  }

  /** s' is s with the real addr, of weight 1, on VIP k. */
  ghost predicate RealAdded(s: Lb, s': Lb, k: VipSpec, addr: U32, arp: map<U32, Mac>) {
    && Good(s') && s'.nextHop == s.nextHop && k in s.vips && k in s'.vips && s'.vips == s.vips[k := s'.vips[k]]
    && s'.vips[k].members.Keys == s.vips[k].members.Keys + {addr}
    && s'.vips[k].members[addr] == NewMember(1, s.next).(inRing := Known(s'.t, addr))
    && (Known(s'.t, addr) <==> Known(s.t, addr) || Neighbour(s.nextHop, addr) in arp)
  }

  lemma RebuiltAdded(s: Lb, s1: Lb, s': Lb, k: VipSpec, addr: U32, h: Hashes)
    requires k in s.vips && s1.vips == s.vips[k := Joined(s.vips[k], addr, 1, s.next)] && s' == Rebuild(s1, k, h)
    ensures k in s'.vips && s'.vips == s.vips[k := s'.vips[k]]
            && s'.vips[k].members.Keys == s.vips[k].members.Keys + {addr}
    ensures s'.vips[k].members[addr] == NewMember(1, s.next).(inRing := Known(s'.t, addr))
  {
    var v := Rebuilt(s1.vips[k], s1.t.slots, s1.t.byAddr);
    assert s.vips[k := s1.vips[k]][k := v] == s.vips[k := v];
    assert v.members[addr] == Refreshed(s1.t.slots, s1.t.byAddr, addr, NewMember(1, s.next));
    assert NewMember(1, s.next).health.up;
  }

  lemma AddRealIs(s: Lb, k: VipSpec, addr: U32, arp: map<U32, Mac>, h: Hashes)
    requires Ranged(s.t) && AddReal(s, k, addr, 1, arp, h).ok
    ensures k in s.vips && AddMember(s, k, addr, 1, arp).Some?
    ensures AddReal(s, k, addr, 1, arp, h).s == Rebuild(AddMember(s, k, addr, 1, arp).value, k, h)
  {
  }

  lemma AddRealAdds(s: Lb, k: VipSpec, addr: U32, arp: map<U32, Mac>, h: Hashes)
    requires Good(s) && k in s.vips && addr != 0 && addr !in s.vips[k].members && MacsOk(arp)
             && (addr in s.t.byAddr || !Full(s.t.slots))
    ensures Ranged(s.t) && RealAdded(s, AddReal(s, k, addr, 1, arp, h).s, k, addr, arp)
  {
    InvRanged(s);
    AddRealOk(s, k, addr, 1, arp, h);
    AddRealIs(s, k, addr, arp, h);
    var s1, s' := AddMember(s, k, addr, 1, arp).value, AddReal(s, k, addr, 1, arp, h).s;
    AddMemberKnown(s, k, addr, 1, arp, addr);
    RebuiltAdded(s, s1, s', k, addr, h);
  }

  lemma RoomInEmpty(s: Lb)
    requires Inv(s) && s.t.byAddr == map[]
    ensures !Full(s.t.slots)
  {
    assert Holds(s, TablePart);
    RoomForOne(s.t.slots, s.t.byAddr, {1}, 1);
  }

  /** The real at address 1 is on k0 alone, and nobody knows its MAC. */
  ghost predicate Waiting(s: Lb, k0: VipSpec) {
    && Good(s) && s.vips.Keys == {k0} && s.nextHop == None && !Known(s.t, 1) && s.vips[k0].members.Keys == {1}
    && s.vips[k0].members[1] == NewMember(1, s.vips[k0].members[1].incarnation)
  }

  lemma FirstVip(s0: Lb, s1: Lb, s2: Lb, k0: VipSpec)
    requires s0.vips == map[] && s0.nextHop == None && s0.t.byAddr == map[] && VipAdded(s0, s1, k0)
             && RealAdded(s1, s2, k0, 1, map[])
    ensures Waiting(s2, k0)
  {
  }

  lemma SecondVip(s2: Lb, s3: Lb, s4: Lb, k0: VipSpec, k1: VipSpec, arp: map<U32, Mac>)
    requires Waiting(s2, k0) && k0 != k1 && VipAdded(s2, s3, k1) && RealAdded(s3, s4, k1, 1, arp) && 1 in arp
    ensures k0 in s4.vips && 1 in s4.vips[k0].members && !NotMissing(s4, k0, 1)
  {
  }

  lemma WaitingHeld(s: Lb, k0: VipSpec)
    requires Waiting(s, k0)
    ensures 1 in s.t.byAddr
  {
    HeldOrLeft(s, 1);
  }

  /**
   Start, add VIP k0 and the real, add VIP k1 and the same real when the kernel has come to know its
   neighbour: the real is eligible on k0 and not in its ring.
   */
  lemma MissedRun(k0: VipSpec, k1: VipSpec, lbMac: Mac, arp: map<U32, Mac>, h: Hashes)
    requires k0 != k1 && MacsOk(arp) && 1 in arp
    ensures PlaneSafe(BlankPlane()) && Start(Fresh(BlankPlane()), Conf([]), lbMac, map[], h).ok
    ensures var s0 := Start(Fresh(BlankPlane()), Conf([]), lbMac, map[], h).s;
            var s1 := AddReal(AddVip(s0, k0, false, map[], h).s, k0, 1, 1, map[], h).s;
            var s2 := AddReal(AddVip(s1, k1, false, map[], h).s, k1, 1, 1, arp, h).s;
            Good(s2) && k0 in s2.vips && 1 in s2.vips[k0].members && !NotMissing(s2, k0, 1)
  {
    StartEmpty(lbMac, h);
    var s0 := Start(Fresh(BlankPlane()), Conf([]), lbMac, map[], h).s;
    FirstHalf(s0, k0, h);
    SecondHalf(AddReal(AddVip(s0, k0, false, map[], h).s, k0, 1, 1, map[], h).s, k0, k1, arp, h);
  }

  lemma FirstHalf(s0: Lb, k0: VipSpec, h: Hashes)
    requires Good(s0) && s0.vips == map[] && s0.nextHop == None && s0.t.byAddr == map[]
    ensures Ranged(s0.t) && Waiting(AddReal(AddVip(s0, k0, false, map[], h).s, k0, 1, 1, map[], h).s, k0)
  {
    AddVipAdds(s0, k0, {}, h);
    var s1 := AddVip(s0, k0, false, map[], h).s;
    RoomInEmpty(s1);
    AddRealAdds(s1, k0, 1, map[], h);
    FirstVip(s0, s1, AddReal(s1, k0, 1, 1, map[], h).s, k0);
  }

  lemma SecondHalf(s2: Lb, k0: VipSpec, k1: VipSpec, arp: map<U32, Mac>, h: Hashes)
    requires Waiting(s2, k0) && k0 != k1 && MacsOk(arp) && 1 in arp
    ensures Ranged(s2.t)
    ensures var s4 := AddReal(AddVip(s2, k1, false, map[], h).s, k1, 1, 1, arp, h).s;
            Good(s4) && k0 in s4.vips && 1 in s4.vips[k0].members && !NotMissing(s4, k0, 1)
  {
    WaitingHeld(s2, k0);
    AddVipAdds(s2, k1, {k0}, h);
    var s3 := AddVip(s2, k1, false, map[], h).s;
    AddRealAdds(s3, k1, 1, arp, h);
    SecondVip(s2, s3, AddReal(s3, k1, 1, 1, arp, h).s, k0, k1, arp);
  }
}
