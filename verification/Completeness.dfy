/**
 Which eligible members are missing from their VIP's ring. A real is shared by VIPs; when one VIP
 gains it and its MAC is learnt on the way, the others are not rebuilt.
 */
module Completeness {
  import opened Basics
  import opened BuildMaglev
  import opened Maps
  import opened Reals
  import opened Health
  import opened LbModel
  import opened Control
  import opened ControlLaws
  import opened MemberLaws
  import opened OpLaws
  import opened EventLaws
  import opened VipLaws
  import opened VipOps
  import opened Calls

  /** Every eligible member of VIP j is recorded in_ring. */
  ghost predicate Complete(s: Lb, j: VipSpec) {
    j in s.vips ==> forall a :: a in s.vips[j].members ==> NotMissing(s, j, a)
  }

  ghost predicate NotMissing(s: Lb, j: VipSpec, a: U32)
    requires j in s.vips && a in s.vips[j].members
  {
    Eligible(s.t.slots, s.t.byAddr, a, s.vips[j].members[a]) ==> s.vips[j].members[a].inRing
  }

  // ---- whose MAC is known

  ghost predicate Known(t: Tab, a: U32) {
    a in t.byAddr && t.byAddr[a] < |t.slots| && t.slots[t.byAddr[a]].mac.Some?
  }

  lemma AcquireKnown(t: Tab, addr: U32, b: U32)
    requires TabOk(t) && Ranged(t) && Acquire(t, addr).Some?
    ensures Known(Acquire(t, addr).value, b) <==> Known(t, b)
  {
    if b in t.byAddr {
      assert AddrOk(t.slots, t.byAddr, b);
    }
    if addr in t.byAddr {
      assert AddrOk(t.slots, t.byAddr, addr);
    } else {
      var met := Taken(t.slots, t.cursor, MAX_REALS - 1);
      TakenFacts(t.slots, t.cursor, MAX_REALS - 1, 0);
    }
  }

  lemma SetMacKnown(t: Tab, addr: U32, mac: Mac, b: U32)
    requires TabOk(t) && Ranged(t)
    ensures Known(SetMac(t, addr, mac), b) <==> Known(t, b) || (b == addr && addr in t.byAddr)
  {
    if b in t.byAddr {
      assert AddrOk(t.slots, t.byAddr, b);
    }
    if addr in t.byAddr {
      assert AddrOk(t.slots, t.byAddr, addr);
    }
  }

  /** Releasing makes no MAC known. */
  lemma ReleaseKnown(t: Tab, addr: U32, b: U32)
    requires Ranged(t) && Known(Release(t, addr), b)
    ensures Known(t, b)
  {
    assert InRange(t.slots, t.byAddr, addr) && InRange(t.slots, t.byAddr, b);
  }

  /** The neighbour whose MAC a real needs. */
  function Neighbour(nextHop: Option<U32>, a: U32): (ip: U32) {
    if nextHop.Some? then nextHop.value else a
  }

  lemma ResolveKnown(t: Tab, addr: U32, nextHop: Option<U32>, arp: map<U32, Mac>, b: U32)
    requires TabOk(t) && Ranged(t)
    ensures Known(Resolve(t, addr, nextHop, arp), b)
            <==> Known(t, b) || (b == addr && addr in t.byAddr && Neighbour(nextHop, addr) in arp)
  {
    assert InRange(t.slots, t.byAddr, addr);
    if Neighbour(nextHop, addr) in arp {
      SetMacKnown(t, addr, arp[Neighbour(nextHop, addr)], b);
    }
  }

  /** Joining makes known the MAC of the real that joins, if the kernel has it, and no other. */
  lemma AddMemberKnown(s: Lb, k: VipSpec, addr: U32, weight: U32, arp: map<U32, Mac>, b: U32)
    requires Inv(s) && Ranged(s.t) && k in s.vips && MacsOk(arp) && AddMember(s, k, addr, weight, arp).Some?
    ensures Known(AddMember(s, k, addr, weight, arp).value.t, b)
            <==> Known(s.t, b) || (b == addr && Neighbour(s.nextHop, addr) in arp)
  {
    assert Holds(s, TablePart);
    AcquireOk(s.t, addr);
    AcquireKnown(s.t, addr, b);
    ResolveKnown(Acquire(s.t, addr).value, addr, s.nextHop, arp, b);
  }

  // ---- which VIPs stay complete

  /** VIP j has the same members, and no MAC of theirs became known. */
  lemma StaysComplete(s: Lb, s': Lb, j: VipSpec)
    requires Complete(s, j) && SameAt(s.vips, s'.vips, j)
    requires j in s.vips ==> forall a :: a in s.vips[j].members && Known(s'.t, a) ==> Known(s.t, a)
    ensures Complete(s', j)
  {
    if j in s.vips {
      forall a | a in s'.vips[j].members
        ensures NotMissing(s', j, a)
      {
        assert NotMissing(s, j, a);
        assert Known(s'.t, a) ==> Known(s.t, a);
      }
    }
  }

  /** A rebuilt VIP is complete. */
  lemma RebuiltComplete(s: Lb, k: VipSpec, h: Hashes)
    requires k in s.vips
    ensures Complete(Rebuild(s, k, h), k)
  {
  }

  lemma RebuildKeepsOthers(s: Lb, k: VipSpec, h: Hashes, j: VipSpec)
    requires k in s.vips && (j != k ==> Complete(s, j))
    ensures Complete(Rebuild(s, k, h), j)
  {
    if j == k {
      RebuiltComplete(s, k, h);
    } else {
      StaysComplete(s, Rebuild(s, k, h), j);
    }
  }

  lemma {:induction false} ReleaseAllKnown(s: Lb, todo: set<U32>, b: U32)
    requires Ranged(s.t) && Known(ReleaseAll(s, todo).t, b)
    ensures Known(s.t, b)
    decreases todo
  {
    if todo != {} {
      var s1 := ReleaseOne(s, Least(todo));
      ReleaseAllKnown(s1, todo - {Least(todo)}, b);
      ReleaseKnown(s.t, Least(todo), b);
    }
  }

  lemma {:induction false} ReleaseAllVips(s: Lb, todo: set<U32>)
    requires Ranged(s.t)
    ensures ReleaseAll(s, todo).vips == s.vips && ReleaseAll(s, todo).nextHop == s.nextHop
    decreases todo
  {
    if todo != {} {
      ReleaseAllVips(ReleaseOne(s, Least(todo)), todo - {Least(todo)});
    }
  }

  lemma ReleaseAllComplete(s: Lb, todo: set<U32>, j: VipSpec)
    requires Ranged(s.t) && Complete(s, j)
    ensures Complete(ReleaseAll(s, todo), j)
  {
    forall b | Known(ReleaseAll(s, todo).t, b)
      ensures Known(s.t, b)
    {
      ReleaseAllKnown(s, todo, b);
    }
    ReleaseAllVips(s, todo);
    StaysComplete(s, ReleaseAll(s, todo), j);
  }

  // ---- the member that is missed

  /** The MAC that becomes known when `a` joins a VIP is all that VIP j's own member `a` was waiting for. */
  ghost predicate Wakes(s: Lb, j: VipSpec, a: U32, arp: map<U32, Mac>) {
    && j in s.vips && a in s.vips[j].members && s.vips[j].members[a].weight > 0 && s.vips[j].members[a].health.up
    && !s.vips[j].members[a].draining && !s.vips[j].members[a].inRing && !Known(s.t, a)
       && Neighbour(s.nextHop, a) in arp
  }

  /** From s to s' VIP j's members did not change, and MACs became known for exactly the addresses in `joined`. */
  ghost predicate Learnt(s: Lb, s': Lb, j: VipSpec, joined: set<U32>, arp: map<U32, Mac>) {
    && SameAt(s.vips, s'.vips, j) && s'.nextHop == s.nextHop
    && (j in s.vips ==> forall a :: a in s.vips[j].members ==> KnownAfter(s, s', a, joined, arp))
  }

  ghost predicate KnownAfter(s: Lb, s': Lb, a: U32, joined: set<U32>, arp: map<U32, Mac>) {
    Known(s'.t, a) <==> Known(s.t, a) || (a in joined && Neighbour(s.nextHop, a) in arp)
  }

  /** VIP j is complete afterwards exactly if it was and no member of it was waiting for one of these MACs. */
  lemma LearntIff(s: Lb, s': Lb, j: VipSpec, joined: set<U32>, arp: map<U32, Mac>)
    requires Learnt(s, s', j, joined, arp)
    ensures Complete(s', j) <==> Complete(s, j) && forall a :: a in joined ==> !Wakes(s, j, a, arp)
  {
    if j in s.vips {
      forall a | a in s.vips[j].members
        ensures NotMissing(s', j, a) <==> NotMissing(s, j, a) && !(a in joined && Wakes(s, j, a, arp))
      {
        assert KnownAfter(s, s', a, joined, arp);
      }
    }
  }

  // ---- real.add

  lemma AddMemberLearns(s: Lb, k: VipSpec, addr: U32, weight: U32, arp: map<U32, Mac>, j: VipSpec)
    requires Inv(s) && Ranged(s.t) && k in s.vips && MacsOk(arp) && AddMember(s, k, addr, weight, arp).Some? && j != k
    ensures Learnt(s, AddMember(s, k, addr, weight, arp).value, j, {addr}, arp)
  {
    var s' := AddMember(s, k, addr, weight, arp).value;
    forall a
      ensures KnownAfter(s, s', a, {addr}, arp)
    {
      AddMemberKnown(s, k, addr, weight, arp, a);
    }
  }

  lemma RebuildLearns(s: Lb, s1: Lb, k: VipSpec, h: Hashes, j: VipSpec, joined: set<U32>, arp: map<U32, Mac>)
    requires k in s1.vips && j != k && Learnt(s, s1, j, joined, arp)
    ensures Learnt(s, Rebuild(s1, k, h), j, joined, arp)
  {
    var s' := Rebuild(s1, k, h);
    if j in s.vips {
      forall a | a in s.vips[j].members
        ensures KnownAfter(s, s', a, joined, arp)
      {
        assert KnownAfter(s, s1, a, joined, arp);
      }
    }
  }

  lemma AddRealGood(s: Lb, k: VipSpec, addr: U32, weight: U32, arp: map<U32, Mac>, h: Hashes, j: VipSpec)
    requires Good(s) && MacsOk(arp) && j != k
    ensures Ranged(s.t)
    ensures var d := AddReal(s, k, addr, weight, arp, h);
            && (d.ok ==> Complete(d.s, k) && (Complete(d.s, j) <==> Complete(s, j) && !Wakes(s, j, addr, arp)))
            && (!d.ok ==> d.s == s)
  {
    InvRanged(s);
    var d := AddReal(s, k, addr, weight, arp, h);
    if d.ok {
      var s1 := AddMember(s, k, addr, weight, arp).value;
      AddMemberLearns(s, k, addr, weight, arp, j);
      RebuildLearns(s, s1, k, h, j, {addr}, arp);
      RebuiltComplete(s1, k, h);
      LearntIff(s, d.s, j, {addr}, arp);
    }
  }

  // ---- the members of a configuration

  /** The members VIP k has in s' and not in s. */
  ghost function Arrivals(s: Lb, s': Lb, k: VipSpec): (addrs: set<U32>)
    requires k in s'.vips
  {
    if k in s.vips then s'.vips[k].members.Keys - s.vips[k].members.Keys else s'.vips[k].members.Keys
  }

  /** From s to s' VIP k gained members, and the MACs that became known are theirs. */
  ghost predicate KnownSince(s: Lb, s': Lb, k: VipSpec, arp: map<U32, Mac>, b: U32) {
    && k in s.vips && k in s'.vips && s.vips[k].members.Keys <= s'.vips[k].members.Keys
    && (Known(s'.t, b) <==> Known(s.t, b) || (b in Arrivals(s, s', k) && Neighbour(s.nextHop, b) in arp))
  }

  ghost predicate Taught(s: Lb, s': Lb, k: VipSpec, arp: map<U32, Mac>) {
    forall b :: KnownSince(s, s', k, arp, b)
  }

  lemma TaughtNothing(s: Lb, k: VipSpec, arp: map<U32, Mac>)
    requires k in s.vips
    ensures Taught(s, s, k, arp)
  {
  }

  lemma TaughtReweighed(s: Lb, k: VipSpec, a: U32, weight: U32, s': Lb, arp: map<U32, Mac>)
    requires k in s.vips && a in s.vips[k].members && Taught(Reweigh(s, k, a, weight), s', k, arp)
    ensures Taught(s, s', k, arp)
  {
    var s1 := Reweigh(s, k, a, weight);
    forall b
      ensures KnownSince(s, s', k, arp, b)
    {
      assert KnownSince(s1, s', k, arp, b);
    }
  }

  lemma TaughtJoined(s: Lb, s1: Lb, s': Lb, k: VipSpec, a: U32, weight: U32, arp: map<U32, Mac>)
    requires Inv(s) && Ranged(s.t) && k in s.vips && MacsOk(arp) && a !in s.vips[k].members
    requires AddMember(s, k, a, weight, arp) == Some(s1) && Taught(s1, s', k, arp)
    ensures Taught(s, s', k, arp)
  {
    forall b
      ensures KnownSince(s, s', k, arp, b)
    {
      assert KnownSince(s1, s', k, arp, b);
      AddMemberKnown(s, k, a, weight, arp, b);
      assert Arrivals(s, s', k) == Arrivals(s1, s', k) + {a};
    }
  }

  /** The MACs known after a configuration's members have joined. */
  lemma {:induction false} MergeTeaches(s: Lb, k: VipSpec, want: map<U32, U32>, todo: set<U32>, arp: map<U32, Mac>)
    requires Inv(s) && Ranged(s.t) && k in s.vips && todo <= want.Keys && MacsOk(arp)
    ensures Taught(s, Merge(s, k, want, todo, arp).s, k, arp)
    decreases todo
  {
    if todo == {} {
      TaughtNothing(s, k, arp);
    } else {
      var a := Least(todo);
      if a in s.vips[k].members {
        var s1 := Reweigh(s, k, a, want[a]);
        ReweighOk(s, k, a, want[a]);
        MergeTeaches(s1, k, want, todo - {a}, arp);
        TaughtReweighed(s, k, a, want[a], Merge(s1, k, want, todo - {a}, arp).s, arp);
      } else {
        var r := AddMember(s, k, a, want[a], arp);
        if r.None? {
          TaughtNothing(s, k, arp);
        } else {
          AddMemberOk(s, k, a, want[a], arp);
          MergeTeaches(r.value, k, want, todo - {a}, arp);
          TaughtJoined(s, r.value, Merge(r.value, k, want, todo - {a}, arp).s, k, a, want[a], arp);
        }
      }
    }
  }

  // ---- no other call breaks it

  lemma VipCallComplete(s: Lb, call: Call, h: Hashes, j: VipSpec)
    requires Good(s) && Ranged(s.t) && Complete(s, j) && (call.op.AddVipOp? || call.op.DelVipOp?)
    ensures Complete(Step(s, call, h), j)
  {
    match call.op
    case AddVipOp(k, noConntrack) => AddVipComplete(s, k, noConntrack, call.arp, h, j);
    case DelVipOp(k) => DelVipComplete(s, k, j);
  }

  lemma PublishComplete(s: Lb, s1: Lb, k: VipSpec, noConntrack: bool, h: Hashes, j: VipSpec)
    requires Entered(s, s1, k, noConntrack) && Complete(s, j)
    ensures Complete(SendVip(Rebuild(s1, k, h), k), j)
  {
    if j != k {
      StaysComplete(s, s1, j);
    }
    RebuildKeepsOthers(s1, k, h, j);
    var s2 := Rebuild(s1, k, h);
    StaysComplete(s2, SendVip(s2, k), j);
  }

  lemma EmptyVip(s: Lb, s1: Lb, k: VipSpec, noConntrack: bool, arp: map<U32, Mac>, h: Hashes)
    requires Ranged(s.t) && k !in s.vips && Enter(s, k, noConntrack) == Some(s1) && k in s1.vips
    ensures AddVip(s, k, noConntrack, arp, h).s == SendVip(Rebuild(s1, k, h), k)
  {
    RangedSame(s.t, s1.t);
    assert Merge(s1, k, map[], {}, arp) == Done(s1, true);
  }

  lemma AddVipComplete(s: Lb, k: VipSpec, noConntrack: bool, arp: map<U32, Mac>, h: Hashes, j: VipSpec)
    requires Inv(s) && Ranged(s.t) && Complete(s, j)
    ensures Complete(AddVip(s, k, noConntrack, arp, h).s, j)
  {
    if k !in s.vips {
      EnterOk(s, k, noConntrack);
      var r := Enter(s, k, noConntrack);
      if r.Some? {
        EmptyVip(s, r.value, k, noConntrack, arp, h);
        PublishComplete(s, r.value, k, noConntrack, h, j);
      }
    }
  }

  lemma DelVipComplete(s: Lb, k: VipSpec, j: VipSpec)
    requires Ranged(s.t) && Complete(s, j)
    ensures Complete(Control.DelVip(s, k).s, j)
  {
    if k in s.vips {
      var s1 := Withdrawn(s, k);
      RangedSame(s.t, s1.t);
      if j != k {
        StaysComplete(s, s1, j);
      }
      ReleaseAllComplete(s1, s.vips[k].members.Keys, j);
    }
  }

  lemma EditComplete(s: Lb, k: VipSpec, v: Vip, h: Hashes, j: VipSpec)
    requires k in s.vips && Complete(s, j)
    ensures Complete(Rebuild(s.(vips := s.vips[k := v]), k, h), j)
  {
    var s1 := s.(vips := s.vips[k := v]);
    if j != k {
      StaysComplete(s, s1, j);
    }
    RebuildKeepsOthers(s1, k, h, j);
  }

  lemma DelRealComplete(s: Lb, k: VipSpec, addr: U32, h: Hashes, j: VipSpec)
    requires Ranged(s.t) && Complete(s, j)
    ensures Complete(DelReal(s, k, addr, h).s, j)
  {
    if k in s.vips && addr in s.vips[k].members {
      var s1 := RemoveMembers(s, k, {addr});
      if j != k {
        StaysComplete(s, s1, j);
      }
      RebuildKeepsOthers(s1, k, h, j);
      var s2 := Rebuild(s1, k, h);
      ReleaseSingle(s2, addr);
      ReleaseAllComplete(s2, {addr}, j);
    }
  }

  lemma RealCallComplete(s: Lb, call: Call, h: Hashes, j: VipSpec)
    requires Ranged(s.t) && Complete(s, j) && (call.op.DelRealOp? || call.op.WeightOp? || call.op.DrainOp?)
    ensures Complete(Step(s, call, h), j)
  {
    match call.op
    case DelRealOp(k, addr) => DelRealComplete(s, k, addr, h, j);
    case WeightOp(k, addr, weight) => SetWeightComplete(s, k, addr, weight, h, j);
    case DrainOp(k, addr, draining) => SetDrainingComplete(s, k, addr, draining, h, j);
  }

  lemma SetWeightComplete(s: Lb, k: VipSpec, addr: U32, weight: U32, h: Hashes, j: VipSpec)
    requires Ranged(s.t) && Complete(s, j)
    ensures Complete(SetWeight(s, k, addr, weight, h).s, j)
  {
    if k in s.vips && addr in s.vips[k].members {
      EditComplete(s, k, Reweigh(s, k, addr, weight).vips[k], h, j);
    }
  }

  lemma SetDrainingComplete(s: Lb, k: VipSpec, addr: U32, draining: bool, h: Hashes, j: VipSpec)
    requires Ranged(s.t) && Complete(s, j)
    ensures Complete(SetDraining(s, k, addr, draining, h).s, j)
  {
    if k in s.vips && addr in s.vips[k].members {
      EditComplete(s, k, Redrain(s, k, addr, draining).vips[k], h, j);
    }
  }

  lemma ReportComplete(s: Lb, x: Target, p: Probe, rise: U32, fall: U32, h: Hashes, j: VipSpec)
    requires Ranged(s.t) && Complete(s, j)
    ensures Complete(ReportHealth(s, x, p, rise, fall, h), j)
  {
    if Counts(s, x, p) {
      var s1 := Noted(s, x, Report(p.ok, rise, fall));
      if s1.vips[x.vip].members[x.addr].health.up != s.vips[x.vip].members[x.addr].health.up {
        if j != x.vip {
          StaysComplete(s, s1, j);
        }
        RebuildKeepsOthers(s1, x.vip, h, j);
      } else if j == x.vip {
        forall a | a in s1.vips[j].members
          ensures NotMissing(s1, j, a)
        {
          assert NotMissing(s, j, a);
        }
      } else {
        StaysComplete(s, s1, j);
      }
    }
  }

  // ---- a resolved neighbour

  lemma {:induction false} SetMacsKnown(s: Lb, todo: set<U32>, mac: Mac, b: U32)
    requires Inv(s) && Ranged(s.t) && mac != NO_MAC
    ensures Inv(SetMacs(s, todo, mac)) && (Known(SetMacs(s, todo, mac).t, b)
            <==> Known(s.t, b) || (b in todo && b in s.t.byAddr))
    decreases todo
  {
    if todo != {} {
      var a := Least(todo);
      assert Holds(s, TablePart);
      SetMacOk(s.t, a, mac);
      SetMacKnown(s.t, a, mac, b);
      var s1 := s.(t := SetMac(s.t, a, mac));
      MacInv(s, a, mac);
      SetMacsKnown(s1, todo - {a}, mac, b);
    }
  }

  lemma MacInv(s: Lb, a: U32, mac: Mac)
    requires Inv(s) && Ranged(s.t) && mac != NO_MAC
    ensures Inv(s.(t := SetMac(s.t, a, mac)))
  {
    assert Holds(s, TablePart);
    SetMacOk(s.t, a, mac);
    ResaddledInv(s, SetMac(s.t, a, mac));
  }

  lemma {:induction false} RebuildAllComplete(s: Lb, todo: set<VipSpec>, h: Hashes, j: VipSpec)
    requires Ranged(s.t) && todo <= s.vips.Keys && (j !in todo ==> Complete(s, j))
    ensures Complete(RebuildAll(s, todo, h), j)
    decreases todo
  {
    if todo != {} {
      var k := First(todo);
      if j !in todo - {k} {
        RebuildKeepsOthers(s, k, h, j);
      }
      RebuildAllComplete(Rebuild(s, k, h), todo - {k}, h, j);
    }
  }

  lemma NeighborInv(s: Lb, ip: U32, mac: Mac, h: Hashes, j: VipSpec)
    requires Inv(s) && Ranged(s.t) && mac != NO_MAC
    requires Complete(s, j) || (j in s.vips && s.vips[j].members.Keys * Unresolved(s, Behind(s, ip)) != {})
    ensures Complete(NeighborResolved(s, ip, mac, h), j)
  {
    var usable, s1 := Unresolved(s, Behind(s, ip)), SetMacs(s, Behind(s, ip), mac);
    if j !in HoldingAny(s1, usable) && j in s.vips {
      forall a | a in s.vips[j].members && Known(s1.t, a)
        ensures Known(s.t, a)
      {
        SetMacsKnown(s, Behind(s, ip), mac, a);
        assert a !in usable;
        assert InRange(s.t.slots, s.t.byAddr, a);
      }
      StaysComplete(s, s1, j);
    }
    RebuildAllComplete(s1, HoldingAny(s1, usable), h, j);
  }

  lemma OtherCallsGood(s: Lb, call: Call, h: Hashes, j: VipSpec)
    requires Good(s) && Complete(s, j) && !call.op.AddRealOp? && !call.op.ReloadOp?
             && (call.op.NeighborOp? ==> call.op.mac != NO_MAC)
    ensures Ranged(s.t) && Complete(Step(s, call, h), j)
  {
    InvRanged(s);
    match call.op
    case HealthOp(x, p, rise, fall) => ReportComplete(s, x, p, rise, fall, h, j);
    case NeighborOp(ip, mac) => NeighborInv(s, ip, mac, h, j);
    case AddVipOp(_, _) => VipCallComplete(s, call, h, j);
    case DelVipOp(_) => VipCallComplete(s, call, h, j);
    case _ => RealCallComplete(s, call, h, j);
  }
}
