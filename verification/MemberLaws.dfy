/** Members joining and leaving a VIP: what stays true, and when there is room. */
module MemberLaws {
  import opened Basics
  import opened Maps
  import opened Reals
  import opened LbModel
  import opened Control
  import opened ControlLaws

  /** The table only gained: nobody lost an id or a MAC, at any write. */
  ghost predicate Grew(t: Tab, t': Tab) {
    && KeepsAll(t.slots, t.byAddr, t'.slots, t'.byAddr)
    && Grown(t.k, t'.k) && OnlyReals(t.k.maps, t'.k.maps) && t'.k.installs == t.k.installs
  }

  lemma GrewThen(t: Tab, t1: Tab, t2: Tab)
    requires Grew(t, t1) && Grew(t1, t2)
    ensures Grew(t, t2)
  {
    KeepsTransitive(t.slots, t.byAddr, t1.slots, t1.byAddr, t2.slots, t2.byAddr);
    GrownTransitive(t.k, t1.k, t2.k);
  }

  lemma GrewSelf(t: Tab)
    requires TabOk(t)
    ensures Grew(t, t)
  {
    KeepsSelf(t.slots, t.byAddr);
  }

  /** The kernel never answers with the all-zero MAC. */
  ghost predicate MacsOk(arp: map<U32, Mac>) {
    forall ip :: ip in arp ==> arp[ip] != NO_MAC
  }

  lemma ResolveOk(t: Tab, addr: U32, nextHop: Option<U32>, arp: map<U32, Mac>)
    requires TabOk(t) && MacsOk(arp)
    ensures Ranged(t)
    ensures var t' := Resolve(t, addr, nextHop, arp);
            TabOk(t') && t'.byAddr == t.byAddr && SameRefs(t.slots, t'.slots) && Grew(t, t')
  {
    TabRanged(t);
    GrewSelf(t);
    var target := if nextHop.Some? then nextHop.value else addr;
    if target in arp {
      SetMacOk(t, addr, arp[target]);
    }
  }

  ghost function Resolved(t: Tab, addr: U32, nextHop: Option<U32>, arp: map<U32, Mac>): (r: Option<Tab>)
    requires Ranged(t)
  {
    var got := Acquire(t, addr);
    if got.None? then None else Some(Resolve(got.value, addr, nextHop, arp))
  }

  lemma ResolvedOk(t: Tab, addr: U32, nextHop: Option<U32>, arp: map<U32, Mac>)
    requires TabOk(t) && MacsOk(arp)
    ensures Ranged(t)
    ensures Resolved(t, addr, nextHop, arp).None? <==> addr == 0 || (addr !in t.byAddr && Full(t.slots))
    ensures Resolved(t, addr, nextHop, arp).Some? ==>
              var t' := Resolved(t, addr, nextHop, arp).value;
              TabOk(t') && RefAdded(t.slots, t.byAddr, t'.slots, t'.byAddr, addr) && Grew(t, t')
  {
    AcquireOk(t, addr);
    var got := Acquire(t, addr);
    if got.Some? {
      ResolveOk(got.value, addr, nextHop, arp);
      var t' := Resolve(got.value, addr, nextHop, arp);
      RefAddedThen(t.slots, t.byAddr, got.value.slots, got.value.byAddr, t'.slots, addr);
      GrewThen(t, got.value, t');
    }
  }

  lemma RefsStayHeld(slots: seq<Slot>, byAddr: map<U32, U32>, slots': seq<Slot>, byAddr': map<U32, U32>, addr: U32)
    requires RefAdded(slots, byAddr, slots', byAddr', addr)
    ensures AllHeld(slots, byAddr) ==> AllHeld(slots', byAddr')
  {
    if AllHeld(slots, byAddr) {
      forall a | a in byAddr'
        ensures HasRefs(slots', byAddr', a)
      {
        assert RefsAfter(slots, byAddr, slots', byAddr', addr, a);
        assert a in byAddr ==> HasRefs(slots, byAddr, a);
      }
    }
  }

  /** A member joins with its reference, or, with no id to be had, nothing happens. */
  lemma AddMemberOk(s: Lb, k: VipSpec, addr: U32, weight: U32, arp: map<U32, Mac>)
    requires Inv(s) && k in s.vips && addr !in s.vips[k].members && MacsOk(arp)
    ensures Ranged(s.t)
    ensures AddMember(s, k, addr, weight, arp).None? <==> addr == 0 || (addr !in s.t.byAddr && Full(s.t.slots))
    ensures AddMember(s, k, addr, weight, arp).Some? ==>
              var s' := AddMember(s, k, addr, weight, arp).value;
              Inv(s') && Grew(s.t, s'.t) && s'.t.byAddr.Keys == s.t.byAddr.Keys + {addr}
  {
    Open(s);
    ResolvedOk(s.t, addr, s.nextHop, arp);
    if Resolved(s.t, addr, s.nextHop, arp).Some? {
      var t' := Resolved(s.t, addr, s.nextHop, arp).value;
      JoinKeeps(s.vips, s.adopted, s.t.k.maps.vipMap, s.t.slots, s.t.byAddr, s.leak, s.t.k.installs, s.base, s.next,
                s.reports, t'.slots, t'.byAddr, k, addr, weight);
      assert AllHeld(s.t.slots, s.t.byAddr) ==> AllHeld(t'.slots, t'.byAddr) by {
        RefsStayHeld(s.t.slots, s.t.byAddr, t'.slots, t'.byAddr, addr);
      }
      Close(AddMember(s, k, addr, weight, arp).value);
    }
  }

  lemma ReweighOk(s: Lb, k: VipSpec, a: U32, weight: U32)
    requires Inv(s) && k in s.vips && a in s.vips[k].members
    ensures Inv(Reweigh(s, k, a, weight))
  {
    Open(s);
    var v := Reweigh(s, k, a, weight).vips[k];
    TouchOk(s, k, v);
  }

  /** A change to one VIP's flags, weights, drain state or in_ring keeps the invariant. */
  lemma TouchOk(s: Lb, k: VipSpec, v: Vip)
    requires Inv(s) && k in s.vips && SameMembers(s.vips[k], v) && v.generation == s.vips[k].generation
    ensures Inv(s.(vips := s.vips[k := v]))
  {
    Open(s);
    IdsTouched(s.vips, s.adopted, s.t.k.maps.vipMap, k, v);
    HeldTouched(s.vips, s.t.slots, s.t.byAddr, s.leak, k, v);
    HealthTouched(s.vips, s.next, s.reports, k, v);
    GenTouched(s.vips, s.t.k.installs, s.base, k, v);
    Close(s.(vips := s.vips[k := v]));
  }

  // ---- merging a configuration's members

  /** From v to v' members may have joined and weights may have changed, for addresses in `todo` only. */
  ghost predicate Merged(v: Vip, v': Vip, want: map<U32, U32>, todo: set<U32>, ok: bool) {
    && v' == v.(members := v'.members)
    && v.members.Keys <= v'.members.Keys <= v.members.Keys + todo
    && (forall a :: a in v.members ==> v'.members[a] == v.members[a].(weight := v'.members[a].weight))
    && (forall a :: a in v.members && a !in todo ==> v'.members[a] == v.members[a])
    && (forall a :: a in v.members && v'.members[a].weight != v.members[a].weight
          ==> a in want && v'.members[a].weight == want[a])
    && (forall a :: a in v'.members && a !in v.members
          ==> v'.members[a] == NewMember(v'.members[a].weight, v'.members[a].incarnation))
    && (ok ==> forall a :: a in todo ==> a in v'.members && a in want && v'.members[a].weight == want[a])
  }

  ghost predicate OnlyVip(s: Lb, s': Lb, k: VipSpec) {
    && k in s'.vips
    && s' == s.(vips := s.vips[k := s'.vips[k]], t := s'.t, next := s'.next, reports := s'.reports)
  }

  lemma OnlyVipThen(s: Lb, s1: Lb, s2: Lb, k: VipSpec)
    requires OnlyVip(s, s1, k) && OnlyVip(s1, s2, k)
    ensures OnlyVip(s, s2, k)
  {
    assert s.vips[k := s1.vips[k]][k := s2.vips[k]] == s.vips[k := s2.vips[k]];
  }

  lemma MergedThen(v: Vip, v1: Vip, v2: Vip, want: map<U32, U32>, a: U32, todo: set<U32>, ok: bool)
    requires a in todo && Merged(v, v1, want, {a}, true) && Merged(v1, v2, want, todo - {a}, ok)
    ensures Merged(v, v2, want, todo, ok)
  {
  }

  /** What Merge does, complete or not. */
  ghost predicate MergeDone(s: Lb, k: VipSpec, want: map<U32, U32>, todo: set<U32>, d: Done) {
    && Inv(d.s) && k in s.vips && OnlyVip(s, d.s, k) && Grew(s.t, d.s.t)
    && Merged(s.vips[k], d.s.vips[k], want, todo, d.ok)
  }

  lemma MergeNothing(s: Lb, k: VipSpec, want: map<U32, U32>, todo: set<U32>, ok: bool)
    requires Inv(s) && k in s.vips && (ok ==> todo == {})
    ensures MergeDone(s, k, want, todo, Done(s, ok))
  {
    assert Holds(s, TablePart);
    GrewSelf(s.t);
    assert s.vips[k := s.vips[k]] == s.vips;
  }

  lemma MergeReweigh(s: Lb, k: VipSpec, want: map<U32, U32>, a: U32)
    requires Inv(s) && k in s.vips && a in s.vips[k].members && a in want
    ensures var s1 := Reweigh(s, k, a, want[a]);
            Inv(s1) && OnlyVip(s, s1, k) && Merged(s.vips[k], s1.vips[k], want, {a}, true)
  {
    ReweighOk(s, k, a, want[a]);
  }

  lemma MergeJoin(s: Lb, k: VipSpec, want: map<U32, U32>, a: U32, arp: map<U32, Mac>)
    requires Inv(s) && k in s.vips && a !in s.vips[k].members && a in want && MacsOk(arp)
    ensures Ranged(s.t)
    ensures var r := AddMember(s, k, a, want[a], arp);
            r.Some? ==>
              && Inv(r.value) && OnlyVip(s, r.value, k) && Grew(s.t, r.value.t)
              && Merged(s.vips[k], r.value.vips[k], want, {a}, true)
  {
    AddMemberOk(s, k, a, want[a], arp);
  }

  lemma {:induction false} MergeOk(s: Lb, k: VipSpec, want: map<U32, U32>, todo: set<U32>, arp: map<U32, Mac>)
    requires Inv(s) && k in s.vips && todo <= want.Keys && MacsOk(arp)
    ensures Ranged(s.t) && MergeDone(s, k, want, todo, Merge(s, k, want, todo, arp))
    decreases todo
  {
    InvRanged(s);
    if todo == {} {
      MergeNothing(s, k, want, todo, true);
    } else {
      var a := Least(todo);
      if a in s.vips[k].members {
        var s1 := Reweigh(s, k, a, want[a]);
        MergeReweigh(s, k, want, a);
        MergeOk(s1, k, want, todo - {a}, arp);
        MergeStep(s, s1, k, want, a, todo, Merge(s1, k, want, todo - {a}, arp));
      } else {
        MergeJoin(s, k, want, a, arp);
        var r := AddMember(s, k, a, want[a], arp);
        if r.Some? {
          MergeOk(r.value, k, want, todo - {a}, arp);
          MergeStep(s, r.value, k, want, a, todo, Merge(r.value, k, want, todo - {a}, arp));
        } else {
          MergeNothing(s, k, want, todo, false);
        }
      }
    }
  }

  lemma MergeStep(s: Lb, s1: Lb, k: VipSpec, want: map<U32, U32>, a: U32, todo: set<U32>, d: Done)
    requires Inv(s) && a in todo && k in s.vips && OnlyVip(s, s1, k) && (s1.t == s.t || Grew(s.t, s1.t))
    requires Merged(s.vips[k], s1.vips[k], want, {a}, true) && MergeDone(s1, k, want, todo - {a}, d)
    ensures MergeDone(s, k, want, todo, d)
  {
    OnlyVipThen(s, s1, d.s, k);
    MergedThen(s.vips[k], s1.vips[k], d.s.vips[k], want, a, todo, d.ok);
    if s1.t != s.t {
      GrewThen(s.t, s1.t, d.s.t);
    }
  }
}
