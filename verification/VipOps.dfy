/** vip.add and vip.del on a running daemon. */
module VipOps {
  import opened Basics
  import opened BuildMaglev
  import opened Maps
  import opened Reals
  import opened Health
  import opened LbModel
  import opened Control
  import opened ControlLaws
  import opened MemberLaws
  import opened ReleaseLaws
  import opened OpLaws
  import opened VipLaws

  // ---- vip.add

  lemma CreatedGood(s: Lb, d: Done, k: VipSpec, noConntrack: bool, want: map<U32, U32>, h: Hashes)
    requires Good(s) && k !in s.vips && Created(s, d, k, noConntrack, want, h)
    ensures Good(d.s) && (d.ok && Neat(s, h) ==> Neat(d.s, h))
  {
    Open(s);
    Open(d.s);
    forall j
      ensures Traced(d.s, d.s.leak, j) && (d.ok && Steady(s, h, j) ==> Steady(d.s, h, j))
    {
      assert Traced(s, s.leak, j);
      if j != k {
        UntouchedTraced(s, d.s, s.leak, j);
        if Steady(s, h, j) {
          UntouchedSteady(s, d.s, s.leak, h, j);
        }
      } else if d.ok {
        SettledTraced(d.s, s.leak, h, k);
      }
    }
  }

  /** With no members to add, creation can only fail for want of a vip id, before anything changed. */
  lemma CreateEmpty(s: Lb, k: VipSpec, noConntrack: bool, arp: map<U32, Mac>, h: Hashes)
    requires Ranged(s.t)
    ensures var d := CreateVip(s, k, noConntrack, map[], arp, h);
            (!d.ok ==> d.s == s) && (d.ok <==> k in s.adopted || LeastUnused(UsedIds(s), 0) < MAX_VIPS)
  {
  }

  lemma EmptyKept(s: Lb, d: Done, k: VipSpec, noConntrack: bool, h: Hashes)
    requires Good(s) && k !in s.vips && Created(s, d, k, noConntrack, map[], h) && (!d.ok ==> d.s == s)
    ensures Kept(s, d.s, h) && (d.ok ==> k in d.s.vips && d.s.vips[k].members == map[] && Steady(d.s, h, k))
  {
    CreatedGood(s, d, k, noConntrack, map[], h);
  }

  /** vip.add is refused exactly when the VIP exists or all ids are taken, and then changes nothing. */
  lemma AddVipOk(s: Lb, k: VipSpec, noConntrack: bool, arp: map<U32, Mac>, h: Hashes)
    requires Good(s) && MacsOk(arp)
    ensures Ranged(s.t)
    ensures var d := AddVip(s, k, noConntrack, arp, h);
            && Kept(s, d.s, h) && (!d.ok ==> d.s == s)
            && (d.ok <==> k !in s.vips && LeastUnused(UsedIds(s), 0) < MAX_VIPS)
            && (d.ok ==> k in d.s.vips && d.s.vips[k].members == map[] && Steady(d.s, h, k))
  {
    InvRanged(s);
    if k !in s.vips {
      CreateVipOk(s, k, noConntrack, map[], arp, h);
      CreateEmpty(s, k, noConntrack, arp, h);
      assert s.adopted == map[] by { assert Holds(s, LivePart); }
      EmptyKept(s, CreateVip(s, k, noConntrack, map[], arp, h), k, noConntrack, h);
    }
  }

  // ---- vip.del

  lemma HealthForgotten(vips: map<VipSpec, Vip>, next: nat, reports: map<nat, seq<Report>>, k: VipSpec)
    requires HealthOk(vips, next, reports)
    ensures HealthOk(vips - {k}, next, reports)
  {
    var vips' := vips - {k};
    forall i, a, j, b
      ensures Apart(vips', i, a, j, b)
    {
      assert Apart(vips, i, a, j, b);
    }
  }

  lemma IdsForgotten(vips: map<VipSpec, Vip>, vipMap: map<VipSpec, VipValue>, k: VipSpec)
    requires IdsOk(vips, map[], vipMap)
    ensures IdsOk(vips - {k}, map[], vipMap - {k})
  {
  }

  /** The VIP map entry and the ring are gone, the members' references pending. */
  ghost function Withdrawn(s: Lb, k: VipSpec): (s': Lb)
    requires k in s.vips
  {
    Forget(Send(Send(s, Write.DelVip(k)), DelRing(s.vips[k].id)), k)
  }

  lemma WithdrawTab(s: Lb, k: VipSpec)
    requires Inv(s) && s.adopted == map[] && k in s.vips
    ensures TabOk(Withdrawn(s, k).t)
  {
    assert Holds(s, TablePart) && Holds(s, IdsPart);
    SendTab(s.t, Write.DelVip(k));
    SendTab(s.t.(k := Put(s.t.k, Write.DelVip(k))), DelRing(s.vips[k].id));
  }

  lemma WithdrawInv(s: Lb, k: VipSpec)
    requires Inv(s) && s.adopted == map[] && k in s.vips
    ensures Inv(Withdrawn(s, k))
  {
    WithdrawTab(s, k);
    Open(s);
    IdsForgotten(s.vips, s.t.k.maps.vipMap, k);
    HeldDeleted(s.vips, s.t.slots, s.t.byAddr, s.leak, k);
    HealthForgotten(s.vips, s.next, s.reports, k);
    Close(Withdrawn(s, k));
  }

  lemma WithdrawLeaves(s: Lb, k: VipSpec, j: VipSpec)
    requires Inv(s) && s.adopted == map[] && k in s.vips && j != k
    ensures Untouched(s, Withdrawn(s, k), s.leak, j)
  {
    assert Holds(s, TablePart) && Holds(s, IdsPart) && Holds(s, HeldPart);
    KeepsSelf(s.t.slots, s.t.byAddr);
  }

  /** s' is s without the VIPs in `gone`; every other VIP is as before. */
  ghost predicate Removed(s: Lb, s': Lb, gone: set<VipSpec>) {
    && Inv(s') && AllTraced(s', s.leak)
    && s' == s.(vips := s.vips - gone, t := s'.t)
    && forall j :: j !in gone ==> Untouched(s, s', s.leak, j)
  }

  lemma DeleteVipOk(s: Lb, k: VipSpec)
    requires Good(s)
    ensures Ranged(s.t) && Removed(s, DeleteVip(s, k), {k})
  {
    InvRanged(s);
    var s' := DeleteVip(s, k);
    assert s.adopted == map[] by { assert Holds(s, LivePart); }
    UntouchedSelf(s, s.leak);
    if k !in s.vips {
      assert s.vips - {k} == s.vips;
    } else {
      var s1 := Withdrawn(s, k);
      WithdrawInv(s, k);
      assert TabOk(s.t) && TabOk(s1.t) by { assert Holds(s, TablePart) && Holds(s1, TablePart); }
      forall j
        ensures Traced(s1, s.leak, j) && (j != k ==> Untouched(s, s1, s.leak, j))
      {
        assert Traced(s, s.leak, j);
        if j != k {
          WithdrawLeaves(s, k, j);
          UntouchedTraced(s, s1, s.leak, j);
        }
      }
      ReleaseAllOk(s1, s.leak, s.vips[k].members.Keys);
      forall j | j != k
        ensures Untouched(s, s', s.leak, j)
      {
        UntouchedThen(s, s1, s', s.leak, j);
      }
    }
  }

  lemma RemovedGood(s: Lb, s': Lb, gone: set<VipSpec>, h: Hashes)
    requires Good(s) && Removed(s, s', gone)
    ensures Kept(s, s', h)
  {
    forall j
      ensures Steady(s, h, j) ==> Steady(s', h, j)
    {
      if j !in gone && Steady(s, h, j) {
        UntouchedSteady(s, s', s.leak, h, j);
      }
    }
  }

  lemma DelVipOk(s: Lb, k: VipSpec, h: Hashes)
    requires Good(s)
    ensures Ranged(s.t)
    ensures var d := Control.DelVip(s, k);
            && Kept(s, d.s, h) && (d.ok <==> k in s.vips) && (!d.ok ==> d.s == s)
            && (d.ok ==> d.s.vips == s.vips - {k} && k !in d.s.t.k.maps.vipMap)
  {
    InvRanged(s);
    DeleteVipOk(s, k);
    var s' := DeleteVip(s, k);
    RemovedGood(s, s', {k}, h);
    assert Holds(s', IdsPart) && Holds(s, LivePart);
  }

  /** Deleting the VIPs a configuration no longer has. */
  lemma {:induction false} DeleteAllOk(s: Lb, todo: set<VipSpec>)
    requires Good(s)
    ensures Ranged(s.t) && Removed(s, DeleteAll(s, todo), todo)
    decreases todo
  {
    InvRanged(s);
    if todo == {} {
      UntouchedSelf(s, s.leak);
      assert s.vips - todo == s.vips;
    } else {
      var k := First(todo);
      var s1, s' := DeleteVip(s, k), DeleteAll(s, todo);
      DeleteVipOk(s, k);
      DeleteAllOk(s1, todo - {k});
      assert s.vips - {k} - (todo - {k}) == s.vips - todo;
      forall j | j !in todo
        ensures Untouched(s, s', s.leak, j)
      {
        UntouchedThen(s, s1, s', s.leak, j);
      }
    }
  }
}
