/** When there is a free id: real ids and vip ids, counted. */
module Capacity {
  import opened Basics
  import opened Maps
  import opened Reals
  import opened Control
  import opened ControlLaws

  /** A full table holds 511 different addresses. */
  lemma FullMeans511(slots: seq<Slot>, byAddr: map<U32, U32>)
    requires TableOk(slots, byAddr) && Full(slots)
    ensures |byAddr.Keys| >= MAX_REALS - 1
  {
    var addrs := seq(MAX_REALS - 1, i requires 0 <= i < MAX_REALS - 1 => slots[i + 1].addr);
    forall i | 0 <= i < |addrs|
      ensures addrs[i] in byAddr && byAddr[addrs[i]] == i + 1
    {
      assert SlotOk(slots, byAddr, i + 1);
    }
    DistinctElements(addrs);
    SubsetSize(Elements(addrs), byAddr.Keys);
  }

  /** Room for every address of `all`: none is 0.0.0.0, and there are at most 511. */
  ghost predicate Room(all: set<U32>) {
    0 !in all && AtMost(all, MAX_REALS - 1)
  }

  lemma RoomForOne(slots: seq<Slot>, byAddr: map<U32, U32>, all: set<U32>, a: U32)
    requires TableOk(slots, byAddr) && Room(all) && byAddr.Keys <= all && a in all && a !in byAddr
    ensures !Full(slots)
  {
    if Full(slots) {
      FullMeans511(slots, byAddr);
      AtMostIs(all, MAX_REALS - 1);
      SubsetSize(byAddr.Keys + {a}, all);
      assert false;
    }
  }

  /** Releasing never adds an address. */
  lemma {:induction false} ReleaseShrinks(s: Lb, todo: set<U32>)
    requires Ranged(s.t)
    ensures ReleaseAll(s, todo).t.byAddr.Keys <= s.t.byAddr.Keys
    decreases todo
  {
    if todo != {} {
      ReleaseShrinks(ReleaseOne(s, Least(todo)), todo - {Least(todo)});
    }
  }

  lemma DeleteShrinks(s: Lb, k: VipSpec)
    requires Ranged(s.t)
    ensures DeleteVip(s, k).t.byAddr.Keys <= s.t.byAddr.Keys
  {
    if k in s.vips {
      ReleaseShrinks(Forget(Send(Send(s, Write.DelVip(k)), DelRing(s.vips[k].id)), k), s.vips[k].members.Keys);
    }
  }

  lemma {:induction false} DeleteAllShrinks(s: Lb, todo: set<VipSpec>)
    requires Ranged(s.t)
    ensures DeleteAll(s, todo).t.byAddr.Keys <= s.t.byAddr.Keys
    decreases todo
  {
    if todo != {} {
      DeleteShrinks(s, First(todo));
      DeleteAllShrinks(DeleteVip(s, First(todo)), todo - {First(todo)});
    }
  }

  // ---- vip ids

  lemma IdsLeft(used: set<nat>)
    requires |used| < MAX_VIPS
    ensures LeastUnused(used, 0) < MAX_VIPS
  {
    if LeastUnused(used, 0) == MAX_VIPS {
      assert Range(MAX_VIPS) <= used;
      SubsetSize(Range(MAX_VIPS), used);
      assert false;
    }
  }

  ghost function IdOf(s: Lb, k: VipSpec): (id: nat) {
    if k in s.vips then s.vips[k].id else if k in s.adopted then s.adopted[k] else 0
  }

  lemma {:induction false} ImageSize(s: Lb, ks: set<VipSpec>)
    ensures |set k | k in ks :: IdOf(s, k)| <= |ks|
    decreases ks
  {
    var ids := set k | k in ks :: IdOf(s, k);
    if ks == {} {
      assert ids == {};
    } else {
      var k := First(ks);
      var rest := set j | j in ks - {k} :: IdOf(s, j);
      ImageSize(s, ks - {k});
      assert ids == rest + {IdOf(s, k)};
    }
  }

  /** One more VIP fits if it and those that have ids are no more than 64. */
  lemma UsedCount(s: Lb, ks: set<VipSpec>, ids: set<nat>)
    requires Inv(s) && ks == s.vips.Keys + s.adopted.Keys && ids == set j | j in ks :: IdOf(s, j)
    ensures |UsedIds(s)| <= |ids| <= |ks|
  {
    ImageSize(s, ks);
    UsedAreIds(s, ids);
    SubsetSize(UsedIds(s), ids);
  }

  lemma OneMore(ks: set<VipSpec>, all: set<VipSpec>, k: VipSpec)
    requires ks <= all && k in all && k !in ks
    ensures |ks| < |all|
  {
    SubsetSize(ks + {k}, all);
  }

  lemma VipIdLeft(s: Lb, all: set<VipSpec>, k: VipSpec)
    requires Inv(s) && |all| <= MAX_VIPS && s.vips.Keys + s.adopted.Keys <= all && k in all && k !in s.vips
             && k !in s.adopted
    ensures LeastUnused(UsedIds(s), 0) < MAX_VIPS
  {
    var ks := s.vips.Keys + s.adopted.Keys;
    UsedCount(s, ks, set j | j in ks :: IdOf(s, j));
    OneMore(ks, all, k);
    IdsLeft(UsedIds(s));
  }

  lemma UsedAreIds(s: Lb, ids: set<nat>)
    requires Inv(s) && forall j :: j in s.vips.Keys + s.adopted.Keys ==> IdOf(s, j) in ids
    ensures UsedIds(s) <= ids
  {
    assert Holds(s, IdsPart);
    forall id | id in UsedIds(s)
      ensures id in ids
    {
      if k :| k in s.vips && s.vips[k].id == id {
        assert IdOf(s, k) in ids;
      } else {
        var k :| k in s.adopted && s.adopted[k] == id;
        assert IdOf(s, k) in ids;
      }
    }
  }
}
