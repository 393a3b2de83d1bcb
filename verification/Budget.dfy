/**
 Ids, counted exactly. Which of the wanted addresses get one, and so how far a merge, a turn of a
 reload and a whole start get, follows from the sizes of a few sets.
 */
module Budget {
  import opened Basics
  import opened Maps
  import opened Reals
  import opened LbModel
  import opened Control
  import opened ControlLaws
  import opened MemberLaws
  import opened VipLaws
  import opened Capacity

  // ---- how many addresses a table holds

  lemma {:induction false} InjectiveSize(m: map<U32, U32>, keys: set<U32>, ids: set<nat>)
    requires keys <= m.Keys && forall a :: a in keys ==> m[a] in ids
    requires forall a, b :: a in keys && b in keys && a != b ==> m[a] != m[b]
    ensures |keys| <= |ids|
    decreases keys
  {
    if keys != {} {
      var a :| a in keys;
      InjectiveSize(m, keys - {a}, ids - {m[a]});
    }
  }

  lemma TableSize(slots: seq<Slot>, byAddr: map<U32, U32>, ids: set<nat>)
    requires TableOk(slots, byAddr) && forall a :: a in byAddr ==> byAddr[a] in ids
    ensures |byAddr.Keys| <= |ids|
  {
    forall a, b | a in byAddr && b in byAddr && a != b
      ensures byAddr[a] != byAddr[b]
    {
      assert AddrOk(slots, byAddr, a) && AddrOk(slots, byAddr, b);
    }
    InjectiveSize(byAddr, byAddr.Keys, ids);
  }

  lemma IdSet(n: nat) returns (all: set<nat>)
    ensures (forall id: nat :: id in all <==> id < n) && |all| == n
  {
    all := Range(n);
  }

  /** No more addresses than ids, not counting id 0 and those in `free`. */
  lemma TableHolds(slots: seq<Slot>, byAddr: map<U32, U32>, n: nat, free: set<nat>)
    requires TableOk(slots, byAddr) && n == |slots| && forall id :: id in free ==> 0 < id < n && slots[id].addr == 0
    ensures |byAddr.Keys| + |free| < n
  {
    var all := IdSet(n);
    var out := free + {0};
    forall a | a in byAddr
      ensures byAddr[a] in all - out
    {
      assert AddrOk(slots, byAddr, a);
    }
    TableSize(slots, byAddr, all - out);
    SubsetSize(out, all);
  }

  /** What is in the table has room. */
  lemma TableRoom(slots: seq<Slot>, byAddr: map<U32, U32>)
    requires TableOk(slots, byAddr)
    ensures Room(byAddr.Keys)
  {
    assert forall a :: a in byAddr ==> AddrOk(slots, byAddr, a);
    TableHolds(slots, byAddr, |slots|, {});
    AtMostIs(byAddr.Keys, MAX_REALS - 1);
  }

  /** There is a free slot exactly if one more address still has room. */
  lemma FreeIffRoom(slots: seq<Slot>, byAddr: map<U32, U32>, a: U32)
    requires TableOk(slots, byAddr) && a !in byAddr && a != 0
    ensures !Full(slots) <==> Room(byAddr.Keys + {a})
  {
    TableRoom(slots, byAddr);
    AtMostIs(byAddr.Keys + {a}, MAX_REALS - 1);
    if Full(slots) {
      FullMeans511(slots, byAddr);
    } else {
      var free: nat :| 0 < free < |slots| && slots[free].addr == 0;
      TableHolds(slots, byAddr, |slots|, {free});
    }
  }

  // ---- which addresses are placed

  ghost function UpTo(want: set<U32>, a: U32): (part: set<U32>) {
    set b | b in want && b <= a
  }

  /**
   Taken in ascending order, the wanted addresses that have or get an id when those of `live` have
   one: the ones up to which all together have room.
   */
  ghost function Placed(live: set<U32>, want: set<U32>): (p: set<U32>) {
    set a | a in want && Room(live + UpTo(want, a))
  }

  lemma RoomLess(a: set<U32>, b: set<U32>)
    requires a <= b && Room(b)
    ensures Room(a)
  {
    SubsetSize(a, b);
    AtMostIs(a, MAX_REALS - 1);
    AtMostIs(b, MAX_REALS - 1);
  }

  /** All of them exactly if all together have room. */
  lemma AllPlacedIff(live: set<U32>, want: set<U32>)
    requires Room(live)
    ensures Placed(live, want) == want <==> Room(live + want)
  {
    if Room(live + want) {
      forall a | a in want
        ensures a in Placed(live, want)
      {
        RoomLess(live + UpTo(want, a), live + want);
      }
    }
    if Placed(live, want) == want {
      if want == {} {
        assert live + want == live;
      } else {
        var a := Greatest(want);
        assert a in Placed(live, want);
        assert UpTo(want, a) == want;
      }
    }
  }

  lemma {:induction false} Greatest(want: set<U32>) returns (a: U32)
    requires want != {}
    ensures a in want && forall b :: b in want ==> b <= a
    decreases want
  {
    var b :| b in want;
    assert forall x :: x in want ==> x == b || x in want - {b};
    if want - {b} == {} {
      a := b;
    } else {
      a := Greatest(want - {b});
      if a < b {
        a := b;
      }
    }
  }

  /** With no room for the first of them, none is placed. */
  lemma NonePlaced(live: set<U32>, want: set<U32>)
    requires want != {} && !Room(live + {Least(want)})
    ensures Placed(live, want) == {}
  {
    forall a | a in want
      ensures !Room(live + UpTo(want, a))
    {
      assert Least(want) in UpTo(want, a);
      if Room(live + UpTo(want, a)) {
        RoomLess(live + {Least(want)}, live + UpTo(want, a));
      }
    }
  }

  /** The first of them placed, the rest are those placed next to it. */
  lemma FirstPlaced(live: set<U32>, want: set<U32>, a: U32)
    requires Lowest(want, a) && Room(live + {a})
    ensures Placed(live, want) == {a} + Placed(live + {a}, want - {a})
  {
    forall b | b in want
      ensures b in Placed(live, want) <==> b == a || b in Placed(live + {a}, want - {a})
    {
      if b == a {
        assert UpTo(want, a) == {a};
      } else {
        assert live + UpTo(want, b) == live + {a} + UpTo(want - {a}, b);
      }
    }
  }

  // ---- a merge

  /** VIP v with the wanted members p placed: new ones joined, the weights of the others set, no one else touched. */
  ghost predicate MergedAt(v: Vip, v': Vip, want: map<U32, U32>, p: set<U32>, a: U32) {
    && (a in v'.members <==> a in v.members || a in p)
    && (a in v.members ==> v'.members[a] == if a in p && a in want then v.members[a].(weight := want[a])
                           else v.members[a])
    && (a in p && a !in v.members ==> a in want && a in v'.members
                                      && v'.members[a] == NewMember(want[a], v'.members[a].incarnation))
  }

  ghost predicate MergedExactly(v: Vip, v': Vip, want: map<U32, U32>, p: set<U32>) {
    v' == v.(members := v'.members) && forall a :: MergedAt(v, v', want, p, a)
  }

  lemma MergedNothing(v: Vip, want: map<U32, U32>)
    ensures MergedExactly(v, v, want, {})
  {
  }

  lemma MergedMore(v: Vip, v1: Vip, v2: Vip, want: map<U32, U32>, a: U32, p: set<U32>, q: set<U32>)
    requires MergedExactly(v, v1, want, {a}) && MergedExactly(v1, v2, want, p) && a !in p && q == {a} + p
    ensures MergedExactly(v, v2, want, q)
  {
    forall b
      ensures MergedAt(v, v2, want, q, b)
    {
      assert MergedAt(v, v1, want, {a}, b) && MergedAt(v1, v2, want, p, b);
    }
  }

  lemma ReweighExact(s: Lb, k: VipSpec, want: map<U32, U32>, a: U32)
    requires k in s.vips && a in s.vips[k].members && a in want
    ensures MergedExactly(s.vips[k], Reweigh(s, k, a, want[a]).vips[k], want, {a})
  {
  }

  lemma JoinExact(s: Lb, k: VipSpec, want: map<U32, U32>, a: U32, arp: map<U32, Mac>)
    requires Ranged(s.t) && k in s.vips && a !in s.vips[k].members && a in want
             && AddMember(s, k, a, want[a], arp).Some?
    ensures MergedExactly(s.vips[k], AddMember(s, k, a, want[a], arp).value.vips[k], want, {a})
  {
  }

  /** What a merge of `todo` has done, with the addresses of p placed. */
  ghost predicate MergeIs(s: Lb, k: VipSpec, want: map<U32, U32>, todo: set<U32>, p: set<U32>, d: Done) {
    && k in s.vips && k in d.s.vips && (d.ok <==> p == todo) && d.s.t.byAddr.Keys == s.t.byAddr.Keys + p
    && MergedExactly(s.vips[k], d.s.vips[k], want, p)
  }

  lemma MembersHaveIds(s: Lb, k: VipSpec, a: U32)
    requires Inv(s) && k in s.vips && a in s.vips[k].members
    ensures a in s.t.byAddr
  {
    assert Holds(s, HeldPart);
  }

  lemma LiveRoom(s: Lb)
    requires Inv(s)
    ensures Room(s.t.byAddr.Keys)
  {
    assert Holds(s, TablePart);
    TableRoom(s.t.slots, s.t.byAddr);
  }

  lemma JoinsIff(s: Lb, k: VipSpec, a: U32, weight: U32, arp: map<U32, Mac>)
    requires Inv(s) && k in s.vips && a !in s.vips[k].members && MacsOk(arp)
    ensures Ranged(s.t)
    ensures AddMember(s, k, a, weight, arp).Some? <==> Room(s.t.byAddr.Keys + {a})
  {
    AddMemberOk(s, k, a, weight, arp);
    LiveRoom(s);
    if a in s.t.byAddr {
      assert s.t.byAddr.Keys + {a} == s.t.byAddr.Keys;
    } else if a != 0 {
      assert Holds(s, TablePart);
      FreeIffRoom(s.t.slots, s.t.byAddr, a);
    }
  }

  lemma PlacedMore(live: set<U32>, live1: set<U32>, todo: set<U32>, a: U32, p: set<U32>, q: set<U32>)
    requires Lowest(todo, a) && Room(live + {a}) && live1 == live + {a} && p == Placed(live1, todo - {a})
             && q == Placed(live, todo)
    ensures q == {a} + p && a !in p && live + q == live1 + p && (q == todo <==> p == todo - {a})
  {
    FirstPlaced(live, todo, a);
  }

  lemma MergeIsMore(s: Lb, s1: Lb, k: VipSpec, want: map<U32, U32>, todo: set<U32>, a: U32, p: set<U32>, q: set<U32>,
                    d: Done)
    requires a in todo && k in s.vips && k in s1.vips && s1.t.byAddr.Keys == s.t.byAddr.Keys + {a}
    requires MergedExactly(s.vips[k], s1.vips[k], want, {a}) && MergeIs(s1, k, want, todo - {a}, p, d)
    requires q == {a} + p && a !in p && (q == todo <==> p == todo - {a})
    ensures MergeIs(s, k, want, todo, q, d)
  {
    MergedMore(s.vips[k], s1.vips[k], d.s.vips[k], want, a, p, q);
    assert s.t.byAddr.Keys + q == s1.t.byAddr.Keys + p;
  }

  lemma MergeGoesOn(s: Lb, s1: Lb, k: VipSpec, want: map<U32, U32>, todo: set<U32>, a: U32, d: Done)
    requires Lowest(todo, a) && k in s.vips && k in s1.vips && Room(s.t.byAddr.Keys + {a})
    requires s1.t.byAddr.Keys == s.t.byAddr.Keys + {a} && MergedExactly(s.vips[k], s1.vips[k], want, {a})
    requires MergeIs(s1, k, want, todo - {a}, Placed(s1.t.byAddr.Keys, todo - {a}), d)
    ensures MergeIs(s, k, want, todo, Placed(s.t.byAddr.Keys, todo), d)
  {
    var p, q := Placed(s1.t.byAddr.Keys, todo - {a}), Placed(s.t.byAddr.Keys, todo);
    PlacedMore(s.t.byAddr.Keys, s1.t.byAddr.Keys, todo, a, p, q);
    MergeIsMore(s, s1, k, want, todo, a, p, q, d);
  }

  /** A merge takes the wanted addresses in order, as far as there are ids, and goes no further. */
  lemma {:induction false} MergeExact(s: Lb, k: VipSpec, want: map<U32, U32>, todo: set<U32>, arp: map<U32, Mac>)
    requires Inv(s) && k in s.vips && todo <= want.Keys && MacsOk(arp)
    ensures Ranged(s.t) && MergeIs(s, k, want, todo, Placed(s.t.byAddr.Keys, todo), Merge(s, k, want, todo, arp))
    decreases todo
  {
    InvRanged(s);
    if todo == {} {
      MergedNothing(s.vips[k], want);
      assert Placed(s.t.byAddr.Keys, {}) == {};
    } else {
      var a := Least(todo);
      if a in s.vips[k].members {
        var s1 := Reweigh(s, k, a, want[a]);
        MembersHaveIds(s, k, a);
        LiveRoom(s);
        assert s.t.byAddr.Keys + {a} == s.t.byAddr.Keys;
        ReweighOk(s, k, a, want[a]);
        ReweighExact(s, k, want, a);
        MergeExact(s1, k, want, todo - {a}, arp);
        MergeGoesOn(s, s1, k, want, todo, a, Merge(s1, k, want, todo - {a}, arp));
      } else {
        JoinsIff(s, k, a, want[a], arp);
        var r := AddMember(s, k, a, want[a], arp);
        if r.None? {
          NonePlaced(s.t.byAddr.Keys, todo);
          MergedNothing(s.vips[k], want);
        } else {
          AddMemberOk(s, k, a, want[a], arp);
          JoinExact(s, k, want, a, arp);
          MergeExact(r.value, k, want, todo - {a}, arp);
          MergeGoesOn(s, r.value, k, want, todo, a, Merge(r.value, k, want, todo - {a}, arp));
        }
      }
    }
  }

  // ---- vip ids

  lemma {:induction false} IdImage(s: Lb, ks: set<VipSpec>)
    requires forall j, k :: j in ks && k in ks && j != k ==> IdOf(s, j) != IdOf(s, k)
    ensures |set k | k in ks :: IdOf(s, k)| == |ks|
    decreases ks
  {
    var ids := set k | k in ks :: IdOf(s, k);
    if ks == {} {
      assert ids == {};
    } else {
      var k :| k in ks;
      var rest := set j | j in ks - {k} :: IdOf(s, j);
      IdImage(s, ks - {k});
      assert ids == rest + {IdOf(s, k)} && IdOf(s, k) !in rest;
    }
  }

  lemma IdsDiffer(s: Lb, j: VipSpec, k: VipSpec)
    requires Inv(s) && j in s.vips.Keys + s.adopted.Keys && k in s.vips.Keys + s.adopted.Keys && j != k
    ensures IdOf(s, j) != IdOf(s, k) && IdOf(s, j) < MAX_VIPS
  {
    assert Holds(s, IdsPart) && Holds(s, TablePart);
    var m := s.t.k.maps;
    assert j in m.vipMap ==> VipSafe(m, j);
  }

  /** As many VIPs as ids in use. */
  lemma IdsCounted(s: Lb)
    requires Inv(s)
    ensures |UsedIds(s)| == |s.vips.Keys + s.adopted.Keys| && forall id :: id in UsedIds(s) ==> id < MAX_VIPS
  {
    var ks := s.vips.Keys + s.adopted.Keys;
    var ids := set k | k in ks :: IdOf(s, k);
    assert Holds(s, IdsPart);
    forall k | k in ks
      ensures IdOf(s, k) in UsedIds(s) && IdOf(s, k) < MAX_VIPS
    {
      IdInUse(s, k);
    }
    forall j, k | j in ks && k in ks && j != k
      ensures IdOf(s, j) != IdOf(s, k)
    {
      IdsDiffer(s, j, k);
    }
    IdImage(s, ks);
    UsedAreIds(s, ids);
    assert UsedIds(s) == ids;
  }

  lemma VipsFit(s: Lb)
    requires Inv(s)
    ensures AtMost(s.vips.Keys + s.adopted.Keys, MAX_VIPS)
  {
    AtMostIs(s.vips.Keys + s.adopted.Keys, MAX_VIPS);
    IdsCounted(s);
    AllUsedIff(UsedIds(s), MAX_VIPS);
  }

  lemma IdInUse(s: Lb, k: VipSpec)
    requires Inv(s) && k in s.vips.Keys + s.adopted.Keys
    ensures IdOf(s, k) in UsedIds(s) && IdOf(s, k) < MAX_VIPS
  {
    assert Holds(s, IdsPart) && Holds(s, TablePart);
    assert k in s.adopted ==> VipSafe(s.t.k.maps, k);
  }

  lemma AllUsedIff(used: set<nat>, n: nat)
    requires forall id :: id in used ==> id < n
    ensures |used| <= n && (|used| == n <==> forall id: nat :: id < n ==> id in used)
  {
    var all := IdSet(n);
    SubsetSize(used, all);
    if |used| == n {
      SubsetOfSameSize(used, all);
    }
    if forall id: nat :: id < n ==> id in used {
      assert used == all;
    }
  }

  /** A VIP new to the daemon gets an id exactly if it and those that have one are no more than 64. */
  lemma EntersIff(s: Lb, k: VipSpec, noConntrack: bool)
    requires Inv(s) && k !in s.vips
    ensures Enter(s, k, noConntrack).Some? <==> AtMost(s.vips.Keys + s.adopted.Keys + {k}, MAX_VIPS)
  {
    AtMostIs(s.vips.Keys + s.adopted.Keys + {k}, MAX_VIPS);
    EnterOk(s, k, noConntrack);
    IdsCounted(s);
    AllUsedIff(UsedIds(s), MAX_VIPS);
    OneMoreFits(s.vips.Keys + s.adopted.Keys, k);
  }

  lemma OneMoreFits(ks: set<VipSpec>, k: VipSpec)
    ensures |ks + {k}| == if k in ks then |ks| else |ks| + 1
  {
    if k in ks {
      assert ks + {k} == ks;
    }
  }
}
