/** Releasing references after the rings that needed them are gone. */
module ReleaseLaws {
  import opened Basics
  import opened Maps
  import opened Reals
  import opened LbModel
  import opened Control
  import opened ControlLaws

  ghost predicate AllTraced(s: Lb, stuck: multiset<U32>) {
    forall j :: Traced(s, stuck, j)
  }

  /** An address nobody holds is on no ring a packet can reach. */
  lemma UnheldIsUnused(s: Lb, stuck: multiset<U32>, a: U32)
    requires Inv(s) && s.adopted == map[] && AllTraced(s, stuck)
    requires a in s.t.byAddr && Holders(s.vips, a) == 0 && a !in stuck
    ensures Unused(s.t.k.maps, s.t.byAddr[a])
  {
    assert Holds(s, IdsPart) && Holds(s, TablePart);
    var maps, id := s.t.k.maps, s.t.byAddr[a];
    assert AddrOk(s.t.slots, s.t.byAddr, a);
    forall k | k in maps.vipMap && maps.vipMap[k].id in maps.rings
      ensures id !in maps.rings[maps.vipMap[k].id]
    {
      assert Traced(s, stuck, k);
      if id in maps.rings[s.vips[k].id] {
        HolderCounts(s.vips, k, a);
        assert false;
      }
    }
  }

  lemma HeldReleased(vips: map<VipSpec, Vip>, t: Tab, leak: multiset<U32>, a: U32)
    requires TabOk(t) && Ranged(t) && HeldOk(vips, t.slots, t.byAddr, leak) && a in leak
    ensures HeldOk(vips, Release(t, a).slots, Release(t, a).byAddr, leak - multiset{a})
  {
    var t', leak' := Release(t, a), leak - multiset{a};
    assert HeldAt(vips, t.slots, t.byAddr, leak, a);
    forall b | b in t'.byAddr
      ensures HeldAt(vips, t'.slots, t'.byAddr, leak', b)
    {
      assert HeldAt(vips, t.slots, t.byAddr, leak, b);
      assert AddrOk(t.slots, t.byAddr, b) && AddrOk(t.slots, t.byAddr, a);
    }
    forall k, b | k in vips && b in vips[k].members
      ensures b in t'.byAddr
    {
      HolderCounts(vips, k, b);
    }
  }

  /** Only the released address can lose its id, and only with its last reference. */
  lemma ReleaseKeeps(t: Tab, a: U32, b: U32)
    requires TabOk(t) && Ranged(t) && b in t.byAddr && (b == a ==> t.slots[t.byAddr[a]].refs > 1)
    ensures KeepsAddr(t.slots, t.byAddr, Release(t, a).slots, Release(t, a).byAddr, b)
  {
    assert AddrOk(t.slots, t.byAddr, b);
    assert a in t.byAddr ==> AddrOk(t.slots, t.byAddr, a);
  }

  lemma ReleaseHeld(t: Tab, a: U32)
    requires TabOk(t) && Ranged(t) && AllHeld(t.slots, t.byAddr)
    ensures AllHeld(Release(t, a).slots, Release(t, a).byAddr)
  {
    var t' := Release(t, a);
    forall b | b in t'.byAddr
      ensures HasRefs(t'.slots, t'.byAddr, b)
    {
      assert HasRefs(t.slots, t.byAddr, b) && AddrOk(t.slots, t.byAddr, b);
      assert a in t.byAddr ==> AddrOk(t.slots, t.byAddr, a);
    }
  }

  lemma ReleaseSafe(s: Lb, stuck: multiset<U32>, a: U32)
    requires Inv(s) && s.adopted == map[] && AllTraced(s, stuck) && stuck + multiset{a} <= s.leak
    ensures Ranged(s.t) && TabOk(Release(s.t, a)) && OnlyReals(s.t.k.maps, Release(s.t, a).k.maps)
    ensures Release(s.t, a).k.installs == s.t.k.installs && s.t.k.log <= Release(s.t, a).k.log
  {
    Open(s);
    assert s.leak[a] >= stuck[a] + 1;
    assert a in s.leak;
    assert HeldAt(s.vips, s.t.slots, s.t.byAddr, s.leak, a);
    if s.t.slots[s.t.byAddr[a]].refs <= 1 {
      UnheldIsUnused(s, stuck, a);
    }
    ReleaseOk(s.t, a);
  }

  lemma ReleaseLeaves(s: Lb, stuck: multiset<U32>, a: U32, j: VipSpec)
    requires Inv(s) && stuck + multiset{a} <= s.leak && Ranged(s.t)
    requires OnlyReals(s.t.k.maps, Release(s.t, a).k.maps)
    ensures Untouched(s, ReleaseOne(s, a), stuck, j)
  {
    Open(s);
    if j in s.vips {
      forall b | b in s.vips[j].members || b in stuck
        ensures KeepsAddr(s.t.slots, s.t.byAddr, Release(s.t, a).slots, Release(s.t, a).byAddr, b)
      {
        assert s.leak[b] >= stuck[b] + (if a == b then 1 else 0);
        assert b in s.t.byAddr;
        assert HeldAt(s.vips, s.t.slots, s.t.byAddr, s.leak, b);
        if b in s.vips[j].members {
          HolderCounts(s.vips, j, b);
        }
        ReleaseKeeps(s.t, a, b);
      }
    }
  }

  /** One pending reference given back; nobody else notices. */
  lemma ReleaseOneOk(s: Lb, stuck: multiset<U32>, a: U32)
    requires Inv(s) && s.adopted == map[] && AllTraced(s, stuck) && stuck + multiset{a} <= s.leak
    ensures Ranged(s.t) && Inv(ReleaseOne(s, a)) && AllTraced(ReleaseOne(s, a), stuck)
    ensures forall j :: Untouched(s, ReleaseOne(s, a), stuck, j)
    ensures s.t.k.log <= ReleaseOne(s, a).t.k.log
  {
    ReleaseSafe(s, stuck, a);
    Open(s);
    var s' := ReleaseOne(s, a);
    assert s.leak[a] >= stuck[a] + 1;
    HeldReleased(s.vips, s.t, s.leak, a);
    if s.initialized {
      ReleaseHeld(s.t, a);
    }
    Close(s');
    forall j
      ensures Untouched(s, s', stuck, j) && Traced(s', stuck, j)
    {
      ReleaseLeaves(s, stuck, a, j);
      assert Traced(s, stuck, j);
      UntouchedTraced(s, s', stuck, j);
    }
  }

  ghost predicate OnlyTable(s: Lb, s': Lb) {
    s' == s.(t := s'.t, leak := s'.leak)
  }

  lemma LeakLess(leak: multiset<U32>, stuck: multiset<U32>, todo: set<U32>, a: U32)
    requires leak == stuck + multiset(todo) && a in todo
    ensures stuck + multiset{a} <= leak && leak - multiset{a} == stuck + multiset(todo - {a})
  {
  }

  /** All pending references given back. */
  lemma {:induction false} ReleaseAllOk(s: Lb, stuck: multiset<U32>, todo: set<U32>)
    requires Inv(s) && s.adopted == map[] && AllTraced(s, stuck) && s.leak == stuck + multiset(todo)
    ensures Ranged(s.t)
    ensures var s' := ReleaseAll(s, todo);
            && Inv(s') && AllTraced(s', stuck) && s'.leak == stuck && OnlyTable(s, s') && s.t.k.log <= s'.t.k.log
            && forall j :: Untouched(s, s', stuck, j)
    decreases todo
  {
    InvRanged(s);
    if todo == {} {
      UntouchedSelf(s, stuck);
    } else {
      var a := Least(todo);
      LeakLess(s.leak, stuck, todo, a);
      ReleaseOneOk(s, stuck, a);
      var s1 := ReleaseOne(s, a);
      ReleaseAllOk(s1, stuck, todo - {a});
      var s' := ReleaseAll(s, todo);
      forall j
        ensures Untouched(s, s', stuck, j)
      {
        UntouchedThen(s, s1, s', stuck, j);
      }
    }
  }

  lemma UntouchedSelf(s: Lb, stuck: multiset<U32>)
    requires Inv(s) && stuck <= s.leak
    ensures forall j :: Untouched(s, s, stuck, j)
  {
    Open(s);
    KeepsSelf(s.t.slots, s.t.byAddr);
  }
}
