/** A daemon started on maps in which every ring belongs to an entry of the VIP map owns all its rings. */
module Owners {
  import opened Basics
  import opened BuildMaglev
  import opened Ring
  import opened Maps
  import opened Reals
  import opened Control
  import opened MemberLaws
  import opened ApplyLaws
  import opened StartLaws
  import opened Hitless
  import opened Evolution

  ghost predicate Shown(m: Maps, id: nat) {
    exists k :: k in m.vipMap && m.vipMap[k].id == id
  }

  ghost predicate AllShown(m: Maps) {
    forall id: nat :: id in m.rings ==> Shown(m, id)
  }

  lemma {:induction false} DropRings(t: Tab, n: nat)
    requires 1 <= n <= MAX_REALS && |t.slots| == MAX_REALS
    ensures DropTo(t, n).k.maps.rings == t.k.maps.rings
  {
    if n > 1 {
      DropRings(t, n - 1);
    }
  }

  lemma {:induction false} PurgeRings(s: Lb, todo: set<VipSpec>)
    requires Ranged(s.t) && todo <= s.adopted.Keys
    ensures Purge(s, todo).t.k.maps.rings.Keys <= s.t.k.maps.rings.Keys
    ensures forall j :: j in todo ==> s.adopted[j] !in Purge(s, todo).t.k.maps.rings
    decreases todo
  {
    if todo != {} {
      var k := First(todo);
      var s1 := Send(Send(s, Write.DelVip(k)), DelRing(s.adopted[k]));
      RangedSame(s.t, s1.t);
      PurgeRings(s1, todo - {k});
      forall j | j in todo
        ensures s.adopted[j] !in Purge(s, todo).t.k.maps.rings
      {
        assert j == k || j in todo - {k};
      }
    }
  }

  lemma CleanupRings(s: Lb, s': Lb)
    requires Ranged(s.t) && s' == Cleanup(s)
    ensures s'.vips == s.vips && s'.t.k.maps.rings.Keys <= s.t.k.maps.rings.Keys
    ensures forall j :: j in s.adopted && j !in s.vips ==> s.adopted[j] !in s'.t.k.maps.rings
  {
    var todo := s.adopted.Keys - s.vips.Keys;
    PurgeRings(s, todo);
    DropRings(Purge(s, todo).t, MAX_REALS);
  }

  lemma TakenOver(s0: Lb, s: Lb, c: Config, h: Hashes, j: VipSpec)
    requires Starting(s0, s, c.vips, |c.vips|, h) && j in s0.adopted && j in s.vips
    ensures Owned(s, s0.adopted[j])
  {
    assert j in SpecsTo(c.vips, |c.vips|);
    var i :| 0 <= i < |c.vips| && c.vips[i].spec == j;
    assert Started(s0, s, c.vips[i], h);
  }

  /** What the start finds is either taken over by a VIP or purged. */
  lemma FoundIsOwned(m: Maps, s0: Lb, s: Lb, s': Lb, c: Config, h: Hashes, id: nat)
    requires AllShown(m) && s0.t.k.maps.rings == m.rings && Starting(s0, s, c.vips, |c.vips|, h) && Evolves(s0, s)
    requires s0.adopted.Keys == m.vipMap.Keys && forall j :: j in s0.adopted ==> s0.adopted[j] == m.vipMap[j].id
    requires s'.vips == s.vips && s'.t.k.maps.rings.Keys <= s.t.k.maps.rings.Keys
    requires forall j :: j in s.adopted && j !in s.vips ==> s.adopted[j] !in s'.t.k.maps.rings
    requires id in s'.t.k.maps.rings
    ensures Owned(s', id)
  {
    Evolved(s0, s);
    assert OwnedOrStale(s0, s, id);
    if id in m.rings {
      assert Shown(m, id);
      var j :| j in m.vipMap && m.vipMap[j].id == id;
      assert j in s.vips;
      TakenOver(s0, s, c, h, j);
    }
    var j :| j in s.vips && s.vips[j].id == id && s.vips[j].generation > 0;
    assert j in s'.vips && s'.vips[j].id == id;
  }

  lemma AllFoundOwned(m: Maps, s0: Lb, s: Lb, s': Lb, c: Config, h: Hashes)
    requires AllShown(m) && s0.t.k.maps.rings == m.rings && Starting(s0, s, c.vips, |c.vips|, h) && Evolves(s0, s)
    requires s0.adopted.Keys == m.vipMap.Keys && forall j :: j in s0.adopted ==> s0.adopted[j] == m.vipMap[j].id
    requires Ranged(s.t) && s' == Cleanup(s)
    ensures AllOwned(s')
  {
    CleanupRings(s, s');
    forall id: nat | id in s'.t.k.maps.rings
      ensures Owned(s', id)
    {
      FoundIsOwned(m, s0, s, s', c, h, id);
    }
  }

  lemma BegunRings(k: Plane, c: Config, lbMac: Mac)
    requires PlaneSafe(k)
    ensures Begun(k, c, lbMac).t.k.maps.rings == k.maps.rings
  {
  }

  lemma StartOwns(k: Plane, c: Config, lbMac: Mac, arp: map<U32, Mac>, h: Hashes)
    requires PlaneSafe(k) && AllShown(k.maps) && DistinctSpecs(c.vips) && MacsOk(arp)
             && Start(Fresh(k), c, lbMac, arp, h).ok
    ensures AllOwned(Start(Fresh(k), c, lbMac, arp, h).s)
  {
    var s0, hashChanged := Begun(k, c, lbMac), c.hash != ByMaglev;
    BegunOk(k, c, lbMac);
    BegunRings(k, c, lbMac);
    StartIs(k, c, lbMac, hashChanged, arp, h);
    var d := ApplyVips(s0, c.vips, |c.vips|, hashChanged, arp, h);
    StartVips(s0, c.vips, |c.vips|, hashChanged, arp, h);
    ApplyVipsEvolve(s0, c.vips, |c.vips|, hashChanged, arp, h);
    AllFoundOwned(k.maps, s0, d.s, Cleanup(d.s), c, h);
  }
}
