/**
 What a reload does to the flags of the VIPs and to the VIP map, from any state whatever: which of the
 configured VIPs packets can match afterwards.
 */
module Published {
  import opened Basics
  import opened BuildMaglev
  import opened Maps
  import opened Reals
  import opened Control
  import opened ControlLaws
  import opened ApplyLaws

  /** VIP j has the id and flags it had, and the VIP map shows for it what it showed. */
  ghost predicate FaceAt(s: Lb, s': Lb, j: VipSpec) {
    && SameAt(s.t.k.maps.vipMap, s'.t.k.maps.vipMap, j) && (j in s.vips <==> j in s'.vips)
    && (j in s.vips ==> s'.vips[j].noConntrack == s.vips[j].noConntrack && s'.vips[j].id == s.vips[j].id)
  }

  ghost predicate SameFaces(s: Lb, s': Lb) {
    forall j :: FaceAt(s, s', j)
  }

  lemma FacesThen(s: Lb, s1: Lb, s2: Lb)
    requires SameFaces(s, s1) && SameFaces(s1, s2)
    ensures SameFaces(s, s2)
  {
    forall j
      ensures FaceAt(s, s2, j)
    {
      assert FaceAt(s, s1, j) && FaceAt(s1, s2, j);
    }
  }

  // ---- the table

  lemma AcquireShows(t: Tab, addr: U32)
    requires Ranged(t) && Acquire(t, addr).Some?
    ensures Acquire(t, addr).value.k.maps.vipMap == t.k.maps.vipMap
  {
  }

  lemma ReleaseShows(t: Tab, addr: U32)
    requires Ranged(t)
    ensures Release(t, addr).k.maps.vipMap == t.k.maps.vipMap
  {
  }

  lemma ResolveShows(t: Tab, addr: U32, nextHop: Option<U32>, arp: map<U32, Mac>)
    requires Ranged(t)
    ensures Resolve(t, addr, nextHop, arp).k.maps.vipMap == t.k.maps.vipMap
  {
  }

  // ---- members and rings

  lemma RebuildFaces(s: Lb, k: VipSpec, h: Hashes)
    requires k in s.vips
    ensures SameFaces(s, Rebuild(s, k, h))
  {
  }

  lemma AddMemberFaces(s: Lb, k: VipSpec, addr: U32, weight: U32, arp: map<U32, Mac>)
    requires Ranged(s.t) && k in s.vips && AddMember(s, k, addr, weight, arp).Some?
    ensures SameFaces(s, AddMember(s, k, addr, weight, arp).value)
  {
    AcquireShows(s.t, addr);
    ResolveShows(Acquire(s.t, addr).value, addr, s.nextHop, arp);
  }

  lemma {:induction false} MergeFaces(s: Lb, k: VipSpec, want: map<U32, U32>, todo: set<U32>, arp: map<U32, Mac>)
    requires Ranged(s.t) && k in s.vips && todo <= want.Keys
    ensures SameFaces(s, Merge(s, k, want, todo, arp).s)
    decreases todo
  {
    if todo != {} {
      var a := Least(todo);
      if a in s.vips[k].members {
        var s1 := Reweigh(s, k, a, want[a]);
        assert SameFaces(s, s1);
        MergeFaces(s1, k, want, todo - {a}, arp);
        FacesThen(s, s1, Merge(s1, k, want, todo - {a}, arp).s);
      } else {
        var r := AddMember(s, k, a, want[a], arp);
        if r.Some? {
          AddMemberFaces(s, k, a, want[a], arp);
          MergeFaces(r.value, k, want, todo - {a}, arp);
          FacesThen(s, r.value, Merge(r.value, k, want, todo - {a}, arp).s);
        }
      }
    }
  }

  lemma {:induction false} ReleaseAllFaces(s: Lb, todo: set<U32>)
    requires Ranged(s.t)
    ensures ReleaseAll(s, todo).vips == s.vips && ReleaseAll(s, todo).t.k.maps.vipMap == s.t.k.maps.vipMap
    decreases todo
  {
    if todo != {} {
      var a := Least(todo);
      ReleaseShows(s.t, a);
      ReleaseAllFaces(ReleaseOne(s, a), todo - {a});
    }
  }

  // ---- one VIP

  /**
   The configured VIP after its turn: its flags are the configured ones; the VIP map shows it if it
   was new, was shown before, or had its flags changed, and not otherwise.
   */
  ghost predicate FaceDone(s: Lb, s': Lb, vc: VipConfig) {
    var k := vc.spec;
    && k in s'.vips && s'.vips[k].noConntrack == vc.noConntrack
    && if k !in s.vips || s.vips[k].noConntrack != vc.noConntrack
       then k in s'.t.k.maps.vipMap && s'.t.k.maps.vipMap[k] == VipValue(s'.vips[k].id, vc.noConntrack)
       else SameAt(s.t.k.maps.vipMap, s'.t.k.maps.vipMap, k)
  }

  lemma ReflagFace(s: Lb, s1: Lb, vc: VipConfig)
    requires vc.spec in s.vips && s1 == Reflag(s, vc.spec, vc.noConntrack)
    ensures FaceDone(s, s1, vc) && forall j :: j != vc.spec ==> FaceAt(s, s1, j)
  {
  }

  lemma RemoveFaces(s: Lb, k: VipSpec, gone: set<U32>)
    requires k in s.vips
    ensures SameFaces(s, RemoveMembers(s, k, gone))
  {
  }

  lemma FinishFaces(s: Lb, k: VipSpec, changed: bool, gone: set<U32>, h: Hashes)
    requires Ranged(s.t) && k in s.vips
    ensures SameFaces(s, ReleaseAll(if changed then Rebuild(s, k, h) else s, gone))
  {
    RebuildFaces(s, k, h);
    ReleaseAllFaces(if changed then Rebuild(s, k, h) else s, gone);
  }

  lemma DoneThen(s: Lb, s1: Lb, s2: Lb, vc: VipConfig)
    requires FaceDone(s, s1, vc) && (forall j :: j != vc.spec ==> FaceAt(s, s1, j)) && SameFaces(s1, s2)
    ensures FaceDone(s, s2, vc) && forall j :: j != vc.spec ==> FaceAt(s, s2, j)
  {
    assert FaceAt(s1, s2, vc.spec);
    forall j | j != vc.spec
      ensures FaceAt(s, s2, j)
    {
      assert FaceAt(s, s1, j) && FaceAt(s1, s2, j);
    }
  }

  lemma ReloadVipFace(s: Lb, vc: VipConfig, hashChanged: bool, arp: map<U32, Mac>, h: Hashes)
    requires Ranged(s.t) && vc.spec in s.vips
    ensures var s' := ReloadVip(s, vc, hashChanged, arp, h).s;
            FaceDone(s, s', vc) && forall j :: j != vc.spec ==> FaceAt(s, s', j)
  {
    var s1, s2 := Reflag(s, vc.spec, vc.noConntrack), Prune(s, vc);
    ReflagFace(s, s1, vc);
    RemoveFaces(s1, vc.spec, Gone(s, vc));
    MergeFaces(s2, vc.spec, Want(vc), Want(vc).Keys, arp);
    var d := Merge(s2, vc.spec, Want(vc), Want(vc).Keys, arp);
    FacesThen(s1, s2, d.s);
    if d.ok {
      FinishFaces(d.s, vc.spec, RingChanges(s.vips[vc.spec], Want(vc), hashChanged), Gone(s, vc), h);
      FacesThen(s1, d.s, ReloadVip(s, vc, hashChanged, arp, h).s);
    }
    DoneThen(s, s1, ReloadVip(s, vc, hashChanged, arp, h).s, vc);
  }

  lemma EnterFace(s: Lb, k: VipSpec, noConntrack: bool)
    requires Enter(s, k, noConntrack).Some?
    ensures var s1 := Enter(s, k, noConntrack).value;
            && k in s1.vips && s1.vips[k].noConntrack == noConntrack && s1.t.k.maps.vipMap == s.t.k.maps.vipMap
            && forall j :: j != k ==> FaceAt(s, s1, j)
  {
  }

  lemma PublishFace(s: Lb, s2: Lb, vc: VipConfig, h: Hashes)
    requires vc.spec !in s.vips && vc.spec in s2.vips && s2.vips[vc.spec].noConntrack == vc.noConntrack
    requires forall j :: j != vc.spec ==> FaceAt(s, s2, j)
    ensures var s' := SendVip(Rebuild(s2, vc.spec, h), vc.spec);
            FaceDone(s, s', vc) && forall j :: j != vc.spec ==> FaceAt(s, s', j)
  {
    var k, s3 := vc.spec, Rebuild(s2, vc.spec, h);
    RebuildFaces(s2, k, h);
    var s' := SendVip(s3, k);
    assert FaceAt(s2, s3, k);
    forall j | j != k
      ensures FaceAt(s, s', j)
    {
      assert FaceAt(s, s2, j) && FaceAt(s2, s3, j);
    }
  }

  lemma CreateVipFace(s: Lb, vc: VipConfig, arp: map<U32, Mac>, h: Hashes)
    requires Ranged(s.t) && vc.spec !in s.vips && CreateVip(s, vc.spec, vc.noConntrack, Want(vc), arp, h).ok
    ensures var s' := CreateVip(s, vc.spec, vc.noConntrack, Want(vc), arp, h).s;
            FaceDone(s, s', vc) && forall j :: j != vc.spec ==> FaceAt(s, s', j)
  {
    var k := vc.spec;
    EnterFace(s, k, vc.noConntrack);
    var s1 := Enter(s, k, vc.noConntrack).value;
    RangedSame(s.t, s1.t);
    MergeFaces(s1, k, Want(vc), Want(vc).Keys, arp);
    var s2 := Merge(s1, k, Want(vc), Want(vc).Keys, arp).s;
    assert FaceAt(s1, s2, k);
    forall j | j != k
      ensures FaceAt(s, s2, j)
    {
      assert FaceAt(s, s1, j) && FaceAt(s1, s2, j);
    }
    PublishFace(s, s2, vc, h);
  }

  lemma ApplyVipFace(s: Lb, vc: VipConfig, hashChanged: bool, arp: map<U32, Mac>, h: Hashes)
    requires Ranged(s.t) && ApplyVip(s, vc, hashChanged, arp, h).ok
    ensures var s' := ApplyVip(s, vc, hashChanged, arp, h).s;
            FaceDone(s, s', vc) && forall j :: j != vc.spec ==> FaceAt(s, s', j)
  {
    if vc.spec in s.vips {
      ReloadVipFace(s, vc, hashChanged, arp, h);
    } else {
      CreateVipFace(s, vc, arp, h);
    }
  }

  // ---- all of them

  datatype Side = Configured | Others

  ghost predicate FacesOn(s: Lb, s': Lb, vcs: seq<VipConfig>, n: nat, x: Side)
    requires n <= |vcs|
  {
    match x
    case Configured => forall i :: 0 <= i < n ==> FaceDone(s, s', vcs[i])
    case Others => forall j :: j !in SpecsTo(vcs, n) ==> FaceAt(s, s', j)
  }

  /** The first n VIPs of the configuration have had their turn, the others are as before. */
  ghost predicate FacesDone(s: Lb, s': Lb, vcs: seq<VipConfig>, n: nat)
    requires n <= |vcs|
  {
    forall x: Side {:trigger FacesOn(s, s', vcs, n, x)} :: FacesOn(s, s', vcs, n, x)
  }

  lemma FacesMean(s: Lb, s': Lb, vcs: seq<VipConfig>, n: nat)
    requires n <= |vcs| && FacesDone(s, s', vcs, n)
    ensures forall i :: 0 <= i < n ==> FaceDone(s, s', vcs[i])
    ensures forall j :: j !in SpecsTo(vcs, n) ==> FaceAt(s, s', j)
  {
    assert FacesOn(s, s', vcs, n, Configured) && FacesOn(s, s', vcs, n, Others);
  }

  lemma FaceStays(s: Lb, s1: Lb, s2: Lb, vc: VipConfig)
    requires FaceDone(s, s1, vc) && FaceAt(s1, s2, vc.spec)
    ensures FaceDone(s, s2, vc)
  {
  }

  lemma FaceNow(s: Lb, s1: Lb, s2: Lb, vc: VipConfig)
    requires FaceAt(s, s1, vc.spec) && FaceDone(s1, s2, vc)
    ensures FaceDone(s, s2, vc)
  {
  }

  lemma FacesStep(s: Lb, s1: Lb, s2: Lb, vcs: seq<VipConfig>, n: nat)
    requires 0 < n <= |vcs| && DistinctSpecs(vcs) && FacesDone(s, s1, vcs, n - 1)
    requires FaceDone(s1, s2, vcs[n - 1]) && forall j :: j != vcs[n - 1].spec ==> FaceAt(s1, s2, j)
    ensures FacesDone(s, s2, vcs, n)
  {
    var m := n - 1;
    FacesMean(s, s1, vcs, m);
    SpecsNext(vcs, n);
    assert vcs[m].spec !in SpecsTo(vcs, m);
    forall i | 0 <= i < n
      ensures FaceDone(s, s2, vcs[i])
    {
      if i < m {
        FaceStays(s, s1, s2, vcs[i]);
      } else {
        FaceNow(s, s1, s2, vcs[m]);
      }
    }
    forall j | j !in SpecsTo(vcs, n)
      ensures FaceAt(s, s2, j)
    {
      assert FaceAt(s, s1, j) && FaceAt(s1, s2, j);
    }
  }

  lemma FacesNone(s: Lb, vcs: seq<VipConfig>, hashChanged: bool, arp: map<U32, Mac>, h: Hashes)
    requires Ranged(s.t)
    ensures ApplyVips(s, vcs, 0, hashChanged, arp, h) == Done(s, true) && FacesDone(s, s, vcs, 0)
  {
  }

  lemma FacesTurn(s: Lb, s1: Lb, d: Done, vcs: seq<VipConfig>, n: nat, hashChanged: bool, arp: map<U32, Mac>, h: Hashes)
    requires Ranged(s1.t) && 0 < n <= |vcs| && DistinctSpecs(vcs) && FacesDone(s, s1, vcs, n - 1)
    requires d == ApplyVip(s1, vcs[n - 1], hashChanged, arp, h) && d.ok
    ensures FacesDone(s, d.s, vcs, n)
  {
    ApplyVipFace(s1, vcs[n - 1], hashChanged, arp, h);
    FacesStep(s, s1, d.s, vcs, n);
  }

  lemma FacesNext(s: Lb, d: Done, d': Done, vcs: seq<VipConfig>, n: nat, hashChanged: bool, arp: map<U32, Mac>,
                  h: Hashes)
    requires Ranged(s.t) && 0 < n <= |vcs| && DistinctSpecs(vcs) && d == ApplyVips(s, vcs, n - 1, hashChanged, arp, h)
    requires d' == ApplyVips(s, vcs, n, hashChanged, arp, h) && (d.ok ==> FacesDone(s, d.s, vcs, n - 1))
    ensures d'.ok ==> FacesDone(s, d'.s, vcs, n)
  {
    if d'.ok {
      assert d.ok && d' == ApplyVip(d.s, vcs[n - 1], hashChanged, arp, h);
      FacesTurn(s, d.s, d', vcs, n, hashChanged, arp, h);
    }
  }

  lemma {:induction false} ApplyVipsFaces(s: Lb, vcs: seq<VipConfig>, n: nat, hashChanged: bool, arp: map<U32, Mac>,
                                          h: Hashes, d: Done)
    requires Ranged(s.t) && n <= |vcs| && DistinctSpecs(vcs) && d == ApplyVips(s, vcs, n, hashChanged, arp, h)
    ensures d.ok ==> FacesDone(s, d.s, vcs, n)
    decreases n
  {
    if n == 0 {
      FacesNone(s, vcs, hashChanged, arp, h);
    } else {
      var d1 := ApplyVips(s, vcs, n - 1, hashChanged, arp, h);
      ApplyVipsFaces(s, vcs, n - 1, hashChanged, arp, h, d1);
      FacesNext(s, d1, d, vcs, n, hashChanged, arp, h);
    }
  }

  lemma WithdrawMaps(s: Lb, s1: Lb, k: VipSpec)
    requires k in s.vips && s1 == Forget(Send(Send(s, Write.DelVip(k)), DelRing(s.vips[k].id)), k)
    ensures s1.vips == s.vips - {k} && s1.t.k.maps.vipMap == s.t.k.maps.vipMap - {k}
  {
  }

  lemma WithdrawFace(s: Lb, s1: Lb, k: VipSpec)
    requires s1.vips == s.vips - {k} && s1.t.k.maps.vipMap == s.t.k.maps.vipMap - {k}
    ensures forall j :: j != k ==> FaceAt(s, s1, j)
  {
  }

  lemma DeleteVipFace(s: Lb, k: VipSpec, s': Lb)
    requires Ranged(s.t) && s' == DeleteVip(s, k)
    ensures k !in s'.vips && (k in s.vips ==> k !in s'.t.k.maps.vipMap) && (k !in s.vips ==> s' == s)
    ensures forall j :: j != k ==> FaceAt(s, s', j)
  {
    if k in s.vips {
      var s1 := Forget(Send(Send(s, Write.DelVip(k)), DelRing(s.vips[k].id)), k);
      WithdrawMaps(s, s1, k);
      WithdrawFace(s, s1, k);
      ReleaseAllFaces(s1, s.vips[k].members.Keys);
      forall j | j != k
        ensures FaceAt(s, s', j)
      {
        assert FaceAt(s, s1, j);
      }
    }
  }

  lemma {:induction false} DeleteAllFaces(s: Lb, todo: set<VipSpec>)
    requires Ranged(s.t)
    ensures var s' := DeleteAll(s, todo);
            && (forall j :: j !in todo ==> FaceAt(s, s', j))
            && (forall j :: j in todo ==>
                  j !in s'.vips && (j in s'.t.k.maps.vipMap <==> j in s.t.k.maps.vipMap && j !in s.vips))
    decreases todo
  {
    if todo != {} {
      var k := First(todo);
      var s1, s' := DeleteVip(s, k), DeleteAll(s, todo);
      DeleteVipFace(s, k, s1);
      DeleteAllFaces(s1, todo - {k});
      forall j
        ensures j !in todo ==> FaceAt(s, s', j)
        ensures j in todo ==> j !in s'.vips && (j in s'.t.k.maps.vipMap <==> j in s.t.k.maps.vipMap && j !in s.vips)
      {
        if j != k {
          assert FaceAt(s, s1, j);
        }
        if j !in todo - {k} {
          assert FaceAt(s1, s', j);
        }
      }
    }
  }

  /** The VIP map after a completed reload from s to s', entry by entry. */
  ghost predicate FacesAfter(s: Lb, s': Lb, c: Config) {
    && (forall i :: 0 <= i < |c.vips| ==> FaceDone(s, s', c.vips[i]))
    && (forall j :: j !in Specs(c) ==> (j in s'.t.k.maps.vipMap <==> j in s.t.k.maps.vipMap && j !in s.vips))
  }

  lemma Composed(s: Lb, s2: Lb, s': Lb, c: Config)
    requires FacesDone(s2, s', c.vips, |c.vips|) && (forall j :: j in Specs(c) ==> FaceAt(s, s2, j))
    requires forall j :: j !in Specs(c) ==> (j in s2.t.k.maps.vipMap <==> j in s.t.k.maps.vipMap && j !in s.vips)
    ensures FacesAfter(s, s', c)
  {
    FacesMean(s2, s', c.vips, |c.vips|);
    assert SpecsTo(c.vips, |c.vips|) == Specs(c);
    forall i | 0 <= i < |c.vips|
      ensures FaceDone(s, s', c.vips[i])
    {
      assert c.vips[i].spec in Specs(c);
      assert FaceAt(s, s2, c.vips[i].spec) && FaceDone(s2, s', c.vips[i]);
      FaceNow(s, s2, s', c.vips[i]);
    }
    forall j | j !in Specs(c)
      ensures j in s'.t.k.maps.vipMap <==> j in s.t.k.maps.vipMap && j !in s.vips
    {
      assert FaceAt(s2, s', j);
    }
  }

  lemma PrunedFaces(s: Lb, s2: Lb, c: Config, lbMac: Mac)
    requires Ranged(s.t) && s2 == DeleteAll(Configure(s, c, lbMac), s.vips.Keys - Specs(c))
    ensures forall j :: j in Specs(c) ==> FaceAt(s, s2, j)
    ensures forall j :: j !in Specs(c) ==> (j in s2.t.k.maps.vipMap <==> j in s.t.k.maps.vipMap && j !in s.vips)
  {
    var s1 := Configure(s, c, lbMac);
    var gone := s.vips.Keys - Specs(c);
    DeleteAllFaces(s1, gone);
    forall j
      ensures j in Specs(c) ==> FaceAt(s, s2, j)
      ensures j !in Specs(c) ==> (j in s2.t.k.maps.vipMap <==> j in s.t.k.maps.vipMap && j !in s.vips)
    {
      if j !in gone {
        assert FaceAt(s1, s2, j);
      }
    }
  }

  lemma ReloadFaces(s: Lb, c: Config, lbMac: Mac, arp: map<U32, Mac>, h: Hashes)
    requires Ranged(s.t) && DistinctSpecs(c.vips) && Reload(s, c, lbMac, arp, h).ok
    ensures FacesAfter(s, Reload(s, c, lbMac, arp, h).s, c)
  {
    var s2 := DeleteAll(Configure(s, c, lbMac), s.vips.Keys - Specs(c));
    PrunedFaces(s, s2, c, lbMac);
    ApplyVipsFaces(s2, c.vips, |c.vips|, s.hash != c.hash, arp, h, Reload(s, c, lbMac, arp, h));
    Composed(s, s2, Reload(s, c, lbMac, arp, h).s, c);
  }
}
