/**
 What an unsafe reload leaves, and what becomes of it: between any two calls of any run the maps are safe
 but for VIPs without a ring, so the next daemon's start puts them right.
 */
module Aftermath {
  import opened Basics
  import opened BuildMaglev
  import opened Maps
  import opened Reals
  import opened Health
  import opened LbModel
  import opened Control
  import opened Calls
  import opened ControlLaws
  import opened MemberLaws
  import opened OpLaws
  import opened Capacity
  import opened ApplyLaws
  import opened Convergence
  import opened Evolution
  import opened Akin
  import opened Published
  import opened Soundness
  import opened Lifetimes
  import opened Repair

  /** The VIP map shows no VIP under an id it does not have. */
  ghost predicate Truthful(s: Lb, j: VipSpec) {
    j in s.t.k.maps.vipMap ==> j in s.vips && s.vips[j].id == s.t.k.maps.vipMap[j].id
  }

  ghost predicate IdsShown(s: Lb) {
    forall j :: Truthful(s, j)
  }

  lemma FacesTruthful(s: Lb, s': Lb)
    requires SameFaces(s, s') && IdsShown(s)
    ensures IdsShown(s')
  {
    forall j
      ensures Truthful(s', j)
    {
      assert FaceAt(s, s', j) && Truthful(s, j);
    }
  }

  lemma SendVipShows(s: Lb, k: VipSpec)
    requires k in s.vips && IdsShown(s)
    ensures IdsShown(SendVip(s, k))
  {
    var s' := SendVip(s, k);
    forall j
      ensures Truthful(s', j)
    {
      assert Truthful(s, j);
    }
  }

  // ---- one VIP

  lemma EnterShows(s: Lb, k: VipSpec, noConntrack: bool)
    requires k !in s.vips && Enter(s, k, noConntrack).Some? && IdsShown(s)
    ensures IdsShown(Enter(s, k, noConntrack).value)
  {
    var s1 := Enter(s, k, noConntrack).value;
    EnterFace(s, k, noConntrack);
    assert Truthful(s, k);
    forall j
      ensures Truthful(s1, j)
    {
      assert Truthful(s, j);
      assert j != k ==> FaceAt(s, s1, j);
    }
  }

  lemma MadeShows(d: Done, k: VipSpec, h: Hashes)
    requires k in d.s.vips && IdsShown(d.s)
    ensures IdsShown(Made(d, k, h).s)
  {
    if d.ok {
      RebuildFaces(d.s, k, h);
      FacesTruthful(d.s, Rebuild(d.s, k, h));
      SendVipShows(Rebuild(d.s, k, h), k);
    }
  }

  lemma CreateShows(s: Lb, k: VipSpec, noConntrack: bool, want: map<U32, U32>, arp: map<U32, Mac>, h: Hashes)
    requires Ranged(s.t) && k !in s.vips && IdsShown(s)
    ensures IdsShown(CreateVip(s, k, noConntrack, want, arp, h).s)
  {
    var r := Enter(s, k, noConntrack);
    if r.Some? {
      RangedSame(s.t, r.value.t);
      EnterShows(s, k, noConntrack);
      MergeFaces(r.value, k, want, want.Keys, arp);
      var d := Merge(r.value, k, want, want.Keys, arp);
      FacesTruthful(r.value, d.s);
      CreateIs(s, r.value, k, noConntrack, want, arp, h);
      MadeShows(d, k, h);
    }
  }

  lemma ReflagShows(s: Lb, k: VipSpec, noConntrack: bool)
    requires k in s.vips && IdsShown(s)
    ensures IdsShown(Reflag(s, k, noConntrack))
  {
    if s.vips[k].noConntrack != noConntrack {
      var s1 := s.(vips := s.vips[k := s.vips[k].(noConntrack := noConntrack)]);
      forall j
        ensures Truthful(s1, j)
      {
        assert Truthful(s, j);
      }
      SendVipShows(s1, k);
    }
  }

  lemma ReloadVipShows(s: Lb, vc: VipConfig, hashChanged: bool, arp: map<U32, Mac>, h: Hashes)
    requires Ranged(s.t) && vc.spec in s.vips && IdsShown(s)
    ensures IdsShown(ReloadVip(s, vc, hashChanged, arp, h).s)
  {
    var k, s1, s2 := vc.spec, Reflag(s, vc.spec, vc.noConntrack), Prune(s, vc);
    ReflagShows(s, k, vc.noConntrack);
    RemoveFaces(s1, k, Gone(s, vc));
    MergeFaces(s2, k, Want(vc), Want(vc).Keys, arp);
    var d := Merge(s2, k, Want(vc), Want(vc).Keys, arp);
    FacesTruthful(s1, s2);
    FacesTruthful(s2, d.s);
    if d.ok {
      FinishFaces(d.s, k, RingChanges(s.vips[k], Want(vc), hashChanged), Gone(s, vc), h);
      FacesTruthful(d.s, ReloadVip(s, vc, hashChanged, arp, h).s);
    }
  }

  lemma ApplyVipShows(s: Lb, vc: VipConfig, hashChanged: bool, arp: map<U32, Mac>, h: Hashes)
    requires Ranged(s.t) && IdsShown(s)
    ensures IdsShown(ApplyVip(s, vc, hashChanged, arp, h).s)
  {
    if vc.spec in s.vips {
      ReloadVipShows(s, vc, hashChanged, arp, h);
    } else {
      CreateShows(s, vc.spec, vc.noConntrack, Want(vc), arp, h);
    }
  }

  lemma DeleteShows(s: Lb, k: VipSpec)
    requires Ranged(s.t) && IdsShown(s)
    ensures IdsShown(DeleteVip(s, k))
  {
    var s' := DeleteVip(s, k);
    DeleteVipFace(s, k, s');
    forall j
      ensures Truthful(s', j)
    {
      assert Truthful(s, j);
      assert j != k ==> FaceAt(s, s', j);
    }
  }

  lemma {:induction false} DeleteAllShows(s: Lb, todo: set<VipSpec>)
    requires Ranged(s.t) && IdsShown(s)
    ensures IdsShown(DeleteAll(s, todo))
    decreases todo
  {
    if todo != {} {
      DeleteShows(s, First(todo));
      DeleteAllShows(DeleteVip(s, First(todo)), todo - {First(todo)});
    }
  }

  // ---- a reload

  lemma TurnShows(d: Done, d': Done, vc: VipConfig, hashChanged: bool, arp: map<U32, Mac>, h: Hashes)
    requires Ranged(d.s.t) && IdsShown(d.s) && d' == if d.ok then ApplyVip(d.s, vc, hashChanged, arp, h) else d
    ensures IdsShown(d'.s)
  {
    if d.ok {
      ApplyVipShows(d.s, vc, hashChanged, arp, h);
    }
  }

  lemma {:induction false} TurnsShow(turns: seq<Done>, s: Lb, vcs: seq<VipConfig>, n: nat, hashChanged: bool,
                                     arp: map<U32, Mac>, h: Hashes)
    requires n <= |vcs| && IsTurns(turns, s, vcs, hashChanged, arp, h) && IdsShown(s)
    ensures IdsShown(turns[n].s)
  {
    if n > 0 {
      TurnsShow(turns, s, vcs, n - 1, hashChanged, arp, h);
      assert TurnAt(turns, vcs, n - 1, hashChanged, arp, h);
      TurnShows(turns[n - 1], turns[n], vcs[n - 1], hashChanged, arp, h);
    }
  }

  lemma ConfigureShows(s: Lb, c: Config, lbMac: Mac)
    requires IdsShown(s)
    ensures IdsShown(Configure(s, c, lbMac))
  {
    var s1 := Configure(s, c, lbMac);
    forall j
      ensures Truthful(s1, j)
    {
      assert Truthful(s, j);
    }
  }

  lemma ReloadShows(s: Lb, c: Config, lbMac: Mac, arp: map<U32, Mac>, h: Hashes)
    requires Ranged(s.t) && IdsShown(s)
    ensures IdsShown(Reload(s, c, lbMac, arp, h).s)
  {
    var s1 := Configure(s, c, lbMac);
    ConfigureShows(s, c, lbMac);
    RangedSame(s.t, s1.t);
    DeleteAllShows(s1, s1.vips.Keys - Specs(c));
    ReloadIsTurns(s, c, lbMac, arp, h);
    TurnsShow(ReloadTurns(s, c, lbMac, arp, h), Pruned(s, c, lbMac), c.vips, |c.vips|, s.hash != c.hash, arp, h);
  }

  // ---- the other calls

  lemma EditShows(s: Lb, k: VipSpec, v: Vip, h: Hashes)
    requires k in s.vips && v.id == s.vips[k].id && IdsShown(s)
    ensures IdsShown(s.(vips := s.vips[k := v])) && IdsShown(Rebuild(s.(vips := s.vips[k := v]), k, h))
  {
    var s1 := s.(vips := s.vips[k := v]);
    forall j
      ensures Truthful(s1, j)
    {
      assert Truthful(s, j);
    }
    RebuildFaces(s1, k, h);
    FacesTruthful(s1, Rebuild(s1, k, h));
  }

  lemma AddRealShows(s: Lb, k: VipSpec, addr: U32, weight: U32, arp: map<U32, Mac>, h: Hashes)
    requires Ranged(s.t) && IdsShown(s)
    ensures IdsShown(AddReal(s, k, addr, weight, arp, h).s)
  {
    var d := AddReal(s, k, addr, weight, arp, h);
    if d.ok {
      var s1 := AddMember(s, k, addr, weight, arp).value;
      AddMemberFaces(s, k, addr, weight, arp);
      RebuildFaces(s1, k, h);
      FacesTruthful(s, s1);
      FacesTruthful(s1, d.s);
    }
  }

  lemma DelRealShows(s: Lb, k: VipSpec, addr: U32, h: Hashes)
    requires Ranged(s.t) && IdsShown(s)
    ensures IdsShown(DelReal(s, k, addr, h).s)
  {
    if k in s.vips && addr in s.vips[k].members {
      var s1 := RemoveMembers(s, k, {addr});
      RemoveFaces(s, k, {addr});
      FinishFaces(s1, k, true, {addr}, h);
      ReleaseSingle(Rebuild(s1, k, h), addr);
      FacesTruthful(s, s1);
      FacesTruthful(s1, DelReal(s, k, addr, h).s);
    }
  }

  lemma MemberCallShows(s: Lb, call: Call, h: Hashes)
    requires Ranged(s.t) && IdsShown(s) && (call.op.WeightOp? || call.op.DrainOp? || call.op.HealthOp?)
    ensures IdsShown(Step(s, call, h))
  {
    match call.op
    case WeightOp(k, addr, weight) =>
      if k in s.vips && addr in s.vips[k].members {
        EditShows(s, k, Reweigh(s, k, addr, weight).vips[k], h);
      }
    case DrainOp(k, addr, draining) =>
      if k in s.vips && addr in s.vips[k].members {
        EditShows(s, k, Redrain(s, k, addr, draining).vips[k], h);
      }
    case HealthOp(x, p, rise, fall) =>
      if Counts(s, x, p) {
        ReportShows(s, x, p, rise, fall, h);
      }
  }

  lemma ReportShows(s: Lb, x: Target, p: Probe, rise: U32, fall: U32, h: Hashes)
    requires Ranged(s.t) && IdsShown(s) && Counts(s, x, p)
    ensures IdsShown(ReportHealth(s, x, p, rise, fall, h))
  {
    var s1 := Noted(s, x, Report(p.ok, rise, fall));
    EditShows(s, x.vip, s1.vips[x.vip], h);
    forall j
      ensures Truthful(s1, j)
    {
      assert Truthful(s.(vips := s1.vips), j);
    }
    RebuildFaces(s1, x.vip, h);
    FacesTruthful(s1, Rebuild(s1, x.vip, h));
  }

  lemma {:induction false} SetMacsShow(s: Lb, todo: set<U32>, mac: Mac)
    requires Ranged(s.t) && IdsShown(s)
    ensures IdsShown(SetMacs(s, todo, mac))
    decreases todo
  {
    if todo != {} {
      var a := Least(todo);
      var s1 := s.(t := SetMac(s.t, a, mac));
      forall j
        ensures Truthful(s1, j)
      {
        assert Truthful(s, j);
      }
      SetMacsShow(s1, todo - {a}, mac);
    }
  }

  lemma {:induction false} RebuildAllShows(s: Lb, todo: set<VipSpec>, h: Hashes)
    requires Ranged(s.t) && todo <= s.vips.Keys && IdsShown(s)
    ensures IdsShown(RebuildAll(s, todo, h))
    decreases todo
  {
    if todo != {} {
      var k := First(todo);
      RebuildFaces(s, k, h);
      FacesTruthful(s, Rebuild(s, k, h));
      RebuildAllShows(Rebuild(s, k, h), todo - {k}, h);
    }
  }

  lemma NeighborShows(s: Lb, ip: U32, mac: Mac, h: Hashes)
    requires Ranged(s.t) && IdsShown(s)
    ensures IdsShown(NeighborResolved(s, ip, mac, h))
  {
    SetMacsShow(s, Behind(s, ip), mac);
    var s1 := SetMacs(s, Behind(s, ip), mac);
    RebuildAllShows(s1, HoldingAny(s1, Unresolved(s, Behind(s, ip))), h);
  }

  lemma VipCallShows(s: Lb, call: Call, h: Hashes)
    requires Ranged(s.t) && IdsShown(s) && (call.op.AddVipOp? || call.op.DelVipOp?)
    ensures IdsShown(Step(s, call, h))
  {
    match call.op
    case AddVipOp(k, noConntrack) =>
      if k !in s.vips {
        CreateShows(s, k, noConntrack, map[], call.arp, h);
      }
    case DelVipOp(k) => DeleteShows(s, k);
  }

  lemma RealCallShows(s: Lb, call: Call, h: Hashes)
    requires Ranged(s.t) && IdsShown(s) && (call.op.AddRealOp? || call.op.DelRealOp? || call.op.NeighborOp?)
    ensures IdsShown(Step(s, call, h))
  {
    match call.op
    case AddRealOp(k, addr, weight) => AddRealShows(s, k, addr, weight, call.arp, h);
    case DelRealOp(k, addr) => DelRealShows(s, k, addr, h);
    case NeighborOp(ip, mac) => NeighborShows(s, ip, mac, h);
  }

  /** Every call keeps the ids the VIP map shows right, without exception. */
  lemma StepShows(s: Lb, call: Call, h: Hashes)
    requires Ranged(s.t) && IdsShown(s)
    ensures IdsShown(Step(s, call, h))
  {
    if call.op.ReloadOp? {
      ReloadShows(s, call.op.c, call.op.lbMac, call.arp, h);
    } else if call.op.AddVipOp? || call.op.DelVipOp? {
      VipCallShows(s, call, h);
    } else if call.op.AddRealOp? || call.op.DelRealOp? || call.op.NeighborOp? {
      RealCallShows(s, call, h);
    } else {
      MemberCallShows(s, call, h);
    }
  }

  lemma NextShows(run: seq<Lb>, calls: seq<Call>, n: nat, h: Hashes)
    requires IsRun(run, calls, h) && n < |calls| && IdsShown(run[n])
    ensures IdsShown(run[n + 1])
  {
    assert StepAt(run, calls, n, h);
    StepShows(run[n], calls[n], h);
  }

  lemma {:induction false} RunShows(run: seq<Lb>, calls: seq<Call>, n: nat, h: Hashes)
    requires IsRun(run, calls, h) && IdsShown(run[0]) && n <= |calls|
    ensures IdsShown(run[n])
  {
    if n > 0 {
      RunShows(run, calls, n - 1, h);
      NextShows(run, calls, n - 1, h);
    }
  }

  // ---- what the maps are like

  lemma GoodShows(s: Lb)
    requires Good(s)
    ensures IdsShown(s)
  {
    assert Holds(s, IdsPart) && Holds(s, LivePart);
    forall j
      ensures Truthful(s, j)
    {
    }
  }

  lemma SameOwned(g: Lb, s: Lb, id: nat)
    requires Alike(g, s) && Owned(s, id)
    ensures Owned(g, id)
  {
    Means(g, s);
    var k :| k in s.vips && s.vips[k].id == id && s.vips[k].generation > 0;
    assert SameVip(g.vips, s.vips, k);
  }

  lemma WholeRing(g: Lb, s: Lb, k: VipSpec)
    requires Good(g) && Alike(g, s) && AllOwned(s) && k in s.vips
    ensures s.vips[k].id < MAX_VIPS && WholeIfThere(s.t.k.maps, s.vips[k].id)
  {
    Means(g, s);
    assert SameVip(g.vips, s.vips, k);
    assert Holds(g, IdsPart);
    var id := s.vips[k].id;
    if id in s.t.k.maps.rings {
      assert Owned(s, id);
      SameOwned(g, s, id);
      assert Traced(g, g.leak, k);
      SameReals(g.t.k.maps, s.t.k.maps, g.t.k.maps.rings[id]);
    }
  }

  lemma ShownDistinct(g: Lb, s: Lb)
    requires Good(g) && Alike(g, s) && IdsShown(s)
    ensures DistinctIds(s.t.k.maps)
  {
    Means(g, s);
    assert Holds(g, IdsPart);
    var m := s.t.k.maps;
    forall j, k | j in m.vipMap && k in m.vipMap && j != k
      ensures m.vipMap[j].id != m.vipMap[k].id
    {
      assert Truthful(s, j) && Truthful(s, k) && SameVip(g.vips, s.vips, j) && SameVip(g.vips, s.vips, k);
    }
  }

  /** The maps of a sound daemon that shows the right ids are safe but for VIPs without a ring. */
  lemma SoundIsSafeButRings(s: Lb)
    requires Sound(s) && AllOwned(s) && IdsShown(s)
    ensures SafeButRings(s.t.k.maps)
  {
    var g :| Good(g) && Alike(g, s);
    Means(g, s);
    assert TabOk(g.t) by { assert Holds(g, TablePart); }
    var m := s.t.k.maps;
    assert DistinctReals(m) by {
      forall i: nat, j: nat | i < j < |m.reals|
        ensures Differ(m, i, j)
      {
        assert Differ(g.t.k.maps, i, j);
      }
    }
    ShownDistinct(g, s);
    forall k | k in m.vipMap
      ensures m.vipMap[k].id < MAX_VIPS && WholeIfThere(m, m.vipMap[k].id)
    {
      assert Truthful(s, k);
      WholeRing(g, s, k);
    }
  }

  /**
   Whatever a daemon's calls are and whatever fails, unsafe reloads included: after each of them the maps
   are safe but for VIPs without a ring.
   */
  lemma RunIsSafeButRings(run: seq<Lb>, calls: seq<Call>, n: nat, h: Hashes)
    requires IsRun(run, calls, h) && Good(run[0]) && AllOwned(run[0]) && AllWellFormed(calls) && n <= |calls|
    ensures SafeButRings(run[n].t.k.maps)
  {
    GoodIsSound(run[0]);
    RunIsSound(run, calls, n, h);
    RunEvolves(run, calls, 0, n, h);
    StaysOwned(run[0], run[n]);
    GoodShows(run[0]);
    RunShows(run, calls, n, h);
    SoundIsSafeButRings(run[n]);
  }

  /**
   So a daemon that ends between two calls, all its VIPs ringed or not, is followed by one that puts the
   maps right.
   */
  lemma NextStartRepairs(run: seq<Lb>, calls: seq<Call>, n: nat, c: Config, lbMac: Mac, arp: map<U32, Mac>, h: Hashes)
    requires IsRun(run, calls, h) && Good(run[0]) && AllOwned(run[0]) && AllWellFormed(calls) && n <= |calls|
    requires DistinctSpecs(c.vips) && MacsOk(arp)
    ensures |run[n].t.k.maps.reals| == |run[n].t.k.maps.neigh| == MAX_REALS
    ensures var d := Start(Fresh(run[n].t.k), c, lbMac, arp, h);
            && (d.ok <==> Room(Adopt(run[n].t.k).byAddr.Keys + AllReals(c))
                          && AtMost(run[n].t.k.maps.vipMap.Keys + Specs(c), MAX_VIPS))
            && (d.ok ==> MapsSafe(d.s.t.k.maps) && Sound(d.s) && AllSteady(d.s, h) && Conforms(d.s, c))
  {
    RunIsSafeButRings(run, calls, n, h);
    StartRepairs(run[n].t.k, c, lbMac, arp, h);
  }
}
