/**
 The other thing a reload that runs out of ids leaves: a VIP that has lost a member, whose ring still
 sends to it. The next reload finds nothing to do.
 */
module LeftBehind {
  import opened Basics
  import opened BuildMaglev
  import opened Ring
  import opened Maps
  import opened Reals
  import opened LbModel
  import opened Control
  import opened ControlLaws
  import opened MemberLaws
  import opened OpLaws
  import opened VipLaws
  import opened ReloadLaws
  import opened ApplyLaws
  import opened Convergence
  import opened Hitless
  import opened Completeness
  import opened ConfigCheck
  import opened Unfinished

  // ---- the start: of the 511 reals only real 1 has a MAC

  ghost predicate OnlyOne(v: Vip) {
    forall a :: a in v.members ==> (v.members[a].inRing <==> a == 1)
  }

  lemma RebuiltOnlyOne(m: Lb, k0: VipSpec, h: Hashes)
    requires k0 in m.vips && AllNew(m.vips[k0]) && KnowsOne(m, k0)
    ensures OnlyOne(SendVip(Rebuild(m, k0, h), k0).vips[k0])
  {
    var v := Rebuilt(m.vips[k0], m.t.slots, m.t.byAddr);
    forall a | a in v.members
      ensures v.members[a].inRing <==> a == 1
    {
      assert Known(m.t, a) <==> a == 1;
    }
  }

  lemma MergedNewAt(s1: Lb, d: Done, k0: VipSpec, want: map<U32, U32>, a: U32)
    requires MergeDone(s1, k0, want, want.Keys, d) && d.ok && s1.vips[k0].members == map[]
             && (forall b :: b in want ==> want[b] == 1)
    requires a in d.s.vips[k0].members
    ensures d.s.vips[k0].members[a] == NewMember(1, d.s.vips[k0].members[a].incarnation)
  {
  }

  lemma MergedKnownAt(s1: Lb, s2: Lb, k0: VipSpec, arp: map<U32, Mac>, a: U32)
    requires k0 in s1.vips && k0 in s2.vips && s1.vips[k0].members == map[] && arp.Keys == {1} && s1.nextHop == None
             && s1.t.byAddr == map[]
    requires a in s2.vips[k0].members && KnownSince(s1, s2, k0, arp, a)
    ensures Known(s2.t, a) <==> a == 1
  {
  }

  ghost predicate AllNew(v: Vip) {
    forall a :: a in v.members ==> v.members[a] == NewMember(1, v.members[a].incarnation)
  }

  ghost predicate KnowsOne(s: Lb, k0: VipSpec)
    requires k0 in s.vips
  {
    forall a :: a in s.vips[k0].members ==> (Known(s.t, a) <==> a == 1)
  }

  lemma MergedKnown(s1: Lb, s2: Lb, k0: VipSpec, arp: map<U32, Mac>)
    requires k0 in s1.vips && k0 in s2.vips && s1.vips[k0].members == map[] && arp.Keys == {1} && s1.nextHop == None
             && s1.t.byAddr == map[]
    requires Taught(s1, s2, k0, arp)
    ensures KnowsOne(s2, k0)
  {
    forall a | a in s2.vips[k0].members
      ensures Known(s2.t, a) <==> a == 1
    {
      assert KnownSince(s1, s2, k0, arp, a);
      MergedKnownAt(s1, s2, k0, arp, a);
    }
  }

  lemma MergedNew(s1: Lb, d: Done, k0: VipSpec, want: map<U32, U32>)
    requires MergeDone(s1, k0, want, want.Keys, d) && d.ok && s1.vips[k0].members == map[]
             && (forall b :: b in want ==> want[b] == 1)
    ensures AllNew(d.s.vips[k0])
  {
    forall a | a in d.s.vips[k0].members
      ensures d.s.vips[k0].members[a] == NewMember(1, d.s.vips[k0].members[a].incarnation)
    {
      MergedNewAt(s1, d, k0, want, a);
    }
  }

  lemma CreatedOnlyOne(s0: Lb, vc: VipConfig, arp: map<U32, Mac>, h: Hashes)
    requires Inv(s0) && Ranged(s0.t) && vc.spec !in s0.vips && MacsOk(arp) && arp.Keys == {1} && s0.nextHop == None
             && s0.t.byAddr == map[]
    requires (forall a :: a in Want(vc) ==> Want(vc)[a] == 1)
             && CreateVip(s0, vc.spec, vc.noConntrack, Want(vc), arp, h).ok
    ensures var s := CreateVip(s0, vc.spec, vc.noConntrack, Want(vc), arp, h).s;
            vc.spec in s.vips && OnlyOne(s.vips[vc.spec])
  {
    var k0 := vc.spec;
    EnterOk(s0, k0, vc.noConntrack);
    var s1 := Enter(s0, k0, vc.noConntrack).value;
    RangedSame(s0.t, s1.t);
    var d := Merge(s1, k0, Want(vc), Want(vc).Keys, arp);
    MergeOk(s1, k0, Want(vc), Want(vc).Keys, arp);
    MergedNew(s1, d, k0, Want(vc));
    MergeTeaches(s1, k0, Want(vc), Want(vc).Keys, arp);
    MergedKnown(s1, d.s, k0, arp);
    CreateEnds(s0, s1, d, vc, arp, h);
    RebuiltOnlyOne(d.s, k0, h);
  }

  lemma OneTurn(s: Lb, vcs: seq<VipConfig>, hashChanged: bool, arp: map<U32, Mac>, h: Hashes)
    requires Ranged(s.t) && |vcs| == 1
    ensures ApplyVips(s, vcs, |vcs|, hashChanged, arp, h) == ApplyVip(s, vcs[0], hashChanged, arp, h)
  {
    var n: nat := 0;
    assert ApplyVips(s, vcs, n, hashChanged, arp, h) == Done(s, true);
    ApplyVipsNext(s, vcs, n, hashChanged, arp, h);
  }

  lemma FirstTurn(k0: VipSpec, lbMac: Mac, arp: map<U32, Mac>, h: Hashes, s0: Lb, d: Done)
    requires PlaneSafe(BlankPlane()) && MacsOk(arp) && arp.Keys == {1}
    requires s0 == Begun(BlankPlane(), All511(k0), lbMac) && Ranged(s0.t)
             && d == ApplyVip(s0, All511(k0).vips[0], false, arp, h) && d.ok
    ensures k0 in d.s.vips && OnlyOne(d.s.vips[k0])
  {
    var vc := All511(k0).vips[0];
    BegunOk(BlankPlane(), All511(k0), lbMac);
    BlankAdopts();
    BlockWeights(vc.reals, |vc.reals|);
    CreatedOnlyOne(s0, vc, arp, h);
  }

  lemma StartIsOneTurn(k0: VipSpec, lbMac: Mac, arp: map<U32, Mac>, h: Hashes)
    requires PlaneSafe(BlankPlane()) && MacsOk(arp)
    ensures Ranged(Begun(BlankPlane(), All511(k0), lbMac).t)
    ensures var d := ApplyVip(Begun(BlankPlane(), All511(k0), lbMac), All511(k0).vips[0], false, arp, h);
            Start(Fresh(BlankPlane()), All511(k0), lbMac, arp, h) == if d.ok then Done(Cleanup(d.s), true) else d
  {
    StartIs(BlankPlane(), All511(k0), lbMac, false, arp, h);
    OneTurn(Begun(BlankPlane(), All511(k0), lbMac), All511(k0).vips, false, arp, h);
  }

  lemma StartOnlyOne(k0: VipSpec, lbMac: Mac, arp: map<U32, Mac>, h: Hashes)
    requires MacsOk(arp) && arp.Keys == {1}
    ensures PlaneSafe(BlankPlane())
    ensures var s := Start(Fresh(BlankPlane()), All511(k0), lbMac, arp, h).s;
            Loaded(s, k0, h) && OnlyOne(s.vips[k0])
  {
    StartLoads(k0, lbMac, arp, h);
    StartIsOneTurn(k0, lbMac, arp, h);
    var s0 := Begun(BlankPlane(), All511(k0), lbMac);
    var d := ApplyVip(s0, All511(k0).vips[0], false, arp, h);
    FirstTurn(k0, lbMac, arp, h, s0, d);
    CleanupVips(d.s);
  }

  lemma CleanupVips(s: Lb)
    requires Ranged(s.t)
    ensures Cleanup(s).vips == s.vips
  {
  }

  /** Its ring sends everything to real 1. */
  lemma RingOfOne(s: Lb, k0: VipSpec, h: Hashes, slot: nat)
    requires Loaded(s, k0, h) && OnlyOne(s.vips[k0]) && slot < RING_SIZE
    ensures var maps := s.t.k.maps;
            && k0 in maps.vipMap && maps.vipMap[k0].id == s.vips[k0].id && s.vips[k0].id in maps.rings
               && |maps.rings[s.vips[k0].id]| == RING_SIZE
            && 1 in s.t.byAddr && maps.rings[s.vips[k0].id][slot] == s.t.byAddr[1]
  {
    assert Steady(s, h, k0);
    var members := s.vips[k0].members;
    assert 1 in members;
    assert InRing(members).Keys == {1};
    VipRingSlot(members, s.t.byAddr, ByMaglev, h, slot);
  }

  // ---- a reload that gives up real 1 for real 1000

  function Trade(k0: VipSpec): (c: Config) {
    Conf([With(k0, false, 2, 510, [RealConfig(1000, 1)])])
  }

  function Rest(k0: VipSpec): (c: Config) {
    Conf([With(k0, false, 2, 510, [])])
  }

  lemma BothValid(k0: VipSpec)
    ensures ValidDocument(Doc(Trade(k0))) && ValidDocument(Doc(Rest(k0)))
    ensures forall a :: a in Want(Trade(k0).vips[0]) <==> 2 <= a <= 511 || a == 1000
    ensures forall a :: a in Want(Rest(k0).vips[0]) <==> 2 <= a <= 511
    ensures forall a :: a in Want(Trade(k0).vips[0]) ==> Want(Trade(k0).vips[0])[a] == 1
    ensures forall a :: a in Want(Rest(k0).vips[0]) ==> Want(Rest(k0).vips[0])[a] == 1
  {
    WithOk(k0, false, 2, 510, [RealConfig(1000, 1)]);
    WithOk(k0, false, 2, 510, []);
    OneVipValid(Trade(k0).vips[0]);
    OneVipValid(Rest(k0).vips[0]);
    BlockWeights(Trade(k0).vips[0].reals, 511);
    BlockWeights(Rest(k0).vips[0].reals, 510);
    forall a
      ensures a in Want(Trade(k0).vips[0]) <==> 2 <= a <= 511 || a == 1000
      ensures a in Want(Rest(k0).vips[0]) <==> 2 <= a <= 511
    {
      BlockWants(k0, false, 2, 510, [RealConfig(1000, 1)], a);
      BlockWants(k0, false, 2, 510, [], a);
      assert [RealConfig(1000, 1)][0].addr == 1000;
    }
  }

  lemma MergeFails(s: Lb, d: Done, vc: VipConfig, hashChanged: bool, arp: map<U32, Mac>, h: Hashes)
    requires Ranged(s.t) && vc.spec in s.vips && d == Merge(Prune(s, vc), vc.spec, Want(vc), Want(vc).Keys, arp)
             && !d.ok
    ensures ReloadVip(s, vc, hashChanged, arp, h) == d
  {
  }

  /** Members 2..511 as before, the reference to 1 still held, and no map has changed but `reals` and `neigh`. */
  ghost predicate Shrunk(s: Lb, s': Lb, k0: VipSpec) {
    && Good(s') && s'.leak == multiset{1} && s'.vips.Keys == {k0} && s'.hash == ByMaglev && s'.nextHop == None
       && k0 in s.vips
    && s'.vips[k0].id == s.vips[k0].id && s'.vips[k0].noConntrack == false
    && (forall a :: a in s'.vips[k0].members <==> 2 <= a <= 511)
    && (forall a :: a in s'.vips[k0].members ==> s'.vips[k0].members[a].weight == 1)
    && s'.t.k.maps.rings == s.t.k.maps.rings && s'.t.k.maps.vipMap == s.t.k.maps.vipMap
    && 1 in s.t.byAddr && KeepsAddr(s.t.slots, s.t.byAddr, s'.t.slots, s'.t.byAddr, 1)
  }

  lemma PruneOne(s: Lb, k0: VipSpec)
    requires Inv(s) && s.vips.Keys == {k0} && s.vips[k0].noConntrack == false && s.leak == multiset{}
    requires forall a :: a in s.vips[k0].members <==> 1 <= a <= 511
    ensures var vc, s2 := Trade(k0).vips[0], Prune(s, Trade(k0).vips[0]);
            && Gone(s, vc) == {1} && s2 == RemoveMembers(s, k0, {1}) && Inv(s2) && s2.leak == multiset{1}
  {
    BothValid(k0);
    RemoveOk(s, k0, {1});
  }

  lemma TradedMembers(v: Vip, v2: Vip, v': Vip, want: map<U32, U32>, ok: bool)
    requires v2.members == v.members - {1} && Merged(v2, v', want, want.Keys, ok) && 1000 !in v'.members
    requires (forall a :: a in v.members <==> 1 <= a <= 511) && forall a :: a in v.members ==> v.members[a].weight == 1
    requires (forall a :: a in want <==> 2 <= a <= 511 || a == 1000) && forall a :: a in want ==> want[a] == 1
    ensures !ok && (forall a :: a in v'.members <==> 2 <= a <= 511)
            && forall a :: a in v'.members ==> v'.members[a].weight == 1
  {
    assert ok ==> 1000 in v'.members;
  }

  lemma TradeMerge(s: Lb, s2: Lb, d: Done, k0: VipSpec, want: map<U32, U32>)
    requires s.vips.Keys == {k0} && s2 == RemoveMembers(s, k0, {1})
    requires (forall a :: 1 <= a <= 511 ==> a in s.t.byAddr) && forall a :: a in s.vips[k0].members <==> 1 <= a <= 511
    requires forall a :: a in s.vips[k0].members ==> s.vips[k0].members[a].weight == 1
    requires (forall a :: a in want <==> 2 <= a <= 511 || a == 1000) && forall a :: a in want ==> want[a] == 1
    requires MergeDone(s2, k0, want, want.Keys, d)
    ensures !d.ok
    ensures forall a :: a in d.s.vips[k0].members <==> 2 <= a <= 511
    ensures forall a :: a in d.s.vips[k0].members ==> d.s.vips[k0].members[a].weight == 1
  {
    NoRoomFor1000(s2, d.s, k0);
    TradedMembers(s.vips[k0], s2.vips[k0], d.s.vips[k0], want, d.ok);
  }

  lemma TradeFails(s: Lb, k0: VipSpec, arp: map<U32, Mac>, h: Hashes)
    requires Good(s) && s.vips.Keys == {k0} && s.vips[k0].noConntrack == false && s.leak == multiset{} && MacsOk(arp)
    requires s.hash == ByMaglev && s.nextHop == None
    requires (forall a :: 1 <= a <= 511 ==> a in s.t.byAddr) && forall a :: a in s.vips[k0].members <==> 1 <= a <= 511
    requires forall a :: a in s.vips[k0].members ==> s.vips[k0].members[a].weight == 1
    ensures Ranged(s.t)
    ensures var d := ReloadVip(s, Trade(k0).vips[0], false, arp, h);
            !d.ok && Shrunk(s, d.s, k0)
  {
    InvRanged(s);
    var vc, s2 := Trade(k0).vips[0], RemoveMembers(s, k0, {1});
    PruneOne(s, k0);
    BothValid(k0);
    var d := Merge(s2, k0, Want(vc), Want(vc).Keys, arp);
    MergeOk(s2, k0, Want(vc), Want(vc).Keys, arp);
    TradeMerge(s, s2, d, k0, Want(vc));
    MergeFails(s, d, vc, false, arp, h);
    ReloadVipOk(s, vc, s.hash, arp, h);
  }

  lemma ReloadOneTurn(s: Lb, c: Config, lbMac: Mac, arp: map<U32, Mac>, h: Hashes)
    requires Ranged(s.t) && |c.vips| == 1 && s.vips.Keys == {c.vips[0].spec}
    ensures var s1 := Configure(s, c, lbMac);
            Reload(s, c, lbMac, arp, h) == ReloadVip(s1, c.vips[0], s.hash != c.hash, arp, h)
  {
    assert c.vips[0].spec in Specs(c);
    NothingToPrune(s, c, lbMac);
    OneTurn(Configure(s, c, lbMac), c.vips, s.hash != c.hash, arp, h);
  }

  lemma ShrunkSince(s: Lb, s1: Lb, s': Lb, k0: VipSpec)
    requires Shrunk(s1, s', k0) && s1.vips == s.vips && s1.t == s.t.(k := s1.t.k)
    requires s1.t.k.maps.rings == s.t.k.maps.rings && s1.t.k.maps.vipMap == s.t.k.maps.vipMap
    ensures Shrunk(s, s', k0)
  {
  }

  lemma ConfigureSame(s: Lb, s1: Lb, c: Config, lbMac: Mac)
    requires s1 == Configure(s, c, lbMac)
    ensures s1.vips == s.vips && s1.t == s.t.(k := s1.t.k) && s1.leak == s.leak && s1.hash == c.hash
            && s1.nextHop == c.nextHop
    ensures s1.t.k.maps.rings == s.t.k.maps.rings && s1.t.k.maps.vipMap == s.t.k.maps.vipMap
  {
  }

  lemma TradeReload(s: Lb, k0: VipSpec, lbMac: Mac, arp: map<U32, Mac>, h: Hashes)
    requires Loaded(s, k0, h) && MacsOk(arp)
    ensures Ranged(s.t)
    ensures !Reload(s, Trade(k0), lbMac, arp, h).ok && Shrunk(s, Reload(s, Trade(k0), lbMac, arp, h).s, k0)
  {
    NeatIsGood(s, h);
    InvRanged(s);
    var c := Trade(k0);
    var s1 := Configure(s, c, lbMac);
    ConfigureGood(s, c, lbMac);
    ConfigureSame(s, s1, c, lbMac);
    ReloadOneTurn(s, c, lbMac, arp, h);
    TradeFails(s1, k0, arp, h);
    var d := ReloadVip(s1, c.vips[0], false, arp, h);
    ShrunkSince(s, s1, d.s, k0);
  }

  /** The daemon is now, to itself, as this configuration says; so a reload of it does nothing. */
  lemma ShrunkConforms(s: Lb, s': Lb, k0: VipSpec)
    requires Shrunk(s, s', k0)
    ensures Conforms(s', Rest(k0))
  {
    BothValid(k0);
    assert Rest(k0).vips[0].spec in Specs(Rest(k0));
  }

  lemma StillShown(s: Lb, id: nat)
    requires Inv(s) && 1 in s.t.byAddr && s.t.byAddr[1] == id
    ensures id < |s.t.k.maps.reals| && s.t.k.maps.reals[id] == 1
  {
    assert Holds(s, TablePart);
    assert AddrOk(s.t.slots, s.t.byAddr, 1) && SlotShown(s.t.slots[id], s.t.k.maps, id);
  }

  /** This slot of the VIP's ring names the real with address 1. */
  ghost predicate SendsToOne(m: Maps, k0: VipSpec, slot: nat) {
    && k0 in m.vipMap && m.vipMap[k0].id in m.rings && slot < |m.rings[m.vipMap[k0].id]|
    && var id := m.rings[m.vipMap[k0].id][slot];
       id < |m.reals| && m.reals[id] == 1
  }

  lemma ShrunkSends(s: Lb, s': Lb, k0: VipSpec, h: Hashes, slot: nat)
    requires Loaded(s, k0, h) && OnlyOne(s.vips[k0]) && Shrunk(s, s', k0) && slot < RING_SIZE
    ensures SendsToOne(s'.t.k.maps, k0, slot)
  {
    RingOfOne(s, k0, h, slot);
    StillShown(s', s'.t.byAddr[1]);
  }

  lemma SendsStill(s: Lb, s': Lb, config: PbConfig, k0: VipSpec, slot: nat)
    requires SendsToOne(s.t.k.maps, k0, slot) && s' == s.(t := s.t.(k := Put(s.t.k, PutConfig(config))))
    ensures SendsToOne(s'.t.k.maps, k0, slot)
  {
    assert s'.t.k.maps == s.t.k.maps.(config := config);
  }

  lemma ConformsStill(s: Lb, s': Lb, c: Config)
    requires Conforms(s, c) && s' == s.(t := s'.t)
    ensures Conforms(s', c)
  {
  }

  /**
   A completed reload of what the daemon takes itself to be leaves the VIP sending to a real that is not
   configured.
   */
  lemma RestDoesNothing(s: Lb, s': Lb, k0: VipSpec, lbMac: Mac, arp: map<U32, Mac>, h: Hashes, slot: nat)
    requires Loaded(s, k0, h) && OnlyOne(s.vips[k0]) && Shrunk(s, s', k0) && slot < RING_SIZE && Ranged(s'.t)
    ensures var e := Reload(s', Rest(k0), lbMac, arp, h);
            e.ok && Conforms(e.s, Rest(k0)) && 1 !in AllReals(Rest(k0)) && SendsToOne(e.s.t.k.maps, k0, slot)
  {
    BothValid(k0);
    ShrunkConforms(s, s', k0);
    ReloadAgain(s', Rest(k0), lbMac, arp, h);
    var e := Reload(s', Rest(k0), lbMac, arp, h);
    ConformsStill(s', e.s, Rest(k0));
    ShrunkSends(s, s', k0, h, slot);
    SendsStill(s', e.s, ConfigOf(Rest(k0), lbMac), k0, slot);
    OneVipReals(Rest(k0).vips[0], 1);
  }

  /**
   From a machine without maps: a start and two reloads, each of a valid configuration. The first
   reload fails, the second completes, and every packet of the VIP is still sent to a real that is
   no longer configured, and stays live.
   */
  lemma RemovedRealStays(k0: VipSpec, lbMac: Mac, arp: map<U32, Mac>, h: Hashes, slot: nat)
    requires MacsOk(arp) && arp.Keys == {1} && slot < RING_SIZE
    ensures ValidDocument(Doc(All511(k0))) && ValidDocument(Doc(Trade(k0))) && ValidDocument(Doc(Rest(k0)))
    ensures PlaneSafe(BlankPlane()) && Start(Fresh(BlankPlane()), All511(k0), lbMac, arp, h).ok
    ensures var s0 := Start(Fresh(BlankPlane()), All511(k0), lbMac, arp, h).s;
            var d := Reload(s0, Trade(k0), lbMac, arp, h);
            var e := Reload(d.s, Rest(k0), lbMac, arp, h);
            !d.ok && e.ok && Conforms(e.s, Rest(k0)) && 1 !in AllReals(Rest(k0)) && SendsToOne(e.s.t.k.maps, k0, slot)
  {
    Fits511(k0);
    BothValid(k0);
    StartLoads(k0, lbMac, arp, h);
    StartOnlyOne(k0, lbMac, arp, h);
    var s0 := Start(Fresh(BlankPlane()), All511(k0), lbMac, arp, h).s;
    TradeReload(s0, k0, lbMac, arp, h);
    RestDoesNothing(s0, Reload(s0, Trade(k0), lbMac, arp, h).s, k0, lbMac, arp, h, slot);
  }
}
