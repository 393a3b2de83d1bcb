/**
 What a reload that runs out of real ids leaves behind, on the smallest daemon that can: one VIP with
 all 511 reals. Every configuration here is one validate_config accepts.
 */
module Unfinished {
  import opened Basics
  import opened BuildMaglev
  import opened Ring
  import opened Maps
  import opened Reals
  import opened LbModel
  import opened Control
  import opened ControlLaws
  import opened MemberLaws
  import opened OpLaws
  import opened VipLaws
  import opened VipOps
  import opened Capacity
  import opened ApplyLaws
  import opened Convergence
  import opened Published
  import opened Soundness
  import opened Evolution
  import opened Outcome
  import opened Exposure
  import opened Hitless
  import opened Owners
  import opened ConfigCheck

  /** With all real ids in use, a new VIP that needs one more stays unfinished: listed, but with no ring. */
  lemma CreationStops(s: Lb, k: VipSpec, noConntrack: bool, want: map<U32, U32>, arp: map<U32, Mac>, h: Hashes)
    requires Good(s) && AllOwned(s) && k !in s.vips && LeastUnused(UsedIds(s), 0) < MAX_VIPS && MacsOk(arp)
    requires want != map[] && Least(want.Keys) !in s.t.byAddr && Full(s.t.slots)
    ensures Ranged(s.t)
    ensures var d := CreateVip(s, k, noConntrack, want, arp, h);
            && !d.ok && k in d.s.vips && d.s.vips[k] == Vip(d.s.vips[k].id, noConntrack, 0, map[])
            && d.s.t.k.maps == s.t.k.maps && d.s.vips[k].id !in d.s.t.k.maps.rings
  {
    InvRanged(s);
    EnterOk(s, k, noConntrack);
    var s1 := Enter(s, k, noConntrack).value;
    assert s1.t.slots == s.t.slots && s1.t.byAddr == s.t.byAddr;
    AddMemberOk(s1, k, Least(want.Keys), want[Least(want.Keys)], arp);
    EnterEvolves(s, k, noConntrack);
    StaysOwned(s, s1);
    NoRingOfItsOwn(s1, k);
  }

  // ---- the configurations

  /** n reals of weight 1, from this address on. */
  function Block(first: U32, n: nat): (reals: seq<RealConfig>)
    requires first + n < 0x1_0000
    ensures |reals| == n
  {
    seq(n, i requires 0 <= i < n => RealConfig(first + i, 1))
  }

  /** Hash mode Maglev, no next hop, outer sources from a prefix of eight bits. */
  function Conf(vips: seq<VipConfig>): (c: Config) {
    Config(ByMaglev, None, true, false, 10, 255, vips)
  }

  function Doc(c: Config): (d: Document) {
    Document("eth0", 8, 65536, HealthParams(1000, 500, 3, 2), c)
  }

  lemma BlockWants(k: VipSpec, flag: bool, first: U32, n: nat, extra: seq<RealConfig>, a: U32)
    requires first + n < 0x1_0000
    ensures a in Want(VipConfig(k, flag, Block(first, n) + extra)) <==>
              first <= a < first + n || exists j :: 0 <= j < |extra| && extra[j].addr == a
  {
    var reals := Block(first, n) + extra;
    WantIsListed(reals, |reals|, a);
    if first <= a < first + n {
      assert reals[a - first].addr == a;
    }
    if j :| 0 <= j < |extra| && extra[j].addr == a {
      assert reals[n + j].addr == a;
    }
    if j :| 0 <= j < |reals| && reals[j].addr == a {
      assert j < n || extra[j - n].addr == a;
    }
  }

  lemma {:induction false} FewAddrs(reals: seq<RealConfig>, n: nat)
    requires n <= |reals|
    ensures |AddrsTo(reals, n)| <= n
  {
    if n == 0 {
      assert AddrsTo(reals, n) == {};
    } else {
      FewAddrs(reals, n - 1);
      assert AddrsTo(reals, n) == AddrsTo(reals, n - 1) + {reals[n - 1].addr};
    }
  }

  /** One VIP with at most 511 reals. */
  lemma OneVipValid(vc: VipConfig)
    requires RealsOk(vc.reals, |vc.reals|) && |vc.reals| < MAX_REALS
    ensures ValidDocument(Doc(Conf([vc])))
  {
    FewAddrs(vc.reals, |vc.reals|);
    assert AllAddrsTo([vc], 0) == {};
    assert AllAddrsTo([vc], 1) == AddrsTo(vc.reals, |vc.reals|);
  }

  lemma TwoVipsValid(v: VipConfig, w: VipConfig)
    requires v.spec != w.spec && RealsOk(v.reals, |v.reals|) && RealsOk(w.reals, |w.reals|)
             && |v.reals| + |w.reals| < MAX_REALS
    ensures ValidDocument(Doc(Conf([v, w])))
  {
    FewAddrs(v.reals, |v.reals|);
    FewAddrs(w.reals, |w.reals|);
    var vcs := [v, w];
    assert AllAddrsTo(vcs, 0) == {};
    assert AllAddrsTo(vcs, 1) == AddrsTo(v.reals, |v.reals|);
    assert AllAddrsTo(vcs, 2) == AddrsTo(v.reals, |v.reals|) + AddrsTo(w.reals, |w.reals|);
  }

  // ---- the daemon

  function Blank(): (m: Maps) {
    Maps(map[], map[], seq(MAX_REALS, i => 0), seq(MAX_REALS, i => NO_MAC), PbConfig(NO_MAC, 0, 0, false, false))
  }

  function BlankPlane(): (k: Plane) {
    Plane(Blank(), [], map[])
  }

  lemma BlankIsSafe()
    ensures PlaneSafe(BlankPlane()) && AllShown(Blank())
  {
    forall i: nat, j: nat | i < j < |Blank().reals|
      ensures Differ(Blank(), i, j)
    {
    }
  }

  lemma BlankAdopts()
    ensures Adopt(BlankPlane()).byAddr == map[]
  {
    BlankIsSafe();
    AdoptFacts(Blank(), MAX_REALS);
  }

  /** A VIP with this block of reals and these besides. */
  function With(k: VipSpec, flag: bool, first: U32, n: nat, extra: seq<RealConfig>): (vc: VipConfig)
    requires first + n < 0x1_0000
  {
    VipConfig(k, flag, Block(first, n) + extra)
  }

  lemma WithOk(k: VipSpec, flag: bool, first: U32, n: nat, extra: seq<RealConfig>)
    requires 0 < first && first + n < 0x1_0000 && RealsOk(extra, |extra|)
    requires forall j :: 0 <= j < |extra| ==> extra[j].addr >= first + n
    ensures RealsOk(With(k, flag, first, n, extra).reals, n + |extra|)
            && |With(k, flag, first, n, extra).reals| == n + |extra|
  {
    var reals := Block(first, n) + extra;
    forall j | 0 <= j < n + |extra|
      ensures reals[j].addr != 0 && reals[j].weight <= MAX_WEIGHT
    {
      assert j >= n ==> reals[j] == extra[j - n];
    }
    forall i, j | 0 <= i < j < n + |extra|
      ensures reals[i].addr != reals[j].addr
    {
      assert i >= n ==> reals[i] == extra[i - n];
      assert j >= n ==> reals[j] == extra[j - n];
    }
  }

  lemma OneVipReals(vc: VipConfig, a: U32)
    ensures a in AllReals(Conf([vc])) <==> a in Want(vc)
  {
    var c := Conf([vc]);
    if a in Want(vc) {
      assert a in Want(c.vips[0]);
    }
  }

  lemma TwoVipsReals(v: VipConfig, w: VipConfig, a: U32)
    ensures a in AllReals(Conf([v, w])) <==> a in Want(v) || a in Want(w)
  {
    var c := Conf([v, w]);
    if a in Want(v) {
      assert a in Want(c.vips[0]);
    }
    if a in Want(w) {
      assert a in Want(c.vips[1]);
    }
  }

  /** The daemon has the reals 1..511 on one VIP and is otherwise as new. */
  ghost predicate Loaded(s: Lb, k0: VipSpec, h: Hashes) {
    && Neat(s, h) && AllOwned(s) && s.vips.Keys == {k0} && s.vips[k0].noConntrack == false && s.hash == ByMaglev
       && s.nextHop == None
    && (forall a :: a in s.t.byAddr <==> 1 <= a <= 511) && (forall a :: a in s.vips[k0].members <==> 1 <= a <= 511)
    && (forall a :: a in s.vips[k0].members ==> s.vips[k0].members[a].weight == 1)
  }

  function All511(k0: VipSpec): (c: Config) {
    Conf([With(k0, false, 1, 511, [])])
  }

  lemma {:induction false} BlockWeights(reals: seq<RealConfig>, n: nat)
    requires n <= |reals| && forall j :: 0 <= j < |reals| ==> reals[j].weight == 1
    ensures forall a :: a in WantTo(reals, n) ==> WantTo(reals, n)[a] == 1
  {
    if n > 0 {
      BlockWeights(reals, n - 1);
    }
  }

  lemma Wants511(k0: VipSpec, a: U32)
    ensures a in Want(With(k0, false, 1, 511, [])) <==> 1 <= a <= 511
    ensures a in AllReals(All511(k0)) <==> 1 <= a <= 511
  {
    BlockWants(k0, false, 1, 511, [], a);
    OneVipReals(With(k0, false, 1, 511, []), a);
  }

  lemma Fits511(k0: VipSpec)
    ensures DistinctSpecs(All511(k0).vips) && Room(AllReals(All511(k0))) && ValidDocument(Doc(All511(k0)))
  {
    var vc := With(k0, false, 1, 511, []);
    WithOk(k0, false, 1, 511, []);
    OneVipValid(vc);
    ValidFits(Doc(All511(k0)));
  }

  lemma StartLoads(k0: VipSpec, lbMac: Mac, arp: map<U32, Mac>, h: Hashes)
    requires MacsOk(arp)
    ensures PlaneSafe(BlankPlane()) && Start(Fresh(BlankPlane()), All511(k0), lbMac, arp, h).ok
    ensures Loaded(Start(Fresh(BlankPlane()), All511(k0), lbMac, arp, h).s, k0, h)
  {
    var k, c := BlankPlane(), All511(k0);
    BlankIsSafe();
    BlankAdopts();
    Fits511(k0);
    assert {} + AllReals(c) == AllReals(c);
    assert Specs(c) == {k0} by { assert c.vips[0].spec in Specs(c); }
    AtMostIs(k.maps.vipMap.Keys + Specs(c), MAX_VIPS);
    StartEndsIff(k, c, lbMac, arp, h);
    HitlessRestart(k, c, lbMac, arp, h);
    StartOwns(k, c, lbMac, arp, h);
    LoadedIs(Start(Fresh(k), c, lbMac, arp, h).s, k0, h);
  }

  lemma LoadedIs(s: Lb, k0: VipSpec, h: Hashes)
    requires Neat(s, h) && AllOwned(s) && Conforms(s, All511(k0))
    ensures Loaded(s, k0, h)
  {
    var c, vc := All511(k0), With(k0, false, 1, 511, []);
    assert c.vips[0] == vc && Specs(c) == {k0} by { assert c.vips[0].spec in Specs(c); }
    NeatIsGood(s, h);
    GoodIsSound(s);
    BlockWeights(vc.reals, |vc.reals|);
    forall a
      ensures a in s.t.byAddr <==> 1 <= a <= 511
      ensures a in s.vips[k0].members <==> 1 <= a <= 511
    {
      Wants511(k0, a);
      LiveAddresses(s, c, a);
    }
  }

  // ---- one address too many

  lemma SomeoneIsOut(slots: seq<Slot>, byAddr: map<U32, U32>, addrs: seq<U32>)
    requires TableOk(slots, byAddr) && |addrs| == MAX_REALS
             && forall i, j :: 0 <= i < j < |addrs| ==> addrs[i] != addrs[j]
    ensures exists i :: 0 <= i < |addrs| && addrs[i] !in byAddr
  {
    if forall i :: 0 <= i < |addrs| ==> addrs[i] in byAddr {
      var ids: seq<nat> := seq(|addrs|, i requires 0 <= i < |addrs| => byAddr[addrs[i]]);
      forall i | 0 <= i < |ids|
        ensures 0 < ids[i] < |ids|
      {
        assert AddrOk(slots, byAddr, addrs[i]);
      }
      forall i, j | 0 <= i < j < |ids|
        ensures ids[i] != ids[j]
      {
        assert AddrOk(slots, byAddr, addrs[i]) && AddrOk(slots, byAddr, addrs[j]);
      }
      Pigeonhole(ids, 0);
      assert false;
    }
  }

  /** With 1..511 in the table there is no id for 1000. */
  lemma NoIdLeft(s: Lb)
    requires Inv(s) && forall a :: 1 <= a <= 511 ==> a in s.t.byAddr
    ensures 1000 !in s.t.byAddr
  {
    assert Holds(s, TablePart);
    var addrs: seq<U32> := seq(MAX_REALS, i requires 0 <= i < MAX_REALS => if i < 511 then i + 1 else 1000);
    SomeoneIsOut(s.t.slots, s.t.byAddr, addrs);
    var i :| 0 <= i < |addrs| && addrs[i] !in s.t.byAddr;
    assert addrs[i] == 1000;
  }

  // ---- a new VIP that finds no id

  /** k1 is listed without a ring and without members; everything else is as it was. */
  ghost predicate Stranded(s: Lb, k0: VipSpec, k1: VipSpec) {
    && Good(s) && AllOwned(s) && s.leak == multiset{} && s.vips.Keys == {k0, k1} && s.hash == ByMaglev
    && s.vips[k1] == Vip(s.vips[k1].id, false, 0, map[]) && k1 !in s.t.k.maps.vipMap
    && (forall a :: a in s.t.byAddr ==> 1 <= a <= 511)
  }

  /** k1 with the real 1000 comes first, and k0 would give up the real 1. */
  function Swap(k0: VipSpec, k1: VipSpec): (c: Config) {
    Conf([VipConfig(k1, false, [RealConfig(1000, 1)]), With(k0, false, 2, 510, [])])
  }

  lemma SwapIsValid(k0: VipSpec, k1: VipSpec)
    requires k0 != k1
    ensures ValidDocument(Doc(Swap(k0, k1))) && DistinctSpecs(Swap(k0, k1).vips) && Specs(Swap(k0, k1)) == {k0, k1}
  {
    WithOk(k0, false, 2, 510, []);
    TwoVipsValid(Swap(k0, k1).vips[0], Swap(k0, k1).vips[1]);
    assert Swap(k0, k1).vips[0].spec in Specs(Swap(k0, k1)) && Swap(k0, k1).vips[1].spec in Specs(Swap(k0, k1));
  }

  lemma Wants1000(k1: VipSpec, flag: bool)
    ensures Want(VipConfig(k1, flag, [RealConfig(1000, 1)])) == map[1000 := 1] && Want(VipConfig(k1, flag, [])) == map[]
  {
    assert WantTo([RealConfig(1000, 1)], 0) == map[];
  }

  lemma NoRoomFor1000(s: Lb, s': Lb, k: VipSpec)
    requires Inv(s') && KeepsAll(s.t.slots, s.t.byAddr, s'.t.slots, s'.t.byAddr) && k in s'.vips
    requires forall a :: 1 <= a <= 511 ==> a in s.t.byAddr
    ensures 1000 !in s'.vips[k].members
  {
    forall a | 1 <= a <= 511
      ensures a in s'.t.byAddr
    {
      assert KeepsAddr(s.t.slots, s.t.byAddr, s'.t.slots, s'.t.byAddr, a);
    }
    NoIdLeft(s');
    assert Holds(s', HeldPart);
  }

  lemma CannotCreate(s: Lb, k1: VipSpec, arp: map<U32, Mac>, h: Hashes)
    requires Good(s) && MacsOk(arp) && k1 !in s.vips && forall a :: 1 <= a <= 511 ==> a in s.t.byAddr
    ensures Ranged(s.t)
    ensures var d := CreateVip(s, k1, false, map[1000 := 1], arp, h);
            !d.ok && Good(d.s) && (k1 in d.s.vips ==> 1000 !in d.s.vips[k1].members)
              && forall j :: j != k1 ==> Untouched(s, d.s, s.leak, j)
  {
    CreateVipOk(s, k1, false, map[1000 := 1], arp, h);
    var d := CreateVip(s, k1, false, map[1000 := 1], arp, h);
    CreatedGood(s, d, k1, false, map[1000 := 1], h);
    if k1 in d.s.vips {
      NoRoomFor1000(s, d.s, k1);
    }
  }

  lemma EnteredEmpty(s: Lb, s1: Lb, k1: VipSpec, arp: map<U32, Mac>, h: Hashes)
    requires Inv(s) && Ranged(s.t) && k1 !in s.vips && MacsOk(arp) && Enter(s, k1, false) == Some(s1)
    requires var d := CreateVip(s, k1, false, map[1000 := 1], arp, h);
             !d.ok && (k1 in d.s.vips ==> 1000 !in d.s.vips[k1].members)
    ensures var s' := CreateVip(s, k1, false, map[1000 := 1], arp, h).s;
            && s'.vips.Keys == s.vips.Keys + {k1} && s'.vips[k1] == Vip(s'.vips[k1].id, false, 0, map[])
               && s'.leak == s.leak && s'.hash == s.hash
  {
    EnterOk(s, k1, false);
    RangedSame(s.t, s1.t);
    var want: map<U32, U32> := map[1000 := 1];
    MergeOk(s1, k1, want, want.Keys, arp);
    var d := Merge(s1, k1, want, want.Keys, arp);
    assert !d.ok;
    assert d.s.vips[k1].members.Keys <= {1000};
    assert d.s.vips[k1].members == map[];
  }

  lemma OnlyTheOld(s: Lb, s': Lb, k0: VipSpec, k1: VipSpec, a: U32)
    requires Good(s') && s'.vips.Keys == {k0, k1} && s'.vips[k1].members == map[] && s'.leak == multiset{}
             && a in s'.t.byAddr
    requires k0 in s.vips && s'.vips[k0] == s.vips[k0]
    ensures a in s.vips[k0].members
  {
    HeldOrLeft(s', a);
  }

  lemma StrandedFrom(s: Lb, s': Lb, k0: VipSpec, k1: VipSpec)
    requires Good(s') && AllOwned(s') && k0 in s.vips && k0 != k1 && Untouched(s, s', s.leak, k0)
    requires s'.vips.Keys == {k0, k1} && s'.vips[k1] == Vip(s'.vips[k1].id, false, 0, map[]) && s'.leak == multiset{}
             && s'.hash == ByMaglev
    requires forall a :: a in s.vips[k0].members ==> 1 <= a <= 511
    ensures Stranded(s', k0, k1)
  {
    assert Traced(s', s'.leak, k1);
    forall a | a in s'.t.byAddr
      ensures 1 <= a <= 511
    {
      OnlyTheOld(s, s', k0, k1, a);
    }
  }

  lemma CanEnter(s: Lb, k0: VipSpec, k1: VipSpec)
    requires Good(s) && k1 != k0 && s.vips.Keys == {k0}
    ensures Enter(s, k1, false).Some?
  {
    assert s.adopted == map[] by { assert Holds(s, LivePart); }
    VipIdLeft(s, {k0, k1}, k1);
  }

  lemma CreationStrands(s: Lb, k0: VipSpec, k1: VipSpec, arp: map<U32, Mac>, h: Hashes)
    requires Good(s) && AllOwned(s) && k1 != k0 && s.vips.Keys == {k0} && s.leak == multiset{} && s.hash == ByMaglev
             && MacsOk(arp)
    requires (forall a :: a in s.t.byAddr <==> 1 <= a <= 511) && forall a :: a in s.vips[k0].members <==> 1 <= a <= 511
    ensures Ranged(s.t)
    ensures !CreateVip(s, k1, false, map[1000 := 1], arp, h).ok
    ensures Stranded(CreateVip(s, k1, false, map[1000 := 1], arp, h).s, k0, k1)
  {
    CannotCreate(s, k1, arp, h);
    var s' := CreateVip(s, k1, false, map[1000 := 1], arp, h).s;
    CanEnter(s, k0, k1);
    EnteredEmpty(s, Enter(s, k1, false).value, k1, arp, h);
    CreationOwns(s, k1, arp, h);
    StrandedFrom(s, s', k0, k1);
  }

  lemma CreationOwns(s: Lb, k1: VipSpec, arp: map<U32, Mac>, h: Hashes)
    requires Ranged(s.t) && AllOwned(s) && k1 !in s.vips
    ensures AllOwned(CreateVip(s, k1, false, map[1000 := 1], arp, h).s)
  {
    CreateVipEvolves(s, k1, false, map[1000 := 1], arp, h);
    StaysOwned(s, CreateVip(s, k1, false, map[1000 := 1], arp, h).s);
  }

  /** Nothing to prune: the reload begins with the configuration record alone. */
  lemma NothingToPrune(s: Lb, c: Config, lbMac: Mac)
    requires Ranged(s.t) && s.vips.Keys <= Specs(c)
    ensures Pruned(s, c, lbMac) == Configure(s, c, lbMac)
  {
    assert s.vips.Keys - Specs(c) == {};
  }

  lemma FirstStops(turns: seq<Done>, s: Lb, d: Done, vcs: seq<VipConfig>, hashChanged: bool, arp: map<U32, Mac>,
                   h: Hashes)
    requires IsTurns(turns, s, vcs, hashChanged, arp, h) && |vcs| == 2
             && d == ApplyVip(s, vcs[0], hashChanged, arp, h) && !d.ok
    ensures turns[2] == d
  {
    assert TurnAt(turns, vcs, 0, hashChanged, arp, h) && TurnAt(turns, vcs, 1, hashChanged, arp, h);
  }

  /** The swap runs out of ids, although it needs no more than there are, and strands the new VIP. */
  lemma SwapStrands(s: Lb, k0: VipSpec, k1: VipSpec, lbMac: Mac, arp: map<U32, Mac>, h: Hashes)
    requires Loaded(s, k0, h) && k0 != k1 && MacsOk(arp)
    ensures Ranged(s.t)
    ensures !Reload(s, Swap(k0, k1), lbMac, arp, h).ok && Stranded(Reload(s, Swap(k0, k1), lbMac, arp, h).s, k0, k1)
  {
    NeatIsGood(s, h);
    InvRanged(s);
    var c := Swap(k0, k1);
    SwapIsValid(k0, k1);
    var s1 := Configure(s, c, lbMac);
    NothingToPrune(s, c, lbMac);
    ConfigureGood(s, c, lbMac);
    SameMembersEvolve(s, s1);
    StaysOwned(s, s1);
    Wants1000(k1, false);
    CreationStrands(s1, k0, k1, arp, h);
    ReloadIsTurns(s, c, lbMac, arp, h);
    FirstStops(ReloadTurns(s, c, lbMac, arp, h), s1, CreateVip(s1, k1, false, map[1000 := 1], arp, h), c.vips,
      s.hash != c.hash, arp, h);
  }

  /** The stranded VIP again, without reals and with this flag, and k0 as it was. */
  function Again(k0: VipSpec, k1: VipSpec, flag: bool): (c: Config) {
    Conf([VipConfig(k1, flag, []), With(k0, false, 1, 511, [])])
  }

  lemma AgainIsValid(k0: VipSpec, k1: VipSpec, flag: bool)
    requires k0 != k1
    ensures ValidDocument(Doc(Again(k0, k1, flag))) && DistinctSpecs(Again(k0, k1, flag).vips)
            && Room(AllReals(Again(k0, k1, flag)))
    ensures forall a :: a in AllReals(Again(k0, k1, flag)) <==> 1 <= a <= 511
  {
    WithOk(k0, false, 1, 511, []);
    TwoVipsValid(Again(k0, k1, flag).vips[0], Again(k0, k1, flag).vips[1]);
    ValidFits(Doc(Again(k0, k1, flag)));
    Wants1000(k1, flag);
    forall a
      ensures a in AllReals(Again(k0, k1, flag)) <==> 1 <= a <= 511
    {
      TwoVipsReals(Again(k0, k1, flag).vips[0], Again(k0, k1, flag).vips[1], a);
      BlockWants(k0, false, 1, 511, [], a);
    }
  }

  /** A reload that changes the stranded VIP's flags makes the maps unsafe. */
  lemma FlagMakesUnsafe(s: Lb, k0: VipSpec, k1: VipSpec, lbMac: Mac, arp: map<U32, Mac>, h: Hashes)
    requires Stranded(s, k0, k1) && k0 != k1 && MacsOk(arp)
    ensures Ranged(s.t) && !PlaneSafe(Reload(s, Again(k0, k1, true), lbMac, arp, h).s.t.k)
  {
    InvRanged(s);
    var c := Again(k0, k1, true);
    AgainIsValid(k0, k1, true);
    assert GetsTo(BasisOf(s, c), c.vips, 0) && !HarmlessAt(s, c, 0);
    OwnedNoStray(s);
    ReloadSafeIff(s, c, lbMac, arp, h);
  }

  /** One that leaves them alone completes, and no packet can match the VIP it has configured. */
  lemma CompletesUnpublished(s: Lb, k0: VipSpec, k1: VipSpec, lbMac: Mac, arp: map<U32, Mac>, h: Hashes)
    requires Stranded(s, k0, k1) && k0 != k1 && MacsOk(arp)
    ensures Ranged(s.t)
    ensures var d := Reload(s, Again(k0, k1, false), lbMac, arp, h);
            d.ok && Conforms(d.s, Again(k0, k1, false)) && k1 in d.s.vips && k1 !in d.s.t.k.maps.vipMap
  {
    var c := Again(k0, k1, false);
    AgainIsValid(k0, k1, false);
    GoodIsSound(s);
    assert s.t.byAddr.Keys + AllReals(c) == AllReals(c);
    ReloadEndsIfRoom(s, c, lbMac, arp, h);
    ReloadConverges(s, c, lbMac, arp, h);
    assert FaceDone(s, Reload(s, c, lbMac, arp, h).s, c.vips[0]);
  }

  /**
   From a machine without maps: a start and two reloads, each of a valid configuration. The first
   reload fails, safely; the second completes, and either publishes a VIP without a ring or leaves a
   configured VIP unpublished, depending on whether it changes that VIP's flags.
   */
  lemma UnsafeRun(k0: VipSpec, k1: VipSpec, lbMac: Mac, arp: map<U32, Mac>, h: Hashes)
    requires k0 != k1 && MacsOk(arp)
    ensures ValidDocument(Doc(All511(k0))) && ValidDocument(Doc(Swap(k0, k1)))
            && forall f :: ValidDocument(Doc(Again(k0, k1, f)))
    ensures PlaneSafe(BlankPlane()) && Start(Fresh(BlankPlane()), All511(k0), lbMac, arp, h).ok
    ensures var s0 := Start(Fresh(BlankPlane()), All511(k0), lbMac, arp, h).s;
            var d := Reload(s0, Swap(k0, k1), lbMac, arp, h);
            && !d.ok && PlaneSafe(d.s.t.k)
            && !PlaneSafe(Reload(d.s, Again(k0, k1, true), lbMac, arp, h).s.t.k)
            && var e := Reload(d.s, Again(k0, k1, false), lbMac, arp, h);
               e.ok && Conforms(e.s, Again(k0, k1, false)) && k1 in e.s.vips && k1 !in e.s.t.k.maps.vipMap
  {
    Fits511(k0);
    SwapIsValid(k0, k1);
    AgainIsValid(k0, k1, true);
    AgainIsValid(k0, k1, false);
    StartLoads(k0, lbMac, arp, h);
    var s0 := Start(Fresh(BlankPlane()), All511(k0), lbMac, arp, h).s;
    SwapStrands(s0, k0, k1, lbMac, arp, h);
    var s1 := Reload(s0, Swap(k0, k1), lbMac, arp, h).s;
    GoodIsSafe(s1);
    FlagMakesUnsafe(s1, k0, k1, lbMac, arp, h);
    CompletesUnpublished(s1, k0, k1, lbMac, arp, h);
  }
}
