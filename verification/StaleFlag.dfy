/**
 A third thing a reload that runs out of ids leaves: a member with its new weight and its old in_ring.
 The next reload finds nothing to do, and the real gets no slot.
 */
module StaleFlag {
  import opened Basics
  import opened BuildMaglev
  import opened Ring
  import opened Maps
  import opened Reals
  import opened LbModel
  import opened Control
  import opened ControlLaws
  import opened MemberLaws
  import opened OpLaws
  import opened VipLaws
  import opened Capacity
  import opened Budget
  import opened ApplyLaws
  import opened Convergence
  import opened Completeness
  import opened OneTurn
  import opened Outcome
  import opened Soundness
  import opened ConfigCheck
  import opened Unfinished
  import opened LeftBehind

  // ---- the configurations

  /** Real 1 at this weight, n more reals at weight 0, and these besides. */
  function Tiered(k0: VipSpec, weight: U32, n: nat, extra: seq<RealConfig>): (vc: VipConfig)
    requires n < 0x1_0000
  {
    VipConfig(k0, false, [RealConfig(1, weight)] + seq(n, i requires 0 <= i < n => RealConfig(2 + i, 0)) + extra)
  }

  /** All 511 reals at weight 0. */
  function Zero(k0: VipSpec): (c: Config) {
    Conf([Tiered(k0, 0, 510, [])])
  }

  /** Real 1 gets weight 5, and real 1000 takes the place of real 511. */
  function Push(k0: VipSpec): (c: Config) {
    Conf([Tiered(k0, 5, 509, [RealConfig(1000, 0)])])
  }

  /** The same without real 1000. */
  function Settle(k0: VipSpec): (c: Config) {
    Conf([Tiered(k0, 5, 509, [])])
  }

  lemma {:induction false} WantAt(reals: seq<RealConfig>, n: nat, a: U32)
    requires n <= |reals| && RealsOk(reals, |reals|)
    ensures a in WantTo(reals, n) <==> exists j :: 0 <= j < n && reals[j].addr == a
    ensures forall j :: 0 <= j < n && reals[j].addr == a ==> WantTo(reals, n)[a] == reals[j].weight
  {
    if n > 0 {
      WantAt(reals, n - 1, a);
    }
  }

  lemma TieredOk(k0: VipSpec, weight: U32, n: nat, extra: seq<RealConfig>)
    requires weight <= MAX_WEIGHT && n <= 510 && |extra| <= 1 && (extra == [] || extra == [RealConfig(1000, 0)])
    ensures RealsOk(Tiered(k0, weight, n, extra).reals, 1 + n + |extra|)
            && |Tiered(k0, weight, n, extra).reals| == 1 + n + |extra|
  {
  }

  lemma TieredWants(k0: VipSpec, weight: U32, n: nat, extra: seq<RealConfig>, a: U32)
    requires weight <= MAX_WEIGHT && n <= 510 && |extra| <= 1 && (extra == [] || extra == [RealConfig(1000, 0)])
    ensures var want := Want(Tiered(k0, weight, n, extra));
            (a in want <==> 1 <= a <= 1 + n || (a == 1000 && extra != []))
              && (a in want ==> want[a] == if a == 1 then weight else 0)
  {
    var reals := Tiered(k0, weight, n, extra).reals;
    TieredOk(k0, weight, n, extra);
    WantAt(reals, |reals|, a);
    assert reals[0].addr == 1;
    if 2 <= a <= 1 + n {
      assert reals[a - 1].addr == a && reals[a - 1].weight == 0;
    }
    if a == 1000 && extra != [] {
      assert reals[1 + n].addr == 1000 && reals[1 + n].weight == 0;
    }
  }

  /** What the three configurations want. */
  ghost predicate Wants(want: map<U32, U32>, top: nat, weight: U32, more: bool) {
    && (forall a: U32 :: a in want <==> 1 <= a <= top || (a == 1000 && more))
    && (forall a: U32 :: a in want ==> want[a] == if a == 1 then weight else 0)
  }

  lemma TieredValid(k0: VipSpec, weight: U32, n: nat, extra: seq<RealConfig>)
    requires weight <= MAX_WEIGHT && n + |extra| <= 510 && |extra| <= 1
             && (extra == [] || extra == [RealConfig(1000, 0)])
    ensures ValidDocument(Doc(Conf([Tiered(k0, weight, n, extra)])))
    ensures Wants(Want(Tiered(k0, weight, n, extra)), 1 + n, weight, extra != [])
  {
    TieredOk(k0, weight, n, extra);
    OneVipValid(Tiered(k0, weight, n, extra));
    forall a: U32
      ensures var want := Want(Tiered(k0, weight, n, extra));
              (a in want <==> 1 <= a <= 1 + n || (a == 1000 && extra != []))
                && (a in want ==> want[a] == if a == 1 then weight else 0)
    {
      TieredWants(k0, weight, n, extra, a);
    }
  }

  lemma OneSpec(vc: VipConfig)
    ensures Specs(Conf([vc])) == {vc.spec} && DistinctSpecs(Conf([vc]).vips)
  {
    assert Conf([vc]).vips[0].spec in Specs(Conf([vc]));
  }

  lemma SameFlagsOk(s: Lb, vc: VipConfig)
    requires vc.spec in s.vips ==> s.vips[vc.spec].noConntrack == vc.noConntrack
    ensures AllFlagsOk(s, Conf([vc]).vips)
  {
  }

  // ---- all weights to zero

  /** The reals 1..511 on one VIP, none of them in its ring; real 1 is up, and its MAC is known. */
  ghost predicate Idle(s: Lb, k0: VipSpec, h: Hashes) {
    && Neat(s, h) && s.vips.Keys == {k0} && s.vips[k0].noConntrack == false && s.hash == ByMaglev && s.nextHop == None
    && (forall a: U32 :: a in s.t.byAddr <==> 1 <= a <= 511)
       && (forall a: U32 :: a in s.vips[k0].members <==> 1 <= a <= 511)
    && (forall a: U32 :: a in s.vips[k0].members ==> !s.vips[k0].members[a].inRing)
    && LookOf(s.vips[k0].members[1]).fit && Known(s.t, 1)
  }

  lemma OneIsUsable(s: Lb, k0: VipSpec, h: Hashes)
    requires Loaded(s, k0, h) && OnlyOne(s.vips[k0])
    ensures 1 in s.vips[k0].members && LookOf(s.vips[k0].members[1]).fit && Known(s.t, 1)
  {
    assert Steady(s, h, k0);
  }

  lemma StopsAt(fits: seq<bool>, r: nat)
    requires |fits| == 1 && r <= 1 && (fits[0] <==> r == 1)
    ensures Stops(fits, r)
  {
  }

  lemma StopsAtOne(b: Basis, vcs: seq<VipConfig>, fits: seq<bool>, r: nat)
    requires |vcs| == 1 && fits == Fits(b, vcs) && r <= 1 && (FitsAt(b, vcs, 0) <==> r == 1)
    ensures Stops(fits, r)
  {
    FitsIs(b, vcs, 0, fits);
    StopsAt(fits, r);
  }

  lemma ZeroLook(b: Basis, vc: VipConfig, arp: map<U32, Mac>, a: U32)
    requires Wants(Want(vc), 511, 0, false) && vc.spec in b.had && 1 in b.had[vc.spec] && b.had[vc.spec][1].weight == 1
    ensures LookAfter(b, [vc], arp, 1, 0, a) == if 1 <= a <= 511 then Some(Look(0, Fit(b.had[vc.spec], a), false))
            else None
  {
    assert RebuildsAt(b, vc);
  }

  lemma ZeroKnown(b: Basis, vc: VipConfig, arp: map<U32, Mac>)
    requires 1 in Want(vc) && 1 in b.known
    ensures KnownAtEnd(b, [vc], arp, 1, 1)
  {
    WantedIs([vc], 1, 1);
    assert KnownAt(b, [vc], arp, 0, 1);
  }

  lemma ZeroFits(s: Lb, k0: VipSpec, h: Hashes)
    requires Loaded(s, k0, h)
    ensures FitsAt(BasisOf(s, Zero(k0)), Zero(k0).vips, 0)
  {
    var c := Zero(k0);
    NeatIsGood(s, h);
    GoodIsSound(s);
    TieredValid(k0, 0, 510, []);
    LiveRoom(s);
    forall a: U32
      ensures a in AllReals(c) ==> a in s.t.byAddr
    {
      OneVipReals(c.vips[0], a);
    }
    assert s.t.byAddr.Keys + AllReals(c) == s.t.byAddr.Keys;
    FitsIfRoom(s, c, 0);
  }

  lemma IdleMembers(s: Lb, s': Lb, k0: VipSpec, b: Basis, vc: VipConfig, arp: map<U32, Mac>)
    requires Ended(b, [vc], arp, 1, s') && vc.spec == k0 && Wants(Want(vc), 511, 0, false)
    requires k0 in b.had && 1 in b.had[k0] && b.had[k0][1].weight == 1 && LookOf(b.had[k0][1]).fit && 1 in b.known
    ensures k0 in s'.vips && (forall a: U32 :: a in s'.vips[k0].members <==> 1 <= a <= 511)
    ensures (forall a: U32 :: a in s'.vips[k0].members ==> !s'.vips[k0].members[a].inRing)
            && LookOf(s'.vips[k0].members[1]).fit
    ensures Known(s'.t, 1)
  {
    EndedMeans(b, [vc], arp, 1, s');
    var members := MembersOf(s', k0);
    forall a: U32
      ensures a in members <==> 1 <= a <= 511
      ensures a in members ==> LookOf(members[a]) == Look(0, Fit(b.had[k0], a), false)
    {
      assert EndLook(b, [vc], arp, 1, 0, s', a);
      ZeroLook(b, vc, arp, a);
    }
    assert 1 in members;
    assert EndKnown(b, [vc], arp, 1, s', 1);
    ZeroKnown(b, vc, arp);
  }

  lemma ZeroBasis(s: Lb, k0: VipSpec, h: Hashes)
    requires Loaded(s, k0, h) && OnlyOne(s.vips[k0])
    ensures var b := BasisOf(s, Zero(k0));
            && k0 in b.had && b.had[k0] == s.vips[k0].members && 1 in b.known
  {
    var c := Zero(k0);
    OneIsUsable(s, k0, h);
    OneSpec(c.vips[0]);
    assert StaysLive(s, Specs(c), 1);
  }

  lemma ZeroIdles(s: Lb, k0: VipSpec, lbMac: Mac, arp: map<U32, Mac>, h: Hashes)
    requires Loaded(s, k0, h) && OnlyOne(s.vips[k0]) && MacsOk(arp)
    ensures Ranged(s.t) && Reload(s, Zero(k0), lbMac, arp, h).ok && Idle(Reload(s, Zero(k0), lbMac, arp, h).s, k0, h)
  {
    var c, b := Zero(k0), BasisOf(s, Zero(k0));
    NeatIsGood(s, h);
    GoodIsSound(s);
    OneSpec(c.vips[0]);
    SameFlagsOk(s, c.vips[0]);
    ReloadOk(s, c, lbMac, arp, h);
    TieredValid(k0, 0, 510, []);
    ZeroFits(s, k0, h);
    StopsAtOne(b, c.vips, Fits(b, c.vips), 1);
    ReloadOutcome(s, c, lbMac, arp, h, 1);
    ZeroBasis(s, k0, h);
    OneIsUsable(s, k0, h);
    var s' := Reload(s, c, lbMac, arp, h).s;
    IdleMembers(s, s', k0, b, c.vips[0], arp);
    ReconfiguredNeat(s, s', c, h);
    IdleIs(s', k0, h);
  }

  lemma IdleIs(s: Lb, k0: VipSpec, h: Hashes)
    requires Neat(s, h) && Conforms(s, Zero(k0)) && k0 in s.vips
             && forall a: U32 :: a in s.vips[k0].members <==> 1 <= a <= 511
    requires forall a: U32 :: a in s.vips[k0].members ==> !s.vips[k0].members[a].inRing
    requires LookOf(s.vips[k0].members[1]).fit && Known(s.t, 1)
    ensures Idle(s, k0, h)
  {
    var c := Zero(k0);
    NeatIsGood(s, h);
    GoodIsSound(s);
    OneSpec(c.vips[0]);
    TieredValid(k0, 0, 510, []);
    forall a: U32
      ensures a in s.t.byAddr <==> 1 <= a <= 511
    {
      LiveAddresses(s, c, a);
      OneVipReals(c.vips[0], a);
    }
  }

  // ---- a reload that runs out of ids after it has set a weight

  lemma TooMany(live: set<U32>)
    requires (forall a: U32 :: 1 <= a <= 511 ==> a in live) && 1000 in live
    ensures !Room(live)
  {
    var addrs: seq<U32> := seq(MAX_REALS, i requires 0 <= i < MAX_REALS => if i < 511 then i + 1 else 1000);
    DistinctElements(addrs);
    assert Elements(addrs) <= live;
    SubsetSize(Elements(addrs), live);
    AtMostIs(live, MAX_REALS - 1);
  }

  /** The basis is the one VIP with its 511 members, all of them live. */
  ghost predicate FullBasis(b: Basis, k0: VipSpec, members: map<U32, Member>) {
    && b.had == map[k0 := members] && b.left == {} && 1 in b.known && forall a: U32 :: a in members <==> 1 <= a <= 511
  }

  lemma PushBasis(s: Lb, k0: VipSpec, h: Hashes)
    requires Idle(s, k0, h)
    ensures FullBasis(BasisOf(s, Push(k0)), k0, s.vips[k0].members)
  {
    var c := Push(k0);
    OneSpec(c.vips[0]);
    assert StaysLive(s, Specs(c), 1);
    assert BasisOf(s, c).had == map[k0 := s.vips[k0].members];
  }

  lemma FullLive(b: Basis, vc: VipConfig, members: map<U32, Member>, live: set<U32>)
    requires FullBasis(b, vc.spec, members) && live == LiveAt(b, [vc], 0)
    ensures live == members.Keys
  {
    forall a: U32
      ensures a in live <==> a in members
    {
      HeldIs(b, [vc], 0, a);
      assert [vc][0] == vc;
    }
  }

  lemma PushPlaces(live: set<U32>, want: map<U32, U32>)
    requires Room(live) && (forall a: U32 :: a in live <==> 1 <= a <= 511) && Wants(want, 510, 5, true)
    ensures Placed(live, want.Keys) == want.Keys - {1000} && !Room(live + want.Keys)
  {
    TooMany(live + want.Keys);
    forall a: U32 | a in want
      ensures a in Placed(live, want.Keys) <==> a != 1000
    {
      if a == 1000 {
        TooMany(live + UpTo(want.Keys, a));
      } else {
        assert live + UpTo(want.Keys, a) == live;
      }
    }
  }

  lemma PushStops(b: Basis, vc: VipConfig, members: map<U32, Member>)
    requires FullBasis(b, vc.spec, members) && Room(members.Keys) && Wants(Want(vc), 510, 5, true)
             && VipIdAt(b, [vc], 0)
    ensures !FitsAt(b, [vc], 0) && PlacedAt(b, [vc], 0) == Want(vc).Keys - {1000}
  {
    FullLive(b, vc, members, LiveAt(b, [vc], 0));
    PushPlaces(members.Keys, Want(vc));
  }

  lemma PushLook(b: Basis, vc: VipConfig, members: map<U32, Member>, arp: map<U32, Mac>, a: U32)
    requires FullBasis(b, vc.spec, members) && Wants(Want(vc), 510, 5, true)
             && PlacedAt(b, [vc], 0) == Want(vc).Keys - {1000}
    requires forall c: U32 :: c in members ==> !members[c].inRing
    ensures LookAfter(b, [vc], arp, 0, 0, a)
         == if 1 <= a <= 510 then Some(Look(if a == 1 then 5 else 0, LookOf(members[a]).fit, false)) else None
  {
  }

  /** Real 1 is configured, usable, and not in the ring; nobody is. */
  ghost predicate Unseen(s: Lb, k0: VipSpec) {
    && k0 in s.vips && (forall a: U32 :: a in s.vips[k0].members <==> 1 <= a <= 510)
    && (forall a: U32 :: a in s.vips[k0].members ==> !s.vips[k0].members[a].inRing
                                                     && s.vips[k0].members[a].weight == if a == 1 then 5 else 0)
    && LookOf(s.vips[k0].members[1]).fit && Known(s.t, 1)
  }

  lemma PushedMembers(b: Basis, vc: VipConfig, members: map<U32, Member>, arp: map<U32, Mac>, s': Lb)
    requires FullBasis(b, vc.spec, members) && Wants(Want(vc), 510, 5, true)
             && PlacedAt(b, [vc], 0) == Want(vc).Keys - {1000}
    requires (forall c: U32 :: c in members ==> !members[c].inRing) && 1 in members && LookOf(members[1]).fit
    requires Ended(b, [vc], arp, 0, s')
    ensures Unseen(s', vc.spec)
  {
    EndedMeans(b, [vc], arp, 0, s');
    var after := MembersOf(s', vc.spec);
    forall a: U32
      ensures a in after <==> 1 <= a <= 510
      ensures a in after ==> a in members && LookOf(after[a])
                             == Look(if a == 1 then 5 else 0, LookOf(members[a]).fit, false)
    {
      assert EndLook(b, [vc], arp, 0, 0, s', a);
      PushLook(b, vc, members, arp, a);
    }
    assert 1 in after;
    assert EndKnown(b, [vc], arp, 0, s', 1);
  }

  lemma PushUnseen(s: Lb, k0: VipSpec, lbMac: Mac, arp: map<U32, Mac>, h: Hashes)
    requires Idle(s, k0, h) && MacsOk(arp)
    ensures Ranged(s.t) && !Reload(s, Push(k0), lbMac, arp, h).ok && Unseen(Reload(s, Push(k0), lbMac, arp, h).s, k0)
  {
    var c, b, members := Push(k0), BasisOf(s, Push(k0)), s.vips[k0].members;
    NeatIsGood(s, h);
    GoodIsSound(s);
    OneSpec(c.vips[0]);
    TieredValid(k0, 5, 509, [RealConfig(1000, 0)]);
    PushBasis(s, k0, h);
    LiveRoom(s);
    assert members.Keys == s.t.byAddr.Keys;
    VipIdsIfFew(b, c, 0);
    PushStops(b, c.vips[0], members);
    StopsAtOne(b, c.vips, Fits(b, c.vips), 0);
    ReloadOutcome(s, c, lbMac, arp, h, 0);
    PushedMembers(b, c.vips[0], members, arp, Reload(s, c, lbMac, arp, h).s);
  }

  /** The rings, the VIP map, the VIP's id and its flags are what they were. */
  ghost predicate Undisturbed(s: Lb, s': Lb, k0: VipSpec) {
    && s'.vips.Keys == {k0} && k0 in s.vips && s'.vips[k0].id == s.vips[k0].id
       && s'.vips[k0].noConntrack == s.vips[k0].noConntrack
    && s'.hash == s.hash && s'.nextHop == s.nextHop
    && s'.t.k.maps.rings == s.t.k.maps.rings && s'.t.k.maps.vipMap == s.t.k.maps.vipMap
  }

  lemma StoppedMerge(s: Lb, vc: VipConfig, hashChanged: bool, arp: map<U32, Mac>, h: Hashes)
    requires Good(s) && Ranged(s.t) && s.vips.Keys == {vc.spec} && s.vips[vc.spec].noConntrack == vc.noConntrack
             && MacsOk(arp)
    requires !ReloadVip(s, vc, hashChanged, arp, h).ok
    ensures Undisturbed(s, ReloadVip(s, vc, hashChanged, arp, h).s, vc.spec)
  {
    var k, s2 := vc.spec, Prune(s, vc);
    RemoveOk(s, k, Gone(s, vc));
    MergeOk(s2, k, Want(vc), Want(vc).Keys, arp);
    var d := Merge(s2, k, Want(vc), Want(vc).Keys, arp);
    MergeFails(s, d, vc, hashChanged, arp, h);
    MergeDisturbs(s, s2, d, vc);
  }

  lemma MergeDisturbs(s: Lb, s2: Lb, d: Done, vc: VipConfig)
    requires s.vips.Keys == {vc.spec} && s2 == RemoveMembers(s, vc.spec, Gone(s, vc))
             && MergeDone(s2, vc.spec, Want(vc), Want(vc).Keys, d)
    ensures Undisturbed(s, d.s, vc.spec)
  {
  }

  lemma PushLeaves(s: Lb, k0: VipSpec, lbMac: Mac, arp: map<U32, Mac>, h: Hashes)
    requires Idle(s, k0, h) && MacsOk(arp) && Ranged(s.t) && !Reload(s, Push(k0), lbMac, arp, h).ok
    ensures Undisturbed(s, Reload(s, Push(k0), lbMac, arp, h).s, k0)
  {
    var c := Push(k0);
    NeatIsGood(s, h);
    var s1 := Configure(s, c, lbMac);
    ConfigureGood(s, c, lbMac);
    ConfigureSame(s, s1, c, lbMac);
    RangedSame(s.t, s1.t);
    ReloadOneTurn(s, c, lbMac, arp, h);
    StoppedMerge(s1, c.vips[0], false, arp, h);
  }

  // ---- a reload that finds nothing to do

  lemma SettledConforms(s: Lb, s': Lb, k0: VipSpec, h: Hashes)
    requires Idle(s, k0, h) && Undisturbed(s, s', k0) && Unseen(s', k0)
    ensures Conforms(s', Settle(k0))
  {
    var vc := Settle(k0).vips[0];
    TieredValid(k0, 5, 509, []);
    UnseenMatches(s', k0, Want(vc));
    OneSpec(vc);
  }

  lemma UnseenMatches(s': Lb, k0: VipSpec, want: map<U32, U32>)
    requires Unseen(s', k0) && s'.vips[k0].noConntrack == false && Wants(want, 510, 5, false)
    ensures Matches(s'.vips[k0], false, want)
  {
  }

  /** No packet of the VIP is sent anywhere. */
  ghost predicate SendsNowhere(m: Maps, k0: VipSpec) {
    && k0 in m.vipMap && m.vipMap[k0].id in m.rings && |m.rings[m.vipMap[k0].id]| == RING_SIZE
    && forall slot :: 0 <= slot < RING_SIZE ==> m.rings[m.vipMap[k0].id][slot] == REAL_NONE
  }

  lemma NobodyInRing(members: map<U32, Member>)
    requires forall a: U32 :: a in members ==> !members[a].inRing
    ensures InRing(members) == map[]
  {
  }

  lemma EmptyRing(members: map<U32, Member>, byAddr: map<U32, U32>, mode: HashMode, h: Hashes, ring: seq<U32>)
    requires (forall a: U32 :: a in members ==> !members[a].inRing) && ring == VipRing(members, byAddr, mode, h)
    ensures |ring| == RING_SIZE && forall slot :: 0 <= slot < RING_SIZE ==> ring[slot] == REAL_NONE
  {
    NobodyInRing(members);
    VipRingIs(members, byAddr, mode, h);
    forall slot: nat | slot < RING_SIZE
      ensures ring[slot] == REAL_NONE
    {
      VipRingSlot(members, byAddr, mode, h, slot);
    }
  }

  lemma IdleSendsNowhere(s: Lb, k0: VipSpec, h: Hashes)
    requires Idle(s, k0, h)
    ensures SendsNowhere(s.t.k.maps, k0)
  {
    assert Steady(s, h, k0);
    EmptyRing(s.vips[k0].members, s.t.byAddr, s.hash, h, s.t.k.maps.rings[s.vips[k0].id]);
  }

  lemma StillNowhere(s: Lb, s': Lb, e: Lb, k0: VipSpec, config: PbConfig)
    requires SendsNowhere(s.t.k.maps, k0) && Undisturbed(s, s', k0)
             && e == s'.(t := s'.t.(k := Put(s'.t.k, PutConfig(config))))
    ensures SendsNowhere(e.t.k.maps, k0)
  {
    assert e.t.k.maps == s'.t.k.maps.(config := config);
  }

  lemma StillUnseen(s': Lb, e: Lb, k0: VipSpec)
    requires Unseen(s', k0) && e == s'.(t := s'.t.(k := e.t.k))
    ensures k0 in e.vips && 1 in e.vips[k0].members && !NotMissing(e, k0, 1)
  {
    assert 1 in s'.vips[k0].members;
    MissingLooks(s', k0, 1);
  }

  lemma SettleDoesNothing(s: Lb, s': Lb, k0: VipSpec, lbMac: Mac, arp: map<U32, Mac>, h: Hashes)
    requires Idle(s, k0, h) && Undisturbed(s, s', k0) && Unseen(s', k0) && Ranged(s'.t)
    ensures var e := Reload(s', Settle(k0), lbMac, arp, h);
            && e.ok && Conforms(e.s, Settle(k0)) && SendsNowhere(e.s.t.k.maps, k0)
            && k0 in e.s.vips && 1 in e.s.vips[k0].members && !NotMissing(e.s, k0, 1)
  {
    var c := Settle(k0);
    SettledConforms(s, s', k0, h);
    ReloadAgain(s', c, lbMac, arp, h);
    var e := Reload(s', c, lbMac, arp, h);
    ConformsStill(s', e.s, c);
    IdleSendsNowhere(s, k0, h);
    StillNowhere(s, s', e.s, k0, ConfigOf(c, lbMac));
    StillUnseen(s', e.s, k0);
  }

  /**
   From a machine without maps: a start and three reloads, each of a valid configuration. The second
   reload fails, the others complete. In the end real 1 is configured at weight 5, up, not draining and
   its MAC known, and no slot of the VIP's ring names it or any other real.
   */
  lemma UsableRealUnseen(k0: VipSpec, lbMac: Mac, arp: map<U32, Mac>, h: Hashes)
    requires MacsOk(arp) && arp.Keys == {1}
    ensures ValidDocument(Doc(All511(k0))) && ValidDocument(Doc(Zero(k0))) && ValidDocument(Doc(Push(k0)))
    ensures ValidDocument(Doc(Settle(k0))) && 1 in Want(Settle(k0).vips[0]) && Want(Settle(k0).vips[0])[1] == 5
    ensures PlaneSafe(BlankPlane()) && Start(Fresh(BlankPlane()), All511(k0), lbMac, arp, h).ok
    ensures var s0 := Start(Fresh(BlankPlane()), All511(k0), lbMac, arp, h).s;
            var c := Reload(s0, Zero(k0), lbMac, arp, h);
            var d := Reload(c.s, Push(k0), lbMac, arp, h);
            var e := Reload(d.s, Settle(k0), lbMac, arp, h);
            && c.ok && !d.ok && e.ok && Conforms(e.s, Settle(k0)) && SendsNowhere(e.s.t.k.maps, k0)
            && k0 in e.s.vips && 1 in e.s.vips[k0].members && !NotMissing(e.s, k0, 1)
  {
    Fits511(k0);
    TieredValid(k0, 0, 510, []);
    TieredValid(k0, 5, 509, [RealConfig(1000, 0)]);
    TieredValid(k0, 5, 509, []);
    StartLoads(k0, lbMac, arp, h);
    StartOnlyOne(k0, lbMac, arp, h);
    var s0 := Start(Fresh(BlankPlane()), All511(k0), lbMac, arp, h).s;
    ZeroIdles(s0, k0, lbMac, arp, h);
    var s1 := Reload(s0, Zero(k0), lbMac, arp, h).s;
    PushUnseen(s1, k0, lbMac, arp, h);
    PushLeaves(s1, k0, lbMac, arp, h);
    SettleDoesNothing(s1, Reload(s1, Push(k0), lbMac, arp, h).s, k0, lbMac, arp, h);
  }
}
