/**
 When a reload is safe. The one write that can be unsafe is that of the VIP map entry of a VIP whose
 flags change while it has no whole ring, and only a VIP whose creation was never completed has none.
 */
module Exposure {
  import opened Basics
  import opened BuildMaglev
  import opened Ring
  import opened Maps
  import opened Reals
  import opened Control
  import opened ControlLaws
  import opened MemberLaws
  import opened ReleaseLaws
  import opened OpLaws
  import opened VipLaws
  import opened ReloadLaws
  import opened ApplyLaws
  import opened Convergence
  import opened Evolution
  import opened Akin
  import opened Outcome
  import opened Soundness

  /** The configuration changes the flags of this VIP, and there is no whole ring to go with its entry. */
  ghost predicate Bare(s: Lb, vc: VipConfig) {
    && vc.spec in s.vips && s.vips[vc.spec].noConntrack != vc.noConntrack
    && !(s.vips[vc.spec].id in s.t.k.maps.rings && RingSafe(s.t.k.maps, s.t.k.maps.rings[s.vips[vc.spec].id]))
  }

  // ---- unsafe: whatever the state

  lemma ShownBare(s: Lb, vc: VipConfig)
    requires Bare(s, vc)
    ensures !AllSafe(Reflag(s, vc.spec, vc.noConntrack).t.k.log, 0)
  {
    var k, m := vc.spec, s.t.k.maps;
    var v := s.vips[k];
    var m' := m.(vipMap := m.vipMap[k := VipValue(v.id, vc.noConntrack)]);
    var log := Reflag(s, k, vc.noConntrack).t.k.log;
    assert log[|log| - 1].after == m';
    if MapsSafe(m') {
      assert VipSafe(m', k);
      SameReals(m', m, m.rings[v.id]);
      assert false;
    }
  }

  lemma BareStaysUnsafe(s: Lb, vc: VipConfig, hashChanged: bool, arp: map<U32, Mac>, h: Hashes)
    requires Ranged(s.t) && Bare(s, vc)
    ensures !AllSafe(ReloadVip(s, vc, hashChanged, arp, h).s.t.k.log, 0)
  {
    var k, s1, s2 := vc.spec, Reflag(s, vc.spec, vc.noConntrack), Prune(s, vc);
    ShownBare(s, vc);
    RemoveEvolves(s1, k, Gone(s, vc));
    MergeEvolves(s2, k, Want(vc), Want(vc).Keys, arp);
    var d := Merge(s2, k, Want(vc), Want(vc).Keys, arp);
    Then(s1, s2, d.s);
    if d.ok {
      var s3 := if RingChanges(s.vips[k], Want(vc), hashChanged) then Rebuild(d.s, k, h) else d.s;
      if RingChanges(s.vips[k], Want(vc), hashChanged) {
        ThenRebuild(s1, d.s, k, h);
      }
      ReleaseAllEvolves(s3, Gone(s, vc));
      Then(s1, s3, ReleaseAll(s3, Gone(s, vc)));
    }
    UnsafeStays(s1, ReloadVip(s, vc, hashChanged, arp, h).s);
  }

  // ---- safe: from a good state

  lemma GoodIsSafe(s: Lb)
    requires Inv(s)
    ensures PlaneSafe(s.t.k)
  {
    assert Holds(s, TablePart);
  }

  /** Publishing a VIP that has a whole ring, be it one an earlier daemon left. */
  lemma ReflagWhole(s: Lb, vc: VipConfig)
    requires Good(s) && vc.spec in s.vips && !Bare(s, vc)
    ensures var s1 := Reflag(s, vc.spec, vc.noConntrack);
            Inv(s1) && s1.leak == s.leak && vc.spec in s1.vips && s1.vips[vc.spec].members == s.vips[vc.spec].members
            && s1.adopted == s.adopted && forall j :: j != vc.spec ==> Untouched(s, s1, s.leak, j)
  {
    var k := vc.spec;
    UntouchedSelf(s, s.leak);
    if s.vips[k].noConntrack != vc.noConntrack {
      var v := s.vips[k].(noConntrack := vc.noConntrack);
      var s0 := s.(vips := s.vips[k := v]);
      TouchOk(s, k, v);
      SendVipOk(s0, k);
      forall j | j != k
        ensures Untouched(s, SendVip(s0, k), s.leak, j)
      {
        assert Untouched(s, s, s.leak, j);
        SendVipLeaves(s0, k, s.leak, j);
        UntouchedThen(s, s0, SendVip(s0, k), s.leak, j);
      }
    }
  }

  /** After the rebuild every VIP is accounted for again, whatever ring this one had. */
  lemma RebuiltAllTraced(s: Lb, s3: Lb, k: VipSpec, h: Hashes)
    requires Good(s) && Inv(s3) && k in s3.vips && s.leak <= s3.leak
             && forall j :: j != k ==> Untouched(s, s3, s.leak, j)
    ensures Inv(Rebuild(s3, k, h)) && AllTraced(Rebuild(s3, k, h), s.leak)
  {
    var s4 := Rebuild(s3, k, h);
    RebuildOk(s3, k, h);
    assert TabOk(s.t) && TabOk(s4.t) by { assert Holds(s, TablePart) && Holds(s4, TablePart); }
    forall j
      ensures Traced(s4, s.leak, j)
    {
      if j == k {
        SettledTraced(s4, s.leak, h, k);
      } else {
        assert Traced(s, s.leak, j);
        RebuildLeaves(s3, k, h, s.leak, j);
        UntouchedThen(s, s3, s4, s.leak, j);
        UntouchedTraced(s, s4, s.leak, j);
      }
    }
  }

  lemma WholeStays(s: Lb, s1: Lb, d: Done, vc: VipConfig, h: Hashes)
    requires Good(s) && vc.spec in s.vips && Inv(s1) && s1.leak == s.leak && s1.adopted == s.adopted
             && vc.spec in s1.vips
    requires s1.vips[vc.spec].members == s.vips[vc.spec].members
    requires forall j :: j != vc.spec ==> Untouched(s, s1, s.leak, j)
    requires MergeDone(RemoveMembers(s1, vc.spec, Gone(s, vc)), vc.spec, Want(vc), Want(vc).Keys, d)
    ensures Ranged(d.s.t) && PlaneSafe(d.s.t.k) && (d.ok ==> PlaneSafe(Finish(d.s, vc.spec, Gone(s, vc), h).t.k))
  {
    var k, gone := vc.spec, Gone(s, vc);
    var s2 := RemoveMembers(s1, k, gone);
    InvRanged(d.s);
    GoodIsSafe(d.s);
    RemoveOk(s1, k, gone);
    PruneThenMerge(s1, s2, d.s, k, gone, Want(vc), d.ok);
    forall j | j != k
      ensures Untouched(s, d.s, s.leak, j)
    {
      UntouchedThen(s, s1, d.s, s.leak, j);
    }
    if d.ok {
      RebuiltAllTraced(s, d.s, k, h);
      assert d.s.adopted == map[] by { assert Holds(s, LivePart); }
      ReleaseAllOk(Rebuild(d.s, k, h), s.leak, gone);
      GoodIsSafe(Finish(d.s, k, gone, h));
    }
  }

  lemma WholeIsSafe(s: Lb, vc: VipConfig, hashChanged: bool, arp: map<U32, Mac>, h: Hashes)
    requires Good(s) && vc.spec in s.vips && MacsOk(arp) && !Bare(s, vc)
    ensures Ranged(s.t) && PlaneSafe(ReloadVip(s, vc, hashChanged, arp, h).s.t.k)
  {
    InvRanged(s);
    var k, s1 := vc.spec, Reflag(s, vc.spec, vc.noConntrack);
    ReflagWhole(s, vc);
    if RingChanges(s.vips[k], Want(vc), hashChanged) {
      RemoveOk(s1, k, Gone(s, vc));
      MergeOk(Prune(s, vc), k, Want(vc), Want(vc).Keys, arp);
      WholeStays(s, s1, Merge(Prune(s, vc), k, Want(vc), Want(vc).Keys, arp), vc, h);
    } else {
      ReloadQuiet(s, vc, arp, h);
      GoodIsSafe(s1);
    }
  }

  /** One VIP of a reload, from any good state: unsafe exactly when its flags change while it has no whole ring. */
  lemma ReloadVipSafeIff(s: Lb, vc: VipConfig, hashChanged: bool, arp: map<U32, Mac>, h: Hashes)
    requires Good(s) && vc.spec in s.vips && MacsOk(arp)
    ensures Ranged(s.t) && (PlaneSafe(ReloadVip(s, vc, hashChanged, arp, h).s.t.k) <==> !Bare(s, vc))
  {
    InvRanged(s);
    if Bare(s, vc) {
      BareStaysUnsafe(s, vc, hashChanged, arp, h);
    } else {
      WholeIsSafe(s, vc, hashChanged, arp, h);
    }
  }

  // ---- all of them

  lemma LaterTurn(s0: Lb, d: Done, d': Done, vc: VipConfig, hashChanged: bool, arp: map<U32, Mac>, h: Hashes)
    requires Ranged(d.s.t) && Evolves(s0, d.s) && d' == if d.ok then ApplyVip(d.s, vc, hashChanged, arp, h) else d
    ensures Evolves(s0, d'.s)
  {
    if d.ok {
      ApplyVipEvolves(d.s, vc, hashChanged, arp, h);
      Then(s0, d.s, d'.s);
    }
  }

  /** Later turns only add to the record. */
  lemma {:induction false} LaterTurns(turns: seq<Done>, s: Lb, vcs: seq<VipConfig>, m: nat, n: nat, hashChanged: bool,
                                      arp: map<U32, Mac>, h: Hashes)
    requires m <= n <= |vcs| && IsTurns(turns, s, vcs, hashChanged, arp, h)
    ensures Evolves(turns[m].s, turns[n].s)
    decreases n
  {
    if n == m {
      SameMembersEvolve(turns[m].s, turns[m].s);
    } else {
      LaterTurns(turns, s, vcs, m, n - 1, hashChanged, arp, h);
      assert TurnAt(turns, vcs, n - 1, hashChanged, arp, h);
      LaterTurn(turns[m].s, turns[n - 1], turns[n], vcs[n - 1], hashChanged, arp, h);
    }
  }

  lemma BareTurn(d: Done, d': Done, vc: VipConfig, hashChanged: bool, arp: map<U32, Mac>, h: Hashes)
    requires Ranged(d.s.t) && Bare(d.s, vc) && d' == ApplyVip(d.s, vc, hashChanged, arp, h)
    ensures !AllSafe(d'.s.t.k.log, 0)
  {
    BareStaysUnsafe(d.s, vc, hashChanged, arp, h);
  }

  lemma BareNext(turns: seq<Done>, s: Lb, vcs: seq<VipConfig>, i: nat, hashChanged: bool, arp: map<U32, Mac>, h: Hashes,
                 d: Done)
    requires i < |vcs| && IsTurns(turns, s, vcs, hashChanged, arp, h) && turns[i].ok && Bare(turns[i].s, vcs[i])
             && d == turns[i + 1]
    ensures !AllSafe(d.s.t.k.log, 0)
  {
    assert TurnAt(turns, vcs, i, hashChanged, arp, h);
    BareTurn(turns[i], d, vcs[i], hashChanged, arp, h);
  }

  /**
   A VIP without a ring whose turn comes and whose flags change: the reload is unsafe, whatever state it
   started from.
   */
  lemma BareTurnUnsafe(turns: seq<Done>, s: Lb, vcs: seq<VipConfig>, i: nat, n: nat, hashChanged: bool,
                       arp: map<U32, Mac>, h: Hashes)
    requires i < n <= |vcs| && IsTurns(turns, s, vcs, hashChanged, arp, h) && turns[i].ok && Bare(turns[i].s, vcs[i])
    ensures !AllSafe(turns[n].s.t.k.log, 0)
  {
    var j := i + 1;
    BareNext(turns, s, vcs, i, hashChanged, arp, h, turns[j]);
    LaterTurns(turns, s, vcs, j, n, hashChanged, arp, h);
    UnsafeStays(turns[j].s, turns[n].s);
  }

  /** Where every ring belongs to a VIP that was given it, a VIP that was not has none. */
  lemma NoRingOfItsOwn(s: Lb, k: VipSpec)
    requires Inv(s) && AllOwned(s) && k in s.vips && s.vips[k].generation == 0
    ensures s.vips[k].id !in s.t.k.maps.rings
  {
    assert Holds(s, IdsPart);
    assert !Owned(s, s.vips[k].id);
  }

  /** A VIP that never got a ring finds none under its id. */
  ghost predicate NoStrayRing(s: Lb) {
    forall k :: k in s.vips && s.vips[k].generation == 0 ==> s.vips[k].id !in s.t.k.maps.rings
  }

  lemma OwnedNoStray(s: Lb)
    requires Inv(s) && AllOwned(s)
    ensures NoStrayRing(s)
  {
    forall k | k in s.vips && s.vips[k].generation == 0
      ensures s.vips[k].id !in s.t.k.maps.rings
    {
      NoRingOfItsOwn(s, k);
    }
  }

  /** The first turn that is not harmless finds its VIP without a ring. */
  lemma FirstHarm(turns: seq<Done>, s: Lb, vcs: seq<VipConfig>, i: nat, hashChanged: bool, was: HashMode,
                  arp: map<U32, Mac>, h: Hashes)
    requires Good(s) && NoStrayRing(s) && i < |vcs| && DistinctSpecs(vcs) && MacsOk(arp)
             && hashChanged == (s.hash != was)
    requires IsTurns(turns, s, vcs, hashChanged, arp, h) && forall j: nat :: j < i ==> Harmless(turns, s, vcs, j)
    requires !Harmless(turns, s, vcs, i)
    ensures Bare(turns[i].s, vcs[i])
  {
    AppliedIfHarmless(turns, s, vcs, i, hashChanged, was, arp, h);
    assert vcs[i].spec !in SpecsTo(vcs, i);
    assert Untouched(s, turns[i].s, s.leak, vcs[i].spec);
  }

  lemma LeastHarm(turns: seq<Done>, s: Lb, vcs: seq<VipConfig>) returns (i: nat)
    requires |turns| == |vcs| + 1
    ensures i <= |vcs| && (forall j: nat :: j < i ==> Harmless(turns, s, vcs, j))
            && (i < |vcs| ==> !Harmless(turns, s, vcs, i))
  {
    i := 0;
    while i < |vcs| && Harmless(turns, s, vcs, i)
      invariant i <= |vcs| && forall j: nat :: j < i ==> Harmless(turns, s, vcs, j)
    {
      i := i + 1;
    }
  }

  lemma TurnsSafeIff(turns: seq<Done>, s: Lb, vcs: seq<VipConfig>, hashChanged: bool, was: HashMode, arp: map<U32, Mac>,
                     h: Hashes)
    requires Good(s) && NoStrayRing(s) && DistinctSpecs(vcs) && MacsOk(arp) && hashChanged == (s.hash != was)
    requires IsTurns(turns, s, vcs, hashChanged, arp, h)
    ensures AllSafe(turns[|vcs|].s.t.k.log, 0) <==> forall i: nat :: i < |vcs| ==> Harmless(turns, s, vcs, i)
    ensures AllSafe(turns[|vcs|].s.t.k.log, 0) ==> PlaneSafe(turns[|vcs|].s.t.k)
  {
    var i := LeastHarm(turns, s, vcs);
    if i == |vcs| {
      AppliedIfHarmless(turns, s, vcs, i, hashChanged, was, arp, h);
      GoodIsSafe(turns[i].s);
    } else {
      FirstHarm(turns, s, vcs, i, hashChanged, was, arp, h);
      BareTurnUnsafe(turns, s, vcs, i, |vcs|, hashChanged, arp, h);
    }
  }

  // ---- a reload

  /** Everything before VIP i fits, so the reload gets to it. */
  ghost predicate GetsTo(b: Basis, vcs: seq<VipConfig>, i: nat)
    requires i <= |vcs|
  {
    forall j :: 0 <= j < i ==> FitsAt(b, vcs, j)
  }

  ghost predicate HarmlessAt(s: Lb, c: Config, i: nat)
    requires i < |c.vips|
  {
    GetsTo(BasisOf(s, c), c.vips, i) ==> FlagsOk(s, c.vips[i])
  }

  /** Among the VIPs the reload gets to, it changes the flags of none that never got its ring. */
  ghost predicate SafeReload(s: Lb, c: Config) {
    forall i: nat :: i < |c.vips| ==> HarmlessAt(s, c, i)
  }

  lemma PrunedAlike(g: Lb, s: Lb, c: Config, lbMac: Mac)
    requires Ranged(g.t) && Ranged(s.t) && Alike(g, s)
    ensures Alike(Pruned(g, c, lbMac), Pruned(s, c, lbMac))
  {
    Means(g, s);
    var g1, s1 := Configure(g, c, lbMac), Configure(s, c, lbMac);
    PutAlike(g.t.k, s.t.k, PutConfig(ConfigOf(c, lbMac)));
    assert Alike(g1, s1);
    SameKeys(g1, s1);
    RangedSame(g.t, g1.t);
    RangedSame(s.t, s1.t);
    DeleteAllAlike(g1, s1, g1.vips.Keys - Specs(c));
  }

  lemma TurnsAlike(g: Lb, s: Lb, c: Config, lbMac: Mac, arp: map<U32, Mac>, h: Hashes, i: nat)
    requires Ranged(g.t) && Ranged(s.t) && Alike(g, s) && i <= |c.vips|
    ensures ReloadTurns(g, c, lbMac, arp, h)[i].ok == ReloadTurns(s, c, lbMac, arp, h)[i].ok
  {
    Means(g, s);
    PrunedAlike(g, s, c, lbMac);
    ApplyVipsAlike(Pruned(g, c, lbMac), Pruned(s, c, lbMac), c.vips, i, s.hash != c.hash, arp, h);
  }

  lemma StopsPast(b: Basis, vcs: seq<VipConfig>, fits: seq<bool>, r: nat, i: nat)
    requires fits == Fits(b, vcs) && Stops(fits, r) && i <= |vcs|
    ensures GetsTo(b, vcs, i) <==> i <= r
  {
    forall j: nat | j < |vcs|
      ensures FitsAt(b, vcs, j) == fits[j]
    {
      FitsIs(b, vcs, j, fits);
    }
  }

  /** The reload of a daemon in any state gets to VIP i exactly if everything before it fits. */
  lemma GetsToIff(s: Lb, c: Config, lbMac: Mac, arp: map<U32, Mac>, h: Hashes, i: nat)
    requires Sound(s) && DistinctSpecs(c.vips) && MacsOk(arp) && i <= |c.vips|
    ensures Ranged(s.t) && (ReloadTurns(s, c, lbMac, arp, h)[i].ok <==> GetsTo(BasisOf(s, c), c.vips, i))
  {
    SoundRanged(s);
    var g0 :| Good(g0) && Alike(g0, s);
    var g := g0.(vips := Preset(g0.vips, c));
    PresetIs(g0, g, c, s);
    InvRanged(g);
    SameBasis(g, s, c);
    var b := BasisOf(s, c);
    var r := StopsSomewhere(Fits(b, c.vips));
    GoodReach(g, c, lbMac, arp, h, r, i);
    StopsPast(b, c.vips, Fits(b, c.vips), r, i);
    TurnsAlike(g, s, c, lbMac, arp, h, i);
  }

  lemma HarmlessIff(s: Lb, s2: Lb, c: Config, lbMac: Mac, arp: map<U32, Mac>, h: Hashes, i: nat)
    requires Good(s) && Ranged(s.t) && DistinctSpecs(c.vips) && MacsOk(arp) && i < |c.vips|
    requires forall j :: j in Specs(c) ==> Untouched(s, s2, s.leak, j)
    ensures Harmless(ReloadTurns(s, c, lbMac, arp, h), s2, c.vips, i) <==> HarmlessAt(s, c, i)
  {
    GoodIsSound(s);
    GetsToIff(s, c, lbMac, arp, h, i);
    assert c.vips[i].spec in Specs(c);
    assert Untouched(s, s2, s.leak, c.vips[i].spec);
  }

  lemma SafeIff(s: Lb, s2: Lb, c: Config, lbMac: Mac, arp: map<U32, Mac>, h: Hashes, turns: seq<Done>)
    requires Good(s) && Ranged(s.t) && DistinctSpecs(c.vips) && MacsOk(arp) && turns == ReloadTurns(s, c, lbMac, arp, h)
    requires forall j :: j in Specs(c) ==> Untouched(s, s2, s.leak, j)
    ensures SafeReload(s, c) <==> forall i: nat :: i < |c.vips| ==> Harmless(turns, s2, c.vips, i)
  {
    forall i: nat | i < |c.vips|
      ensures Harmless(turns, s2, c.vips, i) <==> HarmlessAt(s, c, i)
    {
      HarmlessIff(s, s2, c, lbMac, arp, h, i);
    }
  }

  /** A reload that does no harm keeps the daemon good, complete or not. */
  lemma SafeReloadOk(s: Lb, c: Config, lbMac: Mac, arp: map<U32, Mac>, h: Hashes)
    requires Good(s) && Ranged(s.t) && DistinctSpecs(c.vips) && MacsOk(arp) && SafeReload(s, c)
    ensures Good(Reload(s, c, lbMac, arp, h).s)
    ensures Reload(s, c, lbMac, arp, h).ok ==> Reconfigured(s, Reload(s, c, lbMac, arp, h).s, c, h)
  {
    PrunedOk(s, c, lbMac);
    var s2, turns, n := Pruned(s, c, lbMac), ReloadTurns(s, c, lbMac, arp, h), |c.vips|;
    SafeIff(s, s2, c, lbMac, arp, h, turns);
    ReloadIsTurns(s, c, lbMac, arp, h);
    AppliedIfHarmless(turns, s2, c.vips, n, s.hash != c.hash, s.hash, arp, h);
    if turns[n].ok {
      Composed(s, s2, turns[n].s, c, h);
    }
  }

  lemma PrunedNoStray(s: Lb, s2: Lb, c: Config)
    requires NoStrayRing(s) && s2.vips.Keys <= Specs(c) && forall j :: j in Specs(c) ==> Untouched(s, s2, s.leak, j)
    ensures NoStrayRing(s2)
  {
    forall k | k in s2.vips && s2.vips[k].generation == 0
      ensures s2.vips[k].id !in s2.t.k.maps.rings
    {
      assert Untouched(s, s2, s.leak, k);
    }
  }

  /**
   A reload passes through an unsafe map state exactly when it gets to a VIP whose creation was never
   completed and changes its flags. (A daemon that died between the write of a ring and that of its VIP
   map entry leaves a ring nobody owns; a VIP that later gets the id may by accident find it. Then
   `ReloadVipSafeIff` says what happens.)
   */
  lemma ReloadSafeIff(s: Lb, c: Config, lbMac: Mac, arp: map<U32, Mac>, h: Hashes)
    requires Good(s) && NoStrayRing(s) && DistinctSpecs(c.vips) && MacsOk(arp)
    ensures Ranged(s.t)
    ensures PlaneSafe(Reload(s, c, lbMac, arp, h).s.t.k) <==> SafeReload(s, c)
    ensures AllSafe(Reload(s, c, lbMac, arp, h).s.t.k.log, 0) <==> SafeReload(s, c)
  {
    InvRanged(s);
    PrunedOk(s, c, lbMac);
    var s2, turns := Pruned(s, c, lbMac), ReloadTurns(s, c, lbMac, arp, h);
    PrunedNoStray(s, s2, c);
    ReloadIsTurns(s, c, lbMac, arp, h);
    TurnsSafeIff(turns, s2, c.vips, s.hash != c.hash, s.hash, arp, h);
    SafeIff(s, s2, c, lbMac, arp, h, turns);
  }
}
