/** The first apply as a whole. */
module Hitless {
  import opened Basics
  import opened BuildMaglev
  import opened Ring
  import opened Maps
  import opened Reals
  import opened LbModel
  import opened Control
  import opened ControlLaws
  import opened MemberLaws
  import opened ReleaseLaws
  import opened OpLaws
  import opened Capacity
  import opened Budget
  import opened ApplyLaws
  import opened Convergence
  import opened OneTurn
  import opened Outcome
  import opened StartLaws
  import opened Restart

  /** Everything is as configured; only unreferenced leftovers remain to be freed. */
  ghost predicate Ready(s: Lb, h: Hashes) {
    Inv(s) && !s.initialized && s.adopted == map[] && s.leak == multiset{} && AllSteady(s, h)
  }

  lemma ReadyTraced(s: Lb, h: Hashes)
    requires Ready(s, h)
    ensures AllTraced(s, s.leak)
  {
    assert Holds(s, TablePart);
    assert Holds(s, IdsPart);
    forall j
      ensures Traced(s, s.leak, j)
    {
      assert Steady(s, h, j);
      if j in s.vips {
        SettledTraced(s, s.leak, h, j);
      }
    }
  }

  ghost function Tidied(s: Lb): (s': Lb)
    requires |s.t.slots| == MAX_REALS
  {
    s.(t := Drop(s.t), initialized := true)
  }

  lemma TidiedInv(s: Lb, h: Hashes)
    requires Ready(s, h) && |s.t.slots| == MAX_REALS && Dropped(s.t, Drop(s.t))
    ensures Inv(Tidied(s))
  {
    Open(s);
    DroppedHeld(s.vips, s.t, Drop(s.t));
    Close(Tidied(s));
  }

  lemma TidiedLeaves(s: Lb, h: Hashes, j: VipSpec)
    requires Ready(s, h) && |s.t.slots| == MAX_REALS && Dropped(s.t, Drop(s.t))
    ensures Untouched(s, Tidied(s), s.leak, j)
  {
    assert Holds(s, HeldPart);
    if j in s.vips {
      forall a | a in s.vips[j].members || a in s.leak
        ensures KeepsAddr(s.t.slots, s.t.byAddr, Drop(s.t).slots, Drop(s.t).byAddr, a)
      {
        MemberHasRefs(s.vips, s.t, j, a);
        DroppedAddr(s.t, Drop(s.t), a);
      }
    }
  }

  /** drop_unreferenced frees what nobody refers to and leaves every VIP served as it was. */
  lemma TidyOk(s: Lb, h: Hashes, ks: set<VipSpec>, ids: set<nat>)
    requires Ready(s, h) && forall id :: id in ids && id < |s.t.slots| ==> s.t.slots[id].refs > 0
    ensures |s.t.slots| == MAX_REALS && Neat(Tidied(s), h) && SparedAll(s.t.k, Tidied(s).t.k, ks, ids)
    ensures KeepsHeld(s.t, Tidied(s).t)
  {
    ReadyTraced(s, h);
    DropAllOk(s);
    TidiedInv(s, h);
    DroppedSpares(s.t, Drop(s.t), ks, ids);
    forall j
      ensures Steady(Tidied(s), h, j)
    {
      TidiedLeaves(s, h, j);
      assert Steady(s, h, j);
      UntouchedSteady(s, Tidied(s), s.leak, h, j);
    }
    forall a | HasRefs(s.t.slots, s.t.byAddr, a)
      ensures a in Drop(s.t).byAddr && Drop(s.t).byAddr[a] == s.t.byAddr[a]
    {
      DroppedAddr(s.t, Drop(s.t), a);
    }
  }

  ghost predicate KeepsHeld(t: Tab, t': Tab) {
    forall a :: HasRefs(t.slots, t.byAddr, a) ==> a in t'.byAddr && t'.byAddr[a] == t.byAddr[a]
  }

  // ---- from the created VIPs to a running daemon

  lemma UnpinnedReady(s: Lb, s1: Lb, h: Hashes, ks: set<VipSpec>, ids: set<nat>)
    requires Purged(s, s1, ks, ids) && !s.initialized && s.leak == multiset{} && AllSteady(s, h)
    ensures Ready(s1.(adopted := map[]), h)
  {
    forall j
      ensures Steady(s1.(adopted := map[]), h, j)
    {
      assert Steady(s, h, j);
      if j in s.vips {
        UntouchedSteady(s, s1, s.leak, h, j);
      }
    }
  }

  lemma PurgeAll(s: Lb, ids: set<nat>)
    requires Inv(s) && !s.initialized
    ensures Ranged(s.t) && Purged(s, Purge(s, s.adopted.Keys - s.vips.Keys), s.vips.Keys, ids)
  {
    InvRanged(s);
    assert Holds(s, IdsPart);
    assert s.adopted.Keys - s.vips.Keys == s.adopted.Keys;
    assert Only(s.adopted, s.adopted.Keys) == s.adopted;
    assert s.(adopted := Only(s.adopted, s.adopted.Keys)) == s;
    PurgeOk(s, s.adopted.Keys, s.vips.Keys, ids);
  }

  /** The clean-up ends the start: what is configured has been served all along. */
  lemma CleanupOk(s: Lb, h: Hashes, ids: set<nat>)
    requires Inv(s) && !s.initialized && s.leak == multiset{} && AllSteady(s, h)
    requires forall id :: id in ids && id < |s.t.slots| ==> s.t.slots[id].refs > 0
    ensures Ranged(s.t) && Neat(Cleanup(s), h) && SparedAll(s.t.k, Cleanup(s).t.k, s.vips.Keys, ids)
    ensures Cleanup(s) == s.(adopted := map[], initialized := true, t := Cleanup(s).t) && KeepsHeld(s.t, Cleanup(s).t)
  {
    PurgeAll(s, ids);
    var s1 := Purge(s, s.adopted.Keys - s.vips.Keys);
    UnpinnedReady(s, s1, h, s.vips.Keys, ids);
    TidyOk(s1.(adopted := map[]), h, s.vips.Keys, ids);
    SparedAllThen(s.t.k, s1.t.k, Cleanup(s).t.k, s.vips.Keys, ids);
  }

  // ---- the theorem

  /** The ids of the addresses that are both live in these maps and configured. */
  ghost function Retained(m: Maps, c: Config): (ids: set<nat>) {
    set id: nat | id < |m.reals| && m.reals[id] != 0 && m.reals[id] in AllReals(c)
  }

  lemma StartingSteady(s0: Lb, s: Lb, c: Config, h: Hashes)
    requires Starting(s0, s, c.vips, |c.vips|, h)
    ensures AllSteady(s, h) && s.vips.Keys == Specs(c)
  {
    assert SpecsTo(c.vips, |c.vips|) == Specs(c);
    forall j
      ensures Steady(s, h, j)
    {
      if j in s.vips {
        var i :| 0 <= i < |c.vips| && c.vips[i].spec == j;
        assert Started(s0, s, c.vips[i], h);
      }
    }
  }

  /** A configured address is referenced once the VIPs are there. */
  lemma ConfiguredHasRefs(s0: Lb, s: Lb, c: Config, h: Hashes, a: U32)
    requires Starting(s0, s, c.vips, |c.vips|, h) && s.leak == multiset{} && a in AllReals(c)
    ensures HasRefs(s.t.slots, s.t.byAddr, a)
  {
    var i :| 0 <= i < |c.vips| && a in Want(c.vips[i]);
    assert Started(s0, s, c.vips[i], h);
    assert Holds(s, HeldPart);
    MemberHasRefs(s.vips, s.t, c.vips[i].spec, a);
  }

  lemma RetainedHasRefs(k: Plane, s0: Lb, s: Lb, c: Config, h: Hashes, id: nat)
    requires PlaneSafe(k) && s0.t.slots == Adopt(k).slots && s0.t.byAddr == Adopt(k).byAddr
    requires Starting(s0, s, c.vips, |c.vips|, h) && s.leak == multiset{}
    requires id in Retained(k.maps, c)
    ensures id < |s.t.slots| && s.t.slots[id].refs > 0
    ensures k.maps.reals[id] in s.t.byAddr && s.t.byAddr[k.maps.reals[id]] == id
  {
    AdoptOk(k);
    var a := k.maps.reals[id];
    ConfiguredHasRefs(s0, s, c, h, a);
    assert KeepsAddr(s0.t.slots, s0.t.byAddr, s.t.slots, s.t.byAddr, a);
  }

  ghost function Begun(k: Plane, c: Config, lbMac: Mac): (s: Lb)
    requires |k.maps.reals| == |k.maps.neigh| == MAX_REALS
  {
    Configure(AdoptAll(Fresh(k)), c, lbMac)
  }

  lemma BegunOk(k: Plane, c: Config, lbMac: Mac)
    requires PlaneSafe(k)
    ensures var s := Begun(k, c, lbMac);
            && Inv(s) && s.vips == map[] && s.leak == multiset{} && !s.initialized && s.hash == c.hash
               && s.nextHop == c.nextHop
            && s.t.slots == Adopt(k).slots && s.t.byAddr == Adopt(k).byAddr && Grown(k, s.t.k)
            && s.adopted.Keys == k.maps.vipMap.Keys && forall j :: j in s.adopted
                                                         ==> s.adopted[j] == k.maps.vipMap[j].id
  {
    AdoptInv(k);
    ConfigureOk(AdoptAll(Fresh(k)), c, lbMac);
    PutGrows(k, PutConfig(ConfigOf(c, lbMac)));
  }

  /** The first apply is: adopt, configure, create every VIP, clean up. */
  lemma StartIs(k: Plane, c: Config, lbMac: Mac, hashChanged: bool, arp: map<U32, Mac>, h: Hashes)
    requires PlaneSafe(k) && hashChanged == (c.hash != ByMaglev)
    ensures Ranged(Begun(k, c, lbMac).t)
    ensures var d := ApplyVips(Begun(k, c, lbMac), c.vips, |c.vips|, hashChanged, arp, h);
            Start(Fresh(k), c, lbMac, arp, h) == if d.ok then Done(Cleanup(d.s), true) else d
  {
    BegunOk(k, c, lbMac);
    var s := Begun(k, c, lbMac);
    InvRanged(s);
    assert s.vips.Keys - Specs(c) == {};
    assert DeleteAll(s, {}) == s;
  }

  /** Every configured VIP and real the maps knew keeps its id. */
  ghost predicate KeepsMeaning(k: Plane, s: Lb, c: Config) {
    && (forall id :: id in Retained(k.maps, c) ==> k.maps.reals[id] in s.t.byAddr && s.t.byAddr[k.maps.reals[id]] == id)
    && (forall j :: j in Specs(c) && j in k.maps.vipMap ==> j in s.vips && s.vips[j].id == k.maps.vipMap[j].id)
  }

  lemma StartedKeepsMeaning(k: Plane, c: Config, lbMac: Mac, s: Lb, h: Hashes)
    requires PlaneSafe(k) && Starting(Begun(k, c, lbMac), s, c.vips, |c.vips|, h) && s.leak == multiset{}
    ensures KeepsMeaning(k, s, c) && s.vips.Keys == Specs(c)
    ensures forall id :: id in Retained(k.maps, c) ==> id < |s.t.slots| && s.t.slots[id].refs > 0
  {
    var s0 := Begun(k, c, lbMac);
    BegunOk(k, c, lbMac);
    StartingSteady(s0, s, c, h);
    forall id | id in Retained(k.maps, c)
      ensures id < |s.t.slots| && s.t.slots[id].refs > 0
      ensures k.maps.reals[id] in s.t.byAddr && s.t.byAddr[k.maps.reals[id]] == id
    {
      RetainedHasRefs(k, s0, s, c, h, id);
    }
    forall j | j in Specs(c) && j in k.maps.vipMap
      ensures j in s.vips && s.vips[j].id == k.maps.vipMap[j].id
    {
      var i :| 0 <= i < |c.vips| && c.vips[i].spec == j;
      assert Started(s0, s, c.vips[i], h);
    }
  }

  lemma StartConforms(s0: Lb, s: Lb, c: Config, h: Hashes)
    requires Starting(s0, s, c.vips, |c.vips|, h) && s0.hash == c.hash && s0.nextHop == c.nextHop
    ensures Conforms(s, c)
  {
    StartingSteady(s0, s, c, h);
    forall i | 0 <= i < |c.vips|
      ensures AsWanted(s, c.vips[i])
    {
      assert Started(s0, s, c.vips[i], h);
    }
  }

  lemma CleanedKeepsMeaning(k: Plane, s: Lb, s': Lb, c: Config)
    requires KeepsMeaning(k, s, c) && KeepsHeld(s.t, s'.t) && s'.vips == s.vips
    requires forall id :: id in Retained(k.maps, c) ==> id < |s.t.slots| && s.t.slots[id].refs > 0
    ensures KeepsMeaning(k, s', c)
  {
    forall id | id in Retained(k.maps, c)
      ensures k.maps.reals[id] in s'.t.byAddr && s'.t.byAddr[k.maps.reals[id]] == id
    {
      assert HasRefs(s.t.slots, s.t.byAddr, k.maps.reals[id]);
    }
  }

  lemma Completed(k: Plane, c: Config, lbMac: Mac, s: Lb, h: Hashes)
    requires PlaneSafe(k) && Starting(Begun(k, c, lbMac), s, c.vips, |c.vips|, h)
    ensures Ranged(s.t) && Neat(Cleanup(s), h) && Conforms(Cleanup(s), c) && KeepsMeaning(k, Cleanup(s), c)
    ensures SparedAll(k, Cleanup(s).t.k, Specs(c), Retained(k.maps, c))
  {
    var s0 := Begun(k, c, lbMac);
    BegunOk(k, c, lbMac);
    StartingSteady(s0, s, c, h);
    StartConforms(s0, s, c, h);
    StartedKeepsMeaning(k, c, lbMac, s, h);
    CleanupOk(s, h, Retained(k.maps, c));
    CleanedKeepsMeaning(k, s, Cleanup(s), c);
    GrownTransitive(k, s0.t.k, s.t.k);
    GrownSpares(k, s.t.k, Specs(c), Retained(k.maps, c));
    SparedAllThen(k, s.t.k, Cleanup(s).t.k, Specs(c), Retained(k.maps, c));
  }

  /**
   Whatever safe maps the old daemon left, wherever it died, and whatever the new configuration is:
   every write of the new daemon's first apply keeps the maps safe, and none changes the vip_id of a
   VIP or the address or MAC of a real that is still configured. Once complete, the daemon is as
   configured and its table has the same ids.
   */
  lemma HitlessRestart(k: Plane, c: Config, lbMac: Mac, arp: map<U32, Mac>, h: Hashes)
    requires PlaneSafe(k) && DistinctSpecs(c.vips) && MacsOk(arp)
    ensures var d := Start(Fresh(k), c, lbMac, arp, h);
            && Inv(d.s) && PlaneSafe(d.s.t.k) && SparedAll(k, d.s.t.k, Specs(c), Retained(k.maps, c))
            && (d.ok ==> Neat(d.s, h) && Conforms(d.s, c) && KeepsMeaning(k, d.s, c))
  {
    var s0, hashChanged := Begun(k, c, lbMac), c.hash != ByMaglev;
    BegunOk(k, c, lbMac);
    StartIs(k, c, lbMac, hashChanged, arp, h);
    StartVips(s0, c.vips, |c.vips|, hashChanged, arp, h);
    var d := ApplyVips(s0, c.vips, |c.vips|, hashChanged, arp, h);
    if d.ok {
      Completed(k, c, lbMac, d.s, h);
    } else {
      GrownTransitive(k, s0.t.k, d.s.t.k);
      GrownSpares(k, d.s.t.k, Specs(c), Retained(k.maps, c));
    }
    assert Holds(Start(Fresh(k), c, lbMac, arp, h).s, TablePart);
  }

  // ---- completion

  /** Real ids for the addresses of `live` and of the first n VIPs, and vip ids for those of `ks` and the first n. */
  ghost predicate StartFits(live: set<U32>, ks: set<VipSpec>, vcs: seq<VipConfig>, n: nat)
    requires n <= |vcs|
  {
    Room(live + WantedTo(vcs, n)) && AtMost(ks + SpecsTo(vcs, n), MAX_VIPS)
  }

  lemma FewerAtMost(a: set<VipSpec>, b: set<VipSpec>, n: nat)
    requires a <= b && AtMost(b, n)
    ensures AtMost(a, n)
  {
    SubsetSize(a, b);
    AtMostIs(a, n);
    AtMostIs(b, n);
  }

  lemma StartFitsLess(live: set<U32>, ks: set<VipSpec>, vcs: seq<VipConfig>, n: nat)
    requires 0 < n <= |vcs| && StartFits(live, ks, vcs, n)
    ensures StartFits(live, ks, vcs, n - 1)
  {
    RoomLess(live + WantedTo(vcs, n - 1), live + WantedTo(vcs, n));
    FewerAtMost(ks + SpecsTo(vcs, n - 1), ks + SpecsTo(vcs, n), MAX_VIPS);
  }

  /** The turn of VIP n - 1 fits exactly if the first n do. */
  lemma StartTurnFits(s0: Lb, s: Lb, vcs: seq<VipConfig>, n: nat, live: set<U32>, ks: set<VipSpec>)
    requires 0 < n <= |vcs| && live == s0.t.byAddr.Keys && ks == s0.adopted.Keys
    requires s.vips.Keys == SpecsTo(vcs, n - 1) && s.adopted == s0.adopted - SpecsTo(vcs, n - 1)
    requires s.t.byAddr.Keys == live + WantedTo(vcs, n - 1)
    ensures TurnFits(s, vcs[n - 1]) <==> StartFits(live, ks, vcs, n)
  {
    SpecsNext(vcs, n);
    assert s.vips.Keys + s.adopted.Keys + {vcs[n - 1].spec} == ks + SpecsTo(vcs, n);
    assert s.t.byAddr.Keys + Want(vcs[n - 1]).Keys == live + WantedTo(vcs, n);
  }

  lemma StartCreates(s: Lb, d: Done, vc: VipConfig, hashChanged: bool, arp: map<U32, Mac>, h: Hashes)
    requires Inv(s) && Ranged(s.t) && vc.spec !in s.vips && MacsOk(arp) && d == ApplyVip(s, vc, hashChanged, arp, h)
    ensures (d.ok <==> TurnFits(s, vc)) && (d.ok ==> d.s.t.byAddr.Keys == s.t.byAddr.Keys + Want(vc).Keys)
  {
    TurnExact(s, vc, hashChanged, arp, h);
    TurnMeans(s, d, vc, hashChanged, arp);
    CreateLive(s, vc, arp, h);
    if d.ok {
      AllPlaced(s, vc);
    }
  }

  datatype StartMatter = HowFar | TheLive | TheKnown

  ghost predicate StartAt(s0: Lb, vcs: seq<VipConfig>, n: nat, d: Done, x: StartMatter)
    requires n <= |vcs|
  {
    match x
    case HowFar => d.ok <==> StartFits(s0.t.byAddr.Keys, s0.adopted.Keys, vcs, n)
    case TheLive => d.ok ==> d.s.t.byAddr.Keys == s0.t.byAddr.Keys + WantedTo(vcs, n)
    case TheKnown => d.ok ==> KnowsFirst(s0, d.s, vcs, n)
  }

  /** Where a start is after n turns, folded. */
  ghost predicate StartReached(s0: Lb, vcs: seq<VipConfig>, n: nat, d: Done)
    requires n <= |vcs|
  {
    forall x: StartMatter {:trigger StartAt(s0, vcs, n, d, x)} :: StartAt(s0, vcs, n, d, x)
  }

  /** The first n VIPs are known and no longer adopted. */
  ghost predicate KnowsFirst(s0: Lb, s: Lb, vcs: seq<VipConfig>, n: nat)
    requires n <= |vcs|
  {
    Inv(s) && s.vips.Keys == SpecsTo(vcs, n) && s.adopted == s0.adopted - SpecsTo(vcs, n)
  }

  lemma StartLives(s: Lb, s': Lb, vcs: seq<VipConfig>, n: nat, live: set<U32>)
    requires 0 < n <= |vcs| && s.t.byAddr.Keys == live + WantedTo(vcs, n - 1)
    requires s'.t.byAddr.Keys == s.t.byAddr.Keys + Want(vcs[n - 1]).Keys
    ensures s'.t.byAddr.Keys == live + WantedTo(vcs, n)
  {
  }

  lemma StartGoes(s0: Lb, s: Lb, d: Done, vcs: seq<VipConfig>, n: nat)
    requires 0 < n <= |vcs| && KnowsFirst(s0, s, vcs, n - 1)
             && s.t.byAddr.Keys == s0.t.byAddr.Keys + WantedTo(vcs, n - 1)
    requires d.ok <==> TurnFits(s, vcs[n - 1])
    requires d.ok ==> d.s.t.byAddr.Keys == s.t.byAddr.Keys + Want(vcs[n - 1]).Keys && KnowsFirst(s0, d.s, vcs, n)
    ensures StartReached(s0, vcs, n, d)
  {
    StartTurnFits(s0, s, vcs, n, s0.t.byAddr.Keys, s0.adopted.Keys);
    if d.ok {
      StartLives(s, d.s, vcs, n, s0.t.byAddr.Keys);
    }
  }

  lemma StartStops(s0: Lb, d: Done, vcs: seq<VipConfig>, n: nat)
    requires 0 < n <= |vcs| && StartReached(s0, vcs, n - 1, d) && !d.ok
    ensures StartReached(s0, vcs, n, d)
  {
    assert StartAt(s0, vcs, n - 1, d, HowFar);
    var live, ks := s0.t.byAddr.Keys, s0.adopted.Keys;
    if StartFits(live, ks, vcs, n) {
      StartFitsLess(live, ks, vcs, n);
    }
  }

  lemma StartTurn(s0: Lb, s: Lb, d: Done, vcs: seq<VipConfig>, n: nat, hashChanged: bool, arp: map<U32, Mac>, h: Hashes)
    requires 0 < n <= |vcs| && DistinctSpecs(vcs) && MacsOk(arp) && StartReached(s0, vcs, n - 1, Done(s, true))
             && Ranged(s.t)
    requires d == ApplyVip(s, vcs[n - 1], hashChanged, arp, h) && (d.ok ==> KnowsFirst(s0, d.s, vcs, n))
    ensures StartReached(s0, vcs, n, d)
  {
    assert StartAt(s0, vcs, n - 1, Done(s, true), TheLive) && StartAt(s0, vcs, n - 1, Done(s, true), TheKnown);
    assert vcs[n - 1].spec !in SpecsTo(vcs, n - 1);
    StartCreates(s, d, vcs[n - 1], hashChanged, arp, h);
    StartGoes(s0, s, d, vcs, n);
  }

  ghost predicate KnowsAt(s0: Lb, turns: seq<Done>, vcs: seq<VipConfig>, i: nat)
    requires i < |turns| && i <= |vcs|
  {
    turns[i].ok ==> KnowsFirst(s0, turns[i].s, vcs, i)
  }

  lemma StartOn(s0: Lb, turns: seq<Done>, d: Done, d': Done, vcs: seq<VipConfig>, n: nat, hashChanged: bool,
                arp: map<U32, Mac>, h: Hashes)
    requires 0 < n <= |vcs| && DistinctSpecs(vcs) && MacsOk(arp) && IsTurns(turns, s0, vcs, hashChanged, arp, h)
    requires d == turns[n - 1] && d' == turns[n] && KnowsAt(s0, turns, vcs, n) && StartReached(s0, vcs, n - 1, d)
    ensures StartReached(s0, vcs, n, d')
  {
    assert TurnAt(turns, vcs, n - 1, hashChanged, arp, h);
    if d.ok {
      StartTurn(s0, d.s, d', vcs, n, hashChanged, arp, h);
    } else {
      StartStops(s0, d, vcs, n);
    }
  }

  lemma NothingStarted(s0: Lb, vcs: seq<VipConfig>)
    requires Inv(s0) && s0.vips == map[]
    ensures StartReached(s0, vcs, 0, Done(s0, true))
  {
    LiveRoom(s0);
    VipsFit(s0);
    var live, ks := s0.t.byAddr.Keys, s0.adopted.Keys;
    assert live + WantedTo(vcs, 0) == live && ks + SpecsTo(vcs, 0) == s0.vips.Keys + ks;
    assert s0.adopted - SpecsTo(vcs, 0) == s0.adopted;
  }

  lemma {:induction false} StartVipsIff(s0: Lb, turns: seq<Done>, vcs: seq<VipConfig>, n: nat, hashChanged: bool,
                                        arp: map<U32, Mac>, h: Hashes)
    requires Inv(s0) && s0.vips == map[] && n <= |vcs| && DistinctSpecs(vcs) && MacsOk(arp)
    requires IsTurns(turns, s0, vcs, hashChanged, arp, h) && forall i: nat :: i <= |vcs| ==> KnowsAt(s0, turns, vcs, i)
    ensures StartReached(s0, vcs, n, turns[n])
  {
    if n == 0 {
      NothingStarted(s0, vcs);
    } else {
      StartVipsIff(s0, turns, vcs, n - 1, hashChanged, arp, h);
      assert KnowsAt(s0, turns, vcs, n);
      StartOn(s0, turns, turns[n - 1], turns[n], vcs, n, hashChanged, arp, h);
    }
  }

  lemma AllTurnsStart(s0: Lb, vcs: seq<VipConfig>, hashChanged: bool, arp: map<U32, Mac>, h: Hashes, turns: seq<Done>)
    requires Inv(s0) && s0.vips == map[] && DistinctSpecs(vcs) && MacsOk(arp) && Ranged(s0.t)
             && turns == Turns(s0, vcs, hashChanged, arp, h)
    ensures IsTurns(turns, s0, vcs, hashChanged, arp, h)
            && turns[|vcs|] == ApplyVips(s0, vcs, |vcs|, hashChanged, arp, h)
    ensures forall i: nat :: i <= |vcs| ==> KnowsAt(s0, turns, vcs, i)
  {
    TurnsAre(s0, vcs, hashChanged, arp, h, turns);
    forall i: nat | i <= |vcs|
      ensures KnowsAt(s0, turns, vcs, i)
    {
      StartVips(s0, vcs, i, hashChanged, arp, h);
    }
  }

  lemma AllWanted(c: Config)
    ensures WantedTo(c.vips, |c.vips|) == AllReals(c) && SpecsTo(c.vips, |c.vips|) == Specs(c)
  {
    forall a
      ensures a in WantedTo(c.vips, |c.vips|) <==> a in AllReals(c)
    {
      WantedIs(c.vips, |c.vips|, a);
    }
  }

  /** A start completes exactly if pinned and configured reals fit 511 ids, and pinned and configured VIPs 64. */
  lemma StartEndsIff(k: Plane, c: Config, lbMac: Mac, arp: map<U32, Mac>, h: Hashes)
    requires PlaneSafe(k) && DistinctSpecs(c.vips) && MacsOk(arp)
    ensures Start(Fresh(k), c, lbMac, arp, h).ok <==>
              Room(Adopt(k).byAddr.Keys + AllReals(c)) && AtMost(k.maps.vipMap.Keys + Specs(c), MAX_VIPS)
  {
    var s0, hashChanged, n := Begun(k, c, lbMac), c.hash != ByMaglev, |c.vips|;
    BegunOk(k, c, lbMac);
    InvRanged(s0);
    StartIs(k, c, lbMac, hashChanged, arp, h);
    var turns := Turns(s0, c.vips, hashChanged, arp, h);
    AllTurnsStart(s0, c.vips, hashChanged, arp, h, turns);
    StartVipsIff(s0, turns, c.vips, n, hashChanged, arp, h);
    assert StartAt(s0, c.vips, n, turns[n], HowFar);
    AllWanted(c);
  }
}
