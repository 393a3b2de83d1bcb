/**
 What holds of a daemon in every run without exception. A state is sound if it differs from a good one
 only in flags, in what the VIP map shows and in the record of map states. Every call keeps a daemon
 sound, also the reload that publishes a VIP without a ring.
 */
module Soundness {
  import opened Basics
  import opened BuildMaglev
  import opened Ring
  import opened Maps
  import opened Reals
  import opened Health
  import opened LbModel
  import opened Control
  import opened ControlLaws
  import opened MemberLaws
  import opened OpLaws
  import opened VipLaws
  import opened ReloadLaws
  import opened Capacity
  import opened Budget
  import opened ApplyLaws
  import opened Convergence
  import opened Akin
  import opened Published
  import opened Completeness
  import opened OneTurn
  import opened Outcome

  ghost predicate Sound(s: Lb) {
    exists g :: Good(g) && Alike(g, s)
  }

  lemma SameVipsThen(a: map<VipSpec, Vip>, b: map<VipSpec, Vip>, c: map<VipSpec, Vip>)
    requires SameVips(a, b) && SameVips(b, c)
    ensures SameVips(a, c)
  {
    forall k
      ensures SameVip(a, c, k)
    {
      assert SameVip(a, b, k) && SameVip(b, c, k);
    }
  }

  lemma SameVipsBack(a: map<VipSpec, Vip>, b: map<VipSpec, Vip>)
    requires SameVips(a, b)
    ensures SameVips(b, a)
  {
    forall k
      ensures SameVip(b, a, k)
    {
      assert SameVip(a, b, k);
    }
  }

  lemma GoodIsSound(s: Lb)
    requires Good(s)
    ensures Sound(s)
  {
    forall k
      ensures SameVip(s.vips, s.vips, k)
    {
    }
    assert Alike(s, s);
  }

  // ---- flags do not matter to a good state

  lemma SameHolderSet(vips: map<VipSpec, Vip>, vips': map<VipSpec, Vip>, a: U32)
    requires SameVips(vips, vips')
    ensures Holders(vips', a) == Holders(vips, a)
  {
    forall k
      ensures k in HolderSet(vips, a) <==> k in HolderSet(vips', a)
    {
      assert SameVip(vips, vips', k);
    }
    assert HolderSet(vips', a) == HolderSet(vips, a);
  }

  lemma ReflaggedHeld(vips: map<VipSpec, Vip>, vips': map<VipSpec, Vip>, slots: seq<Slot>, byAddr: map<U32, U32>,
                      leak: multiset<U32>)
    requires HeldOk(vips, slots, byAddr, leak) && SameVips(vips, vips')
    ensures HeldOk(vips', slots, byAddr, leak)
  {
    forall k, a | k in vips' && a in vips'[k].members
      ensures a in byAddr
    {
      assert SameVip(vips, vips', k);
    }
    forall a | a in byAddr
      ensures HeldAt(vips', slots, byAddr, leak, a)
    {
      assert HeldAt(vips, slots, byAddr, leak, a);
      SameHolderSet(vips, vips', a);
    }
  }

  lemma ReflaggedIds(vips: map<VipSpec, Vip>, vips': map<VipSpec, Vip>, adopted: map<VipSpec, nat>,
                     vipMap: map<VipSpec, VipValue>)
    requires IdsOk(vips, adopted, vipMap) && SameVips(vips, vips')
    ensures IdsOk(vips', adopted, vipMap)
  {
    forall k
      ensures (k in vips <==> k in vips') && (k in vips ==> vips'[k].id == vips[k].id)
    {
      assert SameVip(vips, vips', k);
    }
  }

  lemma ReflaggedGen(vips: map<VipSpec, Vip>, vips': map<VipSpec, Vip>, installs: map<nat, nat>,
                     base: map<VipSpec, nat>)
    requires GenOk(vips, installs, base) && SameVips(vips, vips')
    ensures GenOk(vips', installs, base)
  {
    forall k | k in vips'
      ensures k in base && vips'[k].generation + base[k] == Installed(installs, vips'[k].id)
    {
      assert SameVip(vips, vips', k);
    }
  }

  lemma ReflaggedHealth(vips: map<VipSpec, Vip>, vips': map<VipSpec, Vip>, next: nat, reports: map<nat, seq<Report>>)
    requires HealthOk(vips, next, reports) && SameVips(vips, vips')
    ensures HealthOk(vips', next, reports)
  {
    forall k, a | k in vips' && a in vips'[k].members
      ensures MemberHealth(vips'[k].members[a], next, reports)
    {
      assert SameVip(vips, vips', k);
      assert MemberHealth(vips[k].members[a], next, reports);
    }
    forall j, a, k, b
      ensures Apart(vips', j, a, k, b)
    {
      assert SameVip(vips, vips', j) && SameVip(vips, vips', k);
      assert Apart(vips, j, a, k, b);
    }
  }

  lemma ReflaggedInv(g: Lb, g': Lb)
    requires Inv(g) && g' == g.(vips := g'.vips) && SameVips(g.vips, g'.vips)
    ensures Inv(g')
  {
    Open(g);
    ReflaggedIds(g.vips, g'.vips, g.adopted, g.t.k.maps.vipMap);
    ReflaggedHeld(g.vips, g'.vips, g.t.slots, g.t.byAddr, g.leak);
    ReflaggedGen(g.vips, g'.vips, g.t.k.installs, g.base);
    ReflaggedHealth(g.vips, g'.vips, g.next, g.reports);
    Close(g');
  }

  lemma ReflaggedGood(g: Lb, g': Lb)
    requires Good(g) && g' == g.(vips := g'.vips) && SameVips(g.vips, g'.vips)
    ensures Good(g')
  {
    ReflaggedInv(g, g');
    forall j
      ensures Traced(g', g'.leak, j)
    {
      assert Traced(g, g.leak, j) && SameVip(g.vips, g'.vips, j);
    }
  }

  // ---- a good state with the configured flags

  ghost function FlagIn(vcs: seq<VipConfig>, n: nat, k: VipSpec, flag: bool): (f: bool)
    requires n <= |vcs|
  {
    if n == 0 then flag else if vcs[n - 1].spec == k then vcs[n - 1].noConntrack else FlagIn(vcs, n - 1, k, flag)
  }

  lemma {:induction false} FlagInIs(vcs: seq<VipConfig>, n: nat, i: nat, flag: bool)
    requires i < n <= |vcs| && DistinctSpecs(vcs)
    ensures FlagIn(vcs, n, vcs[i].spec, flag) == vcs[i].noConntrack
  {
    if i < n - 1 {
      FlagInIs(vcs, n - 1, i, flag);
    }
  }

  /** The VIPs with the flags a configuration gives them. */
  ghost function Preset(vips: map<VipSpec, Vip>, c: Config): (vips': map<VipSpec, Vip>) {
    map k | k in vips :: vips[k].(noConntrack := FlagIn(c.vips, |c.vips|, k, vips[k].noConntrack))
  }

  lemma PresetIs(g: Lb, g': Lb, c: Config, s: Lb)
    requires Good(g) && Alike(g, s) && DistinctSpecs(c.vips) && g' == g.(vips := Preset(g.vips, c))
    ensures Good(g') && Alike(g', s) && forall i :: 0 <= i < |c.vips| ==> FlagsOk(g', c.vips[i])
  {
    Means(g, s);
    forall k
      ensures SameVip(g.vips, g'.vips, k)
    {
    }
    ReflaggedGood(g, g');
    SameVipsBack(g.vips, g'.vips);
    SameVipsThen(g'.vips, g.vips, s.vips);
    forall i | 0 <= i < |c.vips|
      ensures FlagsOk(g', c.vips[i])
    {
      if c.vips[i].spec in g.vips {
        FlagInIs(c.vips, |c.vips|, i, g.vips[c.vips[i].spec].noConntrack);
      }
    }
  }

  // ---- a reload from any sound state

  lemma SoundRanged(s: Lb)
    requires Sound(s)
    ensures Ranged(s.t)
  {
    var g :| Good(g) && Alike(g, s);
    InvRanged(g);
    Means(g, s);
    RangedSame(g.t, s.t);
  }

  lemma SameRing(g: Lb, s: Lb, h: Hashes, k: VipSpec)
    requires Alike(g, s)
    ensures RightRing(s, h, k) <==> RightRing(g, h, k)
  {
    Means(g, s);
    assert SameVip(g.vips, s.vips, k);
  }

  lemma SameRingDone(g: Lb, g': Lb, s: Lb, s': Lb, vc: VipConfig, hashChanged: bool, h: Hashes)
    requires Alike(g, s) && Alike(g', s') && RingDone(g, g', vc, hashChanged, h)
    ensures RingDone(s, s', vc, hashChanged, h)
  {
    SameRing(g, s, h, vc.spec);
    SameRing(g', s', h, vc.spec);
    Means(g, s);
    assert SameVip(g.vips, s.vips, vc.spec);
  }

  /**
   VIP vc after a completed reload: members and weights as configured, those that stayed as they were, and
   its ring.
   */
  ghost predicate VipConverged(s: Lb, s': Lb, vc: VipConfig, hashChanged: bool, h: Hashes) {
    && vc.spec in s'.vips && Matches(s'.vips[vc.spec], vc.noConntrack, Want(vc))
    && (vc.spec in s.vips ==> Stays(s.vips[vc.spec], s'.vips[vc.spec]))
    && RingDone(s, s', vc, hashChanged, h) && FaceDone(s, s', vc)
  }

  lemma SameConverged(g: Lb, g': Lb, s: Lb, s': Lb, vc: VipConfig, was: HashMode, h: Hashes)
    requires Alike(g, s) && Alike(g', s') && VipDone(g, g', vc, was, h) && FaceDone(s, s', vc)
    ensures VipConverged(s, s', vc, g'.hash != was, h)
  {
    SameRingDone(g, g', s, s', vc, g'.hash != was, h);
    Means(g, s);
    Means(g', s');
    assert SameVip(g.vips, s.vips, vc.spec) && SameVip(g'.vips, s'.vips, vc.spec);
  }

  lemma SoundHeld(s: Lb, a: U32)
    requires Sound(s)
    ensures a in s.t.byAddr <==> a in s.leak || exists k :: k in s.vips && a in s.vips[k].members
    ensures a in s.t.byAddr <==> a != 0 && a in s.t.k.maps.reals
  {
    var g :| Good(g) && Alike(g, s);
    Means(g, s);
    HeldOrLeft(g, a);
    assert TabOk(g.t) by { assert Holds(g, TablePart); }
    ShownIffKnown(g.t, a);
    if k :| k in g.vips && a in g.vips[k].members {
      assert SameVip(g.vips, s.vips, k);
    }
    if k :| k in s.vips && a in s.vips[k].members {
      assert SameVip(g.vips, s.vips, k);
    }
  }

  lemma ConfiguredHeld(s: Lb, c: Config, a: U32)
    requires Conforms(s, c)
    ensures (exists k :: k in s.vips && a in s.vips[k].members) <==> a in AllReals(c)
  {
    if k :| k in s.vips && a in s.vips[k].members {
      assert k in Specs(c);
      var i :| 0 <= i < |c.vips| && c.vips[i].spec == k;
      assert a in Want(c.vips[i]);
    }
    if a in AllReals(c) {
      var i :| 0 <= i < |c.vips| && a in Want(c.vips[i]);
      assert c.vips[i].spec in Specs(c);
      assert a in s.vips[c.vips[i].spec].members;
    }
  }

  /**
   The live addresses are the configured ones and those an unfinished reload left behind, in the table and
   in `reals`.
   */
  lemma LiveAddresses(s: Lb, c: Config, a: U32)
    requires Sound(s) && Conforms(s, c)
    ensures a in s.t.byAddr <==> a in AllReals(c) || a in s.leak
    ensures a != 0 && a in s.t.k.maps.reals <==> a in AllReals(c) || a in s.leak
  {
    SoundHeld(s, a);
    ConfiguredHeld(s, c, a);
  }

  // ---- the basis of a reload, and its outcome

  lemma SameMembersOf(g: Lb, s: Lb, k: VipSpec)
    requires Alike(g, s)
    ensures MembersOf(s, k) == MembersOf(g, k) && (k in s.vips <==> k in g.vips)
  {
    Means(g, s);
    assert SameVip(g.vips, s.vips, k);
  }

  lemma SameKnown(g: Lb, s: Lb, a: U32)
    requires Alike(g, s)
    ensures Known(s.t, a) <==> Known(g.t, a)
  {
    Means(g, s);
  }

  lemma SameLive(g: Lb, s: Lb, ks: set<VipSpec>, a: U32)
    requires Alike(g, s) && StaysLive(g, ks, a)
    ensures StaysLive(s, ks, a)
  {
    Means(g, s);
    if k :| k in g.vips && k in ks && a in g.vips[k].members {
      SameMembersOf(g, s, k);
    }
  }

  lemma AlikeBack(g: Lb, s: Lb)
    requires Alike(g, s)
    ensures Alike(s, g)
  {
    Means(g, s);
    SameVipsBack(g.vips, s.vips);
  }

  lemma SameBasis(g: Lb, s: Lb, c: Config)
    requires Alike(g, s)
    ensures BasisOf(s, c) == BasisOf(g, c)
  {
    Means(g, s);
    AlikeBack(g, s);
    var b, b' := BasisOf(g, c), BasisOf(s, c);
    forall k
      ensures (k in b.had <==> k in b'.had) && (k in b.had ==> b'.had[k] == b.had[k])
    {
      SameMembersOf(g, s, k);
    }
    assert b'.had == b.had;
    forall a
      ensures a in b.known <==> a in b'.known
    {
      SameKnown(g, s, a);
      if a in b.known {
        SameLive(g, s, Specs(c), a);
      }
      if a in b'.known {
        SameLive(s, g, Specs(c), a);
      }
    }
    assert b'.known == b.known;
  }

  lemma EndedAlike(g: Lb, s: Lb, b: Basis, vcs: seq<VipConfig>, arp: map<U32, Mac>, r: nat)
    requires Alike(g, s) && r <= |vcs| && Ended(b, vcs, arp, r, g)
    ensures Ended(b, vcs, arp, r, s)
  {
    EndedMeans(b, vcs, arp, r, g);
    forall a
      ensures EndKnown(b, vcs, arp, r, s, a)
    {
      assert EndKnown(b, vcs, arp, r, g, a);
      SameKnown(g, s, a);
    }
    forall i: nat, a | i < |vcs|
      ensures EndLook(b, vcs, arp, r, i, s, a)
    {
      assert EndLook(b, vcs, arp, r, i, g, a);
      SameMembersOf(g, s, vcs[i].spec);
    }
  }

  /**
   A reload from any state a daemon can be in. It gets to the first VIP for which there are not ids
   enough, computed from the basis alone, and leaves exactly the members, flags in_ring and known MACs
   the basis says, complete or not.
   */
  lemma ReloadOutcome(s: Lb, c: Config, lbMac: Mac, arp: map<U32, Mac>, h: Hashes, r: nat)
    requires Sound(s) && DistinctSpecs(c.vips) && MacsOk(arp) && Stops(Fits(BasisOf(s, c), c.vips), r)
    ensures Ranged(s.t)
    ensures var d := Reload(s, c, lbMac, arp, h);
            (d.ok <==> r == |c.vips|) && Ended(BasisOf(s, c), c.vips, arp, r, d.s)
  {
    SoundRanged(s);
    var g0 :| Good(g0) && Alike(g0, s);
    var g := g0.(vips := Preset(g0.vips, c));
    PresetIs(g0, g, c, s);
    InvRanged(g);
    SameBasis(g, s, c);
    GoodOutcome(g, c, lbMac, arp, h, r);
    ReloadAlike(g, s, c, lbMac, arp, h);
    EndedAlike(Reload(g, c, lbMac, arp, h).s, Reload(s, c, lbMac, arp, h).s, BasisOf(s, c), c.vips, arp, r);
  }

  /**
   Every configured VIP's reals after a completed reload: which are members, which are in the ring, and
   which are missed.
   */
  ghost predicate RealsConverged(s: Lb, s': Lb, c: Config, arp: map<U32, Mac>, i: nat)
    requires i < |c.vips|
  {
    var b, n, k := BasisOf(s, c), |c.vips|, c.vips[i].spec;
    && (forall a :: EndLook(b, c.vips, arp, n, i, s', a))
    && (Complete(s', k) <==> forall a :: !MissedAfter(b, c.vips, arp, n, i, a))
  }

  lemma OutcomeConverges(s: Lb, s': Lb, c: Config, arp: map<U32, Mac>)
    requires Ended(BasisOf(s, c), c.vips, arp, |c.vips|, s')
    ensures forall i: nat :: i < |c.vips| ==> RealsConverged(s, s', c, arp, i)
  {
    var b, n := BasisOf(s, c), |c.vips|;
    EndedMeans(b, c.vips, arp, n, s');
    forall i: nat | i < |c.vips|
      ensures RealsConverged(s, s', c, arp, i)
    {
      CompleteAfter(b, c.vips, arp, n, i, s');
    }
  }

  /** What a completed reload from s has made of the daemon. */
  ghost predicate Converged(s: Lb, s': Lb, c: Config, arp: map<U32, Mac>, h: Hashes) {
    && Sound(s') && s'.leak == s.leak && Conforms(s', c) && FacesAfter(s, s', c)
    && (forall i :: 0 <= i < |c.vips| ==> VipConverged(s, s', c.vips[i], s.hash != c.hash, h))
    && forall i: nat :: i < |c.vips| ==> RealsConverged(s, s', c, arp, i)
  }

  lemma ConformsAlike(g': Lb, s': Lb, c: Config)
    requires Alike(g', s') && Conforms(g', c)
    requires forall i :: 0 <= i < |c.vips| ==> c.vips[i].spec in s'.vips && Matches(s'.vips[c.vips[i].spec],
             c.vips[i].noConntrack, Want(c.vips[i]))
    ensures Conforms(s', c)
  {
    Means(g', s');
    SameKeys(g', s');
  }

  lemma ConvergedFrom(g: Lb, g': Lb, s: Lb, s': Lb, c: Config, arp: map<U32, Mac>, h: Hashes)
    requires Alike(g, s) && Alike(g', s') && Reconfigured(g, g', c, h) && FacesAfter(s, s', c)
    requires forall i: nat :: i < |c.vips| ==> RealsConverged(s, s', c, arp, i)
    ensures Converged(s, s', c, arp, h)
  {
    Means(g, s);
    Means(g', s');
    forall i | 0 <= i < |c.vips|
      ensures VipConverged(s, s', c.vips[i], s.hash != c.hash, h)
    {
      assert VipDone(g, g', c.vips[i], g.hash, h) && FaceDone(s, s', c.vips[i]);
      SameConverged(g, g', s, s', c.vips[i], g.hash, h);
    }
    ConformsAlike(g', s', c);
  }

  lemma AllFit(s: Lb, c: Config, lbMac: Mac, arp: map<U32, Mac>, h: Hashes)
    requires Sound(s) && Ranged(s.t) && DistinctSpecs(c.vips) && MacsOk(arp) && Reload(s, c, lbMac, arp, h).ok
    ensures forall i: nat :: i < |c.vips| ==> RealsConverged(s, Reload(s, c, lbMac, arp, h).s, c, arp, i)
  {
    var r := StopsSomewhere(Fits(BasisOf(s, c), c.vips));
    ReloadOutcome(s, c, lbMac, arp, h, r);
    OutcomeConverges(s, Reload(s, c, lbMac, arp, h).s, c, arp);
  }

  /**
   A reload from any state a daemon can be in, complete or not, keeps it sound. A completed one leaves
   exactly the configured VIPs, flags, members and weights. What it does not put right is said too:
   which VIPs the VIP map shows, which rings are those of the configured mode and the members in_ring,
   which members are in_ring and which usable ones are not, and which addresses stay live.
   */
  lemma ReloadConverges(s: Lb, c: Config, lbMac: Mac, arp: map<U32, Mac>, h: Hashes)
    requires Sound(s) && DistinctSpecs(c.vips) && MacsOk(arp)
    ensures Ranged(s.t) && Sound(Reload(s, c, lbMac, arp, h).s)
    ensures Reload(s, c, lbMac, arp, h).ok ==> Converged(s, Reload(s, c, lbMac, arp, h).s, c, arp, h)
  {
    SoundRanged(s);
    var g0 :| Good(g0) && Alike(g0, s);
    var g := g0.(vips := Preset(g0.vips, c));
    PresetIs(g0, g, c, s);
    ReloadOk(g, c, lbMac, arp, h);
    ReloadAlike(g, s, c, lbMac, arp, h);
    var d, d' := Reload(g, c, lbMac, arp, h), Reload(s, c, lbMac, arp, h);
    if d'.ok {
      ReloadFaces(s, c, lbMac, arp, h);
      AllFit(s, c, lbMac, arp, h);
      ConvergedFrom(g, d.s, s, d'.s, c, arp, h);
    }
  }

  /** It completes exactly if every VIP finds its ids when its turn comes. */
  lemma ReloadEndsIff(s: Lb, c: Config, lbMac: Mac, arp: map<U32, Mac>, h: Hashes)
    requires Sound(s) && DistinctSpecs(c.vips) && MacsOk(arp)
    ensures Ranged(s.t)
    ensures Reload(s, c, lbMac, arp, h).ok <==> forall i: nat :: i < |c.vips| ==> FitsAt(BasisOf(s, c), c.vips, i)
  {
    var b, n := BasisOf(s, c), |c.vips|;
    var fits := Fits(b, c.vips);
    var r := StopsSomewhere(fits);
    ReloadOutcome(s, c, lbMac, arp, h, r);
    forall i: nat | i < n
      ensures FitsAt(b, c.vips, i) == fits[i]
    {
      FitsIs(b, c.vips, i, fits);
    }
  }

  lemma LiveWithin(s: Lb, c: Config, i: nat, a: U32)
    requires Sound(s) && i < |c.vips| && a in LiveAt(BasisOf(s, c), c.vips, i) + Want(c.vips[i]).Keys
    ensures a in s.t.byAddr.Keys + AllReals(c)
  {
    var b := BasisOf(s, c);
    WantedIs(c.vips, i, a);
    HeldIs(b, c.vips, i, a);
    SoundHeld(s, a);
    if j: nat :| i <= j < |c.vips| && a in Had(b, c.vips[j].spec) {
      assert c.vips[j].spec in s.vips && a in s.vips[c.vips[j].spec].members;
    }
  }

  lemma FitsIfRoom(s: Lb, c: Config, i: nat)
    requires Sound(s) && i < |c.vips| <= MAX_VIPS && Room(s.t.byAddr.Keys + AllReals(c))
    ensures FitsAt(BasisOf(s, c), c.vips, i)
  {
    var b := BasisOf(s, c);
    var live := LiveAt(b, c.vips, i) + Want(c.vips[i]).Keys;
    forall a | a in live
      ensures a in s.t.byAddr.Keys + AllReals(c)
    {
      LiveWithin(s, c, i, a);
    }
    RoomLess(live, s.t.byAddr.Keys + AllReals(c));
    VipIdsIfFew(b, c, i);
  }

  lemma VipIdsIfFew(b: Basis, c: Config, i: nat)
    requires i < |c.vips| <= MAX_VIPS && b.had.Keys <= Specs(c)
    ensures VipIdAt(b, c.vips, i)
  {
    var ks := b.had.Keys + SpecsTo(c.vips, i + 1);
    SpecsFit(c);
    SubsetSize(ks, Specs(c));
    AtMostIs(ks, MAX_VIPS);
  }

  /** So it does whenever the addresses in use and the configured ones together have ids. */
  lemma ReloadEndsIfRoom(s: Lb, c: Config, lbMac: Mac, arp: map<U32, Mac>, h: Hashes)
    requires Sound(s) && DistinctSpecs(c.vips) && |c.vips| <= MAX_VIPS && MacsOk(arp)
             && Room(s.t.byAddr.Keys + AllReals(c))
    ensures Ranged(s.t) && Reload(s, c, lbMac, arp, h).ok
  {
    ReloadEndsIff(s, c, lbMac, arp, h);
    forall i: nat | i < |c.vips|
      ensures FitsAt(BasisOf(s, c), c.vips, i)
    {
      FitsIfRoom(s, c, i);
    }
  }

  /** The reload writes the VIP map entry of vc: the VIP is new to the daemon, or its flags change. */
  ghost predicate Writes(s: Lb, vc: VipConfig) {
    vc.spec !in s.vips || s.vips[vc.spec].noConntrack != vc.noConntrack
  }

  /**
   After a completed reload packets can match a configured VIP exactly if it is new, has other flags than
   before, or was in the VIP map already; written anew, the entry has its id and the configured flags,
   and otherwise it is what it was. A VIP that is not configured is in the VIP map only if it was there
   without the daemon knowing it.
   */
  lemma PublishedIff(s: Lb, c: Config, lbMac: Mac, arp: map<U32, Mac>, h: Hashes)
    requires Sound(s) && DistinctSpecs(c.vips) && MacsOk(arp)
    ensures Ranged(s.t)
    ensures var d := Reload(s, c, lbMac, arp, h);
            var m, m' := s.t.k.maps.vipMap, d.s.t.k.maps.vipMap;
            d.ok ==>
              && (forall i :: 0 <= i < |c.vips| ==>
                    var k := c.vips[i].spec;
                    && k in d.s.vips && (k in m' <==> Writes(s, c.vips[i]) || k in m)
                    && (k in m' ==> m'[k] == if Writes(s, c.vips[i])
                                             then VipValue(d.s.vips[k].id, c.vips[i].noConntrack) else m[k]))
              && (forall k :: k !in Specs(c) ==> (k in m' <==> k in m && k !in s.vips))
  {
    ReloadConverges(s, c, lbMac, arp, h);
    var d := Reload(s, c, lbMac, arp, h);
    if d.ok {
      forall i | 0 <= i < |c.vips|
        ensures FaceDone(s, d.s, c.vips[i])
      {
        assert VipConverged(s, d.s, c.vips[i], s.hash != c.hash, h);
      }
    }
  }
}
