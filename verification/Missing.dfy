/**
 Which eligible members are missing from their VIP's ring, said of every state a daemon can be in: what
 each call does to it, and what a whole reload makes of it.
 */
module Missing {
  import opened Basics
  import opened BuildMaglev
  import opened Ring
  import opened Maps
  import opened Reals
  import opened Control
  import opened ControlLaws
  import opened MemberLaws
  import opened OpLaws
  import opened ApplyLaws
  import opened Budget
  import opened Completeness
  import opened OneTurn
  import opened Outcome
  import opened Akin
  import opened Soundness
  import opened Standing
  import opened Calls

  lemma SameComplete(g: Lb, s: Lb, j: VipSpec)
    requires Alike(g, s)
    ensures Complete(s, j) <==> Complete(g, j)
  {
    Means(g, s);
    assert SameVip(g.vips, s.vips, j);
    if j in g.vips {
      forall a | a in g.vips[j].members
        ensures NotMissing(s, j, a) <==> NotMissing(g, j, a)
      {
      }
    }
  }

  lemma SameWakes(g: Lb, s: Lb, j: VipSpec, arp: map<U32, Mac>)
    requires Alike(g, s)
    ensures forall a :: Wakes(s, j, a, arp) <==> Wakes(g, j, a, arp)
  {
    Means(g, s);
    assert SameVip(g.vips, s.vips, j);
  }

  /**
   real.add leaves its own VIP complete, and every other VIP as complete as it was, except exactly those
   with a member at the same address that has weight, is up, is not drained and was waiting for the MAC
   now learnt.
   */
  lemma AddRealCompleteIff(s: Lb, k: VipSpec, addr: U32, weight: U32, arp: map<U32, Mac>, h: Hashes, j: VipSpec)
    requires Sound(s) && MacsOk(arp) && j != k
    ensures Ranged(s.t)
    ensures var d := AddReal(s, k, addr, weight, arp, h);
            && (d.ok ==> Complete(d.s, k) && (Complete(d.s, j) <==> Complete(s, j) && !Wakes(s, j, addr, arp)))
            && (!d.ok ==> d.s == s)
  {
    SoundRanged(s);
    var g :| Good(g) && Alike(g, s);
    SameComplete(g, s, j);
    AddRealGood(g, k, addr, weight, arp, h, j);
    AddRealAlike(g, s, k, addr, weight, arp, h);
    var d, d' := AddReal(g, k, addr, weight, arp, h), AddReal(s, k, addr, weight, arp, h);
    SameComplete(d.s, d'.s, j);
    SameComplete(d.s, d'.s, k);
    SameWakes(g, s, j, arp);
  }

  // ---- members merged

  lemma MergedLearns(s: Lb, s': Lb, k: VipSpec, want: map<U32, U32>, p: set<U32>, j: VipSpec, arp: map<U32, Mac>)
    requires k in s.vips && k in s'.vips && j != k && OnlyVip(s, s', k) && Taught(s, s', k, arp)
    requires MergedExactly(s.vips[k], s'.vips[k], want, p)
    ensures Learnt(s, s', j, p - s.vips[k].members.Keys, arp)
  {
    var joined := p - s.vips[k].members.Keys;
    forall a
      ensures a in Arrivals(s, s', k) <==> a in joined
    {
      assert MergedAt(s.vips[k], s'.vips[k], want, p, a);
    }
    assert Arrivals(s, s', k) == joined;
    if j in s.vips {
      forall a | a in s.vips[j].members
        ensures KnownAfter(s, s', a, joined, arp)
      {
        assert KnownSince(s, s', k, arp, a);
      }
    }
  }

  /**
   Wanted members join VIP k, in order and as far as there are ids: another VIP is complete afterwards
   exactly if it was and no address that joins wakes a member of it.
   */
  lemma MergeCompleteIff(s: Lb, k: VipSpec, want: map<U32, U32>, todo: set<U32>, arp: map<U32, Mac>, j: VipSpec)
    requires Inv(s) && k in s.vips && todo <= want.Keys && MacsOk(arp) && j != k
    ensures Ranged(s.t)
    ensures Complete(Merge(s, k, want, todo, arp).s, j) <==>
              Complete(s, j) && forall a :: a in Placed(s.t.byAddr.Keys, todo) && a !in s.vips[k].members
                                  ==> !Wakes(s, j, a, arp)
  {
    InvRanged(s);
    var p, d := Placed(s.t.byAddr.Keys, todo), Merge(s, k, want, todo, arp);
    MergeExact(s, k, want, todo, arp);
    MergeTeaches(s, k, want, todo, arp);
    MergeOk(s, k, want, todo, arp);
    MergedLearns(s, d.s, k, want, p, j, arp);
    LearntIff(s, d.s, j, p - s.vips[k].members.Keys, arp);
  }

  // ---- one VIP of a reload

  lemma SamePlaced(g: Lb, s: Lb, vc: VipConfig)
    requires Alike(g, s)
    ensures (TurnFits(s, vc) <==> TurnFits(g, vc)) && PlacedIn(s, vc) == PlacedIn(g, vc)
            && JoinedIn(s, vc) == JoinedIn(g, vc)
  {
    Means(g, s);
    SameKeys(g, s);
    SameMembersOf(g, s, vc.spec);
  }

  lemma SameTurn(g: Lb, s: Lb, vc: VipConfig, hashChanged: bool)
    requires Alike(g, s)
    ensures (TurnFits(s, vc) <==> TurnFits(g, vc)) && PlacedIn(s, vc) == PlacedIn(g, vc)
            && JoinedIn(s, vc) == JoinedIn(g, vc)
    ensures Rebuilds(s, vc, hashChanged) <==> Rebuilds(g, vc, hashChanged)
  {
    SamePlaced(g, s, vc);
    Means(g, s);
    SameMembersOf(g, s, vc.spec);
  }

  lemma SameOverlooked(g: Lb, s: Lb, vc: VipConfig, arp: map<U32, Mac>, a: U32)
    requires Alike(g, s)
    ensures Overlooked(s, vc, arp, a) <==> Overlooked(g, vc, arp, a)
  {
    Means(g, s);
    SameMembersOf(g, s, vc.spec);
    SameTurn(g, s, vc, false);
    SameKnown(g, s, a);
  }

  /** The good state alike takes the same turn. */
  lemma TurnOf(s: Lb, vc: VipConfig, hashChanged: bool, arp: map<U32, Mac>, h: Hashes) returns (g: Lb, e: Done)
    requires Sound(s) && MacsOk(arp)
    ensures Ranged(s.t) && Good(g) && Alike(g, s) && TurnAll(g, e, vc, hashChanged, arp) && Inv(e.s)
    ensures var d := ApplyVip(s, vc, hashChanged, arp, h);
            Alike(e.s, d.s) && d.ok == e.ok
  {
    SoundRanged(s);
    g := Flagged(s, vc);
    e := ApplyVip(g, vc, hashChanged, arp, h);
    TurnExact(g, vc, hashChanged, arp, h);
    TurnMeans(g, e, vc, hashChanged, arp);
    var was := if hashChanged then (if g.hash == ByMaglev then ByModulo else ByMaglev) else g.hash;
    ApplyVipOk(g, vc, was, arp, h);
    ApplyVipAlike(g, s, vc, hashChanged, arp, h);
  }

  /** A turn completes exactly if there are a vip_id for its VIP and real_ids for all its addresses. */
  lemma ApplyEndsIff(s: Lb, vc: VipConfig, hashChanged: bool, arp: map<U32, Mac>, h: Hashes)
    requires Sound(s) && MacsOk(arp)
    ensures Ranged(s.t) && (ApplyVip(s, vc, hashChanged, arp, h).ok <==> TurnFits(s, vc))
  {
    var g, e := TurnOf(s, vc, hashChanged, arp, h);
    SameTurn(g, s, vc, hashChanged);
  }

  /**
   One VIP of a reload, complete or not. Completed, its own VIP is complete exactly if it is new, its ring
   is rebuilt, or it was complete. Failed, exactly if no member is overlooked: among those dealt with
   before the ids ran out, at the weight now wanted, and the rest as they were. Every other VIP is
   complete exactly if it was and no address that joined wakes a member of it.
   */
  lemma ApplyCompleteIff(s: Lb, vc: VipConfig, hashChanged: bool, arp: map<U32, Mac>, h: Hashes, j: VipSpec)
    requires Sound(s) && MacsOk(arp)
    ensures Ranged(s.t)
    ensures var d := ApplyVip(s, vc, hashChanged, arp, h);
            && (d.ok ==> (Complete(d.s, vc.spec) <==> Rebuilds(s, vc, hashChanged) || Complete(s, vc.spec)))
            && (!d.ok ==> (Complete(d.s, vc.spec) <==> forall a :: a in Want(vc) ==> !Overlooked(s, vc, arp, a)))
            && (j != vc.spec ==>
                  (Complete(d.s, j) <==> Complete(s, j) && forall a :: a in JoinedIn(s, vc) ==> !Wakes(s, j, a, arp)))
  {
    var k := vc.spec;
    var g, e := TurnOf(s, vc, hashChanged, arp, h);
    var d := ApplyVip(s, vc, hashChanged, arp, h);
    SameTurn(g, s, vc, hashChanged);
    SameComplete(g, s, k);
    SameComplete(e.s, d.s, k);
    if d.ok {
      DoneComplete(g, e, vc, hashChanged, arp);
    } else {
      FailedComplete(g, e, vc, hashChanged, arp);
      forall a
        ensures Overlooked(s, vc, arp, a) <==> Overlooked(g, vc, arp, a)
      {
        SameOverlooked(g, s, vc, arp, a);
      }
    }
    if j != k {
      OtherComplete(g, e, vc, hashChanged, arp, j);
      SameComplete(g, s, j);
      SameComplete(e.s, d.s, j);
      SameWakes(g, s, j, arp);
    }
  }

  // ---- a whole reload

  /**
   A reload, complete or not, leaves VIP i of the configuration with every usable real in its ring
   exactly if it misses none: what it misses is computed from its basis.
   */
  lemma ReloadCompleteIff(s: Lb, c: Config, lbMac: Mac, arp: map<U32, Mac>, h: Hashes, r: nat, i: nat)
    requires Sound(s) && DistinctSpecs(c.vips) && MacsOk(arp) && Stops(Fits(BasisOf(s, c), c.vips), r) && i < |c.vips|
    ensures Ranged(s.t) && r <= |c.vips|
    ensures Complete(Reload(s, c, lbMac, arp, h).s, c.vips[i].spec)
            <==> forall a :: !MissedAfter(BasisOf(s, c), c.vips, arp, r, i, a)
  {
    ReloadOutcome(s, c, lbMac, arp, h, r);
    CompleteAfter(BasisOf(s, c), c.vips, arp, r, i, Reload(s, c, lbMac, arp, h).s);
  }

  /**
   neighbor_resolved leaves complete every VIP that was, and every VIP that holds a real whose MAC it
   has just learnt: all its reals that are now usable are in its ring.
   */
  lemma NeighborCompletes(s: Lb, ip: U32, mac: Mac, h: Hashes, j: VipSpec)
    requires Sound(s) && Ranged(s.t) && mac != NO_MAC
    requires Complete(s, j) || (j in s.vips && s.vips[j].members.Keys * Unresolved(s, Behind(s, ip)) != {})
    ensures Complete(NeighborResolved(s, ip, mac, h), j)
  {
    var g :| Good(g) && Alike(g, s);
    InvRanged(g);
    SameComplete(g, s, j);
    Means(g, s);
    assert SameVip(g.vips, s.vips, j);
    NeighborInv(g, ip, mac, h, j);
    NeighborAlike(g, s, ip, mac, h);
    SameComplete(NeighborResolved(g, ip, mac, h), NeighborResolved(s, ip, mac, h), j);
  }

  /** Calls other than real.add and reload make no VIP incomplete. */
  lemma OtherCallsComplete(s: Lb, call: Call, h: Hashes, j: VipSpec)
    requires Sound(s) && Complete(s, j) && !call.op.AddRealOp? && !call.op.ReloadOp?
             && (call.op.NeighborOp? ==> call.op.mac != NO_MAC)
    ensures Ranged(s.t) && Complete(Step(s, call, h), j)
  {
    SoundRanged(s);
    var g :| Good(g) && Alike(g, s);
    SameComplete(g, s, j);
    OtherCallsGood(g, call, h, j);
    StepAlike(g, s, call, h);
    SameComplete(Step(g, call, h), Step(s, call, h), j);
  }
}
