/**
 The first apply of a daemon, on whatever maps an earlier one left: nothing that stays configured
 changes its meaning at any write.
 */
module StartLaws {
  import opened Basics
  import opened BuildMaglev
  import opened Maps
  import opened Reals
  import opened LbModel
  import opened Control
  import opened ControlLaws
  import opened MemberLaws
  import opened VipLaws
  import opened ApplyLaws
  import opened Convergence

  // ---- adopting

  lemma AdoptHeld(t: Tab)
    requires TabOk(t) && forall id: nat :: id < MAX_REALS ==> t.slots[id].refs == 0
    ensures HeldOk(map[], t.slots, t.byAddr, multiset{})
  {
    forall a | a in t.byAddr
      ensures HeldAt(map[], t.slots, t.byAddr, multiset{}, a)
    {
      assert AddrOk(t.slots, t.byAddr, a);
      NobodyHolds(map[], a);
    }
  }

  /** Whatever safe maps it finds, a new daemon starts from a state in which the invariant holds. */
  lemma AdoptInv(k: Plane)
    requires PlaneSafe(k)
    ensures Inv(AdoptAll(Fresh(k)))
  {
    var s := AdoptAll(Fresh(k));
    AdoptOk(k);
    AdoptHeld(s.t);
    Close(s);
  }

  // ---- creating the configured VIPs

  /** The first n VIPs of the configuration exist; nothing pinned has been touched. */
  ghost predicate Starting(s0: Lb, s: Lb, vcs: seq<VipConfig>, n: nat, h: Hashes)
    requires n <= |vcs|
  {
    && Inv(s) && Grown(s0.t.k, s.t.k) && KeepsAll(s0.t.slots, s0.t.byAddr, s.t.slots, s.t.byAddr) && SameSettings(s0, s)
    && s.vips.Keys == SpecsTo(vcs, n) && s.adopted == s0.adopted - SpecsTo(vcs, n)
    && forall i :: 0 <= i < n ==> Started(s0, s, vcs[i], h)
  }

  ghost predicate Started(s0: Lb, s: Lb, vc: VipConfig, h: Hashes) {
    && AsWanted(s, vc) && Steady(s, h, vc.spec)
    && (vc.spec in s0.adopted ==> s.vips[vc.spec].id == s0.adopted[vc.spec])
  }

  lemma StartedStays(s0: Lb, s: Lb, s': Lb, vc: VipConfig, h: Hashes)
    requires Started(s0, s, vc, h) && Untouched(s, s', s.leak, vc.spec) && s'.hash == s.hash
    ensures Started(s0, s', vc, h)
  {
    UntouchedSteady(s, s', s.leak, h, vc.spec);
  }

  lemma AllStarted(s0: Lb, s: Lb, s': Lb, vcs: seq<VipConfig>, m: nat, h: Hashes)
    requires m < |vcs| && DistinctSpecs(vcs) && Starting(s0, s, vcs, m, h)
    requires Created(s, Done(s', true), vcs[m].spec, vcs[m].noConntrack, Want(vcs[m]), h)
    ensures forall i :: 0 <= i < m + 1 ==> Started(s0, s', vcs[i], h)
  {
    forall i | 0 <= i < m + 1
      ensures Started(s0, s', vcs[i], h)
    {
      if i < m {
        assert Started(s0, s, vcs[i], h);
        StartedStays(s0, s, s', vcs[i], h);
      } else {
        assert vcs[m].spec !in SpecsTo(vcs, m);
      }
    }
  }

  lemma MinusOneMore(adopted: map<VipSpec, nat>, ks: set<VipSpec>, k: VipSpec)
    ensures adopted - ks - {k} == adopted - (ks + {k})
  {
  }

  lemma StartStep(s0: Lb, s: Lb, s': Lb, vcs: seq<VipConfig>, m: nat, h: Hashes)
    requires m < |vcs| && DistinctSpecs(vcs) && Starting(s0, s, vcs, m, h)
    requires Created(s, Done(s', true), vcs[m].spec, vcs[m].noConntrack, Want(vcs[m]), h)
    ensures Starting(s0, s', vcs, m + 1, h)
  {
    AllStarted(s0, s, s', vcs, m, h);
    StartKeeps(s0, s, s', vcs[m].spec);
    assert SpecsTo(vcs, m + 1) == SpecsTo(vcs, m) + {vcs[m].spec} by { SpecsNext(vcs, m + 1); }
    MinusOneMore(s0.adopted, SpecsTo(vcs, m), vcs[m].spec);
  }

  lemma StartKeeps(s0: Lb, s: Lb, s': Lb, k: VipSpec)
    requires Grown(s0.t.k, s.t.k) && KeepsAll(s0.t.slots, s0.t.byAddr, s.t.slots, s.t.byAddr) && Beside(s, s', k)
    ensures Grown(s0.t.k, s'.t.k) && KeepsAll(s0.t.slots, s0.t.byAddr, s'.t.slots, s'.t.byAddr)
  {
    GrownTransitive(s0.t.k, s.t.k, s'.t.k);
    KeepsTransitive(s0.t.slots, s0.t.byAddr, s.t.slots, s.t.byAddr, s'.t.slots, s'.t.byAddr);
  }

  /** The VIP is new to this daemon. */
  lemma NotYet(s0: Lb, s: Lb, vcs: seq<VipConfig>, m: nat, h: Hashes)
    requires m < |vcs| && DistinctSpecs(vcs) && Starting(s0, s, vcs, m, h)
    ensures vcs[m].spec !in s.vips
  {
    assert vcs[m].spec !in SpecsTo(vcs, m);
  }

  lemma StartNext(s0: Lb, s: Lb, vcs: seq<VipConfig>, m: nat, hashChanged: bool, arp: map<U32, Mac>, h: Hashes)
    requires m < |vcs| && DistinctSpecs(vcs) && MacsOk(arp) && Starting(s0, s, vcs, m, h)
    ensures Ranged(s.t)
    ensures var d := ApplyVip(s, vcs[m], hashChanged, arp, h);
            Inv(d.s) && Grown(s0.t.k, d.s.t.k) && (d.ok ==> Starting(s0, d.s, vcs, m + 1, h))
  {
    NotYet(s0, s, vcs, m, h);
    CreateVipOk(s, vcs[m].spec, vcs[m].noConntrack, Want(vcs[m]), arp, h);
    var d := ApplyVip(s, vcs[m], hashChanged, arp, h);
    GrownTransitive(s0.t.k, s.t.k, d.s.t.k);
    if d.ok {
      StartStep(s0, s, d.s, vcs, m, h);
    }
  }

  lemma StartNone(s0: Lb, vcs: seq<VipConfig>, h: Hashes)
    requires Inv(s0) && s0.vips == map[]
    ensures Starting(s0, s0, vcs, 0, h)
  {
    assert Holds(s0, TablePart);
    KeepsSelf(s0.t.slots, s0.t.byAddr);
    assert s0.adopted - SpecsTo(vcs, 0) == s0.adopted;
  }

  /** Until the clean-up the maps only grow, whether or not there are ids for everything. */
  lemma {:induction false} StartVips(s0: Lb, vcs: seq<VipConfig>, n: nat, hashChanged: bool, arp: map<U32, Mac>,
                                     h: Hashes)
    requires Inv(s0) && s0.vips == map[] && n <= |vcs| && DistinctSpecs(vcs) && MacsOk(arp)
    ensures Ranged(s0.t)
    ensures var d := ApplyVips(s0, vcs, n, hashChanged, arp, h);
            Inv(d.s) && Grown(s0.t.k, d.s.t.k) && (d.ok ==> Starting(s0, d.s, vcs, n, h))
  {
    InvRanged(s0);
    if n == 0 {
      StartNone(s0, vcs, h);
    } else {
      var m := n - 1;
      StartVips(s0, vcs, m, hashChanged, arp, h);
      var d := ApplyVips(s0, vcs, m, hashChanged, arp, h);
      assert m + 1 == n;
      if d.ok {
        ApplyVipsNext(s0, vcs, m, hashChanged, arp, h);
        StartNext(s0, d.s, vcs, m, hashChanged, arp, h);
      }
    }
  }
}
