/** apply on a running daemon: it converges, and a second time changes nothing. */
module ApplyLaws {
  import opened Basics
  import opened BuildMaglev
  import opened Ring
  import opened Maps
  import opened Reals
  import opened Control
  import opened ControlLaws
  import opened MemberLaws
  import opened ReleaseLaws
  import opened OpLaws
  import opened VipLaws
  import opened VipOps
  import opened ReloadLaws

  ghost function SpecsTo(vcs: seq<VipConfig>, n: nat): (ks: set<VipSpec>)
    requires n <= |vcs|
  {
    set i | 0 <= i < n :: vcs[i].spec
  }

  ghost predicate DistinctSpecs(vcs: seq<VipConfig>) {
    forall i, j :: 0 <= i < j < |vcs| ==> vcs[i].spec != vcs[j].spec
  }

  /** The VIP has a ring to publish, or its flags are not touched. */
  ghost predicate FlagsOk(s: Lb, vc: VipConfig) {
    vc.spec in s.vips && s.vips[vc.spec].noConntrack != vc.noConntrack ==> s.vips[vc.spec].generation > 0
  }

  /** What a completed apply from s to s' has done for one VIP of the configuration. */
  ghost predicate VipDone(s: Lb, s': Lb, vc: VipConfig, was: HashMode, h: Hashes) {
    && vc.spec in s'.vips && Matches(s'.vips[vc.spec], vc.noConntrack, Want(vc))
    && (vc.spec in s.vips ==> Stays(s.vips[vc.spec], s'.vips[vc.spec]))
    && (vc.spec in s.vips ==> Steady(s.(hash := was), h, vc.spec) ==> Steady(s', h, vc.spec))
    && (vc.spec !in s.vips ==> Steady(s', h, vc.spec))
    && RingDone(s, s', vc, s'.hash != was, h)
  }

  ghost predicate SameSettings(s: Lb, s': Lb) {
    s'.leak == s.leak && s'.hash == s.hash && s'.nextHop == s.nextHop && s'.initialized == s.initialized
  }

  ghost predicate StepDone(s: Lb, s': Lb, vc: VipConfig, was: HashMode, h: Hashes) {
    && Good(s') && SameSettings(s, s') && s'.vips.Keys == s.vips.Keys + {vc.spec}
    && VipDone(s, s', vc, was, h) && forall j :: j != vc.spec ==> Untouched(s, s', s.leak, j)
  }

  lemma ReloadedStep(s: Lb, d: Done, vc: VipConfig, was: HashMode, h: Hashes)
    requires Reloaded(s, d, vc, was, h) && d.ok
    ensures StepDone(s, d.s, vc, was, h)
  {
  }

  lemma CreatedStep(s: Lb, d: Done, vc: VipConfig, was: HashMode, h: Hashes)
    requires Created(s, d, vc.spec, vc.noConntrack, Want(vc), h) && vc.spec !in s.vips && d.ok && Good(d.s)
    ensures StepDone(s, d.s, vc, was, h)
  {
  }

  lemma ApplyVipOk(s: Lb, vc: VipConfig, was: HashMode, arp: map<U32, Mac>, h: Hashes)
    requires Good(s) && FlagsOk(s, vc) && MacsOk(arp)
    ensures Ranged(s.t)
    ensures var d := ApplyVip(s, vc, s.hash != was, arp, h);
            Good(d.s) && (d.ok ==> StepDone(s, d.s, vc, was, h))
  {
    InvRanged(s);
    var d := ApplyVip(s, vc, s.hash != was, arp, h);
    if vc.spec in s.vips {
      ReloadVipOk(s, vc, was, arp, h);
      if d.ok {
        ReloadedStep(s, d, vc, was, h);
      }
    } else {
      CreateVipOk(s, vc.spec, vc.noConntrack, Want(vc), arp, h);
      CreatedGood(s, d, vc.spec, vc.noConntrack, Want(vc), h);
      if d.ok {
        CreatedStep(s, d, vc, was, h);
      }
    }
  }

  /** The first n VIPs of the configuration have been dealt with. */
  ghost predicate Applied(s: Lb, s': Lb, vcs: seq<VipConfig>, n: nat, was: HashMode, h: Hashes)
    requires n <= |vcs|
  {
    && Good(s') && SameSettings(s, s') && s'.vips.Keys == s.vips.Keys + SpecsTo(vcs, n)
    && (forall j :: j !in SpecsTo(vcs, n) ==> Untouched(s, s', s.leak, j))
    && (forall i :: 0 <= i < n ==> VipDone(s, s', vcs[i], was, h))
  }

  lemma VipDoneStays(s: Lb, s1: Lb, s2: Lb, vc: VipConfig, was: HashMode, h: Hashes)
    requires Inv(s1) && VipDone(s, s1, vc, was, h) && Untouched(s1, s2, s.leak, vc.spec) && s2.hash == s1.hash
    ensures VipDone(s, s2, vc, was, h)
  {
    UntouchedRing(s1, s2, s.leak, h, vc.spec);
    if Steady(s1, h, vc.spec) {
      UntouchedSteady(s1, s2, s.leak, h, vc.spec);
    }
  }

  lemma VipDoneNow(s: Lb, s1: Lb, s2: Lb, vc: VipConfig, was: HashMode, h: Hashes)
    requires Inv(s) && Untouched(s, s1, s.leak, vc.spec) && VipDone(s1, s2, vc, was, h)
    requires s2.hash == was ==> s1.hash == s.hash
    ensures VipDone(s, s2, vc, was, h)
  {
    if s2.hash == was {
      UntouchedRing(s, s1, s.leak, h, vc.spec);
    }
    if vc.spec in s.vips && Steady(s.(hash := was), h, vc.spec) {
      UntouchedSteady(s.(hash := was), s1.(hash := was), s.leak, h, vc.spec);
    }
  }

  lemma VipsStayDone(s: Lb, s1: Lb, s2: Lb, vcs: seq<VipConfig>, n: nat, was: HashMode, h: Hashes)
    requires 0 < n <= |vcs| && DistinctSpecs(vcs)
    requires Inv(s) && Applied(s, s1, vcs, n - 1, was, h) && StepDone(s1, s2, vcs[n - 1], was, h)
    ensures forall i :: 0 <= i < n ==> VipDone(s, s2, vcs[i], was, h)
  {
    forall i | 0 <= i < n
      ensures VipDone(s, s2, vcs[i], was, h)
    {
      if i < n - 1 {
        VipDoneStays(s, s1, s2, vcs[i], was, h);
      } else {
        assert vcs[i].spec !in SpecsTo(vcs, n - 1);
        VipDoneNow(s, s1, s2, vcs[i], was, h);
      }
    }
  }

  lemma SpecsNext(vcs: seq<VipConfig>, n: nat)
    requires 0 < n <= |vcs|
    ensures SpecsTo(vcs, n) == SpecsTo(vcs, n - 1) + {vcs[n - 1].spec}
  {
  }

  lemma OthersUntouched(s: Lb, s1: Lb, s2: Lb, stuck: multiset<U32>, done: set<VipSpec>, k: VipSpec)
    requires forall j :: j !in done ==> Untouched(s, s1, stuck, j)
    requires forall j :: j != k ==> Untouched(s1, s2, stuck, j)
    ensures forall j :: j !in done + {k} ==> Untouched(s, s2, stuck, j)
  {
    forall j | j !in done + {k}
      ensures Untouched(s, s2, stuck, j)
    {
      UntouchedThen(s, s1, s2, stuck, j);
    }
  }

  lemma ApplyStep(s: Lb, s1: Lb, s2: Lb, vcs: seq<VipConfig>, n: nat, was: HashMode, h: Hashes)
    requires 0 < n <= |vcs| && DistinctSpecs(vcs)
    requires Inv(s) && Applied(s, s1, vcs, n - 1, was, h) && StepDone(s1, s2, vcs[n - 1], was, h)
    ensures Applied(s, s2, vcs, n, was, h)
  {
    SpecsNext(vcs, n);
    OthersUntouched(s, s1, s2, s.leak, SpecsTo(vcs, n - 1), vcs[n - 1].spec);
    VipsStayDone(s, s1, s2, vcs, n, was, h);
  }

  lemma AppliedNone(s: Lb, vcs: seq<VipConfig>, was: HashMode, h: Hashes)
    requires Good(s)
    ensures Applied(s, s, vcs, 0, was, h)
  {
    UntouchedSelf(s, s.leak);
  }

  lemma ApplyNext(s: Lb, s1: Lb, vcs: seq<VipConfig>, n: nat, was: HashMode, arp: map<U32, Mac>, h: Hashes)
    requires 0 < n <= |vcs| && DistinctSpecs(vcs) && Applied(s, s1, vcs, n - 1, was, h) && FlagsOk(s, vcs[n - 1])
             && MacsOk(arp)
    requires Inv(s)
    ensures Ranged(s1.t)
    ensures var d := ApplyVip(s1, vcs[n - 1], s.hash != was, arp, h);
            Good(d.s) && (d.ok ==> Applied(s, d.s, vcs, n, was, h))
  {
    FlagsStayOk(s, s1, vcs, n - 1, was, h);
    ApplyVipOk(s1, vcs[n - 1], was, arp, h);
    var d := ApplyVip(s1, vcs[n - 1], s1.hash != was, arp, h);
    if d.ok {
      ApplyStep(s, s1, d.s, vcs, n, was, h);
    }
  }

  lemma FlagsStayOk(s: Lb, s1: Lb, vcs: seq<VipConfig>, n: nat, was: HashMode, h: Hashes)
    requires n < |vcs| && DistinctSpecs(vcs) && Applied(s, s1, vcs, n, was, h) && FlagsOk(s, vcs[n])
    ensures FlagsOk(s1, vcs[n])
  {
    assert vcs[n].spec !in SpecsTo(vcs, n);
    assert Untouched(s, s1, s.leak, vcs[n].spec);
  }

  lemma ApplyVipsNext(s: Lb, vcs: seq<VipConfig>, m: nat, hashChanged: bool, arp: map<U32, Mac>, h: Hashes)
    requires Ranged(s.t) && m < |vcs| && ApplyVips(s, vcs, m, hashChanged, arp, h).ok
    ensures ApplyVips(s, vcs, m + 1, hashChanged, arp, h)
         == ApplyVip(ApplyVips(s, vcs, m, hashChanged, arp, h).s, vcs[m], hashChanged, arp, h)
  {
  }

  lemma ApplyVipsStop(s: Lb, vcs: seq<VipConfig>, m: nat, hashChanged: bool, arp: map<U32, Mac>, h: Hashes)
    requires Ranged(s.t) && m < |vcs| && !ApplyVips(s, vcs, m, hashChanged, arp, h).ok
    ensures ApplyVips(s, vcs, m + 1, hashChanged, arp, h) == ApplyVips(s, vcs, m, hashChanged, arp, h)
  {
  }

  lemma ApplyMore(s: Lb, d: Done, vcs: seq<VipConfig>, m: nat, hashChanged: bool, was: HashMode, arp: map<U32, Mac>,
                  h: Hashes)
    requires Inv(s) && Ranged(s.t) && m < |vcs| && DistinctSpecs(vcs) && FlagsOk(s, vcs[m]) && MacsOk(arp)
    requires hashChanged == (s.hash != was)
    requires d == ApplyVips(s, vcs, m, hashChanged, arp, h) && Good(d.s) && (d.ok ==> Applied(s, d.s, vcs, m, was, h))
    ensures var d' := ApplyVips(s, vcs, m + 1, hashChanged, arp, h);
            Good(d'.s) && (d'.ok ==> Applied(s, d'.s, vcs, m + 1, was, h))
  {
    if d.ok {
      ApplyVipsNext(s, vcs, m, hashChanged, arp, h);
      ApplyNext(s, d.s, vcs, m + 1, was, arp, h);
    } else {
      ApplyVipsStop(s, vcs, m, hashChanged, arp, h);
    }
  }

  /** Every write of a reload is safe, also when it runs out of ids half way. */
  lemma {:induction false} ApplyVipsOk(s: Lb, vcs: seq<VipConfig>, n: nat, was: HashMode, arp: map<U32, Mac>, h: Hashes)
    requires Good(s) && n <= |vcs| && DistinctSpecs(vcs) && MacsOk(arp) && forall i :: 0 <= i < n ==> FlagsOk(s, vcs[i])
    ensures Ranged(s.t)
    ensures var d := ApplyVips(s, vcs, n, s.hash != was, arp, h);
            Good(d.s) && (d.ok ==> Applied(s, d.s, vcs, n, was, h))
  {
    InvRanged(s);
    if n == 0 {
      AppliedNone(s, vcs, was, h);
    } else {
      var m := n - 1;
      assert m + 1 == n;
      ApplyVipsOk(s, vcs, m, was, arp, h);
      ApplyMore(s, ApplyVips(s, vcs, m, s.hash != was, arp, h), vcs, m, s.hash != was, was, arp, h);
    }
  }
}
