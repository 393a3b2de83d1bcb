/** A reload as a whole: what it leaves, when it completes, and that repeating it changes nothing. */
module Convergence {
  import opened Basics
  import opened BuildMaglev
  import opened Ring
  import opened Maps
  import opened Reals
  import opened LbModel
  import opened Control
  import opened ControlLaws
  import opened MemberLaws
  import opened OpLaws
  import opened VipLaws
  import opened VipOps
  import opened ReloadLaws
  import opened Capacity
  import opened ApplyLaws

  lemma ConfigureOk(s: Lb, c: Config, lbMac: Mac)
    requires Inv(s)
    ensures Inv(Configure(s, c, lbMac)) && forall j :: Untouched(s, Configure(s, c, lbMac), s.leak, j)
  {
    Open(s);
    SendTab(s.t, PutConfig(ConfigOf(c, lbMac)));
    Close(Configure(s, c, lbMac));
    KeepsSelf(s.t.slots, s.t.byAddr);
  }

  lemma ConfigureGood(s: Lb, c: Config, lbMac: Mac)
    requires Good(s)
    ensures Good(Configure(s, c, lbMac)) && forall j :: Untouched(s, Configure(s, c, lbMac), s.leak, j)
  {
    var s1 := Configure(s, c, lbMac);
    ConfigureOk(s, c, lbMac);
    assert TabOk(s.t) && TabOk(s1.t) by { assert Holds(s, TablePart) && Holds(s1, TablePart); }
    forall j
      ensures Traced(s1, s1.leak, j)
    {
      assert Traced(s, s.leak, j);
      UntouchedTraced(s, s1, s.leak, j);
    }
  }

  /** The daemon's state is what the configuration says. */
  ghost predicate Conforms(s: Lb, c: Config) {
    && s.hash == c.hash && s.nextHop == c.nextHop && s.vips.Keys == Specs(c)
    && forall i :: 0 <= i < |c.vips| ==> Matches(s.vips[c.vips[i].spec], c.vips[i].noConntrack, Want(c.vips[i]))
  }

  /** From s to s' by a completed reload. */
  ghost predicate Reconfigured(s: Lb, s': Lb, c: Config, h: Hashes) {
    && Good(s') && s'.leak == s.leak && Conforms(s', c)
    && forall i :: 0 <= i < |c.vips| ==> VipDone(s, s', c.vips[i], s.hash, h)
  }

  ghost function Pruned(s: Lb, c: Config, lbMac: Mac): (s': Lb)
    requires Ranged(s.t)
    ensures Ranged(s'.t)
  {
    var s1 := Configure(s, c, lbMac);
    DeleteAll(s1, s1.vips.Keys - Specs(c))
  }

  lemma PrunedOk(s: Lb, c: Config, lbMac: Mac)
    requires Good(s)
    ensures Ranged(s.t)
    ensures var s2 := Pruned(s, c, lbMac);
            && Good(s2) && s2.leak == s.leak && s2.hash == c.hash && s2.nextHop == c.nextHop
            && s2.vips.Keys == s.vips.Keys * Specs(c) && s2.t.byAddr.Keys <= s.t.byAddr.Keys
            && forall j :: j in Specs(c) ==> Untouched(s, s2, s.leak, j)
  {
    InvRanged(s);
    ConfigureGood(s, c, lbMac);
    var s1 := Configure(s, c, lbMac);
    DeleteAllOk(s1, s1.vips.Keys - Specs(c));
    DeleteAllShrinks(s1, s1.vips.Keys - Specs(c));
    var s2 := Pruned(s, c, lbMac);
    forall j | j in Specs(c)
      ensures Untouched(s, s2, s.leak, j)
    {
      UntouchedThen(s, s1, s2, s.leak, j);
    }
  }

  lemma FlagsOkPruned(s: Lb, s2: Lb, vc: VipConfig)
    requires Untouched(s, s2, s.leak, vc.spec) && FlagsOk(s, vc)
    ensures FlagsOk(s2, vc)
  {
  }

  lemma DoneFrom(s: Lb, s2: Lb, s': Lb, c: Config, i: nat, h: Hashes)
    requires Inv(s) && i < |c.vips| && VipDone(s2, s', c.vips[i], s.hash, h) && s'.hash == s2.hash
    requires forall j :: j in Specs(c) ==> Untouched(s, s2, s.leak, j)
    ensures VipDone(s, s', c.vips[i], s.hash, h)
  {
    assert c.vips[i].spec in Specs(c);
    VipDoneNow(s, s2, s', c.vips[i], s.hash, h);
  }

  lemma Composed(s: Lb, s2: Lb, s': Lb, c: Config, h: Hashes)
    requires Inv(s) && Applied(s2, s', c.vips, |c.vips|, s.hash, h) && s2.leak == s.leak && s2.hash == c.hash
             && s2.nextHop == c.nextHop
    requires s2.vips.Keys <= Specs(c) && forall j :: j in Specs(c) ==> Untouched(s, s2, s.leak, j)
    ensures Reconfigured(s, s', c, h)
  {
    assert SpecsTo(c.vips, |c.vips|) == Specs(c);
    forall i | 0 <= i < |c.vips|
      ensures VipDone(s, s', c.vips[i], s.hash, h)
    {
      assert VipDone(s2, s', c.vips[i], s.hash, h);
      DoneFrom(s, s2, s', c, i, h);
    }
  }

  /**
   Every reload is safe at every write. A completed one leaves exactly the configured VIPs, flags,
   members and weights, and members that stay keep their health and drain state.
   */
  lemma ReloadOk(s: Lb, c: Config, lbMac: Mac, arp: map<U32, Mac>, h: Hashes)
    requires Good(s) && DistinctSpecs(c.vips) && MacsOk(arp) && forall i :: 0 <= i < |c.vips| ==> FlagsOk(s, c.vips[i])
    ensures Ranged(s.t)
    ensures var d := Reload(s, c, lbMac, arp, h);
            Good(d.s) && (d.ok ==> Reconfigured(s, d.s, c, h))
  {
    PrunedOk(s, c, lbMac);
    var s2 := Pruned(s, c, lbMac);
    forall i | 0 <= i < |c.vips|
      ensures FlagsOk(s2, c.vips[i])
    {
      assert c.vips[i].spec in Specs(c);
      FlagsOkPruned(s, s2, c.vips[i]);
    }
    ApplyVipsOk(s2, c.vips, |c.vips|, s.hash, arp, h);
    var d := Reload(s, c, lbMac, arp, h);
    if d.ok {
      Composed(s, s2, d.s, c, h);
    }
  }

  /** With nothing pending, the rings, the VIP map and the table match the configuration too. */
  lemma ReconfiguredNeat(s: Lb, s': Lb, c: Config, h: Hashes)
    requires Neat(s, h) && Reconfigured(s, s', c, h)
    ensures Neat(s', h)
  {
    assert s.(hash := s.hash) == s;
    forall j
      ensures Steady(s', h, j)
    {
      if j in s'.vips {
        assert j in Specs(c);
        var i :| 0 <= i < |c.vips| && c.vips[i].spec == j;
        assert VipDone(s, s', c.vips[i], s.hash, h);
        assert Steady(s, h, j);
      }
    }
  }

  // ---- turn by turn

  /** turns[i] is where the configured VIPs before i have taken the daemon. */
  ghost predicate TurnAt(turns: seq<Done>, vcs: seq<VipConfig>, i: nat, hashChanged: bool, arp: map<U32, Mac>,
                         h: Hashes)
    requires |turns| == |vcs| + 1 && i < |vcs|
  {
    Ranged(turns[i].s.t) && turns[i + 1] == if turns[i].ok then ApplyVip(turns[i].s, vcs[i], hashChanged, arp, h)
      else turns[i]
  }

  ghost predicate IsTurns(turns: seq<Done>, s: Lb, vcs: seq<VipConfig>, hashChanged: bool, arp: map<U32, Mac>,
                          h: Hashes) {
    && |turns| == |vcs| + 1 && turns[0] == Done(s, true) && Ranged(s.t)
    && forall i: nat :: i < |vcs| ==> TurnAt(turns, vcs, i, hashChanged, arp, h)
  }

  ghost function Turns(s: Lb, vcs: seq<VipConfig>, hashChanged: bool, arp: map<U32, Mac>, h: Hashes): (turns: seq<Done>)
    requires Ranged(s.t)
    ensures |turns| == |vcs| + 1
  {
    seq(|vcs| + 1, i requires 0 <= i <= |vcs| => ApplyVips(s, vcs, i, hashChanged, arp, h))
  }

  lemma TurnIs(s: Lb, vcs: seq<VipConfig>, i: nat, hashChanged: bool, arp: map<U32, Mac>, h: Hashes, d: Done, d': Done)
    requires Ranged(s.t) && i < |vcs| && d == ApplyVips(s, vcs, i, hashChanged, arp, h)
    requires d' == ApplyVips(s, vcs, i + 1, hashChanged, arp, h)
    ensures Ranged(d.s.t) && d' == if d.ok then ApplyVip(d.s, vcs[i], hashChanged, arp, h) else d
  {
    if d.ok {
      ApplyVipsNext(s, vcs, i, hashChanged, arp, h);
    } else {
      ApplyVipsStop(s, vcs, i, hashChanged, arp, h);
    }
  }

  lemma TurnsAt(s: Lb, vcs: seq<VipConfig>, hashChanged: bool, arp: map<U32, Mac>, h: Hashes, turns: seq<Done>, i: nat,
                d: Done, d': Done)
    requires Ranged(s.t) && |turns| == |vcs| + 1 && i < |vcs| && turns[i] == d && turns[i + 1] == d'
    requires d == ApplyVips(s, vcs, i, hashChanged, arp, h) && d' == ApplyVips(s, vcs, i + 1, hashChanged, arp, h)
    ensures TurnAt(turns, vcs, i, hashChanged, arp, h)
  {
    TurnIs(s, vcs, i, hashChanged, arp, h, d, d');
  }

  lemma TurnsAre(s: Lb, vcs: seq<VipConfig>, hashChanged: bool, arp: map<U32, Mac>, h: Hashes, turns: seq<Done>)
    requires Ranged(s.t) && |turns| == |vcs| + 1
    requires forall i :: 0 <= i <= |vcs| ==> turns[i] == ApplyVips(s, vcs, i, hashChanged, arp, h)
    ensures IsTurns(turns, s, vcs, hashChanged, arp, h)
  {
    assert turns[0] == Done(s, true);
    forall i: nat | i < |vcs|
      ensures TurnAt(turns, vcs, i, hashChanged, arp, h)
    {
      TurnsAt(s, vcs, hashChanged, arp, h, turns, i, turns[i], turns[i + 1]);
    }
  }

  ghost function ReloadTurns(s: Lb, c: Config, lbMac: Mac, arp: map<U32, Mac>, h: Hashes): (turns: seq<Done>)
    requires Ranged(s.t)
    ensures |turns| == |c.vips| + 1
  {
    Turns(Pruned(s, c, lbMac), c.vips, s.hash != c.hash, arp, h)
  }

  lemma ReloadIsTurns(s: Lb, c: Config, lbMac: Mac, arp: map<U32, Mac>, h: Hashes)
    requires Ranged(s.t)
    ensures IsTurns(ReloadTurns(s, c, lbMac, arp, h), Pruned(s, c, lbMac), c.vips, s.hash != c.hash, arp, h)
    ensures Reload(s, c, lbMac, arp, h) == ReloadTurns(s, c, lbMac, arp, h)[|c.vips|]
  {
    TurnsAre(Pruned(s, c, lbMac), c.vips, s.hash != c.hash, arp, h, ReloadTurns(s, c, lbMac, arp, h));
  }

  /** If the reload gets as far as VIP i, it does not change the flags of a VIP that never got its ring. */
  ghost predicate Harmless(turns: seq<Done>, s: Lb, vcs: seq<VipConfig>, i: nat)
    requires |turns| == |vcs| + 1 && i < |vcs|
  {
    turns[i].ok ==> FlagsOk(s, vcs[i])
  }

  lemma HarmlessNext(s: Lb, d: Done, d': Done, vcs: seq<VipConfig>, n: nat, hashChanged: bool, was: HashMode,
                     arp: map<U32, Mac>, h: Hashes)
    requires Good(s) && 0 < n <= |vcs| && DistinctSpecs(vcs) && MacsOk(arp) && hashChanged == (s.hash != was)
    requires Ranged(d.s.t) && d' == if d.ok then ApplyVip(d.s, vcs[n - 1], hashChanged, arp, h) else d
    requires Good(d.s) && (d.ok ==> Applied(s, d.s, vcs, n - 1, was, h) && FlagsOk(s, vcs[n - 1]))
    ensures Good(d'.s) && (d'.ok ==> Applied(s, d'.s, vcs, n, was, h))
  {
    if d.ok {
      ApplyNext(s, d.s, vcs, n, was, arp, h);
    }
  }

  lemma {:induction false} AppliedIfHarmless(turns: seq<Done>, s: Lb, vcs: seq<VipConfig>, n: nat, hashChanged: bool,
          was: HashMode, arp: map<U32, Mac>, h: Hashes)
    requires Good(s) && n <= |vcs| && DistinctSpecs(vcs) && MacsOk(arp) && hashChanged == (s.hash != was)
    requires IsTurns(turns, s, vcs, hashChanged, arp, h) && forall i: nat :: i < n ==> Harmless(turns, s, vcs, i)
    ensures Good(turns[n].s) && (turns[n].ok ==> Applied(s, turns[n].s, vcs, n, was, h))
  {
    if n == 0 {
      AppliedNone(s, vcs, was, h);
    } else {
      AppliedIfHarmless(turns, s, vcs, n - 1, hashChanged, was, arp, h);
      assert TurnAt(turns, vcs, n - 1, hashChanged, arp, h) && Harmless(turns, s, vcs, n - 1);
      HarmlessNext(s, turns[n - 1], turns[n], vcs, n, hashChanged, was, arp, h);
    }
  }

  // ---- completion

  /** All addresses a configuration mentions. */
  ghost function AllReals(c: Config): (addrs: set<U32>) {
    set i, a | 0 <= i < |c.vips| && a in Want(c.vips[i]) :: a
  }

  lemma CreateEnds(s: Lb, s1: Lb, d: Done, vc: VipConfig, arp: map<U32, Mac>, h: Hashes)
    requires Ranged(s.t) && Enter(s, vc.spec, vc.noConntrack) == Some(s1) && Ranged(s1.t) && vc.spec in s1.vips
    requires d == Merge(s1, vc.spec, Want(vc), Want(vc).Keys, arp) && d.ok
    ensures CreateVip(s, vc.spec, vc.noConntrack, Want(vc), arp, h)
            == Done(SendVip(Rebuild(d.s, vc.spec, h), vc.spec), true)
  {
  }

  lemma PruneOk(s: Lb, vc: VipConfig)
    requires Good(s) && vc.spec in s.vips && FlagsOk(s, vc)
    ensures Inv(Prune(s, vc)) && Prune(s, vc).t.byAddr == s.t.byAddr
  {
    ReflagOk(s, vc.spec, vc.noConntrack);
    RemoveOk(Reflag(s, vc.spec, vc.noConntrack), vc.spec, Gone(s, vc));
  }

  lemma SpecsFit(c: Config)
    ensures |Specs(c)| <= |c.vips|
  {
    SpecsToFit(c.vips, |c.vips|);
    assert SpecsTo(c.vips, |c.vips|) == Specs(c);
  }

  lemma {:induction false} SpecsToFit(vcs: seq<VipConfig>, n: nat)
    requires n <= |vcs|
    ensures |SpecsTo(vcs, n)| <= n
  {
    if n > 0 {
      SpecsToFit(vcs, n - 1);
      SpecsNext(vcs, n);
    } else {
      assert SpecsTo(vcs, n) == {};
    }
  }

  // ---- what is live

  lemma ShownIffKnown(t: Tab, a: U32)
    requires TabOk(t)
    ensures a in t.byAddr <==> a != 0 && a in t.k.maps.reals
  {
    if a in t.byAddr {
      assert AddrOk(t.slots, t.byAddr, a) && SlotShown(t.slots[t.byAddr[a]], t.k.maps, t.byAddr[a]);
    }
    if a != 0 && a in t.k.maps.reals {
      var id: nat :| id < |t.k.maps.reals| && t.k.maps.reals[id] == a;
      assert SlotShown(t.slots[id], t.k.maps, id) && SlotOk(t.slots, t.byAddr, id);
    }
  }

  /** An address has an id exactly if a VIP holds it or its reference was left behind. */
  lemma HeldOrLeft(s: Lb, a: U32)
    requires Good(s)
    ensures a in s.t.byAddr <==> a in s.leak || exists k :: k in s.vips && a in s.vips[k].members
  {
    Open(s);
    if a in s.t.byAddr && a !in s.leak {
      assert HasRefs(s.t.slots, s.t.byAddr, a) && HeldAt(s.vips, s.t.slots, s.t.byAddr, s.leak, a);
      if forall k :: k in s.vips ==> a !in s.vips[k].members {
        NobodyHolds(s.vips, a);
        assert false;
      }
    }
  }

  // ---- doing it again

  ghost predicate AsWanted(s: Lb, vc: VipConfig) {
    vc.spec in s.vips && Matches(s.vips[vc.spec], vc.noConntrack, Want(vc))
  }

  lemma ApplyVipAgain(s: Lb, vc: VipConfig, hashChanged: bool, arp: map<U32, Mac>, h: Hashes)
    requires Ranged(s.t) && AsWanted(s, vc) && !hashChanged
    ensures ApplyVip(s, vc, hashChanged, arp, h) == Done(s, true)
  {
    ReloadQuiet(s, vc, arp, h);
  }

  lemma {:induction false} ApplyVipsAgain(s: Lb, vcs: seq<VipConfig>, n: nat, hashChanged: bool, arp: map<U32, Mac>,
                                          h: Hashes)
    requires Ranged(s.t) && n <= |vcs| && !hashChanged && forall i :: 0 <= i < n ==> AsWanted(s, vcs[i])
    ensures ApplyVips(s, vcs, n, hashChanged, arp, h) == Done(s, true)
  {
    if n > 0 {
      var m := n - 1;
      ApplyVipsAgain(s, vcs, m, hashChanged, arp, h);
      AgainStep(s, ApplyVips(s, vcs, m, hashChanged, arp, h), vcs, m, hashChanged, arp, h);
      assert m + 1 == n;
    }
  }

  lemma AgainStep(s: Lb, d: Done, vcs: seq<VipConfig>, m: nat, hashChanged: bool, arp: map<U32, Mac>, h: Hashes)
    requires Ranged(s.t) && m < |vcs| && !hashChanged && AsWanted(s, vcs[m])
    requires d == ApplyVips(s, vcs, m, hashChanged, arp, h) && d == Done(s, true)
    ensures ApplyVips(s, vcs, m + 1, hashChanged, arp, h) == Done(s, true)
  {
    ApplyVipsNext(s, vcs, m, hashChanged, arp, h);
    ApplyVipAgain(s, vcs[m], hashChanged, arp, h);
  }

  /**
   Reloading the configuration in force makes one write, the configuration record, and leaves every
   VIP, id, member, generation and ring as it was.
   */
  lemma ReloadAgain(s: Lb, c: Config, lbMac: Mac, arp: map<U32, Mac>, h: Hashes)
    requires Ranged(s.t) && Conforms(s, c)
    ensures Reload(s, c, lbMac, arp, h) == Done(s.(t := s.t.(k := Put(s.t.k, PutConfig(ConfigOf(c, lbMac))))), true)
  {
    var s1 := Configure(s, c, lbMac);
    assert s1.vips.Keys - Specs(c) == {};
    forall i | 0 <= i < |c.vips|
      ensures AsWanted(s1, c.vips[i])
    {
      assert c.vips[i].spec in Specs(c);
    }
    ApplyVipsAgain(s1, c.vips, |c.vips|, s.hash != c.hash, arp, h);
  }
}
