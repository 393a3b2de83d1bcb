/**
 A whole reload, complete or not, to the last detail, and from the start: how far it gets, which
 members each VIP has afterwards, which of them are recorded in_ring, and whose MACs are known, all
 computed from the configuration and what the daemon had before.
 */
module Outcome {
  import opened Basics
  import opened BuildMaglev
  import opened Ring
  import opened Maps
  import opened Reals
  import opened LbModel
  import opened Control
  import opened ControlLaws
  import opened MemberLaws
  import opened OpLaws
  import opened VipOps
  import opened Capacity
  import opened ApplyLaws
  import opened Budget
  import opened Convergence
  import opened Completeness
  import opened OneTurn

  // ---- what a reload starts from

  /**
   Of the daemon before the reload: the members of the VIPs that stay configured, the addresses whose
   reference an earlier reload left behind, and which of all these have a known MAC; of the
   configuration: the next hop, and whether the hash mode changes.
   */
  datatype Basis = Basis(had: map<VipSpec, map<U32, Member>>, left: set<U32>, known: set<U32>, nextHop: Option<U32>,
                         hashChanged: bool)

  ghost predicate StaysLive(s: Lb, ks: set<VipSpec>, a: U32) {
    a in s.leak || exists k :: k in s.vips && k in ks && a in s.vips[k].members
  }

  ghost function BasisOf(s: Lb, c: Config): (b: Basis) {
    var ks := Specs(c);
    Basis((map k | k in s.vips && k in ks :: s.vips[k].members), (set a | a in s.leak),
          (set a | a in s.t.byAddr && Known(s.t, a) && StaysLive(s, ks, a)), c.nextHop, s.hash != c.hash)
  }

  ghost function Had(b: Basis, k: VipSpec): (members: map<U32, Member>) {
    if k in b.had then b.had[k] else map[]
  }

  // ---- how far it gets

  ghost function WantedTo(vcs: seq<VipConfig>, i: nat): (addrs: set<U32>)
    requires i <= |vcs|
  {
    if i == 0 then {} else WantedTo(vcs, i - 1) + Want(vcs[i - 1]).Keys
  }

  ghost function HeldFrom(b: Basis, vcs: seq<VipConfig>, i: nat): (addrs: set<U32>)
    requires i <= |vcs|
    decreases |vcs| - i
  {
    if i == |vcs| then {} else Had(b, vcs[i].spec).Keys + HeldFrom(b, vcs, i + 1)
  }

  /** The addresses with an id when VIP i has its turn: left behind, configured before i, or held by a VIP from i on. */
  ghost function LiveAt(b: Basis, vcs: seq<VipConfig>, i: nat): (addrs: set<U32>)
    requires i <= |vcs|
  {
    b.left + WantedTo(vcs, i) + HeldFrom(b, vcs, i)
  }

  ghost predicate VipIdAt(b: Basis, vcs: seq<VipConfig>, i: nat)
    requires i < |vcs|
  {
    AtMost(b.had.Keys + SpecsTo(vcs, i + 1), MAX_VIPS)
  }

  /** VIP i finds a vip_id and real_ids for all its addresses. */
  ghost predicate FitsAt(b: Basis, vcs: seq<VipConfig>, i: nat)
    requires i < |vcs|
  {
    VipIdAt(b, vcs, i) && Room(LiveAt(b, vcs, i) + Want(vcs[i]).Keys)
  }

  /** Which of the VIPs fit when their turn comes. */
  ghost function Fits(b: Basis, vcs: seq<VipConfig>): (fits: seq<bool>)
    ensures |fits| == |vcs|
  {
    seq(|vcs|, i requires 0 <= i < |vcs| => FitsAt(b, vcs, i))
  }

  lemma FitsIs(b: Basis, vcs: seq<VipConfig>, i: nat, fits: seq<bool>)
    requires i < |vcs| && fits == Fits(b, vcs)
    ensures |fits| == |vcs| && fits[i] == FitsAt(b, vcs, i)
  {
  }

  /** r is the first that does not, |fits| if all do. */
  ghost predicate Stops(fits: seq<bool>, r: nat) {
    r <= |fits| && (forall j :: 0 <= j < r ==> fits[j]) && (r < |fits| ==> !fits[r])
  }

  ghost function PlacedAt(b: Basis, vcs: seq<VipConfig>, i: nat): (p: set<U32>)
    requires i < |vcs|
  {
    if VipIdAt(b, vcs, i) then Placed(LiveAt(b, vcs, i), Want(vcs[i]).Keys) else {}
  }

  /** The addresses that become members when VIP i has its turn. */
  ghost function JoinedAt(b: Basis, vcs: seq<VipConfig>, i: nat): (joined: set<U32>)
    requires i < |vcs|
  {
    PlacedAt(b, vcs, i) - Had(b, vcs[i].spec).Keys
  }

  // ---- what it leaves

  /** The MAC of a is known when VIP i has its turn: it was, or a has joined since, and a never lost its id. */
  ghost predicate KnownAt(b: Basis, vcs: seq<VipConfig>, arp: map<U32, Mac>, i: nat, a: U32)
    requires i <= |vcs|
  {
    if i == 0 then a in b.known else
      a in LiveAt(b, vcs, i) && (KnownAt(b, vcs, arp, i - 1, a) || LearntAt(b, vcs, arp, i - 1, a))
  }

  ghost predicate LearntAt(b: Basis, vcs: seq<VipConfig>, arp: map<U32, Mac>, i: nat, a: U32)
    requires i < |vcs|
  {
    a in JoinedAt(b, vcs, i) && Neighbour(b.nextHop, a) in arp
  }

  ghost predicate RebuildsAt(b: Basis, vc: VipConfig) {
    var had, want := Had(b, vc.spec), Want(vc);
    || vc.spec !in b.had || b.hashChanged || had.Keys != want.Keys
    || exists a :: a in want && a in had && had[a].weight != want[a]
  }

  /** Member a of VIP i once its turn is completed. */
  ghost function LookDone(b: Basis, vcs: seq<VipConfig>, arp: map<U32, Mac>, i: nat, a: U32): (l: Option<Look>)
    requires i < |vcs|
  {
    var want := Want(vcs[i]);
    LookThen(Had(b, vcs[i].spec), want, want.Keys, RebuildsAt(b, vcs[i]), KnownAt(b, vcs, arp, i + 1, a), a)
  }

  /** Member a of VIP i after a reload that stopped at VIP r. */
  ghost function LookAfter(b: Basis, vcs: seq<VipConfig>, arp: map<U32, Mac>, r: nat, i: nat, a: U32): (l: Option<Look>)
    requires i < |vcs| && r <= |vcs|
  {
    var had := Had(b, vcs[i].spec);
    if i < r then LookDone(b, vcs, arp, i, a)
    else if i == r then LookThen(had, Want(vcs[i]), PlacedAt(b, vcs, i), false, false, a)
    else if a in had then Some(LookOf(had[a]))
    else None
  }

  ghost predicate KnownAtEnd(b: Basis, vcs: seq<VipConfig>, arp: map<U32, Mac>, r: nat, a: U32)
    requires r <= |vcs|
  {
    KnownAt(b, vcs, arp, r, a) || (r < |vcs| && LearntAt(b, vcs, arp, r, a))
  }

  // ---- where the daemon stands when VIP i has its turn

  ghost predicate StandsKnown(b: Basis, vcs: seq<VipConfig>, arp: map<U32, Mac>, i: nat, t: Lb, a: U32)
    requires i <= |vcs|
  {
    Known(t.t, a) <==> KnownAt(b, vcs, arp, i, a)
  }

  ghost predicate StandsLook(b: Basis, vcs: seq<VipConfig>, arp: map<U32, Mac>, j: nat, t: Lb, a: U32)
    requires j < |vcs|
  {
    Shows(MembersOf(t, vcs[j].spec), a, LookDone(b, vcs, arp, j, a))
  }

  /** The VIPs, and the members of those whose turn is still to come. */
  ghost predicate StandsVips(b: Basis, vcs: seq<VipConfig>, i: nat, t: Lb)
    requires i <= |vcs|
  {
    && t.vips.Keys == b.had.Keys + SpecsTo(vcs, i) && b.had.Keys <= SpecsTo(vcs, |vcs|)
    && t.nextHop == b.nextHop && (forall a :: a in t.leak <==> a in b.left)
    && forall k :: k !in SpecsTo(vcs, i) ==> MembersOf(t, k) == Had(b, k)
  }

  ghost predicate StandsAll(b: Basis, vcs: seq<VipConfig>, arp: map<U32, Mac>, i: nat, t: Lb)
    requires i <= |vcs|
  {
    && StandsVips(b, vcs, i, t) && t.t.byAddr.Keys == LiveAt(b, vcs, i)
    && (forall a :: StandsKnown(b, vcs, arp, i, t, a))
    && (forall j: nat, a :: j < i ==> StandsLook(b, vcs, arp, j, t, a))
  }

  datatype Matter = TheVips | TheTable | TheMacs | TheMembers

  ghost predicate StandsIn(b: Basis, vcs: seq<VipConfig>, arp: map<U32, Mac>, i: nat, t: Lb, x: Matter)
    requires i <= |vcs|
  {
    match x
    case TheVips => StandsVips(b, vcs, i, t)
    case TheTable => t.t.byAddr.Keys == LiveAt(b, vcs, i)
    case TheMacs => forall a :: StandsKnown(b, vcs, arp, i, t, a)
    case TheMembers => forall j: nat, a :: j < i ==> StandsLook(b, vcs, arp, j, t, a)
  }

  /** The same, folded. */
  ghost predicate Stands(b: Basis, vcs: seq<VipConfig>, arp: map<U32, Mac>, i: nat, t: Lb)
    requires i <= |vcs|
  {
    forall x: Matter {:trigger StandsIn(b, vcs, arp, i, t, x)} :: StandsIn(b, vcs, arp, i, t, x)
  }

  lemma StandsMeans(b: Basis, vcs: seq<VipConfig>, arp: map<U32, Mac>, i: nat, t: Lb)
    requires i <= |vcs| && Stands(b, vcs, arp, i, t)
    ensures StandsAll(b, vcs, arp, i, t)
  {
    assert StandsIn(b, vcs, arp, i, t, TheVips) && StandsIn(b, vcs, arp, i, t, TheTable);
    assert StandsIn(b, vcs, arp, i, t, TheMacs) && StandsIn(b, vcs, arp, i, t, TheMembers);
  }

  lemma {:induction false} WantedIs(vcs: seq<VipConfig>, i: nat, a: U32)
    requires i <= |vcs|
    ensures a in WantedTo(vcs, i) <==> exists j: nat :: j < i && a in Want(vcs[j])
  {
    if i > 0 {
      WantedIs(vcs, i - 1, a);
    }
  }

  lemma {:induction false} HeldIs(b: Basis, vcs: seq<VipConfig>, i: nat, a: U32)
    requires i <= |vcs|
    ensures a in HeldFrom(b, vcs, i) <==> exists j: nat :: i <= j < |vcs| && a in Had(b, vcs[j].spec)
    decreases |vcs| - i
  {
    if i < |vcs| {
      HeldIs(b, vcs, i + 1, a);
    }
  }

  /** The members of VIP j, done or still to come. */
  ghost predicate HoldsAs(b: Basis, vcs: seq<VipConfig>, i: nat, t: Lb, j: nat)
    requires j < |vcs|
  {
    MembersOf(t, vcs[j].spec).Keys == if j < i then Want(vcs[j]).Keys else Had(b, vcs[j].spec).Keys
  }

  lemma HoldsDone(b: Basis, vcs: seq<VipConfig>, arp: map<U32, Mac>, i: nat, t: Lb, j: nat)
    requires j < i <= |vcs| && forall a :: StandsLook(b, vcs, arp, j, t, a)
    ensures HoldsAs(b, vcs, i, t, j)
  {
    var members := MembersOf(t, vcs[j].spec);
    forall a
      ensures a in members <==> a in Want(vcs[j])
    {
      assert StandsLook(b, vcs, arp, j, t, a);
    }
  }

  lemma HoldsLater(b: Basis, vcs: seq<VipConfig>, i: nat, t: Lb, j: nat)
    requires i <= j < |vcs| && StandsVips(b, vcs, i, t) && DistinctSpecs(vcs)
    ensures HoldsAs(b, vcs, i, t, j)
  {
    assert vcs[j].spec !in SpecsTo(vcs, i);
  }

  /** An address a VIP holds is one of those counted. */
  lemma HeldCounted(b: Basis, vcs: seq<VipConfig>, i: nat, t: Lb, j: nat, a: U32)
    requires i <= |vcs| && j < |vcs| && HoldsAs(b, vcs, i, t, j) && a in MembersOf(t, vcs[j].spec)
    ensures a in LiveAt(b, vcs, i)
  {
    WantedIs(vcs, i, a);
    HeldIs(b, vcs, i, a);
  }

  lemma CountedHeld(b: Basis, vcs: seq<VipConfig>, i: nat, t: Lb, a: U32)
    requires i <= |vcs| && (forall j: nat :: j < |vcs| ==> HoldsAs(b, vcs, i, t, j)) && a in LiveAt(b, vcs, i)
    ensures a in b.left || exists k :: k in t.vips && a in t.vips[k].members
  {
    WantedIs(vcs, i, a);
    HeldIs(b, vcs, i, a);
    if a !in b.left {
      var j: nat :| j < |vcs| && if j < i then a in Want(vcs[j]) else a in Had(b, vcs[j].spec);
      assert HoldsAs(b, vcs, i, t, j);
      assert a in MembersOf(t, vcs[j].spec);
    }
  }

  lemma LiveNow(b: Basis, vcs: seq<VipConfig>, i: nat, t: Lb, a: U32)
    requires Good(t) && i <= |vcs| && StandsVips(b, vcs, i, t)
    requires forall j: nat :: j < |vcs| ==> HoldsAs(b, vcs, i, t, j)
    ensures a in t.t.byAddr <==> a in LiveAt(b, vcs, i)
  {
    HeldOrLeft(t, a);
    if k :| k in t.vips && a in t.vips[k].members {
      assert k in SpecsTo(vcs, |vcs|);
      var j: nat :| j < |vcs| && vcs[j].spec == k;
      HeldCounted(b, vcs, i, t, j, a);
    }
    if a in LiveAt(b, vcs, i) {
      CountedHeld(b, vcs, i, t, a);
    }
  }

  /** The addresses in the table follow from the VIPs. */
  lemma LiveAll(b: Basis, vcs: seq<VipConfig>, arp: map<U32, Mac>, i: nat, t: Lb)
    requires Good(t) && i <= |vcs| && StandsVips(b, vcs, i, t) && DistinctSpecs(vcs)
    requires forall j: nat, a :: j < i ==> StandsLook(b, vcs, arp, j, t, a)
    ensures t.t.byAddr.Keys == LiveAt(b, vcs, i)
  {
    forall j: nat | j < |vcs|
      ensures HoldsAs(b, vcs, i, t, j)
    {
      if j < i {
        HoldsDone(b, vcs, arp, i, t, j);
      } else {
        HoldsLater(b, vcs, i, t, j);
      }
    }
    forall a
      ensures a in t.t.byAddr <==> a in LiveAt(b, vcs, i)
    {
      LiveNow(b, vcs, i, t, a);
    }
  }

  // ---- the next turn

  /** The turn sees what the basis says. */
  ghost predicate SameView(b: Basis, vcs: seq<VipConfig>, i: nat, t: Lb)
    requires i < |vcs|
  {
    var vc := vcs[i];
    && (TurnFits(t, vc) <==> FitsAt(b, vcs, i)) && PlacedIn(t, vc) == PlacedAt(b, vcs, i)
       && JoinedIn(t, vc) == JoinedAt(b, vcs, i)
    && MembersOf(t, vc.spec) == Had(b, vc.spec) && (Rebuilds(t, vc, b.hashChanged) <==> RebuildsAt(b, vc))
  }

  lemma SeesRebuild(b: Basis, vc: VipConfig, t: Lb)
    requires MembersOf(t, vc.spec) == Had(b, vc.spec) && (vc.spec in t.vips <==> vc.spec in b.had)
    ensures Rebuilds(t, vc, b.hashChanged) <==> RebuildsAt(b, vc)
  {
  }

  lemma SeesRoom(b: Basis, vcs: seq<VipConfig>, i: nat, t: Lb, live: set<U32>)
    requires i < |vcs| && t.t.byAddr.Keys == live == LiveAt(b, vcs, i)
             && (HasVipId(t, vcs[i].spec) <==> VipIdAt(b, vcs, i))
    ensures TurnFits(t, vcs[i]) <==> FitsAt(b, vcs, i)
  {
    assert t.t.byAddr.Keys + Want(vcs[i]).Keys == live + Want(vcs[i]).Keys;
  }

  lemma SeesPlaced(b: Basis, vcs: seq<VipConfig>, i: nat, t: Lb, live: set<U32>)
    requires i < |vcs| && t.t.byAddr.Keys == live == LiveAt(b, vcs, i)
             && (HasVipId(t, vcs[i].spec) <==> VipIdAt(b, vcs, i))
    ensures PlacedIn(t, vcs[i]) == PlacedAt(b, vcs, i)
  {
  }

  lemma SeesVips(b: Basis, vcs: seq<VipConfig>, i: nat, t: Lb)
    requires i < |vcs| && StandsVips(b, vcs, i, t) && t.adopted == map[] && DistinctSpecs(vcs)
    ensures MembersOf(t, vcs[i].spec) == Had(b, vcs[i].spec) && (vcs[i].spec in t.vips <==> vcs[i].spec in b.had)
    ensures HasVipId(t, vcs[i].spec) <==> VipIdAt(b, vcs, i)
  {
    var k := vcs[i].spec;
    SpecsNext(vcs, i + 1);
    assert k !in SpecsTo(vcs, i);
    assert t.vips.Keys + t.adopted.Keys + {k} == b.had.Keys + SpecsTo(vcs, i + 1);
  }

  lemma SeesJoined(b: Basis, vcs: seq<VipConfig>, i: nat, t: Lb)
    requires i < |vcs| && PlacedIn(t, vcs[i]) == PlacedAt(b, vcs, i) && MembersOf(t, vcs[i].spec) == Had(b, vcs[i].spec)
    ensures JoinedIn(t, vcs[i]) == JoinedAt(b, vcs, i)
  {
  }

  lemma Sees(b: Basis, vcs: seq<VipConfig>, i: nat, t: Lb, live: set<U32>)
    requires i < |vcs| && StandsVips(b, vcs, i, t) && t.t.byAddr.Keys == live == LiveAt(b, vcs, i)
    requires t.adopted == map[] && DistinctSpecs(vcs)
    ensures SameView(b, vcs, i, t)
  {
    SeesVips(b, vcs, i, t);
    SeesRoom(b, vcs, i, t, live);
    SeesPlaced(b, vcs, i, t, live);
    SeesJoined(b, vcs, i, t);
    SeesRebuild(b, vcs[i], t);
  }

  lemma KnowsNext(b: Basis, vcs: seq<VipConfig>, arp: map<U32, Mac>, i: nat, t: Lb, s': Lb, a: U32)
    requires i < |vcs| && StandsKnown(b, vcs, arp, i, t, a) && t.nextHop == b.nextHop
             && JoinedIn(t, vcs[i]) == JoinedAt(b, vcs, i)
    requires KnowsThen(t, s', JoinedIn(t, vcs[i]), arp, a)
    ensures Known(s'.t, a) <==> a in s'.t.byAddr && (KnownAt(b, vcs, arp, i, a) || LearntAt(b, vcs, arp, i, a))
  {
  }

  lemma LooksNext(b: Basis, vcs: seq<VipConfig>, arp: map<U32, Mac>, i: nat, t: Lb, d: Done, a: U32)
    requires i < |vcs| && SameView(b, vcs, i, t) && d.ok && ShowsThen(t, d, vcs[i], b.hashChanged, a)
    requires PlacedIn(t, vcs[i]) == Want(vcs[i]).Keys && StandsKnown(b, vcs, arp, i + 1, d.s, a)
    ensures StandsLook(b, vcs, arp, i, d.s, a)
  {
  }

  lemma LookStays(b: Basis, vcs: seq<VipConfig>, arp: map<U32, Mac>, i: nat, j: nat, t: Lb, s': Lb, a: U32)
    requires j < i < |vcs| && DistinctSpecs(vcs) && StandsLook(b, vcs, arp, j, t, a)
    requires forall k :: k != vcs[i].spec ==> SameAt(t.vips, s'.vips, k)
    ensures StandsLook(b, vcs, arp, j, s', a)
  {
    assert SameAt(t.vips, s'.vips, vcs[j].spec);
  }

  lemma VipsNext(b: Basis, vcs: seq<VipConfig>, i: nat, t: Lb, s': Lb)
    requires i < |vcs| && StandsVips(b, vcs, i, t) && s'.leak == t.leak && s'.nextHop == t.nextHop
             && vcs[i].spec in s'.vips
    requires forall k :: k != vcs[i].spec ==> SameAt(t.vips, s'.vips, k)
    ensures StandsVips(b, vcs, i + 1, s')
  {
    SpecsNext(vcs, i + 1);
    forall k
      ensures k in s'.vips <==> k in b.had.Keys + SpecsTo(vcs, i + 1)
      ensures k !in SpecsTo(vcs, i + 1) ==> MembersOf(s', k) == Had(b, k)
    {
      if k != vcs[i].spec {
        assert SameAt(t.vips, s'.vips, k);
      }
    }
  }

  lemma KnowsAll(b: Basis, vcs: seq<VipConfig>, arp: map<U32, Mac>, i: nat, t: Lb, s': Lb)
    requires i < |vcs| && StandsAll(b, vcs, arp, i, t) && SameView(b, vcs, i, t)
    requires forall a :: KnowsThen(t, s', JoinedIn(t, vcs[i]), arp, a)
    ensures forall a :: Known(s'.t, a) <==>
                        a in s'.t.byAddr && (KnownAt(b, vcs, arp, i, a) || LearntAt(b, vcs, arp, i, a))
  {
    forall a
      ensures Known(s'.t, a) <==> a in s'.t.byAddr && (KnownAt(b, vcs, arp, i, a) || LearntAt(b, vcs, arp, i, a))
    {
      assert StandsKnown(b, vcs, arp, i, t, a) && KnowsThen(t, s', JoinedIn(t, vcs[i]), arp, a);
      KnowsNext(b, vcs, arp, i, t, s', a);
    }
  }

  lemma LooksAll(b: Basis, vcs: seq<VipConfig>, arp: map<U32, Mac>, i: nat, t: Lb, d: Done, j: nat, a: U32)
    requires j <= i < |vcs| && DistinctSpecs(vcs) && StandsAll(b, vcs, arp, i, t) && SameView(b, vcs, i, t)
    requires TurnAll(t, d, vcs[i], b.hashChanged, arp) && d.ok && PlacedIn(t, vcs[i]) == Want(vcs[i]).Keys
    requires StandsKnown(b, vcs, arp, i + 1, d.s, a)
    ensures StandsLook(b, vcs, arp, j, d.s, a)
  {
    if j < i {
      assert StandsLook(b, vcs, arp, j, t, a);
      LookStays(b, vcs, arp, i, j, t, d.s, a);
    } else {
      assert ShowsThen(t, d, vcs[i], b.hashChanged, a);
      LooksNext(b, vcs, arp, i, t, d, a);
    }
  }

  /** The members of VIP j after a completed turn, before anything is said of flags. */
  lemma KeysNext(b: Basis, vcs: seq<VipConfig>, arp: map<U32, Mac>, i: nat, t: Lb, d: Done, j: nat)
    requires i < |vcs| && j < |vcs| && DistinctSpecs(vcs) && StandsAll(b, vcs, arp, i, t)
             && StandsVips(b, vcs, i + 1, d.s)
    requires TurnAll(t, d, vcs[i], b.hashChanged, arp) && d.ok && PlacedIn(t, vcs[i]) == Want(vcs[i]).Keys
    ensures HoldsAs(b, vcs, i + 1, d.s, j)
  {
    if j < i {
      HoldsDone(b, vcs, arp, i, t, j);
      assert SameAt(t.vips, d.s.vips, vcs[j].spec);
    } else if j == i {
      var members := MembersOf(d.s, vcs[i].spec);
      forall a
        ensures a in members <==> a in Want(vcs[i])
      {
        assert ShowsThen(t, d, vcs[i], b.hashChanged, a);
      }
    } else {
      HoldsLater(b, vcs, i + 1, d.s, j);
    }
  }

  lemma LiveNext(b: Basis, vcs: seq<VipConfig>, arp: map<U32, Mac>, i: nat, t: Lb, d: Done)
    requires i < |vcs| && DistinctSpecs(vcs) && StandsAll(b, vcs, arp, i, t) && StandsVips(b, vcs, i + 1, d.s)
             && Good(d.s)
    requires TurnAll(t, d, vcs[i], b.hashChanged, arp) && d.ok && PlacedIn(t, vcs[i]) == Want(vcs[i]).Keys
    ensures d.s.t.byAddr.Keys == LiveAt(b, vcs, i + 1)
  {
    var n := i + 1;
    forall j: nat | j < |vcs|
      ensures HoldsAs(b, vcs, n, d.s, j)
    {
      KeysNext(b, vcs, arp, i, t, d, j);
    }
    forall a
      ensures a in d.s.t.byAddr <==> a in LiveAt(b, vcs, n)
    {
      LiveNow(b, vcs, n, d.s, a);
    }
  }

  /** A completed turn takes the daemon where the basis says. */
  lemma StandsNext(b: Basis, vcs: seq<VipConfig>, arp: map<U32, Mac>, i: nat, t: Lb, d: Done)
    requires i < |vcs| && DistinctSpecs(vcs) && Inv(t) && StandsAll(b, vcs, arp, i, t) && SameView(b, vcs, i, t)
    requires TurnAll(t, d, vcs[i], b.hashChanged, arp) && d.ok && Good(d.s) && d.s.leak == t.leak
    ensures StandsAll(b, vcs, arp, i + 1, d.s)
  {
    AllPlaced(t, vcs[i]);
    VipsNext(b, vcs, i, t, d.s);
    LiveNext(b, vcs, arp, i, t, d);
    KnowsAll(b, vcs, arp, i, t, d.s);
    var n := i + 1;
    forall a
      ensures StandsKnown(b, vcs, arp, n, d.s, a)
    {
    }
    forall j: nat, a | j < i + 1
      ensures StandsLook(b, vcs, arp, j, d.s, a)
    {
      LooksAll(b, vcs, arp, i, t, d, j, a);
    }
  }

  // ---- where it ends

  ghost predicate EndKnown(b: Basis, vcs: seq<VipConfig>, arp: map<U32, Mac>, r: nat, s': Lb, a: U32)
    requires r <= |vcs|
  {
    Known(s'.t, a) <==> KnownAtEnd(b, vcs, arp, r, a)
  }

  ghost predicate EndLook(b: Basis, vcs: seq<VipConfig>, arp: map<U32, Mac>, r: nat, i: nat, s': Lb, a: U32)
    requires i < |vcs| && r <= |vcs|
  {
    Shows(MembersOf(s', vcs[i].spec), a, LookAfter(b, vcs, arp, r, i, a))
  }

  /** What a reload that stopped at VIP r has left: every member of every configured VIP, and every known MAC. */
  ghost predicate EndedAll(b: Basis, vcs: seq<VipConfig>, arp: map<U32, Mac>, r: nat, s': Lb)
    requires r <= |vcs|
  {
    && (forall a :: EndKnown(b, vcs, arp, r, s', a))
    && (forall i: nat, a :: i < |vcs| ==> EndLook(b, vcs, arp, r, i, s', a))
  }

  ghost predicate EndedIn(b: Basis, vcs: seq<VipConfig>, arp: map<U32, Mac>, r: nat, s': Lb, x: Matter)
    requires r <= |vcs|
  {
    match x
    case TheMacs => forall a :: EndKnown(b, vcs, arp, r, s', a)
    case TheMembers => forall i: nat, a :: i < |vcs| ==> EndLook(b, vcs, arp, r, i, s', a)
    case _ => true
  }

  /** The same, folded. */
  ghost predicate Ended(b: Basis, vcs: seq<VipConfig>, arp: map<U32, Mac>, r: nat, s': Lb)
    requires r <= |vcs|
  {
    forall x: Matter {:trigger EndedIn(b, vcs, arp, r, s', x)} :: EndedIn(b, vcs, arp, r, s', x)
  }

  lemma EndedMeans(b: Basis, vcs: seq<VipConfig>, arp: map<U32, Mac>, r: nat, s': Lb)
    requires r <= |vcs| && Ended(b, vcs, arp, r, s')
    ensures EndedAll(b, vcs, arp, r, s')
  {
    assert EndedIn(b, vcs, arp, r, s', TheMacs) && EndedIn(b, vcs, arp, r, s', TheMembers);
  }

  lemma EndsComplete(b: Basis, vcs: seq<VipConfig>, arp: map<U32, Mac>, n: nat, t: Lb)
    requires n == |vcs| && StandsAll(b, vcs, arp, n, t)
    ensures EndedAll(b, vcs, arp, n, t)
  {
    forall a
      ensures EndKnown(b, vcs, arp, n, t, a)
    {
      assert StandsKnown(b, vcs, arp, n, t, a);
    }
    forall i: nat, a | i < |vcs|
      ensures EndLook(b, vcs, arp, n, i, t, a)
    {
      assert StandsLook(b, vcs, arp, i, t, a);
    }
  }

  lemma FailedKnows(b: Basis, vcs: seq<VipConfig>, arp: map<U32, Mac>, i: nat, t: Lb, s': Lb, a: U32)
    requires i < |vcs| && StandsKnown(b, vcs, arp, i, t, a) && s'.t.byAddr.Keys == t.t.byAddr.Keys + PlacedAt(b, vcs, i)
    requires Known(s'.t, a) <==> a in s'.t.byAddr && (KnownAt(b, vcs, arp, i, a) || LearntAt(b, vcs, arp, i, a))
    ensures EndKnown(b, vcs, arp, i, s', a)
  {
  }

  lemma FailedOwn(b: Basis, vcs: seq<VipConfig>, arp: map<U32, Mac>, r: nat, t: Lb, d: Done, a: U32)
    requires r < |vcs| && SameView(b, vcs, r, t) && ShowsThen(t, d, vcs[r], b.hashChanged, a) && !d.ok
    ensures EndLook(b, vcs, arp, r, r, d.s, a)
  {
  }

  lemma FailedLater(b: Basis, vcs: seq<VipConfig>, arp: map<U32, Mac>, r: nat, t: Lb, s': Lb, i: nat, a: U32)
    requires r < i < |vcs| && SameAt(t.vips, s'.vips, vcs[i].spec) && MembersOf(t, vcs[i].spec) == Had(b, vcs[i].spec)
    ensures EndLook(b, vcs, arp, r, i, s', a)
  {
  }

  lemma FailedEarlier(b: Basis, vcs: seq<VipConfig>, arp: map<U32, Mac>, r: nat, s': Lb, i: nat, a: U32)
    requires i < r < |vcs| && StandsLook(b, vcs, arp, i, s', a)
    ensures EndLook(b, vcs, arp, r, i, s', a)
  {
  }

  lemma FailedLooks(b: Basis, vcs: seq<VipConfig>, arp: map<U32, Mac>, r: nat, t: Lb, d: Done, i: nat, a: U32)
    requires r < |vcs| && i < |vcs| && DistinctSpecs(vcs) && StandsAll(b, vcs, arp, r, t) && SameView(b, vcs, r, t)
    requires TurnAll(t, d, vcs[r], b.hashChanged, arp) && !d.ok
    ensures EndLook(b, vcs, arp, r, i, d.s, a)
  {
    if i < r {
      assert StandsLook(b, vcs, arp, i, t, a);
      LookStays(b, vcs, arp, r, i, t, d.s, a);
      FailedEarlier(b, vcs, arp, r, d.s, i, a);
    } else if i == r {
      assert ShowsThen(t, d, vcs[r], b.hashChanged, a);
      FailedOwn(b, vcs, arp, r, t, d, a);
    } else {
      assert vcs[i].spec !in SpecsTo(vcs, r);
      assert SameAt(t.vips, d.s.vips, vcs[i].spec);
      FailedLater(b, vcs, arp, r, t, d.s, i, a);
    }
  }

  lemma EndsFailed(b: Basis, vcs: seq<VipConfig>, arp: map<U32, Mac>, r: nat, t: Lb, d: Done)
    requires r < |vcs| && DistinctSpecs(vcs) && StandsAll(b, vcs, arp, r, t) && SameView(b, vcs, r, t)
    requires TurnAll(t, d, vcs[r], b.hashChanged, arp) && !d.ok
    ensures EndedAll(b, vcs, arp, r, d.s)
  {
    KnowsAll(b, vcs, arp, r, t, d.s);
    forall a
      ensures EndKnown(b, vcs, arp, r, d.s, a)
    {
      assert StandsKnown(b, vcs, arp, r, t, a);
      FailedKnows(b, vcs, arp, r, t, d.s, a);
    }
    forall i: nat, a | i < |vcs|
      ensures EndLook(b, vcs, arp, r, i, d.s, a)
    {
      FailedLooks(b, vcs, arp, r, t, d, i, a);
    }
  }

  ghost predicate ReachedIf(b: Basis, vcs: seq<VipConfig>, fits: seq<bool>, arp: map<U32, Mac>, n: nat, d: Done,
                            ok: bool)
    requires n <= |vcs| == |fits|
  {
    d.ok == ok ==>
      if ok then (forall j :: 0 <= j < n ==> fits[j]) && Stands(b, vcs, arp, n, d.s)
      else exists r: nat :: r < n && Stops(fits, r) && Ended(b, vcs, arp, r, d.s)
  }

  /** After n turns: everything so far has fitted, or the reload has ended where the basis says. */
  ghost predicate Reached(b: Basis, vcs: seq<VipConfig>, fits: seq<bool>, arp: map<U32, Mac>, n: nat, d: Done)
    requires n <= |vcs| == |fits|
  {
    forall ok: bool {:trigger ReachedIf(b, vcs, fits, arp, n, d, ok)} :: ReachedIf(b, vcs, fits, arp, n, d, ok)
  }

  lemma ReachedMore(b: Basis, vcs: seq<VipConfig>, fits: seq<bool>, arp: map<U32, Mac>, n: nat, d: Done)
    requires 0 < n <= |vcs| == |fits| && (forall j :: 0 <= j < n - 1 ==> fits[j])
    requires fits[n - 1] == d.ok && if d.ok then Stands(b, vcs, arp, n, d.s) else Ended(b, vcs, arp, n - 1, d.s)
    ensures Reached(b, vcs, fits, arp, n, d)
  {
    if !d.ok {
      assert Stops(fits, n - 1);
    }
  }

  lemma SeesNow(b: Basis, vcs: seq<VipConfig>, arp: map<U32, Mac>, i: nat, t: Lb)
    requires i < |vcs| && DistinctSpecs(vcs) && Good(t) && StandsAll(b, vcs, arp, i, t)
    ensures SameView(b, vcs, i, t)
  {
    assert t.adopted == map[] by { assert Holds(t, LivePart); }
    Sees(b, vcs, i, t, t.t.byAddr.Keys);
  }

  lemma StandsThen(b: Basis, vcs: seq<VipConfig>, arp: map<U32, Mac>, i: nat, n: nat, t: Lb, d: Done)
    requires i < |vcs| && n == i + 1 && DistinctSpecs(vcs) && Inv(t) && StandsAll(b, vcs, arp, i, t)
             && SameView(b, vcs, i, t)
    requires TurnAll(t, d, vcs[i], b.hashChanged, arp) && d.ok && Good(d.s) && d.s.leak == t.leak
    ensures Stands(b, vcs, arp, n, d.s)
  {
    StandsNext(b, vcs, arp, i, t, d);
  }

  lemma EndsThen(b: Basis, vcs: seq<VipConfig>, arp: map<U32, Mac>, r: nat, t: Lb, d: Done)
    requires r < |vcs| && DistinctSpecs(vcs) && StandsAll(b, vcs, arp, r, t) && SameView(b, vcs, r, t)
    requires TurnAll(t, d, vcs[r], b.hashChanged, arp) && !d.ok
    ensures Ended(b, vcs, arp, r, d.s)
  {
    EndsFailed(b, vcs, arp, r, t, d);
  }

  lemma ReachedTurn(b: Basis, vcs: seq<VipConfig>, fits: seq<bool>, arp: map<U32, Mac>, i: nat, n: nat, t: Lb, d: Done)
    requires i < |vcs| == |fits| && n == i + 1 && fits == Fits(b, vcs) && DistinctSpecs(vcs) && Good(t)
             && Stands(b, vcs, arp, i, t)
    requires TurnDone(t, d, vcs[i], b.hashChanged, arp) && Good(d.s) && (d.ok ==> d.s.leak == t.leak)
    ensures d.ok == fits[i]
    ensures if d.ok then Stands(b, vcs, arp, n, d.s) else Ended(b, vcs, arp, i, d.s)
  {
    FitsIs(b, vcs, i, fits);
    StandsMeans(b, vcs, arp, i, t);
    SeesNow(b, vcs, arp, i, t);
    TurnMeans(t, d, vcs[i], b.hashChanged, arp);
    if d.ok {
      StandsThen(b, vcs, arp, i, n, t, d);
    } else {
      EndsThen(b, vcs, arp, i, t, d);
    }
  }

  lemma ReachedNext(b: Basis, vcs: seq<VipConfig>, fits: seq<bool>, arp: map<U32, Mac>, n: nat, t: Lb, d: Done)
    requires 0 < n <= |vcs| == |fits| && fits == Fits(b, vcs) && DistinctSpecs(vcs)
    requires (forall j :: 0 <= j < n - 1 ==> fits[j]) && Stands(b, vcs, arp, n - 1, t)
    requires Good(t) && Good(d.s) && (d.ok ==> d.s.leak == t.leak) && TurnDone(t, d, vcs[n - 1], b.hashChanged, arp)
    ensures Reached(b, vcs, fits, arp, n, d)
  {
    ReachedTurn(b, vcs, fits, arp, n - 1, n, t, d);
    ReachedMore(b, vcs, fits, arp, n, d);
  }

  lemma ReachedStill(b: Basis, vcs: seq<VipConfig>, fits: seq<bool>, arp: map<U32, Mac>, n: nat, d: Done)
    requires 0 < n <= |vcs| == |fits| && Reached(b, vcs, fits, arp, n - 1, d) && !d.ok
    ensures Reached(b, vcs, fits, arp, n, d)
  {
    assert ReachedIf(b, vcs, fits, arp, n - 1, d, false);
    var r: nat :| r < n - 1 && Stops(fits, r) && Ended(b, vcs, arp, r, d.s);
  }

  /** After n turns from s, as far as the next turn is concerned. */
  ghost predicate Sane(s: Lb, vcs: seq<VipConfig>, n: nat, d: Done)
    requires n <= |vcs|
  {
    Good(d.s) && (d.ok ==> d.s.leak == s.leak && (n < |vcs| ==> FlagsOk(d.s, vcs[n])))
  }

  lemma AppliedSane(s: Lb, vcs: seq<VipConfig>, n: nat, d: Done, was: HashMode, h: Hashes)
    requires n <= |vcs| && DistinctSpecs(vcs) && Good(d.s) && (d.ok ==> Applied(s, d.s, vcs, n, was, h))
    requires forall i :: 0 <= i < |vcs| ==> FlagsOk(s, vcs[i])
    ensures Sane(s, vcs, n, d)
  {
    if d.ok && n < |vcs| {
      FlagsStayOk(s, d.s, vcs, n, was, h);
    }
  }

  /** A reload for which every VIP has its ring or keeps its flags. */
  ghost predicate AllFlagsOk(s: Lb, vcs: seq<VipConfig>) {
    forall i :: 0 <= i < |vcs| ==> FlagsOk(s, vcs[i])
  }

  lemma TurnsSane(turns: seq<Done>, s: Lb, vcs: seq<VipConfig>, n: nat, hashChanged: bool, was: HashMode,
                  arp: map<U32, Mac>, h: Hashes)
    requires Good(s) && n <= |vcs| && DistinctSpecs(vcs) && MacsOk(arp) && AllFlagsOk(s, vcs)
             && hashChanged == (s.hash != was)
    requires IsTurns(turns, s, vcs, hashChanged, arp, h)
    ensures Sane(s, vcs, n, turns[n])
  {
    AppliedIfHarmless(turns, s, vcs, n, hashChanged, was, arp, h);
    AppliedSane(s, vcs, n, turns[n], was, h);
  }

  lemma SaneTurn(s: Lb, d: Done, d': Done, vcs: seq<VipConfig>, n: nat, hashChanged: bool, arp: map<U32, Mac>,
                 h: Hashes)
    requires 0 < n <= |vcs| && MacsOk(arp) && Sane(s, vcs, n - 1, d) && d.ok && Ranged(d.s.t)
    requires d' == ApplyVip(d.s, vcs[n - 1], hashChanged, arp, h)
    ensures TurnDone(d.s, d', vcs[n - 1], hashChanged, arp)
  {
    TurnExact(d.s, vcs[n - 1], hashChanged, arp, h);
  }

  lemma TurnIsDone(turns: seq<Done>, s: Lb, vcs: seq<VipConfig>, n: nat, hashChanged: bool, arp: map<U32, Mac>,
                   h: Hashes, d: Done, d': Done)
    requires 0 < n <= |vcs| && MacsOk(arp) && IsTurns(turns, s, vcs, hashChanged, arp, h) && d == turns[n - 1]
             && d' == turns[n]
    requires Sane(s, vcs, n - 1, d)
    ensures if d.ok then TurnDone(d.s, d', vcs[n - 1], hashChanged, arp) else d' == d
  {
    assert TurnAt(turns, vcs, n - 1, hashChanged, arp, h);
    if d.ok {
      SaneTurn(s, d, d', vcs, n, hashChanged, arp, h);
    }
  }

  lemma ReachedGoing(b: Basis, s: Lb, vcs: seq<VipConfig>, fits: seq<bool>, n: nat, arp: map<U32, Mac>, d: Done,
                     d': Done)
    requires 0 < n <= |vcs| == |fits| && DistinctSpecs(vcs) && fits == Fits(b, vcs)
             && Reached(b, vcs, fits, arp, n - 1, d) && d.ok
    requires Sane(s, vcs, n - 1, d) && Sane(s, vcs, n, d') && TurnDone(d.s, d', vcs[n - 1], b.hashChanged, arp)
    ensures Reached(b, vcs, fits, arp, n, d')
  {
    assert ReachedIf(b, vcs, fits, arp, n - 1, d, true);
    ReachedNext(b, vcs, fits, arp, n, d.s, d');
  }

  lemma ReachedOn(b: Basis, turns: seq<Done>, s: Lb, vcs: seq<VipConfig>, fits: seq<bool>, n: nat, was: HashMode,
                  arp: map<U32, Mac>, h: Hashes, d: Done, d': Done)
    requires Good(s) && 0 < n <= |vcs| && DistinctSpecs(vcs) && MacsOk(arp) && AllFlagsOk(s, vcs)
             && fits == Fits(b, vcs)
    requires b.hashChanged == (s.hash != was) && IsTurns(turns, s, vcs, b.hashChanged, arp, h) && d == turns[n - 1]
             && d' == turns[n]
    requires Reached(b, vcs, fits, arp, n - 1, d)
    ensures Reached(b, vcs, fits, arp, n, d')
  {
    TurnsSane(turns, s, vcs, n - 1, b.hashChanged, was, arp, h);
    TurnsSane(turns, s, vcs, n, b.hashChanged, was, arp, h);
    TurnIsDone(turns, s, vcs, n, b.hashChanged, arp, h, d, d');
    if d.ok {
      ReachedGoing(b, s, vcs, fits, n, arp, d, d');
    } else {
      ReachedStill(b, vcs, fits, arp, n, d);
    }
  }

  lemma {:induction false} TurnsReach(b: Basis, turns: seq<Done>, s: Lb, vcs: seq<VipConfig>, fits: seq<bool>, n: nat,
                                      was: HashMode, arp: map<U32, Mac>, h: Hashes)
    requires Good(s) && n <= |vcs| && DistinctSpecs(vcs) && MacsOk(arp) && AllFlagsOk(s, vcs) && fits == Fits(b, vcs)
    requires b.hashChanged == (s.hash != was)
    requires IsTurns(turns, s, vcs, b.hashChanged, arp, h) && Stands(b, vcs, arp, 0, s)
    ensures Reached(b, vcs, fits, arp, n, turns[n])
  {
    if n > 0 {
      TurnsReach(b, turns, s, vcs, fits, n - 1, was, arp, h);
      ReachedOn(b, turns, s, vcs, fits, n, was, arp, h, turns[n - 1], turns[n]);
    }
  }

  // ---- before the first turn

  lemma ReleaseTable(t: Tab, addr: U32)
    requires Ranged(t) && TableOk(t.slots, t.byAddr)
    ensures TableOk(Release(t, addr).slots, Release(t, addr).byAddr)
  {
    var t' := Release(t, addr);
    if addr in t.byAddr {
      assert AddrOk(t.slots, t.byAddr, addr);
      forall id: nat | id < |t'.slots|
        ensures SlotOk(t'.slots, t'.byAddr, id)
      {
        assert SlotOk(t.slots, t.byAddr, id);
      }
      forall b | b in t'.byAddr
        ensures AddrOk(t'.slots, t'.byAddr, b)
      {
        assert AddrOk(t.slots, t.byAddr, b);
      }
    }
  }

  /** Giving back a reference loses the MAC of what has no id any more, and of nothing else. */
  lemma ReleaseKeeps(t: Tab, addr: U32, b: U32)
    requires Ranged(t) && TableOk(t.slots, t.byAddr)
    ensures Known(Release(t, addr), b) <==> b in Release(t, addr).byAddr && Known(t, b)
  {
    if b in t.byAddr {
      assert AddrOk(t.slots, t.byAddr, b);
    }
    if addr in t.byAddr {
      assert AddrOk(t.slots, t.byAddr, addr);
    }
  }

  lemma {:induction false} ReleaseAllKeeps(s: Lb, todo: set<U32>, b: U32)
    requires Ranged(s.t) && TableOk(s.t.slots, s.t.byAddr)
    ensures var s' := ReleaseAll(s, todo);
            TableOk(s'.t.slots, s'.t.byAddr) && StillKnown(s, s', b) && s'.t.byAddr.Keys <= s.t.byAddr.Keys
    decreases todo
  {
    if todo != {} {
      var a := Least(todo);
      ReleaseTable(s.t, a);
      ReleaseKeeps(s.t, a, b);
      ReleaseShrinks(s, todo);
      ReleaseAllKeeps(ReleaseOne(s, a), todo - {a}, b);
    }
  }

  lemma DeleteKeeps(s: Lb, k: VipSpec, b: U32)
    requires Ranged(s.t) && TableOk(s.t.slots, s.t.byAddr)
    ensures var s' := DeleteVip(s, k);
            TableOk(s'.t.slots, s'.t.byAddr) && StillKnown(s, s', b) && s'.t.byAddr.Keys <= s.t.byAddr.Keys
  {
    if k in s.vips {
      var s1 := Withdrawn(s, k);
      RangedSame(s.t, s1.t);
      ReleaseAllKeeps(s1, s.vips[k].members.Keys, b);
    }
  }

  lemma {:induction false} DeleteAllKeeps(s: Lb, todo: set<VipSpec>, b: U32)
    requires Ranged(s.t) && TableOk(s.t.slots, s.t.byAddr)
    ensures StillKnown(s, DeleteAll(s, todo), b) && DeleteAll(s, todo).t.byAddr.Keys <= s.t.byAddr.Keys
    decreases todo
  {
    if todo != {} {
      DeleteKeeps(s, First(todo), b);
      DeleteAllKeeps(DeleteVip(s, First(todo)), todo - {First(todo)}, b);
    }
  }

  lemma PrunedKeeps(s: Lb, c: Config, lbMac: Mac, b: U32)
    requires Inv(s) && Ranged(s.t)
    ensures StillKnown(s, Pruned(s, c, lbMac), b)
  {
    assert Holds(s, TablePart);
    var s1 := Configure(s, c, lbMac);
    DeleteAllKeeps(s1, s1.vips.Keys - Specs(c), b);
  }

  lemma BasisVips(s: Lb, s2: Lb, c: Config)
    requires s2.vips.Keys == s.vips.Keys * Specs(c) && s2.nextHop == c.nextHop && s2.leak == s.leak
    requires forall j :: j in Specs(c) ==> SameAt(s.vips, s2.vips, j)
    ensures StandsVips(BasisOf(s, c), c.vips, 0, s2)
  {
    var b := BasisOf(s, c);
    assert b.had.Keys == s2.vips.Keys;
    assert SpecsTo(c.vips, |c.vips|) == Specs(c);
    forall k
      ensures MembersOf(s2, k) == Had(b, k)
    {
      assert k in Specs(c) ==> SameAt(s.vips, s2.vips, k);
    }
  }

  lemma LiveBefore(s: Lb, s2: Lb, c: Config, a: U32)
    requires Good(s2) && s2.vips.Keys == s.vips.Keys * Specs(c) && s2.leak == s.leak
    requires forall j :: j in Specs(c) ==> SameAt(s.vips, s2.vips, j)
    ensures a in s2.t.byAddr <==> StaysLive(s, Specs(c), a)
  {
    HeldOrLeft(s2, a);
    if k :| k in s2.vips && a in s2.vips[k].members {
      assert SameAt(s.vips, s2.vips, k);
    }
    if k :| k in s.vips && k in Specs(c) && a in s.vips[k].members {
      assert SameAt(s.vips, s2.vips, k);
    }
  }

  lemma KnownBefore(s: Lb, s2: Lb, c: Config, arp: map<U32, Mac>, a: U32)
    requires StillKnown(s, s2, a) && (a in s2.t.byAddr <==> StaysLive(s, Specs(c), a))
    ensures StandsKnown(BasisOf(s, c), c.vips, arp, 0, s2, a)
  {
  }

  /** Once the VIPs that are not configured are gone, the daemon stands where its basis says. */
  lemma StandsFirst(s: Lb, c: Config, lbMac: Mac, arp: map<U32, Mac>)
    requires Good(s) && DistinctSpecs(c.vips)
    ensures Ranged(s.t)
    ensures Stands(BasisOf(s, c), c.vips, arp, 0, Pruned(s, c, lbMac))
  {
    PrunedOk(s, c, lbMac);
    var s2 := Pruned(s, c, lbMac);
    forall j | j in Specs(c)
      ensures SameAt(s.vips, s2.vips, j)
    {
      assert Untouched(s, s2, s.leak, j);
    }
    BasisVips(s, s2, c);
    forall a
      ensures StandsKnown(BasisOf(s, c), c.vips, arp, 0, s2, a)
    {
      PrunedKeeps(s, c, lbMac, a);
      LiveBefore(s, s2, c, a);
      KnownBefore(s, s2, c, arp, a);
    }
    LiveAll(BasisOf(s, c), c.vips, arp, 0, s2);
  }

  // ---- the whole reload

  lemma OneStop(fits: seq<bool>, r: nat, r': nat)
    requires Stops(fits, r) && Stops(fits, r')
    ensures r == r'
  {
  }

  lemma GoesTo(b: Basis, vcs: seq<VipConfig>, fits: seq<bool>, arp: map<U32, Mac>, n: nat, d: Done, r: nat)
    requires n <= |vcs| == |fits| && Reached(b, vcs, fits, arp, n, d) && Stops(fits, r)
    ensures d.ok <==> n <= r
    ensures !d.ok ==> Ended(b, vcs, arp, r, d.s)
  {
    assert ReachedIf(b, vcs, fits, arp, n, d, d.ok);
    if !d.ok {
      var r': nat :| r' < n && Stops(fits, r') && Ended(b, vcs, arp, r', d.s);
      OneStop(fits, r, r');
    }
  }

  lemma EndsAt(b: Basis, vcs: seq<VipConfig>, fits: seq<bool>, arp: map<U32, Mac>, n: nat, d: Done, r: nat)
    requires n == |vcs| == |fits| && Reached(b, vcs, fits, arp, n, d) && Stops(fits, r)
    ensures (d.ok <==> r == n) && Ended(b, vcs, arp, r, d.s)
  {
    GoesTo(b, vcs, fits, arp, n, d, r);
    if d.ok {
      assert ReachedIf(b, vcs, fits, arp, n, d, true);
      StandsMeans(b, vcs, arp, n, d.s);
      EndsComplete(b, vcs, arp, n, d.s);
    }
  }

  lemma FlagsOkAll(s: Lb, s2: Lb, c: Config)
    requires AllFlagsOk(s, c.vips) && forall j :: j in Specs(c) ==> Untouched(s, s2, s.leak, j)
    ensures AllFlagsOk(s2, c.vips)
  {
    forall i | 0 <= i < |c.vips|
      ensures FlagsOk(s2, c.vips[i])
    {
      assert c.vips[i].spec in Specs(c);
      FlagsOkPruned(s, s2, c.vips[i]);
    }
  }

  lemma ReloadReaches(s: Lb, c: Config, lbMac: Mac, arp: map<U32, Mac>, h: Hashes, n: nat)
    requires Good(s) && Ranged(s.t) && DistinctSpecs(c.vips) && MacsOk(arp) && AllFlagsOk(s, c.vips) && n <= |c.vips|
    ensures Reached(BasisOf(s, c), c.vips, Fits(BasisOf(s, c), c.vips), arp, n, ReloadTurns(s, c, lbMac, arp, h)[n])
  {
    PrunedOk(s, c, lbMac);
    var b, s2, turns := BasisOf(s, c), Pruned(s, c, lbMac), ReloadTurns(s, c, lbMac, arp, h);
    FlagsOkAll(s, s2, c);
    ReloadIsTurns(s, c, lbMac, arp, h);
    StandsFirst(s, c, lbMac, arp);
    TurnsReach(b, turns, s2, c.vips, Fits(b, c.vips), n, s.hash, arp, h);
  }

  /** A reload of a good daemon gets to its first VIP that does not fit, and leaves what its basis says. */
  lemma GoodOutcome(s: Lb, c: Config, lbMac: Mac, arp: map<U32, Mac>, h: Hashes, r: nat)
    requires Good(s) && Ranged(s.t) && DistinctSpecs(c.vips) && MacsOk(arp) && AllFlagsOk(s, c.vips)
    requires Stops(Fits(BasisOf(s, c), c.vips), r)
    ensures var d := Reload(s, c, lbMac, arp, h);
            (d.ok <==> r == |c.vips|) && Ended(BasisOf(s, c), c.vips, arp, r, d.s)
  {
    ReloadReaches(s, c, lbMac, arp, h, |c.vips|);
    ReloadIsTurns(s, c, lbMac, arp, h);
    EndsAt(BasisOf(s, c), c.vips, Fits(BasisOf(s, c), c.vips), arp, |c.vips|, Reload(s, c, lbMac, arp, h), r);
  }

  lemma GoodReach(s: Lb, c: Config, lbMac: Mac, arp: map<U32, Mac>, h: Hashes, r: nat, n: nat)
    requires Good(s) && Ranged(s.t) && DistinctSpecs(c.vips) && MacsOk(arp) && AllFlagsOk(s, c.vips) && n <= |c.vips|
    requires Stops(Fits(BasisOf(s, c), c.vips), r)
    ensures ReloadTurns(s, c, lbMac, arp, h)[n].ok <==> n <= r
  {
    ReloadReaches(s, c, lbMac, arp, h, n);
    GoesTo(BasisOf(s, c), c.vips, Fits(BasisOf(s, c), c.vips), arp, n, ReloadTurns(s, c, lbMac, arp, h)[n], r);
  }

  lemma StopsSomewhere(fits: seq<bool>) returns (r: nat)
    ensures Stops(fits, r)
  {
    r := LeastFalse(fits);
  }

  // ---- which VIPs are complete afterwards

  /** Member a of VIP i is usable after the reload, and not in its VIP's ring. */
  ghost predicate MissedAfter(b: Basis, vcs: seq<VipConfig>, arp: map<U32, Mac>, r: nat, i: nat, a: U32)
    requires i < |vcs| && r <= |vcs|
  {
    var l := LookAfter(b, vcs, arp, r, i, a);
    l.Some? && l.value.weight > 0 && l.value.fit && !l.value.inRing && KnownAtEnd(b, vcs, arp, r, a)
  }

  lemma MissedAt(b: Basis, vcs: seq<VipConfig>, arp: map<U32, Mac>, r: nat, i: nat, s': Lb, a: U32)
    requires i < |vcs| && r <= |vcs| && EndKnown(b, vcs, arp, r, s', a) && EndLook(b, vcs, arp, r, i, s', a)
    ensures var k := vcs[i].spec;
            MissedAfter(b, vcs, arp, r, i, a) <==> k in s'.vips && a in s'.vips[k].members && !NotMissing(s', k, a)
  {
    var k := vcs[i].spec;
    if k in s'.vips && a in s'.vips[k].members {
      MissingLooks(s', k, a);
    }
  }

  lemma CompleteAfter(b: Basis, vcs: seq<VipConfig>, arp: map<U32, Mac>, r: nat, i: nat, s': Lb)
    requires i < |vcs| && r <= |vcs| && Ended(b, vcs, arp, r, s')
    ensures Complete(s', vcs[i].spec) <==> forall a :: !MissedAfter(b, vcs, arp, r, i, a)
  {
    EndedMeans(b, vcs, arp, r, s');
    forall a
      ensures var k := vcs[i].spec;
              MissedAfter(b, vcs, arp, r, i, a) <==> k in s'.vips && a in s'.vips[k].members && !NotMissing(s', k, a)
    {
      assert EndKnown(b, vcs, arp, r, s', a) && EndLook(b, vcs, arp, r, i, s', a);
      MissedAt(b, vcs, arp, r, i, s', a);
    }
  }

  /**
   Missed by a completed reload: configured with a weight, up and not draining, its MAC known in the
   end, and either its VIP's ring was rebuilt before the MAC was known, or the ring was not rebuilt and
   the member had not been in it.
   */
  lemma MissedWhenDone(b: Basis, vcs: seq<VipConfig>, arp: map<U32, Mac>, n: nat, i: nat, a: U32)
    requires i < |vcs| == n
    ensures var had, want := Had(b, vcs[i].spec), Want(vcs[i]);
            MissedAfter(b, vcs, arp, n, i, a) <==>
              && a in want && want[a] > 0 && Fit(had, a) && KnownAt(b, vcs, arp, n, a)
              && if RebuildsAt(b, vcs[i]) then !KnownAt(b, vcs, arp, i + 1, a) else !WasInRing(had, a)
  {
  }
}
