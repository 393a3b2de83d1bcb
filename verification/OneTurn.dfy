/**
 One VIP of a configuration, complete or not, to the last detail: how far it gets, which members it
 has afterwards, which of them are recorded in_ring, and whose MACs are known.
 */
module OneTurn {
  import opened Basics
  import opened BuildMaglev
  import opened Maps
  import opened Reals
  import opened LbModel
  import opened Control
  import opened ControlLaws
  import opened MemberLaws
  import opened ReleaseLaws
  import opened OpLaws
  import opened VipLaws
  import opened ReloadLaws
  import opened Capacity
  import opened ApplyLaws
  import opened Budget
  import opened Convergence
  import opened Completeness

  // ---- what matters of a member

  /** Its weight, whether it is up and not draining, and whether it is recorded in_ring. */
  datatype Look = Look(weight: U32, fit: bool, inRing: bool)

  function LookOf(m: Member): (l: Look) {
    Look(m.weight, m.health.up && !m.draining, m.inRing)
  }

  /** The members a VIP has, none if it is not known. */
  ghost function MembersOf(s: Lb, k: VipSpec): (members: map<U32, Member>) {
    if k in s.vips then s.vips[k].members else map[]
  }

  ghost predicate Shows(members: map<U32, Member>, a: U32, l: Option<Look>) {
    (a in members <==> l.Some?) && (a in members ==> LookOf(members[a]) == l.value)
  }

  /** A new member is up and does not drain; one that stays is as it was. */
  ghost predicate Fit(had: map<U32, Member>, a: U32) {
    a in had ==> LookOf(had[a]).fit
  }

  ghost predicate WasInRing(had: map<U32, Member>, a: U32) {
    a in had && had[a].inRing
  }

  /** Member a once the addresses of `placed` have been dealt with; rebuilt, its flag is decided anew. */
  ghost function LookThen(had: map<U32, Member>, want: map<U32, U32>, placed: set<U32>, rebuilt: bool, known: bool,
                          a: U32): (l: Option<Look>) {
    if a in placed && a in want then
      Some(Look(want[a], Fit(had, a), if rebuilt then want[a] > 0 && Fit(had, a) && known else WasInRing(had, a)))
    else if a in had && a in want then Some(LookOf(had[a]))
    else None
  }

  // ---- how far a turn gets

  /** There is a vip_id for the VIP. */
  ghost predicate HasVipId(s: Lb, k: VipSpec) {
    AtMost(s.vips.Keys + s.adopted.Keys + {k}, MAX_VIPS)
  }

  /** A vip_id for the VIP, and real_ids for all its addresses next to those in use. */
  ghost predicate TurnFits(s: Lb, vc: VipConfig) {
    HasVipId(s, vc.spec) && Room(s.t.byAddr.Keys + Want(vc).Keys)
  }

  /** The addresses dealt with in the turn. */
  ghost function PlacedIn(s: Lb, vc: VipConfig): (p: set<U32>) {
    if HasVipId(s, vc.spec) then Placed(s.t.byAddr.Keys, Want(vc).Keys) else {}
  }

  /** The addresses that become members in the turn. */
  ghost function JoinedIn(s: Lb, vc: VipConfig): (joined: set<U32>) {
    PlacedIn(s, vc) - MembersOf(s, vc.spec).Keys
  }

  /** Its MAC was known, or the address joins and the kernel has the MAC. */
  ghost predicate Learns(s: Lb, joined: set<U32>, arp: map<U32, Mac>, a: U32) {
    Known(s.t, a) || (a in joined && Neighbour(s.nextHop, a) in arp)
  }

  ghost predicate KnowsThen(s: Lb, s': Lb, joined: set<U32>, arp: map<U32, Mac>, a: U32) {
    Known(s'.t, a) <==> a in s'.t.byAddr && Learns(s, joined, arp, a)
  }

  ghost predicate Rebuilds(s: Lb, vc: VipConfig, hashChanged: bool) {
    vc.spec !in s.vips || RingChanges(s.vips[vc.spec], Want(vc), hashChanged)
  }

  ghost predicate ShowsThen(s: Lb, d: Done, vc: VipConfig, hashChanged: bool, a: U32) {
    var had, s' := MembersOf(s, vc.spec), d.s;
    Shows(MembersOf(s', vc.spec), a,
          LookThen(had, Want(vc), PlacedIn(s, vc), d.ok && Rebuilds(s, vc, hashChanged), Known(s'.t, a), a))
  }

  /** All there is to say of a turn from s to d. */
  ghost predicate TurnAll(s: Lb, d: Done, vc: VipConfig, hashChanged: bool, arp: map<U32, Mac>) {
    && (d.ok <==> TurnFits(s, vc)) && (d.ok ==> vc.spec in d.s.vips)
    && d.s.nextHop == s.nextHop && (!d.ok ==> d.s.t.byAddr.Keys == s.t.byAddr.Keys + PlacedIn(s, vc))
    && (forall j :: j != vc.spec ==> SameAt(s.vips, d.s.vips, j))
    && (forall a :: KnowsThen(s, d.s, JoinedIn(s, vc), arp, a))
    && (forall a :: ShowsThen(s, d, vc, hashChanged, a))
  }

  datatype Facet = Progress | Others | Macs | OwnMembers

  ghost predicate TurnIn(s: Lb, d: Done, vc: VipConfig, hashChanged: bool, arp: map<U32, Mac>, x: Facet) {
    match x
    case Progress => && (d.ok <==> TurnFits(s, vc)) && (d.ok ==> vc.spec in d.s.vips) && d.s.nextHop == s.nextHop
                     && (!d.ok ==> d.s.t.byAddr.Keys == s.t.byAddr.Keys + PlacedIn(s, vc))
    case Others => forall j :: j != vc.spec ==> SameAt(s.vips, d.s.vips, j)
    case Macs => forall a :: KnowsThen(s, d.s, JoinedIn(s, vc), arp, a)
    case OwnMembers => forall a :: ShowsThen(s, d, vc, hashChanged, a)
  }

  /** The same, folded. */
  ghost predicate TurnDone(s: Lb, d: Done, vc: VipConfig, hashChanged: bool, arp: map<U32, Mac>) {
    forall x: Facet {:trigger TurnIn(s, d, vc, hashChanged, arp, x)} :: TurnIn(s, d, vc, hashChanged, arp, x)
  }

  lemma TurnMeans(s: Lb, d: Done, vc: VipConfig, hashChanged: bool, arp: map<U32, Mac>)
    requires TurnDone(s, d, vc, hashChanged, arp)
    ensures TurnAll(s, d, vc, hashChanged, arp)
  {
    assert TurnIn(s, d, vc, hashChanged, arp, Progress) && TurnIn(s, d, vc, hashChanged, arp, Others);
    assert TurnIn(s, d, vc, hashChanged, arp, Macs) && TurnIn(s, d, vc, hashChanged, arp, OwnMembers);
  }

  lemma TurnFolds(s: Lb, d: Done, vc: VipConfig, hashChanged: bool, arp: map<U32, Mac>)
    requires TurnAll(s, d, vc, hashChanged, arp)
    ensures TurnDone(s, d, vc, hashChanged, arp)
  {
  }

  // ---- members merged

  /** Merged and not yet rebuilt. */
  lemma MergedShows(had: map<U32, Member>, gone: set<U32>, v1: Vip, v': Vip, want: map<U32, U32>, p: set<U32>,
                    known: bool, a: U32)
    requires v1.members == had - gone && gone == had.Keys - want.Keys && p <= want.Keys
             && MergedExactly(v1, v', want, p)
    ensures Shows(v'.members, a, LookThen(had, want, p, false, known, a))
  {
    assert MergedAt(v1, v', want, p, a);
  }

  lemma RebuiltShows(had: map<U32, Member>, v3: Vip, t: Tab, want: map<U32, U32>, p: set<U32>, known: bool, a: U32)
    requires p == want.Keys && Shows(v3.members, a, LookThen(had, want, p, false, known, a))
             && (a in v3.members ==> (known <==> Known(t, a)))
    ensures Shows(Rebuilt(v3, t.slots, t.byAddr).members, a, LookThen(had, want, p, true, known, a))
  {
  }

  /** The wanted members merged, from a state with the VIP entered or pruned, and nothing rebuilt yet. */
  ghost predicate MergeTurned(s: Lb, d: Done, vc: VipConfig, arp: map<U32, Mac>) {
    && (d.ok <==> TurnFits(s, vc)) && (d.ok ==> PlacedIn(s, vc) == Want(vc).Keys) && vc.spec in d.s.vips
    && d.s.nextHop == s.nextHop && d.s.t.byAddr.Keys == s.t.byAddr.Keys + PlacedIn(s, vc)
    && (forall j :: j != vc.spec ==> SameAt(s.vips, d.s.vips, j))
    && (forall a :: KnowsThen(s, d.s, JoinedIn(s, vc), arp, a))
    && (forall a :: MergeShows(s, d.s, vc, a))
  }

  ghost predicate MergeShows(s: Lb, s': Lb, vc: VipConfig, a: U32) {
    Shows(MembersOf(s', vc.spec), a, LookThen(MembersOf(s, vc.spec), Want(vc), PlacedIn(s, vc), false, Known(s'.t, a),
      a))
  }

  /** s1 is s with VIP k entered or pruned: the table is the same, and so are the other VIPs. */
  ghost predicate Prepared(s: Lb, s1: Lb, vc: VipConfig) {
    && vc.spec in s1.vips && s1.t.byAddr == s.t.byAddr && s1.t.slots == s.t.slots && s1.nextHop == s.nextHop
    && s1.vips[vc.spec].members == MembersOf(s, vc.spec) - (MembersOf(s, vc.spec).Keys - Want(vc).Keys)
    && forall j :: j != vc.spec ==> SameAt(s.vips, s1.vips, j)
  }

  lemma JoinedAre(s: Lb, s1: Lb, s': Lb, vc: VipConfig, p: set<U32>)
    requires Prepared(s, s1, vc) && vc.spec in s'.vips && p <= Want(vc).Keys && p == PlacedIn(s, vc)
    requires MergedExactly(s1.vips[vc.spec], s'.vips[vc.spec], Want(vc), p)
    ensures Arrivals(s1, s', vc.spec) == JoinedIn(s, vc)
  {
    var v, v' := s1.vips[vc.spec], s'.vips[vc.spec];
    forall a
      ensures a in Arrivals(s1, s', vc.spec) <==> a in JoinedIn(s, vc)
    {
      assert MergedAt(v, v', Want(vc), p, a);
    }
  }

  lemma MergeKnows(s: Lb, s1: Lb, s': Lb, vc: VipConfig, arp: map<U32, Mac>, a: U32)
    requires Prepared(s, s1, vc) && vc.spec in s'.vips && Arrivals(s1, s', vc.spec) == JoinedIn(s, vc)
    requires KnownSince(s1, s', vc.spec, arp, a) && s'.t.byAddr.Keys == s.t.byAddr.Keys + PlacedIn(s, vc)
    ensures KnowsThen(s, s', JoinedIn(s, vc), arp, a)
  {
  }

  lemma MergeLeaves(s: Lb, s1: Lb, s': Lb, vc: VipConfig)
    requires Prepared(s, s1, vc) && OnlyVip(s1, s', vc.spec)
    ensures s'.nextHop == s.nextHop && forall j :: j != vc.spec ==> SameAt(s.vips, s'.vips, j)
  {
    forall j | j != vc.spec
      ensures SameAt(s.vips, s'.vips, j)
    {
      assert SameAt(s.vips, s1.vips, j);
    }
  }

  lemma MergeFits(s: Lb, vc: VipConfig, p: set<U32>)
    requires Room(s.t.byAddr.Keys) && HasVipId(s, vc.spec) && p == PlacedIn(s, vc)
    ensures p <= Want(vc).Keys && (p == Want(vc).Keys <==> TurnFits(s, vc))
  {
    AllPlacedIff(s.t.byAddr.Keys, Want(vc).Keys);
  }

  lemma MergeTurn(s: Lb, s1: Lb, d: Done, vc: VipConfig, arp: map<U32, Mac>, p: set<U32>)
    requires Prepared(s, s1, vc) && Room(s.t.byAddr.Keys) && HasVipId(s, vc.spec) && p == PlacedIn(s, vc)
    requires MergeIs(s1, vc.spec, Want(vc), Want(vc).Keys, p, d) && Taught(s1, d.s, vc.spec, arp)
             && OnlyVip(s1, d.s, vc.spec)
    ensures MergeTurned(s, d, vc, arp)
  {
    MergeFits(s, vc, p);
    MergeLeaves(s, s1, d.s, vc);
    JoinedAre(s, s1, d.s, vc, p);
    forall a
      ensures KnowsThen(s, d.s, JoinedIn(s, vc), arp, a) && MergeShows(s, d.s, vc, a)
    {
      assert KnownSince(s1, d.s, vc.spec, arp, a);
      MergeKnows(s, s1, d.s, vc, arp, a);
      MergeShowsAt(s, s1, d.s, vc, p, a);
    }
  }

  lemma MergeShowsAt(s: Lb, s1: Lb, s': Lb, vc: VipConfig, p: set<U32>, a: U32)
    requires Prepared(s, s1, vc) && vc.spec in s'.vips && p == PlacedIn(s, vc) && p <= Want(vc).Keys
    requires MergedExactly(s1.vips[vc.spec], s'.vips[vc.spec], Want(vc), p)
    ensures MergeShows(s, s', vc, a)
  {
    var k, had := vc.spec, MembersOf(s, vc.spec);
    MergedShows(had, had.Keys - Want(vc).Keys, s1.vips[k], s'.vips[k], Want(vc), p, Known(s'.t, a), a);
  }

  lemma MergeTurnOk(s: Lb, s1: Lb, vc: VipConfig, arp: map<U32, Mac>)
    requires Inv(s1) && Prepared(s, s1, vc) && HasVipId(s, vc.spec) && MacsOk(arp)
    ensures Ranged(s1.t) && MergeTurned(s, Merge(s1, vc.spec, Want(vc), Want(vc).Keys, arp), vc, arp)
  {
    InvRanged(s1);
    var k, want := vc.spec, Want(vc);
    var d := Merge(s1, k, want, want.Keys, arp);
    LiveRoom(s1);
    MergeExact(s1, k, want, want.Keys, arp);
    MergeTeaches(s1, k, want, want.Keys, arp);
    MergeOk(s1, k, want, want.Keys, arp);
    MergeTurn(s, s1, d, vc, arp, PlacedIn(s, vc));
  }

  // ---- the four ways a turn ends

  lemma FailedTurn(s: Lb, d: Done, vc: VipConfig, hashChanged: bool, arp: map<U32, Mac>)
    requires MergeTurned(s, d, vc, arp) && !d.ok
    ensures TurnAll(s, d, vc, hashChanged, arp)
  {
    forall a
      ensures ShowsThen(s, d, vc, hashChanged, a)
    {
      assert MergeShows(s, d.s, vc, a);
    }
  }

  /** From d to s' VIP k's ring was rebuilt and references were given back: known is what still has an id. */
  ghost predicate RebuiltFrom(d: Lb, s': Lb, k: VipSpec) {
    && k in d.vips && s'.vips == d.vips[k := Rebuilt(d.vips[k], d.t.slots, d.t.byAddr)] && s'.nextHop == d.nextHop
    && (forall a :: StillKnown(d, s', a)) && s'.t.byAddr.Keys <= d.t.byAddr.Keys
    && forall a :: a in d.vips[k].members ==> a in s'.t.byAddr
  }

  ghost predicate StillKnown(d: Lb, s': Lb, a: U32) {
    Known(s'.t, a) <==> a in s'.t.byAddr && Known(d.t, a)
  }

  lemma RebuiltTurnAt(s: Lb, d: Done, s': Lb, vc: VipConfig, hashChanged: bool, arp: map<U32, Mac>, a: U32)
    requires MergeShows(s, d.s, vc, a) && KnowsThen(s, d.s, JoinedIn(s, vc), arp, a) && RebuiltFrom(d.s, s', vc.spec)
    requires PlacedIn(s, vc) == Want(vc).Keys && Rebuilds(s, vc, hashChanged)
    ensures KnowsThen(s, s', JoinedIn(s, vc), arp, a) && ShowsThen(s, Done(s', true), vc, hashChanged, a)
  {
    assert StillKnown(d.s, s', a);
    RebuiltShows(MembersOf(s, vc.spec), d.s.vips[vc.spec], d.s.t, Want(vc), Want(vc).Keys, Known(s'.t, a), a);
  }

  lemma RebuiltTurn(s: Lb, d: Done, s': Lb, vc: VipConfig, hashChanged: bool, arp: map<U32, Mac>)
    requires MergeTurned(s, d, vc, arp) && d.ok && Rebuilds(s, vc, hashChanged) && RebuiltFrom(d.s, s', vc.spec)
    ensures TurnAll(s, Done(s', true), vc, hashChanged, arp)
  {
    forall a
      ensures KnowsThen(s, s', JoinedIn(s, vc), arp, a) && ShowsThen(s, Done(s', true), vc, hashChanged, a)
    {
      assert MergeShows(s, d.s, vc, a) && KnowsThen(s, d.s, JoinedIn(s, vc), arp, a);
      RebuiltTurnAt(s, d, s', vc, hashChanged, arp, a);
    }
    forall j | j != vc.spec
      ensures SameAt(s.vips, s'.vips, j)
    {
      assert SameAt(s.vips, d.s.vips, j);
    }
  }

  lemma ReflagLeaves(s: Lb, s1: Lb, k: VipSpec, noConntrack: bool)
    requires k in s.vips && s1 == Reflag(s, k, noConntrack)
    ensures MembersOf(s1, k) == MembersOf(s, k) && s1.t.slots == s.t.slots && s1.t.byAddr == s.t.byAddr
            && s1.nextHop == s.nextHop
    ensures k in s1.vips && forall j :: j != k ==> SameAt(s.vips, s1.vips, j)
  {
  }

  lemma QuietShows(had: map<U32, Member>, want: map<U32, U32>, known: bool, a: U32)
    requires had.Keys == want.Keys && forall b :: b in want ==> had[b].weight == want[b]
    ensures Shows(had, a, LookThen(had, want, want.Keys, false, known, a))
  {
  }

  lemma QuietTurnAt(s: Lb, s1: Lb, vc: VipConfig, arp: map<U32, Mac>, a: U32)
    requires MembersOf(s1, vc.spec) == MembersOf(s, vc.spec) && s1.t.slots == s.t.slots && s1.t.byAddr == s.t.byAddr
    requires vc.spec in s.vips && !RingChanges(s.vips[vc.spec], Want(vc), false) && PlacedIn(s, vc) == Want(vc).Keys
    ensures ShowsThen(s, Done(s1, true), vc, false, a) && KnowsThen(s, s1, JoinedIn(s, vc), arp, a)
  {
    QuietShows(MembersOf(s, vc.spec), Want(vc), Known(s1.t, a), a);
    assert JoinedIn(s, vc) == {};
  }

  lemma QuietTurn(s: Lb, s1: Lb, vc: VipConfig, arp: map<U32, Mac>)
    requires vc.spec in s.vips && !RingChanges(s.vips[vc.spec], Want(vc), false) && Room(s.t.byAddr.Keys)
             && HasVipId(s, vc.spec)
    requires s.vips[vc.spec].members.Keys <= s.t.byAddr.Keys && s1 == Reflag(s, vc.spec, vc.noConntrack)
    ensures TurnAll(s, Done(s1, true), vc, false, arp)
  {
    assert s.t.byAddr.Keys + Want(vc).Keys == s.t.byAddr.Keys;
    MergeFits(s, vc, PlacedIn(s, vc));
    ReflagLeaves(s, s1, vc.spec, vc.noConntrack);
    forall a
      ensures ShowsThen(s, Done(s1, true), vc, false, a) && KnowsThen(s, s1, JoinedIn(s, vc), arp, a)
    {
      QuietTurnAt(s, s1, vc, arp, a);
    }
  }

  // ---- a turn

  /** What every known VIP has already. */
  lemma KnownHasVipId(s: Lb, k: VipSpec)
    requires Inv(s) && k in s.vips
    ensures HasVipId(s, k)
  {
    VipsFit(s);
    assert s.vips.Keys + s.adopted.Keys + {k} == s.vips.Keys + s.adopted.Keys;
  }

  lemma NoVipIdTurn(s: Lb, vc: VipConfig, hashChanged: bool, arp: map<U32, Mac>)
    requires vc.spec !in s.vips && !HasVipId(s, vc.spec)
    ensures TurnAll(s, Done(s, false), vc, hashChanged, arp)
  {
    assert PlacedIn(s, vc) == {} && MembersOf(s, vc.spec) == map[] && JoinedIn(s, vc) == {};
    forall a
      ensures ShowsThen(s, Done(s, false), vc, hashChanged, a) && KnowsThen(s, s, JoinedIn(s, vc), arp, a)
    {
      NobodyShows(Want(vc), Known(s.t, a), a);
    }
  }

  lemma NobodyShows(want: map<U32, U32>, known: bool, a: U32)
    ensures Shows(map[], a, LookThen(map[], want, {}, false, known, a))
  {
  }

  lemma EnteredPrepares(s: Lb, s1: Lb, vc: VipConfig)
    requires vc.spec !in s.vips && Entered(s, s1, vc.spec, vc.noConntrack)
    ensures Prepared(s, s1, vc)
  {
    assert MembersOf(s, vc.spec) - (MembersOf(s, vc.spec).Keys - Want(vc).Keys) == map[];
  }

  lemma PublishedFrom(d: Lb, k: VipSpec, h: Hashes)
    requires Inv(d) && k in d.vips
    ensures RebuiltFrom(d, SendVip(Rebuild(d, k, h), k), k)
  {
    var s' := SendVip(Rebuild(d, k, h), k);
    forall a
      ensures StillKnown(d, s', a)
    {
    }
    forall a | a in d.vips[k].members
      ensures a in s'.t.byAddr
    {
      MembersHaveIds(d, k, a);
    }
  }

  lemma CreateTurn(s: Lb, vc: VipConfig, hashChanged: bool, arp: map<U32, Mac>, h: Hashes)
    requires Inv(s) && Ranged(s.t) && vc.spec !in s.vips && MacsOk(arp)
    ensures TurnAll(s, CreateVip(s, vc.spec, vc.noConntrack, Want(vc), arp, h), vc, hashChanged, arp)
  {
    var k := vc.spec;
    EnterOk(s, k, vc.noConntrack);
    EntersIff(s, k, vc.noConntrack);
    var r := Enter(s, k, vc.noConntrack);
    if r.None? {
      NoVipIdTurn(s, vc, hashChanged, arp);
    } else {
      EnteredPrepares(s, r.value, vc);
      MergeTurnOk(s, r.value, vc, arp);
      MergeOk(r.value, k, Want(vc), Want(vc).Keys, arp);
      CreateEndsTurn(s, r.value, Merge(r.value, k, Want(vc), Want(vc).Keys, arp), vc, hashChanged, arp, h);
    }
  }

  lemma CreateEndsTurn(s: Lb, s1: Lb, d: Done, vc: VipConfig, hashChanged: bool, arp: map<U32, Mac>, h: Hashes)
    requires Ranged(s.t) && vc.spec !in s.vips && Enter(s, vc.spec, vc.noConntrack) == Some(s1) && Ranged(s1.t)
             && vc.spec in s1.vips
    requires d == Merge(s1, vc.spec, Want(vc), Want(vc).Keys, arp) && Inv(d.s) && MergeTurned(s, d, vc, arp)
    ensures TurnAll(s, CreateVip(s, vc.spec, vc.noConntrack, Want(vc), arp, h), vc, hashChanged, arp)
  {
    if d.ok {
      CreateEnds(s, s1, d, vc, arp, h);
      PublishedFrom(d.s, vc.spec, h);
      RebuiltTurn(s, d, SendVip(Rebuild(d.s, vc.spec, h), vc.spec), vc, hashChanged, arp);
    } else {
      CreateStops(s, s1, d, vc, arp, h);
      FailedTurn(s, d, vc, hashChanged, arp);
    }
  }

  lemma CreateStops(s: Lb, s1: Lb, d: Done, vc: VipConfig, arp: map<U32, Mac>, h: Hashes)
    requires Ranged(s.t) && Enter(s, vc.spec, vc.noConntrack) == Some(s1) && Ranged(s1.t) && vc.spec in s1.vips
    requires d == Merge(s1, vc.spec, Want(vc), Want(vc).Keys, arp) && !d.ok
    ensures CreateVip(s, vc.spec, vc.noConntrack, Want(vc), arp, h) == d
  {
  }

  lemma EnteredLive(s: Lb, s1: Lb, vc: VipConfig, arp: map<U32, Mac>)
    requires Inv(s1) && vc.spec in s1.vips && s1.t.byAddr == s.t.byAddr && HasVipId(s, vc.spec) && MacsOk(arp)
    ensures Ranged(s1.t)
    ensures Merge(s1, vc.spec, Want(vc), Want(vc).Keys, arp).s.t.byAddr.Keys == s.t.byAddr.Keys + PlacedIn(s, vc)
  {
    MergeExact(s1, vc.spec, Want(vc), Want(vc).Keys, arp);
  }

  lemma NotEnteredLive(s: Lb, vc: VipConfig)
    requires !HasVipId(s, vc.spec)
    ensures s.t.byAddr.Keys == s.t.byAddr.Keys + PlacedIn(s, vc)
  {
    assert PlacedIn(s, vc) == {};
  }

  lemma NotCreated(s: Lb, vc: VipConfig, arp: map<U32, Mac>, h: Hashes)
    requires Ranged(s.t) && Enter(s, vc.spec, vc.noConntrack).None?
    ensures CreateVip(s, vc.spec, vc.noConntrack, Want(vc), arp, h) == Done(s, false)
  {
  }

  /** A VIP new to the daemon: its addresses that are dealt with are in the table, next to those that were. */
  lemma CreateLive(s: Lb, vc: VipConfig, arp: map<U32, Mac>, h: Hashes)
    requires Inv(s) && Ranged(s.t) && vc.spec !in s.vips && MacsOk(arp)
    ensures CreateVip(s, vc.spec, vc.noConntrack, Want(vc), arp, h).s.t.byAddr.Keys == s.t.byAddr.Keys + PlacedIn(s, vc)
  {
    var k := vc.spec;
    EnterOk(s, k, vc.noConntrack);
    EntersIff(s, k, vc.noConntrack);
    var r := Enter(s, k, vc.noConntrack);
    if r.Some? {
      EnteredLive(s, r.value, vc, arp);
      CreatedLive(s, r.value, Merge(r.value, k, Want(vc), Want(vc).Keys, arp), vc, arp, h);
    } else {
      NotCreated(s, vc, arp, h);
      NotEnteredLive(s, vc);
    }
  }

  lemma CreatedLive(s: Lb, s1: Lb, d: Done, vc: VipConfig, arp: map<U32, Mac>, h: Hashes)
    requires Ranged(s.t) && Enter(s, vc.spec, vc.noConntrack) == Some(s1) && Ranged(s1.t) && vc.spec in s1.vips
    requires d == Merge(s1, vc.spec, Want(vc), Want(vc).Keys, arp)
    ensures CreateVip(s, vc.spec, vc.noConntrack, Want(vc), arp, h).s.t.byAddr == d.s.t.byAddr
  {
  }

  /** Giving back references loses the MAC of what has no id any more, and of nothing else. */
  lemma ReleasedKnows(s4: Lb, s5: Lb, k: VipSpec, todo: set<U32>, a: U32)
    requires Ranged(s4.t) && s5 == ReleaseAll(s4, todo) && Good(s5) && k in s4.vips && s4.vips == s5.vips
    requires forall j :: Untouched(s4, s5, s5.leak, j)
    ensures StillKnown(s4, s5, a)
  {
    if Known(s5.t, a) {
      ReleaseAllKnown(s4, todo, a);
    } else if a in s5.t.byAddr {
      HeldOrLeft(s5, a);
      if a in s5.leak {
        assert Untouched(s4, s5, s5.leak, k);
        assert KeepsAddr(s4.t.slots, s4.t.byAddr, s5.t.slots, s5.t.byAddr, a);
      } else {
        var j :| j in s5.vips && a in s5.vips[j].members;
        assert Untouched(s4, s5, s5.leak, j);
        assert KeepsAddr(s4.t.slots, s4.t.byAddr, s5.t.slots, s5.t.byAddr, a);
      }
    }
  }

  lemma ReleasedFrom(d: Lb, s4: Lb, s5: Lb, k: VipSpec, h: Hashes, todo: set<U32>)
    requires k in d.vips && s4 == Rebuild(d, k, h) && Ranged(s4.t) && s5 == ReleaseAll(s4, todo) && Good(s5)
    requires s4.vips == s5.vips && s5.nextHop == s4.nextHop && s5.t.byAddr.Keys <= s4.t.byAddr.Keys
    requires forall j :: Untouched(s4, s5, s5.leak, j)
    ensures RebuiltFrom(d, s5, k)
  {
    forall a
      ensures StillKnown(d, s5, a)
    {
      ReleasedKnows(s4, s5, k, todo, a);
    }
    forall a | a in d.vips[k].members
      ensures a in s5.t.byAddr
    {
      MembersHaveIds(s5, k, a);
    }
  }

  lemma FinishedFrom(s1: Lb, d: Lb, k: VipSpec, gone: set<U32>, h: Hashes)
    requires Good(s1) && Inv(d) && Edited(s1, d, k, gone)
    ensures Ranged(d.t) && RebuiltFrom(d, Finish(d, k, gone, h), k)
  {
    InvRanged(d);
    var s4, s5 := Rebuild(d, k, h), Finish(d, k, gone, h);
    RebuiltTraced(s1, d, k, gone, h);
    assert s4.adopted == map[] by { assert Holds(s1, LivePart); }
    ReleaseAllOk(s4, s1.leak, gone);
    ReleaseAllVips(s4, gone);
    ReleaseShrinks(s4, gone);
    ReleasedFrom(d, s4, s5, k, h, gone);
  }

  lemma PrunePrepares(s: Lb, vc: VipConfig)
    requires vc.spec in s.vips
    ensures Prepared(s, Prune(s, vc), vc)
  {
    var s1 := Reflag(s, vc.spec, vc.noConntrack);
    ReflagLeaves(s, s1, vc.spec, vc.noConntrack);
    RemoveLeaves(s1, vc.spec, Gone(s, vc));
  }

  lemma RemoveLeaves(s: Lb, k: VipSpec, gone: set<U32>)
    requires k in s.vips
    ensures var s' := RemoveMembers(s, k, gone);
            && k in s'.vips && s'.vips[k].members == s.vips[k].members - gone && s'.t == s.t && s'.nextHop == s.nextHop
            && forall j :: j != k ==> SameAt(s.vips, s'.vips, j)
  {
  }

  lemma LoudEnds(s: Lb, d: Done, vc: VipConfig, hashChanged: bool, arp: map<U32, Mac>, h: Hashes)
    requires Ranged(s.t) && vc.spec in s.vips && RingChanges(s.vips[vc.spec], Want(vc), hashChanged)
    requires d == Merge(Prune(s, vc), vc.spec, Want(vc), Want(vc).Keys, arp)
    ensures Ranged(d.s.t) && vc.spec in d.s.vips
    ensures ReloadVip(s, vc, hashChanged, arp, h) == if d.ok then Done(Finish(d.s, vc.spec, Gone(s, vc), h), true)
            else d
  {
  }

  lemma LoudEndsTurn(s: Lb, s1: Lb, d: Done, vc: VipConfig, hashChanged: bool, arp: map<U32, Mac>, h: Hashes)
    requires Ranged(s.t) && vc.spec in s.vips && RingChanges(s.vips[vc.spec], Want(vc), hashChanged)
    requires Good(s1) && Inv(d.s) && Edited(s1, d.s, vc.spec, Gone(s, vc)) && MergeTurned(s, d, vc, arp)
    requires d == Merge(Prune(s, vc), vc.spec, Want(vc), Want(vc).Keys, arp)
    ensures TurnAll(s, ReloadVip(s, vc, hashChanged, arp, h), vc, hashChanged, arp)
  {
    LoudEnds(s, d, vc, hashChanged, arp, h);
    if d.ok {
      FinishedFrom(s1, d.s, vc.spec, Gone(s, vc), h);
      RebuiltTurn(s, d, Finish(d.s, vc.spec, Gone(s, vc), h), vc, hashChanged, arp);
    } else {
      FailedTurn(s, d, vc, hashChanged, arp);
    }
  }

  lemma LoudTurn(s: Lb, vc: VipConfig, hashChanged: bool, arp: map<U32, Mac>, h: Hashes)
    requires Good(s) && Ranged(s.t) && vc.spec in s.vips && FlagsOk(s, vc) && MacsOk(arp)
    requires RingChanges(s.vips[vc.spec], Want(vc), hashChanged)
    ensures TurnAll(s, ReloadVip(s, vc, hashChanged, arp, h), vc, hashChanged, arp)
  {
    var k, s1, s2 := vc.spec, Reflag(s, vc.spec, vc.noConntrack), Prune(s, vc);
    ReflagOk(s, k, vc.noConntrack);
    RemoveOk(s1, k, Gone(s, vc));
    PrunePrepares(s, vc);
    KnownHasVipId(s, k);
    MergeTurnOk(s, s2, vc, arp);
    LoudMerges(s1, s2, vc, Gone(s, vc), arp);
    LoudEndsTurn(s, s1, Merge(s2, k, Want(vc), Want(vc).Keys, arp), vc, hashChanged, arp, h);
  }

  lemma LoudMerges(s1: Lb, s2: Lb, vc: VipConfig, gone: set<U32>, arp: map<U32, Mac>)
    requires Inv(s1) && Inv(s2) && Edited(s1, s2, vc.spec, gone) && MacsOk(arp)
    ensures Ranged(s2.t)
    ensures var d := Merge(s2, vc.spec, Want(vc), Want(vc).Keys, arp);
            Inv(d.s) && Edited(s1, d.s, vc.spec, gone)
  {
    MergeOk(s2, vc.spec, Want(vc), Want(vc).Keys, arp);
    var d := Merge(s2, vc.spec, Want(vc), Want(vc).Keys, arp);
    PruneThenMerge(s1, s2, d.s, vc.spec, gone, Want(vc), d.ok);
  }

  lemma StillTurn(s: Lb, vc: VipConfig, arp: map<U32, Mac>, h: Hashes)
    requires Good(s) && Ranged(s.t) && vc.spec in s.vips && !RingChanges(s.vips[vc.spec], Want(vc), false)
    ensures TurnAll(s, ReloadVip(s, vc, false, arp, h), vc, false, arp)
  {
    ReloadQuiet(s, vc, arp, h);
    LiveRoom(s);
    KnownHasVipId(s, vc.spec);
    forall a | a in s.vips[vc.spec].members
      ensures a in s.t.byAddr
    {
      MembersHaveIds(s, vc.spec, a);
    }
    QuietTurn(s, Reflag(s, vc.spec, vc.noConntrack), vc, arp);
  }

  lemma KnownTurn(s: Lb, vc: VipConfig, hashChanged: bool, arp: map<U32, Mac>, h: Hashes)
    requires Good(s) && Ranged(s.t) && vc.spec in s.vips && FlagsOk(s, vc) && MacsOk(arp)
    ensures TurnAll(s, ReloadVip(s, vc, hashChanged, arp, h), vc, hashChanged, arp)
  {
    if RingChanges(s.vips[vc.spec], Want(vc), hashChanged) {
      LoudTurn(s, vc, hashChanged, arp, h);
    } else {
      StillTurn(s, vc, arp, h);
    }
  }

  /** One VIP of a reload or of a start, complete or not. */
  lemma TurnExact(s: Lb, vc: VipConfig, hashChanged: bool, arp: map<U32, Mac>, h: Hashes)
    requires Inv(s) && MacsOk(arp) && (vc.spec in s.vips ==> Good(s) && FlagsOk(s, vc))
    ensures Ranged(s.t) && TurnDone(s, ApplyVip(s, vc, hashChanged, arp, h), vc, hashChanged, arp)
  {
    InvRanged(s);
    if vc.spec !in s.vips {
      CreateTurn(s, vc, hashChanged, arp, h);
      TurnFolds(s, CreateVip(s, vc.spec, vc.noConntrack, Want(vc), arp, h), vc, hashChanged, arp);
    } else {
      KnownTurn(s, vc, hashChanged, arp, h);
      TurnFolds(s, ReloadVip(s, vc, hashChanged, arp, h), vc, hashChanged, arp);
    }
  }

  // ---- who is complete after a turn

  /** Member a would be usable, is not recorded in_ring, and its VIP does not get to rebuild its ring. */
  ghost predicate Overlooked(s: Lb, vc: VipConfig, arp: map<U32, Mac>, a: U32) {
    var l := LookThen(MembersOf(s, vc.spec), Want(vc), PlacedIn(s, vc), false, false, a);
    l.Some? && l.value.weight > 0 && l.value.fit && !l.value.inRing && Learns(s, JoinedIn(s, vc), arp, a)
  }

  lemma MissingLooks(s: Lb, k: VipSpec, a: U32)
    requires k in s.vips && a in s.vips[k].members
    ensures var l := LookOf(s.vips[k].members[a]);
            NotMissing(s, k, a) <==> !(l.weight > 0 && l.fit && Known(s.t, a) && !l.inRing)
  {
  }

  lemma FailedAt(s: Lb, d: Done, vc: VipConfig, hashChanged: bool, arp: map<U32, Mac>, a: U32)
    requires Inv(d.s) && TurnAll(s, d, vc, hashChanged, arp) && !d.ok
    ensures Overlooked(s, vc, arp, a) <==> vc.spec in d.s.vips && a in d.s.vips[vc.spec].members
                                           && !NotMissing(d.s, vc.spec, a)
  {
    assert ShowsThen(s, d, vc, hashChanged, a) && KnowsThen(s, d.s, JoinedIn(s, vc), arp, a);
    if vc.spec in d.s.vips && a in d.s.vips[vc.spec].members {
      MembersHaveIds(d.s, vc.spec, a);
      MissingLooks(d.s, vc.spec, a);
    }
  }

  /** A turn that fails leaves its own VIP complete exactly if it overlooks no member. */
  lemma FailedComplete(s: Lb, d: Done, vc: VipConfig, hashChanged: bool, arp: map<U32, Mac>)
    requires Inv(d.s) && TurnAll(s, d, vc, hashChanged, arp) && !d.ok
    ensures Complete(d.s, vc.spec) <==> forall a :: a in Want(vc) ==> !Overlooked(s, vc, arp, a)
  {
    forall a
      ensures Overlooked(s, vc, arp, a) <==> vc.spec in d.s.vips && a in d.s.vips[vc.spec].members
                                             && !NotMissing(d.s, vc.spec, a)
    {
      FailedAt(s, d, vc, hashChanged, arp, a);
    }
  }

  lemma DoneAt(s: Lb, d: Done, vc: VipConfig, hashChanged: bool, arp: map<U32, Mac>, a: U32)
    requires Inv(d.s) && TurnAll(s, d, vc, hashChanged, arp) && d.ok && a in d.s.vips[vc.spec].members
    requires PlacedIn(s, vc) == Want(vc).Keys
    ensures Rebuilds(s, vc, hashChanged) ==> NotMissing(d.s, vc.spec, a)
    ensures !Rebuilds(s, vc, hashChanged) ==>
              a in s.vips[vc.spec].members && (NotMissing(d.s, vc.spec, a) <==> NotMissing(s, vc.spec, a))
  {
    assert ShowsThen(s, d, vc, hashChanged, a) && KnowsThen(s, d.s, JoinedIn(s, vc), arp, a);
    MembersHaveIds(d.s, vc.spec, a);
    MissingLooks(d.s, vc.spec, a);
    if !Rebuilds(s, vc, hashChanged) {
      assert JoinedIn(s, vc) == {};
      MissingLooks(s, vc.spec, a);
    }
  }

  lemma SameMembersIfQuiet(s: Lb, d: Done, vc: VipConfig, hashChanged: bool, arp: map<U32, Mac>)
    requires TurnAll(s, d, vc, hashChanged, arp) && d.ok && !Rebuilds(s, vc, hashChanged)
             && PlacedIn(s, vc) == Want(vc).Keys
    ensures d.s.vips[vc.spec].members.Keys == s.vips[vc.spec].members.Keys
  {
    forall a
      ensures a in d.s.vips[vc.spec].members <==> a in s.vips[vc.spec].members
    {
      assert ShowsThen(s, d, vc, hashChanged, a);
    }
  }

  lemma AllPlaced(s: Lb, vc: VipConfig)
    requires Inv(s) && TurnFits(s, vc)
    ensures PlacedIn(s, vc) == Want(vc).Keys
  {
    LiveRoom(s);
    MergeFits(s, vc, PlacedIn(s, vc));
  }

  /**
   A turn that completes leaves its own VIP complete exactly if it is new, its ring is rebuilt, or it was
   complete.
   */
  lemma DoneComplete(s: Lb, d: Done, vc: VipConfig, hashChanged: bool, arp: map<U32, Mac>)
    requires Inv(s) && Inv(d.s) && TurnAll(s, d, vc, hashChanged, arp) && d.ok
    ensures Complete(d.s, vc.spec) <==> Rebuilds(s, vc, hashChanged) || Complete(s, vc.spec)
  {
    AllPlaced(s, vc);
    forall a | a in d.s.vips[vc.spec].members
      ensures Rebuilds(s, vc, hashChanged) ==> NotMissing(d.s, vc.spec, a)
      ensures !Rebuilds(s, vc, hashChanged) ==>
                a in s.vips[vc.spec].members && (NotMissing(d.s, vc.spec, a) <==> NotMissing(s, vc.spec, a))
    {
      DoneAt(s, d, vc, hashChanged, arp, a);
    }
    if !Rebuilds(s, vc, hashChanged) {
      SameMembersIfQuiet(s, d, vc, hashChanged, arp);
    }
  }

  lemma OtherAt(s: Lb, d: Done, vc: VipConfig, hashChanged: bool, arp: map<U32, Mac>, j: VipSpec, a: U32)
    requires Inv(d.s) && TurnAll(s, d, vc, hashChanged, arp) && j != vc.spec && j in s.vips && a in s.vips[j].members
    ensures j in d.s.vips && a in d.s.vips[j].members
    ensures NotMissing(d.s, j, a) <==> NotMissing(s, j, a) && !(a in JoinedIn(s, vc) && Wakes(s, j, a, arp))
  {
    assert SameAt(s.vips, d.s.vips, j) && KnowsThen(s, d.s, JoinedIn(s, vc), arp, a);
    MembersHaveIds(d.s, j, a);
    MissingLooks(d.s, j, a);
    MissingLooks(s, j, a);
  }

  /** Every other VIP is complete afterwards exactly if it was and no address that joined wakes a member of it. */
  lemma OtherComplete(s: Lb, d: Done, vc: VipConfig, hashChanged: bool, arp: map<U32, Mac>, j: VipSpec)
    requires Inv(d.s) && TurnAll(s, d, vc, hashChanged, arp) && j != vc.spec
    ensures Complete(d.s, j) <==> Complete(s, j) && forall a :: a in JoinedIn(s, vc) ==> !Wakes(s, j, a, arp)
  {
    assert SameAt(s.vips, d.s.vips, j);
    if j in s.vips {
      forall a | a in s.vips[j].members
        ensures NotMissing(d.s, j, a) <==> NotMissing(s, j, a) && !(a in JoinedIn(s, vc) && Wakes(s, j, a, arp))
      {
        OtherAt(s, d, vc, hashChanged, arp, j, a);
      }
    }
  }
}
