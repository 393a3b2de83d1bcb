/**
 A start on maps in which VIPs are published without a ring, as an unsafe reload leaves them. The daemon
 never reads a ring, so it does on these maps what it does on the same maps with empty rings filled in;
 and since every adopted VIP gets a ring or goes, a completed start leaves no VIP without one.
 */
module Repair {
  import opened Basics
  import opened BuildMaglev
  import opened Ring
  import opened Maps
  import opened Reals
  import opened LbModel
  import opened Control
  import opened ControlLaws
  import opened MemberLaws
  import opened OpLaws
  import opened VipLaws
  import opened Capacity
  import opened ApplyLaws
  import opened Convergence
  import opened Akin
  import opened Soundness
  import opened StartLaws
  import opened Restart
  import opened Hitless
  import opened Evolution
  import Owners

  // ---- safe but for missing rings

  /** What the data plane relies on, except that a VIP may have no ring at all. */
  ghost predicate SafeButRings(m: Maps) {
    && Sized(m) && DistinctReals(m) && DistinctIds(m)
    && forall k {:trigger m.vipMap[k]} :: k in m.vipMap ==> m.vipMap[k].id < MAX_VIPS && WholeIfThere(m, m.vipMap[k].id)
  }

  ghost predicate WholeIfThere(m: Maps, id: nat) {
    id in m.rings ==> RingSafe(m, m.rings[id])
  }

  function NoRing(): (ring: seq<U32>) {
    seq(RING_SIZE, i => REAL_NONE)
  }

  /** The rings of r, and besides these only empty ones, under ids of `lack`. */
  ghost predicate RingTwin(r: map<nat, seq<U32>>, r': map<nat, seq<U32>>, lack: set<nat>, id: nat) {
    (id in r ==> id in r' && r'[id] == r[id]) && (id in r' && id !in r ==> id in lack && r'[id] == NoRing())
  }

  ghost predicate TwinMaps(m: Maps, m': Maps, lack: set<nat>) {
    m' == m.(rings := m'.rings) && forall id: nat :: RingTwin(m.rings, m'.rings, lack, id)
  }

  /** The ids of VIPs without a ring. */
  ghost function Lacking(m: Maps): (ids: set<nat>) {
    set k | k in m.vipMap && m.vipMap[k].id !in m.rings :: m.vipMap[k].id
  }

  /** The maps with an empty ring for every VIP that has none. */
  ghost function Filled(m: Maps): (m': Maps) {
    var shown := set k | k in m.vipMap :: m.vipMap[k].id;
    m.(rings := map id: nat | id in shown + m.rings.Keys :: if id in m.rings then m.rings[id] else NoRing())
  }

  lemma FilledIsSafe(m: Maps)
    requires SafeButRings(m)
    ensures MapsSafe(Filled(m)) && TwinMaps(m, Filled(m), Lacking(m))
  {
    var m' := Filled(m);
    assert DistinctReals(m') by {
      forall i: nat, j: nat | i < j < |m'.reals|
        ensures Differ(m', i, j)
      {
        assert Differ(m, i, j);
      }
    }
    forall k | k in m'.vipMap
      ensures VipSafe(m', k)
    {
      var id := m.vipMap[k].id;
      assert id in m'.rings;
      if id in m.rings {
        assert WholeIfThere(m, id);
        SameReals(m, m', m.rings[id]);
      }
    }
  }

  lemma TwinOfSafe(m: Maps, m': Maps, lack: set<nat>)
    requires TwinMaps(m, m', lack) && MapsSafe(m')
    ensures SafeButRings(m)
  {
    assert DistinctReals(m) by {
      forall i: nat, j: nat | i < j < |m.reals|
        ensures Differ(m, i, j)
      {
        assert Differ(m', i, j);
      }
    }
    forall k | k in m.vipMap
      ensures m.vipMap[k].id < MAX_VIPS && WholeIfThere(m, m.vipMap[k].id)
    {
      assert VipSafe(m', k);
      var id := m.vipMap[k].id;
      assert RingTwin(m.rings, m'.rings, lack, id);
      if id in m.rings {
        SameReals(m', m, m.rings[id]);
      }
    }
  }

  // ---- two planes under the same writes

  /** How long the one record was when the other began, and the ids of VIPs without a ring at that time. */
  datatype Link = Link(older: nat, lack: set<nat>)

  /** The same but for empty rings, now and at every write. */
  ghost predicate TwinPlane(k: Plane, k': Plane, x: Link) {
    && TwinMaps(k.maps, k'.maps, x.lack) && k'.installs == k.installs && |k.log| == x.older + |k'.log|
    && forall i: nat :: i < |k'.log| ==> TwinEntry(k, k', x, i)
  }

  ghost predicate TwinEntry(k: Plane, k': Plane, x: Link, i: nat)
    requires i < |k'.log|
  {
    x.older + i < |k.log| && TwinMaps(k.log[x.older + i].after, k'.log[i].after, x.lack)
  }

  lemma PerformTwin(m: Maps, m': Maps, w: Write, lack: set<nat>)
    requires TwinMaps(m, m', lack)
    ensures TwinMaps(Perform(m, w), Perform(m', w), lack)
  {
    var r, r' := Perform(m, w).rings, Perform(m', w).rings;
    forall id: nat
      ensures RingTwin(r, r', lack, id)
    {
      assert RingTwin(m.rings, m'.rings, lack, id);
    }
  }

  lemma PutTwin(k: Plane, k': Plane, w: Write, x: Link)
    requires TwinPlane(k, k', x)
    ensures TwinPlane(Put(k, w), Put(k', w), x)
  {
    PerformTwin(k.maps, k'.maps, w, x.lack);
    var p, p' := Put(k, w), Put(k', w);
    forall i: nat | i < |p'.log|
      ensures TwinEntry(p, p', x, i)
    {
      if i < |k'.log| {
        assert TwinEntry(k, k', x, i);
      }
    }
  }

  ghost predicate TwinTab(t: Tab, t': Tab, x: Link) {
    t' == t.(k := t'.k) && TwinPlane(t.k, t'.k, x)
  }

  lemma PutSlotTwin(t: Tab, t': Tab, id: nat, x: Link)
    requires TwinTab(t, t', x) && id < |t.slots|
    ensures TwinTab(PutSlot(t, id), PutSlot(t', id), x)
  {
    var s := t.slots[id];
    var toNeigh, toReal := PutNeigh(id, MacOf(s)), PutReal(id, s.addr);
    PutTwin(t.k, t'.k, toNeigh, x);
    PutTwin(t.k, t'.k, toReal, x);
    PutTwin(Put(t.k, toNeigh), Put(t'.k, toNeigh), toReal, x);
    PutTwin(Put(t.k, toReal), Put(t'.k, toReal), toNeigh, x);
  }

  lemma CreateTwin(t: Tab, t': Tab, addr: U32, id: nat, met: nat, x: Link)
    requires TwinTab(t, t', x) && 0 < id < |t.slots| <= MAX_REALS
    ensures TwinTab(Create(t, addr, id, met), Create(t', addr, id, met), x)
  {
    PutTwin(t.k, t'.k, ResetReal(id), x);
    var t1 := t.(slots := t.slots[id := Slot(addr, 1, None)], byAddr := t.byAddr[addr := id], cursor := Next(id),
                 tick := t.tick + met + 1, born := t.born[id := t.tick + met], k := Put(t.k, ResetReal(id)));
    PutSlotTwin(t1, t1.(k := Put(t'.k, ResetReal(id))), id, x);
  }

  lemma AcquireTwin(t: Tab, t': Tab, addr: U32, x: Link)
    requires Ranged(t) && Ranged(t') && TwinTab(t, t', x)
    ensures Acquire(t, addr).Some? <==> Acquire(t', addr).Some?
    ensures Acquire(t, addr).Some? ==> TwinTab(Acquire(t, addr).value, Acquire(t', addr).value, x)
  {
    if addr != 0 && addr !in t.byAddr {
      var met := Taken(t.slots, t.cursor, MAX_REALS - 1);
      if met < MAX_REALS - 1 {
        CreateTwin(t, t', addr, Around(t.cursor, met), met, x);
      }
    }
  }

  lemma ResolveTwin(t: Tab, t': Tab, addr: U32, nextHop: Option<U32>, arp: map<U32, Mac>, x: Link)
    requires Ranged(t) && Ranged(t') && TwinTab(t, t', x)
    ensures TwinTab(Resolve(t, addr, nextHop, arp), Resolve(t', addr, nextHop, arp), x)
  {
    var target := if nextHop.Some? then nextHop.value else addr;
    if target in arp && MacChanges(t, addr, arp[target]) {
      assert InRange(t.slots, t.byAddr, addr);
      var id := t.byAddr[addr];
      var t1 := t.(slots := t.slots[id := t.slots[id].(mac := Some(arp[target]))]);
      PutSlotTwin(t1, t1.(k := t'.k), id, x);
    }
  }

  lemma {:induction false} DropTwin(t: Tab, t': Tab, m: nat, x: Link)
    requires 1 <= m <= MAX_REALS && |t.slots| == |t'.slots| == MAX_REALS && TwinTab(t, t', x)
    ensures TwinTab(DropTo(t, m), DropTo(t', m), x)
  {
    if m > 1 {
      DropTwin(t, t', m - 1, x);
      var t1, t1', id := DropTo(t, m - 1), DropTo(t', m - 1), m - 1;
      if t1.slots[id].addr != 0 && t1.slots[id].refs == 0 {
        var t2 := t1.(byAddr := t1.byAddr - {t1.slots[id].addr}, slots := t1.slots[id := FREE]);
        PutSlotTwin(t2, t2.(k := t1'.k), id, x);
      }
    }
  }

  // ---- two daemons on them

  ghost predicate Twin(s: Lb, s': Lb, x: Link) {
    s' == s.(t := s'.t) && TwinTab(s.t, s'.t, x)
  }

  lemma SendTwin(s: Lb, s': Lb, w: Write, x: Link)
    requires Twin(s, s', x)
    ensures Twin(Send(s, w), Send(s', w), x)
  {
    PutTwin(s.t.k, s'.t.k, w, x);
  }

  lemma AddMemberTwin(s: Lb, s': Lb, k: VipSpec, addr: U32, weight: U32, arp: map<U32, Mac>, x: Link)
    requires Ranged(s.t) && Ranged(s'.t) && Twin(s, s', x) && k in s.vips
    ensures AddMember(s, k, addr, weight, arp).Some? <==> AddMember(s', k, addr, weight, arp).Some?
    ensures AddMember(s, k, addr, weight, arp).Some? ==>
              Twin(AddMember(s, k, addr, weight, arp).value, AddMember(s', k, addr, weight, arp).value, x)
  {
    AcquireTwin(s.t, s'.t, addr, x);
    var got, got' := Acquire(s.t, addr), Acquire(s'.t, addr);
    if got.Some? {
      ResolveTwin(got.value, got'.value, addr, s.nextHop, arp, x);
    }
  }

  ghost predicate TwinDone(d: Done, d': Done, x: Link) {
    d'.ok == d.ok && Twin(d.s, d'.s, x)
  }

  lemma {:induction false} MergeTwin(s: Lb, s': Lb, k: VipSpec, want: map<U32, U32>, todo: set<U32>, arp: map<U32, Mac>,
                                     x: Link)
    requires Ranged(s.t) && Ranged(s'.t) && Twin(s, s', x) && k in s.vips && todo <= want.Keys
    ensures TwinDone(Merge(s, k, want, todo, arp), Merge(s', k, want, todo, arp), x)
    decreases todo
  {
    if todo != {} {
      var a := Least(todo);
      if a in s.vips[k].members {
        MergeTwin(Reweigh(s, k, a, want[a]), Reweigh(s', k, a, want[a]), k, want, todo - {a}, arp, x);
      } else {
        AddMemberTwin(s, s', k, a, want[a], arp, x);
        var r, r' := AddMember(s, k, a, want[a], arp), AddMember(s', k, a, want[a], arp);
        if r.Some? {
          MergeTwin(r.value, r'.value, k, want, todo - {a}, arp, x);
        }
      }
    }
  }

  lemma EnterTwin(s: Lb, s': Lb, k: VipSpec, noConntrack: bool, x: Link)
    requires Twin(s, s', x)
    ensures Enter(s, k, noConntrack).Some? <==> Enter(s', k, noConntrack).Some?
    ensures Enter(s, k, noConntrack).Some? ==> Twin(Enter(s, k, noConntrack).value, Enter(s', k, noConntrack).value, x)
  {
    if k !in s.adopted {
      SendTwin(s, s', ResetVip(LeastUnused(UsedIds(s), 0)), x);
    }
  }

  lemma PublishTwin(s: Lb, s': Lb, k: VipSpec, h: Hashes, x: Link)
    requires Twin(s, s', x) && k in s.vips
    ensures Twin(SendVip(Rebuild(s, k, h), k), SendVip(Rebuild(s', k, h), k), x)
  {
    var v := Rebuilt(s.vips[k], s.t.slots, s.t.byAddr);
    var s1, s1' := s.(vips := s.vips[k := v]), s'.(vips := s.vips[k := v]);
    var w := PutRing(v.id, VipRing(v.members, s.t.byAddr, s.hash, h));
    SendTwin(s1, s1', w, x);
    SendTwin(Send(s1, w), Send(s1', w), PutVip(k, VipValue(v.id, v.noConntrack)), x);
  }

  lemma CreateVipTwin(s: Lb, s': Lb, k: VipSpec, noConntrack: bool, want: map<U32, U32>, arp: map<U32, Mac>, h: Hashes,
                      x: Link)
    requires Ranged(s.t) && Ranged(s'.t) && Twin(s, s', x)
    ensures TwinDone(CreateVip(s, k, noConntrack, want, arp, h), CreateVip(s', k, noConntrack, want, arp, h), x)
  {
    EnterTwin(s, s', k, noConntrack, x);
    var r, r' := Enter(s, k, noConntrack), Enter(s', k, noConntrack);
    if r.Some? {
      RangedSame(s.t, r.value.t);
      RangedSame(s'.t, r'.value.t);
      MergeTwin(r.value, r'.value, k, want, want.Keys, arp, x);
      MadeTwin(Merge(r.value, k, want, want.Keys, arp), Merge(r'.value, k, want, want.Keys, arp), k, h, x);
    }
  }

  ghost function Made(d: Done, k: VipSpec, h: Hashes): (e: Done)
    requires k in d.s.vips
  {
    if !d.ok then d else Done(SendVip(Rebuild(d.s, k, h), k), true)
  }

  lemma MadeTwin(d: Done, d': Done, k: VipSpec, h: Hashes, x: Link)
    requires TwinDone(d, d', x) && k in d.s.vips
    ensures TwinDone(Made(d, k, h), Made(d', k, h), x)
  {
    if d.ok {
      PublishTwin(d.s, d'.s, k, h, x);
    }
  }

  // ---- who has a ring

  lemma {:induction false} MergeRings(s: Lb, k: VipSpec, want: map<U32, U32>, todo: set<U32>, arp: map<U32, Mac>)
    requires Ranged(s.t) && k in s.vips && todo <= want.Keys
    ensures Merge(s, k, want, todo, arp).s.t.k.maps.rings == s.t.k.maps.rings
    decreases todo
  {
    if todo != {} {
      var a := Least(todo);
      if a in s.vips[k].members {
        MergeRings(Reweigh(s, k, a, want[a]), k, want, todo - {a}, arp);
      } else {
        var r := AddMember(s, k, a, want[a], arp);
        if r.Some? {
          AcquireLogs(s.t, a);
          ResolveLogs(Acquire(s.t, a).value, a, s.nextHop, arp);
          MergeRings(r.value, k, want, todo - {a}, arp);
        }
      }
    }
  }

  /** Every VIP the daemon knows has a ring. */
  ghost predicate Ringed(s: Lb) {
    forall j :: j in s.vips ==> s.vips[j].id in s.t.k.maps.rings
  }

  lemma MadeRings(d: Done, k: VipSpec, h: Hashes)
    requires k in d.s.vips && d.ok
    ensures var s' := Made(d, k, h).s;
            k in s'.vips && s'.t.k.maps.rings.Keys == d.s.t.k.maps.rings.Keys + {s'.vips[k].id}
  {
  }

  lemma CreateIs(s: Lb, s1: Lb, k: VipSpec, noConntrack: bool, want: map<U32, U32>, arp: map<U32, Mac>, h: Hashes)
    requires Ranged(s.t) && Enter(s, k, noConntrack) == Some(s1) && Ranged(s1.t) && k in s1.vips
    ensures var d := Merge(s1, k, want, want.Keys, arp);
            k in d.s.vips && CreateVip(s, k, noConntrack, want, arp, h) == Made(d, k, h)
  {
  }

  lemma EnterRings(s: Lb, k: VipSpec, noConntrack: bool)
    requires Enter(s, k, noConntrack).Some?
    ensures Enter(s, k, noConntrack).value.t.k.maps.rings == s.t.k.maps.rings
  {
  }

  lemma CreateRings(s: Lb, k: VipSpec, noConntrack: bool, want: map<U32, U32>, arp: map<U32, Mac>, h: Hashes)
    requires Ranged(s.t) && CreateVip(s, k, noConntrack, want, arp, h).ok
    ensures var s' := CreateVip(s, k, noConntrack, want, arp, h).s;
            k in s'.vips && s'.t.k.maps.rings.Keys == s.t.k.maps.rings.Keys + {s'.vips[k].id}
  {
    var s1 := Enter(s, k, noConntrack).value;
    RangedSame(s.t, s1.t);
    EnterRings(s, k, noConntrack);
    MergeRings(s1, k, want, want.Keys, arp);
    CreateIs(s, s1, k, noConntrack, want, arp, h);
    MadeRings(Merge(s1, k, want, want.Keys, arp), k, h);
  }

  lemma RingedMore(s: Lb, s': Lb, k: VipSpec)
    requires Ringed(s) && k in s'.vips && s'.vips == s.vips[k := s'.vips[k]]
    requires s'.t.k.maps.rings.Keys == s.t.k.maps.rings.Keys + {s'.vips[k].id}
    ensures Ringed(s')
  {
  }

  // ---- the turns of a start

  /** Twins after n turns, and every VIP created so far has a ring on both. */
  ghost predicate TurnTwin(d: Done, d': Done, x: Link) {
    TwinDone(d, d', x) && (d.ok ==> Ringed(d.s))
  }

  lemma CreateTurnTwin(s: Lb, s': Lb, d: Done, d': Done, vc: VipConfig, arp: map<U32, Mac>, h: Hashes, x: Link)
    requires Twin(s, s', x) && Ringed(s) && Inv(s') && Ranged(s.t) && Ranged(s'.t) && vc.spec !in s.vips && MacsOk(arp)
    requires d == CreateVip(s, vc.spec, vc.noConntrack, Want(vc), arp, h)
             && d' == CreateVip(s', vc.spec, vc.noConntrack, Want(vc), arp, h)
    ensures TurnTwin(d, d', x)
  {
    CreateVipTwin(s, s', vc.spec, vc.noConntrack, Want(vc), arp, h, x);
    if d.ok {
      CreateVipOk(s', vc.spec, vc.noConntrack, Want(vc), arp, h);
      CreateRings(s, vc.spec, vc.noConntrack, Want(vc), arp, h);
      RingedMore(s, d.s, vc.spec);
    }
  }

  lemma TurnTwinNext(s0: Lb, d: Done, d': Done, e: Done, e': Done, vcs: seq<VipConfig>, n: nat, hashChanged: bool,
                     arp: map<U32, Mac>, h: Hashes, x: Link)
    requires 0 < n <= |vcs| && DistinctSpecs(vcs) && MacsOk(arp) && TurnTwin(d, d', x) && Ranged(d.s.t)
             && Ranged(d'.s.t)
    requires d'.ok ==> KnowsFirst(s0, d'.s, vcs, n - 1)
    requires e == (if d.ok then ApplyVip(d.s, vcs[n - 1], hashChanged, arp, h) else d)
    requires e' == (if d'.ok then ApplyVip(d'.s, vcs[n - 1], hashChanged, arp, h) else d')
    ensures TurnTwin(e, e', x)
  {
    if d.ok {
      assert vcs[n - 1].spec !in SpecsTo(vcs, n - 1);
      CreateTurnTwin(d.s, d'.s, e, e', vcs[n - 1], arp, h, x);
    }
  }

  lemma TwinOn(s: Lb, s': Lb, turns: seq<Done>, turns': seq<Done>, vcs: seq<VipConfig>, n: nat, hashChanged: bool,
               arp: map<U32, Mac>, h: Hashes, x: Link, d: Done, d': Done, e: Done, e': Done)
    requires 0 < n <= |vcs| && DistinctSpecs(vcs) && MacsOk(arp)
    requires IsTurns(turns, s, vcs, hashChanged, arp, h) && IsTurns(turns', s', vcs, hashChanged, arp, h)
             && KnowsAt(s', turns', vcs, n - 1)
    requires d == turns[n - 1] && d' == turns'[n - 1] && e == turns[n] && e' == turns'[n] && TurnTwin(d, d', x)
    ensures TurnTwin(e, e', x)
  {
    assert TurnAt(turns, vcs, n - 1, hashChanged, arp, h) && TurnAt(turns', vcs, n - 1, hashChanged, arp, h);
    TurnTwinNext(s', d, d', e, e', vcs, n, hashChanged, arp, h, x);
  }

  lemma {:induction false} TurnsTwin(s: Lb, s': Lb, turns: seq<Done>, turns': seq<Done>, vcs: seq<VipConfig>, n: nat,
                                     hashChanged: bool, arp: map<U32, Mac>, h: Hashes, x: Link)
    requires n <= |vcs| && DistinctSpecs(vcs) && MacsOk(arp) && Twin(s, s', x) && s.vips == map[]
    requires IsTurns(turns, s, vcs, hashChanged, arp, h) && IsTurns(turns', s', vcs, hashChanged, arp, h)
    requires forall i: nat :: i <= |vcs| ==> KnowsAt(s', turns', vcs, i)
    ensures TurnTwin(turns[n], turns'[n], x)
  {
    if n > 0 {
      TurnsTwin(s, s', turns, turns', vcs, n - 1, hashChanged, arp, h, x);
      assert KnowsAt(s', turns', vcs, n - 1);
      TwinOn(s, s', turns, turns', vcs, n, hashChanged, arp, h, x, turns[n - 1], turns'[n - 1], turns[n], turns'[n]);
    }
  }

  // ---- the beginning and the end of a start

  lemma {:induction false} AdoptSame(m: Maps, m': Maps, n: nat)
    requires 1 <= n <= MAX_REALS && |m.reals| == |m.neigh| == MAX_REALS && m'.reals == m.reals && m'.neigh == m.neigh
    ensures AdoptTo(m', n) == AdoptTo(m, n)
  {
    if n > 1 {
      AdoptSame(m, m', n - 1);
    }
  }

  ghost function FilledPlane(k: Plane): (k': Plane) {
    Plane(Filled(k.maps), [], k.installs)
  }

  lemma BegunTwin(k: Plane, c: Config, lbMac: Mac, x: Link)
    requires SafeButRings(k.maps) && x == Link(|k.log|, Lacking(k.maps))
    ensures PlaneSafe(FilledPlane(k)) && Twin(Begun(k, c, lbMac), Begun(FilledPlane(k), c, lbMac), x)
  {
    var k' := FilledPlane(k);
    FilledIsSafe(k.maps);
    AdoptSame(k.maps, k'.maps, MAX_REALS);
    PutTwin(k, k', PutConfig(ConfigOf(c, lbMac)), x);
  }

  lemma {:induction false} PurgeTwin(s: Lb, s': Lb, todo: set<VipSpec>, x: Link)
    requires Ranged(s.t) && Ranged(s'.t) && Twin(s, s', x) && todo <= s.adopted.Keys
    ensures Twin(Purge(s, todo), Purge(s', todo), x)
    decreases todo
  {
    if todo != {} {
      var k := First(todo);
      SendTwin(s, s', Write.DelVip(k), x);
      SendTwin(Send(s, Write.DelVip(k)), Send(s', Write.DelVip(k)), DelRing(s.adopted[k]), x);
      var s1, s1' := Send(Send(s, Write.DelVip(k)), DelRing(s.adopted[k])),
        Send(Send(s', Write.DelVip(k)), DelRing(s.adopted[k]));
      RangedSame(s.t, s1.t);
      RangedSame(s'.t, s1'.t);
      PurgeTwin(s1, s1', todo - {k}, x);
    }
  }

  lemma CleanupTwin(s: Lb, s': Lb, x: Link)
    requires Ranged(s.t) && Ranged(s'.t) && Twin(s, s', x)
    ensures Twin(Cleanup(s), Cleanup(s'), x)
  {
    var todo := s.adopted.Keys - s.vips.Keys;
    PurgeTwin(s, s', todo, x);
    DropTwin(Purge(s, todo).t, Purge(s', todo).t, MAX_REALS, x);
  }

  lemma {:induction false} PurgeSpares(s: Lb, todo: set<VipSpec>, id: nat)
    requires Ranged(s.t) && todo <= s.adopted.Keys && id in s.t.k.maps.rings
             && forall j :: j in todo ==> s.adopted[j] != id
    ensures id in Purge(s, todo).t.k.maps.rings
    decreases todo
  {
    if todo != {} {
      var k := First(todo);
      var s1 := Send(Send(s, Write.DelVip(k)), DelRing(s.adopted[k]));
      RangedSame(s.t, s1.t);
      PurgeSpares(s1, todo - {k}, id);
    }
  }

  lemma CleanupRinged(s: Lb, id: nat)
    requires Ranged(s.t) && id in s.t.k.maps.rings && forall j :: j in s.adopted && j !in s.vips ==> s.adopted[j] != id
    ensures id in Cleanup(s).t.k.maps.rings
  {
    var todo := s.adopted.Keys - s.vips.Keys;
    PurgeSpares(s, todo, id);
    Owners.DropRings(Purge(s, todo).t, MAX_REALS);
  }

  /** After the clean-up no ring is missing: a VIP found without one has got its ring, or is gone. */
  lemma NoneMissing(s0: Lb, s: Lb, s': Lb, x: Link, id: nat)
    requires Ranged(s.t) && Ranged(s'.t) && Twin(s, s', x) && Ringed(s) && Inv(s')
    requires forall id :: id in x.lack ==> exists j :: j in s0.adopted && s0.adopted[j] == id
    requires s'.adopted == s0.adopted - s'.vips.Keys
    requires forall j :: j in s0.adopted && j in s'.vips ==> s'.vips[j].id == s0.adopted[j]
    requires id in Cleanup(s').t.k.maps.rings
    ensures id in Cleanup(s).t.k.maps.rings
  {
    CleanupTwin(s, s', x);
    var e, e' := Cleanup(s), Cleanup(s');
    assert RingTwin(e.t.k.maps.rings, e'.t.k.maps.rings, x.lack, id);
    if id !in e.t.k.maps.rings {
      var j :| j in s0.adopted && s0.adopted[j] == id;
      Owners.CleanupRings(s', e');
      if j in s'.vips {
        assert Holds(s', IdsPart);
        CleanupRinged(s, id);
      }
      assert false;
    }
  }

  // ---- the whole start

  lemma StartSplits(k: Plane, c: Config, lbMac: Mac, hashChanged: bool, arp: map<U32, Mac>, h: Hashes)
    requires |k.maps.reals| == |k.maps.neigh| == MAX_REALS && hashChanged == (c.hash != ByMaglev)
    ensures Ranged(Begun(k, c, lbMac).t)
    ensures var d := ApplyVips(Begun(k, c, lbMac), c.vips, |c.vips|, hashChanged, arp, h);
            Start(Fresh(k), c, lbMac, arp, h) == if d.ok then Done(Cleanup(d.s), true) else d
  {
    AdoptRanged(k);
    var s := Begun(k, c, lbMac);
    RangedSame(AdoptAll(Fresh(k)).t, s.t);
    assert s.vips.Keys - Specs(c) == {};
    assert DeleteAll(s, {}) == s;
  }

  lemma LackIsAdopted(k: Plane, s0: Lb, id: nat)
    requires s0.adopted.Keys == k.maps.vipMap.Keys && (forall j :: j in s0.adopted
                                                         ==> s0.adopted[j] == k.maps.vipMap[j].id)
    requires id in Lacking(k.maps)
    ensures exists j :: j in s0.adopted && s0.adopted[j] == id
  {
    var j :| j in k.maps.vipMap && k.maps.vipMap[j].id !in k.maps.rings && k.maps.vipMap[j].id == id;
    assert j in s0.adopted;
  }

  lemma AppliedTwin(k: Plane, c: Config, lbMac: Mac, hashChanged: bool, arp: map<U32, Mac>, h: Hashes, x: Link)
    requires SafeButRings(k.maps) && DistinctSpecs(c.vips) && MacsOk(arp) && x == Link(|k.log|, Lacking(k.maps))
    requires hashChanged == (c.hash != ByMaglev)
    ensures Ranged(Begun(k, c, lbMac).t) && Ranged(Begun(FilledPlane(k), c, lbMac).t)
    ensures TurnTwin(ApplyVips(Begun(k, c, lbMac), c.vips, |c.vips|, hashChanged, arp, h),
                     ApplyVips(Begun(FilledPlane(k), c, lbMac), c.vips, |c.vips|, hashChanged, arp, h), x)
  {
    var k', n := FilledPlane(k), |c.vips|;
    var s0, s0' := Begun(k, c, lbMac), Begun(k', c, lbMac);
    BegunTwin(k, c, lbMac, x);
    BegunOk(k', c, lbMac);
    InvRanged(s0');
    RangedSame(s0'.t, s0.t);
    var turns, turns' := Turns(s0, c.vips, hashChanged, arp, h), Turns(s0', c.vips, hashChanged, arp, h);
    AllTurnsStart(s0', c.vips, hashChanged, arp, h, turns');
    TurnsAre(s0, c.vips, hashChanged, arp, h, turns);
    TurnsTwin(s0, s0', turns, turns', c.vips, n, hashChanged, arp, h, x);
  }

  /** The same daemon on the same maps, with another record. */
  ghost predicate SameNow(s: Lb, s': Lb) {
    s' == s.(t := s.t.(k := s'.t.k)) && s'.t.k.maps == s.t.k.maps && s'.t.k.installs == s.t.k.installs
  }

  lemma RingsMeet(r: map<nat, seq<U32>>, r': map<nat, seq<U32>>, lack: set<nat>)
    requires (forall id: nat :: RingTwin(r, r', lack, id)) && forall id: nat :: id in r' ==> id in r
    ensures r' == r
  {
    forall id: nat
      ensures (id in r <==> id in r') && (id in r ==> r'[id] == r[id])
    {
      assert RingTwin(r, r', lack, id);
    }
  }

  lemma EndsMeet(s0: Lb, s: Lb, s': Lb, x: Link)
    requires Ranged(s.t) && Ranged(s'.t) && Twin(s, s', x) && Ringed(s) && Inv(s')
    requires forall id :: id in x.lack ==> exists j :: j in s0.adopted && s0.adopted[j] == id
    requires s'.adopted == s0.adopted - s'.vips.Keys
    requires forall j :: j in s0.adopted && j in s'.vips ==> s'.vips[j].id == s0.adopted[j]
    ensures SameNow(Cleanup(s), Cleanup(s'))
  {
    CleanupTwin(s, s', x);
    forall id: nat | id in Cleanup(s').t.k.maps.rings
      ensures id in Cleanup(s).t.k.maps.rings
    {
      NoneMissing(s0, s, s', x, id);
    }
    RingsMeet(Cleanup(s).t.k.maps.rings, Cleanup(s').t.k.maps.rings, x.lack);
  }

  lemma StartedIds(s0: Lb, s: Lb, c: Config, h: Hashes)
    requires Starting(s0, s, c.vips, |c.vips|, h)
    ensures s.adopted == s0.adopted - s.vips.Keys
            && forall j :: j in s0.adopted && j in s.vips ==> s.vips[j].id == s0.adopted[j]
  {
    forall j | j in s0.adopted && j in s.vips
      ensures s.vips[j].id == s0.adopted[j]
    {
      assert j in SpecsTo(c.vips, |c.vips|);
      var i :| 0 <= i < |c.vips| && c.vips[i].spec == j;
      assert Started(s0, s, c.vips[i], h);
    }
  }

  /** The two starts go together, and once complete the daemons and the maps are the same. */
  lemma StartTwin(k: Plane, c: Config, lbMac: Mac, arp: map<U32, Mac>, h: Hashes, x: Link)
    requires SafeButRings(k.maps) && DistinctSpecs(c.vips) && MacsOk(arp) && x == Link(|k.log|, Lacking(k.maps))
    ensures var d, d' := Start(Fresh(k), c, lbMac, arp, h), Start(Fresh(FilledPlane(k)), c, lbMac, arp, h);
            TwinDone(d, d', x) && (d.ok ==> SameNow(d.s, d'.s))
  {
    var k', hashChanged, n := FilledPlane(k), c.hash != ByMaglev, |c.vips|;
    var s0, s0' := Begun(k, c, lbMac), Begun(k', c, lbMac);
    FilledIsSafe(k.maps);
    AppliedTwin(k, c, lbMac, hashChanged, arp, h, x);
    StartSplits(k, c, lbMac, hashChanged, arp, h);
    StartSplits(k', c, lbMac, hashChanged, arp, h);
    BegunOk(k', c, lbMac);
    StartVips(s0', c.vips, n, hashChanged, arp, h);
    var d, d' := ApplyVips(s0, c.vips, n, hashChanged, arp, h), ApplyVips(s0', c.vips, n, hashChanged, arp, h);
    if d.ok {
      CleanupTwin(d.s, d'.s, x);
      StartedIds(s0', d'.s, c, h);
      forall id | id in x.lack
        ensures exists j :: j in s0'.adopted && s0'.adopted[j] == id
      {
        LackIsAdopted(k, s0', id);
      }
      EndsMeet(s0', d.s, d'.s, x);
    }
  }

  lemma SparedTwin(m0: Maps, m0': Maps, m: Maps, m': Maps, lack: set<nat>, ks: set<VipSpec>, ids: set<nat>)
    requires TwinMaps(m0, m0', lack) && TwinMaps(m, m', lack) && Spared(m0', m', ks, ids)
    ensures Spared(m0, m, ks, ids)
  {
    forall id | id in ids && id < |m0.reals| && id < |m0.neigh|
      ensures SparedId(m0, m, id)
    {
      assert SparedId(m0', m', id);
    }
  }

  /** Every state of the start: safe but for missing rings, with everything configured spared. */
  ghost predicate RepairAt(k: Plane, k': Plane, c: Config, i: nat)
    requires i < |k'.log|
  {
    SafeButRings(k'.log[i].after) && Spared(k.maps, k'.log[i].after, Specs(c), Retained(k.maps, c))
  }

  lemma RepairSteps(k: Plane, p: Plane, p': Plane, c: Config, x: Link, i: nat)
    requires SafeButRings(k.maps) && x == Link(|k.log|, Lacking(k.maps)) && TwinPlane(p, p', x) && PlaneSafe(p')
    requires SparedAll(FilledPlane(k), p', Specs(c), Retained(k.maps, c)) && |k.log| <= i < |p.log|
    ensures RepairAt(k, p, c, i)
  {
    var j := i - |k.log|;
    assert TwinEntry(p, p', x, j);
    TwinOfSafe(p.log[i].after, p'.log[j].after, x.lack);
    FilledIsSafe(k.maps);
    SparedTwin(k.maps, Filled(k.maps), p.log[i].after, p'.log[j].after, x.lack, Specs(c), Retained(k.maps, c));
  }

  lemma SameIsSound(s: Lb, s': Lb, h: Hashes)
    requires SameNow(s, s') && Neat(s', h)
    ensures Sound(s) && AllSteady(s, h) && MapsSafe(s.t.k.maps)
  {
    NeatIsGood(s', h);
    assert Holds(s', TablePart);
    forall k
      ensures SameVip(s'.vips, s.vips, k)
    {
    }
    assert Alike(s', s);
    forall j
      ensures Steady(s, h, j)
    {
      assert Steady(s', h, j);
    }
  }

  /**
   A start on maps that are safe but for VIPs without a ring, whatever daemon left them and whatever the
   configuration: it completes exactly when it would on safe maps; no write makes anything worse, nor
   changes the vip_id of a VIP or the address or MAC of a real that is still configured; and once
   complete the maps are safe, the daemon is sound and as configured, and every VIP is published with
   the ring of its members in_ring.
   */
  lemma StartRepairs(k: Plane, c: Config, lbMac: Mac, arp: map<U32, Mac>, h: Hashes)
    requires SafeButRings(k.maps) && DistinctSpecs(c.vips) && MacsOk(arp)
    ensures var d := Start(Fresh(k), c, lbMac, arp, h);
            && (d.ok <==> Room(Adopt(k).byAddr.Keys + AllReals(c)) && AtMost(k.maps.vipMap.Keys + Specs(c), MAX_VIPS))
            && (forall i: nat :: |k.log| <= i < |d.s.t.k.log| ==> RepairAt(k, d.s.t.k, c, i))
            && (d.ok ==> MapsSafe(d.s.t.k.maps) && Sound(d.s) && AllSteady(d.s, h) && Conforms(d.s, c)
                         && KeepsMeaning(k, d.s, c))
  {
    var k', x := FilledPlane(k), Link(|k.log|, Lacking(k.maps));
    FilledIsSafe(k.maps);
    StartTwin(k, c, lbMac, arp, h, x);
    HitlessRestart(k', c, lbMac, arp, h);
    StartEndsIff(k', c, lbMac, arp, h);
    AdoptSame(k.maps, k'.maps, MAX_REALS);
    assert Retained(k'.maps, c) == Retained(k.maps, c);
    var d, d' := Start(Fresh(k), c, lbMac, arp, h), Start(Fresh(k'), c, lbMac, arp, h);
    forall i: nat | |k.log| <= i < |d.s.t.k.log|
      ensures RepairAt(k, d.s.t.k, c, i)
    {
      RepairSteps(k, d.s.t.k, d'.s.t.k, c, x, i);
    }
    if d.ok {
      SameIsSound(d.s, d'.s, h);
    }
  }
}
