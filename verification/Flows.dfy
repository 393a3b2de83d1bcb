/**
 Runs of the data plane: frames on any CPU, evictions at any time, and map changes in between.
 */
module Flows {
  import opened Basics
  import opened Maps
  import opened Packet
  import opened Encap
  import opened DataPlane

  datatype World = World(dp: Dp, m: Maps)

  /** A frame; the LRU dropping a key; or the maps as the control plane has changed them. */
  datatype Event = Frame(a: Arrival) | Evict(f: Flow) | Control(m: Maps)

  ghost predicate IdsInRange(m: Maps) {
    forall k :: k in m.vipMap ==> m.vipMap[k].id < MAX_VIPS
  }

  ghost predicate WorldOk(w: World) {
    DpOk(w.dp) && IdsInRange(w.m)
  }

  /** The clock is positive. */
  ghost predicate Possible(ncpus: nat, ev: Event) {
    match ev
    case Frame(a) => a.cpu < ncpus && a.now > 0
    case Evict(f) => true
    case Control(m) => IdsInRange(m)
  }

  ghost function Next(w: World, ev: Event, mc: Machine): (w': World)
    requires WorldOk(w) && Possible(|w.dp.cpus|, ev)
    ensures WorldOk(w') && |w'.dp.cpus| == |w.dp.cpus|
  {
    match ev
    case Frame(a) =>
      StepKeepsShape(w.dp, w.m, a, mc);
      w.(dp := Step(w.dp, w.m, a, mc).dp)
    case Evict(f) => w.(dp := w.dp.(ct := w.dp.ct - {f}))
    case Control(m) => w.(m := m)
  }

  ghost predicate AllPossible(ncpus: nat, evs: seq<Event>) {
    forall i :: 0 <= i < |evs| ==> Possible(ncpus, evs[i])
  }

  ghost function Run(w: World, evs: seq<Event>, n: nat, mc: Machine): (w': World)
    requires WorldOk(w) && n <= |evs| && AllPossible(|w.dp.cpus|, evs)
    ensures WorldOk(w') && |w'.dp.cpus| == |w.dp.cpus|
  {
    if n == 0 then w else Next(Run(w, evs, n - 1, mc), evs[n - 1], mc)
  }

  lemma RunNext(w: World, evs: seq<Event>, m: nat, mc: Machine)
    requires WorldOk(w) && m < |evs| && AllPossible(|w.dp.cpus|, evs)
    ensures Run(w, evs, m + 1, mc) == Next(Run(w, evs, m, mc), evs[m], mc)
  {
  }

  // ---- the table as a cache of the ring

  /** The program without a connection table: parse, look up the VIP, look up the ring, encapsulate. */
  ghost function Plain(m: Maps, a: Arrival, mc: Machine): (v: Verdict) {
    var p := Parse(a.frame, m.config.icmpPmtu, mc.endian);
    if p.Bad? then Drop
    else if p.Host? || KeyOf(p.flow) !in m.vipMap then Pass
    else
      ParsedFacts(a.frame, m.config.icmpPmtu, mc.endian);
      var id := RingLookup(m, m.vipMap[KeyOf(p.flow)].id, mc.hash(p.flow));
      if p.len + IP_LEN > MAX_PACKET || !Sendable(m, id) || a.headroom < IP_LEN then Drop
      else Tx(Encapsulated(a.frame, JobOf(m, p, id, mc.hash(p.flow), mc.endian)), id)
  }

  /** This VIP has this id and this ring. */
  ghost predicate InForce(m: Maps, k: VipSpec, id: nat, ring: seq<U32>) {
    k in m.vipMap && m.vipMap[k].id == id && id in m.rings && m.rings[id] == ring && |ring| == RING_SIZE
  }

  ghost predicate CopyAgrees(copies: seq<Ct>, c: nat, id: U32) {
    c < |copies| && copies[c].seen != 0 ==> copies[c].realId == id
  }

  /** Every entry of the VIP's flows that can hit names the real the ring names. */
  ghost predicate Cached(dp: Dp, k: VipSpec, ring: seq<U32>, mc: Machine) {
    |ring| == RING_SIZE && forall f, c :: f in dp.ct && KeyOf(f) == k
                             ==> CopyAgrees(dp.ct[f], c, ring[mc.hash(f) % RING_SIZE])
  }

  lemma PickIsRing(ct: map<Flow, seq<Ct>>, st: Stats, m: Maps, q: Query, a: Arrival, ncpus: nat, id: U32)
    requires a.cpu < ncpus && (q.flow in ct ==> |ct[q.flow]| == ncpus)
    requires RingLookup(m, q.vipId, q.hash) == id && (q.flow in ct ==> forall c :: CopyAgrees(ct[q.flow], c, id))
    ensures var r := PickReal(ct, st, m, q, a, ncpus);
            && r.realId == id
            && (q.flow in r.ct ==> forall c :: CopyAgrees(r.ct[q.flow], c, id))
            && (forall f :: f != q.flow ==> (f in r.ct <==> f in ct) && (f in ct ==> r.ct[f] == ct[f]))
  {
    if q.flow in ct {
      assert CopyAgrees(ct[q.flow], a.cpu, id);
    }
    var r := PickReal(ct, st, m, q, a, ncpus);
    if q.flow in r.ct {
      forall c: nat
        ensures CopyAgrees(r.ct[q.flow], c, id)
      {
        assert q.flow in ct ==> CopyAgrees(ct[q.flow], c, id);
      }
    }
  }

  lemma PickedIsRing(dp: Dp, m: Maps, a: Arrival, mc: Machine, k: VipSpec, id: nat, ring: seq<U32>)
    requires a.cpu < |dp.cpus| && DpOk(dp) && IdsInRange(m) && InForce(m, k, id, ring) && Cached(dp, k, ring, mc)
    requires Asked(m, a, mc).Some? && KeyOf(Asked(m, a, mc).value.flow) == k
    ensures var q := Asked(m, a, mc).value;
            && q.vipId < MAX_VIPS && PickAt(dp, m, a, mc).realId == RingLookup(m, q.vipId, q.hash)
            && Cached(dp.(ct := PickAt(dp, m, a, mc).ct), k, ring, mc)
  {
    var q := Asked(m, a, mc).value;
    assert q.flow in dp.ct ==> forall c :: CopyAgrees(dp.ct[q.flow], c, ring[mc.hash(q.flow) % RING_SIZE]);
    PickIsRing(dp.ct, StatsAt(dp, m, a, mc), m, q, a, |dp.cpus|, ring[mc.hash(q.flow) % RING_SIZE]);
  }

  lemma OtherFlowsKept(ct: map<Flow, seq<Ct>>, st: Stats, m: Maps, q: Query, a: Arrival, ncpus: nat, f: Flow)
    requires a.cpu < ncpus && (q.flow in ct ==> |ct[q.flow]| == ncpus) && f != q.flow
    ensures var r := PickReal(ct, st, m, q, a, ncpus);
            (f in r.ct <==> f in ct) && (f in ct ==> r.ct[f] == ct[f])
  {
  }

  lemma OthersStayCached(dp: Dp, m: Maps, a: Arrival, mc: Machine, k: VipSpec, ring: seq<U32>)
    requires a.cpu < |dp.cpus| && DpOk(dp) && IdsInRange(m) && Cached(dp, k, ring, mc)
    requires Asked(m, a, mc).Some? && KeyOf(Asked(m, a, mc).value.flow) != k && Asked(m, a, mc).value.vipId < MAX_VIPS
    ensures Cached(dp.(ct := PickAt(dp, m, a, mc).ct), k, ring, mc)
  {
    forall f | KeyOf(f) == k
      ensures (f in PickAt(dp, m, a, mc).ct <==> f in dp.ct) && (f in dp.ct ==> PickAt(dp, m, a, mc).ct[f] == dp.ct[f])
    {
      OtherFlowsKept(dp.ct, StatsAt(dp, m, a, mc), m, Asked(m, a, mc).value, a, |dp.cpus|, f);
    }
  }

  lemma SameTableCached(dp: Dp, dp': Dp, k: VipSpec, ring: seq<U32>, mc: Machine)
    requires Cached(dp, k, ring, mc) && dp'.ct == dp.ct
    ensures Cached(dp', k, ring, mc)
  {
    forall f, c | f in dp'.ct && KeyOf(f) == k
      ensures CopyAgrees(dp'.ct[f], c, ring[mc.hash(f) % RING_SIZE])
    {
      assert CopyAgrees(dp.ct[f], c, ring[mc.hash(f) % RING_SIZE]);
    }
  }

  lemma StepStaysCached(dp: Dp, m: Maps, a: Arrival, mc: Machine, k: VipSpec, id: nat, ring: seq<U32>)
    requires a.cpu < |dp.cpus| && DpOk(dp) && IdsInRange(m) && InForce(m, k, id, ring) && Cached(dp, k, ring, mc)
    ensures Cached(Step(dp, m, a, mc).dp, k, ring, mc)
  {
    StepTable(dp, m, a, mc);
    var dp' := Step(dp, m, a, mc).dp;
    if Asked(m, a, mc).None? {
      SameTableCached(dp, dp', k, ring, mc);
    } else {
      if KeyOf(Asked(m, a, mc).value.flow) == k {
        PickedIsRing(dp, m, a, mc, k, id, ring);
      } else {
        OthersStayCached(dp, m, a, mc, k, ring);
      }
      SameTableCached(dp.(ct := PickAt(dp, m, a, mc).ct), dp', k, ring, mc);
    }
  }

  /** While a VIP's ring is in force, its packets get exactly what the stateless program gives them. */
  lemma StepIsPlain(dp: Dp, m: Maps, a: Arrival, mc: Machine, k: VipSpec, id: nat, ring: seq<U32>)
    requires a.cpu < |dp.cpus| && DpOk(dp) && IdsInRange(m) && InForce(m, k, id, ring) && Cached(dp, k, ring, mc)
    requires Parse(a.frame, m.config.icmpPmtu, mc.endian).Packet?
             && KeyOf(Parse(a.frame, m.config.icmpPmtu, mc.endian).flow) == k
    ensures Step(dp, m, a, mc).verdict == Plain(m, a, mc)
  {
    if Asked(m, a, mc).Some? {
      PickedIsRing(dp, m, a, mc, k, id, ring);
      StepVerdict(dp, m, a, mc);
    }
  }

  /** No map change in the run touches this VIP's id or ring. */
  ghost predicate Undisturbed(evs: seq<Event>, k: VipSpec, id: nat, ring: seq<U32>) {
    forall i :: 0 <= i < |evs| && evs[i].Control? ==> InForce(evs[i].m, k, id, ring)
  }

  ghost predicate NoEntries(dp: Dp, k: VipSpec) {
    forall f :: f in dp.ct ==> KeyOf(f) != k
  }

  lemma {:induction false} StaysCached(w: World, evs: seq<Event>, n: nat, mc: Machine, k: VipSpec, id: nat,
                                       ring: seq<U32>)
    requires WorldOk(w) && n <= |evs| && AllPossible(|w.dp.cpus|, evs)
    requires InForce(w.m, k, id, ring) && Undisturbed(evs, k, id, ring) && Cached(w.dp, k, ring, mc)
    ensures InForce(Run(w, evs, n, mc).m, k, id, ring) && Cached(Run(w, evs, n, mc).dp, k, ring, mc)
  {
    if n > 0 {
      var i := n - 1;
      assert i + 1 == n;
      StaysCached(w, evs, i, mc, k, id, ring);
      RunNext(w, evs, i, mc);
      var w1 := Run(w, evs, i, mc);
      if evs[i].Frame? {
        StepStaysCached(w1.dp, w1.m, evs[i].a, mc, k, id, ring);
      }
    }
  }

  /**
   The connection table is a transparent cache: from a table without entries for the VIP, and
   while its ring is not replaced, every packet of the VIP gets exactly what the program without a
   table would do, for every interleaving of CPUs, evictions, SYNs, RSTs, ICMP and conntrack flags.
   */
  lemma TransparentCache(w: World, evs: seq<Event>, n: nat, mc: Machine, k: VipSpec, id: nat, ring: seq<U32>)
    requires WorldOk(w) && n < |evs| && AllPossible(|w.dp.cpus|, evs) && evs[n].Frame?
    requires InForce(w.m, k, id, ring) && Undisturbed(evs, k, id, ring) && NoEntries(w.dp, k)
    ensures var w1, a := Run(w, evs, n, mc), evs[n].a;
            var p := Parse(a.frame, w1.m.config.icmpPmtu, mc.endian);
            a.cpu < |w1.dp.cpus| && (p.Packet? && KeyOf(p.flow) == k
              ==> Step(w1.dp, w1.m, a, mc).verdict == Plain(w1.m, a, mc))
  {
    StaysCached(w, evs, n, mc, k, id, ring);
    var w1 := Run(w, evs, n, mc);
    assert Possible(|w.dp.cpus|, evs[n]);
    var p := Parse(evs[n].a.frame, w1.m.config.icmpPmtu, mc.endian);
    if p.Packet? && KeyOf(p.flow) == k {
      StepIsPlain(w1.dp, w1.m, evs[n].a, mc, k, id, ring);
    }
  }
}
