/** Tracked flows and a restart of the daemon: the packets between any two writes of the new one. */
module Handover {
  import opened Basics
  import opened BuildMaglev
  import opened Maps
  import opened Control
  import opened MemberLaws
  import opened ApplyLaws
  import opened Restart
  import opened Hitless
  import opened Packet
  import opened Encap
  import opened DataPlane
  import opened Flows
  import opened Stickiness
  import opened Interleaving

  /** A packet of a tracked flow whose real has an address and a MAC goes there. */
  lemma TrackedIsSent(dp: Dp, m: Maps, a: Arrival, mc: Machine, f: Flow, id: U32)
    requires DpOk(dp) && IdsInRange(m) && a.cpu < |dp.cpus| && a.now > 0 && a.headroom >= IP_LEN
    requires EntryIs(dp, f, a.cpu, id) && Sendable(m, id)
    requires Asked(m, a, mc).Some?
    requires Asked(m, a, mc).value.flow == f && Asked(m, a, mc).value.useCt && !Asked(m, a, mc).value.bareSyn
    ensures var v := Step(dp, m, a, mc).verdict;
            v.Tx? && v.realId == id && |v.out| >= 34 && Load32(v.out, 30, mc.endian) == m.reals[id]
  {
    StepTable(dp, m, a, mc);
    PickKeepsEntry(dp.ct, StatsAt(dp, m, a, mc), m, Asked(m, a, mc).value, a, |dp.cpus|, f, a.cpu, id);
    StepVerdict(dp, m, a, mc);
    ParsedFacts(a.frame, m.config.icmpPmtu, mc.endian);
    EncapsulatedFacts(a.frame, JobOf(m, Parse(a.frame, m.config.icmpPmtu, mc.endian), id, Asked(m, a, mc).value.hash,
      mc.endian), mc.endian);
  }

  lemma SparedIsSendable(m0: Maps, m: Maps, c: Config, id: nat)
    requires MapsSafe(m0) && Spared(m0, m, Specs(c), Retained(m0, c)) && id in Retained(m0, c) && m0.neigh[id] != NO_MAC
    ensures Sendable(m, id) && m.reals[id] == m0.reals[id]
  {
    assert SparedId(m0, m, id);
  }

  /** The event neither evicts the flow's entry nor is a bare SYN of the flow on that CPU. */
  ghost predicate Undisturbed(ev: Event, mc: Machine, f: Flow, c: nat) {
    && ev != Evict(f)
    && (ev.Frame? && ev.a.cpu == c ==> forall pmtu: bool :: NoSyn(Parse(ev.a.frame, pmtu, mc.endian), f))
  }

  ghost predicate NoSyn(p: Parsed, f: Flow) {
    p.Packet? && p.flow == f ==> !p.bareSyn
  }

  lemma UndisturbedIsCalm(w: World, ev: Event, mc: Machine, f: Flow, c: nat, id: U32)
    requires Undisturbed(ev, mc, f, c) && RealAlive(w.m, id)
    ensures Calm(w, ev, mc, f, c, id)
  {
    if ev.Frame? && ev.a.cpu == c {
      assert NoSyn(Parse(ev.a.frame, w.m.config.icmpPmtu, mc.endian), f);
    }
  }

  /** At every moment of the start the real is where it was. */
  lemma SendableNow(k: Plane, k': Plane, c: Config, w: World, evs: seq<Event>, n: nat, mc: Machine, id: nat)
    requires MapsSafe(k.maps) && SparedAll(k, k', Specs(c), Retained(k.maps, c)) && w.m == k.maps
    requires id in Retained(k.maps, c) && k.maps.neigh[id] != NO_MAC
    requires WorldOk(w) && n <= |evs| && AllPossible(|w.dp.cpus|, evs) && Interleaves(evs, k'.log, |k.log|)
    ensures var m := Run(w, evs, n, mc).m;
            Sendable(m, id) && m.reals[id] == k.maps.reals[id]
  {
    MapsNow(w, evs, n, mc, k'.log, |k.log|);
    SparedIsSendable(k.maps, Run(w, evs, n, mc).m, c, id);
  }

  lemma {:induction false} AllCalm(k: Plane, k': Plane, c: Config, w: World, evs: seq<Event>, n: nat, mc: Machine,
                                   f: Flow, cpu: nat, id: nat)
    requires MapsSafe(k.maps) && SparedAll(k, k', Specs(c), Retained(k.maps, c)) && w.m == k.maps
    requires id in Retained(k.maps, c) && k.maps.neigh[id] != NO_MAC
    requires WorldOk(w) && n < |evs| && AllPossible(|w.dp.cpus|, evs) && Interleaves(evs, k'.log, |k.log|)
    requires forall i: nat :: i <= n ==> Undisturbed(evs[i], mc, f, cpu)
    ensures forall i: nat :: i <= n ==> CalmAt(w, evs, i, mc, f, cpu, id)
  {
    forall i: nat | i <= n
      ensures CalmAt(w, evs, i, mc, f, cpu, id)
    {
      SendableNow(k, k', c, w, evs, i, mc, id);
      UndisturbedIsCalm(Run(w, evs, i, mc), evs[i], mc, f, cpu, id);
    }
  }

  /** Event n is a packet of the flow on that CPU that the table is asked about. */
  ghost predicate AsksTable(m: Maps, ev: Event, mc: Machine, f: Flow, c: nat) {
    && ev.Frame? && ev.a.cpu == c && ev.a.headroom >= IP_LEN
    && Asked(m, ev.a, mc).Some? && Asked(m, ev.a, mc).value.flow == f && Asked(m, ev.a, mc).value.useCt
  }

  /**
   Wherever the old daemon died and whatever the new configuration: with packets on any CPU between
   any two writes of the new daemon's start, every packet of a tracked flow on a real that is still
   configured goes to the address it went to before.
   */
  lemma TrackedAcrossRestart(k: Plane, c: Config, lbMac: Mac, arp: map<U32, Mac>, h: Hashes,
                             dp: Dp, evs: seq<Event>, n: nat, mc: Machine, f: Flow, cpu: nat, id: nat)
    requires PlaneSafe(k) && DistinctSpecs(c.vips) && MacsOk(arp)
    requires Interleaves(evs, Start(Fresh(k), c, lbMac, arp, h).s.t.k.log, |k.log|)
    requires DpOk(dp) && Traffic(|dp.cpus|, evs) && n < |evs|
    requires id in Retained(k.maps, c) && k.maps.neigh[id] != NO_MAC && EntryIs(dp, f, cpu, id)
    requires forall i: nat :: i <= n ==> Undisturbed(evs[i], mc, f, cpu)
    ensures WorldOk(World(dp, k.maps)) && AllPossible(|dp.cpus|, evs)
    ensures var w := Run(World(dp, k.maps), evs, n, mc);
            AsksTable(w.m, evs[n], mc, f, cpu) ==>
              var v := Step(w.dp, w.m, evs[n].a, mc).verdict;
              v.Tx? && v.realId == id && |v.out| >= 34 && Load32(v.out, 30, mc.endian) == k.maps.reals[id]
  {
    HitlessRestart(k, c, lbMac, arp, h);
    var k', w0 := Start(Fresh(k), c, lbMac, arp, h).s.t.k, World(dp, k.maps);
    SafeInRange(k.maps);
    SafeLog(evs, k'.log, |k.log|, |dp.cpus|);
    AllCalm(k, k', c, w0, evs, n, mc, f, cpu, id);
    EntryLasts(w0, evs, n, mc, f, cpu, id);
    SendableNow(k, k', c, w0, evs, n, mc, id);
    var w := Run(w0, evs, n, mc);
    if AsksTable(w.m, evs[n], mc, f, cpu) {
      assert Undisturbed(evs[n], mc, f, cpu) && NoSyn(Parse(evs[n].a.frame, w.m.config.icmpPmtu, mc.endian), f);
      TrackedIsSent(w.dp, w.m, evs[n].a, mc, f, id);
    }
  }
}
