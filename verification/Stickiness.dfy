/** Where table entries come from, how long flows follow them, and what never creates one. */
module Stickiness {
  import opened Basics
  import opened Maps
  import opened Packet
  import opened DataPlane
  import opened Flows

  /** This CPU has an entry for the flow that is not a zero-filled copy. */
  ghost predicate Tracked(dp: Dp, f: Flow, c: nat) {
    f in dp.ct && c < |dp.ct[f]| && dp.ct[f][c].seen != 0
  }

  /** What this event reads off the ring for flow f on CPU c. */
  ghost predicate ReadsRing(w: World, ev: Event, mc: Machine, f: Flow, c: nat, id: U32) {
    && ev.Frame? && ev.a.cpu == c && Asked(w.m, ev.a, mc).Some? && Asked(w.m, ev.a, mc).value.flow == f
    && RingLookup(w.m, w.m.vipMap[KeyOf(f)].id, mc.hash(f)) == id && id != REAL_NONE
  }

  lemma PickSource(ct: map<Flow, seq<Ct>>, st: Stats, m: Maps, q: Query, a: Arrival, ncpus: nat, f: Flow, c: nat)
    requires a.cpu < ncpus && (forall g :: g in ct ==> |ct[g]| == ncpus) && a.now > 0
    requires var ct' := PickReal(ct, st, m, q, a, ncpus).ct;
             f in ct' && c < |ct'[f]| && ct'[f][c].seen != 0
    ensures var ct' := PickReal(ct, st, m, q, a, ncpus).ct;
            || (f in ct && c < |ct[f]| && ct[f][c].seen != 0 && ct'[f][c].realId == ct[f][c].realId)
            || (q.flow == f && a.cpu == c && ct'[f][c].realId == RingLookup(m, q.vipId, q.hash) != REAL_NONE)
  {
  }

  /** An entry is there because it was there before, or because this event read it off the ring. */
  lemma EntrySource(w: World, ev: Event, mc: Machine, f: Flow, c: nat)
    requires WorldOk(w) && Possible(|w.dp.cpus|, ev) && Tracked(Next(w, ev, mc).dp, f, c)
    ensures var id := Next(w, ev, mc).dp.ct[f][c].realId;
            || (Tracked(w.dp, f, c) && w.dp.ct[f][c].realId == id)
            || ReadsRing(w, ev, mc, f, c, id)
  {
    if ev.Frame? {
      StepTable(w.dp, w.m, ev.a, mc);
      if Asked(w.m, ev.a, mc).Some? {
        PickSource(w.dp.ct, StatsAt(w.dp, w.m, ev.a, mc), w.m, Asked(w.m, ev.a, mc).value, ev.a, |w.dp.cpus|, f, c);
      }
    }
  }

  /**
   Provenance: in any run, whatever the control plane does, an entry that can hit names a real that
   this same CPU read, in an earlier event of the run, off the ring of that flow's VIP.
   */
  lemma {:induction false} Provenance(w: World, evs: seq<Event>, n: nat, mc: Machine, f: Flow, c: nat) returns (i: nat)
    requires WorldOk(w) && n <= |evs| && AllPossible(|w.dp.cpus|, evs) && w.dp.ct == map[]
    requires Tracked(Run(w, evs, n, mc).dp, f, c)
    ensures i < n && ReadsRing(Run(w, evs, i, mc), evs[i], mc, f, c, Run(w, evs, n, mc).dp.ct[f][c].realId)
  {
    assert n > 0;
    var m := n - 1;
    assert m + 1 == n;
    RunNext(w, evs, m, mc);
    var w1 := Run(w, evs, m, mc);
    assert Possible(|w1.dp.cpus|, evs[m]);
    EntrySource(w1, evs[m], mc, f, c);
    if Tracked(w1.dp, f, c) && w1.dp.ct[f][c].realId == Run(w, evs, n, mc).dp.ct[f][c].realId {
      i := Provenance(w, evs, m, mc, f, c);
    } else {
      i := m;
    }
  }

  /** Rings of safe maps name no id 0, so no entry ever does. */
  lemma NeverIdZero(w: World, evs: seq<Event>, n: nat, mc: Machine, f: Flow, c: nat)
    requires WorldOk(w) && n <= |evs| && AllPossible(|w.dp.cpus|, evs) && w.dp.ct == map[]
    requires MapsSafe(w.m) && forall i :: 0 <= i < |evs| && evs[i].Control? ==> MapsSafe(evs[i].m)
    requires Tracked(Run(w, evs, n, mc).dp, f, c)
    ensures 0 < Run(w, evs, n, mc).dp.ct[f][c].realId < MAX_REALS
  {
    var i := Provenance(w, evs, n, mc, f, c);
    StaySafe(w, evs, i, mc);
    var m := Run(w, evs, i, mc).m;
    assert VipSafe(m, KeyOf(f));
  }

  lemma {:induction false} StaySafe(w: World, evs: seq<Event>, n: nat, mc: Machine)
    requires WorldOk(w) && n <= |evs| && AllPossible(|w.dp.cpus|, evs)
    requires MapsSafe(w.m) && forall i :: 0 <= i < |evs| && evs[i].Control? ==> MapsSafe(evs[i].m)
    ensures MapsSafe(Run(w, evs, n, mc).m)
  {
    if n > 0 {
      var m := n - 1;
      assert m + 1 == n;
      StaySafe(w, evs, m, mc);
      RunNext(w, evs, m, mc);
    }
  }

  // ---- following an entry

  /** The flow's entry survives this event: no eviction, no bare SYN, and the real's slot is not emptied. */
  ghost predicate Calm(w: World, ev: Event, mc: Machine, f: Flow, c: nat, id: U32) {
    && ev != Evict(f)
    && (ev.Frame? && ev.a.cpu == c && Asked(w.m, ev.a, mc).Some? && Asked(w.m, ev.a, mc).value.flow == f ==>
          !Asked(w.m, ev.a, mc).value.bareSyn && RealAlive(w.m, id))
  }

  ghost predicate EntryIs(dp: Dp, f: Flow, c: nat, id: U32) {
    Tracked(dp, f, c) && dp.ct[f][c].realId == id
  }

  lemma PickKeepsEntry(ct: map<Flow, seq<Ct>>, st: Stats, m: Maps, q: Query, a: Arrival, ncpus: nat, f: Flow, c: nat,
                       id: U32)
    requires a.cpu < ncpus && (forall g :: g in ct ==> |ct[g]| == ncpus) && a.now > 0
    requires f in ct && c < |ct[f]| && ct[f][c].seen != 0 && ct[f][c].realId == id
    requires q.flow == f && a.cpu == c ==> !q.bareSyn && RealAlive(m, id)
    ensures var r := PickReal(ct, st, m, q, a, ncpus);
            && f in r.ct && c < |r.ct[f]| && r.ct[f][c].seen != 0 && r.ct[f][c].realId == id
            && (q.flow == f && a.cpu == c && q.useCt ==> r.realId == id)
  {
  }

  lemma CalmKeepsEntry(w: World, ev: Event, mc: Machine, f: Flow, c: nat, id: U32)
    requires WorldOk(w) && Possible(|w.dp.cpus|, ev) && EntryIs(w.dp, f, c, id) && Calm(w, ev, mc, f, c, id)
    ensures EntryIs(Next(w, ev, mc).dp, f, c, id)
  {
    if ev.Frame? {
      StepTable(w.dp, w.m, ev.a, mc);
      if Asked(w.m, ev.a, mc).Some? {
        PickKeepsEntry(w.dp.ct, StatsAt(w.dp, w.m, ev.a, mc), w.m, Asked(w.m, ev.a, mc).value, ev.a, |w.dp.cpus|, f,
          c, id);
      }
    }
  }

  ghost predicate CalmAt(w: World, evs: seq<Event>, i: nat, mc: Machine, f: Flow, c: nat, id: U32)
    requires WorldOk(w) && i < |evs| && AllPossible(|w.dp.cpus|, evs)
  {
    Calm(Run(w, evs, i, mc), evs[i], mc, f, c, id)
  }

  /**
   An entry lasts, with its real, until eviction, a bare SYN of the flow or an emptied slot, whatever the
   rings do.
   */
  lemma {:induction false} EntryLasts(w: World, evs: seq<Event>, n: nat, mc: Machine, f: Flow, c: nat, id: U32)
    requires WorldOk(w) && n <= |evs| && AllPossible(|w.dp.cpus|, evs)
    requires EntryIs(w.dp, f, c, id) && forall i: nat :: i < n ==> CalmAt(w, evs, i, mc, f, c, id)
    ensures EntryIs(Run(w, evs, n, mc).dp, f, c, id)
  {
    if n > 0 {
      var m := n - 1;
      assert m + 1 == n;
      EntryLasts(w, evs, m, mc, f, c, id);
      RunNext(w, evs, m, mc);
      assert CalmAt(w, evs, m, mc, f, c, id);
      CalmKeepsEntry(Run(w, evs, m, mc), evs[m], mc, f, c, id);
    }
  }

  /**
   Stickiness: meanwhile every packet of the flow on that CPU, and every ICMP message quoting the
   flow's replies there, is sent to that real as long as the table is in use for the VIP.
   */
  lemma FlowSticks(w: World, evs: seq<Event>, n: nat, mc: Machine, f: Flow, c: nat, id: U32)
    requires WorldOk(w) && n < |evs| && AllPossible(|w.dp.cpus|, evs)
    requires EntryIs(w.dp, f, c, id) && forall i: nat :: i <= n ==> CalmAt(w, evs, i, mc, f, c, id)
    requires var m := Run(w, evs, n, mc).m;
             evs[n].Frame? && evs[n].a.cpu == c && Asked(m, evs[n].a, mc).Some?
               && Asked(m, evs[n].a, mc).value.flow == f
             && Asked(m, evs[n].a, mc).value.useCt
    ensures var w1, a := Run(w, evs, n, mc), evs[n].a;
            var v := Step(w1.dp, w1.m, a, mc).verdict;
            if Sendable(w1.m, id) && a.headroom >= IP_LEN then v.Tx? && v.realId == id else v == Drop
  {
    EntryLasts(w, evs, n, mc, f, c, id);
    var w1, a := Run(w, evs, n, mc), evs[n].a;
    assert CalmAt(w, evs, n, mc, f, c, id) && Possible(|w.dp.cpus|, evs[n]);
    StepTable(w1.dp, w1.m, a, mc);
    PickKeepsEntry(w1.dp.ct, StatsAt(w1.dp, w1.m, a, mc), w1.m, Asked(w1.m, a, mc).value, a, |w1.dp.cpus|, f, c, id);
    StepVerdict(w1.dp, w1.m, a, mc);
  }

  // ---- what never creates an entry

  /** ICMP messages, resets and VIPs without conntrack leave every flow's keys and reals as they were. */
  lemma NeverInserts(w: World, a: Arrival, mc: Machine, f: Flow, c: nat)
    requires WorldOk(w) && Possible(|w.dp.cpus|, Frame(a))
    requires Asked(w.m, a, mc).Some? ==> !Asked(w.m, a, mc).value.mayInsert || !Asked(w.m, a, mc).value.useCt
    ensures var ct, ct' := w.dp.ct, Next(w, Frame(a), mc).dp.ct;
            && (f in ct' <==> f in ct)
            && (f in ct && c < |ct[f]| ==> c < |ct'[f]| && ct'[f][c].realId == ct[f][c].realId)
            && (Tracked(Next(w, Frame(a), mc).dp, f, c) ==> Tracked(w.dp, f, c))
  {
    StepTable(w.dp, w.m, a, mc);
  }

  /** ICMP is never asked to insert, nor is a TCP segment with RST. */
  lemma IcmpAndRstMayNot(m: Maps, a: Arrival, mc: Machine)
    requires Asked(m, a, mc).Some?
    ensures Parse(a.frame, m.config.icmpPmtu, mc.endian).isIcmp
            ==> !Asked(m, a, mc).value.mayInsert && !Asked(m, a, mc).value.bareSyn
    ensures |a.frame| >= 54 && a.frame[23] == TCP && a.frame[47] / 4 % 2 == 1 ==> !Asked(m, a, mc).value.mayInsert
  {
    ParsedFacts(a.frame, m.config.icmpPmtu, mc.endian);
  }
}
