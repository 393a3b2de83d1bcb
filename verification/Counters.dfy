/** Counter conservation: no frame is lost or counted twice, on any number of CPUs. */
module Counters {
  import opened Basics
  import opened Maps
  import opened Packet
  import opened Encap
  import opened DataPlane
  import opened Flows

  ghost function PacketsOf(vips: seq<Stats>): (s: seq<nat>) {
    seq(|vips|, i requires 0 <= i < |vips| => vips[i].packets)
  }

  ghost function TxOf(vips: seq<Stats>): (s: seq<nat>) {
    seq(|vips|, i requires 0 <= i < |vips| => vips[i].tx)
  }

  ghost function SentTo(reals: seq<RealStats>): (s: seq<nat>) {
    seq(|reals|, i requires 0 <= i < |reals| => reals[i].packets)
  }

  /** Every packet of a VIP was sent or dropped for one reason, and all but the too long ones were placed. */
  ghost predicate VipBalanced(st: Stats) {
    && st.packets == st.tx + st.dropMtu + st.dropNoReal + st.dropAdjHead
    && st.packets == st.dropMtu + st.ctHit + st.hash
  }

  /** Every frame was passed, dropped for one reason or counted for one VIP; every one sent, for one real. */
  ghost predicate Balanced(c: Cpu, frames: nat) {
    && CpuOk(c)
    && frames == c.global.pass + c.global.short + c.global.other + c.global.options + c.global.fragment
       + Sum(PacketsOf(c.vips))
    && (forall v :: 0 <= v < MAX_VIPS ==> VipBalanced(c.vips[v]))
    && Sum(SentTo(c.reals)) == Sum(TxOf(c.vips))
  }

  // ---- one step

  /** pick_real counts a hit or a hash, one of them, and nothing that decides the balance otherwise. */
  lemma PickCounts(ct: map<Flow, seq<Ct>>, st: Stats, m: Maps, q: Query, a: Arrival, ncpus: nat)
    requires a.cpu < ncpus && (q.flow in ct ==> |ct[q.flow]| == ncpus)
    ensures var st' := PickReal(ct, st, m, q, a, ncpus).stats;
            && st'.ctHit + st'.hash == st.ctHit + st.hash + 1
            && st' == st.(ctHit := st'.ctHit, ctMiss := st'.ctMiss, hash := st'.hash)
  {
  }

  lemma ForwardBalances(ct: map<Flow, seq<Ct>>, st: Stats, m: Maps, p: Parsed, vip: VipValue, a: Arrival, ncpus: nat,
                        mc: Machine)
    requires p.Packet? && |a.frame| >= ETH_LEN && a.cpu < ncpus && (p.flow in ct ==> |ct[p.flow]| == ncpus)
             && VipBalanced(st)
    ensures var r := Forward(ct, st, m, p, vip, a, ncpus, mc);
            && VipBalanced(r.stats) && r.stats.packets == st.packets + 1
            && r.stats.tx == st.tx + (if r.verdict.Tx? then 1 else 0)
               && (r.verdict.Tx? ==> r.verdict.realId < MAX_REALS)
  {
    var q := QueryOf(m, p, vip, mc.hash(p.flow));
    PickCounts(ct, Arrived(st, p), m, q, a, ncpus);
    var pick := PickReal(ct, Arrived(st, p), m, q, a, ncpus);
    if p.len + IP_LEN <= MAX_PACKET && Sendable(m, pick.realId) {
      assert RealAlive(m, pick.realId);
    }
  }

  lemma CountedIn(vips: seq<Stats>, v: nat, st: Stats, more: nat)
    requires v < |vips| && st.packets == vips[v].packets + 1 && st.tx == vips[v].tx + more
    ensures Sum(PacketsOf(vips[v := st])) == Sum(PacketsOf(vips)) + 1
    ensures Sum(TxOf(vips[v := st])) == Sum(TxOf(vips)) + more
  {
    SumUpdate(PacketsOf(vips), v, 1);
    assert PacketsOf(vips[v := st]) == PacketsOf(vips)[v := PacketsOf(vips)[v] + 1];
    SumUpdate(TxOf(vips), v, more);
    assert TxOf(vips[v := st]) == TxOf(vips)[v := TxOf(vips)[v] + more];
  }

  lemma CountedOut(reals: seq<RealStats>, id: nat, r: RealStats)
    requires id < |reals| && r.packets == reals[id].packets + 1
    ensures Sum(SentTo(reals[id := r])) == Sum(SentTo(reals)) + 1
  {
    SumUpdate(SentTo(reals), id, 1);
    assert SentTo(reals[id := r]) == SentTo(reals)[id := SentTo(reals)[id] + 1];
  }

  /** One VIP's counters and, if the packet went out, one real's. */
  lemma Recorded(c: Cpu, frames: nat, v: nat, st: Stats, sent: Option<U32>, len: nat)
    requires Balanced(c, frames) && v < MAX_VIPS && VipBalanced(st) && (sent.Some? ==> sent.value < MAX_REALS)
    requires st.packets == c.vips[v].packets + 1 && st.tx == c.vips[v].tx + (if sent.Some? then 1 else 0)
    ensures var c1 := c.(vips := c.vips[v := st]);
            Balanced(if sent.Some? then CountReal(c1, sent.value, len) else c1, frames + 1)
  {
    CountedIn(c.vips, v, st, if sent.Some? then 1 else 0);
    if sent.Some? {
      CountedOut(c.reals, sent.value, RealStats(c.reals[sent.value].packets + 1, c.reals[sent.value].bytes + len));
    }
  }

  lemma BalanceBalances(dp: Dp, m: Maps, p: Parsed, vip: VipValue, a: Arrival, mc: Machine, frames: nat)
    requires p.Packet? && |a.frame| >= ETH_LEN && a.cpu < |dp.cpus| && DpOk(dp) && vip.id < MAX_VIPS
    requires Balanced(dp.cpus[a.cpu], frames)
    ensures Balanced(Balance(dp, m, p, vip, a, mc).dp.cpus[a.cpu], frames + 1)
  {
    var c := dp.cpus[a.cpu];
    ForwardBalances(dp.ct, c.vips[vip.id], m, p, vip, a, |dp.cpus|, mc);
    var s := Forward(dp.ct, c.vips[vip.id], m, p, vip, a, |dp.cpus|, mc);
    Recorded(c, frames, vip.id, s.stats, if s.verdict.Tx? then Some(s.verdict.realId) else None, p.len);
  }

  lemma StepBalances(dp: Dp, m: Maps, a: Arrival, mc: Machine, frames: nat)
    requires a.cpu < |dp.cpus| && DpOk(dp) && IdsInRange(m) && Balanced(dp.cpus[a.cpu], frames)
    ensures |Step(dp, m, a, mc).dp.cpus| == |dp.cpus| && Balanced(Step(dp, m, a, mc).dp.cpus[a.cpu], frames + 1)
    ensures forall c :: 0 <= c < |dp.cpus| && c != a.cpu ==> Step(dp, m, a, mc).dp.cpus[c] == dp.cpus[c]
  {
    var p := Parse(a.frame, m.config.icmpPmtu, mc.endian);
    if p.Packet? && KeyOf(p.flow) in m.vipMap {
      ParsedFacts(a.frame, m.config.icmpPmtu, mc.endian);
      BalanceBalances(dp, m, p, m.vipMap[KeyOf(p.flow)], a, mc, frames);
    }
  }

  // ---- whole runs

  function FramesOn(evs: seq<Event>, n: nat, c: nat): (k: nat)
    requires n <= |evs|
  {
    if n == 0 then 0 else FramesOn(evs, n - 1, c) + if evs[n - 1].Frame? && evs[n - 1].a.cpu == c then 1 else 0
  }

  ghost predicate AllBalanced(w: World, evs: seq<Event>, n: nat)
    requires n <= |evs|
  {
    forall c :: 0 <= c < |w.dp.cpus| ==> Balanced(w.dp.cpus[c], FramesOn(evs, n, c))
  }

  lemma NextBalances(w: World, evs: seq<Event>, m: nat, mc: Machine)
    requires WorldOk(w) && m < |evs| && Possible(|w.dp.cpus|, evs[m]) && AllBalanced(w, evs, m)
    ensures AllBalanced(Next(w, evs[m], mc), evs, m + 1)
  {
    if evs[m].Frame? {
      StepBalances(w.dp, w.m, evs[m].a, mc, FramesOn(evs, m, evs[m].a.cpu));
    }
  }

  /** On every CPU, after every run: all frames are accounted for. */
  lemma {:induction false} Conservation(w: World, evs: seq<Event>, n: nat, mc: Machine)
    requires WorldOk(w) && n <= |evs| && AllPossible(|w.dp.cpus|, evs) && AllBalanced(w, evs, 0)
    ensures AllBalanced(Run(w, evs, n, mc), evs, n)
  {
    if n > 0 {
      var m := n - 1;
      assert m + 1 == n;
      Conservation(w, evs, m, mc);
      RunNext(w, evs, m, mc);
      assert Possible(|w.dp.cpus|, evs[m]);
      NextBalances(Run(w, evs, m, mc), evs, m, mc);
    }
  }

  // ---- the sums the control plane reads

  function AddStats(a: Stats, b: Stats): (s: Stats) {
    Stats(a.packets + b.packets, a.bytes + b.bytes, a.syn + b.syn, a.tx + b.tx, a.ctHit + b.ctHit, a.ctMiss + b.ctMiss,
          a.hash + b.hash, a.dropMtu + b.dropMtu, a.dropNoReal + b.dropNoReal, a.dropAdjHead + b.dropAdjHead,
            a.icmpFwd + b.icmpFwd)
  }

  function AddGlobals(a: Globals, b: Globals): (g: Globals) {
    Globals(a.pass + b.pass, a.short + b.short, a.other + b.other, a.options + b.options, a.fragment + b.fragment)
  }

  function AddCpu(a: Cpu, b: Cpu): (c: Cpu)
    requires |a.vips| == |b.vips| && |a.reals| == |b.reals|
  {
    Cpu(AddGlobals(a.global, b.global), seq(|a.vips|, i requires 0 <= i < |a.vips| => AddStats(a.vips[i], b.vips[i])),
        seq(|a.reals|, i requires 0 <= i < |a.reals| =>
          RealStats(a.reals[i].packets + b.reals[i].packets, a.reals[i].bytes + b.reals[i].bytes)))
  }

  const NO_STATS: Stats := Stats(0, 0, 0, 0, 0, 0, 0, 0, 0, 0, 0)

  const NO_GLOBALS: Globals := Globals(0, 0, 0, 0, 0)

  /** One row of the stats map: a VIP's, the global one, or an index past the end, which reads as zeros. */
  datatype Row = VipRow(vip: Stats) | GlobalRow(global: Globals) | NoRow

  /** PB_STATS_GLOBAL: the row after the last VIP's. */
  const GLOBAL_ROW: nat := MAX_VIPS

  function RowAt(c: Cpu, index: nat): (r: Row)
    requires CpuOk(c)
  {
    if index < MAX_VIPS then VipRow(c.vips[index]) else if index == GLOBAL_ROW then GlobalRow(c.global) else NoRow
  }

  function ZeroRow(index: nat): (r: Row) {
    if index < MAX_VIPS then VipRow(NO_STATS) else if index == GLOBAL_ROW then GlobalRow(NO_GLOBALS) else NoRow
  }

  function AddRows(a: Row, b: Row): (r: Row) {
    match (a, b)
    case (VipRow(x), VipRow(y)) => VipRow(AddStats(x, y))
    case (GlobalRow(x), GlobalRow(y)) => GlobalRow(AddGlobals(x, y))
    case _ => NoRow
  }

  /** The counters of the first n CPUs, added up. */
  ghost function Totals(cpus: seq<Cpu>, n: nat): (c: Cpu)
    requires 1 <= n <= |cpus| && forall i :: 0 <= i < |cpus| ==> CpuOk(cpus[i])
    ensures CpuOk(c)
  {
    if n == 1 then cpus[0] else AddCpu(Totals(cpus, n - 1), cpus[n - 1])
  }

  lemma TotalsNext(cpus: seq<Cpu>, m: nat)
    requires 1 <= m < |cpus| && forall i :: 0 <= i < |cpus| ==> CpuOk(cpus[i])
    ensures Totals(cpus, m + 1) == AddCpu(Totals(cpus, m), cpus[m])
  {
  }

  lemma {:induction false} SumAdds(a: seq<nat>, b: seq<nat>, ab: seq<nat>)
    requires |a| == |b| == |ab| && forall i :: 0 <= i < |a| ==> ab[i] == a[i] + b[i]
    ensures Sum(ab) == Sum(a) + Sum(b)
  {
    if |a| > 0 {
      SumAdds(a[..|a| - 1], b[..|a| - 1], ab[..|a| - 1]);
    }
  }

  lemma BalancedAdds(a: Cpu, b: Cpu, fa: nat, fb: nat)
    requires Balanced(a, fa) && Balanced(b, fb)
    ensures Balanced(AddCpu(a, b), fa + fb)
  {
    var c := AddCpu(a, b);
    SumAdds(PacketsOf(a.vips), PacketsOf(b.vips), PacketsOf(c.vips));
    SumAdds(TxOf(a.vips), TxOf(b.vips), TxOf(c.vips));
    SumAdds(SentTo(a.reals), SentTo(b.reals), SentTo(c.reals));
    forall v | 0 <= v < MAX_VIPS
      ensures VipBalanced(c.vips[v])
    {
      assert VipBalanced(a.vips[v]) && VipBalanced(b.vips[v]);
    }
  }

  function FramesUpTo(evs: seq<Event>, n: nat, cpus: nat): (k: nat)
    requires n <= |evs|
  {
    if cpus == 0 then 0 else FramesUpTo(evs, n, cpus - 1) + FramesOn(evs, n, cpus - 1)
  }

  /** What the control plane adds up over the CPUs is balanced too, for the frames of all CPUs together. */
  lemma {:induction false} TotalsBalance(w: World, evs: seq<Event>, n: nat, cpus: nat)
    requires WorldOk(w) && n <= |evs| && AllBalanced(w, evs, n) && 1 <= cpus <= |w.dp.cpus|
    ensures Balanced(Totals(w.dp.cpus, cpus), FramesUpTo(evs, n, cpus))
  {
    var m := cpus - 1;
    assert m + 1 == cpus;
    assert Balanced(w.dp.cpus[m], FramesOn(evs, n, m));
    if m > 0 {
      TotalsBalance(w, evs, n, m);
      BalancedAdds(Totals(w.dp.cpus, m), w.dp.cpus[m], FramesUpTo(evs, n, m), FramesOn(evs, n, m));
      TotalsNext(w.dp.cpus, m);
    }
  }

  /** Every frame is on one of the CPUs. */
  lemma {:induction false} FramesAdd(evs: seq<Event>, n: nat, cpus: nat)
    requires n <= |evs| && AllPossible(cpus, evs)
    ensures FramesUpTo(evs, n, cpus) == FrameCount(evs, n)
  {
    if n == 0 {
      NoFrames(evs, cpus);
    } else {
      FramesAdd(evs, n - 1, cpus);
      assert Possible(cpus, evs[n - 1]);
      OneMoreFrame(evs, n, cpus);
    }
  }

  function FrameCount(evs: seq<Event>, n: nat): (k: nat)
    requires n <= |evs|
  {
    if n == 0 then 0 else FrameCount(evs, n - 1) + if evs[n - 1].Frame? then 1 else 0
  }

  lemma {:induction false} NoFrames(evs: seq<Event>, cpus: nat)
    ensures FramesUpTo(evs, 0, cpus) == 0
  {
    if cpus > 0 {
      NoFrames(evs, cpus - 1);
    }
  }

  lemma {:induction false} OneMoreFrame(evs: seq<Event>, n: nat, cpus: nat)
    requires 0 < n <= |evs|
    ensures FramesUpTo(evs, n, cpus)
         == FramesUpTo(evs, n - 1, cpus) + (if evs[n - 1].Frame? && evs[n - 1].a.cpu < cpus then 1 else 0)
  {
    if cpus > 0 {
      OneMoreFrame(evs, n, cpus - 1);
    }
  }

  lemma RowsAdd(a: Cpu, b: Cpu, index: nat)
    requires CpuOk(a) && CpuOk(b)
    ensures RowAt(AddCpu(a, b), index) == AddRows(RowAt(a, index), RowAt(b, index))
  {
  }

  lemma NothingAdded(index: nat, c: Cpu)
    requires CpuOk(c)
    ensures AddRows(ZeroRow(index), RowAt(c, index)) == RowAt(c, index)
  {
  }

  /** MapReader::counters: one row added up over the CPUs. */
  method ReadCounters(cpus: seq<Cpu>, index: nat) returns (r: Row)
    requires cpus != [] && forall i :: 0 <= i < |cpus| ==> CpuOk(cpus[i])
    ensures r == RowAt(Totals(cpus, |cpus|), index)
  {
    r := ZeroRow(index);
    for i := 0 to |cpus|
      invariant r == if i == 0 then ZeroRow(index) else RowAt(Totals(cpus, i), index)
    {
      if i == 0 {
        NothingAdded(index, cpus[0]);
      } else {
        RowsAdd(Totals(cpus, i), cpus[i], index);
        TotalsNext(cpus, i);
      }
      r := AddRows(r, RowAt(cpus[i], index));
    }
  }
}
