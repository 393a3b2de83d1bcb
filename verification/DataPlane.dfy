/** The XDP program on values: one packet is one step. */
module DataPlane {
  import opened Basics
  import opened Maps
  import opened Packet
  import opened Encap

  // ---- state

  /** One CPU's value of a connection table entry; `seen` is 0 for a copy the kernel zero-filled. */
  datatype Ct = Ct(realId: U32, vipId: nat, seen: nat)

  const NEVER: Ct := Ct(0, 0, 0)

  datatype Stats = Stats(packets: nat, bytes: nat, syn: nat, tx: nat, ctHit: nat, ctMiss: nat, hash: nat, dropMtu: nat,
                         dropNoReal: nat, dropAdjHead: nat, icmpFwd: nat)

  datatype Globals = Globals(pass: nat, short: nat, other: nat, options: nat, fragment: nat)

  datatype RealStats = RealStats(packets: nat, bytes: nat)

  /** One CPU's copy of the counters. */
  datatype Cpu = Cpu(global: Globals, vips: seq<Stats>, reals: seq<RealStats>)

  datatype Dp = Dp(ct: map<Flow, seq<Ct>>, cpus: seq<Cpu>)

  /** A frame on a CPU: the clock, the headroom of its buffer, and whether an insert would succeed. */
  datatype Arrival = Arrival(frame: seq<U8>, cpu: nat, now: nat, headroom: nat, stored: bool)

  /** The machine: its byte order and the flow hash. */
  datatype Machine = Machine(endian: Endian, hash: Flow -> U32)

  datatype Verdict = Tx(out: seq<U8>, realId: U32) | Drop | Pass

  ghost predicate CpuOk(c: Cpu) {
    |c.vips| == MAX_VIPS && |c.reals| == MAX_REALS
  }

  ghost predicate DpOk(dp: Dp) {
    && (forall c :: 0 <= c < |dp.cpus| ==> CpuOk(dp.cpus[c]))
    && (forall f :: f in dp.ct ==> |dp.ct[f]| == |dp.cpus|)
  }

  // ---- real selection

  function RingLookup(m: Maps, vipId: nat, hash: U32): (id: U32) {
    if vipId in m.rings && hash % RING_SIZE < |m.rings[vipId]| then m.rings[vipId][hash % RING_SIZE] else REAL_NONE
  }

  predicate RealAlive(m: Maps, id: U32) {
    id < MAX_REALS && id < |m.reals| && m.reals[id] != 0
  }

  /** This CPU's entry for the flow, if it is a hit. */
  predicate Hit(ct: map<Flow, seq<Ct>>, m: Maps, f: Flow, cpu: nat) {
    f in ct && cpu < |ct[f]| && ct[f][cpu].seen != 0 && RealAlive(m, ct[f][cpu].realId)
  }

  /** Writing this CPU's value; a new key gets zero-filled values for the other CPUs. */
  function Insert(ct: map<Flow, seq<Ct>>, f: Flow, cpu: nat, ncpus: nat, v: Ct): (ct': map<Flow, seq<Ct>>)
    requires cpu < ncpus && (f in ct ==> |ct[f]| == ncpus)
  {
    var copies := if f in ct then ct[f] else seq(ncpus, i => NEVER);
    ct[f := copies[cpu := v]]
  }

  /** What is asked of pick_real. */
  datatype Query = Query(flow: Flow, vipId: nat, hash: U32, useCt: bool, bareSyn: bool, mayInsert: bool)

  datatype Picked = Picked(realId: U32, ct: map<Flow, seq<Ct>>, stats: Stats)

  function PickReal(ct: map<Flow, seq<Ct>>, st: Stats, m: Maps, q: Query, a: Arrival, ncpus: nat): (r: Picked)
    requires a.cpu < ncpus && (q.flow in ct ==> |ct[q.flow]| == ncpus)
  {
    if !q.useCt then
      Picked(RingLookup(m, q.vipId, q.hash), ct, st.(hash := st.hash + 1))
    else if !q.bareSyn && Hit(ct, m, q.flow, a.cpu) then
      var v := ct[q.flow][a.cpu];
      Picked(v.realId, Insert(ct, q.flow, a.cpu, ncpus, v.(seen := a.now)), st.(ctHit := st.ctHit + 1))
    else
      var st1 := if q.bareSyn then st else st.(ctMiss := st.ctMiss + 1);
      var st2 := st1.(hash := st1.hash + 1);
      var id := RingLookup(m, q.vipId, q.hash);
      if id == REAL_NONE || !q.mayInsert || !a.stored then Picked(id, ct, st2)
      else Picked(id, Insert(ct, q.flow, a.cpu, ncpus, Ct(id, q.vipId, a.now)), st2)
  }

  // ---- forwarding

  /** The address and MAC a packet can be sent to. */
  predicate Sendable(m: Maps, id: U32) {
    RealAlive(m, id) && id < |m.neigh| && m.neigh[id] != NO_MAC
  }

  function QueryOf(m: Maps, p: Parsed, vip: VipValue, hash: U32): (q: Query)
    requires p.Packet?
  {
    Query(p.flow, vip.id, hash, !m.config.noConntrack && !vip.noConntrack, p.bareSyn, p.mayInsert)
  }

  function JobOf(m: Maps, p: Parsed, id: U32, hash: U32, e: Endian): (j: Job)
    requires p.Packet? && Sendable(m, id)
  {
    Job(m.reals[id], m.neigh[id], m.config, hash, p.len, p.tos, e)
  }

  /** forward, for one VIP: the table, that VIP's counters, and the verdict. */
  datatype Sent = Sent(ct: map<Flow, seq<Ct>>, stats: Stats, verdict: Verdict)

  function Arrived(st: Stats, p: Parsed): (st': Stats)
    requires p.Packet?
  {
    st.(packets := st.packets + 1, bytes := st.bytes + p.len, syn := st.syn + if p.bareSyn then 1 else 0)
  }

  /** The picked real looked up, the packet encapsulated and counted. */
  ghost function Emit(pick: Picked, m: Maps, p: Parsed, a: Arrival, hash: U32, e: Endian): (r: Sent)
    requires p.Packet? && |a.frame| >= ETH_LEN && p.len + IP_LEN <= MAX_PACKET
  {
    var st := pick.stats;
    if !Sendable(m, pick.realId) then Sent(pick.ct, st.(dropNoReal := st.dropNoReal + 1), Drop)
    else if a.headroom < IP_LEN then Sent(pick.ct, st.(dropAdjHead := st.dropAdjHead + 1), Drop)
    else Sent(pick.ct, st.(tx := st.tx + 1, icmpFwd := st.icmpFwd + if p.isIcmp then 1 else 0),
              Tx(Encapsulated(a.frame, JobOf(m, p, pick.realId, hash, e)), pick.realId))
  }

  ghost function Forward(ct: map<Flow, seq<Ct>>, st: Stats, m: Maps, p: Parsed, vip: VipValue, a: Arrival, ncpus: nat,
                         mc: Machine): (r: Sent)
    requires p.Packet? && |a.frame| >= ETH_LEN && a.cpu < ncpus && (p.flow in ct ==> |ct[p.flow]| == ncpus)
  {
    var hash := mc.hash(p.flow);
    var st1 := Arrived(st, p);
    if p.len + IP_LEN > MAX_PACKET then Sent(ct, st1.(dropMtu := st1.dropMtu + 1), Drop) else
      Emit(PickReal(ct, st1, m, QueryOf(m, p, vip, hash), a, ncpus), m, p, a, hash, mc.endian)
  }

  // ---- the program

  function CountBad(g: Globals, why: Count): (g': Globals) {
    match why
    case Short => g.(short := g.short + 1)
    case OtherIp => g.(other := g.other + 1)
    case Options => g.(options := g.options + 1)
    case Fragment => g.(fragment := g.fragment + 1)
  }

  function CountReal(c: Cpu, id: U32, len: nat): (c': Cpu) {
    if id < |c.reals| then c.(reals := c.reals[id := RealStats(c.reals[id].packets + 1, c.reals[id].bytes + len)])
      else c
  }

  datatype Stepped = Stepped(dp: Dp, verdict: Verdict)

  ghost function Balance(dp: Dp, m: Maps, p: Parsed, vip: VipValue, a: Arrival, mc: Machine): (r: Stepped)
    requires p.Packet? && |a.frame| >= ETH_LEN && a.cpu < |dp.cpus| && DpOk(dp) && vip.id < MAX_VIPS
  {
    var c := dp.cpus[a.cpu];
    var s := Forward(dp.ct, c.vips[vip.id], m, p, vip, a, |dp.cpus|, mc);
    var c1 := c.(vips := c.vips[vip.id := s.stats]);
    var c2 := if s.verdict.Tx? then CountReal(c1, s.verdict.realId, p.len) else c1;
    Stepped(Dp(s.ct, dp.cpus[a.cpu := c2]), s.verdict)
  }

  /** xdp_packetbalance on one frame. The VIP map holds only ids below MAX_VIPS. */
  ghost function Step(dp: Dp, m: Maps, a: Arrival, mc: Machine): (r: Stepped)
    requires a.cpu < |dp.cpus| && DpOk(dp) && forall k :: k in m.vipMap ==> m.vipMap[k].id < MAX_VIPS
  {
    var p := Parse(a.frame, m.config.icmpPmtu, mc.endian);
    var c := dp.cpus[a.cpu];
    if p.Bad? then Stepped(dp.(cpus := dp.cpus[a.cpu := c.(global := CountBad(c.global, p.why))]), Drop)
    else if p.Host? || KeyOf(p.flow) !in m.vipMap then
      Stepped(dp.(cpus := dp.cpus[a.cpu := c.(global := c.global.(pass := c.global.pass + 1))]), Pass)
    else
      ParsedFacts(a.frame, m.config.icmpPmtu, mc.endian);
      Balance(dp, m, p, m.vipMap[KeyOf(p.flow)], a, mc)
  }

  lemma PickKeepsTable(ct: map<Flow, seq<Ct>>, st: Stats, m: Maps, q: Query, a: Arrival, ncpus: nat)
    requires a.cpu < ncpus && forall f :: f in ct ==> |ct[f]| == ncpus
    ensures forall f :: f in PickReal(ct, st, m, q, a, ncpus).ct ==> |PickReal(ct, st, m, q, a, ncpus).ct[f]| == ncpus
  {
  }

  lemma StepKeepsShape(dp: Dp, m: Maps, a: Arrival, mc: Machine)
    requires a.cpu < |dp.cpus| && DpOk(dp) && forall k :: k in m.vipMap ==> m.vipMap[k].id < MAX_VIPS
    ensures DpOk(Step(dp, m, a, mc).dp) && |Step(dp, m, a, mc).dp.cpus| == |dp.cpus|
  {
    var p := Parse(a.frame, m.config.icmpPmtu, mc.endian);
    if p.Packet? && KeyOf(p.flow) in m.vipMap {
      var vip, c := m.vipMap[KeyOf(p.flow)], dp.cpus[a.cpu];
      PickKeepsTable(dp.ct, Arrived(c.vips[vip.id], p), m, QueryOf(m, p, vip, mc.hash(p.flow)), a, |dp.cpus|);
    }
  }

  // ---- what a step does to the table

  /** The question this frame puts to pick_real, if it gets that far. */
  function Asked(m: Maps, a: Arrival, mc: Machine): (q: Option<Query>) {
    var p := Parse(a.frame, m.config.icmpPmtu, mc.endian);
    if p.Packet? && KeyOf(p.flow) in m.vipMap && p.len + IP_LEN <= MAX_PACKET
    then Some(QueryOf(m, p, m.vipMap[KeyOf(p.flow)], mc.hash(p.flow))) else None
  }

  /** This CPU's counters of the VIP, once the packet has been counted in. */
  ghost function StatsAt(dp: Dp, m: Maps, a: Arrival, mc: Machine): (st: Stats)
    requires a.cpu < |dp.cpus| && DpOk(dp) && Asked(m, a, mc).Some? && Asked(m, a, mc).value.vipId < MAX_VIPS
  {
    Arrived(dp.cpus[a.cpu].vips[Asked(m, a, mc).value.vipId], Parse(a.frame, m.config.icmpPmtu, mc.endian))
  }

  ghost function PickAt(dp: Dp, m: Maps, a: Arrival, mc: Machine): (r: Picked)
    requires a.cpu < |dp.cpus| && DpOk(dp) && Asked(m, a, mc).Some? && Asked(m, a, mc).value.vipId < MAX_VIPS
  {
    PickReal(dp.ct, StatsAt(dp, m, a, mc), m, Asked(m, a, mc).value, a, |dp.cpus|)
  }

  /** The table after a step is the table after its pick. */
  lemma StepTable(dp: Dp, m: Maps, a: Arrival, mc: Machine)
    requires a.cpu < |dp.cpus| && DpOk(dp) && forall k :: k in m.vipMap ==> m.vipMap[k].id < MAX_VIPS
    ensures Asked(m, a, mc).Some? ==> Asked(m, a, mc).value.vipId < MAX_VIPS
                                      && Step(dp, m, a, mc).dp.ct == PickAt(dp, m, a, mc).ct
    ensures Asked(m, a, mc).None? ==> Step(dp, m, a, mc).dp.ct == dp.ct
  {
  }

  /** What a picked real means for the packet. */
  lemma StepVerdict(dp: Dp, m: Maps, a: Arrival, mc: Machine)
    requires a.cpu < |dp.cpus| && DpOk(dp) && forall k :: k in m.vipMap ==> m.vipMap[k].id < MAX_VIPS
    requires Asked(m, a, mc).Some? && Asked(m, a, mc).value.vipId < MAX_VIPS
    ensures |a.frame| >= ETH_LEN
    ensures var id, p := PickAt(dp, m, a, mc).realId, Parse(a.frame, m.config.icmpPmtu, mc.endian);
            Step(dp, m, a, mc).verdict
            == if Sendable(m, id) && a.headroom >= IP_LEN then Tx(Encapsulated(a.frame,
               JobOf(m, p, id, mc.hash(p.flow), mc.endian)), id)
               else Drop
  {
    ParsedFacts(a.frame, m.config.icmpPmtu, mc.endian);
  }
}
