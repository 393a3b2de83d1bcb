/**
 The XDP program as it runs: the connection table and this CPU's counters updated in place, the
 frame rewritten in its buffer. Each method does what the function of the same name says.
 */
module Xdp {
  import opened Basics
  import opened Maps
  import opened Packet
  import opened Encap
  import opened DataPlane

  datatype Action = XdpTx | XdpDrop | XdpPass

  class Program {
    const kernel: Kernel
    const machine: Machine
    var ct: map<Flow, seq<Ct>>
    var cpus: seq<Cpu>

    ghost function View(): (dp: Dp)
      reads this
    {
      Dp(ct, cpus)
    }

    ghost predicate Valid()
      reads this, kernel
    {
      DpOk(View()) && forall k :: k in kernel.maps.vipMap ==> kernel.maps.vipMap[k].id < MAX_VIPS
    }

    constructor (k: Kernel, mc: Machine, counters: seq<Cpu>)
      requires (forall c :: 0 <= c < |counters| ==> CpuOk(counters[c]))
      requires forall j :: j in k.maps.vipMap ==> k.maps.vipMap[j].id < MAX_VIPS
      ensures Valid() && kernel == k && machine == mc && View() == Dp(map[], counters)
    {
      kernel, machine, ct, cpus := k, mc, map[], counters;
    }

    /** This CPU's counters of one VIP. */
    method SetStats(cpu: nat, v: nat, st: Stats)
      requires cpu < |cpus| && v < |cpus[cpu].vips|
      modifies this`cpus
      ensures cpus == old(cpus)[cpu := old(cpus)[cpu].(vips := old(cpus)[cpu].vips[v := st])]
    {
      cpus := cpus[cpu := cpus[cpu].(vips := cpus[cpu].vips[v := st])];
    }

    method SetGlobals(cpu: nat, g: Globals)
      requires cpu < |cpus|
      modifies this`cpus
      ensures cpus == old(cpus)[cpu := old(cpus)[cpu].(global := g)]
    {
      cpus := cpus[cpu := cpus[cpu].(global := g)];
    }

    /** pick_real; `st` is the VIP's counters with this packet counted in. */
    method PickReal(q: Query, st: Stats, cpu: nat, now: nat, stored: bool, ghost a: Arrival) returns (id: U32,
                    counted: Stats)
      requires Valid() && cpu < |cpus| && a.cpu == cpu && a.now == now && a.stored == stored
      modifies this`ct
      ensures var r := DataPlane.PickReal(old(ct), st, kernel.maps, q, a, |cpus|);
              id == r.realId && ct == r.ct && counted == r.stats
    {
      counted := st;
      if !q.useCt {
        counted := counted.(hash := counted.hash + 1);
        id := RingLookup(kernel.maps, q.vipId, q.hash);
        return;
      }
      if !q.bareSyn {
        if Hit(ct, kernel.maps, q.flow, cpu) {
          id := ct[q.flow][cpu].realId;
          ct := ct[q.flow := ct[q.flow][cpu := ct[q.flow][cpu].(seen := now)]];
          counted := counted.(ctHit := counted.ctHit + 1);
          return;
        }
        counted := counted.(ctMiss := counted.ctMiss + 1);
      }
      counted := counted.(hash := counted.hash + 1);
      id := RingLookup(kernel.maps, q.vipId, q.hash);
      if id == REAL_NONE || !q.mayInsert {
        return;
      }
      if stored {
        ct := Insert(ct, q.flow, cpu, |cpus|, Ct(id, q.vipId, now));
      }
    }

    ghost function ArrivalOf(pkt: Buffer, cpu: nat, now: nat, stored: bool): (a: Arrival)
      requires pkt.Valid()
      reads pkt, pkt.bytes
    {
      Arrival(pkt.Data(), cpu, now, pkt.start, stored)
    }

    /** forward: count, check the length, pick, look the real up, encapsulate, count. */
    method Forward(pkt: Buffer, p: Parsed, vip: VipValue, cpu: nat, now: nat, stored: bool) returns (action: Action,
                   id: U32)
      requires Valid() && pkt.Valid() && p.Packet? && cpu < |cpus| && vip.id < MAX_VIPS
               && pkt.end - pkt.start >= ETH_LEN
      modifies this, pkt, pkt.bytes
      ensures pkt.Valid()
      ensures var r := DataPlane.Forward(old(ct), old(cpus)[cpu].vips[vip.id], kernel.maps, p, vip,
                                         old(ArrivalOf(pkt, cpu, now, stored)), |old(cpus)|, machine);
              && ct == r.ct && cpus == old(cpus)[cpu := old(cpus)[cpu].(vips := old(cpus)[cpu].vips[vip.id := r.stats])]
              && (action == XdpTx <==> r.verdict.Tx?) && (action == XdpDrop <==> r.verdict.Drop?)
              && (r.verdict.Tx? ==> id == r.verdict.realId && pkt.Data() == r.verdict.out)
              && (!r.verdict.Tx? ==> pkt.Data() == old(pkt.Data()))
    {
      ghost var a := ArrivalOf(pkt, cpu, now, stored);
      var m := kernel.maps;
      var hash := machine.hash(p.flow);
      var st := Arrived(cpus[cpu].vips[vip.id], p);
      if p.len + IP_LEN > MAX_PACKET {
        SetStats(cpu, vip.id, st.(dropMtu := st.dropMtu + 1));
        return XdpDrop, REAL_NONE;
      }
      id, st := PickReal(QueryOf(m, p, vip, hash), st, cpu, now, stored, a);
      action := Emit(pkt, p, id, st, hash, cpu, vip.id, a);
    }

    /** The picked real looked up, the packet encapsulated and counted. */
    method Emit(pkt: Buffer, p: Parsed, id: U32, st: Stats, hash: U32, cpu: nat, v: nat, ghost a: Arrival)
        returns (action: Action)
      requires pkt.Valid() && p.Packet? && p.len + IP_LEN <= MAX_PACKET && pkt.end - pkt.start >= ETH_LEN
      requires cpu < |cpus| && v < |cpus[cpu].vips| && a.frame == pkt.Data() && a.headroom == pkt.start
      modifies this`cpus, pkt, pkt.bytes
      ensures pkt.Valid()
      ensures var r := DataPlane.Emit(Picked(id, ct, st), kernel.maps, p, a, hash, machine.endian);
              && cpus == old(cpus)[cpu := old(cpus)[cpu].(vips := old(cpus)[cpu].vips[v := r.stats])]
              && action == (if r.verdict.Tx? then XdpTx else XdpDrop)
              && pkt.Data() == if r.verdict.Tx? then r.verdict.out else old(pkt.Data())
    {
      var m := kernel.maps;
      if !Sendable(m, id) {
        SetStats(cpu, v, st.(dropNoReal := st.dropNoReal + 1));
        return XdpDrop;
      }
      var ok := pkt.EncapIpip(JobOf(m, p, id, hash, machine.endian));
      if !ok {
        SetStats(cpu, v, st.(dropAdjHead := st.dropAdjHead + 1));
        return XdpDrop;
      }
      SetStats(cpu, v, st.(tx := st.tx + 1, icmpFwd := st.icmpFwd + if p.isIcmp then 1 else 0));
      return XdpTx;
    }

    /** xdp_packetbalance. */
    method Run(pkt: Buffer, cpu: nat, now: nat, stored: bool) returns (action: Action)
      requires Valid() && pkt.Valid() && cpu < |cpus|
      modifies this, pkt, pkt.bytes
      ensures Valid() && pkt.Valid()
      ensures var r := Step(old(View()), kernel.maps, old(ArrivalOf(pkt, cpu, now, stored)), machine);
              && View() == r.dp
              && (action == XdpTx <==> r.verdict.Tx?) && (action == XdpDrop <==> r.verdict.Drop?)
              && (action == XdpPass <==> r.verdict.Pass?)
              && pkt.Data() == if r.verdict.Tx? then r.verdict.out else old(pkt.Data())
    {
      ghost var a := ArrivalOf(pkt, cpu, now, stored);
      StepKeepsShape(View(), kernel.maps, a, machine);
      var m := kernel.maps;
      var p := Parse(pkt.bytes[pkt.start..pkt.end], m.config.icmpPmtu, machine.endian);
      var g := cpus[cpu].global;
      if p.Bad? {
        SetGlobals(cpu, CountBad(g, p.why));
        return XdpDrop;
      }
      if p.Host? || KeyOf(p.flow) !in m.vipMap {
        SetGlobals(cpu, g.(pass := g.pass + 1));
        return XdpPass;
      }
      ParsedFacts(a.frame, m.config.icmpPmtu, machine.endian);
      action := Balance(pkt, p, m.vipMap[KeyOf(p.flow)], cpu, now, stored);
    }

    /** A packet of a VIP: forwarded, and counted for its real if it went out. */
    method Balance(pkt: Buffer, p: Parsed, vip: VipValue, cpu: nat, now: nat, stored: bool) returns (action: Action)
      requires Valid() && pkt.Valid() && p.Packet? && cpu < |cpus| && vip.id < MAX_VIPS
               && pkt.end - pkt.start >= ETH_LEN
      modifies this, pkt, pkt.bytes
      ensures pkt.Valid()
      ensures var r := DataPlane.Balance(old(View()), kernel.maps, p, vip, old(ArrivalOf(pkt, cpu, now, stored)),
              machine);
              && View() == r.dp && action == (if r.verdict.Tx? then XdpTx else XdpDrop)
              && pkt.Data() == if r.verdict.Tx? then r.verdict.out else old(pkt.Data())
    {
      var id;
      action, id := Forward(pkt, p, vip, cpu, now, stored);
      if action == XdpTx {
        cpus := cpus[cpu := CountReal(cpus[cpu], id, p.len)];
      }
    }
  }
}
