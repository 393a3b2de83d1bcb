/** The calls a running daemon serves, and runs of them. */
module Calls {
  import opened Basics
  import opened BuildMaglev
  import opened Maps
  import opened Reals
  import opened Control

  datatype Op =
    | AddVipOp(k: VipSpec, noConntrack: bool)
    | DelVipOp(k: VipSpec)
    | AddRealOp(k: VipSpec, addr: U32, weight: U32)
    | DelRealOp(k: VipSpec, addr: U32)
    | WeightOp(k: VipSpec, addr: U32, weight: U32)
    | DrainOp(k: VipSpec, addr: U32, draining: bool)
    | HealthOp(x: Target, p: Probe, rise: U32, fall: U32)
    | NeighborOp(ip: U32, mac: Mac)
    | ReloadOp(c: Config, lbMac: Mac)

  /** One call, with the neighbour table the kernel has at the time. */
  datatype Call = Call(op: Op, arp: map<U32, Mac>)

  ghost function Step(s: Lb, call: Call, h: Hashes): (s': Lb)
    requires Ranged(s.t)
    ensures Ranged(s'.t)
  {
    match call.op
    case AddVipOp(k, noConntrack) => AddVip(s, k, noConntrack, call.arp, h).s
    case DelVipOp(k) => Control.DelVip(s, k).s
    case AddRealOp(k, addr, weight) => AddReal(s, k, addr, weight, call.arp, h).s
    case DelRealOp(k, addr) => DelReal(s, k, addr, h).s
    case WeightOp(k, addr, weight) => SetWeight(s, k, addr, weight, h).s
    case DrainOp(k, addr, draining) => SetDraining(s, k, addr, draining, h).s
    case HealthOp(x, p, rise, fall) => ReportHealth(s, x, p, rise, fall, h)
    case NeighborOp(ip, mac) => NeighborResolved(s, ip, mac, h)
    case ReloadOp(c, lbMac) => Reload(s, c, lbMac, call.arp, h).s
  }

  /** run[i] is the daemon before call i. */
  ghost predicate StepAt(run: seq<Lb>, calls: seq<Call>, i: nat, h: Hashes)
    requires |run| == |calls| + 1 && i < |calls|
  {
    Ranged(run[i].t) && run[i + 1] == Step(run[i], calls[i], h)
  }

  /** The daemon before, between and after these calls. */
  ghost predicate IsRun(run: seq<Lb>, calls: seq<Call>, h: Hashes) {
    |run| == |calls| + 1 && Ranged(run[0].t) && forall i: nat :: i < |calls| ==> StepAt(run, calls, i, h)
  }

  ghost function Served(s: Lb, calls: seq<Call>, n: nat, h: Hashes): (s': Lb)
    requires Ranged(s.t) && n <= |calls|
    ensures Ranged(s'.t)
  {
    if n == 0 then s else Step(Served(s, calls, n - 1, h), calls[n - 1], h)
  }

  lemma ServedNext(s: Lb, calls: seq<Call>, i: nat, h: Hashes, s1: Lb, s2: Lb)
    requires Ranged(s.t) && i < |calls| && s1 == Served(s, calls, i, h) && s2 == Served(s, calls, i + 1, h)
    ensures Ranged(s1.t) && s2 == Step(s1, calls[i], h)
  {
  }

  lemma ServedAt(s: Lb, calls: seq<Call>, h: Hashes, run: seq<Lb>, i: nat, s1: Lb, s2: Lb)
    requires Ranged(s.t) && |run| == |calls| + 1 && i < |calls| && run[i] == s1 && run[i + 1] == s2
    requires s1 == Served(s, calls, i, h) && s2 == Served(s, calls, i + 1, h)
    ensures StepAt(run, calls, i, h)
  {
    ServedNext(s, calls, i, h, s1, s2);
  }

  lemma ServedIsRun(s: Lb, calls: seq<Call>, h: Hashes, run: seq<Lb>)
    requires Ranged(s.t) && |run| == |calls| + 1 && forall i :: 0 <= i <= |calls| ==> run[i] == Served(s, calls, i, h)
    ensures IsRun(run, calls, h) && run[0] == s
  {
    assert run[0] == s;
    forall i: nat | i < |calls|
      ensures StepAt(run, calls, i, h)
    {
      ServedAt(s, calls, h, run, i, run[i], run[i + 1]);
    }
  }

  /** Every daemon has a run through any calls. */
  lemma RunExists(s: Lb, calls: seq<Call>, h: Hashes) returns (run: seq<Lb>)
    requires Ranged(s.t)
    ensures IsRun(run, calls, h) && run[0] == s && run[|calls|] == Served(s, calls, |calls|, h)
  {
    run := seq(|calls| + 1, i requires 0 <= i <= |calls| => Served(s, calls, i, h));
    ServedIsRun(s, calls, h, run);
  }
}
