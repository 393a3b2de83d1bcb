/**
 Whole runs: any sequence of operations on a running daemon, and any sequence of daemons, each of
 which may die after any single map write.
 */
module Lifetimes {
  import opened Basics
  import opened BuildMaglev
  import opened Maps
  import opened Reals
  import opened Control
  import opened Calls
  import opened ControlLaws
  import opened MemberLaws
  import opened OpLaws
  import opened EventLaws
  import opened VipOps
  import opened ApplyLaws
  import opened Convergence
  import opened Akin
  import opened Evolution
  import opened Soundness
  import opened Exposure
  import opened Hitless

  /** MACs are never zero, and a configuration lists no VIP twice. */
  ghost predicate WellFormed(call: Call) {
    && MacsOk(call.arp)
    && (call.op.NeighborOp? ==> call.op.mac != NO_MAC)
    && (call.op.ReloadOp? ==> DistinctSpecs(call.op.c.vips))
  }

  /** A reload does not get to change the flags of a VIP whose creation was never completed. */
  ghost predicate SafeCall(s: Lb, call: Call, h: Hashes)
    requires Ranged(s.t)
  {
    call.op.ReloadOp? ==> SafeReload(s, call.op.c)
  }

  /** A reload runs to its end. */
  ghost predicate Completes(s: Lb, call: Call, h: Hashes)
    requires Ranged(s.t)
  {
    call.op.ReloadOp? ==> Reload(s, call.op.c, call.op.lbMac, call.arp, h).ok
  }

  lemma VipStepOk(s: Lb, call: Call, h: Hashes)
    requires Good(s) && MacsOk(call.arp) && (call.op.AddVipOp? || call.op.DelVipOp?)
    ensures Ranged(s.t) && Kept(s, Step(s, call, h), h)
  {
    InvRanged(s);
    match call.op
    case AddVipOp(k, noConntrack) => AddVipOk(s, k, noConntrack, call.arp, h);
    case DelVipOp(k) => DelVipOk(s, k, h);
  }

  lemma RealStepOk(s: Lb, call: Call, h: Hashes)
    requires Good(s) && MacsOk(call.arp) && (call.op.AddRealOp? || call.op.DelRealOp? || call.op.WeightOp?
             || call.op.DrainOp?)
    ensures Ranged(s.t) && Kept(s, Step(s, call, h), h)
  {
    InvRanged(s);
    match call.op
    case AddRealOp(k, addr, weight) => AddRealOk(s, k, addr, weight, call.arp, h);
    case DelRealOp(k, addr) => DelRealOk(s, k, addr, h);
    case WeightOp(k, addr, weight) => SetWeightOk(s, k, addr, weight, h);
    case DrainOp(k, addr, draining) => SetDrainingOk(s, k, addr, draining, h);
  }

  lemma EventStepOk(s: Lb, call: Call, h: Hashes)
    requires Good(s) && WellFormed(call) && (call.op.HealthOp? || call.op.NeighborOp?)
    ensures Ranged(s.t) && Kept(s, Step(s, call, h), h)
  {
    InvRanged(s);
    match call.op
    case HealthOp(x, p, rise, fall) => ReportHealthOk(s, x, p, rise, fall, h);
    case NeighborOp(ip, mac) => NeighborResolvedOk(s, ip, mac, h);
  }

  /** Every safe call keeps the invariant; with completed reloads also that every ring is the right one. */
  lemma StepOk(s: Lb, call: Call, h: Hashes)
    requires Good(s) && Ranged(s.t) && WellFormed(call) && SafeCall(s, call, h)
    ensures Good(Step(s, call, h))
    ensures Neat(s, h) && Completes(s, call, h) ==> Neat(Step(s, call, h), h)
  {
    if call.op.AddVipOp? || call.op.DelVipOp? {
      VipStepOk(s, call, h);
    } else if call.op.HealthOp? || call.op.NeighborOp? {
      EventStepOk(s, call, h);
    } else if call.op.ReloadOp? {
      ReloadStepOk(s, call.op.c, call.op.lbMac, call.arp, h);
    } else {
      RealStepOk(s, call, h);
    }
  }

  lemma ReloadStepOk(s: Lb, c: Config, lbMac: Mac, arp: map<U32, Mac>, h: Hashes)
    requires Good(s) && Ranged(s.t) && DistinctSpecs(c.vips) && MacsOk(arp) && SafeReload(s, c)
    ensures Good(Reload(s, c, lbMac, arp, h).s)
    ensures Neat(s, h) && Reload(s, c, lbMac, arp, h).ok ==> Neat(Reload(s, c, lbMac, arp, h).s, h)
  {
    SafeReloadOk(s, c, lbMac, arp, h);
    var d := Reload(s, c, lbMac, arp, h);
    if Neat(s, h) && d.ok {
      ReconfiguredNeat(s, d.s, c, h);
    }
  }

  /** A call that is no reload is always safe. */
  lemma OtherStepOk(s: Lb, call: Call, h: Hashes)
    requires Good(s) && WellFormed(call) && !call.op.ReloadOp?
    ensures Ranged(s.t) && Good(Step(s, call, h))
  {
    InvRanged(s);
    StepOk(s, call, h);
  }

  lemma OtherStepSound(s: Lb, call: Call, h: Hashes)
    requires Sound(s) && Ranged(s.t) && WellFormed(call) && !call.op.ReloadOp?
    ensures Sound(Step(s, call, h))
  {
    var g :| Good(g) && Alike(g, s);
    OtherStepOk(g, call, h);
    StepAlike(g, s, call, h);
  }

  lemma ReloadStep(s: Lb, call: Call, h: Hashes)
    requires Ranged(s.t) && call.op.ReloadOp?
    ensures Step(s, call, h) == Reload(s, call.op.c, call.op.lbMac, call.arp, h).s
  {
  }

  /** Every call keeps a daemon sound, without exception. */
  lemma StepSound(s: Lb, call: Call, h: Hashes)
    requires Sound(s) && WellFormed(call)
    ensures Ranged(s.t) && Sound(Step(s, call, h))
  {
    SoundRanged(s);
    if call.op.ReloadOp? {
      ReloadStep(s, call, h);
      ReloadConverges(s, call.op.c, call.op.lbMac, call.arp, h);
    } else {
      OtherStepSound(s, call, h);
    }
  }

  // ---- one daemon

  /** Call i of the run is safe. */
  ghost predicate SafeAt(run: seq<Lb>, calls: seq<Call>, i: nat, h: Hashes)
    requires |run| == |calls| + 1 && i < |calls|
  {
    Ranged(run[i].t) ==> SafeCall(run[i], calls[i], h)
  }

  ghost predicate CompleteAt(run: seq<Lb>, calls: seq<Call>, i: nat, h: Hashes)
    requires |run| == |calls| + 1 && i < |calls|
  {
    Ranged(run[i].t) ==> Completes(run[i], calls[i], h)
  }

  ghost predicate AllWellFormed(calls: seq<Call>) {
    forall i :: 0 <= i < |calls| ==> WellFormed(calls[i])
  }

  lemma SoundNext(run: seq<Lb>, calls: seq<Call>, n: nat, h: Hashes)
    requires IsRun(run, calls, h) && 0 < n <= |calls| && Sound(run[n - 1]) && WellFormed(calls[n - 1])
    ensures Sound(run[n])
  {
    assert StepAt(run, calls, n - 1, h);
    StepSound(run[n - 1], calls[n - 1], h);
  }

  /** In every run, whatever fails on the way, the daemon stays sound. */
  lemma {:induction false} RunIsSound(run: seq<Lb>, calls: seq<Call>, n: nat, h: Hashes)
    requires IsRun(run, calls, h) && Sound(run[0]) && AllWellFormed(calls) && n <= |calls|
    ensures Sound(run[n])
  {
    if n > 0 {
      RunIsSound(run, calls, n - 1, h);
      SoundNext(run, calls, n, h);
    }
  }

  lemma GoodNext(run: seq<Lb>, calls: seq<Call>, n: nat, h: Hashes)
    requires IsRun(run, calls, h) && 0 < n <= |calls| && Good(run[n - 1]) && WellFormed(calls[n - 1])
             && SafeAt(run, calls, n - 1, h)
    ensures Good(run[n])
  {
    assert StepAt(run, calls, n - 1, h);
    StepOk(run[n - 1], calls[n - 1], h);
  }

  /** A run of safe calls passes through no unsafe map state. */
  lemma {:induction false} RunIsGood(run: seq<Lb>, calls: seq<Call>, n: nat, h: Hashes)
    requires IsRun(run, calls, h) && Good(run[0]) && AllWellFormed(calls) && n <= |calls|
    requires forall i: nat :: i < n ==> SafeAt(run, calls, i, h)
    ensures Good(run[n])
  {
    if n > 0 {
      RunIsGood(run, calls, n - 1, h);
      assert SafeAt(run, calls, n - 1, h);
      GoodNext(run, calls, n, h);
    }
  }

  lemma UnsafeNext(s: Lb, s': Lb, call: Call, h: Hashes)
    requires Good(s) && AllOwned(s) && Ranged(s.t) && WellFormed(call) && !SafeCall(s, call, h)
             && s' == Step(s, call, h)
    ensures !AllSafe(s'.t.k.log, 0)
  {
    ReloadStep(s, call, h);
    UnsafeReload(s, call.op.c, call.op.lbMac, call.arp, h);
  }

  lemma UnsafeReload(s: Lb, c: Config, lbMac: Mac, arp: map<U32, Mac>, h: Hashes)
    requires Good(s) && AllOwned(s) && Ranged(s.t) && DistinctSpecs(c.vips) && MacsOk(arp) && !SafeReload(s, c)
    ensures !AllSafe(Reload(s, c, lbMac, arp, h).s.t.k.log, 0)
  {
    OwnedNoStray(s);
    ReloadSafeIff(s, c, lbMac, arp, h);
  }

  lemma UnsafeFrom(run: seq<Lb>, calls: seq<Call>, i: nat, n: nat, h: Hashes)
    requires IsRun(run, calls, h) && i < n <= |calls| && Good(run[i]) && AllOwned(run[i]) && WellFormed(calls[i])
    requires !SafeAt(run, calls, i, h)
    ensures !AllSafe(run[n].t.k.log, 0)
  {
    var j := i + 1;
    assert StepAt(run, calls, i, h);
    UnsafeNext(run[i], run[j], calls[i], h);
    RunEvolves(run, calls, j, n, h);
    UnsafeStays(run[j], run[n]);
  }

  lemma RunSafeWith(run: seq<Lb>, calls: seq<Call>, n: nat, h: Hashes, safe: seq<bool>)
    requires IsRun(run, calls, h) && Good(run[0]) && AllOwned(run[0]) && AllWellFormed(calls) && n <= |calls|
    requires |safe| == n && forall i: nat :: i < n ==> (SafeAt(run, calls, i, h) <==> safe[i])
    ensures PlaneSafe(run[n].t.k) <==> forall i: nat :: i < n ==> safe[i]
  {
    var i := LeastFalse(safe);
    RunIsGood(run, calls, i, h);
    if i == n {
      GoodIsSafe(run[n]);
    } else {
      RunEvolves(run, calls, 0, i, h);
      StaysOwned(run[0], run[i]);
      UnsafeFrom(run, calls, i, n, h);
    }
  }

  /**
   A run passes through an unsafe map state exactly when one of its reloads gets to change the flags
   of a VIP whose creation was never completed.
   */
  lemma RunSafeIff(run: seq<Lb>, calls: seq<Call>, n: nat, h: Hashes)
    requires IsRun(run, calls, h) && Good(run[0]) && AllOwned(run[0]) && AllWellFormed(calls) && n <= |calls|
    ensures PlaneSafe(run[n].t.k) <==> forall i: nat :: i < n ==> SafeAt(run, calls, i, h)
  {
    var safe := seq(n, i requires 0 <= i < n => SafeAt(run, calls, i, h));
    RunSafeWith(run, calls, n, h, safe);
    assert forall i: nat :: i < n ==> (SafeAt(run, calls, i, h) <==> safe[i]);
  }

  lemma NeatIsSafe(s: Lb, call: Call, h: Hashes)
    requires Neat(s, h) && Ranged(s.t)
    ensures SafeCall(s, call, h)
  {
    if call.op.ReloadOp? {
      var c := call.op.c;
      forall i: nat | i < |c.vips|
        ensures FlagsOk(s, c.vips[i])
      {
        assert Steady(s, h, c.vips[i].spec);
      }
    }
  }

  lemma NeatStep(s: Lb, call: Call, h: Hashes)
    requires Neat(s, h) && Ranged(s.t) && WellFormed(call) && Completes(s, call, h)
    ensures Neat(Step(s, call, h), h)
  {
    NeatIsGood(s, h);
    NeatIsSafe(s, call, h);
    StepOk(s, call, h);
  }

  lemma NeatNext(run: seq<Lb>, calls: seq<Call>, n: nat, h: Hashes)
    requires IsRun(run, calls, h) && 0 < n <= |calls| && Neat(run[n - 1], h) && WellFormed(calls[n - 1])
             && CompleteAt(run, calls, n - 1, h)
    ensures Neat(run[n], h)
  {
    assert StepAt(run, calls, n - 1, h);
    NeatStep(run[n - 1], calls[n - 1], h);
  }

  /**
   While reloads complete, after every call each VIP is published with the ring of its members
   recorded in_ring, and those are eligible.
   */
  lemma {:induction false} RunIsNeat(run: seq<Lb>, calls: seq<Call>, n: nat, h: Hashes)
    requires IsRun(run, calls, h) && Neat(run[0], h) && AllWellFormed(calls) && n <= |calls|
    requires forall i: nat :: i < n ==> CompleteAt(run, calls, i, h)
    ensures Neat(run[n], h)
  {
    if n > 0 {
      RunIsNeat(run, calls, n - 1, h);
      assert CompleteAt(run, calls, n - 1, h);
      NeatNext(run, calls, n, h);
    }
  }

  // ---- one daemon after another

  /** A daemon's configuration, the calls it serves, and the number of writes after which it dies. */
  datatype Life = Life(c: Config, lbMac: Mac, arp: map<U32, Mac>, calls: seq<Call>, writes: nat)

  /** The arrays have the sizes they were created with. */
  ghost predicate Sizes(m: Maps) {
    |m.reals| == |m.neigh| == MAX_REALS
  }

  /** Where the daemon would get to: a start that fails ends it, as does the last call. */
  ghost function Ends(k: Plane, life: Life, h: Hashes): (s: Lb)
    requires Sizes(k.maps)
  {
    var d := Start(Fresh(k), life.c, life.lbMac, life.arp, h);
    if d.ok then Served(d.s, life.calls, |life.calls|, h) else d.s
  }

  /** The calls are well formed, and none is a reload that publishes an unfinished VIP. */
  ghost predicate LegalLife(k: Plane, life: Life, h: Hashes)
    requires Sizes(k.maps)
  {
    var d := Start(Fresh(k), life.c, life.lbMac, life.arp, h);
    && DistinctSpecs(life.c.vips) && MacsOk(life.arp) && AllWellFormed(life.calls)
    && (d.ok ==> forall run :: IsRun(run, life.calls, h) && run[0] == d.s ==> SafeRun(run, life.calls, h))
  }

  ghost predicate SafeRun(run: seq<Lb>, calls: seq<Call>, h: Hashes) {
    |run| == |calls| + 1 && forall i: nat :: i < |calls| ==> SafeAt(run, calls, i, h)
  }

  /** The maps as the daemon leaves them when it dies after n writes; installs are counted afresh. */
  ghost function Crash(k: Plane, n: nat): (k': Plane) {
    if 0 < n <= |k.log| then Plane(k.log[n - 1].after, k.log[..n], map[]) else Plane(k.maps, k.log, map[])
  }

  lemma CrashIsSafe(k: Plane, n: nat)
    requires PlaneSafe(k)
    ensures PlaneSafe(Crash(k, n))
  {
  }

  lemma ServedSafely(s: Lb, calls: seq<Call>, h: Hashes)
    requires Good(s) && Ranged(s.t) && AllWellFormed(calls)
    requires forall run :: IsRun(run, calls, h) && run[0] == s ==> SafeRun(run, calls, h)
    ensures PlaneSafe(Served(s, calls, |calls|, h).t.k)
  {
    var run := RunExists(s, calls, h);
    RunIsGood(run, calls, |calls|, h);
    GoodIsSafe(run[|calls|]);
  }

  lemma EndsSafely(k: Plane, life: Life, h: Hashes)
    requires PlaneSafe(k) && LegalLife(k, life, h)
    ensures PlaneSafe(Ends(k, life, h).t.k)
  {
    HitlessRestart(k, life.c, life.lbMac, life.arp, h);
    var d := Start(Fresh(k), life.c, life.lbMac, life.arp, h);
    if d.ok {
      NeatIsGood(d.s, h);
      ServedSafely(d.s, life.calls, h);
    } else {
      GoodIsSafe(d.s);
    }
  }

  /**
   The maps after these daemons, each killed where its life says. Nothing is asked of the maps a
   daemon finds but the sizes of the arrays.
   */
  ghost predicate Succeeds(k: Plane, lives: seq<Life>, h: Hashes, k': Plane)
    decreases |lives|
  {
    if lives == [] then k' == k else
      && Sizes(k.maps) && LegalLife(k, lives[0], h)
      && Succeeds(Crash(Ends(k, lives[0], h).t.k, lives[0].writes), lives[1..], h, k')
  }

  /**
   From safe maps, after any number of daemons killed after any of their writes: the maps are safe,
   and so was every state on the way.
   */
  lemma {:induction false} EveryLifeIsSafe(k: Plane, lives: seq<Life>, h: Hashes, k': Plane)
    requires PlaneSafe(k) && Succeeds(k, lives, h, k')
    ensures PlaneSafe(k')
    decreases |lives|
  {
    if lives != [] {
      EndsSafely(k, lives[0], h);
      CrashIsSafe(Ends(k, lives[0], h).t.k, lives[0].writes);
      EveryLifeIsSafe(Crash(Ends(k, lives[0], h).t.k, lives[0].writes), lives[1..], h, k');
    }
  }
}
