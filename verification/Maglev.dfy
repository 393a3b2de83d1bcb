/**
 Section 3.4 of Eisenbud et al., "Maglev: A Fast and Reliable Software Network Load Balancer",
 NSDI 2016, with weights: the paper's simple form, in which a backend rescans its whole
 preference list on every turn, and what the table it fills looks like.
 */
module Maglev {
  import opened Basics
  import opened Schedule

  const EMPTY: int := -1

  /** `prefers(i, j)` is the slot backend i wants in j-th place, in a ring of m slots. */
  datatype Plan = Plan(ws: seq<nat>, prefers: (nat, nat) -> nat, m: nat)

  /** Every preference list is a permutation of the ring. */
  ghost predicate PlanOk(p: Plan) {
    && Weighted(p.ws) && p.m > 0
    && (forall i: nat, j: nat :: i < |p.ws| ==> p.prefers(i, j) < p.m)
    && (forall i: nat, j: nat, k: nat :: i < |p.ws| && j < k < p.m ==> Distinct(p, i, j, k))
  }

  ghost predicate Distinct(p: Plan, i: nat, j: nat, k: nat) {
    p.prefers(i, j) != p.prefers(i, k)
  }

  /** The first place at or after j on backend i's list whose slot is unowned; m if there is none. */
  function FirstEmpty(p: Plan, own: seq<int>, i: nat, j: nat): (k: nat)
    requires PlanOk(p) && i < |p.ws| && |own| == p.m && j <= p.m
    ensures j <= k <= p.m
    decreases p.m - j
  {
    if j == p.m || own[p.prefers(i, j)] == EMPTY then j else FirstEmpty(p, own, i, j + 1)
  }

  /** Who owns each slot after t turns. */
  function Fill(p: Plan, t: nat): (own: seq<int>)
    requires PlanOk(p)
    ensures |own| == p.m
  {
    if t == 0 then seq(p.m, _ => EMPTY) else
      var before, i := Fill(p, t - 1), Turn(p.ws, t - 1).i;
      var k := FirstEmpty(p, before, i, 0);
      if k < p.m then before[p.prefers(i, k) := i] else before
  }

  // ---- a turn always finds a slot

  lemma PrefersEvery(p: Plan, i: nat, slot: nat) returns (k: nat)
    requires PlanOk(p) && i < |p.ws| && slot < p.m
    ensures k < p.m && p.prefers(i, k) == slot
  {
    var list := seq(p.m, (j: nat) => p.prefers(i, j));
    assert forall j: nat, k: nat :: j < k < p.m ==> list[j] != list[k] by {
      forall j: nat, k: nat | j < k < p.m ensures list[j] != list[k] {
        assert Distinct(p, i, j, k);
      }
    }
    Pigeonhole(list, slot);
    k :| 0 <= k < p.m && list[k] == slot;
  }

  lemma OnePlace(p: Plan, i: nat, j: nat, k: nat)
    requires PlanOk(p) && i < |p.ws| && j < p.m && k < p.m && p.prefers(i, j) == p.prefers(i, k)
    ensures j == k
  {
    assert j < k ==> Distinct(p, i, j, k);
    assert k < j ==> Distinct(p, i, k, j);
  }

  lemma {:induction false} FirstEmptyIsFirst(p: Plan, own: seq<int>, i: nat, j: nat, k: nat)
    requires PlanOk(p) && i < |p.ws| && |own| == p.m && j <= k < p.m
    requires own[p.prefers(i, k)] == EMPTY
    ensures var f := FirstEmpty(p, own, i, j);
            && f <= k && own[p.prefers(i, f)] == EMPTY
            && forall x: nat :: j <= x < f ==> own[p.prefers(i, x)] != EMPTY
    decreases k - j
  {
    if own[p.prefers(i, j)] != EMPTY {
      FirstEmptyIsFirst(p, own, i, j + 1, k);
    }
  }

  /** Scanning may start later when everything skipped is owned: the cursor is sound. */
  lemma {:induction false} ScanFrom(p: Plan, own: seq<int>, i: nat, start: nat)
    requires PlanOk(p) && i < |p.ws| && |own| == p.m && start <= p.m
    requires forall x: nat :: x < start ==> own[p.prefers(i, x)] != EMPTY
    ensures FirstEmpty(p, own, i, start) == FirstEmpty(p, own, i, 0)
  {
    if start > 0 {
      ScanFrom(p, own, i, start - 1);
    }
  }

  lemma {:induction false} BlankCount(own: seq<int>, n: nat, x: int)
    requires n <= |own| && forall k :: 0 <= k < n ==> own[k] == EMPTY
    ensures CountTo(own, n, x) == if x == EMPTY then n else 0
  {
    if n > 0 {
      BlankCount(own, n - 1, x);
    }
  }

  ghost predicate Counts(p: Plan, t: nat, x: int)
    requires PlanOk(p)
  {
    CountTo(Fill(p, t), p.m, x) == if x == EMPTY then p.m - t else TurnsOf(p.ws, t, x)
  }

  /** While the ring is not full the backend whose turn it is has a first unowned slot. */
  lemma FindsRoom(p: Plan, t: nat)
    requires PlanOk(p) && t < p.m && Counts(p, t, EMPTY)
    ensures var own, i := Fill(p, t), Turn(p.ws, t).i;
            var k := FirstEmpty(p, own, i, 0);
            && k < p.m && own[p.prefers(i, k)] == EMPTY
            && forall x: nat :: x < k ==> own[p.prefers(i, x)] != EMPTY
  {
    var own, i := Fill(p, t), Turn(p.ws, t).i;
    var slot := CountFinds(own, p.m, EMPTY);
    var k := PrefersEvery(p, i, slot);
    FirstEmptyIsFirst(p, own, i, 0, k);
  }

  /** After t turns t slots are owned, and every backend owns as many as it has had turns. */
  lemma {:induction false} FillCounts(p: Plan, t: nat, x: int)
    requires PlanOk(p) && t <= p.m && EMPTY <= x
    ensures Counts(p, t, x)
  {
    if t == 0 {
      BlankCount(Fill(p, 0), p.m, x);
    } else {
      FillCounts(p, t - 1, EMPTY);
      FillCounts(p, t - 1, x);
      FindsRoom(p, t - 1);
      var own, i := Fill(p, t - 1), Turn(p.ws, t - 1).i;
      CountUpdate(own, p.m, p.prefers(i, FirstEmpty(p, own, i, 0)), i, x);
    }
  }

  /** A full turn, described: one unowned slot becomes i's, all others keep their owner. */
  lemma TurnClaims(p: Plan, t: nat) returns (slot: nat, k: nat)
    requires PlanOk(p) && t < p.m
    ensures k < p.m && slot == p.prefers(Turn(p.ws, t).i, k)
    ensures k == FirstEmpty(p, Fill(p, t), Turn(p.ws, t).i, 0)
    ensures Fill(p, t)[slot] == EMPTY
    ensures Fill(p, t + 1) == Fill(p, t)[slot := Turn(p.ws, t).i]
    ensures forall x: nat :: x < k ==> Fill(p, t)[p.prefers(Turn(p.ws, t).i, x)] != EMPTY
  {
    FillCounts(p, t, EMPTY);
    FindsRoom(p, t);
    k := FirstEmpty(p, Fill(p, t), Turn(p.ws, t).i, 0);
    slot := p.prefers(Turn(p.ws, t).i, k);
  }

  lemma TurnKeeps(p: Plan, t: nat, slot: nat)
    requires PlanOk(p) && t < p.m && slot < p.m && Fill(p, t)[slot] != EMPTY
    ensures Fill(p, t + 1)[slot] == Fill(p, t)[slot]
  {
    var s, k := TurnClaims(p, t);
  }

  lemma {:induction false} OwnersStay(p: Plan, t: nat, u: nat, slot: nat)
    requires PlanOk(p) && t <= u <= p.m && slot < p.m && Fill(p, t)[slot] != EMPTY
    ensures Fill(p, u)[slot] == Fill(p, t)[slot]
  {
    if t < u {
      var v := u - 1;
      assert v + 1 == u;
      OwnersStay(p, t, v, slot);
      TurnKeeps(p, v, slot);
    }
  }

  /** After m turns every slot has an owner, and the owner is a backend. */
  lemma RingIsFull(p: Plan, slot: nat)
    requires PlanOk(p) && slot < p.m
    ensures 0 <= Fill(p, p.m)[slot] < |p.ws|
  {
    FillCounts(p, p.m, EMPTY);
    OwnersAreBackends(p, p.m, slot);
    if Fill(p, p.m)[slot] == EMPTY {
      CountHas(Fill(p, p.m), p.m, slot);
      assert false;
    }
  }

  lemma {:induction false} CountHas(s: seq<int>, n: nat, k: nat)
    requires k < n <= |s|
    ensures CountTo(s, n, s[k]) > 0
  {
    if k < n - 1 {
      CountHas(s, n - 1, k);
    }
  }

  lemma {:induction false} OwnersAreBackends(p: Plan, t: nat, slot: nat)
    requires PlanOk(p) && slot < p.m
    ensures EMPTY <= Fill(p, t)[slot] < |p.ws|
  {
    if t > 0 {
      OwnersAreBackends(p, t - 1, slot);
    }
  }

  /** The turn on which a slot was claimed. */
  lemma {:induction false} ClaimedOn(p: Plan, t: nat, slot: nat) returns (u: nat)
    requires PlanOk(p) && t <= p.m && slot < p.m && Fill(p, t)[slot] != EMPTY
    ensures u < t && Fill(p, u)[slot] == EMPTY && Fill(p, u + 1)[slot] == Turn(p.ws, u).i
  {
    if Fill(p, t - 1)[slot] == EMPTY {
      u := t - 1;
      var s, k := TurnClaims(p, u);
    } else {
      u := ClaimedOn(p, t - 1, slot);
    }
  }

  /**
   No slot is passed over: a backend owns `slot` in the finished ring because it claimed it on
   some turn u, and every slot it prefers to that one was claimed on an earlier turn.
   */
  lemma NothingBetterWasFree(p: Plan, slot: nat, j: nat, x: nat) returns (u: nat, v: nat)
    requires PlanOk(p) && slot < p.m && x < j < p.m
    requires 0 <= Fill(p, p.m)[slot] < |p.ws| && p.prefers(Fill(p, p.m)[slot], j) == slot
    ensures u < p.m && Turn(p.ws, u).i == Fill(p, p.m)[slot]
    ensures Fill(p, u)[slot] == EMPTY && Fill(p, u + 1)[slot] == Turn(p.ws, u).i
    ensures v < u && Fill(p, v)[p.prefers(Fill(p, p.m)[slot], x)] == EMPTY
    ensures Fill(p, v + 1)[p.prefers(Fill(p, p.m)[slot], x)] == Turn(p.ws, v).i
  {
    u := ClaimedOn(p, p.m, slot);
    OwnersStay(p, u + 1, p.m, slot);
    var s, k := TurnClaims(p, u);
    assert s == slot;
    OnePlace(p, Turn(p.ws, u).i, j, k);
    v := ClaimedOn(p, u, p.prefers(Turn(p.ws, u).i, x));
  }

  /**
   Slot counts of the finished ring: they add up to the ring, follow the weights round by round,
   and differ by at most one slot between equal weights. No hash appears.
   */
  lemma SlotCounts(p: Plan, i: nat)
    requires PlanOk(p) && i < |p.ws|
    ensures Sum(p.ws) > 0
    ensures Count(Fill(p, p.m), i) == TurnsOf(p.ws, p.m, i)
    ensures (p.m / Sum(p.ws)) * p.ws[i] <= Count(Fill(p, p.m), i) <= (p.m / Sum(p.ws) + 1) * p.ws[i]
    ensures TurnsSum(p.ws, p.m, |p.ws|) == p.m
  {
    FillCounts(p, p.m, i);
    Shares(p.ws, p.m, i);
    TurnsAddUp(p.ws, p.m);
  }

  lemma EqualWeightsEqualSlots(p: Plan, i: nat, j: nat)
    requires PlanOk(p) && i < |p.ws| && j < |p.ws| && p.ws[i] == p.ws[j]
    ensures Count(Fill(p, p.m), i) <= Count(Fill(p, p.m), j) + 1
  {
    FillCounts(p, p.m, i);
    FillCounts(p, p.m, j);
    EqualShares(p.ws, p.m, i, j);
  }
}
