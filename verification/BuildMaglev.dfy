/** The fill as the daemon runs it: one moving cursor per backend instead of a preference list. */
module BuildMaglev {
  import opened Basics
  import opened Primes
  import opened Schedule
  import opened Maglev

  /** `realId` goes into the slots; `addr` is the identity used for ordering and hashing. */
  datatype Backend = Backend(realId: U32, addr: U32, weight: U32)

  /** The two backend hashes: any functions into 32 bits. */
  datatype Hashes = Hashes(offset: U32 -> U32, skip: U32 -> U32)

  ghost predicate GoodSize(m: nat) {
    m == 1 || IsPrime(m)
  }

  function Offset(h: Hashes, addr: U32, m: nat): (o: nat)
    requires m > 0
    ensures o < m
  {
    h.offset(addr) % m
  }

  function Skip(h: Hashes, addr: U32, m: nat): (s: nat)
    requires m > 0
    ensures m > 1 ==> 0 < s < m
  {
    if m > 1 then h.skip(addr) % (m - 1) + 1 else 1
  }

  /** The preference lists and weights of backends with these addresses. */
  function PlanOf(addrs: seq<U32>, ws: seq<nat>, m: nat, h: Hashes): (p: Plan)
    requires m > 0
  {
    Plan(ws, (i: nat, j: nat) => if i < |addrs| then Prefers(addrs[i], m, h, j) else 0, m)
  }

  function Prefers(addr: U32, m: nat, h: Hashes, j: nat): (slot: nat)
    requires m > 0
  {
    Walk(Offset(h, addr, m), Skip(h, addr, m), m, j)
  }

  /** For a prime ring every backend's walk is a permutation of the ring. */
  lemma PlanIsOk(addrs: seq<U32>, ws: seq<nat>, m: nat, h: Hashes)
    requires GoodSize(m) && Weighted(ws) && |addrs| == |ws|
    ensures PlanOk(PlanOf(addrs, ws, m, h))
  {
    var p := PlanOf(addrs, ws, m, h);
    forall i: nat, j: nat, k: nat | i < |ws| && j < k < m
      ensures Distinct(p, i, j, k)
    {
      WalkInjective(Offset(h, addrs[i], m), Skip(h, addrs[i], m), m);
    }
  }

  /** Advancing a slot by the skip is moving one place down the preference list. */
  ghost predicate Steps(p: Plan, i: nat, skip: nat) {
    p.m > 0 && forall j: nat :: NextPlace(p, i, skip, j)
  }

  ghost predicate NextPlace(p: Plan, i: nat, skip: nat, j: nat)
    requires p.m > 0
  {
    p.prefers(i, j + 1) == (p.prefers(i, j) + skip) % p.m
  }

  lemma PlanSteps(addrs: seq<U32>, ws: seq<nat>, m: nat, h: Hashes, i: nat)
    requires m > 0 && i < |addrs|
    ensures Steps(PlanOf(addrs, ws, m, h), i, Skip(h, addrs[i], m))
  {
    var p := PlanOf(addrs, ws, m, h);
    forall j: nat
      ensures NextPlace(p, i, Skip(h, addrs[i], m), j)
    {
      WalkStep(Offset(h, addrs[i], m), Skip(h, addrs[i], m), m, j);
    }
  }

  function Label(owner: int, ids: seq<U32>): (id: U32) {
    if 0 <= owner < |ids| then ids[owner] else REAL_NONE
  }

  /** The ring after t turns, with every owner replaced by its real id. */
  ghost function Painted(p: Plan, ids: seq<U32>, t: nat): (entry: seq<U32>)
    requires PlanOk(p)
    ensures |entry| == p.m
  {
    seq(p.m, s requires 0 <= s < p.m => Label(Fill(p, t)[s], ids))
  }

  /** How many places of backend i's list the first t turns have looked at: up to its last claim. */
  ghost function Looked(p: Plan, i: nat, t: nat): (n: nat)
    requires PlanOk(p) && i < |p.ws|
  {
    if t == 0 then 0
    else if Turn(p.ws, t - 1).i == i then FirstEmpty(p, Fill(p, t - 1), i, 0) + 1
    else Looked(p, i, t - 1)
  }

  /** next[i] is the place after those probed for backend i, and none of those is still unowned. */
  ghost predicate CursorOk(p: Plan, i: nat, next: nat, probes: nat, t: nat)
    requires PlanOk(p) && i < |p.ws|
  {
    next == p.prefers(i, probes) && probes == Looked(p, i, t) && probes <= FirstEmpty(p, Fill(p, t), i, 0)
  }

  ghost predicate Cursors(p: Plan, next: seq<nat>, probes: seq<nat>, t: nat)
    requires PlanOk(p)
  {
    && |next| == |probes| == |p.ws|
    && forall i: nat :: i < |p.ws| ==> CursorOk(p, i, next[i], probes[i], t)
  }

  lemma {:induction false} SumAtMost(s: seq<nat>, m: nat)
    requires forall i: nat :: i < |s| ==> s[i] <= m
    ensures Sum(s) <= |s| * m
  {
    if s != [] {
      var n := |s| - 1;
      SumAtMost(s[..n], m);
      assert |s| * m == n * m + m;
    }
  }

  lemma {:induction false} FirstEmptyMoves(p: Plan, own: seq<int>, i: nat, j: nat, slot: nat, b: nat)
    requires PlanOk(p) && i < |p.ws| && |own| == p.m && j <= p.m && slot < p.m
    ensures FirstEmpty(p, own, i, j) <= FirstEmpty(p, own[slot := b], i, j)
    ensures j < p.m && p.prefers(i, j) == slot ==> j < FirstEmpty(p, own[slot := b], i, j)
    decreases p.m - j
  {
    if j < p.m {
      FirstEmptyMoves(p, own, i, j + 1, slot, b);
    }
  }

  /** Claiming the first empty slot of backend i moves its first empty place past it. */
  lemma {:induction false} PastClaim(p: Plan, own: seq<int>, i: nat, j: nat, b: nat)
    requires PlanOk(p) && i < |p.ws| && |own| == p.m && j <= p.m
    requires FirstEmpty(p, own, i, j) < p.m
    ensures FirstEmpty(p, own, i, j) < FirstEmpty(p, own[p.prefers(i, FirstEmpty(p, own, i, j)) := b], i, j)
    decreases p.m - j
  {
    var f := FirstEmpty(p, own, i, j);
    if j == f {
      FirstEmptyMoves(p, own, i, j, p.prefers(i, f), b);
    } else {
      PastClaim(p, own, i, j + 1, b);
    }
  }

  /** Everything the loops keep true between turns. */
  ghost predicate Working(p: Plan, ids: seq<U32>, entry: seq<U32>, next: seq<nat>, skip: seq<nat>,
                          probes: seq<nat>, t: nat) {
    && PlanOk(p) && |ids| == |p.ws| && REAL_NONE !in ids
    && entry == Painted(p, ids, t) && Cursors(p, next, probes, t)
    && |skip| == |p.ws| && forall i: nat :: i < |p.ws| ==> Steps(p, i, skip[i])
  }

  /** Walk backend i's list from place `start` to its first unclaimed slot, counting the slots read. */
  method Probe(entry: array<U32>, first: nat, skip: nat, i: nat, ghost p: Plan, ghost own: seq<int>, ghost start: nat,
               ghost f: nat)
    returns (c: nat, ghost probes: nat)
    requires PlanOk(p) && i < |p.ws| && Steps(p, i, skip) && entry.Length == |own| == p.m
    requires forall s :: 0 <= s < p.m ==> (entry[s] == REAL_NONE <==> own[s] == EMPTY)
    requires start <= f < p.m && first == p.prefers(i, start)
    requires own[p.prefers(i, f)] == EMPTY && forall x: nat :: x < f ==> own[p.prefers(i, x)] != EMPTY
    ensures c == p.prefers(i, f) && start + probes == f + 1
  {
    c, probes := first, 1;
    while entry[c] != REAL_NONE
      invariant 1 <= probes && start + probes <= f + 1 && c == p.prefers(i, start + probes - 1)
      decreases f - start - probes
    {
      assert NextPlace(p, i, skip, start + probes - 1);
      c := (c + skip) % entry.Length;
      probes := probes + 1;
    }
  }

  lemma Vacant(p: Plan, ids: seq<U32>, t: nat, s: nat)
    requires PlanOk(p) && |ids| == |p.ws| && REAL_NONE !in ids && s < p.m
    ensures Painted(p, ids, t)[s] == REAL_NONE <==> Fill(p, t)[s] == EMPTY
  {
    OwnersAreBackends(p, t, s);
    var owner := Fill(p, t)[s];
    assert 0 <= owner < |ids| ==> ids[owner] in ids;
  }

  lemma Claimed(p: Plan, ids: seq<U32>, t: nat, slot: nat, i: nat)
    requires PlanOk(p) && |ids| == |p.ws| && t < p.m && i == Turn(p.ws, t).i
    requires slot == p.prefers(i, FirstEmpty(p, Fill(p, t), i, 0))
    ensures Painted(p, ids, t + 1) == Painted(p, ids, t)[slot := ids[i]]
  {
    var s, k := TurnClaims(p, t);
  }

  /**
   One turn of backend i: walk from the cursor to the first unclaimed slot and claim it. The
   slot is the one the paper's rescan from place 0 would find.
   */
  method TakeTurn(entry: array<U32>, next: seq<nat>, skip: seq<nat>, i: nat, ghost p: Plan,
                  ghost ids: seq<U32>, ghost probes: seq<nat>, ghost t: nat, id: U32)
    returns (next': seq<nat>, ghost probes': seq<nat>)
    requires Working(p, ids, entry[..], next, skip, probes, t)
    requires t < p.m && i == Turn(p.ws, t).i && id == ids[i]
    modifies entry
    ensures Working(p, ids, entry[..], next', skip, probes', t + 1)
  {
    ghost var slot, f := TurnClaims(p, t);
    assert CursorOk(p, i, next[i], probes[i], t);
    forall s | 0 <= s < p.m
      ensures entry[s] == REAL_NONE <==> Fill(p, t)[s] == EMPTY
    {
      Vacant(p, ids, t, s);
      assert entry[s] == entry[..][s];
    }
    ghost var n;
    var c;
    c, n := Probe(entry, next[i], skip[i], i, p, Fill(p, t), probes[i], f);
    Claimed(p, ids, t, c, i);
    entry[c] := id;
    assert entry[..] == old(entry[..])[c := ids[i]];
    assert NextPlace(p, i, skip[i], f);
    next' := next[i := (c + skip[i]) % entry.Length];
    probes' := probes[i := probes[i] + n];
    Advance(p, next, probes, t, i, next'[i]);
  }

  lemma Advance(p: Plan, next: seq<nat>, probes: seq<nat>, t: nat, i: nat, n: nat)
    requires PlanOk(p) && t < p.m && Cursors(p, next, probes, t) && i == Turn(p.ws, t).i
    requires n == p.prefers(i, FirstEmpty(p, Fill(p, t), i, 0) + 1)
    ensures Cursors(p, next[i := n], probes[i := FirstEmpty(p, Fill(p, t), i, 0) + 1], t + 1)
  {
    var slot, f := TurnClaims(p, t);
    var next', probes' := next[i := n], probes[i := f + 1];
    forall b: nat | b < |p.ws|
      ensures CursorOk(p, b, next'[b], probes'[b], t + 1)
    {
      if b == i {
        PastClaim(p, Fill(p, t), i, 0, i);
      } else {
        assert CursorOk(p, b, next[b], probes[b], t);
        FirstEmptyMoves(p, Fill(p, t), b, 0, slot, i);
      }
    }
  }

  function Weights(sorted: seq<Backend>): (ws: seq<nat>)
    ensures |ws| == |sorted|
  {
    seq(|sorted|, i requires 0 <= i < |sorted| => sorted[i].weight)
  }

  function Addrs(sorted: seq<Backend>): (addrs: seq<U32>)
    ensures |addrs| == |sorted|
  {
    seq(|sorted|, i requires 0 <= i < |sorted| => sorted[i].addr)
  }

  function Ids(sorted: seq<Backend>): (ids: seq<U32>)
    ensures |ids| == |sorted|
  {
    seq(|sorted|, i requires 0 <= i < |sorted| => sorted[i].realId)
  }

  ghost predicate Active(sorted: seq<Backend>) {
    forall b :: b in sorted ==> b.weight > 0 && b.realId != REAL_NONE
  }

  /** The loops stand at `at`, and the next turn they take is turn number t. */
  ghost predicate Standing(ws: seq<nat>, at: Pos, t: nat) {
    Weighted(ws) && Within(ws, at) && Seek(ws, at) == Turn(ws, t)
  }

  lemma StandingAtTurn(ws: seq<nat>, at: Pos, t: nat)
    requires Standing(ws, at, t) && at.i < |ws| && at.pass < ws[at.i]
    ensures Turn(ws, t) == at && Standing(ws, at.(i := at.i + 1), t + 1)
  {
  }

  lemma StandingSkips(ws: seq<nat>, at: Pos, t: nat)
    requires Standing(ws, at, t) && at.i < |ws| && at.pass >= ws[at.i]
    ensures Standing(ws, at.(i := at.i + 1), t)
  {
  }

  /** offset, skip and first slot of every backend, and the largest weight. */
  method Prepare(sorted: seq<Backend>, m: nat, h: Hashes) returns (next: seq<nat>, skip: seq<nat>, wMax: nat)
    requires m > 0
    ensures |next| == |skip| == |sorted|
    ensures forall i :: 0 <= i < |sorted| ==> next[i] == Offset(h, sorted[i].addr, m)
    ensures forall i :: 0 <= i < |sorted| ==> skip[i] == Skip(h, sorted[i].addr, m)
    ensures wMax == Passes(Weights(sorted))
  {
    next, skip, wMax := [], [], 0;
    for i := 0 to |sorted|
      invariant |next| == |skip| == i && wMax == MaxWeight(Weights(sorted), i)
      invariant forall k :: 0 <= k < i ==> next[k] == Offset(h, sorted[k].addr, m)
      invariant forall k :: 0 <= k < i ==> skip[k] == Skip(h, sorted[k].addr, m)
    {
      var offset := h.offset(sorted[i].addr) % m;
      skip := skip + [if m > 1 then h.skip(sorted[i].addr) % (m - 1) + 1 else 1];
      next := next + [offset];
      if sorted[i].weight > wMax { wMax := sorted[i].weight; }
    }
  }

  lemma WalkStart(offset: nat, skip: nat, m: nat)
    requires offset < m
    ensures Walk(offset, skip, m, 0) == offset
  {
    assert 0 * skip == 0;
  }

  /** Before the first turn nothing is owned and nothing is probed. */
  lemma Ready(sorted: seq<Backend>, m: nat, h: Hashes, entry: seq<U32>, next: seq<nat>, skip: seq<nat>,
              probes: seq<nat>)
    requires GoodSize(m) && sorted != [] && Active(sorted)
    requires |entry| == m && forall s :: 0 <= s < m ==> entry[s] == REAL_NONE
    requires |next| == |skip| == |probes| == |sorted|
    requires forall i :: 0 <= i < |sorted| ==> next[i] == Offset(h, sorted[i].addr, m)
    requires forall i :: 0 <= i < |sorted| ==> skip[i] == Skip(h, sorted[i].addr, m)
    requires forall i :: 0 <= i < |sorted| ==> probes[i] == 0
    ensures Working(PlanOf(Addrs(sorted), Weights(sorted), m, h), Ids(sorted), entry, next, skip, probes, 0)
    ensures Standing(Weights(sorted), Pos(0, 0, 0), 0)
  {
    var p := PlanOf(Addrs(sorted), Weights(sorted), m, h);
    PlanIsOk(Addrs(sorted), Weights(sorted), m, h);
    PassesPositive(Weights(sorted));
    forall i: nat | i < |sorted|
      ensures Steps(p, i, skip[i]) && CursorOk(p, i, next[i], probes[i], 0)
    {
      PlanSteps(Addrs(sorted), Weights(sorted), m, h, i);
      WalkStart(next[i], skip[i], m);
    }
  }

  /** One backend's place in a pass: a turn if it has one left. */
  method Visit(sorted: seq<Backend>, pass: nat, i: nat, entry: array<U32>, next0: seq<nat>, skip: seq<nat>,
               ghost p: Plan, ghost ids: seq<U32>, ghost probes0: seq<nat>, filled0: nat, ghost lap: nat)
    returns (filled: nat, next: seq<nat>, ghost probes: seq<nat>)
    requires p.ws == Weights(sorted) && ids == Ids(sorted) && i < |sorted|
    requires Working(p, ids, entry[..], next0, skip, probes0, filled0) && filled0 < p.m
    requires Standing(p.ws, Pos(lap, pass, i), filled0)
    modifies entry
    ensures filled == filled0 + if pass < sorted[i].weight then 1 else 0
    ensures Working(p, ids, entry[..], next, skip, probes, filled)
    ensures Standing(p.ws, Pos(lap, pass, i + 1), filled)
  {
    filled, next, probes := filled0, next0, probes0;
    assert p.ws[i] == sorted[i].weight && ids[i] == sorted[i].realId;
    if pass < sorted[i].weight {
      StandingAtTurn(p.ws, Pos(lap, pass, i), filled);
      next, probes := TakeTurn(entry, next, skip, i, p, ids, probes, filled, sorted[i].realId);
      filled := filled + 1;
    } else {
      StandingSkips(p.ws, Pos(lap, pass, i), filled);
    }
  }

  /** One pass over the backends; the ring may fill up on the way. */
  method OnePass(sorted: seq<Backend>, pass: nat, entry: array<U32>, next0: seq<nat>, skip: seq<nat>,
                 ghost p: Plan, ghost ids: seq<U32>, ghost probes0: seq<nat>, filled0: nat, ghost lap: nat)
    returns (filled: nat, next: seq<nat>, ghost probes: seq<nat>)
    requires p.ws == Weights(sorted) && ids == Ids(sorted)
    requires Working(p, ids, entry[..], next0, skip, probes0, filled0) && filled0 < p.m
    requires Standing(p.ws, Pos(lap, pass, 0), filled0)
    modifies entry
    ensures filled0 <= filled <= p.m && (pass == 0 ==> filled0 < filled)
    ensures Working(p, ids, entry[..], next, skip, probes, filled)
    ensures filled < p.m ==> Standing(p.ws, Pos(lap, pass, |sorted|), filled)
  {
    filled, next, probes := filled0, next0, probes0;
    assert Weighted(p.ws);
    var i := 0;
    while i < |sorted|
      invariant i <= |sorted| && filled0 <= filled < p.m && (pass == 0 && i > 0 ==> filled0 < filled)
      invariant Standing(p.ws, Pos(lap, pass, i), filled)
      invariant Working(p, ids, entry[..], next, skip, probes, filled)
    {
      assert p.ws[i] == sorted[i].weight;
      filled, next, probes := Visit(sorted, pass, i, entry, next, skip, p, ids, probes, filled, lap);
      if filled == entry.Length { return; }
      i := i + 1;
    }
  }

  /** Rounds of passes until the ring is full. */
  method FillRing(sorted: seq<Backend>, entry: array<U32>, next0: seq<nat>, skip: seq<nat>, wMax: nat,
                  ghost p: Plan, ghost ids: seq<U32>, ghost probes0: seq<nat>)
    returns (next: seq<nat>, ghost probes: seq<nat>)
    requires p.ws == Weights(sorted) && ids == Ids(sorted) && wMax == Passes(p.ws)
    requires Working(p, ids, entry[..], next0, skip, probes0, 0)
    requires Standing(p.ws, Pos(0, 0, 0), 0)
    modifies entry
    ensures Working(p, ids, entry[..], next, skip, probes, p.m)
  {
    var filled := 0;
    next, probes := next0, probes0;
    ghost var lap := 0;
    while true
      invariant filled < p.m && Standing(p.ws, Pos(lap, 0, 0), filled)
      invariant Working(p, ids, entry[..], next, skip, probes, filled)
      decreases p.m - filled
    {
      ghost var before := filled;
      var pass := 0;
      while pass < wMax
        invariant pass <= wMax && before <= filled < p.m && (pass > 0 ==> before < filled)
        invariant Standing(p.ws, if pass < wMax then Pos(lap, pass, 0) else Pos(lap + 1, 0, 0), filled)
        invariant Working(p, ids, entry[..], next, skip, probes, filled)
      {
        filled, next, probes := OnePass(sorted, pass, entry, next, skip, p, ids, probes, filled, lap);
        if filled == entry.Length { return; }
        pass := pass + 1;
      }
      lap := lap + 1;
    }
  }

  /** The whole fill probes exactly the places the paper's form looks at, at most m for each backend. */
  ghost predicate Probed(p: Plan, probes: seq<nat>)
    requires PlanOk(p)
  {
    && |probes| == |p.ws| && Sum(probes) <= |p.ws| * p.m
    && forall i: nat :: i < |p.ws| ==> probes[i] == Looked(p, i, p.m) <= p.m
  }

  lemma ProbesBounded(p: Plan, next: seq<nat>, probes: seq<nat>)
    requires PlanOk(p) && Cursors(p, next, probes, p.m)
    ensures Probed(p, probes)
  {
    forall i: nat | i < |p.ws|
      ensures probes[i] == Looked(p, i, p.m) <= p.m
    {
      assert CursorOk(p, i, next[i], probes[i], p.m);
    }
    SumAtMost(probes, p.m);
  }

  /**
   build_maglev: the finished ring is the paper's simple form after m turns, with every owner
   replaced by its real id. `probes` counts the slots the probe loop read for each backend, at most
   m, so at most |sorted| * m in all. An empty list or ring is left unfilled.
   */
  method Build(sorted: seq<Backend>, m: nat, h: Hashes) returns (ring: seq<U32>, ghost probes: seq<nat>)
    requires m == 0 || GoodSize(m)
    requires Active(sorted)
    ensures |ring| == m
    ensures sorted == [] || m == 0 ==> forall s :: 0 <= s < m ==> ring[s] == REAL_NONE
    ensures sorted != [] && m > 0 ==>
              var p := PlanOf(Addrs(sorted), Weights(sorted), m, h);
              PlanOk(p) && ring == Painted(p, Ids(sorted), m) && Probed(p, probes)
  {
    var entry := new U32[m](_ => REAL_NONE);
    probes := seq(|sorted|, _ => 0);
    if sorted == [] || m == 0 { return entry[..], probes; }
    var next, skip, wMax := Prepare(sorted, m, h);
    Ready(sorted, m, h, entry[..], next, skip, probes);
    ghost var p := PlanOf(Addrs(sorted), Weights(sorted), m, h);
    next, probes := FillRing(sorted, entry, next, skip, wMax, p, Ids(sorted), probes);
    ProbesBounded(p, next, probes);
    ring := entry[..];
  }
}
