/**
 How many slots a backend gets, exactly, and when that meets the shares the header promises: within
 1 % of weight / sum(weights) for Maglev, within one slot for modulo.
 */
module SlotShares {
  import opened Basics
  import opened Schedule
  import opened Maglev
  import opened BuildMaglev
  import opened Ring
  import opened BuildRing

  // ---- Maglev: rounds repeat

  lemma {:induction false} SeekShifts(ws: seq<nat>, at: Pos, n: nat)
    requires Weighted(ws) && Within(ws, at)
    ensures Seek(ws, at.(lap := at.lap + n)) == Seek(ws, at).(lap := Seek(ws, at).lap + n)
    decreases Passes(ws) - at.pass, |ws| - at.i
  {
    if at.i == |ws| {
      if at.pass + 1 < Passes(ws) {
        SeekShifts(ws, Pos(at.lap, at.pass + 1, 0), n);
      }
    } else if at.pass >= ws[at.i] {
      SeekShifts(ws, at.(i := at.i + 1), n);
    }
  }

  lemma {:induction false} InRoundPart(ws: seq<nat>, at: Pos, n: nat, b: nat)
    requires b < n <= |ws|
    ensures InRound(ws, at, b) <= InRoundSum(ws, at, n)
  {
    if b < n - 1 {
      InRoundPart(ws, at, n - 1, b);
    }
  }

  /** After sum(weights) turns a new round begins. */
  lemma RoundEnds(ws: seq<nat>)
    requires Weighted(ws)
    ensures Turn(ws, Sum(ws)) == Pos(1, 0, 0)
  {
    var w, at := Sum(ws), Turn(ws, Sum(ws));
    RoundsComplete(ws, w);
    assert w / w == 1;
    TurnsAddUp(ws, w);
    TurnsByRound(ws, w, |ws|);
    assert ws[..|ws|] == ws && 1 * w == w;
    InRoundPart(ws, at, |ws|, at.i);
    InRoundPart(ws, at, |ws|, 0);
  }

  lemma ShiftNext(ws: seq<nat>, t: nat, u: nat)
    requires Weighted(ws) && Turn(ws, u) == Turn(ws, t).(lap := Turn(ws, t).lap + 1)
    ensures Turn(ws, u + 1) == Turn(ws, t + 1).(lap := Turn(ws, t + 1).lap + 1)
  {
    var before := Turn(ws, t);
    NextTurn(ws, t);
    NextTurn(ws, u);
    SeekShifts(ws, before.(i := before.i + 1), 1);
  }

  lemma {:induction false} TurnShifts(ws: seq<nat>, t: nat, u: nat)
    requires Weighted(ws) && u == t + Sum(ws)
    ensures Turn(ws, u) == Turn(ws, t).(lap := Turn(ws, t).lap + 1)
    decreases t
  {
    if t == 0 {
      RoundEnds(ws);
    } else {
      var t', u' := t - 1, u - 1;
      assert t' + 1 == t && u' + 1 == u;
      TurnShifts(ws, t', u');
      ShiftNext(ws, t', u');
    }
  }

  lemma NextTurn(ws: seq<nat>, u: nat)
    requires Weighted(ws)
    ensures Within(ws, Turn(ws, u).(i := Turn(ws, u).i + 1))
    ensures Turn(ws, u + 1) == Seek(ws, Turn(ws, u).(i := Turn(ws, u).i + 1))
  {
  }

  lemma TurnsRepeat(ws: seq<nat>, t: nat, u: nat, b: nat)
    requires Weighted(ws) && b < |ws| && u == t + Sum(ws)
    ensures TurnsOf(ws, u, b) == TurnsOf(ws, t, b) + ws[b]
  {
    TurnShifts(ws, t, u);
    TurnsTaken(ws, t, b);
    TurnsTaken(ws, u, b);
    MulSucc(Turn(ws, t).lap, ws[b]);
  }

  lemma {:induction false} WholeRounds(ws: seq<nat>, q: nat, r: nat, b: nat, t: nat)
    requires Weighted(ws) && b < |ws| && t == q * Sum(ws) + r
    ensures TurnsOf(ws, t, b) == q * ws[b] + TurnsOf(ws, r, b)
    decreases q
  {
    var w := Sum(ws);
    if q == 0 {
      ZeroTimes(w);
      ZeroTimes(ws[b]);
    } else {
      MulSucc(q - 1, w);
      MulSucc(q - 1, ws[b]);
      var u := t - w;
      WholeRounds(ws, q - 1, r, b, u);
      TurnsRepeat(ws, u, t, b);
    }
  }

  lemma ZeroTimes(x: nat)
    ensures 0 * x == 0
  {
  }

  lemma Divided(m: nat, w: nat)
    requires w > 0
    ensures m == (m / w) * w + m % w
  {
  }

  /** The weight for every whole round, and the turns of the round that is cut off. */
  lemma ExactTurns(ws: seq<nat>, m: nat, b: nat, w: nat)
    requires Weighted(ws) && b < |ws| && w == Sum(ws)
    ensures w > 0 && TurnsOf(ws, m, b) == (m / w) * ws[b] + TurnsOf(ws, m % w, b)
  {
    RoundsComplete(ws, m);
    Divided(m, w);
    var q, r := m / w, m % w;
    WholeRounds(ws, q, r, b, m);
  }

  // ---- modulo: the list repeats

  /** How much of backend b's block lies in the first r entries of the list. */
  function Overlap(ws: seq<nat>, b: nat, r: nat): (n: nat)
    requires b < |ws|
  {
    var start := Sum(ws[..b]);
    if r <= start then 0 else Min(ws[b], r - start)
  }

  lemma {:induction false} BlockCount(ws: seq<nat>, n: nat, b: nat, r: nat)
    requires b < |ws| && n <= |ws| && r <= |Blocks(ws, n)|
    ensures CountTo(Blocks(ws, n), r, b) == if b < n then Overlap(ws, b, r) else 0
  {
    if n > 0 {
      var k := n - 1;
      var rest, block := Blocks(ws, k), seq(ws[k], _ => k);
      BlocksLength(ws, k);
      if r <= |rest| {
        BlockCount(ws, k, b, r);
        CountAgrees(rest + block, rest, r, b);
        assert b == k ==> Overlap(ws, b, r) == 0;
      } else {
        var d := r - |rest|;
        BlockCount(ws, k, b, |rest|);
        assert |rest| + d == r;
        CountConcat(rest, block, d, b);
        ConstantCount(block, d, k, b);
        if b < k {
          BlockEnds(ws, b, k);
        }
      }
    }
  }

  lemma {:induction false} ConstantCount(s: seq<int>, n: nat, k: int, x: int)
    requires n <= |s| && forall i :: 0 <= i < |s| ==> s[i] == k
    ensures CountTo(s, n, x) == if x == k then n else 0
  {
    if n > 0 {
      ConstantCount(s, n - 1, k, x);
    }
  }

  lemma {:induction false} BlockEnds(ws: seq<nat>, b: nat, k: nat)
    requires b < k <= |ws|
    ensures Sum(ws[..b]) + ws[b] <= Sum(ws[..k])
  {
    assert ws[..k][..k - 1] == ws[..k - 1];
    if b < k - 1 {
      BlockEnds(ws, b, k - 1);
    }
  }

  lemma ModStep(n: nat, l: nat)
    requires l > 0
    ensures n % l + 1 < l ==> (n + 1) % l == n % l + 1 && (n + 1) / l == n / l
    ensures n % l + 1 == l ==> (n + 1) % l == 0 && (n + 1) / l == n / l + 1
  {
    var q, r := n / l, n % l;
    assert n == q * l + r;
    if r + 1 < l {
      DivUnique(n + 1, l, q, r + 1);
    } else {
      MulSucc(q, l);
      DivUnique(n + 1, l, q + 1, 0);
    }
    assert n + 1 == ((n + 1) / l) * l + (n + 1) % l;
  }

  /** Counting in a list repeated for ever. */
  lemma {:induction false} CyclicCount(own: seq<int>, list: seq<int>, n: nat, x: int)
    requires n <= |own| && |list| > 0 && forall s: nat :: s < |own| ==> own[s] == list[s % |list|]
    ensures CountTo(own, n, x) == (n / |list|) * Count(list, x) + CountTo(list, n % |list|, x)
  {
    var l := |list|;
    if n == 0 {
      assert 0 / l == 0 && 0 % l == 0 && 0 * Count(list, x) == 0;
    } else {
      var k := n - 1;
      CyclicCount(own, list, k, x);
      ModStep(k, l);
      assert own[k] == list[k % l];
      MulSucc(k / l, Count(list, x));
      assert k + 1 == n;
    }
  }

  // ---- either ring

  /** The slots a backend gets beyond its weight for every whole round. */
  ghost function Extra(mode: HashMode, ws: seq<nat>, b: nat, r: nat): (n: nat)
    requires Weighted(ws) && b < |ws|
  {
    match mode
    case ByMaglev => TurnsOf(ws, r, b)
    case ByModulo => Overlap(ws, b, r)
  }

  lemma MaglevCount(q: seq<U32>, ws: seq<nat>, m: nat, h: Hashes, b: nat, total: nat)
    requires m > 0 && Weighted(ws) && |q| == |ws| && GoodSize(m) && b < |ws| && total == Sum(ws)
    ensures total > 0
    ensures Count(Owners(q, ws, ByMaglev, m, h), b) == (m / total) * ws[b] + TurnsOf(ws, m % total, b)
  {
    PlanIsOk(q, ws, m, h);
    FillCounts(PlanOf(q, ws, m, h), m, b);
    ExactTurns(ws, m, b, total);
  }

  lemma WholeBlock(ws: seq<nat>, b: nat, total: nat)
    requires Weighted(ws) && b < |ws| && total == Sum(ws)
    ensures total > 0 && |Blocks(ws, |ws|)| == total && Count(Blocks(ws, |ws|), b) == ws[b]
  {
    var list := Blocks(ws, |ws|);
    BlocksNonEmpty(ws);
    BlocksLength(ws, |ws|);
    assert ws[..|ws|] == ws;
    BlockCount(ws, |ws|, b, |list|);
    BlockEnds(ws, b, |ws|);
  }

  lemma ModuloCount(q: seq<U32>, ws: seq<nat>, m: nat, h: Hashes, b: nat, total: nat)
    requires m > 0 && Weighted(ws) && |q| == |ws| && b < |ws| && total == Sum(ws)
    ensures total > 0
    ensures Count(Owners(q, ws, ByModulo, m, h), b) == (m / total) * ws[b] + Overlap(ws, b, m % total)
  {
    var list := Blocks(ws, |ws|);
    WholeBlock(ws, b, total);
    CyclicCount(Owners(q, ws, ByModulo, m, h), list, m, b);
    BlockCount(ws, |ws|, b, m % total);
  }

  lemma OwnerCount(q: seq<U32>, ws: seq<nat>, mode: HashMode, m: nat, h: Hashes, b: nat, total: nat)
    requires m > 0 && Weighted(ws) && |q| == |ws| && SizeOk(mode, m) && b < |ws| && total == Sum(ws)
    ensures total > 0
    ensures Count(Owners(q, ws, mode, m, h), b) == (m / total) * ws[b] + Extra(mode, ws, b, m % total)
  {
    match mode
    case ByMaglev => MaglevCount(q, ws, m, h, b, total);
    case ByModulo => ModuloCount(q, ws, m, h, b, total);
  }

  lemma {:induction false} RelabelCount(own: seq<int>, q: seq<U32>, ids: map<U32, U32>, ring: seq<U32>, n: nat, b: nat)
    requires n <= |own| == |ring| && b < |q| && Ascending(q)
    requires forall a :: a in q ==> a in ids
    requires forall i, j :: 0 <= i < |q| && 0 <= j < |q| && ids[q[i]] == ids[q[j]] ==> i == j
    requires forall s :: 0 <= s < |own| ==> 0 <= own[s] < |q| && ring[s] == ids[q[own[s]]]
    ensures CountTo(ring, n, ids[q[b]]) == CountTo(own, n, b)
  {
    if n > 0 {
      RelabelCount(own, q, ids, ring, n - 1, b);
    }
  }

  ghost predicate Injective(ids: map<U32, U32>, keys: set<U32>) {
    && keys <= ids.Keys
    && forall a, b :: a in keys && b in keys && ids[a] == ids[b] ==> a == b
  }

  lemma RingCount(pairs: map<U32, nat>, ids: map<U32, U32>, mode: HashMode, m: nat, h: Hashes, q: seq<U32>,
                  ws: seq<nat>, b: nat)
    requires Positive(pairs) && pairs != map[] && m > 0 && SizeOk(mode, m) && Injective(ids, pairs.Keys)
    requires q == Listed(pairs.Keys) && (forall a :: a in q ==> a in pairs) && ws == WeightsOf(pairs, q) && b < |q|
    ensures Weighted(ws) && Sum(ws) > 0
    ensures Count(RingOf(pairs, ids, mode, m, h), ids[q[b]]) == (m / Sum(ws)) * ws[b] + Extra(mode, ws, b, m % Sum(ws))
  {
    WeightsArePositive(pairs, q);
    var own, ring := Owners(q, ws, mode, m, h), RingOf(pairs, ids, mode, m, h);
    forall s | 0 <= s < m
      ensures 0 <= own[s] < |q| && ring[s] == ids[q[own[s]]]
    {
      AddrRingAt(pairs, q, ws, mode, m, h, s);
      assert q[own[s]] in q;
    }
    forall i, j | 0 <= i < |q| && 0 <= j < |q| && ids[q[i]] == ids[q[j]]
      ensures i == j
    {
      assert q[i] in q && q[j] in q;
    }
    RelabelCount(own, q, ids, ring, m, b);
    OwnerCount(q, ws, mode, m, h, b, Sum(ws));
  }

  ghost predicate DistinctIds(bs: seq<Backend>) {
    forall i, j :: 0 <= i < j < |bs| && bs[i].weight > 0 && bs[j].weight > 0 ==> bs[i].realId != bs[j].realId
  }

  lemma NumberingInjective(bs: seq<Backend>)
    requires !Clash(bs) && DistinctIds(bs)
    ensures Injective(Numbering(bs), Pairs(bs).Keys)
  {
    forall a | a in Pairs(bs)
      ensures a in Numbering(bs)
    {
      var i := PairFrom(bs, |bs|, a);
      PairAt(bs, |bs|, i);
    }
    forall a, b | a in Pairs(bs) && b in Pairs(bs) && Numbering(bs)[a] == Numbering(bs)[b]
      ensures a == b
    {
      var i := PairFrom(bs, |bs|, a);
      var j := PairFrom(bs, |bs|, b);
      PairAt(bs, |bs|, i);
      PairAt(bs, |bs|, j);
    }
  }

  /**
   What build_ring gives backend k of its input, for any hashes: its weight for every whole round
   of sum(weights) slots, and its part of the round that is cut off. b is its place in address order.
   */
  lemma BackendSlots(bs: seq<Backend>, mode: HashMode, m: nat, h: Hashes, k: nat) returns (ws: seq<nat>, b: nat)
    requires !Clash(bs) && DistinctIds(bs) && m > 0 && SizeOk(mode, m) && k < |bs| && bs[k].weight > 0
    ensures Weighted(ws) && b < |ws| && ws[b] == bs[k].weight && Sum(ws) > 0
    ensures var q := Listed(Pairs(bs).Keys);
            |q| == |ws| && q[b] == bs[k].addr && forall i :: 0 <= i < |q|
                                                   ==> q[i] in Pairs(bs) && ws[i] == Pairs(bs)[q[i]]
    ensures RingSpec(bs, mode, m, h).Ok?
    ensures Count(RingSpec(bs, mode, m, h).value, bs[k].realId)
            == (m / Sum(ws)) * bs[k].weight + Extra(mode, ws, b, m % Sum(ws))
  {
    var pairs, q := Pairs(bs), Listed(Pairs(bs).Keys);
    PairAt(bs, |bs|, k);
    PairsPositive(bs, |bs|);
    NumberingInjective(bs);
    assert bs[k].addr in q;
    b :| 0 <= b < |q| && q[b] == bs[k].addr;
    ws := WeightsOf(pairs, q);
    assert forall i :: 0 <= i < |q| ==> q[i] in q;
    RingCount(pairs, Numbering(bs), mode, m, h, q, ws, b);
  }

  // ---- the promised shares

  function Gap(x: int, y: int): (d: nat) {
    if x < y then y - x else x - y
  }

  /** count / m is within 1 % of w / total. */
  predicate WithinPercent(count: nat, w: nat, total: nat, m: nat) {
    100 * Gap(count * total, w * m) <= w * m
  }

  /** count is within one slot of m * w / total. */
  predicate WithinOneSlot(count: nat, w: nat, total: nat, m: nat) {
    Gap(count * total, w * m) <= total
  }

  lemma GapIs(m: nat, q: nat, r: nat, total: nat, w: nat, extra: nat, count: nat)
    requires m == q * total + r && count == q * w + extra
    ensures Gap(count * total, w * m) == Gap(extra * total, w * r)
  {
    assert count * total == (q * w) * total + extra * total;
    assert (q * w) * total == w * (q * total);
    assert w * m == w * (q * total) + w * r;
  }

  lemma Bounded(extra: nat, w: nat, total: nat, r: nat)
    requires extra <= w && r <= total
    ensures Gap(extra * total, w * r) <= w * total
  {
    assert extra * total <= w * total;
    assert w * r <= w * total;
  }

  lemma Product(w: nat, x: nat, y: nat)
    requires x <= y
    ensures w * x <= w * y
  {
  }

  lemma CutOffRound(ws: seq<nat>, r: nat, b: nat, total: nat)
    requires Weighted(ws) && b < |ws| && r < total == Sum(ws)
    ensures TurnsOf(ws, r, b) <= ws[b]
  {
    Shares(ws, r, b);
    assert r / total == 0;
  }

  /**
   Maglev's share is within 1 % exactly when what the backend has taken of the cut-off round is near its
   part of it.
   */
  lemma PercentIff(ws: seq<nat>, m: nat, b: nat, total: nat, r: nat, count: nat)
    requires Weighted(ws) && b < |ws| && total == Sum(ws) && total > 0 && r == m % total
    requires count == (m / total) * ws[b] + TurnsOf(ws, r, b)
    ensures WithinPercent(count, ws[b], total, m) <==> 100 * Gap(TurnsOf(ws, r, b) * total, ws[b] * r) <= ws[b] * m
  {
    Divided(m, total);
    GapIs(m, m / total, r, total, ws[b], TurnsOf(ws, r, b), count);
  }

  /** With weights that add up to at most a hundredth of the ring it always is. */
  lemma SmallWeights(ws: seq<nat>, m: nat, b: nat, total: nat, r: nat, count: nat)
    requires Weighted(ws) && b < |ws| && total == Sum(ws) && total > 0 && r == m % total && 100 * total <= m
    requires count == (m / total) * ws[b] + TurnsOf(ws, r, b)
    ensures WithinPercent(count, ws[b], total, m)
  {
    PercentIff(ws, m, b, total, r, count);
    CutOffRound(ws, r, b, total);
    Bounded(TurnsOf(ws, r, b), ws[b], total, r);
    HundredTimes(ws[b], total, m);
  }

  lemma HundredTimes(w: nat, total: nat, m: nat)
    requires 100 * total <= m
    ensures 100 * (w * total) <= w * m
  {
    Product(w, 100 * total, m);
    assert w * (100 * total) == 100 * (w * total);
  }

  /** Modulo's share is within one slot exactly when its part of the cut-off round is. */
  lemma OneSlotIff(ws: seq<nat>, m: nat, b: nat, total: nat, r: nat, count: nat)
    requires Weighted(ws) && b < |ws| && total == Sum(ws) && total > 0 && r == m % total
    requires count == (m / total) * ws[b] + Overlap(ws, b, r)
    ensures WithinOneSlot(count, ws[b], total, m) <==> Gap(Overlap(ws, b, r) * total, ws[b] * r) <= total
  {
    Divided(m, total);
    GapIs(m, m / total, r, total, ws[b], Overlap(ws, b, r), count);
  }

  /** Both, of the ring build_ring returns. */
  lemma SharesIff(bs: seq<Backend>, mode: HashMode, m: nat, h: Hashes, k: nat) returns (ws: seq<nat>, b: nat,
                  total: nat, r: nat)
    requires !Clash(bs) && DistinctIds(bs) && m > 0 && SizeOk(mode, m) && k < |bs| && bs[k].weight > 0
    ensures Weighted(ws) && b < |ws| && total == Sum(ws) > 0 && r == m % total && RingSpec(bs, mode, m, h).Ok?
    ensures var q := Listed(Pairs(bs).Keys);
            |q| == |ws| && q[b] == bs[k].addr && forall i :: 0 <= i < |q|
                                                   ==> q[i] in Pairs(bs) && ws[i] == Pairs(bs)[q[i]]
    ensures var count, w := Count(RingSpec(bs, mode, m, h).value, bs[k].realId), bs[k].weight;
            && (mode == ByMaglev ==>
                  && (WithinPercent(count, w, total, m) <==> 100 * Gap(TurnsOf(ws, r, b) * total, w * r) <= w * m)
                  && (100 * total <= m ==> WithinPercent(count, w, total, m)))
            && (mode == ByModulo ==> (WithinOneSlot(count, w, total, m)
               <==> Gap(Overlap(ws, b, r) * total, w * r) <= total))
  {
    ws, b := BackendSlots(bs, mode, m, h, k);
    total := Sum(ws);
    r := m % total;
    var count := Count(RingSpec(bs, mode, m, h).value, bs[k].realId);
    if mode == ByMaglev {
      PercentIff(ws, m, b, total, r, count);
      if 100 * total <= m {
        SmallWeights(ws, m, b, total, r, count);
      }
    } else {
      OneSlotIff(ws, m, b, total, r, count);
    }
  }

  // ---- neither promise is a bound

  /** The first pass gives every backend a turn, however small its weight. */
  lemma {:induction false} FirstPass(ws: seq<nat>, b: nat)
    requires Weighted(ws) && b < |ws|
    ensures Turn(ws, b) == Pos(0, 0, b)
  {
    if b > 0 {
      FirstPass(ws, b - 1);
      NextTurn(ws, b - 1);
    }
  }

  ghost predicate Two(bs: seq<Backend>, v: U32, w: U32) {
    |bs| == 2 && bs[0] == Backend(1, 10, v) && bs[1] == Backend(2, 20, w) && v > 0 && w > 0
  }

  lemma TwoBackends(bs: seq<Backend>, v: U32, w: U32)
    requires Two(bs, v, w)
    ensures !Clash(bs) && DistinctIds(bs)
    ensures Pairs(bs) == map[10 := v, 20 := w] && Listed(Pairs(bs).Keys) == [10, 20]
  {
    assert PairsTo(bs, 1) == map[10 := v];
    ListUnique([10, 20], Listed(Pairs(bs).Keys), Pairs(bs).Keys);
  }

  lemma SumOfTwo(ws: seq<nat>, v: nat, w: nat)
    requires ws == [v, w]
    ensures Sum(ws) == v + w && Sum(ws[..0]) == 0
  {
    assert ws[..1] == [v] && ws[..0] == [] && [v][..0] == [];
    assert Sum([v]) == v;
  }

  /** Weights 1 and 3 on two slots: one slot each, where a quarter and three quarters were promised. */
  lemma NotWithinPercent(bs: seq<Backend>, h: Hashes)
    requires Two(bs, 1, 3)
    ensures SizeOk(ByMaglev, 2) && RingSpec(bs, ByMaglev, 2, h).Ok?
    ensures !WithinPercent(Count(RingSpec(bs, ByMaglev, 2, h).value, 1), 1, 4, 2)
  {
    TwoBackends(bs, 1, 3);
    var ws, b, total, r := SharesIff(bs, ByMaglev, 2, h, 0);
    assert ws == [1, 3];
    SumOfTwo(ws, 1, 3);
    FirstPass(ws, 0);
    FirstPass(ws, 1);
    assert TurnsOf(ws, 1, 0) == 1;
    assert TurnsOf(ws, 2, 0) == 1;
  }

  /** Weights 3 and 3 on three slots: the first gets all three, where one and a half were promised. */
  lemma NotWithinOneSlot(bs: seq<Backend>, h: Hashes)
    requires Two(bs, 3, 3)
    ensures RingSpec(bs, ByModulo, 3, h).Ok? && !WithinOneSlot(Count(RingSpec(bs, ByModulo, 3, h).value, 1), 3, 6, 3)
  {
    TwoBackends(bs, 3, 3);
    var ws, b, total, r := SharesIff(bs, ByModulo, 3, h, 0);
    assert ws == [3, 3];
    SumOfTwo(ws, 3, 3);
    assert Overlap(ws, 0, 3) == 3;
  }
}
