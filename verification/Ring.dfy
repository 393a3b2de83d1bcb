/**
 build_ring. The ring is a function of the SET of (address, weight) pairs: listing order, real-id
 numbering and drained backends cannot influence which address a slot belongs to.
 */
module Ring {
  import opened Basics
  import opened Schedule
  import opened Maglev
  import opened BuildMaglev

  datatype HashMode = ByMaglev | ByModulo

  /** Maglev's walks need a prime ring; the modulo ring may have any size. */
  ghost predicate SizeOk(mode: HashMode, m: nat) {
    mode == ByMaglev ==> GoodSize(m)
  }

  // ---- ascending lists of addresses

  ghost predicate Ascending(q: seq<U32>) {
    forall i, j :: 0 <= i < j < |q| ==> q[i] < q[j]
  }

  ghost predicate Lists(q: seq<U32>, s: set<U32>) {
    Ascending(q) && forall a :: a in q <==> a in s
  }

  lemma {:induction false} ListExists(s: set<U32>) returns (q: seq<U32>)
    ensures Lists(q, s)
  {
    if s == {} {
      q := [];
    } else {
      var top := Largest(s);
      var rest := ListExists(s - {top});
      assert forall i :: 0 <= i < |rest| ==> rest[i] in rest;
      q := rest + [top];
    }
  }

  lemma {:induction false} Largest(s: set<U32>) returns (top: U32)
    requires s != {}
    ensures top in s && forall a :: a in s ==> a <= top
  {
    top :| top in s;
    if s != {top} {
      var rest := s - {top};
      var other := Largest(rest);
      assert forall a :: a in s ==> a == top || a in rest;
      if top < other {
        top := other;
      }
    }
  }

  lemma HasList(s: set<U32>)
    ensures exists q :: Lists(q, s)
  {
    var q := ListExists(s);
  }

  lemma EmptyOrHas(q: seq<U32>)
    ensures q == [] || exists a :: a in q
  {
    if q != [] {
      assert q[0] in q;
    }
  }

  lemma Chop(q: seq<U32>, s: set<U32>)
    requires Lists(q, s) && q != []
    ensures q[|q| - 1] in s && forall a :: a in s ==> a <= q[|q| - 1]
    ensures Lists(q[..|q| - 1], s - {q[|q| - 1]})
  {
    var i := |q| - 1;
    assert q == q[..i] + [q[i]];
  }

  /** An ascending list is determined by its elements. */
  lemma {:induction false} ListUnique(q: seq<U32>, r: seq<U32>, s: set<U32>)
    requires Lists(q, s) && Lists(r, s)
    ensures q == r
  {
    EmptyOrHas(q);
    EmptyOrHas(r);
    if q != [] {
      var i, j := |q| - 1, |r| - 1;
      Chop(q, s);
      Chop(r, s);
      ListUnique(q[..i], r[..j], s - {q[i]});
      assert q == q[..i] + [q[i]] && r == r[..j] + [r[j]];
    }
  }

  ghost function Listed(s: set<U32>): (q: seq<U32>)
    ensures Lists(q, s)
  {
    HasList(s);
    var q :| Lists(q, s);
    q
  }

  // ---- modulo

  /** Backend i repeated weight[i] times, in order. */
  function Blocks(ws: seq<nat>, n: nat): (list: seq<int>)
    requires n <= |ws|
  {
    if n == 0 then [] else Blocks(ws, n - 1) + seq(ws[n - 1], _ => n - 1)
  }

  lemma {:induction false} BlocksLength(ws: seq<nat>, n: nat)
    requires n <= |ws|
    ensures |Blocks(ws, n)| == Sum(ws[..n])
  {
    if n > 0 {
      BlocksLength(ws, n - 1);
      assert ws[..n][..n - 1] == ws[..n - 1];
    }
  }

  lemma {:induction false} BlocksIndex(ws: seq<nat>, n: nat, k: nat)
    requires n <= |ws| && k < |Blocks(ws, n)|
    ensures 0 <= Blocks(ws, n)[k] < n
  {
    if k < |Blocks(ws, n - 1)| {
      BlocksIndex(ws, n - 1, k);
    }
  }

  // ---- the ring as a function of the pairs

  function WeightsOf(pairs: map<U32, nat>, q: seq<U32>): (ws: seq<nat>)
    requires forall a :: a in q ==> a in pairs
    ensures |ws| == |q|
  {
    seq(|q|, i requires 0 <= i < |q| => pairs[q[i]])
  }

  ghost predicate Positive(pairs: map<U32, nat>) {
    forall a :: a in pairs ==> pairs[a] > 0
  }

  lemma WeightsArePositive(pairs: map<U32, nat>, q: seq<U32>)
    requires Positive(pairs) && q != [] && forall a :: a in q ==> a in pairs
    ensures Weighted(WeightsOf(pairs, q))
  {
    forall i | 0 <= i < |q|
      ensures WeightsOf(pairs, q)[i] > 0
    {
      assert q[i] in q;
    }
  }

  /** The owner of each slot, as a position in the ascending address list. */
  ghost function Owners(q: seq<U32>, ws: seq<nat>, mode: HashMode, m: nat, h: Hashes): (own: seq<int>)
    requires m > 0 && Weighted(ws) && |q| == |ws| && SizeOk(mode, m)
    ensures |own| == m
  {
    match mode
    case ByMaglev =>
      PlanIsOk(q, ws, m, h);
      Fill(PlanOf(q, ws, m, h), m)
    case ByModulo =>
      BlocksNonEmpty(ws);
      var list := Blocks(ws, |ws|);
      seq(m, s requires 0 <= s < m => list[s % |list|])
  }

  lemma BlocksNonEmpty(ws: seq<nat>)
    requires Weighted(ws)
    ensures Blocks(ws, |ws|) != []
  {
  }

  lemma OwnersInRange(q: seq<U32>, ws: seq<nat>, mode: HashMode, m: nat, h: Hashes, s: nat)
    requires s < m && Weighted(ws) && |q| == |ws| && SizeOk(mode, m)
    ensures 0 <= Owners(q, ws, mode, m, h)[s] < |q|
  {
    match mode
    case ByMaglev =>
      PlanIsOk(q, ws, m, h);
      RingIsFull(PlanOf(q, ws, m, h), s);
    case ByModulo =>
      BlocksNonEmpty(ws);
      var list := Blocks(ws, |ws|);
      BlocksIndex(ws, |ws|, s % |list|);
  }

  /** The address that owns each slot: no real id and no listing order appears. */
  ghost function AddrRing(pairs: map<U32, nat>, mode: HashMode, m: nat, h: Hashes): (ring: seq<Option<U32>>)
    requires Positive(pairs) && (m == 0 || SizeOk(mode, m))
    ensures |ring| == m
  {
    if pairs == map[] || m == 0 then seq(m, _ => None) else
      var q := Listed(pairs.Keys);
      assert q != [] by { var a :| a in pairs; assert a in q; }
      WeightsArePositive(pairs, q);
      var own := Owners(q, WeightsOf(pairs, q), mode, m, h);
      seq(m, s requires 0 <= s < m => if 0 <= own[s] < |q| then Some(q[own[s]]) else None)
  }

  lemma AddrRingAt(pairs: map<U32, nat>, q: seq<U32>, ws: seq<nat>, mode: HashMode, m: nat, h: Hashes, s: nat)
    requires Positive(pairs) && pairs != map[] && q == Listed(pairs.Keys) && (forall a :: a in q ==> a in pairs)
    requires ws == WeightsOf(pairs, q) && Weighted(ws) && |q| == |ws| && s < m && SizeOk(mode, m)
    ensures 0 <= Owners(q, ws, mode, m, h)[s] < |q|
    ensures AddrRing(pairs, mode, m, h)[s] == Some(q[Owners(q, ws, mode, m, h)[s]])
  {
    OwnersInRange(q, ws, mode, m, h, s);
  }

  /** Whole or empty: with no pair every slot is free, otherwise every slot has a listed address. */
  lemma AddrRingIsWhole(pairs: map<U32, nat>, mode: HashMode, m: nat, h: Hashes, s: nat)
    requires Positive(pairs) && s < m && SizeOk(mode, m)
    ensures pairs == map[] ==> AddrRing(pairs, mode, m, h)[s] == None
    ensures pairs != map[] ==>
              AddrRing(pairs, mode, m, h)[s].Some? && AddrRing(pairs, mode, m, h)[s].value in pairs
  {
    if pairs != map[] {
      var q := Listed(pairs.Keys);
      assert q != [] by { var a :| a in pairs; assert a in q; }
      WeightsArePositive(pairs, q);
      AddrRingAt(pairs, q, WeightsOf(pairs, q), mode, m, h, s);
    }
  }

  function Relabel(slot: Option<U32>, ids: map<U32, U32>): (id: U32) {
    if slot.Some? && slot.value in ids then ids[slot.value] else REAL_NONE
  }

  /** The ring of real ids for these pairs, under this numbering of the addresses. */
  ghost function RingOf(pairs: map<U32, nat>, ids: map<U32, U32>, mode: HashMode, m: nat, h: Hashes): (ring: seq<U32>)
    requires Positive(pairs) && (m == 0 || SizeOk(mode, m))
    ensures |ring| == m
  {
    var slots := AddrRing(pairs, mode, m, h);
    seq(m, s requires 0 <= s < m => Relabel(slots[s], ids))
  }

  // ---- what a list of backends stands for

  ghost predicate Clash(bs: seq<Backend>) {
    exists i, j :: 0 <= i < j < |bs| && bs[i].weight > 0 && bs[j].weight > 0 && bs[i].addr == bs[j].addr
  }

  /** The (address, weight) pairs of the first n backends that take slots. */
  function PairsTo(bs: seq<Backend>, n: nat): (pairs: map<U32, nat>)
    requires n <= |bs|
  {
    if n == 0 then map[] else
      var rest := PairsTo(bs, n - 1);
      if bs[n - 1].weight > 0 then rest[bs[n - 1].addr := bs[n - 1].weight] else rest
  }

  /** The real id of each of those addresses. */
  function NumbersTo(bs: seq<Backend>, n: nat): (ids: map<U32, U32>)
    requires n <= |bs|
  {
    if n == 0 then map[] else
      var rest := NumbersTo(bs, n - 1);
      if bs[n - 1].weight > 0 then rest[bs[n - 1].addr := bs[n - 1].realId] else rest
  }

  function Pairs(bs: seq<Backend>): (pairs: map<U32, nat>) {
    PairsTo(bs, |bs|)
  }

  function Numbering(bs: seq<Backend>): (ids: map<U32, U32>) {
    NumbersTo(bs, |bs|)
  }

  lemma {:induction false} PairsPositive(bs: seq<Backend>, n: nat)
    requires n <= |bs|
    ensures Positive(PairsTo(bs, n))
  {
    if n > 0 {
      PairsPositive(bs, n - 1);
    }
  }

  /** What build_ring returns. */
  ghost function RingSpec(bs: seq<Backend>, mode: HashMode, m: nat, h: Hashes): (r: Result<seq<U32>>)
    requires m == 0 || SizeOk(mode, m)
  {
    if Clash(bs) then Err("duplicate backend address") else
      PairsPositive(bs, |bs|);
      Ok(RingOf(Pairs(bs), Numbering(bs), mode, m, h))
  }
}
