/** The ring builders as the daemon runs them, proved equal to the ring of the pairs. */
module BuildRing {
  import opened Basics
  import opened Schedule
  import opened Maglev
  import opened BuildMaglev
  import opened Ring

  // ---- active_sorted

  ghost predicate Sorted(s: seq<Backend>) {
    forall i, j :: 0 <= i < j < |s| ==> s[i].addr <= s[j].addr
  }

  /** How many of the first n backends are weighted and have this address. */
  ghost function Held(s: seq<Backend>, n: nat, a: U32): (c: nat)
    requires n <= |s|
  {
    if n == 0 then 0 else Held(s, n - 1, a) + if s[n - 1].weight > 0 && s[n - 1].addr == a then 1 else 0
  }

  lemma {:induction false} HeldAgrees(s: seq<Backend>, t: seq<Backend>, n: nat, a: U32)
    requires n <= |s| && n <= |t| && forall k :: 0 <= k < n ==> s[k] == t[k]
    ensures Held(s, n, a) == Held(t, n, a)
  {
    if n > 0 {
      HeldAgrees(s, t, n - 1, a);
    }
  }

  lemma {:induction false} HeldConcat(s: seq<Backend>, t: seq<Backend>, n: nat, a: U32)
    requires n <= |t|
    ensures Held(s + t, |s| + n, a) == Held(s, |s|, a) + Held(t, n, a)
  {
    if n == 0 {
      HeldAgrees(s + t, s, |s|, a);
    } else {
      HeldConcat(s, t, n - 1, a);
    }
  }

  lemma HeldInsert(s: seq<Backend>, k: nat, b: Backend, a: U32)
    requires k <= |s|
    ensures Held(s[..k] + [b] + s[k..], |s| + 1, a) == Held(s, |s|, a) + Held([b], 1, a)
  {
    HeldConcat(s[..k] + [b], s[k..], |s| - k, a);
    HeldConcat(s[..k], [b], 1, a);
    HeldConcat(s[..k], s[k..], |s| - k, a);
    assert s[..k] + s[k..] == s;
  }

  lemma {:induction false} HeldWitness(s: seq<Backend>, n: nat, a: U32) returns (k: nat)
    requires n <= |s| && Held(s, n, a) > 0
    ensures k < n && s[k].weight > 0 && s[k].addr == a
  {
    k := n - 1;
    if !(s[k].weight > 0 && s[k].addr == a) {
      k := HeldWitness(s, n - 1, a);
    }
  }

  lemma {:induction false} HeldTwice(s: seq<Backend>, n: nat, a: U32)
    requires n <= |s| && Held(s, n, a) >= 2
    ensures Clash(s)
  {
    if s[n - 1].weight > 0 && s[n - 1].addr == a {
      var k := HeldWitness(s, n - 1, a);
      assert s[k].addr == s[n - 1].addr;
    } else {
      HeldTwice(s, n - 1, a);
    }
  }

  lemma {:induction false} HeldAt(s: seq<Backend>, n: nat, i: nat)
    requires i < n <= |s| && s[i].weight > 0
    ensures Held(s, n, s[i].addr) >= 1
  {
    if i < n - 1 {
      HeldAt(s, n - 1, i);
    }
  }

  lemma {:induction false} ClashHeld(s: seq<Backend>, n: nat, i: nat, j: nat)
    requires i < j < n <= |s| && s[i].weight > 0 && s[j].weight > 0 && s[i].addr == s[j].addr
    ensures Held(s, n, s[i].addr) >= 2
  {
    if j == n - 1 {
      HeldAt(s, n - 1, i);
    } else {
      ClashHeld(s, n - 1, i, j);
    }
  }

  /** The same weighted backends, as often: b occurs in one as in the other, addresses as often. */
  ghost predicate SameHeld(s: seq<Backend>, t: seq<Backend>) {
    && (forall b: Backend :: b.weight > 0 ==> (b in s <==> b in t))
    && (forall a: U32 :: Held(s, |s|, a) == Held(t, |t|, a))
  }

  lemma SameHeldClash(s: seq<Backend>, t: seq<Backend>)
    requires SameHeld(s, t) && Clash(s)
    ensures Clash(t)
  {
    var i, j :| 0 <= i < j < |s| && s[i].weight > 0 && s[j].weight > 0 && s[i].addr == s[j].addr;
    ClashHeld(s, |s|, i, j);
    HeldTwice(t, |t|, s[i].addr);
  }

  lemma {:induction false} PairAt(s: seq<Backend>, n: nat, i: nat)
    requires !Clash(s) && i < n <= |s| && s[i].weight > 0
    ensures s[i].addr in PairsTo(s, n) && PairsTo(s, n)[s[i].addr] == s[i].weight
    ensures s[i].addr in NumbersTo(s, n) && NumbersTo(s, n)[s[i].addr] == s[i].realId
  {
    if i < n - 1 {
      PairAt(s, n - 1, i);
    }
  }

  lemma {:induction false} PairFrom(s: seq<Backend>, n: nat, a: U32) returns (i: nat)
    requires n <= |s| && (a in PairsTo(s, n) || a in NumbersTo(s, n))
    ensures i < n && s[i].weight > 0 && s[i].addr == a
  {
    i := n - 1;
    if !(s[i].weight > 0 && s[i].addr == a) {
      i := PairFrom(s, n - 1, a);
    }
  }

  lemma SamePair(s: seq<Backend>, t: seq<Backend>, a: U32)
    requires SameHeld(s, t) && !Clash(s) && !Clash(t) && (a in Pairs(s) || a in Numbering(s))
    ensures a in Pairs(s) && a in Numbering(s) && a in Pairs(t) && a in Numbering(t)
    ensures Pairs(t)[a] == Pairs(s)[a] && Numbering(t)[a] == Numbering(s)[a]
  {
    var i := PairFrom(s, |s|, a);
    PairAt(s, |s|, i);
    assert s[i] in t;
    var j :| 0 <= j < |t| && t[j] == s[i];
    PairAt(t, |t|, j);
  }

  lemma SameHeldPairs(s: seq<Backend>, t: seq<Backend>)
    requires SameHeld(s, t) && !Clash(s) && !Clash(t)
    ensures Pairs(s) == Pairs(t) && Numbering(s) == Numbering(t)
  {
    var ps, pt, ns, nt := Pairs(s), Pairs(t), Numbering(s), Numbering(t);
    forall a: U32
      ensures a in ps <==> a in pt
      ensures a in ns <==> a in nt
      ensures a in ps ==> ps[a] == pt[a]
      ensures a in ns ==> ns[a] == nt[a]
    {
      if a in ps || a in ns {
        SamePair(s, t, a);
      } else if a in pt || a in nt {
        SamePair(t, s, a);
      }
    }
  }

  method Insert(s: seq<Backend>, b: Backend) returns (r: seq<Backend>)
    requires Sorted(s)
    ensures Sorted(r) && |r| == |s| + 1
    ensures exists k: nat :: k <= |s| && r == s[..k] + [b] + s[k..]
  {
    var k := 0;
    while k < |s| && s[k].addr < b.addr
      invariant k <= |s| && forall i :: 0 <= i < k ==> s[i].addr < b.addr
    {
      k := k + 1;
    }
    r := s[..k] + [b] + s[k..];
  }

  /** Stands for std::sort by address: some ascending order of the same elements. */
  method SortByAddr(s: seq<Backend>) returns (r: seq<Backend>)
    requires forall b :: b in s ==> b.weight > 0
    ensures Sorted(r) && SameHeld(s, r) && forall b :: b in r ==> b in s
  {
    r := [];
    for n := 0 to |s|
      invariant Sorted(r) && SameHeld(s[..n], r) && forall b :: b in r ==> b in s[..n]
    {
      var t := r;
      r := Insert(t, s[n]);
      ghost var k: nat :| k <= |t| && r == t[..k] + [s[n]] + t[k..];
      InsertKeeps(s[..n], t, k, s[n], r);
      assert s[..n + 1] == s[..n] + [s[n]];
    }
    assert s[..|s|] == s;
  }

  lemma InsertKeeps(s: seq<Backend>, t: seq<Backend>, k: nat, b: Backend, r: seq<Backend>)
    requires SameHeld(s, t) && k <= |t| && r == t[..k] + [b] + t[k..]
    requires forall x :: x in t ==> x in s
    ensures SameHeld(s + [b], r) && forall x :: x in r ==> x in s + [b]
  {
    assert t == t[..k] + t[k..];
    forall a: U32
      ensures Held(s + [b], |s| + 1, a) == Held(r, |r|, a)
    {
      HeldInsert(t, k, b, a);
      HeldConcat(s, [b], 1, a);
    }
  }

  /** Weighted backends in address order; fails exactly when two of them share an address. */
  method ActiveSorted(bs: seq<Backend>) returns (r: Result<seq<Backend>>)
    ensures r.Err? <==> Clash(bs)
    ensures r.Ok? ==> Ascending(Addrs(r.value)) && SameHeld(bs, r.value)
    ensures r.Ok? ==> forall b :: b in r.value ==> b.weight > 0 && b in bs
  {
    var out := [];
    for n := 0 to |bs|
      invariant SameHeld(bs[..n], out) && forall b :: b in out ==> b.weight > 0 && b in bs[..n]
    {
      assert bs[..n + 1] == bs[..n] + [bs[n]];
      if bs[n].weight > 0 {
        AppendKeeps(bs[..n], out, bs[n]);
        out := out + [bs[n]];
      } else {
        DropKeeps(bs[..n], out, bs[n]);
      }
    }
    assert bs[..|bs|] == bs;
    var sorted := SortByAddr(out);
    assert SameHeld(bs, sorted);
    for i := 0 to |sorted|
      invariant forall k :: 0 <= k && k + 1 < |sorted| && k < i ==> sorted[k].addr != sorted[k + 1].addr
    {
      if i + 1 < |sorted| && sorted[i].addr == sorted[i + 1].addr {
        assert sorted[i] in sorted && sorted[i + 1] in sorted;
        assert Clash(sorted);
        SameHeldClash(sorted, bs);
        return Err("duplicate backend address");
      }
    }
    StrictlyAscending(sorted);
    NoClash(sorted, bs);
    return Ok(sorted);
  }

  lemma AppendKeeps(s: seq<Backend>, t: seq<Backend>, b: Backend)
    requires SameHeld(s, t)
    ensures SameHeld(s + [b], t + [b])
  {
    var s', t' := s + [b], t + [b];
    forall a: U32
      ensures Held(s', |s'|, a) == Held(t', |t'|, a)
    {
      HeldConcat(s, [b], 1, a);
      HeldConcat(t, [b], 1, a);
    }
  }

  lemma DropKeeps(s: seq<Backend>, t: seq<Backend>, b: Backend)
    requires SameHeld(s, t) && b.weight == 0
    ensures SameHeld(s + [b], t)
  {
    forall a: U32
      ensures Held(s + [b], |s| + 1, a) == Held(t, |t|, a)
    {
      HeldConcat(s, [b], 1, a);
    }
  }

  lemma {:induction false} NeighboursDiffer(s: seq<Backend>, i: nat, j: nat)
    requires Sorted(s) && i < j < |s|
    requires forall k :: 0 <= k && k + 1 < |s| ==> s[k].addr != s[k + 1].addr
    ensures s[i].addr < s[j].addr
  {
    assert s[j - 1].addr != s[j - 1 + 1].addr;
  }

  lemma StrictlyAscending(s: seq<Backend>)
    requires Sorted(s)
    requires forall k :: 0 <= k && k + 1 < |s| ==> s[k].addr != s[k + 1].addr
    ensures Ascending(Addrs(s))
  {
    forall i, j | 0 <= i < j < |s|
      ensures Addrs(s)[i] < Addrs(s)[j]
    {
      NeighboursDiffer(s, i, j);
    }
  }

  lemma AscendingNoClash(s: seq<Backend>)
    requires Ascending(Addrs(s))
    ensures !Clash(s)
  {
    forall i, j | 0 <= i < j < |s|
      ensures s[i].addr != s[j].addr
    {
      assert Addrs(s)[i] < Addrs(s)[j];
    }
  }

  lemma NoClash(s: seq<Backend>, t: seq<Backend>)
    requires Ascending(Addrs(s)) && SameHeld(t, s)
    ensures !Clash(s) && !Clash(t)
  {
    AscendingNoClash(s);
    if Clash(t) {
      SameHeldClash(t, s);
      assert false;
    }
  }

  // ---- build_modulo and build_ring

  /** build_modulo: slot s goes to the (s mod L)-th entry of the list of repeated backends. */
  method BuildModulo(sorted: seq<Backend>, m: nat) returns (ring: seq<U32>)
    requires Active(sorted)
    ensures |ring| == m
    ensures sorted == [] ==> forall s :: 0 <= s < m ==> ring[s] == REAL_NONE
    ensures sorted != [] ==>
              var list := Blocks(Weights(sorted), |sorted|);
              list != [] && forall s: nat :: s < m ==> ring[s] == Label(list[s % |list|], Ids(sorted))
  {
    var entry := new U32[m](_ => REAL_NONE);
    var list: seq<U32> := [];
    ghost var blocks := [];
    for n := 0 to |sorted|
      invariant blocks == Blocks(Weights(sorted), n) && |list| == |blocks|
      invariant forall k :: 0 <= k < |list| ==> list[k] == Label(blocks[k], Ids(sorted))
    {
      list := list + seq(sorted[n].weight, _ => sorted[n].realId);
      blocks := blocks + seq(sorted[n].weight, _ => n);
    }
    if sorted != [] {
      WeightsActive(sorted);
      BlocksNonEmpty(Weights(sorted));
    }
    if list == [] { return entry[..]; }
    for i := 0 to m
      invariant forall s: nat :: s < i ==> entry[s] == Label(blocks[s % |blocks|], Ids(sorted))
    {
      entry[i] := list[i % |list|];
    }
    ring := entry[..];
  }

  lemma WeightsActive(sorted: seq<Backend>)
    requires Active(sorted) && sorted != []
    ensures Weighted(Weights(sorted))
  {
    forall i | 0 <= i < |sorted|
      ensures Weights(sorted)[i] > 0
    {
      assert sorted[i] in sorted;
    }
  }

  /** An ascending list of weighted backends spells out its own pairs and numbering. */
  lemma SortedSpellsOut(sorted: seq<Backend>)
    requires Ascending(Addrs(sorted)) && Active(sorted)
    ensures !Clash(sorted)
    ensures Addrs(sorted) == Listed(Pairs(sorted).Keys)
    ensures forall a :: a in Addrs(sorted) ==> a in Pairs(sorted)
    ensures WeightsOf(Pairs(sorted), Addrs(sorted)) == Weights(sorted)
    ensures forall i :: 0 <= i < |sorted| ==>
              sorted[i].addr in Numbering(sorted) && Numbering(sorted)[sorted[i].addr] == Ids(sorted)[i]
  {
    AscendingNoClash(sorted);
    var q, pairs := Addrs(sorted), Pairs(sorted);
    forall i | 0 <= i < |sorted|
      ensures q[i] in pairs && pairs[q[i]] == sorted[i].weight
      ensures q[i] in Numbering(sorted) && Numbering(sorted)[q[i]] == sorted[i].realId
    {
      assert sorted[i] in sorted;
      PairAt(sorted, |sorted|, i);
    }
    forall a | a in pairs
      ensures a in q
    {
      var i := PairFrom(sorted, |sorted|, a);
      assert q[i] == a;
    }
    ListUnique(q, Listed(pairs.Keys), pairs.Keys);
  }

  /** The ring of the pairs, slot by slot, read off an ascending list of the same backends. */
  lemma RingFromSorted(sorted: seq<Backend>, mode: HashMode, m: nat, h: Hashes, s: nat)
    requires Ascending(Addrs(sorted)) && Active(sorted) && sorted != [] && s < m && SizeOk(mode, m)
    ensures Weighted(Weights(sorted)) && Positive(Pairs(sorted))
    ensures RingOf(Pairs(sorted), Numbering(sorted), mode, m, h)[s]
         == Label(Owners(Addrs(sorted), Weights(sorted), mode, m, h)[s], Ids(sorted))
  {
    WeightsActive(sorted);
    PairsPositive(sorted, |sorted|);
    SortedSpellsOut(sorted);
    var q := Addrs(sorted);
    assert q[0] in q;
    AddrRingAt(Pairs(sorted), q, Weights(sorted), mode, m, h, s);
    var i := Owners(q, Weights(sorted), mode, m, h)[s];
    assert sorted[i].addr in Numbering(sorted);
  }

  lemma EmptyRing(mode: HashMode, m: nat, h: Hashes)
    requires m == 0 || SizeOk(mode, m)
    ensures Positive(map[]) && forall s :: 0 <= s < m ==> RingOf(map[], map[], mode, m, h)[s] == REAL_NONE
  {
  }

  /**
   build_ring fails exactly when two weighted backends share an address, and otherwise returns
   the ring of the set of (address, weight) pairs under the caller's numbering.
   */
  method Build(bs: seq<Backend>, mode: HashMode, m: nat, h: Hashes) returns (r: Result<seq<U32>>)
    requires m == 0 || SizeOk(mode, m)
    requires forall b :: b in bs && b.weight > 0 ==> b.realId != REAL_NONE
    ensures r == RingSpec(bs, mode, m, h)
  {
    var list := ActiveSorted(bs);
    if list.Err? { return Err("duplicate backend address"); }
    var sorted := list.value;
    var ring;
    if mode == ByMaglev {
      ghost var probes;
      ring, probes := BuildMaglev.Build(sorted, m, h);
    } else {
      ring := BuildModulo(sorted, m);
    }
    Conclude(bs, sorted, mode, m, h, ring);
    return Ok(ring);
  }

  lemma Conclude(bs: seq<Backend>, sorted: seq<Backend>, mode: HashMode, m: nat, h: Hashes, ring: seq<U32>)
    requires (m == 0 || SizeOk(mode, m)) && !Clash(bs)
    requires Ascending(Addrs(sorted)) && Active(sorted) && SameHeld(bs, sorted) && |ring| == m
    requires sorted == [] ==> forall s :: 0 <= s < m ==> ring[s] == REAL_NONE
    requires sorted != [] && m > 0 && mode == ByMaglev ==>
               var p := PlanOf(Addrs(sorted), Weights(sorted), m, h);
               PlanOk(p) && ring == Painted(p, Ids(sorted), m)
    requires sorted != [] && mode == ByModulo ==>
               var list := Blocks(Weights(sorted), |sorted|);
               list != [] && forall s: nat :: s < m ==> ring[s] == Label(list[s % |list|], Ids(sorted))
    ensures RingSpec(bs, mode, m, h) == Ok(ring)
  {
    NoClash(sorted, bs);
    SameHeldPairs(bs, sorted);
    PairsPositive(sorted, |sorted|);
    var spec := RingOf(Pairs(sorted), Numbering(sorted), mode, m, h);
    forall s | 0 <= s < m
      ensures ring[s] == spec[s]
    {
      if sorted == [] {
        EmptyRing(mode, m, h);
      } else {
        RingFromSorted(sorted, mode, m, h, s);
      }
    }
    assert ring == spec;
  }
}
