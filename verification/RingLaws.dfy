/** What build_ring does not depend on. */
module RingLaws {
  import opened Basics
  import opened BuildMaglev
  import opened Ring
  import opened BuildRing

  // ---- listing order

  lemma {:induction false} HeldRemove(s: seq<Backend>, k: nat, a: U32)
    requires k < |s|
    ensures Held(s, |s|, a) == Held(s[..k] + s[k + 1..], |s| - 1, a) + Held([s[k]], 1, a)
  {
    var rest := s[..k] + s[k + 1..];
    HeldInsert(rest, k, s[k], a);
    assert rest[..k] + [s[k]] + rest[k..] == s;
  }

  lemma TakeOut(s: seq<Backend>, k: nat)
    requires k < |s|
    ensures multiset(s) == multiset(s[..k] + s[k + 1..]) + multiset{s[k]}
  {
    assert s == s[..k] + ([s[k]] + s[k + 1..]);
  }

  lemma Cancel(x: multiset<Backend>, y: multiset<Backend>, b: Backend)
    requires x + multiset{b} == y + multiset{b}
    ensures x == y
  {
    assert x == (x + multiset{b}) - multiset{b};
    assert y == (y + multiset{b}) - multiset{b};
  }

  lemma FindIn(s: seq<Backend>, b: Backend) returns (k: nat)
    requires b in multiset(s)
    ensures k < |s| && s[k] == b
  {
    k :| 0 <= k < |s| && s[k] == b;
  }

  lemma {:induction false} ReorderingHolds(s: seq<Backend>, t: seq<Backend>, a: U32)
    requires multiset(s) == multiset(t)
    ensures Held(s, |s|, a) == Held(t, |t|, a)
  {
    assert |s| == |multiset(s)| == |multiset(t)| == |t|;
    if s != [] {
      var n := |s| - 1;
      assert s[n] in multiset(s);
      var k := FindIn(t, s[n]);
      TakeOut(s, n);
      TakeOut(t, k);
      Cancel(multiset(s[..n] + s[n + 1..]), multiset(t[..k] + t[k + 1..]), s[n]);
      ReorderingHolds(s[..n] + s[n + 1..], t[..k] + t[k + 1..], a);
      HeldRemove(s, n, a);
      HeldRemove(t, k, a);
    }
  }

  /** The order in which backends are listed does not matter, in either mode. */
  lemma OrderDoesNotMatter(bs: seq<Backend>, cs: seq<Backend>, mode: HashMode, m: nat, h: Hashes)
    requires multiset(bs) == multiset(cs) && (m == 0 || SizeOk(mode, m))
    ensures RingSpec(bs, mode, m, h) == RingSpec(cs, mode, m, h)
  {
    forall b: Backend
      ensures b in bs <==> b in cs
    {
      assert b in bs <==> b in multiset(bs);
      assert b in cs <==> b in multiset(cs);
    }
    forall a: U32
      ensures Held(bs, |bs|, a) == Held(cs, |cs|, a)
    {
      ReorderingHolds(bs, cs, a);
    }
    SameRing(bs, cs, mode, m, h);
  }

  lemma SameRing(bs: seq<Backend>, cs: seq<Backend>, mode: HashMode, m: nat, h: Hashes)
    requires SameHeld(bs, cs) && (m == 0 || SizeOk(mode, m))
    ensures RingSpec(bs, mode, m, h) == RingSpec(cs, mode, m, h)
  {
    if Clash(bs) {
      SameHeldClash(bs, cs);
    } else if Clash(cs) {
      SameHeldClash(cs, bs);
    } else {
      SameHeldPairs(bs, cs);
    }
  }

  // ---- drained backends

  function Weightless(bs: seq<Backend>): (rest: seq<Backend>) {
    if bs == [] then [] else
      Weightless(bs[..|bs| - 1]) + if bs[|bs| - 1].weight > 0 then [bs[|bs| - 1]] else []
  }

  lemma {:induction false} WeightlessHolds(bs: seq<Backend>)
    ensures SameHeld(bs, Weightless(bs))
  {
    if bs != [] {
      var n := |bs| - 1;
      WeightlessHolds(bs[..n]);
      assert bs == bs[..n] + [bs[n]];
      if bs[n].weight > 0 {
        AppendKeeps(bs[..n], Weightless(bs[..n]), bs[n]);
      } else {
        DropKeeps(bs[..n], Weightless(bs[..n]), bs[n]);
        assert Weightless(bs) == Weightless(bs[..n]);
      }
    }
  }

  /** Draining a backend gives the ring in which it is not listed at all. */
  lemma DrainingIsRemoval(bs: seq<Backend>, mode: HashMode, m: nat, h: Hashes)
    requires m == 0 || SizeOk(mode, m)
    ensures RingSpec(bs, mode, m, h) == RingSpec(Weightless(bs), mode, m, h)
  {
    WeightlessHolds(bs);
    SameRing(bs, Weightless(bs), mode, m, h);
  }

  // ---- numbering

  function Rename(bs: seq<Backend>, f: U32 -> U32): (cs: seq<Backend>)
    ensures |cs| == |bs|
  {
    seq(|bs|, i requires 0 <= i < |bs| => bs[i].(realId := f(bs[i].realId)))
  }

  lemma {:induction false} RenamePairs(bs: seq<Backend>, f: U32 -> U32, n: nat)
    requires n <= |bs|
    ensures PairsTo(Rename(bs, f), n) == PairsTo(bs, n)
    ensures NumbersTo(Rename(bs, f), n).Keys == NumbersTo(bs, n).Keys
    ensures forall a :: a in NumbersTo(bs, n) ==> NumbersTo(Rename(bs, f), n)[a] == f(NumbersTo(bs, n)[a])
  {
    if n > 0 {
      RenamePairs(bs, f, n - 1);
    }
  }

  lemma RenameClash(bs: seq<Backend>, f: U32 -> U32)
    ensures Clash(Rename(bs, f)) <==> Clash(bs)
  {
    var cs := Rename(bs, f);
    if Clash(bs) {
      var i, j :| 0 <= i < j < |bs| && bs[i].weight > 0 && bs[j].weight > 0 && bs[i].addr == bs[j].addr;
      assert cs[i].addr == cs[j].addr;
    }
    if Clash(cs) {
      var i, j :| 0 <= i < j < |cs| && cs[i].weight > 0 && cs[j].weight > 0 && cs[i].addr == cs[j].addr;
      assert bs[i].addr == bs[j].addr;
    }
  }

  lemma {:induction false} NumbersArePaired(bs: seq<Backend>, n: nat)
    requires n <= |bs|
    ensures NumbersTo(bs, n).Keys == PairsTo(bs, n).Keys
  {
    if n > 0 {
      NumbersArePaired(bs, n - 1);
    }
  }

  /** Renumbering the reals renumbers the slots and moves nothing. */
  lemma RenumberingMovesNothing(bs: seq<Backend>, f: U32 -> U32, mode: HashMode, m: nat, h: Hashes, s: nat)
    requires SizeOk(mode, m) && s < m
    ensures RingSpec(bs, mode, m, h).Err? <==> RingSpec(Rename(bs, f), mode, m, h).Err?
    ensures RingSpec(bs, mode, m, h).Ok? && Pairs(bs) != map[] ==>
              RingSpec(Rename(bs, f), mode, m, h).value[s] == f(RingSpec(bs, mode, m, h).value[s])
    ensures RingSpec(bs, mode, m, h).Ok? && Pairs(bs) == map[] ==>
              RingSpec(Rename(bs, f), mode, m, h).value[s] == REAL_NONE
  {
    RenameClash(bs, f);
    if !Clash(bs) {
      RenamePairs(bs, f, |bs|);
      NumbersArePaired(bs, |bs|);
      PairsPositive(bs, |bs|);
      AddrRingIsWhole(Pairs(bs), mode, m, h, s);
    }
  }

  /**
   Two load balancers with the same pairs agree on the address of every slot, whatever their
   numbering: each slot holds both balancers' ids for one common address.
   */
  lemma SamePairsSameAddresses(pairs: map<U32, nat>, ids1: map<U32, U32>, ids2: map<U32, U32>, mode: HashMode,
                               m: nat, h: Hashes, s: nat) returns (a: U32)
    requires Positive(pairs) && pairs != map[] && SizeOk(mode, m) && s < m
    requires pairs.Keys <= ids1.Keys && pairs.Keys <= ids2.Keys
    ensures a in pairs && RingOf(pairs, ids1, mode, m, h)[s] == ids1[a]
    ensures RingOf(pairs, ids2, mode, m, h)[s] == ids2[a]
  {
    AddrRingIsWhole(pairs, mode, m, h, s);
    a := AddrRing(pairs, mode, m, h)[s].value;
  }
}
