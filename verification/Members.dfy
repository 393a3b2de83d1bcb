/** From a VIP's members to its ring: in_ring decided anew, then build_ring. */
module Members {
  import opened Basics
  import opened Primes
  import opened BuildMaglev
  import opened Ring
  import opened Reals
  import opened LbModel
  import opened Control
  import BuildRing

  function BackendOf(members: map<U32, Member>, byAddr: map<U32, U32>, a: U32): (b: Backend)
    requires a in members && a in byAddr
  {
    Backend(byAddr[a], a, if members[a].inRing then members[a].weight else 0)
  }

  ghost predicate Enumerates(bs: seq<Backend>, members: map<U32, Member>, byAddr: map<U32, U32>, done: set<U32>) {
    && (forall i, j :: 0 <= i < j < |bs| ==> bs[i].addr != bs[j].addr)
    && (forall b :: b in bs ==> b.addr in done)
    && (forall a :: a in done ==> a in members && a in byAddr && BackendOf(members, byAddr, a) in bs)
  }

  lemma EnumeratedPairs(bs: seq<Backend>, members: map<U32, Member>, byAddr: map<U32, U32>)
    requires Enumerates(bs, members, byAddr, members.Keys)
    ensures !Clash(bs) && Pairs(bs) == InRing(members)
    ensures forall a :: a in Numbering(bs) ==> a in byAddr && Numbering(bs)[a] == byAddr[a]
    ensures forall a :: a in InRing(members) ==> a in Numbering(bs)
  {
    forall a: U32
      ensures a in Pairs(bs) || a in Numbering(bs) ==>
                && a in Numbering(bs) && a in byAddr && Numbering(bs)[a] == byAddr[a]
                && a in InRing(members) && a in Pairs(bs) && Pairs(bs)[a] == InRing(members)[a]
      ensures a in InRing(members) ==> a in Pairs(bs) && a in Numbering(bs)
    {
      if a in Pairs(bs) || a in Numbering(bs) {
        var i := BuildRing.PairFrom(bs, |bs|, a);
        BuildRing.PairAt(bs, |bs|, i);
        assert bs[i] in bs;
        var j :| 0 <= j < |bs| && bs[j] == BackendOf(members, byAddr, a);
        assert i == j;
      } else if a in InRing(members) {
        var j :| 0 <= j < |bs| && bs[j] == BackendOf(members, byAddr, a);
        BuildRing.PairAt(bs, |bs|, j);
      }
    }
  }

  /** build_ring of the enumerated members is the VIP's ring, and never fails. */
  lemma EnumeratedRing(bs: seq<Backend>, members: map<U32, Member>, byAddr: map<U32, U32>, mode: HashMode, h: Hashes)
    requires Enumerates(bs, members, byAddr, members.Keys)
    ensures GoodSize(RING_SIZE) && RingSpec(bs, mode, RING_SIZE, h) == Ok(VipRing(members, byAddr, mode, h))
  {
    RingSizeIsPrime();
    EnumeratedPairs(bs, members, byAddr);
    RingOfAgrees(Pairs(bs), Numbering(bs), byAddr, mode, h);
    VipRingIs(members, byAddr, mode, h);
  }

  lemma EnumerateOne(bs: seq<Backend>, members: map<U32, Member>, byAddr: map<U32, U32>, a: U32, m: Member)
    requires Enumerates(bs, members, byAddr, members.Keys) && a !in members && a in byAddr
    ensures var members' := members[a := m];
            Enumerates(bs + [BackendOf(members', byAddr, a)], members', byAddr, members'.Keys)
  {
    var members' := members[a := m];
    var bs' := bs + [BackendOf(members', byAddr, a)];
    forall i, j | 0 <= i < j < |bs'|
      ensures bs'[i].addr != bs'[j].addr
    {
      assert bs'[i] in bs;
      assert j < |bs| ==> bs'[i] == bs[i] && bs'[j] == bs[j];
    }
    forall x | x in members'.Keys
      ensures BackendOf(members', byAddr, x) in bs'
    {
      assert x != a ==> BackendOf(members, byAddr, x) in bs;
    }
  }

  /** A VIP's members as backends, with in_ring refreshed on the way. */
  method Gather(was: map<U32, Member>, slots: seq<Slot>, byAddr: map<U32, U32>)
      returns (bs: seq<Backend>, members: map<U32, Member>)
    requires |slots| == MAX_REALS && forall a :: a in was ==> a in byAddr && byAddr[a] < MAX_REALS
    ensures members == RefreshedAll(slots, byAddr, was)
    ensures Enumerates(bs, members, byAddr, members.Keys)
    ensures forall b :: b in bs ==> b.realId != REAL_NONE
  {
    bs, members := [], map[];
    var todo := was.Keys;
    while todo != {}
      invariant todo <= was.Keys && members.Keys == was.Keys - todo
      invariant forall a :: a in members ==> members[a] == Refreshed(slots, byAddr, a, was[a])
      invariant Enumerates(bs, members, byAddr, members.Keys)
      invariant forall b :: b in bs ==> b.realId != REAL_NONE
      decreases todo
    {
      var a :| a in todo;
      var m := Refreshed(slots, byAddr, a, was[a]);
      EnumerateOne(bs, members, byAddr, a, m);
      members := members[a := m];
      bs := bs + [Backend(byAddr[a], a, if m.inRing then m.weight else 0)];
      todo := todo - {a};
    }
  }

  /** rebuild_locked up to the install. */
  method RingFor(was: map<U32, Member>, slots: seq<Slot>, byAddr: map<U32, U32>, mode: HashMode, h: Hashes)
    returns (ring: seq<U32>, members: map<U32, Member>)
    requires |slots| == MAX_REALS && forall a :: a in was ==> a in byAddr && byAddr[a] < MAX_REALS
    ensures members == RefreshedAll(slots, byAddr, was) && ring == VipRing(members, byAddr, mode, h)
  {
    var bs;
    bs, members := Gather(was, slots, byAddr);
    EnumeratedRing(bs, members, byAddr, mode, h);
    var built := BuildRing.Build(bs, mode, RING_SIZE, h);
    ring := built.value;
  }
}
