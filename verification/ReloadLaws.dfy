/** One VIP of a reload: flags, members, ring, then the references that are no longer needed. */
module ReloadLaws {
  import opened Basics
  import opened BuildMaglev
  import opened Ring
  import opened Maps
  import opened Reals
  import opened LbModel
  import opened Control
  import opened ControlLaws
  import opened MemberLaws
  import opened ReleaseLaws
  import opened OpLaws
  import opened VipLaws

  // ---- flags

  /** s1 is s with VIP k's flags as given, in the model and in the VIP map. */
  ghost predicate Reflagged(s: Lb, s1: Lb, k: VipSpec, noConntrack: bool) {
    && k in s.vips && s1.t == s.t.(k := s1.t.k) && Good(s1)
    && s1 == s.(vips := s.vips[k := s.vips[k].(noConntrack := noConntrack)], t := s1.t)
    && s1.t.k.maps.rings == s.t.k.maps.rings && Grown(s.t.k, s1.t.k)
    && forall j :: j != k ==> Untouched(s, s1, s.leak, j)
  }

  lemma ReflagSame(s: Lb, k: VipSpec)
    requires Good(s) && k in s.vips
    ensures Reflagged(s, s, k, s.vips[k].noConntrack)
  {
    assert s.vips[k := s.vips[k].(noConntrack := s.vips[k].noConntrack)] == s.vips;
    UntouchedSelf(s, s.leak);
  }

  lemma ReflagOk(s: Lb, k: VipSpec, noConntrack: bool)
    requires Good(s) && k in s.vips && (s.vips[k].noConntrack != noConntrack ==> s.vips[k].generation > 0)
    ensures Reflagged(s, Reflag(s, k, noConntrack), k, noConntrack)
  {
    if s.vips[k].noConntrack == noConntrack {
      ReflagSame(s, k);
    } else {
      var v := s.vips[k].(noConntrack := noConntrack);
      var s1 := s.(vips := s.vips[k := v]);
      var s2 := SendVip(s1, k);
      assert Traced(s, s.leak, k);
      TouchOk(s, k, v);
      SendVipOk(s1, k);
      assert TabOk(s.t) && TabOk(s2.t) by { assert Holds(s, TablePart) && Holds(s2, TablePart); }
      forall j
        ensures Traced(s2, s.leak, j) && (j != k ==> Untouched(s, s2, s.leak, j))
      {
        assert Traced(s, s.leak, j);
        if j != k {
          SendVipLeaves(s1, k, s.leak, j);
          UntouchedTraced(s, s2, s.leak, j);
        } else {
          SameReals(s.t.k.maps, s2.t.k.maps, s.t.k.maps.rings[v.id]);
        }
      }
    }
  }

  lemma ReflagSteady(s: Lb, k: VipSpec, noConntrack: bool, h: Hashes)
    requires k in s.vips && Steady(s, h, k)
    ensures Steady(Reflag(s, k, noConntrack), h, k)
  {
  }

  // ---- members

  lemma PruneThenMerge(s1: Lb, s2: Lb, s3: Lb, k: VipSpec, gone: set<U32>, want: map<U32, U32>, ok: bool)
    requires Inv(s1) && Inv(s2) && Edited(s1, s2, k, gone) && MergeDone(s2, k, want, want.Keys, Done(s3, ok))
    ensures Edited(s1, s3, k, gone)
  {
    assert s1.vips[k := s2.vips[k]][k := s3.vips[k]] == s1.vips[k := s3.vips[k]];
    forall j | j != k
      ensures Untouched(s1, s3, s1.leak, j)
    {
      GrewLeaves(s2, s3, s1.leak, j);
      UntouchedThen(s1, s2, s3, s1.leak, j);
    }
  }

  lemma SlotsKept(v: Vip, v': Vip, ring: seq<U32>, slots: seq<Slot>, leak: multiset<U32>, leak': multiset<U32>)
    requires Accounted(v, ring, slots, leak) && leak <= leak'
    requires forall a :: a in v.members ==> a in v'.members || a in leak'
    ensures Accounted(v', ring, slots, leak')
  {
  }

  /** Out of real ids half way: the removed members' references stay, and so does the old ring. */
  lemma MergeFailsGood(s1: Lb, s2: Lb, s3: Lb, k: VipSpec, gone: set<U32>, want: map<U32, U32>)
    requires Good(s1) && k in s1.vips && gone <= s1.vips[k].members.Keys
    requires s2 == RemoveMembers(s1, k, gone) && Inv(s2) && Edited(s1, s3, k, gone)
    requires MergeDone(s2, k, want, want.Keys, Done(s3, false))
    ensures Good(s3)
  {
    Open(s1);
    Open(s3);
    forall j
      ensures Traced(s3, s3.leak, j)
    {
      assert Traced(s1, s1.leak, j);
      if j != k {
        UntouchedTraced(s1, s3, s1.leak, j);
        TracedMore(s3, s1.leak, s3.leak, j);
      } else if s1.vips[k].generation > 0 {
        var v, ring := s1.vips[k], s1.t.k.maps.rings[s1.vips[k].id];
        assert s2.t == s1.t;
        AccountedKept(v, ring, s1.t.slots, s1.t.byAddr, s1.leak, s3.t.slots, s3.t.byAddr);
        RingSafeKept(v, ring, s1.t.slots, s1.t.byAddr, s1.t.k.maps, s1.leak, s3.t.slots, s3.t.byAddr, s3.t.k.maps);
        SlotsKept(v, s3.vips[k], ring, s3.t.slots, s1.leak, s3.leak);
      }
    }
  }

  // ---- which rings are right

  /** VIP k's ring is the ring of its members recorded in_ring, under the hash mode in force. */
  ghost predicate RightRing(s: Lb, h: Hashes, k: VipSpec) {
    && k in s.vips && s.vips[k].id in s.t.k.maps.rings
    && s.t.k.maps.rings[s.vips[k].id] == VipRing(s.vips[k].members, s.t.byAddr, s.hash, h)
  }

  lemma UntouchedRing(s: Lb, s': Lb, stuck: multiset<U32>, h: Hashes, j: VipSpec)
    requires Inv(s) && Untouched(s, s', stuck, j) && s'.hash == s.hash
    ensures RightRing(s', h, j) <==> RightRing(s, h, j)
  {
    if j in s.vips {
      var members := s.vips[j].members;
      assert Holds(s, HeldPart);
      RingOfAgrees(InRing(members), s.t.byAddr, s'.t.byAddr, s.hash, h);
      VipRingIs(members, s.t.byAddr, s.hash, h);
      VipRingIs(members, s'.t.byAddr, s.hash, h);
    }
  }

  /**
   After its turn a VIP has the right ring if it is new, if its ring was rebuilt, or if it had it before;
   not otherwise.
   */
  ghost predicate RingDone(s: Lb, s': Lb, vc: VipConfig, hashChanged: bool, h: Hashes) {
    RightRing(s', h, vc.spec) <==>
      vc.spec !in s.vips || RingChanges(s.vips[vc.spec], Want(vc), hashChanged) || RightRing(s, h, vc.spec)
  }

  // ---- the whole step

  /** Members that stay keep their health, drain state and identity. */
  ghost predicate Stays(v: Vip, v': Vip) {
    && v'.id == v.id
    && forall a :: a in v.members && a in v'.members ==>
         && v'.members[a].health == v.members[a].health && v'.members[a].draining == v.members[a].draining
         && v'.members[a].incarnation == v.members[a].incarnation
  }

  /** A completed step: VIP k as configured, the others as before. */
  ghost predicate Updated(s: Lb, s': Lb, vc: VipConfig, was: HashMode, h: Hashes) {
    var k := vc.spec;
    && k in s.vips && k in s'.vips && s'.vips == s.vips[k := s'.vips[k]] && s'.leak == s.leak
    && Matches(s'.vips[k], vc.noConntrack, Want(vc)) && Stays(s.vips[k], s'.vips[k])
    && (Steady(s.(hash := was), h, k) ==> Steady(s', h, k))
    && s'.hash == s.hash && RingDone(s, s', vc, s'.hash != was, h)
    && forall j :: j != k ==> Untouched(s, s', s.leak, j)
  }

  ghost predicate Reloaded(s: Lb, d: Done, vc: VipConfig, was: HashMode, h: Hashes) {
    && Good(d.s) && d.s.vips.Keys == s.vips.Keys
    && d.s == s.(vips := d.s.vips, t := d.s.t, leak := d.s.leak, next := d.s.next, reports := d.s.reports)
    && (d.ok ==> Updated(s, d.s, vc, was, h))
  }

  lemma {:induction false} MergeIdentity(s: Lb, k: VipSpec, want: map<U32, U32>, todo: set<U32>, arp: map<U32, Mac>)
    requires Ranged(s.t) && k in s.vips && todo <= want.Keys
    requires forall a :: a in todo ==> a in s.vips[k].members && s.vips[k].members[a].weight == want[a]
    ensures Merge(s, k, want, todo, arp) == Done(s, true)
    decreases todo
  {
    if todo != {} {
      var a := Least(todo);
      var m := s.vips[k].members;
      assert m[a := m[a].(weight := want[a])] == m;
      assert s.vips[k := s.vips[k].(members := m)] == s.vips;
      assert Reweigh(s, k, a, want[a]) == s;
      MergeIdentity(s, k, want, todo - {a}, arp);
    }
  }

  lemma RemoveNobody(s: Lb, k: VipSpec)
    requires k in s.vips
    ensures RemoveMembers(s, k, {}) == s
  {
    assert s.vips[k].members - {} == s.vips[k].members;
    assert s.vips[k := s.vips[k]] == s.vips;
    assert s.leak + multiset({}) == s.leak;
  }

  /** Nothing about the members differs: only the flags are written. */
  lemma ReloadQuiet(s: Lb, vc: VipConfig, arp: map<U32, Mac>, h: Hashes)
    requires Ranged(s.t) && vc.spec in s.vips && !RingChanges(s.vips[vc.spec], Want(vc), false)
    ensures ReloadVip(s, vc, false, arp, h) == Done(Reflag(s, vc.spec, vc.noConntrack), true)
  {
    var k, s1 := vc.spec, Reflag(s, vc.spec, vc.noConntrack);
    assert Gone(s, vc) == {};
    RemoveNobody(s1, k);
    assert Prune(s, vc) == s1;
    MergeIdentity(s1, k, Want(vc), Want(vc).Keys, arp);
    ReleaseNone(s1);
  }

  lemma FlagsUpdated(s: Lb, s1: Lb, vc: VipConfig, h: Hashes)
    requires vc.spec in s.vips && Reflagged(s, s1, vc.spec, vc.noConntrack) && s1 == Reflag(s, vc.spec, vc.noConntrack)
    requires !RingChanges(s.vips[vc.spec], Want(vc), false)
    ensures Reloaded(s, Done(s1, true), vc, s.hash, h)
  {
    assert s.(hash := s.hash) == s;
    if Steady(s, h, vc.spec) {
      ReflagSteady(s, vc.spec, vc.noConntrack, h);
    }
  }

  lemma ReloadQuietOk(s: Lb, vc: VipConfig, arp: map<U32, Mac>, h: Hashes)
    requires Good(s) && vc.spec in s.vips && !RingChanges(s.vips[vc.spec], Want(vc), false)
    requires s.vips[vc.spec].noConntrack != vc.noConntrack ==> s.vips[vc.spec].generation > 0
    ensures Ranged(s.t) && Reloaded(s, ReloadVip(s, vc, false, arp, h), vc, s.hash, h)
  {
    InvRanged(s);
    ReloadQuiet(s, vc, arp, h);
    ReflagOk(s, vc.spec, vc.noConntrack);
    FlagsUpdated(s, Reflag(s, vc.spec, vc.noConntrack), vc, h);
  }

  lemma StaysThrough(v: Vip, v1: Vip, v3: Vip, gone: set<U32>, want: map<U32, U32>, slots: seq<Slot>,
                     byAddr: map<U32, U32>)
    requires v1.id == v.id && v1.members == v.members - gone && Merged(v1, v3, want, want.Keys, true)
             && gone !! want.Keys
    ensures v1.members.Keys <= want.Keys ==> Stays(v, Rebuilt(v3, slots, byAddr))
  {
  }

  /** A VIP that was published stays so, with its new flags. */
  lemma ReflagShown(s: Lb, k: VipSpec, noConntrack: bool, h: Hashes, was: HashMode)
    requires k in s.vips && Steady(s.(hash := was), h, k)
    ensures k in Reflag(s, k, noConntrack).t.k.maps.vipMap
    ensures Reflag(s, k, noConntrack).t.k.maps.vipMap[k] == VipValue(s.vips[k].id, noConntrack)
  {
  }

  lemma ChangedSteady(s: Lb, s1: Lb, s': Lb, k: VipSpec, noConntrack: bool, v: Vip, was: HashMode, h: Hashes)
    requires k in s.vips && s1 == Reflag(s, k, noConntrack) && Changed(s1, s', k, v, h) && Steady(s.(hash := was), h, k)
    ensures Steady(s', h, k)
  {
    ReflagShown(s, k, noConntrack, h, was);
  }

  lemma ChangedIsUpdated(s: Lb, s1: Lb, s': Lb, vc: VipConfig, v: Vip, was: HashMode, h: Hashes)
    requires vc.spec in s.vips && Reflagged(s, s1, vc.spec, vc.noConntrack) && s1 == Reflag(s, vc.spec, vc.noConntrack)
    requires Changed(s1, s', vc.spec, v, h) && Matches(v, vc.noConntrack, Want(vc)) && Stays(s.vips[vc.spec], v)
    requires RingChanges(s.vips[vc.spec], Want(vc), s.hash != was)
    ensures Updated(s, s', vc, was, h)
  {
    var k := vc.spec;
    forall j | j != k
      ensures Untouched(s, s', s.leak, j)
    {
      UntouchedThen(s, s1, s', s.leak, j);
    }
    assert s.vips[k := s1.vips[k]][k := v] == s.vips[k := v];
    if Steady(s.(hash := was), h, k) {
      ChangedSteady(s, s1, s', k, vc.noConntrack, v, was, h);
    }
  }

  lemma LoudCompletes(s: Lb, s1: Lb, s3: Lb, vc: VipConfig, was: HashMode, h: Hashes)
    requires Good(s) && vc.spec in s.vips && Reflagged(s, s1, vc.spec, vc.noConntrack)
             && s1 == Reflag(s, vc.spec, vc.noConntrack)
    requires MergeDone(RemoveMembers(s1, vc.spec, Gone(s, vc)), vc.spec, Want(vc), Want(vc).Keys, Done(s3, true))
    requires Edited(s1, s3, vc.spec, Gone(s, vc)) && RingChanges(s.vips[vc.spec], Want(vc), s.hash != was)
    ensures Ranged(s3.t) && Reloaded(s, Done(Finish(s3, vc.spec, Gone(s, vc), h), true), vc, was, h)
  {
    var k, gone, want := vc.spec, Gone(s, vc), Want(vc);
    var v1, v := s1.vips[k].(members := s1.vips[k].members - gone), Rebuilt(s3.vips[k], s3.t.slots, s3.t.byAddr);
    ChangeOk(s1, s3, k, gone, h);
    var s' := Finish(s3, k, gone, h);
    ChangedGood(s1, s', k, v, h);
    MergedMatches(v1, s3.vips[k], want, s3.t.slots, s3.t.byAddr);
    StaysThrough(s.vips[k], v1, s3.vips[k], gone, want, s3.t.slots, s3.t.byAddr);
    ChangedIsUpdated(s, s1, s', vc, v, was, h);
  }

  lemma LoudFails(s: Lb, s1: Lb, s3: Lb, vc: VipConfig, was: HashMode, h: Hashes)
    requires Good(s) && vc.spec in s.vips && Reflagged(s, s1, vc.spec, vc.noConntrack)
    requires Inv(RemoveMembers(s1, vc.spec, Gone(s, vc)))
    requires MergeDone(RemoveMembers(s1, vc.spec, Gone(s, vc)), vc.spec, Want(vc), Want(vc).Keys, Done(s3, false))
    requires Edited(s1, s3, vc.spec, Gone(s, vc))
    ensures Reloaded(s, Done(s3, false), vc, was, h)
  {
    MergeFailsGood(s1, RemoveMembers(s1, vc.spec, Gone(s, vc)), s3, vc.spec, Gone(s, vc), Want(vc));
  }

  lemma LoudOk(s: Lb, s1: Lb, d: Done, vc: VipConfig, was: HashMode, h: Hashes)
    requires Good(s) && vc.spec in s.vips && Reflagged(s, s1, vc.spec, vc.noConntrack)
             && s1 == Reflag(s, vc.spec, vc.noConntrack)
    requires MergeDone(RemoveMembers(s1, vc.spec, Gone(s, vc)), vc.spec, Want(vc), Want(vc).Keys, d)
    requires RingChanges(s.vips[vc.spec], Want(vc), s.hash != was)
    ensures Ranged(d.s.t)
    ensures Reloaded(s, if d.ok then Done(Finish(d.s, vc.spec, Gone(s, vc), h), true) else d, vc, was, h)
  {
    InvRanged(d.s);
    var k, gone := vc.spec, Gone(s, vc);
    var s2 := RemoveMembers(s1, k, gone);
    RemoveOk(s1, k, gone);
    PruneThenMerge(s1, s2, d.s, k, gone, Want(vc), d.ok);
    if d.ok {
      LoudCompletes(s, s1, d.s, vc, was, h);
    } else {
      LoudFails(s, s1, d.s, vc, was, h);
    }
  }

  lemma ReloadLoudOk(s: Lb, vc: VipConfig, was: HashMode, arp: map<U32, Mac>, h: Hashes)
    requires Good(s) && vc.spec in s.vips && RingChanges(s.vips[vc.spec], Want(vc), s.hash != was) && MacsOk(arp)
    requires s.vips[vc.spec].noConntrack != vc.noConntrack ==> s.vips[vc.spec].generation > 0
    ensures Ranged(s.t) && Reloaded(s, ReloadVip(s, vc, s.hash != was, arp, h), vc, was, h)
  {
    InvRanged(s);
    var s1 := Reflag(s, vc.spec, vc.noConntrack);
    ReflagOk(s, vc.spec, vc.noConntrack);
    RemoveOk(s1, vc.spec, Gone(s, vc));
    MergeOk(Prune(s, vc), vc.spec, Want(vc), Want(vc).Keys, arp);
    LoudOk(s, s1, Merge(Prune(s, vc), vc.spec, Want(vc), Want(vc).Keys, arp), vc, was, h);
  }

  /** A reload of one VIP: complete, with the VIP as configured, or safe with the old ring in force. */
  lemma ReloadVipOk(s: Lb, vc: VipConfig, was: HashMode, arp: map<U32, Mac>, h: Hashes)
    requires Good(s) && vc.spec in s.vips && MacsOk(arp)
    requires s.vips[vc.spec].noConntrack != vc.noConntrack ==> s.vips[vc.spec].generation > 0
    ensures Ranged(s.t) && Reloaded(s, ReloadVip(s, vc, s.hash != was, arp, h), vc, was, h)
  {
    if RingChanges(s.vips[vc.spec], Want(vc), s.hash != was) {
      ReloadLoudOk(s, vc, was, arp, h);
    } else {
      ReloadQuietOk(s, vc, arp, h);
    }
  }
}
