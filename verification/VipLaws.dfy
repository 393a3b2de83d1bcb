/** VIPs coming and going. */
module VipLaws {
  import opened Basics
  import opened BuildMaglev
  import opened Maps
  import opened Reals
  import opened LbModel
  import opened Control
  import opened ControlLaws
  import opened MemberLaws
  import opened ReleaseLaws
  import opened OpLaws

  // ---- the VIP map entry

  lemma IdsPublished(vips: map<VipSpec, Vip>, adopted: map<VipSpec, nat>, vipMap: map<VipSpec, VipValue>, k: VipSpec,
                     flag: bool)
    requires IdsOk(vips, adopted, vipMap) && k in vips
    ensures IdsOk(vips, adopted, vipMap[k := VipValue(vips[k].id, flag)])
  {
  }

  lemma PublishAllowed(s: Lb, k: VipSpec)
    requires Inv(s) && k in s.vips
    requires s.vips[k].id in s.t.k.maps.rings && RingSafe(s.t.k.maps, s.t.k.maps.rings[s.vips[k].id])
    ensures Allowed(s.t.k.maps, PutVip(k, VipValue(s.vips[k].id, s.vips[k].noConntrack)))
    ensures Grown(s.t.k, SendVip(s, k).t.k)
  {
    assert Holds(s, IdsPart);
    PutGrows(s.t.k, PutVip(k, VipValue(s.vips[k].id, s.vips[k].noConntrack)));
  }

  /** Publishing a VIP that has a whole ring. */
  lemma SendVipOk(s: Lb, k: VipSpec)
    requires Inv(s) && k in s.vips
    requires s.vips[k].id in s.t.k.maps.rings && RingSafe(s.t.k.maps, s.t.k.maps.rings[s.vips[k].id])
    ensures Inv(SendVip(s, k)) && Grown(s.t.k, SendVip(s, k).t.k)
  {
    PublishAllowed(s, k);
    Open(s);
    SendTab(s.t, PutVip(k, VipValue(s.vips[k].id, s.vips[k].noConntrack)));
    IdsPublished(s.vips, s.adopted, s.t.k.maps.vipMap, k, s.vips[k].noConntrack);
    Close(SendVip(s, k));
  }

  lemma SendVipLeaves(s: Lb, k: VipSpec, stuck: multiset<U32>, j: VipSpec)
    requires Inv(s) && k in s.vips && j != k && stuck <= s.leak
    ensures Untouched(s, SendVip(s, k), stuck, j)
  {
    assert Holds(s, HeldPart) && Holds(s, TablePart);
    KeepsSelf(s.t.slots, s.t.byAddr);
  }

  /**
   write_vip_entry keeps the maps safe exactly when the VIP's ring is there and whole. A VIP whose
   creation ran out of real ids has none, and a reload that changes its flags publishes it all the same.
   */
  lemma PublishSafeIff(s: Lb, k: VipSpec)
    requires Inv(s) && k in s.vips
    ensures PlaneSafe(SendVip(s, k).t.k) <==>
              s.vips[k].id in s.t.k.maps.rings && RingSafe(s.t.k.maps, s.t.k.maps.rings[s.vips[k].id])
  {
    Open(s);
    var v, m := s.vips[k], s.t.k.maps;
    var w := PutVip(k, VipValue(v.id, v.noConntrack));
    var m' := Perform(m, w);
    if PlaneSafe(SendVip(s, k).t.k) {
      assert VipSafe(m', k);
      SameReals(m', m, m'.rings[v.id]);
    }
    if v.id in m.rings && RingSafe(m, m.rings[v.id]) {
      SendVipOk(s, k);
      assert Holds(SendVip(s, k), TablePart);
    }
  }

  // ---- a new VIP

  lemma EnterIds(vips: map<VipSpec, Vip>, adopted: map<VipSpec, nat>, vipMap: map<VipSpec, VipValue>, k: VipSpec,
                 v: Vip)
    requires IdsOk(vips, adopted, vipMap) && k !in vips && v.id < MAX_VIPS && (k in adopted ==> v.id == adopted[k])
    requires forall j :: j in vips ==> vips[j].id != v.id
    requires forall j :: j in adopted && j != k ==> adopted[j] != v.id
    ensures IdsOk(vips[k := v], adopted - {k}, vipMap)
  {
  }

  /** The id of an adopted VIP, or the least one nobody has. */
  lemma FreshId(s: Lb, k: VipSpec, id: nat)
    requires Inv(s) && k !in s.vips
    requires if k in s.adopted then id == s.adopted[k] else id < MAX_VIPS && id !in UsedIds(s)
    ensures id < MAX_VIPS && (forall j :: j in s.vips ==> s.vips[j].id != id)
    ensures forall j :: j in s.adopted && j != k ==> s.adopted[j] != id
  {
    assert Holds(s, IdsPart);
    if k in s.adopted {
      assert Holds(s, TablePart);
      assert VipSafe(s.t.k.maps, k);
    } else {
      assert forall j :: j in s.vips ==> s.vips[j].id in UsedIds(s);
      assert forall j :: j in s.adopted ==> s.adopted[j] in UsedIds(s);
    }
  }

  lemma EnterHeld(s: Lb, k: VipSpec, v: Vip)
    requires HeldOk(s.vips, s.t.slots, s.t.byAddr, s.leak) && k !in s.vips && v.members == map[]
    ensures HeldOk(s.vips[k := v], s.t.slots, s.t.byAddr, s.leak)
  {
    forall a | a in s.t.byAddr
      ensures HeldAt(s.vips[k := v], s.t.slots, s.t.byAddr, s.leak, a)
    {
      assert HeldAt(s.vips, s.t.slots, s.t.byAddr, s.leak, a);
      HoldersPut(s.vips, k, v, a);
    }
  }

  lemma EnterHealth(s: Lb, k: VipSpec, v: Vip)
    requires HealthOk(s.vips, s.next, s.reports) && k !in s.vips && v.members == map[]
    ensures HealthOk(s.vips[k := v], s.next, s.reports)
  {
    var vips' := s.vips[k := v];
    forall i, a, j, b
      ensures Apart(vips', i, a, j, b)
    {
      assert Apart(s.vips, i, a, j, b);
    }
  }

  /** The new VIP has no members, no ring of its own and the id it is to keep. */
  ghost predicate Entered(s: Lb, s': Lb, k: VipSpec, noConntrack: bool) {
    && k in s'.vips
    && s' == s.(vips := s.vips[k := s'.vips[k]], adopted := s.adopted - {k}, base := s'.base, t := s'.t)
    && s'.t == s.t.(k := s'.t.k) && s'.t.k.maps == s.t.k.maps && Grown(s.t.k, s'.t.k)
    && s'.vips[k] == Vip(s'.vips[k].id, noConntrack, 0, map[])
    && (k in s.adopted ==> s'.vips[k].id == s.adopted[k])
  }

  lemma EnterInv(s: Lb, s': Lb, k: VipSpec, noConntrack: bool)
    requires Inv(s) && k !in s.vips && Entered(s, s', k, noConntrack) && TabOk(s'.t)
             && s'.t.k.installs == s.t.k.installs
    requires k in s.adopted || (s'.vips[k].id < MAX_VIPS && s'.vips[k].id !in UsedIds(s))
    requires s'.base == s.base[k := Installed(s.t.k.installs, s'.vips[k].id)]
    ensures Inv(s')
  {
    Open(s);
    var v := s'.vips[k];
    FreshId(s, k, v.id);
    EnterIds(s.vips, s.adopted, s.t.k.maps.vipMap, k, v);
    EnterHeld(s, k, v);
    EnterHealth(s, k, v);
    Close(s');
  }

  lemma EnterNew(s: Lb, k: VipSpec, noConntrack: bool)
    requires Inv(s) && k !in s.vips && k !in s.adopted && LeastUnused(UsedIds(s), 0) < MAX_VIPS
    ensures var r := Enter(s, k, noConntrack);
            r.Some? && Inv(r.value) && Entered(s, r.value, k, noConntrack)
  {
    var s', id := Enter(s, k, noConntrack).value, LeastUnused(UsedIds(s), 0);
    assert Holds(s, TablePart);
    assert s.adopted - {k} == s.adopted;
    SendTab(s.t, ResetVip(id));
    PutGrows(s.t.k, ResetVip(id));
    EnterInv(s, s', k, noConntrack);
  }

  lemma EnterAdopted(s: Lb, k: VipSpec, noConntrack: bool)
    requires Inv(s) && k !in s.vips && k in s.adopted
    ensures var r := Enter(s, k, noConntrack);
            r.Some? && Inv(r.value) && Entered(s, r.value, k, noConntrack)
  {
    assert Holds(s, TablePart);
    EnterInv(s, Enter(s, k, noConntrack).value, k, noConntrack);
  }

  /** The least id that no VIP has, known or adopted. */
  ghost predicate FirstFree(s: Lb, id: nat) {
    id < MAX_VIPS && id !in UsedIds(s) && forall i :: 0 <= i < id ==> i in UsedIds(s)
  }

  /**
   An adopted VIP keeps its id, a new one gets the least free one, and only a new one can be refused, when
   all are taken.
   */
  lemma EnterOk(s: Lb, k: VipSpec, noConntrack: bool)
    requires Inv(s) && k !in s.vips
    ensures var r := Enter(s, k, noConntrack);
            && (r.Some? ==> Inv(r.value) && Entered(s, r.value, k, noConntrack))
            && (r.Some? && k !in s.adopted ==> FirstFree(s, r.value.vips[k].id))
            && (r.None? <==> k !in s.adopted && forall i :: 0 <= i < MAX_VIPS ==> i in UsedIds(s))
  {
    if k in s.adopted {
      EnterAdopted(s, k, noConntrack);
    } else if LeastUnused(UsedIds(s), 0) < MAX_VIPS {
      EnterNew(s, k, noConntrack);
    }
  }

  lemma NotEntered(s: Lb, k: VipSpec, noConntrack: bool, want: map<U32, U32>, h: Hashes)
    requires Inv(s) && k !in s.vips
    ensures Created(s, Done(s, false), k, noConntrack, want, h)
  {
    assert Holds(s, TablePart);
    KeepsSelf(s.t.slots, s.t.byAddr);
    UntouchedSelf(s, s.leak);
  }

  /** What create_vip_locked does to the rest, complete or not. */
  ghost predicate Created(s: Lb, d: Done, k: VipSpec, noConntrack: bool, want: map<U32, U32>, h: Hashes) {
    && Beside(s, d.s, k)
    && (d.ok ==> Made(s, d.s, k, noConntrack, want, h))
    && (!d.ok ==> k in d.s.vips ==> d.s.vips[k].generation == 0 && SameAt(s.t.k.maps.vipMap, d.s.t.k.maps.vipMap, k))
  }

  /** The maps only grew, and every VIP but k is as before. */
  ghost predicate Beside(s: Lb, s': Lb, k: VipSpec) {
    && Inv(s') && Grown(s.t.k, s'.t.k) && KeepsAll(s.t.slots, s.t.byAddr, s'.t.slots, s'.t.byAddr)
    && s' == s.(vips := s'.vips, adopted := s'.adopted, base := s'.base, next := s'.next, reports := s'.reports,
       t := s'.t)
    && forall j :: j != k ==> Untouched(s, s', s.leak, j)
  }

  /** VIP k is as wanted, published with its ring, under its old id if it had one. */
  ghost predicate Made(s: Lb, s': Lb, k: VipSpec, noConntrack: bool, want: map<U32, U32>, h: Hashes) {
    && k in s'.vips && s'.vips == s.vips[k := s'.vips[k]] && s'.adopted == s.adopted - {k}
    && Steady(s', h, k) && Matches(s'.vips[k], noConntrack, want)
    && (k in s.adopted ==> s'.vips[k].id == s.adopted[k])
  }

  /** A VIP with exactly the flags, members and weights that are wanted. */
  ghost predicate Matches(v: Vip, noConntrack: bool, want: map<U32, U32>) {
    && v.noConntrack == noConntrack && v.members.Keys == want.Keys
    && forall a :: a in want ==> v.members[a].weight == want[a]
  }

  lemma CreateFails(s: Lb, s1: Lb, s2: Lb, k: VipSpec, noConntrack: bool, want: map<U32, U32>, h: Hashes)
    requires Inv(s) && k !in s.vips && Entered(s, s1, k, noConntrack) && Inv(s1)
    requires MergeDone(s1, k, want, want.Keys, Done(s2, false))
    ensures Created(s, Done(s2, false), k, noConntrack, want, h)
  {
    GrownTransitive(s.t.k, s1.t.k, s2.t.k);
    forall j | j != k
      ensures Untouched(s, s2, s.leak, j)
    {
      CreateLeaves(s, s1, s2, k, noConntrack, j);
    }
  }

  lemma RebuildGrows(s: Lb, k: VipSpec, h: Hashes)
    requires k in s.vips
    ensures Grown(s.t.k, Rebuild(s, k, h).t.k)
  {
    var v := Rebuilt(s.vips[k], s.t.slots, s.t.byAddr);
    PutGrows(s.t.k, PutRing(v.id, VipRing(v.members, s.t.byAddr, s.hash, h)));
  }

  /** A ring, then the entry. */
  lemma PublishOk(s: Lb, k: VipSpec, h: Hashes)
    requires Inv(s) && k in s.vips
    ensures var s' := SendVip(Rebuild(s, k, h), k);
            && Inv(s') && Grown(s.t.k, s'.t.k) && Steady(s', h, k)
            && forall j :: j != k ==> Untouched(s, s', s.leak, j)
  {
    var s1, s' := Rebuild(s, k, h), SendVip(Rebuild(s, k, h), k);
    RebuildOk(s, k, h);
    RebuildGrows(s, k, h);
    assert RingSafe(s1.t.k.maps, s1.t.k.maps.rings[s1.vips[k].id]) by {
      assert Holds(s1, TablePart);
      SettledTraced(s1, s.leak, h, k);
    }
    SendVipOk(s1, k);
    GrownTransitive(s.t.k, s1.t.k, s'.t.k);
    forall j | j != k
      ensures Untouched(s, s', s.leak, j)
    {
      RebuildLeaves(s, k, h, s.leak, j);
      SendVipLeaves(s1, k, s.leak, j);
      UntouchedThen(s, s1, s', s.leak, j);
    }
  }

  lemma CreateBeside(s: Lb, s1: Lb, s2: Lb, k: VipSpec, noConntrack: bool, want: map<U32, U32>, h: Hashes)
    requires Inv(s) && k !in s.vips && Entered(s, s1, k, noConntrack) && Inv(s1)
    requires MergeDone(s1, k, want, want.Keys, Done(s2, true))
    ensures Beside(s, SendVip(Rebuild(s2, k, h), k), k)
  {
    var s' := SendVip(Rebuild(s2, k, h), k);
    PublishOk(s2, k, h);
    GrownTransitive(s.t.k, s1.t.k, s2.t.k);
    GrownTransitive(s.t.k, s2.t.k, s'.t.k);
    forall j | j != k
      ensures Untouched(s, s', s.leak, j)
    {
      CreateLeaves(s, s1, s2, k, noConntrack, j);
      UntouchedThen(s, s2, s', s.leak, j);
    }
  }

  lemma CreateMakes(s: Lb, s1: Lb, s2: Lb, k: VipSpec, noConntrack: bool, want: map<U32, U32>, h: Hashes)
    requires k !in s.vips && Entered(s, s1, k, noConntrack)
    requires MergeDone(s1, k, want, want.Keys, Done(s2, true))
    ensures Made(s, SendVip(Rebuild(s2, k, h), k), k, noConntrack, want, h)
  {
    PublishOk(s2, k, h);
    var v := Rebuilt(s2.vips[k], s2.t.slots, s2.t.byAddr);
    MergedMatches(s1.vips[k], s2.vips[k], want, s2.t.slots, s2.t.byAddr);
    PutThrice(s.vips, k, s1.vips[k], s2.vips[k], v);
  }

  lemma PutThrice(vips: map<VipSpec, Vip>, k: VipSpec, v1: Vip, v2: Vip, v: Vip)
    ensures vips[k := v1][k := v2][k := v] == vips[k := v]
  {
  }

  lemma MergedMatches(v: Vip, v2: Vip, want: map<U32, U32>, slots: seq<Slot>, byAddr: map<U32, U32>)
    requires v.members.Keys <= want.Keys && Merged(v, v2, want, want.Keys, true)
    ensures Matches(Rebuilt(v2, slots, byAddr), v.noConntrack, want) && Rebuilt(v2, slots, byAddr).id == v.id
  {
    assert v2.members.Keys == want.Keys;
  }

  lemma CreateLeaves(s: Lb, s1: Lb, s2: Lb, k: VipSpec, noConntrack: bool, j: VipSpec)
    requires Entered(s, s1, k, noConntrack) && Inv(s1) && OnlyVip(s1, s2, k) && Grew(s1.t, s2.t) && j != k
    ensures Untouched(s, s2, s.leak, j)
  {
    GrewLeaves(s1, s2, s.leak, j);
  }

  lemma CreateEntered(s: Lb, s1: Lb, k: VipSpec, noConntrack: bool, want: map<U32, U32>, arp: map<U32, Mac>, h: Hashes)
    requires Inv(s) && Ranged(s.t) && k !in s.vips && MacsOk(arp) && Enter(s, k, noConntrack) == Some(s1)
    requires Inv(s1) && Entered(s, s1, k, noConntrack)
    ensures Created(s, CreateVip(s, k, noConntrack, want, arp, h), k, noConntrack, want, h)
  {
    MergeOk(s1, k, want, want.Keys, arp);
    var d := Merge(s1, k, want, want.Keys, arp);
    if d.ok {
      CreateBeside(s, s1, d.s, k, noConntrack, want, h);
      CreateMakes(s, s1, d.s, k, noConntrack, want, h);
    } else {
      CreateFails(s, s1, d.s, k, noConntrack, want, h);
    }
  }

  /** create_vip_locked: nothing live changes at any write, and a completed one is published with its ring. */
  lemma CreateVipOk(s: Lb, k: VipSpec, noConntrack: bool, want: map<U32, U32>, arp: map<U32, Mac>, h: Hashes)
    requires Inv(s) && k !in s.vips && MacsOk(arp)
    ensures Ranged(s.t) && Created(s, CreateVip(s, k, noConntrack, want, arp, h), k, noConntrack, want, h)
  {
    InvRanged(s);
    EnterOk(s, k, noConntrack);
    var r := Enter(s, k, noConntrack);
    if r.None? {
      NotEntered(s, k, noConntrack, want, h);
    } else {
      CreateEntered(s, r.value, k, noConntrack, want, arp, h);
    }
  }
}
