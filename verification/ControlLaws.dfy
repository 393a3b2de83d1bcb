/**
 What every control-plane operation keeps. `Inv` is the invariant; its parts stay folded until a
 proof opens them.
 */
module ControlLaws {
  import opened Basics
  import opened BuildMaglev
  import opened Maps
  import opened Reals
  import opened LbModel
  import opened Control

  datatype Part = TablePart | IdsPart | HeldPart | GenPart | HealthPart | LivePart

  ghost predicate Holds(s: Lb, p: Part) {
    match p
    case TablePart => TabOk(s.t)
    case IdsPart => IdsOk(s.vips, s.adopted, s.t.k.maps.vipMap)
    case HeldPart => HeldOk(s.vips, s.t.slots, s.t.byAddr, s.leak)
    case GenPart => GenOk(s.vips, s.t.k.installs, s.base)
    case HealthPart => HealthOk(s.vips, s.next, s.reports)
    case LivePart => s.initialized ==> s.adopted == map[] && AllHeld(s.t.slots, s.t.byAddr)
  }

  /** Every address in the table has a reference. */
  ghost predicate AllHeld(slots: seq<Slot>, byAddr: map<U32, U32>) {
    forall a :: a in byAddr ==> HasRefs(slots, byAddr, a)
  }

  /**
   The table and the maps agree and every map state so far was safe; ids are distinct; reference
   counts are exact; generations count installs; health is what the counted reports make of it;
   and once the daemon has started nothing is kept that nobody refers to.
   */
  ghost predicate Inv(s: Lb) {
    forall p: Part {:trigger Holds(s, p)} :: Holds(s, p)
  }

  lemma Open(s: Lb)
    requires Inv(s)
    ensures TabOk(s.t) && Ranged(s.t) && IdsOk(s.vips, s.adopted, s.t.k.maps.vipMap)
    ensures HeldOk(s.vips, s.t.slots, s.t.byAddr, s.leak) && GenOk(s.vips, s.t.k.installs, s.base)
    ensures HealthOk(s.vips, s.next, s.reports)
    ensures s.initialized ==> s.adopted == map[] && AllHeld(s.t.slots, s.t.byAddr)
  {
    assert Holds(s, LivePart);
    assert Holds(s, TablePart) && Holds(s, IdsPart) && Holds(s, HeldPart) && Holds(s, GenPart) && Holds(s, HealthPart);
    TabRanged(s.t);
  }

  lemma Close(s: Lb)
    requires TabOk(s.t) && IdsOk(s.vips, s.adopted, s.t.k.maps.vipMap)
    requires HeldOk(s.vips, s.t.slots, s.t.byAddr, s.leak) && GenOk(s.vips, s.t.k.installs, s.base)
    requires HealthOk(s.vips, s.next, s.reports)
    requires s.initialized ==> s.adopted == map[] && AllHeld(s.t.slots, s.t.byAddr)
    ensures Inv(s)
  {
  }

  lemma InvRanged(s: Lb)
    requires Inv(s)
    ensures Ranged(s.t)
  {
    assert Holds(s, TablePart);
    TabRanged(s.t);
  }

  // ---- what an operation on one VIP leaves alone

  ghost predicate SameAt<K, V>(m: map<K, V>, m': map<K, V>, k: K) {
    (k in m <==> k in m') && (k in m ==> m'[k] == m[k])
  }

  /** VIP j, its ring, its VIP map entry and the ids and MACs of the addresses it or `stuck` has. */
  ghost predicate Untouched(s: Lb, s': Lb, stuck: multiset<U32>, j: VipSpec) {
    && SameAt(s.vips, s'.vips, j)
    && (j in s.vips ==>
          && SameAt(s.t.k.maps.vipMap, s'.t.k.maps.vipMap, j)
          && SameAt(s.t.k.maps.rings, s'.t.k.maps.rings, s.vips[j].id)
          && (forall a :: a in s.vips[j].members || a in stuck
                ==> KeepsAddr(s.t.slots, s.t.byAddr, s'.t.slots, s'.t.byAddr, a)))
  }

  lemma UntouchedThen(s: Lb, s1: Lb, s2: Lb, stuck: multiset<U32>, j: VipSpec)
    requires Untouched(s, s1, stuck, j) && Untouched(s1, s2, stuck, j)
    ensures Untouched(s, s2, stuck, j)
  {
    if j in s.vips {
      forall a | a in s.vips[j].members || a in stuck
        ensures KeepsAddr(s.t.slots, s.t.byAddr, s2.t.slots, s2.t.byAddr, a)
      {
        assert KeepsAddr(s.t.slots, s.t.byAddr, s1.t.slots, s1.t.byAddr, a);
        assert KeepsAddr(s1.t.slots, s1.t.byAddr, s2.t.slots, s2.t.byAddr, a);
      }
    }
  }

  /** The ring packets read for VIP j is the one its members in_ring give, under the flags and id it has. */
  ghost predicate Steady(s: Lb, h: Hashes, j: VipSpec) {
    j in s.vips ==>
      && s.vips[j].generation > 0
      && Settled(s.vips[j], s.t.k.maps.rings, s.t.slots, s.t.byAddr, s.hash, h)
      && j in s.t.k.maps.vipMap && s.t.k.maps.vipMap[j] == VipValue(s.vips[j].id, s.vips[j].noConntrack)
  }

  lemma UntouchedSteady(s: Lb, s': Lb, stuck: multiset<U32>, h: Hashes, j: VipSpec)
    requires Untouched(s, s', stuck, j) && Steady(s, h, j) && s'.hash == s.hash
    ensures Steady(s', h, j)
  {
    if j in s.vips {
      SettledKept(s.vips[j], s.t.k.maps.rings, s.t.slots, s.t.byAddr, s'.t.k.maps.rings, s'.t.slots, s'.t.byAddr,
        s.hash, h);
    }
  }

  /**
   A VIP with a ring of its own has a whole one, naming only its members and the addresses in
   `stuck`; a VIP that never got that far is not in the VIP map.
   */
  ghost predicate Traced(s: Lb, stuck: multiset<U32>, j: VipSpec) {
    j in s.vips ==>
      var v, maps := s.vips[j], s.t.k.maps;
      if v.generation == 0 then j !in maps.vipMap
      else v.id in maps.rings && RingSafe(maps, maps.rings[v.id]) && Accounted(v, maps.rings[v.id], s.t.slots, stuck)
  }

  lemma UntouchedTraced(s: Lb, s': Lb, stuck: multiset<U32>, j: VipSpec)
    requires TabOk(s.t) && TabOk(s'.t) && Untouched(s, s', stuck, j) && Traced(s, stuck, j)
    ensures Traced(s', stuck, j)
  {
    if j in s.vips && s.vips[j].generation > 0 {
      var v := s.vips[j];
      AccountedKept(v, s.t.k.maps.rings[v.id], s.t.slots, s.t.byAddr, stuck, s'.t.slots, s'.t.byAddr);
      RingSafeKept(v, s.t.k.maps.rings[v.id], s.t.slots, s.t.byAddr, s.t.k.maps, stuck, s'.t.slots, s'.t.byAddr,
        s'.t.k.maps);
    }
  }

  lemma TracedMore(s: Lb, stuck: multiset<U32>, stuck': multiset<U32>, j: VipSpec)
    requires Traced(s, stuck, j) && stuck <= stuck'
    ensures Traced(s, stuck', j)
  {
  }

  lemma SettledTraced(s: Lb, stuck: multiset<U32>, h: Hashes, j: VipSpec)
    requires TabOk(s.t) && j in s.vips && s.vips[j].generation > 0
    requires Settled(s.vips[j], s.t.k.maps.rings, s.t.slots, s.t.byAddr, s.hash, h)
    ensures Traced(s, stuck, j)
  {
    SettledIsAccounted(s.vips[j], s.t.k.maps.rings, s.t.slots, s.t.byAddr, s.hash, h, stuck);
    RebuiltIsSafe(s.vips[j].members, s.t.slots, s.t.byAddr, s.t.k.maps, s.hash, h);
  }

  // ---- single writes

  lemma SendTab(t: Tab, w: Write)
    requires TabOk(t) && Allowed(t.k.maps, w) && !w.PutReal? && !w.PutNeigh?
    ensures TabOk(t.(k := Put(t.k, w)))
  {
    PutSafe(t.k, w);
    MirrorsSame(t.slots, t.k.maps, Perform(t.k.maps, w));
  }

  // ---- rebuild

  lemma RefreshedMembers(v: Vip, slots: seq<Slot>, byAddr: map<U32, U32>)
    ensures SameMembers(v, Rebuilt(v, slots, byAddr))
    ensures forall a :: a in v.members && Rebuilt(v, slots, byAddr).members[a].inRing ==>
              Eligible(slots, byAddr, a, Rebuilt(v, slots, byAddr).members[a])
  {
  }

  /** Rebuilding keeps the invariant, settles the VIP and leaves every other VIP alone. */
  lemma RebuildOk(s: Lb, k: VipSpec, h: Hashes)
    requires Inv(s) && k in s.vips
    ensures Inv(Rebuild(s, k, h))
    ensures var s' := Rebuild(s, k, h);
            Settled(s'.vips[k], s'.t.k.maps.rings, s'.t.slots, s'.t.byAddr, s'.hash, h)
  {
    Open(s);
    var v := Rebuilt(s.vips[k], s.t.slots, s.t.byAddr);
    var ring := VipRing(v.members, s.t.byAddr, s.hash, h);
    RefreshedMembers(s.vips[k], s.t.slots, s.t.byAddr);
    RebuiltIsSafe(v.members, s.t.slots, s.t.byAddr, s.t.k.maps, s.hash, h);
    SendTab(s.t, PutRing(v.id, ring));
    IdsTouched(s.vips, s.adopted, s.t.k.maps.vipMap, k, v);
    HeldTouched(s.vips, s.t.slots, s.t.byAddr, s.leak, k, v);
    HealthTouched(s.vips, s.next, s.reports, k, v);
    GenInstalled(s.vips, s.t.k.installs, s.base, k, v);
    Close(Rebuild(s, k, h));
  }

  lemma RebuildLeaves(s: Lb, k: VipSpec, h: Hashes, stuck: multiset<U32>, j: VipSpec)
    requires Inv(s) && k in s.vips && j != k && stuck <= s.leak
    ensures Untouched(s, Rebuild(s, k, h), stuck, j)
  {
    assert Holds(s, IdsPart) && Holds(s, HeldPart) && Holds(s, TablePart);
    KeepsSelf(s.t.slots, s.t.byAddr);
  }
}
