/**
 Which real id means which address, and which MAC its packets are sent to: the table and its
 operations as functions on values, every map write included, and what each of them keeps.
 */
module Reals {
  import opened Basics
  import opened Maps

  datatype Slot = Slot(addr: U32, refs: nat, mac: Option<Mac>)

  const FREE: Slot := Slot(0, 0, None)

  function MacOf(s: Slot): (mac: Mac) {
    if s.mac.Some? then s.mac.value else NO_MAC
  }

  // ---- the table and the maps

  ghost predicate SlotOk(slots: seq<Slot>, byAddr: map<U32, U32>, id: nat)
    requires id < |slots|
  {
    var s := slots[id];
    && (s.addr == 0 ==> s == FREE)
    && (s.addr != 0 ==> id > 0 && s.addr in byAddr && byAddr[s.addr] == id)
    && (s.mac.Some? ==> s.mac.value != NO_MAC)
  }

  ghost predicate AddrOk(slots: seq<Slot>, byAddr: map<U32, U32>, a: U32)
    requires a in byAddr
  {
    a != 0 && 0 < byAddr[a] < |slots| && slots[byAddr[a]].addr == a
  }

  /** `slots` and `byAddr` are inverse to each other, and id 0 is never used. */
  ghost predicate TableOk(slots: seq<Slot>, byAddr: map<U32, U32>) {
    && |slots| == MAX_REALS
    && (forall id: nat :: id < |slots| ==> SlotOk(slots, byAddr, id))
    && (forall a :: a in byAddr ==> AddrOk(slots, byAddr, a))
  }

  ghost predicate SlotShown(s: Slot, m: Maps, id: nat)
    requires id < |m.reals| && id < |m.neigh|
  {
    m.reals[id] == s.addr && (s.addr != 0 ==> m.neigh[id] == MacOf(s))
  }

  /** The `reals` and `neigh` arrays say what the slots say. */
  ghost predicate Mirrors(slots: seq<Slot>, m: Maps) {
    && |m.reals| == |m.neigh| == |slots|
    && forall id: nat :: id < |slots| ==> SlotShown(slots[id], m, id)
  }

  lemma MirrorsSame(slots: seq<Slot>, m: Maps, m': Maps)
    requires Mirrors(slots, m) && m'.reals == m.reals && m'.neigh == m.neigh
    ensures Mirrors(slots, m')
  {
    forall id: nat | id < |slots|
      ensures SlotShown(slots[id], m', id)
    {
      assert SlotShown(slots[id], m, id);
    }
  }

  // ---- round robin

  function Next(c: nat): (n: nat) {
    if c + 1 < MAX_REALS then c + 1 else 1
  }

  /** The id n steps after c, for at most one lap. */
  function Around(c: nat, n: nat): (id: nat) {
    if c + n < MAX_REALS then c + n else c + n - (MAX_REALS - 1)
  }

  /** The id the cursor stands on after `tick` moves from id 1. */
  function IdAt(tick: nat): (id: nat) {
    1 + tick % (MAX_REALS - 1)
  }

  /**
   Between two allocations of one id the cursor has passed every other id, and within one lap
   exactly once: a freed id comes back only after the whole table has been offered.
   */
  lemma ReuseTakesALap(first: nat, again: nat, other: nat) returns (t: nat)
    requires first < again && IdAt(first) == IdAt(again) && 1 <= other < MAX_REALS
    ensures again - first >= MAX_REALS - 1
    ensures first <= t < first + MAX_REALS - 1 && IdAt(t) == other
    ensures forall u :: first <= u < first + MAX_REALS - 1 && IdAt(u) == other ==> u == t
  {
    var at := first % (MAX_REALS - 1);
    t := if other - 1 >= at then first + (other - 1 - at) else first + (other - 1 + MAX_REALS - 1 - at);
  }

  lemma TickAround(tick: nat, n: nat)
    requires n < MAX_REALS
    ensures IdAt(tick + n) == Around(IdAt(tick), n)
  {
  }

  // ---- the state after each operation keeps the table

  lemma SlotWritten(slots: seq<Slot>, byAddr: map<U32, U32>, m: Maps, id: nat, s: Slot)
    requires TableOk(slots, byAddr) && Mirrors(slots, m) && 0 < id < |slots|
    requires slots[id].addr == s.addr != 0 && (s.mac.Some? ==> s.mac.value != NO_MAC)
    ensures TableOk(slots[id := s], byAddr)
    ensures Mirrors(slots[id := s], m.(neigh := m.neigh[id := MacOf(s)]))
  {
    var slots' := slots[id := s];
    forall x: nat | x < |slots'|
      ensures SlotOk(slots', byAddr, x) && SlotShown(slots'[x], m.(neigh := m.neigh[id := MacOf(s)]), x)
    {
      assert SlotOk(slots, byAddr, x) && SlotShown(slots[x], m, x);
    }
    forall a | a in byAddr
      ensures AddrOk(slots', byAddr, a)
    {
      assert AddrOk(slots, byAddr, a);
    }
  }

  lemma SlotFilled(slots: seq<Slot>, byAddr: map<U32, U32>, m: Maps, id: nat, a: U32)
    requires TableOk(slots, byAddr) && Mirrors(slots, m) && 0 < id < |slots|
    requires slots[id].addr == 0 && a != 0 && a !in byAddr
    ensures TableOk(slots[id := Slot(a, 1, None)], byAddr[a := id])
    ensures Mirrors(slots[id := Slot(a, 1, None)], m.(neigh := m.neigh[id := NO_MAC], reals := m.reals[id := a]))
    ensures a !in m.reals
  {
    var slots', byAddr' := slots[id := Slot(a, 1, None)], byAddr[a := id];
    forall x: nat | x < |slots'|
      ensures SlotOk(slots', byAddr', x) && m.reals[x] != a
      ensures SlotShown(slots'[x], m.(neigh := m.neigh[id := NO_MAC], reals := m.reals[id := a]), x)
    {
      assert SlotOk(slots, byAddr, x) && SlotShown(slots[x], m, x);
    }
    forall b | b in byAddr'
      ensures AddrOk(slots', byAddr', b)
    {
      assert b != a ==> AddrOk(slots, byAddr, b);
    }
  }

  lemma SlotFreed(slots: seq<Slot>, byAddr: map<U32, U32>, m: Maps, id: nat)
    requires TableOk(slots, byAddr) && Mirrors(slots, m) && 0 < id < |slots| && slots[id].addr != 0
    ensures TableOk(slots[id := FREE], byAddr - {slots[id].addr})
    ensures Mirrors(slots[id := FREE], m.(reals := m.reals[id := 0], neigh := m.neigh[id := NO_MAC]))
  {
    var slots', byAddr' := slots[id := FREE], byAddr - {slots[id].addr};
    assert SlotOk(slots, byAddr, id);
    forall x: nat | x < |slots'|
      ensures SlotOk(slots', byAddr', x)
      ensures SlotShown(slots'[x], m.(reals := m.reals[id := 0], neigh := m.neigh[id := NO_MAC]), x)
    {
      assert SlotOk(slots, byAddr, x) && SlotShown(slots[x], m, x);
    }
    forall b | b in byAddr'
      ensures AddrOk(slots', byAddr', b)
    {
      assert AddrOk(slots, byAddr, b);
    }
  }

  /** This address keeps its id, and its MAC if it has one. */
  ghost predicate KeepsAddr(slots: seq<Slot>, byAddr: map<U32, U32>, slots': seq<Slot>, byAddr': map<U32, U32>,
                            a: U32) {
    && a in byAddr && a in byAddr' && byAddr'[a] == byAddr[a]
    && byAddr[a] < |slots| && byAddr[a] < |slots'|
    && slots[byAddr[a]].addr == a && slots'[byAddr[a]].addr == a
    && (slots[byAddr[a]].mac.Some? ==> slots'[byAddr[a]].mac.Some?)
  }

  ghost predicate KeepsAll(slots: seq<Slot>, byAddr: map<U32, U32>, slots': seq<Slot>, byAddr': map<U32, U32>) {
    forall a :: a in byAddr ==> KeepsAddr(slots, byAddr, slots', byAddr', a)
  }

  /** One more reference for `addr`, none for anyone else, and nobody's id changes. */
  ghost predicate RefAdded(slots: seq<Slot>, byAddr: map<U32, U32>, slots': seq<Slot>, byAddr': map<U32, U32>,
                           addr: U32) {
    && byAddr'.Keys == byAddr.Keys + {addr}
    && (forall a :: a in byAddr ==> byAddr'[a] == byAddr[a])
    && (forall a :: a in byAddr' ==> byAddr'[a] < |slots| && byAddr'[a] < |slots'|)
    && (forall a :: a in byAddr' ==> RefsAfter(slots, byAddr, slots', byAddr', addr, a))
  }

  ghost predicate RefsAfter(slots: seq<Slot>, byAddr: map<U32, U32>, slots': seq<Slot>, byAddr': map<U32, U32>,
                            addr: U32, a: U32)
    requires a in byAddr' && byAddr'[a] < |slots| && byAddr'[a] < |slots'|
  {
    slots'[byAddr'[a]].refs == (if a in byAddr then slots[byAddr'[a]].refs else 0) + (if a == addr then 1 else 0)
  }

  /** Addresses and reference counts are as before. */
  ghost predicate SameRefs(slots: seq<Slot>, slots': seq<Slot>) {
    |slots'| == |slots| && forall id :: 0 <= id < |slots|
                             ==> slots'[id].addr == slots[id].addr && slots'[id].refs == slots[id].refs
  }

  lemma RefAddedThen(slots: seq<Slot>, byAddr: map<U32, U32>, slots1: seq<Slot>, byAddr1: map<U32, U32>,
                     slots2: seq<Slot>, addr: U32)
    requires RefAdded(slots, byAddr, slots1, byAddr1, addr) && SameRefs(slots1, slots2)
    ensures RefAdded(slots, byAddr, slots2, byAddr1, addr)
  {
    forall a | a in byAddr1
      ensures RefsAfter(slots, byAddr, slots2, byAddr1, addr, a)
    {
      assert RefsAfter(slots, byAddr, slots1, byAddr1, addr, a);
    }
  }

  lemma KeepsTransitive(slots: seq<Slot>, byAddr: map<U32, U32>, slots1: seq<Slot>, byAddr1: map<U32, U32>,
                        slots2: seq<Slot>, byAddr2: map<U32, U32>)
    requires KeepsAll(slots, byAddr, slots1, byAddr1) && KeepsAll(slots1, byAddr1, slots2, byAddr2)
    ensures KeepsAll(slots, byAddr, slots2, byAddr2)
  {
    forall a | a in byAddr
      ensures KeepsAddr(slots, byAddr, slots2, byAddr2, a)
    {
      assert KeepsAddr(slots, byAddr, slots1, byAddr1, a);
      assert KeepsAddr(slots1, byAddr1, slots2, byAddr2, a);
    }
  }

  lemma RefCounted(slots: seq<Slot>, byAddr: map<U32, U32>, addr: U32)
    requires TableOk(slots, byAddr) && addr in byAddr
    ensures byAddr[addr] < |slots|
    ensures var id := byAddr[addr];
            var slots' := slots[id := slots[id].(refs := slots[id].refs + 1)];
            RefAdded(slots, byAddr, slots', byAddr, addr) && KeepsAll(slots, byAddr, slots', byAddr)
  {
    assert forall a :: a in byAddr ==> AddrOk(slots, byAddr, a);
  }

  lemma RefCreated(slots: seq<Slot>, byAddr: map<U32, U32>, addr: U32, id: U32)
    requires TableOk(slots, byAddr) && addr !in byAddr && 0 < id < |slots| && slots[id] == FREE
    ensures var slots', byAddr' := slots[id := Slot(addr, 1, None)], byAddr[addr := id];
            RefAdded(slots, byAddr, slots', byAddr', addr) && KeepsAll(slots, byAddr, slots', byAddr')
  {
    assert forall a :: a in byAddr ==> AddrOk(slots, byAddr, a);
  }

  lemma KeepsSelf(slots: seq<Slot>, byAddr: map<U32, U32>)
    requires TableOk(slots, byAddr)
    ensures KeepsAll(slots, byAddr, slots, byAddr)
  {
    assert forall a :: a in byAddr ==> AddrOk(slots, byAddr, a);
  }

  lemma MacStored(slots: seq<Slot>, byAddr: map<U32, U32>, id: nat, mac: Mac)
    requires TableOk(slots, byAddr) && id < |slots|
    ensures var slots' := slots[id := slots[id].(mac := Some(mac))];
            SameRefs(slots, slots') && KeepsAll(slots, byAddr, slots', byAddr)
  {
    assert forall a :: a in byAddr ==> AddrOk(slots, byAddr, a);
  }

  // ---- the operations

  datatype Tab = Tab(slots: seq<Slot>, byAddr: map<U32, U32>, cursor: nat, tick: nat, born: map<nat, nat>, k: Plane)

  /** The cursor is where `tick` moves put it, and every id was handed out as it passed. */
  ghost predicate RoundRobin(t: Tab) {
    && 0 < t.cursor < MAX_REALS && t.cursor == IdAt(t.tick)
    && forall id :: id in t.born ==> t.born[id] < t.tick && IdAt(t.born[id]) == id
  }

  ghost predicate TabOk(t: Tab) {
    TableOk(t.slots, t.byAddr) && Mirrors(t.slots, t.k.maps) && PlaneSafe(t.k) && RoundRobin(t)
  }

  ghost predicate InRange(slots: seq<Slot>, byAddr: map<U32, U32>, a: U32) {
    a in byAddr ==> 0 < byAddr[a] < |slots|
  }

  /** Every id the table speaks of is an index of it. */
  ghost predicate Ranged(t: Tab) {
    |t.slots| == MAX_REALS && 0 < t.cursor < MAX_REALS && forall a :: InRange(t.slots, t.byAddr, a)
  }

  lemma TabRanged(t: Tab)
    requires TabOk(t)
    ensures Ranged(t)
  {
    forall a
      ensures InRange(t.slots, t.byAddr, a)
    {
      assert a in t.byAddr ==> AddrOk(t.slots, t.byAddr, a);
    }
  }

  /** write_slot: filling writes neigh before reals, freeing clears reals before neigh. */
  ghost function PutSlot(t: Tab, id: nat): (t': Tab)
    requires id < |t.slots|
    ensures t' == t.(k := t'.k)
  {
    var s := t.slots[id];
    var toNeigh, toReal := PutNeigh(id, MacOf(s)), PutReal(id, s.addr);
    t.(k := if s.addr != 0 then Put(Put(t.k, toNeigh), toReal) else Put(Put(t.k, toReal), toNeigh))
  }

  /** How many ids in use are met from c on before a free one, looking at n of them. */
  function Taken(slots: seq<Slot>, c: nat, n: nat): (met: nat)
    requires |slots| == MAX_REALS && 0 < c < MAX_REALS
    decreases n
  {
    if n == 0 || slots[c].addr == 0 then 0 else 1 + Taken(slots, Next(c), n - 1)
  }

  lemma RangedSame(t: Tab, t': Tab)
    requires Ranged(t) && |t'.slots| == |t.slots| && 0 < t'.cursor < MAX_REALS
    requires forall a :: a in t'.byAddr ==> a in t.byAddr && t'.byAddr[a] == t.byAddr[a]
    ensures Ranged(t')
  {
    forall a
      ensures InRange(t'.slots, t'.byAddr, a)
    {
      assert InRange(t.slots, t.byAddr, a);
    }
  }

  ghost function CountRef(t: Tab, id: nat): (t': Tab)
    requires id < |t.slots|
  {
    t.(slots := t.slots[id := t.slots[id].(refs := t.slots[id].refs + 1)])
  }

  ghost function Create(t: Tab, addr: U32, id: nat, met: nat): (t': Tab)
    requires 0 < id < |t.slots| <= MAX_REALS
  {
    PutSlot(t.(slots := t.slots[id := Slot(addr, 1, None)], byAddr := t.byAddr[addr := id], cursor := Next(id),
               tick := t.tick + met + 1, born := t.born[id := t.tick + met], k := Put(t.k, ResetReal(id))), id)
  }

  /**
   acquire: a known address gets one more reference; a new one gets the first free id at or after
   the cursor. None when there is none, or for the address that marks a free slot.
   */
  ghost function Acquire(t: Tab, addr: U32): (r: Option<Tab>)
    requires Ranged(t)
    ensures r.Some? ==> Ranged(r.value) && addr in r.value.byAddr && InRange(r.value.slots, r.value.byAddr, addr)
  {
    assert InRange(t.slots, t.byAddr, addr);
    if addr == 0 then None
    else if addr in t.byAddr then
      RangedSame(t, CountRef(t, t.byAddr[addr]));
      Some(CountRef(t, t.byAddr[addr]))
    else
      var met := Taken(t.slots, t.cursor, MAX_REALS - 1);
      if met >= MAX_REALS - 1 then None else
        CreateRanged(t, addr, Around(t.cursor, met), met);
        Some(Create(t, addr, Around(t.cursor, met), met))
  }

  lemma CreateRanged(t: Tab, addr: U32, id: nat, met: nat)
    requires Ranged(t) && 0 < id < MAX_REALS
    ensures Ranged(Create(t, addr, id, met))
  {
    forall a
      ensures InRange(Create(t, addr, id, met).slots, Create(t, addr, id, met).byAddr, a)
    {
      assert InRange(t.slots, t.byAddr, a);
    }
  }

  ghost function Free(t: Tab, id: nat): (t': Tab)
    requires id < |t.slots|
  {
    PutSlot(t.(byAddr := t.byAddr - {t.slots[id].addr}, slots := t.slots[id := FREE]), id)
  }

  /** release: the last reference frees the id. */
  ghost function Release(t: Tab, addr: U32): (t': Tab)
    requires Ranged(t)
    ensures Ranged(t')
  {
    if addr !in t.byAddr then t else
      assert InRange(t.slots, t.byAddr, addr);
      var id := t.byAddr[addr];
      var t' := if t.slots[id].refs > 1 then t.(slots := t.slots[id := t.slots[id].(refs := t.slots[id].refs - 1)])
                else PutSlot(t.(byAddr := t.byAddr - {addr}, slots := t.slots[id := FREE]), id);
      RangedSame(t, t');
      t'
  }

  ghost predicate MacChanges(t: Tab, addr: U32, mac: Mac)
    requires Ranged(t)
  {
    assert InRange(t.slots, t.byAddr, addr);
    addr in t.byAddr && t.slots[t.byAddr[addr]].mac != Some(mac)
  }

  ghost function SetMac(t: Tab, addr: U32, mac: Mac): (t': Tab)
    requires Ranged(t)
    ensures Ranged(t') && t'.byAddr == t.byAddr
  {
    if !MacChanges(t, addr, mac) then t else
      assert InRange(t.slots, t.byAddr, addr);
      var id := t.byAddr[addr];
      var t' := PutSlot(t.(slots := t.slots[id := t.slots[id].(mac := Some(mac))]), id);
      RangedSame(t, t');
      t'
  }

  // ---- what they keep

  lemma {:induction false} TakenFacts(slots: seq<Slot>, c: nat, n: nat, x: nat)
    requires |slots| == MAX_REALS && 0 < c < MAX_REALS && n < MAX_REALS
    ensures Taken(slots, c, n) <= n
    ensures x < Taken(slots, c, n) ==> slots[Around(c, x)].addr != 0
    ensures Taken(slots, c, n) < n ==> slots[Around(c, Taken(slots, c, n))].addr == 0
    decreases n
  {
    if n > 0 && slots[c].addr != 0 {
      TakenFacts(slots, Next(c), n - 1, if x == 0 then 0 else x - 1);
    }
  }

  lemma FullIffTaken(slots: seq<Slot>, c: nat)
    requires |slots| == MAX_REALS && 0 < c < MAX_REALS
    ensures Taken(slots, c, MAX_REALS - 1) == MAX_REALS - 1 <==> Full(slots)
  {
    TakenFacts(slots, c, MAX_REALS - 1, 0);
    if Taken(slots, c, MAX_REALS - 1) == MAX_REALS - 1 {
      forall id | 0 < id < |slots|
        ensures slots[id].addr != 0
      {
        var x: nat := if id >= c then id - c else id - c + MAX_REALS - 1;
        TakenFacts(slots, c, MAX_REALS - 1, x);
      }
    }
  }

  /** Writing a slot that filling, updating or freeing prepared keeps the maps safe. */
  lemma PutSlotSafe(t: Tab, id: nat)
    requires PlaneSafe(t.k) && 0 < id < |t.slots| == MAX_REALS
    requires var s, m := t.slots[id], t.k.maps;
             || (s.addr != 0 && m.reals[id] == 0 && s.addr !in m.reals)
             || (s.addr != 0 && m.reals[id] == s.addr && MacOf(s) != NO_MAC)
             || (s.addr == 0 && Unused(m, id))
    ensures PlaneSafe(PutSlot(t, id).k)
  {
    var s := t.slots[id];
    var toNeigh, toReal := PutNeigh(id, MacOf(s)), PutReal(id, s.addr);
    if s.addr != 0 {
      PutSafe(t.k, toNeigh);
      PutSafe(Put(t.k, toNeigh), toReal);
    } else {
      PutSafe(t.k, toReal);
      PutSafe(Put(t.k, toReal), toNeigh);
    }
  }

  lemma PutSlotMaps(t: Tab, id: nat)
    requires id < |t.slots| == |t.k.maps.reals| == |t.k.maps.neigh|
    ensures PutSlot(t, id).k.maps
         == t.k.maps.(reals := t.k.maps.reals[id := t.slots[id].addr],
            neigh := t.k.maps.neigh[id := MacOf(t.slots[id])])
    ensures PutSlot(t, id).k.installs == t.k.installs && t.k.log <= PutSlot(t, id).k.log
    ensures PutSlot(t, id) == t.(k := PutSlot(t, id).k)
  {
  }

  /** Filling a slot the maps show as free, or giving an address its first MAC, only adds. */
  lemma PutSlotGrows(t: Tab, id: nat)
    requires id < |t.slots| == |t.k.maps.reals| == |t.k.maps.neigh| && t.slots[id].addr != 0
    requires t.k.maps.reals[id] == 0 || (t.k.maps.reals[id] == t.slots[id].addr && t.k.maps.neigh[id] == NO_MAC)
    ensures Grown(t.k, PutSlot(t, id).k)
  {
    var k1 := Put(t.k, PutNeigh(id, MacOf(t.slots[id])));
    PutGrows(t.k, PutNeigh(id, MacOf(t.slots[id])));
    if t.k.maps.reals[id] == 0 {
      PutGrows(k1, PutReal(id, t.slots[id].addr));
    } else {
      assert k1.maps.reals[id := t.slots[id].addr] == k1.maps.reals;
      PutGrows(k1, PutReal(id, t.slots[id].addr));
    }
    GrownTransitive(t.k, k1, PutSlot(t, id).k);
  }

  lemma CountRefOk(t: Tab, addr: U32)
    requires TabOk(t) && addr in t.byAddr
    ensures TabOk(CountRef(t, t.byAddr[addr]))
    ensures RefAdded(t.slots, t.byAddr, CountRef(t, t.byAddr[addr]).slots, t.byAddr, addr)
    ensures KeepsAll(t.slots, t.byAddr, CountRef(t, t.byAddr[addr]).slots, t.byAddr)
  {
    var id := t.byAddr[addr];
    var s := t.slots[id].(refs := t.slots[id].refs + 1);
    assert AddrOk(t.slots, t.byAddr, addr) && SlotOk(t.slots, t.byAddr, id) && SlotShown(t.slots[id], t.k.maps, id);
    SlotWritten(t.slots, t.byAddr, t.k.maps, id, s);
    assert t.k.maps.(neigh := t.k.maps.neigh[id := MacOf(s)]) == t.k.maps;
    RefCounted(t.slots, t.byAddr, addr);
  }

  lemma CreateOk(t: Tab, addr: U32)
    requires TabOk(t) && addr != 0 && addr !in t.byAddr
    requires Taken(t.slots, t.cursor, MAX_REALS - 1) < MAX_REALS - 1
    ensures var met := Taken(t.slots, t.cursor, MAX_REALS - 1);
            var id := Around(t.cursor, met);
            var t' := Create(t, addr, id, met);
            && TableOk(t'.slots, t'.byAddr) && Mirrors(t'.slots, t'.k.maps) && PlaneSafe(t'.k)
            && Grown(t.k, t'.k) && OnlyReals(t.k.maps, t'.k.maps) && t'.k.installs == t.k.installs
  {
    var met := Taken(t.slots, t.cursor, MAX_REALS - 1);
    TakenFacts(t.slots, t.cursor, MAX_REALS - 1, 0);
    var id := Around(t.cursor, met);
    var k1 := Put(t.k, ResetReal(id));
    var t1 := t.(slots := t.slots[id := Slot(addr, 1, None)], byAddr := t.byAddr[addr := id], cursor := Next(id),
                 tick := t.tick + met + 1, born := t.born[id := t.tick + met], k := k1);
    assert SlotOk(t.slots, t.byAddr, id) && SlotShown(t.slots[id], t.k.maps, id);
    SlotFilled(t.slots, t.byAddr, t.k.maps, id, addr);
    PutSafe(t.k, ResetReal(id));
    PutGrows(t.k, ResetReal(id));
    PutSlotSafe(t1, id);
    PutSlotMaps(t1, id);
    PutSlotGrows(t1, id);
    GrownTransitive(t.k, k1, PutSlot(t1, id).k);
  }

  /** The id handed out is the first free one from the cursor, and a reused id waited a full lap. */
  lemma CreateRoundRobin(t: Tab, addr: U32)
    requires TabOk(t) && addr != 0 && addr !in t.byAddr
    requires Taken(t.slots, t.cursor, MAX_REALS - 1) < MAX_REALS - 1
    ensures var met := Taken(t.slots, t.cursor, MAX_REALS - 1);
            var id := Around(t.cursor, met);
            var t' := Create(t, addr, id, met);
            && 0 < id < MAX_REALS && t.slots[id] == FREE && RoundRobin(t')
            && id == IdAt(t'.born[id]) && (id in t.born ==> t'.born[id] - t.born[id] >= MAX_REALS - 1)
  {
    var met := Taken(t.slots, t.cursor, MAX_REALS - 1);
    TakenFacts(t.slots, t.cursor, MAX_REALS - 1, 0);
    var id := Around(t.cursor, met);
    assert SlotOk(t.slots, t.byAddr, id);
    Lapped(t, met);
  }

  lemma Lapped(t: Tab, met: nat)
    requires RoundRobin(t) && met < MAX_REALS - 1
    ensures var id := Around(t.cursor, met);
            && id == IdAt(t.tick + met) && Next(id) == IdAt(t.tick + met + 1)
            && (id in t.born ==> t.tick + met - t.born[id] >= MAX_REALS - 1)
  {
    TickAround(t.tick, met);
    TickAround(t.tick, met + 1);
    var id := Around(t.cursor, met);
    if id in t.born {
      var u := ReuseTakesALap(t.born[id], t.tick + met, 1);
    }
  }

  /**
   Acquiring fails exactly for address 0 and for a new address when all of 1..511 are in use.
   Otherwise the address has one more reference, and nothing live changes at any write.
   */
  lemma AcquireOk(t: Tab, addr: U32)
    requires TabOk(t)
    ensures Ranged(t)
    ensures Acquire(t, addr).None? <==> addr == 0 || (addr !in t.byAddr && Full(t.slots))
    ensures Acquire(t, addr).Some? ==>
              var t' := Acquire(t, addr).value;
              && TabOk(t') && RefAdded(t.slots, t.byAddr, t'.slots, t'.byAddr, addr)
              && KeepsAll(t.slots, t.byAddr, t'.slots, t'.byAddr)
              && Grown(t.k, t'.k) && OnlyReals(t.k.maps, t'.k.maps) && t'.k.installs == t.k.installs
  {
    TabRanged(t);
    FullIffTaken(t.slots, t.cursor);
    TakenFacts(t.slots, t.cursor, MAX_REALS - 1, 0);
    if addr in t.byAddr {
      assert AddrOk(t.slots, t.byAddr, addr);
      CountRefOk(t, addr);
    } else if addr != 0 && Taken(t.slots, t.cursor, MAX_REALS - 1) < MAX_REALS - 1 {
      CreateOk(t, addr);
      CreateRoundRobin(t, addr);
      RefCreated(t.slots, t.byAddr, addr, Around(t.cursor, Taken(t.slots, t.cursor, MAX_REALS - 1)));
    }
  }

  lemma FreeOk(t: Tab, id: nat)
    requires TabOk(t) && 0 < id < MAX_REALS && t.slots[id].addr != 0 && Unused(t.k.maps, id)
    ensures TabOk(Free(t, id)) && Free(t, id).k.installs == t.k.installs
    ensures FreedOnly(t.k.maps, Free(t, id).k.maps, id)
    ensures t.k.log <= Free(t, id).k.log
    ensures forall i :: |t.k.log| <= i < |Free(t, id).k.log| ==> FreedOnly(t.k.maps, Free(t, id).k.log[i].after, id)
  {
    var t1 := t.(byAddr := t.byAddr - {t.slots[id].addr}, slots := t.slots[id := FREE]);
    SlotFreed(t.slots, t.byAddr, t.k.maps, id);
    PutSlotSafe(t1, id);
    PutSlotMaps(t1, id);
  }

  /** Releasing keeps the table; the caller has taken the id off every reachable ring beforehand. */
  lemma ReleaseOk(t: Tab, addr: U32)
    requires TabOk(t) && (addr in t.byAddr && t.slots[t.byAddr[addr]].refs <= 1 ==> Unused(t.k.maps, t.byAddr[addr]))
    ensures Ranged(t) && TabOk(Release(t, addr)) && OnlyReals(t.k.maps, Release(t, addr).k.maps)
    ensures Release(t, addr).k.installs == t.k.installs && t.k.log <= Release(t, addr).k.log
  {
    TabRanged(t);
    if addr in t.byAddr {
      var id := t.byAddr[addr];
      assert AddrOk(t.slots, t.byAddr, addr) && SlotOk(t.slots, t.byAddr, id) && SlotShown(t.slots[id], t.k.maps, id);
      if t.slots[id].refs > 1 {
        var s := t.slots[id].(refs := t.slots[id].refs - 1);
        SlotWritten(t.slots, t.byAddr, t.k.maps, id, s);
        assert t.k.maps.(neigh := t.k.maps.neigh[id := MacOf(s)]) == t.k.maps;
      } else {
        FreeOk(t, id);
      }
    }
  }

  lemma SetMacOk(t: Tab, addr: U32, mac: Mac)
    requires TabOk(t) && mac != NO_MAC
    ensures Ranged(t)
    ensures var t' := SetMac(t, addr, mac);
            && TabOk(t') && t'.byAddr == t.byAddr && SameRefs(t.slots, t'.slots)
            && KeepsAll(t.slots, t.byAddr, t'.slots, t'.byAddr)
            && OnlyReals(t.k.maps, t'.k.maps) && t'.k.installs == t.k.installs && t.k.log <= t'.k.log
            && (addr in t.byAddr && t.slots[t.byAddr[addr]].mac.None? ==> Grown(t.k, t'.k))
  {
    TabRanged(t);
    KeepsSelf(t.slots, t.byAddr);
    if MacChanges(t, addr, mac) {
      var id := t.byAddr[addr];
      assert AddrOk(t.slots, t.byAddr, addr) && SlotOk(t.slots, t.byAddr, id) && SlotShown(t.slots[id], t.k.maps, id);
      var s := t.slots[id].(mac := Some(mac));
      var t1 := t.(slots := t.slots[id := s]);
      SlotWritten(t.slots, t.byAddr, t.k.maps, id, s);
      MacStored(t.slots, t.byAddr, id, mac);
      PutSlotSafe(t1, id);
      PutSlotMaps(t1, id);
      assert t.k.maps.reals[id := addr] == t.k.maps.reals;
      if t.slots[id].mac.None? {
        PutSlotGrows(t1, id);
      }
    }
  }

  // ---- taking over from a previous daemon

  /** adopt, for ids below n: the slots and the index, read off the maps with no references. */
  ghost function AdoptedSlot(m: Maps, id: nat): (s: Slot)
    requires id < |m.reals| && id < |m.neigh|
  {
    if m.reals[id] == 0 then FREE else Slot(m.reals[id], 0, if m.neigh[id] != NO_MAC then Some(m.neigh[id]) else None)
  }

  ghost function AdoptTo(m: Maps, n: nat): (r: (seq<Slot>, map<U32, U32>, nat))
    requires 1 <= n <= MAX_REALS && |m.reals| == |m.neigh| == MAX_REALS
  {
    if n == 1 then ([FREE], map[], 0) else
      var r, id := AdoptTo(m, n - 1), n - 1;
      if m.reals[id] == 0 then (r.0 + [FREE], r.1, r.2) else (r.0 + [AdoptedSlot(m, id)], r.1[m.reals[id] := id], id)
  }

  lemma {:induction false} AdoptFacts(m: Maps, n: nat)
    requires MapsSafe(m) && 1 <= n <= MAX_REALS
    ensures |AdoptTo(m, n).0| == n && AdoptTo(m, n).2 < MAX_REALS
    ensures forall x: nat :: x < n ==> AdoptTo(m, n).0[x] == AdoptedSlot(m, x)
    ensures forall x: nat :: x < n && m.reals[x] != 0 ==>
              m.reals[x] in AdoptTo(m, n).1 && AdoptTo(m, n).1[m.reals[x]] == x
    ensures forall a :: a in AdoptTo(m, n).1 ==>
              0 < AdoptTo(m, n).1[a] < n && a != 0 && m.reals[AdoptTo(m, n).1[a]] == a
  {
    if n > 1 {
      AdoptFacts(m, n - 1);
      forall x: nat | x < n - 1
        ensures m.reals[x] != 0 ==> m.reals[x] != m.reals[n - 1]
      {
        assert Differ(m, x, n - 1);
      }
    }
  }

  /** adopt: everything live in the maps is known again under its old id, with no references yet. */
  ghost function Adopt(k: Plane): (t: Tab)
    requires |k.maps.reals| == |k.maps.neigh| == MAX_REALS
  {
    var r := AdoptTo(k.maps, MAX_REALS);
    Tab(r.0, r.1, if r.2 + 1 < MAX_REALS then r.2 + 1 else 1, r.2, map[], k)
  }

  lemma {:induction false} AdoptToRanged(m: Maps, n: nat)
    requires 1 <= n <= MAX_REALS && |m.reals| == |m.neigh| == MAX_REALS
    ensures |AdoptTo(m, n).0| == n && AdoptTo(m, n).2 < MAX_REALS
    ensures forall a :: a in AdoptTo(m, n).1 ==> 0 < AdoptTo(m, n).1[a] < n
  {
    if n > 1 {
      AdoptToRanged(m, n - 1);
    }
  }

  lemma AdoptRanged(k: Plane)
    requires |k.maps.reals| == |k.maps.neigh| == MAX_REALS
    ensures Ranged(Adopt(k))
  {
    AdoptToRanged(k.maps, MAX_REALS);
  }

  lemma AdoptOk(k: Plane)
    requires PlaneSafe(k)
    ensures TabOk(Adopt(k)) && forall id: nat :: id < MAX_REALS ==> Adopt(k).slots[id].refs == 0
    ensures forall id: nat :: id < MAX_REALS && k.maps.reals[id] != 0 ==>
              k.maps.reals[id] in Adopt(k).byAddr && Adopt(k).byAddr[k.maps.reals[id]] == id
  {
    AdoptFacts(k.maps, MAX_REALS);
    var t := Adopt(k);
    forall id: nat | id < MAX_REALS
      ensures SlotOk(t.slots, t.byAddr, id) && SlotShown(t.slots[id], k.maps, id) && t.slots[id].refs == 0
    {
      assert t.slots[id] == AdoptedSlot(k.maps, id);
    }
  }

  /** drop_unreferenced, for ids below n. */
  ghost function DropTo(t: Tab, n: nat): (t': Tab)
    requires 1 <= n <= MAX_REALS && |t.slots| == MAX_REALS
    ensures |t'.slots| == MAX_REALS && (Ranged(t) ==> Ranged(t'))
  {
    if n == 1 then t else
      var t1, id := DropTo(t, n - 1), n - 1;
      if t1.slots[id].addr == 0 || t1.slots[id].refs > 0 then t1 else
        assert Ranged(t1) ==> Ranged(Free(t1, id)) by { if Ranged(t1) { RangedSame(t1, Free(t1, id)); } }
        Free(t1, id)
  }

  ghost function Drop(t: Tab): (t': Tab)
    requires |t.slots| == MAX_REALS
    ensures Ranged(t) ==> Ranged(t')
  {
    DropTo(t, MAX_REALS)
  }

  /** From t to t' the ids below n that nobody refers to were freed; the others kept address and MAC at every write. */
  ghost predicate DroppedTo(t: Tab, t': Tab, n: nat) {
    && TabOk(t') && t'.k.installs == t.k.installs && t.k.log <= t'.k.log && HeldKept(t.slots, t.k.maps, t'.k.maps)
    && |t.slots| == MAX_REALS
    && (forall x: nat :: x < MAX_REALS ==> t'.slots[x] == if x < n && t.slots[x].refs == 0 then FREE else t.slots[x])
    && (forall i :: |t.k.log| <= i < |t'.k.log| ==> HeldKept(t.slots, t.k.maps, t'.k.log[i].after))
  }

  lemma DropOne(t: Tab, t1: Tab, id: nat)
    requires TabOk(t) && id < MAX_REALS && DroppedTo(t, t1, id) && t.slots[id].refs == 0 && Unused(t.k.maps, id)
    requires t1.slots[id].addr != 0
    ensures DroppedTo(t, Free(t1, id), id + 1)
  {
    FreeOk(t1, id);
    FreedAreNotHeld(t.slots, t.k.maps, t1.k, Free(t1, id).k, id);
  }

  /** Frees exactly what nobody refers to; what is referred to keeps address and MAC at every write. */
  lemma {:induction false} DropOk(t: Tab, n: nat)
    requires TabOk(t) && 1 <= n <= MAX_REALS
    requires forall id: nat :: id < MAX_REALS && t.slots[id].refs == 0 ==> Unused(t.k.maps, id)
    ensures DroppedTo(t, DropTo(t, n), n)
  {
    if n == 1 {
      assert SlotOk(t.slots, t.byAddr, 0);
    } else {
      var id := n - 1;
      DropOk(t, id);
      assert id + 1 == n;
      var t1 := DropTo(t, id);
      assert SlotOk(t.slots, t.byAddr, id);
      if t1.slots[id].addr != 0 && t1.slots[id].refs == 0 {
        DropOne(t, t1, id);
      }
    }
  }

  lemma FreedAreNotHeld(slots: seq<Slot>, m: Maps, k: Plane, k': Plane, id: nat)
    requires HeldKept(slots, m, k.maps) && id < |slots| && slots[id].refs == 0 && FreedOnly(k.maps, k'.maps, id)
    requires forall i :: |k.log| <= i < |k'.log| ==> FreedOnly(k.maps, k'.log[i].after, id)
    ensures HeldKept(slots, m, k'.maps)
    ensures forall i :: |k.log| <= i < |k'.log| ==> HeldKept(slots, m, k'.log[i].after)
  {
    forall i | |k.log| <= i < |k'.log|
      ensures HeldKept(slots, m, k'.log[i].after)
    {
      assert FreedOnly(k.maps, k'.log[i].after, id);
    }
  }

  /** Only this id's slots differ. */
  ghost predicate FreedOnly(m: Maps, m': Maps, id: nat) {
    && m' == m.(reals := m'.reals, neigh := m'.neigh)
    && |m'.reals| == |m.reals| && |m'.neigh| == |m.neigh|
    && forall x :: 0 <= x < |m.reals| && x < |m.neigh| && x != id
         ==> m'.reals[x] == m.reals[x] && m'.neigh[x] == m.neigh[x]
  }

  /** Ids with references keep address and MAC, and VIPs and rings are untouched. */
  ghost predicate HeldKept(slots: seq<Slot>, m: Maps, m': Maps) {
    && m' == m.(reals := m'.reals, neigh := m'.neigh)
    && |m'.reals| == |m.reals| && |m'.neigh| == |m.neigh|
    && forall x :: 0 <= x < |m.reals| && x < |m.neigh| && x < |slots| && slots[x].refs > 0 ==>
         m'.reals[x] == m.reals[x] && m'.neigh[x] == m.neigh[x]
  }

  ghost predicate Full(slots: seq<Slot>) {
    forall id :: 0 < id < |slots| ==> slots[id].addr != 0
  }
}
