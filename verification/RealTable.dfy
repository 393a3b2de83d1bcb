/**
 The real table as the daemon has it: an array of slots, an index and a cursor, updated in place.
 Every method does what the function of the same name in `Reals` says, map writes included.
 */
module RealTable {
  import opened Basics
  import opened Maps
  import opened Reals

  class Table {
    const slots: array<Slot>
    const kernel: Kernel
    var byAddr: map<U32, U32>
    var cursor: nat
    ghost var tick: nat
    ghost var born: map<nat, nat>

    ghost function View(): (t: Tab)
      reads this, slots, kernel
    {
      Tab(slots[..], byAddr, cursor, tick, born, kernel.View())
    }

    ghost predicate Valid()
      reads this, slots, kernel
    {
      slots.Length == MAX_REALS && Ranged(View())
    }

    constructor (k: Kernel)
      ensures Valid() && kernel == k && fresh(slots)
      ensures View() == Tab(seq(MAX_REALS, i => FREE), map[], 1, 0, map[], k.View())
    {
      slots := new Slot[MAX_REALS](i => FREE);
      kernel := k;
      byAddr, cursor, tick, born := map[], 1, 0, map[];
    }

    /** Filling writes neigh before reals, freeing clears reals before neigh. */
    method WriteSlot(id: nat)
      requires id < slots.Length
      modifies kernel
      ensures View() == PutSlot(old(View()), id)
    {
      var s := slots[id];
      if s.addr != 0 {
        kernel.Update(PutNeigh(id, MacOf(s)));
        kernel.Update(PutReal(id, s.addr));
      } else {
        kernel.Update(PutReal(id, s.addr));
        kernel.Update(PutNeigh(id, MacOf(s)));
      }
    }

    /** The slot of a new address, once the cursor has moved past it. */
    method Fill(id: nat, addr: U32, ghost met: nat)
      requires Valid() && 0 < id < MAX_REALS && cursor == Next(id)
      modifies this, slots, kernel
      ensures View() == Create(old(View()), addr, id, met)
    {
      slots[id] := Slot(addr, 1, None);
      byAddr := byAddr[addr := id];
      tick, born := tick + met + 1, born[id := tick + met];
      kernel.Update(ResetReal(id));
      WriteSlot(id);
    }

    method Acquire(addr: U32) returns (r: Option<U32>)
      requires Valid()
      modifies this, slots, kernel
      ensures Valid() && r.None? == Reals.Acquire(old(View()), addr).None?
      ensures r.None? ==> View() == old(View())
      ensures r.Some? ==> View() == Reals.Acquire(old(View()), addr).value && addr in byAddr && r.value == byAddr[addr]
    {
      if addr == 0 {
        return None;
      }
      assert InRange(slots[..], byAddr, addr);
      if addr in byAddr {
        var id := byAddr[addr];
        slots[id] := slots[id].(refs := slots[id].refs + 1);
        RangedSame(old(View()), View());
        return Some(id);
      }
      r := NextFree();
      if r.Some? {
        ghost var met := Taken(old(slots[..]), old(cursor), MAX_REALS - 1);
        Fill(r.value, addr, met);
        assert View() == Create(old(View()), addr, r.value, met);
        CreateRanged(old(View()), addr, r.value, met);
      }
    }

    /** The first free id at or after the cursor, for at most one lap; the cursor moves past it. */
    method NextFree() returns (r: Option<U32>)
      requires Valid()
      modifies this`cursor
      ensures Valid() && var met := Taken(slots[..], old(cursor), MAX_REALS - 1);
              if met < MAX_REALS - 1 then r == Some(Around(old(cursor), met)) && 0 < r.value < MAX_REALS
                && cursor == Next(r.value)
              else r == None && cursor == old(cursor)
    {
      for n := 0 to MAX_REALS - 1
        invariant 0 < cursor < MAX_REALS && cursor == Around(old(cursor), n)
        invariant Taken(slots[..], old(cursor), MAX_REALS - 1) == n + Taken(slots[..], cursor, MAX_REALS - 1 - n)
      {
        var id := cursor;
        cursor := if cursor + 1 < MAX_REALS then cursor + 1 else 1;
        if slots[id].addr != 0 {
          continue;
        }
        return Some(id);
      }
      return None;
    }

    method Release(addr: U32)
      requires Valid()
      modifies this, slots, kernel
      ensures Valid() && View() == Reals.Release(old(View()), addr)
    {
      assert InRange(slots[..], byAddr, addr);
      if addr !in byAddr {
        return;
      }
      var id := byAddr[addr];
      if slots[id].refs > 1 {
        slots[id] := slots[id].(refs := slots[id].refs - 1);
        RangedSame(old(View()), View());
        return;
      }
      byAddr := byAddr - {addr};
      slots[id] := FREE;
      WriteSlot(id);
      RangedSame(old(View()), View());
    }

    method SetMac(addr: U32, mac: Mac) returns (changed: bool)
      requires Valid()
      modifies slots, kernel
      ensures Valid() && View() == Reals.SetMac(old(View()), addr, mac) && changed == MacChanges(old(View()), addr, mac)
    {
      assert InRange(slots[..], byAddr, addr);
      if addr !in byAddr || slots[byAddr[addr]].mac == Some(mac) {
        return false;
      }
      var id := byAddr[addr];
      slots[id] := slots[id].(mac := Some(mac));
      WriteSlot(id);
      RangedSame(old(View()), View());
      return true;
    }

    method HasMac(addr: U32) returns (known: bool)
      requires Valid()
      ensures known <==> addr in byAddr && byAddr[addr] < slots.Length && slots[byAddr[addr]].mac.Some?
    {
      assert InRange(slots[..], byAddr, addr);
      known := addr in byAddr && slots[byAddr[addr]].mac.Some?;
    }

    /** Slots, MACs and the index read off the maps, with no references yet. */
    method Adopt()
      requires Valid() && View() == Tab(seq(MAX_REALS, i => FREE), map[], 1, 0, map[], kernel.View())
      requires |kernel.maps.reals| == |kernel.maps.neigh| == MAX_REALS
      modifies this, slots
      ensures Valid() && View() == Reals.Adopt(old(kernel.View()))
    {
      var m := kernel.maps;
      var highest := 0;
      assert slots[..1] == [FREE];
      for id := 1 to MAX_REALS
        invariant slots[..id] == AdoptTo(m, id).0 && byAddr == AdoptTo(m, id).1 && highest == AdoptTo(m, id).2
        invariant highest < MAX_REALS && forall x :: id <= x < MAX_REALS ==> slots[x] == FREE
        invariant tick == 0 && born == map[]
      {
        if m.reals[id] != 0 {
          slots[id] := Slot(m.reals[id], 0, if m.neigh[id] != NO_MAC then Some(m.neigh[id]) else None);
          byAddr := byAddr[m.reals[id] := id];
          highest := id;
        }
        assert slots[..id + 1] == slots[..id] + [slots[id]];
      }
      cursor := if highest + 1 < MAX_REALS then highest + 1 else 1;
      tick := highest;
      assert slots[..] == slots[..MAX_REALS];
      AdoptRanged(kernel.View());
    }

    method DropUnreferenced()
      requires Valid()
      modifies this, slots, kernel
      ensures Valid() && View() == Drop(old(View()))
    {
      for id := 1 to MAX_REALS
        invariant Valid() && View() == DropTo(old(View()), id)
      {
        if slots[id].addr == 0 || slots[id].refs > 0 {
          continue;
        }
        DropOne(id);
      }
    }

    method DropOne(id: nat)
      requires Valid() && 0 < id < MAX_REALS
      modifies this, slots, kernel
      ensures Valid() && View() == Free(old(View()), id)
    {
      byAddr := byAddr - {slots[id].addr};
      slots[id] := FREE;
      WriteSlot(id);
      RangedSame(old(View()), View());
    }
  }
}
