/**
 The daemon's state as it has it: maps and flags updated in place, a real table and the kernel's
 maps. Every method does what the function of the same name in `Control` says, write by write.
 */
module LbState {
  import opened Basics
  import opened BuildMaglev
  import opened Ring
  import opened Maps
  import opened Reals
  import opened RealTable
  import opened RingMap
  import opened Health
  import opened LbModel
  import opened Control
  import opened ControlLaws
  import opened MemberLaws
  import opened OpLaws
  import opened Members
  import VipOps
  import Convergence
  import Exposure
  import opened Soundness
  import opened Standing
  import StartLaws
  import Hitless
  import opened ApplyLaws

  class Daemon {
    const kernel: Kernel
    const table: Table
    var vips: map<VipSpec, Vip>
    var adopted: map<VipSpec, nat>
    var hash: HashMode
    var nextHop: Option<U32>
    var initialized: bool
    var next: nat
    ghost var leak: multiset<U32>
    ghost var base: map<VipSpec, nat>
    ghost var reports: map<nat, seq<Report>>

    ghost function View(): (s: Lb)
      reads this, table, table.slots, table.kernel
    {
      Lb(vips, adopted, hash, nextHop, initialized, next, table.View(), leak, base, reports)
    }

    ghost predicate Valid()
      reads this, table, table.slots, table.kernel
    {
      table.kernel == kernel && table.Valid()
    }

    constructor (k: Kernel)
      ensures Valid() && kernel == k && fresh(table) && fresh(table.slots) && View() == Fresh(k.View())
    {
      kernel := k;
      table := new Table(k);
      vips, adopted, hash, nextHop, initialized, next := map[], map[], ByMaglev, None, false, 1;
      leak, base, reports := multiset{}, map[], map[];
    }

    // ---- rings

    /** in_ring decided anew, the ring built in private, one store. */
    method Rebuild(k: VipSpec, h: Hashes)
      requires Valid() && Indexed(View(), k)
      modifies this, kernel
      ensures Valid() && View() == Control.Rebuild(old(View()), k, h)
    {
      var v := vips[k];
      var ring, members := RingFor(v.members, table.slots[..], table.byAddr, hash, h);
      vips := vips[k := v.(members := members, generation := v.generation + 1)];
      var ok := InstallRing(kernel, v.id, ring);
    }

    /** One VIP's record changed and its ring built anew. */
    method Change(k: VipSpec, v: Vip, h: Hashes)
      requires Valid() && Upright(View()) && k in vips && v.members.Keys == vips[k].members.Keys
      modifies this, kernel
      ensures Valid() && View() == Control.Rebuild(old(View()).(vips := old(vips)[k := v]), k, h)
    {
      TouchedMembers(View(), v, k);
      vips := vips[k := v];
      Rebuild(k, h);
    }

    // ---- members

    /** A real without a MAC: the kernel may know it already. */
    method Resolve(addr: U32, arp: map<U32, Mac>)
      requires Valid()
      modifies table.slots, kernel
      ensures Valid() && View() == old(View()).(t := Control.Resolve(old(table.View()), addr, nextHop, arp))
    {
      var known := table.HasMac(addr);
      assert InRange(table.slots[..], table.byAddr, addr);
      var target := if nextHop.Some? then nextHop.value else addr;
      if addr in table.byAddr && !known && target in arp {
        var changed := table.SetMac(addr, arp[target]);
      }
    }

    method AddMember(k: VipSpec, addr: U32, weight: U32, arp: map<U32, Mac>) returns (ok: bool)
      requires Valid() && k in vips
      modifies this, table, table.slots, kernel
      ensures Valid() && ok == Control.AddMember(old(View()), k, addr, weight, arp).Some?
      ensures View() == if ok then Control.AddMember(old(View()), k, addr, weight, arp).value else old(View())
    {
      var id := table.Acquire(addr);
      if id.None? {
        return false;
      }
      Resolve(addr, arp);
      Join(k, addr, weight);
      return true;
    }

    method Join(k: VipSpec, addr: U32, weight: U32)
      requires k in vips
      modifies this
      ensures View() == old(View()).(vips := old(vips)[k := Joined(old(vips)[k], addr, weight, old(next))],
                                     next := old(next) + 1, reports := old(reports)[old(next) := []])
    {
      vips := vips[k := vips[k].(members := vips[k].members[addr := NewMember(weight, next)])];
      reports := reports[next := []];
      next := next + 1;
    }

    /** The references of the removed members, in key order, once no ring needs them. */
    method ReleaseAll(gone: set<U32>)
      requires Valid()
      modifies this, table, table.slots, kernel
      ensures Valid() && View() == Control.ReleaseAll(old(View()), gone)
    {
      var todo := gone;
      while todo != {}
        invariant Valid() && Control.ReleaseAll(View(), todo) == Control.ReleaseAll(old(View()), gone)
        decreases todo
      {
        HasLeast(todo);
        var a :| a in todo && forall b :: b in todo ==> a <= b;
        assert Lowest(todo, a) && a == Least(todo);
        table.Release(a);
        leak := leak - multiset{a};
        todo := todo - {a};
      }
    }

    /** Members that are wanted join, the weights of those that are there are set. */
    method Merge(k: VipSpec, want: map<U32, U32>, arp: map<U32, Mac>) returns (ok: bool)
      requires Valid() && k in vips
      modifies this, table, table.slots, kernel
      ensures Valid() && Done(View(), ok) == Control.Merge(old(View()), k, want, want.Keys, arp)
    {
      var todo := want.Keys;
      while todo != {}
        invariant Valid() && k in vips && todo <= want.Keys
        invariant Control.Merge(View(), k, want, todo, arp) == Control.Merge(old(View()), k, want, want.Keys, arp)
        decreases todo
      {
        HasLeast(todo);
        var a :| a in todo && forall b :: b in todo ==> a <= b;
        assert Lowest(todo, a) && a == Least(todo);
        if a in vips[k].members {
          vips := vips[k := vips[k].(members := vips[k].members[a := vips[k].members[a].(weight := want[a])])];
        } else {
          var added := AddMember(k, a, want[a], arp);
          if !added {
            return false;
          }
        }
        todo := todo - {a};
      }
      return true;
    }

    method RemoveMembers(k: VipSpec, gone: set<U32>)
      requires Valid() && k in vips
      modifies this
      ensures Valid() && View() == Control.RemoveMembers(old(View()), k, gone)
    {
      vips := vips[k := vips[k].(members := vips[k].members - gone)];
      leak := leak + multiset(gone);
    }

    // ---- VIPs

    method WriteVip(k: VipSpec)
      requires Valid() && k in vips
      modifies kernel
      ensures Valid() && View() == SendVip(old(View()), k)
    {
      kernel.Update(PutVip(k, VipValue(vips[k].id, vips[k].noConntrack)));
    }

    /** The least id neither in use nor adopted. */
    method AllocateId() returns (id: nat)
      ensures id == LeastUnused(UsedIds(View()), 0)
    {
      var used := (set k | k in vips :: vips[k].id) + (set k | k in adopted :: adopted[k]);
      id := 0;
      while id < MAX_VIPS && id in used
        invariant id <= MAX_VIPS && LeastUnused(used, 0) == LeastUnused(used, id)
      {
        id := id + 1;
      }
    }

    method Enter(k: VipSpec, noConntrack: bool) returns (ok: bool)
      requires Valid()
      modifies this, kernel
      ensures Valid() && ok == Control.Enter(old(View()), k, noConntrack).Some?
      ensures View() == if ok then Control.Enter(old(View()), k, noConntrack).value else old(View())
    {
      var id;
      if k in adopted {
        id := adopted[k];
        adopted := adopted - {k};
        base := base[k := Installed(kernel.installs, id)];
      } else {
        id := AllocateId();
        if id == MAX_VIPS {
          return false;
        }
        base := base[k := Installed(kernel.installs, id)];
        kernel.Update(ResetVip(id));
      }
      vips := vips[k := Vip(id, noConntrack, 0, map[])];
      return true;
    }

    /** Members, then the ring, then the VIP map entry. */
    method CreateVip(k: VipSpec, noConntrack: bool, want: map<U32, U32>, arp: map<U32, Mac>, h: Hashes)
        returns (ok: bool)
      requires Valid() && Upright(View()) && k !in vips && MacsOk(arp)
      modifies this, table, table.slots, kernel
      ensures Valid() && Done(View(), ok) == Control.CreateVip(old(View()), k, noConntrack, want, arp, h)
    {
      ghost var s := View();
      ok := Enter(k, noConntrack);
      if !ok {
        return;
      }
      ghost var s1 := View();
      EnteredMembers(s, s1, k, noConntrack, want, arp);
      ok := Merge(k, want, arp);
      CreateVipIs(s, s1, Done(View(), ok), k, noConntrack, want, arp, h);
      if ok {
        Rebuild(k, h);
        WriteVip(k);
      }
    }

    /** The VIP map entry, then the ring, then the references. */
    method DeleteVip(k: VipSpec)
      requires Valid()
      modifies this, table, table.slots, kernel
      ensures Valid() && View() == Control.DeleteVip(old(View()), k)
    {
      if k !in vips {
        return;
      }
      var gone := vips[k].members.Keys;
      Withdraw(k);
      ReleaseAll(gone);
    }

    method Withdraw(k: VipSpec)
      requires Valid() && k in vips
      modifies this, kernel
      ensures Valid() && View() == VipOps.Withdrawn(old(View()), k)
    {
      kernel.Update(Write.DelVip(k));
      RemoveRing(kernel, vips[k].id);
      leak := leak + multiset(vips[k].members.Keys);
      vips := vips - {k};
    }

    // ---- the API

    /** vip.add: the new VIP's id, None when it exists or all ids are taken. */
    method AddVip(k: VipSpec, noConntrack: bool, arp: map<U32, Mac>, h: Hashes) returns (r: Option<nat>)
      requires Valid() && Sound(View()) && MacsOk(arp)
      modifies this, table, table.slots, kernel
      ensures Valid() && SoundKept(old(View()), View())
              && Done(View(), r.Some?) == Control.AddVip(old(View()), k, noConntrack, arp, h)
      ensures r.Some? ==> k in vips && r.value == vips[k].id
    {
      AddVipSound(View(), k, noConntrack, arp, h);
      if k in vips {
        return None;
      }
      SoundUpright(View());
      var ok := CreateVip(k, noConntrack, map[], arp, h);
      r := if ok then Some(vips[k].id) else None;
    }

    method DelVip(k: VipSpec, h: Hashes) returns (ok: bool)
      requires Valid() && Sound(View())
      modifies this, table, table.slots, kernel
      ensures Valid() && SoundKept(old(View()), View()) && Done(View(), ok) == Control.DelVip(old(View()), k)
    {
      DelVipSound(View(), k, h);
      if k !in vips {
        return false;
      }
      DeleteVip(k);
      return true;
    }

    /** real.add: the real's id, None for any of the reasons it is refused. */
    method AddReal(k: VipSpec, addr: U32, weight: U32, arp: map<U32, Mac>, h: Hashes) returns (r: Option<U32>)
      requires Valid() && Sound(View()) && MacsOk(arp)
      modifies this, table, table.slots, kernel
      ensures Valid() && SoundKept(old(View()), View())
              && Done(View(), r.Some?) == Control.AddReal(old(View()), k, addr, weight, arp, h)
      ensures r.Some? ==> addr in table.byAddr && r.value == table.byAddr[addr]
    {
      AddRealSound(View(), k, addr, weight, arp, h);
      if k !in vips || addr == 0 || addr in vips[k].members || weight > MAX_WEIGHT {
        return None;
      }
      SoundUpright(View());
      AddedMember(View(), k, addr, weight, arp);
      var ok := AddMember(k, addr, weight, arp);
      if !ok {
        return None;
      }
      Rebuild(k, h);
      return Some(table.byAddr[addr]);
    }

    /** The ring without the real first, its id only then. */
    method DelReal(k: VipSpec, addr: U32, h: Hashes) returns (ok: bool)
      requires Valid() && Sound(View())
      modifies this, table, table.slots, kernel
      ensures Valid() && SoundKept(old(View()), View()) && Done(View(), ok) == Control.DelReal(old(View()), k, addr, h)
    {
      DelRealSound(View(), k, addr, h);
      if k !in vips || addr !in vips[k].members {
        return false;
      }
      SoundUpright(View());
      FewerMembers(View(), k, {addr});
      RemoveMembers(k, {addr});
      Rebuild(k, h);
      ReleaseSingle(View(), addr);
      ReleaseAll({addr});
      return true;
    }

    method SetWeight(k: VipSpec, addr: U32, weight: U32, h: Hashes) returns (ok: bool)
      requires Valid() && Sound(View())
      modifies this, table, table.slots, kernel
      ensures Valid() && SoundKept(old(View()), View())
              && Done(View(), ok) == Control.SetWeight(old(View()), k, addr, weight, h)
    {
      SetWeightSound(View(), k, addr, weight, h);
      if weight > MAX_WEIGHT || k !in vips || addr !in vips[k].members {
        return false;
      }
      if vips[k].members[addr].weight != weight {
        SoundUpright(View());
        var m := vips[k].members[addr].(weight := weight);
        Change(k, vips[k].(members := vips[k].members[addr := m]), h);
      }
      return true;
    }

    method SetDraining(k: VipSpec, addr: U32, draining: bool, h: Hashes) returns (ok: bool)
      requires Valid() && Sound(View())
      modifies this, table, table.slots, kernel
      ensures Valid() && SoundKept(old(View()), View())
              && Done(View(), ok) == Control.SetDraining(old(View()), k, addr, draining, h)
    {
      SetDrainingSound(View(), k, addr, draining, h);
      if k !in vips || addr !in vips[k].members {
        return false;
      }
      if vips[k].members[addr].draining != draining {
        SoundUpright(View());
        var m := vips[k].members[addr].(draining := draining);
        Change(k, vips[k].(members := vips[k].members[addr := m]), h);
      }
      return true;
    }

    // ---- health and neighbours

    method ReportHealth(x: Target, p: Probe, rise: U32, fall: U32, h: Hashes)
      requires Valid() && Sound(View())
      modifies this, kernel
      ensures Valid() && SoundKept(old(View()), View())
              && View() == Control.ReportHealth(old(View()), x, p, rise, fall, h)
    {
      ReportSound(View(), x, p, rise, fall, h);
      if x.vip !in vips || x.addr !in vips[x.vip].members || vips[x.vip].members[x.addr].incarnation != x.incarnation
        || p.localError {
        return;
      }
      var was := vips[x.vip].members[x.addr].health.up;
      SoundUpright(View());
      NotedMembers(View(), x, Report(p.ok, rise, fall));
      Note(x, p.ok, rise, fall);
      if vips[x.vip].members[x.addr].health.up != was {
        Rebuild(x.vip, h);
      }
    }

    /** The member's counters, and whether it is up. */
    method Note(x: Target, ok: bool, rise: U32, fall: U32)
      requires x.vip in vips && x.addr in vips[x.vip].members
      modifies this
      ensures View() == Noted(old(View()), x, Report(ok, rise, fall))
    {
      var v := vips[x.vip];
      var m := v.members[x.addr];
      var health := m.health;
      if ok {
        health := health.(fail := 0, ok := Inc(health.ok));
        if !health.up && health.ok >= rise {
          health := health.(up := true);
        }
      } else {
        health := health.(ok := 0, fail := Inc(health.fail));
        if health.up && health.fail >= fall {
          health := health.(up := false);
        }
      }
      vips := vips[x.vip := v.(members := v.members[x.addr := m.(health := health)])];
      reports := reports[x.incarnation := (if x.incarnation in reports then reports[x.incarnation] else [])
        + [Report(ok, rise, fall)]];
    }

    method SetOne(addr: U32, mac: Mac) returns (usable: bool)
      requires Valid() && TableOk(table.slots[..], table.byAddr) && mac != NO_MAC
      modifies table.slots, kernel
      ensures Valid() && TableOk(table.slots[..], table.byAddr)
              && View() == old(View()).(t := Reals.SetMac(old(table.View()), addr, mac))
      ensures usable <==> addr in Unresolved(old(View()), {addr})
    {
      assert InRange(table.slots[..], table.byAddr, addr);
      MacKeepsTable(table.View(), addr, mac);
      var known := table.HasMac(addr);
      var changed := table.SetMac(addr, mac);
      usable := changed && !known;
    }

    /** The MAC of every real behind the neighbour; those that had none are newly usable. */
    method SetMacs(addrs: set<U32>, mac: Mac) returns (usable: set<U32>)
      requires Valid() && TableOk(table.slots[..], table.byAddr) && mac != NO_MAC
      modifies table.slots, kernel
      ensures Valid() && View() == Control.SetMacs(old(View()), addrs, mac) && usable == Unresolved(old(View()), addrs)
    {
      usable := {};
      var todo := addrs;
      while todo != {}
        invariant Valid() && TableOk(table.slots[..], table.byAddr)
        invariant Control.SetMacs(View(), todo, mac) == Control.SetMacs(old(View()), addrs, mac)
        invariant Unresolved(old(View()), addrs) == usable + Unresolved(View(), todo)
        decreases todo
      {
        HasLeast(todo);
        var a :| a in todo && forall b :: b in todo ==> a <= b;
        assert Lowest(todo, a) && a == Least(todo);
        UnresolvedLess(View(), todo, a, mac);
        var first := SetOne(a, mac);
        if first {
          usable := usable + {a};
        }
        todo := todo - {a};
      }
      assert Unresolved(View(), {}) == {};
    }

    method RebuildAll(ks: set<VipSpec>, h: Hashes)
      requires Valid() && Upright(View()) && ks <= vips.Keys
      modifies this, kernel
      ensures Valid() && View() == Control.RebuildAll(old(View()), ks, h)
    {
      var todo := ks;
      while todo != {}
        invariant Valid() && Upright(View()) && todo <= vips.Keys
        invariant Control.RebuildAll(View(), todo, h) == Control.RebuildAll(old(View()), ks, h)
        decreases todo
      {
        HasFirst(todo);
        var k :| k in todo && forall j :: j in todo ==> Key(k) <= Key(j);
        FirstIs(todo, k);
        UprightIndexed(View(), k);
        RebuiltUpright(View(), k, h);
        Rebuild(k, h);
        todo := todo - {k};
      }
    }

    method NeighborResolved(ip: U32, mac: Mac, h: Hashes)
      requires Valid() && Sound(View()) && mac != NO_MAC
      modifies this, table.slots, kernel
      ensures Valid() && SoundKept(old(View()), View()) && View() == Control.NeighborResolved(old(View()), ip, mac, h)
    {
      ghost var s := View();
      NeighborSound(s, ip, mac, h);
      SoundUpright(s);
      UprightTable(s);
      var addrs: set<U32> := {};
      if nextHop.Some? {
        if ip == nextHop.value {
          addrs := table.byAddr.Keys;
        }
      } else if ip in table.byAddr {
        addrs := {ip};
      }
      MacsUpright(s, addrs, mac, h);
      var usable := SetMacs(addrs, mac);
      var ks := set k | k in vips && vips[k].members.Keys * usable != {};
      RebuildAll(ks, h);
    }

    // ---- configuration

    method Reflag(k: VipSpec, noConntrack: bool)
      requires Valid() && k in vips
      modifies this, kernel
      ensures Valid() && View() == Control.Reflag(old(View()), k, noConntrack)
    {
      if vips[k].noConntrack != noConntrack {
        vips := vips[k := vips[k].(noConntrack := noConntrack)];
        WriteVip(k);
      }
    }

    /** addr -> weight, as the configuration lists them. */
    method Wanted(vc: VipConfig) returns (want: map<U32, U32>)
      ensures want == Want(vc)
    {
      want := map[];
      for i := 0 to |vc.reals|
        invariant want == WantTo(vc.reals, i)
      {
        want := want[vc.reals[i].addr := vc.reals[i].weight];
      }
    }

    /** Flags and removals; the references of those removed are still held. */
    method Prune(vc: VipConfig, want: map<U32, U32>) returns (gone: set<U32>)
      requires Valid() && vc.spec in vips && want == Want(vc)
      modifies this, kernel
      ensures Valid() && View() == Control.Prune(old(View()), vc) && gone == Gone(old(View()), vc)
    {
      gone := vips[vc.spec].members.Keys - want.Keys;
      Reflag(vc.spec, vc.noConntrack);
      RemoveMembers(vc.spec, gone);
    }

    /** The new ring, then the references nobody needs any more. */
    method Settle(k: VipSpec, changed: bool, gone: set<U32>, h: Hashes)
      requires Valid() && Indexed(View(), k)
      modifies this, table, table.slots, kernel
      ensures Valid()
              && View() == Control.ReleaseAll(if changed then Control.Rebuild(old(View()), k, h) else old(View()), gone)
    {
      if changed {
        Rebuild(k, h);
      }
      ReleaseAll(gone);
    }

    /** The difference between a known VIP and its configuration. */
    method ReloadVip(vc: VipConfig, hashChanged: bool, arp: map<U32, Mac>, h: Hashes) returns (ok: bool)
      requires Valid() && Sound(View()) && vc.spec in vips && MacsOk(arp)
      modifies this, table, table.slots, kernel
      ensures Valid() && Done(View(), ok) == Control.ReloadVip(old(View()), vc, hashChanged, arp, h)
    {
      ghost var s := View();
      var want := Wanted(vc);
      var changed := RingChanges(vips[vc.spec], want, hashChanged);
      MergedMembers(s, vc, arp);
      var gone := Prune(vc, want);
      ok := Merge(vc.spec, want, arp);
      ReloadVipIs(s, Done(View(), ok), vc, hashChanged, arp, h);
      if ok {
        Settle(vc.spec, changed, gone, h);
      }
    }

    method ApplyVip(vc: VipConfig, hashChanged: bool, arp: map<U32, Mac>, h: Hashes) returns (ok: bool)
      requires Valid() && Upright(View()) && MacsOk(arp) && (vc.spec in vips ==> Sound(View()))
      modifies this, table, table.slots, kernel
      ensures Valid() && Done(View(), ok) == Control.ApplyVip(old(View()), vc, hashChanged, arp, h)
    {
      if vc.spec in vips {
        ok := ReloadVip(vc, hashChanged, arp, h);
      } else {
        var want := Wanted(vc);
        ok := CreateVip(vc.spec, vc.noConntrack, want, arp, h);
      }
    }

    /** VIPs the configuration no longer has. */
    method DeleteAll(ks: set<VipSpec>)
      requires Valid()
      modifies this, table, table.slots, kernel
      ensures Valid() && View() == Control.DeleteAll(old(View()), ks)
    {
      var todo := ks;
      while todo != {}
        invariant Valid() && Control.DeleteAll(View(), todo) == Control.DeleteAll(old(View()), ks)
        decreases todo
      {
        HasFirst(todo);
        var k :| k in todo && forall j :: j in todo ==> Key(k) <= Key(j);
        FirstIs(todo, k);
        DeleteVip(k);
        todo := todo - {k};
      }
    }

    method Purge(ks: set<VipSpec>)
      requires Valid() && ks <= adopted.Keys
      modifies kernel
      ensures Valid() && View() == Control.Purge(old(View()), ks)
    {
      var todo := ks;
      while todo != {}
        invariant Valid() && todo <= adopted.Keys && Control.Purge(View(), todo) == Control.Purge(old(View()), ks)
        decreases todo
      {
        HasFirst(todo);
        var k :| k in todo && forall j :: j in todo ==> Key(k) <= Key(j);
        FirstIs(todo, k);
        Unpin(k);
        todo := todo - {k};
      }
    }

    method Unpin(k: VipSpec)
      requires Valid() && k in adopted
      modifies kernel
      ensures Valid() && View() == Send(Send(old(View()), Write.DelVip(k)), DelRing(adopted[k]))
    {
      kernel.Update(Write.DelVip(k));
      RemoveRing(kernel, adopted[k]);
    }

    /** The configured VIPs in turn, up to the first that runs out of ids. */
    method ApplyVips(vcs: seq<VipConfig>, hashChanged: bool, ghost was: HashMode, arp: map<U32, Mac>, h: Hashes)
        returns (ok: bool)
      requires Valid() && MayApply(View(), vcs, hashChanged, was) && MacsOk(arp)
      modifies this, table, table.slots, kernel
      ensures Valid() && Done(View(), ok) == Control.ApplyVips(old(View()), vcs, |vcs|, hashChanged, arp, h)
    {
      ghost var s := View();
      var i := 0;
      ok := true;
      ApplyVipsNone(s, vcs, hashChanged, arp, h);
      while ok && i < |vcs|
        invariant Valid() && i <= |vcs| && Done(View(), ok) == Control.ApplyVips(s, vcs, i, hashChanged, arp, h)
      {
        ok := ApplyNext(s, vcs, i, hashChanged, was, arp, h);
        i := i + 1;
      }
      if !ok {
        StaysFailed(s, Done(View(), ok), vcs, i, |vcs|, hashChanged, arp, h);
      } else {
        assert i == |vcs|;
      }
    }

    method ApplyNext(ghost s: Lb, vcs: seq<VipConfig>, i: nat, hashChanged: bool, ghost was: HashMode,
                     arp: map<U32, Mac>, h: Hashes)
      returns (ok: bool)
      requires Valid() && Ranged(s.t) && MayApply(s, vcs, hashChanged, was) && MacsOk(arp) && i < |vcs|
      requires Done(View(), true) == Control.ApplyVips(s, vcs, i, hashChanged, arp, h)
      modifies this, table, table.slots, kernel
      ensures Valid() && Done(View(), ok) == Control.ApplyVips(s, vcs, i + 1, hashChanged, arp, h)
    {
      ghost var s1 := View();
      NextMayApply(s, s1, vcs, i, hashChanged, was, arp, h);
      ok := ApplyVip(vcs[i], hashChanged, arp, h);
      ApplyVipsStep(s, s1, Done(View(), ok), vcs, i, hashChanged, arp, h);
    }

    /** What a previous daemon left: real ids with their MACs, and vip ids. */
    method AdoptAll()
      requires Valid() && View() == Fresh(kernel.View()) && |kernel.maps.reals| == |kernel.maps.neigh| == MAX_REALS
      modifies this, table, table.slots
      ensures Valid() && View() == Control.AdoptAll(old(View()))
    {
      table.Adopt();
      var vipMap := kernel.maps.vipMap;
      var todo := vipMap.Keys;
      while todo != {}
        invariant Valid() && todo <= vipMap.Keys && View() == Control.AdoptAll(old(View())).(adopted := adopted)
        invariant adopted.Keys == vipMap.Keys - todo && forall k :: k in adopted ==> adopted[k] == vipMap[k].id
        decreases todo
      {
        var k :| k in todo;
        adopted := adopted[k := vipMap[k].id];
        todo := todo - {k};
      }
      assert adopted == map k | k in vipMap :: vipMap[k].id;
    }

    method Configure(c: Config, lbMac: Mac)
      requires Valid()
      modifies this, kernel
      ensures Valid() && View() == Control.Configure(old(View()), c, lbMac)
    {
      kernel.Update(PutConfig(ConfigOf(c, lbMac)));
      nextHop := c.nextHop;
      hash := c.hash;
    }

    /** apply up to the clean-up. */
    method Reload(c: Config, lbMac: Mac, arp: map<U32, Mac>, h: Hashes) returns (ok: bool)
      requires Valid() && MayReload(View(), c) && MacsOk(arp)
      modifies this, table, table.slots, kernel
      ensures Valid() && Done(View(), ok) == Control.Reload(old(View()), c, lbMac, arp, h)
    {
      ghost var was := hash;
      var hashChanged := hash != c.hash;
      PrunedMayApply(View(), c, lbMac);
      Prepare(c, lbMac);
      ok := ApplyVips(c.vips, hashChanged, was, arp, h);
    }

    method Prepare(c: Config, lbMac: Mac)
      requires Valid()
      modifies this, table, table.slots, kernel
      ensures Valid() && View() == Convergence.Pruned(old(View()), c, lbMac)
    {
      Configure(c, lbMac);
      var wanted := set i | 0 <= i < |c.vips| :: c.vips[i].spec;
      DeleteAll(vips.Keys - wanted);
    }

    method Cleanup()
      requires Valid()
      modifies this, table, table.slots, kernel
      ensures Valid() && View() == Control.Cleanup(old(View()))
    {
      Purge(adopted.Keys - vips.Keys);
      adopted := map[];
      table.DropUnreferenced();
      initialized := true;
    }

    /**
     apply: the first one takes over the pinned maps, later ones make the difference. A daemon whose
     first apply fails does not go on.
     */
    method Apply(c: Config, lbMac: Mac, arp: map<U32, Mac>, h: Hashes) returns (ok: bool)
      requires Valid() && DistinctSpecs(c.vips) && MacsOk(arp)
      requires if initialized then Sound(View()) else View() == Fresh(kernel.View()) && PlaneSafe(kernel.View())
      modifies this, table, table.slots, kernel
      ensures old(initialized) ==>
                && Valid() && Sound(View()) && Done(View(), ok) == Control.Reload(old(View()), c, lbMac, arp, h)
                && (Good(old(View())) && Exposure.SafeReload(old(View()), c) ==> Good(View()))
      ensures !old(initialized) ==>
                Valid() && Inv(View()) && (ok ==> Neat(View(), h))
                  && Done(View(), ok) == Start(old(View()), c, lbMac, arp, h)
    {
      if initialized {
        ReloadKeeps(View(), c, lbMac, arp, h);
        ok := Reload(c, lbMac, arp, h);
      } else {
        Hitless.HitlessRestart(kernel.View(), c, lbMac, arp, h);
        StartLaws.AdoptInv(kernel.View());
        AdoptAll();
        ok := Reload(c, lbMac, arp, h);
        if ok {
          Cleanup();
        }
      }
    }
  }

  lemma ReloadKeeps(s: Lb, c: Config, lbMac: Mac, arp: map<U32, Mac>, h: Hashes)
    requires Sound(s) && Ranged(s.t) && DistinctSpecs(c.vips) && MacsOk(arp)
    ensures Sound(Control.Reload(s, c, lbMac, arp, h).s)
    ensures Good(s) && Exposure.SafeReload(s, c) ==> Good(Control.Reload(s, c, lbMac, arp, h).s)
  {
    ReloadConverges(s, c, lbMac, arp, h);
    if Good(s) && Exposure.SafeReload(s, c) {
      Exposure.SafeReloadOk(s, c, lbMac, arp, h);
    }
  }

  /** The VIPs can be applied from here: on a running daemon, or on one that has just adopted the maps. */
  ghost predicate MayApply(s: Lb, vcs: seq<VipConfig>, hashChanged: bool, was: HashMode) {
    DistinctSpecs(vcs) && ((Inv(s) && s.vips == map[]) || (Sound(s) && hashChanged == (s.hash != was)))
  }

  ghost predicate MayReload(s: Lb, c: Config) {
    DistinctSpecs(c.vips) && ((Inv(s) && s.vips == map[]) || Sound(s))
  }

  lemma NextMayApply(s: Lb, s1: Lb, vcs: seq<VipConfig>, i: nat, hashChanged: bool, was: HashMode, arp: map<U32, Mac>,
                     h: Hashes)
    requires MayApply(s, vcs, hashChanged, was) && i < |vcs| && MacsOk(arp) && Ranged(s.t)
    requires Done(s1, true) == Control.ApplyVips(s, vcs, i, hashChanged, arp, h)
    ensures Upright(s1) && (vcs[i].spec in s1.vips ==> Sound(s1))
  {
    if Inv(s) && s.vips == map[] {
      StartLaws.StartVips(s, vcs, i, hashChanged, arp, h);
      StartLaws.NotYet(s, s1, vcs, i, h);
      InvUpright(s1);
    } else {
      TurnsSound(s, vcs, i, hashChanged, was, arp, h);
      SoundUpright(s1);
    }
  }

  lemma ApplyVipsNone(s: Lb, vcs: seq<VipConfig>, hashChanged: bool, arp: map<U32, Mac>, h: Hashes)
    requires Ranged(s.t)
    ensures Control.ApplyVips(s, vcs, 0, hashChanged, arp, h) == Done(s, true)
  {
  }

  lemma ApplyVipsStep(s: Lb, s1: Lb, d: Done, vcs: seq<VipConfig>, i: nat, hashChanged: bool, arp: map<U32, Mac>,
                      h: Hashes)
    requires Ranged(s.t) && i < |vcs| && Done(s1, true) == Control.ApplyVips(s, vcs, i, hashChanged, arp, h)
    requires Ranged(s1.t) && d == Control.ApplyVip(s1, vcs[i], hashChanged, arp, h)
    ensures Control.ApplyVips(s, vcs, i + 1, hashChanged, arp, h) == d
  {
    ApplyVipsNext(s, vcs, i, hashChanged, arp, h);
  }

  lemma FailsOnce(s: Lb, d: Done, vcs: seq<VipConfig>, n: nat, hashChanged: bool, arp: map<U32, Mac>, h: Hashes)
    requires Ranged(s.t) && 0 < n <= |vcs| && d == Control.ApplyVips(s, vcs, n - 1, hashChanged, arp, h) && !d.ok
    ensures Control.ApplyVips(s, vcs, n, hashChanged, arp, h) == d
  {
  }

  lemma {:induction false} StaysFailed(s: Lb, d: Done, vcs: seq<VipConfig>, i: nat, n: nat, hashChanged: bool,
                                       arp: map<U32, Mac>, h: Hashes)
    requires Ranged(s.t) && i <= n <= |vcs| && d == Control.ApplyVips(s, vcs, i, hashChanged, arp, h) && !d.ok
    ensures Control.ApplyVips(s, vcs, n, hashChanged, arp, h) == d
  {
    if i < n {
      StaysFailed(s, d, vcs, i, n - 1, hashChanged, arp, h);
      FailsOnce(s, d, vcs, n, hashChanged, arp, h);
    }
  }

  lemma PrunedMayApply(s: Lb, c: Config, lbMac: Mac)
    requires MayReload(s, c) && Ranged(s.t)
    ensures MayApply(Convergence.Pruned(s, c, lbMac), c.vips, s.hash != c.hash, s.hash)
  {
    if Inv(s) && s.vips == map[] {
      Convergence.ConfigureOk(s, c, lbMac);
      var s1 := Control.Configure(s, c, lbMac);
      assert s1.vips.Keys - Specs(c) == {};
    } else {
      PrunedSound(s, c, lbMac);
      PrunedHash(s, c, lbMac);
    }
  }

  /** Setting one MAC settles that address and no other. */
  lemma UnresolvedLess(s: Lb, todo: set<U32>, a: U32, mac: Mac)
    requires Ranged(s.t) && TableOk(s.t.slots, s.t.byAddr) && a in todo
    ensures Unresolved(s.(t := Reals.SetMac(s.t, a, mac)), todo - {a}) == Unresolved(s, todo) - {a}
    ensures a in Unresolved(s, todo) <==> a in Unresolved(s, {a})
  {
    forall b | b in s.t.byAddr
      ensures AddrOk(s.t.slots, s.t.byAddr, b)
    {
    }
  }

  /** No two VIPs have the same place in the order. */
  lemma FirstIs(ks: set<VipSpec>, k: VipSpec)
    requires Foremost(ks, k)
    ensures k == First(ks)
  {
  }

  lemma ReloadVipIs(s: Lb, d: Done, vc: VipConfig, hashChanged: bool, arp: map<U32, Mac>, h: Hashes)
    requires Ranged(s.t) && vc.spec in s.vips && d == Control.Merge(Prune(s, vc), vc.spec, Want(vc), Want(vc).Keys, arp)
    ensures Control.ReloadVip(s, vc, hashChanged, arp, h)
         == if !d.ok then d
            else Done(Control.ReleaseAll(if RingChanges(s.vips[vc.spec], Want(vc), hashChanged)
                                         then Control.Rebuild(d.s, vc.spec, h)
                                         else d.s, Gone(s, vc)), true)
  {
  }

  lemma CreateVipIs(s: Lb, s1: Lb, d: Done, k: VipSpec, noConntrack: bool, want: map<U32, U32>, arp: map<U32, Mac>,
                    h: Hashes)
    requires Ranged(s.t) && Control.Enter(s, k, noConntrack) == Some(s1) && Ranged(s1.t) && k in s1.vips
    requires d == Control.Merge(s1, k, want, want.Keys, arp)
    ensures Control.CreateVip(s, k, noConntrack, want, arp, h)
         == if d.ok then Done(SendVip(Control.Rebuild(d.s, k, h), k), true) else d
  {
  }
}
