/** Probe results and resolved neighbours. */
module EventLaws {
  import opened Basics
  import opened BuildMaglev
  import opened Ring
  import opened Maps
  import opened Reals
  import opened Health
  import opened LbModel
  import opened Control
  import opened ControlLaws
  import opened ReleaseLaws
  import opened OpLaws

  // ---- health

  lemma {:induction false} AfterAgrees(rs: seq<Report>, rs': seq<Report>, n: nat)
    requires n <= |rs| <= |rs'| && rs'[..|rs|] == rs
    ensures After(rs', n) == After(rs, n)
  {
    if n > 0 {
      AfterAgrees(rs, rs', n - 1);
      assert rs'[n - 1] == rs'[..|rs|][n - 1];
    }
  }

  lemma HealthNoted(s: Lb, x: Target, r: Report)
    requires HealthOk(s.vips, s.next, s.reports) && x.vip in s.vips && x.addr in s.vips[x.vip].members
    requires s.vips[x.vip].members[x.addr].incarnation == x.incarnation
    ensures HealthOk(Noted(s, x, r).vips, s.next, Noted(s, x, r).reports)
  {
    var s' := Noted(s, x, r);
    var m := s.vips[x.vip].members[x.addr];
    assert MemberHealth(m, s.next, s.reports);
    var rs := s.reports[x.incarnation];
    AfterAgrees(rs, rs + [r], |rs|);
    forall j, a | j in s'.vips && a in s'.vips[j].members
      ensures MemberHealth(s'.vips[j].members[a], s.next, s'.reports)
    {
      assert MemberHealth(s.vips[j].members[a], s.next, s.reports);
      assert Apart(s.vips, x.vip, x.addr, j, a);
    }
    forall i, a, j, b
      ensures Apart(s'.vips, i, a, j, b)
    {
      assert Apart(s.vips, i, a, j, b);
    }
  }

  lemma NotedOk(s: Lb, x: Target, r: Report)
    requires Inv(s) && x.vip in s.vips && x.addr in s.vips[x.vip].members
    requires s.vips[x.vip].members[x.addr].incarnation == x.incarnation
    ensures Inv(Noted(s, x, r)) && Edited(s, Noted(s, x, r), x.vip, {})
  {
    Open(s);
    var s', v := Noted(s, x, r), Noted(s, x, r).vips[x.vip];
    HealthNoted(s, x, r);
    IdsTouched(s.vips, s.adopted, s.t.k.maps.vipMap, x.vip, v);
    HeldTouched(s.vips, s.t.slots, s.t.byAddr, s.leak, x.vip, v);
    GenTouched(s.vips, s.t.k.installs, s.base, x.vip, v);
    Close(s');
    assert s.leak + multiset({}) == s.leak;
    UntouchedSelf(s, s.leak);
    forall j | j != x.vip
      ensures Untouched(s, s', s.leak, j)
    {
      assert Untouched(s, s, s.leak, j);
    }
  }

  lemma SameRing(members: map<U32, Member>, members': map<U32, Member>, byAddr: map<U32, U32>, mode: HashMode,
                 h: Hashes)
    requires InRing(members') == InRing(members)
    ensures VipRing(members', byAddr, mode, h) == VipRing(members, byAddr, mode, h)
  {
    VipRingIs(members, byAddr, mode, h);
    VipRingIs(members', byAddr, mode, h);
  }

  /** The probed member did not go up or down. */
  ghost predicate Quiet(s: Lb, x: Target, r: Report) {
    && x.vip in s.vips && x.addr in s.vips[x.vip].members
    && Observe(s.vips[x.vip].members[x.addr].health, r).up == s.vips[x.vip].members[x.addr].health.up
  }

  lemma QuietTraced(s: Lb, x: Target, r: Report, stuck: multiset<U32>)
    requires Quiet(s, x, r) && Traced(s, stuck, x.vip)
    ensures Traced(Noted(s, x, r), stuck, x.vip)
  {
  }

  lemma QuietSteady(s: Lb, x: Target, r: Report, h: Hashes)
    requires Quiet(s, x, r) && Steady(s, h, x.vip)
    ensures Steady(Noted(s, x, r), h, x.vip)
  {
    var v, v' := s.vips[x.vip], Noted(s, x, r).vips[x.vip];
    assert InRing(v'.members) == InRing(v.members);
    SameRing(v.members, v'.members, s.t.byAddr, s.hash, h);
  }

  /** Counters moved, nobody went up or down: the installed ring is still the right one. */
  lemma QuietOk(s: Lb, x: Target, r: Report, h: Hashes)
    requires Good(s) && Quiet(s, x, r) && s.vips[x.vip].members[x.addr].incarnation == x.incarnation
    ensures Kept(s, Noted(s, x, r), h)
  {
    NotedOk(s, x, r);
    var s' := Noted(s, x, r);
    forall j
      ensures Traced(s', s'.leak, j) && (Steady(s, h, j) ==> Steady(s', h, j))
    {
      assert Traced(s, s.leak, j);
      if j == x.vip {
        QuietTraced(s, x, r, s.leak);
        if Steady(s, h, j) {
          QuietSteady(s, x, r, h);
        }
      } else {
        SameElsewhere(s, s', h, j);
      }
    }
  }

  lemma SameElsewhere(s: Lb, s': Lb, h: Hashes, j: VipSpec)
    requires Inv(s) && Inv(s') && Untouched(s, s', s.leak, j) && s'.leak == s.leak && s'.hash == s.hash
    ensures Traced(s, s.leak, j) ==> Traced(s', s'.leak, j)
    ensures Steady(s, h, j) ==> Steady(s', h, j)
  {
    assert Holds(s, TablePart) && Holds(s', TablePart);
    if Traced(s, s.leak, j) {
      UntouchedTraced(s, s', s.leak, j);
    }
    if Steady(s, h, j) {
      UntouchedSteady(s, s', s.leak, h, j);
    }
  }

  /** Member a of VIP k is m now, and that is all. */
  ghost predicate OnlyMember(s: Lb, s': Lb, k: VipSpec, a: U32, m: Member) {
    && k in s.vips && a in s.vips[k].members && s'.t == s.t
    && s'.vips == s.vips[k := s.vips[k].(members := s.vips[k].members[a := m])]
  }

  lemma FlipIs(s: Lb, s1: Lb, k: VipSpec, a: U32, m: Member, h: Hashes)
    requires Good(s) && Inv(s1) && Edited(s, s1, k, {}) && k in s.vips && a in s.vips[k].members
    requires s1.vips == s.vips[k := s.vips[k].(members := s.vips[k].members[a := m])]
    ensures MemberIs(s, Rebuild(s1, k, h), k, a, m, h)
  {
    EditKept(s, s1, k, h);
  }

  /**
   A probe result that does not count changes nothing. One that does moves its own member's counters
   and no other's; a new ring is installed exactly when the member goes up or down, and is then the
   ring of the members that are eligible now.
   */
  lemma ReportHealthOk(s: Lb, x: Target, p: Probe, rise: U32, fall: U32, h: Hashes)
    requires Good(s)
    ensures Ranged(s.t) && Kept(s, ReportHealth(s, x, p, rise, fall, h), h)
    ensures !Counts(s, x, p) ==> ReportHealth(s, x, p, rise, fall, h) == s
    ensures Counts(s, x, p) ==>
              var m, s' := s.vips[x.vip].members[x.addr], ReportHealth(s, x, p, rise, fall, h);
              && x.vip in s'.vips && x.addr in s'.vips[x.vip].members
              && s'.vips[x.vip].members[x.addr].health == Observe(m.health, Report(p.ok, rise, fall))
              && s'.vips[x.vip].generation
                 == s.vips[x.vip].generation + (if s'.vips[x.vip].members[x.addr].health.up == m.health.up then 0
                    else 1)
    ensures Counts(s, x, p) ==>
              var m, s' := s.vips[x.vip].members[x.addr], ReportHealth(s, x, p, rise, fall, h);
              var m' := m.(health := Observe(m.health, Report(p.ok, rise, fall)));
              if m'.health.up == m.health.up then OnlyMember(s, s', x.vip, x.addr, m')
              else MemberIs(s, s', x.vip, x.addr, m', h)
  {
    InvRanged(s);
    if Counts(s, x, p) {
      var r := Report(p.ok, rise, fall);
      var s1 := Noted(s, x, r);
      NotedOk(s, x, r);
      if s1.vips[x.vip].members[x.addr].health.up == s.vips[x.vip].members[x.addr].health.up {
        QuietOk(s, x, r, h);
      } else {
        EditKept(s, s1, x.vip, h);
        FlipIs(s, s1, x.vip, x.addr, s1.vips[x.vip].members[x.addr], h);
      }
    }
  }

  /** In every reachable state a member's counters are the runs at the end of its own counted reports. */
  lemma CountersOverRuns(s: Lb, k: VipSpec, a: U32)
    requires Inv(s) && k in s.vips && a in s.vips[k].members
    ensures var m := s.vips[k].members[a];
            && m.incarnation in s.reports
            && var rs := s.reports[m.incarnation];
               && m.health == After(rs, |rs|)
               && m.health.ok == Run(rs, |rs|, true) % WRAP && m.health.fail == Run(rs, |rs|, false) % WRAP
  {
    assert Holds(s, HealthPart);
    var m := s.vips[k].members[a];
    assert MemberHealth(m, s.next, s.reports);
    CountersAreRuns(s.reports[m.incarnation], |s.reports[m.incarnation]|);
  }

  /**
   Whatever else the daemon did in between: a report takes a member down only as the last of `fall`
   failures in a row, and brings it up only as the last of `rise` successes in a row, all of them
   counted for this very member.
   */
  lemma FlipNeedsReports(s: Lb, x: Target, p: Probe, rise: U32, fall: U32, h: Hashes)
    requires Good(s) && Counts(s, x, p) && x.incarnation in s.reports
    requires Fixed(s.reports[x.incarnation] + [Report(p.ok, rise, fall)], rise, fall)
    requires Observe(s.vips[x.vip].members[x.addr].health,
             Report(p.ok, rise, fall)).up != s.vips[x.vip].members[x.addr].health.up
    ensures var rs := s.reports[x.incarnation] + [Report(p.ok, rise, fall)];
            && (!p.ok ==> Run(rs, |rs|, false) == fall) && (p.ok ==> Run(rs, |rs|, true) == rise)
            && s.vips[x.vip].members[x.addr].health.up == !p.ok
  {
    assert Holds(s, HealthPart);
    var before, r := s.reports[x.incarnation], Report(p.ok, rise, fall);
    var rs := before + [r];
    assert MemberHealth(s.vips[x.vip].members[x.addr], s.next, s.reports);
    AfterAgrees(before, rs, |before|);
    FlipNeedsARun(rs, |rs|, rise, fall);
  }

  // ---- neighbours

  /** Same ids, same references; MACs may have been set. */
  ghost predicate Resaddled(t: Tab, t': Tab) {
    && t'.byAddr == t.byAddr && SameRefs(t.slots, t'.slots) && KeepsAll(t.slots, t.byAddr, t'.slots, t'.byAddr)
    && OnlyReals(t.k.maps, t'.k.maps) && t'.k.installs == t.k.installs
  }

  lemma ResaddledInv(s: Lb, t': Tab)
    requires Inv(s) && TabOk(t') && Resaddled(s.t, t')
    ensures Inv(s.(t := t'))
  {
    Open(s);
    assert HeldOk(s.vips, t'.slots, t'.byAddr, s.leak) by {
      forall a | a in t'.byAddr
        ensures HeldAt(s.vips, t'.slots, t'.byAddr, s.leak, a)
      {
        assert HeldAt(s.vips, s.t.slots, s.t.byAddr, s.leak, a);
      }
    }
    assert AllHeld(s.t.slots, s.t.byAddr) ==> AllHeld(t'.slots, t'.byAddr) by {
      if AllHeld(s.t.slots, s.t.byAddr) {
        forall a | a in t'.byAddr
          ensures HasRefs(t'.slots, t'.byAddr, a)
        {
          assert HasRefs(s.t.slots, s.t.byAddr, a);
        }
      }
    }
    Close(s.(t := t'));
  }

  lemma ResaddledKept(s: Lb, t': Tab, h: Hashes)
    requires Good(s) && TabOk(t') && Resaddled(s.t, t')
    ensures Kept(s, s.(t := t'), h)
  {
    var s' := s.(t := t');
    ResaddledInv(s, t');
    assert Holds(s, HeldPart);
    forall j
      ensures Traced(s', s'.leak, j) && (Steady(s, h, j) ==> Steady(s', h, j))
    {
      assert Untouched(s, s', s.leak, j);
      assert Traced(s, s.leak, j);
      SameElsewhere(s, s', h, j);
    }
  }

  lemma {:induction false} SetMacsOk(s: Lb, todo: set<U32>, mac: Mac, h: Hashes)
    requires Good(s) && mac != NO_MAC
    ensures Ranged(s.t) && Kept(s, SetMacs(s, todo, mac), h)
    decreases todo
  {
    InvRanged(s);
    if todo != {} {
      var a := Least(todo);
      assert Holds(s, TablePart);
      SetMacOk(s.t, a, mac);
      ResaddledKept(s, SetMac(s.t, a, mac), h);
      SetMacsOk(s.(t := SetMac(s.t, a, mac)), todo - {a}, mac, h);
    }
  }

  lemma {:induction false} RebuildAllOk(s: Lb, todo: set<VipSpec>, h: Hashes)
    requires Good(s) && todo <= s.vips.Keys
    ensures Ranged(s.t) && Kept(s, RebuildAll(s, todo, h), h)
    decreases todo
  {
    InvRanged(s);
    if todo != {} {
      var k := First(todo);
      TouchEdits(s, k, s.vips[k]);
      assert s.(vips := s.vips[k := s.vips[k]]) == s;
      EditKept(s, s, k, h);
      RebuildAllOk(Rebuild(s, k, h), todo - {k}, h);
    }
  }

  /** neighbor_resolved keeps every ring right, also those it does not rebuild. */
  lemma NeighborResolvedOk(s: Lb, ip: U32, mac: Mac, h: Hashes)
    requires Good(s) && mac != NO_MAC
    ensures Ranged(s.t) && Kept(s, NeighborResolved(s, ip, mac, h), h)
  {
    InvRanged(s);
    SetMacsOk(s, Behind(s, ip), mac, h);
    var s1 := SetMacs(s, Behind(s, ip), mac);
    RebuildAllOk(s1, HoldingAny(s1, Unresolved(s, Behind(s, ip))), h);
  }
}
