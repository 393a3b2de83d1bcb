/** Packets among the writes of the control plane: every event sequence in which the maps change as a log says. */
module Interleaving {
  import opened Basics
  import opened BuildMaglev
  import opened Maps
  import opened Packet
  import opened DataPlane
  import opened Flows
  import opened Stickiness
  import opened Lifetimes

  function Writes(evs: seq<Event>, n: nat): (k: nat)
    requires n <= |evs|
  {
    if n == 0 then 0 else Writes(evs, n - 1) + if evs[n - 1].Control? then 1 else 0
  }

  ghost predicate WriteAt(evs: seq<Event>, i: nat, log: seq<Entry>, from: nat)
    requires i < |evs|
  {
    evs[i].Control? ==> from + Writes(evs, i) < |log| && evs[i].m == log[from + Writes(evs, i)].after
  }

  /** The map changes among the events are the log's entries from number `from` on, in order. */
  ghost predicate Interleaves(evs: seq<Event>, log: seq<Entry>, from: nat) {
    forall i: nat :: i < |evs| ==> WriteAt(evs, i, log, from)
  }

  /** Frames arrive on CPUs there are, at a positive time. */
  ghost predicate Traffic(ncpus: nat, evs: seq<Event>) {
    forall i :: 0 <= i < |evs| && evs[i].Frame? ==> Possible(ncpus, evs[i])
  }

  lemma SafeInRange(m: Maps)
    requires MapsSafe(m)
    ensures IdsInRange(m)
  {
    forall j | j in m.vipMap
      ensures m.vipMap[j].id < MAX_VIPS
    {
      assert VipSafe(m, j);
    }
  }

  /** What is true of the maps at first and of every entry of the log is true of the maps at all times. */
  lemma SafeLog(evs: seq<Event>, log: seq<Entry>, from: nat, ncpus: nat)
    requires Interleaves(evs, log, from) && AllSafe(log, from) && Traffic(ncpus, evs)
    ensures AllPossible(ncpus, evs) && forall i :: 0 <= i < |evs| && evs[i].Control? ==> MapsSafe(evs[i].m)
  {
    forall i: nat | i < |evs|
      ensures Possible(ncpus, evs[i]) && (evs[i].Control? ==> MapsSafe(evs[i].m))
    {
      assert WriteAt(evs, i, log, from);
      if evs[i].Control? {
        SafeInRange(evs[i].m);
      }
    }
  }

  /** The maps are those after the last write so far. */
  lemma {:induction false} MapsNow(w: World, evs: seq<Event>, n: nat, mc: Machine, log: seq<Entry>, from: nat)
    requires WorldOk(w) && n <= |evs| && AllPossible(|w.dp.cpus|, evs) && Interleaves(evs, log, from)
    ensures Writes(evs, n) > 0 ==> from + Writes(evs, n) <= |log|
    ensures Run(w, evs, n, mc).m == if Writes(evs, n) == 0 then w.m else log[from + Writes(evs, n) - 1].after
  {
    if n > 0 {
      var m := n - 1;
      assert m + 1 == n;
      MapsNow(w, evs, m, mc, log, from);
      RunNext(w, evs, m, mc);
      assert WriteAt(evs, m, log, from);
    }
  }

  // ---- the ids in the table

  /** Every entry that can hit names an id of the real table, never 0. */
  ghost predicate NamesReals(dp: Dp) {
    forall f, c: nat :: Tracked(dp, f, c) ==> 0 < dp.ct[f][c].realId < MAX_REALS
  }

  lemma NextNamesReals(w: World, ev: Event, mc: Machine)
    requires WorldOk(w) && Possible(|w.dp.cpus|, ev) && MapsSafe(w.m) && NamesReals(w.dp)
    ensures NamesReals(Next(w, ev, mc).dp)
  {
    forall f, c: nat | Tracked(Next(w, ev, mc).dp, f, c)
      ensures 0 < Next(w, ev, mc).dp.ct[f][c].realId < MAX_REALS
    {
      EntrySource(w, ev, mc, f, c);
      var id := Next(w, ev, mc).dp.ct[f][c].realId;
      if ReadsRing(w, ev, mc, f, c, id) {
        assert VipSafe(w.m, KeyOf(f));
      } else {
        assert Tracked(w.dp, f, c);
      }
    }
  }

  lemma {:induction false} RunNamesReals(w: World, evs: seq<Event>, n: nat, mc: Machine)
    requires WorldOk(w) && n <= |evs| && AllPossible(|w.dp.cpus|, evs) && NamesReals(w.dp)
    requires MapsSafe(w.m) && forall i :: 0 <= i < |evs| && evs[i].Control? ==> MapsSafe(evs[i].m)
    ensures MapsSafe(Run(w, evs, n, mc).m) && NamesReals(Run(w, evs, n, mc).dp)
  {
    StaySafe(w, evs, n, mc);
    if n > 0 {
      var m := n - 1;
      assert m + 1 == n;
      RunNamesReals(w, evs, m, mc);
      RunNext(w, evs, m, mc);
      NextNamesReals(Run(w, evs, m, mc), evs[m], mc);
    }
  }

  /**
   A whole life of a daemon with packets on any CPU between any two of its writes: every packet finds
   safe maps, and no table entry ever names id 0 or an id the table does not have. What holds of the
   table at the end is what the next life starts from.
   */
  lemma LifeNeverIdZero(k: Plane, life: Life, h: Hashes, dp: Dp, evs: seq<Event>, n: nat, mc: Machine)
    requires PlaneSafe(k) && LegalLife(k, life, h) && Interleaves(evs, Ends(k, life, h).t.k.log, |k.log|)
    requires DpOk(dp) && NamesReals(dp) && Traffic(|dp.cpus|, evs) && n <= |evs|
    ensures WorldOk(World(dp, k.maps)) && AllPossible(|dp.cpus|, evs)
    ensures var w := Run(World(dp, k.maps), evs, n, mc);
            MapsSafe(w.m) && NamesReals(w.dp)
  {
    EndsSafely(k, life, h);
    SafeInRange(k.maps);
    SafeLog(evs, Ends(k, life, h).t.k.log, |k.log|, |dp.cpus|);
    RunNamesReals(World(dp, k.maps), evs, n, mc);
  }
}
