/** UP/DOWN of one real on one VIP, driven by the probe results that count. */
module Health {
  import opened Basics

  const WRAP: nat := 0x1_0000_0000

  /** The counters are 32-bit and wrap; new reals start UP. */
  datatype Health = Health(up: bool, ok: U32, fail: U32)

  const NEW_REAL: Health := Health(true, 0, 0)

  /** A counted probe result, with the thresholds in force when it was reported. */
  datatype Report = Report(ok: bool, rise: U32, fall: U32)

  /** ++ on a 32-bit counter. */
  function Inc(x: U32): (y: U32) {
    if x + 1 == WRAP then 0 else x + 1
  }

  function Observe(h: Health, r: Report): (h': Health) {
    if r.ok then
      var ok := Inc(h.ok);
      Health(h.up || ok >= r.rise, ok, 0)
    else
      var fail := Inc(h.fail);
      Health(h.up && fail < r.fall, 0, fail)
  }

  function After(rs: seq<Report>, n: nat): (h: Health)
    requires n <= |rs|
  {
    if n == 0 then NEW_REAL else Observe(After(rs, n - 1), rs[n - 1])
  }

  /** How many reports at the end of the first n have this outcome. */
  function Run(rs: seq<Report>, n: nat, ok: bool): (len: nat)
    requires n <= |rs|
  {
    if n == 0 || rs[n - 1].ok != ok then 0 else 1 + Run(rs, n - 1, ok)
  }

  lemma {:induction false} RunIsRun(rs: seq<Report>, n: nat, ok: bool)
    requires n <= |rs|
    ensures Run(rs, n, ok) <= n
    ensures forall k :: n - Run(rs, n, ok) <= k < n ==> rs[k].ok == ok
    ensures Run(rs, n, ok) < n ==> rs[n - 1 - Run(rs, n, ok)].ok != ok
  {
    if n > 0 && rs[n - 1].ok == ok {
      RunIsRun(rs, n - 1, ok);
    }
  }

  /** The counters are the lengths of the current run of equal outcomes. */
  lemma {:induction false} CountersAreRuns(rs: seq<Report>, n: nat)
    requires n <= |rs|
    ensures After(rs, n).ok == Run(rs, n, true) % WRAP
    ensures After(rs, n).fail == Run(rs, n, false) % WRAP
  {
    if n > 0 {
      CountersAreRuns(rs, n - 1);
      IncIsMod(Run(rs, n - 1, true));
      IncIsMod(Run(rs, n - 1, false));
    }
  }

  lemma IncIsMod(x: nat)
    ensures Inc(x % WRAP) == (x + 1) % WRAP
  {
  }

  ghost predicate Fixed(rs: seq<Report>, rise: U32, fall: U32) {
    rise > 0 && fall > 0 && forall i :: 0 <= i < |rs| ==> rs[i].rise == rise && rs[i].fall == fall
  }

  /**
   Hysteresis, said without counters: DOWN once the last `fall` reports failed, UP once the last
   `rise` succeeded, and otherwise as before.
   */
  ghost function Hysteresis(rs: seq<Report>, n: nat, rise: U32, fall: U32): (up: bool)
    requires n <= |rs|
  {
    if n == 0 then true
    else if Run(rs, n, false) >= fall then false
    else if Run(rs, n, true) >= rise then true
    else Hysteresis(rs, n - 1, rise, fall)
  }

  lemma {:induction false} UpIsHysteresis(rs: seq<Report>, n: nat, rise: U32, fall: U32)
    requires n <= |rs| && Fixed(rs, rise, fall)
    ensures After(rs, n).up == Hysteresis(rs, n, rise, fall)
    ensures After(rs, n).up ==> After(rs, n).fail == Run(rs, n, false) < fall
    ensures !After(rs, n).up ==> After(rs, n).ok == Run(rs, n, true) < rise
  {
    if n > 0 {
      UpIsHysteresis(rs, n - 1, rise, fall);
    }
  }

  /** A flip needs a full run of the threshold's length, all of it since the previous flip. */
  lemma FlipNeedsARun(rs: seq<Report>, n: nat, rise: U32, fall: U32)
    requires 0 < n <= |rs| && Fixed(rs, rise, fall) && After(rs, n).up != After(rs, n - 1).up
    ensures !After(rs, n).up ==> Run(rs, n, false) == fall && forall k :: 0 <= k && n - fall <= k < n ==> !rs[k].ok
    ensures After(rs, n).up ==> Run(rs, n, true) == rise && forall k :: 0 <= k && n - rise <= k < n ==> rs[k].ok
  {
    UpIsHysteresis(rs, n - 1, rise, fall);
    UpIsHysteresis(rs, n, rise, fall);
    RunIsRun(rs, n, false);
    RunIsRun(rs, n, true);
  }

  /** Reports spent on the flips among the first n: `fall` for each to DOWN, `rise` for each to UP. */
  ghost function Spent(rs: seq<Report>, n: nat, rise: U32, fall: U32): (total: nat)
    requires n <= |rs|
  {
    if n == 0 then 0 else
      var flip := After(rs, n).up != After(rs, n - 1).up;
      Spent(rs, n - 1, rise, fall) + if !flip then 0 else if After(rs, n).up then rise else fall
  }

  /** Flips, and so ring rebuilds, are bounded by the reports: no report pays for two of them. */
  lemma {:induction false} FlipsAreBounded(rs: seq<Report>, n: nat, rise: U32, fall: U32)
    requires n <= |rs| && Fixed(rs, rise, fall)
    ensures Spent(rs, n, rise, fall) + Run(rs, n, !After(rs, n).up) <= n
  {
    if n > 0 {
      FlipsAreBounded(rs, n - 1, rise, fall);
      UpIsHysteresis(rs, n - 1, rise, fall);
      UpIsHysteresis(rs, n, rise, fall);
    }
  }
}
