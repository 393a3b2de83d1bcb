/** validate_config: the configurations apply is given. */
module ConfigCheck {
  import opened Basics
  import opened Maps
  import opened Control
  import opened ApplyLaws
  import opened Convergence
  import opened Capacity

  datatype HealthParams = HealthParams(interval: nat, timeout: nat, fall: nat, rise: nat)

  /** A configuration file's contents, as far as validate_config looks at them. */
  datatype Document = Document(interface: string, encapLen: nat, conntrackSize: nat, health: HealthParams,
                               config: Config)

  ghost predicate RealsOk(reals: seq<RealConfig>, n: nat) {
    && n <= |reals|
    && (forall j :: 0 <= j < n ==> reals[j].addr != 0 && reals[j].weight <= MAX_WEIGHT)
    && (forall j, k :: 0 <= j < k < n ==> reals[j].addr != reals[k].addr)
  }

  ghost predicate VipsOk(vcs: seq<VipConfig>, n: nat) {
    && n <= |vcs|
    && (forall i :: 0 <= i < n ==> RealsOk(vcs[i].reals, |vcs[i].reals|))
    && (forall i, j :: 0 <= i < j < n ==> vcs[i].spec != vcs[j].spec)
  }

  /** The addresses of the first n reals of a VIP. */
  ghost function AddrsTo(reals: seq<RealConfig>, n: nat): (a: set<U32>)
    requires n <= |reals|
  {
    set j | 0 <= j < n :: reals[j].addr
  }

  ghost function AllAddrsTo(vcs: seq<VipConfig>, n: nat): (a: set<U32>)
    requires n <= |vcs|
  {
    if n == 0 then {} else AllAddrsTo(vcs, n - 1) + AddrsTo(vcs[n - 1].reals, |vcs[n - 1].reals|)
  }

  ghost predicate ValidDocument(d: Document) {
    && d.interface != "" && d.encapLen != 0 && d.conntrackSize != 0
    && d.health.interval != 0 && d.health.timeout != 0 && d.health.fall != 0 && d.health.rise != 0
    && d.health.timeout <= d.health.interval
    && |d.config.vips| <= MAX_VIPS && VipsOk(d.config.vips, |d.config.vips|)
    && |AllAddrsTo(d.config.vips, |d.config.vips|)| <= MAX_REALS - 1
  }

  method CheckReals(reals: seq<RealConfig>) returns (ok: bool, addrs: set<U32>)
    ensures ok <==> RealsOk(reals, |reals|)
    ensures ok ==> addrs == AddrsTo(reals, |reals|)
  {
    addrs := {};
    for j := 0 to |reals|
      invariant RealsOk(reals, j) && addrs == AddrsTo(reals, j)
    {
      if reals[j].addr == 0 || reals[j].addr in addrs || reals[j].weight > MAX_WEIGHT {
        return false, addrs;
      }
      addrs := addrs + {reals[j].addr};
    }
    return true, addrs;
  }

  /** Accepts exactly the valid documents. */
  method Validate(d: Document) returns (ok: bool)
    ensures ok <==> ValidDocument(d)
  {
    var h, vcs := d.health, d.config.vips;
    if d.interface == "" || d.encapLen == 0 || d.conntrackSize == 0 {
      return false;
    }
    if h.interval == 0 || h.timeout == 0 || h.fall == 0 || h.rise == 0 || h.timeout > h.interval || |vcs| > MAX_VIPS {
      return false;
    }
    var seen: set<VipSpec>, all: set<U32> := {}, {};
    for i := 0 to |vcs|
      invariant VipsOk(vcs, i) && seen == SpecsTo(vcs, i) && all == AllAddrsTo(vcs, i)
    {
      if vcs[i].spec in seen {
        return false;
      }
      seen := seen + {vcs[i].spec};
      var fine, addrs := CheckReals(vcs[i].reals);
      if !fine {
        return false;
      }
      all := all + addrs;
    }
    return |all| <= MAX_REALS - 1;
  }

  lemma {:induction false} WantIsListed(reals: seq<RealConfig>, n: nat, a: U32)
    requires n <= |reals|
    ensures a in WantTo(reals, n) <==> exists j :: 0 <= j < n && reals[j].addr == a
  {
    if n > 0 {
      WantIsListed(reals, n - 1, a);
    }
  }

  lemma {:induction false} WantInAll(vcs: seq<VipConfig>, n: nat, i: nat, a: U32)
    requires i < n <= |vcs| && a in Want(vcs[i])
    ensures a in AllAddrsTo(vcs, n)
  {
    if i == n - 1 {
      WantIsListed(vcs[i].reals, |vcs[i].reals|, a);
    } else {
      WantInAll(vcs, n - 1, i, a);
    }
  }

  lemma NeverZero(vc: VipConfig)
    requires RealsOk(vc.reals, |vc.reals|)
    ensures 0 !in Want(vc)
  {
    WantIsListed(vc.reals, |vc.reals|, 0);
  }

  /** A valid configuration lists no VIP twice and has room for its reals: a daemon without leftovers can apply it. */
  lemma ValidFits(d: Document)
    requires ValidDocument(d)
    ensures DistinctSpecs(d.config.vips) && |d.config.vips| <= MAX_VIPS && Room(AllReals(d.config))
  {
    var c := d.config;
    forall i | 0 <= i < |c.vips|
      ensures 0 !in Want(c.vips[i])
    {
      NeverZero(c.vips[i]);
    }
    forall a | a in AllReals(c)
      ensures a in AllAddrsTo(c.vips, |c.vips|)
    {
      var i :| 0 <= i < |c.vips| && a in Want(c.vips[i]);
      WantInAll(c.vips, |c.vips|, i, a);
    }
    SubsetSize(AllReals(c), AllAddrsTo(c.vips, |c.vips|));
  }
}
