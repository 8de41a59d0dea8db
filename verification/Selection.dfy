/** The selection loop of `extend` (service.go): budget, target, skip, location, bucket. */
module Selection {
  import opened Wrappers
  import opened Chain
  import opened Collections
  import opened Targets
  import opened PledgeBudget
  import opened Buckets

  /** What the loop looks sectors up in. */
  datatype View = View(
    info: map<SectorNumber, SectorInfo>,
    locations: map<SectorNumber, Location>,
    terms: Terms,
    policy: Policy)

  ghost predicate Known(v: View, cs: seq<Candidate>) {
    forall i :: 0 <= i < |cs| ==> cs[i].number in v.info
  }

  predicate Extends(v: View, n: SectorNumber)
    requires n in v.info
  {
    Worthwhile(v.terms, v.policy, v.info[n])
  }

  function ItemOf(v: View, n: SectorNumber): Item
    requires n in v.info
  {
    Item(n, if n in v.locations then v.locations[n] else Location(0, 0), Target(v.terms, v.policy, v.info[n]))
  }

  /** The items bucketed for a list of charged sectors: those with a real extension, in order. */
  function Wanted(v: View, charged: seq<Candidate>): seq<Item>
    requires Known(v, charged)
  {
    if charged == [] then []
    else
      var n := |charged| - 1;
      Wanted(v, charged[..n]) + if Extends(v, charged[n].number) then [ItemOf(v, charged[n].number)] else []
  }

  ghost predicate Located(v: View, charged: seq<Candidate>)
    requires Known(v, charged)
  {
    forall i :: 0 <= i < |charged| && Extends(v, charged[i].number) ==> charged[i].number in v.locations
  }

  lemma WantedSnoc(v: View, charged: seq<Candidate>, c: Candidate)
    requires Known(v, charged) && c.number in v.info
    ensures Known(v, charged + [c])
    ensures Wanted(v, charged + [c]) ==
      Wanted(v, charged) + if Extends(v, c.number) then [ItemOf(v, c.number)] else []
    ensures Located(v, charged + [c]) <==> Located(v, charged) && (Extends(v, c.number) ==> c.number in v.locations)
  {
    var all := charged + [c];
    assert all[..|charged|] == charged;
    assert all[|charged|] == c;
    if Located(v, all) {
      forall i | 0 <= i < |charged| && Extends(v, charged[i].number) ensures charged[i].number in v.locations {
        assert all[i] == charged[i];
      }
    }
  }

  lemma {:induction false} ChargedAreKnown(v: View, cs: seq<Candidate>, cap: int)
    requires Known(v, cs)
    ensures Known(v, Charged(cs, cap))
  {
    if cs != [] {
      ChargedAreKnown(v, cs[..|cs| - 1], cap);
    }
  }

  /** One sector into the buckets of its partition.  The inner loop visits the existing keys in the
      order Go's map iteration happens to produce and stops at the first one near the target. */
  method AddToBuckets(extensions: Extensions, it: Item, tol: Epoch) returns (r: Extensions, ghost pick: Epoch)
    ensures LegalPick(BucketsAt(extensions, it.loc), it.target, tol, pick)
    ensures r == Place(extensions, it, tol, pick)
    ensures exists key ::
      LegalPick(BucketsAt(extensions, it.loc), it.target, tol, key) && r == Place(extensions, it, tol, key)
  {
    pick := it.target;
    if it.loc !in extensions {
      r := extensions[it.loc := map[it.target := [it.number]]];
      return;
    }
    var es := extensions[it.loc];
    var added := false;
    var exps := RangeOver(es.Keys);
    var i := 0;
    while i < |exps| && !added
      invariant 0 <= i <= |exps|
      invariant if added then Qualifies(extensions[it.loc], it.target, tol, pick) &&
                              es == extensions[it.loc][pick := extensions[it.loc][pick] + [it.number]]
                else es == extensions[it.loc] && pick == it.target
      invariant !added ==> forall j :: 0 <= j < i ==> !WithinTolerance(tol, it.target, exps[j])
    {
      var exp := exps[i];
      assert exp in Elements(exps);
      if WithinTolerance(tol, it.target, exp) {
        es := es[exp := es[exp] + [it.number]];
        added := true;
        pick := exp;
      }
      i := i + 1;
    }
    if !added {
      forall k ensures !Qualifies(extensions[it.loc], it.target, tol, k) {
        assert k in es ==> k in Elements(exps);
      }
      es := es[it.target := [it.number]];
    }
    r := extensions[it.loc := es];
  }

  /** The clamps of the loop, one after the other. */
  method AimAt(terms: Terms, policy: Policy, si: SectorInfo) returns (newExp: Epoch)
    ensures newExp == Target(terms, policy, si)
  {
    newExp := 0;
    if terms.extension.Some? {
      newExp := si.expiration + terms.extension.value;
    }
    if terms.newExpiration.Some? {
      newExp := terms.newExpiration.value;
    }
    var maxExtendNow := policy.currEpoch + policy.maxExtension;
    if newExp > maxExtendNow {
      newExp := maxExtendNow;
    }
    var maxExp := si.activation + policy.maxLifetime(si.sealProof);
    if newExp > maxExp {
      newExp := maxExp;
    }
  }

  /** What the loop does with a sector once its pledge is charged. */
  method Visit(v: View, n: SectorNumber, extensions: Extensions, ghost items: seq<Item>, ghost picks: seq<Epoch>)
      returns (r: Result<Extensions, SectorNumber>, ghost items': seq<Item>, ghost picks': seq<Epoch>)
    requires n in v.info && LegalRun(items, v.terms.tolerance, picks)
    requires extensions == Group(items, v.terms.tolerance, picks)
    ensures r.Err? <==> Extends(v, n) && n !in v.locations
    ensures r.Err? ==> r.error == n
    ensures items' == items + if Extends(v, n) then [ItemOf(v, n)] else []
    ensures r.Ok? ==> LegalRun(items', v.terms.tolerance, picks') && r.value == Group(items', v.terms.tolerance, picks')
  {
    items' := items + if Extends(v, n) then [ItemOf(v, n)] else [];
    picks' := picks;
    var si := v.info[n];
    var newExp := AimAt(v.terms, v.policy, si);
    if newExp <= si.expiration || WithinTolerance(v.terms.tolerance, newExp, si.expiration) {
      assert items' == items;
      return Ok(extensions), items', picks';
    }
    if n !in v.locations {
      return Err(n), items', picks';
    }
    var it := Item(n, v.locations[n], newExp);
    var grown;
    ghost var pick;
    grown, pick := AddToBuckets(extensions, it, v.terms.tolerance);
    GroupSnoc(items, v.terms.tolerance, picks, it, pick);
    picks' := picks + [pick];
    r := Ok(grown);
  }

  /** The buckets are those of some run over everything charged. */
  ghost predicate Scheduled(v: View, charged: seq<Candidate>, extensions: Extensions, picks: seq<Epoch>) {
    && Known(v, charged) && Located(v, charged)
    && LegalRun(Wanted(v, charged), v.terms.tolerance, picks)
    && extensions == Group(Wanted(v, charged), v.terms.tolerance, picks)
  }

  ghost predicate Unlocated(v: View, charged: seq<Candidate>, n: SectorNumber) {
    exists i :: 0 <= i < |charged| && charged[i].number == n &&
      n in v.info && Extends(v, n) && n !in v.locations
  }

  method VisitCharged(v: View, sc: Candidate, ghost charged: seq<Candidate>, extensions: Extensions,
      ghost picks: seq<Epoch>)
      returns (r: Result<Extensions, SectorNumber>, ghost picks': seq<Epoch>)
    requires Scheduled(v, charged, extensions, picks) && sc.number in v.info
    ensures r.Ok? ==> Scheduled(v, charged + [sc], r.value, picks')
    ensures r.Err? ==> Unlocated(v, charged + [sc], r.error)
  {
    WantedSnoc(v, charged, sc);
    ghost var items;
    r, items, picks' := Visit(v, sc.number, extensions, Wanted(v, charged), picks);
    assert (charged + [sc])[|charged|] == sc;
  }

  /** The loop over the candidates in ascending order of pledge. */
  method Schedule(v: View, cs: seq<Candidate>, cap: int)
      returns (r: Result<Extensions, SectorNumber>, ghost picks: seq<Epoch>)
    requires Known(v, cs)
    ensures r.Ok? ==> Scheduled(v, Charged(cs, cap), r.value, picks)
    ensures r.Err? ==> Unlocated(v, Charged(cs, cap), r.error)
  {
    var totalPledge: nat := 0;
    var extensions: Extensions := map[];
    ghost var charged: seq<Candidate> := [];
    picks := [];
    for i := 0 to |cs|
      invariant charged == Charged(cs[..i], cap) && totalPledge == SumPledge(charged)
      invariant Scheduled(v, charged, extensions, picks)
    {
      var sc := cs[i];
      ChargedSnoc(cs, i, cap);
      var ntPledge := totalPledge + sc.pledge;
      if cap != 0 && ntPledge > cap {
        continue;
      }
      totalPledge := ntPledge;
      SumPledgeSnoc(charged, sc);
      var visited;
      visited, picks := VisitCharged(v, sc, charged, extensions, picks);
      if visited.Err? {
        ChargedGrows(cs, cap, i + 1);
        StillUnlocated(v, charged + [sc], Charged(cs, cap), visited.error);
        return visited, picks;
      }
      extensions := visited.value;
      charged := charged + [sc];
    }
    assert cs[..|cs|] == cs;
    r := Ok(extensions);
  }

  lemma StillUnlocated(v: View, some: seq<Candidate>, more: seq<Candidate>, n: SectorNumber)
    requires some <= more && Unlocated(v, some, n)
    ensures Unlocated(v, more, n)
  {
    var i :| 0 <= i < |some| && some[i].number == n;
    assert more[i] == some[i];
  }

  /** Once charged, always charged. */
  lemma {:induction false} ChargedGrows(cs: seq<Candidate>, cap: int, i: nat)
    requires i <= |cs|
    ensures Charged(cs[..i], cap) <= Charged(cs, cap)
    decreases |cs|
  {
    if i < |cs| {
      assert cs[..|cs| - 1][..i] == cs[..i];
      ChargedGrows(cs[..|cs| - 1], cap, i);
    } else {
      assert cs[..i] == cs;
    }
  }
}
