/** The planning half of `extend` (service.go): from the miner's active sectors to the messages. */
module Planner {
  import opened Wrappers
  import opened Chain
  import opened Collections
  import opened Sorting
  import opened Targets
  import opened PledgeBudget
  import opened Buckets
  import opened Selection
  import opened Declarations
  import opened Packing
  import opened PackingLaws
  import opened PackLoop

  /** The request's part: window, expiration asked for, limits (zero for none). */
  datatype Args = Args(from: Epoch, to: Epoch, terms: Terms, maxSectors: nat, cap: int)

  /** The chain's part, as read at the head. */
  datatype ChainState = ChainState(
    policy: Policy, sectorsMax: nat, declMax: nat,
    active: seq<SectorInfo>, locations: map<SectorNumber, Location>, registry: Registry)

  datatype PlanError =
    | NoExpirationAsked
    | TooManySectors
    | LocationNotFound(number: SectorNumber)
    | ClaimNotFound(id: ClaimId)

  /** `total` is the number of candidates in the window. */
  datatype Plan = Plan(total: nat, batches: seq<Batch>)

  /** The decisions of one run: the order the sort left the candidates in, the bucket picked for every
      item, and the order the buckets were met in. */
  datatype Run = Run(view: View, cs: seq<Candidate>, picks: seq<Epoch>, order: seq<Bucket>)

  /** Before anything was decided. */
  function NoRun(chain: ChainState): Run {
    Run(View(map[], chain.locations, Terms(None, None, 0), chain.policy), [], [], [])
  }

  ghost predicate Sane(chain: ChainState) {
    && chain.sectorsMax >= 1 && chain.declMax >= 1
    && forall i, j :: 0 <= i < j < |chain.active| ==> chain.active[i].number != chain.active[j].number
  }

  predicate InWindow(args: Args, si: SectorInfo) {
    args.from <= si.expiration <= args.to
  }

  function LimitsOf(chain: ChainState, args: Args): Limits {
    Limits(if args.maxSectors != 0 then args.maxSectors else chain.sectorsMax, chain.declMax)
  }

  /** The table and the candidates are those of the active sectors in the window, each once. */
  ghost predicate Selects(active: seq<SectorInfo>, args: Args,
      info: map<SectorNumber, SectorInfo>, cs: seq<Candidate>)
  {
    && (forall n :: n in info ==> info[n].number == n && info[n] in active && InWindow(args, info[n]))
    && (forall si :: si in active && InWindow(args, si) ==> si.number in info && info[si.number] == si)
    && (forall c :: c in cs ==> c.number in info && c.pledge == info[c.number].pledge)
    && (forall n :: n in info ==> Candidate(n, info[n].pledge) in cs)
    && NoRepeats(cs)
  }

  lemma SelectOneMore(active: seq<SectorInfo>, args: Args, info: map<SectorNumber, SectorInfo>, cs: seq<Candidate>,
      si: SectorInfo)
    requires Selects(active, args, info, cs)
    requires forall other :: other in active ==> other.number != si.number
    ensures !InWindow(args, si) ==> Selects(active + [si], args, info, cs)
    ensures InWindow(args, si) ==>
      Selects(active + [si], args, info[si.number := si], cs + [Candidate(si.number, si.pledge)])
  {
    var c := Candidate(si.number, si.pledge);
    assert si.number !in info && c !in cs;
  }

  /** The window filter. */
  method SelectWindow(chain: ChainState, args: Args)
      returns (info: map<SectorNumber, SectorInfo>, sectors: seq<Candidate>)
    requires Sane(chain)
    ensures Selects(chain.active, args, info, sectors)
  {
    info, sectors := map[], [];
    for i := 0 to |chain.active|
      invariant Selects(chain.active[..i], args, info, sectors)
    {
      var si := chain.active[i];
      assert chain.active[..i + 1] == chain.active[..i] + [si];
      SelectOneMore(chain.active[..i], args, info, sectors, si);
      if si.expiration >= args.from && si.expiration <= args.to {
        info := info[si.number := si];
        sectors := sectors + [Candidate(si.number, si.pledge)];
      }
    }
    assert chain.active[..|chain.active|] == chain.active;
  }

  lemma PermutationSelects(active: seq<SectorInfo>, args: Args, info: map<SectorNumber, SectorInfo>,
      p: seq<Candidate>, q: seq<Candidate>)
    requires Selects(active, args, info, q) && multiset(p) == multiset(q)
    ensures Selects(active, args, info, p)
  {
    PermutationHasNoRepeats(p, q);
    forall c ensures c in p <==> c in q {
      assert c in p <==> c in multiset(p);
      assert c in q <==> c in multiset(q);
    }
  }

  /** The sort by pledge; ties may fall either way. */
  method SortByPledge(sectors: seq<Candidate>) returns (cs: seq<Candidate>)
    ensures ByPledge(cs) && multiset(cs) == multiset(sectors)
  {
    var a := new Candidate[|sectors|](i requires 0 <= i < |sectors| => sectors[i]);
    assert a[..] == sectors;
    var key := (c: Candidate) => c.pledge as int;
    SortSlice(a, key);
    cs := a[..];
    forall i, j | 0 <= i < j < |cs| ensures cs[i].pledge <= cs[j].pledge {
      assert key(cs[i]) <= key(cs[j]);
    }
  }

  // ---------------------------------------------------------------- a plan and the run behind it

  ghost function ItemsOf(args: Args, run: Run): seq<Item>
    requires Known(run.view, Charged(run.cs, args.cap))
  {
    Wanted(run.view, Charged(run.cs, args.cap))
  }

  /** Something is asked for within the limits, and the candidates are those of the window, sorted. */
  ghost predicate IsSelection(chain: ChainState, args: Args, run: Run) {
    var lim := LimitsOf(chain, args);
    && (args.terms.extension.Some? || args.terms.newExpiration.Some?)
    && Usable(lim) && lim.addrSectors <= chain.sectorsMax
    && run.view == View(run.view.info, chain.locations, args.terms, chain.policy)
    && Selects(chain.active, args, run.view.info, run.cs) && ByPledge(run.cs)
    && Known(run.view, Charged(run.cs, args.cap))
  }

  /** Every sector scheduled has a location and was sent to a bucket. */
  ghost predicate IsSchedule(chain: ChainState, args: Args, run: Run) {
    && IsSelection(chain, args, run)
    && Located(run.view, Charged(run.cs, args.cap))
    && LegalRun(Wanted(run.view, Charged(run.cs, args.cap)), args.terms.tolerance, run.picks)
  }

  ghost function BucketsOf(args: Args, run: Run): Extensions
    requires Known(run.view, Charged(run.cs, args.cap)) && |run.picks| == |Wanted(run.view, Charged(run.cs, args.cap))|
  {
    Group(Wanted(run.view, Charged(run.cs, args.cap)), args.terms.tolerance, run.picks)
  }

  ghost predicate IsPlan(chain: ChainState, args: Args, plan: Plan, run: Run) {
    var lim := LimitsOf(chain, args);
    && IsSchedule(chain, args, run)
    && Enumerates(BucketsOf(args, run), run.order)
    && AddAll(lim, chain.registry, run.order).Ok?
    && plan.total == |run.cs|
    && plan.batches == Messages(AddAll(lim, chain.registry, run.order).value)
  }

  lemma EmptyPlan(chain: ChainState, args: Args, run: Run)
    requires args.terms.extension.Some? || args.terms.newExpiration.Some?
    requires Usable(LimitsOf(chain, args)) && LimitsOf(chain, args).addrSectors <= chain.sectorsMax
    requires run.view == View(run.view.info, chain.locations, args.terms, chain.policy)
    requires Selects(chain.active, args, run.view.info, run.cs) && run.cs == [] && run.picks == [] && run.order == []
    ensures IsPlan(chain, args, Plan(0, []), run)
  {}

  /** The same once the candidates are sorted: schedule them and pack the buckets. */
  method PlanSelected(chain: ChainState, args: Args, lim: Limits, view: View, cs: seq<Candidate>)
      returns (r: Result<Plan, PlanError>, ghost run: Run)
    requires lim == LimitsOf(chain, args) && Known(view, cs) && IsSelection(chain, args, Run(view, cs, [], []))
    ensures r.Ok? ==> IsPlan(chain, args, r.value, run)
    ensures r.Err? ==> r.error.LocationNotFound? || r.error.ClaimNotFound?
    ensures IsSelection(chain, args, run)
    ensures r.Err? && r.error.LocationNotFound? <==> !Located(run.view, Charged(run.cs, args.cap))
    ensures r.Err? && r.error.LocationNotFound? ==> Unlocated(run.view, Charged(run.cs, args.cap), r.error.number)
    ensures r.Err? && r.error.ClaimNotFound? <==>
      IsSchedule(chain, args, run) &&
      exists b :: IsBucketOf(BucketsOf(args, run), b) && HasUnknown(chain.registry, b.numbers, b.key)
    ensures r.Err? && r.error.ClaimNotFound? ==>
      exists b :: IsBucketOf(BucketsOf(args, run), b) && MeetsUnknown(chain.registry, b, r.error.id)
  {
    run := Run(view, cs, [], []);
    var scheduled;
    ghost var picks;
    scheduled, picks := Schedule(view, cs, args.cap);
    if scheduled.Err? {
      return Err(LocationNotFound(scheduled.error)), run;
    }
    var packed;
    ghost var order;
    packed, order := Pack(scheduled.value, lim, chain.registry);
    run := Run(view, cs, picks, order);
    assert IsSchedule(chain, args, run) && scheduled.value == BucketsOf(args, run);
    if packed.Err? {
      return Err(ClaimNotFound(packed.error)), run;
    }
    r := Ok(Plan(|cs|, Messages(packed.value)));
  }

  /** The planning half of `extend`: a plan, or the first of four errors. */
  method PlanMessages(chain: ChainState, args: Args) returns (r: Result<Plan, PlanError>, ghost run: Run)
    requires Sane(chain)
    ensures r.Ok? ==> IsPlan(chain, args, r.value, run)
    ensures r == Err(NoExpirationAsked) <==> args.terms.extension.None? && args.terms.newExpiration.None?
    ensures r == Err(TooManySectors) <==>
      (args.terms.extension.Some? || args.terms.newExpiration.Some?) && args.maxSectors > chain.sectorsMax
    ensures r.Err? && r.error.LocationNotFound? <==>
      IsSelection(chain, args, run) && !Located(run.view, Charged(run.cs, args.cap))
    ensures r.Err? && r.error.LocationNotFound? ==> Unlocated(run.view, Charged(run.cs, args.cap), r.error.number)
    ensures r.Err? && r.error.ClaimNotFound? <==>
      IsSchedule(chain, args, run) &&
      exists b :: IsBucketOf(BucketsOf(args, run), b) && HasUnknown(chain.registry, b.numbers, b.key)
    ensures r.Err? && r.error.ClaimNotFound? ==>
      exists b :: IsBucketOf(BucketsOf(args, run), b) && MeetsUnknown(chain.registry, b, r.error.id)
  {
    run := NoRun(chain);
    if args.terms.extension.None? && args.terms.newExpiration.None? {
      return Err(NoExpirationAsked), run;
    }
    var addrSectors := chain.sectorsMax;
    if args.maxSectors != 0 {
      addrSectors := args.maxSectors;
      if addrSectors > chain.sectorsMax {
        return Err(TooManySectors), run;
      }
    }
    var lim := Limits(addrSectors, chain.declMax);
    var info, sectors := SelectWindow(chain, args);
    var cs := SortByPledge(sectors);
    PermutationSelects(chain.active, args, info, cs, sectors);
    var view := View(info, chain.locations, args.terms, chain.policy);
    run := Run(view, cs, [], []);
    assert Known(view, cs);
    ChargedAreKnown(view, cs, args.cap);
    if |cs| == 0 {
      EmptyPlan(chain, args, run.(cs := []));
      return Ok(Plan(0, [])), run;
    }
    r, run := PlanSelected(chain, args, lim, view, cs);
  }

  // ---------------------------------------------------------------- soundness

  lemma {:induction false} WantedItems(v: View, charged: seq<Candidate>, i: nat)
    requires Known(v, charged) && i < |Wanted(v, charged)|
    ensures var it := Wanted(v, charged)[i];
      it.number in v.info && Extends(v, it.number) && it == ItemOf(v, it.number)
        && exists j :: 0 <= j < |charged| && charged[j].number == it.number
  {
    var n := |charged| - 1;
    if i < |Wanted(v, charged[..n])| {
      WantedItems(v, charged[..n], i);
      var j :| 0 <= j < |charged[..n]| && charged[..n][j].number == Wanted(v, charged)[i].number;
      assert charged[j].number == Wanted(v, charged)[i].number;
    }
  }

  /** What the planner promises for a sector extended to an epoch in a partition. */
  ghost predicate Sound(chain: ChainState, args: Args, si: SectorInfo, l: Location, newExp: Epoch) {
    var gap := if args.terms.tolerance < 0 then 0 else args.terms.tolerance;
    && si in chain.active && args.from <= si.expiration <= args.to
    && si.number in chain.locations && chain.locations[si.number] == l
    && si.expiration < newExp
    && WithinTolerance(gap, Target(args.terms, chain.policy, si), newExp)
    && newExp <= chain.policy.currEpoch + chain.policy.maxExtension
    && newExp <= si.activation + chain.policy.maxLifetime(si.sealProof) + gap
  }

  /** An item and the key it was sent to are sound. */
  lemma ItemIsSound(chain: ChainState, args: Args, plan: Plan, run: Run, i: nat)
    requires IsPlan(chain, args, plan, run) && i < |ItemsOf(args, run)|
    ensures var it := ItemsOf(args, run)[i];
      it.number in run.view.info && Sound(chain, args, run.view.info[it.number], it.loc, run.picks[i])
  {
    var items, tol := ItemsOf(args, run), args.terms.tolerance;
    var it, charged := items[i], Charged(run.cs, args.cap);
    WantedItems(run.view, charged, i);
    PicksAreNear(items, tol, run.picks);
    SentToMembers(items, run.picks, it.loc, run.picks[i], it.number);
    BucketContents(items, tol, run.picks, it.loc, run.picks[i]);
    KeysAreTargets(items, tol, run.picks, it.loc, run.picks[i]);
    var j :| 0 <= j < |items| && items[j].loc == it.loc && items[j].target == run.picks[i];
    WantedItems(run.view, charged, j);
    var si := run.view.info[it.number];
    TargetIsLatestAllowed(args.terms, chain.policy, si, Target(args.terms, chain.policy, si));
    var sj := run.view.info[items[j].number];
    TargetIsLatestAllowed(args.terms, chain.policy, sj, Target(args.terms, chain.policy, sj));
  }

  ghost predicate DistinctCandidates(cs: seq<Candidate>) {
    forall i, j :: 0 <= i < j < |cs| ==> cs[i].number != cs[j].number
  }

  lemma CandidatesAreDistinct(active: seq<SectorInfo>, args: Args, info: map<SectorNumber, SectorInfo>,
      cs: seq<Candidate>)
    requires Selects(active, args, info, cs)
    ensures DistinctCandidates(cs)
  {
    forall i, j | 0 <= i < j < |cs| ensures cs[i].number != cs[j].number {
      assert cs[i] in cs && cs[j] in cs && cs[i] != cs[j];
    }
  }

  lemma ItemsAreDistinct(chain: ChainState, args: Args, plan: Plan, run: Run)
    requires IsPlan(chain, args, plan, run)
    ensures DistinctNumbers(ItemsOf(args, run))
  {
    CandidatesAreDistinct(chain.active, args, run.view.info, run.cs);
    ChargedIsPrefix(run.cs, args.cap);
    var k := |Charged(run.cs, args.cap)|;
    assert DistinctCandidates(run.cs[..k]);
    WantedAreDistinct(run.view, run.cs[..k]);
  }

  lemma NumbersAreDistinct(chain: ChainState, args: Args, plan: Plan, run: Run)
    requires IsPlan(chain, args, plan, run)
    ensures DistinctNumbers(ItemsOf(args, run)) && Distinct(run.order)
  {
    ItemsAreDistinct(chain, args, plan, run);
    var items, tol := ItemsOf(args, run), args.terms.tolerance;
    forall b | b in run.order ensures NoRepeats(b.numbers) {
      BucketsAreDisjoint(items, tol, run.picks, b.loc, b.key, b.loc, b.key, 0);
    }
  }

  lemma {:induction false} WantedAreDistinct(v: View, charged: seq<Candidate>)
    requires Known(v, charged) && DistinctCandidates(charged)
    ensures DistinctNumbers(Wanted(v, charged))
  {
    if charged != [] {
      var n := |charged| - 1;
      var before := Wanted(v, charged[..n]);
      WantedAreDistinct(v, charged[..n]);
      forall i | 0 <= i < |before| ensures before[i].number != charged[n].number {
        WantedItems(v, charged[..n], i);
      }
    }
  }

  ghost predicate SentUnder(items: seq<Item>, picks: seq<Epoch>, i: nat, l: Location, key: Epoch, n: SectorNumber) {
    i < |items| && i < |picks| && items[i].number == n && items[i].loc == l && picks[i] == key
  }

  /** A sector in some bucket is one of the items, sent to that bucket's key. */
  lemma BucketedIsItem(items: seq<Item>, tol: Epoch, picks: seq<Epoch>, b: Bucket, n: SectorNumber) returns (i: nat)
    requires LegalRun(items, tol, picks) && IsBucketOf(Group(items, tol, picks), b) && n in b.numbers
    ensures SentUnder(items, picks, i, b.loc, b.key, n)
  {
    BucketContents(items, tol, picks, b.loc, b.key);
    SentToMembers(items, picks, b.loc, b.key, n);
    assert n in SentTo(items, picks, b.loc, b.key);
    i :| 0 <= i < |items| && items[i].number == n && items[i].loc == b.loc && picks[i] == b.key;
  }

  /** A declared sector is in some bucket of its partition and key. */
  lemma DeclaredIsBucketed(chain: ChainState, args: Args, plan: Plan, run: Run, batch: Batch, d: Declaration,
      n: SectorNumber)
      returns (b: Bucket)
    requires IsPlan(chain, args, plan, run)
    requires batch in plan.batches && d in batch && n in d.sectors
    ensures b in run.order && n in b.numbers && b.loc == Location(d.deadline, d.partition) && b.key == d.newExpiration
  {
    var l, key := Location(d.deadline, d.partition), d.newExpiration;
    NumbersAreDistinct(chain, args, plan, run);
    TallyAllIsPositive(plan.batches, batch, d, Extending(l, key, n));
    NoExtendableSectorIsLost(LimitsOf(chain, args), chain.registry, run.order, l, key, n);
    SomeBucketHolds(run.order, l, key, n);
    b :| b in run.order && b.loc == l && b.key == key && n in b.numbers;
  }

  /** A declared sector is one of the items, under the key it was sent to. */
  lemma DeclaredIsItem(chain: ChainState, args: Args, plan: Plan, run: Run, batch: Batch, d: Declaration,
      n: SectorNumber)
      returns (i: nat)
    requires IsPlan(chain, args, plan, run)
    requires batch in plan.batches && d in batch && n in d.sectors
    ensures SentUnder(ItemsOf(args, run), run.picks, i, Location(d.deadline, d.partition), d.newExpiration, n)
  {
    var b := DeclaredIsBucketed(chain, args, plan, run, batch, d, n);
    i := BucketedIsItem(ItemsOf(args, run), args.terms.tolerance, run.picks, b, n);
  }

  /** Soundness of the whole plan: every sector declared in any message was active with its expiration in
      the window and sits under its own deadline and partition; its new expiration lies strictly above
      the old one, within the tolerance of its own clamped target, under the cap that counts from now,
      and at most the tolerance above its lifetime cap. */
  lemma PlanIsSound(chain: ChainState, args: Args, plan: Plan, run: Run, batch: Batch, d: Declaration, n: SectorNumber)
    requires IsPlan(chain, args, plan, run)
    requires batch in plan.batches && d in batch && n in d.sectors
    ensures exists si: SectorInfo ::
      si.number == n && Sound(chain, args, si, Location(d.deadline, d.partition), d.newExpiration)
  {
    var i := DeclaredIsItem(chain, args, plan, run, batch, d, n);
    ItemIsSound(chain, args, plan, run, i);
    assert run.view.info[n].number == n;
  }
}
