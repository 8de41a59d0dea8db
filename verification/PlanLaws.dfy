/** What a whole plan (service.go, `extend`) guarantees beyond soundness: completeness, the pledge cap,
    and the counts the ledger starts from. */
module PlanLaws {
  import opened Chain
  import opened Collections
  import opened Targets
  import opened PledgeBudget
  import opened Buckets
  import opened Selection
  import opened Declarations
  import opened Packing
  import opened PackingLaws
  import opened PackLoop
  import opened Bitfields
  import opened Planner

  // ---------------------------------------------------------------- completeness

  ghost predicate OneBucketPerKey(order: seq<Bucket>) {
    forall i, j :: 0 <= i < j < |order| ==> order[i].loc != order[j].loc || order[i].key != order[j].key
  }

  lemma EnumerationMeetsPlacesOnce(ext: Extensions, order: seq<Bucket>)
    requires Enumerates(ext, order)
    ensures OneBucketPerKey(order)
  {
    forall i, j | 0 <= i < j < |order| ensures order[i].loc != order[j].loc || order[i].key != order[j].key {
      assert order[i] in order && order[j] in order;
    }
  }

  lemma {:induction false} HoldersCount(order: seq<Bucket>, b: Bucket, n: SectorNumber)
    requires b in order && n in b.numbers
    ensures SumOver(order, Holds(b.loc, b.key, n)) >= 1
  {
    var k := |order| - 1;
    if order[k] != b {
      assert b in order[..k];
      HoldersCount(order[..k], b, n);
    }
  }

  lemma {:induction false} AtMostOneHolds(order: seq<Bucket>, l: Location, key: Epoch, n: SectorNumber)
    requires OneBucketPerKey(order)
    ensures SumOver(order, Holds(l, key, n)) <= 1
  {
    if order != [] {
      var k := |order| - 1;
      AtMostOneHolds(order[..k], l, key, n);
      if Holds(l, key, n)(order[k]) == 1 && SumOver(order[..k], Holds(l, key, n)) >= 1 {
        SomeBucketHolds(order[..k], l, key, n);
        assert false;
      }
    }
  }

  lemma HoldsIsMembership(ext: Extensions, order: seq<Bucket>, l: Location, key: Epoch, n: SectorNumber)
    requires Enumerates(ext, order)
    ensures SumOver(order, Holds(l, key, n)) == if n in ListAt(ext, l, key) then 1 else 0
  {
    EnumerationMeetsPlacesOnce(ext, order);
    AtMostOneHolds(order, l, key, n);
    if n in ListAt(ext, l, key) {
      var b := Bucket(l, key, ext[l][key]);
      assert b in order;
      HoldersCount(order, b, n);
    } else if SumOver(order, Holds(l, key, n)) >= 1 {
      SomeBucketHolds(order, l, key, n);
    }
  }

  /** An item is declared at most once, at its partition and the key it was sent to, and there exactly once if its
      claims allow it. */
  lemma ItemIsDeclared(chain: ChainState, args: Args, plan: Plan, run: Run, i: nat, l: Location, key: Epoch)
    requires IsPlan(chain, args, plan, run) && i < |ItemsOf(args, run)|
    requires args.terms.tolerance >= 0 || DistinctTargets(ItemsOf(args, run))
    ensures var it := ItemsOf(args, run)[i];
      var declared := TallyAll(plan.batches, Extending(l, key, it.number));
      && declared <= (if l == it.loc && key == run.picks[i] then 1 else 0)
      && (Extendable(chain.registry, it.number, key) ==>
           declared == if l == it.loc && key == run.picks[i] then 1 else 0)
  {
    var items, tol := ItemsOf(args, run), args.terms.tolerance;
    var it, ext := items[i], Group(items, tol, run.picks);
    NumbersAreDistinct(chain, args, plan, run);
    NoExtendableSectorIsLost(LimitsOf(chain, args), chain.registry, run.order, l, key, it.number);
    HoldsIsMembership(ext, run.order, l, key, it.number);
    ItemSurvives(items, tol, run.picks, i);
    BucketsAreDisjoint(items, tol, run.picks, it.loc, run.picks[i], l, key, it.number);
  }

  /** The candidate is charged to the budget, and every bound on its new expiration lies beyond its old one by
      more than the tolerance. */
  ghost predicate Deserves(chain: ChainState, args: Args, run: Run, c: Candidate) {
    && c in Charged(run.cs, args.cap)
    && c.number in run.view.info && Beyond(args.terms, chain.policy, run.view.info[c.number])
  }

  lemma {:induction false} WantedHas(v: View, charged: seq<Candidate>, c: Candidate) returns (i: nat)
    requires Known(v, charged) && c in charged && c.number in v.info && Extends(v, c.number)
    ensures i < |Wanted(v, charged)| && Wanted(v, charged)[i] == ItemOf(v, c.number)
  {
    var n := |charged| - 1;
    if c == charged[n] {
      i := |Wanted(v, charged[..n])|;
    } else {
      assert c in charged[..n];
      i := WantedHas(v, charged[..n], c);
    }
  }

  /** Exactly the deserving candidates are scheduled, at their own partition and target. */
  lemma DeservingIsScheduled(chain: ChainState, args: Args, plan: Plan, run: Run, c: Candidate) returns (i: nat)
    requires IsPlan(chain, args, plan, run) && Deserves(chain, args, run, c)
    ensures c.number in chain.locations && i < |ItemsOf(args, run)|
    ensures ItemsOf(args, run)[i] ==
      Item(c.number, chain.locations[c.number], Target(args.terms, chain.policy, run.view.info[c.number]))
  {
    var charged, si := Charged(run.cs, args.cap), run.view.info[c.number];
    TargetIsLatestAllowed(args.terms, chain.policy, si, 0);
    i := WantedHas(run.view, charged, c);
    var j :| 0 <= j < |charged| && charged[j] == c;
    assert charged[j].number in run.view.locations;
  }

  lemma ScheduledDeserves(chain: ChainState, args: Args, plan: Plan, run: Run, i: nat) returns (c: Candidate)
    requires IsPlan(chain, args, plan, run) && i < |ItemsOf(args, run)|
    ensures Deserves(chain, args, run, c) && c.number == ItemsOf(args, run)[i].number
  {
    var charged := Charged(run.cs, args.cap);
    WantedItems(run.view, charged, i);
    var j :| 0 <= j < |charged| && charged[j].number == ItemsOf(args, run)[i].number;
    c := charged[j];
    TargetIsLatestAllowed(args.terms, chain.policy, run.view.info[c.number], 0);
  }

  /** The candidates are the active sectors whose expiration lies in the window, each once, and the plan's total is
      their number. */
  lemma CandidatesAreTheWindow(chain: ChainState, args: Args, plan: Plan, run: Run)
    requires IsPlan(chain, args, plan, run)
    ensures forall si :: si in chain.active && args.from <= si.expiration <= args.to ==>
      Candidate(si.number, si.pledge) in run.cs
    ensures forall c :: c in run.cs ==> exists si ::
      si in chain.active && args.from <= si.expiration <= args.to && c == Candidate(si.number, si.pledge)
    ensures plan.total == |Elements(run.cs)|
  {
    forall c | c in run.cs
      ensures exists si ::
        si in chain.active && args.from <= si.expiration <= args.to && c == Candidate(si.number, si.pledge)
    {
      var si := run.view.info[c.number];
      assert c == Candidate(si.number, si.pledge);
    }
    ElementCount(run.cs);
  }

  /** Sector n is declared for key at partition l, once if its claims allow it, and nowhere else. */
  ghost predicate DeclaredOnlyAt(plan: Plan, reg: Registry, n: SectorNumber, l: Location, key: Epoch) {
    && (forall l': Location, k: Epoch :: (l', k) != (l, key) ==> TallyAll(plan.batches, Extending(l', k, n)) == 0)
    && TallyAll(plan.batches, Extending(l, key, n)) <= 1
    && (Extendable(reg, n, key) ==> TallyAll(plan.batches, Extending(l, key, n)) == 1)
  }

  /** Completeness: every charged candidate whose bounds all lie beyond its expiration by more than the tolerance
      was put into one bucket of its own partition, within the tolerance of its target.  If its claims allow
      it, exactly one declaration in exactly one message extends it, at that partition and key; a sector held
      back by its claims is declared there at most once, and nothing is declared anywhere else.  With a
      negative tolerance this needs distinct targets per partition. */
  lemma PlanIsComplete(chain: ChainState, args: Args, plan: Plan, run: Run, c: Candidate) returns (key: Epoch)
    requires IsPlan(chain, args, plan, run) && Deserves(chain, args, run, c)
    requires args.terms.tolerance >= 0 || DistinctTargets(ItemsOf(args, run))
    ensures c.number in chain.locations
    ensures c.number in ListAt(BucketsOf(args, run), chain.locations[c.number], key)
    ensures Sound(chain, args, run.view.info[c.number], chain.locations[c.number], key)
    ensures DeclaredOnlyAt(plan, chain.registry, c.number, chain.locations[c.number], key)
  {
    var i := DeservingIsScheduled(chain, args, plan, run, c);
    var l := chain.locations[c.number];
    key := run.picks[i];
    ItemIsSound(chain, args, plan, run, i);
    ItemSurvives(ItemsOf(args, run), args.terms.tolerance, run.picks, i);
    ItemIsDeclared(chain, args, plan, run, i, l, key);
    forall l': Location, k: Epoch | (l', k) != (l, key)
      ensures TallyAll(plan.batches, Extending(l', k, c.number)) == 0
    {
      ItemIsDeclared(chain, args, plan, run, i, l', k);
    }
  }

  // ---------------------------------------------------------------- limits and claim entries

  /** The limits of the messages in the request's own numbers: at most so many extendable sectors as it asks for,
      if it asks for a limit, and never more than the network admits. */
  lemma PlanKeepsLimits(chain: ChainState, args: Args, plan: Plan, run: Run)
    requires IsPlan(chain, args, plan, run)
    ensures forall batch: Batch :: batch in plan.batches ==>
      && 1 <= |batch| <= chain.declMax
      && Tally(batch, WeightOf(chain.registry)) <= chain.sectorsMax
      && (args.maxSectors != 0 ==> Tally(batch, WeightOf(chain.registry)) <= args.maxSectors)
      && forall d :: d in batch ==> d.sectors != {}
  {
    NumbersAreDistinct(chain, args, plan, run);
    MessagesKeepLimits(LimitsOf(chain, args), chain.registry, run.order);
  }

  /** The bound on the number of messages in the same numbers. */
  lemma PlanMessageCount(chain: ChainState, args: Args, plan: Plan, run: Run)
    requires IsPlan(chain, args, plan, run)
    ensures var lim := Limits(if args.maxSectors != 0 then args.maxSectors else chain.sectorsMax, chain.declMax);
      && Usable(lim)
      && |plan.batches| <= SumOver(run.order, ChunksPer(lim))
           + 2 * SumOver(run.order, SharedLoad(lim, chain.registry)) / (lim.addrSectors + 1)
           + SumOver(run.order, SharedDeclarations()) / chain.declMax + 1
  {
    NumbersAreDistinct(chain, args, plan, run);
    MessageCountBound(LimitsOf(chain, args), chain.registry, run.order);
  }

  /** Every declaration of a plan carries the claim entries of its kept sectors and no others. */
  lemma PlanClaimsOk(chain: ChainState, args: Args, plan: Plan, run: Run)
    requires IsPlan(chain, args, plan, run)
    ensures AllClaimsOk(chain.registry, plan.batches)
  {
    NumbersAreDistinct(chain, args, plan, run);
    PackedClaimsOk(LimitsOf(chain, args), chain.registry, run.order);
  }

  // ---------------------------------------------------------------- the counts

  function UnionOf(order: seq<Bucket>): set<SectorNumber> {
    if order == [] then {} else UnionOf(order[..|order| - 1]) + Elements(order[|order| - 1].numbers)
  }

  lemma {:induction false} UnionMembers(order: seq<Bucket>, n: SectorNumber)
    requires n in UnionOf(order)
    ensures exists i :: 0 <= i < |order| && n in order[i].numbers
  {
    var k := |order| - 1;
    if n in UnionOf(order[..k]) {
      UnionMembers(order[..k], n);
      var i :| 0 <= i < k && n in order[..k][i].numbers;
      assert n in order[i].numbers;
    }
  }

  lemma {:induction false} SizesAddUp(reg: Registry, order: seq<Bucket>)
    requires Distinct(order)
    requires forall i, j, n :: 0 <= i < j < |order| && n in order[i].numbers ==> n !in order[j].numbers
    ensures SumOver(order, Whole(reg, SizeOf())) == |UnionOf(order)|
  {
    if order != [] {
      var k := |order| - 1;
      var b := order[k];
      assert b in order;
      SizesAddUp(reg, order[..k]);
      forall n | n in UnionOf(order[..k]) ensures n !in b.numbers {
        UnionMembers(order[..k], n);
      }
      assert UnionOf(order[..k]) !! Elements(b.numbers);
      assert Whole(reg, SizeOf())(b) == SizeOf()(DeclarationFor(reg, b.loc, b.key, b.numbers)) == |Elements(b.numbers)|;
    }
  }

  function NumbersOf(cs: seq<Candidate>): set<SectorNumber> {
    if cs == [] then {} else NumbersOf(cs[..|cs| - 1]) + {cs[|cs| - 1].number}
  }

  lemma {:induction false} NumbersOfMembers(cs: seq<Candidate>, c: Candidate)
    requires c in cs
    ensures c.number in NumbersOf(cs) && |NumbersOf(cs)| <= |cs|
  {
    var k := |cs| - 1;
    AtMostOneEach(cs);
    if c != cs[k] {
      assert c in cs[..k];
      NumbersOfMembers(cs[..k], c);
    }
  }

  lemma {:induction false} AtMostOneEach(cs: seq<Candidate>)
    ensures |NumbersOf(cs)| <= |cs|
  {
    if cs != [] {
      AtMostOneEach(cs[..|cs| - 1]);
    }
  }

  lemma BucketedIsCandidate(chain: ChainState, args: Args, plan: Plan, run: Run, n: SectorNumber)
    requires IsPlan(chain, args, plan, run) && n in UnionOf(run.order)
    ensures n in NumbersOf(run.cs)
  {
    var items := ItemsOf(args, run);
    UnionMembers(run.order, n);
    var i :| 0 <= i < |run.order| && n in run.order[i].numbers;
    var b := run.order[i];
    assert b in run.order;
    var j := BucketedIsItem(items, args.terms.tolerance, run.picks, b, n);
    WantedItems(run.view, Charged(run.cs, args.cap), j);
    NumbersOfMembers(run.cs, Candidate(n, run.view.info[n].pledge));
  }

  lemma BucketsShareNothing(chain: ChainState, args: Args, plan: Plan, run: Run, i: nat, j: nat, n: SectorNumber)
    requires IsPlan(chain, args, plan, run)
    requires i < j < |run.order| && n in run.order[i].numbers
    ensures n !in run.order[j].numbers
  {
    var a, b := run.order[i], run.order[j];
    assert a in run.order && b in run.order;
    ItemsAreDistinct(chain, args, plan, run);
    BucketsAreDisjoint(ItemsOf(args, run), args.terms.tolerance, run.picks, a.loc, a.key, b.loc, b.key, n);
  }

  /** The messages declare no more sectors than there were candidates, so what is published later can
      never exceed the total. */
  lemma PlanDeclaresAtMostTotal(chain: ChainState, args: Args, plan: Plan, run: Run)
    requires IsPlan(chain, args, plan, run)
    ensures TallyAll(plan.batches, SizeOf()) <= plan.total
  {
    var order, lim, reg := run.order, LimitsOf(chain, args), chain.registry;
    var st := AddAll(lim, reg, order).value;
    NumbersAreDistinct(chain, args, plan, run);
    SizeIsAdditive(reg);
    PackingConserves(lim, reg, order, SizeOf());
    TallyAllSnoc(st.sent, st.open, SizeOf());
    forall i, j, n | 0 <= i < j < |order| && n in order[i].numbers ensures n !in order[j].numbers {
      BucketsShareNothing(chain, args, plan, run, i, j, n);
    }
    SizesAddUp(reg, order);
    forall n | n in UnionOf(order) ensures n in NumbersOf(run.cs) {
      BucketedIsCandidate(chain, args, plan, run, n);
    }
    AtMostOneEach(run.cs);
    SubsetIsSmaller(UnionOf(order), NumbersOf(run.cs));
  }

  /** If no bucketed sector is held back by its claims, the sector limit bounds the whole bitfields of every
      message, not only the extendable sectors. */
  lemma LimitBoundsBitfields(chain: ChainState, args: Args, plan: Plan, run: Run, batch: Batch)
    requires IsPlan(chain, args, plan, run) && batch in plan.batches
    requires forall b, n :: b in run.order && n in b.numbers ==>
      !StandingOf(chain.registry, n, b.key).Blocked? && !StandingOf(chain.registry, n, b.key).Bare?
    ensures Tally(batch, SizeOf()) <= if args.maxSectors != 0 then args.maxSectors else chain.sectorsMax
  {
    var lim, reg := LimitsOf(chain, args), chain.registry;
    NumbersAreDistinct(chain, args, plan, run);
    MessagesKeepLimits(lim, reg, run.order);
    PackingFailsIff(lim, reg, run.order);
    forall d, n | d in batch && n in d.sectors ensures Extendable(reg, n, d.newExpiration) {
      var b := DeclaredIsBucketed(chain, args, plan, run, batch, d, n);
      assert !HasUnknown(reg, b.numbers, b.key);
    }
    LoadIsSizeIff(reg, batch);
  }

  // ---------------------------------------------------------------- the picks change no count

  function PlacesOf(order: seq<Bucket>): set<(Location, Epoch)> {
    set b | b in order :: (b.loc, b.key)
  }

  lemma {:induction false} AsManyPlacesAsBuckets(order: seq<Bucket>)
    requires OneBucketPerKey(order)
    requires forall b :: b in order ==> b.numbers != []
    ensures |PlacesOf(order)| == |order| == SumOver(order, SharedDeclarations())
  {
    if order != [] {
      var k := |order| - 1;
      var front, b := order[..k], order[k];
      assert order == front + [b];
      AsManyPlacesAsBuckets(front);
      assert PlacesOf(order) == PlacesOf(front) + {(b.loc, b.key)};
    } else {
      assert PlacesOf(order) == {};
    }
  }

  lemma PlacesAreKeys(items: seq<Item>, tol: Epoch, picks: seq<Epoch>, order: seq<Bucket>, l: Location, k: Epoch)
    requires LegalRun(items, tol, picks) && Enumerates(Group(items, tol, picks), order)
    ensures (l, k) in PlacesOf(order) <==> k in KeysOf(TargetsAt(items, l), tol)
    ensures forall b :: b in order ==> b.numbers != []
  {
    var ext := Group(items, tol, picks);
    KeysAreDetermined(items, tol, picks, l);
    if k in BucketsAt(ext, l) {
      assert Bucket(l, k, ext[l][k]) in order;
    }
    forall b | b in order ensures b.numbers != [] {
      BucketContents(items, tol, picks, b.loc, b.key);
    }
  }

  /** Whichever qualifying key every map iteration stopped at, there are as many buckets, and as many
      declarations go through the shared message. */
  lemma DeclarationCountIsDetermined(items: seq<Item>, tol: Epoch,
      picks: seq<Epoch>, a: seq<Bucket>, others: seq<Epoch>, b: seq<Bucket>)
    requires LegalRun(items, tol, picks) && Enumerates(Group(items, tol, picks), a)
    requires LegalRun(items, tol, others) && Enumerates(Group(items, tol, others), b)
    ensures PlacesOf(a) == PlacesOf(b) && |a| == |b|
    ensures SumOver(a, SharedDeclarations()) == SumOver(b, SharedDeclarations())
  {
    forall l, k ensures (l, k) in PlacesOf(a) <==> (l, k) in PlacesOf(b) {
      PlacesAreKeys(items, tol, picks, a, l, k);
      PlacesAreKeys(items, tol, others, b, l, k);
    }
    PlacesAreKeys(items, tol, picks, a, Location(0, 0), 0);
    PlacesAreKeys(items, tol, others, b, Location(0, 0), 0);
    EnumerationMeetsPlacesOnce(Group(items, tol, picks), a);
    EnumerationMeetsPlacesOnce(Group(items, tol, others), b);
    AsManyPlacesAsBuckets(a);
    AsManyPlacesAsBuckets(b);
  }

  lemma PlanBucketsAreNotEmpty(chain: ChainState, args: Args, plan: Plan, run: Run)
    requires IsPlan(chain, args, plan, run)
    ensures NoneEmpty(run.order)
  {
    PlacesAreKeys(ItemsOf(args, run), args.terms.tolerance, run.picks, run.order, Location(0, 0), 0);
  }

  /** When the map iterations can make some message of a plan declare more sectors than the limit: never unless
      some of its buckets fit one message by load and number but not by size, and the buckets hold anything
      extendable or are too many for one message; and in that case they can, if all are of one partition. */
  lemma PlanCanExceedIff(chain: ChainState, args: Args, plan: Plan, run: Run)
    requires IsPlan(chain, args, plan, run)
    ensures var lim, reg, buckets := LimitsOf(chain, args), chain.registry, BucketsOf(args, run);
      && ((exists other :: Enumerates(buckets, other) && Exceeds(lim, reg, other)) ==> CanExceed(lim, reg, run.order))
      && (OnePartition(run.order) && CanExceed(lim, reg, run.order) ==>
           exists other :: Enumerates(buckets, other) && Exceeds(lim, reg, other))
  {
    NumbersAreDistinct(chain, args, plan, run);
    PlanBucketsAreNotEmpty(chain, args, plan, run);
    SomeIterationExceedsIff(LimitsOf(chain, args), chain.registry, BucketsOf(args, run), run.order);
  }

  /** A plan has a message that extends nothing, if and only if a full chunk holds only sectors held back or the
      shared message was closed for its number of declarations while it extended nothing. */
  lemma PlanSendsIdleIff(chain: ChainState, args: Args, plan: Plan, run: Run)
    requires IsPlan(chain, args, plan, run)
    ensures SendsIdle(chain.registry, plan.batches) <==> SomeIdleCause(LimitsOf(chain, args), chain.registry, run.order)
  {
    NumbersAreDistinct(chain, args, plan, run);
    PlanBucketsAreNotEmpty(chain, args, plan, run);
    IdleMessageIsSentIff(LimitsOf(chain, args), chain.registry, run.order);
  }

  // ---------------------------------------------------------------- the pledge cap

  function PledgeOf(v: View, items: seq<Item>): nat
    requires forall i :: 0 <= i < |items| ==> items[i].number in v.info
  {
    if items == [] then 0 else PledgeOf(v, items[..|items| - 1]) + v.info[items[|items| - 1].number].pledge
  }

  lemma {:induction false} WantedPledge(v: View, charged: seq<Candidate>)
    requires Known(v, charged)
    requires forall i :: 0 <= i < |charged| ==> charged[i].pledge == v.info[charged[i].number].pledge
    ensures forall i :: 0 <= i < |Wanted(v, charged)| ==> Wanted(v, charged)[i].number in v.info
    ensures PledgeOf(v, Wanted(v, charged)) <= SumPledge(charged)
  {
    if charged != [] {
      var n := |charged| - 1;
      var before := Wanted(v, charged[..n]);
      WantedPledge(v, charged[..n]);
      assert before + [] == before;
      assert (before + [ItemOf(v, charged[n].number)])[..|before|] == before;
    }
  }

  /** The sectors actually scheduled pledge no more than a positive cap, although sectors charged and
      then skipped count against it too. */
  lemma ScheduledPledgeWithinCap(chain: ChainState, args: Args, plan: Plan, run: Run)
    requires IsPlan(chain, args, plan, run) && args.cap > 0
    ensures forall i :: 0 <= i < |ItemsOf(args, run)| ==> ItemsOf(args, run)[i].number in run.view.info
    ensures PledgeOf(run.view, ItemsOf(args, run)) <= args.cap
  {
    var charged := Charged(run.cs, args.cap);
    ChargedIsPrefix(run.cs, args.cap);
    forall i | 0 <= i < |charged| ensures charged[i].pledge == run.view.info[charged[i].number].pledge {
      assert charged[i] == run.cs[i] && run.cs[i] in run.cs;
    }
    WantedPledge(run.view, charged);
    BudgetIsKept(run.cs, args.cap);
  }

  /** The candidates worth an extension. */
  function Worth(v: View): Candidate -> bool {
    (c: Candidate) => c.number in v.info && Beyond(v.terms, v.policy, v.info[c.number])
  }

  lemma WorthIsExtended(v: View, c: Candidate)
    requires v.terms.extension.Some? || v.terms.newExpiration.Some?
    requires c.number in v.info
    ensures Worth(v)(c) <==> Extends(v, c.number)
  {
    TargetIsLatestAllowed(v.terms, v.policy, v.info[c.number], 0);
  }

  lemma {:induction false} WantedIsFit(v: View, charged: seq<Candidate>)
    requires v.terms.extension.Some? || v.terms.newExpiration.Some?
    requires Known(v, charged)
    requires forall i :: 0 <= i < |charged| ==> charged[i].pledge == v.info[charged[i].number].pledge
    ensures |Wanted(v, charged)| == |Fit(charged, Worth(v))|
    ensures forall i :: 0 <= i < |Wanted(v, charged)| ==> Wanted(v, charged)[i].number in v.info
    ensures PledgeOf(v, Wanted(v, charged)) == SumPledge(Fit(charged, Worth(v)))
  {
    if charged != [] {
      var n := |charged| - 1;
      var c := charged[n];
      var before, fit := Wanted(v, charged[..n]), Fit(charged[..n], Worth(v));
      WantedIsFit(v, charged[..n]);
      WorthIsExtended(v, c);
      assert before + [] == before && fit + [] == fit;
      assert (before + [ItemOf(v, c.number)])[..|before|] == before;
      SumPledgeSnoc(fit, c);
    }
  }

  /** The plan schedules as many sectors as the cap allows, if and only if none left out and worth extending
      fits into the room that charged but skipped sectors take up. */
  lemma PlanSchedulesMostIff(chain: ChainState, args: Args, plan: Plan, run: Run)
    requires IsPlan(chain, args, plan, run)
    ensures forall i :: 0 <= i < |ItemsOf(args, run)| ==> ItemsOf(args, run)[i].number in run.view.info
    ensures AtMostAffordable(Fit(run.cs, Worth(run.view)), args.cap, |ItemsOf(args, run)|) <==>
      forall i :: |Charged(run.cs, args.cap)| <= i < |run.cs| && Worth(run.view)(run.cs[i]) ==>
        Refused(PledgeOf(run.view, ItemsOf(args, run)), run.cs[i].pledge, args.cap)
  {
    var charged := Charged(run.cs, args.cap);
    ChargedIsPrefix(run.cs, args.cap);
    forall i | 0 <= i < |charged| ensures charged[i].pledge == run.view.info[charged[i].number].pledge {
      assert charged[i] == run.cs[i] && run.cs[i] in run.cs;
    }
    WantedIsFit(run.view, charged);
    ScheduledIsMostIff(run.cs, Worth(run.view), args.cap);
  }
}
