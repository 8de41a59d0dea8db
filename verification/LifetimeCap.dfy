/** When a sector is extended beyond its own lifetime cap (service.go, `extend`).

    The cap is applied to the target, before a bucket is chosen, so a bucket opened by another sector of
    the partition can lie above it. */
module LifetimeCap {
  import opened Wrappers
  import opened Chain
  import opened Targets
  import opened PledgeBudget
  import opened Buckets
  import opened Selection
  import opened Declarations
  import opened Packing
  import opened Planner

  lemma {:induction false} PrefixIsLegal(items: seq<Item>, tol: Epoch, picks: seq<Epoch>, i: nat)
    requires LegalRun(items, tol, picks) && i <= |items|
    ensures LegalRun(items[..i], tol, picks[..i])
  {
    var n := |items| - 1;
    if i == |items| {
      assert items[..i] == items && picks[..i] == picks;
    } else {
      assert items[..n][..i] == items[..i] && picks[..n][..i] == picks[..i];
      PrefixIsLegal(items[..n], tol, picks[..n], i);
    }
  }

  /** A run over the first items can always be continued. */
  lemma {:induction false} RunContinues(items: seq<Item>, tol: Epoch, some: seq<Epoch>) returns (picks: seq<Epoch>)
    requires |some| <= |items| && LegalRun(items[..|some|], tol, some)
    ensures LegalRun(items, tol, picks) && some <= picks
    decreases |items| - |some|
  {
    var m := |some|;
    if m == |items| {
      assert items[..m] == items;
      picks := some;
    } else {
      var it := items[m];
      var es := BucketsAt(Group(items[..m], tol, some), it.loc);
      var pick := it.target;
      if k :| Qualifies(es, it.target, tol, k) {
        pick := k;
      }
      GroupSnoc(items[..m], tol, some, it, pick);
      assert items[..m + 1] == items[..m] + [it];
      picks := RunContinues(items, tol, some + [pick]);
    }
  }

  /** Some bucket opened by the items before i lies within the tolerance of its target and above the cap. */
  ghost predicate BucketAbove(items: seq<Item>, tol: Epoch, i: nat, cap: Epoch)
    requires i < |items|
  {
    exists k :: k in KeysOf(TargetsAt(items[..i], items[i].loc), tol) &&
      WithinTolerance(tol, items[i].target, k) && k > cap
  }

  lemma AbovePickIsAbove(items: seq<Item>, tol: Epoch, picks: seq<Epoch>, i: nat, cap: Epoch)
    requires LegalRun(items, tol, picks) && i < |items| && items[i].target <= cap < picks[i]
    ensures BucketAbove(items, tol, i, cap)
  {
    PrefixIsLegal(items, tol, picks, i + 1);
    assert items[..i + 1][..i] == items[..i] && picks[..i + 1][..i] == picks[..i];
    assert Qualifies(BucketsAt(Group(items[..i], tol, picks[..i]), items[i].loc), items[i].target, tol, picks[i]);
    KeysAreDetermined(items[..i], tol, picks[..i], items[i].loc);
  }

  lemma AboveBucketIsPicked(items: seq<Item>, tol: Epoch, i: nat, cap: Epoch) returns (picks: seq<Epoch>)
    requires i < |items| && BucketAbove(items, tol, i, cap)
    ensures LegalRun(items, tol, picks) && picks[i] > cap
  {
    var it := items[i];
    var k :| k in KeysOf(TargetsAt(items[..i], it.loc), tol) && WithinTolerance(tol, it.target, k) && k > cap;
    assert items[..0] == [];
    var before := RunContinues(items[..i], tol, []);
    KeysAreDetermined(items[..i], tol, before, it.loc);
    GroupSnoc(items[..i], tol, before, it, k);
    assert items[..i + 1] == items[..i] + [it];
    picks := RunContinues(items, tol, before + [k]);
    assert picks[i] == (before + [k])[i];
  }

  /** An item whose target keeps a cap can be sent above it by some run of the map iterations, exactly if a
      bucket above the cap within the tolerance of its target is open when it is visited.  Which buckets
      are open then is a function of the order the items are visited in. */
  lemma SentAboveCapIff(items: seq<Item>, tol: Epoch, i: nat, cap: Epoch)
    requires i < |items| && items[i].target <= cap
    ensures (exists picks :: LegalRun(items, tol, picks) && picks[i] > cap) <==> BucketAbove(items, tol, i, cap)
  {
    if picks :| LegalRun(items, tol, picks) && picks[i] > cap {
      AbovePickIsAbove(items, tol, picks, i, cap);
    }
    if BucketAbove(items, tol, i, cap) {
      var picks := AboveBucketIsPicked(items, tol, i, cap);
    }
  }

  ghost predicate KeepsCaps(picks: seq<Epoch>, caps: seq<Epoch>) {
    |picks| == |caps| && forall i :: 0 <= i < |caps| ==> picks[i] <= caps[i]
  }

  ghost predicate EveryRunKeepsCaps(items: seq<Item>, tol: Epoch, caps: seq<Epoch>) {
    forall picks :: LegalRun(items, tol, picks) ==> KeepsCaps(picks, caps)
  }

  ghost predicate NoBucketAbove(items: seq<Item>, tol: Epoch, caps: seq<Epoch>)
    requires |caps| == |items|
  {
    forall i :: 0 <= i < |items| ==> !BucketAbove(items, tol, i, caps[i])
  }

  lemma CapsAreKeptIff(items: seq<Item>, tol: Epoch, caps: seq<Epoch>)
    requires |caps| == |items| && forall i :: 0 <= i < |items| ==> items[i].target <= caps[i]
    ensures EveryRunKeepsCaps(items, tol, caps) <==> NoBucketAbove(items, tol, caps)
  {
    if NoBucketAbove(items, tol, caps) {
      forall picks | LegalRun(items, tol, picks) ensures KeepsCaps(picks, caps) {
        forall i | 0 <= i < |caps| ensures picks[i] <= caps[i] {
          SentAboveCapIff(items, tol, i, caps[i]);
        }
      }
    }
    if EveryRunKeepsCaps(items, tol, caps) {
      forall i | 0 <= i < |items| ensures !BucketAbove(items, tol, i, caps[i]) {
        if BucketAbove(items, tol, i, caps[i]) {
          var picks := AboveBucketIsPicked(items, tol, i, caps[i]);
          assert false;
        }
      }
    }
  }

  function CapOf(policy: Policy, si: SectorInfo): Epoch {
    si.activation + policy.maxLifetime(si.sealProof)
  }

  function CapsOf(v: View, items: seq<Item>): seq<Epoch>
    requires forall i :: 0 <= i < |items| ==> items[i].number in v.info
  {
    seq(|items|, i requires 0 <= i < |items| => CapOf(v.policy, v.info[items[i].number]))
  }

  /** In a plan: no sector can be sent above its lifetime cap, however the maps are iterated, if and only if
      no sector meets a bucket above its cap within the tolerance of its target. */
  lemma CapIsKeptByEveryRunIff(chain: ChainState, args: Args, plan: Plan, run: Run)
    requires IsPlan(chain, args, plan, run)
    ensures var items := ItemsOf(args, run);
      && (forall i :: 0 <= i < |items| ==> items[i].number in run.view.info)
      && var caps := CapsOf(run.view, items);
        EveryRunKeepsCaps(items, args.terms.tolerance, caps) <==> NoBucketAbove(items, args.terms.tolerance, caps)
  {
    var items := ItemsOf(args, run);
    forall i | 0 <= i < |items|
      ensures items[i].number in run.view.info
      ensures items[i].target <= CapOf(run.view.policy, run.view.info[items[i].number])
    {
      WantedItems(run.view, Charged(run.cs, args.cap), i);
    }
    CapsAreKeptIff(items, args.terms.tolerance, CapsOf(run.view, items));
  }

  /** Without a positive tolerance the lifetime cap of every declared sector is kept. */
  lemma CapIsKeptWithoutTolerance(chain: ChainState, args: Args, plan: Plan, run: Run,
      batch: Batch, d: Declaration, n: SectorNumber)
    requires IsPlan(chain, args, plan, run) && args.terms.tolerance <= 0
    requires batch in plan.batches && d in batch && n in d.sectors
    ensures exists si :: si in chain.active && si.number == n && d.newExpiration <= CapOf(chain.policy, si)
  {
    PlanIsSound(chain, args, plan, run, batch, d, n);
  }

  /** The cap is exceeded: two sectors of one partition expire at 500 and are to be extended by 500 with a
      tolerance of 10.  The first may live until 5000 and opens a bucket at 1000; the second may live until
      995 and joins it. */
  lemma LifetimeCapIsExceeded()
    ensures var policy := Policy(0, 10000, proof => if proof == 0 then 5000 else 995);
      var terms := Terms(Some(500), None, 10);
      var long, short := SectorInfo(1, 0, 500, 0, 0), SectorInfo(2, 0, 500, 0, 1);
      var l := Location(0, 0);
      var items := [Item(1, l, Target(terms, policy, long)), Item(2, l, Target(terms, policy, short))];
      && Accept(Some(500), None, Some(10)) == Some(terms)
      && Worthwhile(terms, policy, long) && Worthwhile(terms, policy, short)
      && items[0].target == 1000 && items[1].target == CapOf(policy, short) == 995
      && LegalRun(items, 10, [1000, 1000]) && 2 in ListAt(Group(items, 10, [1000, 1000]), l, 1000)
  {
    var l := Location(0, 0);
    var a, b := Item(1, l, 1000), Item(2, l, 995);
    GroupSnoc([], 10, [], a, 1000);
    assert [] + [a] == [a] && [] + [1000] == [1000];
    GroupSnoc([a], 10, [1000], b, 1000);
    assert [a] + [b] == [a, b] && [1000] + [1000] == [1000, 1000];
    PlaceContents(Group([a], 10, [1000]), b, 10, 1000, l, 1000);
  }
}
