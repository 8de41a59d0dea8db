/** The greedy pledge budget of `extend` (service.go): sectors are visited in ascending order of
    initial pledge and charged while the running total stays within the cap. */
module PledgeBudget {
  import opened Chain

  datatype Candidate = Candidate(number: SectorNumber, pledge: nat)

  /** A zero cap means no cap. */
  predicate Refused(total: nat, pledge: nat, cap: int) {
    cap != 0 && total + pledge > cap
  }

  function SumPledge(cs: seq<Candidate>): nat {
    if cs == [] then 0 else SumPledge(cs[..|cs| - 1]) + cs[|cs| - 1].pledge
  }

  /** The candidates charged to the budget, in the order visited. */
  function Charged(cs: seq<Candidate>, cap: int): seq<Candidate> {
    if cs == [] then []
    else
      var before := Charged(cs[..|cs| - 1], cap);
      if Refused(SumPledge(before), cs[|cs| - 1].pledge, cap) then before
      else before + [cs[|cs| - 1]]
  }

  ghost predicate ByPledge(cs: seq<Candidate>) {
    forall i, j :: 0 <= i < j < |cs| ==> cs[i].pledge <= cs[j].pledge
  }

  lemma ChargedSnoc(cs: seq<Candidate>, i: nat, cap: int)
    requires i < |cs|
    ensures var before := Charged(cs[..i], cap);
      Charged(cs[..i + 1], cap) ==
        if Refused(SumPledge(before), cs[i].pledge, cap) then before else before + [cs[i]]
  {
    assert cs[..i + 1][..i] == cs[..i];
  }

  lemma SumPledgeSnoc(cs: seq<Candidate>, c: Candidate)
    ensures SumPledge(cs + [c]) == SumPledge(cs) + c.pledge
  {
    assert (cs + [c])[..|cs|] == cs;
  }

  /** The first k candidates are charged and the next one is refused. */
  ghost predicate ChargesFirst(cs: seq<Candidate>, cap: int, k: nat) {
    && k <= |cs|
    && Charged(cs, cap) == cs[..k]
    && (k < |cs| ==> Refused(SumPledge(cs[..k]), cs[k].pledge, cap))
  }

  lemma {:induction false} ChargedStopsOnce(cs: seq<Candidate>, cap: int)
    requires ByPledge(cs)
    ensures ChargesFirst(cs, cap, |Charged(cs, cap)|)
  {
    if cs != [] {
      var n := |cs| - 1;
      var front, k := cs[..n], |Charged(cs[..n], cap)|;
      ChargedStopsOnce(front, cap);
      assert front[..k] == cs[..k];
      if k < n {
        assert cs[k].pledge <= cs[n].pledge;
      } else {
        assert cs[..k] == front && cs[..k] + [cs[n]] == cs;
      }
    }
  }

  /** The sectors charged are a prefix of the ascending order: after the first refusal every later
      sector is refused too. */
  lemma ChargedIsPrefix(cs: seq<Candidate>, cap: int)
    requires ByPledge(cs)
    ensures |Charged(cs, cap)| <= |cs| && Charged(cs, cap) == cs[..|Charged(cs, cap)|]
    ensures forall i :: |Charged(cs, cap)| <= i < |cs| ==>
      Refused(SumPledge(Charged(cs, cap)), cs[i].pledge, cap)
  {
    ChargedStopsOnce(cs, cap);
    var charged := Charged(cs, cap);
    var k, total := |charged|, SumPledge(charged);
    forall i | k <= i < |cs| ensures Refused(total, cs[i].pledge, cap) {
      assert Refused(total, cs[k].pledge, cap) && cs[k].pledge <= cs[i].pledge;
    }
  }

  /** The budget is kept: a positive cap is never exceeded, no cap refuses nobody, and a negative
      cap refuses everybody. */
  lemma {:induction false} BudgetIsKept(cs: seq<Candidate>, cap: int)
    ensures cap > 0 ==> SumPledge(Charged(cs, cap)) <= cap
    ensures cap == 0 ==> Charged(cs, cap) == cs
    ensures cap < 0 ==> Charged(cs, cap) == []
  {
    if cs != [] {
      BudgetIsKept(cs[..|cs| - 1], cap);
      SumPledgeSnoc(Charged(cs[..|cs| - 1], cap), cs[|cs| - 1]);
    }
  }

  /** The pledges of the candidates at the given positions. */
  function SumPicked(cs: seq<Candidate>, picked: set<nat>): nat {
    if cs == [] then 0
    else
      var n := |cs| - 1;
      SumPicked(cs[..n], picked - {n}) + if n in picked then cs[n].pledge else 0
  }

  ghost predicate Positions(cs: seq<Candidate>, picked: set<nat>) {
    forall i :: i in picked ==> i < |cs|
  }

  /** Any m candidates pledge at least as much as the first m of the ascending order. */
  lemma {:induction false} PrefixIsCheapest(cs: seq<Candidate>, picked: set<nat>)
    requires ByPledge(cs) && Positions(cs, picked)
    ensures |picked| <= |cs| && SumPledge(cs[..|picked|]) <= SumPicked(cs, picked)
  {
    if cs == [] {
      assert picked == {};
    } else {
      var n := |cs| - 1;
      var front, rest := cs[..n], picked - {n};
      PrefixIsCheapest(front, rest);
      var m := |rest|;
      assert front[..m] == cs[..m];
      if n in picked {
        assert |picked| == m + 1;
        PrefixGrows(cs, m);
        assert cs[m].pledge <= cs[n].pledge;
      } else {
        assert rest == picked;
      }
    }
  }

  lemma PrefixGrows(cs: seq<Candidate>, m: nat)
    requires m < |cs|
    ensures SumPledge(cs[..m + 1]) == SumPledge(cs[..m]) + cs[m].pledge
  {
    assert cs[..m + 1][..m] == cs[..m];
  }

  lemma {:induction false} LongerPrefixPledgesMore(cs: seq<Candidate>, k: nat, m: nat)
    requires k <= m <= |cs|
    ensures SumPledge(cs[..k]) <= SumPledge(cs[..m])
  {
    if k < m {
      LongerPrefixPledgesMore(cs, k, m - 1);
      PrefixGrows(cs, m - 1);
    }
  }

  predicate Affordable(sum: nat, cap: int) {
    cap != 0 ==> sum <= cap
  }

  /** Where the next candidate of an ascending order is refused, no affordable choice has more members. */
  lemma NextRefusedMeansMost(cs: seq<Candidate>, cap: int, k: nat, picked: set<nat>)
    requires ByPledge(cs) && Positions(cs, picked) && k <= |cs|
    requires k < |cs| ==> Refused(SumPledge(cs[..k]), cs[k].pledge, cap)
    requires Affordable(SumPicked(cs, picked), cap)
    ensures |picked| <= k
  {
    var m := |picked|;
    PrefixIsCheapest(cs, picked);
    if k < m {
      PrefixGrows(cs, k);
      LongerPrefixPledgesMore(cs, k + 1, m);
    }
  }

  /** The greedy choice is optimal: no choice of candidates whose pledges stay within the cap has
      more sectors. */
  lemma GreedyIsOptimal(cs: seq<Candidate>, cap: int, picked: set<nat>)
    requires ByPledge(cs) && Positions(cs, picked)
    requires Affordable(SumPicked(cs, picked), cap)
    ensures |picked| <= |Charged(cs, cap)|
  {
    ChargedStopsOnce(cs, cap);
    NextRefusedMeansMost(cs, cap, |Charged(cs, cap)|, picked);
  }

  // ---------------------------------------------------------------- charged, then skipped

  /** The candidates worth extending, in order.  The budget is charged before this is known. */
  function Fit(cs: seq<Candidate>, worth: Candidate -> bool): seq<Candidate> {
    if cs == [] then []
    else
      var n := |cs| - 1;
      Fit(cs[..n], worth) + if worth(cs[n]) then [cs[n]] else []
  }

  lemma FitSnoc(cs: seq<Candidate>, c: Candidate, worth: Candidate -> bool)
    ensures Fit(cs + [c], worth) == Fit(cs, worth) + if worth(c) then [c] else []
  {
    assert (cs + [c])[..|cs|] == cs;
  }

  lemma {:induction false} FitConcat(a: seq<Candidate>, b: seq<Candidate>, worth: Candidate -> bool)
    ensures Fit(a + b, worth) == Fit(a, worth) + Fit(b, worth)
  {
    if b == [] {
      assert a + b == a;
    } else {
      var k := |b| - 1;
      FitConcat(a, b[..k], worth);
      assert (a + b)[..|a + b| - 1] == a + b[..k];
      assert (a + b)[|a + b| - 1] == b[k];
    }
  }

  lemma {:induction false} FitMembers(cs: seq<Candidate>, worth: Candidate -> bool, c: Candidate)
    ensures c in Fit(cs, worth) <==> c in cs && worth(c)
  {
    if cs != [] {
      var n := |cs| - 1;
      FitMembers(cs[..n], worth, c);
      assert cs == cs[..n] + [cs[n]];
    }
  }

  lemma {:induction false} FitByPledge(cs: seq<Candidate>, worth: Candidate -> bool)
    requires ByPledge(cs)
    ensures ByPledge(Fit(cs, worth))
  {
    if cs != [] {
      var n := |cs| - 1;
      var before := Fit(cs[..n], worth);
      FitByPledge(cs[..n], worth);
      forall i | 0 <= i < |before| ensures before[i].pledge <= cs[n].pledge {
        FitMembers(cs[..n], worth, before[i]);
      }
    }
  }

  ghost predicate AreFirst(positions: set<nat>, m: nat) {
    forall i: nat :: i in positions <==> i < m
  }

  function FirstPositions(m: nat): (first: set<nat>)
    ensures AreFirst(first, m) && |first| == m
  {
    if m == 0 then {} else FirstPositions(m - 1) + {m - 1}
  }

  lemma {:induction false} PickFirst(cs: seq<Candidate>, m: nat, first: set<nat>)
    requires m <= |cs| && AreFirst(first, m)
    ensures SumPicked(cs, first) == SumPledge(cs[..m])
  {
    if cs != [] {
      var n := |cs| - 1;
      var front, rest := cs[..n], first - {n};
      if m <= n {
        PickFirst(front, m, rest);
        assert front[..m] == cs[..m];
      } else {
        PickFirst(front, n, rest);
        assert front[..n] == front && cs[..m] == cs;
      }
    }
  }

  /** No affordable choice of candidates worth extending has more than m members. */
  ghost predicate AtMostAffordable(cs: seq<Candidate>, cap: int, m: nat) {
    forall picked: set<nat> :: Positions(cs, picked) && Affordable(SumPicked(cs, picked), cap) ==> |picked| <= m
  }

  /** Every later candidate worth extending would exceed what the cap leaves to those scheduled. */
  ghost predicate NoRoomLeft(cs: seq<Candidate>, worth: Candidate -> bool, cap: int) {
    forall i :: |Charged(cs, cap)| <= i < |cs| && worth(cs[i]) ==>
      Refused(SumPledge(Fit(Charged(cs, cap), worth)), cs[i].pledge, cap)
  }

  lemma FitOfTwoParts(cs: seq<Candidate>, worth: Candidate -> bool, k: nat)
    requires k <= |cs|
    ensures var fit, m := Fit(cs, worth), |Fit(cs[..k], worth)|;
      m <= |fit| && fit[..m] == Fit(cs[..k], worth) && fit[m..] == Fit(cs[k..], worth)
  {
    assert cs == cs[..k] + cs[k..];
    FitConcat(cs[..k], cs[k..], worth);
  }

  /** The candidates worth extending: those charged, then the others in order. */
  lemma FitSplits(cs: seq<Candidate>, worth: Candidate -> bool, cap: int)
    requires ByPledge(cs)
    ensures var charged, fit := Charged(cs, cap), Fit(cs, worth);
      var m := |Fit(charged, worth)|;
      && |charged| <= |cs| && m <= |fit| && fit[..m] == Fit(charged, worth)
      && (forall i :: |charged| <= i < |cs| && worth(cs[i]) ==> cs[i] in fit[m..])
      && (m < |fit| ==> exists i :: |charged| <= i < |cs| && worth(cs[i]) && cs[i] == fit[m])
  {
    ChargedIsPrefix(cs, cap);
    var k := |Charged(cs, cap)|;
    var back := cs[k..];
    var later := Fit(back, worth);
    FitOfTwoParts(cs, worth, k);
    forall i | k <= i < |cs| && worth(cs[i]) ensures cs[i] in later {
      assert back[i - k] == cs[i];
      FitMembers(back, worth, cs[i]);
    }
    if later != [] {
      FitMembers(back, worth, later[0]);
      var i :| 0 <= i < |back| && back[i] == later[0];
      assert cs[k + i] == later[0];
    }
  }

  lemma MostMeansNextRefused(cs: seq<Candidate>, cap: int, m: nat, j: nat)
    requires ByPledge(cs) && AtMostAffordable(cs, cap, m) && m <= j < |cs|
    ensures Refused(SumPledge(cs[..m]), cs[j].pledge, cap)
  {
    var first := FirstPositions(m + 1);
    PickFirst(cs, m + 1, first);
    PrefixGrows(cs, m);
    assert cs[m].pledge <= cs[j].pledge;
    assert Positions(cs, first);
    if !Refused(SumPledge(cs[..m]), cs[j].pledge, cap) {
      assert Affordable(SumPicked(cs, first), cap);
    }
  }

  /** The sectors scheduled are as many as the cap allows, if and only if no later candidate worth extending
      fits into what the charged ones that were skipped have taken up. */
  lemma ScheduledIsMostIff(cs: seq<Candidate>, worth: Candidate -> bool, cap: int)
    requires ByPledge(cs)
    ensures AtMostAffordable(Fit(cs, worth), cap, |Fit(Charged(cs, cap), worth)|) <==> NoRoomLeft(cs, worth, cap)
  {
    var fit, k, m := Fit(cs, worth), |Charged(cs, cap)|, |Fit(Charged(cs, cap), worth)|;
    FitSplits(cs, worth, cap);
    FitByPledge(cs, worth);
    if NoRoomLeft(cs, worth, cap) {
      forall picked: set<nat> | Positions(fit, picked) && Affordable(SumPicked(fit, picked), cap)
        ensures |picked| <= m
      {
        NextRefusedMeansMost(fit, cap, m, picked);
      }
    }
    if AtMostAffordable(fit, cap, m) {
      forall i | k <= i < |cs| && worth(cs[i]) ensures Refused(SumPledge(fit[..m]), cs[i].pledge, cap) {
        var j :| m <= j < |fit| && fit[j] == cs[i];
        MostMeansNextRefused(fit, cap, m, j);
      }
    }
  }

  /** A cap of 10, a sector pledging 5 that is charged but not worth extending, and one pledging 6 that is:
      nothing is scheduled, though the second alone would keep the cap. */
  lemma ChargedAndSkippedTakesRoom()
    ensures var cs, worth := [Candidate(1, 5), Candidate(2, 6)], (c: Candidate) => c.number == 2;
      && ByPledge(cs) && Charged(cs, 10) == [Candidate(1, 5)] && Fit(Charged(cs, 10), worth) == []
      && Fit(cs, worth) == [Candidate(2, 6)] && !NoRoomLeft(cs, worth, 10)
  {
    var a, b, worth := Candidate(1, 5), Candidate(2, 6), (c: Candidate) => c.number == 2;
    var cs := [a, b];
    assert cs[..0] == [] && cs[..1] == [] + [a] && cs[..2] == [a] + [b] == cs;
    SumPledgeSnoc([], a);
    ChargedSnoc(cs, 0, 10);
    ChargedSnoc(cs, 1, 10);
    FitSnoc([], a, worth);
    FitSnoc([a], b, worth);
    assert worth(cs[1]);
  }
}
