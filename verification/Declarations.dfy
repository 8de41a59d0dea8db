/** One extension declaration (service.go, `buildParams`): which sectors of a list carry no claims,
    which can keep all of theirs, and which cannot be extended to the new expiration. */
module Declarations {
  import opened Wrappers
  import opened Chain
  import opened Collections

  datatype SectorClaim = SectorClaim(number: SectorNumber, maintain: seq<ClaimId>, drop: seq<ClaimId>)

  /** A bitfield of sector numbers is the set of its members. */
  datatype Declaration = Declaration(
    deadline: nat, partition: nat, sectors: set<SectorNumber>, withClaims: seq<SectorClaim>, newExpiration: Epoch)

  datatype Built = Built(declaration: Declaration, blocked: seq<SectorNumber>, sectorsInDecl: nat)

  /** What the claims of a sector say about extending it: it has none on record, they all outlive
      the new expiration, its record is an empty list, one of them ends too early, or one is unknown. */
  datatype Standing = Plain | Kept(claims: seq<ClaimId>) | Bare | Blocked | Unknown(id: ClaimId)

  predicate Outlives(reg: Registry, id: ClaimId, newExp: Epoch) {
    id in reg.claims && reg.claims[id].termStart + reg.claims[id].termMax > newExp
  }

  /** The position of the first claim that does not outlive the new expiration. */
  function FirstObstacle(reg: Registry, ids: seq<ClaimId>, newExp: Epoch): (i: nat)
    ensures i <= |ids|
    ensures forall j :: 0 <= j < i ==> Outlives(reg, ids[j], newExp)
    ensures i < |ids| ==> !Outlives(reg, ids[i], newExp)
  {
    if ids == [] || !Outlives(reg, ids[0], newExp) then 0
    else 1 + FirstObstacle(reg, ids[1..], newExp)
  }

  function StandingOf(reg: Registry, n: SectorNumber, newExp: Epoch): Standing {
    if n !in reg.idsBySector then Plain
    else
      var ids := reg.idsBySector[n];
      var i := FirstObstacle(reg, ids, newExp);
      if i == |ids| then (if ids == [] then Bare else Kept(ids))
      else if ids[i] in reg.claims then Blocked
      else Unknown(ids[i])
  }

  predicate Extendable(reg: Registry, n: SectorNumber, newExp: Epoch) {
    StandingOf(reg, n, newExp).Plain? || StandingOf(reg, n, newExp).Kept?
  }

  /** The claim is on record and ends strictly after the epoch. */
  ghost predicate EndsAfter(reg: Registry, id: ClaimId, e: Epoch) {
    id in reg.claims && e < reg.claims[id].termStart + reg.claims[id].termMax
  }

  /** The first claim that does not end strictly after the epoch is the i-th. */
  ghost predicate StopsAt(reg: Registry, ids: seq<ClaimId>, e: Epoch, i: int) {
    0 <= i < |ids| && !EndsAfter(reg, ids[i], e) && forall j :: 0 <= j < i ==> EndsAfter(reg, ids[j], e)
  }

  /** A sector carries no claims, or it has an empty record, or it is kept: exactly when every one of its claims is
      known and ends strictly after the new expiration, and then with its full claim list.  Otherwise the
      first claim that does not is known, and blocks it, or is the unknown one that stops everything. */
  lemma StandingMeans(reg: Registry, n: SectorNumber, newExp: Epoch)
    ensures var standing := StandingOf(reg, n, newExp);
      && (standing.Plain? <==> n !in reg.idsBySector)
      && (n in reg.idsBySector ==>
           var ids := reg.idsBySector[n];
           && (standing.Bare? <==> ids == [])
           && (standing.Kept? <==> ids != [] && forall id :: id in ids ==> EndsAfter(reg, id, newExp))
           && (standing.Kept? ==> standing.claims == ids)
           && (standing.Blocked? <==> exists i :: StopsAt(reg, ids, newExp, i) && ids[i] in reg.claims)
           && (standing.Unknown? <==> exists i :: StopsAt(reg, ids, newExp, i) && ids[i] !in reg.claims)
           && (standing.Unknown? ==> exists i :: StopsAt(reg, ids, newExp, i) && standing.id == ids[i]))
    ensures Extendable(reg, n, newExp) <==>
      n !in reg.idsBySector ||
      (reg.idsBySector[n] != [] && forall id :: id in reg.idsBySector[n] ==> EndsAfter(reg, id, newExp))
  {
    if n in reg.idsBySector {
      var ids := reg.idsBySector[n];
      var i := FirstObstacle(reg, ids, newExp);
      if i < |ids| {
        assert ids[i] in ids;
        assert StopsAt(reg, ids, newExp, i);
      }
    }
  }

  // ---------------------------------------------------------------- the declaration for a list

  function PlainOf(reg: Registry, numbers: seq<SectorNumber>, newExp: Epoch): set<SectorNumber> {
    set n | n in numbers && StandingOf(reg, n, newExp).Plain?
  }

  function KeptOf(reg: Registry, numbers: seq<SectorNumber>, newExp: Epoch): seq<SectorClaim> {
    if numbers == [] then []
    else
      var k := |numbers| - 1;
      KeptOf(reg, numbers[..k], newExp) +
      match StandingOf(reg, numbers[k], newExp)
      case Kept(ids) => [SectorClaim(numbers[k], ids, [])]
      case _ => []
  }

  function BlockedOf(reg: Registry, numbers: seq<SectorNumber>, newExp: Epoch): seq<SectorNumber> {
    if numbers == [] then []
    else
      var k := |numbers| - 1;
      BlockedOf(reg, numbers[..k], newExp) +
      if StandingOf(reg, numbers[k], newExp).Blocked? then [numbers[k]] else []
  }

  /** The position of the first sector with an unknown claim. */
  function FirstUnknown(reg: Registry, numbers: seq<SectorNumber>, newExp: Epoch): (i: nat)
    ensures i <= |numbers|
    ensures forall j :: 0 <= j < i ==> !StandingOf(reg, numbers[j], newExp).Unknown?
    ensures i < |numbers| ==> StandingOf(reg, numbers[i], newExp).Unknown?
  {
    if numbers == [] || StandingOf(reg, numbers[0], newExp).Unknown? then 0
    else 1 + FirstUnknown(reg, numbers[1..], newExp)
  }

  /** All sectors of the list are declared, the blocked ones too. */
  function DeclarationFor(reg: Registry, l: Location, newExp: Epoch, numbers: seq<SectorNumber>): Declaration {
    Declaration(l.deadline, l.partition, Elements(numbers), KeptOf(reg, numbers, newExp), newExp)
  }

  function Build(reg: Registry, l: Location, newExp: Epoch, numbers: seq<SectorNumber>): Result<Built, ClaimId> {
    var i := FirstUnknown(reg, numbers, newExp);
    if i < |numbers| then Err(StandingOf(reg, numbers[i], newExp).id)
    else Ok(Built(
      DeclarationFor(reg, l, newExp, numbers),
      BlockedOf(reg, numbers, newExp),
      |PlainOf(reg, numbers, newExp)| + |KeptOf(reg, numbers, newExp)|))
  }

  function ExtendableIn(reg: Registry, sectors: set<SectorNumber>, newExp: Epoch): set<SectorNumber> {
    set n | n in sectors && Extendable(reg, n, newExp)
  }

  function BareIn(reg: Registry, sectors: set<SectorNumber>, newExp: Epoch): set<SectorNumber> {
    set n | n in sectors && StandingOf(reg, n, newExp).Bare?
  }

  function KeptNumbers(reg: Registry, numbers: seq<SectorNumber>, newExp: Epoch): set<SectorNumber> {
    set n | n in numbers && StandingOf(reg, n, newExp).Kept?
  }

  function BlockedNumbers(reg: Registry, numbers: seq<SectorNumber>, newExp: Epoch): set<SectorNumber> {
    set n | n in numbers && StandingOf(reg, n, newExp).Blocked?
  }

  lemma SnocSets(reg: Registry, numbers: seq<SectorNumber>, newExp: Epoch)
    requires numbers != []
    ensures var k, n := |numbers| - 1, numbers[|numbers| - 1];
      && KeptNumbers(reg, numbers, newExp) ==
           KeptNumbers(reg, numbers[..k], newExp) + (if StandingOf(reg, n, newExp).Kept? then {n} else {})
      && BlockedNumbers(reg, numbers, newExp) ==
           BlockedNumbers(reg, numbers[..k], newExp) + (if StandingOf(reg, n, newExp).Blocked? then {n} else {})
  {
    var k, n := |numbers| - 1, numbers[|numbers| - 1];
    assert numbers == numbers[..k] + [n];
  }

  lemma {:induction false} KeptAndBlockedCounts(reg: Registry, numbers: seq<SectorNumber>, newExp: Epoch)
    requires NoRepeats(numbers)
    ensures |KeptOf(reg, numbers, newExp)| == |KeptNumbers(reg, numbers, newExp)|
    ensures |BlockedOf(reg, numbers, newExp)| == |BlockedNumbers(reg, numbers, newExp)|
    ensures forall n :: n in BlockedOf(reg, numbers, newExp) <==> n in BlockedNumbers(reg, numbers, newExp)
  {
    if numbers != [] {
      var k := |numbers| - 1;
      KeptAndBlockedCounts(reg, numbers[..k], newExp);
      SnocSets(reg, numbers, newExp);
      assert numbers[k] !in numbers[..k];
    }
  }

  lemma {:induction false} KeptClaims(reg: Registry, numbers: seq<SectorNumber>, newExp: Epoch, c: SectorClaim)
    ensures c in KeptOf(reg, numbers, newExp) <==>
      c.number in numbers && StandingOf(reg, c.number, newExp) == Kept(c.maintain) && c.drop == []
  {
    if numbers != [] {
      var k := |numbers| - 1;
      KeptClaims(reg, numbers[..k], newExp, c);
      assert numbers == numbers[..k] + [numbers[k]];
    }
  }

  function KeptIn(reg: Registry, sectors: set<SectorNumber>, newExp: Epoch): set<SectorNumber> {
    set n | n in sectors && StandingOf(reg, n, newExp).Kept?
  }

  /** The claim entries of a declaration are those of its kept sectors, one each: the full claim list is
      maintained and nothing dropped. */
  ghost predicate ClaimsOk(reg: Registry, d: Declaration) {
    && (forall c :: c in d.withClaims <==>
         c.number in d.sectors && StandingOf(reg, c.number, d.newExpiration) == Kept(c.maintain) && c.drop == [])
    && |d.withClaims| == |KeptIn(reg, d.sectors, d.newExpiration)|
  }

  lemma DeclaredClaimsOk(reg: Registry, l: Location, newExp: Epoch, numbers: seq<SectorNumber>)
    requires NoRepeats(numbers)
    ensures ClaimsOk(reg, DeclarationFor(reg, l, newExp, numbers))
  {
    forall c ensures c in KeptOf(reg, numbers, newExp) <==>
      c.number in Elements(numbers) && StandingOf(reg, c.number, newExp) == Kept(c.maintain) && c.drop == []
    {
      KeptClaims(reg, numbers, newExp, c);
    }
    KeptAndBlockedCounts(reg, numbers, newExp);
    assert KeptIn(reg, Elements(numbers), newExp) == KeptNumbers(reg, numbers, newExp);
  }

  /** What is built for a list: a declaration at its place and epoch, with its claim entries. */
  lemma BuildDeclares(reg: Registry, l: Location, newExp: Epoch, numbers: seq<SectorNumber>)
    requires NoRepeats(numbers) && Build(reg, l, newExp, numbers).Ok?
    ensures var d := Build(reg, l, newExp, numbers).value.declaration;
      && d.deadline == l.deadline && d.partition == l.partition && d.newExpiration == newExp
      && d.sectors == Elements(numbers) && ClaimsOk(reg, d)
  {
    DeclaredClaimsOk(reg, l, newExp, numbers);
  }

  /** A declaration splits its sectors: the unclaimed, the claim-keeping, the blocked and those with
      an empty claim record are disjoint and cover the list.  All of them are in the bitfield; the
      count returned is that of the extendable ones, that is all but the blocked and the bare. */
  lemma BuildSplitsInput(reg: Registry, l: Location, newExp: Epoch, numbers: seq<SectorNumber>)
    requires NoRepeats(numbers) && Build(reg, l, newExp, numbers).Ok?
    ensures var b := Build(reg, l, newExp, numbers).value;
      var all := Elements(numbers);
      && b.declaration.sectors == all && |all| == |numbers|
      && all == PlainOf(reg, numbers, newExp) + KeptNumbers(reg, numbers, newExp)
                + BlockedNumbers(reg, numbers, newExp) + BareIn(reg, all, newExp)
      && b.sectorsInDecl == |ExtendableIn(reg, all, newExp)|
      && b.sectorsInDecl == |numbers| - |b.blocked| - |BareIn(reg, all, newExp)|
      && Elements(b.blocked) == BlockedNumbers(reg, numbers, newExp)
  {
    var all := Elements(numbers);
    var kept, blocked := KeptNumbers(reg, numbers, newExp), BlockedNumbers(reg, numbers, newExp);
    var plain, bare := PlainOf(reg, numbers, newExp), BareIn(reg, all, newExp);
    ElementCount(numbers);
    KeptAndBlockedCounts(reg, numbers, newExp);
    FourStandings(reg, numbers, newExp);
    DisjointSizes(plain, kept, blocked, bare);
  }

  lemma FourStandings(reg: Registry, numbers: seq<SectorNumber>, newExp: Epoch)
    requires FirstUnknown(reg, numbers, newExp) == |numbers|
    ensures var all := Elements(numbers);
      var plain, kept := PlainOf(reg, numbers, newExp), KeptNumbers(reg, numbers, newExp);
      var blocked, bare := BlockedNumbers(reg, numbers, newExp), BareIn(reg, all, newExp);
      && plain !! kept && plain !! blocked && plain !! bare && kept !! blocked && kept !! bare && blocked !! bare
      && all == plain + kept + blocked + bare
      && ExtendableIn(reg, all, newExp) == plain + kept
  {
    forall n | n in numbers ensures !StandingOf(reg, n, newExp).Unknown? {
      var i :| 0 <= i < |numbers| && numbers[i] == n;
    }
  }

  lemma {:induction false} UnknownStops(reg: Registry, numbers: seq<SectorNumber>, newExp: Epoch, i: nat)
    requires i < |numbers| && StandingOf(reg, numbers[i], newExp).Unknown?
    requires forall j :: 0 <= j < i ==> !StandingOf(reg, numbers[j], newExp).Unknown?
    ensures FirstUnknown(reg, numbers, newExp) == i
  {}

  /** The inner loop of `buildParams`: the claims of one sector, in order, up to the first that is
      unknown or ends too early. */
  method ScanClaims(reg: Registry, n: SectorNumber, newExp: Epoch) returns (s: Standing)
    ensures s == StandingOf(reg, n, newExp)
  {
    if n !in reg.idsBySector {
      return Plain;
    }
    var claimIds := reg.idsBySector[n];
    var maintain: seq<ClaimId> := [];
    for i := 0 to |claimIds|
      invariant maintain == claimIds[..i]
      invariant FirstObstacle(reg, claimIds, newExp) >= i
    {
      var id := claimIds[i];
      if id !in reg.claims {
        return Unknown(id);
      }
      if reg.claims[id].termStart + reg.claims[id].termMax > newExp {
        maintain := maintain + [id];
      } else {
        return Blocked;
      }
    }
    s := if |maintain| != 0 then Kept(maintain) else Bare;
  }

  /** What the loop has collected from the first k sectors. */
  ghost predicate Scanned(reg: Registry, numbers: seq<SectorNumber>, newExp: Epoch, k: nat,
      plain: set<SectorNumber>, kept: seq<SectorClaim>, blocked: seq<SectorNumber>)
    requires k <= |numbers|
  {
    && (forall j :: 0 <= j < k ==> !StandingOf(reg, numbers[j], newExp).Unknown?)
    && plain == PlainOf(reg, numbers[..k], newExp)
    && kept == KeptOf(reg, numbers[..k], newExp)
    && blocked == BlockedOf(reg, numbers[..k], newExp)
  }

  lemma AllScanned(reg: Registry, numbers: seq<SectorNumber>, newExp: Epoch,
      plain: set<SectorNumber>, kept: seq<SectorClaim>, blocked: seq<SectorNumber>)
    requires Scanned(reg, numbers, newExp, |numbers|, plain, kept, blocked)
    ensures FirstUnknown(reg, numbers, newExp) == |numbers|
    ensures plain == PlainOf(reg, numbers, newExp)
    ensures kept == KeptOf(reg, numbers, newExp) && blocked == BlockedOf(reg, numbers, newExp)
  {
    assert numbers[..|numbers|] == numbers;
  }

  lemma OneMore(reg: Registry, numbers: seq<SectorNumber>, newExp: Epoch, k: nat)
    requires k < |numbers|
    ensures var s := StandingOf(reg, numbers[k], newExp);
      && PlainOf(reg, numbers[..k + 1], newExp) ==
           PlainOf(reg, numbers[..k], newExp) + (if s.Plain? then {numbers[k]} else {})
      && KeptOf(reg, numbers[..k + 1], newExp) ==
           KeptOf(reg, numbers[..k], newExp) + (if s.Kept? then [SectorClaim(numbers[k], s.claims, [])] else [])
      && BlockedOf(reg, numbers[..k + 1], newExp) ==
           BlockedOf(reg, numbers[..k], newExp) + (if s.Blocked? then [numbers[k]] else [])
  {
    assert numbers[..k + 1][..k] == numbers[..k];
    assert numbers[..k + 1] == numbers[..k] + [numbers[k]];
  }

  lemma ScanOneMore(reg: Registry, numbers: seq<SectorNumber>, newExp: Epoch, k: nat,
      plain: set<SectorNumber>, kept: seq<SectorClaim>, blocked: seq<SectorNumber>)
    requires k < |numbers| && Scanned(reg, numbers, newExp, k, plain, kept, blocked)
    ensures var n, standing := numbers[k], StandingOf(reg, numbers[k], newExp);
      match standing
      case Plain => Scanned(reg, numbers, newExp, k + 1, plain + {n}, kept, blocked)
      case Kept(claims) => Scanned(reg, numbers, newExp, k + 1, plain, kept + [SectorClaim(n, claims, [])], blocked)
      case Blocked => Scanned(reg, numbers, newExp, k + 1, plain, kept, blocked + [n])
      case Bare => Scanned(reg, numbers, newExp, k + 1, plain, kept, blocked)
      case Unknown(_) => true
  {
    OneMore(reg, numbers, newExp, k);
    assert kept + [] == kept && blocked + [] == blocked;
  }

  /** The loop of `buildParams` over the sectors of a list. */
  method BuildParams(reg: Registry, l: Location, newExp: Epoch, numbers: seq<SectorNumber>)
      returns (r: Result<Built, ClaimId>)
    ensures r == Build(reg, l, newExp, numbers)
  {
    var withoutClaims: set<SectorNumber> := {};
    var withClaims: seq<SectorClaim> := [];
    var cannotExtend: seq<SectorNumber> := [];
    for k := 0 to |numbers|
      invariant Scanned(reg, numbers, newExp, k, withoutClaims, withClaims, cannotExtend)
    {
      ScanOneMore(reg, numbers, newExp, k, withoutClaims, withClaims, cannotExtend);
      var standing := ScanClaims(reg, numbers[k], newExp);
      match standing {
        case Plain => withoutClaims := withoutClaims + {numbers[k]};
        case Unknown(id) =>
          UnknownStops(reg, numbers, newExp, k);
          return Err(id);
        case Blocked => cannotExtend := cannotExtend + [numbers[k]];
        case Kept(claims) => withClaims := withClaims + [SectorClaim(numbers[k], claims, [])];
        case Bare =>
      }
    }
    AllScanned(reg, numbers, newExp, withoutClaims, withClaims, cannotExtend);
    r := Ok(Built(
      Declaration(l.deadline, l.partition, Elements(numbers), withClaims, newExp),
      cannotExtend, |withoutClaims| + |withClaims|));
  }
}
