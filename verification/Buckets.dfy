/** Expiration buckets per partition (service.go, the end of the selection loop of `extend`).

    A sector joins a bucket of its partition whose key is within the tolerance of its target, or
    opens a bucket keyed by its own target.  When several keys qualify, Go's map iteration decides;
    `picks` records that decision, one key per item, and every theorem holds for all of them. */
module Buckets {
  import opened Wrappers
  import opened Chain
  import opened Collections
  import opened Targets

  /** A sector to be extended: where it lives and the expiration it should get. */
  datatype Item = Item(number: SectorNumber, loc: Location, target: Epoch)

  type Extensions = map<Location, map<Epoch, seq<SectorNumber>>>

  function BucketsAt(ext: Extensions, l: Location): map<Epoch, seq<SectorNumber>> {
    if l in ext then ext[l] else map[]
  }

  function ListAt(ext: Extensions, l: Location, k: Epoch): seq<SectorNumber> {
    if l in ext && k in ext[l] then ext[l][k] else []
  }

  predicate Qualifies(es: map<Epoch, seq<SectorNumber>>, target: Epoch, tol: Epoch, k: Epoch) {
    k in es && WithinTolerance(tol, target, k)
  }

  /** A key the map iteration may stop at: a qualifying one, or the target itself if none qualifies. */
  ghost predicate LegalPick(es: map<Epoch, seq<SectorNumber>>, target: Epoch, tol: Epoch, pick: Epoch) {
    || Qualifies(es, target, tol, pick)
    || (pick == target && forall k :: !Qualifies(es, target, tol, k))
  }

  function Place(ext: Extensions, it: Item, tol: Epoch, pick: Epoch): Extensions {
    var es := BucketsAt(ext, it.loc);
    if Qualifies(es, it.target, tol, pick) then ext[it.loc := es[pick := es[pick] + [it.number]]]
    else ext[it.loc := es[it.target := [it.number]]]
  }

  /** The buckets after visiting all items. */
  function Group(items: seq<Item>, tol: Epoch, picks: seq<Epoch>): Extensions
    requires |picks| == |items|
  {
    if items == [] then map[]
    else
      var n := |items| - 1;
      Place(Group(items[..n], tol, picks[..n]), items[n], tol, picks[n])
  }

  /** The picks are those of some run of the loop. */
  ghost predicate LegalRun(items: seq<Item>, tol: Epoch, picks: seq<Epoch>) {
    |picks| == |items| &&
    (items != [] ==>
      var n := |items| - 1;
      && LegalRun(items[..n], tol, picks[..n])
      && LegalPick(BucketsAt(Group(items[..n], tol, picks[..n]), items[n].loc), items[n].target, tol, picks[n]))
  }

  lemma GroupSnoc(items: seq<Item>, tol: Epoch, picks: seq<Epoch>, it: Item, pick: Epoch)
    requires LegalRun(items, tol, picks)
    requires LegalPick(BucketsAt(Group(items, tol, picks), it.loc), it.target, tol, pick)
    ensures LegalRun(items + [it], tol, picks + [pick])
    ensures Group(items + [it], tol, picks + [pick]) == Place(Group(items, tol, picks), it, tol, pick)
  {
    assert (items + [it])[..|items|] == items;
    assert (picks + [pick])[..|items|] == picks;
  }

  // ---------------------------------------------------------------- what a bucket holds

  /** The items sent to key k of partition l, in the order visited. */
  function SentTo(items: seq<Item>, picks: seq<Epoch>, l: Location, k: Epoch): seq<SectorNumber>
    requires |picks| == |items|
  {
    if items == [] then []
    else
      var n := |items| - 1;
      SentTo(items[..n], picks[..n], l, k) +
      if items[n].loc == l && picks[n] == k then [items[n].number] else []
  }

  /** A negative tolerance makes no key qualify, so a second item with the same target overwrites
      the first; otherwise a bucket keeps everything sent to it. */
  function Surviving(sent: seq<SectorNumber>, tol: Epoch): seq<SectorNumber> {
    if tol < 0 && sent != [] then [sent[|sent| - 1]] else sent
  }

  lemma PlaceContents(ext: Extensions, it: Item, tol: Epoch, pick: Epoch, l: Location, k: Epoch)
    requires LegalPick(BucketsAt(ext, it.loc), it.target, tol, pick)
    ensures var here := it.loc == l && pick == k;
      && ListAt(Place(ext, it, tol, pick), l, k) ==
           (if !here then ListAt(ext, l, k)
            else if tol < 0 then [it.number] else ListAt(ext, l, k) + [it.number])
      && (k in BucketsAt(Place(ext, it, tol, pick), l) <==> here || k in BucketsAt(ext, l))
  {}

  lemma {:induction false} BucketContents(items: seq<Item>, tol: Epoch, picks: seq<Epoch>, l: Location, k: Epoch)
    requires LegalRun(items, tol, picks)
    ensures ListAt(Group(items, tol, picks), l, k) == Surviving(SentTo(items, picks, l, k), tol)
    ensures k in BucketsAt(Group(items, tol, picks), l) <==> SentTo(items, picks, l, k) != []
  {
    if items != [] {
      var n := |items| - 1;
      BucketContents(items[..n], tol, picks[..n], l, k);
      PlaceContents(Group(items[..n], tol, picks[..n]), items[n], tol, picks[n], l, k);
    }
  }

  lemma {:induction false} SentToMembers(items: seq<Item>, picks: seq<Epoch>, l: Location, k: Epoch, s: SectorNumber)
    requires |picks| == |items|
    ensures s in SentTo(items, picks, l, k) <==>
      exists i :: 0 <= i < |items| && items[i].number == s && items[i].loc == l && picks[i] == k
  {
    if items != [] {
      var n := |items| - 1;
      SentToMembers(items[..n], picks[..n], l, k, s);
      if i :| 0 <= i < |items| && items[i].number == s && items[i].loc == l && picks[i] == k {
        assert i < n ==> items[..n][i].number == s && picks[..n][i] == k;
      }
    }
  }

  ghost predicate DistinctNumbers(items: seq<Item>) {
    forall i, j :: 0 <= i < j < |items| ==> items[i].number != items[j].number
  }

  lemma {:induction false} SentToHasNoRepeats(items: seq<Item>, picks: seq<Epoch>, l: Location, k: Epoch)
    requires |picks| == |items| && DistinctNumbers(items)
    ensures NoRepeats(SentTo(items, picks, l, k))
  {
    if items != [] {
      var n := |items| - 1;
      SentToHasNoRepeats(items[..n], picks[..n], l, k);
      SentToMembers(items[..n], picks[..n], l, k, items[n].number);
    }
  }

  lemma ListedWasSent(items: seq<Item>, tol: Epoch, picks: seq<Epoch>, l: Location, k: Epoch, s: SectorNumber)
    requires LegalRun(items, tol, picks) && s in ListAt(Group(items, tol, picks), l, k)
    ensures exists i :: 0 <= i < |items| && items[i].number == s && items[i].loc == l && picks[i] == k
  {
    BucketContents(items, tol, picks, l, k);
    SentToMembers(items, picks, l, k, s);
  }

  /** Bucketing keeps every sector at most once: no list repeats a sector, and no sector is in two. */
  lemma BucketsAreDisjoint(items: seq<Item>, tol: Epoch, picks: seq<Epoch>,
      l: Location, k: Epoch, l': Location, k': Epoch, s: SectorNumber)
    requires LegalRun(items, tol, picks) && DistinctNumbers(items)
    ensures NoRepeats(ListAt(Group(items, tol, picks), l, k))
    ensures s in ListAt(Group(items, tol, picks), l, k) && s in ListAt(Group(items, tol, picks), l', k')
      ==> l == l' && k == k'
  {
    BucketContents(items, tol, picks, l, k);
    SentToHasNoRepeats(items, picks, l, k);
    var ext := Group(items, tol, picks);
    if s in ListAt(ext, l, k) && s in ListAt(ext, l', k') {
      ListedWasSent(items, tol, picks, l, k, s);
      ListedWasSent(items, tol, picks, l', k', s);
    }
  }

  ghost predicate Bucketed(ext: Extensions, it: Item) {
    exists k :: it.number in ListAt(ext, it.loc, k)
  }

  ghost predicate DistinctTargets(items: seq<Item>) {
    forall i, j :: 0 <= i < j < |items| && items[i].loc == items[j].loc ==> items[i].target != items[j].target
  }

  lemma ItemSurvives(items: seq<Item>, tol: Epoch, picks: seq<Epoch>, i: nat)
    requires LegalRun(items, tol, picks) && i < |items|
    requires tol >= 0 || DistinctTargets(items)
    ensures items[i].number in ListAt(Group(items, tol, picks), items[i].loc, picks[i])
  {
    var l, k := items[i].loc, picks[i];
    var sent := SentTo(items, picks, l, k);
    SentToMembers(items, picks, l, k, items[i].number);
    BucketContents(items, tol, picks, l, k);
    if tol < 0 {
      PicksAreNear(items, tol, picks);
      SentToMembers(items, picks, l, k, sent[|sent| - 1]);
      var j :| 0 <= j < |items| && items[j].number == sent[|sent| - 1] && items[j].loc == l && picks[j] == k;
      assert items[j].target == k == items[i].target;
      assert i == j;
    }
  }

  /** Under a negative tolerance an item that survives has its key to itself. */
  lemma SurvivesAlone(items: seq<Item>, tol: Epoch, picks: seq<Epoch>, i: nat)
    requires LegalRun(items, tol, picks) && DistinctNumbers(items) && tol < 0
    requires i < |items| && Bucketed(Group(items, tol, picks), items[i])
    ensures ListAt(Group(items, tol, picks), items[i].loc, items[i].target) == [items[i].number]
  {
    var l, n := items[i].loc, items[i].number;
    var k :| n in ListAt(Group(items, tol, picks), l, k);
    BucketContents(items, tol, picks, l, k);
    ListedWasSent(items, tol, picks, l, k, n);
    PicksAreNear(items, tol, picks);
    assert k == picks[i] == items[i].target;
  }

  lemma OneOfTwoIsLost(items: seq<Item>, tol: Epoch, picks: seq<Epoch>, i: nat, j: nat)
    requires LegalRun(items, tol, picks) && DistinctNumbers(items) && tol < 0
    requires i < j < |items| && items[i].loc == items[j].loc && items[i].target == items[j].target
    ensures !Bucketed(Group(items, tol, picks), items[i]) || !Bucketed(Group(items, tol, picks), items[j])
  {
    var ext := Group(items, tol, picks);
    if Bucketed(ext, items[i]) && Bucketed(ext, items[j]) {
      SurvivesAlone(items, tol, picks, i);
      SurvivesAlone(items, tol, picks, j);
    }
  }

  /** No item is lost, exactly when the tolerance is not negative or no partition holds two equal
      targets. */
  lemma NothingIsOverwrittenIff(items: seq<Item>, tol: Epoch, picks: seq<Epoch>)
    requires LegalRun(items, tol, picks) && DistinctNumbers(items)
    ensures (forall i :: 0 <= i < |items| ==> Bucketed(Group(items, tol, picks), items[i])) <==>
      tol >= 0 || DistinctTargets(items)
  {
    if tol >= 0 || DistinctTargets(items) {
      forall i | 0 <= i < |items| ensures Bucketed(Group(items, tol, picks), items[i]) {
        ItemSurvives(items, tol, picks, i);
      }
    } else {
      var i, j :| 0 <= i < j < |items| && items[i].loc == items[j].loc && items[i].target == items[j].target;
      OneOfTwoIsLost(items, tol, picks, i, j);
    }
  }

  /** The failing case in the small: two sectors of one partition with the same target and a tolerance of -1,
      which request creation accepts; the second replaces the first. */
  lemma NegativeToleranceLosesSector()
    ensures var l := Location(0, 0);
      var items := [Item(1, l, 500), Item(2, l, 500)];
      && Accept(Some(100), None, Some(-1)) == Some(Terms(Some(100), None, -1))
      && LegalRun(items, -1, [500, 500]) && !Bucketed(Group(items, -1, [500, 500]), items[0])
  {
    var l := Location(0, 0);
    var a, b := Item(1, l, 500), Item(2, l, 500);
    GroupSnoc([], -1, [], a, 500);
    assert [] + [a] == [a] && [] + [500] == [500];
    GroupSnoc([a], -1, [500], b, 500);
    assert [a] + [b] == [a, b] && [500] + [500] == [500, 500];
    forall k ensures 1 !in ListAt(Group([a, b], -1, [500, 500]), l, k) {
      PlaceContents(map[], a, -1, 500, l, k);
      PlaceContents(Group([a], -1, [500]), b, -1, 500, l, k);
    }
  }

  // ---------------------------------------------------------------- the keys do not depend on the picks

  function TargetsAt(items: seq<Item>, l: Location): seq<Epoch> {
    if items == [] then []
    else
      var n := |items| - 1;
      TargetsAt(items[..n], l) + if items[n].loc == l then [items[n].target] else []
  }

  predicate SomeKeyNear(keys: set<Epoch>, t: Epoch, tol: Epoch) {
    exists k :: k in keys && WithinTolerance(tol, t, k)
  }

  /** The keys opened by targets visited in this order: one per target that no earlier key serves. */
  function KeysOf(targets: seq<Epoch>, tol: Epoch): set<Epoch> {
    if targets == [] then {}
    else
      var n := |targets| - 1;
      var keys := KeysOf(targets[..n], tol);
      if SomeKeyNear(keys, targets[n], tol) then keys else keys + {targets[n]}
  }

  /** The key set of a partition is a function of the order its sectors were visited in, whatever
      keys the map iteration stopped at. */
  lemma {:induction false} KeysAreDetermined(items: seq<Item>, tol: Epoch, picks: seq<Epoch>, l: Location)
    requires LegalRun(items, tol, picks)
    ensures BucketsAt(Group(items, tol, picks), l).Keys == KeysOf(TargetsAt(items, l), tol)
  {
    if items != [] {
      var n := |items| - 1;
      var it, before := items[n], Group(items[..n], tol, picks[..n]);
      KeysAreDetermined(items[..n], tol, picks[..n], l);
      if it.loc == l {
        var es := BucketsAt(before, l);
        var ts := TargetsAt(items[..n], l);
        assert TargetsAt(items, l) == ts + [it.target];
        assert (ts + [it.target])[..|ts|] == ts;
        assert SomeKeyNear(es.Keys, it.target, tol) <==> exists k :: Qualifies(es, it.target, tol, k) by {
          assert forall k :: Qualifies(es, it.target, tol, k) <==> k in es.Keys && WithinTolerance(tol, it.target, k);
        }
      } else {
        assert TargetsAt(items, l) == TargetsAt(items[..n], l);
      }
    }
  }

  ghost predicate FarApart(keys: set<Epoch>, tol: Epoch) {
    forall j, k :: j in keys && k in keys && j != k ==> !WithinTolerance(tol, j, k)
  }

  lemma {:induction false} KeysServeTargets(targets: seq<Epoch>, tol: Epoch)
    ensures FarApart(KeysOf(targets, tol), tol)
    ensures forall k :: k in KeysOf(targets, tol) ==> k in targets
    ensures tol >= 0 ==> forall t :: t in targets ==> SomeKeyNear(KeysOf(targets, tol), t, tol)
  {
    if targets != [] {
      var n := |targets| - 1;
      var keys, t := KeysOf(targets[..n], tol), targets[n];
      KeysServeTargets(targets[..n], tol);
      assert targets == targets[..n] + [t];
      if tol >= 0 {
        forall u | u in targets ensures SomeKeyNear(KeysOf(targets, tol), u, tol) {
          if u in targets[..n] {
            var k :| k in keys && WithinTolerance(tol, u, k);
            assert k in KeysOf(targets, tol);
          } else {
            assert u == t && (SomeKeyNear(keys, t, tol) || WithinTolerance(tol, t, t));
          }
        }
      }
    }
  }

  lemma {:induction false} TargetsAtMembers(items: seq<Item>, l: Location, t: Epoch)
    ensures t in TargetsAt(items, l) <==> exists i :: 0 <= i < |items| && items[i].loc == l && items[i].target == t
  {
    if items != [] {
      var n := |items| - 1;
      TargetsAtMembers(items[..n], l, t);
      if i :| 0 <= i < |items| && items[i].loc == l && items[i].target == t {
        assert i < n ==> items[..n][i].loc == l && items[..n][i].target == t;
      }
    }
  }

  /** The key an item ends under lies within the tolerance of its target (on it, if the tolerance is
      negative), and is itself the target of some item of the same partition. */
  lemma {:induction false} PicksAreNear(items: seq<Item>, tol: Epoch, picks: seq<Epoch>)
    requires LegalRun(items, tol, picks)
    ensures forall i :: 0 <= i < |items| ==> WithinTolerance(if tol < 0 then 0 else tol, items[i].target, picks[i])
  {
    if items != [] {
      var n := |items| - 1;
      PicksAreNear(items[..n], tol, picks[..n]);
      forall i | 0 <= i < |items| ensures WithinTolerance(if tol < 0 then 0 else tol, items[i].target, picks[i]) {
        assert i < n ==> items[..n][i] == items[i] && picks[..n][i] == picks[i];
      }
    }
  }

  lemma KeysAreTargets(items: seq<Item>, tol: Epoch, picks: seq<Epoch>, l: Location, k: Epoch)
    requires LegalRun(items, tol, picks) && k in BucketsAt(Group(items, tol, picks), l)
    ensures exists j :: 0 <= j < |items| && items[j].loc == l && items[j].target == k
  {
    KeysAreDetermined(items, tol, picks, l);
    KeysServeTargets(TargetsAt(items, l), tol);
    TargetsAtMembers(items, l, k);
  }

  // ---------------------------------------------------------------- how many keys

  function KeysNear(keys: set<Epoch>, e: Epoch, tol: Epoch): set<Epoch> {
    set k | k in keys && WithinTolerance(tol, k, e)
  }

  /** At most two keys ever qualify for a target; with zero tolerance at most one does. */
  lemma AtMostTwoKeysNear(keys: set<Epoch>, e: Epoch, tol: Epoch)
    requires FarApart(keys, tol)
    ensures |KeysNear(keys, e, tol)| <= if tol == 0 then 1 else 2
  {
    var near := KeysNear(keys, e, tol);
    if a :| a in near {
      if b :| b in near - {a} {
        ThreeKeysSpanTooMuch(keys, e, tol, a, b);
        assert near == {a, b};
      } else {
        assert near - {a} == {};
        assert near == {a} + (near - {a});
      }
    } else {
      assert near == {};
    }
  }

  lemma ThreeKeysSpanTooMuch(keys: set<Epoch>, e: Epoch, tol: Epoch, a: Epoch, b: Epoch)
    requires FarApart(keys, tol) && a in keys && b in keys && a != b
    requires WithinTolerance(tol, a, e) && WithinTolerance(tol, b, e)
    ensures tol != 0
    ensures forall c :: c in keys && WithinTolerance(tol, c, e) ==> c == a || c == b
  {
    forall c | c in keys && WithinTolerance(tol, c, e) ensures c == a || c == b {
      if c != a && c != b {
        assert false;
      }
    }
  }

  ghost predicate AllNear(keys: set<Epoch>, cover: set<Epoch>, tol: Epoch) {
    forall k :: k in keys ==> SomeKeyNear(cover, k, tol)
  }

  lemma {:induction false} CoverNeedsHalfTheKeys(keys: set<Epoch>, cover: set<Epoch>, tol: Epoch)
    requires FarApart(keys, tol) && AllNear(keys, cover, tol)
    ensures |keys| <= (if tol == 0 then 1 else 2) * |cover|
  {
    if c :| c in cover {
      var near := KeysNear(keys, c, tol);
      AtMostTwoKeysNear(keys, c, tol);
      forall k | k in keys - near ensures SomeKeyNear(cover - {c}, k, tol) {
        assert SomeKeyNear(cover, k, tol);
        var d :| d in cover && WithinTolerance(tol, k, d);
        assert d in cover - {c};
      }
      CoverNeedsHalfTheKeys(keys - near, cover - {c}, tol);
      assert keys == (keys - near) + near;
    } else {
      forall k ensures k !in keys {
        assert k in keys ==> SomeKeyNear(cover, k, tol);
      }
      assert keys == {};
    }
  }

  /** Bucketing is a 2-approximation: no set of expirations that serves the same targets within the
      tolerance has fewer than half as many members, and at zero tolerance none has fewer. */
  lemma BucketingIsTwoApproximate(targets: seq<Epoch>, tol: Epoch, cover: set<Epoch>)
    requires forall t :: t in targets ==> SomeKeyNear(cover, t, tol)
    ensures |KeysOf(targets, tol)| <= 2 * |cover|
    ensures tol == 0 ==> |KeysOf(targets, tol)| <= |cover|
  {
    KeysServeTargets(targets, tol);
    CoverNeedsHalfTheKeys(KeysOf(targets, tol), cover, tol);
  }

  /** What this means for one partition: whatever keys the map iteration stopped at, the buckets open are the
      same, pairwise more than the tolerance apart, and at most twice as many as any set of expirations
      needs that serves the partition's targets. */
  lemma PartitionBuckets(items: seq<Item>, tol: Epoch, picks: seq<Epoch>, others: seq<Epoch>, l: Location,
      cover: set<Epoch>)
    requires LegalRun(items, tol, picks) && LegalRun(items, tol, others)
    requires forall t :: t in TargetsAt(items, l) ==> SomeKeyNear(cover, t, tol)
    ensures var keys := BucketsAt(Group(items, tol, picks), l).Keys;
      && keys == BucketsAt(Group(items, tol, others), l).Keys
      && FarApart(keys, tol)
      && |keys| <= 2 * |cover|
  {
    KeysAreDetermined(items, tol, picks, l);
    KeysAreDetermined(items, tol, others, l);
    KeysServeTargets(TargetsAt(items, l), tol);
    BucketingIsTwoApproximate(TargetsAt(items, l), tol, cover);
  }

  ghost predicate Below(es: set<Epoch>, top: Epoch) {
    forall e :: e in es ==> e <= top
  }

  /** A target out of reach of every earlier key opens a new one. */
  lemma OpenKey(targets: seq<Epoch>, keys: set<Epoch>, tol: Epoch, t: Epoch)
    requires KeysOf(targets, tol) == keys && !SomeKeyNear(keys, t, tol)
    ensures KeysOf(targets + [t], tol) == keys + {t}
  {
    assert (targets + [t])[..|targets|] == targets;
  }

  lemma ServeMore(targets: seq<Epoch>, cover: set<Epoch>, tol: Epoch, mid: Epoch)
    requires tol >= 0 && forall t :: t in targets ==> SomeKeyNear(cover, t, tol)
    ensures forall t :: t in targets + [mid - tol] + [mid + tol] ==> SomeKeyNear(cover + {mid}, t, tol)
  {
    forall t | t in targets + [mid - tol] + [mid + tol] ensures SomeKeyNear(cover + {mid}, t, tol) {
      assert mid in cover + {mid};
      if t in targets {
        var c :| c in cover && WithinTolerance(tol, t, c);
        assert c in cover + {mid};
      } else {
        assert WithinTolerance(tol, t, mid);
      }
    }
  }

  /** The factor of two is reached at every size: m well separated pairs, each served by its middle,
      open two keys each. */
  lemma {:induction false} TwoIsTight(tol: Epoch, m: nat)
      returns (targets: seq<Epoch>, cover: set<Epoch>, keys: set<Epoch>, top: Epoch)
    requires tol >= 1
    ensures forall t :: t in targets ==> SomeKeyNear(cover, t, tol)
    ensures keys == KeysOf(targets, tol)
    ensures |cover| == m && |keys| == 2 * m
    ensures Below(keys, top) && Below(cover, top)
  {
    if m == 0 {
      targets, cover, keys, top := [], {}, {}, 0;
    } else {
      var ts, cs, ks, base := TwoIsTight(tol, m - 1);
      var mid := base + 3 * tol;
      var lo, hi := mid - tol, mid + tol;
      OpenKey(ts, ks, tol, lo);
      OpenKey(ts + [lo], ks + {lo}, tol, hi);
      ServeMore(ts, cs, tol, mid);
      targets, cover, keys, top := ts + [lo] + [hi], cs + {mid}, ks + {lo} + {hi}, hi;
      assert mid !in cs && lo !in ks && hi !in ks + {lo};
    }
  }
}
