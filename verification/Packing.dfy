/** Packing buckets into messages (service.go, the second half of the planning in `extend`).

    limit bucket larger than a message's sector limit is cut into full chunks, each a message of its own.
    What remains of every bucket goes through one shared message, which is closed when the next
    declaration would overfill it or when it already holds the maximal number of declarations.  The
    buckets come in whatever order Go ranges over two nested maps; `order` stands for that order. */
module Packing {
  import opened Wrappers
  import opened Chain
  import opened Collections
  import opened Declarations

  datatype Bucket = Bucket(loc: Location, key: Epoch, numbers: seq<SectorNumber>)

  /** How many extendable sectors and how many declarations one message may carry. */
  datatype Limits = Limits(addrSectors: nat, declMax: nat)

  predicate Usable(lim: Limits) {
    lim.addrSectors >= 1 && lim.declMax >= 1
  }

  /** The declarations of one message. */
  type Batch = seq<Declaration>

  datatype Packer = Packer(sent: seq<Batch>, open: Batch, scount: nat, blocked: seq<SectorNumber>)

  function AddChunk(st: Packer, x: Built): Packer {
    st.(sent := st.sent + [[x.declaration]], blocked := st.blocked + x.blocked)
  }

  /** The shared message is closed before it takes this declaration. */
  predicate Overflows(st: Packer, lim: Limits, x: Built) {
    st.scount + x.sectorsInDecl > lim.addrSectors || |st.open| >= lim.declMax
  }

  function AddRest(st: Packer, lim: Limits, x: Built): Packer {
    if Overflows(st, lim, x) then
      Packer(st.sent + [st.open], [x.declaration], x.sectorsInDecl, st.blocked + x.blocked)
    else
      Packer(st.sent, st.open + [x.declaration], st.scount + x.sectorsInDecl, st.blocked + x.blocked)
  }

  function AddBucket(st: Packer, lim: Limits, reg: Registry, b: Bucket): Result<Packer, ClaimId>
    requires Usable(lim)
    decreases |b.numbers|
  {
    var limit := lim.addrSectors;
    if |b.numbers| > limit then
      match Build(reg, b.loc, b.key, b.numbers[..limit])
      case Err(id) => Err(id)
      case Ok(x) => AddBucket(AddChunk(st, x), lim, reg, b.(numbers := b.numbers[limit..]))
    else if |b.numbers| > 0 then
      match Build(reg, b.loc, b.key, b.numbers)
      case Err(id) => Err(id)
      case Ok(x) => Ok(AddRest(st, lim, x))
    else Ok(st)
  }

  const EMPTY: Packer := Packer([], [], 0, [])

  function AddAll(lim: Limits, reg: Registry, order: seq<Bucket>): Result<Packer, ClaimId>
    requires Usable(lim)
  {
    if order == [] then Ok(EMPTY)
    else
      match AddAll(lim, reg, order[..|order| - 1])
      case Err(id) => Err(id)
      case Ok(st) => AddBucket(st, lim, reg, order[|order| - 1])
  }

  /** The messages: those closed, and the shared one unless nothing in it can be extended. */
  function Messages(st: Packer): seq<Batch> {
    if st.scount != 0 then st.sent + [st.open] else st.sent
  }

  ghost predicate Distinct(order: seq<Bucket>) {
    forall b :: b in order ==> NoRepeats(b.numbers)
  }

  lemma SliceHasNoRepeats(q: seq<SectorNumber>, i: nat)
    requires NoRepeats(q) && i <= |q|
    ensures NoRepeats(q[..i]) && NoRepeats(q[i..])
    ensures Elements(q) == Elements(q[..i]) + Elements(q[i..])
    ensures Elements(q[..i]) !! Elements(q[i..])
  {
    assert q == q[..i] + q[i..];
  }

  // ---------------------------------------------------------------- failure

  ghost predicate HasUnknown(reg: Registry, numbers: seq<SectorNumber>, newExp: Epoch) {
    exists n :: n in numbers && StandingOf(reg, n, newExp).Unknown?
  }

  lemma BuildFailsIff(reg: Registry, l: Location, newExp: Epoch, numbers: seq<SectorNumber>)
    ensures Build(reg, l, newExp, numbers).Err? <==> HasUnknown(reg, numbers, newExp)
  {
    var i := FirstUnknown(reg, numbers, newExp);
    if i < |numbers| {
      assert numbers[i] in numbers;
    }
  }

  lemma {:induction false} BucketFailsIff(st: Packer, lim: Limits, reg: Registry, b: Bucket)
    requires Usable(lim)
    ensures AddBucket(st, lim, reg, b).Err? <==> HasUnknown(reg, b.numbers, b.key)
    decreases |b.numbers|
  {
    var limit := lim.addrSectors;
    if |b.numbers| > limit {
      var head, tail := b.numbers[..limit], b.numbers[limit..];
      assert b.numbers == head + tail;
      BuildFailsIff(reg, b.loc, b.key, head);
      assert HasUnknown(reg, b.numbers, b.key) <==> HasUnknown(reg, head, b.key) || HasUnknown(reg, tail, b.key);
      match Build(reg, b.loc, b.key, head) {
        case Err(_) =>
        case Ok(x) => BucketFailsIff(AddChunk(st, x), lim, reg, b.(numbers := tail));
      }
    } else {
      BuildFailsIff(reg, b.loc, b.key, b.numbers);
    }
  }

  /** Packing fails exactly when some bucketed sector meets an unknown claim, so whether it fails does
      not depend on the iteration order. */
  lemma {:induction false} PackingFailsIff(lim: Limits, reg: Registry, order: seq<Bucket>)
    requires Usable(lim)
    ensures AddAll(lim, reg, order).Err? <==> exists b :: b in order && HasUnknown(reg, b.numbers, b.key)
  {
    if order != [] {
      var front, last := order[..|order| - 1], order[|order| - 1];
      assert order == front + [last];
      PackingFailsIff(lim, reg, front);
      match AddAll(lim, reg, front) {
        case Err(_) =>
        case Ok(st) => BucketFailsIff(st, lim, reg, last);
      }
    }
  }

  /** Some sector of the bucket meets this unknown claim. */
  ghost predicate MeetsUnknown(reg: Registry, b: Bucket, id: ClaimId) {
    exists n :: n in b.numbers && StandingOf(reg, n, b.key) == Unknown(id)
  }

  lemma {:induction false} BucketErrorIsMet(st: Packer, lim: Limits, reg: Registry, b: Bucket)
    requires Usable(lim) && AddBucket(st, lim, reg, b).Err?
    ensures MeetsUnknown(reg, b, AddBucket(st, lim, reg, b).error)
    decreases |b.numbers|
  {
    var limit := lim.addrSectors;
    var head := if |b.numbers| > limit then b.numbers[..limit] else b.numbers;
    var i := FirstUnknown(reg, head, b.key);
    if i < |head| {
      assert head[i] in b.numbers;
    } else {
      var x := Build(reg, b.loc, b.key, head).value;
      BucketErrorIsMet(AddChunk(st, x), lim, reg, b.(numbers := b.numbers[limit..]));
    }
  }

  /** The claim an error names is one that some bucketed sector meets. */
  lemma {:induction false} PackingErrorIsMet(lim: Limits, reg: Registry, order: seq<Bucket>)
    requires Usable(lim) && AddAll(lim, reg, order).Err?
    ensures exists b :: b in order && MeetsUnknown(reg, b, AddAll(lim, reg, order).error)
  {
    var front, last := order[..|order| - 1], order[|order| - 1];
    assert last in order;
    match AddAll(lim, reg, front) {
      case Err(_) => PackingErrorIsMet(lim, reg, front);
      case Ok(st) => BucketErrorIsMet(st, lim, reg, last);
    }
  }

  // ---------------------------------------------------------------- the shape of one bucket's packing

  /** What is left of a list once full chunks are cut off its front: 1 to `limit` sectors, if any. */
  function Remainder(numbers: seq<SectorNumber>, limit: nat): seq<SectorNumber>
    requires limit >= 1
  {
    if |numbers| > limit then Remainder(numbers[limit..], limit) else numbers
  }

  function ChunkCount(n: nat, limit: nat): nat
    requires limit >= 1
  {
    if n > limit then 1 + ChunkCount(n - limit, limit) else 0
  }

  lemma MulAtLeast(d: int, limit: int)
    requires d >= 1 && limit >= 1
    ensures d * limit >= limit
  {}

  lemma QuotientIs(x: int, limit: int, q: int, r: int)
    requires limit >= 1 && x == q * limit + r && 0 <= r < limit
    ensures x / limit == q
  {
    var p, s := x / limit, x % limit;
    assert x == p * limit + s;
    assert (p - q) * limit == r - s;
    if p > q {
      MulAtLeast(p - q, limit);
    } else if p < q {
      MulAtLeast(q - p, limit);
    }
  }

  /** A list of n sectors makes exactly (n - 1) / `limit` full chunks. */
  lemma {:induction false} ChunkCountIs(n: nat, limit: nat)
    requires limit >= 1 && n >= 1
    ensures ChunkCount(n, limit) == (n - 1) / limit
  {
    if n > limit {
      ChunkCountIs(n - limit, limit);
      var q, r := (n - limit - 1) / limit, (n - limit - 1) % limit;
      assert (q + 1) * limit == q * limit + limit;
      QuotientIs(n - 1, limit, q + 1, r);
    } else {
      QuotientIs(n - 1, limit, 0, n - 1);
    }
  }

  /** The chunks of a bucket as messages of their own. */
  function ChunksOf(reg: Registry, limit: nat, l: Location, key: Epoch, numbers: seq<SectorNumber>): seq<Batch>
    requires limit >= 1
  {
    if |numbers| > limit then
      [[DeclarationFor(reg, l, key, numbers[..limit])]] + ChunksOf(reg, limit, l, key, numbers[limit..])
    else []
  }

  lemma Associate<T>(a: seq<T>, b: seq<T>, c: seq<T>)
    ensures a + (b + c) == (a + b) + c
  {}

  /** A bucket of n > 0 sectors becomes its chunks and one declaration of the remaining 1 to `limit` sectors
      for the shared message. */
  lemma {:induction false} BucketShape(st: Packer, lim: Limits, reg: Registry, b: Bucket)
      returns (x: Built, blocked: seq<SectorNumber>)
    requires Usable(lim) && b.numbers != []
    requires AddBucket(st, lim, reg, b).Ok?
    ensures Build(reg, b.loc, b.key, Remainder(b.numbers, lim.addrSectors)) == Ok(x)
    ensures AddBucket(st, lim, reg, b) == Ok(AddRest(
      Packer(st.sent + ChunksOf(reg, lim.addrSectors, b.loc, b.key, b.numbers), st.open, st.scount, blocked), lim, x))
    decreases |b.numbers|
  {
    var limit := lim.addrSectors;
    if |b.numbers| > limit {
      var head, tail := b.numbers[..limit], b.numbers[limit..];
      var y := Build(reg, b.loc, b.key, head).value;
      x, blocked := BucketShape(AddChunk(st, y), lim, reg, b.(numbers := tail));
      Associate(st.sent, [[y.declaration]], ChunksOf(reg, limit, b.loc, b.key, tail));
    } else {
      x, blocked := Build(reg, b.loc, b.key, b.numbers).value, st.blocked;
      assert st.sent + [] == st.sent;
    }
  }

  lemma {:induction false} RemainderIsSmall(numbers: seq<SectorNumber>, limit: nat)
    requires limit >= 1 && NoRepeats(numbers)
    ensures numbers != [] ==> 1 <= |Remainder(numbers, limit)| <= limit
    ensures NoRepeats(Remainder(numbers, limit))
    decreases |numbers|
  {
    if |numbers| > limit {
      SliceHasNoRepeats(numbers, limit);
      RemainderIsSmall(numbers[limit..], limit);
    }
  }

  /** One declaration of exactly `limit` sectors. */
  predicate FullChunk(c: Batch, limit: nat, key: Epoch) {
    |c| == 1 && |c[0].sectors| == limit && c[0].newExpiration == key
  }

  lemma HeadIsFull(reg: Registry, limit: nat, l: Location, key: Epoch, numbers: seq<SectorNumber>)
    requires NoRepeats(numbers) && |numbers| >= limit
    ensures NoRepeats(numbers[..limit]) && NoRepeats(numbers[limit..])
    ensures FullChunk([DeclarationFor(reg, l, key, numbers[..limit])], limit, key)
  {
    SliceHasNoRepeats(numbers, limit);
    ElementCount(numbers[..limit]);
  }

  /** Every chunk is a message of one declaration with exactly `limit` sectors; there are ChunkCount(n) of
      them, and 1 to `limit` sectors remain. */
  lemma {:induction false} ChunksAreFull(reg: Registry, limit: nat, l: Location, key: Epoch, numbers: seq<SectorNumber>)
    requires limit >= 1 && NoRepeats(numbers)
    ensures var chunks := ChunksOf(reg, limit, l, key, numbers);
      |chunks| == ChunkCount(|numbers|, limit) && forall c: Batch :: c in chunks ==> FullChunk(c, limit, key)
    ensures numbers != [] ==> 1 <= |Remainder(numbers, limit)| <= limit
    ensures NoRepeats(Remainder(numbers, limit))
    decreases |numbers|
  {
    RemainderIsSmall(numbers, limit);
    if |numbers| > limit {
      HeadIsFull(reg, limit, l, key, numbers);
      ChunksAreFull(reg, limit, l, key, numbers[limit..]);
    }
  }

  /** A list cut into pieces of `limit`, without what remains. */
  function Pieces(numbers: seq<SectorNumber>, limit: nat): seq<seq<SectorNumber>>
    requires limit >= 1
  {
    if |numbers| > limit then [numbers[..limit]] + Pieces(numbers[limit..], limit) else []
  }

  function Flatten(pieces: seq<seq<SectorNumber>>): seq<SectorNumber> {
    if pieces == [] then [] else pieces[0] + Flatten(pieces[1..])
  }

  lemma FlattenCons(head: seq<SectorNumber>, pieces: seq<seq<SectorNumber>>)
    ensures Flatten([head] + pieces) == head + Flatten(pieces)
  {
    assert ([head] + pieces)[1..] == pieces;
  }

  lemma {:induction false} PiecesMakeTheList(numbers: seq<SectorNumber>, limit: nat)
    requires limit >= 1
    ensures Flatten(Pieces(numbers, limit)) + Remainder(numbers, limit) == numbers
    decreases |numbers|
  {
    if |numbers| > limit {
      var head, tail := numbers[..limit], numbers[limit..];
      PiecesMakeTheList(tail, limit);
      FlattenCons(head, Pieces(tail, limit));
      Associate(head, Flatten(Pieces(tail, limit)), Remainder(tail, limit));
    }
  }

  /** The chunks declare consecutive pieces of the list, and the pieces followed by the remainder are the
      list. */
  lemma {:induction false} ChunksConcatenate(reg: Registry, limit: nat, l: Location, key: Epoch,
      numbers: seq<SectorNumber>)
    requires limit >= 1
    ensures var chunks, pieces := ChunksOf(reg, limit, l, key, numbers), Pieces(numbers, limit);
      && |chunks| == |pieces|
      && (forall i :: 0 <= i < |chunks| ==> chunks[i] == [DeclarationFor(reg, l, key, pieces[i])])
      && Flatten(pieces) + Remainder(numbers, limit) == numbers
    decreases |numbers|
  {
    PiecesMakeTheList(numbers, limit);
    if |numbers| > limit {
      ChunksConcatenate(reg, limit, l, key, numbers[limit..]);
    }
  }

  // ---------------------------------------------------------------- the blocked sectors

  lemma {:induction false} BlockedOfConcat(reg: Registry, a: seq<SectorNumber>, b: seq<SectorNumber>, newExp: Epoch)
    ensures BlockedOf(reg, a + b, newExp) == BlockedOf(reg, a, newExp) + BlockedOf(reg, b, newExp)
  {
    if b == [] {
      assert a + b == a;
    } else {
      var k := |b| - 1;
      assert (a + b)[..|a + b| - 1] == a + b[..k];
      BlockedOfConcat(reg, a, b[..k], newExp);
    }
  }

  lemma {:induction false} BucketBlocks(st: Packer, lim: Limits, reg: Registry, b: Bucket)
    requires Usable(lim) && AddBucket(st, lim, reg, b).Ok?
    ensures AddBucket(st, lim, reg, b).value.blocked == st.blocked + BlockedOf(reg, b.numbers, b.key)
    decreases |b.numbers|
  {
    var limit := lim.addrSectors;
    if |b.numbers| > limit {
      var head, tail := b.numbers[..limit], b.numbers[limit..];
      var y := Build(reg, b.loc, b.key, head).value;
      BucketBlocks(AddChunk(st, y), lim, reg, b.(numbers := tail));
      assert b.numbers == head + tail;
      BlockedOfConcat(reg, head, tail, b.key);
      Associate(st.blocked, BlockedOf(reg, head, b.key), BlockedOf(reg, tail, b.key));
    }
  }

  function AllBlocked(reg: Registry, order: seq<Bucket>): seq<SectorNumber> {
    if order == [] then []
    else AllBlocked(reg, order[..|order| - 1]) + BlockedOf(reg, order[|order| - 1].numbers, order[|order| - 1].key)
  }

  /** The sectors reported as not extendable are exactly those some too short claim blocks at their
      bucket's key, bucket by bucket. */
  lemma {:induction false} BlockedAreReported(lim: Limits, reg: Registry, order: seq<Bucket>)
    requires Usable(lim) && AddAll(lim, reg, order).Ok?
    ensures AddAll(lim, reg, order).value.blocked == AllBlocked(reg, order)
  {
    if order != [] {
      BlockedAreReported(lim, reg, order[..|order| - 1]);
      BucketBlocks(AddAll(lim, reg, order[..|order| - 1]).value, lim, reg, order[|order| - 1]);
    }
  }
}
