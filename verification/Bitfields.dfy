/** What messages hold beyond the sectors that can be extended (service.go, the packing in `extend`): when a
    message outgrows the sector limit, and when one is sent in which nothing can be extended. */
module Bitfields {
  import opened Chain
  import opened Collections
  import opened Buckets
  import opened Declarations
  import opened Packing
  import opened PackingLaws
  import opened PackLoop

  // ---------------------------------------------------------------- what one bucket does

  /** The declaration a bucket sends through the shared message. */
  function RestOf(lim: Limits, reg: Registry, b: Bucket): Declaration
    requires Usable(lim)
  {
    DeclarationFor(reg, b.loc, b.key, Remainder(b.numbers, lim.addrSectors))
  }

  /** The shared message is closed before this bucket's declaration. */
  predicate Closes(lim: Limits, reg: Registry, st: Packer, b: Bucket)
    requires Usable(lim)
  {
    st.scount + SharedLoad(lim, reg)(b) > lim.addrSectors || |st.open| >= lim.declMax
  }

  lemma BucketEffect(st: Packer, lim: Limits, reg: Registry, b: Bucket)
    requires Usable(lim) && b.numbers != [] && NoRepeats(b.numbers) && AddBucket(st, lim, reg, b).Ok?
    ensures var st', closes := AddBucket(st, lim, reg, b).value, Closes(lim, reg, st, b);
      && st'.sent == st.sent + ChunksOf(reg, lim.addrSectors, b.loc, b.key, b.numbers)
           + (if closes then [st.open] else [])
      && st'.open == (if closes then [] else st.open) + [RestOf(lim, reg, b)]
      && st'.scount == (if closes then 0 else st.scount) + SharedLoad(lim, reg)(b)
    ensures SharedLoad(lim, reg)(b) <= |Remainder(b.numbers, lim.addrSectors)| <= lim.addrSectors
  {
    var x, blocked := BucketShape(st, lim, reg, b);
    RemainderIsSmall(b.numbers, lim.addrSectors);
    BuiltWeight(reg, b.loc, b.key, Remainder(b.numbers, lim.addrSectors));
    var chunks := ChunksOf(reg, lim.addrSectors, b.loc, b.key, b.numbers);
    assert st.sent + chunks + [] == st.sent + chunks;
  }

  ghost predicate NoneEmpty(order: seq<Bucket>) {
    forall b :: b in order ==> b.numbers != []
  }

  /** What is known of the last bucket of a list that could be packed, and of those before it. */
  lemma LastBucket(lim: Limits, reg: Registry, order: seq<Bucket>)
    requires Usable(lim) && order != []
    requires Distinct(order) && NoneEmpty(order) && AddAll(lim, reg, order).Ok?
    ensures var front, b := order[..|order| - 1], order[|order| - 1];
      && order == front + [b] && Distinct(front) && NoneEmpty(front)
      && b.numbers != [] && NoRepeats(b.numbers) && AddAll(lim, reg, front).Ok?
      && AddAll(lim, reg, order) == AddBucket(AddAll(lim, reg, front).value, lim, reg, b)
  {
    assert order[|order| - 1] in order;
  }

  // ---------------------------------------------------------------- messages in which nothing is extended

  ghost predicate SendsIdle(reg: Registry, batches: seq<Batch>) {
    exists batch :: batch in batches && Tally(batch, WeightOf(reg)) == 0
  }

  predicate AllHeldBack(reg: Registry, numbers: seq<SectorNumber>, key: Epoch) {
    forall n :: n in numbers ==> !Extendable(reg, n, key)
  }

  lemma IdleDeclaration(reg: Registry, l: Location, key: Epoch, numbers: seq<SectorNumber>)
    ensures WeightOf(reg)(DeclarationFor(reg, l, key, numbers)) == 0 <==> AllHeldBack(reg, numbers, key)
  {
    var can := ExtendableIn(reg, Elements(numbers), key);
    if n :| n in numbers && Extendable(reg, n, key) {
      assert n in can;
    } else {
      assert can == {};
    }
  }

  /** Some full chunk of the bucket holds no extendable sector. */
  ghost predicate HasIdleChunk(lim: Limits, reg: Registry, b: Bucket)
    requires Usable(lim)
  {
    exists i :: 0 <= i < |Pieces(b.numbers, lim.addrSectors)| &&
      AllHeldBack(reg, Pieces(b.numbers, lim.addrSectors)[i], b.key)
  }

  lemma ChunksSendIdleIff(lim: Limits, reg: Registry, b: Bucket)
    requires Usable(lim)
    ensures SendsIdle(reg, ChunksOf(reg, lim.addrSectors, b.loc, b.key, b.numbers)) <==> HasIdleChunk(lim, reg, b)
  {
    var chunks, pieces := ChunksOf(reg, lim.addrSectors, b.loc, b.key, b.numbers), Pieces(b.numbers, lim.addrSectors);
    ChunksConcatenate(reg, lim.addrSectors, b.loc, b.key, b.numbers);
    forall i | 0 <= i < |chunks|
      ensures Tally(chunks[i], WeightOf(reg)) == 0 <==> AllHeldBack(reg, pieces[i], b.key)
    {
      TallyOne(DeclarationFor(reg, b.loc, b.key, pieces[i]), WeightOf(reg));
      IdleDeclaration(reg, b.loc, b.key, pieces[i]);
    }
    if HasIdleChunk(lim, reg, b) {
      var i :| 0 <= i < |pieces| && AllHeldBack(reg, pieces[i], b.key);
      assert chunks[i] in chunks;
    }
  }

  /** The shared message is full of declarations that extend nothing. */
  predicate IsIdle(lim: Limits, st: Packer) {
    st.scount == 0 && |st.open| == lim.declMax
  }

  lemma BucketSendsIdleIff(st: Packer, lim: Limits, reg: Registry, b: Bucket)
    requires Usable(lim) && NoRepeats(b.numbers) && b.numbers != [] && AddBucket(st, lim, reg, b).Ok?
    requires PackerOk(lim, reg, st)
    ensures SendsIdle(reg, AddBucket(st, lim, reg, b).value.sent) <==>
      SendsIdle(reg, st.sent) || HasIdleChunk(lim, reg, b) || IsIdle(lim, st)
  {
    BucketEffect(st, lim, reg, b);
    ChunksSendIdleIff(lim, reg, b);
    var chunks := ChunksOf(reg, lim.addrSectors, b.loc, b.key, b.numbers);
    var sent := AddBucket(st, lim, reg, b).value.sent;
    assert forall batch :: batch in sent <==>
      batch in st.sent || batch in chunks || (Closes(lim, reg, st, b) && batch == st.open);
  }

  /** The shared message is idle when the k-th bucket comes. */
  ghost predicate IdleAt(lim: Limits, reg: Registry, order: seq<Bucket>, k: nat)
    requires Usable(lim) && k < |order|
  {
    AddAll(lim, reg, order[..k]).Ok? && IsIdle(lim, AddAll(lim, reg, order[..k]).value)
  }

  ghost predicate SomeIdleCause(lim: Limits, reg: Registry, order: seq<Bucket>)
    requires Usable(lim)
  {
    || (exists b :: b in order && HasIdleChunk(lim, reg, b))
    || (exists k :: 0 <= k < |order| && IdleAt(lim, reg, order, k))
  }

  lemma IdleCauseSnoc(lim: Limits, reg: Registry, order: seq<Bucket>)
    requires Usable(lim) && order != []
    ensures var n := |order| - 1;
      SomeIdleCause(lim, reg, order) <==>
        SomeIdleCause(lim, reg, order[..n]) || HasIdleChunk(lim, reg, order[n]) || IdleAt(lim, reg, order, n)
  {
    var n := |order| - 1;
    var front := order[..n];
    assert order == front + [order[n]];
    forall k | 0 <= k < n ensures IdleAt(lim, reg, order, k) <==> IdleAt(lim, reg, front, k) {
      assert front[..k] == order[..k];
    }
  }

  lemma {:induction false} SentIdleIff(lim: Limits, reg: Registry, order: seq<Bucket>)
    requires Usable(lim) && Distinct(order) && NoneEmpty(order) && AddAll(lim, reg, order).Ok?
    ensures SendsIdle(reg, AddAll(lim, reg, order).value.sent) <==> SomeIdleCause(lim, reg, order)
  {
    if order != [] {
      var n := |order| - 1;
      LastBucket(lim, reg, order);
      SentIdleIff(lim, reg, order[..n]);
      IdleCauseSnoc(lim, reg, order);
      PackingKeepsLimits(lim, reg, order[..n]);
      BucketSendsIdleIff(AddAll(lim, reg, order[..n]).value, lim, reg, order[n]);
    }
  }

  /** A message in which nothing can be extended is sent, if and only if a full chunk holds only sectors held
      back, or the shared message holds the maximal number of declarations, none of which extends
      anything, when another bucket comes. */
  lemma IdleMessageIsSentIff(lim: Limits, reg: Registry, order: seq<Bucket>)
    requires Usable(lim) && Distinct(order) && NoneEmpty(order) && AddAll(lim, reg, order).Ok?
    ensures SendsIdle(reg, Messages(AddAll(lim, reg, order).value)) <==> SomeIdleCause(lim, reg, order)
  {
    SentIdleIff(lim, reg, order);
    PackingKeepsLimits(lim, reg, order);
  }

  lemma BlockedIsSentAlone(lim: Limits, reg: Registry, first: Bucket, m: SectorNumber, second: Bucket, n: SectorNumber)
    requires lim == Limits(1, 1) && first.numbers == [m] && second.numbers == [n]
    requires StandingOf(reg, m, first.key).Blocked? && !StandingOf(reg, n, second.key).Unknown?
    ensures var r := AddAll(lim, reg, [first, second]);
      r.Ok? && SendsIdle(reg, Messages(r.value))
  {
    var order := [first, second];
    AddOne(lim, reg, first, m);
    PackingFailsIff(lim, reg, order);
    assert order[..1] == [first];
    assert IdleAt(lim, reg, order, 1);
    IdleMessageIsSentIff(lim, reg, order);
  }

  /** With one declaration to a message, a blocked sector is sent on its own once another bucket comes. */
  lemma IdleMessageIsSent()
    ensures var reg, l := Registry(map[1 := [7]], map[7 := Claim(0, 5)]), Location(0, 0);
      var r := AddAll(Limits(1, 1), reg, [Bucket(l, 10, [1]), Bucket(l, 20, [2])]);
      StandingOf(reg, 1, 10).Blocked? && r.Ok? && SendsIdle(reg, Messages(r.value))
  {
    var reg, l := Registry(map[1 := [7]], map[7 := Claim(0, 5)]), Location(0, 0);
    assert FirstObstacle(reg, [7], 10) == 0;
    BlockedIsSentAlone(Limits(1, 1), reg, Bucket(l, 10, [1]), 1, Bucket(l, 20, [2]), 2);
  }

  // ---------------------------------------------------------------- messages over the sector limit

  /** The sectors a bucket declares through the shared message. */
  function RestSize(lim: Limits): Bucket -> nat
    requires Usable(lim)
  {
    (b: Bucket) => |Remainder(b.numbers, lim.addrSectors)|
  }

  function RestsOf(lim: Limits, reg: Registry, order: seq<Bucket>): (batch: Batch)
    requires Usable(lim)
    ensures |batch| == |order| && forall i :: 0 <= i < |order| ==> batch[i] == RestOf(lim, reg, order[i])
  {
    seq(|order|, i requires 0 <= i < |order| => RestOf(lim, reg, order[i]))
  }

  lemma RestsSnoc(lim: Limits, reg: Registry, order: seq<Bucket>, b: Bucket)
    requires Usable(lim)
    ensures RestsOf(lim, reg, order + [b]) == RestsOf(lim, reg, order) + [RestOf(lim, reg, b)]
  {}

  lemma SumOverSnoc(order: seq<Bucket>, b: Bucket, g: Bucket -> nat)
    ensures SumOver(order + [b], g) == SumOver(order, g) + g(b)
  {
    assert (order + [b])[..|order|] == order;
  }

  lemma {:induction false} RestsTally(lim: Limits, reg: Registry, order: seq<Bucket>)
    requires Usable(lim) && Distinct(order)
    ensures Tally(RestsOf(lim, reg, order), WeightOf(reg)) == SumOver(order, SharedLoad(lim, reg))
    ensures Tally(RestsOf(lim, reg, order), SizeOf()) == SumOver(order, RestSize(lim))
  {
    if order != [] {
      var front, b := order[..|order| - 1], order[|order| - 1];
      RestsTally(lim, reg, front);
      assert order == front + [b];
      RestsSnoc(lim, reg, front, b);
      TallySnoc(RestsOf(lim, reg, front), RestOf(lim, reg, b), WeightOf(reg));
      TallySnoc(RestsOf(lim, reg, front), RestOf(lim, reg, b), SizeOf());
      RemainderIsSmall(b.numbers, lim.addrSectors);
      ElementCount(Remainder(b.numbers, lim.addrSectors));
    }
  }

  /** A message of the remainders of neighbouring buckets, or one within the limit. */
  ghost predicate WindowOrSmall(lim: Limits, reg: Registry, order: seq<Bucket>, batch: Batch)
    requires Usable(lim)
  {
    || Tally(batch, SizeOf()) <= lim.addrSectors
    || exists i, j :: 0 <= i <= j <= |order| && batch == RestsOf(lim, reg, order[i..j])
  }

  lemma WindowGrows(lim: Limits, reg: Registry, order: seq<Bucket>, b: Bucket, batch: Batch)
    requires Usable(lim) && WindowOrSmall(lim, reg, order, batch)
    ensures WindowOrSmall(lim, reg, order + [b], batch)
  {
    if Tally(batch, SizeOf()) > lim.addrSectors {
      var i, j :| 0 <= i <= j <= |order| && batch == RestsOf(lim, reg, order[i..j]);
      assert (order + [b])[i..j] == order[i..j];
    }
  }

  /** The shared message always holds the remainders of the latest buckets. */
  ghost predicate OpenIsWindow(lim: Limits, reg: Registry, order: seq<Bucket>, open: Batch)
    requires Usable(lim)
  {
    exists i :: 0 <= i <= |order| && open == RestsOf(lim, reg, order[i..])
  }

  lemma OpenWindowGrows(lim: Limits, reg: Registry, order: seq<Bucket>, b: Bucket, open: Batch, closes: bool)
    requires Usable(lim) && OpenIsWindow(lim, reg, order, open)
    ensures OpenIsWindow(lim, reg, order + [b], (if closes then [] else open) + [RestOf(lim, reg, b)])
    ensures WindowOrSmall(lim, reg, order + [b], open)
  {
    var all := order + [b];
    var i :| 0 <= i <= |order| && open == RestsOf(lim, reg, order[i..]);
    RestsSnoc(lim, reg, order[i..], b);
    assert all[i..] == order[i..] + [b] && all[|order|..] == [b] && all[i..|order|] == order[i..];
    assert [] + [RestOf(lim, reg, b)] == RestsOf(lim, reg, all[|order|..]);
  }

  lemma ChunkIsSmall(lim: Limits, reg: Registry, b: Bucket, chunk: Batch)
    requires Usable(lim) && NoRepeats(b.numbers)
    requires chunk in ChunksOf(reg, lim.addrSectors, b.loc, b.key, b.numbers)
    ensures Tally(chunk, SizeOf()) == lim.addrSectors
  {
    ChunksAreFull(reg, lim.addrSectors, b.loc, b.key, b.numbers);
    assert FullChunk(chunk, lim.addrSectors, b.key) && chunk == [chunk[0]];
    TallyOne(chunk[0], SizeOf());
  }

  ghost predicate AllWindows(lim: Limits, reg: Registry, order: seq<Bucket>, batches: seq<Batch>)
    requires Usable(lim)
  {
    forall batch :: batch in batches ==> WindowOrSmall(lim, reg, order, batch)
  }

  lemma SentAreWindows(lim: Limits, reg: Registry, front: seq<Bucket>, b: Bucket, sent: seq<Batch>)
    requires Usable(lim) && NoRepeats(b.numbers) && AllWindows(lim, reg, front, sent)
    ensures AllWindows(lim, reg, front + [b], sent + ChunksOf(reg, lim.addrSectors, b.loc, b.key, b.numbers))
  {
    var chunks := ChunksOf(reg, lim.addrSectors, b.loc, b.key, b.numbers);
    forall batch | batch in sent + chunks ensures WindowOrSmall(lim, reg, front + [b], batch) {
      if batch in sent {
        WindowGrows(lim, reg, front, b, batch);
      } else {
        ChunkIsSmall(lim, reg, b, batch);
      }
    }
  }

  lemma {:induction false} OpenStaysWindow(lim: Limits, reg: Registry, order: seq<Bucket>)
    requires Usable(lim) && Distinct(order) && NoneEmpty(order) && AddAll(lim, reg, order).Ok?
    ensures OpenIsWindow(lim, reg, order, AddAll(lim, reg, order).value.open)
  {
    if order == [] {
      assert RestsOf(lim, reg, order[0..]) == [];
    } else {
      var front, b := order[..|order| - 1], order[|order| - 1];
      LastBucket(lim, reg, order);
      var st := AddAll(lim, reg, front).value;
      OpenStaysWindow(lim, reg, front);
      BucketEffect(st, lim, reg, b);
      OpenWindowGrows(lim, reg, front, b, st.open, Closes(lim, reg, st, b));
    }
  }

  lemma {:induction false} SentStayWindows(lim: Limits, reg: Registry, order: seq<Bucket>)
    requires Usable(lim) && Distinct(order) && NoneEmpty(order) && AddAll(lim, reg, order).Ok?
    ensures AllWindows(lim, reg, order, AddAll(lim, reg, order).value.sent)
  {
    if order != [] {
      var front, b := order[..|order| - 1], order[|order| - 1];
      LastBucket(lim, reg, order);
      var st := AddAll(lim, reg, front).value;
      SentStayWindows(lim, reg, front);
      OpenStaysWindow(lim, reg, front);
      BucketEffect(st, lim, reg, b);
      OpenWindowGrows(lim, reg, front, b, st.open, true);
      SentAreWindows(lim, reg, front, b, st.sent);
    }
  }

  lemma OpenIsWindowToo(lim: Limits, reg: Registry, order: seq<Bucket>, open: Batch)
    requires Usable(lim) && OpenIsWindow(lim, reg, order, open)
    ensures WindowOrSmall(lim, reg, order, open)
  {
    var i :| 0 <= i <= |order| && open == RestsOf(lim, reg, order[i..]);
    assert order[i..] == order[i..|order|];
  }

  lemma MessagesAreWindows(lim: Limits, reg: Registry, order: seq<Bucket>)
    requires Usable(lim) && Distinct(order) && NoneEmpty(order) && AddAll(lim, reg, order).Ok?
    ensures AllWindows(lim, reg, order, Messages(AddAll(lim, reg, order).value))
  {
    SentStayWindows(lim, reg, order);
    OpenStaysWindow(lim, reg, order);
    OpenIsWindowToo(lim, reg, order, AddAll(lim, reg, order).value.open);
  }

  /** These buckets fit one message by load and by number, but not by size. */
  ghost predicate Overfull(lim: Limits, reg: Registry, some: seq<Bucket>)
    requires Usable(lim)
  {
    |some| <= lim.declMax && SumOver(some, SharedLoad(lim, reg)) <= lim.addrSectors < SumOver(some, RestSize(lim))
  }

  /** Something makes the shared message go out: a load, or too many declarations. */
  ghost predicate GetsSent(lim: Limits, reg: Registry, order: seq<Bucket>)
    requires Usable(lim)
  {
    (exists b :: b in order && SharedLoad(lim, reg)(b) > 0) || |order| > lim.declMax
  }

  /** The condition for exceeding the limit, whatever the order. */
  ghost predicate CanExceed(lim: Limits, reg: Registry, order: seq<Bucket>)
    requires Usable(lim)
  {
    (exists some :: multiset(some) <= multiset(order) && Overfull(lim, reg, some)) && GetsSent(lim, reg, order)
  }

  ghost predicate Exceeds(lim: Limits, reg: Registry, order: seq<Bucket>)
    requires Usable(lim)
  {
    && AddAll(lim, reg, order).Ok?
    && exists batch :: batch in Messages(AddAll(lim, reg, order).value) && Tally(batch, SizeOf()) > lim.addrSectors
  }

  lemma {:induction false} UnsentIsSmall(lim: Limits, reg: Registry, order: seq<Bucket>)
    requires Usable(lim) && Distinct(order) && NoneEmpty(order) && AddAll(lim, reg, order).Ok?
    requires !GetsSent(lim, reg, order)
    ensures var st := AddAll(lim, reg, order).value;
      && st.scount == 0 && |st.open| == |order|
      && forall batch :: batch in st.sent ==> Tally(batch, SizeOf()) <= lim.addrSectors
  {
    if order != [] {
      var front, b := order[..|order| - 1], order[|order| - 1];
      LastBucket(lim, reg, order);
      UnsentIsSmall(lim, reg, front);
      BucketEffect(AddAll(lim, reg, front).value, lim, reg, b);
      forall chunk | chunk in ChunksOf(reg, lim.addrSectors, b.loc, b.key, b.numbers)
        ensures Tally(chunk, SizeOf()) <= lim.addrSectors
      {
        ChunkIsSmall(lim, reg, b, chunk);
      }
    }
  }

  lemma WindowIsPart(order: seq<Bucket>, i: nat, j: nat)
    requires i <= j <= |order|
    ensures multiset(order[i..j]) <= multiset(order)
  {
    assert order == order[..i] + order[i..j] + order[j..];
    assert multiset(order) == multiset(order[..i]) + multiset(order[i..j]) + multiset(order[j..]);
  }

  lemma WindowIsOverfull(lim: Limits, reg: Registry, some: seq<Bucket>)
    requires Usable(lim) && Distinct(some) && KeepsLimits(lim, reg, RestsOf(lim, reg, some))
    requires Tally(RestsOf(lim, reg, some), SizeOf()) > lim.addrSectors
    ensures Overfull(lim, reg, some)
  {
    RestsTally(lim, reg, some);
  }

  lemma BigWindowShowsOverfull(lim: Limits, reg: Registry, order: seq<Bucket>, batch: Batch) returns (some: seq<Bucket>)
    requires Usable(lim) && Distinct(order) && WindowOrSmall(lim, reg, order, batch)
    requires KeepsLimits(lim, reg, batch) && Tally(batch, SizeOf()) > lim.addrSectors
    ensures multiset(some) <= multiset(order) && Overfull(lim, reg, some)
  {
    var i, j :| 0 <= i <= j <= |order| && batch == RestsOf(lim, reg, order[i..j]);
    some := order[i..j];
    WindowIsOverfull(lim, reg, some);
    WindowIsPart(order, i, j);
  }

  lemma BigMessage(lim: Limits, reg: Registry, order: seq<Bucket>) returns (batch: Batch)
    requires Usable(lim) && Distinct(order) && NoneEmpty(order) && Exceeds(lim, reg, order)
    ensures WindowOrSmall(lim, reg, order, batch) && KeepsLimits(lim, reg, batch)
    ensures Tally(batch, SizeOf()) > lim.addrSectors
    ensures GetsSent(lim, reg, order)
  {
    batch :| batch in Messages(AddAll(lim, reg, order).value) && Tally(batch, SizeOf()) > lim.addrSectors;
    MessagesAreWindows(lim, reg, order);
    MessagesKeepLimits(lim, reg, order);
    if !GetsSent(lim, reg, order) {
      UnsentIsSmall(lim, reg, order);
    }
  }

  lemma ExceedingNeedsOverfull(lim: Limits, reg: Registry, order: seq<Bucket>)
    requires Usable(lim) && Distinct(order) && NoneEmpty(order) && Exceeds(lim, reg, order)
    ensures CanExceed(lim, reg, order)
  {
    var batch := BigMessage(lim, reg, order);
    var some := BigWindowShowsOverfull(lim, reg, order, batch);
  }

  lemma TakeOneOut(some: seq<Bucket>, order: seq<Bucket>, i: nat)
    requires some != [] && multiset(some) <= multiset(order) && i < |order| && order[i] == some[|some| - 1]
    ensures multiset(some[..|some| - 1]) <= multiset(order[..i] + order[i + 1..])
    ensures multiset(order) == multiset(order[..i] + order[i + 1..]) + multiset{order[i]}
  {
    var front, b := some[..|some| - 1], order[i];
    assert some == front + [b];
    assert multiset(some) == multiset(front) + multiset{b};
    assert order == order[..i] + [b] + order[i + 1..];
    assert multiset(order) == multiset(order[..i] + order[i + 1..]) + multiset{b};
    forall x ensures multiset(front)[x] <= multiset(order[..i] + order[i + 1..])[x] {
      assert multiset(some)[x] <= multiset(order)[x];
    }
  }

  lemma {:induction false} Complement(some: seq<Bucket>, order: seq<Bucket>) returns (others: seq<Bucket>)
    requires multiset(some) <= multiset(order)
    ensures multiset(some) + multiset(others) == multiset(order)
  {
    if some == [] {
      others := order;
    } else {
      var front, b := some[..|some| - 1], some[|some| - 1];
      assert some == front + [b] && b in multiset(order);
      var i :| 0 <= i < |order| && order[i] == b;
      TakeOneOut(some, order, i);
      others := Complement(front, order[..i] + order[i + 1..]);
    }
  }

  lemma OneMoreFits(lim: Limits, reg: Registry, some: seq<Bucket>, b: Bucket, st: Packer)
    requires Usable(lim) && b.numbers != [] && NoRepeats(b.numbers) && AddBucket(st, lim, reg, b).Ok?
    requires |some| < lim.declMax && SumOver(some + [b], SharedLoad(lim, reg)) <= lim.addrSectors
    requires st.open == RestsOf(lim, reg, some) && st.scount == SumOver(some, SharedLoad(lim, reg))
    ensures AddBucket(st, lim, reg, b).value.open == RestsOf(lim, reg, some + [b])
    ensures AddBucket(st, lim, reg, b).value.scount == SumOver(some + [b], SharedLoad(lim, reg))
  {
    SumOverSnoc(some, b, SharedLoad(lim, reg));
    BucketEffect(st, lim, reg, b);
    RestsSnoc(lim, reg, some, b);
  }

  /** Buckets that fit one message by load and number stay together in the shared message. */
  lemma {:induction false} FittingStayTogether(lim: Limits, reg: Registry, some: seq<Bucket>)
    requires Usable(lim) && Distinct(some) && NoneEmpty(some) && AddAll(lim, reg, some).Ok?
    requires |some| <= lim.declMax && SumOver(some, SharedLoad(lim, reg)) <= lim.addrSectors
    ensures AddAll(lim, reg, some).value.open == RestsOf(lim, reg, some)
    ensures AddAll(lim, reg, some).value.scount == SumOver(some, SharedLoad(lim, reg))
  {
    if some != [] {
      var front, b := some[..|some| - 1], some[|some| - 1];
      LastBucket(lim, reg, some);
      SumOverSnoc(front, b, SharedLoad(lim, reg));
      FittingStayTogether(lim, reg, front);
      OneMoreFits(lim, reg, front, b, AddAll(lim, reg, front).value);
    }
  }

  /** They were sent together, or nothing has been closed since. */
  ghost predicate Together(lim: Limits, reg: Registry, some: seq<Bucket>, all: seq<Bucket>, st: Packer)
    requires Usable(lim)
  {
    || (exists batch :: batch in st.sent && RestsOf(lim, reg, some) <= batch)
    || (some <= all && st.open == RestsOf(lim, reg, all) && st.scount == SumOver(all, SharedLoad(lim, reg)))
  }

  lemma OneMoreTogether(lim: Limits, reg: Registry, some: seq<Bucket>, all: seq<Bucket>, b: Bucket, st: Packer)
    requires Usable(lim) && Together(lim, reg, some, all, st)
    requires b.numbers != [] && NoRepeats(b.numbers) && AddBucket(st, lim, reg, b).Ok?
    ensures Together(lim, reg, some, all + [b], AddBucket(st, lim, reg, b).value)
  {
    var st' := AddBucket(st, lim, reg, b).value;
    BucketEffect(st, lim, reg, b);
    RestsSnoc(lim, reg, all, b);
    SumOverSnoc(all, b, SharedLoad(lim, reg));
    if batch :| batch in st.sent && RestsOf(lim, reg, some) <= batch {
      assert batch in st'.sent;
    } else if Closes(lim, reg, st, b) {
      assert RestsOf(lim, reg, some) <= st.open;
      assert st.open in st'.sent;
    }
  }

  lemma {:induction false} StayTogether(lim: Limits, reg: Registry, some: seq<Bucket>, all: seq<Bucket>)
    requires Usable(lim) && some <= all && Distinct(all) && NoneEmpty(all) && AddAll(lim, reg, all).Ok?
    requires |some| <= lim.declMax && SumOver(some, SharedLoad(lim, reg)) <= lim.addrSectors
    ensures Together(lim, reg, some, all, AddAll(lim, reg, all).value)
  {
    if all == some {
      FittingStayTogether(lim, reg, some);
    } else {
      var front, b := all[..|all| - 1], all[|all| - 1];
      LastBucket(lim, reg, all);
      StayTogether(lim, reg, some, front);
      OneMoreTogether(lim, reg, some, front, b, AddAll(lim, reg, front).value);
    }
  }

  lemma {:induction false} PrefixTally(batch: Batch, prefix: Batch, f: Declaration -> nat)
    requires prefix <= batch
    ensures Tally(prefix, f) <= Tally(batch, f)
  {
    if prefix != batch {
      PrefixTally(batch[..|batch| - 1], prefix, f);
    }
  }

  lemma {:induction false} LoadOfMember(order: seq<Bucket>, b: Bucket, g: Bucket -> nat)
    requires b in order
    ensures SumOver(order, g) >= g(b)
  {
    var k := |order| - 1;
    if b != order[k] {
      assert b in order[..k];
      LoadOfMember(order[..k], b, g);
    }
  }

  lemma PositiveIsSent(lim: Limits, reg: Registry, all: seq<Bucket>, st: Packer)
    requires Usable(lim) && GetsSent(lim, reg, all) && st.scount == SumOver(all, SharedLoad(lim, reg))
    requires st.open == RestsOf(lim, reg, all) && |st.open| <= lim.declMax
    ensures st.open in Messages(st)
  {
    var b :| b in all && SharedLoad(lim, reg)(b) > 0;
    LoadOfMember(all, b, SharedLoad(lim, reg));
  }

  lemma TogetherIsSent(lim: Limits, reg: Registry, some: seq<Bucket>, all: seq<Bucket>, st: Packer)
      returns (batch: Batch)
    requires Usable(lim) && Together(lim, reg, some, all, st) && GetsSent(lim, reg, all)
    requires |st.open| <= lim.declMax
    ensures batch in Messages(st) && RestsOf(lim, reg, some) <= batch
  {
    if sent :| sent in st.sent && RestsOf(lim, reg, some) <= sent {
      batch := sent;
    } else {
      batch := st.open;
      PositiveIsSent(lim, reg, all, st);
    }
  }

  lemma OverfullFirstExceeds(lim: Limits, reg: Registry, some: seq<Bucket>, others: seq<Bucket>)
    requires Usable(lim) && Distinct(some + others) && NoneEmpty(some + others)
    requires AddAll(lim, reg, some + others).Ok?
    requires Overfull(lim, reg, some) && GetsSent(lim, reg, some + others)
    ensures Exceeds(lim, reg, some + others)
  {
    var all := some + others;
    StayTogether(lim, reg, some, all);
    PackingKeepsLimits(lim, reg, all);
    var batch := TogetherIsSent(lim, reg, some, all, AddAll(lim, reg, all).value);
    assert forall b :: b in some ==> b in all;
    RestsTally(lim, reg, some);
    PrefixTally(batch, RestsOf(lim, reg, some), SizeOf());
  }

  lemma SameMembers(a: seq<Bucket>, b: seq<Bucket>)
    requires multiset(a) == multiset(b)
    ensures |a| == |b| && forall x :: x in a <==> x in b
  {
    assert |multiset(a)| == |a| && |multiset(b)| == |b|;
    forall x ensures x in a <==> x in b {
      assert x in a <==> x in multiset(a);
      assert x in b <==> x in multiset(b);
    }
  }

  lemma PermutedStaysUsable(lim: Limits, reg: Registry, order: seq<Bucket>, other: seq<Bucket>)
    requires Usable(lim) && Distinct(order) && NoneEmpty(order) && AddAll(lim, reg, order).Ok?
    requires multiset(other) == multiset(order)
    ensures Distinct(other) && NoneEmpty(other) && AddAll(lim, reg, other).Ok?
    ensures CanExceed(lim, reg, other) <==> CanExceed(lim, reg, order)
  {
    SameMembers(other, order);
    PackingFailsIff(lim, reg, order);
    PackingFailsIff(lim, reg, other);
  }

  /** In some order a message declares more sectors than the limit, if and only if some of the buckets fit one
      message by load and by number but not by size, and the buckets hold anything extendable or are too
      many for one message. */
  lemma SomeOrderExceedsIff(lim: Limits, reg: Registry, order: seq<Bucket>)
    requires Usable(lim) && Distinct(order) && NoneEmpty(order) && AddAll(lim, reg, order).Ok?
    ensures (exists other :: multiset(other) == multiset(order) && Exceeds(lim, reg, other)) <==>
      CanExceed(lim, reg, order)
  {
    if other :| multiset(other) == multiset(order) && Exceeds(lim, reg, other) {
      PermutedStaysUsable(lim, reg, order, other);
      ExceedingNeedsOverfull(lim, reg, other);
    }
    if CanExceed(lim, reg, order) {
      var some :| multiset(some) <= multiset(order) && Overfull(lim, reg, some);
      var others := Complement(some, order);
      assert multiset(some + others) == multiset(some) + multiset(others);
      PermutedStaysUsable(lim, reg, order, some + others);
      OverfullFirstExceeds(lim, reg, some, others);
    }
  }

  // ---------------------------------------------------------------- in the orders Go can produce

  lemma EnumerationsPermute(ext: Extensions, a: seq<Bucket>, b: seq<Bucket>)
    requires Enumerates(ext, a) && Enumerates(ext, b)
    ensures multiset(a) == multiset(b)
  {
    forall x ensures multiset(a)[x] == multiset(b)[x] {
      NoRepeatsMultiplicity(a, x);
      NoRepeatsMultiplicity(b, x);
      assert x in a <==> x in b;
      assert x in multiset(a) <==> x in a;
      assert x in multiset(b) <==> x in b;
    }
  }

  ghost predicate OnePartition(order: seq<Bucket>) {
    forall a, b :: a in order && b in order ==> a.loc == b.loc
  }

  lemma OnePartitionEnumerates(ext: Extensions, order: seq<Bucket>, other: seq<Bucket>)
    requires Enumerates(ext, order) && multiset(other) == multiset(order) && OnePartition(order)
    ensures Enumerates(ext, other)
  {
    PermutationHasNoRepeats(other, order);
    SameMembers(other, order);
    forall i, j | 0 <= i < j < |other| ensures other[i].loc == other[j].loc {
      assert other[i] in other && other[j] in other;
    }
  }

  /** What this means for map iterations.  No order can exceed the limit unless the condition holds; where all
      buckets belong to one partition, some order does exactly if it holds. */
  lemma SomeIterationExceedsIff(lim: Limits, reg: Registry, ext: Extensions, order: seq<Bucket>)
    requires Usable(lim) && Enumerates(ext, order)
    requires Distinct(order) && NoneEmpty(order) && AddAll(lim, reg, order).Ok?
    ensures (exists other :: Enumerates(ext, other) && Exceeds(lim, reg, other)) ==> CanExceed(lim, reg, order)
    ensures OnePartition(order) ==>
      ((exists other :: Enumerates(ext, other) && Exceeds(lim, reg, other)) <==> CanExceed(lim, reg, order))
  {
    SomeOrderExceedsIff(lim, reg, order);
    if other :| Enumerates(ext, other) && Exceeds(lim, reg, other) {
      EnumerationsPermute(ext, other, order);
    }
    if OnePartition(order) {
      if other :| multiset(other) == multiset(order) && Exceeds(lim, reg, other) {
        OnePartitionEnumerates(ext, order, other);
      }
    }
  }
}
