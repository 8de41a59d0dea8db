/** What packing promises for every order the buckets may come in: nothing is lost or duplicated,
    every message keeps the limits, and there are not many more messages than needed. */
module PackingLaws {
  import opened Wrappers
  import opened Chain
  import opened Collections
  import opened Declarations
  import opened Packing

  // ---------------------------------------------------------------- measures over declarations

  function Tally(batch: Batch, f: Declaration -> nat): nat {
    if batch == [] then 0 else Tally(batch[..|batch| - 1], f) + f(batch[|batch| - 1])
  }

  function TallyAll(batches: seq<Batch>, f: Declaration -> nat): nat {
    if batches == [] then 0 else TallyAll(batches[..|batches| - 1], f) + Tally(batches[|batches| - 1], f)
  }

  /** One if the declaration extends sector n of partition l to the epoch key. */
  function Extending(l: Location, key: Epoch, n: SectorNumber): Declaration -> nat {
    (d: Declaration) =>
      if d.deadline == l.deadline && d.partition == l.partition && d.newExpiration == key && n in d.sectors then 1
      else 0
  }

  /** The sectors declared. */
  function SizeOf(): Declaration -> nat {
    (d: Declaration) => |d.sectors|
  }

  /** The sectors declared whose claims allow the extension. */
  function WeightOf(reg: Registry): Declaration -> nat {
    (d: Declaration) => |ExtendableIn(reg, d.sectors, d.newExpiration)|
  }

  function SumOver(order: seq<Bucket>, g: Bucket -> nat): nat {
    if order == [] then 0 else SumOver(order[..|order| - 1], g) + g(order[|order| - 1])
  }

  /** The measure of a bucket's whole list as one declaration. */
  function Whole(reg: Registry, f: Declaration -> nat): Bucket -> nat {
    (b: Bucket) => f(DeclarationFor(reg, b.loc, b.key, b.numbers))
  }

  /** Cutting a list in two cuts the measure of its declaration accordingly. */
  ghost predicate Additive(reg: Registry, f: Declaration -> nat) {
    && (forall l: Location, key: Epoch :: f(DeclarationFor(reg, l, key, [])) == 0)
    && (forall l: Location, key: Epoch, numbers: seq<SectorNumber>, i: nat ::
         i <= |numbers| && NoRepeats(numbers) ==> Splits(reg, f, l, key, numbers, i))
  }

  ghost predicate Splits(reg: Registry, f: Declaration -> nat, l: Location, key: Epoch, numbers: seq<SectorNumber>,
      i: nat)
    requires i <= |numbers|
  {
    f(DeclarationFor(reg, l, key, numbers)) ==
      f(DeclarationFor(reg, l, key, numbers[..i])) + f(DeclarationFor(reg, l, key, numbers[i..]))
  }

  lemma ExtendingIsAdditive(reg: Registry, l: Location, key: Epoch, n: SectorNumber)
    ensures Additive(reg, Extending(l, key, n))
  {
    var f := Extending(l, key, n);
    forall l': Location, key': Epoch, numbers: seq<SectorNumber>, i: nat | i <= |numbers| && NoRepeats(numbers)
      ensures Splits(reg, f, l', key', numbers, i)
    {
      SliceHasNoRepeats(numbers, i);
      assert n in Elements(numbers) <==> n in Elements(numbers[..i]) || n in Elements(numbers[i..]);
      assert !(n in Elements(numbers[..i]) && n in Elements(numbers[i..]));
    }
  }

  lemma SizeIsAdditive(reg: Registry)
    ensures Additive(reg, SizeOf())
  {
    assert Elements<SectorNumber>([]) == {};
    forall l: Location, key: Epoch, numbers: seq<SectorNumber>, i: nat | i <= |numbers| && NoRepeats(numbers)
      ensures Splits(reg, SizeOf(), l, key, numbers, i)
    {
      SliceHasNoRepeats(numbers, i);
    }
  }

  lemma WeightIsAdditive(reg: Registry)
    ensures Additive(reg, WeightOf(reg))
  {
    forall l: Location, key: Epoch ensures WeightOf(reg)(DeclarationFor(reg, l, key, [])) == 0 {
      assert ExtendableIn(reg, Elements([]), key) == {};
    }
    forall l: Location, key: Epoch, numbers: seq<SectorNumber>, i: nat | i <= |numbers| && NoRepeats(numbers)
      ensures Splits(reg, WeightOf(reg), l, key, numbers, i)
    {
      SliceHasNoRepeats(numbers, i);
      var a, b := ExtendableIn(reg, Elements(numbers[..i]), key), ExtendableIn(reg, Elements(numbers[i..]), key);
      assert ExtendableIn(reg, Elements(numbers), key) == a + b && a !! b;
    }
  }

  // ---------------------------------------------------------------- conservation

  lemma {:induction false} TallyAllConcat(a: seq<Batch>, b: seq<Batch>, f: Declaration -> nat)
    ensures TallyAll(a + b, f) == TallyAll(a, f) + TallyAll(b, f)
  {
    if b == [] {
      assert a + b == a;
    } else {
      assert (a + b)[..|a + b| - 1] == a + b[..|b| - 1];
      TallyAllConcat(a, b[..|b| - 1], f);
    }
  }

  lemma TallySnoc(batch: Batch, d: Declaration, f: Declaration -> nat)
    ensures Tally(batch + [d], f) == Tally(batch, f) + f(d)
  {
    assert (batch + [d])[..|batch|] == batch;
  }

  lemma TallyOne(d: Declaration, f: Declaration -> nat)
    ensures Tally([d], f) == f(d) && TallyAll([[d]], f) == f(d)
  {
    TallySnoc([], d, f);
    assert [] + [d] == [d];
    assert [[d]][..0] == [];
  }

  lemma TallyAllSnoc(a: seq<Batch>, b: Batch, f: Declaration -> nat)
    ensures TallyAll(a + [b], f) == TallyAll(a, f) + Tally(b, f)
  {
    assert (a + [b])[..|a|] == a;
  }

  lemma {:induction false} ChunksTally(reg: Registry, limit: nat, l: Location, key: Epoch,
      numbers: seq<SectorNumber>, f: Declaration -> nat)
    requires limit >= 1 && NoRepeats(numbers) && Additive(reg, f)
    ensures TallyAll(ChunksOf(reg, limit, l, key, numbers), f)
      + f(DeclarationFor(reg, l, key, Remainder(numbers, limit))) == f(DeclarationFor(reg, l, key, numbers))
    decreases |numbers|
  {
    if |numbers| > limit {
      var head := DeclarationFor(reg, l, key, numbers[..limit]);
      SliceHasNoRepeats(numbers, limit);
      ChunksTally(reg, limit, l, key, numbers[limit..], f);
      TallyAllConcat([[head]], ChunksOf(reg, limit, l, key, numbers[limit..]), f);
      TallyOne(head, f);
      assert Splits(reg, f, l, key, numbers, limit);
    }
  }

  lemma RestTally(st: Packer, lim: Limits, x: Built, f: Declaration -> nat)
    ensures var st' := AddRest(st, lim, x);
      TallyAll(st'.sent, f) + Tally(st'.open, f) == TallyAll(st.sent, f) + Tally(st.open, f) + f(x.declaration)
  {
    TallyAllSnoc(st.sent, st.open, f);
    TallyOne(x.declaration, f);
    TallySnoc(st.open, x.declaration, f);
  }

  lemma BucketTally(st: Packer, lim: Limits, reg: Registry, b: Bucket, f: Declaration -> nat)
    requires Usable(lim) && NoRepeats(b.numbers) && AddBucket(st, lim, reg, b).Ok? && Additive(reg, f)
    ensures var st' := AddBucket(st, lim, reg, b).value;
      TallyAll(st'.sent, f) + Tally(st'.open, f)
        == TallyAll(st.sent, f) + Tally(st.open, f) + f(DeclarationFor(reg, b.loc, b.key, b.numbers))
  {
    if b.numbers != [] {
      var x, blocked := BucketShape(st, lim, reg, b);
      var chunks := ChunksOf(reg, lim.addrSectors, b.loc, b.key, b.numbers);
      RestTally(Packer(st.sent + chunks, st.open, st.scount, blocked), lim, x, f);
      TallyAllConcat(st.sent, chunks, f);
      ChunksTally(reg, lim.addrSectors, b.loc, b.key, b.numbers, f);
    }
  }

  /** Packing conserves every additive measure, whatever the order of the buckets. */
  lemma {:induction false} PackingConserves(lim: Limits, reg: Registry, order: seq<Bucket>, f: Declaration -> nat)
    requires Usable(lim) && Distinct(order) && AddAll(lim, reg, order).Ok? && Additive(reg, f)
    ensures var st := AddAll(lim, reg, order).value;
      TallyAll(st.sent, f) + Tally(st.open, f) == SumOver(order, Whole(reg, f))
  {
    if order != [] {
      var front, last := order[..|order| - 1], order[|order| - 1];
      PackingConserves(lim, reg, front, f);
      BucketTally(AddAll(lim, reg, front).value, lim, reg, last, f);
    }
  }

  /** Conservation of the extendable load: what the messages sent can extend adds up to what the buckets
      can, for every order; a message not sent has none. */
  lemma LoadIsConserved(lim: Limits, reg: Registry, order: seq<Bucket>)
    requires Usable(lim) && Distinct(order) && AddAll(lim, reg, order).Ok?
    ensures TallyAll(Messages(AddAll(lim, reg, order).value), WeightOf(reg)) ==
      SumOver(order, Whole(reg, WeightOf(reg)))
  {
    var st := AddAll(lim, reg, order).value;
    WeightIsAdditive(reg);
    PackingConserves(lim, reg, order, WeightOf(reg));
    PackingKeepsLimits(lim, reg, order);
    TallyAllSnoc(st.sent, st.open, WeightOf(reg));
  }

  /** One if the bucket sends sector n of partition l to key. */
  function Holds(l: Location, key: Epoch, n: SectorNumber): Bucket -> nat {
    (b: Bucket) => if b.loc == l && b.key == key && n in b.numbers then 1 else 0
  }

  lemma {:induction false} ExtendingCountsBuckets(reg: Registry, order: seq<Bucket>, l: Location, key: Epoch,
      n: SectorNumber)
    ensures SumOver(order, Whole(reg, Extending(l, key, n))) == SumOver(order, Holds(l, key, n))
  {
    if order != [] {
      ExtendingCountsBuckets(reg, order[..|order| - 1], l, key, n);
      var b := order[|order| - 1];
      assert b.loc == l <==> b.loc.deadline == l.deadline && b.loc.partition == l.partition;
      assert n in b.numbers <==> n in Elements(b.numbers);
      assert Extending(l, key, n)(DeclarationFor(reg, b.loc, b.key, b.numbers)) == Holds(l, key, n)(b);
      assert Whole(reg, Extending(l, key, n))(b) == Extending(l, key, n)(DeclarationFor(reg, b.loc, b.key, b.numbers));
    }
  }

  /** Conservation of sectors: over the closed messages and the open one together, sector n of
      partition l is declared for the epoch key exactly as often as buckets held it there. */
  lemma SectorsAreConserved(lim: Limits, reg: Registry, order: seq<Bucket>, l: Location, key: Epoch, n: SectorNumber)
    requires Usable(lim) && Distinct(order) && AddAll(lim, reg, order).Ok?
    ensures var st := AddAll(lim, reg, order).value;
      TallyAll(st.sent, Extending(l, key, n)) + Tally(st.open, Extending(l, key, n)) == SumOver(order, Holds(l, key, n))
  {
    ExtendingIsAdditive(reg, l, key, n);
    PackingConserves(lim, reg, order, Extending(l, key, n));
    ExtendingCountsBuckets(reg, order, l, key, n);
  }

  lemma {:induction false} NoWeightNoExtendable(reg: Registry, batch: Batch, l: Location, key: Epoch, n: SectorNumber)
    requires Tally(batch, WeightOf(reg)) == 0 && Extendable(reg, n, key)
    ensures Tally(batch, Extending(l, key, n)) == 0
  {
    if batch != [] {
      var d := batch[|batch| - 1];
      NoWeightNoExtendable(reg, batch[..|batch| - 1], l, key, n);
      assert ExtendableIn(reg, d.sectors, d.newExpiration) == {};
      assert Extending(l, key, n)(d) == 1 ==> n in ExtendableIn(reg, d.sectors, d.newExpiration);
    }
  }

  /** No extendable sector is lost: the messages actually returned declare every extendable sector as
      often as buckets held it.  Only a last message in which nothing can be extended is not sent. */
  lemma NoExtendableSectorIsLost(lim: Limits, reg: Registry, order: seq<Bucket>, l: Location, key: Epoch,
      n: SectorNumber)
    requires Usable(lim) && Distinct(order) && AddAll(lim, reg, order).Ok?
    ensures var st := AddAll(lim, reg, order).value;
      var declared := TallyAll(Messages(st), Extending(l, key, n));
      && (Extendable(reg, n, key) ==> declared == SumOver(order, Holds(l, key, n)))
      && declared <= SumOver(order, Holds(l, key, n))
      && (st.scount != 0 ==> declared == SumOver(order, Holds(l, key, n)))
  {
    var st := AddAll(lim, reg, order).value;
    var f := Extending(l, key, n);
    SectorsAreConserved(lim, reg, order, l, key, n);
    PackingKeepsLimits(lim, reg, order);
    TallyAllSnoc(st.sent, st.open, f);
    if st.scount == 0 && Extendable(reg, n, key) {
      NoWeightNoExtendable(reg, st.open, l, key, n);
    }
  }

  // ---------------------------------------------------------------- claim entries

  ghost predicate AllClaimsOk(reg: Registry, batches: seq<Batch>) {
    forall batch: Batch, d :: batch in batches && d in batch ==> ClaimsOk(reg, d)
  }

  lemma {:induction false} ChunkClaimsOk(reg: Registry, limit: nat, l: Location, key: Epoch, numbers: seq<SectorNumber>)
    requires limit >= 1 && NoRepeats(numbers)
    ensures AllClaimsOk(reg, ChunksOf(reg, limit, l, key, numbers))
    decreases |numbers|
  {
    if |numbers| > limit {
      SliceHasNoRepeats(numbers, limit);
      DeclaredClaimsOk(reg, l, key, numbers[..limit]);
      ChunkClaimsOk(reg, limit, l, key, numbers[limit..]);
    }
  }

  /** Packing leaves every declaration its claim entries. */
  lemma {:induction false} PackedClaimsOk(lim: Limits, reg: Registry, order: seq<Bucket>)
    requires Usable(lim) && Distinct(order) && AddAll(lim, reg, order).Ok?
    ensures AllClaimsOk(reg, AddAll(lim, reg, order).value.sent + [AddAll(lim, reg, order).value.open])
  {
    if order != [] {
      var front, b := order[..|order| - 1], order[|order| - 1];
      PackedClaimsOk(lim, reg, front);
      if b.numbers != [] {
        var st := AddAll(lim, reg, front).value;
        var x, blocked := BucketShape(st, lim, reg, b);
        ChunkClaimsOk(reg, lim.addrSectors, b.loc, b.key, b.numbers);
        RemainderIsSmall(b.numbers, lim.addrSectors);
        DeclaredClaimsOk(reg, b.loc, b.key, Remainder(b.numbers, lim.addrSectors));
        assert st.open in st.sent + [st.open];
      }
    }
  }

  // ---------------------------------------------------------------- capacity

  /** A message within the limits: at least one and at most declMax declarations, none of them empty,
      and at most addrSectors extendable sectors. */
  ghost predicate KeepsLimits(lim: Limits, reg: Registry, batch: Batch) {
    && 1 <= |batch| <= lim.declMax
    && Tally(batch, WeightOf(reg)) <= lim.addrSectors
    && forall d :: d in batch ==> d.sectors != {}
  }

  /** The running count is the extendable load of the open message. */
  ghost predicate PackerOk(lim: Limits, reg: Registry, st: Packer) {
    && (forall batch :: batch in st.sent ==> KeepsLimits(lim, reg, batch))
    && st.scount == Tally(st.open, WeightOf(reg)) <= lim.addrSectors
    && (st.open != [] ==> KeepsLimits(lim, reg, st.open))
  }

  lemma BuiltWeight(reg: Registry, l: Location, key: Epoch, numbers: seq<SectorNumber>)
    requires NoRepeats(numbers) && Build(reg, l, key, numbers).Ok?
    ensures var x := Build(reg, l, key, numbers).value;
      && x.declaration == DeclarationFor(reg, l, key, numbers)
      && x.sectorsInDecl == WeightOf(reg)(x.declaration) <= |numbers|
      && (numbers != [] ==> x.declaration.sectors != {})
  {
    BuildSplitsInput(reg, l, key, numbers);
    if numbers != [] {
      assert numbers[0] in Elements(numbers);
    }
  }

  lemma RestKeepsLimits(st: Packer, lim: Limits, reg: Registry, x: Built)
    requires Usable(lim) && PackerOk(lim, reg, st)
    requires x.sectorsInDecl == WeightOf(reg)(x.declaration) <= lim.addrSectors && x.declaration.sectors != {}
    ensures PackerOk(lim, reg, AddRest(st, lim, x))
  {
    var st' := AddRest(st, lim, x);
    TallyOne(x.declaration, WeightOf(reg));
    TallySnoc(st.open, x.declaration, WeightOf(reg));
    if Overflows(st, lim, x) {
      assert st.open != [];
      forall batch | batch in st'.sent ensures KeepsLimits(lim, reg, batch) {
        assert batch in st.sent || batch == st.open;
      }
    }
  }

  lemma ChunkKeepsLimits(lim: Limits, reg: Registry, chunk: Batch)
    requires Usable(lim) && |chunk| == 1 && |chunk[0].sectors| == lim.addrSectors
    ensures KeepsLimits(lim, reg, chunk)
  {
    var d := chunk[0];
    assert chunk == [d];
    TallyOne(d, WeightOf(reg));
    SubsetIsSmaller(ExtendableIn(reg, d.sectors, d.newExpiration), d.sectors);
  }

  lemma BucketKeepsLimits(st: Packer, lim: Limits, reg: Registry, b: Bucket)
    requires Usable(lim) && NoRepeats(b.numbers) && AddBucket(st, lim, reg, b).Ok? && PackerOk(lim, reg, st)
    ensures PackerOk(lim, reg, AddBucket(st, lim, reg, b).value)
  {
    if b.numbers != [] {
      var limit := lim.addrSectors;
      var x, blocked := BucketShape(st, lim, reg, b);
      var chunks := ChunksOf(reg, limit, b.loc, b.key, b.numbers);
      ChunksAreFull(reg, limit, b.loc, b.key, b.numbers);
      BuiltWeight(reg, b.loc, b.key, Remainder(b.numbers, limit));
      var st1 := Packer(st.sent + chunks, st.open, st.scount, blocked);
      forall batch | batch in st1.sent ensures KeepsLimits(lim, reg, batch) {
        if batch in chunks {
          ChunkKeepsLimits(lim, reg, batch);
        }
      }
      RestKeepsLimits(st1, lim, reg, x);
    }
  }

  lemma {:induction false} PackingKeepsLimits(lim: Limits, reg: Registry, order: seq<Bucket>)
    requires Usable(lim) && Distinct(order) && AddAll(lim, reg, order).Ok?
    ensures PackerOk(lim, reg, AddAll(lim, reg, order).value)
  {
    if order != [] {
      var front, last := order[..|order| - 1], order[|order| - 1];
      PackingKeepsLimits(lim, reg, front);
      BucketKeepsLimits(AddAll(lim, reg, front).value, lim, reg, last);
    }
  }

  /** Every message returned keeps the limits, and of those built only a last one in which nothing can be
      extended is held back. */
  lemma MessagesKeepLimits(lim: Limits, reg: Registry, order: seq<Bucket>)
    requires Usable(lim) && Distinct(order) && AddAll(lim, reg, order).Ok?
    ensures var st := AddAll(lim, reg, order).value;
      Messages(st) == st.sent + if Tally(st.open, WeightOf(reg)) == 0 then [] else [st.open]
    ensures forall batch :: batch in Messages(AddAll(lim, reg, order).value) ==> KeepsLimits(lim, reg, batch)
  {
    PackingKeepsLimits(lim, reg, order);
    var st := AddAll(lim, reg, order).value;
    if st.scount != 0 {
      assert st.open != [];
    }
  }

  lemma {:induction false} TallyIsPositive(batch: Batch, d: Declaration, f: Declaration -> nat)
    requires d in batch && f(d) >= 1
    ensures Tally(batch, f) >= 1
  {
    var k := |batch| - 1;
    if d != batch[k] {
      assert d in batch[..k];
      TallyIsPositive(batch[..k], d, f);
    }
  }

  lemma {:induction false} TallyAllIsPositive(batches: seq<Batch>, batch: Batch, d: Declaration, f: Declaration -> nat)
    requires batch in batches && d in batch && f(d) >= 1
    ensures TallyAll(batches, f) >= 1
  {
    var k := |batches| - 1;
    if batch != batches[k] {
      assert batch in batches[..k];
      TallyAllIsPositive(batches[..k], batch, d, f);
    } else {
      TallyIsPositive(batch, d, f);
    }
  }

  lemma {:induction false} SomeBucketHolds(order: seq<Bucket>, l: Location, key: Epoch, n: SectorNumber)
    requires SumOver(order, Holds(l, key, n)) >= 1
    ensures exists b :: b in order && b.loc == l && b.key == key && n in b.numbers
  {
    var k := |order| - 1;
    if Holds(l, key, n)(order[k]) == 0 {
      SomeBucketHolds(order[..k], l, key, n);
    } else {
      assert order[k] in order;
    }
  }

  lemma {:induction false} ReportedWith(reg: Registry, order: seq<Bucket>, b: Bucket, n: SectorNumber)
    requires Distinct(order) && b in order && n in b.numbers && StandingOf(reg, n, b.key).Blocked?
    ensures n in AllBlocked(reg, order)
  {
    var k := |order| - 1;
    if b == order[k] {
      KeptAndBlockedCounts(reg, b.numbers, b.key);
    } else {
      assert b in order[..k];
      ReportedWith(reg, order[..k], b, n);
    }
  }

  /** What the message held back leaves out is reported: every sector in it is among those that cannot be
      extended, unless its claim record is an empty list. */
  lemma UnsentIsReported(lim: Limits, reg: Registry, order: seq<Bucket>, d: Declaration, n: SectorNumber)
    requires Usable(lim) && Distinct(order) && AddAll(lim, reg, order).Ok?
    requires AddAll(lim, reg, order).value.scount == 0
    requires d in AddAll(lim, reg, order).value.open && n in d.sectors
    ensures StandingOf(reg, n, d.newExpiration).Bare? || n in AddAll(lim, reg, order).value.blocked
  {
    var st := AddAll(lim, reg, order).value;
    var l, key := Location(d.deadline, d.partition), d.newExpiration;
    SectorsAreConserved(lim, reg, order, l, key, n);
    TallyIsPositive(st.open, d, Extending(l, key, n));
    SomeBucketHolds(order, l, key, n);
    var b :| b in order && b.loc == l && b.key == key && n in b.numbers;
    PackingFailsIff(lim, reg, order);
    PackingKeepsLimits(lim, reg, order);
    if Extendable(reg, n, key) {
      NoWeightNoExtendable(reg, st.open, l, key, n);
    } else if StandingOf(reg, n, key).Blocked? {
      BlockedAreReported(lim, reg, order);
      ReportedWith(reg, order, b, n);
    }
  }

  // ---------------------------------------------------------------- the whole bitfield

  ghost predicate NoneHeldBack(reg: Registry, batch: Batch) {
    forall d, n :: d in batch && n in d.sectors ==> Extendable(reg, n, d.newExpiration)
  }

  lemma LoadOfOne(reg: Registry, d: Declaration)
    ensures WeightOf(reg)(d) <= SizeOf()(d)
    ensures WeightOf(reg)(d) == SizeOf()(d) <==> forall n :: n in d.sectors ==> Extendable(reg, n, d.newExpiration)
  {
    var can := ExtendableIn(reg, d.sectors, d.newExpiration);
    SubsetIsSmaller(can, d.sectors);
    if n :| n in d.sectors && !Extendable(reg, n, d.newExpiration) {
      SubsetIsSmaller(can, d.sectors - {n});
    } else {
      assert can == d.sectors;
    }
  }

  /** The bitfields of a message hold at least its extendable load, and exactly that load if and only if no
      sector in it is held back by its claims. */
  lemma {:induction false} LoadIsSizeIff(reg: Registry, batch: Batch)
    ensures Tally(batch, WeightOf(reg)) <= Tally(batch, SizeOf())
    ensures Tally(batch, WeightOf(reg)) == Tally(batch, SizeOf()) <==> NoneHeldBack(reg, batch)
  {
    if batch != [] {
      var k := |batch| - 1;
      var front, d := batch[..k], batch[k];
      LoadIsSizeIff(reg, front);
      LoadOfOne(reg, d);
      assert forall e :: e in batch <==> e in front || e == d by {
        assert batch == front + [d];
      }
    }
  }

  lemma BuildOne(reg: Registry, l: Location, key: Epoch, n: SectorNumber)
    requires !StandingOf(reg, n, key).Unknown?
    ensures Build(reg, l, key, [n]).Ok? && Build(reg, l, key, [n]).value.declaration.sectors == {n}
    ensures Build(reg, l, key, [n]).value.sectorsInDecl == if Extendable(reg, n, key) then 1 else 0
  {
    BuildFailsIff(reg, l, key, [n]);
    BuiltWeight(reg, l, key, [n]);
    assert Elements([n]) == {n};
    assert ExtendableIn(reg, {n}, key) == if Extendable(reg, n, key) then {n} else {};
  }

  lemma AddOne(lim: Limits, reg: Registry, b: Bucket, m: SectorNumber)
    requires Usable(lim) && b.numbers == [m] && StandingOf(reg, m, b.key).Blocked?
    ensures Build(reg, b.loc, b.key, [m]).Ok?
    ensures var x := Build(reg, b.loc, b.key, [m]).value;
      AddAll(lim, reg, [b]) == Ok(Packer([], [x.declaration], 0, x.blocked))
  {
    BuildOne(reg, b.loc, b.key, m);
    var x := Build(reg, b.loc, b.key, [m]).value;
    assert [b][..0] == [];
    assert AddBucket(EMPTY, lim, reg, b) == Ok(AddRest(EMPTY, lim, x));
    assert [] + [x.declaration] == [x.declaration] && [] + x.blocked == x.blocked;
  }

  /** One blocked sector and then one unclaimed sector end up in one message. */
  lemma BlockedThenPlain(lim: Limits, reg: Registry, first: Bucket, m: SectorNumber, second: Bucket, n: SectorNumber)
    requires lim == Limits(1, 2) && first.numbers == [m] && second.numbers == [n]
    requires StandingOf(reg, m, first.key).Blocked? && StandingOf(reg, n, second.key).Plain?
    ensures var r := AddAll(lim, reg, [first, second]);
      && r.Ok? && |Messages(r.value)| == 1
      && Tally(Messages(r.value)[0], WeightOf(reg)) == 1 && Tally(Messages(r.value)[0], SizeOf()) == 2
  {
    BuildOne(reg, first.loc, first.key, m);
    BuildOne(reg, second.loc, second.key, n);
    var x := Build(reg, first.loc, first.key, [m]).value;
    var y := Build(reg, second.loc, second.key, [n]).value;
    var st := Packer([], [x.declaration], 0, x.blocked);
    AddOne(lim, reg, first, m);
    assert [first, second][..1] == [first];
    assert AddBucket(st, lim, reg, second) == Ok(AddRest(st, lim, y));
    var batch := [x.declaration] + [y.declaration];
    assert AddRest(st, lim, y) == Packer([], batch, 1, x.blocked + y.blocked);
    TallyOne(x.declaration, SizeOf());
    TallySnoc([x.declaration], y.declaration, SizeOf());
    PackingKeepsLimits(lim, reg, [first, second]);
  }

  /** The sector limit does not bound the bitfields: with one sector to a message, a blocked sector and an
      unclaimed one, of two keys of one partition, are declared in the same message. */
  lemma BitfieldExceedsLimit()
    ensures var reg := Registry(map[1 := [7]], map[7 := Claim(0, 5)]);
      var l := Location(0, 0);
      var order := [Bucket(l, 10, [1]), Bucket(l, 20, [2])];
      var r := AddAll(Limits(1, 2), reg, order);
      && StandingOf(reg, 1, 10).Blocked? && StandingOf(reg, 2, 20).Plain?
      && r.Ok? && |Messages(r.value)| == 1
      && Tally(Messages(r.value)[0], WeightOf(reg)) == 1 && Tally(Messages(r.value)[0], SizeOf()) == 2
  {
    var reg := Registry(map[1 := [7]], map[7 := Claim(0, 5)]);
    var l, lim := Location(0, 0), Limits(1, 2);
    var first, second := Bucket(l, 10, [1]), Bucket(l, 20, [2]);
    assert FirstObstacle(reg, [7], 10) == 0;
    BlockedThenPlain(lim, reg, first, 1, second, 2);
  }

  // ---------------------------------------------------------------- how many messages

  /** The extendable sectors a bucket sends through the shared message. */
  function SharedLoad(lim: Limits, reg: Registry): Bucket -> nat
    requires Usable(lim)
  {
    (b: Bucket) => WeightOf(reg)(DeclarationFor(reg, b.loc, b.key, Remainder(b.numbers, lim.addrSectors)))
  }

  /** The declarations a bucket sends through the shared message: one, unless it is empty. */
  function SharedDeclarations(): Bucket -> nat {
    (b: Bucket) => if b.numbers == [] then 0 else 1
  }

  function ChunksPer(lim: Limits): Bucket -> nat
    requires Usable(lim)
  {
    (b: Bucket) => ChunkCount(|b.numbers|, lim.addrSectors)
  }

  /** `bySize` messages were closed because the next declaration did not fit, `byCount` because they
      held the maximal number of declarations.  Two neighbours around a size flush together exceed
      the sector limit, so twice the load so far pays for all of them. */
  ghost predicate Accounted(lim: Limits, chunks: nat, load: nat, declarations: nat,
      st: Packer, bySize: nat, byCount: nat)
  {
    && |st.sent| == chunks + bySize + byCount
    && bySize * (lim.addrSectors + 1) + st.scount <= 2 * load
    && byCount * lim.declMax + |st.open| <= declarations
  }

  lemma MulNext(k: nat, m: nat)
    ensures (k + 1) * m == k * m + m
  {}

  lemma AccountForRest(lim: Limits, chunks: nat, load: nat, declarations: nat, st: Packer, bySize: nat, byCount: nat,
      x: Built)
      returns (bySize': nat, byCount': nat)
    requires Accounted(lim, chunks, load, declarations, st, bySize, byCount)
    ensures Accounted(lim, chunks, load + x.sectorsInDecl, declarations + 1, AddRest(st, lim, x), bySize', byCount')
  {
    bySize', byCount' := bySize, byCount;
    if st.scount + x.sectorsInDecl > lim.addrSectors {
      bySize' := bySize + 1;
      MulNext(bySize, lim.addrSectors + 1);
    } else if |st.open| >= lim.declMax {
      byCount' := byCount + 1;
      MulNext(byCount, lim.declMax);
    }
  }

  lemma {:induction false} AccountForAll(lim: Limits, reg: Registry, order: seq<Bucket>)
      returns (bySize: nat, byCount: nat)
    requires Usable(lim) && Distinct(order) && AddAll(lim, reg, order).Ok?
    ensures Accounted(lim, SumOver(order, ChunksPer(lim)), SumOver(order, SharedLoad(lim, reg)),
                      SumOver(order, SharedDeclarations()), AddAll(lim, reg, order).value, bySize, byCount)
  {
    if order == [] {
      bySize, byCount := 0, 0;
    } else {
      var front, b := order[..|order| - 1], order[|order| - 1];
      var st, limit := AddAll(lim, reg, front).value, lim.addrSectors;
      var chunks, load, decls :=
        SumOver(front, ChunksPer(lim)), SumOver(front, SharedLoad(lim, reg)), SumOver(front, SharedDeclarations());
      bySize, byCount := AccountForAll(lim, reg, front);
      if b.numbers == [] {
        assert ExtendableIn(reg, Elements([]), b.key) == {};
      } else {
        var x, blocked := BucketShape(st, lim, reg, b);
        ChunksAreFull(reg, limit, b.loc, b.key, b.numbers);
        BuiltWeight(reg, b.loc, b.key, Remainder(b.numbers, limit));
        var st1 := Packer(st.sent + ChunksOf(reg, limit, b.loc, b.key, b.numbers), st.open, st.scount, blocked);
        chunks := chunks + ChunkCount(|b.numbers|, limit);
        bySize, byCount := AccountForRest(lim, chunks, load, decls, st1, bySize, byCount, x);
      }
    }
  }

  lemma AtMostQuotient(f: nat, m: nat, total: nat)
    requires m >= 1 && f * m <= total
    ensures f <= total / m
  {
    var q, r := total / m, total % m;
    assert total == q * m + r;
    if f > q {
      MulAtLeast(f - q, m);
    }
  }

  lemma AccountedBound(lim: Limits, chunks: nat, load: nat, declarations: nat,
      st: Packer, bySize: nat, byCount: nat)
    requires Usable(lim) && Accounted(lim, chunks, load, declarations, st, bySize, byCount)
    ensures |Messages(st)| <= chunks + 2 * load / (lim.addrSectors + 1) + declarations / lim.declMax + 1
  {
    AtMostQuotient(bySize, lim.addrSectors + 1, 2 * load);
    AtMostQuotient(byCount, lim.declMax, declarations);
  }

  /** The number of messages: one per full chunk; for a shared load of so many extendable sectors in so many
      declarations at most 2 load / (addrSectors + 1) + declarations / declMax flushes of the shared
      message; and one last message. */
  lemma MessageCountBound(lim: Limits, reg: Registry, order: seq<Bucket>)
    requires Usable(lim) && Distinct(order) && AddAll(lim, reg, order).Ok?
    ensures var load, declarations := SumOver(order, SharedLoad(lim, reg)), SumOver(order, SharedDeclarations());
      |Messages(AddAll(lim, reg, order).value)|
        <= SumOver(order, ChunksPer(lim)) + 2 * load / (lim.addrSectors + 1) + declarations / lim.declMax + 1
  {
    var chunks := SumOver(order, ChunksPer(lim));
    var load, declarations := SumOver(order, SharedLoad(lim, reg)), SumOver(order, SharedDeclarations());
    var bySize, byCount := AccountForAll(lim, reg, order);
    AccountedBound(lim, chunks, load, declarations, AddAll(lim, reg, order).value, bySize, byCount);
  }

  function DeclarationsIn(batches: seq<Batch>): nat {
    if batches == [] then 0 else DeclarationsIn(batches[..|batches| - 1]) + |batches[|batches| - 1]|
  }

  lemma {:induction false} BatchesCarryAtMost(lim: Limits, reg: Registry, batches: seq<Batch>)
    requires forall batch :: batch in batches ==>
      |batch| <= lim.declMax && Tally(batch, WeightOf(reg)) <= lim.addrSectors
    ensures TallyAll(batches, WeightOf(reg)) <= |batches| * lim.addrSectors
    ensures DeclarationsIn(batches) <= |batches| * lim.declMax
  {
    if batches != [] {
      var k := |batches| - 1;
      BatchesCarryAtMost(lim, reg, batches[..k]);
      assert batches[k] in batches;
      MulNext(k, lim.addrSectors);
      MulNext(k, lim.declMax);
    }
  }

  lemma TwicePays(f: nat, limit: nat, m: nat, load: nat)
    requires f * (limit + 1) <= 2 * load && load <= m * limit
    ensures f <= 2 * m
  {
    if f > 2 * m {
      MulAtLeast(f - 2 * m, limit + 1);
    }
  }

  lemma OncePays(f: nat, declMax: nat, m: nat, declarations: nat)
    requires declMax >= 1 && f * declMax <= declarations <= m * declMax
    ensures f <= m
  {
    if f > m {
      MulAtLeast(f - m, declMax);
    }
  }

  /** Next-fit is never far off: if some other way to send at least the same load in at least as many
      declarations within the limits takes m messages, the shared message is flushed at most 3m times. */
  lemma FlushesWithinThreeTimesAnyPacking(lim: Limits, reg: Registry, order: seq<Bucket>, other: seq<Batch>)
    requires Usable(lim) && Distinct(order) && AddAll(lim, reg, order).Ok?
    requires forall batch :: batch in other ==> |batch| <= lim.declMax && Tally(batch, WeightOf(reg)) <= lim.addrSectors
    requires TallyAll(other, WeightOf(reg)) >= SumOver(order, SharedLoad(lim, reg))
    requires DeclarationsIn(other) >= SumOver(order, SharedDeclarations())
    ensures |Messages(AddAll(lim, reg, order).value)| <= SumOver(order, ChunksPer(lim)) + 3 * |other| + 1
  {
    var bySize, byCount := AccountForAll(lim, reg, order);
    BatchesCarryAtMost(lim, reg, other);
    TwicePays(bySize, lim.addrSectors, |other|, SumOver(order, SharedLoad(lim, reg)));
    OncePays(byCount, lim.declMax, |other|, SumOver(order, SharedDeclarations()));
  }

  // ---------------------------------------------------------------- sums do not depend on the order

  lemma {:induction false} SumOverWithout(order: seq<Bucket>, i: nat, g: Bucket -> nat)
    requires i < |order|
    ensures SumOver(order, g) == SumOver(order[..i] + order[i + 1..], g) + g(order[i])
  {
    var n := |order| - 1;
    var without := order[..i] + order[i + 1..];
    if i == n {
      assert without == order[..n];
    } else {
      SumOverWithout(order[..n], i, g);
      assert without[..|without| - 1] == order[..n][..i] + order[..n][i + 1..];
    }
  }

  lemma TakeOut(a: seq<Bucket>, b: seq<Bucket>, i: nat)
    requires a != [] && multiset(a) == multiset(b) && i < |b| && b[i] == a[|a| - 1]
    ensures multiset(a[..|a| - 1]) == multiset(b[..i] + b[i + 1..])
  {
    var x := b[i];
    assert a == a[..|a| - 1] + [x];
    assert multiset(a) == multiset(a[..|a| - 1]) + multiset{x};
    assert b == b[..i] + [x] + b[i + 1..];
    assert multiset(b) == multiset(b[..i] + b[i + 1..]) + multiset{x};
    assert multiset(a[..|a| - 1]) == multiset(a) - multiset{x};
    assert multiset(b[..i] + b[i + 1..]) == multiset(b) - multiset{x};
  }

  /** What a run over the buckets adds up to is the same for every iteration order: the terms of the
      bound on the number of messages, and how often a sector is to be declared. */
  lemma {:induction false} SumOverAnyOrder(a: seq<Bucket>, b: seq<Bucket>, g: Bucket -> nat)
    requires multiset(a) == multiset(b)
    ensures SumOver(a, g) == SumOver(b, g)
  {
    if a == [] {
      assert |multiset(b)| == |b|;
    } else {
      var x := a[|a| - 1];
      assert x in multiset(b);
      var i :| 0 <= i < |b| && b[i] == x;
      TakeOut(a, b, i);
      SumOverAnyOrder(a[..|a| - 1], b[..i] + b[i + 1..], g);
      SumOverWithout(b, i, g);
    }
  }
}
