/** The packing loops of `extend` (service.go): over partitions, over the expirations of a partition,
    and over the full chunks of an oversized bucket. */
module PackLoop {
  import opened Wrappers
  import opened Chain
  import opened Collections
  import opened Buckets
  import opened Declarations
  import opened Packing

  ghost predicate IsBucketOf(ext: Extensions, b: Bucket) {
    b.loc in ext && b.key in ext[b.loc] && ext[b.loc][b.key] == b.numbers
  }

  /** The buckets of a partition are met together. */
  ghost predicate ByPartition(order: seq<Bucket>) {
    forall i, j, k :: 0 <= i < j < k < |order| && order[i].loc == order[k].loc ==> order[j].loc == order[i].loc
  }

  /** An order in which two nested map iterations may meet the buckets: each once, partition by partition. */
  ghost predicate Enumerates(ext: Extensions, order: seq<Bucket>) {
    NoRepeats(order) && ByPartition(order) && forall b :: b in order <==> IsBucketOf(ext, b)
  }

  /** One bucket: full chunks first, the remainder into the shared message. */
  method PackBucket(start: Packer, lim: Limits, reg: Registry, b: Bucket) returns (r: Result<Packer, ClaimId>)
    requires Usable(lim)
    ensures r == AddBucket(start, lim, reg, b)
  {
    var st, numbers := start, b.numbers;
    while |numbers| > lim.addrSectors
      invariant AddBucket(start, lim, reg, b) == AddBucket(st, lim, reg, b.(numbers := numbers))
      decreases |numbers|
    {
      var currentNumbers := numbers[..lim.addrSectors];
      var built := BuildParams(reg, b.loc, b.key, currentNumbers);
      if built.Err? {
        return Err(built.error);
      }
      st := st.(sent := st.sent + [[built.value.declaration]], blocked := st.blocked + built.value.blocked);
      numbers := numbers[lim.addrSectors..];
    }
    if |numbers| > 0 {
      var built := BuildParams(reg, b.loc, b.key, numbers);
      if built.Err? {
        return Err(built.error);
      }
      var x := built.value;
      st := st.(blocked := st.blocked + x.blocked, scount := st.scount + x.sectorsInDecl);
      if st.scount > lim.addrSectors || |st.open| >= lim.declMax {
        st := st.(sent := st.sent + [st.open], open := [], scount := x.sectorsInDecl);
      }
      assert [] + [x.declaration] == [x.declaration];
      st := st.(open := st.open + [x.declaration]);
    }
    r := Ok(st);
  }

  lemma AddAllSnoc(lim: Limits, reg: Registry, order: seq<Bucket>, b: Bucket)
    requires Usable(lim)
    ensures AddAll(lim, reg, order + [b]) ==
      match AddAll(lim, reg, order) case Err(id) => Err(id) case Ok(st) => AddBucket(st, lim, reg, b)
  {
    assert (order + [b])[..|order|] == order;
  }

  /** The order met so far: exactly the buckets of the partitions done. */
  ghost predicate Met(ext: Extensions, order: seq<Bucket>, done: seq<Location>) {
    NoRepeats(order) && ByPartition(order) && forall b :: b in order <==> IsBucketOf(ext, b) && b.loc in done
  }

  ghost predicate EndsIn(order: seq<Bucket>, here: Location) {
    forall i, j :: 0 <= i < j < |order| && order[i].loc == here ==> order[j].loc == here
  }

  /** The same in the middle of a partition, of which only some keys are done. */
  ghost predicate MetHere(ext: Extensions, order: seq<Bucket>, done: seq<Location>, here: Location, keys: seq<Epoch>) {
    && NoRepeats(order) && ByPartition(order) && EndsIn(order, here)
    && forall b :: b in order <==> IsBucketOf(ext, b) && (b.loc in done || (b.loc == here && b.key in keys))
  }

  lemma MeetOneMore(ext: Extensions, order: seq<Bucket>, done: seq<Location>, here: Location, keys: seq<Epoch>,
      key: Epoch)
    requires MetHere(ext, order, done, here, keys)
    requires here in ext && key in ext[here] && here !in done && key !in keys
    ensures MetHere(ext, order + [Bucket(here, key, ext[here][key])], done, here, keys + [key])
  {
    var b0 := Bucket(here, key, ext[here][key]);
    assert b0 !in order;
  }

  lemma ClosePartition(ext: Extensions, order: seq<Bucket>, done: seq<Location>, here: Location, keys: seq<Epoch>)
    requires here in ext && Elements(keys) == ext[here].Keys && MetHere(ext, order, done, here, keys)
    ensures Met(ext, order, done + [here])
  {
    forall b ensures b in order <==> IsBucketOf(ext, b) && b.loc in done + [here] {
      if IsBucketOf(ext, b) && b.loc == here {
        assert b.key in Elements(keys);
      }
    }
  }

  /** The bucket at the next expiration of the partition. */
  method NextBucket(ext: Extensions, ghost order: seq<Bucket>, ghost done: seq<Location>,
      here: Location, exps: seq<Epoch>, j: nat) returns (b: Bucket)
    requires here in ext && here !in done && NoRepeats(exps) && Elements(exps) == ext[here].Keys && j < |exps|
    requires MetHere(ext, order, done, here, exps[..j])
    ensures MetHere(ext, order + [b], done, here, exps[..j + 1])
    ensures b == Bucket(here, exps[j], ListAt(ext, here, exps[j]))
  {
    var newExp := exps[j];
    assert newExp in Elements(exps) && newExp !in exps[..j];
    assert exps[..j + 1] == exps[..j] + [newExp];
    MeetOneMore(ext, order, done, here, exps[..j], newExp);
    b := Bucket(here, newExp, ext[here][newExp]);
  }

  /** The loop over the expirations of one partition. */
  method PackPartition(ext: Extensions, l: Location, start: Packer, lim: Limits, reg: Registry,
      ghost before: seq<Bucket>, ghost done: seq<Location>)
      returns (r: Result<Packer, ClaimId>, ghost order: seq<Bucket>)
    requires Usable(lim) && l in ext && l !in done
    requires Met(ext, before, done) && AddAll(lim, reg, before) == Ok(start)
    ensures r == AddAll(lim, reg, order)
    ensures r.Ok? ==> Met(ext, order, done + [l])
    ensures forall b :: b in order ==> IsBucketOf(ext, b)
  {
    order := before;
    var st := start;
    var exps := RangeOver(ext[l].Keys);
    for j := 0 to |exps|
      invariant AddAll(lim, reg, order) == Ok(st)
      invariant MetHere(ext, order, done, l, exps[..j])
    {
      var b := NextBucket(ext, order, done, l, exps, j);
      AddAllSnoc(lim, reg, order, b);
      order := order + [b];
      r := PackBucket(st, lim, reg, b);
      if r.Err? {
        return;
      }
      st := r.value;
    }
    assert exps[..|exps|] == exps;
    ClosePartition(ext, order, done, l, exps);
    r := Ok(st);
  }

  /** The packing of all buckets.  `order` is the order the loops happened to meet them in: on success
      an enumeration of every bucket; the outcome is that of adding them one by one. */
  method Pack(ext: Extensions, lim: Limits, reg: Registry)
      returns (r: Result<Packer, ClaimId>, ghost order: seq<Bucket>)
    requires Usable(lim)
    ensures r == AddAll(lim, reg, order)
    ensures r.Ok? ==> Enumerates(ext, order)
    ensures r.Err? <==> exists b :: IsBucketOf(ext, b) && HasUnknown(reg, b.numbers, b.key)
    ensures r.Err? ==> exists b :: IsBucketOf(ext, b) && MeetsUnknown(reg, b, r.error)
  {
    var st := EMPTY;
    order := [];
    var locs := RangeOver(ext.Keys);
    for i := 0 to |locs|
      invariant AddAll(lim, reg, order) == Ok(st)
      invariant Met(ext, order, locs[..i])
    {
      var l := locs[i];
      assert l in Elements(locs) && l !in locs[..i];
      assert locs[..i + 1] == locs[..i] + [l];
      r, order := PackPartition(ext, l, st, lim, reg, order, locs[..i]);
      if r.Err? {
        PackingFailsIff(lim, reg, order);
        PackingErrorIsMet(lim, reg, order);
        return;
      }
      st := r.value;
    }
    assert locs[..|locs|] == locs;
    EverythingMet(ext, order, locs);
    PackingFailsIff(lim, reg, order);
    r := Ok(st);
  }

  lemma EverythingMet(ext: Extensions, order: seq<Bucket>, locs: seq<Location>)
    requires Elements(locs) == ext.Keys && Met(ext, order, locs)
    ensures Enumerates(ext, order)
  {
    forall b ensures b in order <==> IsBucketOf(ext, b) {
      assert b.loc in ext ==> b.loc in Elements(locs);
    }
  }
}
