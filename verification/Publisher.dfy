/** The publishing half of `extend` (service.go) and the records it leaves (model.go). */
module Publisher {
  import opened Wrappers
  import opened Words
  import opened Text
  import opened RangePrinter
  import opened Chain
  import opened Collections
  import opened Declarations
  import opened Packing
  import opened PackingLaws
  import opened Planner
  import Buckets
  import PlanLaws
  import PledgeBudget

  /** Error values carry a text; none of the service's texts is empty. */
  type ErrorText = s: string | s != "" witness "failed"

  /** One declaration as it is stored, its bitfield printed as ranges. */
  datatype Extension2 = Extension2(
    deadline: nat, partition: nat, sectors: string, withClaims: seq<SectorClaim>, newExpiration: Epoch)

  /** One declaration as a dry run reports it. */
  datatype PseudoExtension = PseudoExtension(deadline: nat, partition: nat, sectors: string, newExpiration: Epoch)

  /** A message as `extend` creates it: not on chain yet, not tied to a request yet. */
  datatype NewMessage = NewMessage(nonce: nat, sectors: nat, extensions: seq<Extension2>)

  datatype ExtendResult = ExtendResult(
    messages: seq<NewMessage>, dryRuns: seq<seq<PseudoExtension>>, total: nat, published: nat)

  /** What `extend` returns: Go's pair of a result pointer and an error. */
  datatype Reply = Reply(result: Option<ExtendResult>, error: Option<ErrorText>)

  /** The node's answer to one push (for a dry run, the outcome of describing the message). */
  datatype Answer = Accepted(nonce: nat) | Refused(error: ErrorText)

  ghost function MembersOf(s: set<SectorNumber>): iset<int> {
    iset x: int | x in s
  }

  ghost predicate Records(e: Extension2, d: Declaration) {
    && e.deadline == d.deadline && e.partition == d.partition
    && e.withClaims == d.withClaims && e.newExpiration == d.newExpiration
    && Prints(e.sectors, MembersOf(d.sectors))
  }

  ghost predicate RecordsAll(es: seq<Extension2>, batch: Batch) {
    |es| == |batch| && forall i :: 0 <= i < |es| ==> Records(es[i], batch[i])
  }

  ghost predicate Reports(e: PseudoExtension, d: Declaration) {
    && e.deadline == d.deadline && e.partition == d.partition && e.newExpiration == d.newExpiration
    && Prints(e.sectors, MembersOf(d.sectors))
  }

  ghost predicate ReportsAll(es: seq<PseudoExtension>, batch: Batch) {
    |es| == |batch| && forall i :: 0 <= i < |es| ==> Reports(es[i], batch[i])
  }

  /** The members of a bitfield, printed. */
  method PrintSectors(sectors: set<SectorNumber>) returns (text: string)
    ensures Prints(text, MembersOf(sectors))
  {
    var all := RangeOver(sectors);
    var numbers := new uint64[|all|](i requires 0 <= i < |all| => all[i]);
    assert numbers[..] == all;
    assert NumbersIn(all) == MembersOf(sectors) by {
      forall x: int ensures x in all <==> x in sectors {
        if 0 <= x < UINT64_END {
          assert x in Elements(all) <==> x in all;
        }
      }
    }
    text := ArrayToString(numbers);
  }

  method NewExtension2FromParams(batch: Batch) returns (extensions: seq<Extension2>)
    ensures RecordsAll(extensions, batch)
  {
    extensions := [];
    for i := 0 to |batch|
      invariant |extensions| == i && forall j :: 0 <= j < i ==> Records(extensions[j], batch[j])
    {
      var d := batch[i];
      var text := PrintSectors(d.sectors);
      extensions := extensions + [Extension2(d.deadline, d.partition, text, d.withClaims, d.newExpiration)];
    }
  }

  method NewPseudoExtendParams(batch: Batch) returns (extensions: seq<PseudoExtension>)
    ensures ReportsAll(extensions, batch)
  {
    extensions := [];
    for i := 0 to |batch|
      invariant |extensions| == i && forall j :: 0 <= j < i ==> Reports(extensions[j], batch[j])
    {
      var d := batch[i];
      var text := PrintSectors(d.sectors);
      extensions := extensions + [PseudoExtension(d.deadline, d.partition, text, d.newExpiration)];
    }
  }

  // ---------------------------------------------------------------- which messages get through

  function AcceptedBatches(batches: seq<Batch>, answer: nat -> Answer): seq<Batch> {
    if batches == [] then []
    else
      var k := |batches| - 1;
      AcceptedBatches(batches[..k], answer) + if answer(k).Accepted? then [batches[k]] else []
  }

  function Nonces(n: nat, answer: nat -> Answer): seq<nat> {
    if n == 0 then []
    else Nonces(n - 1, answer) + match answer(n - 1) case Accepted(nonce) => [nonce] case Refused(_) => []
  }

  function Refusals(n: nat, answer: nat -> Answer): seq<ErrorText> {
    if n == 0 then []
    else Refusals(n - 1, answer) + match answer(n - 1) case Accepted(_) => [] case Refused(e) => [e]
  }

  lemma {:induction false} NoMoreThanAll(batches: seq<Batch>, answer: nat -> Answer)
    ensures TallyAll(AcceptedBatches(batches, answer), SizeOf()) <= TallyAll(batches, SizeOf())
    ensures |AcceptedBatches(batches, answer)| == |Nonces(|batches|, answer)|
    ensures |AcceptedBatches(batches, answer)| + |Refusals(|batches|, answer)| == |batches|
    ensures forall b :: b in AcceptedBatches(batches, answer) ==> b in batches
  {
    if batches != [] {
      var k := |batches| - 1;
      NoMoreThanAll(batches[..k], answer);
      TallyAllSnoc(AcceptedBatches(batches[..k], answer), batches[k], SizeOf());
      assert AcceptedBatches(batches[..k], answer) + [] == AcceptedBatches(batches[..k], answer);
    }
  }

  /** Where the answer to the k-th message shows: an accepted one is the next of those taken, with its nonce; a
      refused one is the next of the refusals. */
  lemma {:induction false} AnswersAreMatched(batches: seq<Batch>, answer: nat -> Answer, k: nat)
    requires k < |batches|
    ensures match answer(k)
      case Accepted(nonce) =>
        var j := |Nonces(k, answer)|;
        && j < |AcceptedBatches(batches, answer)| && AcceptedBatches(batches, answer)[j] == batches[k]
        && j < |Nonces(|batches|, answer)| && Nonces(|batches|, answer)[j] == nonce
      case Refused(error) =>
        var j := |Refusals(k, answer)|;
        j < |Refusals(|batches|, answer)| && Refusals(|batches|, answer)[j] == error
  {
    var n := |batches| - 1;
    NoMoreThanAll(batches[..n], answer);
    if k < n {
      AnswersAreMatched(batches[..n], answer, k);
    }
  }

  /** The refusal of the j-th message is the next after that of the k-th. */
  ghost predicate RefusedNext(answer: nat -> Answer, k: nat, j: nat) {
    k < j && answer(k).Refused? && answer(j).Refused? && forall i :: k < i < j ==> answer(i).Accepted?
  }

  lemma {:induction false} NextRefusal(answer: nat -> Answer, k: nat, j: nat)
    requires k < j && answer(k).Refused? && forall i :: k < i < j ==> answer(i).Accepted?
    ensures |Refusals(j, answer)| == |Refusals(k, answer)| + 1
  {
    if k < j - 1 {
      NextRefusal(answer, k, j - 1);
    }
  }

  /** All pushes were accepted, or all were refused. */
  lemma {:induction false} UniformAnswers(batches: seq<Batch>, answer: nat -> Answer)
    ensures Refusals(|batches|, answer) == [] <==> forall k :: 0 <= k < |batches| ==> answer(k).Accepted?
    ensures (forall k :: 0 <= k < |batches| ==> answer(k).Refused?) ==> AcceptedBatches(batches, answer) == []
  {
    if batches != [] {
      UniformAnswers(batches[..|batches| - 1], answer);
    }
  }

  ghost predicate Pushed(m: NewMessage, batch: Batch, nonce: nat) {
    m.nonce == nonce && m.sectors == Tally(batch, SizeOf()) && RecordsAll(m.extensions, batch)
  }

  ghost predicate PushedAll(messages: seq<NewMessage>, batches: seq<Batch>, nonces: seq<nat>) {
    |messages| == |batches| == |nonces| &&
    forall j :: 0 <= j < |messages| ==> Pushed(messages[j], batches[j], nonces[j])
  }

  ghost predicate ReportedAll(dryRuns: seq<seq<PseudoExtension>>, batches: seq<Batch>) {
    |dryRuns| == |batches| && forall j :: 0 <= j < |dryRuns| ==> ReportsAll(dryRuns[j], batches[j])
  }

  method CountSectors(batch: Batch) returns (scount: nat)
    ensures scount == Tally(batch, SizeOf())
  {
    scount := 0;
    for i := 0 to |batch|
      invariant scount == Tally(batch[..i], SizeOf())
    {
      assert batch[..i + 1] == batch[..i] + [batch[i]];
      TallySnoc(batch[..i], batch[i], SizeOf());
      scount := scount + |batch[i].sectors|;
    }
    assert batch[..|batch|] == batch;
  }

  lemma PushOneMore(messages: seq<NewMessage>, batches: seq<Batch>, nonces: seq<nat>, m: NewMessage, batch: Batch,
      nonce: nat)
    requires PushedAll(messages, batches, nonces) && Pushed(m, batch, nonce)
    ensures PushedAll(messages + [m], batches + [batch], nonces + [nonce])
  {}

  lemma ReportOneMore(dryRuns: seq<seq<PseudoExtension>>, batches: seq<Batch>, es: seq<PseudoExtension>, batch: Batch)
    requires ReportedAll(dryRuns, batches) && ReportsAll(es, batch)
    ensures ReportedAll(dryRuns + [es], batches + [batch])
  {}

  /** A dry run reports the messages taken, any other run records them. */
  ghost predicate Outcome(dryRun: bool, messages: seq<NewMessage>, dryRuns: seq<seq<PseudoExtension>>,
      taken: seq<Batch>, nonces: seq<nat>)
  {
    if dryRun then messages == [] && ReportedAll(dryRuns, taken)
    else dryRuns == [] && PushedAll(messages, taken, nonces)
  }

  /** What publishing has produced after the first i messages. */
  ghost predicate Published(batches: seq<Batch>, i: nat, dryRun: bool, answer: nat -> Answer,
      messages: seq<NewMessage>, dryRuns: seq<seq<PseudoExtension>>, published: nat, errMsgs: seq<ErrorText>)
    requires i <= |batches|
  {
    && published == TallyAll(AcceptedBatches(batches[..i], answer), SizeOf())
    && errMsgs == Refusals(i, answer)
    && Outcome(dryRun, messages, dryRuns, AcceptedBatches(batches[..i], answer), Nonces(i, answer))
  }

  lemma AcceptedSnoc(batches: seq<Batch>, i: nat, answer: nat -> Answer)
    requires i < |batches|
    ensures AcceptedBatches(batches[..i + 1], answer) ==
      AcceptedBatches(batches[..i], answer) + if answer(i).Accepted? then [batches[i]] else []
  {
    assert batches[..i + 1][..i] == batches[..i];
  }

  lemma RefuseOneMore(batches: seq<Batch>, i: nat, dryRun: bool, answer: nat -> Answer,
      messages: seq<NewMessage>, dryRuns: seq<seq<PseudoExtension>>, published: nat, errMsgs: seq<ErrorText>)
    requires i < |batches| && Published(batches, i, dryRun, answer, messages, dryRuns, published, errMsgs)
    requires answer(i).Refused?
    ensures Published(batches, i + 1, dryRun, answer, messages, dryRuns, published, errMsgs + [answer(i).error])
  {
    AcceptedSnoc(batches, i, answer);
    assert AcceptedBatches(batches[..i + 1], answer) == AcceptedBatches(batches[..i], answer);
    assert Nonces(i + 1, answer) == Nonces(i, answer);
  }

  lemma AcceptOneMore(batches: seq<Batch>, i: nat, dryRun: bool, answer: nat -> Answer,
      messages: seq<NewMessage>, dryRuns: seq<seq<PseudoExtension>>, published: nat, errMsgs: seq<ErrorText>,
      m: NewMessage, pp: seq<PseudoExtension>)
    requires i < |batches| && Published(batches, i, dryRun, answer, messages, dryRuns, published, errMsgs)
    requires answer(i).Accepted?
    requires if dryRun then ReportsAll(pp, batches[i]) else Pushed(m, batches[i], answer(i).nonce)
    ensures Published(batches, i + 1, dryRun, answer,
      if dryRun then messages else messages + [m], if dryRun then dryRuns + [pp] else dryRuns,
      published + Tally(batches[i], SizeOf()), errMsgs)
  {
    var taken, nonces := AcceptedBatches(batches[..i], answer), Nonces(i, answer);
    AcceptedSnoc(batches, i, answer);
    TallyAllSnoc(taken, batches[i], SizeOf());
    if dryRun {
      ReportOneMore(dryRuns, taken, pp, batches[i]);
    } else {
      PushOneMore(messages, taken, nonces, m, batches[i], answer(i).nonce);
    }
    assert Refusals(i + 1, answer) == errMsgs;
  }

  /** The loop over the planned messages.  A message the node refuses is noted and the loop goes on. */
  method Publish(batches: seq<Batch>, dryRun: bool, answer: nat -> Answer)
      returns (messages: seq<NewMessage>, dryRuns: seq<seq<PseudoExtension>>, published: nat, errMsgs: seq<ErrorText>)
    ensures published == TallyAll(AcceptedBatches(batches, answer), SizeOf())
    ensures errMsgs == Refusals(|batches|, answer)
    ensures Outcome(dryRun, messages, dryRuns, AcceptedBatches(batches, answer), Nonces(|batches|, answer))
  {
    messages, dryRuns, published, errMsgs := [], [], 0, [];
    for i := 0 to |batches|
      invariant Published(batches, i, dryRun, answer, messages, dryRuns, published, errMsgs)
    {
      var batch := batches[i];
      var scount := CountSectors(batch);
      match answer(i) {
        case Refused(error) =>
          RefuseOneMore(batches, i, dryRun, answer, messages, dryRuns, published, errMsgs);
          errMsgs := errMsgs + [error];
        case Accepted(nonce) =>
          if dryRun {
            var pp := NewPseudoExtendParams(batch);
            AcceptOneMore(batches, i, dryRun, answer, messages, dryRuns, published, errMsgs, NewMessage(0, 0, []), pp);
            dryRuns := dryRuns + [pp];
          } else {
            var exts := NewExtension2FromParams(batch);
            var m := NewMessage(nonce, scount, exts);
            AcceptOneMore(batches, i, dryRun, answer, messages, dryRuns, published, errMsgs, m, []);
            messages := messages + [m];
          }
          published := published + scount;
      }
    }
    assert batches[..|batches|] == batches;
  }

  // ---------------------------------------------------------------- extend, end to end

  function SectorSum(messages: seq<NewMessage>): nat {
    if messages == [] then 0 else SectorSum(messages[..|messages| - 1]) + messages[|messages| - 1].sectors
  }

  lemma {:induction false} PushedSum(messages: seq<NewMessage>, batches: seq<Batch>, nonces: seq<nat>)
    requires PushedAll(messages, batches, nonces)
    ensures SectorSum(messages) == TallyAll(batches, SizeOf())
  {
    if messages != [] {
      var k := |messages| - 1;
      PushedSum(messages[..k], batches[..k], nonces[..k]);
    }
  }

  /** What the request ledger relies on: the counts agree with the messages and never exceed the total;
      a dry run creates no message; there is an error text whenever there is no result. */
  ghost predicate Consistent(reply: Reply, dryRun: bool) {
    && (reply.result.None? ==> reply.error.Some?)
    && (reply.result.Some? ==>
         var r := reply.result.value;
         && r.published <= r.total
         && (if dryRun then r.messages == [] else r.dryRuns == [] && SectorSum(r.messages) == r.published))
  }

  /** Every sector a stored extension names, as read back from its text, is soundly extended, and its claim entries
      are those of the sectors it names that keep all their claims. */
  ghost predicate RecordSound(chain: ChainState, args: Args, e: Extension2) {
    && Parse(e.sectors).Some?
    && (forall n :: n in NumbersOf(Parse(e.sectors).value) ==>
         exists si: SectorInfo ::
           si.number == n && Sound(chain, args, si, Location(e.deadline, e.partition), e.newExpiration))
    && forall c :: c in e.withClaims <==>
         && c.number in NumbersOf(Parse(e.sectors).value) && c.drop == []
         && StandingOf(chain.registry, c.number, e.newExpiration) == Kept(c.maintain)
  }

  ghost predicate AllRecordsSound(chain: ChainState, args: Args, messages: seq<NewMessage>) {
    forall m, e :: m in messages && e in m.extensions ==> RecordSound(chain, args, e)
  }

  lemma RecordIsSound(chain: ChainState, args: Args, plan: Plan, run: Run, batch: Batch, d: Declaration, e: Extension2)
    requires IsPlan(chain, args, plan, run) && batch in plan.batches && d in batch && Records(e, d)
    ensures RecordSound(chain, args, e)
  {
    PrintRoundTrip(e.sectors, MembersOf(d.sectors));
    forall n | n in NumbersOf(Parse(e.sectors).value)
      ensures exists si: SectorInfo ::
        si.number == n && Sound(chain, args, si, Location(e.deadline, e.partition), e.newExpiration)
    {
      assert n in d.sectors;
      PlanIsSound(chain, args, plan, run, batch, d, n);
    }
    PlanLaws.PlanClaimsOk(chain, args, plan, run);
    assert ClaimsOk(chain.registry, d);
    forall c: SectorClaim ensures c.number in NumbersOf(Parse(e.sectors).value) <==> c.number in d.sectors {
      assert c.number in MembersOf(d.sectors) <==> c.number in d.sectors;
    }
  }

  lemma RecordsAreSound(chain: ChainState, args: Args, plan: Plan, run: Run, messages: seq<NewMessage>,
      answer: nat -> Answer)
    requires IsPlan(chain, args, plan, run)
    requires PushedAll(messages, AcceptedBatches(plan.batches, answer), Nonces(|plan.batches|, answer))
    ensures AllRecordsSound(chain, args, messages)
  {
    var taken := AcceptedBatches(plan.batches, answer);
    NoMoreThanAll(plan.batches, answer);
    forall m, e | m in messages && e in m.extensions ensures RecordSound(chain, args, e) {
      var j :| 0 <= j < |messages| && messages[j] == m;
      var i :| 0 <= i < |m.extensions| && m.extensions[i] == e;
      assert Pushed(messages[j], taken[j], Nonces(|plan.batches|, answer)[j]);
      assert taken[j] in taken && taken[j][i] in taken[j];
      RecordIsSound(chain, args, plan, run, taken[j], taken[j][i], e);
    }
  }

  lemma {:induction false} SomeDeclares(batch: Batch, f: Declaration -> nat)
    requires Tally(batch, f) >= 1
    ensures exists d :: d in batch && f(d) >= 1
  {
    var k := |batch| - 1;
    assert batch[k] in batch;
    if f(batch[k]) == 0 {
      SomeDeclares(batch[..k], f);
    }
  }

  lemma {:induction false} SomeBatchDeclares(batches: seq<Batch>, f: Declaration -> nat)
    requires TallyAll(batches, f) >= 1
    ensures exists batch: Batch, d :: batch in batches && d in batch && f(d) >= 1
  {
    var k := |batches| - 1;
    assert batches[k] in batches;
    if Tally(batches[k], f) >= 1 {
      SomeDeclares(batches[k], f);
    } else {
      SomeBatchDeclares(batches[..k], f);
    }
  }

  lemma {:induction false} AllAccepted(batches: seq<Batch>, answer: nat -> Answer)
    requires Refusals(|batches|, answer) == []
    ensures AcceptedBatches(batches, answer) == batches
  {
    if batches != [] {
      var k := |batches| - 1;
      AllAccepted(batches[..k], answer);
      assert batches == batches[..k] + [batches[k]];
    }
  }

  /** The stored extension names sector n of its partition for the epoch key. */
  ghost predicate Names(e: Extension2, l: Location, key: Epoch, n: SectorNumber) {
    && Location(e.deadline, e.partition) == l && e.newExpiration == key
    && Parse(e.sectors).Some? && n in NumbersOf(Parse(e.sectors).value)
  }

  ghost predicate NamedBySome(messages: seq<NewMessage>, l: Location, key: Epoch, n: SectorNumber) {
    exists j, k :: 0 <= j < |messages| && 0 <= k < |messages[j].extensions| &&
      Names(messages[j].extensions[k], l, key, n)
  }

  lemma DeclaredIsNamed(messages: seq<NewMessage>, batches: seq<Batch>, nonces: seq<nat>,
      batch: Batch, d: Declaration, l: Location, key: Epoch, n: SectorNumber)
    requires PushedAll(messages, batches, nonces)
    requires batch in batches && d in batch && Extending(l, key, n)(d) >= 1
    ensures NamedBySome(messages, l, key, n)
  {
    var j :| 0 <= j < |batches| && batches[j] == batch;
    var k :| 0 <= k < |batch| && batch[k] == d;
    assert Pushed(messages[j], batch, nonces[j]);
    var e := messages[j].extensions[k];
    assert Records(e, d);
    PrintRoundTrip(e.sectors, MembersOf(d.sectors));
    assert n in MembersOf(d.sectors);
    assert Names(e, l, key, n);
  }

  /** Completeness down to the stored text: if every push is accepted, every charged candidate whose bounds all lie
      beyond its expiration by more than the tolerance was put into a bucket of its own partition, and is named
      by a stored extension there, provided its claims allow it. */
  lemma RecordsAreComplete(chain: ChainState, args: Args, plan: Plan, run: Run, messages: seq<NewMessage>,
      answer: nat -> Answer, c: PledgeBudget.Candidate) returns (key: Epoch)
    requires IsPlan(chain, args, plan, run) && PlanLaws.Deserves(chain, args, run, c)
    requires args.terms.tolerance >= 0 || Buckets.DistinctTargets(ItemsOf(args, run))
    requires forall k :: 0 <= k < |plan.batches| ==> answer(k).Accepted?
    requires PushedAll(messages, AcceptedBatches(plan.batches, answer), Nonces(|plan.batches|, answer))
    ensures c.number in chain.locations
    ensures c.number in Buckets.ListAt(BucketsOf(args, run), chain.locations[c.number], key)
    ensures Sound(chain, args, run.view.info[c.number], chain.locations[c.number], key)
    ensures Extendable(chain.registry, c.number, key) ==>
      NamedBySome(messages, chain.locations[c.number], key, c.number)
  {
    key := PlanLaws.PlanIsComplete(chain, args, plan, run, c);
    var l, n := chain.locations[c.number], c.number;
    if Extendable(chain.registry, n, key) {
      SomeBatchDeclares(plan.batches, Extending(l, key, n));
      var batch: Batch, d :| batch in plan.batches && d in batch && Extending(l, key, n)(d) >= 1;
      UniformAnswers(plan.batches, answer);
      AllAccepted(plan.batches, answer);
      DeclaredIsNamed(messages, plan.batches, Nonces(|plan.batches|, answer), batch, d, l, key, n);
    }
  }

  /** The texts are abbreviated; only that none is empty matters. */
  function ErrorOf(e: PlanError): ErrorText {
    match e
    case NoExpirationAsked => "no expiration"
    case TooManySectors => "max sectors"
    case LocationNotFound(n) => "location " + FormatUint(n)
    case ClaimNotFound(id) => "claim " + FormatUint(id)
  }

  /** The error that tells of these refusals: none if there are none, otherwise their texts joined. */
  ghost predicate Tells(error: Option<ErrorText>, refusals: seq<ErrorText>) {
    if refusals == [] then error.None? else error.Some? && error.value == Join(refusals, ";\n")
  }

  /** How the reply follows from the plan and the node's answers. */
  ghost predicate Publishes(planned: Result<Plan, PlanError>, dryRun: bool, answer: nat -> Answer, reply: Reply) {
    match planned
    case Err(e) => reply == Reply(None, Some(ErrorOf(e)))
    case Ok(plan) =>
      var taken := AcceptedBatches(plan.batches, answer);
      && reply.result.Some?
      && Tells(reply.error, Refusals(|plan.batches|, answer))
      && reply.result.value.total == plan.total
      && reply.result.value.published == TallyAll(taken, SizeOf())
      && (if dryRun then ReportedAll(reply.result.value.dryRuns, taken)
          else PushedAll(reply.result.value.messages, taken, Nonces(|plan.batches|, answer)))
  }

  /** What a reply says of the pushes: no error exactly if every one was accepted; otherwise its text contains every
      refusal and starts with the first. */
  lemma ReplyTellsRefusals(plan: Plan, dryRun: bool, answer: nat -> Answer, reply: Reply)
    requires Publishes(Ok(plan), dryRun, answer, reply)
    ensures reply.error.None? <==> forall k :: 0 <= k < |plan.batches| ==> answer(k).Accepted?
    ensures forall k :: 0 <= k < |plan.batches| && answer(k).Refused? ==>
      && Contains(reply.error.value, answer(k).error)
      && ((forall j :: 0 <= j < k ==> answer(j).Accepted?) ==> answer(k).error <= reply.error.value)
  {
    var batches := plan.batches;
    var refusals: seq<string> := Refusals(|batches|, answer);
    UniformAnswers(batches, answer);
    forall k | 0 <= k < |batches| && answer(k).Refused?
      ensures refusals != [] && Contains(Join(refusals, ";\n"), answer(k).error)
      ensures (forall j :: 0 <= j < k ==> answer(j).Accepted?) ==> answer(k).error <= Join(refusals, ";\n")
    {
      AnswersAreMatched(batches, answer, k);
      JoinContains(refusals, ";\n", |Refusals(k, answer)|);
      UniformAnswers(batches[..k], answer);
      JoinStartsWithFirst(refusals, ";\n");
    }
  }

  /** A refusal and the next are separated by a semicolon and a line break. */
  lemma ReplySeparatesRefusals(plan: Plan, dryRun: bool, answer: nat -> Answer, reply: Reply, k: nat, j: nat)
    requires Publishes(Ok(plan), dryRun, answer, reply)
    requires j < |plan.batches| && RefusedNext(answer, k, j)
    ensures reply.error.Some? && Contains(reply.error.value, answer(k).error + ";\n" + answer(j).error)
  {
    var refusals: seq<string> := Refusals(|plan.batches|, answer);
    AnswersAreMatched(plan.batches, answer, k);
    AnswersAreMatched(plan.batches, answer, j);
    NextRefusal(answer, k, j);
    JoinSeparates(refusals, ";\n", |Refusals(k, answer)|);
  }

  /** `extend`: plan, then publish.  The counts of its result are consistent, and every stored extension
      is sound when read back. */
  method Extend(chain: ChainState, args: Args, dryRun: bool, answer: nat -> Answer)
      returns (reply: Reply, ghost planned: Result<Plan, PlanError>, ghost run: Run)
    requires Sane(chain)
    ensures planned.Ok? ==> IsPlan(chain, args, planned.value, run)
    ensures Publishes(planned, dryRun, answer, reply)
    ensures Consistent(reply, dryRun)
    ensures reply.result.Some? ==> AllRecordsSound(chain, args, reply.result.value.messages)
  {
    var attempt;
    attempt, run := PlanMessages(chain, args);
    planned := attempt;
    if attempt.Err? {
      reply := Reply(None, Some(ErrorOf(attempt.error)));
      return;
    }
    var plan := attempt.value;
    if |plan.batches| == 0 {
      reply := Reply(Some(ExtendResult([], [], plan.total, 0)), None);
      return;
    }
    var messages, dryRuns, published, errMsgs := Publish(plan.batches, dryRun, answer);
    PlanLaws.PlanDeclaresAtMostTotal(chain, args, plan, run);
    NoMoreThanAll(plan.batches, answer);
    if !dryRun {
      PushedSum(messages, AcceptedBatches(plan.batches, answer), Nonces(|plan.batches|, answer));
      RecordsAreSound(chain, args, plan, run, messages, answer);
    }
    var result := ExtendResult(messages, dryRuns, plan.total, published);
    if |errMsgs| == 0 {
      reply := Reply(Some(result), None);
      return;
    }
    JoinIsNotEmpty(errMsgs, ";\n");
    reply := Reply(Some(result), Some(Join(errMsgs, ";\n")));
  }
}
