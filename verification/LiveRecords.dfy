/** What the stored extensions of a request say for as long as the request exists, whatever happens to its
    messages (service.go, from `extend` to `replaceMessage`). */
module LiveRecords {
  import opened Wrappers
  import opened Chain
  import opened PledgeBudget
  import opened Buckets
  import opened Declarations
  import Planner
  import PlanLaws
  import opened Publisher
  import opened Ledger
  import opened LedgerLaws
  import opened LedgerRuns

  /** Some live message of the request carries these extensions. */
  ghost predicate Carries(s: Store, id: nat, e: Entry) {
    exists m :: m in LiveOf(s.messages, id) && Entry(m.nonce, m.sectors, m.extensions) == e
  }

  lemma {:induction false} CarriedIsCounted(ms: seq<Message>, id: nat, e: Entry)
    ensures Sum(ms, id, Is(e)) >= 1 <==>
      exists m :: m in LiveOf(ms, id) && Entry(m.nonce, m.sectors, m.extensions) == e
  {
    if ms != [] {
      var k := |ms| - 1;
      var before, live := LiveOf(ms[..k], id), LiveOf(ms, id);
      CarriedIsCounted(ms[..k], id, e);
      assert forall m :: m in live <==> m in before || (Belongs(ms[k], id) && m == ms[k]);
    }
  }

  /** What the live messages of a processed request carry is the same after every run. */
  lemma RunKeepsCarried(s: Store, es: seq<Event>, id: nat, e: Entry)
    requires Invariant(s) && AllowedRun(s, es) && id < |s.requests| && s.requests[id].status != Created
    ensures Carries(Run(s, es), id, e) <==> Carries(s, id, e)
  {
    RunConservesLedger(s, es, id, e);
    CarriedIsCounted(s.messages, id, e);
    CarriedIsCounted(Run(s, es).messages, id, e);
  }

  lemma LiveSnocOwn(ms: seq<Message>, m: Message, id: nat)
    requires Belongs(m, id)
    ensures LiveOf(ms + [m], id) == LiveOf(ms, id) + [m]
  {
    assert (ms + [m])[..|ms|] == ms;
  }

  lemma {:induction false} NewAreLive(ms: seq<Message>, id: nat, news: seq<NewMessage>)
    ensures LiveOf(ms + Attach(id, news), id) == LiveOf(ms, id) + Attach(id, news)
  {
    if news == [] {
      assert ms + Attach(id, news) == ms;
      assert LiveOf(ms, id) + Attach(id, news) == LiveOf(ms, id);
    } else {
      var k := |news| - 1;
      var fewer, last := ms + Attach(id, news[..k]), Attached(id, news[k]);
      var live, front := LiveOf(ms, id), Attach(id, news[..k]);
      NewAreLive(ms, id, news[..k]);
      AttachOneMore(ms, id, news);
      LiveSnocOwn(fewer, last, id);
      assert live + Attach(id, news) == (live + front) + [last];
    }
  }

  lemma CreatedHasNoMessages(s: Store, id: nat)
    requires Invariant(s) && id < |s.requests| && s.requests[id].status == Created
    ensures LiveOf(s.messages, id) == []
  {
    LiveCount(s.messages, id);
    assert RowOk(s.requests[id], AccountOf(s.messages, id));
  }

  lemma ProcessAttaches(s: Store, id: nat, basefee: Option<int>, reply: Reply, news: seq<NewMessage>)
    requires id < |s.requests| && s.requests[id].status == Created && !Waits(s.requests[id], basefee)
    requires news == if Empty(reply) || s.requests[id].dryRun then [] else reply.result.value.messages
    ensures ProcessStep(s, id, basefee, reply).messages == s.messages + Attach(id, news)
    ensures ProcessStep(s, id, basefee, reply).requests[id].status != Created
    ensures ProcessStep(s, id, basefee, reply).requests[id].args == s.requests[id].args
  {}

  /** Processing a created request leaves it with the messages of the reply and no other. */
  lemma ProcessedMessages(s: Store, id: nat, basefee: Option<int>, reply: Reply)
    requires Invariant(s) && id < |s.requests| && s.requests[id].status == Created
    requires !Waits(s.requests[id], basefee)
    ensures LiveOf(Step(s, Process(id, basefee, reply)).messages, id) == NewMessagesOf(s.requests[id], id, reply)
    ensures Step(s, Process(id, basefee, reply)).requests[id].status != Created
    ensures Step(s, Process(id, basefee, reply)).requests[id].args == s.requests[id].args
  {
    var news := if Empty(reply) || s.requests[id].dryRun then [] else reply.result.value.messages;
    ProcessAttaches(s, id, basefee, reply, news);
    CreatedHasNoMessages(s, id);
    NewAreLive(s.messages, id, news);
  }

  // ---------------------------------------------------------------- soundness

  /** Every extension of every live message of the request, read back from its text, is what the planner
      promises for the arguments of the request. */
  ghost predicate LiveRecordsSound(s: Store, id: nat, chain: Planner.ChainState)
    requires id < |s.requests|
  {
    forall m, e :: m in LiveOf(s.messages, id) && e in m.extensions ==> RecordSound(chain, s.requests[id].args, e)
  }

  lemma ProcessedRecordsAreSound(s: Store, id: nat, basefee: Option<int>, reply: Reply, chain: Planner.ChainState)
    requires Invariant(s) && id < |s.requests| && s.requests[id].status == Created
    requires !Waits(s.requests[id], basefee)
    requires reply.result.Some? ==> AllRecordsSound(chain, s.requests[id].args, reply.result.value.messages)
    ensures LiveRecordsSound(Step(s, Process(id, basefee, reply)), id, chain)
  {
    ProcessedMessages(s, id, basefee, reply);
    var live := LiveOf(Step(s, Process(id, basefee, reply)).messages, id);
    forall m, e | m in live && e in m.extensions ensures RecordSound(chain, s.requests[id].args, e) {
      var j :| 0 <= j < |live| && live[j] == m;
      assert m == Attached(id, reply.result.value.messages[j]);
    }
  }

  lemma RecordsStaySound(s: Store, es: seq<Event>, id: nat, chain: Planner.ChainState)
    requires Invariant(s) && AllowedRun(s, es) && id < |s.requests| && s.requests[id].status != Created
    requires LiveRecordsSound(s, id, chain)
    ensures id < |Run(s, es).requests| && LiveRecordsSound(Run(s, es), id, chain)
  {
    var t := Run(s, es);
    RunConservesLedger(s, es, id, Entry(0, 0, []));
    forall m, x | m in LiveOf(t.messages, id) && x in m.extensions ensures RecordSound(chain, t.requests[id].args, x) {
      var e := Entry(m.nonce, m.sectors, m.extensions);
      assert Carries(t, id, e);
      RunKeepsCarried(s, es, id, e);
      var m0 :| m0 in LiveOf(s.messages, id) && Entry(m0.nonce, m0.sectors, m0.extensions) == e;
    }
  }

  /** Soundness end to end: in every state reached after a request was processed, every extension of every
      live message of it names, in its stored text, only sectors that were active in the window, under their
      own deadline and partition and with a sound new expiration, whatever was replaced in between. */
  lemma StoredRecordsAreSoundForever(s: Store, id: nat, basefee: Option<int>, reply: Reply, es: seq<Event>,
      chain: Planner.ChainState)
    requires Invariant(s) && id < |s.requests| && s.requests[id].status == Created
    requires !Waits(s.requests[id], basefee) && Allowed(s, Process(id, basefee, reply))
    requires reply.result.Some? ==> AllRecordsSound(chain, s.requests[id].args, reply.result.value.messages)
    requires AllowedRun(Step(s, Process(id, basefee, reply)), es)
    ensures var t := Run(Step(s, Process(id, basefee, reply)), es);
      id < |t.requests| && LiveRecordsSound(t, id, chain)
  {
    StepKeepsInvariant(s, Process(id, basefee, reply));
    ProcessedMessages(s, id, basefee, reply);
    ProcessedRecordsAreSound(s, id, basefee, reply, chain);
    RecordsStaySound(Step(s, Process(id, basefee, reply)), es, id, chain);
  }

  // ---------------------------------------------------------------- completeness

  ghost predicate NamedLive(s: Store, id: nat, l: Location, key: Epoch, n: SectorNumber) {
    exists m, k :: m in LiveOf(s.messages, id) && 0 <= k < |m.extensions| && Names(m.extensions[k], l, key, n)
  }

  lemma NamesStay(s: Store, es: seq<Event>, id: nat, l: Location, key: Epoch, n: SectorNumber)
    requires Invariant(s) && AllowedRun(s, es) && id < |s.requests| && s.requests[id].status != Created
    requires NamedLive(s, id, l, key, n)
    ensures NamedLive(Run(s, es), id, l, key, n)
  {
    var m, k :| m in LiveOf(s.messages, id) && 0 <= k < |m.extensions| && Names(m.extensions[k], l, key, n);
    var e := Entry(m.nonce, m.sectors, m.extensions);
    assert Carries(s, id, e);
    RunKeepsCarried(s, es, id, e);
    var m' :| m' in LiveOf(Run(s, es).messages, id) && Entry(m'.nonce, m'.sectors, m'.extensions) == e;
    assert Names(m'.extensions[k], l, key, n);
  }

  lemma ProcessedRecordsAreNamed(s: Store, id: nat, basefee: Option<int>, reply: Reply,
      l: Location, key: Epoch, n: SectorNumber)
    requires Invariant(s) && id < |s.requests| && s.requests[id].status == Created && !s.requests[id].dryRun
    requires !Waits(s.requests[id], basefee) && reply.result.Some?
    requires NamedBySome(reply.result.value.messages, l, key, n)
    ensures NamedLive(Step(s, Process(id, basefee, reply)), id, l, key, n)
  {
    var messages, t := reply.result.value.messages, Step(s, Process(id, basefee, reply));
    var j, k :| 0 <= j < |messages| && 0 <= k < |messages[j].extensions| && Names(messages[j].extensions[k], l, key, n);
    ProcessedMessages(s, id, basefee, reply);
    var m := Attached(id, messages[j]);
    assert LiveOf(t.messages, id)[j] == m;
    assert m in LiveOf(t.messages, id) && Names(m.extensions[k], l, key, n);
  }

  /** Completeness end to end: if every push was accepted, then in every state reached after a request was
      processed, every candidate it charged whose bounds all lie beyond its expiration by more than the tolerance
      is named by an extension of some live message of it, in its own partition and for the key of its bucket,
      provided its claims allow it. */
  lemma ExtendableSectorsStayNamed(s: Store, id: nat, basefee: Option<int>, reply: Reply, es: seq<Event>,
      chain: Planner.ChainState, plan: Planner.Plan, run: Planner.Run, answer: nat -> Answer, c: Candidate)
      returns (key: Epoch)
    requires Invariant(s) && id < |s.requests| && s.requests[id].status == Created && !s.requests[id].dryRun
    requires !Waits(s.requests[id], basefee) && Allowed(s, Process(id, basefee, reply))
    requires Planner.IsPlan(chain, s.requests[id].args, plan, run) && Publishes(Ok(plan), false, answer, reply)
    requires forall k :: 0 <= k < |plan.batches| ==> answer(k).Accepted?
    requires PlanLaws.Deserves(chain, s.requests[id].args, run, c)
    requires s.requests[id].args.terms.tolerance >= 0 || DistinctTargets(Planner.ItemsOf(s.requests[id].args, run))
    requires AllowedRun(Step(s, Process(id, basefee, reply)), es)
    ensures c.number in chain.locations
    ensures c.number in ListAt(Planner.BucketsOf(s.requests[id].args, run), chain.locations[c.number], key)
    ensures Extendable(chain.registry, c.number, key) ==>
      NamedLive(Run(Step(s, Process(id, basefee, reply)), es), id, chain.locations[c.number], key, c.number)
  {
    var args := s.requests[id].args;
    key := RecordsAreComplete(chain, args, plan, run, reply.result.value.messages, answer, c);
    var l, n := chain.locations[c.number], c.number;
    if Extendable(chain.registry, n, key) {
      StepKeepsInvariant(s, Process(id, basefee, reply));
      ProcessedMessages(s, id, basefee, reply);
      ProcessedRecordsAreNamed(s, id, basefee, reply, l, key, n);
      NamesStay(Step(s, Process(id, basefee, reply)), es, id, l, key, n);
    }
  }
}
