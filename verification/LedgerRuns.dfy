/** Safety and progress of the ledger over whole runs. */
module LedgerRuns {
  import opened Wrappers
  import opened Publisher
  import opened Ledger
  import opened LedgerLaws

  // ---------------------------------------------------------------- conservation of messages

  /** What identifies a message to its request, whatever row it lives in. */
  datatype Entry = Entry(nonce: nat, sectors: nat, extensions: seq<Extension2>)

  function Is(e: Entry): Message -> nat {
    (m: Message) => if Entry(m.nonce, m.sectors, m.extensions) == e then 1 else 0
  }

  /** How often an entry occurs among the live messages of a request. */
  function Multiplicity(s: Store, id: nat, e: Entry): nat {
    Sum(s.messages, id, Is(e))
  }

  lemma ProcessConservesEntries(s: Store, other: nat, basefee: Option<int>, reply: Reply, id: nat, e: Entry)
    requires id < |s.requests| && s.requests[id].status != Created
    ensures Multiplicity(ProcessStep(s, other, basefee, reply), id, e) == Multiplicity(s, id, e)
  {
    if other < |s.requests| && other != id {
      var row := Load(s, other).row;
      var news := if Empty(reply) || row.dryRun then [] else reply.result.value.messages;
      assert NewMessagesOf(row, other, reply) == Attach(other, news);
      SumAttached(s.messages, other, news, id, Is(e));
    }
  }

  lemma StepConservesEntries(s: Store, ev: Event, id: nat, e: Entry)
    requires Invariant(s) && Allowed(s, ev) && id < |s.requests| && s.requests[id].status != Created
    ensures id < |Step(s, ev).requests| && Step(s, ev).requests[id].status != Created
    ensures Multiplicity(Step(s, ev), id, e) == Multiplicity(s, id, e)
    ensures Step(s, ev).requests[id].published == s.requests[id].published
    ensures Step(s, ev).requests[id].args == s.requests[id].args
  {
    match ev {
      case Create(_, _, _) =>
      case Patch(_, _) =>
      case Query(_) =>
      case Judge(which) =>
        if which < |s.loaded| {
          assert SnapshotOk(s, s.loaded[which]);
        }
      case Process(other, basefee, reply) => ProcessConservesEntries(s, other, basefee, reply, id, e);
      case Receive(mid, exitCode) =>
        if mid < |s.messages| {
          SumUpdate(s.messages, mid, s.messages[mid].(onChain := true, exitCode := exitCode), id, Is(e));
        }
      case Replace(mid, lookup) =>
        ReplaceKeepsSums(s, mid, lookup, id, Is(e));
    }
  }

  /** Once a request has been processed, every run leaves its live messages what publishing made them:
      each (nonce, sectors, extensions) occurs as often as before, whatever was replaced, and their
      sectors still sum to the published count. */
  lemma {:induction false} RunConservesLedger(s: Store, es: seq<Event>, id: nat, e: Entry)
    requires Invariant(s) && AllowedRun(s, es) && id < |s.requests| && s.requests[id].status != Created
    ensures id < |Run(s, es).requests| && Run(s, es).requests[id].status != Created
    ensures Multiplicity(Run(s, es), id, e) == Multiplicity(s, id, e)
    ensures Run(s, es).requests[id].published == s.requests[id].published
    ensures Run(s, es).requests[id].args == s.requests[id].args
    ensures !Run(s, es).requests[id].dryRun ==>
      AccountOf(Run(s, es).messages, id).sectors == Run(s, es).requests[id].published
  {
    RunKeepsInvariant(s, es);
    if es != [] {
      RunConservesLedger(s, es[..|es| - 1], id, e);
      RunKeepsInvariant(s, es[..|es| - 1]);
      StepConservesEntries(Run(s, es[..|es| - 1]), es[|es| - 1], id, e);
    }
  }

  /** What publishing makes them: processing a created request whose messages were pushed gives it exactly
      the entries of the reply. */
  lemma ProcessingCreatesEntries(s: Store, id: nat, basefee: Option<int>, reply: Reply, e: Entry)
    requires Invariant(s) && Allowed(s, Process(id, basefee, reply))
    requires id < |s.requests| && s.requests[id].status == Created && !s.requests[id].dryRun
    requires !Waits(s.requests[id], basefee)
    requires reply.result.Some? && reply.result.value.messages != []
    ensures var s' := Step(s, Process(id, basefee, reply));
      && s'.requests[id].status == Pending
      && s'.requests[id].published == SectorSum(reply.result.value.messages)
      && s'.requests[id].total == reply.result.value.total
      && s'.requests[id].error == (if reply.error.Some? then reply.error.value else "")
      && Multiplicity(s', id, e) == SumNew(reply.result.value.messages, id, Is(e))
  {
    var news := reply.result.value.messages;
    SumAttached(s.messages, id, news, id, Is(e));
    LiveAccount(s.messages, id);
    SumOfNone(s.messages, id, Is(e));
  }

  /** A dry run ends with processing: it leaves no message behind and reports what it would have published
      as published and succeeded. */
  lemma DryRunEndsAtOnce(s: Store, id: nat, basefee: Option<int>, reply: Reply)
    requires Invariant(s) && Allowed(s, Process(id, basefee, reply))
    requires id < |s.requests| && s.requests[id].status == Created && s.requests[id].dryRun
    requires !Waits(s.requests[id], basefee)
    ensures var s' := Step(s, Process(id, basefee, reply));
      && s'.messages == s.messages
      && s'.requests[id].Finished()
      && (!Empty(reply) ==>
           && Load(s', id).row.succeeded == Load(s', id).row.published == reply.result.value.published
           && (s'.requests[id].status == Success <==> reply.error.None?))
      && (Empty(reply) ==> Load(s', id).row.succeeded == 0 && (s'.requests[id].status == Failed <==> reply.error.Some?))
  {
    ProcessKeeps(s, id, basefee, reply);
    LiveAccount(s.messages, id);
    AccountFacts(s.messages, id);
  }

  lemma {:induction false} SumOfNone(ms: seq<Message>, id: nat, f: Message -> nat)
    requires Sum(ms, id, One()) == 0
    ensures Sum(ms, id, f) == 0
  {
    if ms != [] {
      SumOfNone(ms[..|ms| - 1], id, f);
    }
  }

  // ---------------------------------------------------------------- progress

  function Rank(st: Status): nat {
    match st
    case Created => 2
    case Pending => 1
    case _ => 0
  }

  /** A finished request as a reader sees it: the same messages, and the same row up to the base fee limit,
      which no longer matters. */
  ghost predicate Settled(s: Store, s': Store, id: nat)
    requires id < |s.requests| && id < |s'.requests|
  {
    && LiveOf(s'.messages, id) == LiveOf(s.messages, id)
    && var row, row' := Load(s, id).row, Load(s', id).row;
    && row' == row.(basefeeLimit := row'.basefeeLimit)
  }

  ghost predicate MovesForward(s: Store, s': Store, id: nat)
    requires id < |s.requests|
  {
    id < |s'.requests| &&
    var st, st' := s.requests[id].status, s'.requests[id].status;
    var off, off' := AccountOf(s.messages, id).off, AccountOf(s'.messages, id).off;
    && Rank(st') <= Rank(st)
    && (st' != st ==> Rank(st') < Rank(st))
    && (st != Created ==> off' <= off)
  }

  lemma JudgeMovesForward(s: Store, which: nat, id: nat)
    requires Invariant(s) && id < |s.requests|
    ensures MovesForward(s, JudgeStep(s, which), id)
  {
    if which < |s.loaded| && AllOnChain(s.loaded[which].messages) {
      var snapshot := s.loaded[which];
      assert SnapshotOk(s, snapshot);
      LiveAccount(s.messages, snapshot.id);
      AccountFacts(s.messages, snapshot.id);
      JudgedOk(snapshot.row, snapshot.messages, AccountOf(s.messages, snapshot.id));
    }
  }

  lemma ProcessMovesForward(s: Store, other: nat, basefee: Option<int>, reply: Reply, id: nat)
    requires id < |s.requests|
    ensures MovesForward(s, ProcessStep(s, other, basefee, reply), id)
  {
    if other < |s.requests| && other != id {
      var row := Load(s, other).row;
      var news := if Empty(reply) || row.dryRun then [] else reply.result.value.messages;
      assert NewMessagesOf(row, other, reply) == Attach(other, news);
      AttachedAccount(s.messages, other, news, id);
    }
  }

  /** One step never moves a request backwards.  A status change lowers the rank; otherwise the number of
      messages not on chain does not grow. */
  lemma StepMovesForward(s: Store, ev: Event, id: nat)
    requires Invariant(s) && Allowed(s, ev) && id < |s.requests|
    ensures MovesForward(s, Step(s, ev), id)
  {
    match ev {
      case Create(_, _, _) =>
      case Patch(_, _) =>
      case Query(_) =>
      case Judge(which) => JudgeMovesForward(s, which, id);
      case Process(other, basefee, reply) => ProcessMovesForward(s, other, basefee, reply, id);
      case Receive(mid, exitCode) =>
        if mid < |s.messages| && s.messages[mid].live {
          ReceiveAccount(s, mid, exitCode, id);
        }
      case Replace(mid, lookup) => ReplaceKeepsAccounts(s, mid, lookup, id);
    }
  }

  /** A pending request has a live message, and the first receipt of any of them lowers the number not on
      chain by one; when it reaches zero, the next check finishes the request. */
  lemma ReceiptsLeadToVerdict(s: Store, mid: nat, exitCode: nat, id: nat)
    requires Invariant(s) && Allowed(s, Receive(mid, exitCode)) && id < |s.requests| && s.requests[id].status == Pending
    ensures |LiveOf(s.messages, id)| > 0
    ensures mid < |s.messages| && Belongs(s.messages[mid], id) && !s.messages[mid].onChain ==>
      AccountOf(ReceiveStep(s, mid, exitCode).messages, id).off == AccountOf(s.messages, id).off - 1
    ensures AccountOf(s.messages, id).off == 0 <==> CheckStep(s, id).requests[id].Finished()
  {
    LiveAccount(s.messages, id);
    VerdictIsExact(s, id);
    if mid < |s.messages| && Belongs(s.messages[mid], id) {
      ReceiveAccount(s, mid, exitCode, id);
    }
  }

  lemma FinishedRowStays(s: Store, ev: Event, id: nat)
    requires id < |s.requests| && s.requests[id].Finished() && !ev.Judge?
    ensures id < |Step(s, ev).requests| && Step(s, ev).requests[id] == s.requests[id]
  {}

  lemma JudgedRowSettles(s: Store, which: nat, id: nat)
    requires Invariant(s) && id < |s.requests| && s.requests[id].Finished()
    ensures Settled(s, JudgeStep(s, which), id)
  {
    if which < |s.loaded| && s.loaded[which].id == id && AllOnChain(s.loaded[which].messages) {
      StaleCheckRevertsOnlyLimit(s, which);
    }
  }

  lemma FinishedIsOnChain(s: Store, id: nat)
    requires RowsOk(s) && id < |s.requests| && s.requests[id].Finished()
    ensures AllOnChain(LiveOf(s.messages, id))
  {
    LiveAccount(s.messages, id);
    AccountFacts(s.messages, id);
  }

  /** No step changes what a reader sees of a finished request, except that a check of an older snapshot
      may bring back an older base fee limit; any other step leaves its row alone. */
  lemma FinishedStaysPut(s: Store, ev: Event, id: nat)
    requires Invariant(s) && Allowed(s, ev) && id < |s.requests| && s.requests[id].Finished()
    ensures id < |Step(s, ev).requests| && Settled(s, Step(s, ev), id)
    ensures !ev.Judge? ==> Step(s, ev).requests[id] == s.requests[id]
  {
    if ev.Judge? {
      JudgedRowSettles(s, ev.which, id);
    } else {
      FinishedRowStays(s, ev, id);
      FinishedIsOnChain(s, id);
      LandedMessagesStay(s, ev, id);
    }
  }

  /** Over a whole run a request only ever goes from created to pending to finished, or straight from
      created to finished, and a finished request stays as its readers see it. */
  lemma {:induction false} FinishedIsAbsorbing(s: Store, es: seq<Event>, id: nat)
    requires Invariant(s) && AllowedRun(s, es) && id < |s.requests|
    ensures id < |Run(s, es).requests|
    ensures Rank(Run(s, es).requests[id].status) <= Rank(s.requests[id].status)
    ensures s.requests[id].Finished() ==> Settled(s, Run(s, es), id)
  {
    if es != [] {
      var front, ev := es[..|es| - 1], es[|es| - 1];
      var t := Run(s, front);
      FinishedIsAbsorbing(s, front, id);
      RunKeepsInvariant(s, front);
      StepMovesForward(t, ev, id);
      if t.requests[id].Finished() {
        FinishedStaysPut(t, ev, id);
      }
    }
  }

  /** The steps of a run that move a request: its status changes, or one of its messages lands. */
  function Moves(s: Store, es: seq<Event>, id: nat): nat
    requires id < |s.requests|
    ensures id < |Run(s, es).requests|
  {
    if es == [] then 0
    else
      var before := Moves(s, es[..|es| - 1], id);
      var t, t' := Run(s, es[..|es| - 1]), Run(s, es);
      before + if t.requests[id].status != t'.requests[id].status
                 || AccountOf(t.messages, id).off != AccountOf(t'.messages, id).off then 1 else 0
  }

  /** A processed request moves at most once per message still off chain and once more to its verdict,
      however long the run. */
  lemma {:induction false} MovesAreBounded(s: Store, es: seq<Event>, id: nat)
    requires Invariant(s) && AllowedRun(s, es) && id < |s.requests| && s.requests[id].status != Created
    ensures id < |Run(s, es).requests| && Run(s, es).requests[id].status != Created
    ensures Moves(s, es, id) + Rank(Run(s, es).requests[id].status) + AccountOf(Run(s, es).messages, id).off
      <= Rank(s.requests[id].status) + AccountOf(s.messages, id).off
  {
    if es != [] {
      var front := es[..|es| - 1];
      MovesAreBounded(s, front, id);
      RunKeepsInvariant(s, front);
      StepMovesForward(Run(s, front), es[|es| - 1], id);
    }
  }

  // ---------------------------------------------------------------- re-checking a stale snapshot

  /** Checking a loaded request, however long ago it was loaded: a finished request keeps everything a
      reader sees but its base fee limit, which falls back to the loaded one; a pending request gets the
      row a fresh check would give it, again up to that limit. */
  lemma StaleCheckRevertsOnlyLimit(s: Store, which: nat)
    requires Invariant(s) && which < |s.loaded| && AllOnChain(s.loaded[which].messages)
    ensures var snapshot, s' := s.loaded[which], JudgeStep(s, which);
      var id, limit := snapshot.id, snapshot.row.basefeeLimit;
      && id < |s.requests| && s'.messages == s.messages && s'.requests[id].Finished()
      && (s.requests[id].Finished() ==> Load(s', id).row == Load(s, id).row.(basefeeLimit := limit))
      && (s.requests[id].status == Pending ==>
           s'.requests[id] == CheckStep(s, id).requests[id].(basefeeLimit := limit))
  {
    var snapshot := s.loaded[which];
    assert SnapshotOk(s, snapshot);
    var id := snapshot.id;
    if s.requests[id].status == Pending {
      JudgedIgnoresTheRest(snapshot.row, Load(s, id).row, snapshot.messages);
    }
  }

  /** Re-checking is harmless over whole runs: once a request was loaded with all its messages on chain,
      whatever the table says after any further run, its row waits for or carries the verdict of that
      snapshot, and its messages are still those of the snapshot. */
  lemma {:induction false} StaleCheckGivesSameVerdict(s: Store, es: seq<Event>, which: nat)
    requires Invariant(s) && AllowedRun(s, es)
    requires which < |s.loaded| && AllOnChain(s.loaded[which].messages)
    ensures var t, snapshot := Run(s, es), s.loaded[which];
      && which < |t.loaded| && t.loaded[which] == snapshot && snapshot.id < |t.requests|
      && LiveOf(t.messages, snapshot.id) == snapshot.messages
      && AgreesWith(t.requests[snapshot.id], snapshot)
  {
    RunKeepsInvariant(s, es);
    RunKeepsLoaded(s, es, which);
    assert SnapshotOk(Run(s, es), s.loaded[which]);
  }

  lemma {:induction false} RunKeepsLoaded(s: Store, es: seq<Event>, which: nat)
    requires which < |s.loaded|
    ensures which < |Run(s, es).loaded| && Run(s, es).loaded[which] == s.loaded[which]
  {
    if es != [] {
      RunKeepsLoaded(s, es[..|es| - 1], which);
    }
  }
}
