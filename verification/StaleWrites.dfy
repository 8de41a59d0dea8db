/** What a handler writes that loaded its request some time ago (api.go, service.go).

    The ledger's steps load, test and save at once.  The update handler and the processor hold a loaded
    request in between, so their save may meet a row that has moved on.  Such a save is the ledger's step
    whatever it writes exactly if the guard of the step still holds; the rest of the file says what it
    does otherwise. */
module StaleWrites {
  import opened Wrappers
  import Planner
  import opened Publisher
  import opened Ledger
  import opened LedgerLaws
  import opened LedgerRuns

  /** The update handler saving the request it loaded. */
  function SavePatch(s: Store, snapshot: Snapshot, limit: Option<int>): Store
    requires snapshot.id < |s.requests|
  {
    if snapshot.row.Finished() then s
    else s.(requests := s.requests[snapshot.id := snapshot.row.(basefeeLimit := limit)])
  }

  /** The processor working on the request it loaded. */
  function ProcessLoaded(s: Store, snapshot: Snapshot, basefee: Option<int>, reply: Reply): Store
    requires snapshot.id < |s.requests|
  {
    var row, id := snapshot.row, snapshot.id;
    if Waits(row, basefee) then s
    else Store(s.requests[id := Processed(row, reply)], s.messages + NewMessagesOf(row, id, reply), s.loaded)
  }

  /** Two rows that differ in the base fee limit and the recomputed count only. */
  ghost predicate SameButLimit(row: Request, row': Request) {
    row' == row.(basefeeLimit := row'.basefeeLimit, succeeded := row'.succeeded)
  }

  lemma OtherStepKeepsRow(s: Store, ev: Event, id: nat)
    requires id < |s.requests| && !ev.Judge?
    ensures id < |Step(s, ev).requests|
    ensures Step(s, ev).requests[id].dryRun == s.requests[id].dryRun
    ensures Step(s, ev).requests[id].status == s.requests[id].status ==>
      SameButLimit(s.requests[id], Step(s, ev).requests[id])
  {}

  lemma StepKeepsRow(s: Store, ev: Event, id: nat)
    requires Invariant(s) && Allowed(s, ev) && id < |s.requests|
    ensures id < |Step(s, ev).requests|
    ensures Step(s, ev).requests[id].dryRun == s.requests[id].dryRun
    ensures Step(s, ev).requests[id].status == s.requests[id].status ==>
      SameButLimit(s.requests[id], Step(s, ev).requests[id])
  {
    if !ev.Judge? {
      OtherStepKeepsRow(s, ev, id);
    } else if ev.which < |s.loaded| && AllOnChain(s.loaded[ev.which].messages) {
      assert SnapshotOk(s, s.loaded[ev.which]);
      StaleCheckRevertsOnlyLimit(s, ev.which);
    }
  }

  /** While its status stays, a request changes in its base fee limit only. */
  lemma {:induction false} SameStatusSameRow(s: Store, es: seq<Event>, id: nat)
    requires Invariant(s) && AllowedRun(s, es) && id < |s.requests|
    ensures id < |Run(s, es).requests|
    ensures Run(s, es).requests[id].dryRun == s.requests[id].dryRun
    ensures Run(s, es).requests[id].status == s.requests[id].status ==>
      SameButLimit(s.requests[id], Run(s, es).requests[id])
  {
    if es != [] {
      var front, ev := es[..|es| - 1], es[|es| - 1];
      SameStatusSameRow(s, front, id);
      FinishedIsAbsorbing(s, front, id);
      RunKeepsInvariant(s, front);
      StepMovesForward(Run(s, front), ev, id);
      StepKeepsRow(Run(s, front), ev, id);
    }
  }

  // ---------------------------------------------------------------- late updates

  /** Saving an update of a request loaded before a run changes its base fee limit and nothing else,
      exactly if its status is still the one loaded; and then the tables stay in order. */
  lemma LateUpdateIsHarmlessIff(s: Store, es: seq<Event>, id: nat, limit: Option<int>)
    requires Invariant(s) && AllowedRun(s, es) && id < |s.requests| && !s.requests[id].Finished()
    ensures id < |Run(s, es).requests|
    ensures var t := Run(s, es);
      var t' := SavePatch(t, Load(s, id), limit);
      && (Load(t', id).row == Load(t, id).row.(basefeeLimit := limit) <==>
           t.requests[id].status == s.requests[id].status)
      && (t.requests[id].status == s.requests[id].status ==> Invariant(t'))
  {
    SameStatusSameRow(s, es, id);
    RunKeepsInvariant(s, es);
    var t := Run(s, es);
    var t' := SavePatch(t, Load(s, id), limit);
    if t.requests[id].status == s.requests[id].status {
      forall j | 0 <= j < |t'.loaded| ensures SnapshotOk(t', t'.loaded[j]) {
        assert SnapshotOk(t, t.loaded[j]);
      }
    }
  }

  ghost predicate LoadedWith(t: Store, id: nat, error: string) {
    forall j :: 0 <= j < |t.loaded| && t.loaded[j].id == id && AllOnChain(t.loaded[j].messages) ==>
      t.loaded[j].row.error == error
  }

  /** The request is pending as it was in this row, or carries the verdict due to it. */
  ghost predicate Follows(t: Store, id: nat, row: Request)
    requires id < |t.requests|
  {
    var now, live := t.requests[id], LiveOf(t.messages, id);
    && now.status != Created && !now.dryRun
    && now.args == row.args && now.total == row.total && now.published == row.published
    && |live| > 0 && LoadedWith(t, id, row.error)
    && (if now.status == Pending then now.error == row.error
        else AllOnChain(live) && now.status == Judged(row, live).status && now.error == Judged(row, live).error)
  }

  lemma LoadedErrorStays(t: Store, ev: Event, id: nat, error: string)
    requires id < |t.requests| && LoadedWith(t, id, error)
    requires t.requests[id].status == Pending ==> t.requests[id].error == error
    ensures LoadedWith(Step(t, ev), id, error)
  {}

  lemma FinishedFollows(t: Store, ev: Event, id: nat, row: Request)
    requires Invariant(t) && Allowed(t, ev) && id < |t.requests| && Follows(t, id, row)
    requires t.requests[id].Finished()
    ensures id < |Step(t, ev).requests| && Follows(Step(t, ev), id, row)
  {
    LandedMessagesStay(t, ev, id);
    FinishedStaysPut(t, ev, id);
    LoadedErrorStays(t, ev, id, row.error);
  }

  lemma JudgeFollows(t: Store, which: nat, id: nat, row: Request)
    requires Invariant(t) && id < |t.requests| && t.requests[id].status == Pending && Follows(t, id, row)
    ensures Follows(JudgeStep(t, which), id, row)
  {
    if which < |t.loaded| && AllOnChain(t.loaded[which].messages) {
      var snapshot := t.loaded[which];
      assert SnapshotOk(t, snapshot);
      JudgeMovesForward(t, which, id);
      if snapshot.id == id {
        JudgedIgnoresTheRest(snapshot.row, row, snapshot.messages);
      }
    }
  }

  lemma PendingRowStays(t: Store, ev: Event, id: nat)
    requires id < |t.requests| && t.requests[id].status == Pending && !ev.Judge?
    ensures id < |Step(t, ev).requests|
    ensures SameButLimit(t.requests[id], Step(t, ev).requests[id])
  {}

  lemma PendingFollows(t: Store, ev: Event, id: nat, row: Request)
    requires Invariant(t) && Allowed(t, ev) && id < |t.requests| && Follows(t, id, row)
    requires t.requests[id].status == Pending && !ev.Judge?
    ensures id < |Step(t, ev).requests| && Follows(Step(t, ev), id, row)
  {
    StepKeepsInvariant(t, ev);
    var t' := Step(t, ev);
    LoadedErrorStays(t, ev, id, row.error);
    PendingRowStays(t, ev, id);
    LiveAccount(t'.messages, id);
    assert RowOk(t'.requests[id], AccountOf(t'.messages, id));
  }

  lemma StepFollows(t: Store, ev: Event, id: nat, row: Request)
    requires Invariant(t) && Allowed(t, ev) && id < |t.requests| && Follows(t, id, row)
    ensures id < |Step(t, ev).requests| && Follows(Step(t, ev), id, row)
  {
    if t.requests[id].status != Pending {
      FinishedFollows(t, ev, id, row);
    } else if ev.Judge? {
      JudgeFollows(t, ev.which, id, row);
    } else {
      PendingFollows(t, ev, id, row);
    }
  }

  lemma {:induction false} RunFollows(s: Store, es: seq<Event>, id: nat)
    requires Invariant(s) && AllowedRun(s, es) && id < |s.requests| && s.requests[id].status == Pending
    ensures id < |Run(s, es).requests| && Follows(Run(s, es), id, s.requests[id])
  {
    if es == [] {
      LiveAccount(s.messages, id);
      forall j | 0 <= j < |s.loaded| && s.loaded[j].id == id && AllOnChain(s.loaded[j].messages)
        ensures s.loaded[j].row.error == s.requests[id].error
      {
        assert SnapshotOk(s, s.loaded[j]);
      }
    } else {
      var front := es[..|es| - 1];
      RunFollows(s, front, id);
      RunKeepsInvariant(s, front);
      StepFollows(Run(s, front), es[|es| - 1], id, s.requests[id]);
    }
  }

  /** A finished request set back to pending with the counts and the error it had is in order again. */
  lemma ReopenedIsInOrder(t: Store, id: nat, row: Request, limit: Option<int>)
    requires Invariant(t) && id < |t.requests| && t.requests[id].Finished() && Follows(t, id, row)
    requires row.status == Pending && !row.dryRun
    ensures Invariant(t.(requests := t.requests[id := row.(basefeeLimit := limit)]))
  {
    var t' := t.(requests := t.requests[id := row.(basefeeLimit := limit)]);
    LiveAccount(t.messages, id);
    forall j | 0 <= j < |t'.loaded| ensures SnapshotOk(t', t'.loaded[j]) {
      assert SnapshotOk(t, t.loaded[j]);
    }
  }

  lemma CheckedAgain(t: Store, id: nat, row: Request, limit: Option<int>)
    requires id < |t.requests| && t.requests[id].Finished() && Follows(t, id, row)
    requires row.status == Pending && !row.dryRun
    ensures var reopened := t.(requests := t.requests[id := row.(basefeeLimit := limit)]);
      Load(CheckStep(reopened, id), id).row == Load(t, id).row.(basefeeLimit := limit)
  {
    var reopened := t.(requests := t.requests[id := row.(basefeeLimit := limit)]);
    JudgedIgnoresTheRest(Load(reopened, id).row, row, LiveOf(t.messages, id));
    assert QueryStep(reopened, id).loaded[|t.loaded|] == Load(reopened, id);
  }

  lemma ReopenedAsPending(s: Store, es: seq<Event>, id: nat, limit: Option<int>)
    requires Invariant(s) && AllowedRun(s, es) && id < |s.requests| && s.requests[id].status == Pending
    requires id < |Run(s, es).requests| && Run(s, es).requests[id].Finished()
    ensures var t := Run(s, es);
      var reopened := SavePatch(t, Load(s, id), limit);
      Invariant(reopened) && Load(CheckStep(reopened, id), id).row == Load(t, id).row.(basefeeLimit := limit)
  {
    RunFollows(s, es, id);
    RunKeepsInvariant(s, es);
    var t, row := Run(s, es), Load(s, id).row;
    assert Follows(t, id, row) by {
      JudgedIgnoresTheRest(s.requests[id], row, LiveOf(t.messages, id));
    }
    ReopenedIsInOrder(t, id, row, limit);
    CheckedAgain(t, id, row, limit);
  }

  /** A late update of a request that has finished meanwhile reopens it in the status it was loaded with.  The
      next check gives it the row it had, up to the base fee limit, if and only if it was loaded as pending;
      one loaded as created is not even looked at. */
  lemma ReopenedRequestHealsIff(s: Store, es: seq<Event>, id: nat, limit: Option<int>)
    requires Invariant(s) && AllowedRun(s, es) && id < |s.requests| && !s.requests[id].Finished()
    requires id < |Run(s, es).requests| && Run(s, es).requests[id].Finished()
    ensures var t := Run(s, es);
      var reopened := SavePatch(t, Load(s, id), limit);
      && reopened.requests[id].status == s.requests[id].status
      && (Load(CheckStep(reopened, id), id).row == Load(t, id).row.(basefeeLimit := limit) <==>
           s.requests[id].status == Pending)
      && (s.requests[id].status == Pending ==> Invariant(reopened))
      && (s.requests[id].status == Created ==> CheckStep(reopened, id) == reopened)
  {
    if s.requests[id].status == Pending {
      ReopenedAsPending(s, es, id, limit);
    }
  }

  /** What the processor then does to a request set back to created: it publishes a second time, on top of
      what was published before. */
  lemma ReopenedIsPublishedAgain(s: Store, es: seq<Event>, id: nat, limit: Option<int>,
      basefee: Option<int>, reply: Reply)
    requires Invariant(s) && AllowedRun(s, es)
    requires id < |s.requests| && s.requests[id].status == Created && !s.requests[id].dryRun
    requires Consistent(reply, false)
    ensures id < |Run(s, es).requests|
    ensures var t := Run(s, es);
      var reopened := SavePatch(t, Load(s, id), limit);
      var again := ProcessStep(reopened, id, basefee, reply);
      && reopened.requests[id].status == Created
      && AccountOf(again.messages, id).sectors == t.requests[id].published + again.requests[id].published
  {
    SameStatusSameRow(s, es, id);
    RunKeepsInvariant(s, es);
    var t := Run(s, es);
    var reopened := SavePatch(t, Load(s, id), limit);
    assert RowOk(s.requests[id], AccountOf(s.messages, id));
    assert RowOk(t.requests[id], AccountOf(t.messages, id));
    if !Waits(reopened.requests[id], basefee) {
      assert ProcessStep(reopened, id, basefee, reply) == ProcessLoaded(reopened, Load(reopened, id), basefee, reply);
      PassAddsPublished(reopened, Load(reopened, id), basefee, reply);
    }
  }

  /** The smallest such case: a request is loaded for an update, fails, and is saved as created again; the
      checker leaves it there. */
  lemma ReopenedAsCreatedStays(args: Planner.Args)
    ensures var s := Step(INITIAL, Create(args, false, None));
      var t := Step(s, Process(0, None, Reply(None, Some("refused"))));
      var reopened := SavePatch(t, Load(s, 0), None);
      && t.requests[0].status == Failed && reopened.requests[0].status == Created
      && CheckStep(reopened, 0) == reopened
  {
    var s := Step(INITIAL, Create(args, false, None));
    assert s.requests == [NewRequest(args, false, None)];
  }

  // ---------------------------------------------------------------- late processing

  /** What a pass over a loaded request adds to the sectors of the live messages, and what it writes. */
  lemma PassAddsPublished(t: Store, snapshot: Snapshot, basefee: Option<int>, reply: Reply)
    requires snapshot.id < |t.requests| && snapshot.row.published == 0 && !snapshot.row.dryRun
    requires !Waits(snapshot.row, basefee) && Consistent(reply, false)
    ensures var t' := ProcessLoaded(t, snapshot, basefee, reply);
      AccountOf(t'.messages, snapshot.id).sectors ==
        AccountOf(t.messages, snapshot.id).sectors + t'.requests[snapshot.id].published
  {
    var news := if Empty(reply) then [] else reply.result.value.messages;
    assert NewMessagesOf(snapshot.row, snapshot.id, reply) == Attach(snapshot.id, news);
    AttachedAccount(t.messages, snapshot.id, news, snapshot.id);
  }

  lemma ProcessedButLimit(row: Request, row': Request, reply: Reply)
    requires SameButLimit(row, row')
    ensures SameButLimit(Processed(row', reply), Processed(row, reply))
    ensures forall id :: NewMessagesOf(row, id, reply) == NewMessagesOf(row', id, reply)
  {}

  /** A pass over a loaded request comes to what the processor's step would, up to the base fee limit. */
  ghost predicate IsTheStep(t: Store, snapshot: Snapshot, basefee: Option<int>, reply: Reply)
    requires snapshot.id < |t.requests|
  {
    var t', stepped := ProcessLoaded(t, snapshot, basefee, reply), ProcessStep(t, snapshot.id, basefee, reply);
    t'.messages == stepped.messages && SameButLimit(stepped.requests[snapshot.id], t'.requests[snapshot.id])
  }

  /** Whatever `extend` may reply. */
  ghost predicate AlwaysTheStep(t: Store, snapshot: Snapshot, basefee: Option<int>)
    requires snapshot.id < |t.requests|
  {
    forall reply :: Consistent(reply, snapshot.row.dryRun) ==> IsTheStep(t, snapshot, basefee, reply)
  }

  lemma StillCreatedIsTheStep(t: Store, snapshot: Snapshot, basefee: Option<int>, reply: Reply)
    requires snapshot.id < |t.requests| && !Waits(snapshot.row, basefee)
    requires t.requests[snapshot.id].status == Created && !Waits(t.requests[snapshot.id], basefee)
    requires SameButLimit(snapshot.row, t.requests[snapshot.id])
    ensures IsTheStep(t, snapshot, basefee, reply)
  {
    ProcessedButLimit(snapshot.row, Load(t, snapshot.id).row, reply);
  }

  /** A failure with a new text makes a difference to any request. */
  lemma FailureShows(t: Store, snapshot: Snapshot, basefee: Option<int>) returns (reply: Reply)
    requires snapshot.id < |t.requests| && !Waits(snapshot.row, basefee)
    requires t.requests[snapshot.id].status != Created || Waits(t.requests[snapshot.id], basefee)
    ensures Consistent(reply, snapshot.row.dryRun) && !IsTheStep(t, snapshot, basefee, reply)
  {
    var error := t.requests[snapshot.id].error + "!";
    reply := Reply(None, Some(error));
    assert ProcessLoaded(t, snapshot, basefee, reply).requests[snapshot.id].error == error;
  }

  /** Processing a request loaded as created before a run, dry or not, is the processor's step whatever
      `extend` replies, if and only if the step's guard still holds: the request is still created and its
      present base fee limit does not make it wait.  If the reply has messages, every pass beyond that
      guard adds them to the ledger. */
  lemma LateProcessingIsTheStepIff(s: Store, es: seq<Event>, id: nat, basefee: Option<int>)
    requires Invariant(s) && AllowedRun(s, es)
    requires id < |s.requests| && s.requests[id].status == Created && !Waits(s.requests[id], basefee)
    ensures id < |Run(s, es).requests|
    ensures var t := Run(s, es);
      var guarded := t.requests[id].status == Created && !Waits(t.requests[id], basefee);
      && (AlwaysTheStep(t, Load(s, id), basefee) <==> guarded)
      && (forall reply :: NewMessagesOf(s.requests[id], id, reply) != [] ==>
           (IsTheStep(t, Load(s, id), basefee, reply) <==> guarded))
  {
    SameStatusSameRow(s, es, id);
    var t, snapshot := Run(s, es), Load(s, id);
    if t.requests[id].status == Created && !Waits(t.requests[id], basefee) {
      forall reply ensures IsTheStep(t, snapshot, basefee, reply) {
        StillCreatedIsTheStep(t, snapshot, basefee, reply);
      }
    } else {
      var reply := FailureShows(t, snapshot, basefee);
    }
  }

  /** How the ledger's account fares: the sectors of the live messages still add up to the published count
      after a late pass, if and only if nothing was published meanwhile. */
  lemma LateProcessingPublishesOnceIff(s: Store, es: seq<Event>, id: nat, basefee: Option<int>, reply: Reply)
    requires Invariant(s) && AllowedRun(s, es)
    requires id < |s.requests| && s.requests[id].status == Created && !s.requests[id].dryRun
    requires !Waits(s.requests[id], basefee) && Consistent(reply, false)
    ensures id < |Run(s, es).requests|
    ensures var t := Run(s, es);
      var t' := ProcessLoaded(t, Load(s, id), basefee, reply);
      AccountOf(t'.messages, id).sectors == t'.requests[id].published <==> t.requests[id].published == 0
  {
    SameStatusSameRow(s, es, id);
    RunKeepsInvariant(s, es);
    var t := Run(s, es);
    assert RowOk(s.requests[id], AccountOf(s.messages, id));
    assert RowOk(t.requests[id], AccountOf(t.messages, id));
    PassAddsPublished(t, Load(s, id), basefee, reply);
  }

  /** A late pass undoes a verdict although nothing was published: any request whose first pass failed is
      pending again, without its error, after a second pass that publishes; a dry run that failed
      succeeds. */
  lemma LatePassUndoesFailure(s: Store, id: nat, basefee: Option<int>, error: ErrorText, reply: Reply)
    requires Invariant(s) && id < |s.requests| && s.requests[id].status == Created
    requires !Waits(s.requests[id], basefee) && Consistent(reply, s.requests[id].dryRun)
    requires !Empty(reply) && reply.error.None?
    ensures var t := Step(s, Process(id, basefee, Reply(None, Some(error))));
      var t' := ProcessLoaded(t, Load(s, id), basefee, reply);
      && t.requests[id].status == Failed && t.requests[id].error == error && t.requests[id].published == 0
      && t'.requests[id].status == (if s.requests[id].dryRun then Success else Pending)
      && t'.requests[id].error == ""
  {
    assert RowOk(s.requests[id], AccountOf(s.messages, id));
  }

  /** Any two passes over one loaded request both publish: the messages then carry twice what the row says,
      and a late update sets the request back to created. */
  lemma SecondPassPublishesAgain(s: Store, id: nat, basefee: Option<int>, reply: Reply, limit: Option<int>)
    requires Invariant(s) && id < |s.requests| && s.requests[id].status == Created && !s.requests[id].dryRun
    requires !Waits(s.requests[id], basefee) && Consistent(reply, false)
    requires reply.result.Some? && reply.result.value.messages != []
    ensures var t := Step(s, Process(id, basefee, reply));
      var t' := ProcessLoaded(t, Load(s, id), basefee, reply);
      && t.requests[id].status == Pending && t'.requests[id].published == reply.result.value.published
      && AccountOf(t'.messages, id).sectors == 2 * reply.result.value.published
      && SavePatch(t, Load(s, id), limit).requests[id].status == Created
  {
    var news := reply.result.value.messages;
    var t := Step(s, Process(id, basefee, reply));
    assert NewMessagesOf(Load(s, id).row, id, reply) == Attach(id, news);
    AttachedAccount(s.messages, id, news, id);
    AttachedAccount(t.messages, id, news, id);
    assert RowOk(s.requests[id], AccountOf(s.messages, id));
  }

  /** Such a run in the small: one request, one message, one sector. */
  lemma LateWritesCanFail(args: Planner.Args)
    ensures var s := Step(INITIAL, Create(args, false, None));
      var reply := Reply(Some(ExtendResult([NewMessage(0, 1, [])], [], 1, 1)), None);
      var t := Step(s, Process(0, None, reply));
      var t' := ProcessLoaded(t, Load(s, 0), None, reply);
      && Invariant(s) && Allowed(s, Process(0, None, reply))
      && t'.requests[0].published == 1 && AccountOf(t'.messages, 0).sectors == 2
      && (var failed := Step(s, Process(0, None, Reply(None, Some("refused"))));
         failed.requests[0].Finished() && ProcessLoaded(failed, Load(s, 0), None, reply).requests[0].status == Pending)
      && SavePatch(t, Load(s, 0), None).requests[0].status == Created
  {
    var s := Step(INITIAL, Create(args, false, None));
    var m := NewMessage(0, 1, []);
    var reply := Reply(Some(ExtendResult([m], [], 1, 1)), None);
    assert [m][..0] == [] && SectorSum([m]) == 1;
    StepKeepsInvariant(INITIAL, Create(args, false, None));
    SecondPassPublishesAgain(s, 0, None, reply, None);
    LatePassUndoesFailure(s, 0, None, "refused", reply);
  }
}
