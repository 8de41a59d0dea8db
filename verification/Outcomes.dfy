/** What each step of the ledger does, in the words of its event (service.go, api.go, model.go): when it changes
    anything, and what it then leaves. */
module Outcomes {
  import opened Wrappers
  import opened Text
  import Planner
  import opened Publisher
  import opened Ledger
  import opened LedgerLaws

  /** At most one request row differs. */
  ghost predicate OnlyRow(s: Store, t: Store, id: nat) {
    && |t.requests| == |s.requests| && t.messages == s.messages && t.loaded == s.loaded
    && forall j :: 0 <= j < |s.requests| && j != id ==> t.requests[j] == s.requests[j]
  }

  // ---------------------------------------------------------------- creating and updating

  /** A new request comes last, as it was asked for and with nothing done. */
  lemma CreateOutcome(s: Store, args: Planner.Args, dryRun: bool, limit: Option<int>)
    ensures var t := Step(s, Create(args, dryRun, limit));
      && |t.requests| == |s.requests| + 1 && t.requests[..|s.requests|] == s.requests
      && t.messages == s.messages && t.loaded == s.loaded
      && var row := t.requests[|s.requests|];
        && row.args == args && row.dryRun == dryRun && row.basefeeLimit == limit
        && row.status == Created && row.total == row.published == row.succeeded == 0 && row.error == ""
  {}

  /** An update writes the new limit and nothing else that a reader sees, if and only if the request exists and is
      not finished. */
  lemma UpdateOutcome(s: Store, id: nat, limit: Option<int>)
    ensures var t := Step(s, Patch(id, limit));
      if id < |s.requests| && (s.requests[id].status == Created || s.requests[id].status == Pending) then
        && OnlyRow(s, t, id)
        && t.requests[id].basefeeLimit == limit
        && Load(t, id).row == Load(s, id).row.(basefeeLimit := limit)
        && t.requests[id].status == s.requests[id].status && t.requests[id].error == s.requests[id].error
      else t == s
  {}

  // ---------------------------------------------------------------- processing

  /** The request is processed: it is created, and the base fee is known and not above its limit, unless it has
      none. */
  ghost predicate IsDue(s: Store, id: nat, basefee: Option<int>) {
    && id < |s.requests| && s.requests[id].status == Created
    && match s.requests[id].basefeeLimit
       case None => true
       case Some(limit) => limit == 0 || (basefee.Some? && basefee.value <= limit)
  }

  lemma ProcessNotDue(s: Store, id: nat, basefee: Option<int>, reply: Reply)
    requires !IsDue(s, id, basefee)
    ensures Step(s, Process(id, basefee, reply)) == s
  {}

  lemma ProcessKeepsAsked(s: Store, id: nat, basefee: Option<int>, reply: Reply)
    requires IsDue(s, id, basefee)
    ensures var t := Step(s, Process(id, basefee, reply));
      && |t.requests| == |s.requests| && t.loaded == s.loaded
      && (forall j :: 0 <= j < |s.requests| && j != id ==> t.requests[j] == s.requests[j])
      && var row, row' := s.requests[id], t.requests[id];
        && row'.args == row.args && row'.dryRun == row.dryRun && row'.basefeeLimit == row.basefeeLimit
        && row'.error == (if reply.error.Some? then reply.error.value else row.error)
  {}

  /** A reply without messages ends the request: success, or failure if there was an error. */
  lemma NothingSentOutcome(s: Store, id: nat, basefee: Option<int>, reply: Reply)
    requires IsDue(s, id, basefee)
    requires reply.result.Some? ==> reply.result.value.messages == [] && reply.result.value.dryRuns == []
    ensures var t := Step(s, Process(id, basefee, reply));
      && t.messages == s.messages
      && t.requests[id].status == (if reply.error.Some? then Failed else Success)
      && t.requests[id].total == s.requests[id].total && t.requests[id].published == s.requests[id].published
  {
    assert s.messages + [] == s.messages;
  }

  /** Any other reply writes its counts.  A dry run is finished; otherwise the request is pending and has the
      messages of the reply, live, not on chain, in order. */
  lemma SomethingSentOutcome(s: Store, id: nat, basefee: Option<int>, reply: Reply)
    requires IsDue(s, id, basefee) && reply.result.Some?
    requires reply.result.value.messages != [] || reply.result.value.dryRuns != []
    ensures var t, result := Step(s, Process(id, basefee, reply)), reply.result.value;
      && t.requests[id].total == result.total && t.requests[id].published == result.published
      && (if s.requests[id].dryRun then
            && t.messages == s.messages
            && t.requests[id].status == (if reply.error.Some? then Partfailed else Success)
          else
            && t.requests[id].status == Pending
            && |t.messages| == |s.messages| + |result.messages| && t.messages[..|s.messages|] == s.messages
            && forall k :: 0 <= k < |result.messages| ==>
                 var m, new' := t.messages[|s.messages| + k], result.messages[k];
                 && m.requestId == id && m.live && !m.onChain
                 && m.nonce == new'.nonce && m.sectors == new'.sectors && m.extensions == new'.extensions)
  {
    assert s.messages + [] == s.messages;
  }

  /** If every push is refused, the request ends as failed, with a text that starts with the first refusal and
      contains all of them, and without a message. */
  lemma AllRefusedFails(s: Store, id: nat, basefee: Option<int>, plan: Planner.Plan, answer: nat -> Answer,
      reply: Reply)
    requires IsDue(s, id, basefee) && Publishes(Ok(plan), s.requests[id].dryRun, answer, reply)
    requires Consistent(reply, s.requests[id].dryRun)
    requires plan.batches != [] && forall k :: 0 <= k < |plan.batches| ==> answer(k).Refused?
    ensures var t := Step(s, Process(id, basefee, reply));
      && t.requests[id].status == Failed && t.messages == s.messages
      && answer(0).error <= t.requests[id].error
      && forall k :: 0 <= k < |plan.batches| ==> Contains(t.requests[id].error, answer(k).error)
  {
    UniformAnswers(plan.batches, answer);
    ReplyTellsRefusals(plan, s.requests[id].dryRun, answer, reply);
    assert answer(0).Refused?;
    NothingSentOutcome(s, id, basefee, reply);
    ProcessKeepsAsked(s, id, basefee, reply);
  }

  /** If every push is accepted, the request carries no error. */
  lemma AllAcceptedIsClean(s: Store, id: nat, basefee: Option<int>, plan: Planner.Plan, answer: nat -> Answer,
      reply: Reply)
    requires IsDue(s, id, basefee) && Publishes(Ok(plan), s.requests[id].dryRun, answer, reply)
    requires forall k :: 0 <= k < |plan.batches| ==> answer(k).Accepted?
    ensures Step(s, Process(id, basefee, reply)).requests[id].error == s.requests[id].error
  {
    ReplyTellsRefusals(plan, s.requests[id].dryRun, answer, reply);
    ProcessKeepsAsked(s, id, basefee, reply);
  }

  // ---------------------------------------------------------------- loading and checking

  /** The messages loaded with a request are its live ones, in the order of their rows. */
  lemma {:induction false} LiveMeans(ms: seq<Message>, id: nat, m: Message)
    ensures m in LiveOf(ms, id) <==> m in ms && m.live && m.requestId == id
    ensures LiveOf(ms + [m], id) == LiveOf(ms, id) + if m.live && m.requestId == id then [m] else []
  {
    assert (ms + [m])[..|ms|] == ms;
    if ms != [] {
      var k := |ms| - 1;
      LiveMeans(ms[..k], id, m);
      assert ms == ms[..k] + [ms[k]];
    }
  }

  /** The succeeded sectors: those of the messages on chain with exit code zero. */
  lemma LandedMeans(ms: seq<Message>, m: Message)
    ensures LandedSectors([]) == 0
    ensures LandedSectors(ms + [m]) == LandedSectors(ms) + if m.onChain && m.exitCode == 0 then m.sectors else 0
  {
    assert (ms + [m])[..|ms|] == ms;
  }

  /** A reader sees the row with its succeeded count recomputed: from the live messages, or from the published
      count of a dry run. */
  lemma LoadOutcome(s: Store, id: nat)
    requires id < |s.requests|
    ensures var loaded, row := Load(s, id), s.requests[id];
      && loaded.id == id && loaded.messages == LiveOf(s.messages, id)
      && loaded.row == row.(succeeded := loaded.row.succeeded)
      && loaded.row.succeeded == if row.dryRun then row.published else LandedSectors(loaded.messages)
  {}

  /** The checker's query loads exactly the pending requests. */
  lemma QueryOutcome(s: Store, id: nat)
    ensures var t := Step(s, Query(id));
      if id < |s.requests| && s.requests[id].status == Pending then t == s.(loaded := s.loaded + [Load(s, id)])
      else t == s
  {}

  lemma {:induction false} BadTextOf(ms: seq<Message>, i: nat)
    requires i < |ms| && ms[i].onChain && ms[i].exitCode != 0
    ensures ExitText(ms[i].exitCode) in BadTexts(ms)
  {
    var k := |ms| - 1;
    if i < k {
      BadTextOf(ms[..k], i);
    }
  }

  /** The check of a loaded request saves a verdict if and only if all its messages are on chain; the rest of the
      row is the loaded one. */
  lemma JudgeOutcome(s: Store, which: nat)
    ensures var t := Step(s, Judge(which));
      if which < |s.loaded| && s.loaded[which].id < |s.requests|
        && forall i :: 0 <= i < |s.loaded[which].messages| ==> s.loaded[which].messages[i].onChain
      then
        var row, row' := s.loaded[which].row, t.requests[s.loaded[which].id];
        OnlyRow(s, t, s.loaded[which].id) && row' == row.(status := row'.status, error := row'.error)
      else t == s
  {}

  lemma JoinedTextContains(first: seq<string>, more: seq<ErrorText>, text: string)
    requires text in more
    ensures Contains(Join(first + more, ";"), text)
  {
    var k :| 0 <= k < |more| && more[k] == text;
    JoinContains(first + more, ";", |first| + k);
  }

  /** The verdict: success or, after an earlier error, part failure if every message landed well; failure if every
      one landed badly; part failure otherwise.  The error keeps the earlier text in front, followed by a
      semicolon, and contains the exit text of every bad message. */
  lemma VerdictMeans(row: Request, ms: seq<Message>)
    requires forall i :: 0 <= i < |ms| ==> ms[i].onChain
    ensures var verdict := Judged(row, ms);
      && ((forall i :: 0 <= i < |ms| ==> ms[i].exitCode == 0) ==>
           verdict.error == row.error && verdict.status == if row.error == "" then Success else Partfailed)
      && ((exists i :: 0 <= i < |ms| && ms[i].exitCode != 0) ==>
           && verdict.status == (if forall i :: 0 <= i < |ms| ==> ms[i].exitCode != 0 then Failed else Partfailed)
           && (row.error != "" ==> row.error + ";" <= verdict.error)
           && forall i :: 0 <= i < |ms| && ms[i].exitCode != 0 ==>
                Contains(verdict.error, "exit " + FormatUint(ms[i].exitCode)))
  {
    BadCount(ms);
    var texts := (if row.error != "" then [row.error] else []) + BadTexts(ms);
    forall i | 0 <= i < |ms| && ms[i].exitCode != 0
      ensures Contains(Join(texts, ";"), "exit " + FormatUint(ms[i].exitCode))
    {
      BadTextOf(ms, i);
      JoinedTextContains(if row.error != "" then [row.error] else [], BadTexts(ms), ExitText(ms[i].exitCode));
    }
  }

  // ---------------------------------------------------------------- receipts and replacements

  /** A receipt puts its exit code on a live message and changes nothing else. */
  lemma ReceiveOutcome(s: Store, mid: nat, exitCode: nat)
    ensures var t := Step(s, Receive(mid, exitCode));
      if mid < |s.messages| && s.messages[mid].live then
        && t.requests == s.requests && t.loaded == s.loaded && |t.messages| == |s.messages|
        && (forall j :: 0 <= j < |s.messages| && j != mid ==> t.messages[j] == s.messages[j])
        && var m, m' := s.messages[mid], t.messages[mid];
          && m'.onChain && m'.exitCode == exitCode && m'.live
          && m'.requestId == m.requestId && m'.nonce == m.nonce
          && m'.sectors == m.sectors && m'.extensions == m.extensions
      else t == s
  {}

  /** A replacement takes place: the message is live, the pool holds one of its sender and nonce, and the new one
      is accepted. */
  ghost predicate IsReplaced(s: Store, mid: nat, lookup: Lookup) {
    && mid < |s.messages| && s.messages[mid].live && lookup.pushed
    && exists i :: 0 <= i < |lookup.pool|
         && lookup.pool[i].from == lookup.chain.from && lookup.pool[i].nonce == lookup.chain.nonce
  }

  /** The old row dies and one new row is appended: live, off chain, of the same request and nonce, with the same
      sectors and extensions.  Otherwise, a refused push included, nothing changes. */
  lemma ReplacementOutcome(s: Store, mid: nat, lookup: Lookup)
    ensures var t, n := Step(s, Replace(mid, lookup)), |s.messages|;
      if IsReplaced(s, mid, lookup) then
        && t.requests == s.requests && t.loaded == s.loaded && |t.messages| == n + 1
        && (forall j :: 0 <= j < n && j != mid ==> t.messages[j] == s.messages[j])
        && !t.messages[mid].live && t.messages[mid] == s.messages[mid].(live := false)
        && var old', new' := s.messages[mid], t.messages[n];
          && new'.live && !new'.onChain && new'.requestId == old'.requestId && new'.nonce == lookup.chain.nonce
          && new'.sectors == old'.sectors && new'.extensions == old'.extensions
      else t == s
  {
    FoundIsFirstPending(lookup.pool, lookup.chain.from, lookup.chain.nonce);
  }
}
