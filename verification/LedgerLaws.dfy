/** What every reachable state of the ledger satisfies. */
module LedgerLaws {
  import opened Wrappers
  import opened Text
  import Planner
  import opened Publisher
  import opened Ledger

  // ---------------------------------------------------------------- the account of one request

  /** A measure summed over the live messages of one request in a whole message table. */
  function Sum(ms: seq<Message>, id: nat, f: Message -> nat): nat {
    if ms == [] then 0 else Sum(ms[..|ms| - 1], id, f) + Share(ms[|ms| - 1], id, f)
  }

  function Share(m: Message, id: nat, f: Message -> nat): nat {
    if Belongs(m, id) then f(m) else 0
  }

  function One(): Message -> nat {
    (m: Message) => 1
  }

  function SectorsOf(): Message -> nat {
    (m: Message) => m.sectors
  }

  function LandedOf(): Message -> nat {
    (m: Message) => if Landed(m) then m.sectors else 0
  }

  function OffChain(): Message -> nat {
    (m: Message) => if m.onChain then 0 else 1
  }

  function BadExit(): Message -> nat {
    (m: Message) => if m.onChain && m.exitCode != 0 then 1 else 0
  }

  lemma SumSnoc(ms: seq<Message>, m: Message, id: nat, f: Message -> nat)
    ensures Sum(ms + [m], id, f) == Sum(ms, id, f) + Share(m, id, f)
  {
    assert (ms + [m])[..|ms|] == ms;
  }

  /** Changing one row changes a sum by the difference of its shares. */
  lemma {:induction false} SumUpdate(ms: seq<Message>, i: nat, m: Message, id: nat, f: Message -> nat)
    requires i < |ms|
    ensures Sum(ms[i := m], id, f) + Share(ms[i], id, f) == Sum(ms, id, f) + Share(m, id, f)
  {
    var k := |ms| - 1;
    var us := ms[i := m];
    if i == k {
      assert us[..k] == ms[..k];
    } else {
      assert us[..k] == ms[..k][i := m];
      SumUpdate(ms[..k], i, m, id, f);
    }
  }

  lemma {:induction false} SumOfStrangers(ms: seq<Message>, id: nat, f: Message -> nat)
    requires forall i :: 0 <= i < |ms| ==> ms[i].requestId < id
    ensures Sum(ms, id, f) == 0
  {
    if ms != [] {
      SumOfStrangers(ms[..|ms| - 1], id, f);
    }
  }

  /** What a request's live messages add up to: how many, their sectors, the sectors that landed with
      exit code zero, how many are not on chain, how many landed with another code. */
  datatype Account = Account(count: nat, sectors: nat, landed: nat, off: nat, bad: nat)

  function AccountOf(ms: seq<Message>, id: nat): Account {
    Account(Sum(ms, id, One()), Sum(ms, id, SectorsOf()), Sum(ms, id, LandedOf()),
            Sum(ms, id, OffChain()), Sum(ms, id, BadExit()))
  }

  lemma {:induction false} AccountFacts(ms: seq<Message>, id: nat)
    ensures var a := AccountOf(ms, id);
      && a.landed <= a.sectors
      && a.off + a.bad <= a.count
      && (a.off == 0 && a.bad == 0 ==> a.landed == a.sectors)
      && (a.bad == a.count ==> a.landed == 0 && a.off == 0)
      && (a.count == 0 ==> a.sectors == 0)
  {
    if ms != [] {
      AccountFacts(ms[..|ms| - 1], id);
    }
  }

  lemma {:induction false} LiveCount(ms: seq<Message>, id: nat)
    ensures |LiveOf(ms, id)| == Sum(ms, id, One())
  {
    if ms != [] {
      LiveCount(ms[..|ms| - 1], id);
    }
  }

  lemma {:induction false} LiveLanded(ms: seq<Message>, id: nat)
    ensures LandedSectors(LiveOf(ms, id)) == Sum(ms, id, LandedOf())
  {
    if ms != [] {
      var k := |ms| - 1;
      var before := LiveOf(ms[..k], id);
      LiveLanded(ms[..k], id);
      assert (before + [ms[k]])[..|before|] == before;
      assert before + [] == before;
    }
  }

  lemma {:induction false} LiveBad(ms: seq<Message>, id: nat)
    ensures |BadTexts(LiveOf(ms, id))| == Sum(ms, id, BadExit())
  {
    if ms != [] {
      var k := |ms| - 1;
      var before := LiveOf(ms[..k], id);
      LiveBad(ms[..k], id);
      assert (before + [ms[k]])[..|before|] == before;
      assert before + [] == before;
    }
  }

  lemma {:induction false} LiveOffChain(ms: seq<Message>, id: nat)
    ensures AllOnChain(LiveOf(ms, id)) <==> Sum(ms, id, OffChain()) == 0
  {
    if ms != [] {
      var k := |ms| - 1;
      var before, live := LiveOf(ms[..k], id), LiveOf(ms, id);
      LiveOffChain(ms[..k], id);
      if Belongs(ms[k], id) {
        assert live[|before|] == ms[k];
        assert forall i :: 0 <= i < |before| ==> live[i] == before[i];
      } else {
        assert live == before;
      }
    }
  }

  /** The account is what the loaded messages show. */
  lemma LiveAccount(ms: seq<Message>, id: nat)
    ensures var live, a := LiveOf(ms, id), AccountOf(ms, id);
      && |live| == a.count
      && LandedSectors(live) == a.landed
      && |BadTexts(live)| == a.bad
      && (AllOnChain(live) <==> a.off == 0)
  {
    LiveCount(ms, id);
    LiveLanded(ms, id);
    LiveBad(ms, id);
    LiveOffChain(ms, id);
  }

  // ---------------------------------------------------------------- the invariant

  /** What the row of a request says about its messages, by status. */
  ghost predicate RowOk(r: Request, a: Account) {
    && r.published <= r.total
    && (r.dryRun ==> a.count == 0)
    && (!r.dryRun ==> a.sectors == r.published)
    && match r.status
       case Created => r.total == 0 && r.error == "" && a.count == 0
       case Pending => !r.dryRun && a.count > 0
       case Success => r.error == "" && a.off == 0 && a.bad == 0
       case Failed => r.error != "" && a.off == 0 && a.bad == a.count
       case Partfailed => r.error != "" && a.off == 0 && (!r.dryRun ==> a.count > 0 && a.bad < a.count)
  }

  /** The row either still waits for its verdict or carries the verdict of this snapshot. */
  ghost predicate AgreesWith(row: Request, snapshot: Snapshot) {
    var verdict := Judged(snapshot.row, snapshot.messages);
    || (row.status == Pending && row.error == snapshot.row.error)
    || (row.status == verdict.status && row.error == verdict.error)
  }

  /** A loaded request was pending when it was loaded and still has its counts.  If all its messages were on
      chain then, they still are its live messages, and the row agrees with its verdict. */
  ghost predicate SnapshotOk(s: Store, snapshot: Snapshot) {
    && snapshot.id < |s.requests|
    && snapshot.row.status == Pending && |snapshot.messages| > 0
    && var r := s.requests[snapshot.id];
    && r.status != Created && !r.dryRun && !snapshot.row.dryRun
    && snapshot.row.args == r.args && snapshot.row.total == r.total && snapshot.row.published == r.published
    && snapshot.row.succeeded == LandedSectors(snapshot.messages)
    && (AllOnChain(snapshot.messages) ==>
         LiveOf(s.messages, snapshot.id) == snapshot.messages && AgreesWith(r, snapshot))
  }

  ghost predicate RowsOk(s: Store) {
    && (forall i :: 0 <= i < |s.messages| ==> s.messages[i].requestId < |s.requests|)
    && (forall id :: 0 <= id < |s.requests| ==> RowOk(s.requests[id], AccountOf(s.messages, id)))
  }

  ghost predicate SnapshotsOk(s: Store) {
    forall j :: 0 <= j < |s.loaded| ==> SnapshotOk(s, s.loaded[j])
  }

  ghost predicate Invariant(s: Store) {
    RowsOk(s) && SnapshotsOk(s)
  }

  // ---------------------------------------------------------------- each step keeps the rows

  /** Adding up a measure over the messages publishing creates. */
  function SumNew(news: seq<NewMessage>, id: nat, f: Message -> nat): nat {
    if news == [] then 0 else SumNew(news[..|news| - 1], id, f) + f(Attached(id, news[|news| - 1]))
  }

  lemma AttachOneMore(ms: seq<Message>, id: nat, news: seq<NewMessage>)
    requires news != []
    ensures var k := |news| - 1;
      ms + Attach(id, news) == (ms + Attach(id, news[..k])) + [Attached(id, news[k])]
  {}

  lemma {:induction false} SumAttached(ms: seq<Message>, id: nat, news: seq<NewMessage>, other: nat, f: Message -> nat)
    ensures Sum(ms + Attach(id, news), other, f) == Sum(ms, other, f) + if other == id then SumNew(news, id, f) else 0
  {
    if news == [] {
      assert ms + Attach(id, news) == ms;
    } else {
      var k := |news| - 1;
      var fewer := ms + Attach(id, news[..k]);
      SumAttached(ms, id, news[..k], other, f);
      AttachOneMore(ms, id, news);
      SumSnoc(fewer, Attached(id, news[k]), other, f);
    }
  }

  lemma {:induction false} NewSums(news: seq<NewMessage>, id: nat)
    ensures SumNew(news, id, One()) == |news|
    ensures SumNew(news, id, SectorsOf()) == SectorSum(news)
  {
    if news != [] {
      NewSums(news[..|news| - 1], id);
    }
  }

  lemma CreateKeeps(s: Store, args: Planner.Args, dryRun: bool, limit: Option<int>)
    requires RowsOk(s)
    ensures RowsOk(Step(s, Create(args, dryRun, limit)))
  {
    SumOfStrangers(s.messages, |s.requests|, One());
    AccountFacts(s.messages, |s.requests|);
  }

  lemma PatchKeeps(s: Store, id: nat, limit: Option<int>)
    requires RowsOk(s)
    ensures RowsOk(PatchStep(s, id, limit))
  {}

  lemma ProcessedOk(r: Request, reply: Reply, before: Account, after: Account)
    requires after.off + after.bad <= after.count && (after.count == 0 ==> after.sectors == 0)
    requires RowOk(r, before) && r.status == Created && Consistent(reply, r.dryRun)
    requires if Empty(reply) || r.dryRun then after.count == before.count
             else var news := reply.result.value.messages;
               after.count == |news| && after.sectors == SectorSum(news)
    ensures RowOk(Processed(r, reply), after)
  {}

  lemma AttachedAccount(ms: seq<Message>, id: nat, news: seq<NewMessage>, other: nat)
    ensures other != id ==> AccountOf(ms + Attach(id, news), other) == AccountOf(ms, other)
    ensures var a, b := AccountOf(ms + Attach(id, news), id), AccountOf(ms, id);
      a.count == b.count + |news| && a.sectors == b.sectors + SectorSum(news)
  {
    SumAttached(ms, id, news, other, One());
    SumAttached(ms, id, news, other, SectorsOf());
    SumAttached(ms, id, news, other, LandedOf());
    SumAttached(ms, id, news, other, OffChain());
    SumAttached(ms, id, news, other, BadExit());
    SumAttached(ms, id, news, id, One());
    SumAttached(ms, id, news, id, SectorsOf());
    NewSums(news, id);
  }

  lemma ProcessKeeps(s: Store, id: nat, basefee: Option<int>, reply: Reply)
    requires RowsOk(s) && Allowed(s, Process(id, basefee, reply))
    ensures RowsOk(ProcessStep(s, id, basefee, reply))
  {
    var s' := ProcessStep(s, id, basefee, reply);
    if id < |s.requests| && s.requests[id].status == Created && !Waits(s.requests[id], basefee) {
      var row := Load(s, id).row;
      var news := if Empty(reply) || row.dryRun then [] else reply.result.value.messages;
      assert s'.messages == s.messages + Attach(id, news);
      forall other | 0 <= other < |s'.requests| ensures RowOk(s'.requests[other], AccountOf(s'.messages, other)) {
        AttachedAccount(s.messages, id, news, other);
        AccountFacts(s'.messages, id);
        if other == id {
          ProcessedOk(row, reply, AccountOf(s.messages, id), AccountOf(s'.messages, id));
        }
      }
    }
  }

  lemma JudgedOk(r: Request, live: seq<Message>, a: Account)
    requires RowOk(r, a) && r.status == Pending && a.off == 0
    requires |live| == a.count && |BadTexts(live)| == a.bad <= a.count
    ensures RowOk(Judged(r, live), a)
    ensures Judged(r, live).status == Failed <==> a.bad == a.count
  {
    var bad := BadTexts(live);
    if bad != [] {
      JoinIsNotEmpty((if r.error != "" then [r.error] else []) + bad, ";");
    }
  }

  /** A snapshot's verdict fits the messages the request has now. */
  lemma JudgeKeeps(s: Store, which: nat)
    requires Invariant(s)
    ensures RowsOk(JudgeStep(s, which))
  {
    if which < |s.loaded| && AllOnChain(s.loaded[which].messages) {
      var snapshot := s.loaded[which];
      assert SnapshotOk(s, snapshot);
      LiveAccount(s.messages, snapshot.id);
      AccountFacts(s.messages, snapshot.id);
      JudgedOk(snapshot.row, snapshot.messages, AccountOf(s.messages, snapshot.id));
    }
  }

  /** The account of a request after a receipt: count and sectors stay; one message moves from off
      chain to landed or bad. */
  lemma ReceiveAccount(s: Store, mid: nat, exitCode: nat, id: nat)
    requires mid < |s.messages| && s.messages[mid].live && Allowed(s, Receive(mid, exitCode))
    ensures var m := s.messages[mid];
      var a, b := AccountOf(s.messages, id), AccountOf(ReceiveStep(s, mid, exitCode).messages, id);
      if m.requestId != id || m.onChain then a == b
      else
        && b.count == a.count && b.sectors == a.sectors && b.off == a.off - 1
        && (if exitCode == 0 then b.bad == a.bad && b.landed == a.landed + m.sectors
            else b.bad == a.bad + 1 && b.landed == a.landed)
  {
    var m' := s.messages[mid].(onChain := true, exitCode := exitCode);
    SumUpdate(s.messages, mid, m', id, One());
    SumUpdate(s.messages, mid, m', id, SectorsOf());
    SumUpdate(s.messages, mid, m', id, LandedOf());
    SumUpdate(s.messages, mid, m', id, OffChain());
    SumUpdate(s.messages, mid, m', id, BadExit());
  }

  lemma ReceiveKeeps(s: Store, mid: nat, exitCode: nat)
    requires RowsOk(s) && Allowed(s, Receive(mid, exitCode))
    ensures RowsOk(ReceiveStep(s, mid, exitCode))
  {
    if mid < |s.messages| && s.messages[mid].live {
      forall id | 0 <= id < |s.requests|
        ensures RowOk(s.requests[id], AccountOf(ReceiveStep(s, mid, exitCode).messages, id))
      {
        ReceiveAccount(s, mid, exitCode, id);
        AccountFacts(s.messages, id);
      }
    }
  }

  /** What the pool search finds: a message of that sender and nonce with none before it; nothing exactly
      if the pool has none. */
  lemma {:induction false} FoundIsFirstPending(pool: seq<PoolMessage>, from: nat, nonce: nat)
    ensures match FindPending(pool, from, nonce)
      case Some(found) =>
        exists i :: 0 <= i < |pool| && pool[i] == found && Matches(found, from, nonce)
          && forall j :: 0 <= j < i ==> !Matches(pool[j], from, nonce)
      case None => forall j :: 0 <= j < |pool| ==> !Matches(pool[j], from, nonce)
  {
    if pool != [] && !Matches(pool[0], from, nonce) {
      var rest := pool[1..];
      FoundIsFirstPending(rest, from, nonce);
      match FindPending(rest, from, nonce) {
        case Some(found) =>
          var i :| 0 <= i < |rest| && rest[i] == found && forall j :: 0 <= j < i ==> !Matches(rest[j], from, nonce);
          forall j | 0 <= j < i + 1 ensures !Matches(pool[j], from, nonce) {
            assert j > 0 ==> pool[j] == rest[j - 1];
          }
          assert pool[i + 1] == found;
        case None =>
          forall j | 0 <= j < |pool| ensures !Matches(pool[j], from, nonce) {
            assert j > 0 ==> pool[j] == rest[j - 1];
          }
      }
    } else if pool != [] {
      assert pool[0] == FindPending(pool, from, nonce).value;
    }
  }

  /** The measure does not look at the exit code of a message that is not on chain. */
  ghost predicate BlindOffChain(f: Message -> nat) {
    forall m: Message :: !m.onChain ==> f(m.(exitCode := 0)) == f(m)
  }

  /** Replacing a message leaves every such sum as it was: the new message has the same request, nonce,
      sectors and extensions, and is off chain like the one it replaces. */
  lemma ReplaceKeepsSums(s: Store, mid: nat, lookup: Lookup, id: nat, f: Message -> nat)
    requires Allowed(s, Replace(mid, lookup)) && BlindOffChain(f)
    ensures Sum(ReplaceStep(s, mid, lookup).messages, id, f) == Sum(s.messages, id, f)
  {
    FoundIsFirstPending(lookup.pool, lookup.chain.from, lookup.chain.nonce);
    if mid < |s.messages| && s.messages[mid].live && lookup.pushed
      && FindPending(lookup.pool, lookup.chain.from, lookup.chain.nonce).Some?
    {
      var m := s.messages[mid];
      var dead, again := m.(live := false), m.(exitCode := 0);
      assert Replacement(m, FindPending(lookup.pool, lookup.chain.from, lookup.chain.nonce).value) == again;
      SumUpdate(s.messages, mid, dead, id, f);
      SumSnoc(s.messages[mid := dead], again, id, f);
    }
  }

  lemma ReplaceKeepsAccounts(s: Store, mid: nat, lookup: Lookup, id: nat)
    requires Allowed(s, Replace(mid, lookup))
    ensures AccountOf(ReplaceStep(s, mid, lookup).messages, id) == AccountOf(s.messages, id)
  {
    ReplaceKeepsSums(s, mid, lookup, id, One());
    ReplaceKeepsSums(s, mid, lookup, id, SectorsOf());
    ReplaceKeepsSums(s, mid, lookup, id, LandedOf());
    ReplaceKeepsSums(s, mid, lookup, id, OffChain());
    ReplaceKeepsSums(s, mid, lookup, id, BadExit());
  }

  lemma ReplaceKeeps(s: Store, mid: nat, lookup: Lookup)
    requires RowsOk(s) && Allowed(s, Replace(mid, lookup))
    ensures RowsOk(ReplaceStep(s, mid, lookup))
  {
    forall id | 0 <= id < |s.requests|
      ensures RowOk(s.requests[id], AccountOf(ReplaceStep(s, mid, lookup).messages, id))
    {
      ReplaceKeepsAccounts(s, mid, lookup, id);
    }
  }

  // ---------------------------------------------------------------- loaded requests stay in agreement

  lemma {:induction false} LiveUntouched(ms: seq<Message>, i: nat, m: Message, id: nat)
    requires i < |ms| && !Belongs(ms[i], id) && !Belongs(m, id)
    ensures LiveOf(ms[i := m], id) == LiveOf(ms, id)
  {
    var k := |ms| - 1;
    if i == k {
      assert ms[i := m][..k] == ms[..k];
    } else {
      assert ms[i := m][..k] == ms[..k][i := m];
      LiveUntouched(ms[..k], i, m, id);
    }
  }

  lemma LiveSnocStranger(ms: seq<Message>, m: Message, id: nat)
    requires !Belongs(m, id)
    ensures LiveOf(ms + [m], id) == LiveOf(ms, id)
  {
    assert (ms + [m])[..|ms|] == ms;
    assert LiveOf(ms, id) + [] == LiveOf(ms, id);
  }

  lemma {:induction false} LiveAttachStrangers(ms: seq<Message>, other: nat, news: seq<NewMessage>, id: nat)
    requires other != id
    ensures LiveOf(ms + Attach(other, news), id) == LiveOf(ms, id)
  {
    if news == [] {
      assert ms + Attach(other, news) == ms;
    } else {
      var k := |news| - 1;
      LiveAttachStrangers(ms, other, news[..k], id);
      AttachOneMore(ms, other, news);
      LiveSnocStranger(ms + Attach(other, news[..k]), Attached(other, news[k]), id);
    }
  }

  lemma {:induction false} LiveMember(ms: seq<Message>, i: nat, id: nat)
    requires i < |ms| && Belongs(ms[i], id) && AllOnChain(LiveOf(ms, id))
    ensures ms[i].onChain
  {
    var k := |ms| - 1;
    var before, live := LiveOf(ms[..k], id), LiveOf(ms, id);
    if i == k {
      assert live[|before|] == ms[k];
    } else {
      assert forall j :: 0 <= j < |before| ==> live[j] == before[j];
      LiveMember(ms[..k], i, id);
    }
  }

  /** Once all messages of a processed request are on chain, no step touches them. */
  lemma LandedMessagesStay(s: Store, ev: Event, id: nat)
    requires Allowed(s, ev) && id < |s.requests| && s.requests[id].status != Created
    requires AllOnChain(LiveOf(s.messages, id))
    ensures LiveOf(Step(s, ev).messages, id) == LiveOf(s.messages, id)
  {
    match ev {
      case Create(_, _, _) =>
      case Patch(_, _) =>
      case Query(_) =>
      case Judge(_) =>
      case Process(other, basefee, reply) =>
        if other < |s.requests| && other != id {
          var row := Load(s, other).row;
          var news := if Empty(reply) || row.dryRun then [] else reply.result.value.messages;
          assert NewMessagesOf(row, other, reply) == Attach(other, news);
          LiveAttachStrangers(s.messages, other, news, id);
        }
      case Receive(mid, exitCode) =>
        if mid < |s.messages| && s.messages[mid].live {
          var m' := s.messages[mid].(onChain := true, exitCode := exitCode);
          if Belongs(s.messages[mid], id) {
            LiveMember(s.messages, mid, id);
            assert s.messages[mid := m'] == s.messages;
          } else {
            LiveUntouched(s.messages, mid, m', id);
          }
        }
      case Replace(mid, lookup) =>
        if ReplaceStep(s, mid, lookup) != s {
          var m := s.messages[mid];
          if Belongs(m, id) {
            LiveMember(s.messages, mid, id);
          } else {
            var found := FindPending(lookup.pool, lookup.chain.from, lookup.chain.nonce).value;
            var dead := m.(live := false);
            LiveUntouched(s.messages, mid, dead, id);
            LiveSnocStranger(s.messages[mid := dead], Replacement(m, found), id);
          }
        }
    }
  }

  /** The verdict depends on the error text and the messages alone. */
  lemma JudgedIgnoresTheRest(r: Request, q: Request, messages: seq<Message>)
    requires r.error == q.error
    ensures Judged(r, messages).status == Judged(q, messages).status
    ensures Judged(r, messages).error == Judged(q, messages).error
  {}

  /** Two snapshots of one request with all messages on chain have the same verdict. */
  lemma SnapshotsAgree(s: Store, a: Snapshot, b: Snapshot)
    requires SnapshotOk(s, a) && SnapshotOk(s, b) && a.id == b.id
    requires AllOnChain(a.messages) && AllOnChain(b.messages)
    ensures AgreesWith(Judged(a.row, a.messages), b)
  {
    if s.requests[a.id].status == Pending {
      JudgedIgnoresTheRest(a.row, b.row, a.messages);
    }
  }

  lemma JudgeKeepsSnapshot(s: Store, which: nat, snapshot: Snapshot)
    requires Invariant(s) && SnapshotOk(s, snapshot)
    ensures SnapshotOk(JudgeStep(s, which), snapshot)
  {
    if which < |s.loaded| && AllOnChain(s.loaded[which].messages) {
      var other := s.loaded[which];
      assert SnapshotOk(s, other);
      if other.id == snapshot.id && AllOnChain(snapshot.messages) {
        SnapshotsAgree(s, other, snapshot);
      }
    }
  }

  lemma StepKeepsSnapshot(s: Store, e: Event, snapshot: Snapshot)
    requires Invariant(s) && Allowed(s, e) && SnapshotOk(s, snapshot)
    ensures SnapshotOk(Step(s, e), snapshot)
  {
    if AllOnChain(snapshot.messages) {
      LandedMessagesStay(s, e, snapshot.id);
    }
    match e {
      case Judge(which) => JudgeKeepsSnapshot(s, which, snapshot);
      case _ =>
    }
  }

  lemma QueryLoadsOk(s: Store, id: nat)
    requires RowsOk(s) && id < |s.requests| && s.requests[id].status == Pending
    ensures SnapshotOk(s, Load(s, id))
  {
    LiveAccount(s.messages, id);
  }

  lemma StepKeepsSnapshots(s: Store, e: Event)
    requires Invariant(s) && Allowed(s, e)
    ensures SnapshotsOk(Step(s, e))
  {
    var s' := Step(s, e);
    forall j | 0 <= j < |s'.loaded| ensures SnapshotOk(s', s'.loaded[j]) {
      if j < |s.loaded| {
        assert s'.loaded[j] == s.loaded[j];
        StepKeepsSnapshot(s, e, s.loaded[j]);
      } else {
        QueryLoadsOk(s, e.id);
      }
    }
  }

  /** Every allowed step keeps the invariant. */
  lemma StepKeepsInvariant(s: Store, e: Event)
    requires Invariant(s) && Allowed(s, e)
    ensures Invariant(Step(s, e))
  {
    StepKeepsSnapshots(s, e);
    match e {
      case Create(args, dryRun, limit) => CreateKeeps(s, args, dryRun, limit);
      case Patch(id, limit) => PatchKeeps(s, id, limit);
      case Process(id, basefee, reply) => ProcessKeeps(s, id, basefee, reply);
      case Query(id) =>
      case Judge(which) => JudgeKeeps(s, which);
      case Receive(mid, exitCode) => ReceiveKeeps(s, mid, exitCode);
      case Replace(mid, lookup) => ReplaceKeeps(s, mid, lookup);
    }
  }

  lemma {:induction false} RunKeepsInvariant(s: Store, es: seq<Event>)
    requires Invariant(s) && AllowedRun(s, es)
    ensures Invariant(Run(s, es))
  {
    if es != [] {
      RunKeepsInvariant(s, es[..|es| - 1]);
      StepKeepsInvariant(Run(s, es[..|es| - 1]), es[|es| - 1]);
    }
  }

  // ---------------------------------------------------------------- what a reader of a request sees

  /** In every reachable state, a loaded request shows succeeded <= published <= total sectors.  Once a
      request that is not a dry run is finished, `success` means everything published succeeded and
      `failed` that nothing did; and a finished request carries no error text exactly if it succeeded. */
  lemma CounterChain(es: seq<Event>, id: nat)
    requires AllowedRun(INITIAL, es) && id < |Run(INITIAL, es).requests|
    ensures var row := Load(Run(INITIAL, es), id).row;
      && row.succeeded <= row.published <= row.total
      && (!row.dryRun && row.status == Success ==> row.succeeded == row.published)
      && (!row.dryRun && row.status == Failed ==> row.succeeded == 0)
      && (row.Finished() ==> (row.error == "" <==> row.status == Success))
  {
    var s := Run(INITIAL, es);
    RunKeepsInvariant(INITIAL, es);
    LiveAccount(s.messages, id);
    AccountFacts(s.messages, id);
  }

  /** The verdict of the checker: it changes a row only when every live message is on chain, and it says
      `failed` exactly when every one of them landed with a bad exit code.  Errors noted while publishing
      stay at the front of the error text. */
  lemma VerdictIsExact(s: Store, id: nat)
    requires Invariant(s) && id < |s.requests| && s.requests[id].status == Pending
    ensures var live := LiveOf(s.messages, id);
      var after := CheckStep(s, id).requests[id];
      && (after.Finished() <==> AllOnChain(live))
      && (after.status == Failed <==> forall i :: 0 <= i < |live| ==> live[i].onChain && live[i].exitCode != 0)
      && (after.status == Success <==>
           s.requests[id].error == "" && forall i :: 0 <= i < |live| ==> Landed(live[i]))
      && s.requests[id].error <= after.error
  {
    var live, a := LiveOf(s.messages, id), AccountOf(s.messages, id);
    LiveAccount(s.messages, id);
    AccountFacts(s.messages, id);
    BadCount(live);
    var texts := (if s.requests[id].error != "" then [s.requests[id].error] else []) + BadTexts(live);
    if texts != [] {
      JoinStartsWithFirst(texts, ";");
    }
    if AllOnChain(live) {
      JudgedOk(Load(s, id).row, live, a);
    }
  }

  lemma {:induction false} BadCount(live: seq<Message>)
    ensures |BadTexts(live)| <= |live|
    ensures |BadTexts(live)| == |live| <==> forall i :: 0 <= i < |live| ==> live[i].onChain && live[i].exitCode != 0
    ensures BadTexts(live) == [] <==> forall i :: 0 <= i < |live| ==> live[i].onChain ==> live[i].exitCode == 0
  {
    if live != [] {
      var k := |live| - 1;
      BadCount(live[..k]);
      assert live == live[..k] + [live[k]];
    }
  }
}
