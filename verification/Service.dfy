/** The handlers as the service runs them (service.go, model.go): records loaded from the tables are
    changed in place and saved.  Each handler is proved to perform its step of the ledger. */
module Service {
  import opened Wrappers
  import opened Text
  import opened Sorting
  import opened Planner
  import opened Publisher
  import opened Ledger
  import opened LedgerLaws
  import opened Outcomes
  import opened StaleWrites

  /** A request in memory, with the messages preloaded. */
  class RequestRecord {
    var id: nat
    var args: Args
    var status: Status
    var dryRun: bool
    var basefeeLimit: Option<int>
    var total: nat
    var published: nat
    var succeeded: nat
    var error: string
    var messages: seq<Message>

    function Row(): Request
      reads this
    {
      Request(args, status, dryRun, basefeeLimit, total, published, succeeded, error)
    }

    function Loaded(): Snapshot
      reads this
    {
      Snapshot(id, Row(), messages)
    }

    constructor (id: nat, row: Request, messages: seq<Message>)
      ensures this.id == id && Row() == row && this.messages == messages
    {
      this.id, args := id, row.args;
      status, dryRun, basefeeLimit := row.status, row.dryRun, row.basefeeLimit;
      total, published, succeeded, error := row.total, row.published, row.succeeded, row.error;
      this.messages := messages;
    }

    /** The hook run after every load. */
    method AfterFind()
      modifies this`succeeded
      ensures Row() == Refresh(old(Row()), messages)
    {
      if dryRun {
        succeeded := published;
      } else {
        var success := 0;
        for i := 0 to |messages|
          invariant success == LandedSectors(messages[..i])
        {
          assert messages[..i + 1][..i] == messages[..i];
          if messages[i].onChain && messages[i].exitCode == 0 {
            success := success + messages[i].sectors;
          }
        }
        assert messages[..|messages|] == messages;
        succeeded := success;
      }
    }
  }

  class Service {
    var requests: seq<Request>
    var messages: seq<Message>

    /** What the checker's queries have loaded so far. */
    ghost var loaded: seq<Snapshot>

    ghost function Db(): Store
      reads this
    {
      Store(requests, messages, loaded)
    }

    constructor ()
      ensures Db() == INITIAL
    {
      requests, messages, loaded := [], [], [];
    }

    method CreateRequest(args: Args, dryRun: bool, basefeeLimit: Option<int>) returns (id: nat)
      modifies this
      ensures id == |old(requests)|
      ensures Db() == Step(old(Db()), Create(args, dryRun, basefeeLimit))
    {
      id := |requests|;
      requests := requests + [NewRequest(args, dryRun, basefeeLimit)];
    }

    /** The live messages of a request, in the order of their rows. */
    method Preload(id: nat) returns (live: seq<Message>)
      ensures live == LiveOf(messages, id)
    {
      live := [];
      for i := 0 to |messages|
        invariant live == LiveOf(messages[..i], id)
      {
        assert messages[..i + 1][..i] == messages[..i];
        if messages[i].live && messages[i].requestId == id {
          live := live + [messages[i]];
        }
      }
      assert messages[..|messages|] == messages;
    }

    method GetRequest(id: nat) returns (r: RequestRecord)
      requires id < |requests|
      ensures fresh(r) && r.Loaded() == Load(Db(), id)
    {
      var live := Preload(id);
      r := new RequestRecord(id, requests[id], live);
      r.AfterFind();
    }

    /** Saving a record writes its row; messages it gained are inserted as its own. */
    method SaveRequest(r: RequestRecord, gained: seq<NewMessage>)
      requires r.id < |requests|
      modifies this`requests, this`messages
      ensures Db() == Store(old(requests)[r.id := r.Row()], old(messages) + Attach(r.id, gained), loaded)
    {
      requests := requests[r.id := r.Row()];
      messages := messages + Attach(r.id, gained);
    }

    /** What the update handler does with the record it loaded, however long ago. */
    method SaveUpdate(r: RequestRecord, basefeeLimit: Option<int>) returns (ok: bool)
      requires r.id < |requests|
      modifies this`requests, this`messages, r`basefeeLimit
      ensures Db() == SavePatch(old(Db()), old(r.Loaded()), basefeeLimit)
      ensures ok <==> !old(r.Row()).Finished()
    {
      if r.Row().Finished() {
        return false;
      }
      r.basefeeLimit := basefeeLimit;
      SaveRequest(r, []);
      assert Attach(r.id, []) == [];
      ok := true;
    }

    /** The update handler with nothing in between. */
    method UpdateRequest(id: nat, basefeeLimit: Option<int>) returns (ok: bool)
      modifies this`requests, this`messages
      ensures Db() == Step(old(Db()), Patch(id, basefeeLimit))
      ensures ok <==> id < |old(requests)| && !old(requests)[id].Finished()
    {
      if id >= |requests| {
        return false;
      }
      var r := GetRequest(id);
      ok := SaveUpdate(r, basefeeLimit);
    }

    /** What processing writes into the record once `extend` has replied; the messages it gains. */
    static method Conclude(r: RequestRecord, rep: Reply) returns (gained: seq<NewMessage>)
      modifies r
      ensures r.id == old(r.id) && r.Row() == Processed(old(r.Row()), rep)
      ensures Attach(r.id, gained) == NewMessagesOf(old(r.Row()), r.id, rep)
    {
      gained := [];
      if rep.error.Some? {
        r.error := rep.error.value;
      }
      if rep.result.None? || |rep.result.value.messages| + |rep.result.value.dryRuns| == 0 {
        r.status := if rep.error.None? then Success else Failed;
      } else {
        r.published := rep.result.value.published;
        r.total := rep.result.value.total;
        if r.dryRun {
          r.status := if rep.error.None? then Success else Partfailed;
        } else {
          r.status := Pending;
          gained := rep.result.value.messages;
        }
      }
    }

    /** Processing works on whatever record it was handed, however long ago it was loaded. */
    method ProcessRequest(r: RequestRecord, basefee: Option<int>, chain: ChainState, answer: nat -> Answer)
        returns (ghost reply: Reply, ghost planned: Result<Plan, PlanError>, ghost run: Planner.Run)
      requires r.id < |requests| && Sane(chain)
      modifies this`requests, this`messages, r
      ensures Consistent(reply, old(r.dryRun))
      ensures reply.result.Some? ==> AllRecordsSound(chain, old(r.args), reply.result.value.messages)
      ensures !Waits(old(r.Row()), basefee) ==> Publishes(planned, old(r.dryRun), answer, reply)
      ensures planned.Ok? ==> IsPlan(chain, old(r.args), planned.value, run)
      ensures r.id == old(r.id)
      ensures r.Row() == if Waits(old(r.Row()), basefee) then old(r.Row()) else Processed(old(r.Row()), reply)
      ensures Db() == ProcessLoaded(old(Db()), old(r.Loaded()), basefee, reply)
    {
      if r.basefeeLimit.Some? && r.basefeeLimit.value != 0 {
        if basefee.None? || basefee.value > r.basefeeLimit.value {
          reply, planned, run := Reply(None, Some("unused")), Err(NoExpirationAsked), NoRun(chain);
          return;
        }
      }
      var rep;
      rep, planned, run := Extend(chain, r.args, r.dryRun, answer);
      reply := rep;
      var gained := Conclude(r, rep);
      SaveRequest(r, gained);
    }

    /** One pass of the processor over one request: load and process it if it is still created. */
    method ProcessCreated(id: nat, basefee: Option<int>, chain: ChainState, answer: nat -> Answer)
        returns (ghost reply: Reply, ghost planned: Result<Plan, PlanError>, ghost run: Planner.Run)
      requires Sane(chain)
      modifies this
      ensures Db() == Step(old(Db()), Process(id, basefee, reply))
      ensures Allowed(old(Db()), Process(id, basefee, reply))
      ensures id < |old(requests)| && reply.result.Some? ==>
        AllRecordsSound(chain, old(requests)[id].args, reply.result.value.messages)
      ensures id < |old(requests)| && old(requests)[id].status == Created && !Waits(old(requests)[id], basefee) ==>
        && Publishes(planned, old(requests)[id].dryRun, answer, reply)
        && (planned.Ok? ==> IsPlan(chain, old(requests)[id].args, planned.value, run))
    {
      reply, planned, run := Reply(None, Some("unused")), Err(NoExpirationAsked), NoRun(chain);
      if id < |requests| && requests[id].status == Created {
        var r := GetRequest(id);
        reply, planned, run := ProcessRequest(r, basefee, chain, answer);
      }
    }

    /** The checker's query hands a pending request to a check that may run at any later time. */
    method QueryPending(id: nat) returns (r: RequestRecord?)
      modifies this`loaded
      ensures Db() == Step(old(Db()), Query(id))
      ensures r != null <==> id < |requests| && requests[id].status == Pending
      ensures r != null ==> fresh(r) && r.id == id && loaded == old(loaded) + [r.Loaded()]
    {
      if id >= |requests| || requests[id].status != Pending {
        return null;
      }
      r := GetRequest(id);
      loaded := loaded + [r.Loaded()];
    }

    /** The verdict on a record all of whose messages are on chain. */
    static method GiveVerdict(r: RequestRecord, allSuccess: bool, errorMsgs: seq<ErrorText>)
      requires errorMsgs == BadTexts(r.messages) && (allSuccess <==> errorMsgs == [])
      modifies r`status, r`error
      ensures r.Row() == Judged(old(r.Row()), r.messages)
    {
      if allSuccess {
        r.status := if |r.error| == 0 then Success else Partfailed;
      } else {
        r.status := if |errorMsgs| == |r.messages| then Failed else Partfailed;
        var texts: seq<string> := errorMsgs;
        if |r.error| != 0 {
          texts := [r.error] + errorMsgs;
        }
        assert texts == (if r.error != "" then [r.error] else []) + errorMsgs;
        r.error := Join(texts, ";");
      }
    }

    /** The checker's loop over the messages of a record, and its verdict.  Whatever snapshot the record is,
        this is the ledger's judging of it. */
    method CheckMessage(r: RequestRecord)
      requires r.id < |requests|
      modifies this`requests, this`messages, r
      ensures r.id == old(r.id) && r.messages == old(r.messages)
      ensures r.Row() == if AllOnChain(r.messages) then Judged(old(r.Row()), r.messages) else old(r.Row())
      ensures Db() == Store(if AllOnChain(r.messages) then old(requests)[r.id := r.Row()] else old(requests),
                            old(messages), old(loaded))
      ensures forall j :: 0 <= j < |loaded| && loaded[j] == old(r.Loaded()) ==> Db() == Step(old(Db()), Judge(j))
    {
      var allOnChain, allSuccess := true, true;
      var errorMsgs: seq<ErrorText> := [];
      for i := 0 to |r.messages|
        invariant allOnChain <==> AllOnChain(r.messages[..i])
        invariant errorMsgs == BadTexts(r.messages[..i])
        invariant allSuccess <==> errorMsgs == []
      {
        var msg := r.messages[i];
        assert r.messages[..i + 1][..i] == r.messages[..i] && r.messages[..i + 1][i] == msg;
        if AllOnChain(r.messages[..i + 1]) {
          assert forall j :: 0 <= j < i ==> r.messages[..i + 1][j] == r.messages[..i][j];
        }
        if msg.onChain {
          if msg.exitCode != 0 {
            allSuccess := false;
            errorMsgs := errorMsgs + [ExitText(msg.exitCode)];
          }
          continue;
        }
        allOnChain := false;
      }
      assert r.messages[..|r.messages|] == r.messages;
      if allOnChain {
        GiveVerdict(r, allSuccess, errorMsgs);
        SaveRequest(r, []);
        assert Attach(r.id, []) == [];
      }
    }

    /** One pass of the checker over one request with nothing in between. */
    method CheckPending(id: nat)
      modifies this
      ensures Db() == CheckStep(old(Db()), id)
    {
      var r := QueryPending(id);
      if r != null {
        assert loaded[|old(loaded)|] == r.Loaded();
        CheckMessage(r);
      }
    }

    /** The receipt branch of a watcher. */
    method ReceiveReceipt(mid: nat, exitCode: nat)
      modifies this
      ensures Db() == Step(old(Db()), Receive(mid, exitCode))
    {
      if mid >= |messages| || !messages[mid].live {
        return;
      }
      var msg := messages[mid];
      msg := msg.(onChain := true, exitCode := exitCode);
      messages := messages[mid := msg];
    }

    /** Replacing a message: look it up in the pending pool, delete the old row, insert the new one. */
    method ReplaceMessage(mid: nat, lookup: Lookup) returns (replaced: bool)
      modifies this
      ensures Db() == Step(old(Db()), Replace(mid, lookup))
      ensures replaced <==> IsReplaced(old(Db()), mid, lookup)
      ensures |messages| == |old(messages)| + if replaced then 1 else 0
    {
      if mid >= |messages| || !messages[mid].live {
        return false;
      }
      var m := messages[mid];
      var found := SearchPool(lookup.pool, lookup.chain);
      FoundIsFirstPending(lookup.pool, lookup.chain.from, lookup.chain.nonce);
      if found.None? {
        return false;
      }
      if !lookup.pushed {
        return false;
      }
      messages := messages[mid := m.(live := false)];
      messages := messages + [Message(m.requestId, found.value.nonce, m.sectors, m.extensions, false, 0, true)];
      replaced := true;
    }

    static method SearchPool(pool: seq<PoolMessage>, cm: PoolMessage) returns (found: Option<PoolMessage>)
      ensures found == FindPending(pool, cm.from, cm.nonce)
      ensures found.Some? ==>
        exists i :: 0 <= i < |pool| && pool[i] == found.value &&
          forall j :: 0 <= j < i ==> !Matches(pool[j], cm.from, cm.nonce)
    {
      for i := 0 to |pool|
        invariant FindPending(pool, cm.from, cm.nonce) == FindPending(pool[i..], cm.from, cm.nonce)
        invariant forall j :: 0 <= j < i ==> !Matches(pool[j], cm.from, cm.nonce)
      {
        if pool[i].from == cm.from && pool[i].nonce == cm.nonce {
          return Some(pool[i]);
        }
      }
      found := None;
    }

    /** The messages a speed-up sends to be replaced: those of a pending request that are not on chain, in
        ascending order of nonce. */
    method SpeedupRequest(id: nat) returns (r: Result<seq<Message>, ErrorText>)
      ensures r.Ok? <==> id < |requests| && requests[id].status == Pending
      ensures r.Ok? ==> ByNonce(r.value) && multiset(r.value) == multiset(Waiting(LiveOf(messages, id)))
    {
      if id >= |requests| {
        return Err("not found");
      }
      if requests[id].status != Pending {
        return Err("not pending");
      }
      var live := Preload(id);
      var sorted := SortByNonce(live);
      var queue := SkipLanded(sorted);
      WaitingPermutes(sorted, live);
      r := Ok(queue);
    }
  }

  ghost predicate ByNonce(ms: seq<Message>) {
    forall i, j :: 0 <= i < j < |ms| ==> ms[i].nonce <= ms[j].nonce
  }

  method SortByNonce(ms: seq<Message>) returns (sorted: seq<Message>)
    ensures ByNonce(sorted) && multiset(sorted) == multiset(ms)
  {
    var a := new Message[|ms|](i requires 0 <= i < |ms| => ms[i]);
    assert a[..] == ms;
    var key := (m: Message) => m.nonce as int;
    SortSlice(a, key);
    sorted := a[..];
    forall i, j | 0 <= i < j < |sorted| ensures sorted[i].nonce <= sorted[j].nonce {
      assert key(sorted[i]) <= key(sorted[j]);
    }
  }

  method SkipLanded(sorted: seq<Message>) returns (queue: seq<Message>)
    requires ByNonce(sorted)
    ensures queue == Waiting(sorted) && ByNonce(queue)
  {
    queue := [];
    for i := 0 to |sorted|
      invariant queue == Waiting(sorted[..i]) && ByNonce(queue)
      invariant forall j, k :: 0 <= j < |queue| && i <= k < |sorted| ==> queue[j].nonce <= sorted[k].nonce
    {
      assert sorted[..i + 1][..i] == sorted[..i];
      if !sorted[i].onChain {
        queue := queue + [sorted[i]];
      }
    }
    assert sorted[..|sorted|] == sorted;
  }

  function Waiting(ms: seq<Message>): seq<Message> {
    if ms == [] then []
    else Waiting(ms[..|ms| - 1]) + if ms[|ms| - 1].onChain then [] else [ms[|ms| - 1]]
  }

  lemma {:induction false} WaitingCount(ms: seq<Message>, m: Message)
    ensures multiset(Waiting(ms))[m] == if m.onChain then 0 else multiset(ms)[m]
  {
    if ms != [] {
      var front, last := ms[..|ms| - 1], ms[|ms| - 1];
      WaitingCount(front, m);
      assert ms == front + [last];
      assert multiset(ms) == multiset(front) + multiset{last};
    }
  }

  lemma WaitingPermutes(p: seq<Message>, q: seq<Message>)
    requires multiset(p) == multiset(q)
    ensures multiset(Waiting(p)) == multiset(Waiting(q))
  {
    forall m: Message ensures multiset(Waiting(p))[m] == multiset(Waiting(q))[m] {
      WaitingCount(p, m);
      WaitingCount(q, m);
    }
  }
}
