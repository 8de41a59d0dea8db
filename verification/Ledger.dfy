/** The request and message tables and what each handler does to them (service.go, model.go).

    Handlers are atomic steps on the tables, but for the checker, whose query and check are two steps.
    A row's position in its table is its id; a deleted message keeps its row and loses its `live` flag. */
module Ledger {
  import opened Wrappers
  import opened Text
  import Planner
  import opened Publisher

  datatype Status = Created | Pending | Failed | Partfailed | Success

  /** `args` are the window, the terms and the limits the request was created with. */
  datatype Request = Request(
    args: Planner.Args, status: Status, dryRun: bool, basefeeLimit: Option<int>,
    total: nat, published: nat, succeeded: nat, error: string)
  {
    predicate Finished() {
      status == Success || status == Failed || status == Partfailed
    }
  }

  datatype Message = Message(
    requestId: nat, nonce: nat, sectors: nat, extensions: seq<Extension2>,
    onChain: bool, exitCode: nat, live: bool)

  /** A request as loaded: its row and its live messages. */
  datatype Snapshot = Snapshot(id: nat, row: Request, messages: seq<Message>)

  /** The two tables, and the pending requests the checker has loaded so far.  A loaded request is checked
      at any later time, when the tables may have moved on. */
  datatype Store = Store(requests: seq<Request>, messages: seq<Message>, loaded: seq<Snapshot>)

  // ---------------------------------------------------------------- loading

  predicate Belongs(m: Message, id: nat) {
    m.live && m.requestId == id
  }

  function LiveOf(ms: seq<Message>, id: nat): seq<Message> {
    if ms == [] then []
    else
      var k := |ms| - 1;
      LiveOf(ms[..k], id) + if Belongs(ms[k], id) then [ms[k]] else []
  }

  predicate Landed(m: Message) {
    m.onChain && m.exitCode == 0
  }

  function LandedSectors(ms: seq<Message>): nat {
    if ms == [] then 0
    else LandedSectors(ms[..|ms| - 1]) + if Landed(ms[|ms| - 1]) then ms[|ms| - 1].sectors else 0
  }

  /** The reload hook: the succeeded sectors are recomputed from the messages. */
  function Refresh(row: Request, messages: seq<Message>): Request {
    row.(succeeded := if row.dryRun then row.published else LandedSectors(messages))
  }

  function Load(s: Store, id: nat): Snapshot
    requires id < |s.requests|
  {
    var messages := LiveOf(s.messages, id);
    Snapshot(id, Refresh(s.requests[id], messages), messages)
  }

  // ---------------------------------------------------------------- processRequest

  /** A request with a base fee limit waits while the current base fee is above it or cannot be read. */
  predicate Waits(row: Request, basefee: Option<int>) {
    row.basefeeLimit.Some? && row.basefeeLimit.value != 0 &&
    (basefee.None? || basefee.value > row.basefeeLimit.value)
  }

  function Noted(row: Request, reply: Reply): Request {
    if reply.error.Some? then row.(error := reply.error.value) else row
  }

  /** Nothing was sent and nothing was reported. */
  predicate Empty(reply: Reply) {
    reply.result.None? || |reply.result.value.messages| + |reply.result.value.dryRuns| == 0
  }

  function Processed(row: Request, reply: Reply): Request {
    var noted := Noted(row, reply);
    if Empty(reply) then noted.(status := if reply.error.None? then Success else Failed)
    else
      var counted := noted.(published := reply.result.value.published, total := reply.result.value.total);
      if row.dryRun then counted.(status := if reply.error.None? then Success else Partfailed)
      else counted.(status := Pending)
  }

  function Attached(id: nat, m: NewMessage): Message {
    Message(id, m.nonce, m.sectors, m.extensions, false, 0, true)
  }

  function Attach(id: nat, messages: seq<NewMessage>): (r: seq<Message>)
    ensures |r| == |messages| && forall i :: 0 <= i < |r| ==> r[i] == Attached(id, messages[i])
  {
    seq(|messages|, i requires 0 <= i < |messages| => Attached(id, messages[i]))
  }

  function NewMessagesOf(row: Request, id: nat, reply: Reply): seq<Message> {
    if Empty(reply) || row.dryRun then [] else Attach(id, reply.result.value.messages)
  }

  // ---------------------------------------------------------------- checkMessage

  predicate AllOnChain(ms: seq<Message>) {
    forall i :: 0 <= i < |ms| ==> ms[i].onChain
  }

  function ExitText(code: nat): ErrorText {
    "exit " + FormatUint(code)
  }

  function BadTexts(ms: seq<Message>): seq<ErrorText> {
    if ms == [] then []
    else
      var m := ms[|ms| - 1];
      BadTexts(ms[..|ms| - 1]) + if m.onChain && m.exitCode != 0 then [ExitText(m.exitCode)] else []
  }

  /** The verdict on a request all of whose messages are on chain. */
  function Judged(row: Request, messages: seq<Message>): Request {
    var bad := BadTexts(messages);
    if bad == [] then row.(status := if row.error == "" then Success else Partfailed)
    else row.(
      status := if |bad| == |messages| then Failed else Partfailed,
      error := Join((if row.error != "" then [row.error] else []) + bad, ";"))
  }

  // ---------------------------------------------------------------- replaceMessage

  /** A message of the chain or of the pending pool. */
  datatype PoolMessage = PoolMessage(cid: nat, from: nat, nonce: nat)

  /** What the node says while a message is being replaced: the chain message behind its cid, the
      pending pool, and whether the new message was accepted. */
  datatype Lookup = Lookup(chain: PoolMessage, pool: seq<PoolMessage>, pushed: bool)

  predicate Matches(p: PoolMessage, from: nat, nonce: nat) {
    p.from == from && p.nonce == nonce
  }

  /** The first pending message of the same sender and nonce. */
  function FindPending(pool: seq<PoolMessage>, from: nat, nonce: nat): Option<PoolMessage> {
    if pool == [] then None
    else if Matches(pool[0], from, nonce) then Some(pool[0])
    else FindPending(pool[1..], from, nonce)
  }

  function Replacement(m: Message, found: PoolMessage): Message {
    Message(m.requestId, found.nonce, m.sectors, m.extensions, false, 0, true)
  }

  // ---------------------------------------------------------------- the steps

  datatype Event =
    | Create(args: Planner.Args, dryRun: bool, basefeeLimit: Option<int>)
    | Patch(id: nat, basefeeLimit: Option<int>)
    | Process(id: nat, basefee: Option<int>, reply: Reply)
    | Query(id: nat)
    | Judge(which: nat)
    | Receive(mid: nat, exitCode: nat)
    | Replace(mid: nat, lookup: Lookup)

  function NewRequest(args: Planner.Args, dryRun: bool, basefeeLimit: Option<int>): Request {
    Request(args, Created, dryRun, basefeeLimit, 0, 0, 0, "")
  }

  function PatchStep(s: Store, id: nat, limit: Option<int>): Store {
    if id >= |s.requests| || s.requests[id].Finished() then s
    else s.(requests := s.requests[id := Load(s, id).row.(basefeeLimit := limit)])
  }

  /** The processor only picks up requests in status created. */
  function ProcessStep(s: Store, id: nat, basefee: Option<int>, reply: Reply): Store {
    if id >= |s.requests| || s.requests[id].status != Created || Waits(s.requests[id], basefee) then s
    else
      var row := Load(s, id).row;
      Store(s.requests[id := Processed(row, reply)], s.messages + NewMessagesOf(row, id, reply), s.loaded)
  }

  /** The checker's query picks up pending requests only. */
  function QueryStep(s: Store, id: nat): Store {
    if id >= |s.requests| || s.requests[id].status != Pending then s
    else s.(loaded := s.loaded + [Load(s, id)])
  }

  /** Checking a loaded request, however old, saves its whole row, but only with a verdict. */
  function JudgeStep(s: Store, which: nat): Store {
    if which >= |s.loaded| then s
    else
      var snapshot := s.loaded[which];
      if snapshot.id >= |s.requests| || !AllOnChain(snapshot.messages) then s
      else s.(requests := s.requests[snapshot.id := Judged(snapshot.row, snapshot.messages)])
  }

  /** A query followed at once by its check. */
  function CheckStep(s: Store, id: nat): Store {
    JudgeStep(QueryStep(s, id), |s.loaded|)
  }

  function ReceiveStep(s: Store, mid: nat, exitCode: nat): Store {
    if mid >= |s.messages| || !s.messages[mid].live then s
    else s.(messages := s.messages[mid := s.messages[mid].(onChain := true, exitCode := exitCode)])
  }

  function ReplaceStep(s: Store, mid: nat, lookup: Lookup): Store {
    if mid >= |s.messages| || !s.messages[mid].live then s
    else
      match FindPending(lookup.pool, lookup.chain.from, lookup.chain.nonce)
      case None => s
      case Some(found) =>
        if !lookup.pushed then s
        else
          var m := s.messages[mid];
          s.(messages := s.messages[mid := m.(live := false)] + [Replacement(m, found)])
  }

  function Step(s: Store, e: Event): Store {
    match e
    case Create(args, dryRun, limit) => s.(requests := s.requests + [NewRequest(args, dryRun, limit)])
    case Patch(id, limit) => PatchStep(s, id, limit)
    case Process(id, basefee, reply) => ProcessStep(s, id, basefee, reply)
    case Query(id) => QueryStep(s, id)
    case Judge(which) => JudgeStep(s, which)
    case Receive(mid, exitCode) => ReceiveStep(s, mid, exitCode)
    case Replace(mid, lookup) => ReplaceStep(s, mid, lookup)
  }

  /** What the surroundings guarantee: `extend` returns consistent counts, the chain gives one receipt
      per message, the message behind a cid keeps its nonce, and a nonce that is on chain is no longer
      pending. */
  ghost predicate Allowed(s: Store, e: Event) {
    match e
    case Process(id, _, reply) => id < |s.requests| ==> Consistent(reply, s.requests[id].dryRun)
    case Receive(mid, exitCode) =>
      mid < |s.messages| && s.messages[mid].onChain ==> exitCode == s.messages[mid].exitCode
    case Replace(mid, lookup) =>
      mid < |s.messages| ==>
        && lookup.chain.nonce == s.messages[mid].nonce
        && (s.messages[mid].onChain ==> FindPending(lookup.pool, lookup.chain.from, lookup.chain.nonce).None?)
    case _ => true
  }

  function Run(s: Store, es: seq<Event>): Store {
    if es == [] then s else Step(Run(s, es[..|es| - 1]), es[|es| - 1])
  }

  ghost predicate AllowedRun(s: Store, es: seq<Event>) {
    es != [] ==> AllowedRun(s, es[..|es| - 1]) && Allowed(Run(s, es[..|es| - 1]), es[|es| - 1])
  }

  const INITIAL: Store := Store([], [], [])
}
