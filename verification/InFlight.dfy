/** Which goroutines may be at work at once (service.go, `runProcessor`, `runMessageChecker`,
    `runSpeedupWorker`), over every interleaving of ticks, visits and completions. */
module InFlight {
  import opened Wrappers

  // ---------------------------------------------------------------- the guarded loops

  /** One of the two ticker loops: its guard map, the requests its goroutines work on, one entry per
      goroutine, and what is left to visit of the current tick's query. */
  datatype Loop = Loop(guard: set<nat>, working: seq<nat>, queue: seq<nat>)

  /** A tick's query, possibly stale by the time it is visited; the next id being visited; a goroutine
      returning, which deletes its id from the guard. */
  datatype Action = Tick(found: seq<nat>) | Visit | Return(worker: nat)

  predicate Enabled(l: Loop, a: Action) {
    match a
    case Tick(_) => l.queue == []
    case Visit => l.queue != []
    case Return(w) => w < |l.working|
  }

  function Act(l: Loop, a: Action): Loop
    requires Enabled(l, a)
  {
    match a
    case Tick(found) => l.(queue := found)
    case Visit =>
      var id, rest := l.queue[0], l.queue[1..];
      if id in l.guard then l.(queue := rest)
      else Loop(l.guard + {id}, l.working + [id], rest)
    case Return(w) =>
      Loop(l.guard - {l.working[w]}, l.working[..w] + l.working[w + 1..], l.queue)
  }

  const IDLE: Loop := Loop({}, [], [])

  /** The states after an interleaving; None if some action in it was not possible. */
  function After(actions: seq<Action>): Option<Loop> {
    if actions == [] then Some(IDLE)
    else
      match After(actions[..|actions| - 1])
      case None => None
      case Some(l) =>
        if Enabled(l, actions[|actions| - 1]) then Some(Act(l, actions[|actions| - 1])) else None
  }

  function WorkersOn(working: seq<nat>, id: nat): nat {
    if working == [] then 0
    else WorkersOn(working[..|working| - 1], id) + if working[|working| - 1] == id then 1 else 0
  }

  lemma {:induction false} WorkersOnConcat(a: seq<nat>, b: seq<nat>, id: nat)
    ensures WorkersOn(a + b, id) == WorkersOn(a, id) + WorkersOn(b, id)
  {
    if b == [] {
      assert a + b == a;
    } else {
      assert (a + b)[..|a + b| - 1] == a + b[..|b| - 1];
      WorkersOnConcat(a, b[..|b| - 1], id);
    }
  }

  ghost predicate Exclusive(l: Loop) {
    forall id :: WorkersOn(l.working, id) == if id in l.guard then 1 else 0
  }

  lemma ReturnCount(working: seq<nat>, w: nat, id: nat)
    requires w < |working|
    ensures WorkersOn(working, id) ==
      WorkersOn(working[..w] + working[w + 1..], id) + if working[w] == id then 1 else 0
  {
    assert working == working[..w] + ([working[w]] + working[w + 1..]);
    WorkersOnConcat(working[..w], [working[w]] + working[w + 1..], id);
    WorkersOnConcat([working[w]], working[w + 1..], id);
    WorkersOnConcat(working[..w], working[w + 1..], id);
    assert [working[w]][..0] == [];
  }

  lemma ActKeepsExclusion(l: Loop, a: Action)
    requires Exclusive(l) && Enabled(l, a)
    ensures Exclusive(Act(l, a))
  {
    var l' := Act(l, a);
    forall id ensures WorkersOn(l'.working, id) == if id in l'.guard then 1 else 0 {
      match a {
        case Tick(_) =>
        case Visit =>
          assert (l.working + [l.queue[0]])[..|l.working|] == l.working;
        case Return(w) =>
          ReturnCount(l.working, w, id);
          ReturnCount(l.working, w, l.working[w]);
      }
    }
  }

  /** What the actions do: a tick queues what it found; a visit takes the next id and starts one goroutine on it,
      unless the guard holds it; a return ends one goroutine and frees its id. */
  lemma ActMeans(l: Loop, a: Action, id: nat)
    requires Enabled(l, a)
    ensures var l', now := Act(l, a), WorkersOn(Act(l, a).working, id);
      match a
      case Tick(found) => l' == l.(queue := found)
      case Visit =>
        && l'.queue == l.queue[1..]
        && (if id == l.queue[0] && id !in l.guard then now == WorkersOn(l.working, id) + 1 && id in l'.guard
            else now == WorkersOn(l.working, id) && (id in l'.guard <==> id in l.guard))
      case Return(w) =>
        && l'.queue == l.queue
        && (if id == l.working[w] then now == WorkersOn(l.working, id) - 1 && id !in l'.guard
            else now == WorkersOn(l.working, id) && (id in l'.guard <==> id in l.guard))
  {
    match a {
      case Tick(_) =>
      case Visit =>
        assert (l.working + [l.queue[0]])[..|l.working|] == l.working;
      case Return(w) =>
        ReturnCount(l.working, w, id);
    }
  }

  /** In-flight exclusion: after any interleaving, an id is in the guard exactly while one goroutine of the
      loop works on it, and never do two. */
  lemma {:induction false} OneGoroutinePerRequest(actions: seq<Action>)
    requires After(actions).Some?
    ensures Exclusive(After(actions).value)
  {
    if actions != [] {
      var front := actions[..|actions| - 1];
      OneGoroutinePerRequest(front);
      ActKeepsExclusion(After(front).value, actions[|actions| - 1]);
    }
  }

  // ---------------------------------------------------------------- the speed-up worker

  /** The worker's semaphore: its capacity, the slots taken, the message received but not yet let through,
      and the replacements running. */
  datatype Speedup = Speedup(capacity: nat, slots: nat, received: Option<nat>, running: seq<nat>)

  datatype Move = Receive(mid: nat) | Launch | Finish(which: nat)

  /** Sending on the semaphore channel blocks while it is full. */
  predicate Possible(w: Speedup, m: Move) {
    match m
    case Receive(_) => w.received.None?
    case Launch => w.received.Some? && w.slots < w.capacity
    case Finish(k) => k < |w.running|
  }

  function Proceed(w: Speedup, m: Move): Speedup
    requires Possible(w, m) && w.slots >= |w.running|
  {
    match m
    case Receive(mid) => w.(received := Some(mid))
    case Launch => Speedup(w.capacity, w.slots + 1, None, w.running + [w.received.value])
    case Finish(k) => Speedup(w.capacity, w.slots - 1, w.received, w.running[..k] + w.running[k + 1..])
  }

  ghost predicate SlotsMatch(w: Speedup) {
    |w.running| == w.slots <= w.capacity
  }

  /** A message is received when none waits; the waiting one is launched as soon as fewer than the capacity run. */
  lemma PossibleMeans(w: Speedup, mid: nat)
    requires SlotsMatch(w)
    ensures Possible(w, Receive(mid)) <==> w.received.None?
    ensures Possible(w, Launch) <==> w.received.Some? && |w.running| < w.capacity
  {}

  /** What the worker's moves do: a received message waits; a launch starts the waiting one; a finish ends one. */
  lemma ProceedMeans(w: Speedup, m: Move)
    requires Possible(w, m) && SlotsMatch(w)
    ensures var w' := Proceed(w, m);
      match m
      case Receive(mid) => w' == w.(received := Some(mid))
      case Launch => w'.received == None && w'.running == w.running + [w.received.value]
      case Finish(k) => w'.received == w.received && w'.running == w.running[..k] + w.running[k + 1..]
  {}

  /** The worker after a sequence of moves; None if some move in it was not possible. */
  function Worked(capacity: nat, moves: seq<Move>): (r: Option<Speedup>)
    ensures r.Some? ==> SlotsMatch(r.value) && r.value.capacity == capacity
  {
    if moves == [] then Some(Speedup(capacity, 0, None, []))
    else
      match Worked(capacity, moves[..|moves| - 1])
      case None => None
      case Some(w) =>
        if Possible(w, moves[|moves| - 1]) then Some(Proceed(w, moves[|moves| - 1])) else None
  }

  function Launches(moves: seq<Move>): nat {
    if moves == [] then 0 else Launches(moves[..|moves| - 1]) + if moves[|moves| - 1].Launch? then 1 else 0
  }

  function Finishes(moves: seq<Move>): nat {
    if moves == [] then 0 else Finishes(moves[..|moves| - 1]) + if moves[|moves| - 1].Finish? then 1 else 0
  }

  /** At most `capacity` replacements of the speed-up worker run at once: in every possible sequence of moves
      the launches never lead the completions by more, and those in between are the ones running. */
  lemma {:induction false} AtMostCapacityRunning(capacity: nat, moves: seq<Move>)
    requires Worked(capacity, moves).Some?
    ensures |Worked(capacity, moves).value.running| <= capacity
    ensures Launches(moves) == Finishes(moves) + |Worked(capacity, moves).value.running|
  {
    if moves != [] {
      AtMostCapacityRunning(capacity, moves[..|moves| - 1]);
    }
  }
}
