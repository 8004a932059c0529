/**
 The server's accept loop and its bounded worker pool (src/transport.rs), as a machine whose
 steps are those of the accepting thread and of each worker, in any interleaving. Handlers do
 not panic.
 */
module WorkerPool {
  import opened Prelude

  // Connections are numbered as they are accepted.
  type Connection = nat

  /** Between rounds; holding the receiver's lock and waiting for work; serving; or returned. */
  datatype Worker = Idle | Waiting | Serving(connection: Connection) | Exited

  /**
   accepted and received are histories; pending is the connection the accepting thread is
   blocked on sending; open says that it has not yet dropped the sender.
   */
  datatype Pool = Pool(
    capacity: nat,
    accepted: seq<Connection>,
    pending: Option<Connection>,
    queue: seq<Connection>,
    received: seq<Connection>,
    handled: seq<Connection>,
    workers: seq<Worker>,
    open: bool)

  datatype Event =
    | Accept(connection: Connection)
    | Enqueue
    | Close
    | Lock(worker: nat)
    | Receive(worker: nat)
    | Disconnect(worker: nat)
    | Complete(worker: nat)

  function WorkerCount(parallelism: Option<nat>): (n: nat)
    ensures 2 <= n <= 32
    ensures parallelism.None? ==> n == 4
    ensures parallelism.Some? && 2 <= parallelism.value <= 32 ==> n == parallelism.value
    ensures parallelism.Some? && parallelism.value < 2 ==> n == 2
    ensures parallelism.Some? && parallelism.value > 32 ==> n == 32
  {
    var available := if parallelism.Some? then parallelism.value else 4;
    if available < 2 then 2 else if available > 32 then 32 else available
  }

  function QueueCapacity(workers: nat): (n: nat)
    ensures 2 <= workers <= 32 ==> 16 <= n <= 64
    ensures n >= 16 && n >= 2 * workers && n in {16, 2 * workers}
  {
    if workers * 2 < 16 then 16 else workers * 2
  }

  function Start(parallelism: Option<nat>): Pool {
    var count := WorkerCount(parallelism);
    Pool(QueueCapacity(count), [], None, [], [], [], seq(count, _ => Idle), true)
  }

  predicate Enabled(p: Pool, e: Event) {
    match e
    case Accept(connection) => p.open && p.pending.None? && connection !in p.accepted
    case Enqueue => p.pending.Some? && |p.queue| < p.capacity
    case Close => p.open && p.pending.None?
    case Lock(w) => w < |p.workers| && p.workers[w] == Idle && Waiting !in p.workers
    case Receive(w) => w < |p.workers| && p.workers[w] == Waiting && p.queue != []
    case Disconnect(w) => w < |p.workers| && p.workers[w] == Waiting && p.queue == [] && !p.open
    case Complete(w) => w < |p.workers| && p.workers[w].Serving?
  }

  function Step(p: Pool, e: Event): Pool
    requires Enabled(p, e)
  {
    match e
    case Accept(connection) => p.(accepted := p.accepted + [connection], pending := Some(connection))
    case Enqueue => p.(queue := p.queue + [p.pending.value], pending := None)
    case Close => p.(open := false)
    case Lock(w) => p.(workers := p.workers[w := Waiting])
    case Receive(w) =>
      p.(queue := p.queue[1..], received := p.received + [p.queue[0]], workers := p.workers[w := Serving(p.queue[0])])
    case Disconnect(w) => p.(workers := p.workers[w := Exited])
    case Complete(w) =>
      p.(handled := p.handled + [p.workers[w].connection], workers := p.workers[w := Idle])
  }

  predicate Run(p: Pool, events: seq<Event>)
    decreases |events|
  {
    events == [] || (Enabled(p, events[0]) && Run(Step(p, events[0]), events[1..]))
  }

  function After(p: Pool, events: seq<Event>): Pool
    requires Run(p, events)
    decreases |events|
  {
    if events == [] then p else After(Step(p, events[0]), events[1..])
  }

  // The invariant

  function Carried(w: Worker): multiset<Connection> {
    if w.Serving? then multiset{w.connection} else multiset{}
  }

  function InProgress(workers: seq<Worker>): multiset<Connection> {
    if workers == [] then multiset{}
    else InProgress(workers[..|workers| - 1]) + Carried(workers[|workers| - 1])
  }

  function Sent(pending: Option<Connection>): seq<Connection> {
    if pending.Some? then [pending.value] else []
  }

  /** Connections are distinct and stay in order: those received, then those queued, then the one being sent. */
  ghost predicate Ordered(p: Pool) {
    && (forall i, j :: 0 <= i < j < |p.accepted| ==> p.accepted[i] != p.accepted[j])
    && p.accepted == p.received + p.queue + Sent(p.pending)
  }

  /** Every received connection is in progress or handled. */
  ghost predicate Balanced(p: Pool) {
    multiset(p.received) == InProgress(p.workers) + multiset(p.handled)
  }

  /** One worker at a time waits on the queue, which keeps to its bound; none leaves before it is drained. */
  ghost predicate Disciplined(p: Pool) {
    && |p.queue| <= p.capacity && 0 < p.capacity && p.workers != []
    && (forall i, j :: 0 <= i < j < |p.workers| ==> !(p.workers[i] == Waiting && p.workers[j] == Waiting))
    && (!p.open ==> p.pending.None?)
    && (Exited in p.workers ==> !p.open && p.queue == [])
  }

  ghost predicate Conserved(p: Pool) {
    Ordered(p) && Balanced(p) && Disciplined(p)
  }

  lemma LastCounted(workers: seq<Worker>, c: Connection)
    requires workers != []
    ensures var last := |workers| - 1;
            InProgress(workers)[c] == InProgress(workers[..last])[c] + Carried(workers[last])[c]
  {
  }

  lemma {:induction false} CountAfter(workers: seq<Worker>, w: nat, to: Worker, c: Connection)
    requires w < |workers|
    ensures InProgress(workers[w := to])[c] + Carried(workers[w])[c] == InProgress(workers)[c] + Carried(to)[c]
  {
    var last := |workers| - 1;
    var now := workers[w := to];
    LastCounted(workers, c);
    LastCounted(now, c);
    if w == last {
      assert now[..last] == workers[..last];
    } else {
      assert now[..last] == workers[..last][w := to];
      CountAfter(workers[..last], w, to, c);
    }
  }

  lemma InProgressAfter(workers: seq<Worker>, w: nat, to: Worker)
    requires w < |workers|
    ensures InProgress(workers[w := to]) + Carried(workers[w]) == InProgress(workers) + Carried(to)
  {
    forall c: Connection
      ensures (InProgress(workers[w := to]) + Carried(workers[w]))[c] == (InProgress(workers) + Carried(to))[c]
    {
      CountAfter(workers, w, to, c);
    }
  }

  lemma {:induction false} NoneInProgress(workers: seq<Worker>)
    requires forall w <- workers :: !w.Serving?
    ensures InProgress(workers) == multiset{}
  {
    if workers != [] {
      NoneInProgress(workers[..|workers| - 1]);
    }
  }

  lemma StartIsConserved(parallelism: Option<nat>)
    ensures Conserved(Start(parallelism)) && 16 <= Start(parallelism).capacity <= 64
  {
    NoneInProgress(Start(parallelism).workers);
  }

  lemma StepIsOrdered(p: Pool, e: Event)
    requires Ordered(p) && Enabled(p, e) && (!p.open ==> p.pending.None?)
    ensures Ordered(Step(p, e))
  {
    match e
    case Accept(connection) => assert p.accepted + [connection] == p.received + p.queue + [connection];
    case Enqueue => assert p.accepted == p.received + (p.queue + [p.pending.value]) + [];
    case Receive(_) => assert p.received + p.queue == p.received + [p.queue[0]] + p.queue[1..];
    case _ =>
  }

  lemma ReceiveBalances(received: seq<Connection>, before: seq<Worker>, w: nat, handled: multiset<Connection>, c: Connection)
    requires w < |before| && !before[w].Serving?
    requires multiset(received) == InProgress(before) + handled
    ensures multiset(received + [c]) == InProgress(before[w := Serving(c)]) + handled
  {
    InProgressAfter(before, w, Serving(c));
    assert InProgress(before[w := Serving(c)]) == InProgress(before) + multiset{c};
  }

  lemma CompleteBalances(received: multiset<Connection>, before: seq<Worker>, w: nat, handled: seq<Connection>)
    requires w < |before| && before[w].Serving?
    requires received == InProgress(before) + multiset(handled)
    ensures received == InProgress(before[w := Idle]) + multiset(handled + [before[w].connection])
  {
    InProgressAfter(before, w, Idle);
    assert InProgress(before) == InProgress(before[w := Idle]) + multiset{before[w].connection};
  }

  lemma QuietMove(before: seq<Worker>, w: nat, to: Worker)
    requires w < |before| && !before[w].Serving? && !to.Serving?
    ensures InProgress(before[w := to]) == InProgress(before)
  {
    InProgressAfter(before, w, to);
    assert InProgress(before[w := to]) + multiset{} == InProgress(before[w := to]);
    assert InProgress(before) + multiset{} == InProgress(before);
  }

  lemma StepIsBalanced(p: Pool, e: Event)
    requires Balanced(p) && Enabled(p, e)
    ensures Balanced(Step(p, e))
  {
    match e
    case Lock(w) => QuietMove(p.workers, w, Waiting);
    case Disconnect(w) => QuietMove(p.workers, w, Exited);
    case Receive(w) => ReceiveBalances(p.received, p.workers, w, multiset(p.handled), p.queue[0]);
    case Complete(w) => CompleteBalances(multiset(p.received), p.workers, w, p.handled);
    case _ =>
  }

  lemma StepIsDisciplined(p: Pool, e: Event)
    requires Disciplined(p) && Enabled(p, e)
    ensures Disciplined(Step(p, e))
  {
    if e.Lock? {
      assert forall i :: 0 <= i < |p.workers| ==> p.workers[i] in p.workers;
    }
  }

  lemma StepIsConserved(p: Pool, e: Event)
    requires Conserved(p) && Enabled(p, e)
    ensures Conserved(Step(p, e)) && Step(p, e).capacity == p.capacity
  {
    StepIsOrdered(p, e);
    StepIsBalanced(p, e);
    StepIsDisciplined(p, e);
  }

  // The drain

  /** Every worker has been joined. */
  predicate Returned(p: Pool) {
    forall w <- p.workers :: w == Exited
  }

  lemma ReturnedMeansHandled(p: Pool)
    requires Conserved(p) && Returned(p)
    ensures !p.open && p.received == p.accepted && multiset(p.handled) == multiset(p.accepted)
  {
    NoneInProgress(p.workers);
    assert p.workers[0] in p.workers;
  }

  /**
   In every interleaving the accepted connections are those pending, queued, in progress and
   handled, the queue keeps to its bound, and once the server returns each accepted
   connection has been handled exactly once.
   */
  lemma {:induction false} EveryConnectionIsHandledOnce(p: Pool, events: seq<Event>)
    requires Conserved(p) && Run(p, events)
    ensures var end := After(p, events);
            && Conserved(end) && end.capacity == p.capacity
            && multiset(end.accepted)
               == multiset(Sent(end.pending)) + multiset(end.queue) + InProgress(end.workers) + multiset(end.handled)
            && (Returned(end) ==>
                  && multiset(end.handled) == multiset(end.accepted)
                  && forall c <- end.accepted :: multiset(end.handled)[c] == 1)
    decreases |events|
  {
    if events == [] {
      assert multiset(p.accepted) == multiset(p.received) + multiset(p.queue) + multiset(Sent(p.pending));
      if Returned(p) {
        ReturnedMeansHandled(p);
        forall c <- p.accepted ensures multiset(p.accepted)[c] == 1 {
          OnceEach(p.accepted, c);
        }
      }
    } else {
      StepIsConserved(p, events[0]);
      EveryConnectionIsHandledOnce(Step(p, events[0]), events[1..]);
    }
  }

  lemma {:induction false} OnceEach(s: seq<Connection>, c: Connection)
    requires c in s && forall i, j :: 0 <= i < j < |s| ==> s[i] != s[j]
    ensures multiset(s)[c] == 1
  {
    var k :| 0 <= k < |s| && s[k] == c;
    assert s == s[..k] + [c] + s[k + 1..];
    assert c !in s[..k] && c !in s[k + 1..];
    assert multiset(s) == multiset(s[..k]) + multiset{c} + multiset(s[k + 1..]);
  }

  function Rank(w: Worker): nat {
    match w
    case Exited => 0
    case Waiting => 1
    case Idle => 2
    case Serving(_) => 3
  }

  function Ranks(workers: seq<Worker>): nat {
    if workers == [] then 0 else Ranks(workers[..|workers| - 1]) + Rank(workers[|workers| - 1])
  }

  lemma {:induction false} RanksAfter(workers: seq<Worker>, w: nat, to: Worker)
    requires w < |workers|
    ensures Ranks(workers[w := to]) + Rank(workers[w]) == Ranks(workers) + Rank(to)
  {
    var last := |workers| - 1;
    if w == last {
      assert workers[w := to][..last] == workers[..last];
    } else {
      assert workers[w := to][..last] == workers[..last][w := to];
      RanksAfter(workers[..last], w, to);
    }
  }

  /** What is left to do once the sender is dropped. */
  function Work(p: Pool): nat {
    4 * |p.queue| + Ranks(p.workers)
  }

  /** After the sender is dropped every step does some of the remaining work, so only so many can follow. */
  lemma {:induction false} DrainIsBounded(p: Pool, events: seq<Event>)
    requires Conserved(p) && !p.open && Run(p, events)
    ensures |events| + Work(After(p, events)) <= Work(p)
    decreases |events|
  {
    if events != [] {
      var e := events[0];
      StepIsConserved(p, e);
      RanksAfter(p.workers, e.worker, Step(p, e).workers[e.worker]);
      DrainIsBounded(Step(p, e), events[1..]);
    }
  }

  /** The pool never gets stuck: while it is closing, or the queue is full, some step is possible. */
  lemma PoolMakesProgress(p: Pool)
    requires Conserved(p)
    ensures !p.open && !Returned(p) ==> exists e: Event :: Enabled(p, e)
    ensures p.pending.Some? ==> exists e: Event :: !e.Accept? && Enabled(p, e)
  {
    if Waiting in p.workers {
      var w :| 0 <= w < |p.workers| && p.workers[w] == Waiting;
      if p.queue != [] {
        assert Enabled(p, Receive(w));
      } else if !p.open {
        assert Enabled(p, Disconnect(w));
      } else if p.pending.Some? {
        assert Enabled(p, Enqueue);
      }
    } else if !Returned(p) {
      var w :| 0 <= w < |p.workers| && p.workers[w] != Exited;
      assert Enabled(p, if p.workers[w] == Idle then Lock(w) else Complete(w));
    } else {
      assert p.workers[0] in p.workers;
    }
  }
}
