/**
 How much the worker pool can hold (src/transport.rs): every worker busy at once, the queue
 full behind them, and one more connection accepted and waiting to be sent.
 */
module PoolLoad {
  import opened Prelude
  import opened WorkerPool

  function Numbers(n: nat): seq<Connection> {
    seq(n, i requires 0 <= i < n => i)
  }

  /** The pool when n of its workers serve the first n connections and k more are queued. */
  function Loaded(parallelism: Option<nat>, n: nat, k: nat): Pool {
    var count := WorkerCount(parallelism);
    Start(parallelism).(
      accepted := Numbers(n + k),
      received := Numbers(n),
      queue := seq(k, i requires 0 <= i < k => n + i),
      workers := seq(count, i requires 0 <= i < count => if i < n then Serving(i) else Idle))
  }

  lemma OneStep(p: Pool, e: Event, rest: seq<Event>)
    requires Enabled(p, e)
    ensures Run(p, [e] + rest) <==> Run(Step(p, e), rest)
    ensures Run(Step(p, e), rest) ==> After(p, [e] + rest) == After(Step(p, e), rest)
  {
    assert ([e] + rest)[1..] == rest;
  }

  lemma {:induction false} RunsJoin(p: Pool, a: seq<Event>, b: seq<Event>)
    requires Run(p, a) && Run(After(p, a), b)
    ensures Run(p, a + b) && After(p, a + b) == After(After(p, a), b)
    decreases |a|
  {
    if a == [] {
      assert a + b == b;
    } else {
      RunsJoin(Step(p, a[0]), a[1..], b);
      OneStep(p, a[0], a[1..] + b);
      assert a + b == [a[0]] + (a[1..] + b);
    }
  }

  /** A connection that comes in while a worker is free is taken on by it. */
  lemma ServeNext(parallelism: Option<nat>, n: nat) returns (events: seq<Event>)
    requires n < WorkerCount(parallelism)
    ensures Run(Loaded(parallelism, n, 0), events)
    ensures After(Loaded(parallelism, n, 0), events) == Loaded(parallelism, n + 1, 0)
  {
    var p := Loaded(parallelism, n, 0);
    var p1 := Step(p, Accept(n));
    var p2 := Step(p1, Enqueue);
    var p3 := Step(p2, Lock(n));
    var p4 := Step(p3, Receive(n));
    OneStep(p3, Receive(n), []);
    OneStep(p2, Lock(n), [Receive(n)] + []);
    OneStep(p1, Enqueue, [Lock(n)] + ([Receive(n)] + []));
    OneStep(p, Accept(n), [Enqueue] + ([Lock(n)] + ([Receive(n)] + [])));
    events := [Accept(n)] + ([Enqueue] + ([Lock(n)] + ([Receive(n)] + [])));
    assert p4.accepted == Numbers(n + 1) && p4.received == Numbers(n + 1) && p4.queue == [];
    assert p4.workers == Loaded(parallelism, n + 1, 0).workers;
  }

  /** One that comes in when all are busy is queued, while there is room. */
  lemma QueueNext(parallelism: Option<nat>, k: nat) returns (events: seq<Event>)
    requires k < Start(parallelism).capacity
    ensures var n := WorkerCount(parallelism);
            Run(Loaded(parallelism, n, k), events) && After(Loaded(parallelism, n, k), events) == Loaded(parallelism, n, k + 1)
  {
    var n := WorkerCount(parallelism);
    var p := Loaded(parallelism, n, k);
    var p1 := Step(p, Accept(n + k));
    var p2 := Step(p1, Enqueue);
    OneStep(p1, Enqueue, []);
    OneStep(p, Accept(n + k), [Enqueue] + []);
    events := [Accept(n + k)] + ([Enqueue] + []);
    assert p2.accepted == Numbers(n + k + 1) && p2.queue == Loaded(parallelism, n, k + 1).queue;
  }

  lemma {:induction false} ServeAll(parallelism: Option<nat>, n: nat) returns (events: seq<Event>)
    requires n <= WorkerCount(parallelism)
    ensures Run(Start(parallelism), events) && After(Start(parallelism), events) == Loaded(parallelism, n, 0)
  {
    if n == 0 {
      events := [];
      assert Start(parallelism).workers == Loaded(parallelism, 0, 0).workers;
    } else {
      var before := ServeAll(parallelism, n - 1);
      var more := ServeNext(parallelism, n - 1);
      RunsJoin(Start(parallelism), before, more);
      events := before + more;
    }
  }

  lemma {:induction false} QueueAll(parallelism: Option<nat>, k: nat) returns (events: seq<Event>)
    requires k <= Start(parallelism).capacity
    ensures Run(Start(parallelism), events)
    ensures After(Start(parallelism), events) == Loaded(parallelism, WorkerCount(parallelism), k)
  {
    if k == 0 {
      events := ServeAll(parallelism, WorkerCount(parallelism));
    } else {
      var before := QueueAll(parallelism, k - 1);
      var more := QueueNext(parallelism, k - 1);
      RunsJoin(Start(parallelism), before, more);
      events := before + more;
    }
  }

  /** The server at its limit: it has accepted one more connection than workers and queue hold. */
  lemma PoolCanBeFull(parallelism: Option<nat>) returns (events: seq<Event>)
    ensures Run(Start(parallelism), events)
    ensures var p := After(Start(parallelism), events);
            && |p.workers| == WorkerCount(parallelism) && (forall w <- p.workers :: w.Serving?)
            && |p.queue| == p.capacity && p.pending.Some?
            && |p.accepted| == WorkerCount(parallelism) + QueueCapacity(WorkerCount(parallelism)) + 1
  {
    var n, k := WorkerCount(parallelism), Start(parallelism).capacity;
    var before := QueueAll(parallelism, k);
    var full := Loaded(parallelism, n, k);
    OneStep(full, Accept(n + k), []);
    RunsJoin(Start(parallelism), before, [Accept(n + k)] + []);
    events := before + ([Accept(n + k)] + []);
  }
}
