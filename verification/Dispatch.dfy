/** Sending a plan's units to their endpoints, one thread per unit (src/execution.rs). */
module Dispatch {
  import opened Prelude
  import opened Identities
  import opened Nodes
  import opened Resource
  import opened Strings
  import opened Execution
  import M = Messages

  type Request = M.ExecutionRequest<ResourceFragment>
  type Reply = Result<M.ExecutionResponse, M.TransportError>

  /** What the dispatcher was built with. */
  datatype Dispatcher = Dispatcher(source: Option<Identity>, endpoints: seq<M.ExecutionEndpoint>)

  function EndpointFor(endpoints: seq<M.ExecutionEndpoint>, participant: Identity): (r: Option<M.ExecutionEndpoint>)
    ensures r.Some? ==> r.value in endpoints && r.value.participantId == participant
    ensures r.None? ==> forall e <- endpoints :: e.participantId != participant
  {
    if endpoints == [] then None
    else if endpoints[0].participantId == participant then Some(endpoints[0])
    else EndpointFor(endpoints[1..], participant)
  }

  const COLON: byte := 0x3A

  function RequestFor(d: Dispatcher, plan: ExecutionPlan, workload: WorkItem, unit: ExecutionUnit<ResourceFragment>)
    : Option<Request>
  {
    match EndpointFor(d.endpoints, unit.participantId)
    case None => None
    case Some(endpoint) =>
      Some(M.ExecutionRequest(workload.id + [COLON] + unit.participantId.id, d.source, workload,
                              plan.nodeId, plan.runtime, unit, endpoint))
  }

  /** The requests for the first n units, unless one of their endpoints is unknown. */
  function RequestsFor(d: Dispatcher, plan: ExecutionPlan, workload: WorkItem, n: nat): (r: Option<seq<Request>>)
    requires n <= |plan.units|
    ensures r.Some? ==> |r.value| == n
  {
    if n == 0 then Some([])
    else
      match (RequestsFor(d, plan, workload, n - 1), RequestFor(d, plan, workload, plan.units[n - 1]))
      case (Some(made), Some(request)) => Some(made + [request])
      case _ => None
  }

  /** The requests of a dispatch; an error here means that nothing is sent at all. */
  function Requests(d: Dispatcher, plan: ExecutionPlan, workload: WorkItem): Result<seq<Request>, ExecutionError> {
    if plan.workloadId != workload.id then Err(WorkloadMismatch)
    else if plan.units == [] then Err(EmptyPlan)
    else
      match RequestsFor(d, plan, workload, |plan.units|)
      case None => Err(BackendRejected)
      case Some(requests) => Ok(requests)
  }

  predicate Accepts(status: M.ExecutionStatus) {
    status == M.Dispatched || status == M.Running || status == M.Completed
  }

  predicate Acknowledges(request: Request, reply: Reply) {
    reply.Ok? && reply.value.requestId == request.requestId && Accepts(reply.value.status)
  }

  /** The joined replies are checked in the order of the requests. */
  method Collect(requests: seq<Request>, replies: seq<Reply>) returns (r: Result<nat, ExecutionError>)
    requires |requests| == |replies|
    ensures r == if forall i :: 0 <= i < |requests| ==> Acknowledges(requests[i], replies[i])
                 then Ok(|requests|) else Err(BackendRejected)
  {
    var dispatched := 0;
    for i := 0 to |requests|
      invariant forall j :: 0 <= j < i ==> Acknowledges(requests[j], replies[j])
      invariant dispatched == i
    {
      var reply := replies[i];
      if reply.Err? {
        return Err(BackendRejected);
      }
      if reply.value.requestId != requests[i].requestId {
        return Err(BackendRejected);
      }
      match reply.value.status
      case Dispatched | Running | Completed =>
        dispatched := dispatched + 1;
      case Pending | Failed | Cancelled =>
        return Err(BackendRejected);
    }
    r := Ok(dispatched);
  }

  function Outcome(plan: ExecutionPlan, workload: WorkItem, requests: seq<Request>, replies: seq<Reply>)
    : Result<ExecutionReceipt, ExecutionError>
    requires |requests| == |replies|
  {
    if forall i :: 0 <= i < |requests| ==> Acknowledges(requests[i], replies[i])
    then Ok(ExecutionReceipt(workload.id, plan.nodeId, |requests|))
    else Err(BackendRejected)
  }

  // The requests

  lemma {:induction false} RequestsForIff(d: Dispatcher, plan: ExecutionPlan, workload: WorkItem, n: nat)
    requires n <= |plan.units|
    ensures RequestsFor(d, plan, workload, n).Some? <==>
              forall i :: 0 <= i < n ==> EndpointFor(d.endpoints, plan.units[i].participantId).Some?
    ensures RequestsFor(d, plan, workload, n).Some? ==>
              forall i :: 0 <= i < n ==>
                Some(RequestsFor(d, plan, workload, n).value[i]) == RequestFor(d, plan, workload, plan.units[i])
  {
    if n > 0 {
      RequestsForIff(d, plan, workload, n - 1);
    }
  }

  /** The endpoint that a participant is reached at: the first one listed for it. */
  ghost predicate FirstListed(endpoints: seq<M.ExecutionEndpoint>, e: M.ExecutionEndpoint) {
    exists k :: 0 <= k < |endpoints| && endpoints[k] == e
                && forall j :: 0 <= j < k ==> endpoints[j].participantId != e.participantId
  }

  lemma {:induction false} EndpointIsFirstListed(endpoints: seq<M.ExecutionEndpoint>, participant: Identity)
    requires EndpointFor(endpoints, participant).Some?
    ensures FirstListed(endpoints, EndpointFor(endpoints, participant).value)
  {
    var e := EndpointFor(endpoints, participant).value;
    if endpoints[0].participantId == participant {
      assert endpoints[0] == e;
    } else {
      EndpointIsFirstListed(endpoints[1..], participant);
      var k :| 0 <= k < |endpoints| - 1 && endpoints[1..][k] == e
               && forall j :: 0 <= j < k ==> endpoints[1..][j].participantId != participant;
      assert endpoints[k + 1] == e;
      forall j | 0 <= j < k + 1 ensures endpoints[j].participantId != participant {
        assert j > 0 ==> endpoints[j] == endpoints[1..][j - 1];
      }
    }
  }

  /** A request carries the whole workload, the plan's node and runtime, and its unit to the unit's endpoint. */
  ghost predicate Carries(
    request: Request, d: Dispatcher, plan: ExecutionPlan, workload: WorkItem, unit: ExecutionUnit<ResourceFragment>)
  {
    && request.requestId == workload.id + [0x3A] + unit.participantId.id
    && request.source == d.source
    && request.workload == workload
    && request.nodeId == plan.nodeId
    && request.runtime == plan.runtime
    && request.unit == unit
    && request.endpoint.participantId == unit.participantId
    && FirstListed(d.endpoints, request.endpoint)
  }

  lemma RequestIdsDiffer(workload: WorkItem, a: Text, b: Text)
    requires a != b
    ensures workload.id + [0x3A] + a != workload.id + [0x3A] + b
  {
    var prefix := |workload.id| + 1;
    assert (workload.id + [0x3A] + a)[prefix..] == a && (workload.id + [0x3A] + b)[prefix..] == b;
  }

  /**
   There is one request per unit, in order and with everything the unit's endpoint needs, exactly
   when every participant has an endpoint; distinct participants get distinct request ids.
   */
  lemma RequestsCoverUnits(d: Dispatcher, plan: ExecutionPlan, workload: WorkItem)
    ensures var r := Requests(d, plan, workload);
            if plan.workloadId != workload.id then r == Err(WorkloadMismatch)
            else if plan.units == [] then r == Err(EmptyPlan)
            else if exists u <- plan.units :: forall e <- d.endpoints :: e.participantId != u.participantId then
              r == Err(BackendRejected)
            else r.Ok?
    ensures Requests(d, plan, workload).Ok? ==>
              var requests := Requests(d, plan, workload).value;
              && |requests| == |plan.units|
              && (forall i :: 0 <= i < |requests| ==> Carries(requests[i], d, plan, workload, plan.units[i]))
              && (forall i, j :: 0 <= i < j < |requests| ==>
                    plan.units[i].participantId.id != plan.units[j].participantId.id ==>
                      requests[i].requestId != requests[j].requestId)
  {
    RequestsForIff(d, plan, workload, |plan.units|);
    if Requests(d, plan, workload).Ok? {
      var requests := Requests(d, plan, workload).value;
      forall i | 0 <= i < |requests| ensures Carries(requests[i], d, plan, workload, plan.units[i]) {
        assert Some(requests[i]) == RequestFor(d, plan, workload, plan.units[i]);
        EndpointIsFirstListed(d.endpoints, plan.units[i].participantId);
      }
      forall i, j | 0 <= i < j < |requests|
                    && plan.units[i].participantId.id != plan.units[j].participantId.id
        ensures requests[i].requestId != requests[j].requestId
      {
        RequestIdsDiffer(workload, plan.units[i].participantId.id, plan.units[j].participantId.id);
      }
    }
  }

  /** A plan made for a workload can be dispatched with it exactly when every participant has an endpoint. */
  lemma PlansAreDispatchable(d: Dispatcher, node: LogicalNode, workload: WorkItem)
    requires PlanFor(node, workload).Ok?
    ensures Requests(d, PlanFor(node, workload).value, workload).Ok? <==>
              forall a <- node.resources.allocations ::
                exists e <- d.endpoints :: e.participantId == Identity(a.participantId, Kind.Participant)
  {
    var plan := PlanFor(node, workload).value;
    PlanningOutcome(node, workload);
    RequestsCoverUnits(d, plan, workload);
    EndpointsForUnits(d.endpoints, node.resources.allocations, plan.units);
  }

  lemma EndpointsForUnits(
    endpoints: seq<M.ExecutionEndpoint>, allocations: seq<Allocation>, units: seq<ExecutionUnit<ResourceFragment>>)
    requires |units| == |allocations|
    requires forall i :: 0 <= i < |units| ==>
               units[i].participantId == Identity(allocations[i].participantId, Kind.Participant)
    ensures (exists u <- units :: forall e <- endpoints :: e.participantId != u.participantId) <==>
              exists a <- allocations ::
                forall e <- endpoints :: e.participantId != Identity(a.participantId, Kind.Participant)
  {
    forall u | u in units && forall e <- endpoints :: e.participantId != u.participantId
      ensures exists a <- allocations ::
                forall e <- endpoints :: e.participantId != Identity(a.participantId, Kind.Participant)
    {
      var i :| 0 <= i < |units| && units[i] == u;
      assert allocations[i] in allocations;
    }
    forall a | a in allocations && forall e <- endpoints :: e.participantId != Identity(a.participantId, Kind.Participant)
      ensures exists u <- units :: forall e <- endpoints :: e.participantId != u.participantId
    {
      var i :| 0 <= i < |allocations| && allocations[i] == a;
      assert units[i] in units;
    }
  }

  // The threads

  /** Which requests have been handed to the transport so far, in order, and which have been answered. */
  datatype Flight = Flight(requests: seq<Request>, sent: seq<nat>, replies: map<nat, Reply>)

  datatype Event = Send(i: nat) | Return(who: nat, reply: Reply)

  /** A thread makes its one transport call whenever it is scheduled, and the call returns once. */
  predicate Enabled(f: Flight, e: Event) {
    match e
    case Send(i) => i < |f.requests| && i !in f.sent
    case Return(i, _) => i in f.sent && i !in f.replies
  }

  function Step(f: Flight, e: Event): Flight {
    match e
    case Send(i) => f.(sent := f.sent + [i])
    case Return(i, reply) => f.(replies := f.replies[i := reply])
  }

  function After(f: Flight, events: seq<Event>): Flight
    decreases |events|
  {
    if events == [] then f else After(Step(f, events[0]), events[1..])
  }

  predicate Run(f: Flight, events: seq<Event>)
    decreases |events|
  {
    events == [] || (Enabled(f, events[0]) && Run(Step(f, events[0]), events[1..]))
  }

  /** All threads have been joined. */
  predicate Landed(f: Flight) {
    forall i :: 0 <= i < |f.requests| ==> i in f.replies
  }

  ghost predicate InFlight(f: Flight) {
    && (forall i, j :: 0 <= i < j < |f.sent| ==> f.sent[i] != f.sent[j])
    && (forall i <- f.sent :: i < |f.requests|)
    && (forall i <- f.replies :: i in f.sent)
  }

  /** The answer each call would give, whenever it gives it. */
  predicate AnsweredBy(events: seq<Event>, answers: seq<Reply>) {
    forall e <- events :: e.Return? && e.who < |answers| ==> e.reply == answers[e.who]
  }

  /**
   Whatever order the threads run and return in, a finished dispatch has sent every request
   exactly once and has collected precisely the answers, so its outcome depends on nothing else.
   */
  lemma {:induction false} CompletionOrderIsIrrelevant(f: Flight, events: seq<Event>, answers: seq<Reply>)
    requires InFlight(f) && Run(f, events) && |answers| == |f.requests| && AnsweredBy(events, answers)
    requires forall i <- f.replies :: i < |answers| && f.replies[i] == answers[i]
    ensures var end := After(f, events);
            && InFlight(end) && end.requests == f.requests
            && (forall i <- end.replies :: i < |answers| && end.replies[i] == answers[i])
            && (Landed(end) ==> forall i :: 0 <= i < |f.requests| ==> i in end.sent)
    decreases |events|
  {
    if events != [] {
      assert events[0] in events;
      assert AnsweredBy(events[1..], answers);
      CompletionOrderIsIrrelevant(Step(f, events[0]), events[1..], answers);
    } else if Landed(f) {
      assert forall i :: 0 <= i < |f.requests| ==> i in f.replies;
    }
  }

  function Joined(f: Flight): seq<Reply>
    requires Landed(f)
  {
    seq(|f.requests|, i requires 0 <= i < |f.requests| => f.replies[i])
  }

  /**
   The whole dispatch: once its threads are joined, every unit's request was sent exactly once,
   and it returns a receipt for all of them exactly when every answer acknowledges its request.
   */
  lemma DispatchSucceedsIff(
    d: Dispatcher, plan: ExecutionPlan, workload: WorkItem, events: seq<Event>, answers: seq<Reply>)
    requires Requests(d, plan, workload).Ok?
    requires var start := Flight(Requests(d, plan, workload).value, [], map[]);
             Run(start, events) && Landed(After(start, events))
    requires |answers| == |plan.units| && AnsweredBy(events, answers)
    ensures var requests := Requests(d, plan, workload).value;
            var end := After(Flight(requests, [], map[]), events);
            && |requests| == |plan.units| == |end.requests|
            && (forall i, j :: 0 <= i < j < |end.sent| ==> end.sent[i] != end.sent[j])
            && (forall i :: i in end.sent <==> 0 <= i < |plan.units|)
            && Outcome(plan, workload, end.requests, Joined(end))
               == if forall i :: 0 <= i < |requests| ==>
                       && answers[i].Ok? && answers[i].value.requestId == requests[i].requestId
                       && answers[i].value.status in {M.Dispatched, M.Running, M.Completed}
                  then Ok(ExecutionReceipt(plan.workloadId, plan.nodeId, |plan.units|)) else Err(BackendRejected)
  {
    var requests := Requests(d, plan, workload).value;
    RequestsCoverUnits(d, plan, workload);
    CompletionOrderIsIrrelevant(Flight(requests, [], map[]), events, answers);
    var end := After(Flight(requests, [], map[]), events);
    assert Joined(end) == answers;
    OutcomeOf(plan, workload, requests, answers);
  }

  lemma OutcomeOf(plan: ExecutionPlan, workload: WorkItem, requests: seq<Request>, replies: seq<Reply>)
    requires |requests| == |replies|
    ensures Outcome(plan, workload, requests, replies)
            == if forall i :: 0 <= i < |requests| ==>
                    && replies[i].Ok? && replies[i].value.requestId == requests[i].requestId
                    && replies[i].value.status in {M.Dispatched, M.Running, M.Completed}
               then Ok(ExecutionReceipt(workload.id, plan.nodeId, |requests|)) else Err(BackendRejected)
  {
    assert forall i :: 0 <= i < |requests| ==>
             (Acknowledges(requests[i], replies[i]) <==>
                && replies[i].Ok? && replies[i].value.requestId == requests[i].requestId
                && replies[i].value.status in {M.Dispatched, M.Running, M.Completed});
  }

  function Remaining(f: Flight): int {
    2 * |f.requests| - |f.sent| - |f.replies|
  }

  lemma {:induction false} DistinctBelow(s: seq<nat>, n: nat)
    requires forall i, j :: 0 <= i < j < |s| ==> s[i] != s[j]
    requires forall i :: 0 <= i < |s| ==> s[i] < n
    ensures |s| <= n
    decreases n
  {
    if s != [] {
      assert s[0] < n;
      if n - 1 in s {
        var k :| 0 <= k < |s| && s[k] == n - 1;
        WithoutAt(s, k);
        var rest := Without(s, k);
        forall i | 0 <= i < |rest| ensures rest[i] < n - 1 {
          var j := if i < k then i else i + 1;
          assert rest[i] == s[j] && s[j] in s && s[j] != s[k];
        }
        DistinctBelow(rest, n - 1);
      } else {
        DistinctBelow(s, n - 1);
      }
    }
  }

  lemma {:induction false} SubsetSize<T>(a: set<T>, b: set<T>)
    requires a <= b
    ensures |a| <= |b|
  {
    if a != {} {
      var x :| x in a;
      SubsetSize(a - {x}, b - {x});
    }
  }

  lemma SentIsBounded(f: Flight)
    requires InFlight(f)
    ensures |f.replies| <= |f.sent| <= |f.requests|
  {
    assert forall i :: 0 <= i < |f.sent| ==> f.sent[i] in f.sent;
    DistinctBelow(f.sent, |f.requests|);
    KeyCount(f.sent, (i: nat) => i);
    SubsetSize(f.replies.Keys, Keys(f.sent, (i: nat) => i));
  }

  /** No dispatch gets stuck, and each step brings it closer to its end. */
  lemma DispatchTerminates(f: Flight, e: Event)
    requires InFlight(f)
    ensures Remaining(f) >= 0
    ensures !Landed(f) ==> exists next: Event :: Enabled(f, next)
    ensures Enabled(f, e) ==> Remaining(Step(f, e)) < Remaining(f)
  {
    SentIsBounded(f);
    if !Landed(f) {
      var i :| 0 <= i < |f.requests| && i !in f.replies;
      if i in f.sent {
        assert Enabled(f, Return(i, Err(M.NetworkFailure)));
      } else {
        assert Enabled(f, Send(i));
      }
    }
  }
}
