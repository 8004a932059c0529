/**
 Runs of the control plane in which execution is two steps: it takes a snapshot, runs the
 backend without holding any lock, and writes the machine back later. Other operations may
 come in between.
 */
module ControlInterleaving {
  import opened Prelude
  import opened Strings
  import opened Identities
  import opened Nodes
  import opened Leases
  import opened Execution
  import opened VirtualMachines
  import opened Control
  import opened ControlLaws
  import opened ControlRuns

  /** born remembers each machine as it was first stored; tickets name executions under way. */
  datatype World = World(plane: PlaneState, underway: map<nat, Snapshot>, born: map<Text, VirtualMachine>)

  datatype Event =
    | Whole(op: Operation)
    | Begin(ticket: nat, id: Identity)
    | Finish(done: nat, workload: WorkItem, backend: Backend, now: Instant)

  /** The identifiers of a creation were never drawn before; executions begin once and end once. */
  ghost predicate Enabled(w: World, e: Event) {
    match e
    case Whole(op) =>
      && Permitted(w.plane, op)
      && (op.Create? ==>
            && op.ids.machine !in w.born
            && (forall k <- w.born :: w.born[k].nodeId.id != op.ids.node))
    case Begin(ticket, id) => ticket !in w.underway && TakeSnapshot(w.plane, id).Some?
    case Finish(ticket, _, _, _) => ticket in w.underway
  }

  function Births(w: World, op: Operation): map<Text, VirtualMachine> {
    match op
    case Create(offers, order, ids) =>
      (match LeasedMachine(w.plane, offers, order, ids).1
       case Ok((vm, _)) => w.born[vm.id.id := vm]
       case Err(_) => w.born)
    case _ => w.born
  }

  function Step(w: World, e: Event): World {
    match e
    case Whole(op) => w.(plane := Apply(w.plane, op), born := Births(w, op))
    case Begin(ticket, id) =>
      (match TakeSnapshot(w.plane, id)
       case None => w
       case Some(taken) => w.(underway := w.underway[ticket := taken]))
    case Finish(ticket, workload, backend, now) =>
      if ticket in w.underway then
        w.(plane := WriteBack(w.plane, w.underway[ticket], workload, backend, now).0, underway := w.underway - {ticket})
      else w
  }

  function After(w: World, events: seq<Event>): World
    decreases |events|
  {
    if events == [] then w else After(Step(w, events[0]), events[1..])
  }

  ghost predicate EnabledRun(w: World, events: seq<Event>)
    decreases |events|
  {
    events == [] || (Enabled(w, events[0]) && EnabledRun(Step(w, events[0]), events[1..]))
  }

  // One machine moving along its lifecycle

  predicate LegalMove(from: VirtualMachineState, to: VirtualMachineState) {
    from == to || (from == Created && to == Running) || (from == Running && (to == Stopped || to == Failed))
  }

  predicate Terminal(state: VirtualMachineState) {
    state == Stopped || state == Failed
  }

  predicate Keyed(s: PlaneState) {
    forall k <- s.machines :: s.machines[k].id.id == k
  }

  /** Nothing changed but, at most, the state of one machine, and that legally. */
  predicate Moved(s: PlaneState, after: PlaneState, k: Text) {
    if k in s.machines then
      && k in after.machines
      && LegalMove(s.machines[k].state, after.machines[k].state)
      && after == WithState(s, k, after.machines[k].state)
    else after == s
  }

  lemma StartMoves(s: PlaneState, id: Identity)
    ensures Moved(s, StartedMachine(s, id).0, id.id)
  {
    if id.id in s.machines {
      assert s == WithState(s, id.id, s.machines[id.id].state);
    }
  }

  lemma StopMoves(s: PlaneState, id: Identity)
    ensures Moved(s, StoppedMachine(s, id).0, id.id)
  {
    if id.id in s.machines {
      assert s == WithState(s, id.id, s.machines[id.id].state);
    }
  }

  lemma ExecutionMoves(s: PlaneState, id: Identity, workload: WorkItem, backend: Backend, now: Instant)
    requires Keyed(s)
    ensures Moved(s, ExecutedMachine(s, id, workload, backend, now).0, id.id)
  {
    if TakeSnapshot(s, id).Some? {
      var taken := TakeSnapshot(s, id).value;
      var (state, _) := Executed(taken.vm, taken.node, workload, backend, now);
      assert ExecutedMachine(s, id, workload, backend, now).0 == WithState(s, id.id, state);
    } else if id.id in s.machines {
      assert s == WithState(s, id.id, s.machines[id.id].state);
    }
  }

  /** The machine an operation is about, if it is about one that exists. */
  function Target(op: Operation): Text {
    match op
    case Create(_, _, ids) => ids.machine
    case Start(id) => id.id
    case Stop(id) => id.id
    case Destroy(id) => id.id
    case Execute(machine, _, _, _) => machine.id
  }

  lemma OperationMovesTarget(s: PlaneState, op: Operation)
    requires Keyed(s) && !op.Create? && !op.Destroy?
    ensures Moved(s, Apply(s, op), Target(op))
  {
    match op
    case Start(id) => StartMoves(s, id);
    case Stop(id) => StopMoves(s, id);
    case Execute(machine, workload, backend, now) => ExecutionMoves(s, machine, workload, backend, now);
  }

  // What holds however operations overlap

  /**
   Every version of a machine, stored or being executed, is the one born under its id but for
   its state, and a node that is still there is the one an execution has read.
   */
  ghost predicate Faithful(w: World) {
    && (forall k <- w.plane.machines :: k in w.born && SameMachine(w.plane.machines[k], w.born[k]))
    && (forall k <- w.born :: w.born[k].id == Identity(k, Kind.VirtualMachine))
    && (forall t <- w.underway :: FaithfulSnapshot(w, w.underway[t]))
  }

  ghost predicate FaithfulSnapshot(w: World, taken: Snapshot) {
    && taken.vm.id.id in w.born
    && SameMachine(taken.vm, w.born[taken.vm.id.id])
    && (taken.vm.nodeId.id in w.plane.nodes ==> w.plane.nodes[taken.vm.nodeId.id] == taken.node)
  }

  lemma CreationIsFaithful(w: World, op: Operation)
    requires Faithful(w) && Enabled(w, Whole(op)) && op.Create?
    ensures Faithful(Step(w, Whole(op)))
    ensures forall k <- w.born :: k in Births(w, op) && Births(w, op)[k] == w.born[k]
  {
    if LeasedMachine(w.plane, op.offers, op.order, op.ids).1.Ok? {
      CreatedMachine(w.plane, op.offers, op.order, op.ids);
      var after := Step(w, Whole(op));
      forall t <- after.underway ensures FaithfulSnapshot(after, after.underway[t]) {
        assert FaithfulSnapshot(w, w.underway[t]);
        assert w.underway[t].vm.nodeId == w.born[w.underway[t].vm.id.id].nodeId;
      }
    } else {
      FailedCreationIsClean(w.plane, op.offers, op.order, op.ids);
    }
  }

  /** The other operations bring in no new machine and no new node. */
  ghost predicate Narrows(s: PlaneState, after: PlaneState) {
    && (forall k <- after.machines :: k in s.machines && SameMachine(s.machines[k], after.machines[k]))
    && (forall n <- after.nodes :: n in s.nodes && after.nodes[n] == s.nodes[n])
  }

  lemma MovingNarrows(s: PlaneState, after: PlaneState, k: Text)
    requires Moved(s, after, k)
    ensures Narrows(s, after)
  {
  }

  lemma DestroyNarrows(s: PlaneState, id: Identity)
    ensures Narrows(s, DestroyedMachine(s, id).0)
  {
  }

  lemma OperationNarrows(s: PlaneState, op: Operation)
    requires Keyed(s) && !op.Create?
    ensures Narrows(s, Apply(s, op))
  {
    if op.Destroy? {
      DestroyNarrows(s, op.id);
    } else {
      OperationMovesTarget(s, op);
      MovingNarrows(s, Apply(s, op), Target(op));
    }
  }

  lemma NarrowingIsFaithful(w: World, after: PlaneState)
    requires Faithful(w) && Narrows(w.plane, after)
    ensures Faithful(w.(plane := after))
  {
    var next := w.(plane := after);
    forall t <- w.underway ensures FaithfulSnapshot(next, w.underway[t]) {
      assert FaithfulSnapshot(w, w.underway[t]);
    }
  }

  lemma FinishIsFaithful(w: World, e: Event)
    requires Faithful(w) && Enabled(w, e) && e.Finish?
    ensures Faithful(Step(w, e))
  {
    var after := Step(w, e);
    var vm := w.underway[e.done].vm;
    assert FaithfulSnapshot(w, w.underway[e.done]);
    assert forall k <- after.plane.machines :: k != vm.id.id ==> after.plane.machines[k] == w.plane.machines[k];
    forall t <- after.underway ensures FaithfulSnapshot(after, after.underway[t]) {
      assert FaithfulSnapshot(w, w.underway[t]);
    }
  }

  lemma BeginIsFaithful(w: World, e: Event)
    requires Faithful(w) && Enabled(w, e) && e.Begin?
    ensures Faithful(Step(w, e))
  {
    var after := Step(w, e);
    forall t <- after.underway ensures FaithfulSnapshot(after, after.underway[t]) {
      assert t in w.underway ==> FaithfulSnapshot(w, w.underway[t]);
    }
  }

  lemma StepIsFaithful(w: World, e: Event)
    requires Faithful(w) && Enabled(w, e)
    ensures Faithful(Step(w, e))
    ensures forall k <- w.born :: k in Step(w, e).born && Step(w, e).born[k] == w.born[k]
  {
    match e
    case Whole(op) =>
      if op.Create? {
        CreationIsFaithful(w, op);
      } else {
        OperationNarrows(w.plane, op);
        NarrowingIsFaithful(w, Apply(w.plane, op));
      }
    case Begin(_, _) => BeginIsFaithful(w, e);
    case Finish(_, _, _, _) => FinishIsFaithful(w, e);
  }

  /** Executing a machine never touches the leases or the nodes. */
  lemma ExecutionKeepsLeasesAndNodes(w: World, e: Event)
    requires !e.Whole?
    ensures Step(w, e).plane.leases == w.plane.leases && Step(w, e).plane.nodes == w.plane.nodes
  {
  }

  /** No interleaving whatever makes two stored versions of a machine differ in more than their state. */
  lemma {:induction false} VersionsAgree(w: World, events: seq<Event>, k: Text)
    requires Faithful(w) && EnabledRun(w, events)
    ensures Faithful(After(w, events))
    ensures forall b <- w.born :: b in After(w, events).born && After(w, events).born[b] == w.born[b]
    ensures k in w.plane.machines && k in After(w, events).plane.machines ==>
              SameMachine(w.plane.machines[k], After(w, events).plane.machines[k])
    decreases |events|
  {
    if events != [] {
      StepIsFaithful(w, events[0]);
      VersionsAgree(Step(w, events[0]), events[1..], k);
    }
  }

  /**
   When a write-back amounts to executing the machine at that moment: exactly when the stored
   machine and its node are still there and its state is the one the snapshot saw.
   */
  lemma WriteBackIsAtomicIff(w: World, ticket: nat, workload: WorkItem, backend: Backend, now: Instant)
    requires Faithful(w) && ticket in w.underway
    ensures var taken := w.underway[ticket];
            WriteBack(w.plane, taken, workload, backend, now)
            == ExecutedMachine(w.plane, taken.vm.id, workload, backend, now) <==>
              && taken.vm.id.id in w.plane.machines
              && taken.vm.nodeId.id in w.plane.nodes
              && w.plane.machines[taken.vm.id.id].state == taken.vm.state
  {
    var taken := w.underway[ticket];
    var k := taken.vm.id.id;
    assert FaithfulSnapshot(w, taken);
    if k in w.plane.machines && taken.vm.nodeId.id in w.plane.nodes {
      var stored := w.plane.machines[k];
      assert stored == taken.vm.(state := stored.state);
      if stored.state != taken.vm.state {
        var (mine, myResult) := Executed(taken.vm, taken.node, workload, backend, now);
        var (theirs, theirResult) := Executed(stored, taken.node, workload, backend, now);
        assert mine != theirs || myResult != theirResult;
        assert WriteBack(w.plane, taken, workload, backend, now).0.machines[k].state == mine;
        assert ExecutedMachine(w.plane, taken.vm.id, workload, backend, now).0.machines[k].state == theirs;
      }
    }
  }

  // Updates that an overlapping write-back undoes

  /** A stop that succeeds during an execution is lost: the machine does not end up stopped. */
  lemma OverlappedStopIsLost(s: PlaneState, id: Identity, workload: WorkItem, backend: Backend, now: Instant)
    requires TakeSnapshot(s, id).Some? && s.machines[id.id].id.id == id.id && s.machines[id.id].state == Running
    ensures StoppedMachine(s, id).1.Ok?
    ensures var after := WriteBack(StoppedMachine(s, id).0, TakeSnapshot(s, id).value, workload, backend, now).0;
            id.id in after.machines && after.machines[id.id].state != Stopped
  {
  }

  /** A start that succeeds during an execution refused for not running is lost too. */
  lemma OverlappedStartIsLost(s: PlaneState, id: Identity, workload: WorkItem, backend: Backend, now: Instant)
    requires TakeSnapshot(s, id).Some? && s.machines[id.id].id.id == id.id && s.machines[id.id].state == Created
    ensures StartedMachine(s, id).1.Ok?
    ensures var after := WriteBack(StartedMachine(s, id).0, TakeSnapshot(s, id).value, workload, backend, now).0;
            id.id in after.machines && after.machines[id.id].state == Created
  {
  }

  /** A machine destroyed during an execution comes back, without its leases or its node. */
  lemma OverlappedDestroyIsUndone(s: PlaneState, id: Identity, workload: WorkItem, backend: Backend, now: Instant)
    requires Consistent(s) && TakeSnapshot(s, id).Some?
    ensures DestroyedMachine(s, id).1.Ok?
    ensures var after := WriteBack(DestroyedMachine(s, id).0, TakeSnapshot(s, id).value, workload, backend, now).0;
            && id.id in after.machines
            && after.machines[id.id].nodeId.id !in after.nodes
            && LeaseIds(after.machines[id.id].leases) !! after.leases.Keys
            && !Consistent(after)
  {
    DestroyRemovesExactly(s, id);
    assert InPlace(s, id.id);
    var after := WriteBack(DestroyedMachine(s, id).0, TakeSnapshot(s, id).value, workload, backend, now).0;
    assert !InPlace(after, id.id);
  }

  // Runs without overlap

  predicate Busy(w: World, k: Text) {
    exists t <- w.underway :: w.underway[t].vm.id.id == k
  }

  /** Nothing touches a machine while it is being executed. */
  predicate Exclusive(w: World, e: Event) {
    match e
    case Whole(Create(_, _, _)) => true
    case Whole(Start(id)) => !Busy(w, id.id)
    case Whole(Stop(id)) => !Busy(w, id.id)
    case Whole(Destroy(id)) => !Busy(w, id.id)
    case Whole(Execute(id, _, _, _)) => !Busy(w, id.id)
    case Begin(_, id) => !Busy(w, id.id)
    case Finish(_, _, _, _) => true
  }

  ghost predicate ExclusiveRun(w: World, events: seq<Event>)
    decreases |events|
  {
    events == [] ||
    (Enabled(w, events[0]) && Exclusive(w, events[0]) && ExclusiveRun(Step(w, events[0]), events[1..]))
  }

  /** Each execution under way would still read what it has read, and none shares its machine. */
  ghost predicate Undisturbed(w: World) {
    && (forall t <- w.underway :: TakeSnapshot(w.plane, w.underway[t].vm.id) == Some(w.underway[t]))
    && (forall t <- w.underway, u <- w.underway :: w.underway[t].vm.id.id == w.underway[u].vm.id.id ==> t == u)
  }

  ghost predicate Sound(w: World) {
    Consistent(w.plane) && Faithful(w) && Undisturbed(w)
  }

  /** The operation an event performs: an execution counts when it is written back. */
  function Performed(w: World, e: Event): Option<Operation> {
    match e
    case Whole(op) => Some(op)
    case Begin(_, _) => None
    case Finish(ticket, workload, backend, now) =>
      if ticket in w.underway then Some(Execute(w.underway[ticket].vm.id, workload, backend, now)) else None
  }

  lemma StepPerforms(w: World, e: Event)
    requires Undisturbed(w)
    ensures Step(w, e).plane == match Performed(w, e)
                                case None => w.plane
                                case Some(op) => Apply(w.plane, op)
  {
  }

  lemma CreationSparesOthers(s: PlaneState, op: Operation, m: Identity)
    requires op.Create? && Permitted(s, op) && TakeSnapshot(s, m).Some?
    ensures TakeSnapshot(Apply(s, op), m) == TakeSnapshot(s, m)
  {
    if LeasedMachine(s, op.offers, op.order, op.ids).1.Ok? {
      CreatedMachine(s, op.offers, op.order, op.ids);
    } else {
      FailedCreationIsClean(s, op.offers, op.order, op.ids);
    }
  }

  lemma RemovedSparesOthers(s: PlaneState, after: PlaneState, gone: Text, m: Identity)
    requires NodesPaired(s) && Removed(s, after, gone) && TakeSnapshot(s, m).Some? && m.id != gone
    ensures TakeSnapshot(after, m) == TakeSnapshot(s, m)
  {
    assert UsedBy(s, s.machines[gone].nodeId.id, gone);
    assert UsedBy(s, s.machines[m.id].nodeId.id, m.id);
  }

  lemma DestroySparesOthers(s: PlaneState, id: Identity, m: Identity)
    requires Consistent(s) && TakeSnapshot(s, m).Some? && m.id != id.id
    ensures TakeSnapshot(DestroyedMachine(s, id).0, m) == TakeSnapshot(s, m)
  {
    if id.id in s.machines {
      DestroyRemovesExactly(s, id);
      RemovedSparesOthers(s, DestroyedMachine(s, id).0, id.id, m);
    }
  }

  lemma MovingSparesOthers(s: PlaneState, after: PlaneState, k: Text, m: Identity)
    requires Moved(s, after, k) && m.id != k
    ensures TakeSnapshot(after, m) == TakeSnapshot(s, m)
  {
  }

  lemma ConsistentIsKeyed(s: PlaneState)
    requires AllInPlace(s)
    ensures Keyed(s)
  {
    forall k <- s.machines ensures s.machines[k].id.id == k {
      assert InPlace(s, k);
    }
  }

  lemma OperationSparesOthers(s: PlaneState, op: Operation, m: Identity)
    requires Consistent(s) && Permitted(s, op) && TakeSnapshot(s, m).Some? && m.id != Target(op)
    ensures TakeSnapshot(Apply(s, op), m) == TakeSnapshot(s, m)
  {
    match op
    case Create(_, _, _) => CreationSparesOthers(s, op, m);
    case Destroy(id) => DestroySparesOthers(s, id, m);
    case _ =>
      ConsistentIsKeyed(s);
      OperationMovesTarget(s, op);
      MovingSparesOthers(s, Apply(s, op), Target(op), m);
  }

  lemma OperationKeepsUndisturbed(w: World, op: Operation)
    requires Consistent(w.plane) && Undisturbed(w) && Permitted(w.plane, op)
    requires op.Create? || !Busy(w, Target(op))
    ensures Undisturbed(w.(plane := Apply(w.plane, op)))
  {
    forall t <- w.underway
      ensures TakeSnapshot(Apply(w.plane, op), w.underway[t].vm.id) == Some(w.underway[t])
    {
      assert TakeSnapshot(w.plane, w.underway[t].vm.id) == Some(w.underway[t]);
      if op.Create? {
        CreationSparesOthers(w.plane, op, w.underway[t].vm.id);
      } else {
        OperationSparesOthers(w.plane, op, w.underway[t].vm.id);
      }
    }
  }

  function Others(w: World, ticket: nat): World {
    w.(underway := w.underway - {ticket})
  }

  lemma OthersAreUndisturbed(w: World, ticket: nat)
    requires Undisturbed(w) && ticket in w.underway
    ensures Undisturbed(Others(w, ticket)) && !Busy(Others(w, ticket), w.underway[ticket].vm.id.id)
  {
  }

  lemma UndisturbedFinish(w: World, e: Event)
    requires Undisturbed(w) && Enabled(w, e) && e.Finish?
    ensures Step(w, e)
            == Others(w, e.done).(plane := Apply(w.plane, Execute(w.underway[e.done].vm.id, e.workload, e.backend, e.now)))
  {
    StepPerforms(w, e);
  }

  lemma FinishKeepsUndisturbed(w: World, e: Event)
    requires Consistent(w.plane) && Undisturbed(w) && Enabled(w, e) && e.Finish?
    ensures Undisturbed(Step(w, e))
  {
    OthersAreUndisturbed(w, e.done);
    OperationKeepsUndisturbed(
      Others(w, e.done), Execute(w.underway[e.done].vm.id, e.workload, e.backend, e.now));
    UndisturbedFinish(w, e);
  }

  lemma BeginKeepsUndisturbed(w: World, ticket: nat, id: Identity)
    requires Undisturbed(w) && ticket !in w.underway && !Busy(w, id.id)
    requires TakeSnapshot(w.plane, id).Some? && w.plane.machines[id.id].id.id == id.id
    ensures Undisturbed(Step(w, Begin(ticket, id)))
  {
    var taken := TakeSnapshot(w.plane, id).value;
    var after := Step(w, Begin(ticket, id));
    assert after == w.(underway := w.underway[ticket := taken]);
    forall t <- after.underway
      ensures TakeSnapshot(after.plane, after.underway[t].vm.id) == Some(after.underway[t])
    {
      assert t != ticket ==> TakeSnapshot(w.plane, w.underway[t].vm.id) == Some(w.underway[t]);
    }
  }

  /** A step that overlaps nothing keeps everything in step. */
  lemma ExclusiveStepIsSound(w: World, e: Event)
    requires Sound(w) && Enabled(w, e) && Exclusive(w, e)
    ensures Sound(Step(w, e))
  {
    StepIsFaithful(w, e);
    StepPerforms(w, e);
    match e
    case Whole(op) =>
      OperationKeepsConsistent(w.plane, op);
      OperationKeepsUndisturbed(w, op);
    case Begin(ticket, id) =>
      assert InPlace(w.plane, id.id);
      BeginKeepsUndisturbed(w, ticket, id);
    case Finish(ticket, workload, backend, now) =>
      OperationKeepsConsistent(w.plane, Execute(w.underway[ticket].vm.id, workload, backend, now));
      FinishKeepsUndisturbed(w, e);
  }

  // The machine each run refines

  lemma CreationMoves(s: PlaneState, op: Operation, k: Text)
    requires op.Create? && Permitted(s, op)
    ensures k in s.machines ==> k in Apply(s, op).machines && Apply(s, op).machines[k] == s.machines[k]
    ensures k !in s.machines && k in Apply(s, op).machines ==> k == op.ids.machine
  {
    if LeasedMachine(s, op.offers, op.order, op.ids).1.Ok? {
      CreatedMachine(s, op.offers, op.order, op.ids);
    } else {
      FailedCreationIsClean(s, op.offers, op.order, op.ids);
    }
  }

  lemma DestroyMoves(s: PlaneState, id: Identity, k: Text)
    ensures k in DestroyedMachine(s, id).0.machines ==>
              k in s.machines && DestroyedMachine(s, id).0.machines[k] == s.machines[k]
  {
  }

  /** An operation moves each machine along its lifecycle, and only creation brings one in. */
  lemma OperationMoves(s: PlaneState, op: Operation, k: Text)
    requires Keyed(s) && Permitted(s, op)
    ensures k in s.machines && k in Apply(s, op).machines ==>
              LegalMove(s.machines[k].state, Apply(s, op).machines[k].state)
    ensures k !in s.machines && k in Apply(s, op).machines ==> op.Create? && k == op.ids.machine
  {
    match op
    case Create(_, _, _) => CreationMoves(s, op, k);
    case Destroy(id) => DestroyMoves(s, id, k);
    case _ => OperationMovesTarget(s, op);
  }

  /** The operations of a run in the order they take effect. */
  function Serialised(w: World, events: seq<Event>): seq<Operation>
    decreases |events|
  {
    if events == [] then []
    else
      var rest := Serialised(Step(w, events[0]), events[1..]);
      match Performed(w, events[0])
      case None => rest
      case Some(op) => [op] + rest
  }

  lemma ApplyFirst(s: PlaneState, op: Operation, rest: seq<Operation>)
    ensures ApplyAll(s, [op] + rest) == ApplyAll(Apply(s, op), rest)
  {
    assert ([op] + rest)[1..] == rest;
  }

  /**
   A run in which nothing touches a machine while it is executed is a serial run: it stays
   consistent and reaches the plane that performing its operations one at a time reaches.
   */
  lemma {:induction false} ExclusiveRunsAreSerial(w: World, events: seq<Event>)
    requires Sound(w) && ExclusiveRun(w, events)
    ensures Sound(After(w, events))
    ensures After(w, events).plane == ApplyAll(w.plane, Serialised(w, events))
    decreases |events|
  {
    if events != [] {
      var e := events[0];
      ExclusiveStepIsSound(w, e);
      StepPerforms(w, e);
      ExclusiveRunsAreSerial(Step(w, e), events[1..]);
      if Performed(w, e).Some? {
        ApplyFirst(w.plane, Performed(w, e).value, Serialised(Step(w, e), events[1..]));
      }
    }
  }

  lemma ExclusiveStepMoves(w: World, e: Event, k: Text)
    requires Sound(w) && Enabled(w, e) && Exclusive(w, e) && k in w.born
    ensures k in w.plane.machines && k in Step(w, e).plane.machines ==>
              LegalMove(w.plane.machines[k].state, Step(w, e).plane.machines[k].state)
    ensures k !in w.plane.machines ==> k !in Step(w, e).plane.machines
    ensures k in Step(w, e).born
  {
    StepPerforms(w, e);
    StepIsFaithful(w, e);
    ConsistentIsKeyed(w.plane);
    if Performed(w, e).Some? {
      OperationMoves(w.plane, Performed(w, e).value, k);
    }
  }

  /** In such a run stopped and failed machines stay so, and destroyed ones never return. */
  lemma {:induction false} TerminalStatesAreFinal(w: World, events: seq<Event>, k: Text)
    requires Sound(w) && ExclusiveRun(w, events) && k in w.born
    requires k in w.plane.machines ==> Terminal(w.plane.machines[k].state)
    ensures k in After(w, events).plane.machines ==>
              k in w.plane.machines && After(w, events).plane.machines[k] == w.plane.machines[k]
    decreases |events|
  {
    if events != [] {
      var next := Step(w, events[0]);
      ExclusiveStepIsSound(w, events[0]);
      ExclusiveStepMoves(w, events[0], k);
      if k in next.plane.machines {
        assert SameMachine(w.plane.machines[k], w.born[k]) && SameMachine(next.plane.machines[k], next.born[k]);
        StepIsFaithful(w, events[0]);
      }
      TerminalStatesAreFinal(next, events[1..], k);
    }
  }
}
