/**
 The control plane (src/control.rs): three maps, and operations that keep them in step.

 Each operation is stated as a function on the plane's state; the Plane class performs it
 step by step on its fields and is proved to do exactly that. Fresh identifiers, the wall
 clock and the execution backend are parameters.
 */
module Control {
  import opened Prelude
  import opened Strings
  import opened Identities
  import opened Resource
  import opened Nodes
  import opened Scheduler
  import Participants
  import opened Leases
  import opened Execution
  import opened VirtualMachines

  datatype ControlError =
    | InvalidTime
    | InvalidLeaseDuration
    | LeaseNotFound
    | VirtualMachineNotFound
    | SchedulerFailed(scheduler: SchedulerError)
    | NodeFailed(node: NodeError)
    | VirtualMachineFailed(machine: VirtualMachineError)

  datatype PlaneState = PlaneState(
    leases: map<Text, Lease>,
    machines: map<Text, VirtualMachine>,
    nodes: map<Text, LogicalNode>)

  /** A request for a leased machine, with the time it is made at. */
  datatype Order = Order(requirement: ResourceFragment, runtime: RuntimeSpec, now: Instant, duration: Duration)

  /** The identifiers an operation would draw: one node, one machine, and as many leases as it needs. */
  datatype FreshIds = FreshIds(node: Text, lease: nat -> Text, machine: Text)

  // Leasing

  function LeaseFor(allocation: Allocation, leaseId: Text, nodeId: Text, now: Instant, duration: Duration)
    : Result<Lease, ControlError>
  {
    var resources :=
      if allocation.resources.lifetime.None? || allocation.resources.lifetime.value > duration
      then allocation.resources.(lifetime := Some(duration))
      else allocation.resources;
    if !Canonical(allocation.participantId) then Err(SchedulerFailed(InsufficientResources))
    else
      match Leases.New(Identity(leaseId, Kind.Lease), Identity(nodeId, Kind.LogicalNode),
                       Identity(allocation.participantId, Kind.Participant), resources, now, now + duration)
      case Err(_) => Err(SchedulerFailed(InsufficientResources))
      case Ok(lease) => Ok(lease)
  }

  /** The leases for the first n allocations, or the first failure among them. */
  function LeasesFor(node: LogicalNode, n: nat, leaseId: nat -> Text, now: Instant, duration: Duration)
    : (r: Result<seq<Lease>, ControlError>)
    requires n <= |node.resources.allocations|
    ensures r.Ok? ==> |r.value| == n
    ensures r.Err? ==> r.error == SchedulerFailed(InsufficientResources)
  {
    if n == 0 then Ok([])
    else
      match LeasesFor(node, n - 1, leaseId, now, duration)
      case Err(e) => Err(e)
      case Ok(made) =>
        match LeaseFor(node.resources.allocations[n - 1], leaseId(n - 1), node.id, now, duration)
        case Err(e) => Err(e)
        case Ok(lease) => Ok(made + [lease])
  }

  function Stored(leases: map<Text, Lease>, batch: seq<Lease>): map<Text, Lease> {
    if batch == [] then leases
    else
      var last := |batch| - 1;
      Stored(leases, batch[..last])[batch[last].id.id := batch[last]]
  }

  type Leased = Result<(LogicalNode, seq<Lease>), ControlError>

  /** The planned node and one lease per allocation, before anything is stored. */
  function LeaseBatch(offers: seq<ResourceOffer>, order: Order, ids: FreshIds): Leased {
    if order.now == UNIX_EPOCH then Err(InvalidTime)
    else if order.duration == 0 then Err(InvalidLeaseDuration)
    else
      match PlanOf(order.requirement, offers, ids.node)
      case Err(e) => Err(SchedulerFailed(e))
      case Ok(node) => LeasesOf(node, order, ids)
  }

  function LeasesOf(node: LogicalNode, order: Order, ids: FreshIds): Leased {
    if !Canonical(node.id) then Err(SchedulerFailed(InsufficientResources))
    else
      match LeasesFor(node, |node.resources.allocations|, ids.lease, order.now, order.duration)
      case Err(e) => Err(e)
      case Ok(batch) => Ok((node, batch))
  }

  function LeasedNode(s: PlaneState, offers: seq<ResourceOffer>, order: Order, ids: FreshIds): (PlaneState, Leased) {
    match LeaseBatch(offers, order, ids)
    case Err(e) => (s, Err(e))
    case Ok((node, batch)) => (s.(leases := Stored(s.leases, batch)), Ok((node, batch)))
  }

  function Attached(leased: Leased, runtime: RuntimeSpec): Leased {
    match leased
    case Err(e) => Err(e)
    case Ok((node, batch)) =>
      match WithRuntime(node, runtime)
      case Err(e) => Err(NodeFailed(e))
      case Ok(bound) => Ok((bound, batch))
  }

  /** The runtime is checked only now, after the leases are stored. */
  function LeasedNodeWithRuntime(s: PlaneState, offers: seq<ResourceOffer>, order: Order, ids: FreshIds)
    : (PlaneState, Leased)
  {
    var (after, leased) := LeasedNode(s, offers, order, ids);
    (after, Attached(leased, order.runtime))
  }

  function LeaseIds(batch: seq<Lease>): set<Text> {
    set l <- batch :: l.id.id
  }

  function Unstored(leases: map<Text, Lease>, batch: seq<Lease>): map<Text, Lease> {
    leases - LeaseIds(batch)
  }

  /** Binding the machine: it is registered with its node, or its leases are rolled back. */
  function Registered(s: PlaneState, leased: Leased, now: Instant, machineId: Text)
    : (PlaneState, Result<(VirtualMachine, seq<Lease>), ControlError>)
  {
    match leased
    case Err(e) => (s, Err(e))
    case Ok((node, batch)) =>
      match BoundToLeases(node, batch, now, machineId)
      case Ok(vm) => (s.(nodes := s.nodes[node.id := node], machines := s.machines[vm.id.id := vm]), Ok((vm, batch)))
      case Err(e) => (s.(leases := Unstored(s.leases, batch)), Err(VirtualMachineFailed(e)))
  }

  function LeasedMachine(s: PlaneState, offers: seq<ResourceOffer>, order: Order, ids: FreshIds)
    : (PlaneState, Result<(VirtualMachine, seq<Lease>), ControlError>)
  {
    var (after, leased) := LeasedNodeWithRuntime(s, offers, order, ids);
    Registered(after, leased, order.now, ids.machine)
  }

  // Owned machines

  function StartedMachine(s: PlaneState, id: Identity): (PlaneState, Result<VirtualMachine, ControlError>) {
    if id.id !in s.machines then (s, Err(VirtualMachineNotFound))
    else
      match Started(s.machines[id.id].state)
      case Err(e) => (s, Err(VirtualMachineFailed(e)))
      case Ok(state) =>
        var vm := s.machines[id.id].(state := state);
        (s.(machines := s.machines[id.id := vm]), Ok(vm))
  }

  function StoppedMachine(s: PlaneState, id: Identity): (PlaneState, Result<VirtualMachine, ControlError>) {
    if id.id !in s.machines then (s, Err(VirtualMachineNotFound))
    else
      match Halted(s.machines[id.id].state)
      case Err(e) => (s, Err(VirtualMachineFailed(e)))
      case Ok(state) =>
        var vm := s.machines[id.id].(state := state);
        (s.(machines := s.machines[id.id := vm]), Ok(vm))
  }

  predicate Releasable(leases: map<Text, Lease>, lease: Lease) {
    lease.id.Names(Kind.Lease) && lease.id.id in leases
  }

  /** Releasing a batch stops at the first lease that is not there; the earlier ones stay released. */
  function Released(leases: map<Text, Lease>, batch: seq<Lease>): (map<Text, Lease>, Result<(), ControlError>)
    decreases |batch|
  {
    if batch == [] then (leases, Ok(()))
    else if !Releasable(leases, batch[0]) then (leases, Err(LeaseNotFound))
    else Released(leases - {batch[0].id.id}, batch[1..])
  }

  function DestroyedMachine(s: PlaneState, id: Identity): (PlaneState, Result<VirtualMachine, ControlError>) {
    if id.id !in s.machines then (s, Err(VirtualMachineNotFound))
    else
      var vm := s.machines[id.id];
      var removed := s.(machines := s.machines - {id.id});
      match Released(s.leases, vm.leases)
      case (left, Err(e)) => (removed.(leases := left), Err(e))
      case (left, Ok(_)) => (removed.(leases := left, nodes := s.nodes - {vm.nodeId.id}), Ok(vm))
  }

  // What execution reads under the locks before it runs the backend without them.
  datatype Snapshot = Snapshot(vm: VirtualMachine, node: LogicalNode)

  function TakeSnapshot(s: PlaneState, id: Identity): Option<Snapshot> {
    if id.id in s.machines && s.machines[id.id].nodeId.id in s.nodes
    then Some(Snapshot(s.machines[id.id], s.nodes[s.machines[id.id].nodeId.id]))
    else None
  }

  function WriteBack(s: PlaneState, taken: Snapshot, workload: WorkItem, backend: Backend, now: Instant)
    : (PlaneState, Result<ExecutionReceipt, ControlError>)
  {
    var (state, result) := Executed(taken.vm, taken.node, workload, backend, now);
    var after := s.(machines := s.machines[taken.vm.id.id := taken.vm.(state := state)]);
    match result
    case Ok(receipt) => (after, Ok(receipt))
    case Err(e) => (after, Err(VirtualMachineFailed(e)))
  }

  /** Execution with nothing else running in between. */
  function ExecutedMachine(s: PlaneState, id: Identity, workload: WorkItem, backend: Backend, now: Instant)
    : (PlaneState, Result<ExecutionReceipt, ControlError>)
  {
    match TakeSnapshot(s, id)
    case None => (s, Err(VirtualMachineNotFound))
    case Some(taken) => WriteBack(s, taken, workload, backend, now)
  }

  class Plane {
    const registry: Participants.Registry
    var leases: map<Text, Lease>
    var machines: map<Text, VirtualMachine>
    var nodes: map<Text, LogicalNode>

    function State(): PlaneState
      reads this
    {
      PlaneState(leases, machines, nodes)
    }

    constructor (registry: Participants.Registry)
      ensures this.registry == registry && State() == PlaneState(map[], map[], map[])
    {
      this.registry := registry;
      leases, machines, nodes := map[], map[], map[];
    }

    method PlanAndLease(order: Order, ids: FreshIds) returns (r: Leased)
      ensures r == LeaseBatch(registry.Offers(), order, ids)
    {
      if order.now == UNIX_EPOCH {
        return Err(InvalidTime);
      }
      if order.duration == 0 {
        return Err(InvalidLeaseDuration);
      }
      var offers := registry.Offers();
      var planned := Plan(order.requirement, offers, ids.node);
      if planned.Err? {
        return Err(SchedulerFailed(planned.error));
      }
      r := LeaseAllocations(planned.value, order, ids);
    }

    method CreateLeasedLogicalNode(order: Order, ids: FreshIds) returns (r: Leased)
      modifies this`leases
      ensures (State(), r) == LeasedNode(old(State()), registry.Offers(), order, ids)
    {
      r := PlanAndLease(order, ids);
      if r.Ok? {
        StoreLeases(r.value.1);
      }
    }

    static method LeaseAllocations(node: LogicalNode, order: Order, ids: FreshIds) returns (r: Leased)
      ensures r == LeasesOf(node, order, ids)
    {
      if Parse(node.id, Kind.LogicalNode).None? {
        return Err(SchedulerFailed(InsufficientResources));
      }
      var allocations := node.resources.allocations;
      var made: seq<Lease> := [];
      for i := 0 to |allocations|
        invariant LeasesFor(node, i, ids.lease, order.now, order.duration) == Ok(made)
      {
        var lease := LeaseFor(allocations[i], ids.lease(i), node.id, order.now, order.duration);
        if lease.Err? {
          FailureStays(node, i + 1, |allocations|, ids.lease, order.now, order.duration);
          return Err(lease.error);
        }
        made := made + [lease.value];
      }
      r := Ok((node, made));
    }

    method StoreLeases(batch: seq<Lease>)
      modifies this`leases
      ensures leases == Stored(old(leases), batch)
    {
      for i := 0 to |batch|
        invariant leases == Stored(old(leases), batch[..i])
      {
        leases := leases[batch[i].id.id := batch[i]];
        assert batch[..i + 1][..i] == batch[..i];
      }
      assert batch[..|batch|] == batch;
    }

    method RemoveLeases(batch: seq<Lease>)
      modifies this`leases
      ensures leases == Unstored(old(leases), batch)
    {
      for i := 0 to |batch|
        invariant leases == Unstored(old(leases), batch[..i])
      {
        leases := leases - {batch[i].id.id};
        assert batch[..i + 1] == batch[..i] + [batch[i]];
      }
      assert batch[..|batch|] == batch;
    }

    method CreateLeasedLogicalNodeWithRuntime(order: Order, ids: FreshIds) returns (r: Leased)
      modifies this`leases
      ensures (State(), r) == LeasedNodeWithRuntime(old(State()), registry.Offers(), order, ids)
    {
      var leased := CreateLeasedLogicalNode(order, ids);
      if leased.Err? {
        return Err(leased.error);
      }
      var bound := WithRuntime(leased.value.0, order.runtime);
      r := if bound.Ok? then Ok((bound.value, leased.value.1)) else Err(NodeFailed(bound.error));
    }

    method RegisterMachine(leased: Leased, now: Instant, machineId: Text)
      returns (r: Result<(VirtualMachine, seq<Lease>), ControlError>)
      modifies this
      ensures (State(), r) == Registered(old(State()), leased, now, machineId)
    {
      if leased.Err? {
        return Err(leased.error);
      }
      var (node, batch) := leased.value;
      var bound: Result<VirtualMachine, VirtualMachineError> := Err(InvalidVmLease);
      if batch != [] {
        bound := FromNodeWithLeases(node, batch, now, machineId);
      }
      if bound.Err? {
        RemoveLeases(batch);
        return Err(VirtualMachineFailed(bound.error));
      }
      nodes := nodes[node.id := node];
      machines := machines[bound.value.id.id := bound.value];
      r := Ok((bound.value, batch));
    }

    method CreateLeasedVirtualMachine(order: Order, ids: FreshIds)
      returns (r: Result<(VirtualMachine, seq<Lease>), ControlError>)
      modifies this
      ensures (State(), r) == LeasedMachine(old(State()), registry.Offers(), order, ids)
    {
      var leased := CreateLeasedLogicalNodeWithRuntime(order, ids);
      r := RegisterMachine(leased, order.now, ids.machine);
    }

    method StartVirtualMachine(id: Identity) returns (r: Result<VirtualMachine, ControlError>)
      modifies this`machines
      ensures (State(), r) == StartedMachine(old(State()), id)
    {
      if id.id !in machines {
        return Err(VirtualMachineNotFound);
      }
      var entry := new MachineRef(machines[id.id]);
      var started := entry.Start();
      if started.Err? {
        return Err(VirtualMachineFailed(started.error));
      }
      machines := machines[id.id := entry.vm];
      r := Ok(entry.vm);
    }

    method StopVirtualMachine(id: Identity) returns (r: Result<VirtualMachine, ControlError>)
      modifies this`machines
      ensures (State(), r) == StoppedMachine(old(State()), id)
    {
      if id.id !in machines {
        return Err(VirtualMachineNotFound);
      }
      var entry := new MachineRef(machines[id.id]);
      var stopped := entry.Stop();
      if stopped.Err? {
        return Err(VirtualMachineFailed(stopped.error));
      }
      machines := machines[id.id := entry.vm];
      r := Ok(entry.vm);
    }

    method ReleaseLease(id: Identity) returns (r: Result<Lease, ControlError>)
      modifies this`leases
      ensures r.Ok? <==> id.Names(Kind.Lease) && id.id in old(leases)
      ensures r == if r.Ok? then Ok(old(leases)[id.id]) else Err(LeaseNotFound)
      ensures leases == if r.Ok? then old(leases) - {id.id} else old(leases)
    {
      if !id.Names(Kind.Lease) || id.id !in leases {
        return Err(LeaseNotFound);
      }
      r := Ok(leases[id.id]);
      leases := leases - {id.id};
    }

    method ReleaseLeases(batch: seq<Lease>) returns (r: Result<(), ControlError>)
      modifies this`leases
      ensures (leases, r) == Released(old(leases), batch)
    {
      assert batch[0..] == batch;
      for i := 0 to |batch|
        invariant Released(old(leases), batch) == Released(leases, batch[i..])
      {
        assert batch[i..][0] == batch[i] && batch[i..][1..] == batch[i + 1..];
        var released := ReleaseLease(batch[i].id);
        if released.Err? {
          return Err(released.error);
        }
      }
      r := Ok(());
    }

    method DestroyVirtualMachine(id: Identity) returns (r: Result<VirtualMachine, ControlError>)
      modifies this
      ensures (State(), r) == DestroyedMachine(old(State()), id)
    {
      if id.id !in machines {
        return Err(VirtualMachineNotFound);
      }
      var vm := machines[id.id];
      machines := machines - {id.id};
      if vm.leases != [] {
        var released := ReleaseLeases(vm.leases);
        if released.Err? {
          return Err(released.error);
        }
      }
      nodes := nodes - {vm.nodeId.id};
      r := Ok(vm);
    }

    method ExecuteVirtualMachine(id: Identity, workload: WorkItem, backend: Backend, now: Instant)
      returns (r: Result<ExecutionReceipt, ControlError>)
      modifies this`machines
      ensures (State(), r) == ExecutedMachine(old(State()), id, workload, backend, now)
    {
      var taken := TakeSnapshot(State(), id);
      if taken.None? {
        return Err(VirtualMachineNotFound);
      }
      var entry := new MachineRef(taken.value.vm);
      var result := entry.ExecuteAt(taken.value.node, workload, backend, now);
      machines := machines[entry.vm.id.id := entry.vm];
      r := if result.Ok? then Ok(result.value) else Err(VirtualMachineFailed(result.error));
    }
  }

  lemma {:induction false} FailureStays(
    node: LogicalNode, i: nat, n: nat, leaseId: nat -> Text, now: Instant, duration: Duration)
    requires i <= n <= |node.resources.allocations|
    requires LeasesFor(node, i, leaseId, now, duration).Err?
    ensures LeasesFor(node, n, leaseId, now, duration) == LeasesFor(node, i, leaseId, now, duration)
    decreases n
  {
    if i < n {
      FailureStays(node, i, n - 1, leaseId, now, duration);
    }
  }
}
