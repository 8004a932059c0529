/** Virtual machines bound to a node and its leases (src/virtual_machine.rs). */
module VirtualMachines {
  import opened Prelude
  import opened Strings
  import opened Identities
  import opened Resource
  import opened Nodes
  import opened Leases
  import opened Execution

  datatype VirtualMachineState = Created | Running | Stopped | Failed

  datatype VirtualMachineSpec = VirtualMachineSpec(resources: ResourceFragment, runtime: RuntimeSpec)

  datatype VirtualMachine = VirtualMachine(
    id: Identity,
    nodeId: Identity,
    spec: VirtualMachineSpec,
    leases: seq<Lease>,
    state: VirtualMachineState,
    createdAt: Instant)

  datatype VirtualMachineError =
    | InvalidVirtualMachineIdentity
    | InvalidLogicalNodeIdentity
    | InvalidVmResources
    | InvalidRuntime(node: NodeError)
    | EmptyResources
    | NodeMismatch
    | ResourceMismatch
    | RuntimeMismatch
    | InvalidVmLease
    | LeaseNodeMismatch
    | LeaseParticipantMismatch
    | LeaseResourceMismatch
    | LeaseExpired
    | ExecutionFailed(execution: ExecutionError)
    | NotRunning

  // What a backend answers when it is handed a plan and its workload.
  type Backend = (ExecutionPlan, WorkItem) -> Result<ExecutionReceipt, ExecutionError>

  function ValidateSpec(spec: VirtualMachineSpec): Option<VirtualMachineError> {
    if Resource.Validate(spec.resources).Some? then Some(InvalidVmResources)
    else
      match ValidateRuntime(spec.runtime)
      case Some(e) => Some(InvalidRuntime(e))
      case None => None
  }

  // Binding a machine to its leases

  function LeaseFault(node: LogicalNode, lease: Lease, createdAt: Instant): Option<VirtualMachineError> {
    if !lease.Valid() then Some(InvalidVmLease)
    else if lease.logicalNodeId != Identity(node.id, Kind.LogicalNode) then Some(LeaseNodeMismatch)
    else if !lease.ActiveAt(createdAt) then Some(LeaseExpired)
    else
      match AllocationFor(node.resources.allocations, lease.participantId.id)
      case None => Some(LeaseParticipantMismatch)
      case Some(allocation) =>
        if SameCapacity(allocation.resources, lease.resources) then None else Some(LeaseResourceMismatch)
  }

  function LeasesFault(node: LogicalNode, leases: seq<Lease>, createdAt: Instant): Option<VirtualMachineError> {
    if leases == [] then None
    else if LeaseFault(node, leases[0], createdAt).Some? then LeaseFault(node, leases[0], createdAt)
    else LeasesFault(node, leases[1..], createdAt)
  }

  predicate DistinctLeaseholders(leases: seq<Lease>) {
    forall i, j :: 0 <= i < j < |leases| ==> leases[i].participantId.id != leases[j].participantId.id
  }

  function Bound(node: LogicalNode, leases: seq<Lease>, createdAt: Instant, vmId: Text)
    : Result<VirtualMachine, VirtualMachineError>
  {
    var spec := VirtualMachineSpec(node.resources.capacity, node.runtime);
    if createdAt == UNIX_EPOCH then Err(InvalidVmResources)
    else if !Canonical(node.id) then Err(InvalidLogicalNodeIdentity)
    else if IsEmpty(node.resources.capacity) then Err(EmptyResources)
    else if ValidateSpec(spec).Some? then Err(ValidateSpec(spec).value)
    else if leases != [] && |leases| != |node.resources.allocations| then Err(InvalidVmLease)
    else if LeasesFault(node, leases, createdAt).Some? then Err(LeasesFault(node, leases, createdAt).value)
    else if !DistinctLeaseholders(leases) then Err(InvalidVmLease)
    else Ok(VirtualMachine.VirtualMachine(Identity(vmId, Kind.VirtualMachine), Identity(node.id, Kind.LogicalNode),
                           spec, leases, Created, createdAt))
  }

  lemma HolderCount(leases: seq<Lease>)
    ensures |set l <- leases :: l.participantId.id| == |leases| <==> DistinctLeaseholders(leases)
  {
    var holder := (l: Lease) => l.participantId.id;
    assert (set l <- leases :: l.participantId.id) == Keys(leases, holder);
    KeyCount(leases, holder);
  }

  /** The checking loop over leases; vmId is the fresh identifier it would draw for the machine. */
  method FromNodeWithLeases(node: LogicalNode, leases: seq<Lease>, createdAt: Instant, vmId: Text)
    returns (r: Result<VirtualMachine, VirtualMachineError>)
    ensures r == Bound(node, leases, createdAt, vmId)
  {
    if createdAt == UNIX_EPOCH {
      return Err(InvalidVmResources);
    }
    var nodeId := Parse(node.id, Kind.LogicalNode);
    if nodeId.None? {
      return Err(InvalidLogicalNodeIdentity);
    }
    var resources := node.resources.capacity;
    if IsEmpty(resources) {
      return Err(EmptyResources);
    }
    var spec := VirtualMachineSpec(resources, node.runtime);
    if ValidateSpec(spec).Some? {
      return Err(ValidateSpec(spec).value);
    }
    if leases != [] {
      if |leases| != |node.resources.allocations| {
        return Err(InvalidVmLease);
      }
      assert leases[0..] == leases;
      for i := 0 to |leases|
        invariant LeasesFault(node, leases, createdAt) == LeasesFault(node, leases[i..], createdAt)
      {
        var lease := leases[i];
        assert leases[i..][0] == lease && leases[i..][1..] == leases[i + 1..];
        if !lease.Valid() {
          return Err(InvalidVmLease);
        }
        if lease.logicalNodeId != nodeId.value {
          return Err(LeaseNodeMismatch);
        }
        if !lease.ActiveAt(createdAt) {
          return Err(LeaseExpired);
        }
        var allocation := AllocationFor(node.resources.allocations, lease.participantId.id);
        if allocation.None? {
          return Err(LeaseParticipantMismatch);
        }
        if !SameCapacity(allocation.value.resources, lease.resources) {
          return Err(LeaseResourceMismatch);
        }
      }
      var uniqueParticipants := set l <- leases :: l.participantId.id;
      HolderCount(leases);
      if |uniqueParticipants| != |leases| {
        return Err(InvalidVmLease);
      }
    }
    r := Ok(VirtualMachine.VirtualMachine(Identity(vmId, Kind.VirtualMachine), nodeId.value, spec, leases, Created, createdAt));
  }

  function BoundToLeases(node: LogicalNode, leases: seq<Lease>, createdAt: Instant, vmId: Text)
    : Result<VirtualMachine, VirtualMachineError>
  {
    if leases == [] then Err(InvalidVmLease) else Bound(node, leases, createdAt, vmId)
  }

  // Running a machine

  function ExecutionPlanOf(vm: VirtualMachine, node: LogicalNode, workload: WorkItem)
    : Result<ExecutionPlan, VirtualMachineError>
  {
    if !Canonical(node.id) then Err(InvalidLogicalNodeIdentity)
    else if Identity(node.id, Kind.LogicalNode) != vm.nodeId then Err(NodeMismatch)
    else if node.resources.capacity != vm.spec.resources then Err(ResourceMismatch)
    else if node.runtime != vm.spec.runtime then Err(RuntimeMismatch)
    else
      match PlanFor(node, workload)
      case Err(e) => Err(ExecutionFailed(e))
      case Ok(plan) => Ok(plan)
  }

  predicate AllActive(leases: seq<Lease>, now: Instant) {
    forall l <- leases :: l.ActiveAt(now)
  }

  /** The state a machine is left in by an execution, and what the execution returns. */
  function Executed(vm: VirtualMachine, node: LogicalNode, workload: WorkItem, backend: Backend, now: Instant)
    : (VirtualMachineState, Result<ExecutionReceipt, VirtualMachineError>)
  {
    if vm.state != Running then (vm.state, Err(NotRunning))
    else if !AllActive(vm.leases, now) then (vm.state, Err(LeaseExpired))
    else
      match ExecutionPlanOf(vm, node, workload)
      case Err(e) => (vm.state, Err(e))
      case Ok(plan) =>
        match backend(plan, workload)
        case Ok(receipt) => (vm.state, Ok(receipt))
        case Err(e) => (Failed, Err(ExecutionFailed(e)))
  }

  function Started(state: VirtualMachineState): Result<VirtualMachineState, VirtualMachineError> {
    if state == Created then Ok(Running) else Err(InvalidVirtualMachineIdentity)
  }

  function Halted(state: VirtualMachineState): Result<VirtualMachineState, VirtualMachineError> {
    if state == Running then Ok(Stopped) else Err(InvalidVirtualMachineIdentity)
  }

  /** What it takes for a machine to hand a workload to its backend. */
  predicate Ready(vm: VirtualMachine, node: LogicalNode, workload: WorkItem, now: Instant) {
    && vm.state == Running
    && (forall l <- vm.leases :: l.createdAt <= now < l.expiresAt)
    && Canonical(node.id) && vm.nodeId == Identity(node.id, Kind.LogicalNode)
    && node.resources.capacity == vm.spec.resources && node.runtime == vm.spec.runtime
    && PlanFor(node, workload).Ok?
  }

  /**
   A machine fails exactly when it was ready and its backend refused; nothing else changes its
   state, and what it answers says why.
   */
  lemma ExecutionOutcome(vm: VirtualMachine, node: LogicalNode, workload: WorkItem, backend: Backend, now: Instant)
    ensures var (state, r) := Executed(vm, node, workload, backend, now);
            if Ready(vm, node, workload, now) then
              match backend(PlanFor(node, workload).value, workload)
              case Ok(receipt) => state == Running && r == Ok(receipt)
              case Err(e) => state == Failed && r == Err(ExecutionFailed(e))
            else
              && state == vm.state && r.Err?
              && (vm.state != Running ==> r.error == NotRunning)
              && (vm.state == Running && (exists l <- vm.leases :: now < l.createdAt || l.expiresAt <= now) ==>
                    r.error == LeaseExpired)
              && (vm.state == Running && (forall l <- vm.leases :: l.createdAt <= now < l.expiresAt) ==>
                    if !Canonical(node.id) then r.error == InvalidLogicalNodeIdentity
                    else if vm.nodeId != Identity(node.id, Kind.LogicalNode) then r.error == NodeMismatch
                    else if node.resources.capacity != vm.spec.resources then r.error == ResourceMismatch
                    else if node.runtime != vm.spec.runtime then r.error == RuntimeMismatch
                    else r.error == ExecutionFailed(PlanFor(node, workload).error))
  {
    assert AllActive(vm.leases, now) <==> forall l <- vm.leases :: l.createdAt <= now < l.expiresAt;
  }

  /** Exclusive access to one machine: its methods change the state and nothing else. */
  class MachineRef {
    var vm: VirtualMachine

    constructor (vm: VirtualMachine)
      ensures this.vm == vm
    {
      this.vm := vm;
    }

    method Start() returns (r: Result<(), VirtualMachineError>)
      modifies this
      ensures r.Ok? <==> old(vm).state == Created
      ensures vm == if r.Ok? then old(vm).(state := Running) else old(vm)
      ensures r.Err? ==> r.error == InvalidVirtualMachineIdentity
    {
      if vm.state != Created {
        return Err(InvalidVirtualMachineIdentity);
      }
      vm := vm.(state := Running);
      r := Ok(());
    }

    method Stop() returns (r: Result<(), VirtualMachineError>)
      modifies this
      ensures r.Ok? <==> old(vm).state == Running
      ensures vm == if r.Ok? then old(vm).(state := Stopped) else old(vm)
      ensures r.Err? ==> r.error == InvalidVirtualMachineIdentity
    {
      if vm.state != Running {
        return Err(InvalidVirtualMachineIdentity);
      }
      vm := vm.(state := Stopped);
      r := Ok(());
    }

    method ExecuteAt(node: LogicalNode, workload: WorkItem, backend: Backend, now: Instant)
      returns (r: Result<ExecutionReceipt, VirtualMachineError>)
      modifies this
      ensures (vm.state, r) == Executed(old(vm), node, workload, backend, now)
      ensures vm == old(vm).(state := vm.state)
      ensures Ready(old(vm), node, workload, now) ==>
                match backend(PlanFor(node, workload).value, workload)
                case Ok(receipt) => vm == old(vm) && r == Ok(receipt)
                case Err(e) => vm == old(vm).(state := Failed) && r == Err(ExecutionFailed(e))
      ensures !Ready(old(vm), node, workload, now) ==> vm == old(vm) && r.Err?
    {
      ExecutionOutcome(vm, node, workload, backend, now);
      if vm.state != Running {
        return Err(NotRunning);
      }
      if exists l <- vm.leases :: !l.ActiveAt(now) {
        return Err(LeaseExpired);
      }
      var plan := ExecutionPlanOf(vm, node, workload);
      if plan.Err? {
        return Err(plan.error);
      }
      var answer := backend(plan.value, workload);
      if answer.Err? {
        vm := vm.(state := Failed);
        return Err(ExecutionFailed(answer.error));
      }
      r := Ok(answer.value);
    }
  }
}
