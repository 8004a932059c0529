/** What each operation of the control plane answers, and the plane it leaves, failures included. */
module ControlOutcomes {
  import opened Prelude
  import opened Strings
  import opened Identities
  import opened Resource
  import opened Nodes
  import opened Scheduler
  import opened SchedulerLaws
  import opened Leases
  import opened Execution
  import opened VirtualMachines
  import opened Control
  import opened ControlLaws
  import opened ControlRuns

  // Creation

  ghost predicate Timed(order: Order) {
    order.now != UNIX_EPOCH && order.duration != 0
  }

  /** The offers that last cover the requirement, and it is not for less time than the leases run. */
  ghost predicate Met(offers: seq<ResourceOffer>, order: Order) {
    Covers(offers, order.requirement) && LastsLongEnough(order.requirement.lifetime, order.duration)
  }

  /** Exactly which requests a creation refuses, with which of its six errors. */
  lemma CreationOutcome(s: PlaneState, offers: seq<ResourceOffer>, order: Order, ids: FreshIds)
    requires Fresh(s, offers, order, ids) && WellFormedOffers(offers) && CanonicalOffers(offers)
    ensures var r := LeasedMachine(s, offers, order, ids).1;
            if order.now == UNIX_EPOCH then r == Err(InvalidTime)
            else if order.duration == 0 then r == Err(InvalidLeaseDuration)
            else if !ValidRequirement(order.requirement) then r == Err(SchedulerFailed(InvalidRequirement))
            else if !Met(offers, order) then r == Err(SchedulerFailed(InsufficientResources))
            else if order.runtime.name == [] then r == Err(NodeFailed(EmptyRuntimeName))
            else if order.runtime.version == [] then r == Err(NodeFailed(EmptyRuntimeVersion))
            else r.Ok?
  {
    CreationSucceedsIff(s, offers, order, ids);
    LeaseBatchIff(s, offers, order, ids);
    PlanOutcome(order.requirement, offers, ids.node);
  }

  /** What a creation refuses for the shape of the offers, whatever else is wrong with them. */
  lemma IllFormedOffersAreRefused(s: PlaneState, offers: seq<ResourceOffer>, order: Order, ids: FreshIds)
    requires Timed(order) && ValidRequirement(order.requirement) && !WellFormedOffers(offers)
    ensures LeasedMachine(s, offers, order, ids) == (s, Err(SchedulerFailed(InvalidOffer)))
  {
    PlanOutcome(order.requirement, offers, ids.node);
  }

  lemma StoredThenUnstored(leases: map<Text, Lease>, batch: seq<Lease>)
    requires LeaseIds(batch) !! leases.Keys
    ensures Unstored(Stored(leases, batch), batch) == leases
  {
    StoredContents(leases, batch);
  }

  /** Whatever node and leases are to be bound: when that fails, the leases just stored are gone again. */
  lemma FailedBindingRollsBack(s: PlaneState, node: LogicalNode, batch: seq<Lease>, now: Instant, machineId: Text)
    requires LeaseIds(batch) !! s.leases.Keys && BoundToLeases(node, batch, now, machineId).Err?
    ensures Registered(s.(leases := Stored(s.leases, batch)), Ok((node, batch)), now, machineId)
            == (s, Err(VirtualMachineFailed(BoundToLeases(node, batch, now, machineId).error)))
  {
    StoredThenUnstored(s.leases, batch);
  }

  // Starting and stopping

  /** Only the one machine changes, to the state asked for, and it is the machine that is returned. */
  ghost predicate Turned(s: PlaneState, id: Identity, state: VirtualMachineState,
                         answer: (PlaneState, Result<VirtualMachine, ControlError>))
    requires id.id in s.machines
  {
    var (after, r) := answer;
    && r.Ok? && after.leases == s.leases && after.nodes == s.nodes
    && after.machines.Keys == s.machines.Keys
    && (forall k <- s.machines :: k != id.id ==> after.machines[k] == s.machines[k])
    && after.machines[id.id] == r.value == s.machines[id.id].(state := state)
  }

  lemma StartOutcome(s: PlaneState, id: Identity)
    ensures if id.id !in s.machines then StartedMachine(s, id) == (s, Err(VirtualMachineNotFound))
            else if s.machines[id.id].state == Created then Turned(s, id, Running, StartedMachine(s, id))
            else StartedMachine(s, id) == (s, Err(VirtualMachineFailed(InvalidVirtualMachineIdentity)))
  {
  }

  lemma StopOutcome(s: PlaneState, id: Identity)
    ensures if id.id !in s.machines then StoppedMachine(s, id) == (s, Err(VirtualMachineNotFound))
            else if s.machines[id.id].state == Running then Turned(s, id, Stopped, StoppedMachine(s, id))
            else StoppedMachine(s, id) == (s, Err(VirtualMachineFailed(InvalidVirtualMachineIdentity)))
  {
  }

  // Releasing and destroying

  /** A batch is released up to the first lease that is not there any more, and no further. */
  lemma {:induction false} ReleaseStopsAt(leases: map<Text, Lease>, batch: seq<Lease>) returns (k: nat)
    ensures k <= |batch|
    ensures Released(leases, batch).0 == leases - LeaseIds(batch[..k])
    ensures forall i :: 0 <= i < k ==> Releasable(leases - LeaseIds(batch[..i]), batch[i])
    ensures k < |batch| ==> !Releasable(leases - LeaseIds(batch[..k]), batch[k])
    ensures Released(leases, batch).1 == if k < |batch| then Err(LeaseNotFound) else Ok(())
    decreases |batch|
  {
    if batch == [] || !Releasable(leases, batch[0]) {
      k := 0;
      assert leases - LeaseIds(batch[..0]) == leases;
    } else {
      var rest := batch[1..];
      var left := leases - {batch[0].id.id};
      var more := ReleaseStopsAt(left, rest);
      k := more + 1;
      forall i | 0 < i <= |batch| ensures leases - LeaseIds(batch[..i]) == left - LeaseIds(rest[..i - 1]) {
        assert batch[..i] == [batch[0]] + rest[..i - 1];
      }
      assert leases - LeaseIds(batch[..0]) == leases;
    }
  }

  /** Destroying any machine of any plane: it always goes; its node goes only after all its leases. */
  lemma DestroyOutcome(s: PlaneState, id: Identity)
    ensures id.id !in s.machines ==> DestroyedMachine(s, id) == (s, Err(VirtualMachineNotFound))
    ensures id.id in s.machines ==>
              var vm := s.machines[id.id];
              var (after, r) := DestroyedMachine(s, id);
              && after.machines == s.machines - {id.id}
              && (r == Ok(vm) <==> DistinctIds(vm.leases) && forall l <- vm.leases :: Releasable(s.leases, l))
              && (r.Ok? ==> after.leases == s.leases - LeaseIds(vm.leases) && after.nodes == s.nodes - {vm.nodeId.id})
              && (r.Err? ==> r.error == LeaseNotFound && after.nodes == s.nodes && after.leases.Keys <= s.leases.Keys)
  {
    if id.id in s.machines {
      ReleasedIff(s.leases, s.machines[id.id].leases);
      var k := ReleaseStopsAt(s.leases, s.machines[id.id].leases);
    }
  }

  // Executing

  /** A write-back stores the machine that was taken, failed if it was ready and its backend refused. */
  lemma WriteBackOutcome(s: PlaneState, taken: Snapshot, workload: WorkItem, backend: Backend, now: Instant)
    ensures var (after, r) := WriteBack(s, taken, workload, backend, now);
            var refused := Ready(taken.vm, taken.node, workload, now)
                           && backend(PlanFor(taken.node, workload).value, workload).Err?;
            && after.leases == s.leases && after.nodes == s.nodes
            && after.machines
               == s.machines[taken.vm.id.id := taken.vm.(state := if refused then Failed else taken.vm.state)]
            && (r.Ok? <==> Ready(taken.vm, taken.node, workload, now) && !refused)
            && (r.Err? ==> r.error.VirtualMachineFailed?)
  {
    ExecutionOutcome(taken.vm, taken.node, workload, backend, now);
  }

  /**
   In a consistent plane: a machine is handed to its backend exactly when it is running, its
   leases are active and the workload is named; it fails exactly when the backend then refuses;
   and nothing else in the plane ever changes.
   */
  lemma PlaneExecutionOutcome(s: PlaneState, id: Identity, workload: WorkItem, backend: Backend, now: Instant)
    requires Consistent(s)
    ensures id.id !in s.machines ==>
              ExecutedMachine(s, id, workload, backend, now) == (s, Err(VirtualMachineNotFound))
    ensures id.id in s.machines ==>
              var vm := s.machines[id.id];
              vm.nodeId.id in s.nodes &&
              var plan := PlanFor(s.nodes[vm.nodeId.id], workload);
              var (after, r) := ExecutedMachine(s, id, workload, backend, now);
              if vm.state != Running then after == s && r == Err(VirtualMachineFailed(NotRunning))
              else if exists l <- vm.leases :: now < l.createdAt || l.expiresAt <= now then
                after == s && r == Err(VirtualMachineFailed(LeaseExpired))
              else if workload.id == [] then
                after == s && r == Err(VirtualMachineFailed(ExecutionFailed(EmptyWorkloadId)))
              else
                plan.Ok? &&
                match backend(plan.value, workload)
                case Ok(receipt) => after == s && r == Ok(receipt)
                case Err(e) => after == WithState(s, id.id, Failed) && r == Err(VirtualMachineFailed(ExecutionFailed(e)))
  {
    if id.id in s.machines {
      assert InPlace(s, id.id);
      RegisteredExecution(s, id, workload, backend, now);
    }
  }

  lemma RegisteredExecution(s: PlaneState, id: Identity, workload: WorkItem, backend: Backend, now: Instant)
    requires InPlace(s, id.id) && Plannable(s.nodes[s.machines[id.id].nodeId.id])
    ensures var vm := s.machines[id.id];
            var plan := PlanFor(s.nodes[vm.nodeId.id], workload);
            var (after, r) := ExecutedMachine(s, id, workload, backend, now);
            if vm.state != Running then after == s && r == Err(VirtualMachineFailed(NotRunning))
            else if exists l <- vm.leases :: now < l.createdAt || l.expiresAt <= now then
              after == s && r == Err(VirtualMachineFailed(LeaseExpired))
            else if workload.id == [] then
              after == s && r == Err(VirtualMachineFailed(ExecutionFailed(EmptyWorkloadId)))
            else
              plan.Ok? &&
              match backend(plan.value, workload)
              case Ok(receipt) => after == s && r == Ok(receipt)
              case Err(e) => after == WithState(s, id.id, Failed) && r == Err(VirtualMachineFailed(ExecutionFailed(e)))
  {
    var vm := s.machines[id.id];
    var node := s.nodes[vm.nodeId.id];
    ExecutionOutcome(vm, node, workload, backend, now);
    PlanPreservesDistribution(node, workload);
    PlanningOutcome(node, workload);
    assert s == WithState(s, id.id, vm.state);
  }
}
