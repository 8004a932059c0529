/** What every serial run of the control plane keeps true between its three maps. */
module ControlRuns {
  import opened Prelude
  import opened Strings
  import opened Identities
  import opened Resource
  import opened Nodes
  import opened Scheduler
  import opened Leases
  import opened Execution
  import opened VirtualMachines
  import opened Control
  import opened ControlLaws

  // What holds between the three maps

  predicate DistinctIds(batch: seq<Lease>) {
    forall i, j :: 0 <= i < j < |batch| ==> batch[i].id.id != batch[j].id.id
  }

  /** Every lease of the machine is stored, under its own id, for the machine's own node. */
  ghost predicate HoldsLeases(leases: map<Text, Lease>, vm: VirtualMachine) {
    && DistinctIds(vm.leases)
    && (forall l <- vm.leases :: l.logicalNodeId == vm.nodeId && l.id.id in leases && leases[l.id.id] == l)
  }

  /** The machine is registered under its own id, with its leases and a matching node. */
  ghost predicate InPlace(s: PlaneState, k: Text) {
    && k in s.machines
    && var vm := s.machines[k];
    && vm.id == Identity(k, Kind.VirtualMachine)
    && HoldsLeases(s.leases, vm)
    && vm.nodeId.id in s.nodes
    && var node := s.nodes[vm.nodeId.id];
    && Identity(node.id, Kind.LogicalNode) == vm.nodeId
    && node.resources.capacity == vm.spec.resources
    && node.runtime == vm.spec.runtime
  }

  /** The machine a stored lease belongs to. */
  ghost predicate LeasedTo(s: PlaneState, lease: Text, k: Text) {
    && lease in s.leases && s.leases[lease].id.id == lease
    && k in s.machines && s.leases[lease] in s.machines[k].leases
  }

  ghost predicate UsedBy(s: PlaneState, node: Text, k: Text) {
    k in s.machines && s.machines[k].nodeId.id == node
  }

  ghost predicate AllInPlace(s: PlaneState) {
    forall k <- s.machines :: InPlace(s, k)
  }

  ghost predicate LeasesOwned(s: PlaneState) {
    forall lease <- s.leases :: exists k :: LeasedTo(s, lease, k)
  }

  /** Every node serves a machine, and only one. */
  ghost predicate NodesPaired(s: PlaneState) {
    && (forall node <- s.nodes :: exists k :: UsedBy(s, node, k))
    && (forall node, k, j :: UsedBy(s, node, k) && UsedBy(s, node, j) ==> k == j)
  }

  ghost predicate Linked(s: PlaneState) {
    AllInPlace(s) && LeasesOwned(s) && NodesPaired(s)
  }

  /** The node can be planned on: its composite validates, its identifiers parse, its runtime is named. */
  ghost predicate Plannable(node: LogicalNode) {
    && Canonical(node.id)
    && ValidateComposite(node.resources).None? && ValidateRuntime(node.runtime).None?
    && (forall a <- node.resources.allocations :: Canonical(a.participantId))
  }

  ghost predicate Consistent(s: PlaneState) {
    && Linked(s)
    && (forall k <- s.leases :: s.leases[k].Valid())
    && (forall n <- s.nodes :: Plannable(s.nodes[n]))
  }

  /** The stored leases are the disjoint union of the machines' leases. */
  lemma LeasesAreDisjointUnion(s: PlaneState)
    requires Linked(s)
    ensures forall k <- s.machines :: LeaseIds(s.machines[k].leases) <= s.leases.Keys
    ensures forall k <- s.machines, j <- s.machines :: k != j ==>
              LeaseIds(s.machines[k].leases) !! LeaseIds(s.machines[j].leases)
    ensures forall lease <- s.leases :: exists k <- s.machines :: lease in LeaseIds(s.machines[k].leases)
  {
    forall k <- s.machines ensures LeaseIds(s.machines[k].leases) <= s.leases.Keys {
      assert InPlace(s, k);
    }
    forall k, j, lease | k in s.machines && j in s.machines
                         && lease in LeaseIds(s.machines[k].leases) && lease in LeaseIds(s.machines[j].leases)
      ensures k == j
    {
      assert InPlace(s, k) && InPlace(s, j);
      assert UsedBy(s, s.machines[k].nodeId.id, k) && UsedBy(s, s.machines[j].nodeId.id, j);
      assert s.leases[lease].logicalNodeId == s.machines[k].nodeId == s.machines[j].nodeId;
    }
    forall lease <- s.leases ensures exists k <- s.machines :: lease in LeaseIds(s.machines[k].leases) {
      var k :| LeasedTo(s, lease, k);
    }
  }

  function WithState(s: PlaneState, k: Text, state: VirtualMachineState): PlaneState
    requires k in s.machines
  {
    s.(machines := s.machines[k := s.machines[k].(state := state)])
  }

  /** Two versions of a machine that differ at most in their state. */
  predicate SameMachine(a: VirtualMachine, b: VirtualMachine) {
    a.(state := b.state) == b
  }

  /** A machine stays registered while its own leases and node are left alone. */
  lemma InPlaceFrame(s: PlaneState, after: PlaneState, k: Text)
    requires InPlace(s, k) && k in after.machines
    requires SameMachine(s.machines[k], after.machines[k])
    requires forall l <- s.machines[k].leases :: l.id.id in after.leases && after.leases[l.id.id] == s.leases[l.id.id]
    requires var node := s.machines[k].nodeId.id; node in after.nodes && after.nodes[node] == s.nodes[node]
    ensures InPlace(after, k)
  {
    assert after.machines[k] == s.machines[k].(state := after.machines[k].state);
  }

  lemma StateChangeKeepsLinked(s: PlaneState, k: Text, state: VirtualMachineState)
    requires Linked(s) && k in s.machines
    ensures Linked(WithState(s, k, state))
  {
    var after := WithState(s, k, state);
    forall m <- after.machines ensures InPlace(after, m) {
      assert InPlace(s, m);
      InPlaceFrame(s, after, m);
    }
    forall node, m ensures UsedBy(after, node, m) <==> UsedBy(s, node, m) {
    }
    forall lease <- after.leases ensures exists m :: LeasedTo(after, lease, m) {
      var m :| LeasedTo(s, lease, m);
      assert LeasedTo(after, lease, m);
    }
  }

  /** What registering a machine with its node and leases changes. */
  ghost predicate Added(s: PlaneState, after: PlaneState, node: LogicalNode, vm: VirtualMachine) {
    && vm.id.id !in s.machines && after.machines == s.machines[vm.id.id := vm]
    && node.id !in s.nodes && after.nodes == s.nodes[node.id := node]
    && LeaseIds(vm.leases) !! s.leases.Keys && after.leases.Keys == s.leases.Keys + LeaseIds(vm.leases)
    && (forall lease <- s.leases :: after.leases[lease] == s.leases[lease])
  }

  lemma AddingKeepsRegistered(s: PlaneState, after: PlaneState, node: LogicalNode, vm: VirtualMachine)
    requires AllInPlace(s) && Added(s, after, node, vm) && InPlace(after, vm.id.id)
    ensures AllInPlace(after)
  {
    forall m <- after.machines ensures InPlace(after, m) {
      if m in s.machines {
        assert InPlace(s, m);
        InPlaceFrame(s, after, m);
      }
    }
  }

  lemma AddingKeepsPairing(s: PlaneState, after: PlaneState, node: LogicalNode, vm: VirtualMachine)
    requires AllInPlace(s) && NodesPaired(s) && Added(s, after, node, vm) && vm.nodeId.id == node.id
    ensures NodesPaired(after)
  {
    forall m ensures !UsedBy(s, node.id, m) {
      assert m in s.machines ==> InPlace(s, m);
    }
    forall n, m ensures UsedBy(after, n, m) <==> UsedBy(s, n, m) || (n == node.id && m == vm.id.id) {
    }
    forall n <- after.nodes ensures exists m :: UsedBy(after, n, m) {
      assert UsedBy(after, node.id, vm.id.id);
    }
  }

  lemma AddingKeepsOwners(s: PlaneState, after: PlaneState, node: LogicalNode, vm: VirtualMachine)
    requires LeasesOwned(s) && Added(s, after, node, vm) && HoldsLeases(after.leases, vm)
    ensures LeasesOwned(after)
  {
    forall lease <- after.leases ensures exists m :: LeasedTo(after, lease, m) {
      if lease in s.leases {
        var m :| LeasedTo(s, lease, m);
        assert LeasedTo(after, lease, m);
      } else {
        var l :| l in vm.leases && l.id.id == lease;
        assert LeasedTo(after, lease, vm.id.id);
      }
    }
  }

  function CreatedNode(offers: seq<ResourceOffer>, order: Order, ids: FreshIds): LogicalNode
    requires Attached(LeaseBatch(offers, order, ids), order.runtime).Ok?
  {
    Attached(LeaseBatch(offers, order, ids), order.runtime).value.0
  }

  function CreatedLeases(offers: seq<ResourceOffer>, order: Order, ids: FreshIds): seq<Lease>
    requires Attached(LeaseBatch(offers, order, ids), order.runtime).Ok?
  {
    Attached(LeaseBatch(offers, order, ids), order.runtime).value.1
  }

  /** The whole effect of a successful creation. */
  lemma CreatedMachine(s: PlaneState, offers: seq<ResourceOffer>, order: Order, ids: FreshIds)
    requires Fresh(s, offers, order, ids) && LeasedMachine(s, offers, order, ids).1.Ok?
    ensures var node := CreatedNode(offers, order, ids);
            var batch := CreatedLeases(offers, order, ids);
            var vm := VirtualMachine.VirtualMachine(
                        Identity(ids.machine, Kind.VirtualMachine), Identity(ids.node, Kind.LogicalNode),
                        VirtualMachineSpec(order.requirement, order.runtime), batch, Created, order.now);
            && node.id == ids.node && node.resources.capacity == order.requirement && node.runtime == order.runtime
            && LeasedMachine(s, offers, order, ids)
               == (PlaneState(Stored(s.leases, batch), s.machines[ids.machine := vm], s.nodes[ids.node := node]),
                   Ok((vm, batch)))
  {
    BindingSucceeds(s, offers, order, ids);
    LeaseBatchShape(s, offers, order, ids);
    PlannedNode(offers, order, ids);
  }

  lemma CreatedNodeIsPlannable(s: PlaneState, offers: seq<ResourceOffer>, order: Order, ids: FreshIds)
    requires Fresh(s, offers, order, ids) && LeasedMachine(s, offers, order, ids).1.Ok?
    ensures Plannable(CreatedNode(offers, order, ids))
    ensures forall l <- CreatedLeases(offers, order, ids) :: l.Valid()
  {
    LeaseBatchShape(s, offers, order, ids);
    PlannedNode(offers, order, ids);
    var allocations := CreatedNode(offers, order, ids).resources.allocations;
    var batch := CreatedLeases(offers, order, ids);
    forall a <- allocations ensures Canonical(a.participantId) {
      var i :| 0 <= i < |batch| && allocations[i] == a;
    }
  }

  lemma CreationAdds(s: PlaneState, offers: seq<ResourceOffer>, order: Order, ids: FreshIds)
    requires Fresh(s, offers, order, ids) && LeasedMachine(s, offers, order, ids).1.Ok?
    ensures var (after, r) := LeasedMachine(s, offers, order, ids);
            Added(s, after, CreatedNode(offers, order, ids), r.value.0) && InPlace(after, ids.machine)
  {
    var batch := CreatedLeases(offers, order, ids);
    CreatedMachine(s, offers, order, ids);
    LeaseBatchShape(s, offers, order, ids);
    StoredContents(s.leases, batch);
    forall l <- batch ensures l.logicalNodeId == Identity(ids.node, Kind.LogicalNode) {
      var i :| 0 <= i < |batch| && batch[i] == l;
    }
  }

  lemma AddingKeepsConsistent(s: PlaneState, after: PlaneState, node: LogicalNode, vm: VirtualMachine)
    requires Consistent(s) && Added(s, after, node, vm) && InPlace(after, vm.id.id)
    requires vm.nodeId.id == node.id && Plannable(node) && forall l <- vm.leases :: l.Valid()
    ensures Consistent(after)
  {
    AddingKeepsRegistered(s, after, node, vm);
    AddingKeepsPairing(s, after, node, vm);
    AddingKeepsOwners(s, after, node, vm);
    forall lease <- after.leases ensures after.leases[lease].Valid() {
      if lease !in s.leases {
        var l :| l in vm.leases && l.id.id == lease;
      }
    }
  }

  lemma CreationKeepsConsistent(s: PlaneState, offers: seq<ResourceOffer>, order: Order, ids: FreshIds)
    requires Consistent(s) && Fresh(s, offers, order, ids) && ValidateRuntime(order.runtime).None?
    ensures Consistent(LeasedMachine(s, offers, order, ids).0)
  {
    if LeasedMachine(s, offers, order, ids).1.Err? {
      FailedCreationIsClean(s, offers, order, ids);
    } else {
      var (after, r) := LeasedMachine(s, offers, order, ids);
      CreatedMachine(s, offers, order, ids);
      CreatedNodeIsPlannable(s, offers, order, ids);
      CreationAdds(s, offers, order, ids);
      AddingKeepsConsistent(s, after, CreatedNode(offers, order, ids), r.value.0);
    }
  }

  lemma DistinctIdsFrom(batch: seq<Lease>)
    requires batch != []
    ensures DistinctIds(batch) <==> DistinctIds(batch[1..]) && batch[0].id.id !in LeaseIds(batch[1..])
    ensures LeaseIds(batch) == {batch[0].id.id} + LeaseIds(batch[1..])
  {
    var rest := batch[1..];
    assert batch == [batch[0]] + rest;
    if DistinctIds(batch) {
      forall l <- rest ensures l.id.id != batch[0].id.id {
        var i :| 0 <= i < |rest| && rest[i] == l;
        assert batch[i + 1] == l;
      }
    }
    if DistinctIds(rest) && batch[0].id.id !in LeaseIds(rest) {
      forall i, j | 0 <= i < j < |batch| ensures batch[i].id.id != batch[j].id.id {
        assert batch[j] == rest[j - 1] && rest[j - 1] in rest;
        assert i > 0 ==> batch[i] == rest[i - 1];
      }
    }
  }

  /** Releasing a batch succeeds exactly when its leases are all there and none is listed twice. */
  lemma {:induction false} ReleasedIff(leases: map<Text, Lease>, batch: seq<Lease>)
    ensures Released(leases, batch).1.Ok? <==>
              (forall l <- batch :: Releasable(leases, l)) && DistinctIds(batch)
    ensures Released(leases, batch).1.Ok? ==> Released(leases, batch).0 == leases - LeaseIds(batch)
    ensures Released(leases, batch).1.Err? ==> Released(leases, batch).1.error == LeaseNotFound
    decreases |batch|
  {
    if batch != [] {
      var rest := batch[1..];
      var left := leases - {batch[0].id.id};
      ReleasedIff(left, rest);
      DistinctIdsFrom(batch);
      assert forall l :: l in batch <==> l == batch[0] || l in rest;
      assert forall l <- rest :: Releasable(left, l) <==> Releasable(leases, l) && l.id.id != batch[0].id.id;
    }
  }

  /** Destroying a registered machine always succeeds and removes its leases, its node and itself. */
  lemma DestroyRemovesExactly(s: PlaneState, id: Identity)
    requires Consistent(s) && id.id in s.machines
    ensures var vm := s.machines[id.id];
            DestroyedMachine(s, id)
            == (PlaneState(s.leases - LeaseIds(vm.leases), s.machines - {id.id}, s.nodes - {vm.nodeId.id}), Ok(vm))
  {
    var vm := s.machines[id.id];
    assert InPlace(s, id.id);
    ReleasedIff(s.leases, vm.leases);
    forall l <- vm.leases ensures Releasable(s.leases, l) {
      assert s.leases[l.id.id].Valid();
    }
  }

  lemma DestroyKeepsConsistent(s: PlaneState, id: Identity)
    requires Consistent(s)
    ensures Consistent(DestroyedMachine(s, id).0)
  {
    if id.id in s.machines {
      var vm := s.machines[id.id];
      var after := DestroyedMachine(s, id).0;
      DestroyRemovesExactly(s, id);
      RemovingKeepsLinked(s, after, id.id);
    }
  }

  /** What destroying a machine takes away. */
  ghost predicate Removed(s: PlaneState, after: PlaneState, gone: Text) {
    && gone in s.machines
    && after.machines == s.machines - {gone}
    && after.nodes == s.nodes - {s.machines[gone].nodeId.id}
    && after.leases == s.leases - LeaseIds(s.machines[gone].leases)
  }

  lemma RemovingSparesOthers(s: PlaneState, after: PlaneState, gone: Text, k: Text)
    requires Linked(s) && Removed(s, after, gone) && k in after.machines
    ensures s.machines[k].nodeId.id != s.machines[gone].nodeId.id
    ensures forall l <- s.machines[k].leases :: l.id.id in after.leases
  {
    assert UsedBy(s, s.machines[gone].nodeId.id, gone) && UsedBy(s, s.machines[k].nodeId.id, k);
    LeasesAreDisjointUnion(s);
    forall l <- s.machines[k].leases ensures l.id.id in after.leases {
      assert l.id.id in LeaseIds(s.machines[k].leases);
    }
  }

  lemma RemovingKeepsRegistered(s: PlaneState, after: PlaneState, gone: Text, k: Text)
    requires Linked(s) && Removed(s, after, gone) && k in after.machines
    ensures InPlace(after, k)
  {
    RemovingSparesOthers(s, after, gone, k);
    assert InPlace(s, k);
    InPlaceFrame(s, after, k);
  }

  lemma RemovingKeepsLinked(s: PlaneState, after: PlaneState, gone: Text)
    requires Linked(s) && Removed(s, after, gone)
    ensures Linked(after)
  {
    forall k <- after.machines ensures InPlace(after, k) {
      RemovingKeepsRegistered(s, after, gone, k);
    }
    RemovingKeepsPairing(s, after, gone);
    RemovingKeepsOwners(s, after, gone);
  }

  lemma RemovingKeepsPairing(s: PlaneState, after: PlaneState, gone: Text)
    requires NodesPaired(s) && Removed(s, after, gone)
    ensures NodesPaired(after)
  {
    assert UsedBy(s, s.machines[gone].nodeId.id, gone);
    forall node, k ensures UsedBy(after, node, k) <==> UsedBy(s, node, k) && k != gone {
    }
    forall node <- after.nodes ensures exists k :: UsedBy(after, node, k) {
      var k :| UsedBy(s, node, k);
      assert UsedBy(after, node, k);
    }
  }

  lemma RemovingKeepsOwners(s: PlaneState, after: PlaneState, gone: Text)
    requires LeasesOwned(s) && Removed(s, after, gone)
    ensures LeasesOwned(after)
  {
    forall lease <- after.leases ensures exists k :: LeasedTo(after, lease, k) {
      var k :| LeasedTo(s, lease, k);
      assert lease !in LeaseIds(s.machines[gone].leases);
      assert LeasedTo(after, lease, k);
    }
  }

  /**
   In a consistent plane a running machine with active leases reaches its backend, with a plan
   whose units add up to the machine's resources; the answer is the backend's own.
   */
  lemma RunningMachinesReachTheirBackend(
    s: PlaneState, id: Identity, workload: WorkItem, backend: Backend, now: Instant)
    requires Consistent(s) && id.id in s.machines
    requires s.machines[id.id].state == Running && AllActive(s.machines[id.id].leases, now) && workload.id != []
    ensures s.machines[id.id].nodeId.id in s.nodes
    ensures var vm := s.machines[id.id];
            var plan := PlanFor(s.nodes[vm.nodeId.id], workload);
            && plan.Ok?
            && TotalResources(plan.value.units) == vm.spec.resources
            && ExecutedMachine(s, id, workload, backend, now)
               == match backend(plan.value, workload)
                  case Ok(receipt) => (s, Ok(receipt))
                  case Err(e) => (WithState(s, id.id, Failed), Err(VirtualMachineFailed(ExecutionFailed(e))))
  {
    assert InPlace(s, id.id);
    assert s == WithState(s, id.id, Running);
    PlanPreservesDistribution(s.nodes[s.machines[id.id].nodeId.id], workload);
  }

  // Serial runs

  datatype Operation =
    | Create(offers: seq<ResourceOffer>, order: Order, ids: FreshIds)
    | Start(id: Identity)
    | Stop(id: Identity)
    | Destroy(id: Identity)
    | Execute(machine: Identity, workload: WorkItem, backend: Backend, now: Instant)

  function Apply(s: PlaneState, op: Operation): PlaneState {
    match op
    case Create(offers, order, ids) => LeasedMachine(s, offers, order, ids).0
    case Start(id) => StartedMachine(s, id).0
    case Stop(id) => StoppedMachine(s, id).0
    case Destroy(id) => DestroyedMachine(s, id).0
    case Execute(machine, workload, backend, now) => ExecutedMachine(s, machine, workload, backend, now).0
  }

  function ApplyAll(s: PlaneState, ops: seq<Operation>): PlaneState
    decreases |ops|
  {
    if ops == [] then s else ApplyAll(Apply(s, ops[0]), ops[1..])
  }

  /** Creation draws identifiers that are not in use and names a valid runtime. */
  ghost predicate Permitted(s: PlaneState, op: Operation) {
    op.Create? ==> Fresh(s, op.offers, op.order, op.ids) && ValidateRuntime(op.order.runtime).None?
  }

  ghost predicate PermittedRun(s: PlaneState, ops: seq<Operation>)
    decreases |ops|
  {
    ops == [] || (Permitted(s, ops[0]) && PermittedRun(Apply(s, ops[0]), ops[1..]))
  }

  lemma StartKeepsConsistent(s: PlaneState, id: Identity)
    requires Consistent(s)
    ensures Consistent(StartedMachine(s, id).0)
  {
    if StartedMachine(s, id).1.Ok? {
      StateChangeKeepsLinked(s, id.id, Running);
    }
  }

  lemma StopKeepsConsistent(s: PlaneState, id: Identity)
    requires Consistent(s)
    ensures Consistent(StoppedMachine(s, id).0)
  {
    if StoppedMachine(s, id).1.Ok? {
      StateChangeKeepsLinked(s, id.id, Stopped);
    }
  }

  lemma ExecuteKeepsConsistent(s: PlaneState, id: Identity, workload: WorkItem, backend: Backend, now: Instant)
    requires Consistent(s)
    ensures Consistent(ExecutedMachine(s, id, workload, backend, now).0)
  {
    if TakeSnapshot(s, id).Some? {
      var taken := TakeSnapshot(s, id).value;
      var (state, _) := Executed(taken.vm, taken.node, workload, backend, now);
      assert InPlace(s, id.id);
      assert ExecutedMachine(s, id, workload, backend, now).0 == WithState(s, id.id, state);
      StateChangeKeepsLinked(s, id.id, state);
    }
  }

  lemma OperationKeepsConsistent(s: PlaneState, op: Operation)
    requires Consistent(s) && Permitted(s, op)
    ensures Consistent(Apply(s, op))
  {
    match op
    case Create(offers, order, ids) => CreationKeepsConsistent(s, offers, order, ids);
    case Start(id) => StartKeepsConsistent(s, id);
    case Stop(id) => StopKeepsConsistent(s, id);
    case Destroy(id) => DestroyKeepsConsistent(s, id);
    case Execute(machine, workload, backend, now) => ExecuteKeepsConsistent(s, machine, workload, backend, now);
  }

  /** The invariant of every serial run. */
  lemma {:induction false} SerialRunsStayConsistent(s: PlaneState, ops: seq<Operation>)
    requires Consistent(s) && PermittedRun(s, ops)
    ensures Consistent(ApplyAll(s, ops))
    decreases |ops|
  {
    if ops != [] {
      OperationKeepsConsistent(s, ops[0]);
      SerialRunsStayConsistent(Apply(s, ops[0]), ops[1..]);
    }
  }

  lemma EmptyPlaneIsConsistent()
    ensures Consistent(PlaneState(map[], map[], map[]))
  {
    var empty := PlaneState(map[], map[], map[]);
    assert forall node, k :: !UsedBy(empty, node, k);
  }
}
