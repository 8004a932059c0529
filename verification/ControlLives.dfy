/** Whole lives of machines: what creating, running and destroying one leaves behind. */
module ControlLives {
  import opened Prelude
  import opened Identities
  import opened Nodes
  import opened Leases
  import opened Execution
  import opened VirtualMachines
  import opened Control
  import opened ControlLaws
  import opened ControlRuns

  /** A creation that is permitted and succeeds. */
  ghost predicate Creates(s: PlaneState, create: Operation) {
    && create.Create? && Permitted(s, create)
    && LeasedMachine(s, create.offers, create.order, create.ids).1.Ok?
  }

  function MachineOf(create: Operation): Identity
    requires create.Create?
  {
    Identity(create.ids.machine, Kind.VirtualMachine)
  }

  /** What a creation has made: a plane with one machine, in some state, that the other did not have. */
  ghost predicate Made(s: PlaneState, after: PlaneState, create: Operation, state: VirtualMachineState)
    requires create.Create?
  {
    && create.ids.machine in after.machines
    && var vm := after.machines[create.ids.machine];
    && vm.id == MachineOf(create) && vm.state == state
    && vm.nodeId.id in after.nodes && after.nodes[vm.nodeId.id].id == vm.nodeId.id
    && vm.spec.resources == create.order.requirement
    && Added(s, after, after.nodes[vm.nodeId.id], vm)
  }

  lemma CreationMakes(s: PlaneState, create: Operation)
    requires Creates(s, create)
    ensures Made(s, Apply(s, create), create, Created)
  {
    CreationAdds(s, create.offers, create.order, create.ids);
    CreatedMachine(s, create.offers, create.order, create.ids);
  }

  lemma CreatedLeasesRun(s: PlaneState, create: Operation, now: Instant)
    requires Creates(s, create) && create.order.now <= now < create.order.now + create.order.duration
    ensures create.ids.machine in Apply(s, create).machines
    ensures AllActive(Apply(s, create).machines[create.ids.machine].leases, now)
  {
    CreatedMachine(s, create.offers, create.order, create.ids);
    LeaseBatchShape(s, create.offers, create.order, create.ids);
    var batch := CreatedLeases(create.offers, create.order, create.ids);
    forall l <- batch ensures l.ActiveAt(now) {
      var i :| 0 <= i < |batch| && batch[i] == l;
    }
  }

  lemma MadeInState(
    s: PlaneState, mid: PlaneState, create: Operation, from: VirtualMachineState, to: VirtualMachineState)
    requires create.Create? && Made(s, mid, create, from)
    ensures Made(s, WithState(mid, create.ids.machine, to), create, to)
  {
  }

  lemma StartMakesRunning(s: PlaneState, created: PlaneState, create: Operation)
    requires create.Create? && Made(s, created, create, Created)
    ensures Made(s, StartedMachine(created, MachineOf(create)).0, create, Running)
    ensures StartedMachine(created, MachineOf(create)).1.Ok?
  {
    assert StartedMachine(created, MachineOf(create)).0 == WithState(created, create.ids.machine, Running);
    MadeInState(s, created, create, Created, Running);
  }

  lemma ExecutionKeepsMade(
    s: PlaneState, mid: PlaneState, create: Operation, from: VirtualMachineState,
    workload: WorkItem, backend: Backend, now: Instant)
    returns (to: VirtualMachineState)
    requires create.Create? && Made(s, mid, create, from)
    ensures Made(s, ExecutedMachine(mid, MachineOf(create), workload, backend, now).0, create, to)
  {
    var taken := TakeSnapshot(mid, MachineOf(create)).value;
    to := Executed(taken.vm, taken.node, workload, backend, now).0;
    assert ExecutedMachine(mid, MachineOf(create), workload, backend, now).0
        == WithState(mid, create.ids.machine, to);
    MadeInState(s, mid, create, from, to);
  }

  lemma RemovingUndoesAdding(s: PlaneState, mid: PlaneState, node: LogicalNode, vm: VirtualMachine)
    requires Added(s, mid, node, vm)
    ensures mid.leases - LeaseIds(vm.leases) == s.leases
    ensures mid.machines - {vm.id.id} == s.machines && mid.nodes - {node.id} == s.nodes
  {
  }

  /** Destroying undoes creating, whatever became of the machine: no lease, node or machine is left. */
  lemma DestroyUndoesCreation(s: PlaneState, mid: PlaneState, create: Operation, state: VirtualMachineState)
    requires create.Create? && Made(s, mid, create, state) && Consistent(mid)
    ensures DestroyedMachine(mid, MachineOf(create)) == (s, Ok(mid.machines[create.ids.machine]))
  {
    var vm := mid.machines[create.ids.machine];
    DestroyRemovesExactly(mid, MachineOf(create));
    RemovingUndoesAdding(s, mid, mid.nodes[vm.nodeId.id], vm);
  }

  lemma ApplyNext(s: PlaneState, op: Operation, rest: seq<Operation>)
    ensures ApplyAll(s, [op] + rest) == ApplyAll(Apply(s, op), rest)
    ensures PermittedRun(s, [op] + rest) <==> Permitted(s, op) && PermittedRun(Apply(s, op), rest)
  {
    assert ([op] + rest)[1..] == rest;
  }

  lemma ApplyFour(s: PlaneState, a: Operation, b: Operation, c: Operation, d: Operation)
    requires Permitted(s, a) && !b.Create? && !c.Create? && !d.Create?
    ensures PermittedRun(s, [a, b, c, d])
    ensures ApplyAll(s, [a, b, c, d]) == Apply(Apply(Apply(Apply(s, a), b), c), d)
  {
    ApplyNext(s, a, [b, c, d]);
    ApplyNext(Apply(s, a), b, [c, d]);
    ApplyNext(Apply(Apply(s, a), b), c, [d]);
    ApplyNext(Apply(Apply(Apply(s, a), b), c), d, []);
    assert [a, b, c, d] == [a] + [b, c, d] && [b, c, d] == [b] + [c, d] && [c, d] == [c] + [d] && [d] == [d] + [];
  }

  lemma StartedLife(s: PlaneState, create: Operation)
    requires Consistent(s) && Creates(s, create)
    ensures var started := Apply(Apply(s, create), Start(MachineOf(create)));
            Made(s, started, create, Running) && Consistent(started)
  {
    CreationMakes(s, create);
    StartMakesRunning(s, Apply(s, create), create);
    OperationKeepsConsistent(s, create);
    OperationKeepsConsistent(Apply(s, create), Start(MachineOf(create)));
  }

  lemma ExecutedThenDestroyed(
    s: PlaneState, started: PlaneState, create: Operation, workload: WorkItem, backend: Backend, now: Instant)
    requires create.Create? && Made(s, started, create, Running) && Consistent(started)
    ensures var executed := ExecutedMachine(started, MachineOf(create), workload, backend, now).0;
            DestroyedMachine(executed, MachineOf(create)).0 == s
  {
    var state := ExecutionKeepsMade(s, started, create, Running, workload, backend, now);
    ExecuteKeepsConsistent(started, MachineOf(create), workload, backend, now);
    DestroyUndoesCreation(
      s, ExecutedMachine(started, MachineOf(create), workload, backend, now).0, create, state);
  }

  lemma ApplyExecuteDestroy(s: PlaneState, m: Identity, workload: WorkItem, backend: Backend, now: Instant)
    ensures Apply(Apply(s, Execute(m, workload, backend, now)), Destroy(m))
            == DestroyedMachine(ExecutedMachine(s, m, workload, backend, now).0, m).0
  {
  }

  /**
   A whole life leaves no trace: creating, starting, executing with any backend at any time and
   destroying is a permitted run, and it ends in the plane it began with.
   */
  lemma WholeLifeRestores(s: PlaneState, create: Operation, workload: WorkItem, backend: Backend, now: Instant)
    requires Consistent(s) && Creates(s, create)
    ensures var m := MachineOf(create);
            var life := [create, Start(m), Execute(m, workload, backend, now), Destroy(m)];
            PermittedRun(s, life) && ApplyAll(s, life) == s
  {
    var m := MachineOf(create);
    var started := Apply(Apply(s, create), Start(m));
    ApplyFour(s, create, Start(m), Execute(m, workload, backend, now), Destroy(m));
    ApplyExecuteDestroy(started, m, workload, backend, now);
    StartedLife(s, create);
    ExecutedThenDestroyed(s, started, create, workload, backend, now);
  }

  /** In the middle of such a life the machine is running and, while its leases last, reaches its backend. */
  lemma CreatedMachinesRun(s: PlaneState, create: Operation, workload: WorkItem, backend: Backend, now: Instant)
    requires Consistent(s) && Creates(s, create) && workload.id != []
    requires create.order.now <= now < create.order.now + create.order.duration
    ensures var started := Apply(Apply(s, create), Start(MachineOf(create)));
            && create.ids.machine in started.machines && started.machines[create.ids.machine].state == Running
            && exists plan: ExecutionPlan ::
                 && TotalResources(plan.units) == create.order.requirement
                 && ExecutedMachine(started, MachineOf(create), workload, backend, now).1
                    == match backend(plan, workload)
                       case Ok(receipt) => Ok(receipt)
                       case Err(e) => Err(VirtualMachineFailed(ExecutionFailed(e)))
  {
    var started := Apply(Apply(s, create), Start(MachineOf(create)));
    StartedLife(s, create);
    CreatedLeasesRun(s, create, now);
    StartKeepsLeases(Apply(s, create), MachineOf(create));
    RunningMachinesReachTheirBackend(started, MachineOf(create), workload, backend, now);
  }

  lemma StartKeepsLeases(s: PlaneState, id: Identity)
    requires id.id in s.machines
    ensures StartedMachine(s, id).0.machines[id.id].leases == s.machines[id.id].leases
  {
  }
}
