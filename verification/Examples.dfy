/**
 Concrete requests on an empty plane: inputs on which the general results hold of something,
 and on which the code does less than one might expect.
 */
module Examples {
  import opened Prelude
  import opened Identities
  import opened Nodes
  import opened Leases
  import opened Execution
  import opened VirtualMachines
  import opened Control
  import opened ControlLaws
  import opened ControlRuns
  import opened ControlLives
  import opened ControlInterleaving
  import opened ControlOverlaps
  import opened Samples

  const RUNTIME := RuntimeSpec([0x72], [0x31])
  const ORDER := Order(ONE_CORE, RUNTIME, 1, 1)
  const UNNAMED_ORDER := Order(ONE_CORE, UNBOUND, 1, 1)
  const CREATE := Create(SAMPLE_OFFERS, ORDER, SAMPLE_IDS)
  const WORK := WorkItem([0x77], [])
  const RECEIPT := ExecutionReceipt(WORK.id, Identity(SAMPLE_ID, Kind.LogicalNode), 1)

  function Answer(plan: ExecutionPlan, workload: WorkItem): Result<ExecutionReceipt, ExecutionError> {
    Ok(RECEIPT)
  }

  /** One participant, one core asked for, no runtime named: creation fails and leaves a lease behind. */
  lemma OrphanedLease()
    ensures Fresh(EMPTY_PLANE, SAMPLE_OFFERS, UNNAMED_ORDER, SAMPLE_IDS)
    ensures var (after, r) := LeasedMachine(EMPTY_PLANE, SAMPLE_OFFERS, UNNAMED_ORDER, SAMPLE_IDS);
            r == Err(NodeFailed(EmptyRuntimeName)) && SAMPLE_ID in after.leases && after.machines == map[]
  {
    SampleIdsAreFresh(SAMPLE_OFFERS, UNNAMED_ORDER);
    SampleOffersCover();
    LeaseBatchIff(EMPTY_PLANE, SAMPLE_OFFERS, UNNAMED_ORDER, SAMPLE_IDS);
    LeaseBatchShape(EMPTY_PLANE, SAMPLE_OFFERS, UNNAMED_ORDER, SAMPLE_IDS);
    var batch := LeaseBatch(SAMPLE_OFFERS, UNNAMED_ORDER, SAMPLE_IDS).value.1;
    StoredContents(map[], batch);
    assert batch[0].id.id == SAMPLE_ID && batch[0] in batch;
  }

  /** The same request with a runtime is permitted on the empty plane, and succeeds. */
  lemma SuccessfulCreation()
    ensures Consistent(EMPTY_PLANE) && Fresh(EMPTY_PLANE, SAMPLE_OFFERS, ORDER, SAMPLE_IDS)
    ensures Creates(EMPTY_PLANE, CREATE)
  {
    EmptyPlaneIsConsistent();
    SampleIdsAreFresh(SAMPLE_OFFERS, ORDER);
    SampleOffersCover();
    CreationSucceedsIff(EMPTY_PLANE, SAMPLE_OFFERS, ORDER, SAMPLE_IDS);
  }

  /**
   From the empty plane a machine is created, started, executed with its backend's receipt and
   destroyed: a permitted run that ends in the empty plane.
   */
  lemma WholeLife()
    ensures var m := MachineOf(CREATE);
            var started := Apply(Apply(EMPTY_PLANE, CREATE), Start(m));
            && m.id in started.machines && started.machines[m.id].state == Running
            && ExecutedMachine(started, m, WORK, Answer, 1).1 == Ok(RECEIPT)
    ensures var m := MachineOf(CREATE);
            var life := [CREATE, Start(m), Execute(m, WORK, Answer, 1), Destroy(m)];
            PermittedRun(EMPTY_PLANE, life) && ApplyAll(EMPTY_PLANE, life) == EMPTY_PLANE
  {
    SuccessfulCreation();
    CreatedMachinesRun(EMPTY_PLANE, CREATE, WORK, Answer, 1);
    WholeLifeRestores(EMPTY_PLANE, CREATE, WORK, Answer, 1);
  }

  /** A run from the empty plane whose stop succeeds and does not last. */
  lemma LostStop()
    ensures var m := MachineOf(CREATE);
            var run := [Whole(CREATE)] + ([Whole(Start(m))] + Around(m, Stop(m), WORK, Answer, 1));
            var end := After(Quiet(EMPTY_PLANE), run).plane;
            && EnabledRun(Quiet(EMPTY_PLANE), run)
            && StoppedMachine(Apply(Apply(EMPTY_PLANE, CREATE), Start(m)), m).1.Ok?
            && m.id in end.machines && end.machines[m.id].state != Stopped
  {
    SuccessfulCreation();
    RunThatLosesAStop(EMPTY_PLANE, CREATE, WORK, Answer, 1);
  }

  /** A run from the empty plane whose start succeeds and does not last. */
  lemma LostStart()
    ensures var m := MachineOf(CREATE);
            var run := [Whole(CREATE)] + Around(m, Start(m), WORK, Answer, 1);
            var end := After(Quiet(EMPTY_PLANE), run).plane;
            && EnabledRun(Quiet(EMPTY_PLANE), run) && StartedMachine(Apply(EMPTY_PLANE, CREATE), m).1.Ok?
            && m.id in end.machines && end.machines[m.id].state == Created
  {
    SuccessfulCreation();
    RunThatLosesAStart(EMPTY_PLANE, CREATE, WORK, Answer, 1);
  }

  /** A run from the empty plane that destroys its machine and ends with it, but without lease or node. */
  lemma UndoneDestroyFromEmpty()
    ensures var m := MachineOf(CREATE);
            var run := [Whole(CREATE)] + Around(m, Destroy(m), WORK, Answer, 1);
            var end := After(Quiet(EMPTY_PLANE), run).plane;
            && EnabledRun(Quiet(EMPTY_PLANE), run) && DestroyedMachine(Apply(EMPTY_PLANE, CREATE), m).1.Ok?
            && m.id in end.machines && end.leases == map[] && end.nodes == map[]
  {
    SuccessfulCreation();
    RunThatUndoesADestroy(EMPTY_PLANE, CREATE, WORK, Answer, 1);
  }
}
