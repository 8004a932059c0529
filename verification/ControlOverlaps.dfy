/**
 Overlapping runs from any consistent plane: a machine is created, an execution of it begins,
 something else happens to it, and the execution writes back what it took.
 */
module ControlOverlaps {
  import opened Prelude
  import opened Strings
  import opened Identities
  import opened Execution
  import opened VirtualMachines
  import opened Control
  import opened ControlRuns
  import opened ControlLives
  import opened ControlInterleaving

  /** A plane with no execution under way. */
  function Quiet(s: PlaneState): World {
    World(s, map[], s.machines)
  }

  /** Where the runs of ControlInterleaving may start. */
  lemma QuietIsSound(s: PlaneState)
    requires Consistent(s)
    ensures Sound(Quiet(s))
  {
    forall k <- s.machines ensures s.machines[k].id == Identity(k, Kind.VirtualMachine) {
      assert InPlace(s, k);
    }
  }

  lemma CreationIsEnabled(s: PlaneState, create: Operation)
    requires Consistent(s) && Creates(s, create)
    ensures Enabled(Quiet(s), Whole(create))
  {
    forall k <- s.machines ensures s.machines[k].nodeId.id != create.ids.node {
      assert InPlace(s, k);
    }
  }

  lemma NextEvent(w: World, e: Event, rest: seq<Event>)
    ensures After(w, [e] + rest) == After(Step(w, e), rest)
    ensures EnabledRun(w, [e] + rest) <==> Enabled(w, e) && EnabledRun(Step(w, e), rest)
  {
    assert ([e] + rest)[1..] == rest;
  }

  /** An execution of m around one other operation. */
  function Around(m: Identity, op: Operation, workload: WorkItem, backend: Backend, now: Instant): seq<Event> {
    [Begin(0, m), Whole(op), Finish(0, workload, backend, now)]
  }

  lemma AroundWritesBack(w: World, m: Identity, op: Operation, workload: WorkItem, backend: Backend, now: Instant)
    requires w.underway == map[] && TakeSnapshot(w.plane, m).Some? && !op.Create?
    ensures EnabledRun(w, Around(m, op, workload, backend, now))
    ensures After(w, Around(m, op, workload, backend, now)).plane
            == WriteBack(Apply(w.plane, op), TakeSnapshot(w.plane, m).value, workload, backend, now).0
  {
    var begin, whole, finish := Begin(0, m), Whole(op), Finish(0, workload, backend, now);
    var w1 := Step(w, begin);
    var w2 := Step(w1, whole);
    assert w1.underway[0] == TakeSnapshot(w.plane, m).value && w2.underway == w1.underway;
    assert Around(m, op, workload, backend, now) == [begin] + [whole, finish];
    assert [whole, finish] == [whole] + [finish] && [finish] == [finish] + [];
    NextEvent(w, begin, [whole, finish]);
    NextEvent(w1, whole, [finish]);
    NextEvent(w2, finish, []);
  }

  lemma CreatedWorld(s: PlaneState, create: Operation, rest: seq<Event>)
    requires Consistent(s) && Creates(s, create)
    ensures var w := Step(Quiet(s), Whole(create));
            && w.plane == Apply(s, create) && w.underway == map[]
            && After(Quiet(s), [Whole(create)] + rest) == After(w, rest)
            && (EnabledRun(Quiet(s), [Whole(create)] + rest) <==> EnabledRun(w, rest))
  {
    CreationIsEnabled(s, create);
    NextEvent(Quiet(s), Whole(create), rest);
  }

  lemma StartedWorld(s: PlaneState, create: Operation, rest: seq<Event>)
    requires Consistent(s) && Creates(s, create)
    ensures var start := Start(MachineOf(create));
            var w := Step(Step(Quiet(s), Whole(create)), Whole(start));
            && w.plane == Apply(Apply(s, create), start) && w.underway == map[]
            && After(Quiet(s), [Whole(create)] + ([Whole(start)] + rest)) == After(w, rest)
            && (EnabledRun(Quiet(s), [Whole(create)] + ([Whole(start)] + rest)) <==> EnabledRun(w, rest))
  {
    var start := Whole(Start(MachineOf(create)));
    CreatedWorld(s, create, [start] + rest);
    NextEvent(Step(Quiet(s), Whole(create)), start, rest);
  }

  lemma MadeCanBeTaken(s: PlaneState, after: PlaneState, create: Operation, state: VirtualMachineState)
    requires create.Create? && Made(s, after, create, state)
    ensures TakeSnapshot(after, MachineOf(create)).Some?
    ensures after.machines[create.ids.machine].id.id == create.ids.machine
    ensures after.machines[create.ids.machine].state == state
  {
  }

  lemma StartedCanBeTaken(s: PlaneState, create: Operation)
    requires Consistent(s) && Creates(s, create)
    ensures var started := Apply(Apply(s, create), Start(MachineOf(create)));
            && TakeSnapshot(started, MachineOf(create)).Some?
            && started.machines[create.ids.machine].id.id == create.ids.machine
            && started.machines[create.ids.machine].state == Running
  {
    StartedLife(s, create);
    MadeCanBeTaken(s, Apply(Apply(s, create), Start(MachineOf(create))), create, Running);
  }

  /** A run in which a stop succeeds and the machine does not end up stopped. */
  lemma RunThatLosesAStop(s: PlaneState, create: Operation, workload: WorkItem, backend: Backend, now: Instant)
    requires Consistent(s) && Creates(s, create)
    ensures var m := MachineOf(create);
            var started := Apply(Apply(s, create), Start(m));
            var run := [Whole(create)] + ([Whole(Start(m))] + Around(m, Stop(m), workload, backend, now));
            var end := After(Quiet(s), run).plane;
            && EnabledRun(Quiet(s), run) && StoppedMachine(started, m).1.Ok?
            && m.id in end.machines && end.machines[m.id].state != Stopped
  {
    var m := MachineOf(create);
    var started := Apply(Apply(s, create), Start(m));
    StartedCanBeTaken(s, create);
    StartedWorld(s, create, Around(m, Stop(m), workload, backend, now));
    AroundWritesBack(
      Step(Step(Quiet(s), Whole(create)), Whole(Start(m))), m, Stop(m), workload, backend, now);
    OverlappedStopIsLost(started, m, workload, backend, now);
  }

  lemma AroundCreated(
    s: PlaneState, create: Operation, op: Operation, workload: WorkItem, backend: Backend, now: Instant)
    requires Consistent(s) && Creates(s, create) && !op.Create?
    ensures var m := MachineOf(create);
            var created := Apply(s, create);
            var run := [Whole(create)] + Around(m, op, workload, backend, now);
            && TakeSnapshot(created, m).Some? && created.machines[m.id].id.id == m.id
            && created.machines[m.id].state == Created
            && EnabledRun(Quiet(s), run)
            && After(Quiet(s), run).plane
               == WriteBack(Apply(created, op), TakeSnapshot(created, m).value, workload, backend, now).0
  {
    var m := MachineOf(create);
    CreationMakes(s, create);
    MadeCanBeTaken(s, Apply(s, create), create, Created);
    CreatedWorld(s, create, Around(m, op, workload, backend, now));
    AroundWritesBack(Step(Quiet(s), Whole(create)), m, op, workload, backend, now);
  }

  /** A run in which a start succeeds and the machine ends up as it was created. */
  lemma RunThatLosesAStart(s: PlaneState, create: Operation, workload: WorkItem, backend: Backend, now: Instant)
    requires Consistent(s) && Creates(s, create)
    ensures var m := MachineOf(create);
            var run := [Whole(create)] + Around(m, Start(m), workload, backend, now);
            var end := After(Quiet(s), run).plane;
            && EnabledRun(Quiet(s), run) && StartedMachine(Apply(s, create), m).1.Ok?
            && m.id in end.machines && end.machines[m.id].state == Created
  {
    AroundCreated(s, create, Start(MachineOf(create)), workload, backend, now);
    OverlappedStartIsLost(Apply(s, create), MachineOf(create), workload, backend, now);
  }

  lemma WriteBackKeepsTheRest(s: PlaneState, taken: Snapshot, workload: WorkItem, backend: Backend, now: Instant)
    ensures WriteBack(s, taken, workload, backend, now).0.leases == s.leases
    ensures WriteBack(s, taken, workload, backend, now).0.nodes == s.nodes
  {
  }

  lemma CreatedThenDestroyed(s: PlaneState, create: Operation)
    requires Consistent(s) && Creates(s, create)
    ensures Consistent(Apply(s, create)) && DestroyedMachine(Apply(s, create), MachineOf(create)).0 == s
  {
    CreationMakes(s, create);
    OperationKeepsConsistent(s, create);
    DestroyUndoesCreation(s, Apply(s, create), create, Created);
  }

  lemma ApplyDestroy(s: PlaneState, m: Identity)
    ensures Apply(s, Destroy(m)) == DestroyedMachine(s, m).0
  {
  }

  lemma UndoneDestroy(
    created: PlaneState, gone: PlaneState, m: Identity, workload: WorkItem, backend: Backend, now: Instant)
    requires Consistent(created) && TakeSnapshot(created, m).Some? && DestroyedMachine(created, m).0 == gone
    ensures DestroyedMachine(created, m).1.Ok?
    ensures var end := WriteBack(gone, TakeSnapshot(created, m).value, workload, backend, now).0;
            m.id in end.machines && !Consistent(end) && end.leases == gone.leases && end.nodes == gone.nodes
  {
    OverlappedDestroyIsUndone(created, m, workload, backend, now);
    WriteBackKeepsTheRest(gone, TakeSnapshot(created, m).value, workload, backend, now);
  }

  lemma AroundDestroy(s: PlaneState, create: Operation, workload: WorkItem, backend: Backend, now: Instant)
    requires Consistent(s) && Creates(s, create)
    ensures var m := MachineOf(create);
            var created := Apply(s, create);
            var run := [Whole(create)] + Around(m, Destroy(m), workload, backend, now);
            && Consistent(created) && DestroyedMachine(created, m).0 == s && TakeSnapshot(created, m).Some?
            && EnabledRun(Quiet(s), run)
            && After(Quiet(s), run).plane == WriteBack(s, TakeSnapshot(created, m).value, workload, backend, now).0
  {
    CreatedThenDestroyed(s, create);
    ApplyDestroy(Apply(s, create), MachineOf(create));
    AroundCreated(s, create, Destroy(MachineOf(create)), workload, backend, now);
  }

  /** A run in which a destroyed machine comes back, and the plane is no longer consistent. */
  lemma RunThatUndoesADestroy(s: PlaneState, create: Operation, workload: WorkItem, backend: Backend, now: Instant)
    requires Consistent(s) && Creates(s, create)
    ensures var m := MachineOf(create);
            var run := [Whole(create)] + Around(m, Destroy(m), workload, backend, now);
            var end := After(Quiet(s), run).plane;
            && EnabledRun(Quiet(s), run) && DestroyedMachine(Apply(s, create), m).1.Ok?
            && m.id in end.machines && !Consistent(end)
            && end.leases == s.leases && end.nodes == s.nodes
  {
    AroundDestroy(s, create, workload, backend, now);
    UndoneDestroy(Apply(s, create), s, MachineOf(create), workload, backend, now);
  }
}
