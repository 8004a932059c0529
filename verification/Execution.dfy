/** Turning a logical node into per-participant execution units (src/execution.rs). */
module Execution {
  import opened Prelude
  import opened Strings
  import opened Identities
  import opened Resource
  import opened CompositionLaws
  import opened Nodes

  datatype WorkItem = WorkItem(id: Text, payload: seq<byte>)

  // R is how resources are represented: amounts in the planner, raw fields on the wire.
  datatype ExecutionUnit<R> = ExecutionUnit(participantId: Identity, resources: R)

  datatype ExecutionPlan = ExecutionPlan(
    workloadId: Text,
    nodeId: Identity,
    runtime: RuntimeSpec,
    units: seq<ExecutionUnit<ResourceFragment>>)

  datatype ExecutionReceipt = ExecutionReceipt(workloadId: Text, nodeId: Identity, dispatchedUnits: nat)

  datatype ExecutionError =
    | EmptyWorkloadId
    | InvalidNodeIdentity
    | InvalidParticipantIdentity
    | EmptyPlan
    | InvalidResources
    | InvalidRuntimeSpec
    | WorkloadMismatch
    | BackendRejected

  function UnitFault(a: Allocation): Option<ExecutionError> {
    if !Canonical(a.participantId) then Some(InvalidParticipantIdentity)
    else if !ValidRequirement(a.resources) then Some(InvalidResources)
    else None
  }

  function UnitsFault(allocations: seq<Allocation>): Option<ExecutionError> {
    if allocations == [] then None
    else if UnitFault(allocations[0]).Some? then UnitFault(allocations[0])
    else UnitsFault(allocations[1..])
  }

  function UnitOf(a: Allocation): ExecutionUnit<ResourceFragment> {
    ExecutionUnit(Identity(a.participantId, Kind.Participant), a.resources)
  }

  function UnitsOf(allocations: seq<Allocation>): seq<ExecutionUnit<ResourceFragment>> {
    seq(|allocations|, i requires 0 <= i < |allocations| => UnitOf(allocations[i]))
  }

  function PlanFor(node: LogicalNode, workload: WorkItem): Result<ExecutionPlan, ExecutionError> {
    var allocations := node.resources.allocations;
    if workload.id == [] then Err(EmptyWorkloadId)
    else if !Canonical(node.id) then Err(InvalidNodeIdentity)
    else if allocations == [] then Err(EmptyPlan)
    else if UnitsFault(allocations).Some? then Err(UnitsFault(allocations).value)
    else if node.runtime.name == [] || node.runtime.version == [] then Err(InvalidRuntimeSpec)
    else Ok(ExecutionPlan(workload.id, Identity(node.id, Kind.LogicalNode), node.runtime, UnitsOf(allocations)))
  }

  method FromNode(node: LogicalNode, workload: WorkItem) returns (r: Result<ExecutionPlan, ExecutionError>)
    ensures r == PlanFor(node, workload)
  {
    if workload.id == [] {
      return Err(EmptyWorkloadId);
    }
    var nodeId := Parse(node.id, Kind.LogicalNode);
    if nodeId.None? {
      return Err(InvalidNodeIdentity);
    }
    var allocations := node.resources.allocations;
    if allocations == [] {
      return Err(EmptyPlan);
    }
    var units: seq<ExecutionUnit<ResourceFragment>> := [];
    assert allocations[0..] == allocations;
    for i := 0 to |allocations|
      invariant UnitsFault(allocations) == UnitsFault(allocations[i..])
      invariant units == UnitsOf(allocations[..i])
    {
      var allocation := allocations[i];
      assert allocations[i..][0] == allocation && allocations[i..][1..] == allocations[i + 1..];
      var participantId := Parse(allocation.participantId, Kind.Participant);
      if participantId.None? {
        return Err(InvalidParticipantIdentity);
      }
      if !ValidRequirement(allocation.resources) {
        return Err(InvalidResources);
      }
      units := units + [ExecutionUnit(participantId.value, allocation.resources)];
    }
    if node.runtime.name == [] || node.runtime.version == [] {
      return Err(InvalidRuntimeSpec);
    }
    assert allocations[..|allocations|] == allocations;
    r := Ok(ExecutionPlan(workload.id, nodeId.value, node.runtime, units));
  }

  function TotalResources(units: seq<ExecutionUnit<ResourceFragment>>): ResourceFragment {
    if units == [] then ZERO
    else Add(TotalResources(units[..|units| - 1]), units[|units| - 1].resources)
  }

  lemma {:induction false} UnitsKeepCapacity(allocations: seq<Allocation>)
    ensures TotalResources(UnitsOf(allocations)) == Capacity(allocations)
  {
    if allocations != [] {
      var last := |allocations| - 1;
      UnitsKeepCapacity(allocations[..last]);
      assert UnitsOf(allocations)[..last] == UnitsOf(allocations[..last]);
    }
  }

  lemma {:induction false} NoUnitFaultIff(allocations: seq<Allocation>)
    ensures UnitsFault(allocations).None? <==> forall a <- allocations :: UnitFault(a).None?
  {
    if allocations != [] {
      NoUnitFaultIff(allocations[1..]);
      assert forall a :: a in allocations <==> a == allocations[0] || a in allocations[1..];
    }
  }

  /**
   For a node whose composite validates, planning needs only a named workload, canonical
   identifiers and a runtime; the plan then hands each participant its own share in order,
   and together the units are the node's capacity.
   */
  lemma PlanPreservesDistribution(node: LogicalNode, workload: WorkItem)
    requires ValidateComposite(node.resources).None?
    ensures PlanFor(node, workload).Ok? <==>
              && workload.id != [] && Canonical(node.id) && ValidateRuntime(node.runtime).None?
              && (forall a <- node.resources.allocations :: Canonical(a.participantId))
    ensures PlanFor(node, workload).Ok? ==>
              var units := PlanFor(node, workload).value.units;
              && |units| == |node.resources.allocations|
              && (forall i :: 0 <= i < |units| ==>
                    && units[i].participantId.id == node.resources.allocations[i].participantId
                    && units[i].participantId.Names(Kind.Participant)
                    && units[i].resources == node.resources.allocations[i].resources)
              && (forall i, j :: 0 <= i < j < |units| ==> units[i].participantId.id != units[j].participantId.id)
              && TotalResources(units) == node.resources.capacity
    ensures PlanFor(node, workload).Ok? ==>
              var plan := PlanFor(node, workload).value;
              && plan.workloadId == workload.id
              && plan.nodeId == Identity(node.id, Kind.LogicalNode)
              && plan.runtime == node.runtime
  {
    var allocations := node.resources.allocations;
    CompositionSucceedsIff(allocations);
    NoUnitFaultIff(allocations);
    UnitsKeepCapacity(allocations);
  }

  lemma {:induction false} UnitsFaultIsFirst(allocations: seq<Allocation>) returns (k: nat)
    requires UnitsFault(allocations).Some?
    ensures k < |allocations| && UnitFault(allocations[k]) == UnitsFault(allocations)
    ensures forall i :: 0 <= i < k ==> UnitFault(allocations[i]).None?
  {
    if UnitFault(allocations[0]).Some? {
      k := 0;
    } else {
      var rest := UnitsFaultIsFirst(allocations[1..]);
      k := rest + 1;
    }
  }

  /** An allocation that can be executed: by a canonical participant, for something. */
  predicate Executable(a: Allocation) {
    Canonical(a.participantId) && ValidRequirement(a.resources)
  }

  /** For any node at all: when it can be planned on, and otherwise what is reported, in order. */
  lemma PlanningOutcome(node: LogicalNode, workload: WorkItem)
    ensures var allocations := node.resources.allocations;
            var r := PlanFor(node, workload);
            if workload.id == [] then r == Err(EmptyWorkloadId)
            else if !Canonical(node.id) then r == Err(InvalidNodeIdentity)
            else if allocations == [] then r == Err(EmptyPlan)
            else if exists a <- allocations :: !Executable(a) then
              exists k :: 0 <= k < |allocations| && !Executable(allocations[k])
                          && (forall i :: 0 <= i < k ==> Executable(allocations[i]))
                          && r == Err(if !Canonical(allocations[k].participantId) then InvalidParticipantIdentity
                                      else InvalidResources)
            else if node.runtime.name == [] || node.runtime.version == [] then r == Err(InvalidRuntimeSpec)
            else
              && r.Ok? && r.value.workloadId == workload.id
              && r.value.nodeId == Identity(node.id, Kind.LogicalNode) && r.value.runtime == node.runtime
              && |r.value.units| == |allocations|
              && forall i :: 0 <= i < |allocations| ==>
                   r.value.units[i]
                   == ExecutionUnit(Identity(allocations[i].participantId, Kind.Participant), allocations[i].resources)
  {
    var allocations := node.resources.allocations;
    NoUnitFaultIff(allocations);
    assert forall a <- allocations :: UnitFault(a).None? <==> Executable(a);
    if UnitsFault(allocations).Some? {
      var k := UnitsFaultIsFirst(allocations);
      assert allocations[k] in allocations && !Executable(allocations[k]);
      forall i | 0 <= i < k ensures Executable(allocations[i]) {
        assert allocations[i] in allocations;
      }
    }
  }
}
