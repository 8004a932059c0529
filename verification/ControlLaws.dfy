/** What leasing and creating a machine guarantee in one call. */
module ControlLaws {
  import opened Prelude
  import opened Strings
  import opened Identities
  import opened Resource
  import opened CompositionLaws
  import opened Nodes
  import opened Scheduler
  import opened SchedulerLaws
  import Participants
  import opened Leases
  import opened VirtualMachines
  import opened LeaseBinding
  import opened Control

  /** How many leases a request draws an identifier for: one per allocation of its plan. */
  function LeasesDrawn(offers: seq<ResourceOffer>, requirement: ResourceFragment): nat {
    |Greedy(requirement, SortOffers(offers), ZERO).0|
  }

  /** What drawing random identifiers is trusted to give: canonical ones, not in use and not repeated. */
  ghost predicate Fresh(s: PlaneState, offers: seq<ResourceOffer>, order: Order, ids: FreshIds) {
    var drawn := LeasesDrawn(offers, order.requirement);
    && Canonical(ids.node) && ids.node !in s.nodes
    && Canonical(ids.machine) && ids.machine !in s.machines
    && (forall i: nat :: i < drawn ==> Canonical(ids.lease(i)) && ids.lease(i) !in s.leases)
    && (forall i: nat, j: nat :: i < j < drawn ==> ids.lease(i) != ids.lease(j))
  }

  predicate CanonicalOffers(offers: seq<ResourceOffer>) {
    forall o <- offers :: Canonical(o.participantId)
  }

  /** The lease an allocation of a plan should get. */
  function ExpectedLease(a: Allocation, leaseId: Text, nodeId: Text, now: Instant, duration: Duration): Lease {
    Lease.Lease(
      Identity(leaseId, Kind.Lease), Identity(nodeId, Kind.LogicalNode), Identity(a.participantId, Kind.Participant),
      a.resources.(lifetime := Some(duration)), now, now + duration)
  }

  predicate LastsLongEnough(lifetime: Option<Duration>, duration: Duration) {
    lifetime.None? || lifetime.value >= duration
  }

  lemma LeaseForIff(a: Allocation, leaseId: Text, nodeId: Text, now: Instant, duration: Duration)
    requires Canonical(leaseId) && Canonical(nodeId) && ValidRequirement(a.resources)
    requires now != UNIX_EPOCH && duration > 0
    ensures LeaseFor(a, leaseId, nodeId, now, duration).Ok? <==>
              Canonical(a.participantId) && LastsLongEnough(a.resources.lifetime, duration)
    ensures LeaseFor(a, leaseId, nodeId, now, duration).Ok? ==>
              LeaseFor(a, leaseId, nodeId, now, duration).value == ExpectedLease(a, leaseId, nodeId, now, duration)
  {
  }

  lemma {:induction false} LeasesForIff(node: LogicalNode, n: nat, leaseId: nat -> Text, now: Instant, duration: Duration)
    requires n <= |node.resources.allocations|
    ensures LeasesFor(node, n, leaseId, now, duration).Ok? <==>
              forall i :: 0 <= i < n ==> LeaseFor(node.resources.allocations[i], leaseId(i), node.id, now, duration).Ok?
    ensures LeasesFor(node, n, leaseId, now, duration).Ok? ==>
              forall i :: 0 <= i < n ==>
                Ok(LeasesFor(node, n, leaseId, now, duration).value[i])
                == LeaseFor(node.resources.allocations[i], leaseId(i), node.id, now, duration)
  {
    if n > 0 {
      LeasesForIff(node, n - 1, leaseId, now, duration);
    }
  }

  lemma {:induction false} StoredContents(leases: map<Text, Lease>, batch: seq<Lease>)
    ensures Stored(leases, batch).Keys == leases.Keys + LeaseIds(batch)
    ensures forall k <- leases :: k !in LeaseIds(batch) ==> Stored(leases, batch)[k] == leases[k]
    ensures DistinctBy(batch, (l: Lease) => l.id.id) ==> forall l <- batch :: Stored(leases, batch)[l.id.id] == l
  {
    if batch != [] {
      var last := |batch| - 1;
      StoredContents(leases, batch[..last]);
      assert batch == batch[..last] + [batch[last]];
      assert LeaseIds(batch) == LeaseIds(batch[..last]) + {batch[last].id.id};
      if DistinctBy(batch, (l: Lease) => l.id.id) {
        forall l <- batch ensures Stored(leases, batch)[l.id.id] == l {
          var i :| 0 <= i <= last && batch[i] == l;
          if i < last {
            assert batch[..last][i] == l;
          }
        }
      }
    }
  }

  /** Everything a plan's allocations have that leasing them needs. */
  lemma PlannedNode(offers: seq<ResourceOffer>, order: Order, ids: FreshIds)
    requires PlanOf(order.requirement, offers, ids.node).Ok?
    ensures var node := PlanOf(order.requirement, offers, ids.node).value;
            && node.id == ids.node
            && node.resources.capacity == order.requirement
            && ValidateComposite(node.resources).None?
            && |node.resources.allocations| == LeasesDrawn(offers, order.requirement) > 0
            && DistinctParticipants(node.resources.allocations)
            && (forall a <- node.resources.allocations ::
                  && ValidRequirement(a.resources) && a.resources.lifetime == order.requirement.lifetime
                  && (CanonicalOffers(offers) ==> Canonical(a.participantId)))
  {
    var node := PlanOf(order.requirement, offers, ids.node).value;
    PlanIsExact(order.requirement, offers, ids.node);
    CompositionSucceedsIff(node.resources.allocations);
  }

  /**
   When a batch of leases can be made: the time and duration are real, the offers cover the
   requirement, and the requirement is not for less time than the leases run.
   */
  lemma LeaseBatchIff(s: PlaneState, offers: seq<ResourceOffer>, order: Order, ids: FreshIds)
    requires Fresh(s, offers, order, ids) && WellFormedOffers(offers) && CanonicalOffers(offers)
    ensures LeaseBatch(offers, order, ids).Ok? <==>
              && order.now != UNIX_EPOCH && order.duration != 0
              && ValidRequirement(order.requirement) && Covers(offers, order.requirement)
              && LastsLongEnough(order.requirement.lifetime, order.duration)
  {
    PlanOutcome(order.requirement, offers, ids.node);
    if order.now != UNIX_EPOCH && order.duration != 0 && PlanOf(order.requirement, offers, ids.node).Ok? {
      var node := PlanOf(order.requirement, offers, ids.node).value;
      var allocations := node.resources.allocations;
      PlannedNode(offers, order, ids);
      LeasesForIff(node, |allocations|, ids.lease, order.now, order.duration);
      forall i | 0 <= i < |allocations|
        ensures LeaseFor(allocations[i], ids.lease(i), node.id, order.now, order.duration).Ok? <==>
                  LastsLongEnough(order.requirement.lifetime, order.duration)
      {
        assert allocations[i] in allocations;
        LeaseForIff(allocations[i], ids.lease(i), node.id, order.now, order.duration);
      }
      assert 0 < |allocations|;
    }
  }

  /** What a batch is: one lease per allocation, in order, each running for exactly the duration. */
  lemma LeaseBatchShape(s: PlaneState, offers: seq<ResourceOffer>, order: Order, ids: FreshIds)
    requires Fresh(s, offers, order, ids) && LeaseBatch(offers, order, ids).Ok?
    ensures var (node, batch) := LeaseBatch(offers, order, ids).value;
            && PlanOf(order.requirement, offers, ids.node) == Ok(node)
            && order.now != UNIX_EPOCH && order.duration != 0
            && |batch| == |node.resources.allocations| > 0
            && (forall i :: 0 <= i < |batch| ==>
                  && batch[i] == ExpectedLease(
                       node.resources.allocations[i], ids.lease(i), node.id, order.now, order.duration)
                  && batch[i].Valid()
                  && Canonical(node.resources.allocations[i].participantId))
            && DistinctBy(batch, (l: Lease) => l.id.id)
            && LeaseIds(batch) !! s.leases.Keys
  {
    var (node, batch) := LeaseBatch(offers, order, ids).value;
    var allocations := node.resources.allocations;
    PlannedNode(offers, order, ids);
    LeasesForIff(node, |allocations|, ids.lease, order.now, order.duration);
    forall i | 0 <= i < |batch|
      ensures batch[i] == ExpectedLease(allocations[i], ids.lease(i), node.id, order.now, order.duration)
      ensures batch[i].Valid() && Canonical(allocations[i].participantId)
    {
      assert allocations[i] in allocations;
      assert Ok(batch[i]) == LeaseFor(allocations[i], ids.lease(i), node.id, order.now, order.duration);
      LeaseForIff(allocations[i], ids.lease(i), node.id, order.now, order.duration);
    }
    BatchIdsAreFresh(s, offers, order, ids, batch);
  }

  lemma BatchIdsAreFresh(s: PlaneState, offers: seq<ResourceOffer>, order: Order, ids: FreshIds, batch: seq<Lease>)
    requires Fresh(s, offers, order, ids) && |batch| == LeasesDrawn(offers, order.requirement)
    requires forall i :: 0 <= i < |batch| ==> batch[i].id.id == ids.lease(i)
    ensures DistinctBy(batch, (l: Lease) => l.id.id)
    ensures LeaseIds(batch) !! s.leases.Keys
  {
    forall i, j | 0 <= i < j < |batch| ensures batch[i].id.id != batch[j].id.id {
      assert ids.lease(i) != ids.lease(j);
    }
    forall k | k in LeaseIds(batch) ensures k !in s.leases {
      var i :| 0 <= i < |batch| && batch[i].id.id == k;
      assert ids.lease(i) !in s.leases;
    }
  }

  /**
   Leasing is all or nothing: on failure the lease map is untouched; on success it has gained
   exactly one lease per allocation, each for exactly the requested span.
   */
  lemma LeasingIsAtomic(s: PlaneState, offers: seq<ResourceOffer>, order: Order, ids: FreshIds)
    requires Fresh(s, offers, order, ids)
    ensures var (after, r) := LeasedNode(s, offers, order, ids);
            && after.machines == s.machines && after.nodes == s.nodes
            && (r.Err? ==> after == s)
            && (r.Ok? ==>
                  var (node, batch) := r.value;
                  && |batch| == |node.resources.allocations|
                  && after.leases.Keys == s.leases.Keys + LeaseIds(batch)
                  && LeaseIds(batch) !! s.leases.Keys
                  && |after.leases| == |s.leases| + |batch|
                  && (forall k <- s.leases :: after.leases[k] == s.leases[k])
                  && (forall l <- batch ::
                        && after.leases[l.id.id] == l && l.Valid()
                        && l.resources.lifetime == Some(order.duration)
                        && l.createdAt == order.now && l.expiresAt == order.now + order.duration))
  {
    if LeaseBatch(offers, order, ids).Ok? {
      var (node, batch) := LeaseBatch(offers, order, ids).value;
      LeaseBatchShape(s, offers, order, ids);
      StoredContents(s.leases, batch);
      IdCount(batch);
      var stored := Stored(s.leases, batch);
      assert |stored.Keys| == |stored| && |s.leases.Keys| == |s.leases|;
    }
  }

  lemma IdCount(batch: seq<Lease>)
    requires DistinctBy(batch, (l: Lease) => l.id.id)
    ensures |LeaseIds(batch)| == |batch|
  {
    var id := (l: Lease) => l.id.id;
    assert LeaseIds(batch) == Keys(batch, id);
    KeyCount(batch, id);
  }

  /** The machine is always bound: no leased node from a plan is ever refused or rolled back. */
  lemma BindingSucceeds(s: PlaneState, offers: seq<ResourceOffer>, order: Order, ids: FreshIds)
    requires Fresh(s, offers, order, ids) && Attached(LeaseBatch(offers, order, ids), order.runtime).Ok?
    ensures var (node, batch) := Attached(LeaseBatch(offers, order, ids), order.runtime).value;
            BoundToLeases(node, batch, order.now, ids.machine)
            == Ok(VirtualMachine.VirtualMachine(
                    Identity(ids.machine, Kind.VirtualMachine), Identity(ids.node, Kind.LogicalNode),
                    VirtualMachineSpec(order.requirement, order.runtime), batch, Created, order.now))
  {
    var (node, batch) := Attached(LeaseBatch(offers, order, ids), order.runtime).value;
    var allocations := node.resources.allocations;
    LeaseBatchShape(s, offers, order, ids);
    PlannedNode(offers, order, ids);
    PlanOutcome(order.requirement, offers, ids.node);
    NoLeaseFaultIff(node, batch, order.now);
    forall l <- batch ensures LeaseFault(node, l, order.now).None? {
      var i :| 0 <= i < |batch| && batch[i] == l;
      AllocationForDistinct(allocations, i);
    }
    forall i, j | 0 <= i < j < |batch| ensures batch[i].participantId.id != batch[j].participantId.id {
      assert allocations[i].participantId != allocations[j].participantId;
    }
  }

  lemma {:induction false} AllocationForDistinct(allocations: seq<Allocation>, i: nat)
    requires i < |allocations| && DistinctParticipants(allocations)
    ensures AllocationFor(allocations, allocations[i].participantId) == Some(allocations[i])
  {
    var id := allocations[i].participantId;
    if i > 0 {
      assert allocations[0].participantId != id;
      assert allocations[1..][i - 1] == allocations[i];
      AllocationForDistinct(allocations[1..], i - 1);
    }
  }

  /**
   End to end: creation succeeds exactly when the request is well formed and the offers that
   last long enough cover it; and it never fails at the machine, so nothing is rolled back.
   */
  lemma CreationSucceedsIff(s: PlaneState, offers: seq<ResourceOffer>, order: Order, ids: FreshIds)
    requires Fresh(s, offers, order, ids) && WellFormedOffers(offers) && CanonicalOffers(offers)
    ensures LeasedMachine(s, offers, order, ids).1.Ok? <==>
              && order.now != UNIX_EPOCH && order.duration != 0
              && ValidateRuntime(order.runtime).None?
              && ValidRequirement(order.requirement) && Covers(offers, order.requirement)
              && LastsLongEnough(order.requirement.lifetime, order.duration)
    ensures LeasedMachine(s, offers, order, ids).1.Err? ==>
              !LeasedMachine(s, offers, order, ids).1.error.VirtualMachineFailed?
  {
    LeaseBatchIff(s, offers, order, ids);
    if Attached(LeaseBatch(offers, order, ids), order.runtime).Ok? {
      BindingSucceeds(s, offers, order, ids);
    }
  }

  /** The same for a plane over its own registry, whose offers need no further premise. */
  lemma CreationOverRegistry(plane: Plane, order: Order, ids: FreshIds)
    requires plane.registry.Valid() && Fresh(plane.State(), plane.registry.Offers(), order, ids)
    ensures LeasedMachine(plane.State(), plane.registry.Offers(), order, ids).1.Ok? <==>
              && order.now != UNIX_EPOCH && order.duration != 0
              && ValidateRuntime(order.runtime).None?
              && ValidRequirement(order.requirement)
              && Covers(plane.registry.Offers(), order.requirement)
              && LastsLongEnough(order.requirement.lifetime, order.duration)
    ensures var (after, r) := LeasedMachine(plane.State(), plane.registry.Offers(), order, ids);
            r.Err? ==>
              (after == plane.State() <==>
                ValidateRuntime(order.runtime).None? || RefusedEarly(plane.registry.Offers(), order))
  {
    Participants.PublishedOffersAreWellFormed(plane.registry);
    CreationSucceedsIff(plane.State(), plane.registry.Offers(), order, ids);
    if LeasedMachine(plane.State(), plane.registry.Offers(), order, ids).1.Err? {
      FailedCreationIsCleanIff(plane.State(), plane.registry.Offers(), order, ids);
    }
  }

  /** The leases a machine is created with bound when it can return a receipt. */
  lemma ReceiptsFallInTheLease(
    s: PlaneState, offers: seq<ResourceOffer>, order: Order, ids: FreshIds, state: VirtualMachineState,
    node: LogicalNode, workload: Execution.WorkItem, backend: Backend, now: Instant)
    requires Fresh(s, offers, order, ids) && LeasedMachine(s, offers, order, ids).1.Ok?
    requires var vm := LeasedMachine(s, offers, order, ids).1.value.0.(state := state);
             Executed(vm, node, workload, backend, now).1.Ok?
    ensures order.now <= now < order.now + order.duration
  {
    BindingSucceeds(s, offers, order, ids);
    LeaseBatchShape(s, offers, order, ids);
    var (_, batch) := LeaseBatch(offers, order, ids).value;
    assert batch[0] in batch;
  }

  // A failed creation does not always leave the plane as it was.

  lemma FailedCreationIsClean(s: PlaneState, offers: seq<ResourceOffer>, order: Order, ids: FreshIds)
    requires Fresh(s, offers, order, ids) && LeasedMachine(s, offers, order, ids).1.Err?
    ensures LeasedMachine(s, offers, order, ids).0 == s <==>
              ValidateRuntime(order.runtime).None? || LeaseBatch(offers, order, ids).Err?
  {
    LeasingIsAtomic(s, offers, order, ids);
    if LeaseBatch(offers, order, ids).Ok? {
      LeaseBatchShape(s, offers, order, ids);
      if ValidateRuntime(order.runtime).None? {
        BindingSucceeds(s, offers, order, ids);
      } else {
        var (_, batch) := LeaseBatch(offers, order, ids).value;
        assert |Stored(s.leases, batch)| > |s.leases|;
      }
    }
  }

  /** What a request is refused for before its runtime is looked at. */
  ghost predicate RefusedEarly(offers: seq<ResourceOffer>, order: Order) {
    || order.now == UNIX_EPOCH || order.duration == 0
    || !ValidRequirement(order.requirement) || !Covers(offers, order.requirement)
    || !LastsLongEnough(order.requirement.lifetime, order.duration)
  }

  /**
   A failed creation leaves the plane unchanged exactly when the runtime was valid or the
   request was refused before the runtime was looked at; otherwise the leases stay behind.
   */
  lemma FailedCreationIsCleanIff(s: PlaneState, offers: seq<ResourceOffer>, order: Order, ids: FreshIds)
    requires Fresh(s, offers, order, ids) && WellFormedOffers(offers) && CanonicalOffers(offers)
    requires LeasedMachine(s, offers, order, ids).1.Err?
    ensures LeasedMachine(s, offers, order, ids).0 == s <==>
              ValidateRuntime(order.runtime).None? || RefusedEarly(offers, order)
  {
    FailedCreationIsClean(s, offers, order, ids);
    LeaseBatchIff(s, offers, order, ids);
  }
}
