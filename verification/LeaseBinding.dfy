/** A machine's leases and its node's allocations correspond one to one. */
module LeaseBinding {
  import opened Prelude
  import opened Strings
  import opened Identities
  import opened Resource
  import opened CompositionLaws
  import opened Nodes
  import opened Leases
  import opened Execution
  import opened VirtualMachines

  /** What the checking loop has established once it accepts the leases. */
  ghost predicate Matched(leases: seq<Lease>, allocations: seq<Allocation>) {
    && |leases| == |allocations|
    && DistinctLeaseholders(leases)
    && (forall l <- leases ::
          && AllocationFor(allocations, l.participantId.id).Some?
          && SameCapacity(AllocationFor(allocations, l.participantId.id).value.resources, l.resources))
  }

  lemma {:induction false} NoLeaseFaultIff(node: LogicalNode, leases: seq<Lease>, createdAt: Instant)
    ensures LeasesFault(node, leases, createdAt).None? <==>
              forall l <- leases :: LeaseFault(node, l, createdAt).None?
  {
    if leases != [] {
      NoLeaseFaultIff(node, leases[1..], createdAt);
      assert forall l :: l in leases <==> l == leases[0] || l in leases[1..];
    }
  }

  lemma BoundMeansMatched(node: LogicalNode, leases: seq<Lease>, createdAt: Instant, vmId: Text)
    requires BoundToLeases(node, leases, createdAt, vmId).Ok?
    ensures Matched(leases, node.resources.allocations)
  {
    NoLeaseFaultIff(node, leases, createdAt);
    forall l <- leases
      ensures AllocationFor(node.resources.allocations, l.participantId.id).Some?
      ensures SameCapacity(AllocationFor(node.resources.allocations, l.participantId.id).value.resources, l.resources)
    {
      assert LeaseFault(node, l, createdAt).None?;
    }
  }

  lemma {:induction false} AllocationForWithout(allocations: seq<Allocation>, k: nat, id: Text)
    requires k < |allocations| && allocations[k].participantId != id
    ensures AllocationFor(Without(allocations, k), id) == AllocationFor(allocations, id)
  {
    if k == 0 {
      assert Without(allocations, 0) == allocations[1..];
    } else {
      assert Without(allocations, k) == [allocations[0]] + Without(allocations[1..], k - 1);
      assert Without(allocations, k)[1..] == Without(allocations[1..], k - 1);
      AllocationForWithout(allocations[1..], k - 1, id);
    }
  }

  function LeasedAmount(leases: seq<Lease>, d: Dimension): real {
    if leases == [] then 0.0
    else LeasedAmount(leases[..|leases| - 1], d) + Amount(leases[|leases| - 1].resources, d)
  }

  lemma {:induction false} FirstIndexFor(allocations: seq<Allocation>, id: Text) returns (k: nat)
    requires AllocationFor(allocations, id).Some?
    ensures k < |allocations| && allocations[k] == AllocationFor(allocations, id).value
  {
    if allocations[0].participantId == id {
      k := 0;
    } else {
      k := FirstIndexFor(allocations[1..], id);
      k := k + 1;
    }
  }

  /** Every allocation is backed by a lease of its own. */
  ghost predicate OneToOne(leases: seq<Lease>, allocations: seq<Allocation>) {
    && DistinctParticipants(allocations)
    && (forall a <- allocations :: exists l <- leases :: Backs(l, a))
  }

  predicate Backs(l: Lease, a: Allocation) {
    l.participantId.id == a.participantId && SameCapacity(a.resources, l.resources)
  }

  /** Taking away the last lease together with its allocation leaves a smaller match. */
  lemma RemoveLast(leases: seq<Lease>, allocations: seq<Allocation>) returns (k: nat)
    requires Matched(leases, allocations) && leases != []
    ensures k < |allocations| && Backs(leases[|leases| - 1], allocations[k])
    ensures Matched(leases[..|leases| - 1], Without(allocations, k))
    ensures forall l <- leases[..|leases| - 1] :: l.participantId.id != allocations[k].participantId
  {
    var last := |leases| - 1;
    var id := leases[last].participantId.id;
    assert leases[last] in leases;
    k := FirstIndexFor(allocations, id);
    forall l <- leases[..last]
      ensures l in leases && l.participantId.id != id
      ensures AllocationFor(Without(allocations, k), l.participantId.id) == AllocationFor(allocations, l.participantId.id)
    {
      var i :| 0 <= i < last && leases[..last][i] == l;
      assert leases[i] == l;
      AllocationForWithout(allocations, k, l.participantId.id);
    }
  }

  lemma RestoreLast(leases: seq<Lease>, allocations: seq<Allocation>, k: nat)
    requires leases != [] && k < |allocations| && Backs(leases[|leases| - 1], allocations[k])
    requires OneToOne(leases[..|leases| - 1], Without(allocations, k))
    requires forall l <- leases[..|leases| - 1] :: l.participantId.id != allocations[k].participantId
    ensures OneToOne(leases, allocations)
  {
    var last := |leases| - 1;
    var rest := Without(allocations, k);
    assert leases == leases[..last] + [leases[last]];
    forall a <- rest ensures a.participantId != allocations[k].participantId {
      var l :| l in leases[..last] && Backs(l, a);
    }
    RestoringKeepsDistinct(allocations, k);
    forall a <- allocations ensures exists l <- leases :: Backs(l, a) {
      assert a in multiset(rest) + multiset{allocations[k]};
      if a in rest {
        var l :| l in leases[..last] && Backs(l, a);
        assert l in leases;
      } else {
        assert leases[last] in leases;
      }
    }
  }

  /**
   As many leases as allocations, held by distinct participants who all have an allocation,
   leave no allocation without its lease: the pigeonhole argument.
   */
  lemma {:induction false} MatchedIsOneToOne(leases: seq<Lease>, allocations: seq<Allocation>)
    requires Matched(leases, allocations)
    ensures OneToOne(leases, allocations)
  {
    if leases != [] {
      var k := RemoveLast(leases, allocations);
      MatchedIsOneToOne(leases[..|leases| - 1], Without(allocations, k));
      RestoreLast(leases, allocations, k);
    }
  }

  lemma {:induction false} MatchedAmounts(leases: seq<Lease>, allocations: seq<Allocation>, d: Dimension)
    requires Matched(leases, allocations)
    ensures LeasedAmount(leases, d) == Sum(allocations, d)
  {
    if leases != [] {
      var k := RemoveLast(leases, allocations);
      MatchedAmounts(leases[..|leases| - 1], Without(allocations, k), d);
      SumWithout(allocations, k, d);
    }
  }

  lemma RestoringKeepsDistinct(s: seq<Allocation>, k: nat)
    requires k < |s| && DistinctParticipants(Without(s, k))
    requires forall a <- Without(s, k) :: a.participantId != s[k].participantId
    ensures DistinctParticipants(s)
  {
    var rest := Without(s, k);
    WithoutAt(s, k);
    forall i, j | 0 <= i < j < |s| ensures s[i].participantId != s[j].participantId {
      if i != k {
        assert rest[if i < k then i else i - 1] == s[i];
      }
      if j != k {
        assert rest[if j < k then j else j - 1] == s[j];
      }
    }
  }

  lemma {:induction false} LeasedAmountWithout(leases: seq<Lease>, k: nat, d: Dimension)
    requires k < |leases|
    ensures LeasedAmount(leases, d) == LeasedAmount(Without(leases, k), d) + Amount(leases[k].resources, d)
  {
    var last := |leases| - 1;
    if k < last {
      LeasedAmountWithout(leases[..last], k, d);
      assert Without(leases, k)[..last - 1] == Without(leases[..last], k);
      assert Without(leases, k)[last - 1] == leases[last];
    } else {
      assert Without(leases, k) == leases[..last];
    }
  }

  lemma {:induction false} LeasedAmountIgnoresOrder(a: seq<Lease>, b: seq<Lease>, d: Dimension)
    requires multiset(a) == multiset(b)
    ensures LeasedAmount(a, d) == LeasedAmount(b, d)
    decreases |a|
  {
    if a == [] {
      ReorderingOfNothing(b);
    } else {
      var k := LastOfReordering(a, b);
      LeasedAmountIgnoresOrder(a[..|a| - 1], Without(b, k), d);
      LeasedAmountWithout(b, k, d);
    }
  }

  /**
   Whenever a machine is bound to leases, every allocation has exactly one lease, of the same
   capacity, and every lease exactly one allocation.
   */
  lemma LeasesMatchAllocations(node: LogicalNode, leases: seq<Lease>, createdAt: Instant, vmId: Text)
    requires BoundToLeases(node, leases, createdAt, vmId).Ok?
    ensures var allocations := node.resources.allocations;
            && |leases| == |allocations|
            && DistinctLeaseholders(leases) && DistinctParticipants(allocations)
            && (forall l <- leases :: l.Valid() && exists a <- allocations :: Backs(l, a))
            && (forall a <- allocations :: exists l <- leases :: Backs(l, a))
  {
    var allocations := node.resources.allocations;
    BoundMeansMatched(node, leases, createdAt, vmId);
    NoLeaseFaultIff(node, leases, createdAt);
    MatchedIsOneToOne(leases, allocations);
    forall l <- leases ensures l.Valid() && exists a <- allocations :: Backs(l, a) {
      assert LeaseFault(node, l, createdAt).None?;
      assert Backs(l, AllocationFor(allocations, l.participantId.id).value);
    }
  }

  /** If the node's composite validates, its leases, summed in any order, are the machine's resources. */
  lemma LeasesAddUpToMachine(
    node: LogicalNode, leases: seq<Lease>, createdAt: Instant, vmId: Text, order: seq<Lease>, d: Dimension)
    requires BoundToLeases(node, leases, createdAt, vmId).Ok? && ValidateComposite(node.resources).None?
    requires multiset(order) == multiset(leases)
    ensures Amount(BoundToLeases(node, leases, createdAt, vmId).value.spec.resources, d)
            == Clamped(d, LeasedAmount(order, d))
  {
    BoundMeansMatched(node, leases, createdAt, vmId);
    MatchedAmounts(leases, node.resources.allocations, d);
    LeasedAmountIgnoresOrder(order, leases, d);
    CapacityIsClampedSum(node.resources.allocations, d);
  }

  /** A leased machine can return a receipt only while every one of its leases is active. */
  lemma ReceiptsNeedActiveLeases(vm: VirtualMachine, node: LogicalNode, workload: WorkItem, backend: Backend, now: Instant)
    requires Executed(vm, node, workload, backend, now).1.Ok?
    ensures vm.state == Running && forall l <- vm.leases :: l.createdAt <= now < l.expiresAt
    ensures node.resources.capacity == vm.spec.resources && node.runtime == vm.spec.runtime
    ensures Identity(node.id, Kind.LogicalNode) == vm.nodeId
  {
  }

  // When binding succeeds, and what is reported otherwise

  /** A lease that fits the node: for it, running at the time, and of its participant's first allocation's capacity. */
  ghost predicate Fitting(node: LogicalNode, l: Lease, createdAt: Instant) {
    && l.Valid()
    && l.logicalNodeId.id == node.id
    && l.createdAt <= createdAt < l.expiresAt
    && exists k :: 0 <= k < |node.resources.allocations|
         && var a := node.resources.allocations[k];
         && a.participantId == l.participantId.id
         && (forall j :: 0 <= j < k ==> node.resources.allocations[j].participantId != l.participantId.id)
         && forall d: Dimension :: Amount(a.resources, d) == Amount(l.resources, d)
  }

  lemma FirstAllocationFor(allocations: seq<Allocation>, id: Text) returns (k: nat)
    requires AllocationFor(allocations, id).Some?
    ensures k < |allocations| && allocations[k] == AllocationFor(allocations, id).value
    ensures forall j :: 0 <= j < k ==> allocations[j].participantId != id
  {
    if allocations[0].participantId == id {
      k := 0;
    } else {
      var rest := FirstAllocationFor(allocations[1..], id);
      k := rest + 1;
      assert forall j :: 1 <= j < k ==> allocations[j] == allocations[1..][j - 1];
    }
  }

  lemma SameCapacityIff(a: ResourceFragment, b: ResourceFragment)
    ensures SameCapacity(a, b) <==> forall d: Dimension :: Amount(a, d) == Amount(b, d)
  {
    if forall d: Dimension :: Amount(a, d) == Amount(b, d) {
      assert Amount(a, Cpu) == Amount(b, Cpu) && Amount(a, Memory) == Amount(b, Memory);
      assert Amount(a, Storage) == Amount(b, Storage) && Amount(a, Network) == Amount(b, Network);
      assert Amount(a, Gpu) == Amount(b, Gpu);
    }
  }

  /** The first thing wrong with a lease, if it does not fit. */
  lemma LeaseFaultOutcome(node: LogicalNode, l: Lease, createdAt: Instant)
    ensures LeaseFault(node, l, createdAt).None? <==> Fitting(node, l, createdAt)
    ensures !Fitting(node, l, createdAt) ==>
              LeaseFault(node, l, createdAt) == Some(
                if !l.Valid() then InvalidVmLease
                else if l.logicalNodeId.id != node.id then LeaseNodeMismatch
                else if !(l.createdAt <= createdAt < l.expiresAt) then LeaseExpired
                else if forall a <- node.resources.allocations :: a.participantId != l.participantId.id
                then LeaseParticipantMismatch
                else LeaseResourceMismatch)
  {
    var found := AllocationFor(node.resources.allocations, l.participantId.id);
    if found.Some? {
      var k := FirstAllocationFor(node.resources.allocations, l.participantId.id);
      SameCapacityIff(found.value.resources, l.resources);
    }
  }

  lemma {:induction false} LeasesFaultIsFirst(node: LogicalNode, leases: seq<Lease>, createdAt: Instant) returns (k: nat)
    requires LeasesFault(node, leases, createdAt).Some?
    ensures k < |leases| && LeaseFault(node, leases[k], createdAt) == LeasesFault(node, leases, createdAt)
    ensures forall i :: 0 <= i < k ==> LeaseFault(node, leases[i], createdAt).None?
  {
    if LeaseFault(node, leases[0], createdAt).Some? {
      k := 0;
    } else {
      var rest := LeasesFaultIsFirst(node, leases[1..], createdAt);
      k := rest + 1;
    }
  }

  /**
   For any node and any leases: when a machine can be bound to them, the machine it then is,
   and what is reported otherwise, in order.
   */
  lemma BindingOutcome(node: LogicalNode, leases: seq<Lease>, createdAt: Instant, vmId: Text)
    ensures var r := BoundToLeases(node, leases, createdAt, vmId);
            if leases == [] then r == Err(InvalidVmLease)
            else if createdAt == UNIX_EPOCH then r == Err(InvalidVmResources)
            else if !Canonical(node.id) then r == Err(InvalidLogicalNodeIdentity)
            else if forall d: Dimension :: Amount(node.resources.capacity, d) == 0.0 then r == Err(EmptyResources)
            else if node.resources.capacity.cpu < 0.0 then r == Err(InvalidVmResources)
            else if node.runtime.name == [] then r == Err(InvalidRuntime(EmptyRuntimeName))
            else if node.runtime.version == [] then r == Err(InvalidRuntime(EmptyRuntimeVersion))
            else if |leases| != |node.resources.allocations| then r == Err(InvalidVmLease)
            else if exists l <- leases :: !Fitting(node, l, createdAt) then
              exists k :: 0 <= k < |leases| && !Fitting(node, leases[k], createdAt)
                && (forall i :: 0 <= i < k ==> Fitting(node, leases[i], createdAt))
                && LeaseFault(node, leases[k], createdAt).Some?
                && r == Err(LeaseFault(node, leases[k], createdAt).value)
            else if exists i, j :: 0 <= i < j < |leases| && leases[i].participantId.id == leases[j].participantId.id then
              r == Err(InvalidVmLease)
            else
              r == Ok(VirtualMachine.VirtualMachine(
                        Identity(vmId, Kind.VirtualMachine), Identity(node.id, Kind.LogicalNode),
                        VirtualMachineSpec(node.resources.capacity, node.runtime), leases, Created, createdAt))
  {
    SameCapacityIff(node.resources.capacity, ZERO);
    assert forall d: Dimension :: Amount(ZERO, d) == 0.0;
    NoLeaseFaultIff(node, leases, createdAt);
    forall l | l in leases ensures LeaseFault(node, l, createdAt).None? <==> Fitting(node, l, createdAt) {
      LeaseFaultOutcome(node, l, createdAt);
    }
    if LeasesFault(node, leases, createdAt).Some? {
      var k := LeasesFaultIsFirst(node, leases, createdAt);
      forall i | 0 <= i <= k ensures LeaseFault(node, leases[i], createdAt).None? <==> Fitting(node, leases[i], createdAt) {
        assert leases[i] in leases;
      }
    }
  }
}
