/** Resource fragments and their composition (src/resource.rs). */
module Resource {
  import opened Prelude
  import opened Strings

  /**
   CPU cores are exact reals, so a negative amount is representable but no infinity or
   NaN is; the wire model covers those bit patterns.
   */
  datatype ResourceFragment = ResourceFragment(
    cpu: real,
    memory: u64,
    storage: u64,
    network: u64,
    gpu: u32,
    lifetime: Option<Duration>)

  // The five capacity dimensions; the lifetime is a bound, not a capacity.
  datatype Dimension = Cpu | Memory | Storage | Network | Gpu

  datatype Allocation = Allocation(participantId: Text, resources: ResourceFragment)

  datatype CompositeResource = CompositeResource(capacity: ResourceFragment, allocations: seq<Allocation>)

  datatype ResourceError =
    | InvalidCpu
    | EmptyRequirement
    | EmptyComposite
    | InvalidAllocation
    | DuplicateParticipant
    | CapacityMismatch

  const ZERO := ResourceFragment(0.0, 0, 0, 0, 0, None)

  function Amount(f: ResourceFragment, d: Dimension): real {
    match d
    case Cpu => f.cpu
    case Memory => f.memory as real
    case Storage => f.storage as real
    case Network => f.network as real
    case Gpu => f.gpu as real
  }

  /** Two fragments offer the same capacity; their lifetimes may differ. */
  predicate SameCapacity(a: ResourceFragment, b: ResourceFragment) {
    a.cpu == b.cpu && a.memory == b.memory && a.storage == b.storage
    && a.network == b.network && a.gpu == b.gpu
  }

  function Validate(f: ResourceFragment): Option<ResourceError> {
    if f.cpu < 0.0 then Some(InvalidCpu) else None
  }

  predicate IsEmpty(f: ResourceFragment) {
    f.cpu == 0.0 && f.memory == 0 && f.storage == 0 && f.network == 0 && f.gpu == 0
  }

  function ValidateRequirement(f: ResourceFragment): Option<ResourceError> {
    if Validate(f).Some? then Validate(f)
    else if IsEmpty(f) then Some(EmptyRequirement)
    else None
  }

  predicate ValidRequirement(f: ResourceFragment) {
    ValidateRequirement(f).None?
  }

  predicate Satisfies(f: ResourceFragment, requirement: ResourceFragment) {
    && f.cpu >= requirement.cpu
    && f.memory >= requirement.memory
    && f.storage >= requirement.storage
    && f.network >= requirement.network
    && f.gpu >= requirement.gpu
    && (f.lifetime.Some? && requirement.lifetime.Some? ==> f.lifetime.value >= requirement.lifetime.value)
  }

  function SaturatingAdd(a: nat, b: nat, max: nat): (r: nat)
    ensures r <= max
  {
    if a + b <= max then a + b else max
  }

  function ShorterLifetime(a: Option<Duration>, b: Option<Duration>): Option<Duration> {
    if a.None? then b
    else if b.None? then a
    else if b.value < a.value then b
    else a
  }

  function Add(a: ResourceFragment, b: ResourceFragment): ResourceFragment {
    ResourceFragment(
      a.cpu + b.cpu,
      SaturatingAdd(a.memory, b.memory, U64_MAX),
      SaturatingAdd(a.storage, b.storage, U64_MAX),
      SaturatingAdd(a.network, b.network, U64_MAX),
      SaturatingAdd(a.gpu, b.gpu, U32_MAX),
      ShorterLifetime(a.lifetime, b.lifetime))
  }

  /** The capacity accumulated over allocations from left to right. */
  function Capacity(allocations: seq<Allocation>): ResourceFragment {
    if allocations == [] then ZERO
    else
      var last := |allocations| - 1;
      Add(Capacity(allocations[..last]), allocations[last].resources)
  }

  /** The fault of allocation i, given the allocations before it. */
  function FaultAt(allocations: seq<Allocation>, i: nat): Option<ResourceError>
    requires i < |allocations|
  {
    if allocations[i].participantId == [] then Some(InvalidAllocation)
    else if exists j :: 0 <= j < i && allocations[j].participantId == allocations[i].participantId then
      Some(DuplicateParticipant)
    else if !ValidRequirement(allocations[i].resources) then Some(InvalidAllocation)
    else None
  }

  /** The fault of the earliest faulty allocation among the first n. */
  function FirstFault(allocations: seq<Allocation>, n: nat): Option<ResourceError>
    requires n <= |allocations|
  {
    if n == 0 then None
    else if FirstFault(allocations, n - 1).Some? then FirstFault(allocations, n - 1)
    else FaultAt(allocations, n - 1)
  }

  function Composition(allocations: seq<Allocation>): Result<CompositeResource, ResourceError> {
    if allocations == [] then Err(EmptyComposite)
    else
      match FirstFault(allocations, |allocations|)
      case Some(fault) => Err(fault)
      case None => Ok(CompositeResource(Capacity(allocations), allocations))
  }

  method Compose(allocations: seq<Allocation>) returns (r: Result<CompositeResource, ResourceError>)
    ensures r == Composition(allocations)
  {
    if allocations == [] {
      return Err(EmptyComposite);
    }
    var seen: set<Text> := {};
    var capacity := ZERO;
    for i := 0 to |allocations|
      invariant forall id :: id in seen <==> exists j :: 0 <= j < i && allocations[j].participantId == id
      invariant FirstFault(allocations, i).None?
      invariant capacity == Capacity(allocations[..i])
    {
      var allocation := allocations[i];
      assert FaultAt(allocations, i).Some? ==> FirstFault(allocations, |allocations|) == FaultAt(allocations, i) by {
        if FaultAt(allocations, i).Some? {
          FirstFaultStays(allocations, i + 1, |allocations|);
        }
      }
      if allocation.participantId == [] {
        return Err(InvalidAllocation);
      }
      if allocation.participantId in seen {
        return Err(DuplicateParticipant);
      }
      seen := seen + {allocation.participantId};
      if !ValidRequirement(allocation.resources) {
        return Err(InvalidAllocation);
      }
      capacity := Add(capacity, allocation.resources);
      assert allocations[..i + 1][..i] == allocations[..i];
    }
    assert allocations[..|allocations|] == allocations;
    r := Ok(CompositeResource(capacity, allocations));
  }

  lemma {:induction false} FirstFaultStays(allocations: seq<Allocation>, i: nat, n: nat)
    requires i <= n <= |allocations|
    requires FirstFault(allocations, i).Some?
    ensures FirstFault(allocations, n) == FirstFault(allocations, i)
    decreases n
  {
    if i < n {
      FirstFaultStays(allocations, i, n - 1);
    }
  }

  /** What CompositeResource::validate reports: the composition fault, or a tampered capacity. */
  function ValidateComposite(c: CompositeResource): Option<ResourceError> {
    match Composition(c.allocations)
    case Err(fault) => Some(fault)
    case Ok(rebuilt) => if rebuilt.capacity != c.capacity then Some(CapacityMismatch) else None
  }

  /** The first allocation held by a participant. */
  function AllocationFor(allocations: seq<Allocation>, participantId: Text): (r: Option<Allocation>)
    ensures r.Some? ==> r.value in allocations && r.value.participantId == participantId
    ensures r.None? ==> forall a <- allocations :: a.participantId != participantId
  {
    if allocations == [] then None
    else if allocations[0].participantId == participantId then Some(allocations[0])
    else AllocationFor(allocations[1..], participantId)
  }
}
