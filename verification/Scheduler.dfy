/** The aggregating scheduler (src/scheduler.rs): a greedy plan over sorted offers. */
module Scheduler {
  import opened Prelude
  import opened Strings
  import opened Resource
  import opened Nodes

  datatype ResourceOffer = ResourceOffer(participantId: Text, resources: ResourceFragment)

  datatype SchedulerError = InvalidRequirement | InsufficientResources | InvalidOffer

  function Minus(a: nat, b: nat): nat {
    if a <= b then 0 else a - b
  }

  function Min(a: nat, b: nat): nat {
    if b < a then b else a
  }

  function Remaining(required: ResourceFragment, granted: ResourceFragment): ResourceFragment {
    ResourceFragment(
      if required.cpu - granted.cpu < 0.0 then 0.0 else required.cpu - granted.cpu,
      Minus(required.memory, granted.memory),
      Minus(required.storage, granted.storage),
      Minus(required.network, granted.network),
      Minus(required.gpu, granted.gpu),
      required.lifetime)
  }

  /** An offer that would end before the requirement does takes no part. */
  predicate Eligible(available: ResourceFragment, required: ResourceFragment) {
    available.lifetime.Some? && required.lifetime.Some? ==> available.lifetime.value >= required.lifetime.value
  }

  function AllocationShare(available: ResourceFragment, remaining: ResourceFragment): Option<ResourceFragment> {
    if !Eligible(available, remaining) then None
    else
      var share := ResourceFragment(
                     if remaining.cpu < available.cpu then remaining.cpu else available.cpu,
                     Min(available.memory, remaining.memory),
                     Min(available.storage, remaining.storage),
                     Min(available.network, remaining.network),
                     Min(available.gpu, remaining.gpu),
                     remaining.lifetime);
      if IsEmpty(share) then None else Some(share)
  }

  function Insert(o: ResourceOffer, sorted: seq<ResourceOffer>): seq<ResourceOffer> {
    if sorted == [] || AtMost(o.participantId, sorted[0].participantId) then [o] + sorted
    else [sorted[0]] + Insert(o, sorted[1..])
  }

  /** The library's stable sort by participant. */
  function SortOffers(offers: seq<ResourceOffer>): seq<ResourceOffer> {
    if offers == [] then [] else Insert(offers[0], SortOffers(offers[1..]))
  }

  /** The check made on the complete offer set before anything is allocated. */
  predicate WellFormedOffers(offers: seq<ResourceOffer>) {
    && DistinctBy(offers, (o: ResourceOffer) => o.participantId)
    && (forall o <- offers :: o.participantId != [] && Validate(o.resources).None?)
  }

  /** The allocations the greedy loop makes from a running total, and the total it ends with. */
  function Greedy(requirement: ResourceFragment, offers: seq<ResourceOffer>, total: ResourceFragment)
    : (seq<Allocation>, ResourceFragment)
  {
    if offers == [] then ([], total)
    else
      match AllocationShare(offers[0].resources, Remaining(requirement, total))
      case None => Greedy(requirement, offers[1..], total)
      case Some(share) =>
        var next := Add(total, share);
        var allocation := Allocation(offers[0].participantId, share);
        if Satisfies(next, requirement) then ([allocation], next)
        else
          var (rest, final) := Greedy(requirement, offers[1..], next);
          ([allocation] + rest, final)
  }

  function PlanOf(requirement: ResourceFragment, offers: seq<ResourceOffer>, nodeId: Text)
    : Result<LogicalNode, SchedulerError>
  {
    var sorted := SortOffers(offers);
    var (allocations, total) := Greedy(requirement, sorted, ZERO);
    if !ValidRequirement(requirement) then Err(InvalidRequirement)
    else if !WellFormedOffers(sorted) then Err(InvalidOffer)
    else if !Satisfies(total, requirement) then Err(InsufficientResources)
    else
      match Composition(allocations)
      case Err(_) => Err(InvalidOffer)
      case Ok(resources) =>
        if ValidateComposite(resources).Some? then Err(InvalidOffer)
        else Ok(LogicalNode(nodeId, resources, UNBOUND))
  }

  ghost function Continued(made: seq<Allocation>, rest: (seq<Allocation>, ResourceFragment))
    : (seq<Allocation>, ResourceFragment)
  {
    (made + rest.0, rest.1)
  }

  lemma ContinuedFurther(made: seq<Allocation>, a: Allocation, rest: (seq<Allocation>, ResourceFragment))
    ensures Continued(made, ([a] + rest.0, rest.1)) == Continued(made + [a], rest)
    ensures Continued(made, ([a], rest.1)) == (made + [a], rest.1)
  {
    assert made + ([a] + rest.0) == made + [a] + rest.0;
  }

  /** The first loop: no offer may be anonymous, unsound or repeated. */
  method CheckOffers(sorted: seq<ResourceOffer>) returns (ok: bool)
    ensures ok <==> WellFormedOffers(sorted)
  {
    var seenParticipants: set<Text> := {};
    for i := 0 to |sorted|
      invariant forall id :: id in seenParticipants <==> exists j :: 0 <= j < i && sorted[j].participantId == id
      invariant forall j, k :: 0 <= j < k < i ==> sorted[j].participantId != sorted[k].participantId
      invariant forall j :: 0 <= j < i ==> sorted[j].participantId != [] && Validate(sorted[j].resources).None?
    {
      var offer := sorted[i];
      if offer.participantId == [] || Validate(offer.resources).Some? || offer.participantId in seenParticipants {
        assert offer in sorted;
        return false;
      }
      seenParticipants := seenParticipants + {offer.participantId};
    }
    ok := true;
  }

  /** The second loop: take a share of each offer until the requirement is met. */
  method Allocate(requirement: ResourceFragment, sorted: seq<ResourceOffer>)
    returns (allocations: seq<Allocation>, total: ResourceFragment)
    ensures (allocations, total) == Greedy(requirement, sorted, ZERO)
  {
    total := ZERO;
    allocations := [];
    ghost var final := Greedy(requirement, sorted, ZERO);
    assert sorted[0..] == sorted && allocations + final.0 == final.0;
    for i := 0 to |sorted|
      invariant final == Continued(allocations, Greedy(requirement, sorted[i..], total))
    {
      var offer := sorted[i];
      assert sorted[i..][0] == offer && sorted[i..][1..] == sorted[i + 1..];
      var remaining := Remaining(requirement, total);
      var share := AllocationShare(offer.resources, remaining);
      if share.None? {
        continue;
      }
      var allocation := Allocation(offer.participantId, share.value);
      ContinuedFurther(allocations, allocation, Greedy(requirement, sorted[i + 1..], Add(total, share.value)));
      total := Add(total, share.value);
      allocations := allocations + [allocation];
      if Satisfies(total, requirement) {
        break;
      }
    }
    assert allocations + [] == allocations;
  }

  /** The planner itself; nodeId is the fresh identifier it would draw for the node. */
  method Plan(requirement: ResourceFragment, offers: seq<ResourceOffer>, nodeId: Text)
    returns (r: Result<LogicalNode, SchedulerError>)
    ensures r == PlanOf(requirement, offers, nodeId)
  {
    if !ValidRequirement(requirement) {
      return Err(InvalidRequirement);
    }
    var sorted := SortOffers(offers);
    var wellFormed := CheckOffers(sorted);
    if !wellFormed {
      return Err(InvalidOffer);
    }
    var allocations, total := Allocate(requirement, sorted);
    if !Satisfies(total, requirement) {
      return Err(InsufficientResources);
    }
    var resources := Compose(allocations);
    if resources.Err? || ValidateComposite(resources.value).Some? {
      return Err(InvalidOffer);
    }
    r := Ok(LogicalNode(nodeId, resources.value, UNBOUND));
  }
}
