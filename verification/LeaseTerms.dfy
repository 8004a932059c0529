/**
 How long leases run, against the allocations and the offers behind them.

 A lease never outlives its allocation. Whether it can outlive the offer that backs the
 allocation depends on the requirement alone: a share takes its lifetime from the requirement
 (src/scheduler.rs:95), so an unbounded requirement forgets that an offer was bounded.
 */
module LeaseTerms {
  import opened Prelude
  import opened Strings
  import opened Identities
  import opened Resource
  import opened Scheduler
  import opened SchedulerLaws
  import opened Leases
  import opened Control
  import opened ControlLaws
  import opened Samples

  /** A lease of the offer's participant runs for no longer than the offer stands. */
  predicate Fits(l: Lease, o: ResourceOffer) {
    o.participantId == l.participantId.id && o.resources.lifetime.Some? ==>
      l.expiresAt - l.createdAt <= o.resources.lifetime.value
  }

  ghost predicate WithinOffers(offers: seq<ResourceOffer>, batch: seq<Lease>) {
    forall l <- batch, o <- offers :: Fits(l, o)
  }

  /** Leases are only made for a duration that every allocation of the plan lasts. */
  lemma LeasesFitAllocations(s: PlaneState, offers: seq<ResourceOffer>, order: Order, ids: FreshIds)
    requires Fresh(s, offers, order, ids) && LeaseBatch(offers, order, ids).Ok?
    ensures LastsLongEnough(order.requirement.lifetime, order.duration)
    ensures var (node, batch) := LeaseBatch(offers, order, ids).value;
            && |batch| == |node.resources.allocations|
            && forall i :: 0 <= i < |batch| && node.resources.allocations[i].resources.lifetime.Some? ==>
                 batch[i].expiresAt - batch[i].createdAt <= node.resources.allocations[i].resources.lifetime.value
  {
    var (node, batch) := LeaseBatch(offers, order, ids).value;
    var allocations := node.resources.allocations;
    LeaseBatchShape(s, offers, order, ids);
    PlannedNode(offers, order, ids);
    LeasesForIff(node, |allocations|, ids.lease, order.now, order.duration);
    assert allocations[0] in allocations;
    LeaseForIff(allocations[0], ids.lease(0), node.id, order.now, order.duration);
    assert forall a <- allocations :: a.resources.lifetime == order.requirement.lifetime;
    assert forall i :: 0 <= i < |batch| ==> allocations[i] in allocations;
  }

  lemma OneOfferEach(offers: seq<ResourceOffer>, a: ResourceOffer, b: ResourceOffer)
    requires WellFormedOffers(offers) && a in offers && b in offers && a.participantId == b.participantId
    ensures a == b
  {
  }

  lemma BoundedRequestsFitOffers(s: PlaneState, offers: seq<ResourceOffer>, order: Order, ids: FreshIds)
    requires Fresh(s, offers, order, ids) && LeaseBatch(offers, order, ids).Ok? && order.requirement.lifetime.Some?
    ensures WithinOffers(offers, LeaseBatch(offers, order, ids).value.1)
  {
    var (node, batch) := LeaseBatch(offers, order, ids).value;
    LeaseBatchShape(s, offers, order, ids);
    LeasesFitAllocations(s, offers, order, ids);
    PlanIsExact(order.requirement, offers, ids.node);
    PlanOutcome(order.requirement, offers, ids.node);
    forall l, o | l in batch && o in offers ensures Fits(l, o) {
      if o.participantId == l.participantId.id {
        var i :| 0 <= i < |batch| && batch[i] == l;
        var a := node.resources.allocations[i];
        assert a in node.resources.allocations;
        var backing :| backing in offers && backing.participantId == a.participantId
                       && Satisfies(backing.resources, a.resources);
        OneOfferEach(offers, backing, o);
      }
    }
  }

  /** One participant with everything that is asked for, but for no time at all. */
  function FleetingOffers(participantId: Text, requirement: ResourceFragment): seq<ResourceOffer> {
    [ResourceOffer(participantId, requirement.(lifetime := Some(0)))]
  }

  lemma FleetingOffersCover(participantId: Text, requirement: ResourceFragment)
    requires requirement.lifetime.None?
    ensures Covers(FleetingOffers(participantId, requirement), requirement)
  {
    var offers := FleetingOffers(participantId, requirement);
    forall d: Dimension ensures Supply(offers, requirement, d) >= Amount(requirement, d) {
      assert offers[1..] == [];
    }
  }

  /** One participant, one identifier of each kind, an empty plane: the lease outlives the offer. */
  lemma UnboundedRequestsCanOutliveOffers(order: Order)
    requires order.now != UNIX_EPOCH && order.duration != 0
    requires ValidRequirement(order.requirement) && order.requirement.lifetime.None?
    ensures var offers := FleetingOffers(SAMPLE_ID, order.requirement);
            var r := LeaseBatch(offers, order, SAMPLE_IDS);
            Fresh(EMPTY_PLANE, offers, order, SAMPLE_IDS) && r.Ok? && !WithinOffers(offers, r.value.1)
  {
    var offers := FleetingOffers(SAMPLE_ID, order.requirement);
    SampleIdsAreFresh(offers, order);
    FleetingOffersCover(SAMPLE_ID, order.requirement);
    LeaseBatchIff(EMPTY_PLANE, offers, order, SAMPLE_IDS);
    LeaseBatchShape(EMPTY_PLANE, offers, order, SAMPLE_IDS);
    PlanIsExact(order.requirement, offers, SAMPLE_IDS.node);
    var (node, batch) := LeaseBatch(offers, order, SAMPLE_IDS).value;
    assert node.resources.allocations[0] in node.resources.allocations;
    assert batch[0] in batch && offers[0] in offers && !Fits(batch[0], offers[0]);
  }

  /** Whatever is offered and stored, the leases made for this request fit the offers behind them. */
  ghost predicate AlwaysFits(order: Order) {
    forall s: PlaneState, offers: seq<ResourceOffer>, ids: FreshIds ::
      Fresh(s, offers, order, ids) && LeaseBatch(offers, order, ids).Ok? ==>
        WithinOffers(offers, LeaseBatch(offers, order, ids).value.1)
  }

  /** A request is sure to get such leases exactly when it bounds its own lifetime. */
  lemma FitIsGuaranteedIff(order: Order)
    requires order.now != UNIX_EPOCH && order.duration != 0 && ValidRequirement(order.requirement)
    ensures AlwaysFits(order) <==> order.requirement.lifetime.Some?
  {
    if order.requirement.lifetime.Some? {
      forall s: PlaneState, offers: seq<ResourceOffer>, ids: FreshIds
        | Fresh(s, offers, order, ids) && LeaseBatch(offers, order, ids).Ok?
        ensures WithinOffers(offers, LeaseBatch(offers, order, ids).value.1)
      {
        BoundedRequestsFitOffers(s, offers, order, ids);
      }
    } else {
      UnboundedRequestsCanOutliveOffers(order);
    }
  }
}
