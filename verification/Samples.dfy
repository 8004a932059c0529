/** Concrete identifiers and requests on an empty plane, for the examples. */
module Samples {
  import opened Prelude
  import opened Strings
  import opened Identities
  import opened Resource
  import opened Nodes
  import opened Scheduler
  import opened SchedulerLaws
  import opened Control
  import opened ControlLaws

  // "aaaaaaaa-aaaa-4aaa-aaaa-aaaaaaaaaaaa"
  const SAMPLE_ID: Text :=
    [0x61, 0x61, 0x61, 0x61, 0x61, 0x61, 0x61, 0x61, 0x2D,
     0x61, 0x61, 0x61, 0x61, 0x2D,
     0x34, 0x61, 0x61, 0x61, 0x2D,
     0x61, 0x61, 0x61, 0x61, 0x2D,
     0x61, 0x61, 0x61, 0x61, 0x61, 0x61, 0x61, 0x61, 0x61, 0x61, 0x61, 0x61]

  function SampleLease(i: nat): Text {
    SAMPLE_ID
  }

  const SAMPLE_IDS := FreshIds(SAMPLE_ID, SampleLease, SAMPLE_ID)

  const EMPTY_PLANE := PlaneState(map[], map[], map[])

  const ONE_CORE := ZERO.(cpu := 1.0)

  const SAMPLE_OFFERS := [ResourceOffer(SAMPLE_ID, ONE_CORE)]

  lemma {:induction false} GreedyIsShort(requirement: ResourceFragment, offers: seq<ResourceOffer>, total: ResourceFragment)
    ensures |Greedy(requirement, offers, total).0| <= |offers|
  {
    if offers != [] {
      match AllocationShare(offers[0].resources, Remaining(requirement, total))
      case None => GreedyIsShort(requirement, offers[1..], total);
      case Some(share) => GreedyIsShort(requirement, offers[1..], Add(total, share));
    }
  }

  /** No request draws more leases than there are offers. */
  lemma DrawsAtMostOnePerOffer(offers: seq<ResourceOffer>, requirement: ResourceFragment)
    ensures LeasesDrawn(offers, requirement) <= |offers|
  {
    SortSorts(offers);
    assert |SortOffers(offers)| == |multiset(SortOffers(offers))| == |offers|;
    GreedyIsShort(requirement, SortOffers(offers), ZERO);
  }

  /** On an empty plane a single identifier of each kind is fresh for a request to one participant. */
  lemma SampleIdsAreFresh(offers: seq<ResourceOffer>, order: Order)
    requires |offers| == 1
    ensures Fresh(EMPTY_PLANE, offers, order, SAMPLE_IDS)
  {
    DrawsAtMostOnePerOffer(offers, order.requirement);
  }

  lemma SampleOffersCover()
    ensures WellFormedOffers(SAMPLE_OFFERS) && CanonicalOffers(SAMPLE_OFFERS) && Covers(SAMPLE_OFFERS, ONE_CORE)
  {
    forall d: Dimension ensures Supply(SAMPLE_OFFERS, ONE_CORE, d) >= Amount(ONE_CORE, d) {
      assert SAMPLE_OFFERS[1..] == [];
    }
  }
}
