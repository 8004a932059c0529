/** What a plan promises: when it exists, that it is exact and minimal, and that order is irrelevant. */
module SchedulerLaws {
  import opened Prelude
  import opened Strings
  import opened Resource
  import opened CompositionLaws
  import opened Nodes
  import opened Scheduler

  // Sorting

  predicate Ascending(offers: seq<ResourceOffer>) {
    forall i, j :: 0 <= i < j < |offers| ==> AtMost(offers[i].participantId, offers[j].participantId)
  }

  lemma HeadStaysLeast(head: ResourceOffer, rest: seq<ResourceOffer>)
    requires Ascending(rest) && forall r <- rest :: AtMost(head.participantId, r.participantId)
    ensures Ascending([head] + rest)
    ensures multiset([head] + rest) == multiset{head} + multiset(rest)
  {
    var all := [head] + rest;
    forall i, j | 0 <= i < j < |all| ensures AtMost(all[i].participantId, all[j].participantId) {
      assert all[j] == rest[j - 1] && rest[j - 1] in rest;
      assert i > 0 ==> all[i] == rest[i - 1];
    }
  }

  lemma {:induction false} InsertKeepsOrder(o: ResourceOffer, sorted: seq<ResourceOffer>)
    requires Ascending(sorted)
    ensures Ascending(Insert(o, sorted))
    ensures multiset(Insert(o, sorted)) == multiset(sorted) + multiset{o}
  {
    if sorted != [] {
      assert sorted == [sorted[0]] + sorted[1..];
      if AtMost(o.participantId, sorted[0].participantId) {
        forall s <- sorted ensures AtMost(o.participantId, s.participantId) {
          if s != sorted[0] {
            AtMostTransitive(o.participantId, sorted[0].participantId, s.participantId);
          }
        }
        HeadStaysLeast(o, sorted);
      } else {
        AtMostTotal(o.participantId, sorted[0].participantId);
        InsertKeepsOrder(o, sorted[1..]);
        var rest := Insert(o, sorted[1..]);
        forall r <- rest ensures AtMost(sorted[0].participantId, r.participantId) {
          assert r in multiset(sorted[1..]) + multiset{o};
        }
        HeadStaysLeast(sorted[0], rest);
      }
    }
  }

  lemma {:induction false} SortSorts(offers: seq<ResourceOffer>)
    ensures Ascending(SortOffers(offers))
    ensures multiset(SortOffers(offers)) == multiset(offers)
  {
    if offers != [] {
      SortSorts(offers[1..]);
      InsertKeepsOrder(offers[0], SortOffers(offers[1..]));
      assert offers == [offers[0]] + offers[1..];
    }
  }

  ghost predicate DistinctOffers(offers: seq<ResourceOffer>) {
    DistinctBy(offers, (o: ResourceOffer) => o.participantId)
  }

  /** Distinct participants leave only one sorted order. */
  lemma {:induction false} SortedOrderIsUnique(a: seq<ResourceOffer>, b: seq<ResourceOffer>)
    requires multiset(a) == multiset(b)
    requires Ascending(a) && Ascending(b) && DistinctOffers(a)
    ensures a == b
  {
    assert |a| == |multiset(a)| == |b|;
    if a != [] {
      assert a[0] in multiset(b) && b[0] in multiset(a);
      AtMostAntisymmetricHeads(a, b);
      SameTails(a, b);
      assert DistinctOffers(a[1..]);
      SortedOrderIsUnique(a[1..], b[1..]);
      assert a == [a[0]] + a[1..] && b == [b[0]] + b[1..];
    }
  }

  lemma SameTails<T>(a: seq<T>, b: seq<T>)
    requires a != [] && b != [] && a[0] == b[0] && multiset(a) == multiset(b)
    ensures multiset(a[1..]) == multiset(b[1..])
  {
    assert a == [a[0]] + a[1..] && b == [b[0]] + b[1..];
    assert multiset(a[1..]) == multiset(a) - multiset{a[0]};
    assert multiset(b[1..]) == multiset(b) - multiset{b[0]};
  }

  lemma AtMostAntisymmetricHeads(a: seq<ResourceOffer>, b: seq<ResourceOffer>)
    requires a != [] && b != [] && a[0] in b && b[0] in a
    requires Ascending(a) && Ascending(b) && DistinctOffers(a)
    ensures a[0] == b[0]
  {
    if a[0] != b[0] {
      AtMostAntisymmetric(a[0].participantId, b[0].participantId);
    }
  }

  lemma WellFormedIgnoresOrder(a: seq<ResourceOffer>, b: seq<ResourceOffer>)
    requires multiset(a) == multiset(b) && WellFormedOffers(a)
    ensures WellFormedOffers(b)
  {
    DistinctIgnoresOrder(a, b, (o: ResourceOffer) => o.participantId);
    forall o <- b ensures o.participantId != [] && Validate(o.resources).None? {
      assert o in multiset(a);
    }
  }

  /** The plan, or the error, is the same for every order in which the same offers arrive. */
  lemma PlanIgnoresOrder(
    requirement: ResourceFragment, a: seq<ResourceOffer>, b: seq<ResourceOffer>, nodeId: Text)
    requires multiset(a) == multiset(b)
    ensures PlanOf(requirement, a, nodeId) == PlanOf(requirement, b, nodeId)
  {
    SortSorts(a);
    SortSorts(b);
    if WellFormedOffers(SortOffers(a)) {
      SortedOrderIsUnique(SortOffers(a), SortOffers(b));
    } else if WellFormedOffers(SortOffers(b)) {
      WellFormedIgnoresOrder(SortOffers(b), SortOffers(a));
    }
  }

  // Supply

  /** An offer stands for at least as long as is required; an open end, on either side, is long enough. */
  predicate Lasts(offer: ResourceFragment, requirement: ResourceFragment) {
    || offer.lifetime.None? || requirement.lifetime.None?
    || offer.lifetime.value >= requirement.lifetime.value
  }

  /** What the offers that last long enough provide together, in one dimension. */
  function Supply(offers: seq<ResourceOffer>, requirement: ResourceFragment, d: Dimension): real {
    if offers == [] then 0.0
    else
      (if Lasts(offers[0].resources, requirement) then Amount(offers[0].resources, d) else 0.0)
      + Supply(offers[1..], requirement, d)
  }

  ghost predicate Covers(offers: seq<ResourceOffer>, requirement: ResourceFragment) {
    forall d: Dimension :: Supply(offers, requirement, d) >= Amount(requirement, d)
  }

  lemma {:induction false} SupplyAfterInsert(o: ResourceOffer, s: seq<ResourceOffer>, r: ResourceFragment, d: Dimension)
    ensures Supply(Insert(o, s), r, d) == Supply([o] + s, r, d)
  {
    assert ([o] + s)[1..] == s;
    if s != [] && !AtMost(o.participantId, s[0].participantId) {
      SupplyAfterInsert(o, s[1..], r, d);
      assert ([o] + s[1..])[1..] == s[1..];
    }
  }

  lemma {:induction false} SupplyAfterSort(s: seq<ResourceOffer>, r: ResourceFragment, d: Dimension)
    ensures Supply(SortOffers(s), r, d) == Supply(s, r, d)
  {
    if s != [] {
      SupplyAfterSort(s[1..], r, d);
      SupplyAfterInsert(s[0], SortOffers(s[1..]), r, d);
      assert s == [s[0]] + s[1..];
      assert ([s[0]] + SortOffers(s[1..]))[1..] == SortOffers(s[1..]);
    }
  }

  function Least(a: real, b: real): real {
    if b < a then b else a
  }

  // The greedy loop

  /** A running total that has not passed the requirement in any dimension. */
  ghost predicate Within(total: ResourceFragment, requirement: ResourceFragment) {
    && (forall d: Dimension :: 0.0 <= Amount(total, d) <= Amount(requirement, d))
    && (total.lifetime.None? || total.lifetime == requirement.lifetime)
  }

  ghost predicate SoundOffers(offers: seq<ResourceOffer>) {
    forall o <- offers :: Validate(o.resources).None?
  }

  /** The share of one offer, in one dimension; no share at all means that nothing was to be had. */
  ghost predicate ShareFills(
    offer: ResourceFragment, requirement: ResourceFragment, total: ResourceFragment, d: Dimension)
  {
    var filled := Least(Amount(requirement, d), Amount(total, d) + Amount(offer, d));
    match AllocationShare(offer, Remaining(requirement, total))
    case None => Amount(total, d) == filled
    case Some(share) =>
      && 0.0 <= Amount(share, d) <= Amount(offer, d)
      && Amount(Add(total, share), d) == Amount(total, d) + Amount(share, d) == filled
  }

  lemma RemainingAmount(requirement: ResourceFragment, total: ResourceFragment, d: Dimension)
    requires Amount(total, d) <= Amount(requirement, d)
    ensures Amount(Remaining(requirement, total), d) == Amount(requirement, d) - Amount(total, d)
  {
  }

  lemma ShareAmount(offer: ResourceFragment, remaining: ResourceFragment, d: Dimension)
    requires Lasts(offer, remaining)
    ensures match AllocationShare(offer, remaining)
            case None => Least(Amount(offer, d), Amount(remaining, d)) == 0.0
            case Some(share) => Amount(share, d) == Least(Amount(offer, d), Amount(remaining, d))
  {
  }

  lemma SumIsExact(total: ResourceFragment, share: ResourceFragment, requirement: ResourceFragment, d: Dimension)
    requires Amount(total, d) + Amount(share, d) <= Amount(requirement, d)
    ensures Amount(Add(total, share), d) == Amount(total, d) + Amount(share, d)
  {
  }

  lemma ShareStepAt(requirement: ResourceFragment, offer: ResourceFragment, total: ResourceFragment, d: Dimension)
    requires Within(total, requirement) && Validate(offer).None? && Lasts(offer, requirement)
    ensures ShareFills(offer, requirement, total, d)
  {
    var remaining := Remaining(requirement, total);
    assert 0.0 <= Amount(total, d) <= Amount(requirement, d) && 0.0 <= Amount(offer, d);
    RemainingAmount(requirement, total, d);
    assert Lasts(offer, remaining);
    ShareAmount(offer, remaining, d);
    if AllocationShare(offer, remaining).Some? {
      SumIsExact(total, AllocationShare(offer, remaining).value, requirement, d);
    }
  }

  lemma ShareIsSound(requirement: ResourceFragment, offer: ResourceFragment, total: ResourceFragment)
    requires Validate(offer).None? && AllocationShare(offer, Remaining(requirement, total)).Some?
    ensures var share := AllocationShare(offer, Remaining(requirement, total)).value;
            ValidRequirement(share) && Satisfies(offer, share) && share.lifetime == requirement.lifetime
  {
  }

  lemma ShareStaysWithin(requirement: ResourceFragment, offer: ResourceFragment, total: ResourceFragment)
    requires Within(total, requirement) && AllocationShare(offer, Remaining(requirement, total)).Some?
    requires forall d: Dimension :: ShareFills(offer, requirement, total, d)
    ensures var next := Add(total, AllocationShare(offer, Remaining(requirement, total)).value);
            Within(next, requirement) && next.lifetime == requirement.lifetime
  {
    var next := Add(total, AllocationShare(offer, Remaining(requirement, total)).value);
    forall d: Dimension ensures 0.0 <= Amount(next, d) <= Amount(requirement, d) {
      assert ShareFills(offer, requirement, total, d);
    }
  }

  /** One offer adds what it has or what is still missing, whichever is less, and never saturates. */
  lemma ShareStep(requirement: ResourceFragment, offer: ResourceFragment, total: ResourceFragment)
    requires Within(total, requirement) && Validate(offer).None?
    ensures match AllocationShare(offer, Remaining(requirement, total))
            case None =>
              forall d: Dimension :: Lasts(offer, requirement) ==>
                Amount(total, d) == Least(Amount(requirement, d), Amount(total, d) + Amount(offer, d))
            case Some(share) =>
              && Lasts(offer, requirement)
              && ValidRequirement(share) && Satisfies(offer, share)
              && Within(Add(total, share), requirement)
              && Add(total, share).lifetime == requirement.lifetime
              && (forall d: Dimension ::
                    && Amount(Add(total, share), d) == Amount(total, d) + Amount(share, d)
                    && Amount(Add(total, share), d)
                       == Least(Amount(requirement, d), Amount(total, d) + Amount(offer, d)))
  {
    if Lasts(offer, requirement) {
      forall d: Dimension ensures ShareFills(offer, requirement, total, d) {
        ShareStepAt(requirement, offer, total, d);
      }
      if AllocationShare(offer, Remaining(requirement, total)).Some? {
        ShareIsSound(requirement, offer, total);
        ShareStaysWithin(requirement, offer, total);
      }
    }
  }

  lemma {:induction false} SupplyIsNonNegative(s: seq<ResourceOffer>, r: ResourceFragment, d: Dimension)
    requires SoundOffers(s)
    ensures Supply(s, r, d) >= 0.0
  {
    if s != [] {
      SupplyIsNonNegative(s[1..], r, d);
    }
  }

  lemma SatisfiedMeansReached(total: ResourceFragment, requirement: ResourceFragment)
    requires Within(total, requirement)
    ensures Satisfies(total, requirement) <==> forall d: Dimension :: Amount(total, d) == Amount(requirement, d)
  {
    assert Amount(total, Cpu) <= Amount(requirement, Cpu);
    assert Amount(total, Memory) <= Amount(requirement, Memory);
    assert Amount(total, Storage) <= Amount(requirement, Storage);
    assert Amount(total, Network) <= Amount(requirement, Network);
    assert Amount(total, Gpu) <= Amount(requirement, Gpu);
  }

  /** The loop's total is, in every dimension, the supply so far cut off at the requirement. */
  lemma {:induction false} GreedyTotal(requirement: ResourceFragment, offers: seq<ResourceOffer>, total: ResourceFragment)
    requires Within(total, requirement) && SoundOffers(offers)
    ensures Within(Greedy(requirement, offers, total).1, requirement)
    ensures forall d: Dimension ::
              Amount(Greedy(requirement, offers, total).1, d)
              == Least(Amount(requirement, d), Amount(total, d) + Supply(offers, requirement, d))
  {
    if offers != [] {
      ShareStep(requirement, offers[0].resources, total);
      forall d: Dimension ensures Supply(offers[1..], requirement, d) >= 0.0 {
        SupplyIsNonNegative(offers[1..], requirement, d);
      }
      match AllocationShare(offers[0].resources, Remaining(requirement, total))
      case None =>
        GreedyTotal(requirement, offers[1..], total);
      case Some(share) =>
        var next := Add(total, share);
        SatisfiedMeansReached(next, requirement);
        GreedyTotal(requirement, offers[1..], next);
    }
  }

  /** Every allocation is a real share of its own participant's offer, one per participant. */
  lemma {:induction false} GreedyAllocations(requirement: ResourceFragment, offers: seq<ResourceOffer>, total: ResourceFragment)
    requires Within(total, requirement) && WellFormedOffers(offers)
    ensures var made := Greedy(requirement, offers, total).0;
            && DistinctParticipants(made)
            && (forall a <- made ::
                  && ValidRequirement(a.resources)
                  && exists o <- offers :: o.participantId == a.participantId && Satisfies(o.resources, a.resources))
  {
    if offers != [] {
      var made := Greedy(requirement, offers, total).0;
      ShareStep(requirement, offers[0].resources, total);
      assert WellFormedOffers(offers[1..]);
      assert forall o :: o in offers <==> o == offers[0] || o in offers[1..];
      match AllocationShare(offers[0].resources, Remaining(requirement, total))
      case None =>
        GreedyAllocations(requirement, offers[1..], total);
      case Some(share) =>
        var next := Add(total, share);
        GreedyAllocations(requirement, offers[1..], next);
    }
  }

  lemma {:induction false} GreedySums(
    requirement: ResourceFragment, offers: seq<ResourceOffer>, total: ResourceFragment, d: Dimension)
    requires Within(total, requirement) && SoundOffers(offers)
    ensures var (made, final) := Greedy(requirement, offers, total);
            && Amount(final, d) == Amount(total, d) + Sum(made, d)
            && (made != [] ==> final.lifetime == requirement.lifetime)
            && (made == [] ==> final == total)
            && (forall a <- made :: a.resources.lifetime == requirement.lifetime)
  {
    if offers != [] {
      ShareStep(requirement, offers[0].resources, total);
      match AllocationShare(offers[0].resources, Remaining(requirement, total))
      case None =>
        GreedySums(requirement, offers[1..], total, d);
      case Some(share) =>
        var next := Add(total, share);
        GreedySums(requirement, offers[1..], next, d);
        var allocation := Allocation(offers[0].participantId, share);
        var rest := Greedy(requirement, offers[1..], next).0;
        assert ([allocation] + rest)[1..] == rest && [allocation][1..] == [];
    }
  }

  // The plan

  lemma NeedsSomething(requirement: ResourceFragment)
    requires ValidRequirement(requirement)
    ensures Within(ZERO, requirement)
    ensures !Satisfies(ZERO, requirement)
  {
    assert Amount(ZERO, Cpu) == 0.0;
  }

  lemma GreedyReachesIff(requirement: ResourceFragment, sorted: seq<ResourceOffer>)
    requires ValidRequirement(requirement) && SoundOffers(sorted)
    ensures Satisfies(Greedy(requirement, sorted, ZERO).1, requirement) <==> Covers(sorted, requirement)
  {
    NeedsSomething(requirement);
    GreedyTotal(requirement, sorted, ZERO);
    SatisfiedMeansReached(Greedy(requirement, sorted, ZERO).1, requirement);
  }

  /** When the loop meets the requirement it has allocated exactly the requirement. */
  lemma GreedyIsExact(requirement: ResourceFragment, sorted: seq<ResourceOffer>)
    requires ValidRequirement(requirement) && SoundOffers(sorted)
    requires Satisfies(Greedy(requirement, sorted, ZERO).1, requirement)
    ensures var made := Greedy(requirement, sorted, ZERO).0;
            && made != []
            && Capacity(made) == requirement
            && (forall d: Dimension :: Sum(made, d) == Amount(requirement, d))
  {
    NeedsSomething(requirement);
    GreedyTotal(requirement, sorted, ZERO);
    var (made, total) := Greedy(requirement, sorted, ZERO);
    SatisfiedMeansReached(total, requirement);
    forall d: Dimension
      ensures Sum(made, d) == Amount(requirement, d) == Amount(Capacity(made), d)
    {
      GreedySums(requirement, sorted, ZERO, d);
      CapacityIsClampedSum(made, d);
    }
    GreedySums(requirement, sorted, ZERO, Cpu);
    CapacityLifetimeIsShortest(made);
    assert made[0] in made;
    SameAmountsSameFragment(Capacity(made), requirement);
  }

  lemma GreedyComposes(requirement: ResourceFragment, sorted: seq<ResourceOffer>)
    requires ValidRequirement(requirement) && WellFormedOffers(sorted)
    requires Satisfies(Greedy(requirement, sorted, ZERO).1, requirement)
    ensures var made := Greedy(requirement, sorted, ZERO).0;
            Composition(made) == Ok(CompositeResource(requirement, made))
  {
    NeedsSomething(requirement);
    GreedyIsExact(requirement, sorted);
    GreedyAllocations(requirement, sorted, ZERO);
    var made := Greedy(requirement, sorted, ZERO).0;
    forall a <- made ensures a.participantId != [] {
      var o :| o in sorted && o.participantId == a.participantId;
    }
    CompositionSucceedsIff(made);
  }

  lemma SameAmountsSameFragment(a: ResourceFragment, b: ResourceFragment)
    requires forall d: Dimension :: Amount(a, d) == Amount(b, d)
    requires a.lifetime == b.lifetime
    ensures a == b
  {
    assert Amount(a, Cpu) == Amount(b, Cpu);
    assert Amount(a, Memory) == Amount(b, Memory);
    assert Amount(a, Storage) == Amount(b, Storage);
    assert Amount(a, Network) == Amount(b, Network);
    assert Amount(a, Gpu) == Amount(b, Gpu);
  }

  /** Exactly which inputs lead to a plan and which to each of the three errors. */
  lemma PlanOutcome(requirement: ResourceFragment, offers: seq<ResourceOffer>, nodeId: Text)
    ensures var r := PlanOf(requirement, offers, nodeId);
            && (r.Ok? <==>
                  ValidRequirement(requirement) && WellFormedOffers(offers) && Covers(offers, requirement))
            && (r == Err(InvalidRequirement) <==> !ValidRequirement(requirement))
            && (r == Err(InvalidOffer) <==> ValidRequirement(requirement) && !WellFormedOffers(offers))
            && (r == Err(InsufficientResources) <==>
                  ValidRequirement(requirement) && WellFormedOffers(offers) && !Covers(offers, requirement))
  {
    var sorted := SortOffers(offers);
    SortSorts(offers);
    forall d: Dimension ensures Supply(sorted, requirement, d) == Supply(offers, requirement, d) {
      SupplyAfterSort(offers, requirement, d);
    }
    if WellFormedOffers(offers) {
      WellFormedIgnoresOrder(offers, sorted);
    }
    if WellFormedOffers(sorted) {
      WellFormedIgnoresOrder(sorted, offers);
      if ValidRequirement(requirement) {
        GreedyReachesIff(requirement, sorted);
        if Covers(sorted, requirement) {
          GreedyComposes(requirement, sorted);
        }
      }
    }
  }

  /**
   A plan is exact: its capacity is the requirement in all six fields, each allocation lies
   within the offer of the participant it names, and participants are distinct.
   */
  lemma PlanIsExact(requirement: ResourceFragment, offers: seq<ResourceOffer>, nodeId: Text)
    requires PlanOf(requirement, offers, nodeId).Ok?
    ensures var node := PlanOf(requirement, offers, nodeId).value;
            && node.id == nodeId && node.runtime == UNBOUND
            && node.resources.capacity == requirement
            && ValidateComposite(node.resources).None?
            && DistinctParticipants(node.resources.allocations)
            && (forall a <- node.resources.allocations ::
                  && ValidRequirement(a.resources)
                  && a.resources.lifetime == requirement.lifetime
                  && exists o <- offers :: o.participantId == a.participantId && Satisfies(o.resources, a.resources))
  {
    var sorted := SortOffers(offers);
    SortSorts(offers);
    NeedsSomething(requirement);
    GreedyComposes(requirement, sorted);
    GreedyAllocations(requirement, sorted, ZERO);
    GreedySums(requirement, sorted, ZERO, Cpu);
    assert forall o :: o in sorted <==> o in multiset(offers);
  }

  /** A plan has no slack: without any one allocation the rest no longer meets the requirement. */
  lemma PlanIsIrredundant(requirement: ResourceFragment, offers: seq<ResourceOffer>, nodeId: Text, k: nat)
    requires PlanOf(requirement, offers, nodeId).Ok?
    requires k < |PlanOf(requirement, offers, nodeId).value.resources.allocations|
    ensures var made := PlanOf(requirement, offers, nodeId).value.resources.allocations;
            !Satisfies(Capacity(Without(made, k)), requirement)
  {
    var made := PlanOf(requirement, offers, nodeId).value.resources.allocations;
    PlanIsExact(requirement, offers, nodeId);
    GreedyIsExact(requirement, SortOffers(offers));
    assert ValidRequirement(made[k].resources);
    var d :| Amount(made[k].resources, d) > 0.0 by {
      SomethingPositive(made[k].resources);
    }
    SumWithout(made, k, d);
    CapacityIsClampedSum(Without(made, k), d);
    SatisfiesAmount(Capacity(Without(made, k)), requirement, d);
  }

  lemma SomethingPositive(f: ResourceFragment)
    requires ValidRequirement(f)
    ensures exists d: Dimension :: Amount(f, d) > 0.0
  {
    var d := if f.cpu != 0.0 then Cpu else if f.memory != 0 then Memory
             else if f.storage != 0 then Storage else if f.network != 0 then Network else Gpu;
    assert Amount(f, d) > 0.0;
  }

  lemma SatisfiesAmount(f: ResourceFragment, requirement: ResourceFragment, d: Dimension)
    ensures Satisfies(f, requirement) ==> Amount(f, d) >= Amount(requirement, d)
  {
  }

  // Whose resources are taken

  /** What a later offer is asked for: what it has, or what is still to be found after the earlier ones. */
  function Asked(
    supplied: real, offers: seq<ResourceOffer>, requirement: ResourceFragment, i: nat, d: Dimension): real
    requires i < |offers|
  {
    var found := Least(Amount(requirement, d), supplied + Supply(offers[..i], requirement, d));
    Least(Amount(offers[i].resources, d), Amount(requirement, d) - found)
  }

  /** Offer i is drawn on exactly when it lasts and is asked for something, and then for just that. */
  ghost predicate DrawnOn(
    made: seq<Allocation>, total: ResourceFragment, offers: seq<ResourceOffer>, requirement: ResourceFragment, i: nat)
    requires i < |offers|
  {
    var a := AllocationFor(made, offers[i].participantId);
    && (a.Some? <==>
          && Lasts(offers[i].resources, requirement)
          && exists d: Dimension :: Asked(Amount(total, d), offers, requirement, i, d) > 0.0)
    && (a.Some? ==>
          && a.value.resources.lifetime == requirement.lifetime
          && forall d: Dimension ::
               Amount(a.value.resources, d) == Asked(Amount(total, d), offers, requirement, i, d))
  }

  lemma AskedOfRest(
    supplied: real, next: real, offers: seq<ResourceOffer>, requirement: ResourceFragment, i: nat, d: Dimension)
    requires 0 < i < |offers| && SoundOffers(offers) && 0.0 <= supplied <= Amount(requirement, d)
    requires next == if Lasts(offers[0].resources, requirement)
                     then Least(Amount(requirement, d), supplied + Amount(offers[0].resources, d)) else supplied
    ensures Asked(next, offers[1..], requirement, i - 1, d) == Asked(supplied, offers, requirement, i, d)
  {
    assert offers[..i][1..] == offers[1..][..i - 1];
    SupplyIsNonNegative(offers[1..][..i - 1], requirement, d);
  }

  lemma HeadShare(requirement: ResourceFragment, offers: seq<ResourceOffer>, total: ResourceFragment, d: Dimension)
    requires offers != [] && SoundOffers(offers) && Within(total, requirement)
    requires Lasts(offers[0].resources, requirement)
    ensures match AllocationShare(offers[0].resources, Remaining(requirement, total))
            case None => Asked(Amount(total, d), offers, requirement, 0, d) == 0.0
            case Some(share) => Amount(share, d) == Asked(Amount(total, d), offers, requirement, 0, d)
  {
    ShareStepAt(requirement, offers[0].resources, total, d);
    assert 0.0 <= Amount(total, d) <= Amount(requirement, d);
  }

  lemma {:induction false} NotAmong(made: seq<Allocation>, id: Text)
    requires forall a <- made :: a.participantId != id
    ensures AllocationFor(made, id).None?
  {
    if made != [] {
      NotAmong(made[1..], id);
    }
  }

  lemma HeadIsDrawnOn(requirement: ResourceFragment, offers: seq<ResourceOffer>, total: ResourceFragment)
    requires offers != [] && Within(total, requirement) && WellFormedOffers(offers)
    ensures DrawnOn(Greedy(requirement, offers, total).0, total, offers, requirement, 0)
  {
    var head := offers[0];
    var made := Greedy(requirement, offers, total).0;
    if Lasts(head.resources, requirement) {
      forall d: Dimension {
        HeadShare(requirement, offers, total, d);
      }
    }
    match AllocationShare(head.resources, Remaining(requirement, total))
    case None =>
      HeadIsPassedOver(requirement, offers, total);
    case Some(share) =>
      assert made[0] == Allocation(head.participantId, share);
      assert Lasts(head.resources, requirement) && share.lifetime == requirement.lifetime;
      ShareIsSound(requirement, head.resources, total);
      SomethingPositive(share);
      var d :| Amount(share, d) > 0.0;
      assert Asked(Amount(total, d), offers, requirement, 0, d) > 0.0;
  }

  lemma HeadIsPassedOver(requirement: ResourceFragment, offers: seq<ResourceOffer>, total: ResourceFragment)
    requires offers != [] && Within(total, requirement) && WellFormedOffers(offers)
    requires AllocationShare(offers[0].resources, Remaining(requirement, total)).None?
    ensures AllocationFor(Greedy(requirement, offers, total).0, offers[0].participantId).None?
  {
    var made := Greedy(requirement, offers, total).0;
    GreedyAllocations(requirement, offers[1..], total);
    forall a <- made ensures a.participantId != offers[0].participantId {
      var o :| o in offers[1..] && o.participantId == a.participantId;
      var j :| 1 <= j < |offers| && offers[j] == o;
    }
    NotAmong(made, offers[0].participantId);
  }

  /** The loop draws on each offer in turn for what it has of what is still to be found. */
  lemma {:induction false} GreedyDrawsInOrder(
    requirement: ResourceFragment, offers: seq<ResourceOffer>, total: ResourceFragment, i: nat)
    requires i < |offers| && Within(total, requirement) && WellFormedOffers(offers)
    ensures DrawnOn(Greedy(requirement, offers, total).0, total, offers, requirement, i)
  {
    if i == 0 {
      HeadIsDrawnOn(requirement, offers, total);
    } else {
      var rest := offers[1..];
      assert rest[i - 1] == offers[i] && offers[0].participantId != offers[i].participantId;
      ShareStep(requirement, offers[0].resources, total);
      match AllocationShare(offers[0].resources, Remaining(requirement, total))
      case None =>
        forall d: Dimension {
          AskedOfRest(Amount(total, d), Amount(total, d), offers, requirement, i, d);
        }
        GreedyDrawsInOrder(requirement, rest, total, i - 1);
      case Some(share) =>
        var next := Add(total, share);
        forall d: Dimension {
          AskedOfRest(Amount(total, d), Amount(next, d), offers, requirement, i, d);
        }
        if Satisfies(next, requirement) {
          NothingLeft(requirement, rest, next, i - 1);
        } else {
          GreedyDrawsInOrder(requirement, rest, next, i - 1);
        }
    }
  }

  lemma NothingLeft(requirement: ResourceFragment, offers: seq<ResourceOffer>, total: ResourceFragment, i: nat)
    requires i < |offers| && SoundOffers(offers) && Within(total, requirement) && Satisfies(total, requirement)
    ensures forall d: Dimension :: Asked(Amount(total, d), offers, requirement, i, d) <= 0.0
  {
    SatisfiedMeansReached(total, requirement);
    forall d: Dimension ensures Asked(Amount(total, d), offers, requirement, i, d) <= 0.0 {
      SupplyIsNonNegative(offers[..i], requirement, d);
    }
  }

  /**
   Which participants a plan draws on, and for how much: by ascending identifier, each for what
   it has of what those before it have left to find, and not at all if that is nothing.
   */
  lemma PlanDrawsInOrder(requirement: ResourceFragment, offers: seq<ResourceOffer>, nodeId: Text, i: nat)
    requires PlanOf(requirement, offers, nodeId).Ok? && i < |offers|
    ensures |SortOffers(offers)| == |offers|
    ensures DrawnOn(PlanOf(requirement, offers, nodeId).value.resources.allocations, ZERO,
                    SortOffers(offers), requirement, i)
  {
    SortSorts(offers);
    assert |SortOffers(offers)| == |multiset(SortOffers(offers))| == |offers|;
    PlanOutcome(requirement, offers, nodeId);
    WellFormedIgnoresOrder(offers, SortOffers(offers));
    NeedsSomething(requirement);
    GreedyDrawsInOrder(requirement, SortOffers(offers), ZERO, i);
  }

  /** A participant that offers just what is required, for just as long, is enough by itself. */
  lemma AnEqualOfferIsEnough(requirement: ResourceFragment, participantId: Text, nodeId: Text)
    requires ValidRequirement(requirement) && participantId != []
    ensures PlanOf(requirement, [ResourceOffer(participantId, requirement)], nodeId).Ok?
  {
    var offers := [ResourceOffer(participantId, requirement)];
    forall d: Dimension ensures Supply(offers, requirement, d) >= Amount(requirement, d) {
      assert offers[1..] == [];
    }
    PlanOutcome(requirement, offers, nodeId);
  }
}
