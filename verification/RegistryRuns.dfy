/**
 Whole histories of a registry (src/registry.rs, src/participant.rs): participants are made,
 registered, removed, activated, drained and leave, in any order. A participant outlives its
 registration, so it may be registered again, and another may take its identity.
 */
module RegistryRuns {
  import opened Prelude
  import opened Strings
  import opened Identities
  import opened Resource
  import opened Scheduler
  import opened SchedulerLaws
  import opened Participants

  datatype Record = Record(id: Identity, resources: ResourceFragment, state: State)

  /** Every participant made so far, and which of them is registered under each identifier. */
  datatype Roster = Roster(records: seq<Record>, members: map<Text, nat>)

  /** Activating, draining and leaving are requests for the states they lead to. */
  datatype Event =
    | Make(id: Identity, capability: Capability, resources: ResourceFragment)
    | Enter(who: nat)
    | Remove(member: Identity)
    | Request(asked: nat, next: State)

  const NOBODY := Roster([], map[])

  function Step(r: Roster, e: Event): Roster {
    match e
    case Make(id, capability, resources) =>
      if id.Names(Kind.Participant) && capability.Valid() && ValidRequirement(resources)
      then r.(records := r.records + [Record(id, resources, Joining)]) else r
    case Enter(who) =>
      if who < |r.records| && r.records[who].id.id !in r.members
      then r.(members := r.members[r.records[who].id.id := who]) else r
    case Remove(id) =>
      if id.Names(Kind.Participant) && id.id in r.members then r.(members := r.members - {id.id}) else r
    case Request(who, next) =>
      if who < |r.records|
      then r.(records := r.records[who := r.records[who].(state := Next(r.records[who].state, next))]) else r
  }

  function AfterAll(r: Roster, events: seq<Event>): Roster
    decreases |events|
  {
    if events == [] then r else AfterAll(Step(r, events[0]), events[1..])
  }

  ghost predicate Sound(r: Roster) {
    && (forall p <- r.records :: p.id.Names(Kind.Participant) && ValidRequirement(p.resources))
    && (forall k <- r.members :: r.members[k] < |r.records| && r.records[r.members[k]].id.id == k)
  }

  function PublishedOf(r: Roster, keys: seq<Text>): seq<ResourceOffer>
    requires Sound(r) && forall k <- keys :: k in r.members
  {
    if keys == [] then []
    else
      var p := r.records[r.members[keys[0]]];
      (if p.state == Active then [ResourceOffer(keys[0], p.resources)] else []) + PublishedOf(r, keys[1..])
  }

  /** The offers of the registered active participants, by identifier. */
  function Published(r: Roster): seq<ResourceOffer>
    requires Sound(r)
  {
    PublishedOf(r, SortedKeys(r.members.Keys))
  }

  lemma StepIsSound(r: Roster, e: Event)
    requires Sound(r)
    ensures Sound(Step(r, e))
  {
  }

  lemma {:induction false} HistoryIsSound(r: Roster, events: seq<Event>)
    requires Sound(r)
    ensures Sound(AfterAll(r, events))
    decreases |events|
  {
    if events != [] {
      StepIsSound(r, events[0]);
      HistoryIsSound(Step(r, events[0]), events[1..]);
    }
  }

  /** Whether a member has this offer on display. */
  predicate Displays(r: Roster, k: Text, o: ResourceOffer)
    requires Sound(r) && k in r.members
  {
    r.records[r.members[k]].state == Active && o == ResourceOffer(k, r.records[r.members[k]].resources)
  }

  lemma {:induction false} PublishedContents(r: Roster, keys: seq<Text>)
    requires Sound(r) && forall k <- keys :: k in r.members
    ensures forall o :: o in PublishedOf(r, keys) <==> exists k <- keys :: Displays(r, k, o)
  {
    if keys != [] {
      var rest := keys[1..];
      PublishedContents(r, rest);
      assert keys == [keys[0]] + rest;
      forall o ensures o in PublishedOf(r, keys) <==> exists k <- keys :: Displays(r, k, o) {
        assert o in PublishedOf(r, keys) <==> Displays(r, keys[0], o) || o in PublishedOf(r, rest);
        assert (exists k <- keys :: Displays(r, k, o)) <==> Displays(r, keys[0], o) || exists k <- rest :: Displays(r, k, o);
      }
    }
  }

  lemma {:induction false} PublishedFollowsKeys(r: Roster, keys: seq<Text>)
    requires Sound(r) && AscendingKeys(keys) && forall k <- keys :: k in r.members
    ensures Ascending(PublishedOf(r, keys)) && DistinctOffers(PublishedOf(r, keys))
  {
    if keys != [] {
      var rest := PublishedOf(r, keys[1..]);
      PublishedFollowsKeys(r, keys[1..]);
      PublishedContents(r, keys[1..]);
      forall o <- rest ensures o.participantId != keys[0] && AtMost(keys[0], o.participantId) {
        var k :| k in keys[1..] && Displays(r, k, o);
        var i :| 1 <= i < |keys| && keys[i] == k;
      }
    }
  }

  /**
   After any history what is published is exactly what the registered active participants
   offer: sorted, with distinct canonical identifiers and valid resources, so that a plan over
   it never fails for the shape of its offers.
   */
  lemma HistoriesPublishWellFormedOffers(events: seq<Event>, requirement: ResourceFragment, nodeId: Text)
    ensures Sound(AfterAll(NOBODY, events))
    ensures var r := AfterAll(NOBODY, events);
            var offers := Published(r);
            && (forall o :: o in offers <==> exists k <- r.members :: Displays(r, k, o))
            && Ascending(offers) && WellFormedOffers(offers)
            && (forall o <- offers :: Canonical(o.participantId) && ValidRequirement(o.resources))
            && PlanOf(requirement, offers, nodeId) != Err(InvalidOffer)
  {
    HistoryIsSound(NOBODY, events);
    var r := AfterAll(NOBODY, events);
    PublishedContents(r, SortedKeys(r.members.Keys));
    PublishedFollowsKeys(r, SortedKeys(r.members.Keys));
    forall o <- Published(r) ensures Canonical(o.participantId) && ValidRequirement(o.resources) {
      var k :| k in r.members && Displays(r, k, o);
      assert r.records[r.members[k]] in r.records;
    }
    PlanOutcome(requirement, Published(r), nodeId);
  }

  /** Whatever is registered or asked for afterwards, a participant that has left stays left. */
  lemma {:induction false} LeftStaysLeft(r: Roster, events: seq<Event>, who: nat)
    requires who < |r.records| && r.records[who].state == Left
    ensures who < |AfterAll(r, events).records|
    ensures AfterAll(r, events).records[who] == r.records[who]
    decreases |events|
  {
    if events != [] {
      LeftStaysLeft(Step(r, events[0]), events[1..], who);
    }
  }

  /** So it never offers again, even if it is registered again: its identifier is not published for it. */
  lemma LeftNeverOffersAgain(r: Roster, events: seq<Event>, who: nat)
    requires Sound(r) && who < |r.records| && r.records[who].state == Left
    ensures Sound(AfterAll(r, events))
    ensures var end := AfterAll(r, events);
            forall k <- end.members :: end.members[k] == who ==>
              forall o <- Published(end) :: o.participantId != k
  {
    HistoryIsSound(r, events);
    LeftStaysLeft(r, events, who);
    var end := AfterAll(r, events);
    PublishedContents(end, SortedKeys(end.members.Keys));
  }

  // The roster is what the classes hold

  ghost predicate Shows(registry: Registry, people: seq<Participant>, r: Roster)
    reads registry, people
  {
    && |people| == |r.records|
    && (forall i, j :: 0 <= i < j < |people| ==> people[i] != people[j])
    && (forall i :: 0 <= i < |people| ==> r.records[i] == Record(people[i].id, people[i].resources, people[i].state))
    && registry.participants.Keys == r.members.Keys
    && (forall k <- r.members :: r.members[k] < |people| && registry.participants[k] == people[r.members[k]])
  }

  lemma {:induction false} OffersOfShown(registry: Registry, people: seq<Participant>, r: Roster, keys: seq<Text>)
    requires Sound(r) && Shows(registry, people, r) && forall k <- keys :: k in r.members
    ensures registry.OffersOf(keys) == PublishedOf(r, keys)
  {
    if keys != [] {
      OffersOfShown(registry, people, r, keys[1..]);
    }
  }

  /** A registry publishes what its roster publishes. */
  lemma OffersAreShown(registry: Registry, people: seq<Participant>, r: Roster)
    requires Sound(r) && Shows(registry, people, r)
    ensures registry.Offers() == Published(r)
  {
    OffersOfShown(registry, people, r, SortedKeys(r.members.Keys));
  }

  method Ask(registry: Registry, people: seq<Participant>, ghost r: Roster, who: nat, next: State, now: Instant)
    requires Sound(r) && Shows(registry, people, r) && registry.Valid() && who < |people|
    modifies people[who]
    ensures Shows(registry, people, Step(r, Request(who, next))) && registry.Valid()
  {
    var _ := people[who].Transition(next, now);
  }

  method Admit(registry: Registry, people: seq<Participant>, ghost r: Roster, who: nat)
    requires Sound(r) && Shows(registry, people, r) && registry.Valid() && who < |people|
    modifies registry
    ensures Shows(registry, people, Step(r, Enter(who))) && registry.Valid()
  {
    assert r.records[who] in r.records;
    var _ := registry.Register(people[who]);
  }

  /** Each event, performed on the objects, is the step of the roster. */
  method Perform(registry: Registry, people: seq<Participant>, ghost r: Roster, e: Event, now: Instant)
    returns (after: seq<Participant>)
    requires Sound(r) && Shows(registry, people, r) && registry.Valid()
    modifies registry, people
    ensures Shows(registry, after, Step(r, e)) && registry.Valid()
  {
    after := people;
    match e
    case Make(id, capability, resources) =>
      var made := Participant.New(id, capability, resources, now);
      if made.Ok? {
        after := people + [made.value];
      }
    case Enter(who) =>
      if who < |people| {
        Admit(registry, people, r, who);
      }
    case Remove(id) =>
      var _ := registry.Remove(id);
    case Request(who, next) =>
      if who < |people| {
        Ask(registry, people, r, who, next, now);
      }
  }
}
