/** Participant lifecycle and the registry that publishes offers (src/participant.rs, src/registry.rs). */
module Participants {
  import opened Prelude
  import opened Strings
  import opened Identities
  import opened Resource
  import opened Scheduler
  import opened SchedulerLaws

  datatype State = Joining | Active | Draining | Left

  datatype ParticipantError = Invalid | InvalidTransition | NotActive

  datatype RegistryError = Exists | NotFound | InvalidIdentity

  /** What a participant declares it can do (src/capability.rs). */
  datatype Capability = Capability(
    cpuCores: real,
    gpuUnits: u32,
    memory: u64,
    storage: u64,
    network: u64,
    availability: real,
    latency: Duration,
    lifetime: Option<Duration>,
    trusted: bool)
  {
    predicate Valid() {
      && cpuCores >= 0.0
      && 0.0 <= availability <= 1.0
      && lifetime != Some(0)
      && !(cpuCores == 0.0 && gpuUnits == 0 && memory == 0 && storage == 0 && network == 0)
    }
  }

  predicate Allowed(from: State, to: State) {
    || (from == Joining && (to == Active || to == Left))
    || (from == Active && (to == Draining || to == Left))
    || (from == Draining && to == Left)
  }

  /** The state after a requested transition: a disallowed one changes nothing. */
  function Next(state: State, requested: State): State {
    if Allowed(state, requested) then requested else state
  }

  class Participant {
    const id: Identity
    const capability: Capability
    const resources: ResourceFragment
    const joinedAt: Instant
    var state: State
    var updatedAt: Instant

    // What New has checked, and nothing can change afterwards.
    predicate WellFormed() {
      id.Names(Kind.Participant) && ValidRequirement(resources)
    }

    constructor (id: Identity, capability: Capability, resources: ResourceFragment, now: Instant)
      ensures this.id == id && this.capability == capability && this.resources == resources
      ensures joinedAt == updatedAt == now && state == Joining
    {
      this.id := id;
      this.capability := capability;
      this.resources := resources;
      joinedAt := now;
      state := Joining;
      updatedAt := now;
    }

    static method New(id: Identity, capability: Capability, resources: ResourceFragment, now: Instant)
      returns (r: Result<Participant, ParticipantError>)
      ensures r.Ok? <==>
                && id.Names(Kind.Participant) && ValidRequirement(resources)
                && capability.cpuCores >= 0.0 && 0.0 <= capability.availability <= 1.0
                && (capability.lifetime.Some? ==> capability.lifetime.value > 0)
                && (capability.cpuCores > 0.0 || capability.gpuUnits > 0 || capability.memory > 0
                    || capability.storage > 0 || capability.network > 0)
      ensures r.Ok? ==> fresh(r.value) && r.value.id == id && r.value.capability == capability
      ensures r.Ok? ==> r.value.resources == resources && r.value.WellFormed()
      ensures r.Ok? ==> r.value.state == Joining && r.value.joinedAt == r.value.updatedAt == now
      ensures r.Err? ==> r.error == Invalid
    {
      if !id.Names(Kind.Participant) || !capability.Valid() || Validate(resources).Some? || IsEmpty(resources) {
        return Err(Invalid);
      }
      var participant := new Participant(id, capability, resources, now);
      r := Ok(participant);
    }

    method Transition(next: State, now: Instant) returns (r: Result<(), ParticipantError>)
      modifies this
      ensures r == if Allowed(old(state), next) then Ok(()) else Err(InvalidTransition)
      ensures state == Next(old(state), next)
      ensures updatedAt == if r.Ok? then now else old(updatedAt)
    {
      if !Allowed(state, next) {
        return Err(InvalidTransition);
      }
      state := next;
      updatedAt := now;
      r := Ok(());
    }

    method Activate(now: Instant) returns (r: Result<(), ParticipantError>)
      modifies this
      ensures r.Ok? <==> old(state) == Joining
      ensures state == if r.Ok? then Active else old(state)
      ensures updatedAt == if r.Ok? then now else old(updatedAt)
    {
      r := Transition(Active, now);
    }

    method Drain(now: Instant) returns (r: Result<(), ParticipantError>)
      modifies this
      ensures r.Ok? <==> old(state) == Active
      ensures state == if r.Ok? then Draining else old(state)
      ensures updatedAt == if r.Ok? then now else old(updatedAt)
    {
      r := Transition(Draining, now);
    }

    method Leave(now: Instant) returns (r: Result<(), ParticipantError>)
      modifies this
      ensures r.Ok? <==> old(state) != Left
      ensures state == Left
      ensures updatedAt == if r.Ok? then now else old(updatedAt)
    {
      r := Transition(Left, now);
    }

    function Offer(): (r: Result<ResourceFragment, ParticipantError>)
      reads this
      ensures r.Ok? <==> state == Active
    {
      if state != Active then Err(NotActive) else Ok(resources)
    }
  }

  // Lifecycle over whole histories of requests

  function After(state: State, requests: seq<State>): State
    decreases |requests|
  {
    if requests == [] then state else After(Next(state, requests[0]), requests[1..])
  }

  function Stage(state: State): nat {
    match state
    case Joining => 0
    case Active => 1
    case Draining => 2
    case Left => 3
  }

  /** Participants only move forward, so one that stopped being active never is again, whatever is asked. */
  lemma {:induction false} LifecycleOnlyAdvances(state: State, requests: seq<State>)
    ensures Stage(state) <= Stage(After(state, requests))
    ensures state == Left ==> After(state, requests) == Left
    ensures state == Draining ==> After(state, requests) != Active
    ensures state == Active && Left !in requests && Draining !in requests ==> After(state, requests) == Active
    decreases |requests|
  {
    if requests != [] {
      LifecycleOnlyAdvances(Next(state, requests[0]), requests[1..]);
    }
  }

  // The keys of a sorted map, in order

  ghost predicate AscendingKeys(keys: seq<Text>) {
    forall i, j :: 0 <= i < j < |keys| ==> keys[i] != keys[j] && AtMost(keys[i], keys[j])
  }

  lemma LeastKeyExists(keys: set<Text>)
    requires keys != {}
    ensures exists k :: k in keys && forall other <- keys :: AtMost(k, other)
  {
    var k :| k in keys;
    AtMostTotal(k, k);
    var rest := keys - {k};
    if rest == {} {
      assert forall other <- keys :: other in rest || other == k;
    } else {
      LeastKeyExists(rest);
      var m :| m in rest && forall other <- rest :: AtMost(m, other);
      var least := LesserKey(rest, m, k);
      assert least in keys && forall other <- keys :: other in rest || other == k;
    }
  }

  lemma LesserKey(rest: set<Text>, m: Text, k: Text) returns (least: Text)
    requires forall other <- rest :: AtMost(m, other)
    ensures least in {m, k} && AtMost(least, k)
    ensures forall other <- rest :: AtMost(least, other)
  {
    AtMostTotal(k, k);
    AtMostTotal(m, m);
    AtMostTotal(k, m);
    least := if AtMost(k, m) then k else m;
    forall other <- rest ensures AtMost(least, other) {
      AtMostTransitive(least, m, other);
    }
  }

  lemma LeastKeyIsUnique(a: Text, b: Text, keys: set<Text>)
    requires a in keys && forall other <- keys :: AtMost(a, other)
    requires b in keys && forall other <- keys :: AtMost(b, other)
    ensures a == b
  {
    AtMostAntisymmetric(a, b);
  }

  function LeastKey(keys: set<Text>): (k: Text)
    requires keys != {}
    ensures k in keys && forall other <- keys :: AtMost(k, other)
  {
    LeastKeyExists(keys);
    assert forall a, b | a in keys && b in keys
                       && (forall other <- keys :: AtMost(a, other)) && (forall other <- keys :: AtMost(b, other))
             :: a == b by {
      forall a, b | a in keys && b in keys
                    && (forall other <- keys :: AtMost(a, other)) && (forall other <- keys :: AtMost(b, other))
        ensures a == b {
        LeastKeyIsUnique(a, b, keys);
      }
    }
    var k :| k in keys && forall other <- keys :: AtMost(k, other);
    k
  }

  lemma PrependLeast(k: Text, rest: seq<Text>)
    requires AscendingKeys(rest)
    requires forall other <- rest :: other != k && AtMost(k, other)
    ensures AscendingKeys([k] + rest)
  {
    var keys := [k] + rest;
    forall i, j | 0 <= i < j < |keys| ensures keys[i] != keys[j] && AtMost(keys[i], keys[j]) {
      assert keys[j] == rest[j - 1] && rest[j - 1] in rest;
      assert i > 0 ==> keys[i] == rest[i - 1];
    }
  }

  function SortedKeys(keys: set<Text>): (r: seq<Text>)
    ensures AscendingKeys(r)
    ensures forall k :: k in r <==> k in keys
    decreases |keys|
  {
    if keys == {} then []
    else
      var k := LeastKey(keys);
      var rest := SortedKeys(keys - {k});
      assert forall j :: 0 <= j < |rest| ==> rest[j] in rest;
      PrependLeast(k, rest);
      [k] + rest
  }

  class Registry {
    var participants: map<Text, Participant>

    ghost predicate Valid()
      reads this
    {
      forall k <- participants ::
        participants[k].WellFormed() && participants[k].id == Identity(k, Kind.Participant)
    }

    constructor ()
      ensures Valid() && participants == map[]
    {
      participants := map[];
    }

    method Register(participant: Participant) returns (r: Result<(), RegistryError>)
      requires Valid() && ValidRequirement(participant.resources)
      modifies this
      ensures Valid()
      ensures r == if !participant.id.Names(Kind.Participant) then Err(InvalidIdentity)
                   else if participant.id.id in old(participants) then Err(Exists)
                   else Ok(())
      ensures participants == if r.Ok? then old(participants)[participant.id.id := participant] else old(participants)
    {
      if !participant.id.Names(Kind.Participant) {
        return Err(InvalidIdentity);
      }
      if participant.id.id in participants {
        return Err(Exists);
      }
      participants := participants[participant.id.id := participant];
      r := Ok(());
    }

    function Get(id: Identity): (r: Result<Participant, RegistryError>)
      requires Valid()
      reads this
      ensures r.Ok? <==> id.kind == Kind.Participant && id.id in participants
      ensures r.Ok? ==> r.value.id == id
    {
      if !id.Names(Kind.Participant) then Err(InvalidIdentity)
      else if id.id in participants then Ok(participants[id.id])
      else Err(NotFound)
    }

    method Remove(id: Identity) returns (r: Result<(), RegistryError>)
      requires Valid()
      modifies this
      ensures Valid()
      ensures r.Ok? <==> id.kind == Kind.Participant && id.id in old(participants)
      ensures participants == if r.Ok? then old(participants) - {id.id} else old(participants)
    {
      if !id.Names(Kind.Participant) {
        return Err(InvalidIdentity);
      }
      if id.id !in participants {
        return Err(NotFound);
      }
      participants := participants - {id.id};
      r := Ok(());
    }

    /** The offers of the active participants among the given keys, in that order. */
    function OffersOf(keys: seq<Text>): (r: seq<ResourceOffer>)
      requires forall k <- keys :: k in participants
      reads this, participants.Values
      ensures forall o :: o in r <==>
                exists k <- keys :: participants[k].state == Active && o == ResourceOffer(k, participants[k].resources)
    {
      if keys == [] then []
      else
        match participants[keys[0]].Offer()
        case Err(_) => OffersOf(keys[1..])
        case Ok(resources) => [ResourceOffer(keys[0], resources)] + OffersOf(keys[1..])
    }

    function Offers(): (r: seq<ResourceOffer>)
      reads this, participants.Values
      ensures forall o :: o in r <==>
                exists k <- participants ::
                  participants[k].state == Active && o == ResourceOffer(k, participants[k].resources)
    {
      OffersOf(SortedKeys(participants.Keys))
    }
  }

  lemma {:induction false} OffersFollowKeys(registry: Registry, keys: seq<Text>)
    requires AscendingKeys(keys) && forall k <- keys :: k in registry.participants
    ensures Ascending(registry.OffersOf(keys)) && DistinctOffers(registry.OffersOf(keys))
  {
    if keys != [] {
      OffersFollowKeys(registry, keys[1..]);
      var rest := registry.OffersOf(keys[1..]);
      forall o <- rest ensures o.participantId != keys[0] && AtMost(keys[0], o.participantId) {
        var k :| k in keys[1..] && o == ResourceOffer(k, registry.participants[k].resources);
        var i :| 1 <= i < |keys| && keys[i] == k;
      }
    }
  }

  /** Whatever the registry publishes is already sorted, distinct, canonical and sound. */
  lemma PublishedOffersAreWellFormed(registry: Registry)
    requires registry.Valid()
    ensures Ascending(registry.Offers()) && WellFormedOffers(registry.Offers())
    ensures forall o <- registry.Offers() :: Canonical(o.participantId) && ValidRequirement(o.resources)
  {
    OffersFollowKeys(registry, SortedKeys(registry.participants.Keys));
  }

  /** So a plan over a registry never fails for the shape of its offers. */
  lemma RegistryPlansNeverRejectOffers(registry: Registry, requirement: ResourceFragment, nodeId: Text)
    requires registry.Valid()
    ensures PlanOf(requirement, registry.Offers(), nodeId) != Err(InvalidOffer)
    ensures PlanOf(requirement, registry.Offers(), nodeId).Ok? <==>
              ValidRequirement(requirement) && Covers(registry.Offers(), requirement)
  {
    PublishedOffersAreWellFormed(registry);
    PlanOutcome(requirement, registry.Offers(), nodeId);
  }
}
