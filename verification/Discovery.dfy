/** The discovery registry (src/discovery.rs): sequence numbers and freshness. */
module Discovery {
  import opened Prelude
  import opened Strings
  import opened Identities
  import opened Participants

  datatype Advertisement = Advertisement(
    participant: Identity, capability: Capability, sequence: u64, observedAt: Instant)
  {
    predicate Valid() {
      participant.Names(Kind.Participant) && capability.Valid() && observedAt != UNIX_EPOCH
    }
  }

  datatype Member = Member(advertisement: Advertisement, lastSeen: Instant)

  datatype Freshness = Fresh | Stale | Expired

  datatype FreshnessPolicy = FreshnessPolicy(staleAfter: Duration, expireAfter: Duration) {
    predicate Valid() {
      0 < staleAfter < expireAfter
    }
  }

  datatype DiscoveryError = InvalidAdvertisement | InvalidTimestamp | InvalidPolicy | StaleSequence | UnknownMember

  function StateAt(member: Member, now: Instant, policy: FreshnessPolicy): Result<Freshness, DiscoveryError> {
    if !policy.Valid() then Err(InvalidPolicy)
    else if member.lastSeen == UNIX_EPOCH || now < member.lastSeen then Err(InvalidTimestamp)
    else if now - member.lastSeen >= policy.expireAfter then Ok(Expired)
    else if now - member.lastSeen >= policy.staleAfter then Ok(Stale)
    else Ok(Fresh)
  }

  function Age(f: Freshness): nat {
    match f
    case Fresh => 0
    case Stale => 1
    case Expired => 2
  }

  /** Without news a member only ages: once it can be classed it always can, and never gets fresher. */
  lemma MembersOnlyAge(member: Member, earlier: Instant, later: Instant, policy: FreshnessPolicy)
    requires earlier <= later && StateAt(member, earlier, policy).Ok?
    ensures StateAt(member, later, policy).Ok?
    ensures Age(StateAt(member, earlier, policy).value) <= Age(StateAt(member, later, policy).value)
  {
  }

  datatype Event = Upsert(advertisement: Advertisement, receivedAt: Instant) | Remove(id: Identity)

  function Apply(members: map<Text, Member>, e: Event): (map<Text, Member>, Result<(), DiscoveryError>) {
    match e
    case Upsert(ad, receivedAt) =>
      if !ad.Valid() then (members, Err(InvalidAdvertisement))
      else if receivedAt < ad.observedAt || receivedAt == UNIX_EPOCH then (members, Err(InvalidTimestamp))
      else if ad.participant.id in members && ad.sequence < members[ad.participant.id].advertisement.sequence
      then (members, Err(StaleSequence))
      else (members[ad.participant.id := Member(ad, receivedAt)], Ok(()))
    case Remove(id) =>
      if !id.Names(Kind.Participant) then (members, Err(InvalidAdvertisement))
      else if id.id !in members then (members, Err(UnknownMember))
      else (members - {id.id}, Ok(()))
  }

  class MemoryRegistry {
    const policy: FreshnessPolicy
    var members: map<Text, Member>

    constructor (policy: FreshnessPolicy)
      ensures this.policy == policy && members == map[]
    {
      this.policy := policy;
      members := map[];
    }

    method UpsertMember(ad: Advertisement, receivedAt: Instant) returns (r: Result<(), DiscoveryError>)
      modifies this`members
      ensures (members, r) == Apply(old(members), Upsert(ad, receivedAt))
    {
      if !ad.Valid() {
        return Err(InvalidAdvertisement);
      }
      if receivedAt < ad.observedAt || receivedAt == UNIX_EPOCH {
        return Err(InvalidTimestamp);
      }
      if ad.participant.id in members && ad.sequence < members[ad.participant.id].advertisement.sequence {
        return Err(StaleSequence);
      }
      members := members[ad.participant.id := Member(ad, receivedAt)];
      r := Ok(());
    }

    method RemoveMember(id: Identity) returns (r: Result<(), DiscoveryError>)
      modifies this`members
      ensures (members, r) == Apply(old(members), Remove(id))
    {
      if !id.Names(Kind.Participant) {
        return Err(InvalidAdvertisement);
      }
      if id.id !in members {
        return Err(UnknownMember);
      }
      members := members - {id.id};
      r := Ok(());
    }
  }

  function ApplyAll(members: map<Text, Member>, events: seq<Event>): map<Text, Member>
    decreases |events|
  {
    if events == [] then members else ApplyAll(Apply(members, events[0]).0, events[1..])
  }

  /** A well-formed advertisement by id, whether or not the registry will take it. */
  predicate Announces(e: Event, id: Text) {
    && e.Upsert? && e.advertisement.Valid() && e.advertisement.participant.id == id
    && e.receivedAt >= e.advertisement.observedAt && e.receivedAt != UNIX_EPOCH
  }

  /** The highest sequence id has announced since it was last removed. */
  function Highest(events: seq<Event>, id: Text, before: Option<u64>): Option<u64>
    decreases |events|
  {
    if events == [] then before
    else
      var e := events[0];
      var now :=
        if Announces(e, id) then
          if before.Some? && e.advertisement.sequence < before.value then before else Some(e.advertisement.sequence)
        else if e.Remove? && e.id == Identity(id, Kind.Participant) && e.id.Valid() then None
        else before;
      Highest(events[1..], id, now)
  }

  function Known(members: map<Text, Member>, id: Text): Option<u64> {
    if id in members then Some(members[id].advertisement.sequence) else None
  }

  /** The stored sequence is the highest announced since the last removal, over every history. */
  lemma {:induction false} StoredSequenceIsHighest(members: map<Text, Member>, events: seq<Event>, id: Text)
    ensures Known(ApplyAll(members, events), id) == Highest(events, id, Known(members, id))
    decreases |events|
  {
    if events != [] {
      StoredSequenceIsHighest(Apply(members, events[0]).0, events[1..], id);
    }
  }

  /** The age at which a member turns stale and expires: at the policy's thresholds, not after them. */
  lemma ClassOf(member: Member, now: Instant, policy: FreshnessPolicy)
    ensures StateAt(member, now, policy).Ok? <==>
              && 0 < policy.staleAfter < policy.expireAfter
              && member.lastSeen != UNIX_EPOCH && member.lastSeen <= now
    ensures StateAt(member, now, policy).Ok? ==>
              var f := StateAt(member, now, policy).value;
              && (f == Expired <==> now >= member.lastSeen + policy.expireAfter)
              && (f == Fresh <==> now < member.lastSeen + policy.staleAfter)
    ensures StateAt(member, now, policy).Err? ==>
              StateAt(member, now, policy).error
              == if 0 < policy.staleAfter < policy.expireAfter then InvalidTimestamp else InvalidPolicy
  {
  }

  /** What becomes of an announcement: it replaces what is known unless it is unsound, untimely or older. */
  lemma AnnouncementOutcome(members: map<Text, Member>, ad: Advertisement, receivedAt: Instant)
    ensures var (after, r) := Apply(members, Upsert(ad, receivedAt));
            var id := ad.participant.id;
            if !(ad.participant.kind == Kind.Participant && Canonical(id)
                 && ad.capability.Valid() && ad.observedAt != UNIX_EPOCH) then
              r == Err(InvalidAdvertisement) && after == members
            else if receivedAt < ad.observedAt || receivedAt == UNIX_EPOCH then
              r == Err(InvalidTimestamp) && after == members
            else if Known(members, id).Some? && Known(members, id).value > ad.sequence then
              r == Err(StaleSequence) && after == members
            else
              && r == Ok(()) && after.Keys == members.Keys + {id} && after[id] == Member(ad, receivedAt)
              && forall other <- members :: other != id ==> after[other] == members[other]
  {
  }

  /** A removal forgets exactly the named member. */
  lemma RemovalOutcome(members: map<Text, Member>, id: Identity)
    ensures var (after, r) := Apply(members, Remove(id));
            if id.kind != Kind.Participant || !Canonical(id.id) then r == Err(InvalidAdvertisement) && after == members
            else if id.id !in members then r == Err(UnknownMember) && after == members
            else
              && r == Ok(()) && after.Keys == members.Keys - {id.id}
              && forall other <- after :: after[other] == members[other]
  {
  }
}
