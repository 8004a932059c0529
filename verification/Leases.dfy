/** Leases on a participant's allocation (src/lease.rs). */
module Leases {
  import opened Prelude
  import opened Identities
  import opened Resource

  datatype LeaseError = InvalidLease | InvalidExpiry | InvalidLifetime | InvalidParticipant | InvalidNode

  datatype Lease = Lease(
    id: Identity,
    logicalNodeId: Identity,
    participantId: Identity,
    resources: ResourceFragment,
    createdAt: Instant,
    expiresAt: Instant)
  {
    function Validate(): Option<LeaseError> {
      if !id.Names(Kind.Lease) then Some(InvalidLease)
      else if !logicalNodeId.Names(Kind.LogicalNode) then Some(InvalidNode)
      else if !participantId.Names(Kind.Participant) then Some(InvalidParticipant)
      else if !ValidRequirement(resources) then Some(InvalidLease)
      else if createdAt == UNIX_EPOCH || expiresAt <= createdAt then Some(InvalidExpiry)
      else if resources.lifetime.Some? && resources.lifetime.value < expiresAt - createdAt then Some(InvalidLifetime)
      else None
    }

    predicate Valid() {
      Validate().None?
    }

    predicate ActiveAt(now: Instant) {
      createdAt <= now < expiresAt
    }
  }

  function New(id: Identity, logicalNodeId: Identity, participantId: Identity, resources: ResourceFragment,
               createdAt: Instant, expiresAt: Instant): (r: Result<Lease, LeaseError>)
    ensures r.Ok? <==>
              && id.Names(Kind.Lease) && logicalNodeId.Names(Kind.LogicalNode) && participantId.Names(Kind.Participant)
              && ValidRequirement(resources)
              && createdAt != UNIX_EPOCH && createdAt < expiresAt
              && (resources.lifetime.Some? ==> expiresAt - createdAt <= resources.lifetime.value)
    ensures r.Ok? ==>
              r.value.Valid() && r.value == Lease.Lease(id, logicalNodeId, participantId, resources, createdAt, expiresAt)
  {
    var lease := Lease.Lease(id, logicalNodeId, participantId, resources, createdAt, expiresAt);
    match lease.Validate()
    case Some(e) => Err(e)
    case None => Ok(lease)
  }

  /** What is reported about a lease that is not valid, in order. */
  lemma LeaseOutcome(l: Lease)
    ensures l.Validate()
            == if l.id.kind != Kind.Lease || !Canonical(l.id.id) then Some(InvalidLease)
               else if l.logicalNodeId.kind != Kind.LogicalNode || !Canonical(l.logicalNodeId.id) then Some(InvalidNode)
               else if l.participantId.kind != Kind.Participant || !Canonical(l.participantId.id)
               then Some(InvalidParticipant)
               else if ValidateRequirement(l.resources).Some? then Some(InvalidLease)
               else if l.createdAt == UNIX_EPOCH || l.expiresAt <= l.createdAt then Some(InvalidExpiry)
               else if l.resources.lifetime.Some? && l.resources.lifetime.value < l.expiresAt - l.createdAt
               then Some(InvalidLifetime)
               else None
  {
  }
}
