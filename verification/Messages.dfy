/** The messages exchanged with execution endpoints (src/transport.rs). */
module Messages {
  import opened Prelude
  import opened Strings
  import opened Identities
  import opened Nodes
  import opened Execution

  datatype ExecutionEndpoint = ExecutionEndpoint(participantId: Identity, locator: Text)

  // R is how resources are represented, as in ExecutionUnit.
  datatype ExecutionRequest<R> = ExecutionRequest(
    requestId: Text,
    source: Option<Identity>,
    workload: WorkItem,
    nodeId: Identity,
    runtime: RuntimeSpec,
    unit: ExecutionUnit<R>,
    endpoint: ExecutionEndpoint)

  datatype ExecutionStatus = Pending | Dispatched | Running | Completed | Failed | Cancelled

  datatype ExecutionResponse = ExecutionResponse(requestId: Text, status: ExecutionStatus, error: Option<Text>)

  datatype TransportError =
    | EmptyRequestId
    | EmptyWorkloadId
    | InvalidSourceIdentity
    | MissingSourceIdentity
    | UnauthorizedClient
    | EmptyClientAllowlist
    | DuplicateAuthorizedClientCertificate
    | CertificateAssignedToMultipleIdentities
    | InvalidNodeIdentity
    | InvalidParticipantIdentity
    | InvalidRuntimeSpec
    | InvalidResources
    | NetworkFailure
    | UnsupportedProtocolVersion
    | FrameTooLarge
    | MalformedFrame
    // Stands for the panic of the library's duration constructor on an overflowing carry.
    | DurationOverflow
}
