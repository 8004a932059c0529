/**
 The wire format (src/transport.rs): encoders, and parsers that return what they read
 together with the bytes they have not consumed.
 */
module Wire {
  import opened Prelude
  import opened Strings
  import opened Identities
  import opened Nodes
  import opened Execution
  import opened Messages
  import BigEndian

  const PROTOCOL_VERSION: byte := 1
  const MAX_FRAME_SIZE := 64 * 1024 * 1024
  const NANOS_PER_SECOND := 1_000_000_000

  type SubsecNanos = x: int | 0 <= x < NANOS_PER_SECOND

  /** A duration as the language keeps it: whole seconds and a fraction below one second. */
  datatype WireDuration = WireDuration(secs: u64, nanos: SubsecNanos)

  /** CPU cores travel as the 64 bits of an IEEE 754 binary64 number. */
  datatype WireResources = WireResources(
    cpuBits: u64,
    memory: u64,
    storage: u64,
    network: u64,
    gpu: u32,
    lifetime: Option<WireDuration>)

  type WireRequest = ExecutionRequest<WireResources>

  type Parsed<T> = Result<(T, seq<byte>), TransportError>

  // CPU bit patterns (IEEE 754-2019, section 3.4)

  const SIGN := 0x8000_0000_0000_0000
  const EXPONENT_UNIT := 0x10_0000_0000_0000
  const EXPONENT_ALL_ONES := 0x7FF

  function Magnitude(bits: u64): nat {
    bits % SIGN
  }

  predicate Finite(bits: u64) {
    Magnitude(bits) / EXPONENT_UNIT < EXPONENT_ALL_ONES
  }

  // Whether the number compares below zero; negative zero does not.
  predicate BelowZero(bits: u64) {
    bits >= SIGN && Magnitude(bits) != 0
  }

  predicate ValidWireRequirement(r: WireResources) {
    && Finite(r.cpuBits) && !BelowZero(r.cpuBits)
    && !(Magnitude(r.cpuBits) == 0 && r.memory == 0 && r.storage == 0 && r.network == 0 && r.gpu == 0)
  }

  // Encoders

  function U32Bytes(v: nat): seq<byte> {
    BigEndian.Encode(4, v)
  }

  function U64Bytes(v: nat): seq<byte> {
    BigEndian.Encode(8, v)
  }

  // Strings and byte vectors alike: a four-byte length and the bytes.
  function BlockBytes(s: seq<byte>): seq<byte> {
    U32Bytes(|s|) + s
  }

  function KindByte(kind: Kind): byte {
    match kind
    case Participant => 0
    case LogicalNode => 1
    case Lease => 2
    case VirtualMachine => 3
  }

  function StatusByte(status: ExecutionStatus): byte {
    match status
    case Pending => 0
    case Dispatched => 1
    case Running => 2
    case Completed => 3
    case Failed => 4
    case Cancelled => 5
  }

  function IdentityBytes(identity: Identity): seq<byte> {
    BlockBytes(identity.id) + [KindByte(identity.kind)]
  }

  function LifetimeBytes(secs: u64, nanos: u32): (s: seq<byte>)
    ensures |s| == 12
  {
    U64Bytes(secs) + U32Bytes(nanos)
  }

  /** The six resource fields, the lifetime given as the two numbers that are on the wire. */
  datatype RawResources = RawResources(
    cpuBits: u64,
    memory: u64,
    storage: u64,
    network: u64,
    gpu: u32,
    lifetime: Option<(u64, u32)>)

  function Raw(r: WireResources): RawResources {
    RawResources(r.cpuBits, r.memory, r.storage, r.network, r.gpu,
                 if r.lifetime.None? then None else Some((r.lifetime.value.secs, r.lifetime.value.nanos)))
  }

  function CapacityBytes(r: RawResources): seq<byte> {
    U64Bytes(r.cpuBits) + U64Bytes(r.memory) + U64Bytes(r.storage) + U64Bytes(r.network) + U32Bytes(r.gpu)
  }

  function RawLifetimeBytes(lifetime: Option<(u64, u32)>): seq<byte> {
    match lifetime
    case None => [0]
    case Some((secs, nanos)) => [1] + LifetimeBytes(secs, nanos)
  }

  function RawBytes(r: RawResources): seq<byte> {
    CapacityBytes(r) + RawLifetimeBytes(r.lifetime)
  }

  function ResourcesBytes(r: WireResources): seq<byte> {
    RawBytes(Raw(r))
  }

  function SourceBytes(source: Option<Identity>): seq<byte> {
    match source
    case None => [0]
    case Some(identity) => [1] + IdentityBytes(identity)
  }

  function WorkloadBytes(w: WorkItem): seq<byte> {
    BlockBytes(w.id) + BlockBytes(w.payload)
  }

  function RuntimeBytes(r: RuntimeSpec): seq<byte> {
    BlockBytes(r.name) + BlockBytes(r.version)
  }

  function EndpointBytes(e: ExecutionEndpoint): seq<byte> {
    IdentityBytes(e.participantId) + BlockBytes(e.locator)
  }

  function HeaderBytes(requestId: Text): seq<byte> {
    [PROTOCOL_VERSION] + BlockBytes(requestId)
  }

  /** Who asks for what. */
  datatype Envelope = Envelope(requestId: Text, source: Option<Identity>, workload: WorkItem)

  function EnvelopeBytes(e: Envelope): seq<byte> {
    HeaderBytes(e.requestId) + SourceBytes(e.source) + WorkloadBytes(e.workload)
  }

  /** Where it is to run. */
  datatype Target = Target(nodeId: Identity, runtime: RuntimeSpec)

  function TargetBytes(t: Target): seq<byte> {
    IdentityBytes(t.nodeId) + RuntimeBytes(t.runtime)
  }

  /** Everything before the resources. */
  function HeadBytes(r: WireRequest): seq<byte> {
    EnvelopeBytes(Envelope(r.requestId, r.source, r.workload)) + TargetBytes(Target(r.nodeId, r.runtime))
    + IdentityBytes(r.unit.participantId)
  }

  function RequestBytes(r: WireRequest): seq<byte> {
    HeadBytes(r) + ResourcesBytes(r.unit.resources) + EndpointBytes(r.endpoint)
  }

  function ErrorBytes(error: Option<Text>): seq<byte> {
    match error
    case None => [0]
    case Some(text) => [1] + BlockBytes(text)
  }

  function ResponseBytes(r: ExecutionResponse): seq<byte> {
    HeaderBytes(r.requestId) + [StatusByte(r.status)] + ErrorBytes(r.error)
  }

  // Parsers

  function Take(b: seq<byte>, n: nat): (r: Parsed<seq<byte>>)
    ensures r.Ok? <==> n <= |b|
    ensures r.Ok? ==> |r.value.0| == n && b == r.value.0 + r.value.1
  {
    if n > |b| then Err(MalformedFrame) else Ok((b[..n], b[n..]))
  }

  function Byte(b: seq<byte>): Parsed<byte> {
    var (s, rest) :- Take(b, 1);
    Ok((s[0], rest))
  }

  function U32(b: seq<byte>): Parsed<u32> {
    var (s, rest) :- Take(b, 4);
    BigEndian.Limits();
    BigEndian.DecodeIsBounded(s);
    Ok((BigEndian.Decode(s), rest))
  }

  function U64(b: seq<byte>): Parsed<u64> {
    var (s, rest) :- Take(b, 8);
    BigEndian.Limits();
    BigEndian.DecodeIsBounded(s);
    Ok((BigEndian.Decode(s), rest))
  }

  function Bytes(b: seq<byte>): Parsed<seq<byte>> {
    var (length, rest) :- U32(b);
    Take(rest, length)
  }

  function String(b: seq<byte>): Parsed<Text> {
    var (text, rest) :- Bytes(b);
    if Utf8(text) then Ok((text, rest)) else Err(MalformedFrame)
  }

  function KindOf(b: byte): Option<Kind> {
    match b
    case 0 => Some(Participant)
    case 1 => Some(Kind.LogicalNode)
    case 2 => Some(Lease)
    case 3 => Some(VirtualMachine)
    case _ => None
  }

  function ParseIdentity(b: seq<byte>): Parsed<Identity> {
    var (id, b1) :- String(b);
    var (kind, b2) :- Byte(b1);
    match KindOf(kind)
    case None => Err(MalformedFrame)
    case Some(k) =>
      match Parse(id, k)
      case None => Err(MalformedFrame)
      case Some(identity) => Ok((identity, b2))
  }

  function ParseCapacity(b: seq<byte>): Parsed<RawResources> {
    var (cpuBits, b1) :- U64(b);
    var (memory, b2) :- U64(b1);
    var (storage, b3) :- U64(b2);
    var (network, b4) :- U64(b3);
    var (gpu, b5) :- U32(b4);
    Ok((RawResources(cpuBits, memory, storage, network, gpu, None), b5))
  }

  function ParseLifetime(b: seq<byte>): Parsed<Option<(u64, u32)>> {
    var (flag, b1) :- Byte(b);
    if flag == 0 then Ok((None, b1))
    else if flag == 1 then
      var (secs, b2) :- U64(b1);
      var (nanos, b3) :- U32(b2);
      Ok((Some((secs, nanos)), b3))
    else Err(MalformedFrame)
  }

  function ParseRaw(b: seq<byte>): Parsed<RawResources> {
    var (capacity, b1) :- ParseCapacity(b);
    var (lifetime, b2) :- ParseLifetime(b1);
    Ok((capacity.(lifetime := lifetime), b2))
  }

  /** The duration constructor carries excess nanoseconds into the seconds, if they fit. */
  function Carried(secs: u64, nanos: u32): Option<WireDuration> {
    var carry := nanos / NANOS_PER_SECOND;
    if secs + carry > U64_MAX then None else Some(WireDuration(secs + carry, nanos % NANOS_PER_SECOND))
  }

  function Checked(raw: RawResources): Result<WireResources, TransportError> {
    if raw.lifetime.Some? && Carried(raw.lifetime.value.0, raw.lifetime.value.1).None? then Err(DurationOverflow)
    else
      var lifetime := if raw.lifetime.None? then None else Carried(raw.lifetime.value.0, raw.lifetime.value.1);
      var r := WireResources(raw.cpuBits, raw.memory, raw.storage, raw.network, raw.gpu, lifetime);
      if ValidWireRequirement(r) then Ok(r) else Err(TransportError.InvalidResources)
  }

  function ParseResources(b: seq<byte>): Parsed<WireResources> {
    var (raw, rest) :- ParseRaw(b);
    var r :- Checked(raw);
    Ok((r, rest))
  }

  /** The version and the request id, as both message kinds start. */
  function ParseHeader(b: seq<byte>): Parsed<Text> {
    var (version, b1) :- Byte(b);
    if version != PROTOCOL_VERSION then Err(UnsupportedProtocolVersion) else String(b1)
  }

  function ParseSource(b: seq<byte>): Parsed<Option<Identity>> {
    var (flag, b1) :- Byte(b);
    if flag == 0 then Ok((None, b1))
    else if flag == 1 then
      var (identity, b2) :- ParseIdentity(b1);
      Ok((Some(identity), b2))
    else Err(MalformedFrame)
  }

  function ParseWorkload(b: seq<byte>): Parsed<WorkItem> {
    var (id, b1) :- String(b);
    var (payload, b2) :- Bytes(b1);
    Ok((WorkItem(id, payload), b2))
  }

  function ParseRuntime(b: seq<byte>): Parsed<RuntimeSpec> {
    var (name, b1) :- String(b);
    var (version, b2) :- String(b1);
    Ok((RuntimeSpec(name, version), b2))
  }

  function ParseUnit(b: seq<byte>): Parsed<ExecutionUnit<WireResources>> {
    var (participantId, b1) :- ParseIdentity(b);
    var (resources, b2) :- ParseResources(b1);
    Ok((ExecutionUnit(participantId, resources), b2))
  }

  function ParseEndpoint(b: seq<byte>): Parsed<ExecutionEndpoint> {
    var (participantId, b1) :- ParseIdentity(b);
    var (locator, b2) :- String(b1);
    Ok((ExecutionEndpoint(participantId, locator), b2))
  }

  function ParseEnvelope(b: seq<byte>): Parsed<Envelope> {
    var (requestId, b1) :- ParseHeader(b);
    var (source, b2) :- ParseSource(b1);
    var (workload, b3) :- ParseWorkload(b2);
    Ok((Envelope(requestId, source, workload), b3))
  }

  function ParseTarget(b: seq<byte>): Parsed<Target> {
    var (nodeId, b1) :- ParseIdentity(b);
    var (runtime, b2) :- ParseRuntime(b1);
    Ok((Target(nodeId, runtime), b2))
  }

  function ParseRequest(b: seq<byte>): Parsed<WireRequest> {
    var (e, b1) :- ParseEnvelope(b);
    var (t, b2) :- ParseTarget(b1);
    var (unit, b3) :- ParseUnit(b2);
    var (endpoint, b4) :- ParseEndpoint(b3);
    Ok((ExecutionRequest(e.requestId, e.source, e.workload, t.nodeId, t.runtime, unit, endpoint), b4))
  }

  function StatusOf(b: byte): Option<ExecutionStatus> {
    match b
    case 0 => Some(Pending)
    case 1 => Some(Dispatched)
    case 2 => Some(Running)
    case 3 => Some(Completed)
    case 4 => Some(Failed)
    case 5 => Some(Cancelled)
    case _ => None
  }

  function ParseStatus(b: seq<byte>): Parsed<ExecutionStatus> {
    var (value, rest) :- Byte(b);
    match StatusOf(value)
    case None => Err(MalformedFrame)
    case Some(status) => Ok((status, rest))
  }

  function ParseError(b: seq<byte>): Parsed<Option<Text>> {
    var (flag, b1) :- Byte(b);
    if flag == 0 then Ok((None, b1))
    else if flag == 1 then
      var (text, b2) :- String(b1);
      Ok((Some(text), b2))
    else Err(MalformedFrame)
  }

  function ParseResponse(b: seq<byte>): Parsed<ExecutionResponse> {
    var (requestId, b1) :- ParseHeader(b);
    var (status, b2) :- ParseStatus(b1);
    var (error, b3) :- ParseError(b2);
    Ok((ExecutionResponse(requestId, status, error), b3))
  }

  // Whole messages

  function ValidateRequest(r: WireRequest): Option<TransportError> {
    if r.requestId == [] then Some(EmptyRequestId)
    else if r.workload.id == [] then Some(TransportError.EmptyWorkloadId)
    else if r.nodeId.kind != Kind.LogicalNode then Some(TransportError.InvalidNodeIdentity)
    else if r.source.Some? && !r.source.value.Names(Participant) then Some(InvalidSourceIdentity)
    else if r.runtime.name == [] || r.runtime.version == [] then Some(TransportError.InvalidRuntimeSpec)
    else if r.unit.participantId.kind != Participant then Some(TransportError.InvalidParticipantIdentity)
    else if r.endpoint.participantId != r.unit.participantId then Some(TransportError.InvalidParticipantIdentity)
    else if !ValidWireRequirement(r.unit.resources) then Some(TransportError.InvalidResources)
    else None
  }

  /** Nothing may be left over once a message has been read. */
  function Finished<T>(parsed: Parsed<T>): Result<T, TransportError> {
    var (message, rest) :- parsed;
    if rest == [] then Ok(message) else Err(MalformedFrame)
  }

  function DecodeRequest(payload: seq<byte>): Result<WireRequest, TransportError> {
    var request :- Finished(ParseRequest(payload));
    match ValidateRequest(request)
    case Some(e) => Err(e)
    case None => Ok(request)
  }

  function DecodeResponse(payload: seq<byte>): Result<ExecutionResponse, TransportError> {
    Finished(ParseResponse(payload))
  }

  function FrameOf(payload: seq<byte>): Result<seq<byte>, TransportError> {
    if |payload| > MAX_FRAME_SIZE then Err(FrameTooLarge) else Ok(U64Bytes(|payload|) + payload)
  }

  /** A frame from the front of a stream; a stream that ends early is a network failure. */
  function ReadFrame(stream: seq<byte>): Parsed<seq<byte>> {
    if |stream| < 8 then Err(NetworkFailure)
    else
      var length := BigEndian.Decode(stream[..8]);
      if length > MAX_FRAME_SIZE then Err(FrameTooLarge)
      else if |stream| < 8 + length then Err(NetworkFailure)
      else Ok((stream[8..8 + length], stream[8 + length..]))
  }

  function ReadRequest(stream: seq<byte>): Parsed<WireRequest> {
    var (payload, rest) :- ReadFrame(stream);
    var request :- DecodeRequest(payload);
    Ok((request, rest))
  }

  function ReadResponse(stream: seq<byte>): Parsed<ExecutionResponse> {
    var (payload, rest) :- ReadFrame(stream);
    var response :- DecodeResponse(payload);
    Ok((response, rest))
  }
}
