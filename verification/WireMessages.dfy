/** Whole messages: round trips, canonical decoding, and no message a prefix of another. */
module WireMessages {
  import opened Prelude
  import opened Strings
  import opened Identities
  import opened Nodes
  import opened Execution
  import opened Messages
  import opened Wire
  import opened WireLaws
  import BigEndian

  // Requests

  lemma RequestStable(b: seq<byte>, extra: seq<byte>)
    ensures Stable(ParseRequest(b), ParseRequest(b + extra), extra)
  {
    EnvelopeStable(b, extra);
    if ParseEnvelope(b).Ok? {
      var b1 := ParseEnvelope(b).value.1;
      TargetStable(b1, extra);
      if ParseTarget(b1).Ok? {
        var b2 := ParseTarget(b1).value.1;
        UnitStable(b2, extra);
        if ParseUnit(b2).Ok? {
          EndpointStable(ParseUnit(b2).value.1, extra);
        }
      }
    }
  }

  /** What every request value has by its types, and what its four-byte lengths can state. */
  predicate Representable(r: WireRequest) {
    && SoundText(r.requestId) && SoundText(r.workload.id) && |r.workload.payload| <= U32_MAX
    && SoundText(r.runtime.name) && SoundText(r.runtime.version) && SoundText(r.endpoint.locator)
  }

  predicate IdentitiesValid(r: WireRequest) {
    && (r.source.Some? ==> r.source.value.Valid())
    && r.nodeId.Valid() && r.unit.participantId.Valid() && r.endpoint.participantId.Valid()
  }

  /** What a request must say for an endpoint to take it. */
  predicate Acceptable(r: WireRequest) {
    && r.requestId != [] && r.workload.id != []
    && r.nodeId.kind == Kind.LogicalNode
    && (r.source.Some? ==> r.source.value.kind == Kind.Participant && Canonical(r.source.value.id))
    && r.runtime.name != [] && r.runtime.version != []
    && r.unit.participantId.kind == Kind.Participant
    && r.endpoint.participantId == r.unit.participantId
    && ValidWireRequirement(r.unit.resources)
  }

  /** A request is validated exactly when it says all that; otherwise the first thing amiss is reported. */
  lemma ValidationOutcome(r: WireRequest)
    ensures ValidateRequest(r).None? <==> Acceptable(r)
    ensures !Acceptable(r) ==>
              ValidateRequest(r) == Some(
                if r.requestId == [] then EmptyRequestId
                else if r.workload.id == [] then TransportError.EmptyWorkloadId
                else if r.nodeId.kind != Kind.LogicalNode then TransportError.InvalidNodeIdentity
                else if r.source.Some? && !(r.source.value.kind == Kind.Participant && Canonical(r.source.value.id))
                then InvalidSourceIdentity
                else if r.runtime.name == [] || r.runtime.version == [] then TransportError.InvalidRuntimeSpec
                else if r.unit.participantId.kind != Kind.Participant
                        || r.endpoint.participantId != r.unit.participantId
                then TransportError.InvalidParticipantIdentity
                else TransportError.InvalidResources)
  {
  }

  lemma RequestChain(b: seq<byte>, b1: seq<byte>, b2: seq<byte>, b3: seq<byte>, r: WireRequest, rest: seq<byte>)
    requires ParseEnvelope(b) == Ok((Envelope(r.requestId, r.source, r.workload), b1))
    requires ParseTarget(b1) == Ok((Target(r.nodeId, r.runtime), b2))
    requires ParseUnit(b2) == Ok((r.unit, b3))
    requires ParseEndpoint(b3) == Ok((r.endpoint, rest))
    ensures ParseRequest(b) == Ok((r, rest))
  {
  }

  lemma RequestLayout(r: WireRequest, raw: RawResources, after: seq<byte>)
    ensures HeadBytes(r) + RawBytes(raw) + EndpointBytes(r.endpoint) + after
            == EnvelopeBytes(Envelope(r.requestId, r.source, r.workload))
               + (TargetBytes(Target(r.nodeId, r.runtime))
                  + (IdentityBytes(r.unit.participantId) + RawBytes(raw) + (EndpointBytes(r.endpoint) + after)))
  {
    FiveParts(
      EnvelopeBytes(Envelope(r.requestId, r.source, r.workload)), TargetBytes(Target(r.nodeId, r.runtime)),
      IdentityBytes(r.unit.participantId), RawBytes(raw), EndpointBytes(r.endpoint), after);
  }

  lemma FiveParts(a: seq<byte>, b: seq<byte>, c: seq<byte>, d: seq<byte>, e: seq<byte>, after: seq<byte>)
    ensures a + b + c + d + e + after == a + (b + (c + d + (e + after)))
  {
  }

  /** A request may carry any raw fields that stand for its resources. */
  lemma RequestFromRaw(r: WireRequest, raw: RawResources, after: seq<byte>)
    requires Representable(r) && IdentitiesValid(r) && Checked(raw) == Ok(r.unit.resources)
    ensures ParseRequest(HeadBytes(r) + RawBytes(raw) + EndpointBytes(r.endpoint) + after) == Ok((r, after))
  {
    var e := Envelope(r.requestId, r.source, r.workload);
    var t := Target(r.nodeId, r.runtime);
    var a3 := EndpointBytes(r.endpoint) + after;
    var a2 := IdentityBytes(r.unit.participantId) + RawBytes(raw) + a3;
    var a1 := TargetBytes(t) + a2;
    RequestLayout(r, raw, after);
    EnvelopeRoundTrip(e, a1);
    TargetRoundTrip(t, a2);
    UnitFromRaw(r.unit, raw, a3);
    EndpointRoundTrip(r.endpoint, after);
    RequestChain(EnvelopeBytes(e) + a1, a1, a2, a3, r, after);
  }

  lemma RequestRoundTrip(r: WireRequest, after: seq<byte>)
    requires Representable(r) && IdentitiesValid(r) && ValidWireRequirement(r.unit.resources)
    ensures ParseRequest(RequestBytes(r) + after) == Ok((r, after))
  {
    CheckedUndoesRaw(r.unit.resources);
    RequestFromRaw(r, Raw(r.unit.resources), after);
  }

  /** The bytes a request was parsed from, given back in terms of the request. */
  lemma RequestCanonical(b: seq<byte>) returns (raw: RawResources)
    requires ParseRequest(b).Ok?
    ensures var (r, rest) := ParseRequest(b).value;
            && Representable(r) && IdentitiesValid(r) && ValidWireRequirement(r.unit.resources)
            && Checked(raw) == Ok(r.unit.resources)
            && b == HeadBytes(r) + RawBytes(raw) + EndpointBytes(r.endpoint) + rest
  {
    var b1, b2, b3, r, rest := RequestParts(b);
    var head := EnvelopeBytes(Envelope(r.requestId, r.source, r.workload));
    var target := TargetBytes(Target(r.nodeId, r.runtime));
    var unit := IdentityBytes(r.unit.participantId);
    EnvelopeCanonical(b);
    TargetCanonical(b1);
    raw := UnitCanonical(b2);
    EndpointCanonical(b3);
    Splice(b, head, b1, target, b2);
    Splice(b, head + target, b2, unit + RawBytes(raw), b3);
    Splice(b, head + target + (unit + RawBytes(raw)), b3, EndpointBytes(r.endpoint), rest);
    assert head + target + (unit + RawBytes(raw)) == HeadBytes(r) + RawBytes(raw);
  }

  lemma RequestParts(b: seq<byte>)
    returns (b1: seq<byte>, b2: seq<byte>, b3: seq<byte>, r: WireRequest, rest: seq<byte>)
    requires ParseRequest(b).Ok?
    ensures ParseRequest(b) == Ok((r, rest))
    ensures ParseEnvelope(b) == Ok((Envelope(r.requestId, r.source, r.workload), b1))
    ensures ParseTarget(b1) == Ok((Target(r.nodeId, r.runtime), b2))
    ensures ParseUnit(b2) == Ok((r.unit, b3))
    ensures ParseEndpoint(b3) == Ok((r.endpoint, rest))
  {
    b1 := ParseEnvelope(b).value.1;
    b2 := ParseTarget(b1).value.1;
    b3 := ParseUnit(b2).value.1;
    r, rest := ParseRequest(b).value.0, ParseRequest(b).value.1;
  }

  // Responses

  lemma ResponseStable(b: seq<byte>, extra: seq<byte>)
    ensures Stable(ParseResponse(b), ParseResponse(b + extra), extra)
  {
    HeaderStable(b, extra);
    if ParseHeader(b).Ok? {
      var b1 := ParseHeader(b).value.1;
      StatusStable(b1, extra);
      if ParseStatus(b1).Ok? {
        ErrorStable(ParseStatus(b1).value.1, extra);
      }
    }
  }

  lemma ResponseChain(b: seq<byte>, b1: seq<byte>, b2: seq<byte>, r: ExecutionResponse, rest: seq<byte>)
    requires ParseHeader(b) == Ok((r.requestId, b1))
    requires ParseStatus(b1) == Ok((r.status, b2))
    requires ParseError(b2) == Ok((r.error, rest))
    ensures ParseResponse(b) == Ok((r, rest))
  {
  }

  lemma ResponseRoundTrip(r: ExecutionResponse, after: seq<byte>)
    requires SoundText(r.requestId) && (r.error.Some? ==> SoundText(r.error.value))
    ensures ParseResponse(ResponseBytes(r) + after) == Ok((r, after))
  {
    var a2 := ErrorBytes(r.error) + after;
    var a1 := [StatusByte(r.status)] + a2;
    assert ResponseBytes(r) + after == HeaderBytes(r.requestId) + a1;
    HeaderRoundTrip(r.requestId, a1);
    StatusRoundTrip(r.status, a2);
    ErrorRoundTrip(r.error, after);
    ResponseChain(HeaderBytes(r.requestId) + a1, a1, a2, r, after);
  }

  lemma ResponseParts(b: seq<byte>) returns (b1: seq<byte>, b2: seq<byte>, r: ExecutionResponse, rest: seq<byte>)
    requires ParseResponse(b).Ok?
    ensures ParseResponse(b) == Ok((r, rest))
    ensures ParseHeader(b) == Ok((r.requestId, b1))
    ensures ParseStatus(b1) == Ok((r.status, b2))
    ensures ParseError(b2) == Ok((r.error, rest))
  {
    b1 := ParseHeader(b).value.1;
    b2 := ParseStatus(b1).value.1;
    r, rest := ParseResponse(b).value.0, ParseResponse(b).value.1;
  }

  lemma ResponseCanonical(b: seq<byte>)
    requires ParseResponse(b).Ok?
    ensures b == ResponseBytes(ParseResponse(b).value.0) + ParseResponse(b).value.1
  {
    var b1, b2, r, rest := ResponseParts(b);
    HeaderCanonical(b);
    StatusCanonical(b1);
    ErrorCanonical(b2);
    Splice(b, HeaderBytes(r.requestId), b1, [StatusByte(r.status)], b2);
    Splice(b, HeaderBytes(r.requestId) + [StatusByte(r.status)], b2, ErrorBytes(r.error), rest);
  }

  // What a payload means

  /** Cutting any accepted payload short, or adding to it, makes it malformed. */
  lemma RequestPayloadsAreUnambiguous(payload: seq<byte>, cut: nat, extra: seq<byte>)
    requires DecodeRequest(payload).Ok?
    requires cut < |payload| && extra != []
    ensures DecodeRequest(payload[..cut]) == Err(MalformedFrame)
    ensures DecodeRequest(payload + extra) == Err(MalformedFrame)
  {
    RequestStable(payload, extra);
    RequestStable(payload[..cut], payload[cut..]);
    assert payload == payload[..cut] + payload[cut..];
  }

  lemma ResponsePayloadsAreUnambiguous(payload: seq<byte>, cut: nat, extra: seq<byte>)
    requires DecodeResponse(payload).Ok?
    requires cut < |payload| && extra != []
    ensures DecodeResponse(payload[..cut]) == Err(MalformedFrame)
    ensures DecodeResponse(payload + extra) == Err(MalformedFrame)
  {
    ResponseStable(payload, extra);
    ResponseStable(payload[..cut], payload[cut..]);
    assert payload == payload[..cut] + payload[cut..];
  }

  /** Every request that may be sent reads back as itself. */
  lemma RequestPayloadRoundTrip(r: WireRequest)
    requires Representable(r) && IdentitiesValid(r) && Acceptable(r)
    ensures DecodeRequest(RequestBytes(r)) == Ok(r)
  {
    ValidationOutcome(r);
    RequestRoundTrip(r, []);
    assert RequestBytes(r) + [] == RequestBytes(r);
  }

  lemma ResponsePayloadRoundTrip(r: ExecutionResponse)
    requires SoundText(r.requestId) && (r.error.Some? ==> SoundText(r.error.value))
    ensures DecodeResponse(ResponseBytes(r)) == Ok(r)
  {
    ResponseRoundTrip(r, []);
    assert ResponseBytes(r) + [] == ResponseBytes(r);
  }

  /** A response has one encoding. */
  lemma ResponseDecodingIsCanonical(payload: seq<byte>)
    requires DecodeResponse(payload).Ok?
    ensures ResponseBytes(DecodeResponse(payload).value) == payload
  {
    ResponseCanonical(payload);
  }

  /** Whether the lifetime on the wire is already in the form the encoder writes. */
  predicate Normalised(raw: RawResources) {
    raw.lifetime.Some? ==> raw.lifetime.value.1 < NANOS_PER_SECOND
  }

  lemma CarryChangesOnlyLifetime(raw: RawResources, r: WireResources)
    requires Checked(raw) == Ok(r)
    ensures Raw(r) == raw <==> Normalised(raw)
    ensures Raw(r) == raw.(lifetime := Raw(r).lifetime) && (Raw(r).lifetime.Some? <==> raw.lifetime.Some?)
  {
  }

  lemma RawBytesAreInjective(a: RawResources, b: RawResources)
    requires RawBytes(a) == RawBytes(b)
    ensures a == b
  {
    RawRoundTrip(a, []);
    RawRoundTrip(b, []);
    assert RawBytes(a) + [] == RawBytes(a) && RawBytes(b) + [] == RawBytes(b);
  }

  /**
   Decoding is canonical up to one field: re-encoding an accepted payload gives as many bytes,
   reads back as the same request, and gives the same bytes exactly when the lifetime on the
   wire is absent or its nanoseconds are below a second.
   */
  lemma RequestDecodingIsCanonical(payload: seq<byte>) returns (raw: RawResources)
    requires DecodeRequest(payload).Ok?
    ensures var r := DecodeRequest(payload).value;
            && payload == HeadBytes(r) + RawBytes(raw) + EndpointBytes(r.endpoint)
            && Checked(raw) == Ok(r.unit.resources)
            && |RequestBytes(r)| == |payload|
            && DecodeRequest(RequestBytes(r)) == Ok(r)
            && (RequestBytes(r) == payload <==> Normalised(raw))
  {
    raw := RequestCanonical(payload);
    var r := DecodeRequest(payload).value;
    ValidationOutcome(r);
    RequestPayloadRoundTrip(r);
    CarryChangesOnlyLifetime(raw, r.unit.resources);
    SameFrame(HeadBytes(r), RawBytes(raw), ResourcesBytes(r.unit.resources), EndpointBytes(r.endpoint));
    if RawBytes(raw) == ResourcesBytes(r.unit.resources) {
      RawBytesAreInjective(raw, Raw(r.unit.resources));
    }
  }

  /** The payloads of a request: its one encoding, but for raw fields that stand for the same resources. */
  lemma PayloadsOfRequest(r: WireRequest, payload: seq<byte>)
    requires Representable(r) && IdentitiesValid(r) && Acceptable(r)
    ensures DecodeRequest(payload) == Ok(r) <==>
              exists raw: RawResources ::
                Checked(raw) == Ok(r.unit.resources)
                && payload == HeadBytes(r) + RawBytes(raw) + EndpointBytes(r.endpoint)
  {
    ValidationOutcome(r);
    if DecodeRequest(payload) == Ok(r) {
      var raw := RequestDecodingIsCanonical(payload);
    }
    forall raw: RawResources
      | Checked(raw) == Ok(r.unit.resources)
        && payload == HeadBytes(r) + RawBytes(raw) + EndpointBytes(r.endpoint)
      ensures DecodeRequest(payload) == Ok(r)
    {
      RequestFromRaw(r, raw, []);
      assert payload + [] == payload;
    }
  }

  /** Decoding is not canonical outright: every request for a second or more has a second payload. */
  lemma LongRequestsHaveTwoPayloads(r: WireRequest) returns (other: seq<byte>)
    requires Representable(r) && IdentitiesValid(r) && Acceptable(r)
    requires r.unit.resources.lifetime.Some? && r.unit.resources.lifetime.value.secs > 0
    ensures DecodeRequest(other) == Ok(r) && other != RequestBytes(r)
  {
    var lifetime := r.unit.resources.lifetime.value;
    var raw := Raw(r.unit.resources).(
      lifetime := Some((lifetime.secs - 1, lifetime.nanos + NANOS_PER_SECOND)));
    assert Carried(lifetime.secs - 1, lifetime.nanos + NANOS_PER_SECOND) == Some(lifetime);
    assert Checked(raw) == Ok(r.unit.resources) && !Normalised(raw);
    other := HeadBytes(r) + RawBytes(raw) + EndpointBytes(r.endpoint);
    PayloadsOfRequest(r, other);
    SameFrame(HeadBytes(r), RawBytes(raw), ResourcesBytes(r.unit.resources), EndpointBytes(r.endpoint));
    if RawBytes(raw) == ResourcesBytes(r.unit.resources) {
      RawBytesAreInjective(raw, Raw(r.unit.resources));
    }
  }

  lemma SameFrame(head: seq<byte>, a: seq<byte>, b: seq<byte>, tail: seq<byte>)
    requires |a| == |b|
    ensures head + a + tail == head + b + tail <==> a == b
  {
    if head + a + tail == head + b + tail {
      assert a == (head + a + tail)[|head|..|head| + |a|];
      assert b == (head + b + tail)[|head|..|head| + |b|];
    }
  }

  /** Where the bytes may differ: only the twelve of the lifetime, which then carry the excess. */
  lemma OnlyLifetimeBytesDiffer(payload: seq<byte>) returns (before: seq<byte>, secs: u64, nanos: u32, after: seq<byte>)
    requires DecodeRequest(payload).Ok? && DecodeRequest(payload).value.unit.resources.lifetime.Some?
    ensures var r := DecodeRequest(payload).value;
            var lifetime := r.unit.resources.lifetime.value;
            && payload == before + LifetimeBytes(secs, nanos) + after
            && RequestBytes(r) == before + LifetimeBytes(lifetime.secs, lifetime.nanos) + after
            && Carried(secs, nanos) == Some(lifetime)
  {
    var raw := RequestDecodingIsCanonical(payload);
    var r := DecodeRequest(payload).value;
    CarryChangesOnlyLifetime(raw, r.unit.resources);
    secs, nanos := raw.lifetime.value.0, raw.lifetime.value.1;
    var lifetime := r.unit.resources.lifetime.value;
    after := EndpointBytes(r.endpoint);
    before := HeadBytes(r) + CapacityBytes(raw) + [1];
    LifetimeInPlace(HeadBytes(r), raw, secs, nanos, after);
    LifetimeInPlace(HeadBytes(r), Raw(r.unit.resources), lifetime.secs, lifetime.nanos, after);
  }

  lemma LifetimeInPlace(head: seq<byte>, raw: RawResources, secs: u64, nanos: u32, tail: seq<byte>)
    requires raw.lifetime == Some((secs, nanos))
    ensures head + RawBytes(raw) + tail == head + CapacityBytes(raw) + [1] + LifetimeBytes(secs, nanos) + tail
  {
    assert RawBytes(raw) == CapacityBytes(raw) + ([1] + LifetimeBytes(secs, nanos));
  }

  /** No accepted payload starts another. */
  lemma AcceptedPayloadsArePrefixFree(a: seq<byte>, b: seq<byte>)
    requires DecodeRequest(a).Ok? && DecodeRequest(b).Ok? && a <= b
    ensures a == b
  {
    var extra := b[|a|..];
    assert b == a + extra;
    RequestStable(a, extra);
  }

  /** A request whose encoding starts another's is that request. */
  lemma RequestEncodingIsInjective(a: WireRequest, b: WireRequest)
    requires Representable(a) && IdentitiesValid(a) && Acceptable(a)
    requires Representable(b) && IdentitiesValid(b) && Acceptable(b)
    requires RequestBytes(a) <= RequestBytes(b)
    ensures a == b
  {
    RequestPayloadRoundTrip(a);
    RequestPayloadRoundTrip(b);
    AcceptedPayloadsArePrefixFree(RequestBytes(a), RequestBytes(b));
  }

  // Frames

  lemma FrameParts(length: seq<byte>, payload: seq<byte>, after: seq<byte>)
    requires |length| == 8
    ensures var stream := length + payload + after;
            && stream[..8] == length
            && stream[8..8 + |payload|] == payload
            && stream[8 + |payload|..] == after
  {
  }

  lemma FrameRoundTrip(payload: seq<byte>, after: seq<byte>)
    requires |payload| <= MAX_FRAME_SIZE
    ensures FrameOf(payload).Ok? && ReadFrame(FrameOf(payload).value + after) == Ok((payload, after))
  {
    BigEndian.Limits();
    BigEndian.DecodeEncode(8, |payload|);
    FrameParts(U64Bytes(|payload|), payload, after);
  }

  /** A frame cut anywhere is a failed read, never a shorter message. */
  lemma CutFramesFail(payload: seq<byte>, cut: nat)
    requires |payload| <= MAX_FRAME_SIZE && cut < |FrameOf(payload).value|
    ensures ReadFrame(FrameOf(payload).value[..cut]) == Err(NetworkFailure)
  {
    BigEndian.Limits();
    BigEndian.DecodeEncode(8, |payload|);
    var frame := FrameOf(payload).value;
    if cut >= 8 {
      assert frame[..cut][..8] == U64Bytes(|payload|);
    }
  }

  predicate HeadFits(r: WireRequest) {
    && |r.requestId| <= U32_MAX && |r.workload.id| <= U32_MAX && |r.workload.payload| <= U32_MAX
    && |r.runtime.name| <= U32_MAX && |r.runtime.version| <= U32_MAX
    && (r.source.Some? ==> |r.source.value.id| <= U32_MAX)
    && |r.nodeId.id| <= U32_MAX && |r.unit.participantId.id| <= U32_MAX
  }

  predicate LengthsFit(r: WireRequest) {
    HeadFits(r) && |r.endpoint.participantId.id| <= U32_MAX && |r.endpoint.locator| <= U32_MAX
  }

  /** What goes on the stream: an over-long string or an over-large frame is refused. */
  function WrittenRequest(r: WireRequest): Result<seq<byte>, TransportError> {
    if LengthsFit(r) then FrameOf(RequestBytes(r)) else Err(FrameTooLarge)
  }

  /** Sending succeeds exactly for payloads of at most 64 MiB: the string limits never decide. */
  lemma WritingSucceedsIff(r: WireRequest)
    ensures WrittenRequest(r).Ok? <==> |RequestBytes(r)| <= MAX_FRAME_SIZE
  {
  }

  /** Every valid request that fits a frame is read back as itself, and nothing after it is consumed. */
  lemma RequestStreamRoundTrip(r: WireRequest, after: seq<byte>)
    requires Representable(r) && IdentitiesValid(r) && Acceptable(r)
    requires |RequestBytes(r)| <= MAX_FRAME_SIZE
    ensures WrittenRequest(r).Ok? && ReadRequest(WrittenRequest(r).value + after) == Ok((r, after))
  {
    WritingSucceedsIff(r);
    FrameRoundTrip(RequestBytes(r), after);
    RequestPayloadRoundTrip(r);
  }

  /**
   Whatever bytes arrive, a request that is accepted names a canonical node and participant,
   is addressed to the participant it is for, and asks for something.
   */
  lemma AcceptedRequestsAreSound(payload: seq<byte>)
    requires DecodeRequest(payload).Ok?
    ensures var r := DecodeRequest(payload).value;
            && Representable(r) && IdentitiesValid(r)
            && Acceptable(r)
            && r.nodeId.Names(Kind.LogicalNode) && r.unit.participantId.Names(Kind.Participant)
            && (r.source.Some? ==> r.source.value.Names(Kind.Participant))
            && r.endpoint.participantId == r.unit.participantId
            && ValidWireRequirement(r.unit.resources)
  {
    var raw := RequestCanonical(payload);
    ValidationOutcome(DecodeRequest(payload).value);
  }

  function WrittenResponse(r: ExecutionResponse): Result<seq<byte>, TransportError> {
    if |r.requestId| <= U32_MAX && (r.error.Some? ==> |r.error.value| <= U32_MAX) then FrameOf(ResponseBytes(r))
    else Err(FrameTooLarge)
  }

  /** Every response that fits a frame is read back as itself, and nothing after it is consumed. */
  lemma ResponseStreamRoundTrip(r: ExecutionResponse, after: seq<byte>)
    requires Utf8(r.requestId) && (r.error.Some? ==> Utf8(r.error.value))
    ensures WrittenResponse(r).Ok? <==> |ResponseBytes(r)| <= MAX_FRAME_SIZE
    ensures WrittenResponse(r).Ok? ==> ReadResponse(WrittenResponse(r).value + after) == Ok((r, after))
  {
    if WrittenResponse(r).Ok? {
      FrameRoundTrip(ResponseBytes(r), after);
      ResponsePayloadRoundTrip(r);
    }
  }

  // What is answered for every payload

  /** A payload is accepted exactly when it is a payload of some acceptable request. */
  lemma AcceptedIff(payload: seq<byte>)
    ensures DecodeRequest(payload).Ok? <==>
              exists r: WireRequest, raw: RawResources ::
                && Representable(r) && IdentitiesValid(r) && Acceptable(r)
                && Checked(raw) == Ok(r.unit.resources)
                && payload == HeadBytes(r) + RawBytes(raw) + EndpointBytes(r.endpoint)
  {
    if DecodeRequest(payload).Ok? {
      AcceptedRequestsAreSound(payload);
      var raw := RequestDecodingIsCanonical(payload);
    }
    forall r: WireRequest, raw: RawResources
      | && Representable(r) && IdentitiesValid(r) && Acceptable(r)
        && Checked(raw) == Ok(r.unit.resources)
        && payload == HeadBytes(r) + RawBytes(raw) + EndpointBytes(r.endpoint)
      ensures DecodeRequest(payload).Ok?
    {
      PayloadsOfRequest(r, payload);
    }
  }

  /** A request that can be read but not accepted is refused for what validation finds first. */
  lemma UnacceptableRequestsAreRefused(r: WireRequest)
    requires Representable(r) && IdentitiesValid(r) && ValidWireRequirement(r.unit.resources) && !Acceptable(r)
    ensures DecodeRequest(RequestBytes(r)) == Err(ValidateRequest(r).value)
  {
    ValidationOutcome(r);
    RequestRoundTrip(r, []);
    assert RequestBytes(r) + [] == RequestBytes(r);
  }

  /** Other versions of the protocol are told apart by the first byte alone. */
  lemma OtherVersionsAreRefused(version: byte, rest: seq<byte>)
    requires version != 1
    ensures DecodeRequest([version] + rest) == Err(UnsupportedProtocolVersion)
    ensures DecodeResponse([version] + rest) == Err(UnsupportedProtocolVersion)
  {
    ByteRoundTrip(version, rest);
  }

  /** What every response payload decodes to: the response it encodes, or one of two errors. */
  lemma ResponseDecodingOutcome(payload: seq<byte>)
    ensures forall r: ExecutionResponse ::
              DecodeResponse(payload) == Ok(r) <==>
                SoundText(r.requestId) && (r.error.Some? ==> SoundText(r.error.value)) && payload == ResponseBytes(r)
    ensures DecodeResponse(payload).Err? ==>
              DecodeResponse(payload).error
              == if payload != [] && payload[0] != 1 then UnsupportedProtocolVersion else MalformedFrame
  {
    if DecodeResponse(payload).Ok? {
      ResponseDecodingIsCanonical(payload);
      ResponseTextsAreSound(payload);
    }
    forall r: ExecutionResponse
      | SoundText(r.requestId) && (r.error.Some? ==> SoundText(r.error.value)) && payload == ResponseBytes(r)
      ensures DecodeResponse(payload) == Ok(r)
    {
      ResponsePayloadRoundTrip(r);
    }
  }

  lemma ResponseTextsAreSound(payload: seq<byte>)
    requires DecodeResponse(payload).Ok?
    ensures var r := DecodeResponse(payload).value;
            SoundText(r.requestId) && (r.error.Some? ==> SoundText(r.error.value))
  {
    var b1, b2, r, rest := ResponseParts(payload);
    HeaderCanonical(payload);
    ErrorCanonical(b2);
  }

  /** No frame of more than 64 MiB is written, or read for what its header says. */
  lemma OversizedFramesAreRefused(payload: seq<byte>, stream: seq<byte>)
    ensures FrameOf(payload) == Err(FrameTooLarge) <==> |payload| > 67_108_864
    ensures ReadFrame(stream) == Err(FrameTooLarge) <==> |stream| >= 8 && BigEndian.Decode(stream[..8]) > 67_108_864
  {
  }
}
