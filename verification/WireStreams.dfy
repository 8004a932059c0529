/** The reader and the writers as they run: a cursor moved in place, a buffer appended to. */
module WireStreams {
  import opened Prelude
  import opened Strings
  import opened Identities
  import opened Nodes
  import opened Execution
  import opened Messages
  import opened Wire
  import opened WireMessages
  import BigEndian

  type Read<T> = Result<T, TransportError>

  /** A read has returned what parsing gives, and left unread what parsing leaves. */
  ghost predicate Gives<T>(parsed: Parsed<T>, r: Read<T>, unread: seq<byte>) {
    match parsed
    case Ok((value, rest)) => r == Ok(value) && unread == rest
    case Err(e) => r == Err(e)
  }

  class Reader {
    const bytes: seq<byte>
    var position: nat

    predicate Valid()
      reads this
    {
      position <= |bytes|
    }

    function Unread(): seq<byte>
      requires Valid()
      reads this
    {
      bytes[position..]
    }

    /** The cursor has not gone back, and is still inside the payload. */
    predicate Reached(before: nat)
      reads this
    {
      before <= position <= |bytes|
    }

    constructor (bytes: seq<byte>)
      ensures Valid() && this.bytes == bytes && Unread() == bytes
    {
      this.bytes := bytes;
      position := 0;
    }

    method Take(length: nat) returns (r: Read<seq<byte>>)
      requires Valid()
      modifies this`position
      ensures Reached(old(position)) && Gives(Wire.Take(old(Unread()), length), r, Unread())
      ensures r.Err? ==> position == old(position)
    {
      var end := position + length;
      if end > |bytes| {
        return Err(MalformedFrame);
      }
      assert Unread()[..length] == bytes[position..end] && Unread()[length..] == bytes[end..];
      r := Ok(bytes[position..end]);
      position := end;
    }

    method Byte() returns (r: Read<byte>)
      requires Valid()
      modifies this`position
      ensures Reached(old(position)) && Gives(Wire.Byte(old(Unread())), r, Unread())
    {
      var taken := Take(1);
      r := if taken.Ok? then Ok(taken.value[0]) else Err(taken.error);
    }

    method U32() returns (r: Read<u32>)
      requires Valid()
      modifies this`position
      ensures Reached(old(position)) && Gives(Wire.U32(old(Unread())), r, Unread())
    {
      var taken := Take(4);
      if taken.Err? {
        return Err(taken.error);
      }
      BigEndian.Limits();
      BigEndian.DecodeIsBounded(taken.value);
      r := Ok(BigEndian.Decode(taken.value));
    }

    method U64() returns (r: Read<u64>)
      requires Valid()
      modifies this`position
      ensures Reached(old(position)) && Gives(Wire.U64(old(Unread())), r, Unread())
    {
      var taken := Take(8);
      if taken.Err? {
        return Err(taken.error);
      }
      BigEndian.Limits();
      BigEndian.DecodeIsBounded(taken.value);
      r := Ok(BigEndian.Decode(taken.value));
    }

    method Bytes() returns (r: Read<seq<byte>>)
      requires Valid()
      modifies this`position
      ensures Reached(old(position)) && Gives(Wire.Bytes(old(Unread())), r, Unread())
    {
      var length := U32();
      if length.Err? {
        return Err(length.error);
      }
      r := Take(length.value);
    }

    method String() returns (r: Read<Text>)
      requires Valid()
      modifies this`position
      ensures Reached(old(position)) && Gives(Wire.String(old(Unread())), r, Unread())
    {
      r := Bytes();
      if r.Ok? && !Utf8(r.value) {
        r := Err(MalformedFrame);
      }
    }

    method ReadIdentity() returns (r: Read<Identity>)
      requires Valid()
      modifies this`position
      ensures Reached(old(position)) && Gives(ParseIdentity(old(Unread())), r, Unread())
    {
      var id := String();
      if id.Err? {
        return Err(id.error);
      }
      var kindByte := Byte();
      if kindByte.Err? {
        return Err(kindByte.error);
      }
      var kind := KindOf(kindByte.value);
      if kind.None? {
        return Err(MalformedFrame);
      }
      var identity := Parse(id.value, kind.value);
      r := if identity.Some? then Ok(identity.value) else Err(MalformedFrame);
    }

    method ReadCapacity() returns (r: Read<RawResources>)
      requires Valid()
      modifies this`position
      ensures Reached(old(position)) && Gives(ParseCapacity(old(Unread())), r, Unread())
    {
      var cpuBits := U64();
      if cpuBits.Err? { return Err(cpuBits.error); }
      var memory := U64();
      if memory.Err? { return Err(memory.error); }
      var storage := U64();
      if storage.Err? { return Err(storage.error); }
      var network := U64();
      if network.Err? { return Err(network.error); }
      var gpu := U32();
      if gpu.Err? { return Err(gpu.error); }
      r := Ok(RawResources(cpuBits.value, memory.value, storage.value, network.value, gpu.value, None));
    }

    method ReadLifetime() returns (r: Read<Option<(u64, u32)>>)
      requires Valid()
      modifies this`position
      ensures Reached(old(position)) && Gives(ParseLifetime(old(Unread())), r, Unread())
    {
      var flag := Byte();
      if flag.Err? { return Err(flag.error); }
      if flag.value == 0 { return Ok(None); }
      if flag.value != 1 { return Err(MalformedFrame); }
      var secs := U64();
      if secs.Err? { return Err(secs.error); }
      var nanos := U32();
      if nanos.Err? { return Err(nanos.error); }
      r := Ok(Some((secs.value, nanos.value)));
    }

    method ReadResources() returns (r: Read<WireResources>)
      requires Valid()
      modifies this`position
      ensures Reached(old(position)) && Gives(ParseResources(old(Unread())), r, Unread())
    {
      var capacity := ReadCapacity();
      if capacity.Err? { return Err(capacity.error); }
      var lifetime := ReadLifetime();
      if lifetime.Err? { return Err(lifetime.error); }
      r := Checked(capacity.value.(lifetime := lifetime.value));
    }

    method ReadHeader() returns (r: Read<Text>)
      requires Valid()
      modifies this`position
      ensures Reached(old(position)) && Gives(ParseHeader(old(Unread())), r, Unread())
    {
      var version := Byte();
      if version.Err? { return Err(version.error); }
      if version.value != PROTOCOL_VERSION { return Err(UnsupportedProtocolVersion); }
      r := String();
    }

    method ReadSource() returns (r: Read<Option<Identity>>)
      requires Valid()
      modifies this`position
      ensures Reached(old(position)) && Gives(ParseSource(old(Unread())), r, Unread())
    {
      var flag := Byte();
      if flag.Err? { return Err(flag.error); }
      if flag.value == 0 { return Ok(None); }
      if flag.value != 1 { return Err(MalformedFrame); }
      var identity := ReadIdentity();
      r := if identity.Ok? then Ok(Some(identity.value)) else Err(identity.error);
    }

    method ReadWorkload() returns (r: Read<WorkItem>)
      requires Valid()
      modifies this`position
      ensures Reached(old(position)) && Gives(ParseWorkload(old(Unread())), r, Unread())
    {
      var id := String();
      if id.Err? { return Err(id.error); }
      var payload := Bytes();
      r := if payload.Ok? then Ok(WorkItem(id.value, payload.value)) else Err(payload.error);
    }

    method ReadRuntime() returns (r: Read<RuntimeSpec>)
      requires Valid()
      modifies this`position
      ensures Reached(old(position)) && Gives(ParseRuntime(old(Unread())), r, Unread())
    {
      var name := String();
      if name.Err? { return Err(name.error); }
      var version := String();
      r := if version.Ok? then Ok(RuntimeSpec(name.value, version.value)) else Err(version.error);
    }

    method ReadUnit() returns (r: Read<ExecutionUnit<WireResources>>)
      requires Valid()
      modifies this`position
      ensures Reached(old(position)) && Gives(ParseUnit(old(Unread())), r, Unread())
    {
      var participantId := ReadIdentity();
      if participantId.Err? { return Err(participantId.error); }
      var resources := ReadResources();
      r := if resources.Ok? then Ok(ExecutionUnit(participantId.value, resources.value)) else Err(resources.error);
    }

    method ReadEndpoint() returns (r: Read<ExecutionEndpoint>)
      requires Valid()
      modifies this`position
      ensures Reached(old(position)) && Gives(ParseEndpoint(old(Unread())), r, Unread())
    {
      var participantId := ReadIdentity();
      if participantId.Err? { return Err(participantId.error); }
      var locator := String();
      r := if locator.Ok? then Ok(ExecutionEndpoint(participantId.value, locator.value)) else Err(locator.error);
    }

    method ReadEnvelope() returns (r: Read<Envelope>)
      requires Valid()
      modifies this`position
      ensures Reached(old(position)) && Gives(ParseEnvelope(old(Unread())), r, Unread())
    {
      var requestId := ReadHeader();
      if requestId.Err? { return Err(requestId.error); }
      var source := ReadSource();
      if source.Err? { return Err(source.error); }
      var workload := ReadWorkload();
      r := if workload.Ok? then Ok(Envelope(requestId.value, source.value, workload.value)) else Err(workload.error);
    }

    method ReadTarget() returns (r: Read<Target>)
      requires Valid()
      modifies this`position
      ensures Reached(old(position)) && Gives(ParseTarget(old(Unread())), r, Unread())
    {
      var nodeId := ReadIdentity();
      if nodeId.Err? { return Err(nodeId.error); }
      var runtime := ReadRuntime();
      r := if runtime.Ok? then Ok(Target(nodeId.value, runtime.value)) else Err(runtime.error);
    }

    method ReadWholeRequest() returns (r: Read<WireRequest>)
      requires Valid()
      modifies this`position
      ensures Reached(old(position)) && Gives(ParseRequest(old(Unread())), r, Unread())
    {
      var e := ReadEnvelope();
      if e.Err? { return Err(e.error); }
      var t := ReadTarget();
      if t.Err? { return Err(t.error); }
      var unit := ReadUnit();
      if unit.Err? { return Err(unit.error); }
      var endpoint := ReadEndpoint();
      if endpoint.Err? { return Err(endpoint.error); }
      r := Ok(ExecutionRequest(e.value.requestId, e.value.source, e.value.workload, t.value.nodeId, t.value.runtime,
                               unit.value, endpoint.value));
    }

    method ReadWholeResponse() returns (r: Read<ExecutionResponse>)
      requires Valid()
      modifies this`position
      ensures Reached(old(position)) && Gives(ParseResponse(old(Unread())), r, Unread())
    {
      var requestId := ReadHeader();
      if requestId.Err? { return Err(requestId.error); }
      var statusByte := Byte();
      if statusByte.Err? { return Err(statusByte.error); }
      var status := StatusOf(statusByte.value);
      if status.None? { return Err(MalformedFrame); }
      var error := ReadError();
      r := if error.Ok? then Ok(ExecutionResponse(requestId.value, status.value, error.value)) else Err(error.error);
    }

    method ReadError() returns (r: Read<Option<Text>>)
      requires Valid()
      modifies this`position
      ensures Reached(old(position)) && Gives(ParseError(old(Unread())), r, Unread())
    {
      var flag := Byte();
      if flag.Err? { return Err(flag.error); }
      if flag.value == 0 { return Ok(None); }
      if flag.value != 1 { return Err(MalformedFrame); }
      var text := String();
      r := if text.Ok? then Ok(Some(text.value)) else Err(text.error);
    }

    function Finish(): (r: Read<()>)
      requires Valid()
      reads this
      ensures r.Ok? <==> Unread() == []
    {
      if position == |bytes| then Ok(()) else Err(MalformedFrame)
    }
  }

  method ReceiveRequest(payload: seq<byte>) returns (r: Read<WireRequest>)
    ensures r == DecodeRequest(payload)
  {
    var reader := new Reader(payload);
    var request := reader.ReadWholeRequest();
    if request.Err? { return Err(request.error); }
    var finished := reader.Finish();
    if finished.Err? { return Err(finished.error); }
    var fault := ValidateRequest(request.value);
    r := if fault.Some? then Err(fault.value) else Ok(request.value);
  }

  method ReceiveResponse(payload: seq<byte>) returns (r: Read<ExecutionResponse>)
    ensures r == DecodeResponse(payload)
  {
    var reader := new Reader(payload);
    var response := reader.ReadWholeResponse();
    if response.Err? { return Err(response.error); }
    var finished := reader.Finish();
    r := if finished.Ok? then Ok(response.value) else Err(finished.error);
  }

  class Writer {
    var payload: seq<byte>

    constructor ()
      ensures payload == []
    {
      payload := [];
    }

    method Push(b: byte)
      modifies this
      ensures payload == old(payload) + [b]
    {
      payload := payload + [b];
    }

    /** Strings and byte vectors; one too long for its length field is refused and nothing is written. */
    method WriteBlock(s: seq<byte>) returns (r: Read<()>)
      modifies this
      ensures r == if |s| <= U32_MAX then Ok(()) else Err(FrameTooLarge)
      ensures payload == old(payload) + if r.Ok? then BlockBytes(s) else []
    {
      if |s| > U32_MAX {
        return Err(FrameTooLarge);
      }
      payload := payload + U32Bytes(|s|);
      payload := payload + s;
      r := Ok(());
    }

    method WriteIdentity(identity: Identity) returns (r: Read<()>)
      modifies this
      ensures r == if |identity.id| <= U32_MAX then Ok(()) else Err(FrameTooLarge)
      ensures payload == old(payload) + if r.Ok? then IdentityBytes(identity) else []
    {
      r := WriteBlock(identity.id);
      if r.Ok? {
        Push(KindByte(identity.kind));
      }
    }

    method WriteResources(resources: WireResources)
      modifies this
      ensures payload == old(payload) + ResourcesBytes(resources)
    {
      payload := payload + U64Bytes(resources.cpuBits);
      payload := payload + U64Bytes(resources.memory);
      payload := payload + U64Bytes(resources.storage);
      payload := payload + U64Bytes(resources.network);
      payload := payload + U32Bytes(resources.gpu);
      assert payload == old(payload) + CapacityBytes(Raw(resources));
      match resources.lifetime
      case Some(duration) =>
        Push(1);
        payload := payload + U64Bytes(duration.secs);
        payload := payload + U32Bytes(duration.nanos);
      case None =>
        Push(0);
    }

    method WriteHeader(requestId: Text) returns (r: Read<()>)
      modifies this
      ensures r == if |requestId| <= U32_MAX then Ok(()) else Err(FrameTooLarge)
      ensures r.Ok? ==> payload == old(payload) + HeaderBytes(requestId)
    {
      ghost var start := payload;
      Push(PROTOCOL_VERSION);
      r := WriteBlock(requestId);
      Gather2(start, [PROTOCOL_VERSION], BlockBytes(requestId));
    }

    method WriteSource(source: Option<Identity>) returns (r: Read<()>)
      modifies this
      ensures r == if source.Some? && |source.value.id| > U32_MAX then Err(FrameTooLarge) else Ok(())
      ensures r.Ok? ==> payload == old(payload) + SourceBytes(source)
    {
      if source.None? {
        Push(0);
        return Ok(());
      }
      ghost var start := payload;
      Push(1);
      r := WriteIdentity(source.value);
      Gather2(start, [1], IdentityBytes(source.value));
    }

    /** Two blocks, as a workload and a runtime are written. */
    method WritePair(first: seq<byte>, second: seq<byte>) returns (r: Read<()>)
      modifies this
      ensures r == if |first| <= U32_MAX && |second| <= U32_MAX then Ok(()) else Err(FrameTooLarge)
      ensures r.Ok? ==> payload == old(payload) + (BlockBytes(first) + BlockBytes(second))
    {
      ghost var start := payload;
      r := WriteBlock(first);
      if r.Err? { return; }
      r := WriteBlock(second);
      Gather2(start, BlockBytes(first), BlockBytes(second));
    }

    method WriteEnvelope(e: Envelope) returns (r: Read<()>)
      modifies this
      ensures r.Ok? <==>
                && |e.requestId| <= U32_MAX && (e.source.Some? ==> |e.source.value.id| <= U32_MAX)
                && |e.workload.id| <= U32_MAX && |e.workload.payload| <= U32_MAX
      ensures r.Ok? ==> payload == old(payload) + EnvelopeBytes(e)
      ensures r.Err? ==> r.error == FrameTooLarge
    {
      ghost var start := payload;
      r := WriteHeader(e.requestId);
      if r.Err? { return; }
      r := WriteSource(e.source);
      if r.Err? { return; }
      r := WritePair(e.workload.id, e.workload.payload);
      Gather3(start, HeaderBytes(e.requestId), SourceBytes(e.source), WorkloadBytes(e.workload));
    }

    method WriteTarget(t: Target) returns (r: Read<()>)
      modifies this
      ensures r.Ok? <==>
                && |t.nodeId.id| <= U32_MAX && |t.runtime.name| <= U32_MAX && |t.runtime.version| <= U32_MAX
      ensures r.Ok? ==> payload == old(payload) + TargetBytes(t)
      ensures r.Err? ==> r.error == FrameTooLarge
    {
      ghost var start := payload;
      r := WriteIdentity(t.nodeId);
      if r.Err? { return; }
      r := WritePair(t.runtime.name, t.runtime.version);
      Gather2(start, IdentityBytes(t.nodeId), RuntimeBytes(t.runtime));
    }

    method WriteHead(r: WireRequest) returns (done: Read<()>)
      modifies this
      ensures done == if HeadFits(r) then Ok(()) else Err(FrameTooLarge)
      ensures done.Ok? ==> payload == old(payload) + HeadBytes(r)
    {
      ghost var start := payload;
      var e := Envelope(r.requestId, r.source, r.workload);
      var t := Target(r.nodeId, r.runtime);
      done := WriteEnvelope(e);
      if done.Err? { return; }
      done := WriteTarget(t);
      if done.Err? { return; }
      done := WriteIdentity(r.unit.participantId);
      Gather3(start, EnvelopeBytes(e), TargetBytes(t), IdentityBytes(r.unit.participantId));
    }

    method WriteError(error: Option<Text>) returns (r: Read<()>)
      modifies this
      ensures r == if error.Some? && |error.value| > U32_MAX then Err(FrameTooLarge) else Ok(())
      ensures r.Ok? ==> payload == old(payload) + ErrorBytes(error)
    {
      if error.None? {
        Push(0);
        return Ok(());
      }
      ghost var start := payload;
      Push(1);
      r := WriteBlock(error.value);
      Gather2(start, [1], BlockBytes(error.value));
    }

    method WriteEndpoint(e: ExecutionEndpoint) returns (r: Read<()>)
      modifies this
      ensures r == if |e.participantId.id| <= U32_MAX && |e.locator| <= U32_MAX then Ok(()) else Err(FrameTooLarge)
      ensures r.Ok? ==> payload == old(payload) + EndpointBytes(e)
    {
      ghost var start := payload;
      r := WriteIdentity(e.participantId);
      if r.Err? { return; }
      r := WriteBlock(e.locator);
      Gather2(start, IdentityBytes(e.participantId), BlockBytes(e.locator));
    }
  }

  lemma Gather2(start: seq<byte>, a: seq<byte>, b: seq<byte>)
    ensures start + a + b == start + (a + b)
  {
  }

  lemma Gather3(start: seq<byte>, a: seq<byte>, b: seq<byte>, c: seq<byte>)
    ensures start + a + b + c == start + (a + b + c)
  {
  }

  /** What write_request puts on the stream. */
  method SendRequest(r: WireRequest) returns (sent: Read<seq<byte>>)
    ensures sent == WrittenRequest(r)
  {
    var writer := new Writer();
    var done := writer.WriteHead(r);
    if done.Err? { return Err(done.error); }
    writer.WriteResources(r.unit.resources);
    done := writer.WriteEndpoint(r.endpoint);
    if done.Err? { return Err(done.error); }
    Gather3([], HeadBytes(r), ResourcesBytes(r.unit.resources), EndpointBytes(r.endpoint));
    assert writer.payload == RequestBytes(r);
    sent := FrameOf(writer.payload);
  }

  /** What write_response puts on the stream. */
  method SendResponse(r: ExecutionResponse) returns (sent: Read<seq<byte>>)
    ensures sent == WrittenResponse(r)
  {
    var writer := new Writer();
    var done := writer.WriteHeader(r.requestId);
    if done.Err? { return Err(done.error); }
    writer.Push(StatusByte(r.status));
    done := writer.WriteError(r.error);
    if done.Err? { return Err(done.error); }
    assert writer.payload == ResponseBytes(r);
    sent := FrameOf(writer.payload);
  }
}
