/**
 What encoding and parsing owe each other. Each parser has three laws: it undoes its encoder
 whatever follows (RoundTrip), what it accepts is what the encoder writes (Canonical), and it
 either needs more bytes or does not care what follows (Stable).
 */
module WireLaws {
  import opened Prelude
  import opened Strings
  import opened Identities
  import opened Nodes
  import opened Execution
  import opened Messages
  import opened Wire
  import BigEndian

  /** Parsing with extra bytes behind gives the same, unless the shorter input was malformed. */
  ghost predicate Stable<T>(short: Parsed<T>, long: Parsed<T>, extra: seq<byte>) {
    match short
    case Ok((value, rest)) => long == Ok((value, rest + extra))
    case Err(e) => e == MalformedFrame || long == Err(e)
  }

  // Fixed-width fields

  lemma TakeStable(b: seq<byte>, n: nat, extra: seq<byte>)
    ensures Stable(Take(b, n), Take(b + extra, n), extra)
  {
    if n <= |b| {
      assert (b + extra)[..n] == b[..n] && (b + extra)[n..] == b[n..] + extra;
    }
  }

  lemma ByteStable(b: seq<byte>, extra: seq<byte>)
    ensures Stable(Byte(b), Byte(b + extra), extra)
  {
    TakeStable(b, 1, extra);
  }

  lemma ByteRoundTrip(v: byte, after: seq<byte>)
    ensures Byte([v] + after) == Ok((v, after))
  {
  }

  lemma ByteCanonical(b: seq<byte>)
    requires Byte(b).Ok?
    ensures b == [Byte(b).value.0] + Byte(b).value.1
  {
  }

  lemma U32Stable(b: seq<byte>, extra: seq<byte>)
    ensures Stable(U32(b), U32(b + extra), extra)
  {
    TakeStable(b, 4, extra);
  }

  lemma U32RoundTrip(v: u32, after: seq<byte>)
    ensures U32(U32Bytes(v) + after) == Ok((v, after))
  {
    BigEndian.Limits();
    BigEndian.DecodeEncode(4, v);
    assert (U32Bytes(v) + after)[..4] == U32Bytes(v) && (U32Bytes(v) + after)[4..] == after;
  }

  lemma U32Canonical(b: seq<byte>)
    requires U32(b).Ok?
    ensures b == U32Bytes(U32(b).value.0) + U32(b).value.1
  {
    BigEndian.EncodeDecode(b[..4]);
    assert b == b[..4] + b[4..];
  }

  lemma U64Stable(b: seq<byte>, extra: seq<byte>)
    ensures Stable(U64(b), U64(b + extra), extra)
  {
    TakeStable(b, 8, extra);
  }

  lemma U64RoundTrip(v: u64, after: seq<byte>)
    ensures U64(U64Bytes(v) + after) == Ok((v, after))
  {
    BigEndian.Limits();
    BigEndian.DecodeEncode(8, v);
    assert (U64Bytes(v) + after)[..8] == U64Bytes(v) && (U64Bytes(v) + after)[8..] == after;
  }

  lemma U64Canonical(b: seq<byte>)
    requires U64(b).Ok?
    ensures b == U64Bytes(U64(b).value.0) + U64(b).value.1
  {
    BigEndian.EncodeDecode(b[..8]);
    assert b == b[..8] + b[8..];
  }

  // Strings, byte vectors and identities

  lemma BytesStable(b: seq<byte>, extra: seq<byte>)
    ensures Stable(Bytes(b), Bytes(b + extra), extra)
  {
    U32Stable(b, extra);
    if U32(b).Ok? {
      TakeStable(U32(b).value.1, U32(b).value.0, extra);
    }
  }

  lemma BytesRoundTrip(s: seq<byte>, after: seq<byte>)
    requires |s| <= U32_MAX
    ensures Bytes(BlockBytes(s) + after) == Ok((s, after))
  {
    U32RoundTrip(|s|, s + after);
    assert BlockBytes(s) + after == U32Bytes(|s|) + (s + after);
    assert (s + after)[..|s|] == s && (s + after)[|s|..] == after;
  }

  lemma BytesCanonical(b: seq<byte>)
    requires Bytes(b).Ok?
    ensures b == BlockBytes(Bytes(b).value.0) + Bytes(b).value.1 && |Bytes(b).value.0| <= U32_MAX
  {
    U32Canonical(b);
  }

  /** What the language and the four-byte length guarantee of a string. */
  predicate SoundText(s: Text) {
    Utf8(s) && |s| <= U32_MAX
  }

  lemma StringStable(b: seq<byte>, extra: seq<byte>)
    ensures Stable(String(b), String(b + extra), extra)
  {
    BytesStable(b, extra);
  }

  lemma StringRoundTrip(s: Text, after: seq<byte>)
    requires SoundText(s)
    ensures String(BlockBytes(s) + after) == Ok((s, after))
  {
    BytesRoundTrip(s, after);
  }

  lemma StringCanonical(b: seq<byte>)
    requires String(b).Ok?
    ensures b == BlockBytes(String(b).value.0) + String(b).value.1 && SoundText(String(b).value.0)
  {
    BytesCanonical(b);
  }

  lemma KindRoundTrip(kind: Kind)
    ensures KindOf(KindByte(kind)) == Some(kind)
  {
  }

  lemma KindCanonical(b: byte)
    requires KindOf(b).Some?
    ensures KindByte(KindOf(b).value) == b
  {
  }

  lemma IdentityStable(b: seq<byte>, extra: seq<byte>)
    ensures Stable(ParseIdentity(b), ParseIdentity(b + extra), extra)
  {
    StringStable(b, extra);
    if String(b).Ok? {
      ByteStable(String(b).value.1, extra);
    }
  }

  lemma IdentityRoundTrip(identity: Identity, after: seq<byte>)
    requires identity.Valid()
    ensures ParseIdentity(IdentityBytes(identity) + after) == Ok((identity, after))
  {
    var kind := [KindByte(identity.kind)];
    CanonicalIsUtf8(identity.id);
    StringRoundTrip(identity.id, kind + after);
    assert IdentityBytes(identity) + after == BlockBytes(identity.id) + (kind + after);
    ByteRoundTrip(KindByte(identity.kind), after);
    KindRoundTrip(identity.kind);
  }

  lemma IdentityCanonical(b: seq<byte>)
    requires ParseIdentity(b).Ok?
    ensures ParseIdentity(b).value.0.Valid()
    ensures b == IdentityBytes(ParseIdentity(b).value.0) + ParseIdentity(b).value.1
  {
    StringCanonical(b);
    var (id, b1) := String(b).value;
    ByteCanonical(b1);
    KindCanonical(Byte(b1).value.0);
  }

  // Resources

  lemma CapacityStable(b: seq<byte>, extra: seq<byte>)
    ensures Stable(ParseCapacity(b), ParseCapacity(b + extra), extra)
  {
    U64Stable(b, extra);
    if U64(b).Ok? {
      var b1 := U64(b).value.1;
      U64Stable(b1, extra);
      if U64(b1).Ok? {
        var b2 := U64(b1).value.1;
        U64Stable(b2, extra);
        if U64(b2).Ok? {
          var b3 := U64(b2).value.1;
          U64Stable(b3, extra);
          if U64(b3).Ok? {
            U32Stable(U64(b3).value.1, extra);
          }
        }
      }
    }
  }

  lemma CapacityRoundTrip(r: RawResources, after: seq<byte>)
    ensures ParseCapacity(CapacityBytes(r) + after) == Ok((r.(lifetime := None), after))
  {
    var a4 := U32Bytes(r.gpu) + after;
    var a3 := U64Bytes(r.network) + a4;
    var a2 := U64Bytes(r.storage) + a3;
    var a1 := U64Bytes(r.memory) + a2;
    assert CapacityBytes(r) + after == U64Bytes(r.cpuBits) + a1;
    U64RoundTrip(r.cpuBits, a1);
    U64RoundTrip(r.memory, a2);
    U64RoundTrip(r.storage, a3);
    U64RoundTrip(r.network, a4);
    U32RoundTrip(r.gpu, after);
  }

  lemma CapacityCanonical(b: seq<byte>)
    requires ParseCapacity(b).Ok?
    ensures b == CapacityBytes(ParseCapacity(b).value.0) + ParseCapacity(b).value.1
  {
    var (cpuBits, b1) := U64(b).value;
    var (memory, b2) := U64(b1).value;
    var (storage, b3) := U64(b2).value;
    var (network, b4) := U64(b3).value;
    var (gpu, b5) := U32(b4).value;
    U64Canonical(b);
    U64Canonical(b1);
    U64Canonical(b2);
    U64Canonical(b3);
    U32Canonical(b4);
    Regrouped(U64Bytes(cpuBits), U64Bytes(memory), U64Bytes(storage), U64Bytes(network), U32Bytes(gpu), b5);
    assert ParseCapacity(b) == Ok((RawResources(cpuBits, memory, storage, network, gpu, None), b5));
  }

  lemma Regrouped(a: seq<byte>, b: seq<byte>, c: seq<byte>, d: seq<byte>, e: seq<byte>, rest: seq<byte>)
    ensures a + (b + (c + (d + (e + rest)))) == a + b + c + d + e + rest
  {
  }

  /** Where each resource field stands, and that the first byte of each weighs most. */
  lemma ResourcesLayout(r: RawResources)
    ensures var b := RawBytes(r);
            && |b| == (if r.lifetime.Some? then 49 else 37)
            && BigEndian.Decode(b[0..8]) == r.cpuBits
            && BigEndian.Decode(b[8..16]) == r.memory
            && BigEndian.Decode(b[16..24]) == r.storage
            && BigEndian.Decode(b[24..32]) == r.network
            && BigEndian.Decode(b[32..36]) == r.gpu
            && b[36] == (if r.lifetime.Some? then 1 else 0)
            && (r.lifetime.Some? ==>
                  BigEndian.Decode(b[37..45]) == r.lifetime.value.0 && BigEndian.Decode(b[45..49]) == r.lifetime.value.1)
  {
    var b := RawBytes(r);
    BigEndian.Limits();
    BigEndian.DecodeEncode(8, r.cpuBits);
    BigEndian.DecodeEncode(8, r.memory);
    BigEndian.DecodeEncode(8, r.storage);
    BigEndian.DecodeEncode(8, r.network);
    BigEndian.DecodeEncode(4, r.gpu);
    FiveFields(U64Bytes(r.cpuBits), U64Bytes(r.memory), U64Bytes(r.storage), U64Bytes(r.network), U32Bytes(r.gpu),
               RawLifetimeBytes(r.lifetime));
    if r.lifetime.Some? {
      var (secs, nanos) := r.lifetime.value;
      BigEndian.DecodeEncode(8, secs);
      BigEndian.DecodeEncode(4, nanos);
      TwoFields(CapacityBytes(r), U64Bytes(secs), U32Bytes(nanos));
    }
  }

  lemma FiveFields(a: seq<byte>, b: seq<byte>, c: seq<byte>, d: seq<byte>, e: seq<byte>, rest: seq<byte>)
    requires |a| == |b| == |c| == |d| == 8 && |e| == 4
    ensures var s := a + b + c + d + e + rest;
            && s[0..8] == a && s[8..16] == b && s[16..24] == c && s[24..32] == d && s[32..36] == e && s[36..] == rest
  {
  }

  lemma TwoFields(head: seq<byte>, a: seq<byte>, b: seq<byte>)
    requires |head| == 36 && |a| == 8 && |b| == 4
    ensures var s := head + ([1] + (a + b));
            |s| == 49 && s[36] == 1 && s[37..45] == a && s[45..49] == b
  {
  }

  lemma LifetimeStable(b: seq<byte>, extra: seq<byte>)
    ensures Stable(ParseLifetime(b), ParseLifetime(b + extra), extra)
  {
    ByteStable(b, extra);
    if Byte(b).Ok? && Byte(b).value.0 == 1 {
      var b1 := Byte(b).value.1;
      U64Stable(b1, extra);
      if U64(b1).Ok? {
        U32Stable(U64(b1).value.1, extra);
      }
    }
  }

  lemma LifetimeRoundTrip(lifetime: Option<(u64, u32)>, after: seq<byte>)
    ensures ParseLifetime(RawLifetimeBytes(lifetime) + after) == Ok((lifetime, after))
  {
    match lifetime
    case None =>
      ByteRoundTrip(0, after);
    case Some((secs, nanos)) =>
      var a2 := U32Bytes(nanos) + after;
      var a1 := U64Bytes(secs) + a2;
      assert RawLifetimeBytes(lifetime) + after == [1] + a1;
      ByteRoundTrip(1, a1);
      U64RoundTrip(secs, a2);
      U32RoundTrip(nanos, after);
  }

  lemma LifetimeCanonical(b: seq<byte>)
    requires ParseLifetime(b).Ok?
    ensures b == RawLifetimeBytes(ParseLifetime(b).value.0) + ParseLifetime(b).value.1
  {
    ByteCanonical(b);
    var (flag, b1) := Byte(b).value;
    if flag == 1 {
      U64Canonical(b1);
      var (secs, b2) := U64(b1).value;
      U32Canonical(b2);
      var (nanos, b3) := U32(b2).value;
      assert b == [1] + (U64Bytes(secs) + (U32Bytes(nanos) + b3));
    }
  }

  lemma RawStable(b: seq<byte>, extra: seq<byte>)
    ensures Stable(ParseRaw(b), ParseRaw(b + extra), extra)
  {
    CapacityStable(b, extra);
    if ParseCapacity(b).Ok? {
      LifetimeStable(ParseCapacity(b).value.1, extra);
    }
  }

  lemma RawRoundTrip(r: RawResources, after: seq<byte>)
    ensures ParseRaw(RawBytes(r) + after) == Ok((r, after))
  {
    var a1 := RawLifetimeBytes(r.lifetime) + after;
    assert RawBytes(r) + after == CapacityBytes(r) + a1;
    CapacityRoundTrip(r, a1);
    LifetimeRoundTrip(r.lifetime, after);
  }

  lemma RawCanonical(b: seq<byte>)
    requires ParseRaw(b).Ok?
    ensures b == RawBytes(ParseRaw(b).value.0) + ParseRaw(b).value.1
  {
    CapacityCanonical(b);
    var (capacity, b1) := ParseCapacity(b).value;
    LifetimeCanonical(b1);
  }

  lemma ResourcesStable(b: seq<byte>, extra: seq<byte>)
    ensures Stable(ParseResources(b), ParseResources(b + extra), extra)
  {
    RawStable(b, extra);
  }

  lemma CheckedUndoesRaw(r: WireResources)
    requires ValidWireRequirement(r)
    ensures Checked(Raw(r)) == Ok(r)
  {
    if r.lifetime.Some? {
      assert Carried(r.lifetime.value.secs, r.lifetime.value.nanos) == r.lifetime;
    }
  }

  lemma CheckedAfterRaw(b: seq<byte>, raw: RawResources, rest: seq<byte>)
    requires ParseRaw(b) == Ok((raw, rest))
    ensures ParseResources(b) == match Checked(raw) case Ok(r) => Ok((r, rest)) case Err(e) => Err(e)
  {
  }

  lemma ResourcesRoundTrip(r: WireResources, after: seq<byte>)
    requires ValidWireRequirement(r)
    ensures ParseResources(ResourcesBytes(r) + after) == Ok((r, after))
  {
    RawRoundTrip(Raw(r), after);
    CheckedAfterRaw(RawBytes(Raw(r)) + after, Raw(r), after);
    CheckedUndoesRaw(r);
  }

  /** What is read back is what was on the wire, up to the carry in the lifetime. */
  lemma ResourcesCanonical(b: seq<byte>) returns (raw: RawResources)
    requires ParseResources(b).Ok?
    ensures ValidWireRequirement(ParseResources(b).value.0)
    ensures Checked(raw) == Ok(ParseResources(b).value.0)
    ensures b == RawBytes(raw) + ParseResources(b).value.1
  {
    RawCanonical(b);
    raw := ParseRaw(b).value.0;
  }

  // The parts of a message

  lemma HeaderStable(b: seq<byte>, extra: seq<byte>)
    ensures Stable(ParseHeader(b), ParseHeader(b + extra), extra)
  {
    ByteStable(b, extra);
    if Byte(b).Ok? {
      StringStable(Byte(b).value.1, extra);
    }
  }

  lemma HeaderAfterVersion(b: seq<byte>, rest: seq<byte>)
    requires Byte(b) == Ok((PROTOCOL_VERSION, rest))
    ensures ParseHeader(b) == String(rest)
  {
  }

  lemma HeaderRoundTrip(id: Text, after: seq<byte>)
    requires SoundText(id)
    ensures ParseHeader(HeaderBytes(id) + after) == Ok((id, after))
  {
    var rest := BlockBytes(id) + after;
    assert HeaderBytes(id) + after == [PROTOCOL_VERSION] + rest;
    ByteRoundTrip(PROTOCOL_VERSION, rest);
    HeaderAfterVersion([PROTOCOL_VERSION] + rest, rest);
    StringRoundTrip(id, after);
  }

  lemma HeaderCanonical(b: seq<byte>)
    requires ParseHeader(b).Ok?
    ensures b == HeaderBytes(ParseHeader(b).value.0) + ParseHeader(b).value.1
    ensures SoundText(ParseHeader(b).value.0)
  {
    ByteCanonical(b);
    StringCanonical(Byte(b).value.1);
  }

  lemma SourceStable(b: seq<byte>, extra: seq<byte>)
    ensures Stable(ParseSource(b), ParseSource(b + extra), extra)
  {
    ByteStable(b, extra);
    if Byte(b).Ok? {
      IdentityStable(Byte(b).value.1, extra);
    }
  }

  lemma SourceRoundTrip(source: Option<Identity>, after: seq<byte>)
    requires source.Some? ==> source.value.Valid()
    ensures ParseSource(SourceBytes(source) + after) == Ok((source, after))
  {
    match source
    case None =>
      ByteRoundTrip(0, after);
    case Some(identity) =>
      assert SourceBytes(source) + after == [1] + (IdentityBytes(identity) + after);
      ByteRoundTrip(1, IdentityBytes(identity) + after);
      IdentityRoundTrip(identity, after);
  }

  lemma SourceCanonical(b: seq<byte>)
    requires ParseSource(b).Ok?
    ensures b == SourceBytes(ParseSource(b).value.0) + ParseSource(b).value.1
    ensures ParseSource(b).value.0.Some? ==> ParseSource(b).value.0.value.Valid()
  {
    ByteCanonical(b);
    var (flag, b1) := Byte(b).value;
    if flag == 1 {
      IdentityCanonical(b1);
      var (identity, b2) := ParseIdentity(b1).value;
      assert b == [1] + (IdentityBytes(identity) + b2);
    }
  }

  lemma WorkloadStable(b: seq<byte>, extra: seq<byte>)
    ensures Stable(ParseWorkload(b), ParseWorkload(b + extra), extra)
  {
    StringStable(b, extra);
    if String(b).Ok? {
      BytesStable(String(b).value.1, extra);
    }
  }

  lemma WorkloadRoundTrip(w: WorkItem, after: seq<byte>)
    requires SoundText(w.id) && |w.payload| <= U32_MAX
    ensures ParseWorkload(WorkloadBytes(w) + after) == Ok((w, after))
  {
    assert WorkloadBytes(w) + after == BlockBytes(w.id) + (BlockBytes(w.payload) + after);
    StringRoundTrip(w.id, BlockBytes(w.payload) + after);
    BytesRoundTrip(w.payload, after);
  }

  lemma WorkloadCanonical(b: seq<byte>)
    requires ParseWorkload(b).Ok?
    ensures b == WorkloadBytes(ParseWorkload(b).value.0) + ParseWorkload(b).value.1
    ensures SoundText(ParseWorkload(b).value.0.id) && |ParseWorkload(b).value.0.payload| <= U32_MAX
  {
    var (id, b1) := String(b).value;
    StringCanonical(b);
    BytesCanonical(b1);
    var (payload, rest) := Bytes(b1).value;
    Splice(b, BlockBytes(id), b1, BlockBytes(payload), rest);
    WorkloadChain(b, b1, WorkItem(id, payload), rest);
  }

  lemma WorkloadChain(b: seq<byte>, b1: seq<byte>, w: WorkItem, rest: seq<byte>)
    requires String(b) == Ok((w.id, b1)) && Bytes(b1) == Ok((w.payload, rest))
    ensures ParseWorkload(b) == Ok((w, rest))
  {
  }

  lemma RuntimeStable(b: seq<byte>, extra: seq<byte>)
    ensures Stable(ParseRuntime(b), ParseRuntime(b + extra), extra)
  {
    StringStable(b, extra);
    if String(b).Ok? {
      StringStable(String(b).value.1, extra);
    }
  }

  lemma RuntimeRoundTrip(r: RuntimeSpec, after: seq<byte>)
    requires SoundText(r.name) && SoundText(r.version)
    ensures ParseRuntime(RuntimeBytes(r) + after) == Ok((r, after))
  {
    assert RuntimeBytes(r) + after == BlockBytes(r.name) + (BlockBytes(r.version) + after);
    StringRoundTrip(r.name, BlockBytes(r.version) + after);
    StringRoundTrip(r.version, after);
  }

  lemma RuntimeCanonical(b: seq<byte>)
    requires ParseRuntime(b).Ok?
    ensures b == RuntimeBytes(ParseRuntime(b).value.0) + ParseRuntime(b).value.1
    ensures SoundText(ParseRuntime(b).value.0.name) && SoundText(ParseRuntime(b).value.0.version)
  {
    StringCanonical(b);
    StringCanonical(String(b).value.1);
  }

  lemma UnitStable(b: seq<byte>, extra: seq<byte>)
    ensures Stable(ParseUnit(b), ParseUnit(b + extra), extra)
  {
    IdentityStable(b, extra);
    if ParseIdentity(b).Ok? {
      ResourcesStable(ParseIdentity(b).value.1, extra);
    }
  }

  lemma ThreeParts(a: seq<byte>, b: seq<byte>, c: seq<byte>)
    ensures a + b + c == a + (b + c)
  {
  }

  /** Whatever raw fields stand for a unit's resources, they are read as those resources. */
  lemma UnitFromRaw(u: ExecutionUnit<WireResources>, raw: RawResources, after: seq<byte>)
    requires u.participantId.Valid() && Checked(raw) == Ok(u.resources)
    ensures ParseUnit(IdentityBytes(u.participantId) + RawBytes(raw) + after) == Ok((u, after))
  {
    var a1 := RawBytes(raw) + after;
    ThreeParts(IdentityBytes(u.participantId), RawBytes(raw), after);
    IdentityRoundTrip(u.participantId, a1);
    RawRoundTrip(raw, after);
    CheckedAfterRaw(a1, raw, after);
  }

  lemma UnitCanonical(b: seq<byte>) returns (raw: RawResources)
    requires ParseUnit(b).Ok?
    ensures var (u, rest) := ParseUnit(b).value;
            && u.participantId.Valid() && ValidWireRequirement(u.resources)
            && Checked(raw) == Ok(u.resources)
            && b == IdentityBytes(u.participantId) + RawBytes(raw) + rest
  {
    IdentityCanonical(b);
    var (participantId, b1) := ParseIdentity(b).value;
    raw := ResourcesCanonical(b1);
    var rest := ParseResources(b1).value.1;
    assert IdentityBytes(participantId) + (RawBytes(raw) + rest) == IdentityBytes(participantId) + RawBytes(raw) + rest;
  }

  lemma EndpointStable(b: seq<byte>, extra: seq<byte>)
    ensures Stable(ParseEndpoint(b), ParseEndpoint(b + extra), extra)
  {
    IdentityStable(b, extra);
    if ParseIdentity(b).Ok? {
      StringStable(ParseIdentity(b).value.1, extra);
    }
  }

  lemma EndpointRoundTrip(e: ExecutionEndpoint, after: seq<byte>)
    requires e.participantId.Valid() && SoundText(e.locator)
    ensures ParseEndpoint(EndpointBytes(e) + after) == Ok((e, after))
  {
    assert EndpointBytes(e) + after == IdentityBytes(e.participantId) + (BlockBytes(e.locator) + after);
    IdentityRoundTrip(e.participantId, BlockBytes(e.locator) + after);
    StringRoundTrip(e.locator, after);
  }

  lemma EndpointCanonical(b: seq<byte>)
    requires ParseEndpoint(b).Ok?
    ensures b == EndpointBytes(ParseEndpoint(b).value.0) + ParseEndpoint(b).value.1
    ensures ParseEndpoint(b).value.0.participantId.Valid() && SoundText(ParseEndpoint(b).value.0.locator)
  {
    IdentityCanonical(b);
    StringCanonical(ParseIdentity(b).value.1);
  }

  lemma StatusStable(b: seq<byte>, extra: seq<byte>)
    ensures Stable(ParseStatus(b), ParseStatus(b + extra), extra)
  {
    ByteStable(b, extra);
  }

  lemma StatusRoundTrip(status: ExecutionStatus, after: seq<byte>)
    ensures ParseStatus([StatusByte(status)] + after) == Ok((status, after))
  {
    ByteRoundTrip(StatusByte(status), after);
  }

  lemma StatusCanonical(b: seq<byte>)
    requires ParseStatus(b).Ok?
    ensures b == [StatusByte(ParseStatus(b).value.0)] + ParseStatus(b).value.1
  {
    ByteCanonical(b);
  }

  lemma ErrorStable(b: seq<byte>, extra: seq<byte>)
    ensures Stable(ParseError(b), ParseError(b + extra), extra)
  {
    ByteStable(b, extra);
    if Byte(b).Ok? {
      StringStable(Byte(b).value.1, extra);
    }
  }

  lemma ErrorRoundTrip(error: Option<Text>, after: seq<byte>)
    requires error.Some? ==> SoundText(error.value)
    ensures ParseError(ErrorBytes(error) + after) == Ok((error, after))
  {
    match error
    case None =>
      ByteRoundTrip(0, after);
    case Some(text) =>
      assert ErrorBytes(error) + after == [1] + (BlockBytes(text) + after);
      ByteRoundTrip(1, BlockBytes(text) + after);
      StringRoundTrip(text, after);
  }

  lemma ErrorCanonical(b: seq<byte>)
    requires ParseError(b).Ok?
    ensures b == ErrorBytes(ParseError(b).value.0) + ParseError(b).value.1
    ensures ParseError(b).value.0.Some? ==> SoundText(ParseError(b).value.0.value)
  {
    ByteCanonical(b);
    var (flag, b1) := Byte(b).value;
    if flag == 1 {
      StringCanonical(b1);
      var (text, b2) := String(b1).value;
      assert b == [1] + (BlockBytes(text) + b2);
    }
  }

  lemma EnvelopeStable(b: seq<byte>, extra: seq<byte>)
    ensures Stable(ParseEnvelope(b), ParseEnvelope(b + extra), extra)
  {
    HeaderStable(b, extra);
    if ParseHeader(b).Ok? {
      var b1 := ParseHeader(b).value.1;
      SourceStable(b1, extra);
      if ParseSource(b1).Ok? {
        WorkloadStable(ParseSource(b1).value.1, extra);
      }
    }
  }

  lemma EnvelopeChain(b: seq<byte>, b1: seq<byte>, b2: seq<byte>, e: Envelope, rest: seq<byte>)
    requires ParseHeader(b) == Ok((e.requestId, b1))
    requires ParseSource(b1) == Ok((e.source, b2))
    requires ParseWorkload(b2) == Ok((e.workload, rest))
    ensures ParseEnvelope(b) == Ok((e, rest))
  {
  }

  lemma EnvelopeRoundTrip(e: Envelope, after: seq<byte>)
    requires SoundText(e.requestId) && (e.source.Some? ==> e.source.value.Valid())
    requires SoundText(e.workload.id) && |e.workload.payload| <= U32_MAX
    ensures ParseEnvelope(EnvelopeBytes(e) + after) == Ok((e, after))
  {
    var a2 := WorkloadBytes(e.workload) + after;
    var a1 := SourceBytes(e.source) + a2;
    assert EnvelopeBytes(e) + after == HeaderBytes(e.requestId) + a1;
    HeaderRoundTrip(e.requestId, a1);
    SourceRoundTrip(e.source, a2);
    WorkloadRoundTrip(e.workload, after);
    EnvelopeChain(HeaderBytes(e.requestId) + a1, a1, a2, e, after);
  }

  lemma EnvelopeCanonical(b: seq<byte>)
    requires ParseEnvelope(b).Ok?
    ensures var (e, rest) := ParseEnvelope(b).value;
            && SoundText(e.requestId) && (e.source.Some? ==> e.source.value.Valid())
            && SoundText(e.workload.id) && |e.workload.payload| <= U32_MAX
            && b == EnvelopeBytes(e) + rest
  {
    var b1, b2, e, rest := EnvelopeParts(b);
    HeaderCanonical(b);
    SourceCanonical(b1);
    WorkloadCanonical(b2);
    Splice(b, HeaderBytes(e.requestId), b1, SourceBytes(e.source), b2);
    Splice(b, HeaderBytes(e.requestId) + SourceBytes(e.source), b2, WorkloadBytes(e.workload), rest);
  }

  lemma EnvelopeParts(b: seq<byte>) returns (b1: seq<byte>, b2: seq<byte>, e: Envelope, rest: seq<byte>)
    requires ParseEnvelope(b).Ok?
    ensures ParseEnvelope(b) == Ok((e, rest))
    ensures ParseHeader(b) == Ok((e.requestId, b1))
    ensures ParseSource(b1) == Ok((e.source, b2))
    ensures ParseWorkload(b2) == Ok((e.workload, rest))
  {
    b1 := ParseHeader(b).value.1;
    b2 := ParseSource(b1).value.1;
    e, rest := ParseEnvelope(b).value.0, ParseEnvelope(b).value.1;
  }

  /** What was cut into a first part and a rest, whose rest was cut again. */
  lemma Splice(b: seq<byte>, first: seq<byte>, middle: seq<byte>, second: seq<byte>, last: seq<byte>)
    requires b == first + middle && middle == second + last
    ensures b == first + second + last
  {
  }

  lemma TargetStable(b: seq<byte>, extra: seq<byte>)
    ensures Stable(ParseTarget(b), ParseTarget(b + extra), extra)
  {
    IdentityStable(b, extra);
    if ParseIdentity(b).Ok? {
      RuntimeStable(ParseIdentity(b).value.1, extra);
    }
  }

  lemma TargetRoundTrip(t: Target, after: seq<byte>)
    requires t.nodeId.Valid() && SoundText(t.runtime.name) && SoundText(t.runtime.version)
    ensures ParseTarget(TargetBytes(t) + after) == Ok((t, after))
  {
    assert TargetBytes(t) + after == IdentityBytes(t.nodeId) + (RuntimeBytes(t.runtime) + after);
    IdentityRoundTrip(t.nodeId, RuntimeBytes(t.runtime) + after);
    RuntimeRoundTrip(t.runtime, after);
  }

  lemma TargetCanonical(b: seq<byte>)
    requires ParseTarget(b).Ok?
    ensures var (t, rest) := ParseTarget(b).value;
            && t.nodeId.Valid() && SoundText(t.runtime.name) && SoundText(t.runtime.version)
            && b == TargetBytes(t) + rest
  {
    IdentityCanonical(b);
    RuntimeCanonical(ParseIdentity(b).value.1);
  }
}
