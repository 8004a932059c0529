/** Concrete messages, byte by byte. */
module WireExamples {
  import opened Prelude
  import opened Strings
  import opened Identities
  import opened Nodes
  import opened Execution
  import opened Messages
  import opened Wire
  import opened WireLaws
  import opened WireMessages
  import BigEndian
  import Samples

  const NAME: Text := [0x61]
  /** One core and other amounts for six seconds and seven nanoseconds, asked for by a participant. */
  const RESOURCES := WireResources(0x3FF0_0000_0000_0000, 2, 3, 4, 5, Some(WireDuration(6, 7)))
  const WORK := WorkItem([0x62], [0x63, 0x64])
  const RUNTIME := RuntimeSpec([0x72], [0x31])
  const LOCATOR: Text := [0x65]

  function RequestOf(id: Text): WireRequest {
    var member := Identity(id, Kind.Participant);
    ExecutionRequest(NAME, Some(member), WORK, Identity(id, Kind.LogicalNode), RUNTIME,
                     ExecutionUnit(member, RESOURCES), ExecutionEndpoint(member, LOCATOR))
  }

  lemma SmallNumbers(v: nat)
    requires v < 0x100
    ensures U32Bytes(v) == [0, 0, 0, v]
    ensures U64Bytes(v) == [0, 0, 0, 0, 0, 0, 0, v]
  {
    BigEndian.EncodeZero(3);
    BigEndian.EncodeZero(7);
  }

  lemma TimesByte(a: nat, b: nat)
    ensures a * (b * 0x100) == (a * b) * 0x100
  {
  }

  lemma {:induction false} ShiftedBytes(width: nat, value: nat, zeros: nat)
    ensures BigEndian.Encode(width + zeros, value * BigEndian.Limit(zeros))
            == BigEndian.Encode(width, value) + seq(zeros, _ => 0)
  {
    if zeros > 0 {
      ShiftedBytes(width, value, zeros - 1);
      var shifted := value * BigEndian.Limit(zeros - 1);
      TimesByte(value, BigEndian.Limit(zeros - 1));
      BigEndian.EncodeTimes(width + zeros - 1, shifted);
      assert seq(zeros, _ => 0) == seq(zeros - 1, _ => 0) + [0];
    }
  }

  lemma OneCoreBytes()
    ensures U64Bytes(0x3FF0_0000_0000_0000) == [0x3F, 0xF0, 0, 0, 0, 0, 0, 0]
  {
    assert BigEndian.Encode(2, 0x3FF0) == [0x3F, 0xF0];
    assert BigEndian.Limit(6) == 0x1_0000_0000_0000 by {
      assert BigEndian.Limit(2) == 0x1_0000 && BigEndian.Limit(4) == 0x1_0000_0000;
    }
    ShiftedBytes(2, 0x3FF0, 6);
  }

  /** What a kind of identity is written as, after the text. */
  lemma IdentityInBytes(id: Text)
    requires |id| == 36
    ensures IdentityBytes(Identity(id, Kind.Participant)) == [0, 0, 0, 36] + id + [0]
    ensures IdentityBytes(Identity(id, Kind.LogicalNode)) == [0, 0, 0, 36] + id + [1]
    ensures IdentityBytes(Identity(id, Kind.Lease)) == [0, 0, 0, 36] + id + [2]
    ensures IdentityBytes(Identity(id, Kind.VirtualMachine)) == [0, 0, 0, 36] + id + [3]
  {
    SmallNumbers(36);
  }

  function StatusCode(status: ExecutionStatus): byte {
    match status
    case Pending => 0
    case Dispatched => 1
    case Running => 2
    case Completed => 3
    case Failed => 4
    case Cancelled => 5
  }

  /** Every response to a request of this name. */
  lemma ResponsesInBytes(status: ExecutionStatus)
    ensures ResponseBytes(ExecutionResponse(NAME, status, None))
            == ([1] + [0, 0, 0, 1, 0x61]) + [StatusCode(status)] + [0]
    ensures ResponseBytes(ExecutionResponse(NAME, status, Some([0x62])))
            == ([1] + [0, 0, 0, 1, 0x61]) + [StatusCode(status)] + ([1] + [0, 0, 0, 1, 0x62])
  {
    TextsInBytes();
    assert StatusByte(status) == StatusCode(status);
  }

  lemma ResourcesInBytes()
    ensures ResourcesBytes(RESOURCES)
            == [0x3F, 0xF0, 0, 0, 0, 0, 0, 0] + [0, 0, 0, 0, 0, 0, 0, 2] + [0, 0, 0, 0, 0, 0, 0, 3]
               + [0, 0, 0, 0, 0, 0, 0, 4] + [0, 0, 0, 5] + ([1] + ([0, 0, 0, 0, 0, 0, 0, 6] + [0, 0, 0, 7]))
  {
    OneCoreBytes();
    SmallNumbers(2);
    SmallNumbers(3);
    SmallNumbers(4);
    SmallNumbers(5);
    SmallNumbers(6);
    SmallNumbers(7);
  }

  lemma TextsInBytes()
    ensures BlockBytes(NAME) == [0, 0, 0, 1, 0x61] && BlockBytes([0x62]) == [0, 0, 0, 1, 0x62]
    ensures WorkloadBytes(WORK) == [0, 0, 0, 1, 0x62] + [0, 0, 0, 2, 0x63, 0x64]
    ensures RuntimeBytes(RUNTIME) == [0, 0, 0, 1, 0x72] + [0, 0, 0, 1, 0x31]
    ensures BlockBytes(LOCATOR) == [0, 0, 0, 1, 0x65]
  {
    SmallNumbers(1);
    SmallNumbers(2);
  }

  /** A whole request, in the order its parts are sent. */
  lemma RequestInBytes(id: Text)
    requires |id| == 36
    ensures var member := [0, 0, 0, 36] + id + [0];
            var node := [0, 0, 0, 36] + id + [1];
            var envelope := ([1] + [0, 0, 0, 1, 0x61]) + ([1] + member)
                            + ([0, 0, 0, 1, 0x62] + [0, 0, 0, 2, 0x63, 0x64]);
            var target := node + ([0, 0, 0, 1, 0x72] + [0, 0, 0, 1, 0x31]);
            RequestBytes(RequestOf(id))
            == envelope + target + member + ResourcesBytes(RESOURCES) + (member + [0, 0, 0, 1, 0x65])
  {
    IdentityInBytes(id);
    TextsInBytes();
  }

  lemma TextIsSound(s: Text)
    requires |s| == 1 && s[0] <= 0x7F
    ensures SoundText(s)
  {
    AsciiIsUtf8(s);
  }

  lemma RequestIsValid(id: Text)
    requires Canonical(id)
    ensures Representable(RequestOf(id)) && IdentitiesValid(RequestOf(id)) && Acceptable(RequestOf(id))
  {
    TextIsSound(NAME);
    TextIsSound(WORK.id);
    TextIsSound(RUNTIME.name);
    TextIsSound(RUNTIME.version);
    TextIsSound(LOCATOR);
  }

  /** That request, with its source, is accepted; so is a second payload for it. */
  lemma RequestHasTwoPayloads() returns (other: seq<byte>)
    ensures var r := RequestOf(Samples.SAMPLE_ID);
            DecodeRequest(RequestBytes(r)) == Ok(r) && DecodeRequest(other) == Ok(r) && other != RequestBytes(r)
  {
    RequestIsValid(Samples.SAMPLE_ID);
    RequestPayloadRoundTrip(RequestOf(Samples.SAMPLE_ID));
    other := LongRequestsHaveTwoPayloads(RequestOf(Samples.SAMPLE_ID));
  }

  /** A frame: eight bytes of length and the payload. */
  lemma FrameInBytes()
    ensures FrameOf([0x61]) == Ok([0, 0, 0, 0, 0, 0, 0, 1, 0x61])
  {
    SmallNumbers(1);
    assert U64Bytes(1) + [0x61] == [0, 0, 0, 0, 0, 0, 0, 1, 0x61];
  }
}
