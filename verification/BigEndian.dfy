/** Fixed-width integers in network byte order. */
module BigEndian {
  import opened Prelude

  function Encode(width: nat, value: nat): (s: seq<byte>)
    ensures |s| == width
  {
    if width == 0 then [] else Encode(width - 1, value / 0x100) + [value % 0x100]
  }

  function Decode(s: seq<byte>): nat {
    if s == [] then 0 else Decode(s[..|s| - 1]) * 0x100 + s[|s| - 1]
  }

  function Limit(width: nat): nat {
    if width == 0 then 1 else Limit(width - 1) * 0x100
  }

  lemma Limits()
    ensures Limit(4) == U32_MAX + 1 && Limit(8) == U64_MAX + 1
  {
    assert Limit(2) == 0x1_0000 && Limit(4) == 0x1_0000_0000 && Limit(6) == 0x1_0000_0000_0000;
  }

  lemma {:induction false} DecodeIsBounded(s: seq<byte>)
    ensures Decode(s) < Limit(|s|)
  {
    if s != [] {
      DecodeIsBounded(s[..|s| - 1]);
    }
  }

  lemma {:induction false} DecodeEncode(width: nat, value: nat)
    requires value < Limit(width)
    ensures Decode(Encode(width, value)) == value
  {
    if width > 0 {
      DecodeEncode(width - 1, value / 0x100);
      var s := Encode(width, value);
      assert s[..width - 1] == Encode(width - 1, value / 0x100);
    }
  }

  lemma {:induction false} EncodeDecode(s: seq<byte>)
    ensures Encode(|s|, Decode(s)) == s
  {
    if s != [] {
      EncodeDecode(s[..|s| - 1]);
      assert s == s[..|s| - 1] + [s[|s| - 1]];
    }
  }

  /** The first byte is the most significant one. */
  lemma {:induction false} FirstByteWeighsMost(s: seq<byte>)
    requires s != []
    ensures Decode(s) == s[0] * Limit(|s| - 1) + Decode(s[1..])
  {
    if |s| > 1 {
      var last := |s| - 1;
      FirstByteWeighsMost(s[..last]);
      assert s[..last][1..] == s[1..][..last - 1];
      assert s[0] * (Limit(last - 1) * 0x100) == (s[0] * Limit(last - 1)) * 0x100;
    }
  }

  lemma {:induction false} EncodeZero(width: nat)
    ensures Encode(width, 0) == seq(width, _ => 0)
  {
    if width > 0 {
      EncodeZero(width - 1);
    }
  }

  lemma EncodeTimes(width: nat, value: nat)
    ensures Encode(width + 1, value * 0x100) == Encode(width, value) + [0]
  {
  }
}
