/** Typed identifiers (src/identity.rs): a canonical version-4 UUID and what it names. */
module Identities {
  import opened Prelude
  import opened Strings

  datatype Kind = Participant | LogicalNode | Lease | VirtualMachine

  datatype Identity = Identity(id: Text, kind: Kind) {
    predicate Valid() {
      Canonical(id)
    }

    // The check most operations make before they trust an identity.
    predicate Names(expected: Kind) {
      kind == expected && Valid()
    }
  }

  predicate LowerHexDigit(b: byte) {
    0x30 <= b <= 0x39 || 0x61 <= b <= 0x66
  }

  /**
   The text form the parser accepts: 36 characters, lower-case hexadecimal, hyphens after
   the 8th, 12th, 16th and 20th digit (RFC 9562, section 4), version nibble 4 (section 5.4).
   */
  predicate Canonical(id: Text) {
    && |id| == 36
    && (forall i :: 0 <= i < 36 ==>
          if i in {8, 13, 18, 23} then id[i] == 0x2D else LowerHexDigit(id[i]))
    && id[14] == 0x34
  }

  function Parse(id: Text, kind: Kind): (r: Option<Identity>)
    ensures r.Some? <==> Canonical(id)
    ensures r.Some? ==> r.value.id == id && r.value.Names(kind)
  {
    if Canonical(id) then Some(Identity(id, kind)) else None
  }

  lemma CanonicalIsUtf8(id: Text)
    requires Canonical(id)
    ensures Utf8(id)
  {
    AsciiIsUtf8(id);
  }

  // The 32 hexadecimal digits of a 128-bit value, written with hyphens

  type Nibble = n: nat | n < 16

  function HexDigit(n: Nibble): byte {
    if n < 10 then 0x30 + n else 0x61 + (n - 10)
  }

  function Digits(s: seq<Nibble>): seq<byte> {
    seq(|s|, i requires 0 <= i < |s| => HexDigit(s[i]))
  }

  predicate Version4(digits: seq<Nibble>) {
    |digits| == 32 && digits[12] == 4
  }

  /** Groups of 8, 4, 4, 4 and 12 digits (RFC 9562, section 4). */
  function Hyphenated(digits: seq<Nibble>): Text
    requires |digits| == 32
  {
    Digits(digits[..8]) + [0x2D] + Digits(digits[8..12]) + [0x2D] + Digits(digits[12..16]) + [0x2D]
    + Digits(digits[16..20]) + [0x2D] + Digits(digits[20..])
  }

  function Value(b: byte): Nibble
    requires LowerHexDigit(b)
  {
    if b <= 0x39 then b - 0x30 else b - 0x61 + 10
  }

  /** Where digit i stands in the text. */
  function Place(i: nat): nat {
    if i < 8 then i else if i < 12 then i + 1 else if i < 16 then i + 2 else if i < 20 then i + 3 else i + 4
  }

  lemma PlaceOf(k: nat) returns (i: nat)
    requires k < 36 && k !in {8, 13, 18, 23}
    ensures i < 32 && Place(i) == k
  {
    i := if k < 8 then k else if k < 13 then k - 1 else if k < 18 then k - 2 else if k < 23 then k - 3 else k - 4;
  }

  lemma HyphenatedPlaces(digits: seq<Nibble>)
    requires |digits| == 32
    ensures |Hyphenated(digits)| == 36
    ensures forall i :: 0 <= i < 32 ==> Hyphenated(digits)[Place(i)] == HexDigit(digits[i])
    ensures forall k <- {8, 13, 18, 23} :: Hyphenated(digits)[k] == 0x2D
  {
  }

  /** An identifier is canonical exactly when it is some version-4 value, written out in lower case. */
  lemma CanonicalIff(id: Text)
    ensures Canonical(id) <==> exists digits: seq<Nibble> :: Version4(digits) && id == Hyphenated(digits)
  {
    if Canonical(id) {
      var digits: seq<Nibble> := seq(32, i requires 0 <= i < 32 => Value(id[Place(i)]));
      HyphenatedPlaces(digits);
      forall k | 0 <= k < 36 ensures Hyphenated(digits)[k] == id[k] {
        if k !in {8, 13, 18, 23} {
          var i := PlaceOf(k);
        }
      }
      assert Version4(digits) && id == Hyphenated(digits);
    }
    forall digits: seq<Nibble> | Version4(digits) && id == Hyphenated(digits) ensures Canonical(id) {
      HyphenatedPlaces(digits);
      forall k | 0 <= k < 36 && k !in {8, 13, 18, 23} ensures LowerHexDigit(id[k]) {
        var i := PlaceOf(k);
      }
      assert Place(12) == 14;
    }
  }
}
