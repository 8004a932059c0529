/** Well-formed text is exactly what encoding Unicode scalar values gives (RFC 3629, section 3). */
module Unicode {
  import opened Prelude
  import opened Strings

  predicate Scalar(p: nat) {
    p <= 0x10FFFF && !(0xD800 <= p <= 0xDFFF)
  }

  /** One scalar value in as few bytes as hold it. */
  function Character(p: nat): (s: seq<byte>)
    requires Scalar(p)
    ensures 1 <= |s| <= 4
  {
    if p <= 0x7F then [p]
    else if p <= 0x7FF then [0xC0 + p / 0x40, 0x80 + p % 0x40]
    else if p <= 0xFFFF then [0xE0 + p / 0x40 / 0x40, 0x80 + p / 0x40 % 0x40, 0x80 + p % 0x40]
    else [0xF0 + p / 0x40 / 0x40 / 0x40, 0x80 + p / 0x40 / 0x40 % 0x40, 0x80 + p / 0x40 % 0x40, 0x80 + p % 0x40]
  }

  ghost predicate Scalars(points: seq<nat>) {
    forall p <- points :: Scalar(p)
  }

  function Characters(points: seq<nat>): seq<byte>
    requires Scalars(points)
  {
    if points == [] then [] else Character(points[0]) + Characters(points[1..])
  }

  lemma CharacterLeads(p: nat, rest: seq<byte>)
    requires Scalar(p)
    ensures LeadingCharacter(Character(p) + rest) == |Character(p)|
  {
    var s := Character(p) + rest;
    assert forall i :: 0 <= i < |Character(p)| ==> s[i] == Character(p)[i];
  }

  // A byte without its marker bits.
  function Bits(b: byte, marker: byte): nat
    requires marker <= b
  {
    b - marker
  }

  function Extended(high: nat, next: byte): nat
    requires Continuation(next)
  {
    high * 0x40 + Bits(next, 0x80)
  }

  /** The scalar value of the character that a text starts with. */
  function Point(s: seq<byte>): (p: nat)
    requires LeadingCharacter(s) != 0
  {
    match LeadingCharacter(s)
    case 1 => s[0]
    case 2 => Extended(Bits(s[0], 0xC0), s[1])
    case 3 => Extended(Extended(Bits(s[0], 0xE0), s[1]), s[2])
    case _ => Extended(Extended(Extended(Bits(s[0], 0xF0), s[1]), s[2]), s[3])
  }

  lemma ExtendedDigits(high: nat, next: byte)
    requires Continuation(next)
    ensures Extended(high, next) / 0x40 == high && 0x80 + Extended(high, next) % 0x40 == next
  {
  }

  lemma ThreeInRange(a: byte, b: byte, c: byte)
    requires LeadingCharacter([a, b, c]) == 3
    ensures 0x800 <= Extended(Extended(Bits(a, 0xE0), b), c) <= 0xFFFF
    ensures Scalar(Extended(Extended(Bits(a, 0xE0), b), c))
  {
  }

  lemma ThreeDigits(high: nat, b: byte, c: byte)
    requires Continuation(b) && Continuation(c)
    ensures var p := Extended(Extended(high, b), c);
            p / 0x40 / 0x40 == high && 0x80 + p / 0x40 % 0x40 == b && 0x80 + p % 0x40 == c
  {
    ExtendedDigits(Extended(high, b), c);
    ExtendedDigits(high, b);
  }

  lemma ThreeBytes(a: byte, b: byte, c: byte)
    requires LeadingCharacter([a, b, c]) == 3
    ensures var p := Extended(Extended(Bits(a, 0xE0), b), c);
            Scalar(p) && Character(p) == [a, b, c]
  {
    ThreeInRange(a, b, c);
    ThreeDigits(Bits(a, 0xE0), b, c);
  }

  lemma FourInRange(a: byte, b: byte, c: byte, d: byte)
    requires LeadingCharacter([a, b, c, d]) == 4
    ensures 0x1_0000 <= Extended(Extended(Extended(Bits(a, 0xF0), b), c), d) <= 0x10_FFFF
  {
  }

  lemma FourBytes(a: byte, b: byte, c: byte, d: byte)
    requires LeadingCharacter([a, b, c, d]) == 4
    ensures var p := Extended(Extended(Extended(Bits(a, 0xF0), b), c), d);
            Scalar(p) && Character(p) == [a, b, c, d]
  {
    FourInRange(a, b, c, d);
    ExtendedDigits(Extended(Extended(Bits(a, 0xF0), b), c), d);
    ThreeDigits(Bits(a, 0xF0), b, c);
  }

  lemma LeadIsCharacter(s: seq<byte>)
    requires LeadingCharacter(s) != 0
    ensures Scalar(Point(s)) && Character(Point(s)) == s[..LeadingCharacter(s)]
  {
    match LeadingCharacter(s)
    case 1 =>
    case 2 => ExtendedDigits(Bits(s[0], 0xC0), s[1]);
    case 3 => ThreeBytes(s[0], s[1], s[2]);
    case _ => FourBytes(s[0], s[1], s[2], s[3]);
  }

  lemma {:induction false} CharactersAreUtf8(points: seq<nat>)
    requires Scalars(points)
    ensures Utf8(Characters(points))
  {
    if points != [] {
      var first, rest := Character(points[0]), Characters(points[1..]);
      CharactersAreUtf8(points[1..]);
      CharacterLeads(points[0], rest);
      assert (first + rest)[|first|..] == rest;
    }
  }

  lemma {:induction false} PointsOf(s: seq<byte>) returns (points: seq<nat>)
    requires Utf8(s)
    ensures Scalars(points) && Characters(points) == s
  {
    if s == [] {
      points := [];
    } else {
      var n := LeadingCharacter(s);
      LeadIsCharacter(s);
      var rest := PointsOf(s[n..]);
      points := [Point(s)] + rest;
      assert points[1..] == rest && s == s[..n] + s[n..];
    }
  }

  /** A byte string is text exactly when it encodes some sequence of scalar values. */
  lemma Utf8Iff(s: seq<byte>)
    ensures Utf8(s) <==> exists points: seq<nat> :: Scalars(points) && Characters(points) == s
  {
    if Utf8(s) {
      var points := PointsOf(s);
    }
    forall points: seq<nat> | Scalars(points) && Characters(points) == s ensures Utf8(s) {
      CharactersAreUtf8(points);
    }
  }
}
