/**
 Strings are their UTF-8 bytes, so one type serves identifiers, which are compared byte by
 byte, and the wire format, which copies them.
 */
module Strings {
  import opened Prelude

  type Text = seq<byte>

  /** The order in which sorted collections keep their keys: bytewise lexicographic. */
  predicate AtMost(a: Text, b: Text) {
    a == [] || (b != [] && (a[0] < b[0] || (a[0] == b[0] && AtMost(a[1..], b[1..]))))
  }

  lemma {:induction false} AtMostTotal(a: Text, b: Text)
    ensures AtMost(a, b) || AtMost(b, a)
  {
    if a != [] && b != [] {
      AtMostTotal(a[1..], b[1..]);
    }
  }

  lemma {:induction false} AtMostAntisymmetric(a: Text, b: Text)
    requires AtMost(a, b) && AtMost(b, a)
    ensures a == b
  {
    if a != [] && b != [] {
      AtMostAntisymmetric(a[1..], b[1..]);
      assert a == [a[0]] + a[1..] && b == [b[0]] + b[1..];
    }
  }

  lemma {:induction false} AtMostTransitive(a: Text, b: Text, c: Text)
    requires AtMost(a, b) && AtMost(b, c)
    ensures AtMost(a, c)
  {
    if a != [] && b != [] && c != [] && a[0] == b[0] == c[0] {
      AtMostTransitive(a[1..], b[1..], c[1..]);
    }
  }

  /** Either a starts b, or it has the smaller byte where they first differ. */
  lemma {:induction false} AtMostIff(a: Text, b: Text)
    ensures AtMost(a, b) <==>
              a <= b || exists i :: 0 <= i < |a| && i < |b| && a[..i] == b[..i] && a[i] < b[i]
  {
    if a != [] && b != [] {
      AtMostIff(a[1..], b[1..]);
      if a[0] == b[0] {
        assert a <= b <==> a[1..] <= b[1..];
        forall i | 0 <= i < |a| - 1 && i < |b| - 1
          ensures a[1..][..i] == b[1..][..i] <==> a[..i + 1] == b[..i + 1]
        {
          assert a[..i + 1] == [a[0]] + a[1..][..i] && b[..i + 1] == [b[0]] + b[1..][..i];
        }
        var later := exists i :: 0 <= i < |a| && i < |b| && a[..i] == b[..i] && a[i] < b[i];
        if later {
          var i :| 0 <= i < |a| && i < |b| && a[..i] == b[..i] && a[i] < b[i];
          assert a[1..][..i - 1] == b[1..][..i - 1] && a[1..][i - 1] < b[1..][i - 1];
        }
        if AtMost(a, b) && !(a <= b) {
          var i :| 0 <= i < |a| - 1 && i < |b| - 1 && a[1..][..i] == b[1..][..i] && a[1..][i] < b[1..][i];
          assert a[..i + 1] == b[..i + 1] && a[i + 1] < b[i + 1];
        }
      } else {
        assert a[..0] == b[..0];
        forall i | 0 < i < |a| && i < |b| ensures a[..i] != b[..i] {
          assert a[..i][0] != b[..i][0];
        }
      }
    }
  }

  predicate Continuation(b: byte) {
    0x80 <= b <= 0xBF
  }

  /** The length of the well-formed character s starts with (RFC 3629, section 4), or 0. */
  function LeadingCharacter(s: seq<byte>): (n: nat)
    ensures n <= |s| && n <= 4
  {
    if |s| >= 1 && s[0] <= 0x7F then 1
    else if |s| >= 2 && 0xC2 <= s[0] <= 0xDF && Continuation(s[1]) then 2
    else if |s| >= 3 && Continuation(s[1]) && Continuation(s[2])
            && (0xE1 <= s[0] <= 0xEC || 0xEE <= s[0] <= 0xEF
                || (s[0] == 0xE0 && 0xA0 <= s[1]) || (s[0] == 0xED && s[1] <= 0x9F)) then 3
    else if |s| >= 4 && Continuation(s[1]) && Continuation(s[2]) && Continuation(s[3])
            && (0xF1 <= s[0] <= 0xF3
                || (s[0] == 0xF0 && 0x90 <= s[1]) || (s[0] == 0xF4 && s[1] <= 0x8F)) then 4
    else 0
  }

  /** What the language guarantees of every string value. */
  predicate Utf8(s: seq<byte>) {
    s == [] || (LeadingCharacter(s) != 0 && Utf8(s[LeadingCharacter(s)..]))
  }

  lemma {:induction false} AsciiIsUtf8(s: seq<byte>)
    requires forall i :: 0 <= i < |s| ==> s[i] <= 0x7F
    ensures Utf8(s)
  {
    if s != [] {
      AsciiIsUtf8(s[1..]);
    }
  }

  lemma {:induction false} Utf8Concatenates(a: seq<byte>, b: seq<byte>)
    requires Utf8(a) && Utf8(b)
    ensures Utf8(a + b)
  {
    if a == [] {
      assert a + b == b;
    } else {
      var n := LeadingCharacter(a);
      LeadOfMore(a, b);
      Utf8Concatenates(a[n..], b);
      SkipInto(a, b, n);
      assert a + b != [];
    }
  }

  lemma SkipInto(a: seq<byte>, b: seq<byte>, n: nat)
    requires n <= |a|
    ensures (a + b)[n..] == a[n..] + b
  {
  }

  lemma LeadOfMore(a: seq<byte>, b: seq<byte>)
    requires LeadingCharacter(a) != 0
    ensures LeadingCharacter(a + b) == LeadingCharacter(a)
  {
  }
}
