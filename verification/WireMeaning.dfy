/** The amounts that the fields on the wire stand for. */
module WireMeaning {
  import opened Prelude
  import opened Resource
  import opened Wire

  function PowerOfTwo(n: int): (r: real)
    ensures r > 0.0
    decreases if n < 0 then -n else n
  {
    if n == 0 then 1.0
    else if n > 0 then 2.0 * PowerOfTwo(n - 1)
    else PowerOfTwo(n + 1) / 2.0
  }

  /** The number a finite pattern represents: sign, significand and exponent. */
  function Cores(bits: u64): real
    requires Finite(bits)
  {
    var exponent := Magnitude(bits) / EXPONENT_UNIT;
    var fraction := Magnitude(bits) % EXPONENT_UNIT;
    var size := if exponent == 0 then fraction as real * PowerOfTwo(-1074)
                else (EXPONENT_UNIT + fraction) as real * PowerOfTwo(exponent - 1075);
    if bits >= SIGN then -size else size
  }

  lemma ProductSign(a: real, b: real)
    requires a >= 0.0 && b > 0.0
    ensures a * b >= 0.0 && (a * b == 0.0 <==> a == 0.0)
  {
    if a > 0.0 {
      assert a * b > 0.0;
    }
  }

  /** The tests on bit patterns are the tests on the numbers they represent. */
  lemma CoresCompareAsBits(bits: u64)
    requires Finite(bits)
    ensures Cores(bits) < 0.0 <==> BelowZero(bits)
    ensures Cores(bits) == 0.0 <==> Magnitude(bits) == 0
  {
    var exponent := Magnitude(bits) / EXPONENT_UNIT;
    var fraction := Magnitude(bits) % EXPONENT_UNIT;
    ProductSign(fraction as real, PowerOfTwo(-1074));
    ProductSign((EXPONENT_UNIT + fraction) as real, PowerOfTwo(exponent - 1075));
  }

  function Span(secs: u64, nanos: u32): Duration {
    secs * NANOS_PER_SECOND + nanos
  }

  function Meaning(r: WireResources): ResourceFragment
    requires Finite(r.cpuBits)
  {
    ResourceFragment(Cores(r.cpuBits), r.memory, r.storage, r.network, r.gpu,
                     if r.lifetime.None? then None
                     else Some(Span(r.lifetime.value.secs, r.lifetime.value.nanos)))
  }

  /** A request's resources are accepted on the wire exactly when what they mean is a valid requirement. */
  lemma WireValidationAgrees(r: WireResources)
    ensures ValidWireRequirement(r) <==> Finite(r.cpuBits) && ValidRequirement(Meaning(r))
  {
    if Finite(r.cpuBits) {
      CoresCompareAsBits(r.cpuBits);
    }
  }

  /** The carry that reading performs leaves the length of the lifetime alone. */
  lemma CarryKeepsSpan(raw: RawResources, r: WireResources)
    requires Checked(raw) == Ok(r) && raw.lifetime.Some?
    ensures Finite(r.cpuBits) && Meaning(r).lifetime == Some(Span(raw.lifetime.value.0, raw.lifetime.value.1))
  {
  }

  /** Infinities and NaNs are the patterns whose eleven exponent bits are all ones. */
  lemma FiniteIff(bits: u64)
    ensures Finite(bits) <==> bits / 0x10_0000_0000_0000 % 0x800 != 0x7FF
  {
    if bits >= SIGN {
      assert bits / EXPONENT_UNIT == (bits - SIGN) / EXPONENT_UNIT + 0x800;
    }
  }

  lemma {:induction false} PowersAdd(m: nat, n: nat)
    ensures PowerOfTwo(m + n) == PowerOfTwo(m) * PowerOfTwo(n)
  {
    if m > 0 {
      PowersAdd(m - 1, n);
    }
  }

  lemma {:induction false} PowersCancel(n: nat, m: int)
    requires m + n == 0
    ensures PowerOfTwo(n) * PowerOfTwo(m) == 1.0
  {
    if n > 0 {
      PowersCancel(n - 1, m + 1);
      assert PowerOfTwo(m) == PowerOfTwo(m + 1) / 2.0;
      assert (2.0 * PowerOfTwo(n - 1)) * (PowerOfTwo(m + 1) / 2.0) == PowerOfTwo(n - 1) * PowerOfTwo(m + 1);
    }
  }

  lemma SmallPower()
    ensures PowerOfTwo(13) == 8192.0
  {
    assert PowerOfTwo(3) == 8.0;
    PowersAdd(3, 3);
    PowersAdd(6, 6);
    PowersAdd(12, 1);
    assert PowerOfTwo(1) == 2.0;
  }

  lemma FiftyTwo()
    ensures PowerOfTwo(52) == EXPONENT_UNIT as real
  {
    SmallPower();
    PowersAdd(13, 13);
    PowersAdd(26, 26);
  }

  lemma CoresOfUnit(bits: u64)
    requires Magnitude(bits) == 1023 * EXPONENT_UNIT
    ensures Finite(bits) && Cores(bits) == if bits >= SIGN then -1.0 else 1.0
  {
    assert Magnitude(bits) / EXPONENT_UNIT == 1023 && Magnitude(bits) % EXPONENT_UNIT == 0;
    FiftyTwo();
    PowersCancel(52, -52);
  }

  /** The patterns of one and of minus one. */
  lemma CoresOfOne()
    ensures Cores(0x3FF0_0000_0000_0000) == 1.0
    ensures Cores(0xBFF0_0000_0000_0000) == -1.0
  {
    CoresOfUnit(0x3FF0_0000_0000_0000);
    CoresOfUnit(0xBFF0_0000_0000_0000);
  }
}
