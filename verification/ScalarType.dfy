/**
 Scalar types described by bit widths (spexis/scalar_type.py): the largest
 finite value of a small float type, built as the bits of a double, and the
 packing of a type into one integer.

 Values are compared exactly, as integer multiples of the smallest positive
 double. The proofs hold for any wide format in the place of the double; the
 source's constants 52, 11 and 63 enter through `DOUBLE` only.
 */
module ScalarType {
  import opened Options

  // ----------------------------------------------------------------- powers of two

  function Pow2(n: nat): (p: nat)
    ensures p >= 1
  {
    if n == 0 then 1 else 2 * Pow2(n - 1)
  }

  lemma {:induction false} Pow2Add(a: nat, b: nat)
    ensures Pow2(a + b) == Pow2(a) * Pow2(b)
  {
    if a > 0 {
      Pow2Add(a - 1, b);
      assert Pow2(a + b) == 2 * Pow2(a - 1 + b);
    }
  }

  lemma {:induction false} Pow2Monotone(a: nat, b: nat)
    requires a <= b
    ensures Pow2(a) <= Pow2(b)
    ensures a < b ==> Pow2(a) < Pow2(b)
    decreases b
  {
    if a < b {
      Pow2Monotone(a, b - 1);
    }
  }

  /** Python's `|` on non-negative integers. */
  function Or(a: nat, b: nat): nat
    decreases a + b
  {
    if a == 0 && b == 0 then 0
    else (if a % 2 == 1 || b % 2 == 1 then 1 else 0) + 2 * Or(a / 2, b / 2)
  }

  lemma Doubled(b: nat, k: nat)
    requires k > 0
    ensures b * Pow2(k) == 2 * (b * Pow2(k - 1))
  {
  }

  lemma OrStep(a: nat, c: nat)
    ensures Or(a, 2 * c) == a % 2 + 2 * Or(a / 2, c)
  {
  }

  /** `a | (b << k)` is a sum when `a` fits in k bits. */
  lemma {:induction false} OrDisjoint(a: nat, b: nat, k: nat)
    requires a < Pow2(k)
    ensures Or(a, b * Pow2(k)) == a + b * Pow2(k)
    decreases k
  {
    if k == 0 {
      OrZero(b);
    } else {
      Doubled(b, k);
      OrDisjoint(a / 2, b, k - 1);
      OrStep(a, b * Pow2(k - 1));
    }
  }

  lemma {:induction false} OrZero(b: nat)
    ensures Or(0, b) == b
  {
    if b > 0 {
      OrZero(b / 2);
    }
  }

  /** An interchange format: sign bit, exponent field, mantissa field. */
  datatype Layout = Layout(mantissa: nat, exponent: nat)

  const DOUBLE := Layout(52, 11)

  function Bias(exponent: nat): nat
    requires exponent >= 1
  {
    Pow2(exponent - 1) - 1
  }

  // ---------------------------------------------------------------------- the type

  datatype NanRepr = NoNans | Ieee754 | ExtdRangeMaxMin {
    function Value(): nat { if NoNans? then 0 else if Ieee754? then 1 else 2 }
  }

  datatype ScalarType = ScalarType(
    exponent: nat,
    mantissa: nat,
    signed: bool,
    bias: int,
    finiteValuesOnly: bool,
    nanRepr: NanRepr
  ) {
    function SizeBits(): nat { exponent + mantissa + (if signed then 1 else 0) }

    function MaxMantissa(): nat
      requires nanRepr.ExtdRangeMaxMin? ==> mantissa >= 1
    {
      Pow2(mantissa) - 1 - (if nanRepr.ExtdRangeMaxMin? then 1 else 0)
    }

    function MaxExponent(): nat
      requires exponent >= 1
    {
      Pow2(exponent) - 2 + (if nanRepr.Ieee754? then 0 else 1)
    }

    /** _floating_point_max_int for a wide format; None where an assertion fails. */
    function MaxInt(wide: Layout): Option<nat>
      requires exponent >= 1 && wide.exponent >= 1
      requires nanRepr.ExtdRangeMaxMin? ==> mantissa >= 1
    {
      if mantissa > wide.mantissa || exponent > wide.exponent || (!nanRepr.Ieee754? && exponent >= wide.exponent) then None
      else
        var exponentWide := MaxExponent() - Bias(exponent) + Bias(wide.exponent);
        Some(Or(MaxMantissa() * Pow2(wide.mantissa - mantissa), exponentWide * Pow2(wide.mantissa)))
    }

    /** The raw bits of _raw_max as a double. */
    function FloatingPointMaxInt(): Option<nat>
      requires exponent >= 1
      requires nanRepr.ExtdRangeMaxMin? ==> mantissa >= 1
    {
      MaxInt(DOUBLE)
    }

    /** The raw bits of _raw_min: the sign bit added; fails for unsigned floats. */
    function MinInt(wide: Layout): Option<nat>
      requires exponent >= 1 && wide.exponent >= 1
      requires nanRepr.ExtdRangeMaxMin? ==> mantissa >= 1
    {
      if !signed then None
      else match MaxInt(wide)
           case None => None
           case Some(raw) => Some(Or(raw, Pow2(wide.mantissa + wide.exponent)))
    }

    /** min() and max() of an integer type, the stored bias taken off. */
    function IntMax(): Option<int> {
      if SizeBits() < 64 || (SizeBits() == 64 && signed) then Some(Pow2(mantissa) - 1 - bias) else None
    }

    function IntMin(): Option<int>
      requires SizeBits() >= 1
    {
      if signed && SizeBits() > 64 then None
      else Some((if signed then 0 - Pow2(SizeBits() - 1) else 0) - bias)
    }
  }

  // -------------------------------------------------- what encodings stand for

  /** The types the float constructors build and the wide format can represent:
      every type that is not IEEE 754 is without infinities. */
  predicate Representable(t: ScalarType, wide: Layout) {
    && t.exponent >= 1 && 1 <= t.mantissa <= wide.mantissa && t.signed && wide.exponent >= 2
    && (t.finiteValuesOnly <==> !t.nanRepr.Ieee754?)
    && (if t.nanRepr.Ieee754? then t.exponent <= wide.exponent else t.exponent < wide.exponent)
  }

  /** The encodings of finite values under the type's rule for NaNs. */
  predicate FiniteEncoding(t: ScalarType, exp: nat, man: nat) {
    && exp < Pow2(t.exponent) && man < Pow2(t.mantissa)
    && match t.nanRepr
       case Ieee754 => exp != Pow2(t.exponent) - 1
       case ExtdRangeMaxMin => !(exp == Pow2(t.exponent) - 1 && man == Pow2(t.mantissa) - 1)
       case NoNans => true
  }

  /** Magnitude of an encoding with m mantissa bits, in units of its smallest
      positive value: subnormal for exponent 0, with a leading one otherwise. */
  function Magnitude(m: nat, exp: nat, man: nat): nat {
    if exp == 0 then man else (Pow2(m) + man) * Pow2(exp - 1)
  }

  /** How many bits the smallest positive value of the wide format lies below
      the one of `t`. */
  function Shift(t: ScalarType, wide: Layout): nat
    requires Representable(t, wide)
  {
    Pow2Monotone(t.exponent - 1, wide.exponent - 1);
    Bias(wide.exponent) + wide.mantissa - Bias(t.exponent) - t.mantissa
  }

  /** The value of an encoding of `t`, in units of the wide format. */
  function Units(t: ScalarType, wide: Layout, exp: nat, man: nat): nat
    requires Representable(t, wide)
  {
    Magnitude(t.mantissa, exp, man) * Pow2(Shift(t, wide))
  }

  function ExponentField(raw: nat, wide: Layout): nat { raw / Pow2(wide.mantissa) % Pow2(wide.exponent) }

  function MantissaField(raw: nat, wide: Layout): nat { raw % Pow2(wide.mantissa) }

  function SignField(raw: nat, wide: Layout): int { raw / Pow2(wide.mantissa + wide.exponent) }

  /** The value of raw bits (section 3.4 of IEEE 754-2019), in units of the
      smallest positive value; for exponent fields that are not all ones. */
  function RawUnits(raw: nat, wide: Layout): int {
    var magnitude: int := Magnitude(wide.mantissa, ExponentField(raw, wide), MantissaField(raw, wide));
    if SignField(raw, wide) == 1 then -magnitude else magnitude
  }

  /** Raw bits of a finite number. */
  predicate FiniteRaw(raw: nat, wide: Layout) {
    SignField(raw, wide) <= 1 && ExponentField(raw, wide) != Pow2(wide.exponent) - 1
  }

  // ------------------------------------------------------------------ arithmetic

  lemma MulMonotone(a: nat, b: nat, c: nat, d: nat)
    requires a <= c && b <= d
    ensures a * b <= c * d
  {
    assert a * b <= a * d by {
      assert a * d - a * b == a * (d - b);
    }
    assert a * d <= c * d by {
      assert c * d - a * d == (c - a) * d;
    }
  }

  lemma MulStrict(a: nat, c: nat, b: nat)
    requires a < c && b > 0
    ensures a * b < c * b
  {
    assert c * b - a * b == (c - a) * b;
  }

  lemma DivUnique(x: nat, p: nat, q: nat, r: nat)
    requires 0 < p && x == q * p + r && r < p
    ensures x / p == q && x % p == r
  {
    var q', r' := x / p, x % p;
    assert x == q' * p + r';
    if q < q' {
      MulMonotone(q + 1, p, q', p);
    } else if q' < q {
      MulMonotone(q' + 1, p, q, p);
    }
  }

  /** Encodings are ordered like the pair of their fields. */
  lemma MagnitudeOrder(m: nat, exp: nat, man: nat, exp': nat, man': nat)
    requires man < Pow2(m) && man' < Pow2(m)
    requires exp < exp' || (exp == exp' && man <= man')
    ensures Magnitude(m, exp, man) <= Magnitude(m, exp', man')
  {
    if exp == exp' {
      if exp > 0 {
        MulMonotone(Pow2(m) + man, Pow2(exp - 1), Pow2(m) + man', Pow2(exp - 1));
      }
    } else {
      MagnitudeBelow(m, exp, man);
      Pow2Monotone(exp, exp' - 1);
      MulMonotone(Pow2(m), Pow2(exp), Pow2(m) + man', Pow2(exp' - 1));
    }
  }

  lemma DoubleOneFactor(a: nat, b: nat)
    ensures (2 * a) * b == a * (2 * b)
  {
  }

  lemma MagnitudeBelow(m: nat, exp: nat, man: nat)
    requires man < Pow2(m)
    ensures Magnitude(m, exp, man) <= Pow2(m) * Pow2(exp)
  {
    if exp > 0 {
      DoubleBound(Pow2(m), man, Pow2(exp - 1), Pow2(exp));
    } else {
      TimesOne(Pow2(m), Pow2(exp));
    }
  }

  lemma DoubleBound(p: nat, man: nat, q: nat, twice: nat)
    requires man < p && twice == 2 * q
    ensures (p + man) * q <= p * twice
  {
    MulMonotone(p + man, q, 2 * p, q);
    DoubleOneFactor(p, q);
  }

  lemma TimesOne(p: nat, one: nat)
    requires one == 1
    ensures p * one == p
  {
  }

  // ------------------------------------------------------------ the largest value

  function ExponentWide(t: ScalarType, wide: Layout): int
    requires t.exponent >= 1 && wide.exponent >= 1
  {
    t.MaxExponent() - Bias(t.exponent) + Bias(wide.exponent)
  }

  lemma ExponentWideInRange(t: ScalarType, wide: Layout)
    requires Representable(t, wide)
    ensures 1 <= ExponentWide(t, wide) <= Pow2(wide.exponent) - 2
  {
    Pow2Monotone(1, wide.exponent - 1);
    if t.nanRepr.Ieee754? {
      Pow2Monotone(t.exponent - 1, wide.exponent - 1);
    } else {
      Pow2Monotone(t.exponent - 1, wide.exponent - 2);
    }
  }

  lemma MantissaWideInRange(t: ScalarType, wide: Layout)
    requires Representable(t, wide)
    ensures t.MaxMantissa() * Pow2(wide.mantissa - t.mantissa) < Pow2(wide.mantissa)
    ensures Pow2(wide.mantissa) == Pow2(t.mantissa) * Pow2(wide.mantissa - t.mantissa)
  {
    Pow2Add(t.mantissa, wide.mantissa - t.mantissa);
    MulStrict(t.MaxMantissa(), Pow2(t.mantissa), Pow2(wide.mantissa - t.mantissa));
  }

  /** The bits are two fields side by side, below the sign bit. */
  lemma MaxIntFields(t: ScalarType, wide: Layout)
    requires Representable(t, wide)
    ensures t.MaxInt(wide).Some?
    ensures var raw := t.MaxInt(wide).value;
            && raw < Pow2(wide.mantissa + wide.exponent)
            && MantissaField(raw, wide) == t.MaxMantissa() * Pow2(wide.mantissa - t.mantissa)
            && ExponentField(raw, wide) == ExponentWide(t, wide)
            && SignField(raw, wide) == 0
  {
    ExponentWideInRange(t, wide);
    MantissaWideInRange(t, wide);
    FieldsSideBySide(t.MaxMantissa() * Pow2(wide.mantissa - t.mantissa), ExponentWide(t, wide), wide);
  }

  lemma FieldsSideBySide(man: nat, exp: nat, wide: Layout)
    requires man < Pow2(wide.mantissa) && exp < Pow2(wide.exponent)
    ensures var raw := Or(man, exp * Pow2(wide.mantissa));
            && raw < Pow2(wide.mantissa + wide.exponent)
            && MantissaField(raw, wide) == man && ExponentField(raw, wide) == exp && SignField(raw, wide) == 0
  {
    OrDisjoint(man, exp, wide.mantissa);
    TwoFields(man, exp, Pow2(wide.mantissa), Pow2(wide.exponent));
    Pow2Add(wide.exponent, wide.mantissa);
  }

  lemma TwoFields(lo: nat, hi: nat, p: nat, q: nat)
    requires lo < p && hi < q
    ensures var x := lo + hi * p;
            x < q * p && x / p == hi && x % p == lo && hi % q == hi && x / (q * p) == 0
  {
    var x := lo + hi * p;
    DivUnique(x, p, hi, lo);
    MulMonotone(hi + 1, p, q, p);
    assert (hi + 1) * p == hi * p + p;
    DivUnique(x, q * p, 0, x);
  }

  /** The wide number with these fields is the value of the type's largest
      fields, read as a normal number. */
  lemma MaxIntValue(t: ScalarType, wide: Layout)
    requires Representable(t, wide)
    ensures t.MaxInt(wide).Some?
    ensures RawUnits(t.MaxInt(wide).value, wide)
         == (Pow2(t.mantissa) + t.MaxMantissa()) * Pow2(ExponentWide(t, wide) - 1 + wide.mantissa - t.mantissa)
  {
    ExponentWideInRange(t, wide);
    MaxIntFields(t, wide);
    MantissaWideInRange(t, wide);
    var d := wide.mantissa - t.mantissa;
    var b := ExponentWide(t, wide) - 1;
    Pow2Add(d, b);
    Regroup(Pow2(t.mantissa), t.MaxMantissa(), Pow2(d), Pow2(b));
  }

  lemma Regroup(p: nat, m: nat, d: nat, b: nat)
    ensures (p * d + m * d) * b == (p + m) * (d * b)
  {
    assert p * d + m * d == (p + m) * d;
  }

  lemma UnitsOfMax(t: ScalarType, wide: Layout)
    requires Representable(t, wide) && t.MaxExponent() >= 1
    ensures Units(t, wide, t.MaxExponent(), t.MaxMantissa())
         == (Pow2(t.mantissa) + t.MaxMantissa()) * Pow2(ExponentWide(t, wide) - 1 + wide.mantissa - t.mantissa)
  {
    var e, s := t.MaxExponent() - 1, Shift(t, wide);
    Pow2Add(e, s);
    assert e + s == ExponentWide(t, wide) - 1 + wide.mantissa - t.mantissa;
    Associate(Pow2(t.mantissa) + t.MaxMantissa(), Pow2(e), Pow2(s));
  }

  lemma Associate(a: nat, b: nat, c: nat)
    ensures a * b * c == a * (b * c)
  {
  }

  /** No finite encoding exceeds the one with the largest fields. */
  lemma LargestFields(t: ScalarType, wide: Layout, exp: nat, man: nat)
    requires Representable(t, wide) && FiniteEncoding(t, exp, man)
    ensures Units(t, wide, exp, man) <= Units(t, wide, t.MaxExponent(), t.MaxMantissa())
  {
    MagnitudeOrder(t.mantissa, exp, man, t.MaxExponent(), t.MaxMantissa());
    MulMonotone(Magnitude(t.mantissa, exp, man), Pow2(Shift(t, wide)),
                Magnitude(t.mantissa, t.MaxExponent(), t.MaxMantissa()), Pow2(Shift(t, wide)));
  }

  /** The raw bits built for a float type are a finite number below the sign
      bit, at least as large as every finite value of the type; and they are
      themselves a value of the type exactly when it is not an IEEE 754 type
      with a single exponent bit (which has subnormal numbers only). */
  lemma MaxIsTheLargestFiniteValue(t: ScalarType, wide: Layout)
    requires Representable(t, wide)
    ensures t.MaxInt(wide).Some?
    ensures var raw := t.MaxInt(wide).value;
            && FiniteRaw(raw, wide) && SignField(raw, wide) == 0
            && (forall exp, man | FiniteEncoding(t, exp, man) :: Units(t, wide, exp, man) <= RawUnits(raw, wide))
            && ((exists exp, man :: FiniteEncoding(t, exp, man) && Units(t, wide, exp, man) == RawUnits(raw, wide))
                <==> !(t.nanRepr.Ieee754? && t.exponent == 1))
  {
    MaxIntFields(t, wide);
    MaxIntValue(t, wide);
    ExponentWideInRange(t, wide);
    var raw := t.MaxInt(wide).value;
    if t.MaxExponent() >= 1 {
      UnitsOfMax(t, wide);
      Pow2Monotone(1, t.mantissa);
      assert FiniteEncoding(t, t.MaxExponent(), t.MaxMantissa());
      forall exp, man | FiniteEncoding(t, exp, man) ensures Units(t, wide, exp, man) <= RawUnits(raw, wide) {
        LargestFields(t, wide, exp, man);
      }
      if t.nanRepr.Ieee754? { assert t.exponent != 1; }
    } else {
      OneExponentBit(t, wide);
    }
  }

  /** For IEEE 754 types with one exponent bit every finite value is smaller. */
  lemma OneExponentBit(t: ScalarType, wide: Layout)
    requires Representable(t, wide) && t.MaxExponent() == 0
    ensures t.nanRepr.Ieee754? && t.exponent == 1
    ensures t.MaxInt(wide).Some?
    ensures forall exp, man | FiniteEncoding(t, exp, man) :: Units(t, wide, exp, man) < RawUnits(t.MaxInt(wide).value, wide)
  {
    assert t.nanRepr.Ieee754? && t.exponent == 1 by {
      if t.exponent >= 2 {
        Pow2Monotone(2, t.exponent);
      }
    }
    MaxIntValue(t, wide);
    forall exp, man | FiniteEncoding(t, exp, man) ensures Units(t, wide, exp, man) < RawUnits(t.MaxInt(wide).value, wide) {
      SubnormalBelowMax(t, wide, exp, man);
    }
  }

  lemma SubnormalBelowMax(t: ScalarType, wide: Layout, exp: nat, man: nat)
    requires Representable(t, wide) && t.nanRepr.Ieee754? && t.exponent == 1 && FiniteEncoding(t, exp, man)
    ensures Units(t, wide, exp, man)
          < (Pow2(t.mantissa) + t.MaxMantissa()) * Pow2(ExponentWide(t, wide) - 1 + wide.mantissa - t.mantissa)
  {
    Pow2Monotone(1, wide.exponent - 1);
    var s := Shift(t, wide);
    assert ExponentWide(t, wide) - 1 + wide.mantissa - t.mantissa == s - 1;
    assert exp == 0;
    TwiceBelow(man, Pow2(t.mantissa), Pow2(s - 1));
  }

  lemma TwiceBelow(man: nat, p: nat, q: nat)
    requires man < p && q > 0
    ensures man * (2 * q) < (p + (p - 1)) * q
  {
    DoubleOneFactor(man, q);
    MulStrict(2 * man, p + (p - 1), q);
  }

  /** The raw minimum is the maximum with the sign bit: exactly its negation. */
  lemma MinIsTheNegation(t: ScalarType, wide: Layout)
    requires Representable(t, wide)
    ensures t.MinInt(wide).Some? && t.MaxInt(wide).Some?
    ensures FiniteRaw(t.MinInt(wide).value, wide)
    ensures RawUnits(t.MinInt(wide).value, wide) == -RawUnits(t.MaxInt(wide).value, wide)
  {
    MaxIntFields(t, wide);
    ExponentWideInRange(t, wide);
    var raw := t.MaxInt(wide).value;
    OrDisjoint(raw, 1, wide.mantissa + wide.exponent);
    Pow2Add(wide.exponent, wide.mantissa);
    SignBitAbove(raw, Pow2(wide.mantissa), Pow2(wide.exponent));
  }

  lemma Distribute(a: int, b: int, c: int)
    ensures (a + b) * c == a * c + b * c
  {
  }

  /** Adding a multiple of the divisor adds to the quotient only. */
  lemma DivShift(a: nat, c: nat, p: nat)
    requires p > 0
    ensures (a + c * p) / p == a / p + c && (a + c * p) % p == a % p
  {
    Distribute(a / p, c, p);
    DivUnique(a + c * p, p, a / p + c, a % p);
  }

  lemma SignBitAbove(raw: nat, p: nat, q: nat)
    requires p > 0 && q > 0 && raw < q * p
    ensures var x := raw + q * p;
            x % p == raw % p && x / p % q == raw / p % q && x / (q * p) == 1
  {
    DivShift(raw, q, p);
    DivShift(raw / p, 1, q);
    DivUnique(raw + q * p, q * p, 1, raw);
  }

  /** The double of the source is an instance: the largest finite value and its
      negation, for every float type the assertions let through. */
  lemma DoubleMaxAndMin(t: ScalarType)
    requires Representable(t, DOUBLE)
    ensures t.FloatingPointMaxInt() == t.MaxInt(DOUBLE) && t.FloatingPointMaxInt().Some?
    ensures RawUnits(t.MinInt(DOUBLE).value, DOUBLE) == -RawUnits(t.FloatingPointMaxInt().value, DOUBLE)
    ensures forall exp, man | FiniteEncoding(t, exp, man) ::
              Units(t, DOUBLE, exp, man) <= RawUnits(t.FloatingPointMaxInt().value, DOUBLE)
  {
    MaxIsTheLargestFiniteValue(t, DOUBLE);
    MinIsTheNegation(t, DOUBLE);
  }

  /** The stored values of an integer type, in two's complement when signed. */
  predicate StoredInteger(t: ScalarType, stored: int) {
    if t.signed then -(Pow2(t.mantissa) as int) <= stored < Pow2(t.mantissa) else 0 <= stored < Pow2(t.mantissa)
  }

  /** min() and max() bound exactly the values stored - bias, and are attained. */
  lemma IntegerRange(t: ScalarType, value: int)
    requires t.exponent == 0 && t.SizeBits() >= 1 && t.IntMin().Some? && t.IntMax().Some?
    ensures t.IntMin().value <= value <= t.IntMax().value <==> StoredInteger(t, value + t.bias)
  {
  }

  // ------------------------------------------------------------------ the packed id

  /** The members in the order of the id, and their widths. */
  function Members(t: ScalarType): seq<int> {
    [t.exponent, t.mantissa, if t.signed then 1 else 0, t.bias, if t.finiteValuesOnly then 1 else 0, t.nanRepr.Value()]
  }

  const WIDTHS: seq<nat> := [8, 8, 1, 32, 1, 8]

  function Total(widths: seq<nat>): nat {
    if widths == [] then 0 else Total(widths[..|widths| - 1]) + widths[|widths| - 1]
  }

  /** Python's `member & ((1 << width) - 1)`: for a negative member the low bits
      of its two's complement, which is the remainder modulo 2^width. */
  function Masked(member: int, width: nat): nat {
    member % Pow2(width)
  }

  function Pack(members: seq<int>, widths: seq<nat>): nat
    requires |members| == |widths|
  {
    if widths == [] then 0
    else
      var n := |widths| - 1;
      Or(Pack(members[..n], widths[..n]), Masked(members[n], widths[n]) * Pow2(Total(widths[..n])))
  }

  /** The k-th field of an id. */
  function Field(id: nat, widths: seq<nat>, k: nat): nat
    requires k < |widths|
  {
    id / Pow2(Total(widths[..k])) % Pow2(widths[k])
  }

  class IdBuilder {
    var val: nat
    var offset: nat

    constructor ()
      ensures val == 0 && offset == 0
    {
      val, offset := 0, 0;
    }

    /** The closure or_and_advance, for the k-th member. */
    method OrAndAdvance(member: int, width: nat, ghost members: seq<int>, ghost widths: seq<nat>, ghost k: nat)
      requires |members| == |widths| && k < |members| && member == members[k] && width == widths[k]
      requires val == Pack(members[..k], widths[..k]) && offset == Total(widths[..k])
      modifies this
      ensures val == Pack(members[..k + 1], widths[..k + 1])
      ensures offset == Total(widths[..k + 1])
    {
      assert members[..k + 1][..k] == members[..k] && widths[..k + 1][..k] == widths[..k];
      val := Or(val, Masked(member, width) * Pow2(offset));
      offset := offset + width;
    }
  }

  /** The property id. */
  method Id(t: ScalarType) returns (val: nat)
    ensures val == Pack(Members(t), WIDTHS) && val < Pow2(58)
  {
    val := PackMembers(t, Members(t), WIDTHS);
    PackBelow(Members(t), WIDTHS);
    TotalWidths();
  }

  /** Its calls of or_and_advance, in the order of the fields. */
  method PackMembers(t: ScalarType, ghost m: seq<int>, ghost w: seq<nat>) returns (val: nat)
    requires |m| == |w| == 6 && w[0] == 8 && w[1] == 8 && w[2] == 1 && w[3] == 32 && w[4] == 1 && w[5] == 8
    requires m[0] == t.exponent && m[1] == t.mantissa && m[2] == (if t.signed then 1 else 0) && m[3] == t.bias
    requires m[4] == (if t.finiteValuesOnly then 1 else 0) && m[5] == t.nanRepr.Value()
    ensures val == Pack(m, w)
  {
    var b := new IdBuilder();
    assert m[..0] == [] && w[..0] == [];
    b.OrAndAdvance(t.exponent, 8, m, w, 0);
    b.OrAndAdvance(t.mantissa, 8, m, w, 1);
    b.OrAndAdvance(if t.signed then 1 else 0, 1, m, w, 2);
    b.OrAndAdvance(t.bias, 32, m, w, 3);
    b.OrAndAdvance(if t.finiteValuesOnly then 1 else 0, 1, m, w, 4);
    b.OrAndAdvance(t.nanRepr.Value(), 8, m, w, 5);
    assert m[..6] == m && w[..6] == w;
    return b.val;
  }

  lemma Rearrange(b: nat, p: nat, w: nat, r: nat)
    ensures b * (p * w * r) == (b * r * w) * p
  {
    var c := p * w;
    assert b * (c * r) == (b * r) * c;
    Associate(b * r, w, p);
    assert w * p == c;
  }

  lemma AddHigh(a: nat, b: nat, p: nat, w: nat, r: nat)
    requires p > 0 && w > 0
    ensures (a + b * (p * w * r)) / p % w == a / p % w
  {
    Rearrange(b, p, w, r);
    DivShift(a, b * r * w, p);
    DivShift(a / p, b * r, w);
  }

  lemma {:induction false} PackBelow(members: seq<int>, widths: seq<nat>)
    requires |members| == |widths|
    ensures Pack(members, widths) < Pow2(Total(widths))
    decreases |widths|
  {
    if widths != [] {
      var n := |widths| - 1;
      PackBelow(members[..n], widths[..n]);
      var off := Total(widths[..n]);
      OrDisjoint(Pack(members[..n], widths[..n]), Masked(members[n], widths[n]), off);
      Pow2Add(widths[n], off);
      TwoFields(Pack(members[..n], widths[..n]), Masked(members[n], widths[n]), Pow2(off), Pow2(widths[n]));
    }
  }

  lemma {:induction false} TotalSplit(widths: seq<nat>, k: nat)
    requires k < |widths|
    ensures Total(widths) >= Total(widths[..k]) + widths[k]
    decreases |widths|
  {
    var n := |widths| - 1;
    if k < n {
      TotalSplit(widths[..n], k);
      assert widths[..n][..k] == widths[..k];
    }
  }

  /** Every field can be read back from the id, however many fields there are. */
  lemma {:induction false} PackField(members: seq<int>, widths: seq<nat>, k: nat)
    requires |members| == |widths| && k < |widths|
    ensures Field(Pack(members, widths), widths, k) == Masked(members[k], widths[k])
    decreases |widths|
  {
    var n := |widths| - 1;
    var low, off := Pack(members[..n], widths[..n]), Total(widths[..n]);
    PackBelow(members[..n], widths[..n]);
    OrDisjoint(low, Masked(members[n], widths[n]), off);
    if k == n {
      TwoFields(low, Masked(members[n], widths[n]), Pow2(off), Pow2(widths[n]));
    } else {
      PackField(members[..n], widths[..n], k);
      assert widths[..n][..k] == widths[..k];
      TotalSplit(widths[..n], k);
      var p := Total(widths[..k]);
      Pow2Add(p, widths[k]);
      Pow2Add(p + widths[k], off - p - widths[k]);
      AddHigh(low, Masked(members[n], widths[n]), Pow2(p), Pow2(widths[k]), Pow2(off - p - widths[k]));
    }
  }

  /** Field widths hold the members; the bias is a signed 32-bit number. */
  predicate InRange(t: ScalarType) {
    && t.exponent < Pow2(WIDTHS[0]) && t.mantissa < Pow2(WIDTHS[1])
    && -(Pow2(WIDTHS[3] - 1) as int) <= t.bias < Pow2(WIDTHS[3] - 1)
  }

  lemma SignedMask(a: int, b: int, w: nat)
    requires w >= 1 && Masked(a, w) == Masked(b, w)
    requires -(Pow2(w - 1) as int) <= a < Pow2(w - 1) && -(Pow2(w - 1) as int) <= b < Pow2(w - 1)
    ensures a == b
  {
    CongruentAndClose(a, b, Pow2(w));
  }

  lemma CongruentAndClose(a: int, b: int, p: nat)
    requires p > 0 && a % p == b % p && -(p as int) < a - b < p
    ensures a == b
  {
    var d := a / p - b / p;
    Distribute(d, b / p, p);
    assert d * p == a - b;
    if d >= 1 {
      MulMonotone(1, p, d, p);
    } else if d <= -1 {
      MulMonotone(1, p, -d, p);
      Distribute(d, -d, p);
    }
  }

  /** Types in range have ids below 2^58 that tell them apart. */
  lemma IdIsInjective(t: ScalarType, t': ScalarType)
    requires InRange(t) && InRange(t')
    ensures Pack(Members(t), WIDTHS) < Pow2(Total(WIDTHS)) && Total(WIDTHS) == 58
    ensures Pack(Members(t), WIDTHS) == Pack(Members(t'), WIDTHS) ==> t == t'
  {
    PackBelow(Members(t), WIDTHS);
    TotalWidths();
    if Pack(Members(t), WIDTHS) == Pack(Members(t'), WIDTHS) {
      forall k | 0 <= k < |WIDTHS| ensures Masked(Members(t)[k], WIDTHS[k]) == Masked(Members(t')[k], WIDTHS[k]) {
        PackField(Members(t), WIDTHS, k);
        PackField(Members(t'), WIDTHS, k);
      }
      SameMembers(t, t');
    }
  }

  lemma TotalSnoc(widths: seq<nat>, w: nat)
    ensures Total(widths + [w]) == Total(widths) + w
  {
    assert (widths + [w])[..|widths|] == widths;
  }

  lemma TotalWidths()
    ensures Total(WIDTHS) == 58
  {
    TotalSnoc([], 8);
    TotalSnoc([] + [8], 8);
    TotalSnoc([] + [8] + [8], 1);
    TotalSnoc([] + [8] + [8] + [1], 32);
    TotalSnoc([] + [8] + [8] + [1] + [32], 1);
    TotalSnoc([] + [8] + [8] + [1] + [32] + [1], 8);
    assert WIDTHS == [] + [8] + [8] + [1] + [32] + [1] + [8];
  }

  lemma FieldOffsets()
    ensures Total(WIDTHS[..0]) == 0 && Total(WIDTHS[..1]) == 8 && Total(WIDTHS[..2]) == 16
    ensures Total(WIDTHS[..3]) == 17 && Total(WIDTHS[..4]) == 49 && Total(WIDTHS[..5]) == 50
  {
    assert WIDTHS[..0] == [];
    TotalUpTo(0, 8);
    TotalUpTo(1, 8);
    TotalUpTo(2, 1);
    TotalUpTo(3, 32);
    TotalUpTo(4, 1);
  }

  lemma TotalUpTo(k: nat, w: nat)
    requires k < |WIDTHS| && WIDTHS[k] == w
    ensures Total(WIDTHS[..k + 1]) == Total(WIDTHS[..k]) + w
  {
    assert WIDTHS[..k + 1] == WIDTHS[..k] + [w];
    TotalSnoc(WIDTHS[..k], w);
  }

  /** The layout of an id: where each member is, and how wide. */
  lemma IdLayout(t: ScalarType)
    ensures var id := Pack(Members(t), WIDTHS);
      && id / Pow2(0) % Pow2(8) == t.exponent % Pow2(8)
      && id / Pow2(8) % Pow2(8) == t.mantissa % Pow2(8)
      && id / Pow2(16) % Pow2(1) == (if t.signed then 1 else 0) % Pow2(1)
      && id / Pow2(17) % Pow2(32) == t.bias % Pow2(32)
      && id / Pow2(49) % Pow2(1) == (if t.finiteValuesOnly then 1 else 0) % Pow2(1)
      && id / Pow2(50) % Pow2(8) == t.nanRepr.Value() % Pow2(8)
  {
    FieldOffsets();
    PackField(Members(t), WIDTHS, 0);
    PackField(Members(t), WIDTHS, 1);
    PackField(Members(t), WIDTHS, 2);
    PackField(Members(t), WIDTHS, 3);
    PackField(Members(t), WIDTHS, 4);
    PackField(Members(t), WIDTHS, 5);
  }

  lemma SmallMasks(a: nat, b: nat, w: nat)
    requires a < Pow2(w) && b < Pow2(w) && Masked(a, w) == Masked(b, w)
    ensures a == b
  {
    DivUnique(a, Pow2(w), 0, a);
    DivUnique(b, Pow2(w), 0, b);
  }

  lemma SameMembers(t: ScalarType, t': ScalarType)
    requires InRange(t) && InRange(t')
    requires forall k | 0 <= k < |WIDTHS| :: Masked(Members(t)[k], WIDTHS[k]) == Masked(Members(t')[k], WIDTHS[k])
    ensures t == t'
  {
    var m, m' := Members(t), Members(t');
    forall k | 0 <= k < |WIDTHS| && k != 3 ensures m[k] == m'[k] {
      SameMember(t, t', k);
    }
    SignedMask(m[3], m'[3], WIDTHS[3]);
    assert m[0] == m'[0] && m[1] == m'[1] && m[2] == m'[2] && m[4] == m'[4] && m[5] == m'[5];
  }

  lemma SameMember(t: ScalarType, t': ScalarType, k: nat)
    requires InRange(t) && InRange(t') && k < |WIDTHS| && k != 3
    requires Masked(Members(t)[k], WIDTHS[k]) == Masked(Members(t')[k], WIDTHS[k])
    ensures Members(t)[k] == Members(t')[k]
  {
    Pow2Monotone(1, WIDTHS[2]);
    Pow2Monotone(1, WIDTHS[4]);
    Pow2Monotone(2, WIDTHS[5]);
    SmallMasks(Members(t)[k], Members(t')[k], WIDTHS[k]);
  }
}
