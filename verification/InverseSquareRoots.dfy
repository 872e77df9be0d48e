/** The inverse square root in fixed-point arithmetic: the input is normalised by powers of
    four, and Newton's iteration is run five times. */
module InverseSquareRoots {
  import opened Arithmetic

  const INT32_MAX: nat := 0x7FFF_FFFF
  const UINT32_DIGITS: nat := 32

  function Pow2(n: nat): (r: nat)
    ensures r > 0
  {
    if n == 0 then 1 else 2 * Pow2(n - 1)
  }

  function Pow4(n: nat): (r: nat)
    ensures r > 0
  {
    if n == 0 then 1 else 4 * Pow4(n - 1)
  }

  lemma {:induction false} Pow2Adds(a: nat, b: nat)
    ensures Pow2(a + b) == Pow2(a) * Pow2(b)
  {
    if a > 0 { Pow2Adds(a - 1, b); }
  }

  lemma {:induction false} Pow4IsPow2(n: nat)
    ensures Pow4(n) == Pow2(2 * n)
  {
    if n > 0 { Pow4IsPow2(n - 1); }
  }

  lemma Bounds()
    ensures Pow2(27) == 0x800_0000 && Pow2(29) == 0x2000_0000 && Pow2(31) == 0x8000_0000 && Pow2(32) == 0x1_0000_0000
  {
    assert Pow2(8) == 256;
    Pow2Adds(8, 8);
    Pow2Adds(16, 8);
    Pow2Adds(24, 3);
    Pow2Adds(24, 5);
    Pow2Adds(24, 7);
    Pow2Adds(24, 8);
  }

  lemma {:induction false} Pow2Less(a: nat, b: nat)
    requires Pow2(a) < Pow2(b)
    ensures a < b
  {
    if a > 0 && b > 0 { Pow2Less(a - 1, b - 1); }
  }

  lemma Doubled(x: nat, n: nat)
    ensures Pow2(n + 1) == 2 * Pow2(n) && x * Pow2(n + 1) == 2 * (x * Pow2(n))
  {
  }

  /** The number of leading zeros of a 32-bit number. */
  method CountLeadingZeros(input: nat) returns (zeros: nat)
    requires input < Pow2(32)
    ensures if input == 0 then zeros == UINT32_DIGITS else zeros < 32 && Pow2(31) <= input * Pow2(zeros) < Pow2(32)
  {
    if input == 0 { return UINT32_DIGITS; }
    var shifted := input;
    zeros := 0;
    assert Pow2(0) == 1;
    hide Pow2;
    while shifted < Pow2(31)
      invariant shifted == input * Pow2(zeros) && Pow2(zeros) <= shifted < Pow2(32) && zeros <= 31
      decreases 32 - zeros
    {
      Pow2Less(zeros, 31);
      Doubled(input, zeros);
      Doubled(1, 31);
      shifted := shifted * 2;
      zeros := zeros + 1;
    }
  }

  // ----- normalisation -----

  /** The outcome of normalisation: the input has been divided by a power of four, rounding
      down, or multiplied by one, and the shift tells which. */
  ghost predicate Normalised(input: nat, value: nat, shift: int) {
    && Pow2(27) <= value < Pow2(29)
    && if shift >= 11 then value == input / Pow4(shift - 11) else value == input * Pow4(11 - shift)
  }

  lemma QuarterAgain(input: nat, k: nat)
    ensures input / Pow4(k) / 4 == input / Pow4(k + 1)
  {
    DividedTwice(input, Pow4(k), 4);
  }

  lemma Divided(n: nat, d: nat)
    requires d > 0
    ensures n == (n / d) * d + n % d && n % d < d
  {
  }

  lemma FromParts(n: nat, d: nat, e: nat, q: nat, r: nat, q': nat, r': nat)
    requires r < d && r' < e && n == q * d + r && q == q' * e + r'
    ensures n == q' * (e * d) + (r' * d + r) && r' * d + r < e * d
  {
    Nested(q', e, r', d, r);
    Monotone(r' + 1, e, d);
    Successor(r', d);
  }

  lemma DividedTwice(n: nat, d: nat, e: nat)
    requires d > 0 && e > 0
    ensures e * d > 0 && n / d / e == n / (e * d)
  {
    var q := n / d;
    Divided(n, d);
    Divided(q, e);
    FromParts(n, d, e, q, n % d, q / e, q % e);
    QuotientIs(n, q / e, e * d, (q % e) * d + n % d);
  }

  lemma Nested(q: nat, e: nat, r: nat, d: nat, s: nat)
    ensures (q * e + r) * d + s == q * (e * d) + (r * d + s)
  {
  }

  lemma QuotientIs(n: nat, q: nat, d: nat, r: nat)
    requires n == q * d + r && r < d
    ensures n / d == q
  {
    var q', r' := n / d, n % d;
    assert n == q' * d + r';
    if q' < q {
      Gap(q', q, d);
    } else if q < q' {
      Gap(q, q', d);
    }
  }

  lemma Gap(a: nat, b: nat, d: nat)
    requires a < b
    ensures a * d + d <= b * d
  {
    Monotone(a + 1, b, d);
  }

  /** Shifting left by an even number that leaves three or four leading zeros. */
  lemma ShiftedIntoRange(input: nat, zeros: nat)
    requires 0 < input < Pow2(29) && zeros < 32 && Pow2(31) <= input * Pow2(zeros) < Pow2(32)
    ensures zeros >= 3
    ensures var pairs := (zeros - 1) / 2 - 1; pairs >= 0 && Pow2(27) <= input * Pow4(pairs) < Pow2(29)
  {
    hide Pow2, Pow4;
    EnoughZeros(input, zeros);
    var pairs: nat := (zeros - 1) / 2 - 1;
    var rest: nat := zeros - 2 * pairs;
    assert rest == 3 || rest == 4;
    assert zeros == 2 * pairs + rest;
    ShiftedBy(input, pairs, rest);
  }

  lemma ShiftedBy(input: nat, pairs: nat, rest: nat)
    requires (rest == 3 || rest == 4) && Pow2(31) <= input * Pow2(2 * pairs + rest) < Pow2(32)
    ensures Pow2(27) <= input * Pow4(pairs) < Pow2(29)
  {
    hide Pow2, Pow4;
    Pow4IsPow2(pairs);
    Pow2Adds(2 * pairs, rest);
    Associative(input, Pow2(2 * pairs), Pow2(rest));
    InRange(input * Pow2(2 * pairs), rest);
  }

  lemma InRange(value: nat, rest: nat)
    requires (rest == 3 || rest == 4) && Pow2(31) <= value * Pow2(rest) < Pow2(32)
    ensures Pow2(27) <= value < Pow2(29)
  {
    assert Pow2(3) == 8 && Pow2(4) == 16;
    Bounds();
  }

  lemma EnoughZeros(input: nat, zeros: nat)
    requires 0 < input < Pow2(29) && Pow2(31) <= input * Pow2(zeros)
    ensures zeros >= 3
  {
    Bounds();
    assert Pow2(0) == 1 && Pow2(1) == 2 && Pow2(2) == 4;
  }

  /** Normalisation ends with a value in range for every input above one, and tells by
      which power of four it has scaled. */
  method Normalise(input0: nat) returns (input: nat, shift: int)
    requires 1 < input0 <= INT32_MAX
    ensures Normalised(input0, input, shift)
  {
    Bounds();
    shift := 11;
    input := input0;
    assert Pow4(0) == 1;
    while input >= Pow2(29)
      invariant shift >= 11 && input == input0 / Pow4(shift - 11)
      invariant 0 < input <= INT32_MAX && (shift > 11 ==> input >= Pow2(27))
      decreases input
    {
      QuarterAgain(input0, shift - 11);
      input := input / 4;
      shift := shift + 1;
    }
    var zeros := CountLeadingZeros(input);
    ShiftedIntoRange(input, zeros);
    var pairs := (zeros - 1) / 2 - 1;
    if shift > 11 { NoShiftLeft(input, pairs); }
    shift := shift - pairs;
    input := input * Pow4(pairs);
  }

  lemma NoShiftLeft(input: nat, pairs: nat)
    requires Pow2(27) <= input && input * Pow4(pairs) < Pow2(29)
    ensures pairs == 0
  {
    Bounds();
    Monotone(1, Pow4(if pairs > 0 then pairs - 1 else 0), 4);
    Monotone(if pairs > 0 then 4 else 1, Pow4(pairs), input);
  }

  // ----- Newton's iteration, in exact arithmetic -----

  /** One step towards the inverse square root of a. */
  function Improved(a: real, x: real): real {
    1.5 * x - 0.5 * a * x * x * x
  }

  // How far x is from the inverse square root of a.
  function Defect(a: real, x: real): real {
    1.0 - a * x * x
  }

  /** The defect of the next value is a polynomial of the defect. */
  lemma DefectImproves(a: real, x: real)
    ensures Improved(a, x) == x * (1.0 + Defect(a, x) / 2.0)
    ensures Defect(a, Improved(a, x)) == 0.75 * Defect(a, x) * Defect(a, x) + 0.25 * Defect(a, x) * Defect(a, x) * Defect(a, x)
  {
    var e := Defect(a, x);
    var f := 1.0 + e / 2.0;
    var y := Improved(a, x);
    assert y == x * f by {
      assert a * x * x == 1.0 - e;
      assert 0.5 * a * x * x * x == 0.5 * (1.0 - e) * x;
    }
    assert a * y * y == (a * x * x) * (f * f) by { Squares(a, x, f, y); }
    assert f * f == 1.0 + e + e * e / 4.0;
    Expanded(e);
  }

  lemma Squares(a: real, x: real, f: real, y: real)
    requires y == x * f
    ensures a * y * y == (a * x * x) * (f * f)
  {
    assert y * y == (x * x) * (f * f) by { assert x * f * (x * f) == x * x * (f * f); }
    assert a * y * y == a * (y * y);
    assert a * ((x * x) * (f * f)) == (a * (x * x)) * (f * f);
    assert a * (x * x) == a * x * x;
  }

  lemma Expanded(e: real)
    ensures 1.0 - (1.0 - e) * (1.0 + e + e * e / 4.0) == 0.75 * e * e + 0.25 * e * e * e
  {
  }

  /** With a defect from 0 up to a bound, the next value is not smaller and its defect is
      between 0 and the polynomial of the bound. */
  lemma Step(a: real, x: real, bound: real)
    requires x > 0.0 && 0.0 <= Defect(a, x) <= bound
    ensures Improved(a, x) >= x
    ensures 0.0 <= Defect(a, Improved(a, x)) <= 0.75 * bound * bound + 0.25 * bound * bound * bound
  {
    var e := Defect(a, x);
    DefectImproves(a, x);
    assert x * (1.0 + e / 2.0) >= x by { assert x * (e / 2.0) >= 0.0; }
    hide Defect, Improved;
    assert e * e <= bound * bound by { Products(e, bound, e, bound); }
    assert e * e * e <= bound * bound * bound by { Products(e * e, bound * bound, e, bound); }
  }

  lemma Products(a: real, b: real, c: real, d: real)
    requires 0.0 <= a <= b && 0.0 <= c <= d
    ensures 0.0 <= a * c <= b * d
  {
    assert a * c <= b * c && b * c <= b * d;
  }

  /** Five steps from 1 for an a between a quarter and one: the value never decreases, stays
      below the inverse square root, and comes close to it. */
  method FiveSteps(a: real) returns (x: real, ghost xs: seq<real>)
    requires 0.25 <= a < 1.0
    ensures x >= 1.0 && 0.0 <= Defect(a, x) < 1.0 / 262144.0
    ensures |xs| == 6 && xs[0] == 1.0 && xs[5] == x
    ensures forall i :: 0 <= i < 5 ==> xs[i + 1] == Improved(a, xs[i]) >= xs[i] && 0.0 <= Defect(a, xs[i])
  {
    x, xs := 1.0, [1.0];
    ghost var bounds := [0.75, 0.5274, 0.2453, 0.0489, 0.0018228, 0.000003];
    for i := 0 to 5
      invariant x >= 1.0 && 0.0 <= Defect(a, x) <= bounds[i]
      invariant |xs| == i + 1 && xs[0] == 1.0 && xs[i] == x
      invariant forall j :: 0 <= j < i ==> xs[j + 1] == Improved(a, xs[j]) >= xs[j] && 0.0 <= Defect(a, xs[j])
    {
      Step(a, x, bounds[i]);
      x := Improved(a, x);
      xs := xs + [x];
    }
    assert Defect(a, x) <= 0.000003;
  }

  datatype Outcome = Rejected | Saturated | Computed(inverse: real, shift: int)

  // The normalised input as a fraction with 29 binary digits.
  function Fraction(value: nat): real {
    value as real / 536870912.0
  }

  /** The square of x times the value is two to the 29, or up to two to the 11 less. */
  ghost predicate IsInverseRoot(x: real, value: nat) {
    536868864.0 < value as real * x * x <= 536870912.0
  }

  /** A defect below two to the minus 18 is one below two to the 11 for the integer. */
  lemma DefectOfFraction(value: nat, x: real)
    ensures 0.0 <= Defect(Fraction(value), x) < 1.0 / 262144.0 <==> IsInverseRoot(x, value)
  {
    var a := Fraction(value);
    var p := a * x * x;
    assert value as real == a * 536870912.0;
    assert value as real * x * x == p * 536870912.0 by { Scaled(a, 536870912.0, x); }
    assert Defect(a, x) == 1.0 - p;
    InScale(p);
  }

  lemma InScale(p: real)
    ensures 0.0 <= 1.0 - p < 1.0 / 262144.0 <==> 536868864.0 < p * 536870912.0 <= 536870912.0
  {
  }

  lemma Scaled(a: real, b: real, x: real)
    ensures a * b * x * x == a * x * x * b
  {
    assert a * b * x == a * x * b;
    assert a * x * b * x == a * x * x * b;
  }

  /** Every input that is not negative is accepted: neither range check fails. */
  method GetInvSqrtQuantizedMultiplierExp(input: int) returns (r: Outcome, ghost value: nat)
    requires input <= INT32_MAX
    ensures r.Rejected? <==> input < 0
    ensures r.Saturated? <==> 0 <= input <= 1
    ensures r.Computed? ==>
              && input > 1 && Normalised(input, value, r.shift)
              && r.inverse >= 1.0
              && IsInverseRoot(r.inverse, value)
  {
    hide IsInverseRoot;
    value := 0;
    if input < 0 { return Rejected, 0; }
    if input <= 1 { return Saturated, 0; }
    var normalised, shift := Normalise(input);
    Bounds();
    if normalised < 0x800_0000 || normalised >= 0x2000_0000 { return Rejected, value; }
    var x, _ := FiveSteps(Fraction(normalised));
    value := normalised;
    r := Computed(x, shift);
    DefectOfFraction(value, r.inverse);
  }
}
