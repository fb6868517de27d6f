/** The binary64 arithmetic of Go's float64, over exact reals.

    `Fl` rounds an exact result to a double by roundTiesToEven (section 4.3.1 of IEEE 754-2019),
    subnormals included. Overflow to infinity is not modelled: no operation of the operator comes near it. */
module Float64 {

  // Products and quotients are named, so that proofs can hide the nonlinear arithmetic in them.

  function Product(x: real, y: real): real {
    x * y
  }

  // ---------- Powers of two ----------

  function Pow2(k: int): (p: real)
    ensures p > 0.0
    decreases if k < 0 then -k else k
  {
    if k == 0 then 1.0 else if k > 0 then 2.0 * Pow2(k - 1) else Pow2(k + 1) / 2.0
  }

  lemma Pow2Zero()
    ensures Pow2(0) == 1.0
  {
  }

  lemma Pow2Double(k: int)
    ensures Pow2(k + 1) == 2.0 * Pow2(k)
  {
  }

  lemma DoubleProduct(s: real, s2: real, x: real, y: real, y2: real)
    requires s2 == 2.0 * s && y2 == 2.0 * y
    ensures s2 == Product(x, y2) <==> s == Product(x, y)
  {
    assert x * y2 == 2.0 * (x * y);
  }

  lemma Pow2AddStep(a: int, b: int)
    ensures Pow2(a + (b + 1)) == Product(Pow2(a), Pow2(b + 1)) <==> Pow2(a + b) == Product(Pow2(a), Pow2(b))
  {
    hide Pow2;
    Pow2Double(a + b);
    Pow2Double(b);
    DoubleProduct(Pow2(a + b), Pow2(a + (b + 1)), Pow2(a), Pow2(b), Pow2(b + 1));
  }

  lemma {:induction false} Pow2Add(a: int, b: int)
    ensures Pow2(a + b) == Product(Pow2(a), Pow2(b))
    decreases if b < 0 then -b else b
  {
    hide Pow2;
    if b == 0 {
      Pow2Zero();
    } else if b > 0 {
      Pow2Add(a, b - 1);
      Pow2AddStep(a, b - 1);
    } else {
      Pow2Add(a, b + 1);
      Pow2AddStep(a, b);
    }
  }

  lemma {:induction false} Pow2Monotone(a: int, b: int)
    requires a <= b
    ensures Pow2(a) <= Pow2(b)
    decreases b - a
  {
    if a < b {
      Pow2Monotone(a, b - 1);
      Pow2Double(b - 1);
    }
  }

  lemma {:induction false} Pow2Grows(k: nat)
    ensures Pow2(k) >= (k + 1) as real
  {
    if k > 0 { Pow2Grows(k - 1); }
  }

  lemma {:induction false} Pow2Reciprocal(k: int)
    ensures Product(Pow2(k), Pow2(-k)) == 1.0
  {
    Pow2Add(k, -k);
  }

  /** A power of two with a natural exponent is an integer. */
  function IntPow2(k: nat): (n: int)
    ensures n > 0 && n as real == Pow2(k)
  {
    if k == 0 then 1 else 2 * IntPow2(k - 1)
  }

  // ---------- Exponent of a positive real ----------

  function ExponentUp(x: real, k: nat): (e: int)
    requires Pow2(k) <= x
    ensures Pow2(e) <= x < Pow2(e + 1)
    decreases x.Floor - k
  {
    Pow2Grows(k + 1);
    if x < Pow2(k + 1) then k else ExponentUp(x, k + 1)
  }

  lemma ReciprocalAntitone(x: real, y: real, z: real)
    requires 0.0 < x < y && y * z == 1.0
    ensures 1.0 / x > z
  {
    var r := 1.0 / x;
    assert r * x == 1.0;
  }

  lemma SmallHasLargeReciprocal(x: real, k: int)
    requires x > 0.0 && k < 0 && x < Pow2(k)
    ensures (1.0 / x).Floor + k >= 1
  {
    Pow2Reciprocal(k);
    Pow2Grows(-k);
    ReciprocalAntitone(x, Pow2(k), Pow2(-k));
  }

  function ExponentDown(x: real, k: int): (e: int)
    requires x > 0.0 && k < 0 && x < Pow2(k + 1)
    ensures Pow2(e) <= x < Pow2(e + 1)
    decreases (1.0 / x).Floor + k
  {
    if Pow2(k) <= x then k
    else
      SmallHasLargeReciprocal(x, k);
      ExponentDown(x, k - 1)
  }

  function Exponent(x: real): (e: int)
    requires x > 0.0
    ensures Pow2(e) <= x < Pow2(e + 1)
  {
    if x >= 1.0 then ExponentUp(x, 0) else ExponentDown(x, -1)
  }

  lemma ExponentUnique(x: real, e: int)
    requires x > 0.0 && Pow2(e) <= x < Pow2(e + 1)
    ensures Exponent(x) == e
  {
    var d := Exponent(x);
    if d < e {
      Pow2Monotone(d + 1, e);
    } else if e < d {
      Pow2Monotone(e + 1, d);
    }
  }

  // ---------- Rounding ----------

  /** The nearest integer, the even one of two equally near. */
  function NearestEven(y: real): (n: int)
    ensures -0.5 <= n as real - y <= 0.5
  {
    var f := y.Floor;
    var d := y - f as real;
    if d < 0.5 then f else if d > 0.5 then f + 1 else if f % 2 == 0 then f else f + 1
  }

  lemma NearestEvenMonotone(x: real, y: real)
    requires x <= y
    ensures NearestEven(x) <= NearestEven(y)
  {
  }

  lemma NearestEvenInteger(n: int)
    ensures NearestEven(n as real) == n
  {
  }

  const MIN_QUANTUM: int := -1074

  /** Exponent of the spacing of the doubles in the binade of `x`. */
  function QuantumExponent(x: real): (q: int)
    requires x > 0.0
    ensures q >= MIN_QUANTUM && q >= Exponent(x) - 52
  {
    if Exponent(x) - 52 < MIN_QUANTUM then MIN_QUANTUM else Exponent(x) - 52
  }

  function Quantum(x: real): (q: real)
    requires x > 0.0
    ensures q > 0.0
  {
    Pow2(QuantumExponent(x))
  }

  function Times(n: int, q: real): real {
    Product(n as real, q)
  }

  function Ratio(x: real, q: real): real
    requires q > 0.0
  {
    x / q
  }

  /** roundTiesToEven to binary64. */
  function Fl(x: real): real
    decreases x < 0.0
  {
    if x == 0.0 then 0.0
    else if x < 0.0 then -Fl(-x)
    else Times(NearestEven(Ratio(x, Quantum(x))), Quantum(x))
  }

  // ---------- Multiples of the spacing ----------

  lemma RatioBound(x: real, q: real, m: int)
    requires q > 0.0
    ensures x <= Times(m, q) <==> Ratio(x, q) <= m as real
    ensures x >= Times(m, q) <==> Ratio(x, q) >= m as real
  {
    assert (x / q) * q == x;
  }

  lemma TimesMonotone(m: int, n: int, q: real)
    requires m <= n && q >= 0.0
    ensures Times(m, q) <= Times(n, q)
  {
  }

  lemma RatioMonotone(x: real, y: real, q: real)
    requires x <= y && q > 0.0
    ensures Ratio(x, q) <= Ratio(y, q)
  {
  }

  lemma TimesOfRatio(x: real, q: real, n: int, d: real)
    requires q > 0.0 && -d <= n as real - Ratio(x, q) <= d
    ensures -d * q <= Times(n, q) - x <= d * q
  {
    var r := x / q;
    assert r * q == x;
    assert n as real * q - x == (n as real - r) * q;
  }

  /** A multiple of the spacing that bounds `x` bounds its rounding. */
  lemma FlBoundedByMultiple(x: real, m: int)
    requires x > 0.0
    ensures x <= Times(m, Quantum(x)) ==> Fl(x) <= Times(m, Quantum(x))
    ensures x >= Times(m, Quantum(x)) ==> Fl(x) >= Times(m, Quantum(x))
  {
    var q := Quantum(x);
    hide Quantum, Times, Ratio, NearestEven;
    var r := Ratio(x, q);
    RatioBound(x, q, m);
    NearestEvenInteger(m);
    if x <= Times(m, q) {
      NearestEvenMonotone(r, m as real);
      TimesMonotone(NearestEven(r), m, q);
    }
    if x >= Times(m, q) {
      NearestEvenMonotone(m as real, r);
      TimesMonotone(m, NearestEven(r), q);
    }
  }

  /** A power of two that is no smaller than the spacing is a multiple of it. */
  lemma PowerIsMultiple(e: int, q: int)
    requires q <= e
    ensures Pow2(e) == Times(IntPow2(e - q), Pow2(q))
  {
    hide Pow2, IntPow2, Product;
    Pow2Add(e - q, q);
  }

  lemma FlBoundedByPower(x: real, e: int)
    requires x > 0.0 && QuantumExponent(x) <= e
    ensures x <= Pow2(e) ==> Fl(x) <= Pow2(e)
    ensures x >= Pow2(e) ==> Fl(x) >= Pow2(e)
  {
    hide Pow2, IntPow2, Times, Fl, QuantumExponent;
    PowerIsMultiple(e, QuantumExponent(x));
    FlBoundedByMultiple(x, IntPow2(e - QuantumExponent(x)));
  }

  lemma FlNonNegative(x: real)
    requires x >= 0.0
    ensures Fl(x) >= 0.0
  {
    hide Quantum, Ratio, NearestEven;
    if x > 0.0 { FlBoundedByMultiple(x, 0); }
  }

  // ---------- Rounding preserves order ----------

  lemma FlMonotonePositive(x: real, y: real)
    requires 0.0 < x <= y
    ensures Fl(x) <= Fl(y)
  {
    hide Pow2, Exponent, Times, Ratio, NearestEven;
    var e, f := Exponent(x), Exponent(y);
    if f < e { Pow2Monotone(f + 1, e); }
    if QuantumExponent(x) == QuantumExponent(y) {
      var q := Quantum(x);
      RatioMonotone(x, y, q);
      NearestEvenMonotone(Ratio(x, q), Ratio(y, q));
      TimesMonotone(NearestEven(Ratio(x, q)), NearestEven(Ratio(y, q)), q);
    } else {
      Pow2Monotone(e + 1, f);
      FlBoundedByPower(x, f);
      FlBoundedByPower(y, f);
    }
  }

  /** Rounding preserves order. */
  lemma FlMonotone(x: real, y: real)
    requires x <= y
    ensures Fl(x) <= Fl(y)
  {
    hide Quantum, Times, Ratio, NearestEven;
    if 0.0 < x {
      FlMonotonePositive(x, y);
    } else if y < 0.0 {
      FlMonotonePositive(-y, -x);
    } else {
      FlNonNegative(y);
      FlNonNegative(-x);
    }
  }

  // ---------- Numerals ----------

  lemma Pow2Values()
    ensures Pow2(52) == 4503599627370496.0 && Pow2(53) == 9007199254740992.0
    ensures Pow2(-53) == 1.0 / 9007199254740992.0
  {
    assert Pow2(2) == 4.0;
    Pow2Add(2, 2);
    Pow2Add(4, 4);
    Pow2Add(8, 8);
    Pow2Add(16, 16);
    Pow2Add(32, 16);
    Pow2Add(48, 4);
    Pow2Add(52, 1);
    Pow2Reciprocal(53);
  }

  // ---------- Error of one rounding ----------

  lemma FlError(x: real)
    requires x > 0.0
    ensures -0.5 * Quantum(x) <= Fl(x) - x <= 0.5 * Quantum(x)
  {
    var q := Quantum(x);
    hide Quantum, Times, Ratio, NearestEven;
    TimesOfRatio(x, q, NearestEven(Ratio(x, q)), 0.5);
  }

  lemma QuantumRelative(x: real)
    requires x >= Pow2(-1022)
    ensures 0.5 * Quantum(x) <= x / 9007199254740992.0
  {
    hide Pow2, Exponent;
    var e := Exponent(x);
    if e < -1022 { Pow2Monotone(e + 1, -1022); }
    Pow2Values();
    Pow2Add(e, -53);
    Pow2Double(e - 53);
  }

  /** The relative error of rounding a number in the normal range is at most 2^-53. */
  lemma FlRelativeError(x: real)
    requires x >= Pow2(-1022)
    ensures -x / 9007199254740992.0 <= Fl(x) - x <= x / 9007199254740992.0
  {
    hide Pow2, Quantum, Fl;
    FlError(x);
    QuantumRelative(x);
  }

  lemma Reassociate(n: int, p: int, q: real)
    requires p as real * q == 1.0
    ensures Times(n * p, q) == n as real
  {
    assert (n * p) as real == n as real * p as real;
    assert (n as real * p as real) * q == n as real * (p as real * q);
  }

  lemma IntegerIsMultiple(n: int, k: int)
    requires k >= 0
    ensures n as real == Times(n * IntPow2(k), Pow2(-k))
  {
    hide Pow2, IntPow2, Times;
    Pow2Reciprocal(k);
    Reassociate(n, IntPow2(k), Pow2(-k));
  }

  /** Integers up to 2^53 are doubles. */
  lemma FlInteger(n: int)
    requires 0 <= n <= 9007199254740992
    ensures Fl(n as real) == n as real
  {
    if n > 0 {
      hide Pow2, Exponent, IntPow2, Times, Fl;
      var x := n as real;
      var e := Exponent(x);
      Pow2Values();
      if 53 < e { Pow2Monotone(54, e); Pow2Double(53); }
      if e < 0 { Pow2Monotone(e + 1, 0); Pow2Zero(); }
      if e == 53 {
        FlBoundedByPower(x, 53);
      } else {
        IntegerIsMultiple(n, 52 - e);
        FlBoundedByMultiple(x, n * IntPow2(52 - e));
      }
    }
  }

  // ---------- The IEEE 754 definition ----------

  ghost predicate IsScaled(y: real, m: int, e: int) {
    && -9007199254740992 < m < 9007199254740992
    && MIN_QUANTUM <= e
    && y == Times(m, Pow2(e))
  }

  /** The finite doubles, without the upper bound on the exponent. */
  ghost predicate IsDouble(y: real) {
    exists m: int, e: int :: IsScaled(y, m, e)
  }

  function Distance(x: real, y: real): real {
    if x <= y then y - x else x - y
  }

  lemma TimesDistance(x: real, q: real, n: int)
    requires q > 0.0
    ensures Distance(Times(n, q), x) == Product(Distance(n as real, Ratio(x, q)), q)
  {
    var r := x / q;
    assert r * q == x;
    if n as real <= r {
      assert (r - n as real) * q == x - Times(n, q);
      assert (r - n as real) * q >= 0.0;
    } else {
      assert (n as real - r) * q == Times(n, q) - x;
      assert (n as real - r) * q >= 0.0;
    }
  }

  lemma ScaledOrder(x: real, y: real, q: real)
    requires q > 0.0
    ensures x <= y <==> Product(x, q) <= Product(y, q)
    ensures x < y <==> Product(x, q) < Product(y, q)
  {
  }

  lemma NearestEvenIsNearest(y: real, j: int)
    ensures Distance(NearestEven(y) as real, y) <= Distance(j as real, y)
    ensures j != NearestEven(y) && Distance(NearestEven(y) as real, y) == Distance(j as real, y)
            ==> NearestEven(y) % 2 == 0
  {
  }

  /** No multiple of the spacing is nearer, and an equally near one is not preferred to an even one. */
  lemma FlNearestMultiple(x: real, j: int)
    requires x > 0.0
    ensures Distance(Fl(x), x) <= Distance(Times(j, Quantum(x)), x)
    ensures Fl(x) != Times(j, Quantum(x)) && Distance(Fl(x), x) == Distance(Times(j, Quantum(x)), x)
            ==> NearestEven(Ratio(x, Quantum(x))) % 2 == 0
  {
    var q := Quantum(x);
    hide Quantum, Times, Ratio, NearestEven, Distance, Product;
    var r := Ratio(x, q);
    var n := NearestEven(r);
    NearestEvenIsNearest(r, j);
    TimesDistance(x, q, n);
    TimesDistance(x, q, j);
    ScaledOrder(Distance(n as real, r), Distance(j as real, r), q);
  }

  lemma TimesZero(q: real)
    ensures Times(0, q) == 0.0
  {
  }

  /** The significand a positive real is rounded to. */
  lemma SignificandRange(x: real)
    requires x > 0.0
    ensures 0 <= NearestEven(Ratio(x, Quantum(x))) <= 9007199254740992
    ensures QuantumExponent(x) > MIN_QUANTUM ==> NearestEven(Ratio(x, Quantum(x))) >= 4503599627370496
  {
    var e, k := Exponent(x), QuantumExponent(x);
    Pow2Values();
    hide Pow2, IntPow2, Exponent, Times, Ratio, NearestEven;
    var q := Pow2(k);
    PowerIsMultiple(k + 53, k);
    PowerIsMultiple(k + 52, k);
    Pow2Monotone(e + 1, k + 53);
    RatioBound(x, q, IntPow2(53));
    RatioBound(x, q, IntPow2(52));
    NearestEvenInteger(IntPow2(53));
    NearestEvenInteger(IntPow2(52));
    NearestEvenMonotone(Ratio(x, q), IntPow2(53) as real);
    NearestEvenInteger(0);
    RatioBound(x, q, 0);
    TimesZero(q);
    NearestEvenMonotone(0.0, Ratio(x, q));
    if k > MIN_QUANTUM { NearestEvenMonotone(IntPow2(52) as real, Ratio(x, q)); }
  }

  lemma FlIsDouble(x: real)
    requires x > 0.0
    ensures IsDouble(Fl(x))
  {
    var k := QuantumExponent(x);
    Pow2Values();
    SignificandRange(x);
    hide Pow2, IntPow2, Exponent, Times, Ratio, NearestEven;
    var n := NearestEven(Ratio(x, Quantum(x)));
    if n == 9007199254740992 {
      PowerIsMultiple(k + 53, k);
      PowerIsMultiple(k + 53, k + 1);
      assert IsScaled(Fl(x), IntPow2(52), k + 1);
    } else {
      assert IsScaled(Fl(x), n, k);
    }
  }

  lemma TimesReassociate(m: int, p: int, q: real)
    ensures Times(m, Product(p as real, q)) == Times(m * p, q)
  {
    assert (m * p) as real == m as real * p as real;
  }

  lemma CoarserMultiple(m: int, e: int, k: int)
    requires k <= e
    ensures Times(m, Pow2(e)) == Times(m * IntPow2(e - k), Pow2(k))
  {
    hide Pow2, IntPow2, Times, Product;
    Pow2Add(e - k, k);
    TimesReassociate(m, IntPow2(e - k), Pow2(k));
  }

  lemma TimesPredecessor(n: int, q: real)
    ensures Times(n - 1, q) == Times(n, q) - q
  {
  }

  lemma SignificandStrict(m: int, e: int)
    requires m < 9007199254740992
    ensures Times(m, Pow2(e)) < Pow2(e + 53)
  {
    Pow2Values();
    hide Pow2, IntPow2, Times;
    PowerIsMultiple(e + 53, e);
    TimesMonotone(m, IntPow2(53) - 1, Pow2(e));
    TimesPredecessor(IntPow2(53), Pow2(e));
  }

  /** A double whose significand, written with as many digits as there are, ends in an even digit. */
  ghost predicate IsEvenScaled(y: real, m: int, e: int) {
    IsScaled(y, 2 * m, e) && (e == MIN_QUANTUM || 4503599627370496 <= 2 * m || 2 * m <= -4503599627370496)
  }

  ghost predicate IsEvenDouble(y: real) {
    exists m: int, e: int :: IsEvenScaled(y, m, e)
  }

  lemma EvenMultiple(x: real)
    requires x > 0.0 && NearestEven(Ratio(x, Quantum(x))) % 2 == 0
    ensures IsEvenDouble(Fl(x))
  {
    var e, k := Exponent(x), QuantumExponent(x);
    Pow2Values();
    hide Pow2, IntPow2, Exponent, Times, Ratio, NearestEven;
    var q, n := Pow2(k), NearestEven(Ratio(x, Quantum(x)));
    SignificandRange(x);
    if n == 9007199254740992 {
      PowerIsMultiple(k + 53, k);
      PowerIsMultiple(k + 53, k + 1);
      assert IsEvenScaled(Fl(x), 2251799813685248, k + 1);
    } else {
      assert IsEvenScaled(Fl(x), n / 2, k);
    }
  }

  lemma NearestAmongCoarser(x: real, z: real, m: int, e: int)
    requires x > 0.0 && IsScaled(z, m, e) && QuantumExponent(x) <= e
    ensures Distance(Fl(x), x) <= Distance(z, x)
    ensures z != Fl(x) && Distance(Fl(x), x) == Distance(z, x) ==> IsEvenDouble(Fl(x))
  {
    hide Pow2, IntPow2, Exponent, Times, Fl, NearestEven, Ratio, Distance, IsEvenDouble;
    var k := QuantumExponent(x);
    CoarserMultiple(m, e, k);
    FlNearestMultiple(x, m * IntPow2(e - k));
    if NearestEven(Ratio(x, Quantum(x))) % 2 == 0 { EvenMultiple(x); }
  }

  /** Finer doubles all lie below the binade of `x`. */
  lemma FinerIsBelow(x: real, z: real, m: int, e: int)
    requires x > 0.0 && IsScaled(z, m, e) && e < QuantumExponent(x)
    ensures z < Pow2(QuantumExponent(x) + 52) <= x
  {
    hide Pow2, IntPow2, Exponent, Times;
    SignificandStrict(m, e);
    Pow2Monotone(e + 53, QuantumExponent(x) + 52);
  }

  lemma NearestAmongFiner(x: real, z: real, m: int, e: int)
    requires x > 0.0 && IsScaled(z, m, e) && e < QuantumExponent(x)
    ensures Distance(Fl(x), x) < Distance(z, x)
  {
    FinerIsBelow(x, z, m, e);
    hide Pow2, IntPow2, Times, Fl, IsScaled;
    var k := QuantumExponent(x);
    PowerIsMultiple(k + 52, k);
    FlNearestMultiple(x, IntPow2(52));
  }

  lemma FlIsNearestPositive(x: real, z: real)
    requires x > 0.0 && IsDouble(z)
    ensures Distance(Fl(x), x) <= Distance(z, x)
    ensures z != Fl(x) && Distance(Fl(x), x) == Distance(z, x) ==> IsEvenDouble(Fl(x))
  {
    hide IsScaled, Fl, Distance, IsEvenDouble, QuantumExponent;
    var m: int, e: int :| IsScaled(z, m, e);
    if QuantumExponent(x) <= e { NearestAmongCoarser(x, z, m, e); } else { NearestAmongFiner(x, z, m, e); }
  }

  lemma NegatedTimes(m: int, q: real)
    ensures Times(-m, q) == -Times(m, q)
  {
    assert (-m) as real == -(m as real);
    assert -(m as real) * q == -(m as real * q);
  }

  lemma NegatedDouble(z: real)
    ensures IsDouble(z) ==> IsDouble(-z)
    ensures IsEvenDouble(z) ==> IsEvenDouble(-z)
  {
    if IsDouble(z) {
      var m: int, e: int :| IsScaled(z, m, e);
      NegatedTimes(m, Pow2(e));
      assert IsScaled(-z, -m, e);
    }
    if IsEvenDouble(z) {
      var m: int, e: int :| IsEvenScaled(z, m, e);
      NegatedTimes(2 * m, Pow2(e));
      assert -(2 * m) == 2 * -m;
      assert IsEvenScaled(-z, -m, e);
    }
  }

  lemma ZeroIsDouble()
    ensures IsDouble(0.0)
  {
    TimesZero(Pow2(0));
    assert IsScaled(0.0, 0, 0);
  }

  /** Rounding picks a double, no double is nearer to the exact value, and of two equally near ones the even
      one is picked: roundTiesToEven in section 4.3.1 of IEEE 754-2019. */
  lemma FlIsNearest(x: real, z: real)
    requires IsDouble(z)
    ensures IsDouble(Fl(x)) && Distance(Fl(x), x) <= Distance(z, x)
    ensures z != Fl(x) && Distance(Fl(x), x) == Distance(z, x) ==> IsEvenDouble(Fl(x))
  {
    assert Fl(x) == if x == 0.0 then 0.0 else if x < 0.0 then -Fl(-x) else Fl(x);
    hide Fl, IsDouble, IsEvenDouble;
    if x > 0.0 {
      FlIsDouble(x);
      FlIsNearestPositive(x, z);
    } else if x < 0.0 {
      FlIsDouble(-x);
      NegatedDouble(Fl(-x));
      NegatedDouble(z);
      FlIsNearestPositive(-x, -z);
    } else {
      ZeroIsDouble();
    }
  }

  lemma SumOfMultiples(m: int, n: int, q: real)
    ensures Times(m + n, q) == Times(m, q) + Times(n, q)
  {
  }

  lemma ScaledIsDouble(y: real, m: int, e: int)
    requires IsScaled(y, m, e)
    ensures IsDouble(y)
  {
  }

  lemma BetweenSameScale(a: real, m: int, b: real, n: int, e: int)
    requires 0.0 <= a < b && IsScaled(a, 2 * m, e) && b == Times(2 * n, Pow2(e)) && 2 * n <= 9007199254740992
    ensures exists z :: IsDouble(z) && a < z < b
  {
    hide Pow2, Times, IsDouble;
    assert m + m == 2 * m && n + n == 2 * n;
    SumOfMultiples(m, m, Pow2(e));
    SumOfMultiples(n, n, Pow2(e));
    SumOfMultiples(m, n, Pow2(e));
    if m > n { TimesMonotone(2 * n, 2 * m, Pow2(e)); }
    TimesZero(Pow2(e));
    if m + n < 0 { TimesMonotone(m + n, 0, Pow2(e)); }
    var z := Times(m + n, Pow2(e));
    ScaledIsDouble(z, m + n, e);
  }

  lemma BetweenEvenScaled(a: real, m: int, e: int, b: real, n: int, f: int)
    requires 0.0 <= a < b && IsEvenScaled(a, m, e) && IsEvenScaled(b, n, f)
    ensures exists z :: IsDouble(z) && a < z < b
  {
    Pow2Values();
    hide Pow2, IntPow2, Times;
    TimesZero(Pow2(e));
    TimesZero(Pow2(f));
    if m < 0 { TimesMonotone(2 * m, -1, Pow2(e)); TimesPredecessor(0, Pow2(e)); }
    if n <= 0 { TimesMonotone(2 * n, 0, Pow2(f)); }
    if e == f {
      BetweenSameScale(a, m, b, n, e);
    } else if e < f {
      var c := Pow2(e + 53);
      PowerIsMultiple(e + 53, e + 1);
      ScaledIsDouble(c, 4503599627370496, e + 1);
      SignificandStrict(2 * m, e);
      PowerIsMultiple(f + 52, f);
      TimesMonotone(IntPow2(52), 2 * n, Pow2(f));
      Pow2Monotone(e + 53, f + 52);
      if b == c {
        PowerIsMultiple(e + 53, e);
        BetweenSameScale(a, m, b, 4503599627370496, e);
      }
    } else {
      PowerIsMultiple(e + 52, e);
      TimesMonotone(IntPow2(52), 2 * m, Pow2(e));
      Pow2Monotone(f + 53, e + 52);
      SignificandStrict(2 * n, f);
      assert false;
    }
  }

  lemma BetweenEvenDoubles(a: real, b: real)
    requires a < b && IsEvenDouble(a) && IsEvenDouble(b)
    ensures exists z :: IsDouble(z) && a < z < b
  {
    hide IsEvenScaled, IsScaled;
    if a >= 0.0 {
      var m: int, e: int :| IsEvenScaled(a, m, e);
      var n: int, f: int :| IsEvenScaled(b, n, f);
      BetweenEvenScaled(a, m, e, b, n, f);
    } else if b <= 0.0 {
      NegatedDouble(a);
      NegatedDouble(b);
      var m: int, e: int :| IsEvenScaled(-a, m, e);
      var n: int, f: int :| IsEvenScaled(-b, n, f);
      BetweenEvenScaled(-b, n, f, -a, m, e);
      var z :| IsDouble(z) && -b < z < -a;
      NegatedDouble(z);
      assert a < -z < b;
    } else {
      ZeroIsDouble();
    }
  }

  ghost predicate IsRoundTiesToEven(x: real, y: real) {
    && IsDouble(y)
    && (forall z :: IsDouble(z) ==> Distance(y, x) <= Distance(z, x))
    && (forall z :: IsDouble(z) && z != y && Distance(y, x) == Distance(z, x) ==> IsEvenDouble(y))
  }

  /** That definition fixes the rounding of every real. */
  lemma FlIsUnique(x: real, y: real)
    ensures IsRoundTiesToEven(x, y) <==> y == Fl(x)
  {
    hide Fl, IsDouble, IsEvenDouble;
    ZeroIsDouble();
    FlIsNearest(x, 0.0);
    forall z | IsDouble(z)
      ensures Distance(Fl(x), x) <= Distance(z, x)
      ensures z != Fl(x) && Distance(Fl(x), x) == Distance(z, x) ==> IsEvenDouble(Fl(x))
    {
      FlIsNearest(x, z);
    }
    if IsRoundTiesToEven(x, y) && y != Fl(x) {
      var a, b := if y < Fl(x) then y else Fl(x), if y < Fl(x) then Fl(x) else y;
      BetweenEvenDoubles(a, b);
      assert false;
    }
  }

  // ---------- Which numbers round up to an integer ----------

  /** The binade just below `x`. */
  function BinadeBelow(x: real): (d: int)
    requires x > 0.0
    ensures Pow2(d) < x <= Pow2(d + 1)
  {
    var e := Exponent(x);
    Pow2Double(e - 1);
    if Pow2(e) == x then e - 1 else e
  }

  /** The distance from a positive integer up to 2^53 to the double below it. */
  function GapBelow(n: int): (gap: real)
    requires n > 0
    ensures gap > 0.0
  {
    Pow2(BinadeBelow(n as real) - 52)
  }

  /** At least half way from the double below `n` to `n`; from the middle an odd `n`, if the gap is 1, is missed. */
  predicate RoundsUpTo(y: real, n: int) {
    || n <= 0
    || y > n as real - 0.5 * GapBelow(n)
    || (y == n as real - 0.5 * GapBelow(n) && (n <= 4503599627370496 || n % 2 == 0))
  }

  lemma BinadeBelowInteger(n: int)
    requires 1 <= n <= 9007199254740992
    ensures -1 <= BinadeBelow(n as real) <= 52
    ensures n <= 4503599627370496 ==> BinadeBelow(n as real) <= 51
  {
    var d := BinadeBelow(n as real);
    Pow2Zero();
    Pow2Values();
    hide Pow2, BinadeBelow;
    if d < -1 { Pow2Monotone(d + 1, -1); Pow2Double(-1); }
    if d > 52 { Pow2Monotone(53, d); }
    if d == 52 { Pow2Double(52); }
  }

  lemma EvenProduct(n: int, half: int)
    ensures n * (2 * half) % 2 == 0
  {
    var x := n * half;
    assert n * (2 * half) == 2 * x;
  }

  lemma EvenFactor(n: int, k: int)
    requires k > 0
    ensures n * IntPow2(k) % 2 == 0
  {
    EvenProduct(n, IntPow2(k - 1));
    assert IntPow2(k) == 2 * IntPow2(k - 1);
    hide IntPow2;
  }

  lemma TimesHalf(m: int, q: real, y: real)
    requires q > 0.0
    ensures y > Times(m, q) - 0.5 * q <==> Ratio(y, q) > m as real - 0.5
    ensures y == Times(m, q) - 0.5 * q <==> Ratio(y, q) == m as real - 0.5
  {
    var r, h := y / q, m as real - 0.5;
    assert Product(r, q) == y;
    assert Product(h, q) == m as real * q - 0.5 * q;
    ScaledOrder(r, h, q);
    ScaledOrder(h, r, q);
  }

  lemma NearestEvenReaches(r: real, m: int)
    ensures NearestEven(r) >= m <==> r > m as real - 0.5 || (r == m as real - 0.5 && m % 2 == 0)
  {
    var f := r.Floor;
    assert NearestEven(r) == f || NearestEven(r) == f + 1;
    if m <= f {
      assert r >= m as real;
    } else if m >= f + 2 {
      assert r < m as real - 1.0;
    } else {
      assert m == f + 1 && (m % 2 == 0 <==> f % 2 != 0);
    }
  }

  lemma IntPow2Zero()
    ensures IntPow2(0) == 1
  {
  }

  lemma FlReachesMultiple(y: real, d: int, m: int)
    requires -1 <= d && Pow2(d) <= y < Pow2(d + 1)
    ensures var q := Pow2(d - 52);
            Fl(y) >= Times(m, q) <==> y > Times(m, q) - 0.5 * q || (y == Times(m, q) - 0.5 * q && m % 2 == 0)
  {
    ExponentUnique(y, d);
    hide Pow2, Exponent, Times, Ratio, NearestEven;
    var q := Pow2(d - 52);
    var n := NearestEven(Ratio(y, q));
    NearestEvenReaches(Ratio(y, q), m);
    TimesHalf(m, q, y);
    if n >= m {
      TimesMonotone(m, n, q);
    } else {
      TimesMonotone(n, m - 1, q);
      TimesPredecessor(m, q);
    }
  }

  /** In the binade below `n`, rounding reaches `n` from the middle of the last gap. */
  lemma FlReachesWithin(y: real, n: int, d: int)
    requires -1 <= d <= 52 && Pow2(d) < n as real <= Pow2(d + 1) && Pow2(d) <= y < Pow2(d + 1)
    ensures Fl(y) >= n as real <==>
            || y > n as real - 0.5 * Pow2(d - 52)
            || (y == n as real - 0.5 * Pow2(d - 52) && (d < 52 || n % 2 == 0))
  {
    hide Pow2, IntPow2, Times, Fl;
    IntegerIsMultiple(n, 52 - d);
    if d < 52 { EvenFactor(n, 52 - d); } else { IntPow2Zero(); }
    FlReachesMultiple(y, d, n * IntPow2(52 - d));
  }

  lemma PowerIsDouble(d: int)
    requires d >= -1
    ensures Fl(Pow2(d)) == Pow2(d)
  {
    Pow2Double(d);
    ExponentUnique(Pow2(d), d);
    hide Pow2, Times, Fl;
    FlBoundedByPower(Pow2(d), d);
  }

  /** An integer above a power of two is above it by a whole gap. */
  lemma IntegerAbovePower(n: int, d: int)
    requires -1 <= d <= 52 && Pow2(d) < n as real
    ensures Pow2(d) <= n as real - Pow2(d - 52)
  {
    hide Pow2, IntPow2, Times;
    IntegerIsMultiple(n, 52 - d);
    PowerIsMultiple(d, d - 52);
    var m, p, q := n * IntPow2(52 - d), IntPow2(52), Pow2(d - 52);
    if m <= p { TimesMonotone(m, p, q); }
    TimesMonotone(p, m - 1, q);
    TimesPredecessor(m, q);
  }

  lemma BelowBinade(y: real, n: int, d: int)
    requires -1 <= d <= 52 && Pow2(d) < n as real && 0.0 <= y < Pow2(d)
    ensures Fl(y) < n as real && y < n as real - 0.5 * Pow2(d - 52)
  {
    PowerIsDouble(d);
    hide Fl, Pow2;
    FlMonotone(y, Pow2(d));
    IntegerAbovePower(n, d);
  }

  /** Exactly which numbers round to `n` or more. */
  lemma FlReaches(y: real, n: int)
    requires y >= 0.0 && n <= 9007199254740992
    ensures Fl(y) >= n as real <==> RoundsUpTo(y, n)
  {
    FlNonNegative(y);
    if n > 0 {
      BinadeBelowInteger(n);
      hide Fl, Pow2, BinadeBelow;
      var d := BinadeBelow(n as real);
      if y >= Pow2(d + 1) {
        FlMonotone(n as real, y);
        FlInteger(n);
      } else if y >= Pow2(d) {
        FlReachesWithin(y, n, d);
        if n > 4503599627370496 && d < 52 { Pow2Values(); Pow2Monotone(d + 1, 52); }
        if d == 52 { Pow2Values(); }
      } else {
        BelowBinade(y, n, d);
      }
    }
  }

  // ---------- A product with a ratio below one does not exceed its integer factor ----------

  lemma OneIsMultiple()
    ensures Times(9007199254740992, Pow2(-53)) == 1.0
    ensures Times(9007199254740991, Pow2(-53)) == 1.0 - 1.0 / 9007199254740992.0
  {
    Pow2Values();
    hide Pow2;
  }

  /** The largest double below 1 is 1 - 2^-53. */
  lemma DoubleBelowOne(r: real)
    requires 0.0 < r < 1.0 && Fl(r) == r
    ensures r <= 1.0 - 1.0 / 9007199254740992.0
  {
    Pow2Values();
    Pow2Double(-1);
    Pow2Zero();
    hide Pow2, IntPow2, Times, Ratio, NearestEven;
    if r >= 0.5 {
      ExponentUnique(r, -1);
      var q, n := Pow2(-53), NearestEven(Ratio(r, Quantum(r)));
      OneIsMultiple();
      if n >= 9007199254740992 {
        TimesMonotone(9007199254740992, n, q);
      } else {
        TimesMonotone(n, 9007199254740991, q);
      }
    }
  }

  /** A rounded value is a double, and a double rounds to itself. */
  lemma FlIdempotent(x: real)
    ensures Fl(Fl(x)) == Fl(x)
  {
    var y := if x < 0.0 then -x else x;
    FlNonNegative(y);
    if Fl(y) > 0.0 {
      FlIsDouble(y);
      FlIsNearest(Fl(y), Fl(y));
    }
    hide Times, Ratio, Quantum, NearestEven, IsDouble;
  }

  lemma ScaledBelow(f: real, r: real)
    requires f > 0.0 && 0.0 < r <= 1.0 - 1.0 / 9007199254740992.0
    ensures 0.0 < Product(f, r) <= f - f / 9007199254740992.0
  {
    assert f * r <= f * (1.0 - 1.0 / 9007199254740992.0);
  }

  lemma RatioBelowHalf(y: real, q: real, n: int)
    requires q > 0.0 && y < Times(n, q) - 0.5 * q
    ensures Ratio(y, q) < n as real - 0.5
  {
    var r, h := y / q, n as real - 0.5;
    assert Product(r, q) == y;
    assert Product(h, q) == n as real * q - 0.5 * q;
    ScaledOrder(r, h, q);
  }

  /** The case of FlScaledDown in which converting `x` rounded it up to `f`. */
  lemma FlScaledDownFromAbove(x: real, y: real)
    requires x >= 1.0 && Fl(x) > x && 0.0 < y <= Fl(x) - Fl(x) / 9007199254740992.0
    ensures Fl(y) <= x
  {
    Pow2Zero();
    Pow2Values();
    hide Pow2, IntPow2, Exponent, Times, Ratio;
    var e, q, f := Exponent(x), Quantum(x), Fl(x);
    var n := NearestEven(Ratio(x, q));
    if e < 0 { Pow2Monotone(e + 1, 0); }
    FlError(x);
    FlBoundedByPower(x, e + 1);
    if y < Pow2(e) {
      var d := Exponent(y);
      if e <= d { Pow2Monotone(e, d); }
      FlBoundedByPower(y, e);
    } else {
      ExponentUnique(y, e);
      Pow2Add(e, -53);
      Pow2Double(e - 53);
      RatioBelowHalf(y, q, n);
      TimesMonotone(NearestEven(Ratio(y, q)), n - 1, q);
      TimesPredecessor(n, q);
    }
  }

  lemma FlScaledDownProduct(x: real, y: real)
    requires x >= 1.0 && 0.0 < y <= Fl(x) - Fl(x) / 9007199254740992.0
    ensures Fl(y) <= x
  {
    hide Fl;
    if Fl(x) <= x {
      FlMonotone(1.0, x);
      FlInteger(1);
      FlMonotone(y, Fl(x));
      FlIdempotent(x);
    } else {
      FlScaledDownFromAbove(x, y);
    }
  }

  /** Multiplying by a double below 1, with the factor and the product both rounded,
      never exceeds the factor. */
  lemma FlScaledDown(x: real, r: real)
    requires x >= 1.0 && 0.0 < r < 1.0 && Fl(r) == r
    ensures Fl(Product(Fl(x), r)) <= x
  {
    hide *;
    DoubleBelowOne(r);
    FlMonotone(1.0, x);
    FlInteger(1);
    ScaledBelow(Fl(x), r);
    FlScaledDownProduct(x, Product(Fl(x), r));
  }
}
