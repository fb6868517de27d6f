/** Overcommit ratios: which ones the class validator admits (api/v1alphav1/webhook_validations.go),
    the requests computed from them, and their text in pod annotations (pkg/overcommit/make_overcommit.go). */
module Ratios {
  import opened Wrappers
  import opened Float64
  import opened Text

  // ---------- checkDecimals ----------

  /** math.Round: the nearest integer, halves away from zero. */
  function RoundHalfAway(x: real): int {
    if x >= 0.0 then (x + 0.5).Floor else -(0.5 - x).Floor
  }

  /** The number of ten-thousandths the validator rounds a ratio to. */
  function Steps(ratio: real): int {
    RoundHalfAway(Fl(Product(ratio, 10000.0)))
  }

  function TenThousandths(steps: int): real {
    steps as real / 10000.0
  }

  predicate FourDecimals(ratio: real) {
    var difference := Fl(ratio - Fl(TenThousandths(Steps(ratio))));
    (if difference < 0.0 then -difference else difference) <= Fl(0.000000001)
  }

  /** validateSpecOvercommit on one ratio. */
  predicate InRange(ratio: real) {
    0.0 < ratio <= 1.0
  }

  /** A double accepted by the schema's minimum, by validateSpecOvercommit and by checkDecimals. */
  predicate Admitted(ratio: real) {
    && Fl(ratio) == ratio
    && Fl(0.0001) <= ratio
    && InRange(ratio)
    && FourDecimals(ratio)
  }

  lemma NormalRange(x: real)
    requires x >= 0.0000000001
    ensures -x / 9007199254740992.0 <= Fl(x) - x <= x / 9007199254740992.0
  {
    hide Pow2, Fl;
    Pow2Values();
    Pow2Monotone(-1022, -53);
    FlRelativeError(x);
  }

  lemma ProductByConstant(x: real)
    ensures Product(x, 10000.0) == 10000.0 * x
  {
  }

  lemma StepsRange(ratio: real)
    requires Fl(0.0001) <= ratio <= 1.0
    ensures 1 <= Steps(ratio) <= 10000
  {
    hide Fl, Product;
    ProductByConstant(ratio);
    NormalRange(0.0001);
    NormalRange(Product(ratio, 10000.0));
    FlMonotone(Product(ratio, 10000.0), 10000.0);
    FlInteger(10000);
  }

  lemma ToleranceIsSmall(d: real)
    requires d > 0.0 && Fl(d) <= Fl(0.000000001)
    ensures d <= 0.0000000015
  {
    hide Fl;
    NormalRange(0.000000001);
    if d > 0.0000000015 { NormalRange(d); }
  }

  lemma ToleratedDifference(d: real)
    requires (if Fl(d) < 0.0 then -Fl(d) else Fl(d)) <= Fl(0.000000001)
    ensures -0.0000000015 <= d <= 0.0000000015
  {
    FlNonNegative(if d < 0.0 then -d else d);
    assert Fl(d) == if d < 0.0 then -Fl(-d) else Fl(d);
    hide Fl;
    if d > 0.0 { ToleranceIsSmall(d); } else if d < 0.0 { ToleranceIsSmall(-d); }
  }

  lemma TenThousandthsRange(steps: int)
    requires 1 <= steps <= 10000
    ensures 0.0001 <= TenThousandths(steps) <= 1.0
  {
  }

  /** An admitted ratio is a whole number of ten-thousandths, up to the validator's slack of 1e-9
      and a few roundings. */
  lemma AdmittedNearSteps(ratio: real)
    requires Admitted(ratio)
    ensures 1 <= Steps(ratio) <= 10000
    ensures -0.0000000016 <= ratio - TenThousandths(Steps(ratio)) <= 0.0000000016
  {
    hide Fl, Steps, TenThousandths;
    StepsRange(ratio);
    var exact := TenThousandths(Steps(ratio));
    TenThousandthsRange(Steps(ratio));
    ToleratedDifference(ratio - Fl(exact));
    NormalRange(exact);
  }

  lemma NearStepsRoundsTo(ratio: real, k: int)
    requires 1 <= k <= 10000 && -0.000000001 <= ratio - TenThousandths(k) <= 0.000000001
    ensures Steps(ratio) == k
  {
    hide Fl, Product;
    ProductByConstant(ratio);
    NormalRange(Product(ratio, 10000.0));
  }

  lemma NearestInRange(k: int)
    requires 1 <= k <= 10000
    ensures var ratio := Fl(TenThousandths(k));
            && Fl(0.0001) <= ratio <= 1.0 && 0.0 < ratio
            && -0.000000001 <= ratio - TenThousandths(k) <= 0.000000001
  {
    hide Fl;
    FlMonotone(0.0001, TenThousandths(k));
    FlMonotone(TenThousandths(k), 1.0);
    FlInteger(1);
    NormalRange(TenThousandths(k));
  }

  /** Conversely, every number of four decimals that a user may write is admitted as the double nearest to it. */
  lemma FourDecimalsAdmitted(k: int)
    requires 1 <= k <= 10000
    ensures Admitted(Fl(TenThousandths(k))) && Steps(Fl(TenThousandths(k))) == k
  {
    var ratio := Fl(TenThousandths(k));
    NearestInRange(k);
    NearStepsRoundsTo(ratio, k);
    FlIdempotent(TenThousandths(k));
    FlNonNegative(0.000000001);
    assert Fl(0.0) == 0.0;
    hide Fl, Steps, TenThousandths;
  }

  // ---------- Requests ----------

  const INT64_LIMIT: int := 0x8000_0000_0000_0000

  function Truncate(x: real): int {
    if x >= 0.0 then x.Floor else -(-x).Floor
  }

  /** int64(float64(limit) * ratio). */
  function RequestFor(limit: int, ratio: real): int {
    Truncate(Fl(Product(Fl(limit as real), ratio)))
  }

  lemma ProductMonotone(a: real, b: real, x: real, y: real)
    requires 0.0 <= a <= b && 0.0 <= x <= y
    ensures 0.0 <= Product(a, x) <= Product(b, y)
  {
    assert a * x <= b * x <= b * y;
  }

  /** A larger limit or ratio never gives a smaller request. */
  lemma RequestMonotone(limit: int, limit': int, ratio: real, ratio': real)
    requires 0 <= limit <= limit' && 0.0 <= ratio <= ratio'
    ensures RequestFor(limit, ratio) <= RequestFor(limit', ratio')
  {
    hide Fl, Product;
    FlNonNegative(limit as real);
    FlMonotone(limit as real, limit' as real);
    ProductMonotone(Fl(limit as real), Fl(limit' as real), ratio, ratio');
    var p, p' := Product(Fl(limit as real), ratio), Product(Fl(limit' as real), ratio');
    FlNonNegative(p);
    FlMonotone(p, p');
  }

  lemma ProductZero()
    ensures Product(0.0, 0.0) == 0.0
  {
  }

  lemma ZeroProduct(x: real)
    ensures Product(0.0, x) == 0.0
  {
  }

  /** For every non-negative int64 limit the request is between 0 and the limit, so the conversion
      back to int64 does not overflow. */
  lemma RequestWithinLimit(limit: int, ratio: real)
    requires Admitted(ratio) && ratio < 1.0 && 0 <= limit < INT64_LIMIT
    ensures 0 <= RequestFor(limit, ratio) <= limit
  {
    hide Fl, Product, FourDecimals;
    RequestMonotone(0, limit, 0.0, ratio);
    FlInteger(0);
    ProductZero();
    if limit > 0 {
      FlScaledDown(limit as real, ratio);
    } else {
      ProductMonotone(0.0, 0.0, ratio, ratio);
      ZeroProduct(ratio);
    }
  }

  lemma ConstantProducts(f: real)
    ensures Product(0.5, 0.00001) == 0.000005 && Product(f, 1.0) == f
  {
  }

  lemma SmallFactor(e: real, ratio: real)
    requires 0.0 <= ratio <= 1.0
    ensures 0.0 <= e ==> 0.0 <= e * ratio <= e
    ensures e <= 0.0 ==> e <= e * ratio <= 0.0
  {
  }

  lemma FactorError(x: real, f: real, ratio: real, d: real)
    requires 0.0 <= ratio <= 1.0 && -d <= f - x <= d
    ensures -d <= Product(f, ratio) - Product(x, ratio) <= d
  {
    var e := f - x;
    assert Product(f, ratio) - Product(x, ratio) == e * ratio;
    SmallFactor(e, ratio);
  }

  lemma StepsProduct(limit: int, steps: int, ratio: real, d: real)
    requires limit > 0 && -d <= ratio - TenThousandths(steps) <= d
    ensures -d * limit as real <= Product(limit as real, ratio) - TenThousandths(limit * steps) <= d * limit as real
  {
    var x, s, e := limit as real, steps as real, ratio - steps as real / 10000.0;
    assert (limit * steps) as real == x * s;
    assert x * ratio - x * s / 10000.0 == x * e;
    assert -d * x <= x * e <= d * x;
  }

  /** The product the source truncates is close to the exact one. */
  lemma ProductError(limit: int, ratio: real)
    requires Admitted(ratio) && 0 < limit
    ensures var p := Fl(Product(Fl(limit as real), ratio));
            var exact := TenThousandths(limit * Steps(ratio));
            && p >= 0.0
            && exact - 0.000000002 * limit as real < p < exact + 0.000000002 * limit as real
  {
    hide Fl, Product, Steps;
    AdmittedNearSteps(ratio);
    var x := limit as real;
    var f := Fl(x);
    NormalRange(x);
    var p := Product(f, ratio);
    NormalRange(0.0001);
    FactorError(x, f, ratio, x / 9007199254740992.0);
    StepsProduct(limit, Steps(ratio), ratio, 0.0000000016);
    assert 0.00001 <= ratio;
    ProductMonotone(0.5, f, 0.00001, ratio);
    ProductMonotone(f, f, ratio, 1.0);
    ConstantProducts(f);
    NormalRange(p);
  }

  /** The share of the limit an admitted ratio stands for, exactly. */
  function ExactShare(limit: int, ratio: real): real {
    TenThousandths(limit * Steps(ratio))
  }

  function Slack(limit: int): real {
    0.000000002 * limit as real
  }

  lemma ProductByZeroSteps(steps: int)
    ensures 0 * steps == 0
  {
  }

  /** The request is the integer part of a number within 2e-9 of the limit's exact share: it lies between
      the floors of the two ends of that interval. */
  lemma RequestSandwiched(limit: int, ratio: real)
    requires Admitted(ratio) && 0 <= limit
    ensures (ExactShare(limit, ratio) - Slack(limit)).Floor <= RequestFor(limit, ratio)
    ensures RequestFor(limit, ratio) <= (ExactShare(limit, ratio) + Slack(limit)).Floor
  {
    hide Fl, Product, Admitted;
    if limit == 0 {
      FlInteger(0);
      ZeroProduct(ratio);
      ProductByZeroSteps(Steps(ratio));
    } else {
      ProductError(limit, ratio);
    }
  }

  /** Truncation and the ratio's slack cost less than one unit plus 2e-9 of the limit. */
  lemma RequestError(limit: int, ratio: real)
    requires Admitted(ratio) && 0 <= limit
    ensures -1.0 - Slack(limit) < RequestFor(limit, ratio) as real - ExactShare(limit, ratio) < 1.0 + Slack(limit)
  {
    hide RequestFor, Admitted, ExactShare;
    RequestSandwiched(limit, ratio);
  }

  lemma FloorNear(share: int, d: real)
    requires 0.0 <= d < 0.0001
    ensures (TenThousandths(share) + d).Floor == share / 10000
    ensures (TenThousandths(share) - d).Floor >= share / 10000 - (if share % 10000 == 0 then 1 else 0)
  {
    var q, m := share / 10000, share % 10000;
    assert share == 10000 * q + m;
    assert TenThousandths(share) == q as real + m as real / 10000.0;
  }

  /** Below 50000 units the request is the floor of the exact share, except that a share which is
      whole may lose one unit to rounding. */
  lemma RequestIsFloor(limit: int, ratio: real)
    requires Admitted(ratio) && 0 <= limit < 50000
    ensures var share := limit * Steps(ratio);
            && (share % 10000 != 0 ==> RequestFor(limit, ratio) == share / 10000)
            && (share % 10000 == 0 ==> share / 10000 - 1 <= RequestFor(limit, ratio) <= share / 10000)
  {
    hide RequestFor, Admitted, Steps;
    RequestSandwiched(limit, ratio);
    FloorNear(limit * Steps(ratio), Slack(limit));
  }

  lemma TruncateAtLeast(x: real, n: int)
    requires x >= 0.0
    ensures Truncate(x) >= n <==> x >= n as real || n <= 0
  {
  }

  lemma ProductAtLeastShare(limit: int, steps: int, ratio: real)
    requires 0 <= limit && ratio >= TenThousandths(steps)
    ensures Product(limit as real, ratio) >= TenThousandths(limit * steps)
  {
    var x, s := limit as real, steps as real;
    assert (limit * steps) as real == x * s;
    assert x * ratio - x * s / 10000.0 == x * (ratio - s / 10000.0);
  }

  lemma WholeShare(limit: int, steps: int)
    requires 0 <= limit && 0 <= steps <= 10000 && (limit * steps) % 10000 == 0
    ensures TenThousandths(limit * steps) == (limit * steps / 10000) as real
    ensures 0 <= limit * steps / 10000 <= limit
  {
    assert limit * steps <= limit * 10000;
  }

  lemma ShareOfLimit(limit: int, steps: int)
    requires 0 <= limit && 0 <= steps <= 10000
    ensures 0 <= limit * steps / 10000 <= limit
  {
    assert limit * steps <= limit * 10000;
  }

  /** What is written, for every limit a double can hold: the number up to which the exact product rounds. */
  lemma RequestIsExactly(limit: int, ratio: real, n: int)
    requires 0 <= limit <= 9007199254740992 && ratio >= 0.0 && 0 <= n < 9007199254740992
    ensures RequestFor(limit, ratio) == n <==>
            RoundsUpTo(Product(limit as real, ratio), n) && !RoundsUpTo(Product(limit as real, ratio), n + 1)
  {
    hide Fl, Product, RoundsUpTo;
    FlInteger(limit);
    var product := Product(limit as real, ratio);
    ZeroProduct(ratio);
    ProductMonotone(0.0, limit as real, ratio, ratio);
    FlNonNegative(product);
    FlReaches(product, n);
    FlReaches(product, n + 1);
    TruncateAtLeast(Fl(product), n);
    TruncateAtLeast(Fl(product), n + 1);
  }

  /** When truncation gives the floor of the exact share: if and only if the product, computed exactly, reaches
      that number within half the gap below it, and does not reach the next. */
  lemma RequestIsFloorIff(limit: int, ratio: real)
    requires Admitted(ratio) && 0 <= limit < 9007199254740992
    ensures var floor, product := limit * Steps(ratio) / 10000, Product(limit as real, ratio);
            RequestFor(limit, ratio) == floor <==> RoundsUpTo(product, floor) && !RoundsUpTo(product, floor + 1)
  {
    AdmittedNearSteps(ratio);
    hide Fl, Product, Admitted, Steps, RoundsUpTo, RequestFor;
    ShareOfLimit(limit, Steps(ratio));
    RequestIsExactly(limit, ratio, limit * Steps(ratio) / 10000);
  }

  lemma WholeShareKept(limit: int, steps: int, ratio: real)
    requires 0 <= limit < 9007199254740992 && 0 <= steps <= 10000 && ratio >= 0.0 && (limit * steps) % 10000 == 0
    requires RequestFor(limit, ratio) <= limit * steps / 10000
    ensures RequestFor(limit, ratio) == limit * steps / 10000 <==>
            RoundsUpTo(Product(limit as real, ratio), limit * steps / 10000)
    ensures ratio >= TenThousandths(steps) ==> RequestFor(limit, ratio) == limit * steps / 10000
  {
    hide Fl, Product, RoundsUpTo;
    WholeShare(limit, steps);
    var whole, product := limit * steps / 10000, Product(limit as real, ratio);
    FlInteger(limit);
    ZeroProduct(ratio);
    ProductMonotone(0.0, limit as real, ratio, ratio);
    FlNonNegative(product);
    FlReaches(product, whole);
    TruncateAtLeast(Fl(product), whole);
    if ratio >= TenThousandths(steps) {
      ProductAtLeastShare(limit, steps, ratio);
      FlInteger(whole);
      FlMonotone(whole as real, product);
    }
  }

  /** Which whole shares keep their last unit: those whose exact product is at least half way from the double
      below the share to the share. None loses it when the admitted ratio is not below its decimal. */
  lemma WholeShareExactIff(limit: int, ratio: real)
    requires Admitted(ratio) && 0 <= limit < 50000 && (limit * Steps(ratio)) % 10000 == 0
    ensures RequestFor(limit, ratio) == limit * Steps(ratio) / 10000 <==>
            RoundsUpTo(Product(limit as real, ratio), limit * Steps(ratio) / 10000)
    ensures ratio >= TenThousandths(Steps(ratio)) ==> RequestFor(limit, ratio) == limit * Steps(ratio) / 10000
  {
    hide Fl, Product, Admitted, Steps, RoundsUpTo, RequestFor;
    RequestIsFloor(limit, ratio);
    AdmittedNearSteps(ratio);
    WholeShareKept(limit, Steps(ratio), ratio);
  }

  // ---------- Ratios as users write them ----------

  lemma UnitProducts(x: real)
    ensures Product(x, 1.0) == x && Product(1.0, x) == x
  {
  }

  lemma WrittenRatioProduct(limit: int, k: int)
    requires 0 < limit <= 400000000000 && 1 <= k <= 10000
    ensures var product := Product(limit as real, Fl(TenThousandths(k)));
            && product >= 0.00001
            && -0.00009 < Fl(product) - TenThousandths(limit * k) < 0.00009
  {
    var ratio := Fl(TenThousandths(k));
    var x, product := limit as real, Product(limit as real, ratio);
    hide Fl, Product;
    NearestInRange(k);
    TenThousandthsRange(k);
    NormalRange(TenThousandths(k));
    StepsProduct(limit, k, ratio, 1.0 / 9007199254740992.0);
    ProductMonotone(1.0, x, 0.00001, ratio);
    ProductMonotone(x, x, ratio, 1.0);
    UnitProducts(x);
    NormalRange(product);
  }

  lemma WrittenRatioNearFloor(limit: int, k: int)
    requires 0 <= limit <= 400000000000 && 1 <= k <= 10000
    ensures var request, share := RequestFor(limit, Fl(TenThousandths(k))), limit * k;
            share / 10000 - (if share % 10000 == 0 then 1 else 0) <= request <= share / 10000
  {
    hide Fl, Product;
    FlInteger(limit);
    if limit == 0 {
      ZeroProduct(Fl(TenThousandths(k)));
      FlInteger(0);
      ProductByZeroSteps(k);
    } else {
      WrittenRatioProduct(limit, k);
      FloorNear(limit * k, 0.00009);
      FlNonNegative(Product(limit as real, Fl(TenThousandths(k))));
    }
  }

  /** For every ratio of four decimals and every limit up to 4e11 (400 GB in bytes): the request is the floor of
      the exact share, except that a whole share loses one unit exactly when the product falls short of the
      middle of the gap below it. */
  lemma WrittenRatioRequest(limit: int, k: int)
    requires 0 <= limit <= 400000000000 && 1 <= k <= 10000
    ensures var ratio, share := Fl(TenThousandths(k)), limit * k;
            && (share % 10000 != 0 ==> RequestFor(limit, ratio) == share / 10000)
            && (share % 10000 == 0 ==>
                  RequestFor(limit, ratio)
                  == if RoundsUpTo(Product(limit as real, ratio), share / 10000) then share / 10000
                     else share / 10000 - 1)
  {
    var ratio := Fl(TenThousandths(k));
    NearestInRange(k);
    WrittenRatioNearFloor(limit, k);
    hide Fl, Product, RoundsUpTo, RequestFor, TenThousandths;
    if (limit * k) % 10000 == 0 { WholeShareKept(limit, k, ratio); }
  }

  lemma TwentyNine()
    ensures Fl(0.29) == 5224175567749775.0 / 18014398509481984.0
    ensures Fl(Product(100.0, Fl(0.29))) == 8162774324609023.0 / 281474976710656.0
  {
    assert Pow2(-2) == 0.25 && Pow2(-1) == 0.5 && Pow2(4) == 16.0 && Pow2(5) == 32.0 by {
      assert Pow2(2) == 4.0;
    }
    Pow2Values();
    Pow2Double(-54);
    Pow2Add(-53, 4);
    Pow2Double(-49);
    hide Pow2;
    ExponentUnique(0.29, -2);
    ExponentUnique(100.0 * (5224175567749775.0 / 18014398509481984.0), 4);
  }

  /** The exception of RequestIsFloor occurs: 0.29 is admitted, and 0.29 of 100 milli-CPU is written as 28. */
  lemma WholeShareMayLoseOne()
    ensures Admitted(Fl(0.29)) && Steps(Fl(0.29)) == 2900 && RequestFor(100, Fl(0.29)) == 28
  {
    hide Fl, Admitted, Steps, Product;
    assert TenThousandths(2900) == 0.29;
    FourDecimalsAdmitted(2900);
    TwentyNine();
    FlInteger(100);
  }

  // ---------- Totals ----------

  function SumRequests(limits: seq<int>, ratio: real): int {
    if limits == [] then 0 else RequestFor(limits[0], ratio) + SumRequests(limits[1..], ratio)
  }

  function SumShares(limits: seq<int>, ratio: real): real {
    if limits == [] then 0.0 else ExactShare(limits[0], ratio) + SumShares(limits[1..], ratio)
  }

  function SumLimits(limits: seq<int>): int {
    if limits == [] then 0 else limits[0] + SumLimits(limits[1..])
  }

  /** Over the containers of a pod the errors add up to less than one unit each plus 2e-9 of the total. */
  lemma {:induction false} TotalError(limits: seq<int>, ratio: real)
    requires Admitted(ratio) && limits != []
    requires forall i :: 0 <= i < |limits| ==> 0 <= limits[i]
    ensures -(|limits| as real) - Slack(SumLimits(limits))
            < SumRequests(limits, ratio) as real - SumShares(limits, ratio)
            < |limits| as real + Slack(SumLimits(limits))
  {
    hide RequestFor, ExactShare, Admitted;
    RequestError(limits[0], ratio);
    if |limits| > 1 { TotalError(limits[1..], ratio); }
  }

  // ---------- Annotation text ----------

  function FormatUnsigned(ratio: real): string
    requires ratio >= 0.0
  {
    var m: nat := NearestEven(10000.0 * ratio);
    Decimal(m / 10000, 1) + "." + Decimal(m % 10000, 4)
  }

  /** fmt.Sprintf("%.4f", ratio): the exact value of the double, rounded to four decimals. */
  function FormatRatio(ratio: real): string {
    if ratio < 0.0 then "-" + FormatUnsigned(-ratio) else FormatUnsigned(ratio)
  }

  function DecimalFraction(whole: nat, fraction: nat, width: nat): real {
    whole as real + fraction as real / Power10(width) as real
  }

  /** The number a decimal fraction stands for. */
  function ParseFraction(s: string): Option<real> {
    var parts := Split(s, '.');
    if |parts| == 2 && AllDigits(parts[0]) && AllDigits(parts[1]) then
      Some(DecimalFraction(Numeral(parts[0]), Numeral(parts[1]), |parts[1]|))
    else None
  }

  lemma DotIsNoDigit(s: string)
    requires AllDigits(s)
    ensures '.' !in s
  {
  }

  lemma NearestSteps(ratio: real, m: nat)
    requires -0.0000000016 <= ratio - TenThousandths(m) <= 0.0000000016
    ensures NearestEven(10000.0 * ratio) == m
  {
  }

  lemma FourDigits(n: nat)
    requires n < 10000
    ensures |Decimal(n, 4)| == 4
  {
    assert Power10(2) == 100;
    DecimalWidth(n, 4, 10000);
  }

  lemma FourDigitFraction(m: nat)
    ensures DecimalFraction(m / 10000, m % 10000, 4) == TenThousandths(m)
  {
    assert Power10(2) == 100;
    assert Power10(4) == 10000;
  }

  lemma ParseTwoParts(a: string, b: string)
    requires AllDigits(a) && AllDigits(b)
    ensures ParseFraction(a + "." + b) == Some(DecimalFraction(Numeral(a), Numeral(b), |b|))
  {
    hide Split, Numeral, DecimalFraction;
    DotIsNoDigit(a);
    DotIsNoDigit(b);
    SplitAtFirst(a, '.', b);
    SplitWithout(b, '.');
  }

  /** The annotation of an admitted ratio reads back as the ten-thousandths the validator rounded it to. */
  lemma FormatRoundTrip(ratio: real)
    requires Admitted(ratio)
    ensures ParseFraction(FormatRatio(ratio)) == Some(TenThousandths(Steps(ratio)))
  {
    AdmittedNearSteps(ratio);
    hide Admitted, Steps, ParseFraction, Decimal, Numeral, Power10, DecimalFraction;
    var m := Steps(ratio);
    NearestSteps(ratio, m);
    NumeralDecimal(m / 10000, 1);
    NumeralDecimal(m % 10000, 4);
    FourDigits(m % 10000);
    FourDigitFraction(m);
    ParseTwoParts(Decimal(m / 10000, 1), Decimal(m % 10000, 4));
  }

  lemma OneDigit(n: nat)
    requires n < 10
    ensures Decimal(n, 1) == ["0123456789"[n]]
  {
    assert Decimal(n / 10, 0) == "";
  }

  lemma FourDigitText(n: nat)
    requires n < 10000
    ensures Decimal(n, 4)
            == ["0123456789"[n / 1000], "0123456789"[n / 100 % 10], "0123456789"[n / 10 % 10], "0123456789"[n % 10]]
  {
    OneDigit(n / 1000);
    assert n / 10 / 10 / 10 == n / 1000 && n / 10 / 10 == n / 100;
    assert Decimal(n / 100, 2) == Decimal(n / 1000, 1) + ["0123456789"[n / 100 % 10]];
    assert Decimal(n / 10, 3) == Decimal(n / 100, 2) + ["0123456789"[n / 10 % 10]];
    assert Decimal(n, 4) == Decimal(n / 10, 3) + ["0123456789"[n % 10]];
  }

  lemma DigitsOfRemainder(k: nat)
    requires k <= 10000
    ensures k / 10000 < 10 && k % 10000 / 1000 == k / 1000 % 10 && k % 10000 / 100 % 10 == k / 100 % 10
    ensures k % 10000 / 10 % 10 == k / 10 % 10 && k % 10000 % 10 == k % 10
  {
  }

  lemma FormatOfSteps(ratio: real, k: nat)
    requires ratio >= 0.0 && -0.0000000016 <= ratio - TenThousandths(k) <= 0.0000000016
    ensures FormatRatio(ratio) == Decimal(k / 10000, 1) + "." + Decimal(k % 10000, 4)
  {
    NearestSteps(ratio, k);
    hide Decimal;
  }

  lemma AroundPoint(a: char, b: char, c: char, d: char, e: char)
    ensures [a] + "." + [b, c, d, e] == [a, '.', b, c, d, e]
  {
  }

  /** Character by character: one digit, a point and the four decimals. */
  lemma FormatDigits(ratio: real)
    requires Admitted(ratio)
    ensures 1 <= Steps(ratio) <= 10000
    ensures var k := Steps(ratio);
            FormatRatio(ratio)
            == ["0123456789"[k / 10000], '.', "0123456789"[k / 1000 % 10], "0123456789"[k / 100 % 10],
                "0123456789"[k / 10 % 10], "0123456789"[k % 10]]
  {
    AdmittedNearSteps(ratio);
    var k := Steps(ratio);
    assert ratio > 0.0;
    hide *;
    FormatOfSteps(ratio, k);
    DigitsOfRemainder(k);
    OneDigit(k / 10000);
    FourDigitText(k % 10000);
    AroundPoint("0123456789"[k / 10000], "0123456789"[k / 1000 % 10], "0123456789"[k / 100 % 10],
                "0123456789"[k / 10 % 10], "0123456789"[k % 10]);
  }

  /** Two admitted ratios with the same annotation differ by no more than the validator's slack. */
  lemma FormatInjective(ratio: real, ratio': real)
    requires Admitted(ratio) && Admitted(ratio') && FormatRatio(ratio) == FormatRatio(ratio')
    ensures Steps(ratio) == Steps(ratio') && -0.000000004 < ratio - ratio' < 0.000000004
  {
    AdmittedNearSteps(ratio);
    AdmittedNearSteps(ratio');
    FormatRoundTrip(ratio);
    FormatRoundTrip(ratio');
    hide Admitted, Steps, FormatRatio;
  }
}
