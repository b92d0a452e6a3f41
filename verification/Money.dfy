/**
 * Money arithmetic with its explicit roundings (lib/server/ledger.ts, money.ts, rates.ts).
 * Amounts are exact reals; the only inexact operations are the roundings written here.
 */
module Money {
  import opened Wrappers

  /** One unit in the eighth decimal place. */
  const UNIT8: real := 0.00000001

  /** Nearest integer, a tie going away from zero. */
  function Round(x: real): int {
    if x >= 0.0 then (x + 0.5).Floor else -(0.5 - x).Floor
  }

  /** Integer part: truncation toward zero. */
  function Truncate(x: real): int {
    if x >= 0.0 then x.Floor else -(-x).Floor
  }

  /** `toFixed(8)` and `toFixed(2)`: rounded half away from zero. */
  function Fixed8(x: real): real { Round(x * 100000000.0) as real / 100000000.0 }

  function Fixed2(x: real): real { Round(x * 100.0) as real / 100.0 }

  /** An exact product, named so that proofs can treat it as one figure. */
  function Times(a: real, b: real): real { a * b }

  lemma TimesRises(a: real, b: real, p: real)
    requires a <= b && p >= 0.0
    ensures Times(a, p) <= Times(b, p)
  {
    assert (b - a) * p == b * p - a * p;
  }

  lemma TimesSlope(a: real, b: real, p: real)
    requires a <= b
    ensures p <= 100.0 ==> Times(b, p) - Times(a, p) <= 100.0 * (b - a)
    ensures p >= 100.0 ==> Times(b, p) - Times(a, p) >= 100.0 * (b - a)
  {
    assert (b - a) * (100.0 - p) == 100.0 * (b - a) - (Times(b, p) - Times(a, p));
    if p <= 100.0 {
      NonNegativeProduct(b - a, 100.0 - p);
    } else {
      NonNegativeProduct(b - a, p - 100.0);
      assert (b - a) * (p - 100.0) == -((b - a) * (100.0 - p));
    }
  }

  lemma NonNegativeProduct(x: real, y: real)
    requires x >= 0.0 && y >= 0.0
    ensures x * y >= 0.0
  {
  }

  ghost predicate EightPlaces(x: real) {
    x * 100000000.0 == (x * 100000000.0).Floor as real
  }

  ghost predicate TwoPlaces(x: real) {
    x * 100.0 == (x * 100.0).Floor as real
  }

  lemma RoundIsNearest(x: real)
    ensures -0.5 <= Round(x) as real - x <= 0.5
    ensures Round(-x) == -Round(x)
  {
  }

  /** Rounding to eight places moves a figure by at most half a unit, and is odd. */
  lemma Fixed8Near(x: real)
    ensures -0.5 * UNIT8 <= Fixed8(x) - x <= 0.5 * UNIT8
    ensures Fixed8(-x) == -Fixed8(x)
  {
    RoundIsNearest(x * 100000000.0);
    assert (-x) * 100000000.0 == -(x * 100000000.0);
  }

  /** And what it gives is written with eight places. */
  lemma Fixed8HasEightPlaces(x: real)
    ensures EightPlaces(Fixed8(x))
  {
    assert Fixed8(x) * 100000000.0 == Round(x * 100000000.0) as real;
  }

  lemma Fixed2HasTwoPlaces(x: real)
    ensures TwoPlaces(Fixed2(x))
  {
    assert Fixed2(x) * 100.0 == Round(x * 100.0) as real;
  }

  lemma Fixed2Near(x: real)
    ensures -0.005 <= Fixed2(x) - x <= 0.005
    ensures Fixed2(-x) == -Fixed2(x)
  {
    RoundIsNearest(x * 100.0);
    assert (-x) * 100.0 == -(x * 100.0);
  }

  // ---------------------------------------------------------------- the gateway fee's two shares

  datatype Shares = Shares(gateway: real, freezone: real)

  function SplitGatewayFee(fee: real, percent: real): Shares {
    var freezone := Truncate(Times(fee, percent) / 100.0 * 100000000.0) as real / 100000000.0;
    Shares(fee - freezone, freezone)
  }

  /**
   * The two shares add back exactly, neither is negative, and the organization gets its exact
   * share rounded down: never more than the rule allows, and short of it by less than one unit.
   */
  lemma SplitGatewayFeeShape(fee: real, percent: real)
    requires fee >= 0.0 && 0.0 <= percent <= 100.0
    ensures var s := SplitGatewayFee(fee, percent);
            && s.gateway + s.freezone == fee
            && 0.0 <= s.freezone <= fee
            && 0.0 <= s.gateway
            && EightPlaces(s.freezone)
            && 0.0 <= Times(fee, percent) / 100.0 - s.freezone < UNIT8
  {
    var exact := Times(fee, percent) / 100.0;
    TimesRises(0.0, fee, percent);
    TimesSlope(0.0, fee, percent);
    var n := (exact * 100000000.0).Floor;
    assert SplitGatewayFee(fee, percent).freezone == n as real / 100000000.0;
  }

  // ---------------------------------------------------------------- rial, spread and tolerance

  function ToRial(rate: real, amount: real): real { Fixed2(Times(rate, amount)) }

  datatype Side = Sell | Buy

  function BankSpread(side: Side, lockedRate: real, referenceRate: real, tokenAmount: real): real {
    Fixed2(Times(MarginPerToken(side, lockedRate, referenceRate), tokenAmount))
  }

  function MarginPerToken(side: Side, lockedRate: real, referenceRate: real): real {
    if side == Sell then lockedRate - referenceRate else referenceRate - lockedRate
  }

  function Abs(x: real): real { if x >= 0.0 then x else -x }

  /** The two settings columns the tolerance guard reads. */
  datatype RateSettings = RateSettings(reference: real, tolerancePercent: real) {
    /** How far from the reference the tolerance reaches. */
    function MaxDistance(): real { Times(reference, tolerancePercent) / 100.0 }
  }

  function AssertRateWithinTolerance(rate: real, settings: Option<RateSettings>): Result<()> {
    match settings
    case None => Ok(())
    case Some(s) =>
      if !(s.reference > 0.0) || !(s.tolerancePercent > 0.0) then Ok(())
      else if Abs(rate - s.reference) / s.reference * 100.0 <= s.tolerancePercent then Ok(())
      else Err(BadRequest)
  }

  /** A rial figure is the product rounded to the nearest hundredth. */
  lemma RialIsNearest(rate: real, amount: real)
    ensures TwoPlaces(ToRial(rate, amount)) && Abs(ToRial(rate, amount) - Times(rate, amount)) <= 0.005
  {
    Fixed2Near(Times(rate, amount));
    Fixed2HasTwoPlaces(Times(rate, amount));
  }

  /**
   * The bank's margin is one figure with a sign: selling and buying are exact opposites, and it
   * agrees with the difference of the two rial figures to within one hundredth.
   */
  lemma SpreadAgreesWithRial(locked: real, reference: real, amount: real)
    ensures BankSpread(Sell, locked, reference, amount) == -BankSpread(Buy, locked, reference, amount)
    ensures Abs(BankSpread(Sell, locked, reference, amount) - (ToRial(locked, amount) - ToRial(reference, amount))) <= 0.01
  {
    MarginTimesAmount(locked, reference, amount);
    Fixed2OfOpposites(Times(MarginPerToken(Sell, locked, reference), amount),
                      Times(MarginPerToken(Buy, locked, reference), amount),
                      Times(locked, amount), Times(reference, amount));
  }

  lemma MarginTimesAmount(locked: real, reference: real, amount: real)
    ensures Times(MarginPerToken(Sell, locked, reference), amount) == Times(locked, amount) - Times(reference, amount)
    ensures Times(MarginPerToken(Buy, locked, reference), amount) == Times(reference, amount) - Times(locked, amount)
  {
  }

  lemma Fixed2OfOpposites(sell: real, buy: real, x: real, y: real)
    requires sell == x - y && buy == y - x
    ensures Fixed2(sell) == -Fixed2(buy)
    ensures Abs(Fixed2(sell) - (Fixed2(x) - Fixed2(y))) <= 0.01
  {
    Fixed2Near(sell);
    Fixed2OfDifference(x, y);
  }

  /** Rounding a difference, or differencing two roundings: at most one hundredth apart. */
  lemma Fixed2OfDifference(x: real, y: real)
    ensures Abs(Fixed2(x - y) - (Fixed2(x) - Fixed2(y))) <= 0.01
  {
    RoundIsNearest(x * 100.0);
    RoundIsNearest(y * 100.0);
    RoundIsNearest((x - y) * 100.0);
    var off := Round((x - y) * 100.0) - (Round(x * 100.0) - Round(y * 100.0));
    assert -1.5 <= off as real <= 1.5;
    assert -1 <= off <= 1;
  }

  /**
   * A rate the guard lets through cannot give the bank, or cost it, more than the tolerance on the
   * whole amount (plus the final rounding), on either side of the exchange.
   */
  lemma AcceptedRateBoundsSpread(side: Side, rate: real, s: RateSettings, amount: real)
    requires s.reference > 0.0 && s.tolerancePercent > 0.0 && amount >= 0.0
    requires AssertRateWithinTolerance(rate, Some(s)).Ok?
    ensures Abs(BankSpread(side, rate, s.reference, amount)) <= Times(s.MaxDistance(), amount) + 0.005
  {
    ToleranceMeansDistance(rate, s);
    MarginWithin(MarginPerToken(side, rate, s.reference), s.MaxDistance(), amount);
  }

  lemma MarginWithin(perToken: real, bound: real, amount: real)
    requires -bound <= perToken <= bound && amount >= 0.0
    ensures Abs(Fixed2(Times(perToken, amount))) <= Times(bound, amount) + 0.005
  {
    TimesRises(perToken, bound, amount);
    TimesRises(-bound, perToken, amount);
    assert Times(-bound, amount) == -Times(bound, amount);
    Fixed2Near(Times(perToken, amount));
  }

  /** The guard accepts exactly the rates no further from the reference than the tolerance. */
  lemma ToleranceMeansDistance(rate: real, s: RateSettings)
    requires s.reference > 0.0 && s.tolerancePercent > 0.0
    ensures AssertRateWithinTolerance(rate, Some(s)).Ok?
       <==> Abs(rate - s.reference) <= s.MaxDistance()
  {
    var d, r, t := Abs(rate - s.reference), s.reference, s.tolerancePercent;
    assert Times(d / r, r) == d;
    if d / r * 100.0 <= t {
      TimesRises(d / r, t / 100.0, r);
    } else {
      assert (d / r - t / 100.0) * r > 0.0;
      assert (d / r - t / 100.0) * r == d / r * r - t / 100.0 * r;
    }
    assert Times(t / 100.0, r) == Times(r, t) / 100.0;
  }

  /** And so in all: any rate where there is no row, reference or tolerance to hold it to, else those. */
  lemma AcceptedRates(rate: real, settings: Option<RateSettings>)
    ensures AssertRateWithinTolerance(rate, settings).Ok?
       <==> settings.None? || settings.value.reference <= 0.0 || settings.value.tolerancePercent <= 0.0
            || Abs(rate - settings.value.reference) <= settings.value.MaxDistance()
  {
    if settings.Some? && settings.value.reference > 0.0 && settings.value.tolerancePercent > 0.0 {
      ToleranceMeansDistance(rate, settings.value);
    }
  }

  // ---------------------------------------------------------------- rounding fee and net apart

  /**
   * A settlement stores its fee and its net each rounded to eight places. Together they stay
   * within one unit of the amount.
   */
  lemma RoundingDriftBound(fee: real, net: real)
    ensures -UNIT8 <= Fixed8(fee) + Fixed8(net) - (fee + net) <= UNIT8
  {
    Fixed8Near(fee);
    Fixed8Near(net);
  }

  /** The fee sits exactly halfway between two representable figures. */
  predicate OnHalfUnit(x: real) {
    var u := x * 100000000.0;
    u - u.Floor as real == 0.5
  }

  /**
   * For an amount that itself has at most eight places the drift is zero unless the fee is exactly
   * on a half unit; then both parts round up and the books gain exactly one unit.
   */
  lemma RoundingDriftExact(amount: real, fee: real)
    requires EightPlaces(amount) && 0.0 <= fee <= amount
    ensures Fixed8(fee) + Fixed8(amount - fee) == amount + (if OnHalfUnit(fee) then UNIT8 else 0.0)
  {
    var n := (amount * 100000000.0).Floor;
    var u := fee * 100000000.0;
    var v := (amount - fee) * 100000000.0;
    assert v == n as real - u;
    var lo := u.Floor;
    var part := u - lo as real;
    if part < 0.5 {
      assert Round(u) == lo && Round(v) == n - lo;
    } else if part > 0.5 {
      assert Round(u) == lo + 1 && Round(v) == n - lo - 1;
    } else {
      assert Round(u) == lo + 1 && Round(v) == n - lo;
    }
  }
}
