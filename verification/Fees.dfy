/**
 * The gateway fee: the panel's figure (lib/server/fees.ts) and the deposit contract's own
 * (lib/server/chain/gateway-contract.ts, contracts/AfaGateway.sol), and how far they can part.
 */
module Fees {
  import opened Wrappers
  import opened Money

  datatype FeeSide = Credit | Debit

  datatype FeeBreakdown = FeeBreakdown(gross: real, fee: real, net: real)

  datatype FeeSettings = FeeSettings(feeBasePercent: real, feeMin: real, feeMax: real) {
    predicate NonNegative() {
      feeBasePercent >= 0.0 && feeMin >= 0.0 && feeMax >= 0.0
    }
  }

  function Min(a: real, b: real): real { if a <= b then a else b }

  function Max(a: real, b: real): real { if a >= b then a else b }

  /** The percentage between its floor and its ceiling; a ceiling of zero means there is none. */
  function BoundedFee(gross: real, s: FeeSettings): real {
    var withFloor := Max(Times(gross, s.feeBasePercent) / 100.0, s.feeMin);
    if s.feeMax > 0.0 then Min(withFloor, s.feeMax) else withFloor
  }

  function SplitFee(gross: real, s: FeeSettings, side: FeeSide): FeeBreakdown {
    if gross <= 0.0 then FeeBreakdown(0.0, 0.0, 0.0)
    else
      var bounded := BoundedFee(gross, s);
      var fee := if side == Credit then Min(bounded, gross) else bounded;
      FeeBreakdown(gross, fee, if side == Credit then gross - fee else gross + fee)
  }

  /** The live settings row, or the defaults where there is none. */
  function FeeFor(gross: real, s: Option<FeeSettings>, side: FeeSide): FeeBreakdown {
    SplitFee(gross, s.GetOr(FeeSettings(2.0, 0.0, 0.0)), side)
  }

  /**
   * On a credit the merchant never pays more than arrived and nothing goes missing; the fee obeys
   * its ceiling always, and its floor unless the payment or the ceiling is smaller.
   */
  lemma CreditShape(gross: real, s: FeeSettings)
    requires s.NonNegative()
    ensures var r := SplitFee(gross, s, Credit);
            && 0.0 <= r.fee <= r.gross
            && r.fee + r.net == r.gross == Max(gross, 0.0)
            && (s.feeMax > 0.0 ==> r.fee <= s.feeMax)
            && (r.fee < s.feeMin ==> r.fee == r.gross || r.fee == s.feeMax)
  {
    if gross > 0.0 {
      TimesRises(0.0, gross, s.feeBasePercent);
    }
  }

  /**
   * The fee told apart from how it is computed: it is within every bound there is, and one of the
   * figures it can be. A credit cannot be charged more than the payment; a debit has no such bound.
   */
  predicate IsFee(fee: real, gross: real, s: FeeSettings, side: FeeSide) {
    var percentage := Times(gross, s.feeBasePercent) / 100.0;
    && (fee <= percentage || fee <= s.feeMin)
    && (s.feeMax > 0.0 ==> fee <= s.feeMax)
    && (side == Credit ==> fee <= gross)
    && (|| (side == Credit && fee == gross)
        || (s.feeMax > 0.0 && fee == s.feeMax)
        || (fee >= percentage && fee >= s.feeMin))
  }

  /** Exactly one figure is the fee, and it comes off a credit and goes on top of a debit. */
  lemma SplitFeeIsTheFee(gross: real, s: FeeSettings, side: FeeSide, fee: real)
    ensures gross > 0.0 ==> (IsFee(fee, gross, s, side) <==> fee == SplitFee(gross, s, side).fee)
    ensures gross > 0.0 ==> SplitFee(gross, s, side).gross == gross
    ensures gross > 0.0 && side == Credit ==> SplitFee(gross, s, side).net == gross - SplitFee(gross, s, side).fee
    ensures gross > 0.0 && side == Debit ==> SplitFee(gross, s, side).net == gross + SplitFee(gross, s, side).fee
    ensures gross <= 0.0 ==> SplitFee(gross, s, side) == FeeBreakdown(0.0, 0.0, 0.0)
  {
  }

  /** A larger payment is never charged less, on either side. */
  lemma FeeIsMonotone(g1: real, g2: real, s: FeeSettings, side: FeeSide)
    requires g1 <= g2 && s.NonNegative()
    ensures SplitFee(g1, s, side).fee <= SplitFee(g2, s, side).fee
  {
    TimesRises(g1, g2, s.feeBasePercent);
    if g2 > 0.0 {
      TimesRises(0.0, g2, s.feeBasePercent);
    }
  }

  /** A larger payment never credits the merchant less, across floor, percentage, ceiling and clamp. */
  lemma CreditIsMonotone(g1: real, g2: real, s: FeeSettings)
    requires g1 <= g2 && s.NonNegative()
    ensures SplitFee(g1, s, Credit).net <= SplitFee(g2, s, Credit).net
  {
    CreditShape(g2, s);
    if g1 > 0.0 {
      TimesRises(g1, g2, s.feeBasePercent);
      if s.feeBasePercent <= 100.0 {
        TimesSlope(g1, g2, s.feeBasePercent);
      } else {
        // Above a hundred percent the clamp keeps everything until the ceiling takes over.
        TimesSlope(0.0, g1, s.feeBasePercent);
      }
    }
  }

  // ---------------------------------------------------------------- the contract's own split

  /** The figures of the terms a deposit address commits to, in the token's smallest unit. */
  datatype Terms = Terms(feeBps: nat, freezoneBps: nat, feeMin: nat, feeMax: nat) {
    /** What the factory enforces before it will quote terms. */
    predicate Quotable() {
      feeBps <= 10_000 && freezoneBps <= 10_000 && (feeMax == 0 || feeMax >= feeMin)
    }
  }

  datatype Split = Split(fee: int, gateway: int, freezone: int, beneficiary: int)

  function ContractFee(t: Terms, total: nat): int {
    var percentage := total * t.feeBps / 10_000;
    var withFloor := if percentage < t.feeMin then t.feeMin else percentage;
    var withCeiling := if t.feeMax > 0 && withFloor > t.feeMax then t.feeMax else withFloor;
    if withCeiling > total then total else withCeiling
  }

  function PreviewSplit(t: Terms, total: nat): Split {
    var fee := ContractFee(t, total);
    var freezone := fee * t.freezoneBps / 10_000;
    Split(fee, fee - freezone, freezone, total - fee)
  }

  /** A release pays out everything that was there, in three non-negative parts. */
  lemma ContractSplitAddsUp(t: Terms, total: nat)
    requires t.Quotable()
    ensures var s := PreviewSplit(t, total);
            && s.gateway + s.freezone == s.fee
            && s.gateway + s.freezone + s.beneficiary == total
            && 0 <= s.gateway && 0 <= s.freezone && 0 <= s.beneficiary
  {
    NatProduct(total, t.feeBps);
    var fee := ContractFee(t, total);
    NatProduct(fee, t.freezoneBps);
    NatProduct(fee, 10_000 - t.freezoneBps);
    ShareOfFee(fee, t.freezoneBps, fee * t.freezoneBps);
  }

  /** The organization's part is its basis points of the fee, rounded down to the smallest unit. */
  lemma ContractShareRoundsDown(t: Terms, total: nat)
    ensures var s := PreviewSplit(t, total);
            10_000 * s.freezone <= s.fee * t.freezoneBps < 10_000 * (s.freezone + 1)
  {
    QuotientRoundsDown(ContractFee(t, total) * t.freezoneBps);
  }

  lemma QuotientRoundsDown(product: int)
    ensures 10_000 * (product / 10_000) <= product < 10_000 * (product / 10_000 + 1)
  {
  }

  lemma NatProduct(a: nat, b: nat)
    ensures a * b >= 0
  {
  }

  lemma ShareOfFee(fee: nat, bps: nat, product: int)
    requires bps <= 10_000 && product == fee * bps
    ensures 0 <= product / 10_000 <= fee
  {
    assert fee * (10_000 - bps) == 10_000 * fee - product;
  }

  /** One part of a figure taken in basis points, rounded down, grows with it and never faster. */
  lemma FloorShareGrows(x: nat, y: nat, bps: nat)
    requires x <= y && bps <= 10_000
    ensures 0 <= y * bps / 10_000 - x * bps / 10_000 <= y - x
  {
    NatProduct(y - x, bps);
    NatProduct(y - x, 10_000 - bps);
    QuotientsApart(x * bps, y * bps, y - x);
  }

  lemma QuotientsApart(a: nat, b: nat, d: nat)
    requires a <= b <= a + 10_000 * d
    ensures 0 <= b / 10_000 - a / 10_000 <= d
  {
  }

  /** The more a deposit holds, the more each of the three parties gets from its release. */
  lemma ContractSplitGrows(t: Terms, total: nat, more: nat)
    requires t.Quotable() && total <= more
    ensures var a, b := PreviewSplit(t, total), PreviewSplit(t, more);
            a.fee <= b.fee && a.gateway <= b.gateway && a.freezone <= b.freezone && a.beneficiary <= b.beneficiary
  {
    NatProduct(total, t.feeBps);
    NatProduct(more, t.feeBps);
    FloorShareGrows(total, more, t.feeBps);
    var fee, higher := ContractFee(t, total), ContractFee(t, more);
    assert 0 <= fee <= higher && higher - fee <= more - total;
    FloorShareGrows(fee, higher, t.freezoneBps);
  }

  /** The same terms as the settings row states them: percent, and whole tokens. */
  function PanelSettings(t: Terms, scale: nat): FeeSettings
    requires scale > 0
  {
    FeeSettings(t.feeBps as real / 100.0, t.feeMin as real / scale as real, t.feeMax as real / scale as real)
  }

  /**
   * The panel's figure and the contract's agree: the contract takes exactly the panel's fee rounded
   * down to the token's smallest unit, for every amount, every terms and every number of decimals.
   */
  lemma PanelAgreesWithContract(t: Terms, total: nat, scale: nat)
    requires scale > 0
    ensures var panel := SplitFee(total as real / scale as real, PanelSettings(t, scale), Credit);
            ContractFee(t, total) == Times(panel.fee, scale as real).Floor
  {
    var k := scale as real;
    var g := total as real / k;
    var s := PanelSettings(t, scale);
    Cancel(total as real, k);
    Cancel(t.feeMin as real, k);
    Cancel(t.feeMax as real, k);
    if total == 0 {
      assert ContractFee(t, 0) == 0;
    } else {
      assert g > 0.0 by { Positive(total as real, k); }
      var percentage := Times(g, s.feeBasePercent) / 100.0;
      PercentageInUnits(t, total, scale);
      ScaledOrder(percentage, s.feeMin, k);
      var withFloor := Max(percentage, s.feeMin);
      ScaledOrder(withFloor, s.feeMax, k);
      Positive(t.feeMax as real, k);
      ScaledOrder(BoundedFee(g, s), g, k);
    }
  }

  lemma Cancel(x: real, k: real)
    requires k > 0.0
    ensures Times(x / k, k) == x
  {
  }

  lemma Positive(x: real, k: real)
    requires k > 0.0
    ensures x / k > 0.0 <==> x > 0.0
  {
    assert x / k * k == x;
  }

  lemma ScaledOrder(a: real, b: real, k: real)
    requires k > 0.0
    ensures a <= b <==> Times(a, k) <= Times(b, k)
  {
    assert (b - a) * k == b * k - a * k;
  }

  lemma PercentageInUnits(t: Terms, total: nat, scale: nat)
    requires scale > 0
    ensures var k := scale as real;
            var units := Times(Times(total as real / k, t.feeBps as real / 100.0) / 100.0, k);
            && units == (total * t.feeBps) as real / 10000.0
            && units.Floor == total * t.feeBps / 10_000
  {
    var k, n, b := scale as real, total as real, t.feeBps as real;
    calc {
      Times(Times(n / k, b / 100.0) / 100.0, k);
      (n / k) * (b / 100.0) / 100.0 * k;
      { Regroup(n / k, b, k); }
      (n / k * k) * b / 10000.0;
      { Cancel(n, k); }
      n * b / 10000.0;
      { assert n * b == (total * t.feeBps) as real; }
      (total * t.feeBps) as real / 10000.0;
    }
    FloorOfQuotient(total * t.feeBps);
  }

  lemma Regroup(x: real, b: real, k: real)
    ensures x * (b / 100.0) / 100.0 * k == (x * k) * b / 10000.0
  {
    assert x * (b / 100.0) == x * b / 100.0;
    assert x * b * k == x * k * b;
  }

  lemma FloorOfQuotient(m: nat)
    ensures (m as real / 10000.0).Floor == m / 10_000
  {
  }
}
