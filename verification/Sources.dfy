/**
 * Where the books' figures come from. The callers do not pass arbitrary numbers: a payment and its
 * release are split by the deposit contract's terms, a direct settlement by the panel's fee, a
 * refund reads its invoice back. With that, the identities need no assumption about figures.
 */
module Sources {
  import opened Wrappers
  import opened Money
  import opened Fees
  import opened Books
  import opened BooksIdentities
  import opened BooksReplay
  import opened Journeys
  import opened Deposits
  import S = Settlements
  import Refs

  /** An invoice as the watcher or the payment route books it: `total` units under these terms. */
  datatype Payment = Payment(
    id: Id, ref: string, ownerId: Id, currency: Currency, direction: Direction, terms: Terms, total: nat, scale: nat)
  {
    predicate Valid() { terms.Quotable() && scale > 0 }
  }

  datatype Origin =
    | Paid(payment: Payment)
    | ReleasedUnder(id: Id, deposit: Deposit, terms: Terms, total: nat, scale: nat)
    | FundedBy(id: Id, c: Refs.Counters, user: S.Merchant, input: S.Input, settings: Option<S.Settings>, now: int)
    | SettledBy(id: Id, row: S.Settlement, spreadRial: Option<real>)
    | RefundedFor(id: Id, ref: string, payment: Payment)

  predicate Genuine(o: Origin) {
    match o
    case Paid(p) => p.Valid()
    case ReleasedUnder(_, _, terms, _, scale) => terms.Quotable() && scale > 0
    case FundedBy(_, _, _, input, _, _) => input.amount > 0.0
    case SettledBy(_, _, _) => true
    case RefundedFor(_, _, p) => p.Valid()
  }

  /** The panel's fee on a direct settlement, before it is stored to eight places. */
  function RequestFee(input: S.Input, settings: Option<S.Settings>): FeeBreakdown {
    FeeFor(input.amount, if settings.Some? then Some(settings.value.fees) else None, Credit)
  }

  /** `splitForAmount`, in whole tokens. */
  function PaidEvent(p: Payment): Event
    requires p.Valid()
  {
    ContractSplitAddsUp(p.terms, p.total);
    var s := PreviewSplit(p.terms, p.total);
    InvoicePaid(p.id, p.ref, p.ownerId, p.currency, Some(p.direction), ToHuman(p.total, p.scale),
                ToHuman(s.fee, p.scale), ToHuman(s.beneficiary, p.scale),
                Some(Shares(ToHuman(s.gateway, p.scale), ToHuman(s.freezone, p.scale))))
  }

  function ReleasedFigures(terms: Terms, total: nat): Figures
    requires terms.Quotable()
  {
    ContractSplitAddsUp(terms, total);
    var s := PreviewSplit(terms, total);
    Figures(total, s.gateway, s.freezone, s.beneficiary)
  }

  function EventOf(o: Origin): Event
    requires Genuine(o)
  {
    match o
    case Paid(p) => PaidEvent(p)
    case ReleasedUnder(id, d, terms, total, scale) => ReleaseEvent(id, d, ReleasedFigures(terms, total), scale)
    case FundedBy(id, c, user, input, settings, now) =>
      var r := S.RequestRow(c, user, input, settings, now);
      SettlementFunded(id, r.ref, r.ownerId, r.currency, r.amount, r.feeAmount, r.netAmount)
    case SettledBy(id, r, spread) => SettlementSettled(id, r.ref, r.ownerId, r.currency, r.netAmount, spread)
    case RefundedFor(id, ref, p) =>
      var e := PaidEvent(p);
      RefundSent(id, ref, p.currency, e.receivedAmount, Some(RefundedInvoice(p.ownerId, Some(e.feeAmount), Some(e.netAmount))))
  }

  lemma QuotientsAdd(a: nat, b: nat, scale: nat)
    requires scale > 0
    ensures ToHuman(a + b, scale) == ToHuman(a, scale) + ToHuman(b, scale)
  {
    var x, y, k := a as real, b as real, scale as real;
    assert (a + b) as real == x + y;
    assert (x + y) / k == x / k + y / k;
  }

  lemma PaidEventAddsUp(p: Payment)
    requires p.Valid()
    ensures var e := PaidEvent(p);
            e.receivedAmount == e.netAmount + e.feeAmount && e.share.value.gateway + e.share.value.freezone == e.feeAmount
  {
    var s := PreviewSplit(p.terms, p.total);
    ContractSplitAddsUp(p.terms, p.total);
    QuotientsAdd(s.beneficiary, s.fee, p.scale);
    QuotientsAdd(s.gateway, s.freezone, p.scale);
  }

  /** Figures the callers really produce add up, or are a direct settlement within one unit. */
  lemma GenuineNearlyAddsUp(o: Origin)
    requires Genuine(o)
    ensures NearlyAddsUp(EventOf(o))
  {
    match o
    case Paid(p) => PaidEventAddsUp(p);
    case ReleasedUnder(id, d, terms, total, scale) =>
      ContractSplitAddsUp(terms, total);
      HumanFiguresAddUp(id, d, ReleasedFigures(terms, total), scale);
    case FundedBy(_, _, _, input, settings, _) =>
      var fee := RequestFee(input, settings);
      RoundingDriftBound(fee.fee, fee.net);
    case SettledBy(_, _, _) =>
    case RefundedFor(_, _, p) => PaidEventAddsUp(p);
  }

  function Bookings(origins: seq<(Origin, real)>): seq<Booking>
    requires forall i :: 0 <= i < |origins| ==> Genuine(origins[i].0)
  {
    seq(|origins|, i requires 0 <= i < |origins| => Booking(EventOf(origins[i].0), origins[i].1))
  }

  /**
   * The books balance, with nothing assumed of the figures: after any run of payments, releases,
   * direct settlements, payouts and refunds the system can produce, in any order and with retries,
   * what is held equals what is claimed plus imports' principal, to within one unit in the eighth
   * place for each direct settlement of that token funded.
   */
  lemma BooksBalance(origins: seq<(Origin, real)>, u: Unit)
    requires forall i :: 0 <= i < |origins| ==> Genuine(origins[i].0)
    ensures var steps := Bookings(origins);
            var log, w := Books.Run([], steps), Written([], steps);
            && -Slack(w, u) <= OffBy(u, log, w) <= Slack(w, u)
            && TokenBalance(log, u) == Sum(w, Inflows(u))
  {
    var steps := Bookings(origins);
    forall b | b in steps
      ensures NearlyAddsUp(b.event) && (b.event.DepositReleased? ==> AddsUp(b.event))
    {
      var i :| 0 <= i < |steps| && steps[i] == b;
      GenuineNearlyAddsUp(origins[i].0);
    }
    ClaimsHold(steps, u);
    TokensConserved(steps, u);
  }

  // ---------------------------------------------------------------- the drift, exactly

  /** At most eight decimals, and fee settings that are not negative (or the defaults). */
  ghost predicate PlainRequest(input: S.Input, settings: Option<S.Settings>) {
    input.amount > 0.0 && EightPlaces(input.amount) && (settings.Some? ==> settings.value.fees.NonNegative())
  }

  /**
   * A direct settlement of at most eight decimals is booked without any drift unless its fee sits
   * exactly on a half unit; then the claims exceed the tokens by exactly one unit.
   */
  lemma DirectSettlementDrift(o: Origin, percent: real)
    requires o.FundedBy? && PlainRequest(o.input, o.settings)
    ensures Misfit(Booking(EventOf(o), percent), Token(o.input.currency)) ==
            if OnHalfUnit(RequestFee(o.input, o.settings).fee) then -UNIT8 else 0.0
  {
    var fees := if o.settings.Some? then o.settings.value.fees else FeeSettings(2.0, 0.0, 0.0);
    CreditShape(o.input.amount, fees);
    RoundingDriftExact(o.input.amount, RequestFee(o.input, o.settings).fee);
  }

  /** Such requests exist: two percent, the default, of 100.00000025. */
  lemma HalfUnitFeeHappens(id: Id, c: Refs.Counters, user: S.Merchant, currency: Currency, now: int, percent: real)
    ensures var o := FundedBy(id, c, user, S.Input(100.00000025, currency, true), None, now);
            PlainRequest(o.input, o.settings) && Misfit(Booking(EventOf(o), percent), Token(currency)) == -UNIT8
  {
    var o := FundedBy(id, c, user, S.Input(100.00000025, currency, true), None, now);
    assert Times(100.00000025, 2.0) / 100.0 * 100000000.0 == 200000000.5;
    assert RequestFee(o.input, None).fee == Times(100.00000025, 2.0) / 100.0;
    DirectSettlementDrift(o, percent);
  }

  predicate OnHalf(o: Origin, u: Unit) {
    o.FundedBy? && u == Token(o.input.currency) && OnHalfUnit(RequestFee(o.input, o.settings).fee)
  }

  /** How many direct settlements of one token, their fee on a half unit, a run wrote to the books. */
  function HalfUnits(origins: seq<(Origin, real)>, u: Unit): nat
    requires forall i :: 0 <= i < |origins| ==> Genuine(origins[i].0)
  {
    if |origins| == 0 then 0
    else
      var steps, n := Bookings(origins), |origins| - 1;
      var replay := Posted(Books.Run([], steps[..n]), KeyOf(steps[n].event));
      HalfUnits(origins[..n], u) + (if !replay && OnHalf(origins[n].0, u) then 1 else 0)
  }

  lemma MisfitOfOrigin(o: Origin, percent: real, u: Unit)
    requires Genuine(o) && (o.FundedBy? ==> PlainRequest(o.input, o.settings))
    ensures Misfit(Booking(EventOf(o), percent), u) == if OnHalf(o, u) then -UNIT8 else 0.0
  {
    if o.FundedBy? {
      DirectSettlementDrift(o, percent);
    } else {
      GenuineNearlyAddsUp(o);
      AddsUpMeansNoMisfit(Booking(EventOf(o), percent), u);
    }
  }

  lemma {:induction false} WrittenDrift(origins: seq<(Origin, real)>, u: Unit)
    requires forall i :: 0 <= i < |origins| ==> Genuine(origins[i].0)
    requires forall i :: 0 <= i < |origins| && origins[i].0.FundedBy? ==> PlainRequest(origins[i].0.input, origins[i].0.settings)
    ensures Sum(Written([], Bookings(origins)), Misfits(u)) == -(UNIT8 * HalfUnits(origins, u) as real)
  {
    if |origins| > 0 {
      var n := |origins| - 1;
      WrittenDrift(origins[..n], u);
      assert Bookings(origins)[..n] == Bookings(origins[..n]);
      MisfitOfOrigin(origins[n].0, origins[n].1, u);
      SumWrittenOneMore(Bookings(origins), Misfits(u));
    }
  }

  /**
   * The drift of the claims identity, exactly: with amounts of at most eight decimals the books are
   * off by one unit in the eighth place for each direct settlement of the token whose fee was on a
   * half unit, always in the same direction, and by nothing else.
   */
  lemma ExactDrift(origins: seq<(Origin, real)>, u: Unit)
    requires forall i :: 0 <= i < |origins| ==> Genuine(origins[i].0)
    requires forall i :: 0 <= i < |origins| && origins[i].0.FundedBy? ==> PlainRequest(origins[i].0.input, origins[i].0.settings)
    ensures var steps := Bookings(origins);
            OffBy(u, Books.Run([], steps), Written([], steps)) == -(UNIT8 * HalfUnits(origins, u) as real)
  {
    OffByIsMisfit(Bookings(origins), u);
    WrittenDrift(origins, u);
  }

  // ---------------------------------------------------------------- a refund of a contract's payment

  /**
   * A payment split by its contract's terms and refunded by the settings' percent: in any run all of
   * it is reversed if and only if it was an export (or had no net) and the percent in force at the
   * refund gives the organization exactly what the contract's terms gave it.
   */
  lemma ContractPaymentReversedIff(steps: seq<Booking>, p: Payment, refundId: Id, refundRef: string)
    requires p.Valid()
    requires Booked(steps, PaidEvent(p)) && Booked(steps, EventOf(RefundedFor(refundId, refundRef, p)))
    ensures var paid, refund := PaidEvent(p), EventOf(RefundedFor(refundId, refundRef, p));
            var split := PreviewSplit(p.terms, p.total);
            (forall a, u :: a in {DEPOSIT_HELD, BANK_HELD, MERCHANT_PAYABLE, GATEWAY_SHARE, FREEZONE_SHARE}
                            ==> Unwound(steps, paid, refund, OnAccount(a, u)) == 0.0)
            <==> (p.direction == EXPORT || split.beneficiary == 0)
                 && SplitGatewayFee(split.fee as real / p.scale as real, BookedAt(steps, refund)).freezone
                    == split.freezone as real / p.scale as real
  {
    var paid, refund := PaidEvent(p), EventOf(RefundedFor(refundId, refundRef, p));
    var split := PreviewSplit(p.terms, p.total);
    PaidEventAddsUp(p);
    RefundReversesEverythingIff(steps, paid, refund);
    ContractSplitAddsUp(p.terms, p.total);
    Positive(split.beneficiary as real, p.scale as real);
    ZeroOnlyFromZero(split.beneficiary, p.scale);
  }

  lemma ZeroOnlyFromZero(n: nat, scale: nat)
    requires scale > 0
    ensures ToHuman(n, scale) == 0.0 <==> n == 0
  {
    Positive(n as real, scale as real);
  }

  // ---------------------------------------------------------------- an export, and a late top-up

  /** An export's way through the books; the deposit is released with whatever it then holds. */
  datatype Export = Export(
    payment: Payment, depositId: Id, deposit: Deposit, released: nat,
    payoutId: Id, payout: S.Settlement, invoice: S.PaidInvoice, spreadRial: Option<real>)
  {
    /** An export under one set of terms, with the automatic payout of its net. */
    predicate Valid() {
      && payment.Valid() && payment.direction == EXPORT
      && deposit.invoice == Some(InvoiceOfDeposit(payment.currency, EXPORT))
      && invoice.id == payment.id && invoice.ownerId == payment.ownerId && invoice.currency == payment.currency
      && invoice.netAmount == Some(PaidEvent(payment).netAmount)
      && payout == S.PayoutRow(payout.ref, payout.trxRef, invoice, payout.createdAt)
    }

    function AsJourney(): (j: Journey)
      requires Valid()
      ensures j.Exported? && j.Shaped()
    {
      Exported(PaidEvent(payment), EventOf(ReleasedUnder(depositId, deposit, payment.terms, released, payment.scale)),
               EventOf(SettledBy(payoutId, payout, spreadRial)))
    }

    function Unit(): Unit { Token(payment.currency) }
  }

  predicate AllBooked(steps: seq<Booking>, j: Journey)
    requires j.Exported?
  {
    Booked(steps, j.paid) && Booked(steps, j.released) && Booked(steps, j.settled)
  }

  /** What one export left on an account of the books of a run. */
  function Left(steps: seq<Booking>, x: Export, account: Account): real
    requires x.Valid()
  {
    Tally(Only(Books.Run([], steps), KeysOf(x.AsJourney())), OnAccount(account, x.Unit()))
  }

  lemma HumanDifference(a: int, b: int, scale: nat)
    requires scale > 0
    ensures a as real / scale as real - b as real / scale as real == -((b - a) as real / scale as real)
    ensures a <= b <==> (b - a) as real / scale as real >= 0.0
    ensures a >= b <==> (b - a) as real / scale as real <= 0.0
  {
    var x, y, k := a as real, b as real, scale as real;
    assert x / k - y / k == -((y - x) / k);
    Positive(x - y, k);
    Positive(y - x, k);
    assert (x - y) / k == -((y - x) / k);
  }

  lemma LeftIsOutstanding(steps: seq<Booking>, x: Export, account: Account)
    requires x.Valid() && AllBooked(steps, x.AsJourney())
    requires account in {DEPOSIT_HELD, BANK_HELD, MERCHANT_PAYABLE, GATEWAY_SHARE, FREEZONE_SHARE}
    ensures Left(steps, x, account) == Outstanding(x.AsJourney(), BookedAt(steps, PaidEvent(x.payment)), account)
  {
    var j := x.AsJourney();
    ExportIsEffects(steps, j, OnAccount(account, x.Unit()));
    OutstandingIsEffects(j, BookedAt(steps, j.paid), BookedAt(steps, j.released), BookedAt(steps, j.settled), account);
  }

  /** The part of a release, in whole tokens, that was not booked with the payment. */
  function Extra(x: Export, booked: int, split: int): real
    requires x.Valid()
  {
    (split - booked) as real / x.payment.scale as real
  }

  lemma ExtraIsDifference(x: Export, booked: int, split: int)
    requires x.Valid()
    ensures booked as real / x.payment.scale as real - split as real / x.payment.scale as real == -Extra(x, booked, split)
  {
    HumanDifference(booked, split, x.payment.scale);
  }

  /** The journey's figures, part by part, in whole tokens. */
  lemma PartsOfJourney(x: Export, p: real)
    requires x.Valid()
    ensures var booked, split := PreviewSplit(x.payment.terms, x.payment.total), PreviewSplit(x.payment.terms, x.released);
            && Outstanding(x.AsJourney(), p, DEPOSIT_HELD) == -Extra(x, x.payment.total, x.released)
            && Outstanding(x.AsJourney(), p, BANK_HELD) == Extra(x, booked.beneficiary, split.beneficiary)
            && Outstanding(x.AsJourney(), p, GATEWAY_SHARE) == -Extra(x, booked.gateway, split.gateway)
            && Outstanding(x.AsJourney(), p, FREEZONE_SHARE) == -Extra(x, booked.freezone, split.freezone)
            && Outstanding(x.AsJourney(), p, MERCHANT_PAYABLE) == 0.0
  {
    var booked, split := PreviewSplit(x.payment.terms, x.payment.total), PreviewSplit(x.payment.terms, x.released);
    ContractSplitAddsUp(x.payment.terms, x.payment.total);
    ContractSplitAddsUp(x.payment.terms, x.released);
    ExtraIsDifference(x, x.payment.total, x.released);
    ExtraIsDifference(x, booked.beneficiary, split.beneficiary);
    ExtraIsDifference(x, booked.gateway, split.gateway);
    ExtraIsDifference(x, booked.freezone, split.freezone);
  }

  lemma LeftInParts(steps: seq<Booking>, x: Export)
    requires x.Valid() && AllBooked(steps, x.AsJourney())
    ensures var booked, split := PreviewSplit(x.payment.terms, x.payment.total), PreviewSplit(x.payment.terms, x.released);
            && Left(steps, x, DEPOSIT_HELD) == -Extra(x, x.payment.total, x.released)
            && Left(steps, x, BANK_HELD) == Extra(x, booked.beneficiary, split.beneficiary)
            && Left(steps, x, GATEWAY_SHARE) == -Extra(x, booked.gateway, split.gateway)
            && Left(steps, x, FREEZONE_SHARE) == -Extra(x, booked.freezone, split.freezone)
            && Left(steps, x, MERCHANT_PAYABLE) == 0.0
  {
    PartsOfJourney(x, BookedAt(steps, PaidEvent(x.payment)));
    LeftIsOutstanding(steps, x, DEPOSIT_HELD);
    LeftIsOutstanding(steps, x, BANK_HELD);
    LeftIsOutstanding(steps, x, GATEWAY_SHARE);
    LeftIsOutstanding(steps, x, FREEZONE_SHARE);
    LeftIsOutstanding(steps, x, MERCHANT_PAYABLE);
  }

  /**
   * A deposit topped up after its invoice was booked: the release splits all it holds, the books
   * know of the payment alone. The difference stays, account by account: custody short by the
   * top-up, the bank long by the beneficiary's part of it, each share overdrawn by its own part,
   * and nothing owed to the merchant. The books still balance, and everything cancels if and only
   * if the release was of exactly what was booked.
   */
  lemma TopUpStaysInTheBooks(steps: seq<Booking>, x: Export)
    requires x.Valid() && AllBooked(steps, x.AsJourney())
    ensures var p := x.payment;
            var booked, split := PreviewSplit(p.terms, p.total), PreviewSplit(p.terms, x.released);
            && Left(steps, x, DEPOSIT_HELD) == -Extra(x, p.total, x.released)
            && Left(steps, x, BANK_HELD) == Extra(x, booked.beneficiary, split.beneficiary)
            && Left(steps, x, GATEWAY_SHARE) == -Extra(x, booked.gateway, split.gateway)
            && Left(steps, x, FREEZONE_SHARE) == -Extra(x, booked.freezone, split.freezone)
    ensures Left(steps, x, MERCHANT_PAYABLE) == 0.0
    ensures x.released >= x.payment.total ==>
              Left(steps, x, BANK_HELD) >= 0.0 && Left(steps, x, GATEWAY_SHARE) <= 0.0 && Left(steps, x, FREEZONE_SHARE) <= 0.0
    ensures Left(steps, x, DEPOSIT_HELD) + Left(steps, x, BANK_HELD) == Left(steps, x, GATEWAY_SHARE) + Left(steps, x, FREEZONE_SHARE)
    ensures x.released == x.payment.total <==>
              forall a :: a in {DEPOSIT_HELD, BANK_HELD, MERCHANT_PAYABLE, GATEWAY_SHARE, FREEZONE_SHARE} ==> Left(steps, x, a) == 0.0
    ensures x.released == x.payment.total ==> Completed(steps, x.AsJourney())
  {
    LeftInParts(steps, x);
    ExtrasAddUp(x);
    if x.released == x.payment.total {
      ContractExportCompletes(steps, x);
    }
  }

  lemma ExtrasAddUp(x: Export)
    requires x.Valid()
    ensures var booked, split := PreviewSplit(x.payment.terms, x.payment.total), PreviewSplit(x.payment.terms, x.released);
            var total, beneficiary := Extra(x, x.payment.total, x.released), Extra(x, booked.beneficiary, split.beneficiary);
            var gateway, freezone := Extra(x, booked.gateway, split.gateway), Extra(x, booked.freezone, split.freezone);
            && total == gateway + freezone + beneficiary
            && (total == 0.0 <==> x.released == x.payment.total)
            && (x.released >= x.payment.total ==> beneficiary >= 0.0 && gateway >= 0.0 && freezone >= 0.0)
            && (x.released == x.payment.total ==> beneficiary == 0.0 && gateway == 0.0 && freezone == 0.0)
  {
    var p := x.payment;
    var booked, split := PreviewSplit(p.terms, p.total), PreviewSplit(p.terms, x.released);
    ContractSplitAddsUp(p.terms, p.total);
    ContractSplitAddsUp(p.terms, x.released);
    PartsAddUp(x.released - p.total, split.gateway - booked.gateway, split.freezone - booked.freezone,
               split.beneficiary - booked.beneficiary, p.scale);
    HumanDifference(p.total, x.released, p.scale);
    HumanDifference(booked.beneficiary, split.beneficiary, p.scale);
    HumanDifference(booked.gateway, split.gateway, p.scale);
    HumanDifference(booked.freezone, split.freezone, p.scale);
    if x.released >= p.total {
      ContractSplitGrows(p.terms, p.total, x.released);
    }
  }

  lemma PartsAddUp(total: int, gateway: int, freezone: int, beneficiary: int, scale: nat)
    requires scale > 0 && total == gateway + freezone + beneficiary
    ensures var k := scale as real;
            total as real / k == gateway as real / k + freezone as real / k + beneficiary as real / k
  {
    var k := scale as real;
    var t, g, z, b := total as real, gateway as real, freezone as real, beneficiary as real;
    assert t == g + z + b;
    assert t / k == g / k + z / k + b / k;
  }

  /** With nothing added to the deposit it is a completed journey, whose residue Journeys gives. */
  lemma ContractExportCompletes(steps: seq<Booking>, x: Export)
    requires x.Valid() && AllBooked(steps, x.AsJourney()) && x.released == x.payment.total
    ensures Completed(steps, x.AsJourney())
  {
    ContractSplitAddsUp(x.payment.terms, x.payment.total);
  }
}
