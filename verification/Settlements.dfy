/**
 * Settlements: a merchant's own request with its rolling quota (app/api/settlements/route.ts), and
 * the payout raised from a paid invoice, which several callers may race to create
 * (lib/server/payout.ts).
 */
module Settlements {
  import opened Wrappers
  import opened Money
  import opened Fees
  import opened Books
  import opened Refs
  import opened Uids

  datatype Status =
    | AWAITING_ADMIN | AWAITING_BANK | BANK_RATE_LOCKED | CRYPTO_RECEIVED | CRYPTO_CONFIRMED | SETTLED | REJECTED

  datatype Settlement = Settlement(
    ref: string, trxRef: string, ownerId: Id, sourceInvoiceId: Option<Id>, amount: real, currency: Currency,
    feeAmount: real, netAmount: real, exchangeRate: Option<real>, rialAmount: Option<real>, status: Status, createdAt: int)

  /** The settings row, where there is one. */
  datatype Settings = Settings(
    minTxAmount: real, dailySettlementLimit: real, bnbRate: real, usdtRate: real, fees: FeeSettings)

  const DAY: int := 24 * 3_600_000

  // ---------------------------------------------------------------- a merchant's own request

  datatype Merchant = Merchant(id: Id, role: Role, approved: bool)

  /** `addressOk` is the chain library's verdict on the wallet address. */
  datatype Input = Input(amount: real, currency: Currency, addressOk: bool)

  /** What one owner's settlements created at or after `since` add up to, payouts included. */
  function SinceTotal(table: seq<Settlement>, ownerId: Id, since: int): real {
    if |table| == 0 then 0.0
    else
      var s := table[|table| - 1];
      SinceTotal(table[..|table| - 1], ownerId, since) +
      (if s.ownerId == ownerId && s.createdAt >= since && s.status != REJECTED then s.amount else 0.0)
  }

  function RequestRefusal(table: seq<Settlement>, user: Merchant, input: Input, settings: Option<Settings>, now: int): Option<Error> {
    if user.role != IRANIAN then Some(Forbidden)
    else if !user.approved then Some(KycRequired)
    else if input.amount <= 0.0 then Some(ValidationFailed)
    else if !input.addressOk then Some(BadRequest)
    else if settings.Some? && input.amount < settings.value.minTxAmount then Some(BadRequest)
    else if settings.Some? && SinceTotal(table, user.id, now - DAY) + input.amount > settings.value.dailySettlementLimit
      then Some(BadRequest)
    else None
  }

  function RequestRow(c: Counters, user: Merchant, input: Input, settings: Option<Settings>, now: int): Settlement {
    var fee := FeeFor(input.amount, if settings.Some? then Some(settings.value.fees) else None, Credit);
    var rate := if settings.None? then None
                else Some(if input.currency == BNB then settings.value.bnbRate else settings.value.usdtRate);
    Settlement(Ref(SettlementRef, c.settlement), Ref(TrxRef, c.trx), user.id, None, input.amount, input.currency,
               Fixed8(fee.fee), Fixed8(fee.net), rate,
               if rate.Some? && rate.value != 0.0 then Some(ToRial(rate.value, fee.net)) else None,
               AWAITING_ADMIN, now)
  }

  /** The settings a request is charged by: the live row's, or two percent where there is none. */
  predicate ChargedBy(settings: Option<Settings>, fees: FeeSettings) {
    (settings.Some? ==> fees == settings.value.fees) && (settings.None? ==> fees == FeeSettings(2.0, 0.0, 0.0))
  }

  /** Fee and net to eight places; priced, where there is a rate, at that currency's rate for the net. */
  ghost predicate PricedWith(row: Settlement, input: Input, settings: Option<Settings>, fees: FeeSettings, fee: real) {
    && ChargedBy(settings, fees) && IsFee(fee, input.amount, fees, Credit)
    && EightPlaces(row.feeAmount) && Abs(row.feeAmount - fee) <= 0.5 * UNIT8
    && EightPlaces(row.netAmount) && Abs(row.netAmount - (input.amount - fee)) <= 0.5 * UNIT8
    && (settings.None? ==> row.exchangeRate == None && row.rialAmount == None)
    && (settings.Some? && input.currency == BNB ==> row.exchangeRate == Some(settings.value.bnbRate))
    && (settings.Some? && input.currency == USDT ==> row.exchangeRate == Some(settings.value.usdtRate))
    && (row.exchangeRate.Some? && row.exchangeRate.value != 0.0 ==>
          row.rialAmount.Some? && TwoPlaces(row.rialAmount.value)
          && Abs(row.rialAmount.value - Times(row.exchangeRate.value, input.amount - fee)) <= 0.005)
    && (row.exchangeRate == Some(0.0) ==> row.rialAmount == None)
  }

  ghost predicate Priced(row: Settlement, input: Input, settings: Option<Settings>) {
    exists fees, fee :: PricedWith(row, input, settings, fees, fee)
  }

  /** What a request asks for and whose it is; it waits for the admin, with no invoice behind it. */
  predicate AsAsked(row: Settlement, user: Merchant, input: Input, now: int) {
    && row.ownerId == user.id && row.sourceInvoiceId == None && row.amount == input.amount && row.currency == input.currency
    && row.status == AWAITING_ADMIN && row.createdAt == now
  }

  lemma RequestIsPriced(c: Counters, user: Merchant, input: Input, settings: Option<Settings>, now: int)
    requires input.amount > 0.0
    ensures Priced(RequestRow(c, user, input, settings, now), input, settings)
    ensures AsAsked(RequestRow(c, user, input, settings, now), user, input, now)
  {
    var fees := if settings.Some? then settings.value.fees else FeeSettings(2.0, 0.0, 0.0);
    var fee := SplitFee(input.amount, fees, Credit);
    SplitFeeIsTheFee(input.amount, fees, Credit, fee.fee);
    FiguresAsStored(fee.fee);
    FiguresAsStored(fee.net);
    if settings.Some? {
      RialIsNearest(if input.currency == BNB then settings.value.bnbRate else settings.value.usdtRate, fee.net);
    }
    assert PricedWith(RequestRow(c, user, input, settings, now), input, settings, fees, fee.fee);
  }

  lemma FiguresAsStored(x: real)
    ensures EightPlaces(Fixed8(x)) && Abs(Fixed8(x) - x) <= 0.5 * UNIT8
  {
    Fixed8Near(x);
    Fixed8HasEightPlaces(x);
  }

  /** Who may ask, for how much, and that it fits: all that is asked for and stands in 24 hours is under the limit. */
  predicate Acceptable(table: seq<Settlement>, user: Merchant, input: Input, settings: Option<Settings>, now: int) {
    && user.role == IRANIAN && user.approved && input.amount > 0.0 && input.addressOk
    && (settings.Some? ==>
          && settings.value.minTxAmount <= input.amount
          && OwnTotal(table, user.id, now - 24 * 3_600_000) + PayoutTotal(table, user.id, now - 24 * 3_600_000) + input.amount
             <= settings.value.dailySettlementLimit)
  }

  /** What one merchant's own requests created at or after `since`, and not rejected, add up to. */
  function OwnTotal(table: seq<Settlement>, ownerId: Id, since: int): real {
    if |table| == 0 then 0.0
    else
      var s := table[|table| - 1];
      OwnTotal(table[..|table| - 1], ownerId, since) +
      (if s.ownerId == ownerId && s.sourceInvoiceId.None? && s.createdAt >= since && s.status != REJECTED then s.amount else 0.0)
  }

  /** And what the payouts raised for the merchant's invoices in that time add up to. */
  function PayoutTotal(table: seq<Settlement>, ownerId: Id, since: int): real {
    if |table| == 0 then 0.0
    else
      var s := table[|table| - 1];
      PayoutTotal(table[..|table| - 1], ownerId, since) +
      (if s.ownerId == ownerId && s.sourceInvoiceId.Some? && s.createdAt >= since && s.status != REJECTED then s.amount else 0.0)
  }

  /** Automatic payouts use up their owner's quota, though they are not held to it. */
  lemma {:induction false} QuotaCountsPayouts(table: seq<Settlement>, ownerId: Id, since: int)
    ensures SinceTotal(table, ownerId, since) == OwnTotal(table, ownerId, since) + PayoutTotal(table, ownerId, since)
  {
    if |table| > 0 {
      QuotaCountsPayouts(table[..|table| - 1], ownerId, since);
    }
  }

  // ---------------------------------------------------------------- a payout from a paid invoice

  datatype PaidInvoice = PaidInvoice(id: Id, ownerId: Id, currency: Currency, netAmount: Option<real>, amount: real)

  function Payable(invoice: PaidInvoice): real { invoice.netAmount.GetOr(invoice.amount) }

  predicate HasPayout(table: seq<Settlement>, invoiceId: Id) {
    exists i :: 0 <= i < |table| && table[i].sourceInvoiceId == Some(invoiceId)
  }

  function PayoutOf(table: seq<Settlement>, invoiceId: Id): (s: Settlement)
    requires HasPayout(table, invoiceId)
    ensures s in table && s.sourceInvoiceId == Some(invoiceId)
  {
    var n := |table| - 1;
    if HasPayout(table[..n], invoiceId) then PayoutOf(table[..n], invoiceId) else table[n]
  }

  function PayoutRow(ref: string, trxRef: string, invoice: PaidInvoice, now: int): Settlement {
    Settlement(ref, trxRef, invoice.ownerId, Some(invoice.id), Payable(invoice), invoice.currency,
               0.0, Payable(invoice), None, None, AWAITING_BANK, now)
  }

  /** The settlement table with its unique index on the source invoice. */
  class SettlementDesk {
    var table: seq<Settlement>
    const refs: Sequences

    constructor (refs: Sequences)
      ensures table == [] && this.refs == refs
    {
      table := [];
      this.refs := refs;
    }

    /** `POST /api/settlements`. */
    method Request(user: Merchant, input: Input, settings: Option<Settings>, now: int) returns (r: Result<Settlement>)
      modifies this, refs
      ensures match RequestRefusal(old(table), user, input, settings, now)
              case Some(error) => r == Err(error) && table == old(table) && refs.counters == old(refs.counters)
              case None =>
                var row := RequestRow(old(refs.counters), user, input, settings, now);
                r == Ok(row) && table == old(table) + [row] && refs.counters == DrawRef(old(refs.counters), SettlementRef)
      ensures r.Ok? <==> Acceptable(old(table), user, input, settings, now)
      ensures r.Ok? ==> AsAsked(r.value, user, input, now) && Priced(r.value, input, settings)
      ensures r.Ok? ==> r.value.ref == Ref(SettlementRef, old(refs.counters).settlement) && r.value.trxRef == Ref(TrxRef, old(refs.counters).trx)
      ensures r.Ok? ==> -UNIT8 <= r.value.feeAmount + r.value.netAmount - r.value.amount <= UNIT8
    {
      QuotaCountsPayouts(table, user.id, now - DAY);
      if user.role != IRANIAN { return Err(Forbidden); }
      if !user.approved { return Err(KycRequired); }
      if input.amount <= 0.0 { return Err(ValidationFailed); }
      if !input.addressOk { return Err(BadRequest); }
      if settings.Some? {
        if input.amount < settings.value.minTxAmount { return Err(BadRequest); }
        var since := now - DAY;
        var today := SinceTotal(table, user.id, since);
        if today + input.amount > settings.value.dailySettlementLimit { return Err(BadRequest); }
      }
      var rate: Option<real> := None;
      if settings.Some? {
        rate := Some(if input.currency == BNB then settings.value.bnbRate else settings.value.usdtRate);
      }
      var fee := FeeFor(input.amount, if settings.Some? then Some(settings.value.fees) else None, Credit);
      RoundingDriftBound(fee.fee, fee.net);
      RequestIsPriced(refs.counters, user, input, settings, now);
      var ref, trxRef := refs.NextRef(SettlementRef);
      var row := Settlement(ref, trxRef, user.id, None, input.amount, input.currency, Fixed8(fee.fee), Fixed8(fee.net), rate,
                            if rate.Some? && rate.value != 0.0 then Some(ToRial(rate.value, fee.net)) else None,
                            AWAITING_ADMIN, now);
      table := table + [row];
      r := Ok(row);
    }

    /** `tx.settlement.create`: fails on the unique index, and then writes nothing. */
    method Create(row: Settlement) returns (ok: bool)
      modifies this
      ensures ok <==> row.sourceInvoiceId.None? || !HasPayout(old(table), row.sourceInvoiceId.value)
      ensures table == if ok then old(table) + [row] else old(table)
    {
      ok := row.sourceInvoiceId.None? || !HasPayout(table, row.sourceInvoiceId.value);
      if ok {
        table := table + [row];
      }
    }

    /** One uninterrupted `raisePayoutSettlement`: the existing payout, or a new one, or nothing to pay. */
    method RaisePayout(invoice: PaidInvoice, now: int) returns (ref: Option<string>)
      modifies this, refs
      ensures HasPayout(old(table), invoice.id) ==>
        ref == Some(PayoutOf(old(table), invoice.id).ref) && table == old(table) && refs.counters == old(refs.counters)
      ensures !HasPayout(old(table), invoice.id) && Payable(invoice) <= 0.0 ==>
        ref == None && table == old(table) && refs.counters == old(refs.counters)
      ensures !HasPayout(old(table), invoice.id) && Payable(invoice) > 0.0 ==>
        var c := old(refs.counters);
        var row := PayoutRow(Ref(SettlementRef, c.settlement), Ref(TrxRef, c.trx), invoice, now);
        ref == Some(row.ref) && table == old(table) + [row] && refs.counters == DrawRef(c, SettlementRef)
    {
      if HasPayout(table, invoice.id) {
        return Some(PayoutOf(table, invoice.id).ref);
      }
      var payable := invoice.netAmount.GetOr(invoice.amount);
      if payable <= 0.0 { return None; }
      var newRef, trxRef := refs.NextRef(SettlementRef);
      var row := Settlement(newRef, trxRef, invoice.ownerId, Some(invoice.id), payable, invoice.currency,
                            0.0, payable, None, None, AWAITING_BANK, now);
      var ok := Create(row);
      ref := if ok then Some(newRef) else None;
    }
  }

  // ---------------------------------------------------------------- interleavings

  /** Where one running `raisePayoutSettlement` stands, and what it returned. */
  datatype Progress =
    | Started
    | FoundNone
    | Drawn(ref: string, trxRef: string)
    | Inserted(ref: string)
    | Finished(result: Option<string>)

  datatype Caller = Caller(invoice: PaidInvoice, at: Progress)

  datatype System = System(table: seq<Settlement>, counters: Counters, callers: seq<Caller>, now: int)

  /**
   * Everything that touches the table, one database step at a time. A transaction's draw and its
   * insert are apart because sequences do not wait for the commit; `Fail` is any error on the way,
   * before the row is written or after it.
   */
  datatype Move =
    | Tick(ms: nat)
    | Requesting(user: Merchant, input: Input, settings: Option<Settings>)
    | Transition(i: nat, to: Status)
    | Begin(invoice: PaidInvoice)
    | Check(caller: nat)
    | Draw(caller: nat)
    | Insert(caller: nat)
    | Return(caller: nat)
    | Fail(caller: nat)

  /** The edges of the settlement transition route and of the watcher's promotion. */
  predicate Edge(s: Settlement, to: Status) {
    match s.status
    case AWAITING_ADMIN => to in {AWAITING_ADMIN, AWAITING_BANK, REJECTED}
    case AWAITING_BANK => to in {AWAITING_BANK, BANK_RATE_LOCKED, REJECTED}
    case BANK_RATE_LOCKED =>
      to == REJECTED || (if s.sourceInvoiceId.Some? then to == SETTLED else to in {CRYPTO_RECEIVED, CRYPTO_CONFIRMED})
    case CRYPTO_RECEIVED => to == CRYPTO_CONFIRMED
    case CRYPTO_CONFIRMED => to in {SETTLED, REJECTED}
    case SETTLED => false
    case REJECTED => false
  }

  function StepCaller(s: System, c: nat, at: Progress): System
    requires c < |s.callers|
  {
    s.(callers := s.callers[c := s.callers[c].(at := at)])
  }

  function Apply(s: System, m: Move): System {
    match m
    case Tick(ms) => s.(now := s.now + ms)
    case Requesting(user, input, settings) =>
      if RequestRefusal(s.table, user, input, settings, s.now).Some? then s
      else s.(table := s.table + [RequestRow(s.counters, user, input, settings, s.now)],
              counters := DrawRef(s.counters, SettlementRef))
    case Transition(i, to) =>
      if i < |s.table| && Edge(s.table[i], to) then s.(table := s.table[i := s.table[i].(status := to)]) else s
    case Begin(invoice) => s.(callers := s.callers + [Caller(invoice, Started)])
    case Check(c) =>
      if c >= |s.callers| || !s.callers[c].at.Started? then s
      else
        var invoice := s.callers[c].invoice;
        if HasPayout(s.table, invoice.id) then StepCaller(s, c, Finished(Some(PayoutOf(s.table, invoice.id).ref)))
        else if Payable(invoice) <= 0.0 then StepCaller(s, c, Finished(None))
        else StepCaller(s, c, FoundNone)
    case Draw(c) =>
      if c >= |s.callers| || !s.callers[c].at.FoundNone? then s
      else StepCaller(s, c, Drawn(Ref(SettlementRef, s.counters.settlement), Ref(TrxRef, s.counters.trx)))
             .(counters := DrawRef(s.counters, SettlementRef))
    case Insert(c) =>
      if c >= |s.callers| || !s.callers[c].at.Drawn? then s
      else
        var invoice, at := s.callers[c].invoice, s.callers[c].at;
        if HasPayout(s.table, invoice.id) then StepCaller(s, c, Finished(None))
        else StepCaller(s, c, Inserted(at.ref)).(table := s.table + [PayoutRow(at.ref, at.trxRef, invoice, s.now)])
    case Return(c) =>
      if c >= |s.callers| || !s.callers[c].at.Inserted? then s
      else StepCaller(s, c, Finished(Some(s.callers[c].at.ref)))
    case Fail(c) =>
      if c >= |s.callers| || s.callers[c].at.Finished? || s.callers[c].at.Started? then s else StepCaller(s, c, Finished(None))
  }

  function Run(moves: seq<Move>): System {
    if |moves| == 0 then System([], FRESH, [], 0)
    else Apply(Run(moves[..|moves| - 1]), moves[|moves| - 1])
  }

  // ---------------------------------------------------------------- how a settlement gets to its end

  /** Some moment of the run found this settlement in this status. */
  ghost predicate Reached(moves: seq<Move>, k: nat, status: Status) {
    exists n :: 0 <= n <= |moves| && StoodAt(moves, n, k, status)
  }

  predicate StoodAt(moves: seq<Move>, n: nat, k: nat, status: Status)
    requires n <= |moves|
  {
    k < |Run(moves[..n]).table| && Run(moves[..n]).table[k].status == status
  }

  lemma ReachedStays(moves: seq<Move>, last: nat, k: nat, status: Status)
    requires last <= |moves| && Reached(moves[..last], k, status)
    ensures Reached(moves, k, status)
  {
    var n :| 0 <= n <= last && StoodAt(moves[..last], n, k, status);
    assert moves[..last][..n] == moves[..n];
    assert StoodAt(moves, n, k, status);
  }

  lemma ReachedNow(moves: seq<Move>, last: nat, k: nat)
    requires last <= |moves| && k < |Run(moves[..last]).table|
    ensures Reached(moves, k, Run(moves[..last]).table[k].status)
  {
    assert StoodAt(moves, last, k, Run(moves[..last]).table[k].status);
  }

  /** What must have come before a status: a locked rate, and of a merchant's own crypto, its confirmation. */
  ghost predicate CameThrough(moves: seq<Move>, k: nat, s: Settlement) {
    && (s.status in {CRYPTO_RECEIVED, CRYPTO_CONFIRMED, SETTLED} ==> Reached(moves, k, BANK_RATE_LOCKED))
    && (s.status == SETTLED && s.sourceInvoiceId.None? ==> Reached(moves, k, CRYPTO_CONFIRMED))
    && (s.status in {BANK_RATE_LOCKED, CRYPTO_RECEIVED, CRYPTO_CONFIRMED, SETTLED} ==> Reached(moves, k, AWAITING_BANK))
  }

  lemma RowAfterMove(s: System, m: Move, k: nat)
    requires k < |Apply(s, m).table|
    ensures var after := Apply(s, m).table[k];
            if k < |s.table| then after == s.table[k] || (after == s.table[k].(status := after.status) && Edge(s.table[k], after.status))
            else after.status in {AWAITING_ADMIN, AWAITING_BANK}
  {
  }

  /**
   * No rial is paid out of turn: in every run a settled settlement had waited for the bank and had its
   * rate locked, and one the merchant raised had its crypto confirmed first.
   */
  lemma {:induction false} SettledInTurn(moves: seq<Move>, k: nat)
    requires k < |Run(moves).table|
    ensures CameThrough(moves, k, Run(moves).table[k])
  {
    if |moves| > 0 {
      var last := |moves| - 1;
      var s := Run(moves[..last]);
      RowAfterMove(s, moves[last], k);
      if k < |s.table| {
        SettledInTurn(moves[..last], k);
        ReachedNow(moves, last, k);
        forall status | Reached(moves[..last], k, status)
          ensures Reached(moves, k, status)
        {
          ReachedStays(moves, last, k, status);
        }
      }
    }
  }

  // ---------------------------------------------------------------- the payout race

  predicate UniqueSources(table: seq<Settlement>) {
    forall i, j :: 0 <= i < j < |table| && table[i].sourceInvoiceId.Some? ==> table[i].sourceInvoiceId != table[j].sourceInvoiceId
  }

  /** The caller that created it was asked to pay exactly this, and it charges nothing more. */
  ghost predicate RaisedBy(s: Settlement, callers: seq<Caller>) {
    exists c :: 0 <= c < |callers| && callers[c].invoice.id == s.sourceInvoiceId.GetOr(0) && s.ownerId == callers[c].invoice.ownerId
                && s.amount == Payable(callers[c].invoice) && s.netAmount == s.amount > 0.0 && s.feeAmount == 0.0
                && (callers[c].at.Inserted? || callers[c].at.Finished?)
  }

  /** A caller's answer, once it has one, is the reference of its invoice's payout. */
  ghost predicate AnswersRight(c: Caller, table: seq<Settlement>) {
    match c.at
    case FoundNone => Payable(c.invoice) > 0.0
    case Drawn(_, _) => Payable(c.invoice) > 0.0
    case Inserted(ref) => NamesPayout(table, c.invoice.id, ref)
    case Finished(Some(ref)) => NamesPayout(table, c.invoice.id, ref)
    case _ => true
  }

  ghost predicate NamesPayout(table: seq<Settlement>, invoiceId: Id, ref: string) {
    exists i :: 0 <= i < |table| && table[i].sourceInvoiceId == Some(invoiceId) && table[i].ref == ref
  }

  ghost predicate RaceInvariant(s: System) {
    && UniqueSources(s.table)
    && (forall i :: 0 <= i < |s.table| && s.table[i].sourceInvoiceId.Some? ==> RaisedBy(s.table[i], s.callers))
    && (forall c :: 0 <= c < |s.callers| ==> AnswersRight(s.callers[c], s.table))
  }

  lemma NamesSticks(table: seq<Settlement>, row: Settlement, invoiceId: Id, ref: string)
    ensures NamesPayout(table, invoiceId, ref) ==> NamesPayout(table + [row], invoiceId, ref)
  {
    if NamesPayout(table, invoiceId, ref) {
      var i :| 0 <= i < |table| && table[i].sourceInvoiceId == Some(invoiceId) && table[i].ref == ref;
      assert (table + [row])[i] == table[i];
    }
  }

  lemma NamesKept(table: seq<Settlement>, i: nat, to: Status, invoiceId: Id, ref: string)
    requires i < |table|
    ensures NamesPayout(table, invoiceId, ref) ==> NamesPayout(table[i := table[i].(status := to)], invoiceId, ref)
  {
    if NamesPayout(table, invoiceId, ref) {
      var k :| 0 <= k < |table| && table[k].sourceInvoiceId == Some(invoiceId) && table[k].ref == ref;
      assert table[i := table[i].(status := to)][k].ref == ref;
    }
  }

  /** One caller moving on leaves every payout's creator in place. */
  lemma RaisedStays(row: Settlement, s: System, c: nat, at: Progress)
    requires c < |s.callers| && RaisedBy(row, s.callers)
    requires s.callers[c].at.Inserted? || s.callers[c].at.Finished? ==> at.Inserted? || at.Finished?
    ensures RaisedBy(row, StepCaller(s, c, at).callers)
  {
    var k :| 0 <= k < |s.callers| && s.callers[k].invoice.id == row.sourceInvoiceId.GetOr(0) && row.ownerId == s.callers[k].invoice.ownerId
             && row.amount == Payable(s.callers[k].invoice) && row.netAmount == row.amount > 0.0 && row.feeAmount == 0.0
             && (s.callers[k].at.Inserted? || s.callers[k].at.Finished?);
    assert StepCaller(s, c, at).callers[k].invoice == s.callers[k].invoice;
  }

  lemma CallerMoveKeeps(s: System, c: nat, at: Progress)
    requires RaceInvariant(s) && c < |s.callers|
    requires s.callers[c].at.Inserted? || s.callers[c].at.Finished? ==> at.Inserted? || at.Finished?
    requires AnswersRight(s.callers[c].(at := at), s.table)
    ensures RaceInvariant(StepCaller(s, c, at))
  {
    forall i | 0 <= i < |s.table| && s.table[i].sourceInvoiceId.Some?
      ensures RaisedBy(s.table[i], StepCaller(s, c, at).callers)
    {
      RaisedStays(s.table[i], s, c, at);
    }
  }

  lemma InsertKeeps(s: System, c: nat)
    requires RaceInvariant(s) && c < |s.callers| && s.callers[c].at.Drawn?
    ensures RaceInvariant(Apply(s, Insert(c)))
  {
    var caller := s.callers[c];
    if HasPayout(s.table, caller.invoice.id) {
      CallerMoveKeeps(s, c, Finished(None));
    } else {
      var row := PayoutRow(caller.at.ref, caller.at.trxRef, caller.invoice, s.now);
      var moved := StepCaller(s, c, Inserted(caller.at.ref));
      var after := moved.(table := s.table + [row]);
      assert after.table[|s.table|] == row;
      assert RaisedBy(row, after.callers) by {
        assert after.callers[c].invoice == caller.invoice && after.callers[c].at.Inserted?;
      }
      forall i | 0 <= i < |s.table| && s.table[i].sourceInvoiceId.Some?
        ensures RaisedBy(after.table[i], after.callers)
      {
        RaisedStays(s.table[i], s, c, Inserted(caller.at.ref));
      }
      forall k | 0 <= k < |after.callers|
        ensures AnswersRight(after.callers[k], after.table)
      {
        assert AnswersRight(s.callers[k], s.table);
        if k != c && (s.callers[k].at.Inserted? || (s.callers[k].at.Finished? && s.callers[k].at.result.Some?)) {
          NamesSticks(s.table, row, s.callers[k].invoice.id,
                      if s.callers[k].at.Inserted? then s.callers[k].at.ref else s.callers[k].at.result.value);
        }
      }
    }
  }

  lemma OtherMoveKeeps(s: System, m: Move)
    requires RaceInvariant(s) && (m.Requesting? || m.Transition? || m.Begin? || m.Tick?)
    ensures RaceInvariant(Apply(s, m))
  {
    var after := Apply(s, m);
    forall i | 0 <= i < |after.table| && after.table[i].sourceInvoiceId.Some?
      ensures RaisedBy(after.table[i], after.callers)
    {
      assert i < |s.table| && RaisedBy(s.table[i], s.callers);
      var k :| 0 <= k < |s.callers| && s.callers[k].invoice.id == s.table[i].sourceInvoiceId.GetOr(0)
               && s.table[i].ownerId == s.callers[k].invoice.ownerId
               && s.table[i].amount == Payable(s.callers[k].invoice) && s.table[i].netAmount == s.table[i].amount > 0.0
               && s.table[i].feeAmount == 0.0 && (s.callers[k].at.Inserted? || s.callers[k].at.Finished?);
      assert after.callers[k] == s.callers[k];
    }
    forall c | 0 <= c < |after.callers|
      ensures AnswersRight(after.callers[c], after.table)
    {
      if c < |s.callers| {
        assert AnswersRight(s.callers[c], s.table);
        var at := s.callers[c].at;
        if at.Inserted? || (at.Finished? && at.result.Some?) {
          var ref := if at.Inserted? then at.ref else at.result.value;
          if m.Transition? && m.i < |s.table| {
            NamesKept(s.table, m.i, m.to, s.callers[c].invoice.id, ref);
          } else if |after.table| > |s.table| {
            NamesSticks(s.table, after.table[|s.table|], s.callers[c].invoice.id, ref);
          }
        }
      }
    }
  }

  lemma MoveKeeps(s: System, m: Move)
    requires RaceInvariant(s)
    ensures RaceInvariant(Apply(s, m))
  {
    match m
    case Insert(c) => if c < |s.callers| && s.callers[c].at.Drawn? { InsertKeeps(s, c); }
    case Check(c) =>
      if c < |s.callers| && s.callers[c].at.Started? {
        var invoice := s.callers[c].invoice;
        if HasPayout(s.table, invoice.id) {
          var found := PayoutOf(s.table, invoice.id);
          assert NamesPayout(s.table, invoice.id, found.ref);
          CallerMoveKeeps(s, c, Finished(Some(found.ref)));
        } else {
          CallerMoveKeeps(s, c, if Payable(invoice) <= 0.0 then Finished(None) else FoundNone);
        }
      }
    case Draw(c) =>
      if c < |s.callers| && s.callers[c].at.FoundNone? {
        assert AnswersRight(s.callers[c], s.table);
        CallerMoveKeeps(s, c, Drawn(Ref(SettlementRef, s.counters.settlement), Ref(TrxRef, s.counters.trx)));
      }
    case Return(c) =>
      if c < |s.callers| && s.callers[c].at.Inserted? {
        assert AnswersRight(s.callers[c], s.table);
        CallerMoveKeeps(s, c, Finished(Some(s.callers[c].at.ref)));
      }
    case Fail(c) =>
      if c < |s.callers| && !s.callers[c].at.Finished? && !s.callers[c].at.Started? { CallerMoveKeeps(s, c, Finished(None)); }
    case Tick(_) => OtherMoveKeeps(s, m);
    case Requesting(_, _, _) => OtherMoveKeeps(s, m);
    case Transition(_, _) => OtherMoveKeeps(s, m);
    case Begin(_) => OtherMoveKeeps(s, m);
  }

  lemma {:induction false} RaceInvariantHolds(moves: seq<Move>)
    ensures RaceInvariant(Run(moves))
  {
    if |moves| > 0 {
      RaceInvariantHolds(moves[..|moves| - 1]);
      MoveKeeps(Run(moves[..|moves| - 1]), moves[|moves| - 1]);
    }
  }

  /**
   * However many callers race and however their steps interleave with each other and with the rest
   * of the table's traffic: an invoice has at most one payout; every reference returned is that
   * payout's; and where the callers agree on what the invoice pays, it carries exactly that, with
   * no fee.
   */
  lemma OnePayoutPerInvoice(moves: seq<Move>, invoiceId: Id, payable: real)
    requires forall c: Caller :: c in Run(moves).callers && c.invoice.id == invoiceId ==> Payable(c.invoice) == payable
    ensures var s := Run(moves);
            && (forall i, j :: 0 <= i < j < |s.table| && s.table[i].sourceInvoiceId == Some(invoiceId) ==>
                  s.table[j].sourceInvoiceId != Some(invoiceId))
            && (forall i :: 0 <= i < |s.table| && s.table[i].sourceInvoiceId == Some(invoiceId) ==>
                  s.table[i].amount == s.table[i].netAmount == payable && s.table[i].feeAmount == 0.0)
            && (forall c: Caller :: c in s.callers && c.invoice.id == invoiceId && c.at.Finished? && c.at.result.Some? ==>
                  NamesPayout(s.table, invoiceId, c.at.result.value))
  {
    var s := Run(moves);
    RaceInvariantHolds(moves);
    forall i | 0 <= i < |s.table| && s.table[i].sourceInvoiceId == Some(invoiceId)
      ensures s.table[i].amount == s.table[i].netAmount == payable && s.table[i].feeAmount == 0.0
    {
      assert RaisedBy(s.table[i], s.callers);
      var k :| 0 <= k < |s.callers| && s.callers[k].invoice.id == s.table[i].sourceInvoiceId.GetOr(0)
               && s.table[i].amount == Payable(s.callers[k].invoice) && s.table[i].netAmount == s.table[i].amount > 0.0
               && s.table[i].feeAmount == 0.0;
      assert s.callers[k] in s.callers;
    }
    forall c: Caller | c in s.callers && c.invoice.id == invoiceId && c.at.Finished? && c.at.result.Some?
      ensures NamesPayout(s.table, invoiceId, c.at.result.value)
    {
      assert AnswersRight(c, s.table);
    }
  }

  // ---------------------------------------------------------------- the rolling quota

  predicate InOrder(table: seq<Settlement>, now: int) {
    forall i :: 0 <= i < |table| ==> table[i].amount > 0.0 && table[i].createdAt <= now
  }

  /** What the merchant asked for, at or after `since`, while there was no settings row to ask. */
  function Unchecked(moves: seq<Move>, ownerId: Id, since: int): real {
    if |moves| == 0 then 0.0
    else
      var n := |moves| - 1;
      Unchecked(moves[..n], ownerId, since) + UncheckedBy(Run(moves[..n]), moves[n], ownerId, since)
  }

  function UncheckedBy(s: System, m: Move, ownerId: Id, since: int): real {
    if m.Requesting? && m.user.id == ownerId && m.settings.None? && s.now >= since
       && RequestRefusal(s.table, m.user, m.input, None, s.now).None?
    then m.input.amount else 0.0
  }

  lemma {:induction false} UncheckedIsNotNegative(moves: seq<Move>, ownerId: Id, since: int)
    ensures Unchecked(moves, ownerId, since) >= 0.0
  {
    if |moves| > 0 {
      UncheckedIsNotNegative(moves[..|moves| - 1], ownerId, since);
    }
  }

  lemma {:induction false} OwnIsPartOfAll(table: seq<Settlement>, ownerId: Id, since: int, earlier: int, now: int)
    requires InOrder(table, now) && earlier <= since
    ensures 0.0 <= OwnTotal(table, ownerId, since) <= SinceTotal(table, ownerId, earlier)
  {
    if |table| > 0 {
      OwnIsPartOfAll(table[..|table| - 1], ownerId, since, earlier, now);
    }
  }

  /** A settlement moving along never adds to its owner's total: rejection is final. */
  lemma {:induction false} TransitionNeverAdds(table: seq<Settlement>, i: nat, to: Status, ownerId: Id, since: int)
    requires i < |table| && Edge(table[i], to) && table[i].amount > 0.0
    ensures OwnTotal(table[i := table[i].(status := to)], ownerId, since) <= OwnTotal(table, ownerId, since)
  {
    var n := |table| - 1;
    var moved := table[i := table[i].(status := to)];
    if i < n {
      assert moved[..n] == table[..n][i := table[i].(status := to)];
      TransitionNeverAdds(table[..n], i, to, ownerId, since);
    } else {
      assert moved[..n] == table[..n];
    }
  }

  lemma OwnOneMore(table: seq<Settlement>, row: Settlement, ownerId: Id, since: int)
    ensures OwnTotal(table + [row], ownerId, since) == OwnTotal(table, ownerId, since) +
            (if row.ownerId == ownerId && row.sourceInvoiceId.None? && row.createdAt >= since && row.status != REJECTED
             then row.amount else 0.0)
  {
    assert (table + [row])[..|table|] == table;
  }

  predicate LimitsAtMost(moves: seq<Move>, limit: real) {
    forall m :: m in moves && m.Requesting? && m.settings.Some? ==> m.settings.value.dailySettlementLimit <= limit
  }

  lemma InOrderOneMore(s: System, m: Move)
    requires InOrder(s.table, s.now) && RaceInvariant(s)
    ensures InOrder(Apply(s, m).table, Apply(s, m).now)
  {
    if m.Insert? && m.caller < |s.callers| {
      assert AnswersRight(s.callers[m.caller], s.table);
    }
  }

  lemma {:induction false} AlwaysInOrder(moves: seq<Move>)
    ensures InOrder(Run(moves).table, Run(moves).now)
  {
    if |moves| > 0 {
      var n := |moves| - 1;
      AlwaysInOrder(moves[..n]);
      RaceInvariantHolds(moves[..n]);
      InOrderOneMore(Run(moves[..n]), moves[n]);
    }
  }

  /** A request the settings let through leaves the whole of the last 24 hours within their limit. */
  lemma CheckedRequestFits(s: System, user: Merchant, input: Input, settings: Settings, since: int)
    requires InOrder(s.table, s.now) && since >= s.now - DAY
    requires RequestRefusal(s.table, user, input, Some(settings), s.now).None?
    ensures OwnTotal(Apply(s, Requesting(user, input, Some(settings))).table, user.id, since) <= settings.dailySettlementLimit
  {
    OwnIsPartOfAll(s.table, user.id, since, s.now - DAY, s.now);
    OwnOneMore(s.table, RequestRow(s.counters, user, input, Some(settings), s.now), user.id, since);
  }

  lemma RequestKeepsQuota(s: System, m: Move, ownerId: Id, limit: real, unchecked: real, since: int)
    requires m.Requesting? && (m.settings.Some? ==> m.settings.value.dailySettlementLimit <= limit)
    requires InOrder(s.table, s.now) && since >= s.now - DAY && unchecked >= 0.0
    requires OwnTotal(s.table, ownerId, since) <= Max(limit, 0.0) + unchecked
    ensures OwnTotal(Apply(s, m).table, ownerId, since) <= Max(limit, 0.0) + unchecked + UncheckedBy(s, m, ownerId, since)
  {
    if RequestRefusal(s.table, m.user, m.input, m.settings, s.now).None? {
      OwnOneMore(s.table, RequestRow(s.counters, m.user, m.input, m.settings, s.now), ownerId, since);
      if m.settings.Some? && m.user.id == ownerId {
        CheckedRequestFits(s, m.user, m.input, m.settings.value, since);
      }
    }
  }

  /** Payouts do not count, and a transition never adds. */
  lemma OtherMoveKeepsQuota(s: System, m: Move, ownerId: Id, since: int)
    requires !m.Requesting? && InOrder(s.table, s.now)
    ensures OwnTotal(Apply(s, m).table, ownerId, since) <= OwnTotal(s.table, ownerId, since)
  {
    if m.Transition? && m.i < |s.table| && Edge(s.table[m.i], m.to) {
      TransitionNeverAdds(s.table, m.i, m.to, ownerId, since);
    } else if m.Insert? && m.caller < |s.callers| && s.callers[m.caller].at.Drawn? {
      var c := s.callers[m.caller];
      OwnOneMore(s.table, PayoutRow(c.at.ref, c.at.trxRef, c.invoice, s.now), ownerId, since);
    }
  }

  /**
   * The rolling quota: at every moment of every run, what a merchant's own live requests of the last
   * 24 hours add up to is within the limit (the highest one in force, should it change), though
   * payouts are created without the check, in the middle of it, and requests may be rejected later.
   * It can be exceeded by no more than what was asked for, in those 24 hours, while there was no
   * settings row; with a row behind every request it holds outright.
   */
  lemma {:induction false} RollingQuota(moves: seq<Move>, ownerId: Id, limit: real, since: int)
    requires LimitsAtMost(moves, limit) && since >= Run(moves).now - DAY
    ensures OwnTotal(Run(moves).table, ownerId, since) <= Max(limit, 0.0) + Unchecked(moves, ownerId, since)
    ensures (forall m :: m in moves && m.Requesting? ==> m.settings.Some?) ==> Unchecked(moves, ownerId, since) == 0.0
  {
    if |moves| > 0 {
      var n := |moves| - 1;
      var s, m := Run(moves[..n]), moves[n];
      RollingQuota(moves[..n], ownerId, limit, since);
      AlwaysInOrder(moves[..n]);
      UncheckedIsNotNegative(moves[..n], ownerId, since);
      assert m in moves;
      if m.Requesting? {
        RequestKeepsQuota(s, m, ownerId, limit, Unchecked(moves[..n], ownerId, since), since);
      } else {
        OtherMoveKeepsQuota(s, m, ownerId, since);
      }
    }
  }

  /** What stands after a run: the merchant's own total of the last 24 hours, and how much of it went unchecked. */
  predicate Stands(moves: seq<Move>, ownerId: Id, own: real, unchecked: real) {
    var since := Run(moves).now - DAY;
    OwnTotal(Run(moves).table, ownerId, since) == own && Unchecked(moves, ownerId, since) == unchecked
  }

  /** After any run, a valid request made without a settings row raises what stands, and the bound, by its amount. */
  lemma UncheckedRequestAdds(moves: seq<Move>, user: Merchant, input: Input, limit: real, own: real, unchecked: real)
    returns (after: seq<Move>)
    requires user.role == IRANIAN && user.approved && input.amount > 0.0 && input.addressOk
    requires LimitsAtMost(moves, limit) && Stands(moves, user.id, own, unchecked)
    ensures LimitsAtMost(after, limit) && Stands(after, user.id, own + input.amount, unchecked + input.amount)
  {
    var s := Run(moves);
    after := moves + [Requesting(user, input, None)];
    assert after[..|moves|] == moves;
    OwnOneMore(s.table, RequestRow(s.counters, user, input, None, s.now), user.id, s.now - DAY);
  }

  lemma LimitCanBeFilled(user: Merchant, settings: Settings, currency: Currency) returns (moves: seq<Move>)
    requires user.role == IRANIAN && user.approved
    requires settings.dailySettlementLimit > 0.0 && settings.minTxAmount <= settings.dailySettlementLimit
    ensures LimitsAtMost(moves, settings.dailySettlementLimit) && Stands(moves, user.id, settings.dailySettlementLimit, 0.0)
  {
    var first := Requesting(user, Input(settings.dailySettlementLimit, currency, true), Some(settings));
    moves := [first];
    assert moves[..0] == [];
    OwnOneMore([], RequestRow(FRESH, user, first.input, first.settings, 0), user.id, -DAY);
    assert Run(moves).table == [] + [RequestRow(FRESH, user, first.input, first.settings, 0)];
  }

  /**
   * The bound is reached: under any positive limit that a single request may fill, and for any
   * amount more, there is a run whose last 24 hours hold the limit and exactly that much besides.
   */
  lemma QuotaExceededWithoutSettings(user: Merchant, settings: Settings, currency: Currency, more: real) returns (moves: seq<Move>)
    requires user.role == IRANIAN && user.approved && more > 0.0
    requires settings.dailySettlementLimit > 0.0 && settings.minTxAmount <= settings.dailySettlementLimit
    ensures LimitsAtMost(moves, settings.dailySettlementLimit)
    ensures Stands(moves, user.id, settings.dailySettlementLimit + more, more)
  {
    moves := LimitCanBeFilled(user, settings, currency);
    moves := UncheckedRequestAdds(moves, user, Input(more, currency, true), settings.dailySettlementLimit, settings.dailySettlementLimit, 0.0);
  }
}
