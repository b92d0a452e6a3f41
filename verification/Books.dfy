/**
 * The gateway's books (lib/server/ledger.ts, postings.ts, and the posting half of refunds.ts): an
 * append-only ledger driven by five money events. `Ledger` is the table the code writes; the
 * functions beside it say what one event, and a run of events, does to that table.
 */
module Books {
  import opened Wrappers
  import opened Money

  /** A database primary key: opaque, compared only for equality. */
  type Id = nat

  datatype Account =
    | DEPOSIT_HELD | BANK_HELD | MERCHANT_PAYABLE | GATEWAY_SHARE | FREEZONE_SHARE
    | BANK_SPREAD | REFUNDED | GATEWAY_PAID | FREEZONE_PAID | SUPPLIER_PAID

  datatype Currency = USDT | BNB

  datatype Unit = Token(currency: Currency) | IRR

  datatype Direction = EXPORT | IMPORT

  datatype Kind = INVOICE_PAID | DEPOSIT_RELEASED | SETTLEMENT_FUNDED | SETTLEMENT_SETTLED | REFUND_SENT

  datatype Subject = OfInvoice | OfDeposit | OfSettlement

  datatype Posting = Posting(account: Account, amount: real, unit: Unit, userId: Option<Id>)

  datatype Key = Key(kind: Kind, subjectId: Id)

  datatype Context = Context(key: Key, subject: Subject, subjectRef: string)

  datatype Entry = Entry(posting: Posting, context: Context)

  /** What a refund reads back from its invoice; either figure may be null there. */
  datatype RefundedInvoice = RefundedInvoice(ownerId: Id, feeAmount: Option<real>, netAmount: Option<real>)

  datatype Event =
    | InvoicePaid(id: Id, ref: string, ownerId: Id, currency: Currency, direction: Option<Direction>,
                  receivedAmount: real, feeAmount: real, netAmount: real, share: Option<Shares>)
    | DepositReleased(id: Id, address: string, currency: Currency, direction: Option<Direction>,
                      total: real, gateway: real, freezone: real, beneficiary: real)
    | SettlementFunded(id: Id, ref: string, ownerId: Id, currency: Currency,
                       amount: real, feeAmount: real, netAmount: real)
    | SettlementSettled(id: Id, ref: string, ownerId: Id, currency: Currency,
                        netAmount: real, spreadRial: Option<real>)
    | RefundSent(id: Id, ref: string, currency: Currency, amount: real, invoice: Option<RefundedInvoice>)

  predicate Importing(e: Event)
    requires e.InvoicePaid? || e.DepositReleased?
  {
    e.direction == Some(IMPORT)
  }

  function ContextOf(e: Event): Context {
    match e
    case InvoicePaid(id, ref, _, _, _, _, _, _, _) => Context(Key(INVOICE_PAID, id), OfInvoice, ref)
    case DepositReleased(id, address, _, _, _, _, _, _) => Context(Key(DEPOSIT_RELEASED, id), OfDeposit, address)
    case SettlementFunded(id, ref, _, _, _, _, _) => Context(Key(SETTLEMENT_FUNDED, id), OfSettlement, ref)
    case SettlementSettled(id, ref, _, _, _, _) => Context(Key(SETTLEMENT_SETTLED, id), OfSettlement, ref)
    case RefundSent(id, ref, _, _, _) => Context(Key(REFUND_SENT, id), OfInvoice, ref)
  }

  function KeyOf(e: Event): Key { ContextOf(e).key }

  /** The fee shares a payment is booked with: the contract's where it is known, else the settings'. */
  function PaidShares(e: Event, percent: real): Shares
    requires e.InvoicePaid?
  {
    if e.share.Some? then e.share.value else SplitGatewayFee(e.feeAmount, percent)
  }

  function RefundShares(e: Event, percent: real): Shares
    requires e.RefundSent? && e.invoice.Some?
  {
    SplitGatewayFee(e.invoice.value.feeAmount.GetOr(0.0), percent)
  }

  /** The postings an event asks for, before zero rows are dropped. */
  function Rows(e: Event, percent: real): seq<Posting> {
    var unit := Token(e.currency);
    match e
    case InvoicePaid(_, _, ownerId, _, _, received, _, net, _) =>
      var s := PaidShares(e, percent);
      [Posting(DEPOSIT_HELD, received, unit, None)] +
      (if Importing(e) then [] else [Posting(MERCHANT_PAYABLE, net, unit, Some(ownerId))]) +
      [Posting(GATEWAY_SHARE, s.gateway, unit, None), Posting(FREEZONE_SHARE, s.freezone, unit, None)]
    case DepositReleased(_, _, _, _, total, gateway, freezone, beneficiary) =>
      [Posting(DEPOSIT_HELD, -total, unit, None),
       Posting(if Importing(e) then SUPPLIER_PAID else BANK_HELD, beneficiary, unit, None),
       Posting(GATEWAY_PAID, gateway, unit, None),
       Posting(FREEZONE_PAID, freezone, unit, None),
       Posting(GATEWAY_SHARE, -gateway, unit, None),
       Posting(FREEZONE_SHARE, -freezone, unit, None)]
    case SettlementFunded(_, _, ownerId, _, amount, fee, net) =>
      var s := SplitGatewayFee(fee, percent);
      [Posting(BANK_HELD, amount, unit, None),
       Posting(MERCHANT_PAYABLE, net, unit, Some(ownerId)),
       Posting(GATEWAY_SHARE, s.gateway, unit, None),
       Posting(FREEZONE_SHARE, s.freezone, unit, None)]
    case SettlementSettled(_, _, ownerId, _, net, spread) =>
      [Posting(MERCHANT_PAYABLE, -net, unit, Some(ownerId)),
       Posting(BANK_HELD, -net, unit, None),
       Posting(BANK_SPREAD, spread.GetOr(0.0), IRR, None)]
    case RefundSent(_, _, _, amount, None) => []
    case RefundSent(_, _, _, amount, Some(invoice)) =>
      var s := RefundShares(e, percent);
      [Posting(REFUNDED, amount, unit, None),
       Posting(DEPOSIT_HELD, -amount, unit, None),
       Posting(MERCHANT_PAYABLE, -invoice.netAmount.GetOr(0.0), unit, Some(invoice.ownerId)),
       Posting(GATEWAY_SHARE, -s.gateway, unit, None),
       Posting(FREEZONE_SHARE, -s.freezone, unit, None)]
  }

  /** `post`: zero rows are dropped, the rest carry the event's context. */
  function Kept(rows: seq<Posting>): seq<Posting> {
    if |rows| == 0 then []
    else (if rows[0].amount != 0.0 then [rows[0]] else []) + Kept(rows[1..])
  }

  function Stamp(rows: seq<Posting>, c: Context): seq<Entry> {
    seq(|rows|, i requires 0 <= i < |rows| => Entry(rows[i], c))
  }

  function Group(e: Event, percent: real): seq<Entry> {
    Stamp(Kept(Rows(e, percent)), ContextOf(e))
  }

  predicate Posted(log: seq<Entry>, key: Key) {
    exists i :: 0 <= i < |log| && log[i].context.key == key
  }

  /** One event reaching the books while the settings row holds `percent`. */
  datatype Booking = Booking(event: Event, percent: real)

  function Step(log: seq<Entry>, b: Booking): seq<Entry> {
    if Posted(log, KeyOf(b.event)) then log else log + Group(b.event, b.percent)
  }

  /** A whole run: any events in any order, retries included, the percent free at each. */
  function Run(log: seq<Entry>, steps: seq<Booking>): seq<Entry> {
    if |steps| == 0 then log else Step(Run(log, steps[..|steps| - 1]), steps[|steps| - 1])
  }

  /** The steps of a run that were not replays: their key was not in the ledger yet. */
  function Written(log: seq<Entry>, steps: seq<Booking>): seq<Booking> {
    if |steps| == 0 then []
    else
      var n := |steps| - 1;
      Written(log, steps[..n]) + (if Posted(Run(log, steps[..n]), KeyOf(steps[n].event)) then [] else [steps[n]])
  }

  // ---------------------------------------------------------------- reading the ledger

  /**
   * A quantity the ledger answers for: one account in one unit, one merchant's claim, and the two
   * combinations of accounts the identities are about.
   */
  datatype Line =
    | OnAccount(account: Account, unit: Unit)
    | OwedTo(userId: Id, unit: Unit)
    | Claims(unit: Unit)
    | Tokens(unit: Unit)

  function Value(line: Line, p: Posting): real {
    if p.unit != line.unit then 0.0 else
    match line
    case OnAccount(a, _) => if p.account == a then p.amount else 0.0
    case OwedTo(user, _) => if p.account == MERCHANT_PAYABLE && p.userId == Some(user) then p.amount else 0.0
    case Claims(_) =>
      (match p.account
       case DEPOSIT_HELD | BANK_HELD | SUPPLIER_PAID => p.amount
       case MERCHANT_PAYABLE | GATEWAY_SHARE | FREEZONE_SHARE => -p.amount
       case _ => 0.0)
    case Tokens(_) =>
      (match p.account
       case DEPOSIT_HELD | BANK_HELD | GATEWAY_PAID | FREEZONE_PAID | SUPPLIER_PAID | REFUNDED => p.amount
       case _ => 0.0)
  }

  function Tally(log: seq<Entry>, line: Line): real {
    if |log| == 0 then 0.0
    else Tally(log[..|log| - 1], line) + Value(line, log[|log| - 1].posting)
  }

  function Total(rows: seq<Posting>, line: Line): real {
    if |rows| == 0 then 0.0 else Value(line, rows[0]) + Total(rows[1..], line)
  }

  /** `balances()`: every (account, unit) pair that occurs, with its sum to eight places. */
  function Balances(log: seq<Entry>): map<(Account, Unit), real> {
    map i | 0 <= i < |log| :: (log[i].posting.account, log[i].posting.unit)
                           := Fixed8(Tally(log, OnAccount(log[i].posting.account, log[i].posting.unit)))
  }

  /** `merchantPayable()`: what one merchant is still owed, per unit, to eight places. */
  function MerchantPayable(log: seq<Entry>, userId: Id): map<Unit, real> {
    map i | 0 <= i < |log| && log[i].posting.account == MERCHANT_PAYABLE && log[i].posting.userId == Some(userId)
      :: log[i].posting.unit := Fixed8(Tally(log, OwedTo(userId, log[i].posting.unit)))
  }

  // ---------------------------------------------------------------- the table itself

  /** The one column of the settings row the books read; 50 where there is no row. */
  function FreezonePercent(settings: Option<real>): real { settings.GetOr(50.0) }

  /** So without a settings row a fee splits in two halves, the odd last unit going to the gateway. */
  lemma HalvesWithoutSettings(fee: real)
    requires fee >= 0.0
    ensures var s := SplitGatewayFee(fee, FreezonePercent(None));
            s.gateway + s.freezone == fee && 0.0 <= s.gateway - s.freezone < 2.0 * UNIT8
  {
    SplitGatewayFeeShape(fee, 50.0);
    assert Times(fee, 50.0) / 100.0 == fee / 2.0;
  }

  class Ledger {
    var entries: seq<Entry>

    constructor ()
      ensures entries == []
    {
      entries := [];
    }

    method AlreadyPosted(kind: Kind, subjectId: Id) returns (found: bool)
      ensures found <==> exists e :: e in entries && e.context.key == Key(kind, subjectId)
      ensures found <==> Posted(entries, Key(kind, subjectId))
    {
      found := exists i :: 0 <= i < |entries| && entries[i].context.key == Key(kind, subjectId);
    }

    /** Writes one group. Entries are only ever added, and none of them is zero. */
    method Post(context: Context, postings: seq<Posting>)
      modifies this
      ensures entries == old(entries) + Stamp(Kept(postings), context)
      ensures forall i :: |old(entries)| <= i < |entries| ==> entries[i].posting.amount != 0.0 && entries[i].context == context
      ensures forall line :: Tally(entries, line) == old(Tally(entries, line)) + Total(postings, line)
    {
      var rows := Kept(postings);
      KeptHasNoZeros(postings);
      forall line
        ensures Tally(entries + Stamp(rows, context), line) == Tally(entries, line) + Total(postings, line)
      {
        TallyOfGroup(entries, postings, context, line);
      }
      if |rows| == 0 {
        return;
      }
      entries := entries + Stamp(rows, context);
    }

    method PostInvoicePaid(invoice: Event, settings: Option<real>)
      requires invoice.InvoicePaid?
      modifies this
      ensures entries == Step(old(entries), Booking(invoice, FreezonePercent(settings)))
    {
      var done := AlreadyPosted(INVOICE_PAID, invoice.id);
      if done { return; }
      var unit := Token(invoice.currency);
      var shares := match invoice.share
        case Some(s) => s
        case None => SplitGatewayFee(invoice.feeAmount, FreezonePercent(settings));
      var context := Context(Key(INVOICE_PAID, invoice.id), OfInvoice, invoice.ref);
      // Importing, the remainder is the foreign seller's: only the fee is ours to account for.
      if invoice.direction == Some(IMPORT) {
        var rows := [Posting(DEPOSIT_HELD, invoice.receivedAmount, unit, None),
                     Posting(GATEWAY_SHARE, shares.gateway, unit, None),
                     Posting(FREEZONE_SHARE, shares.freezone, unit, None)];
        assert rows == Rows(invoice, FreezonePercent(settings));
        Post(context, rows);
        return;
      }
      var rows := [Posting(DEPOSIT_HELD, invoice.receivedAmount, unit, None),
                   Posting(MERCHANT_PAYABLE, invoice.netAmount, unit, Some(invoice.ownerId)),
                   Posting(GATEWAY_SHARE, shares.gateway, unit, None),
                   Posting(FREEZONE_SHARE, shares.freezone, unit, None)];
      assert rows == Rows(invoice, FreezonePercent(settings));
      Post(context, rows);
    }

    method PostDepositReleased(deposit: Event, settings: Option<real>)
      requires deposit.DepositReleased?
      modifies this
      ensures entries == Step(old(entries), Booking(deposit, FreezonePercent(settings)))
    {
      var done := AlreadyPosted(DEPOSIT_RELEASED, deposit.id);
      if done { return; }
      var unit := Token(deposit.currency);
      var remainder := if deposit.direction == Some(IMPORT) then SUPPLIER_PAID else BANK_HELD;
      Post(Context(Key(DEPOSIT_RELEASED, deposit.id), OfDeposit, deposit.address),
           [Posting(DEPOSIT_HELD, -deposit.total, unit, None),
            Posting(remainder, deposit.beneficiary, unit, None),
            Posting(GATEWAY_PAID, deposit.gateway, unit, None),
            Posting(FREEZONE_PAID, deposit.freezone, unit, None),
            Posting(GATEWAY_SHARE, -deposit.gateway, unit, None),
            Posting(FREEZONE_SHARE, -deposit.freezone, unit, None)]);
    }

    method PostSettlementFunded(settlement: Event, settings: Option<real>)
      requires settlement.SettlementFunded?
      modifies this
      ensures entries == Step(old(entries), Booking(settlement, FreezonePercent(settings)))
    {
      var done := AlreadyPosted(SETTLEMENT_FUNDED, settlement.id);
      if done { return; }
      var unit := Token(settlement.currency);
      var shares := SplitGatewayFee(settlement.feeAmount, FreezonePercent(settings));
      Post(Context(Key(SETTLEMENT_FUNDED, settlement.id), OfSettlement, settlement.ref),
           [Posting(BANK_HELD, settlement.amount, unit, None),
            Posting(MERCHANT_PAYABLE, settlement.netAmount, unit, Some(settlement.ownerId)),
            Posting(GATEWAY_SHARE, shares.gateway, unit, None),
            Posting(FREEZONE_SHARE, shares.freezone, unit, None)]);
    }

    method PostSettlementSettled(settlement: Event, settings: Option<real>)
      requires settlement.SettlementSettled?
      modifies this
      ensures entries == Step(old(entries), Booking(settlement, FreezonePercent(settings)))
    {
      var done := AlreadyPosted(SETTLEMENT_SETTLED, settlement.id);
      if done { return; }
      var unit := Token(settlement.currency);
      Post(Context(Key(SETTLEMENT_SETTLED, settlement.id), OfSettlement, settlement.ref),
           [Posting(MERCHANT_PAYABLE, -settlement.netAmount, unit, Some(settlement.ownerId)),
            Posting(BANK_HELD, -settlement.netAmount, unit, None),
            Posting(BANK_SPREAD, settlement.spreadRial.GetOr(0.0), IRR, None)]);
    }

    method PostRefundSent(refund: Event, settings: Option<real>)
      requires refund.RefundSent?
      modifies this
      ensures entries == Step(old(entries), Booking(refund, FreezonePercent(settings)))
    {
      var done := AlreadyPosted(REFUND_SENT, refund.id);
      if done { return; }
      if refund.invoice.None? { return; }
      var invoice := refund.invoice.value;
      var unit := Token(refund.currency);
      var shares := SplitGatewayFee(invoice.feeAmount.GetOr(0.0), FreezonePercent(settings));
      Post(Context(Key(REFUND_SENT, refund.id), OfInvoice, refund.ref),
           [Posting(REFUNDED, refund.amount, unit, None),
            Posting(DEPOSIT_HELD, -refund.amount, unit, None),
            Posting(MERCHANT_PAYABLE, -invoice.netAmount.GetOr(0.0), unit, Some(invoice.ownerId)),
            Posting(GATEWAY_SHARE, -shares.gateway, unit, None),
            Posting(FREEZONE_SHARE, -shares.freezone, unit, None)]);
    }
  }

  // ---------------------------------------------------------------- sums over groups

  lemma {:induction false} KeptHasNoZeros(rows: seq<Posting>)
    ensures forall p :: p in Kept(rows) ==> p.amount != 0.0
  {
    if |rows| > 0 {
      KeptHasNoZeros(rows[1..]);
    }
  }

  /** A group is empty exactly when every one of its figures is zero. */
  lemma {:induction false} KeptIsEmpty(rows: seq<Posting>)
    ensures Kept(rows) == [] <==> forall i :: 0 <= i < |rows| ==> rows[i].amount == 0.0
  {
    if |rows| > 0 {
      KeptIsEmpty(rows[1..]);
      assert forall i :: 0 < i < |rows| ==> rows[i] == rows[1..][i - 1];
    }
  }

  /** Dropping zero rows changes no sum. */
  lemma {:induction false} KeptKeepsTotal(rows: seq<Posting>, line: Line)
    ensures Total(Kept(rows), line) == Total(rows, line)
  {
    if |rows| > 0 {
      KeptKeepsTotal(rows[1..], line);
      if rows[0].amount != 0.0 {
        assert Kept(rows)[1..] == Kept(rows[1..]);
      } else {
        assert Kept(rows) == Kept(rows[1..]);
      }
    }
  }

  lemma {:induction false} TallyOfStamped(log: seq<Entry>, rows: seq<Posting>, c: Context, line: Line)
    ensures Tally(log + Stamp(rows, c), line) == Tally(log, line) + Total(rows, line)
    decreases |rows|
  {
    if |rows| == 0 {
      assert log + Stamp(rows, c) == log;
    } else {
      var head := Entry(rows[0], c);
      TallyOfStamped(log + [head], rows[1..], c, line);
      assert log + Stamp(rows, c) == (log + [head]) + Stamp(rows[1..], c);
      assert (log + [head])[..|log|] == log;
    }
  }

  lemma TallyOfGroup(log: seq<Entry>, rows: seq<Posting>, c: Context, line: Line)
    ensures Tally(log + Stamp(Kept(rows), c), line) == Tally(log, line) + Total(rows, line)
  {
    TallyOfStamped(log, Kept(rows), c, line);
    KeptKeepsTotal(rows, line);
  }

  lemma {:induction false} TallyAppends(a: seq<Entry>, b: seq<Entry>, line: Line)
    ensures Tally(a + b, line) == Tally(a, line) + Tally(b, line)
  {
    if |b| == 0 {
      assert a + b == a;
    } else {
      TallyAppends(a, b[..|b| - 1], line);
      assert (a + b)[..|a + b| - 1] == a + b[..|b| - 1];
    }
  }
}
