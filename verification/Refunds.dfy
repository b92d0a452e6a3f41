/**
 * Refunds, from request to proof (app/api/refunds/route.ts, lib/server/refunds.ts,
 * lib/server/statusEvents.ts): who may move one, what each move writes, and what no run can break.
 */
module Refunds {
  import opened Wrappers
  import opened Money
  import opened Books
  import opened BooksReplay
  import opened Refs
  import opened Uids

  /** Invoice and refund statuses share one column in the audit trail. */
  datatype Status =
    | PENDING | APPROVED | BANK_RATE_LOCKED | RIAL_RECEIVED | PAYMENT_PENDING | PAID
    | EXPIRED | REJECTED | CANCELLING | CANCELLED | REQUESTED | SENT

  datatype User = User(id: Id, role: Role)

  datatype Invoice = Invoice(
    id: Id, ref: string, trxRef: string, ownerId: Id, currency: Currency, status: Status,
    amount: real, receivedAmount: Option<real>, feeAmount: Option<real>, netAmount: Option<real>,
    /** The address the funding transfer came from, once one is recorded. */
    paidFrom: Option<string>,
    /** Its payout exists and the merchant's rial has been paid; PaidOnce joins it to the payouts. */
    settled: bool)

  datatype Refund = Refund(
    id: Id, ref: string, invoiceId: Id, amount: real, currency: Currency, toAddress: string,
    status: Status, requestedBy: Id, reason: string, rejectReason: Option<string>, txHash: Option<string>)

  datatype Actor = ByUser | ByAdmin | ByBank

  datatype StatusEvent = StatusEvent(invoiceId: Id, fromStatus: Status, toStatus: Status, actor: Actor, actorUserId: Id)

  datatype Desk = Desk(
    invoices: seq<Invoice>, refunds: seq<Refund>, trail: seq<StatusEvent>, counters: Counters, log: seq<Entry>)

  /** `findFirst` by either reference, and `findUnique` by id. */
  function FindInvoice(invoices: seq<Invoice>, ref: string): Option<Invoice> {
    if |invoices| == 0 then None
    else if invoices[0].ref == ref || invoices[0].trxRef == ref then Some(invoices[0])
    else FindInvoice(invoices[1..], ref)
  }

  function FindById(invoices: seq<Invoice>, id: Id): Option<Invoice> {
    if |invoices| == 0 then None
    else if invoices[0].id == id then Some(invoices[0])
    else FindById(invoices[1..], id)
  }

  predicate HasRef(refunds: seq<Refund>, ref: string) {
    exists i :: 0 <= i < |refunds| && refunds[i].ref == ref
  }

  /** Where `findUnique({ ref })` lands. */
  function IndexOfRef(refunds: seq<Refund>, ref: string): (i: nat)
    requires HasRef(refunds, ref)
    ensures i < |refunds| && refunds[i].ref == ref
  {
    var n := |refunds| - 1;
    if HasRef(refunds[..n], ref) then IndexOfRef(refunds[..n], ref) else n
  }

  /** Some refund of this invoice that was not rejected. */
  predicate HasLive(refunds: seq<Refund>, invoiceId: Id) {
    exists i :: 0 <= i < |refunds| && refunds[i].invoiceId == invoiceId && refunds[i].status != REJECTED
  }

  // ---------------------------------------------------------------- raising one

  /** The guards of the creation route, in its order. */
  function RaiseRefusal(d: Desk, user: User, invoiceRef: string): Option<Error> {
    match FindInvoice(d.invoices, invoiceRef)
    case None => Some(NotFound)
    case Some(invoice) =>
      if invoice.ownerId != user.id && user.role != ADMIN then Some(BadRequest)
      else if invoice.status != PAID then Some(BadRequest)
      else if HasLive(d.refunds, invoice.id) then Some(Conflict)
      else if invoice.settled then Some(Conflict)
      else if invoice.paidFrom.None? then Some(BadRequest)
      else None
  }

  function NewRefund(d: Desk, user: User, invoice: Invoice, reason: string): Refund
    requires invoice.paidFrom.Some?
  {
    Refund(|d.refunds|, RefundRef(Ref(SettlementRef, d.counters.settlement)), invoice.id,
           invoice.receivedAmount.GetOr(invoice.amount), invoice.currency, invoice.paidFrom.value,
           REQUESTED, user.id, reason, None, None)
  }

  function Raise(d: Desk, user: User, invoiceRef: string, reason: string): (Desk, Result<Refund>) {
    match RaiseRefusal(d, user, invoiceRef)
    case Some(error) => (d, Err(error))
    case None =>
      var invoice := FindInvoice(d.invoices, invoiceRef).value;
      var refund := NewRefund(d, user, invoice, reason);
      var event := StatusEvent(invoice.id, invoice.status, invoice.status, if user.role == ADMIN then ByAdmin else ByUser, user.id);
      (d.(refunds := d.refunds + [refund], trail := d.trail + [event], counters := DrawRef(d.counters, SettlementRef)),
       Ok(refund))
  }

  // ---------------------------------------------------------------- moving one

  datatype Action = Approve | Reject | MarkSent

  /** `verified` is the chain's verdict on the hash: the hash it confirmed, or nothing. */
  datatype Body = Body(action: Action, reason: Option<string>, txHash: Option<string>, verified: Option<string>)

  predicate Missing(s: Option<string>) { s.None? || s.value == "" }

  function AssertTransition(current: Status, allowedFrom: set<Status>): Result<()> {
    if current in allowedFrom then Ok(()) else Err(Conflict)
  }

  /** The refund as the transition leaves it, or why it is refused. */
  function Decide(refund: Refund, body: Body, user: User): Result<Refund> {
    match body.action
    case Approve =>
      if user.role != ADMIN then Err(Forbidden)
      else if refund.status !in {REQUESTED} then Err(Conflict)
      else Ok(refund.(status := APPROVED))
    case Reject =>
      if user.role != ADMIN then Err(Forbidden)
      else if refund.status !in {REQUESTED, APPROVED} then Err(Conflict)
      else if Missing(body.reason) then Err(BadRequest)
      else Ok(refund.(status := REJECTED, rejectReason := body.reason))
    case MarkSent =>
      if user.role != BANK then Err(Forbidden)
      else if refund.status !in {APPROVED} then Err(Conflict)
      else if Missing(body.txHash) then Err(BadRequest)
      else if body.verified.None? then Err(BadRequest)
      else Ok(refund.(status := SENT, txHash := body.verified))
  }

  /** The posting of a sent refund, with its invoice as it reads at that moment. */
  function SentEvent(refund: Refund, invoices: seq<Invoice>): Event {
    RefundSent(refund.id, refund.ref, refund.currency, refund.amount,
               match FindById(invoices, refund.invoiceId)
               case None => None
               case Some(invoice) => Some(RefundedInvoice(invoice.ownerId, invoice.feeAmount, invoice.netAmount)))
  }

  function Advance(d: Desk, user: User, ref: string, body: Body, percent: real): (Desk, Result<Refund>) {
    if user.role != ADMIN && user.role != BANK then (d, Err(Forbidden))
    else if !HasRef(d.refunds, ref) then (d, Err(NotFound))
    else
      var i := IndexOfRef(d.refunds, ref);
      var refund := d.refunds[i];
      match Decide(refund, body, user)
      case Err(error) => (d, Err(error))
      case Ok(updated) =>
        var event := StatusEvent(refund.invoiceId, refund.status, updated.status, if user.role == ADMIN then ByAdmin else ByBank, user.id);
        (d.(refunds := d.refunds[i := updated], trail := d.trail + [event],
            log := if updated.status == SENT then Step(d.log, Booking(SentEvent(updated, d.invoices), percent)) else d.log),
         Ok(updated))
  }

  // ---------------------------------------------------------------- what the two routes promise

  /** This row is the one a reference names: it carries it, and no earlier row does. */
  predicate FirstWith(invoices: seq<Invoice>, k: int, ref: string) {
    0 <= k < |invoices| && (invoices[k].ref == ref || invoices[k].trxRef == ref)
    && forall j :: 0 <= j < k ==> invoices[j].ref != ref && invoices[j].trxRef != ref
  }

  /** Paid, not refunded unless rejected, not paid out, with a known payer, and this user's to refund. */
  predicate Refundable(invoice: Invoice, refunds: seq<Refund>, user: User) {
    && (invoice.ownerId == user.id || user.role == ADMIN)
    && invoice.status == PAID && !invoice.settled && invoice.paidFrom.Some?
    && forall i :: 0 <= i < |refunds| && refunds[i].invoiceId == invoice.id ==> refunds[i].status == REJECTED
  }

  /** Everything that came in goes back to where it came from, in the currency it came in. */
  predicate GivesBack(refund: Refund, invoice: Invoice) {
    && refund.invoiceId == invoice.id && refund.currency == invoice.currency
    && (invoice.receivedAmount.Some? ==> refund.amount == invoice.receivedAmount.value)
    && (invoice.receivedAmount.None? ==> refund.amount == invoice.amount)
    && invoice.paidFrom == Some(refund.toAddress)
  }

  predicate RaisedBy(invoices: seq<Invoice>, refunds: seq<Refund>, user: User, ref: string, k: int) {
    FirstWith(invoices, k, ref) && Refundable(invoices[k], refunds, user)
  }

  lemma {:induction false} FoundIsFirst(invoices: seq<Invoice>, ref: string) returns (k: int)
    ensures FindInvoice(invoices, ref).Some? ==> FirstWith(invoices, k, ref) && FindInvoice(invoices, ref).value == invoices[k]
    ensures FindInvoice(invoices, ref).None? ==> forall j :: 0 <= j < |invoices| ==> invoices[j].ref != ref && invoices[j].trxRef != ref
  {
    k := 0;
    if |invoices| > 0 && invoices[0].ref != ref && invoices[0].trxRef != ref {
      var i := FoundIsFirst(invoices[1..], ref);
      k := i + 1;
      forall j | 1 <= j < |invoices|
        ensures invoices[j] == invoices[1..][j - 1]
      {
      }
    }
  }

  /**
   * A refund is raised if and only if the invoice its reference names may be refunded by this user;
   * then it gives back what that invoice received.
   */
  lemma RaisedIffRefundable(d: Desk, user: User, ref: string, reason: string)
    ensures Raise(d, user, ref, reason).1.Ok? <==> exists k :: RaisedBy(d.invoices, d.refunds, user, ref, k)
    ensures forall k :: RaisedBy(d.invoices, d.refunds, user, ref, k) ==>
              GivesBack(Raise(d, user, ref, reason).1.value, d.invoices[k])
  {
    var found := FoundIsFirst(d.invoices, ref);
    if Raise(d, user, ref, reason).1.Ok? {
      assert RaisedBy(d.invoices, d.refunds, user, ref, found);
    }
    forall k | RaisedBy(d.invoices, d.refunds, user, ref, k)
      ensures Raise(d, user, ref, reason).1.Ok? && GivesBack(Raise(d, user, ref, reason).1.value, d.invoices[k])
    {
      assert k == found;
    }
  }

  /** What was settled when the refund was raised: above all how much goes back, and where to. */
  predicate SameFigures(a: Refund, b: Refund) {
    && a.id == b.id && a.ref == b.ref && a.invoiceId == b.invoiceId && a.amount == b.amount && a.currency == b.currency
    && a.toAddress == b.toAddress && a.requestedBy == b.requestedBy && a.reason == b.reason
  }

  /** What each action takes: whose it is, from where, and what has to come with it. */
  predicate Movable(status: Status, body: Body, user: User) {
    match body.action
    case Approve => user.role == ADMIN && status == REQUESTED
    case Reject => user.role == ADMIN && (status == REQUESTED || status == APPROVED) && body.reason.Some? && body.reason != Some("")
    case MarkSent => user.role == BANK && status == APPROVED && body.txHash.Some? && body.txHash != Some("") && body.verified.Some?
  }

  /** A transition goes through if and only if its action may be taken, and records what came with it. */
  lemma MovedIffMovable(refund: Refund, body: Body, user: User)
    ensures Decide(refund, body, user).Ok? <==> Movable(refund.status, body, user)
    ensures Decide(refund, body, user).Ok? ==>
              var after := Decide(refund, body, user).value;
              && SameFigures(after, refund)
              && (after.status == APPROVED <==> body.action == Approve)
              && (after.status == REJECTED <==> body.action == Reject)
              && (after.status == SENT <==> body.action == MarkSent)
              && (after.status == REJECTED ==> after.rejectReason == body.reason)
              && (after.status == SENT ==> after.txHash == body.verified)
  {
  }

  class RefundDesk {
    var invoices: seq<Invoice>
    var refunds: seq<Refund>
    var trail: seq<StatusEvent>
    const refs: Sequences
    const books: Ledger

    constructor (refs: Sequences, books: Ledger)
      ensures invoices == [] && refunds == [] && trail == [] && this.refs == refs && this.books == books
    {
      invoices, refunds, trail := [], [], [];
      this.refs, this.books := refs, books;
    }

    ghost function View(): Desk
      reads this, refs, books
    {
      Desk(invoices, refunds, trail, refs.counters, books.entries)
    }

    /** `POST /api/refunds`. */
    method Create(user: User, invoiceRef: string, reason: string) returns (r: Result<Refund>)
      modifies this, refs
      ensures (View(), r) == Raise(old(View()), user, invoiceRef, reason)
      ensures r.Ok? <==> exists k :: RaisedBy(invoices, old(refunds), user, invoiceRef, k)
      ensures r.Ok? ==> refunds == old(refunds) + [r.value] && r.value.status == REQUESTED
                        && r.value.requestedBy == user.id && r.value.reason == reason
                        && trail == old(trail) + [StatusEvent(r.value.invoiceId, PAID, PAID, if user.role == ADMIN then ByAdmin else ByUser, user.id)]
                        && exists k :: RaisedBy(invoices, old(refunds), user, invoiceRef, k) && GivesBack(r.value, invoices[k])
      ensures r.Err? ==> View() == old(View())
    {
      RaisedIffRefundable(View(), user, invoiceRef, reason);
      var found := FindInvoice(invoices, invoiceRef);
      if found.None? { return Err(NotFound); }
      var invoice := found.value;
      var isOwner := invoice.ownerId == user.id;
      if !isOwner && user.role != ADMIN { return Err(BadRequest); }
      if invoice.status != PAID { return Err(BadRequest); }
      var live := exists i :: 0 <= i < |refunds| && refunds[i].invoiceId == invoice.id && refunds[i].status != REJECTED;
      if live { return Err(Conflict); }
      if invoice.settled { return Err(Conflict); }
      if invoice.paidFrom.None? { return Err(BadRequest); }

      var amount := invoice.receivedAmount.GetOr(invoice.amount);
      var ref, _ := refs.NextRef(SettlementRef);
      var refund := Refund(|refunds|, RefundRef(ref), invoice.id, amount, invoice.currency, invoice.paidFrom.value,
                           REQUESTED, user.id, reason, None, None);
      refunds := refunds + [refund];
      trail := trail + [StatusEvent(invoice.id, invoice.status, invoice.status, if user.role == ADMIN then ByAdmin else ByUser, user.id)];
      r := Ok(refund);
    }

    /** `PATCH /api/refunds` and the transition it drives. */
    method Patch(user: User, ref: string, body: Body, settings: Option<real>) returns (r: Result<Refund>)
      modifies this, books
      ensures (View(), r) == Advance(old(View()), user, ref, body, FreezonePercent(settings))
      ensures r.Ok? <==> user.role in {ADMIN, BANK} && HasRef(old(refunds), ref)
                         && Movable(old(refunds)[IndexOfRef(old(refunds), ref)].status, body, user)
      ensures r.Ok? ==> exists i :: 0 <= i < |refunds| && old(refunds)[i].ref == ref && refunds == old(refunds)[i := r.value]
                                    && SameFigures(r.value, old(refunds)[i])
                                    && trail == old(trail) + [StatusEvent(r.value.invoiceId, old(refunds)[i].status, r.value.status,
                                                                          if user.role == ADMIN then ByAdmin else ByBank, user.id)]
      ensures r.Ok? && body.action == MarkSent ==> r.value.status == SENT && r.value.txHash == body.verified
      ensures r.Ok? && body.action == Reject ==> r.value.status == REJECTED && r.value.rejectReason == body.reason
      ensures r.Ok? && body.action == Approve ==> r.value.status == APPROVED
      ensures r.Err? ==> View() == old(View())
    {
      if user.role != ADMIN && user.role != BANK { return Err(Forbidden); }
      if !HasRef(refunds, ref) { return Err(NotFound); }
      var i := IndexOfRef(refunds, ref);
      var refund := refunds[i];
      var updated := refund;
      MovedIffMovable(refund, body, user);
      match body.action {
        case Approve =>
          if user.role != ADMIN { return Err(Forbidden); }
          var edge := AssertTransition(refund.status, {REQUESTED});
          if edge.Err? { return Err(edge.error); }
          updated := refund.(status := APPROVED);
        case Reject =>
          if user.role != ADMIN { return Err(Forbidden); }
          var edge := AssertTransition(refund.status, {REQUESTED, APPROVED});
          if edge.Err? { return Err(edge.error); }
          if Missing(body.reason) { return Err(BadRequest); }
          updated := refund.(status := REJECTED, rejectReason := body.reason);
        case MarkSent =>
          if user.role != BANK { return Err(Forbidden); }
          var edge := AssertTransition(refund.status, {APPROVED});
          if edge.Err? { return Err(edge.error); }
          if Missing(body.txHash) { return Err(BadRequest); }
          if body.verified.None? { return Err(BadRequest); }
          updated := refund.(status := SENT, txHash := body.verified);
      }
      refunds := refunds[i := updated];
      trail := trail + [StatusEvent(refund.invoiceId, refund.status, updated.status,
                                    if user.role == ADMIN then ByAdmin else ByBank, user.id)];
      if updated.status == SENT {
        books.PostRefundSent(SentEvent(updated, invoices), settings);
      }
      r := Ok(updated);
    }
  }

  // ---------------------------------------------------------------- runs

  /**
   * One step of the whole system as refunds see it: their two routes, the invoices changing in any
   * way at all, references drawn by other flows, and any other event reaching the books.
   */
  datatype Move =
    | Raising(user: User, invoiceRef: string, reason: string)
    | Advancing(user: User, ref: string, body: Body, percent: real)
    | InvoicesChange(invoices: seq<Invoice>)
    | DrawElsewhere(kind: RefKind)
    | BookOther(booking: Booking)

  function Apply(d: Desk, m: Move): Desk {
    match m
    case Raising(user, invoiceRef, reason) => Raise(d, user, invoiceRef, reason).0
    case Advancing(user, ref, body, percent) => Advance(d, user, ref, body, percent).0
    case InvoicesChange(invoices) => d.(invoices := invoices)
    case DrawElsewhere(kind) => d.(counters := DrawRef(d.counters, kind))
    case BookOther(b) => if b.event.RefundSent? then d else d.(log := Step(d.log, b))
  }

  function Run(moves: seq<Move>): Desk {
    if |moves| == 0 then Desk([], [], [], FRESH, [])
    else Apply(Run(moves[..|moves| - 1]), moves[|moves| - 1])
  }

  // ---------------------------------------------------------------- one live refund per invoice

  predicate IsRefundStatus(s: Status) { s in {REQUESTED, APPROVED, SENT, REJECTED} }

  ghost predicate RefOfRefund(ref: string, c: Counters) {
    exists n: nat :: n < c.settlement && ref == RefundRef(Ref(SettlementRef, n))
  }

  /** Rows are numbered, references are the desk's own and distinct, and a later refund needs the earlier rejected. */
  ghost predicate Orderly(refunds: seq<Refund>, c: Counters) {
    && (forall i :: 0 <= i < |refunds| ==> refunds[i].id == i && IsRefundStatus(refunds[i].status))
    && (forall i :: 0 <= i < |refunds| ==> RefOfRefund(refunds[i].ref, c))
    && (forall i, j :: 0 <= i < j < |refunds| ==> refunds[i].ref != refunds[j].ref)
    && (forall i, j :: 0 <= i < j < |refunds| && refunds[i].invoiceId == refunds[j].invoiceId ==> refunds[i].status == REJECTED)
  }

  lemma OrderlyWithMoreRefs(refunds: seq<Refund>, c: Counters, kind: RefKind)
    requires Orderly(refunds, c)
    ensures Orderly(refunds, DrawRef(c, kind))
  {
    forall i | 0 <= i < |refunds|
      ensures RefOfRefund(refunds[i].ref, DrawRef(c, kind))
    {
      assert RefOfRefund(refunds[i].ref, c);
      var n: nat :| n < c.settlement && refunds[i].ref == RefundRef(Ref(SettlementRef, n));
      assert n < DrawRef(c, kind).settlement;
    }
  }

  lemma RaiseKeepsOrder(d: Desk, user: User, invoiceRef: string, reason: string)
    requires Orderly(d.refunds, d.counters)
    ensures var after := Raise(d, user, invoiceRef, reason).0; Orderly(after.refunds, after.counters)
  {
    if RaiseRefusal(d, user, invoiceRef).None? {
      var refund := NewRefund(d, user, FindInvoice(d.invoices, invoiceRef).value, reason);
      OrderlyWithMoreRefs(d.refunds, d.counters, SettlementRef);
      NewRefIsUnused(d.refunds, d.counters);
      assert d.counters.settlement < DrawRef(d.counters, SettlementRef).settlement;
      assert RefOfRefund(refund.ref, DrawRef(d.counters, SettlementRef));
      assert forall i :: 0 <= i < |d.refunds| && d.refunds[i].invoiceId == refund.invoiceId ==> d.refunds[i].status == REJECTED;
    }
  }

  lemma NewRefIsUnused(refunds: seq<Refund>, c: Counters)
    requires Orderly(refunds, c)
    ensures forall i :: 0 <= i < |refunds| ==> refunds[i].ref != RefundRef(Ref(SettlementRef, c.settlement))
  {
    forall i | 0 <= i < |refunds|
      ensures refunds[i].ref != RefundRef(Ref(SettlementRef, c.settlement))
    {
      assert RefOfRefund(refunds[i].ref, c);
      var n: nat :| n < c.settlement && refunds[i].ref == RefundRef(Ref(SettlementRef, n));
      if refunds[i].ref == RefundRef(Ref(SettlementRef, c.settlement)) {
        RefundRefIsInjective(n, c.settlement);
      }
    }
  }

  /** A transition moves a live refund to a refund status and leaves its identity and figures alone. */
  lemma DecidedKeepsIdentity(refund: Refund, body: Body, user: User)
    requires Decide(refund, body, user).Ok?
    ensures var updated := Decide(refund, body, user).value;
            && refund.status in {REQUESTED, APPROVED} && IsRefundStatus(updated.status)
            && (updated.status == SENT ==> refund.status == APPROVED)
            && SameFigures(updated, refund)
  {
  }

  lemma UpdateKeepsOrder(refunds: seq<Refund>, c: Counters, i: nat, updated: Refund)
    requires Orderly(refunds, c) && i < |refunds| && refunds[i].status != REJECTED && IsRefundStatus(updated.status)
    requires updated.id == i && updated.ref == refunds[i].ref && updated.invoiceId == refunds[i].invoiceId
    ensures Orderly(refunds[i := updated], c)
  {
    var changed := refunds[i := updated];
    forall k | 0 <= k < |changed|
      ensures RefOfRefund(changed[k].ref, c) && changed[k].ref == refunds[k].ref
    {
      assert RefOfRefund(refunds[k].ref, c);
    }
  }

  lemma AdvanceKeepsOrder(d: Desk, user: User, ref: string, body: Body, percent: real)
    requires Orderly(d.refunds, d.counters)
    ensures var after := Advance(d, user, ref, body, percent).0; Orderly(after.refunds, after.counters)
  {
    var after := Advance(d, user, ref, body, percent);
    if after.1.Ok? {
      var i := IndexOfRef(d.refunds, ref);
      DecidedKeepsIdentity(d.refunds[i], body, user);
      UpdateKeepsOrder(d.refunds, d.counters, i, after.1.value);
    }
  }

  lemma {:induction false} RunIsOrderly(moves: seq<Move>)
    ensures Orderly(Run(moves).refunds, Run(moves).counters)
  {
    if |moves| > 0 {
      var d, m := Run(moves[..|moves| - 1]), moves[|moves| - 1];
      RunIsOrderly(moves[..|moves| - 1]);
      match m
      case Raising(user, invoiceRef, reason) => RaiseKeepsOrder(d, user, invoiceRef, reason);
      case Advancing(user, ref, body, percent) => AdvanceKeepsOrder(d, user, ref, body, percent);
      case DrawElsewhere(kind) => OrderlyWithMoreRefs(d.refunds, d.counters, kind);
      case InvoicesChange(_) =>
      case BookOther(_) =>
    }
  }

  /** In every run, of all refunds ever raised against an invoice at most one is not rejected. */
  lemma {:induction false} AtMostOneLiveRefund(moves: seq<Move>, i: nat, j: nat)
    requires i < |Run(moves).refunds| && j < |Run(moves).refunds|
    requires var rs := Run(moves).refunds;
             rs[i].invoiceId == rs[j].invoiceId && rs[i].status != REJECTED && rs[j].status != REJECTED
    ensures i == j
  {
    RunIsOrderly(moves);
  }

  /**
   * A refund once raised stays: through any further moves its amount, its destination and all it
   * was raised with are unchanged, and once rejected or sent it never changes again at all.
   */
  lemma {:induction false} FiguresNeverChange(moves: seq<Move>, n: nat, i: nat)
    requires n <= |moves| && i < |Run(moves[..n]).refunds|
    ensures var before, after := Run(moves[..n]).refunds, Run(moves).refunds;
            && i < |after| && SameFigures(after[i], before[i])
            && (before[i].status in {REJECTED, SENT} ==> after[i] == before[i])
    decreases |moves| - n
  {
    if n < |moves| {
      assert moves[..n + 1][..n] == moves[..n];
      OneMoveKeepsFigures(Run(moves[..n]), moves[n], i);
      FiguresNeverChange(moves, n + 1, i);
    } else {
      assert moves[..n] == moves;
    }
  }

  lemma OneMoveKeepsFigures(d: Desk, m: Move, i: nat)
    requires i < |d.refunds|
    ensures var after := Apply(d, m).refunds;
            && i < |after| && SameFigures(after[i], d.refunds[i])
            && (d.refunds[i].status in {REJECTED, SENT} ==> after[i] == d.refunds[i])
  {
    if m.Advancing? && Advance(d, m.user, m.ref, m.body, m.percent).1.Ok? {
      DecidedKeepsIdentity(d.refunds[IndexOfRef(d.refunds, m.ref)], m.body, m.user);
    }
  }

  // ---------------------------------------------------------------- one posting per invoice

  function RefundKey(i: nat): Key { Key(REFUND_SENT, i) }

  ghost predicate PostedAs(log: seq<Entry>, i: nat, refund: Refund) {
    exists e: Event, p :: e.RefundSent? && e.id == i && e.amount == refund.amount && e.ref == refund.ref
                          && Only(log, {RefundKey(i)}) == Group(e, p)
  }

  /** A refund's rows are in the ledger only once it is SENT, and then they are its one group. */
  ghost predicate BooksFollow(d: Desk) {
    && (forall k :: 0 <= k < |d.log| && d.log[k].context.key.kind == REFUND_SENT ==>
         d.log[k].context.key.subjectId < |d.refunds| && d.refunds[d.log[k].context.key.subjectId].status == SENT)
    && (forall i :: 0 <= i < |d.refunds| && d.refunds[i].status == SENT ==> PostedAs(d.log, i, d.refunds[i]))
  }

  lemma UnsentIsNotPosted(d: Desk, i: nat)
    requires BooksFollow(d) && (i >= |d.refunds| || d.refunds[i].status != SENT)
    ensures !Posted(d.log, RefundKey(i))
  {
  }

  lemma OtherStepLeavesRefund(log: seq<Entry>, b: Booking, i: nat)
    requires KeyOf(b.event) != RefundKey(i)
    ensures Only(Step(log, b), {RefundKey(i)}) == Only(log, {RefundKey(i)})
  {
    StepOnly(log, b, {RefundKey(i)});
  }

  lemma BookingKeepsBooksFollow(d: Desk, b: Booking)
    requires BooksFollow(d) && !b.event.RefundSent?
    ensures BooksFollow(d.(log := Step(d.log, b)))
  {
    forall i | 0 <= i < |d.refunds| && d.refunds[i].status == SENT
      ensures PostedAs(Step(d.log, b), i, d.refunds[i])
    {
      OtherStepLeavesRefund(d.log, b, i);
      assert PostedAs(d.log, i, d.refunds[i]);
    }
  }

  lemma AdvanceKeepsBooksFollow(d: Desk, user: User, ref: string, body: Body, percent: real)
    requires Orderly(d.refunds, d.counters) && BooksFollow(d)
    ensures BooksFollow(Advance(d, user, ref, body, percent).0)
  {
    var after := Advance(d, user, ref, body, percent);
    if after.1.Ok? {
      var i, updated := IndexOfRef(d.refunds, ref), after.1.value;
      DecidedKeepsIdentity(d.refunds[i], body, user);
      if updated.status == SENT {
        UnsentIsNotPosted(d, i);
        SendingPosts(d, i, updated, percent);
        BooksFollowIgnoresTrail(d.(refunds := after.0.refunds, log := after.0.log), after.0);
      } else {
        MovingUnsentKeeps(d, i, updated);
        BooksFollowIgnoresTrail(d.(refunds := after.0.refunds), after.0);
      }
    }
  }

  lemma BooksFollowIgnoresTrail(d: Desk, e: Desk)
    requires BooksFollow(d) && d.refunds == e.refunds && d.log == e.log
    ensures BooksFollow(e)
  {
  }

  lemma MovingUnsentKeeps(d: Desk, i: nat, updated: Refund)
    requires BooksFollow(d) && i < |d.refunds| && d.refunds[i].status != SENT && updated.status != SENT
    ensures BooksFollow(d.(refunds := d.refunds[i := updated]))
  {
    var moved := d.refunds[i := updated];
    forall j | 0 <= j < |moved| && moved[j].status == SENT
      ensures PostedAs(d.log, j, moved[j])
    {
      assert j != i && PostedAs(d.log, j, d.refunds[j]);
    }
  }

  lemma SendingPosts(d: Desk, i: nat, updated: Refund, percent: real)
    requires BooksFollow(d) && i < |d.refunds| && d.refunds[i].status == APPROVED && !Posted(d.log, RefundKey(i))
    requires updated.id == i && updated.status == SENT
    ensures BooksFollow(d.(refunds := d.refunds[i := updated],
                           log := Step(d.log, Booking(SentEvent(updated, d.invoices), percent))))
  {
    var e := SentEvent(updated, d.invoices);
    var refunds, log := d.refunds[i := updated], Step(d.log, Booking(e, percent));
    assert KeyOf(e) == RefundKey(i);
    forall j | 0 <= j < |refunds| && refunds[j].status == SENT
      ensures PostedAs(log, j, refunds[j])
    {
      if j == i {
        NotPostedMeansNone(d.log, RefundKey(i));
        StepOnly(d.log, Booking(e, percent), {RefundKey(i)});
        assert Only(log, {RefundKey(i)}) == Group(e, percent);
      } else {
        assert PostedAs(d.log, j, d.refunds[j]);
        OtherStepLeavesRefund(d.log, Booking(e, percent), j);
      }
    }
  }

  lemma {:induction false} RunBooksFollow(moves: seq<Move>)
    ensures BooksFollow(Run(moves))
  {
    if |moves| > 0 {
      var d, m := Run(moves[..|moves| - 1]), moves[|moves| - 1];
      RunBooksFollow(moves[..|moves| - 1]);
      RunIsOrderly(moves[..|moves| - 1]);
      match m
      case Raising(user, invoiceRef, reason) => RaiseKeepsBooksFollow(d, user, invoiceRef, reason);
      case Advancing(user, ref, body, percent) => AdvanceKeepsBooksFollow(d, user, ref, body, percent);
      case BookOther(b) => if !b.event.RefundSent? { BookingKeepsBooksFollow(d, b); }
      case DrawElsewhere(_) =>
      case InvoicesChange(_) =>
    }
  }

  lemma RaiseKeepsBooksFollow(d: Desk, user: User, invoiceRef: string, reason: string)
    requires BooksFollow(d)
    ensures BooksFollow(Raise(d, user, invoiceRef, reason).0)
  {
    var after := Raise(d, user, invoiceRef, reason).0;
    forall i | 0 <= i < |after.refunds| && after.refunds[i].status == SENT
      ensures PostedAs(after.log, i, after.refunds[i])
    {
      assert PostedAs(d.log, i, d.refunds[i]);
    }
  }

  /**
   * At most one refund of an invoice ever reaches the books, though the ledger's guard is on the
   * refund's id: any two REFUND_SENT entries of one invoice belong to the same, SENT refund, whose
   * entries are exactly one group for its own amount.
   */
  lemma OneRefundPostedPerInvoice(moves: seq<Move>, x: nat, y: nat)
    requires var log := Run(moves).log;
             && x < |log| && log[x].context.key.kind == REFUND_SENT
             && y < |log| && log[y].context.key.kind == REFUND_SENT
    ensures var d := Run(moves);
            var i, j := d.log[x].context.key.subjectId, d.log[y].context.key.subjectId;
            && i < |d.refunds| && j < |d.refunds|
            && (d.refunds[i].invoiceId == d.refunds[j].invoiceId ==> i == j)
            && d.refunds[i].status == SENT && PostedAs(d.log, i, d.refunds[i])
  {
    RunIsOrderly(moves);
    RunBooksFollow(moves);
  }

  // ---------------------------------------------------------------- where every refund came from

  /** The n-th move raised refund i, from the invoice its reference named just then. */
  ghost predicate RaisedAt(moves: seq<Move>, n: nat, i: nat, refund: Refund) {
    && n < |moves| && moves[n].Raising? && |Run(moves[..n]).refunds| == i
    && refund.requestedBy == moves[n].user.id && refund.reason == moves[n].reason
    && exists k :: RaisedBy(Run(moves[..n]).invoices, Run(moves[..n]).refunds, moves[n].user, moves[n].invoiceRef, k)
                   && GivesBack(refund, Run(moves[..n]).invoices[k])
  }

  lemma RaisedAtLonger(moves: seq<Move>, last: nat, n: nat, i: nat, refund: Refund, later: Refund)
    requires last <= |moves| && RaisedAt(moves[..last], n, i, refund) && SameFigures(refund, later)
    ensures RaisedAt(moves, n, i, later)
  {
    assert moves[..last][..n] == moves[..n];
    var k :| RaisedBy(Run(moves[..n]).invoices, Run(moves[..n]).refunds, moves[n].user, moves[n].invoiceRef, k)
             && GivesBack(refund, Run(moves[..n]).invoices[k]);
    assert GivesBack(later, Run(moves[..n]).invoices[k]);
  }

  lemma RaisedJustNow(d: Desk, m: Move)
    requires |Apply(d, m).refunds| > |d.refunds|
    ensures m.Raising? && |Apply(d, m).refunds| == |d.refunds| + 1
    ensures var refund := Apply(d, m).refunds[|d.refunds|];
            && refund.requestedBy == m.user.id && refund.reason == m.reason
            && exists k :: RaisedBy(d.invoices, d.refunds, m.user, m.invoiceRef, k) && GivesBack(refund, d.invoices[k])
  {
    RaisedIffRefundable(d, m.user, m.invoiceRef, m.reason);
  }

  /**
   * Every refund of every run was raised by one request, against the first invoice that carried the
   * reference it gave, by its owner or an admin, and gives back exactly what that invoice had
   * received, in its currency, to its payer.
   */
  lemma {:induction false} EveryRefundGivesBack(moves: seq<Move>, i: nat)
    requires i < |Run(moves).refunds|
    ensures exists n :: RaisedAt(moves, n, i, Run(moves).refunds[i])
  {
    var last := |moves| - 1;
    var d, m := Run(moves[..last]), moves[last];
    if i < |d.refunds| {
      EveryRefundGivesBack(moves[..last], i);
      var n :| RaisedAt(moves[..last], n, i, d.refunds[i]);
      OneMoveKeepsFigures(d, m, i);
      RaisedAtLonger(moves, last, n, i, d.refunds[i], Run(moves).refunds[i]);
    } else {
      RaisedJustNow(d, m);
      assert RaisedAt(moves, last, i, Run(moves).refunds[i]);
    }
  }

  // ---------------------------------------------------------------- what every end rests on

  /** What the posting reads back is the row of the refund's invoice as it stood, or there was none. */
  predicate ReadFrom(invoices: seq<Invoice>, invoiceId: Id, read: Option<RefundedInvoice>) {
    match read
    case None => forall k :: 0 <= k < |invoices| ==> invoices[k].id != invoiceId
    case Some(r) =>
      exists k :: 0 <= k < |invoices| && invoices[k].id == invoiceId && (forall j :: 0 <= j < k ==> invoices[j].id != invoiceId)
                  && r.ownerId == invoices[k].ownerId && r.feeAmount == invoices[k].feeAmount && r.netAmount == invoices[k].netAmount
  }

  lemma {:induction false} FoundByIdIsRead(invoices: seq<Invoice>, refund: Refund)
    ensures ReadFrom(invoices, refund.invoiceId, SentEvent(refund, invoices).invoice)
  {
    if |invoices| > 0 && invoices[0].id != refund.invoiceId {
      var rest := invoices[1..];
      FoundByIdIsRead(rest, refund);
      var read := SentEvent(refund, rest).invoice;
      if read.Some? {
        var k :| 0 <= k < |rest| && rest[k].id == refund.invoiceId && (forall j :: 0 <= j < k ==> rest[j].id != refund.invoiceId)
                 && read.value.ownerId == rest[k].ownerId && read.value.feeAmount == rest[k].feeAmount && read.value.netAmount == rest[k].netAmount;
        assert invoices[k + 1] == rest[k];
        assert forall j :: 1 <= j < k + 1 ==> invoices[j] == rest[j - 1];
      } else {
        assert forall k :: 1 <= k < |invoices| ==> invoices[k] == rest[k - 1];
      }
    }
  }

  /** Its entries in the ledger are those of one event for its figures, against this invoice as read. */
  ghost predicate BookedAgainst(log: seq<Entry>, i: nat, refund: Refund, invoices: seq<Invoice>, percent: real) {
    exists e: Event ::
      && e.RefundSent? && e.id == i && e.ref == refund.ref && e.amount == refund.amount && e.currency == refund.currency
      && ReadFrom(invoices, refund.invoiceId, e.invoice) && Only(log, {RefundKey(i)}) == Group(e, percent)
  }

  /**
   * The n-th move ended refund i: the bank's `markSent`, with a hash the chain confirmed and the
   * entries it left, or an admin's `reject` with its reason.
   */
  ghost predicate EndedAt(moves: seq<Move>, n: nat, i: nat, d: Desk)
    requires i < |d.refunds|
  {
    var refund := d.refunds[i];
    && n < |moves| && moves[n].Advancing? && moves[n].ref == refund.ref
    && (refund.status == SENT ==>
          && moves[n].body.action == MarkSent && moves[n].user.role == BANK && !Missing(moves[n].body.txHash)
          && refund.txHash.Some? && refund.txHash == moves[n].body.verified
          && BookedAgainst(d.log, i, refund, Run(moves[..n]).invoices, moves[n].percent))
    && (refund.status == REJECTED ==>
          && moves[n].body.action == Reject && moves[n].user.role == ADMIN
          && !Missing(refund.rejectReason) && refund.rejectReason == moves[n].body.reason)
  }

  predicate Over(s: Status) { s == SENT || s == REJECTED }

  lemma EndedBefore(moves: seq<Move>, n: nat, i: nat)
    requires |moves| > 0
    requires var before := Run(moves[..|moves| - 1]);
             i < |before.refunds| && Over(before.refunds[i].status) && EndedAt(moves[..|moves| - 1], n, i, before)
    ensures i < |Run(moves).refunds| && EndedAt(moves, n, i, Run(moves))
  {
    var last := |moves| - 1;
    var before, m := Run(moves[..last]), moves[last];
    OneMoveKeepsFigures(before, m, i);
    assert moves[..last][..n] == moves[..n];
    RunIsOrderly(moves[..last]);
    EndedKeepsEntries(before, m, i);
    var refund := before.refunds[i];
    if refund.status == SENT {
      var e: Event :| && e.RefundSent? && e.id == i && e.ref == refund.ref && e.amount == refund.amount && e.currency == refund.currency
                      && ReadFrom(Run(moves[..n]).invoices, refund.invoiceId, e.invoice)
                      && Only(before.log, {RefundKey(i)}) == Group(e, moves[n].percent);
      assert BookedAgainst(Run(moves).log, i, refund, Run(moves[..n]).invoices, moves[n].percent);
    }
  }

  lemma EndedKeepsEntries(d: Desk, m: Move, i: nat)
    requires Orderly(d.refunds, d.counters) && i < |d.refunds| && Over(d.refunds[i].status)
    ensures Only(Apply(d, m).log, {RefundKey(i)}) == Only(d.log, {RefundKey(i)})
  {
    if m.BookOther? && !m.booking.event.RefundSent? {
      OtherStepLeavesRefund(d.log, m.booking, i);
    } else if m.Advancing? && Advance(d, m.user, m.ref, m.body, m.percent).1.Ok? {
      var updated := Advance(d, m.user, m.ref, m.body, m.percent).1.value;
      var k := IndexOfRef(d.refunds, m.ref);
      DecidedKeepsIdentity(d.refunds[k], m.body, m.user);
      assert k != i && updated.id == k;
      OtherStepLeavesRefund(d.log, Booking(SentEvent(updated, d.invoices), m.percent), i);
    }
  }

  lemma EndedJustNow(d: Desk, m: Move, i: nat)
    requires Orderly(d.refunds, d.counters) && BooksFollow(d)
    requires i < |Apply(d, m).refunds| && Over(Apply(d, m).refunds[i].status) && (i < |d.refunds| ==> !Over(d.refunds[i].status))
    ensures i < |d.refunds| && m.Advancing? && HasRef(d.refunds, m.ref) && i == IndexOfRef(d.refunds, m.ref)
    ensures Decide(d.refunds[i], m.body, m.user) == Ok(Apply(d, m).refunds[i]) && m.ref == Apply(d, m).refunds[i].ref
    ensures Apply(d, m).refunds[i].status == SENT ==> BookedAgainst(Apply(d, m).log, i, Apply(d, m).refunds[i], d.invoices, m.percent)
  {
    var updated := Apply(d, m).refunds[i];
    assert m.Advancing? && Advance(d, m.user, m.ref, m.body, m.percent).1 == Ok(updated);
    DecidedKeepsIdentity(d.refunds[i], m.body, m.user);
    if updated.status == SENT {
      SendingIsBooked(d, i, updated, m.percent);
    }
  }

  lemma SendingIsBooked(d: Desk, i: nat, updated: Refund, percent: real)
    requires BooksFollow(d) && i < |d.refunds| && d.refunds[i].status != SENT && updated.id == i
    ensures BookedAgainst(Step(d.log, Booking(SentEvent(updated, d.invoices), percent)), i, updated, d.invoices, percent)
  {
    var e := SentEvent(updated, d.invoices);
    assert KeyOf(e) == RefundKey(i);
    UnsentIsNotPosted(d, i);
    NotPostedMeansNone(d.log, RefundKey(i));
    StepOnly(d.log, Booking(e, percent), {RefundKey(i)});
    FoundByIdIsRead(d.invoices, updated);
    assert Only(Step(d.log, Booking(e, percent)), {RefundKey(i)}) == Group(e, percent);
  }

  /**
   * No refund ends on anyone's word alone. In every run a SENT refund carries the hash the chain
   * confirmed to the bank's own `markSent`, and its entries in the ledger are against its own
   * invoice's owner, fee and net as that row stood then; a REJECTED one carries the reason an admin
   * gave.
   */
  lemma {:induction false} EveryEndIsVouchedFor(moves: seq<Move>, i: nat)
    requires i < |Run(moves).refunds| && Over(Run(moves).refunds[i].status)
    ensures exists n :: EndedAt(moves, n, i, Run(moves))
  {
    var last := |moves| - 1;
    var d, m := Run(moves[..last]), moves[last];
    if i < |d.refunds| && Over(d.refunds[i].status) {
      EveryEndIsVouchedFor(moves[..last], i);
      var n :| EndedAt(moves[..last], n, i, d);
      EndedBefore(moves, n, i);
    } else {
      RunIsOrderly(moves[..last]);
      RunBooksFollow(moves[..last]);
      EndedJustNow(d, m, i);
      MovedIffMovable(d.refunds[i], m.body, m.user);
      assert EndedAt(moves, last, i, Run(moves));
    }
  }

  // ---------------------------------------------------------------- the trail

  datatype Phase = Idle | Requested | Cleared | Returned | Broken

  /** The only orders in which refund events of one invoice may follow each other, and by whom. */
  function NextPhase(p: Phase, e: StatusEvent): Phase {
    match (p, e.fromStatus, e.toStatus, e.actor)
    case (Idle, PAID, PAID, ByUser) => Requested
    case (Idle, PAID, PAID, ByAdmin) => Requested
    case (Requested, REQUESTED, APPROVED, ByAdmin) => Cleared
    case (Requested, REQUESTED, REJECTED, ByAdmin) => Idle
    case (Cleared, APPROVED, REJECTED, ByAdmin) => Idle
    case (Cleared, APPROVED, SENT, ByBank) => Returned
    case _ => Broken
  }

  /** `history` of one invoice's refunds, and the phase it ends in. */
  function TrailOf(trail: seq<StatusEvent>, invoiceId: Id): seq<StatusEvent> {
    if |trail| == 0 then []
    else
      var n := |trail| - 1;
      TrailOf(trail[..n], invoiceId) + (if trail[n].invoiceId == invoiceId then [trail[n]] else [])
  }

  function Scan(events: seq<StatusEvent>): Phase {
    if |events| == 0 then Idle else NextPhase(Scan(events[..|events| - 1]), events[|events| - 1])
  }

  function PhaseOfStatus(s: Status): Phase {
    match s
    case REQUESTED => Requested
    case APPROVED => Cleared
    case SENT => Returned
    case _ => Idle
  }

  /** Where the invoice's latest refund stands. */
  function PhaseOf(refunds: seq<Refund>, invoiceId: Id): Phase {
    if |refunds| == 0 then Idle
    else
      var n := |refunds| - 1;
      if refunds[n].invoiceId == invoiceId then PhaseOfStatus(refunds[n].status) else PhaseOf(refunds[..n], invoiceId)
  }

  lemma ScanOneMore(trail: seq<StatusEvent>, e: StatusEvent, invoiceId: Id)
    ensures Scan(TrailOf(trail + [e], invoiceId)) ==
            if e.invoiceId == invoiceId then NextPhase(Scan(TrailOf(trail, invoiceId)), e) else Scan(TrailOf(trail, invoiceId))
  {
    assert (trail + [e])[..|trail|] == trail;
    var t := TrailOf(trail, invoiceId);
    if e.invoiceId == invoiceId {
      assert (t + [e])[..|t|] == t;
    } else {
      assert t + [] == t;
    }
  }

  lemma LiveInPrefix(refunds: seq<Refund>, n: nat, invoiceId: Id)
    requires n <= |refunds|
    ensures HasLive(refunds[..n], invoiceId) ==> HasLive(refunds, invoiceId)
  {
    if HasLive(refunds[..n], invoiceId) {
      var i :| 0 <= i < n && refunds[..n][i].invoiceId == invoiceId && refunds[..n][i].status != REJECTED;
      assert refunds[i] == refunds[..n][i];
    }
  }

  lemma {:induction false} NoLiveMeansIdle(refunds: seq<Refund>, invoiceId: Id)
    requires !HasLive(refunds, invoiceId)
    ensures PhaseOf(refunds, invoiceId) == Idle
  {
    if |refunds| > 0 {
      var n := |refunds| - 1;
      if refunds[n].invoiceId == invoiceId {
        assert refunds[n].status == REJECTED;
      } else {
        LiveInPrefix(refunds, n, invoiceId);
        NoLiveMeansIdle(refunds[..n], invoiceId);
      }
    }
  }

  /** The live refund is the invoice's last, so moving it moves that invoice's phase and no other. */
  lemma {:induction false} PhaseAfterUpdate(refunds: seq<Refund>, i: nat, updated: Refund, invoiceId: Id)
    requires i < |refunds| && updated.invoiceId == refunds[i].invoiceId
    requires forall j :: i < j < |refunds| ==> refunds[j].invoiceId != refunds[i].invoiceId
    ensures PhaseOf(refunds, refunds[i].invoiceId) == PhaseOfStatus(refunds[i].status)
    ensures PhaseOf(refunds[i := updated], invoiceId) ==
            if invoiceId == updated.invoiceId then PhaseOfStatus(updated.status) else PhaseOf(refunds, invoiceId)
  {
    var n := |refunds| - 1;
    var changed := refunds[i := updated];
    if i == n {
      assert changed[..n] == refunds[..n];
    } else {
      assert changed[..n] == refunds[..n][i := updated];
      PhaseAfterUpdate(refunds[..n], i, updated, invoiceId);
    }
  }

  ghost predicate TrailMatches(d: Desk) {
    forall id :: Scan(TrailOf(d.trail, id)) == PhaseOf(d.refunds, id)
  }

  lemma RaiseKeepsTrail(d: Desk, user: User, invoiceRef: string, reason: string)
    requires TrailMatches(d)
    ensures TrailMatches(Raise(d, user, invoiceRef, reason).0)
  {
    if RaiseRefusal(d, user, invoiceRef).None? {
      var after := Raise(d, user, invoiceRef, reason).0;
      var invoice := FindInvoice(d.invoices, invoiceRef).value;
      NoLiveMeansIdle(d.refunds, invoice.id);
      NewRefundKeepsTrail(d, NewRefund(d, user, invoice, reason), after.trail[|d.trail|]);
    }
  }

  lemma NewRefundKeepsTrail(d: Desk, refund: Refund, e: StatusEvent)
    requires TrailMatches(d) && PhaseOf(d.refunds, refund.invoiceId) == Idle
    requires refund.status == REQUESTED && e.invoiceId == refund.invoiceId && NextPhase(Idle, e) == Requested
    ensures TrailMatches(d.(refunds := d.refunds + [refund], trail := d.trail + [e]))
  {
    forall id
      ensures Scan(TrailOf(d.trail + [e], id)) == PhaseOf(d.refunds + [refund], id)
    {
      ScanOneMore(d.trail, e, id);
      assert (d.refunds + [refund])[..|d.refunds|] == d.refunds;
      assert Scan(TrailOf(d.trail, id)) == PhaseOf(d.refunds, id);
    }
  }

  /** What the transition decides is always an edge of the pattern, written by the role allowed it. */
  lemma DecidedIsAnEdge(refund: Refund, body: Body, user: User)
    requires Decide(refund, body, user).Ok?
    ensures var updated := Decide(refund, body, user).value;
            && updated.invoiceId == refund.invoiceId && refund.status in {REQUESTED, APPROVED}
            && NextPhase(PhaseOfStatus(refund.status),
                         StatusEvent(refund.invoiceId, refund.status, updated.status, if user.role == ADMIN then ByAdmin else ByBank, user.id))
               == PhaseOfStatus(updated.status)
  {
  }

  lemma MoveKeepsTrail(d: Desk, i: nat, updated: Refund, e: StatusEvent)
    requires Orderly(d.refunds, d.counters) && TrailMatches(d) && i < |d.refunds|
    requires d.refunds[i].status != REJECTED && updated.invoiceId == d.refunds[i].invoiceId == e.invoiceId
    requires NextPhase(PhaseOfStatus(d.refunds[i].status), e) == PhaseOfStatus(updated.status)
    ensures TrailMatches(d.(refunds := d.refunds[i := updated], trail := d.trail + [e]))
  {
    forall id
      ensures Scan(TrailOf(d.trail + [e], id)) == PhaseOf(d.refunds[i := updated], id)
    {
      ScanOneMore(d.trail, e, id);
      PhaseAfterUpdate(d.refunds, i, updated, id);
      assert Scan(TrailOf(d.trail, id)) == PhaseOf(d.refunds, id);
    }
  }

  lemma AdvanceKeepsTrail(d: Desk, user: User, ref: string, body: Body, percent: real)
    requires Orderly(d.refunds, d.counters) && TrailMatches(d)
    ensures TrailMatches(Advance(d, user, ref, body, percent).0)
  {
    var after := Advance(d, user, ref, body, percent);
    if after.1.Ok? {
      var i := IndexOfRef(d.refunds, ref);
      DecidedIsAnEdge(d.refunds[i], body, user);
      MoveKeepsTrail(d, i, after.1.value, after.0.trail[|d.trail|]);
    }
  }

  /**
   * In every run each invoice's refund events follow the one pattern, rounds of created, approved
   * and rejected, then at most one created, approved, sent, each by the role allowed it, and the
   * phase they spell is where its latest refund really stands.
   */
  lemma {:induction false} TrailFollowsPattern(moves: seq<Move>)
    ensures TrailMatches(Run(moves))
  {
    if |moves| > 0 {
      var d, m := Run(moves[..|moves| - 1]), moves[|moves| - 1];
      TrailFollowsPattern(moves[..|moves| - 1]);
      RunIsOrderly(moves[..|moves| - 1]);
      match m
      case Raising(user, invoiceRef, reason) => RaiseKeepsTrail(d, user, invoiceRef, reason);
      case Advancing(user, ref, body, percent) => AdvanceKeepsTrail(d, user, ref, body, percent);
      case BookOther(_) =>
      case DrawElsewhere(_) =>
      case InvoicesChange(_) =>
    }
  }

  lemma {:induction false} PhaseOfIsNeverBroken(refunds: seq<Refund>, invoiceId: Id)
    ensures PhaseOf(refunds, invoiceId) != Broken
  {
    if |refunds| > 0 {
      PhaseOfIsNeverBroken(refunds[..|refunds| - 1], invoiceId);
    }
  }

  lemma {:induction false} UnbrokenSoFar(events: seq<StatusEvent>, k: nat)
    requires Scan(events) != Broken && k <= |events|
    ensures Scan(events[..k]) != Broken
  {
    if k < |events| {
      UnbrokenSoFar(events[..|events| - 1], k);
      assert events[..|events| - 1][..k] == events[..k];
    } else {
      assert events[..k] == events;
    }
  }

  /**
   * Money is only ever sent after a request and an approval: in any run, a `sent` event is by the
   * bank, comes right after the admin's approval and the request before it, and ends the trail.
   */
  lemma SentWasApproved(moves: seq<Move>, invoiceId: Id, k: nat)
    requires var t := TrailOf(Run(moves).trail, invoiceId); k < |t| && t[k].toStatus == SENT
    ensures var t := TrailOf(Run(moves).trail, invoiceId);
            && k == |t| - 1 && k >= 2 && t[k].actor == ByBank
            && t[k - 1].fromStatus == REQUESTED && t[k - 1].toStatus == APPROVED && t[k - 1].actor == ByAdmin
            && t[k - 2].fromStatus == PAID && t[k - 2].toStatus == PAID
  {
    TrailFollowsPattern(moves);
    PhaseOfIsNeverBroken(Run(moves).refunds, invoiceId);
    SentInPattern(TrailOf(Run(moves).trail, invoiceId), k);
  }

  lemma SentInPattern(t: seq<StatusEvent>, k: nat)
    requires Scan(t) != Broken && k < |t| && t[k].toStatus == SENT
    ensures k == |t| - 1 && k >= 2 && t[k].actor == ByBank
    ensures t[k - 1].fromStatus == REQUESTED && t[k - 1].toStatus == APPROVED && t[k - 1].actor == ByAdmin
    ensures t[k - 2].fromStatus == PAID && t[k - 2].toStatus == PAID
  {
    UnbrokenSoFar(t, k + 1);
    assert t[..k + 1][..k] == t[..k];
    assert Scan(t[..k + 1]) == NextPhase(Scan(t[..k]), t[k]);
    assert Scan(t[..k]) == Cleared;
    assert t[..k][..k - 1] == t[..k - 1];
    assert Scan(t[..k - 1]) == Requested;
    assert t[..k - 1][..k - 2] == t[..k - 2];
    ReturnedIsFinal(t, k);
    UnbrokenSoFar(t, if k + 2 <= |t| then k + 2 else k + 1);
  }

  lemma ReturnedIsFinal(t: seq<StatusEvent>, k: nat)
    requires k < |t| && Scan(t[..k + 1]) == Returned
    ensures k + 1 < |t| ==> Scan(t[..k + 2]) == Broken
  {
    if k + 1 < |t| {
      assert t[..k + 2][..k + 1] == t[..k + 1];
    }
  }
}
