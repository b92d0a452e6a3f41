/**
 * Two ways out for the same money: a paid invoice's net can go back to the buyer as a refund, or on
 * to the merchant as rial through its payout. Here the refund desk and the settlement table run
 * together over one ledger, and the question is when an invoice goes out both ways.
 */
module PaidOnce {
  import opened Wrappers
  import opened Refs
  import opened Uids
  import opened Books
  import opened BooksIdentities
  import opened BooksReplay
  import opened Journeys
  import R = Refunds
  import S = Settlements

  // ---------------------------------------------------------------- one system

  /** `booked` is the history of every event sent to the ledger, replays included. */
  datatype World = World(
    desk: R.Desk, table: seq<S.Settlement>, callers: seq<S.Caller>, now: int, booked: seq<Booking>)

  /** The settlement side of it; all references come from the same sequences. */
  function Payouts(w: World): S.System { S.System(w.table, w.desk.counters, w.callers, w.now) }

  datatype Move =
    /** The refund routes, invoices changing, and any other event reaching the books. */
    | OnRefunds(refundMove: R.Move)
    /** Requests, payouts being raised, and every settlement transition short of the last. */
    | OnSettlements(settlementMove: S.Move)
    /** The bank's `settle`, which books the payout. */
    | Settle(k: nat, spreadRial: Option<real>)

  /** The payout raised from this invoice has been settled: its rial is with the merchant. */
  predicate Settled(table: seq<S.Settlement>, invoiceId: Id) {
    exists k :: 0 <= k < |table| && table[k].sourceInvoiceId == Some(invoiceId) && table[k].status == S.SETTLED
  }

  /** `include: { settlement: true }`: what an invoice row says of its payout. */
  function Joined(invoices: seq<R.Invoice>, table: seq<S.Settlement>): seq<R.Invoice> {
    seq(|invoices|, i requires 0 <= i < |invoices| => invoices[i].(settled := Settled(table, invoices[i].id)))
  }

  function Refreshed(w: World): World {
    w.(desk := R.Apply(w.desk, R.InvoicesChange(Joined(w.desk.invoices, w.table))))
  }

  /** What a move of the refund desk sends to the books. */
  function Sends(d: R.Desk, m: R.Move): seq<Booking> {
    match m
    case Advancing(user, ref, body, percent) =>
      var r := R.Advance(d, user, ref, body, percent).1;
      if r.Ok? && r.value.status == R.SENT then [Booking(R.SentEvent(r.value, d.invoices), percent)] else []
    case BookOther(b) => if b.event.RefundSent? then [] else [b]
    case _ => []
  }

  function SettledEvent(k: nat, row: S.Settlement, spreadRial: Option<real>): Event {
    SettlementSettled(k, row.ref, row.ownerId, row.currency, row.netAmount, spreadRial)
  }

  function Acted(w: World, m: Move): World {
    match m
    case OnRefunds(r) =>
      if r.BookOther? && r.booking.event.SettlementSettled? then w
      else w.(desk := R.Apply(w.desk, r), booked := w.booked + Sends(w.desk, r))
    case OnSettlements(s) =>
      if s.Transition? && s.to == S.SETTLED then w
      else
        var after := S.Apply(Payouts(w), s);
        w.(table := after.table, callers := after.callers, now := after.now, desk := w.desk.(counters := after.counters))
    case Settle(k, spread) =>
      if k >= |w.table| || !S.Edge(w.table[k], S.SETTLED) then w
      else
        var b := Booking(SettledEvent(k, w.table[k], spread), 0.0);
        w.(table := S.Apply(Payouts(w), S.Transition(k, S.SETTLED)).table,
           desk := R.Apply(w.desk, R.BookOther(b)), booked := w.booked + [b])
  }

  function Apply(w: World, m: Move): World { Refreshed(Acted(w, m)) }

  function Run(moves: seq<Move>): World {
    if |moves| == 0 then World(R.Run([]), [], [], 0, []) else Apply(Run(moves[..|moves| - 1]), moves[|moves| - 1])
  }

  // ---------------------------------------------------------------- what every run keeps

  /** The refund desk of this system is one of the refund desk's own runs. */
  ghost predicate Reachable(d: R.Desk) {
    exists rs :: R.Run(rs) == d
  }

  lemma ReachableAfter(d: R.Desk, m: R.Move)
    requires Reachable(d)
    ensures Reachable(R.Apply(d, m))
  {
    var rs :| R.Run(rs) == d;
    assert (rs + [m])[..|rs|] == rs;
    assert R.Run(rs + [m]) == R.Apply(d, m);
  }

  lemma ReachableIsSound(d: R.Desk)
    requires Reachable(d)
    ensures R.Orderly(d.refunds, d.counters) && R.BooksFollow(d)
  {
    var rs :| R.Run(rs) == d;
    R.RunIsOrderly(rs);
    R.RunBooksFollow(rs);
  }

  lemma DrawnCounters(s: S.System, m: S.Move)
    ensures var c := S.Apply(s, m).counters;
            c == s.counters || (exists kind :: c == DrawRef(s.counters, kind))
  {
    if m.Requesting? || m.Draw? {
      assert S.Apply(s, m).counters == s.counters || S.Apply(s, m).counters == DrawRef(s.counters, SettlementRef);
    }
  }

  lemma {:induction false} DeskIsReachable(moves: seq<Move>)
    ensures Reachable(Run(moves).desk)
  {
    if |moves| == 0 {
      assert R.Run([]) == Run(moves).desk;
    } else {
      var w, m := Run(moves[..|moves| - 1]), moves[|moves| - 1];
      DeskIsReachable(moves[..|moves| - 1]);
      ActedIsReachable(w, m);
      var acted := Acted(w, m);
      ReachableAfter(acted.desk, R.InvoicesChange(Joined(acted.desk.invoices, acted.table)));
    }
  }

  lemma ActedIsReachable(w: World, m: Move)
    requires Reachable(w.desk)
    ensures Reachable(Acted(w, m).desk)
  {
    match m
    case OnRefunds(r) => ReachableAfter(w.desk, r);
    case OnSettlements(s) =>
      DrawnCounters(Payouts(w), s);
      var c := S.Apply(Payouts(w), s).counters;
      if c != w.desk.counters {
        var kind :| c == DrawRef(w.desk.counters, kind);
        ReachableAfter(w.desk, R.DrawElsewhere(kind));
      }
    case Settle(k, spread) =>
      if k < |w.table| {
        ReachableAfter(w.desk, R.BookOther(Booking(SettledEvent(k, w.table[k], spread), 0.0)));
      }
  }

  lemma {:induction false} RaceIsSound(moves: seq<Move>)
    ensures S.RaceInvariant(Payouts(Run(moves)))
  {
    if |moves| > 0 {
      var w, m := Run(moves[..|moves| - 1]), moves[|moves| - 1];
      RaceIsSound(moves[..|moves| - 1]);
      match m
      case OnRefunds(_) => CountersDoNotRace(Payouts(w), Payouts(Run(moves)));
      case OnSettlements(s) =>
        S.MoveKeeps(Payouts(w), s);
        if !(s.Transition? && s.to == S.SETTLED) {
          CountersDoNotRace(S.Apply(Payouts(w), s), Payouts(Run(moves)));
        }
      case Settle(k, _) =>
        S.MoveKeeps(Payouts(w), S.Transition(k, S.SETTLED));
        if k < |w.table| && S.Edge(w.table[k], S.SETTLED) {
          CountersDoNotRace(S.Apply(Payouts(w), S.Transition(k, S.SETTLED)), Payouts(Run(moves)));
        }
    }
  }

  lemma CountersDoNotRace(s: S.System, t: S.System)
    requires S.RaceInvariant(s) && t.table == s.table && t.callers == s.callers
    ensures S.RaceInvariant(t)
  {
  }

  lemma BookedOneMore(steps: seq<Booking>, more: seq<Booking>)
    requires |more| <= 1
    ensures Books.Run([], steps + more) == if |more| == 0 then Books.Run([], steps) else Step(Books.Run([], steps), more[0])
  {
    if |more| == 0 {
      assert steps + more == steps;
    } else {
      assert (steps + more)[..|steps|] == steps;
    }
  }

  /** A desk whose ledger is a run over its bookings still is after one more of its moves. */
  lemma DeskMoveKeepsLedger(d: R.Desk, m: R.Move, booked: seq<Booking>)
    requires d.log == Books.Run([], booked)
    ensures R.Apply(d, m).log == Books.Run([], booked + Sends(d, m))
  {
    BookedOneMore(booked, Sends(d, m));
    SendsIsWhatIsBooked(d, m);
  }

  lemma SendsIsWhatIsBooked(d: R.Desk, m: R.Move)
    ensures R.Apply(d, m).log == if |Sends(d, m)| == 0 then d.log else Step(d.log, Sends(d, m)[0])
  {
  }

  /** The ledger is a run of the books over the events sent to it. */
  lemma {:induction false} LedgerIsItsBookings(moves: seq<Move>)
    ensures Run(moves).desk.log == Books.Run([], Run(moves).booked)
  {
    if |moves| > 0 {
      LedgerIsItsBookings(moves[..|moves| - 1]);
      ActedKeepsLedger(Run(moves[..|moves| - 1]), moves[|moves| - 1]);
    }
  }

  lemma ActedKeepsLedger(w: World, m: Move)
    requires w.desk.log == Books.Run([], w.booked)
    ensures Acted(w, m).desk.log == Books.Run([], Acted(w, m).booked)
  {
    match m
    case OnRefunds(r) => DeskMoveKeepsLedger(w.desk, r, w.booked);
    case OnSettlements(_) =>
    case Settle(k, spread) =>
      if k < |w.table| {
        var book := R.BookOther(Booking(SettledEvent(k, w.table[k], spread), 0.0));
        DeskMoveKeepsLedger(w.desk, book, w.booked);
        assert Sends(w.desk, book) == [book.booking];
      }
  }

  function SettledKey(k: nat): Key { Key(SETTLEMENT_SETTLED, k) }

  /** Only settled rows are booked as settled, with their own figures, and every one is sent to the books. */
  ghost predicate PayoutsFollow(w: World) {
    && (forall b :: b in w.booked && b.event.SettlementSettled? ==> OwnPayout(w.table, b.event))
    && (forall k :: 0 <= k < |w.table| && w.table[k].status == S.SETTLED ==> SentAsSettled(w.booked, k))
  }

  predicate OwnPayout(table: seq<S.Settlement>, e: Event)
    requires e.SettlementSettled?
  {
    e.id < |table| && table[e.id].status == S.SETTLED && e == SettledEvent(e.id, table[e.id], e.spreadRial)
  }

  ghost predicate SentAsSettled(booked: seq<Booking>, k: nat) {
    exists b :: b in booked && KeyOf(b.event) == SettledKey(k)
  }

  /** Short of `settle` no settlement becomes settled, and a settled one stays as it is. */
  lemma OtherMovesSettleNothing(s: S.System, m: S.Move)
    requires !(m.Transition? && m.to == S.SETTLED)
    ensures var after := S.Apply(s, m).table;
            && |s.table| <= |after|
            && (forall k :: 0 <= k < |s.table| && s.table[k].status == S.SETTLED ==> after[k] == s.table[k])
            && (forall k :: 0 <= k < |after| && after[k].status == S.SETTLED ==> k < |s.table| && s.table[k].status == S.SETTLED)
            && (forall k :: 0 <= k < |s.table| ==> after[k].sourceInvoiceId == s.table[k].sourceInvoiceId)
  {
  }

  lemma SettlingKeepsPayouts(w: World, k: nat, spread: Option<real>)
    requires PayoutsFollow(w) && k < |w.table| && S.Edge(w.table[k], S.SETTLED)
    ensures PayoutsFollow(Acted(w, Settle(k, spread)))
  {
    var after := Acted(w, Settle(k, spread));
    var b := Booking(SettledEvent(k, w.table[k], spread), 0.0);
    assert after.table == w.table[k := w.table[k].(status := S.SETTLED)];
    assert b in after.booked && KeyOf(b.event) == SettledKey(k);
    forall j | 0 <= j < |after.table| && after.table[j].status == S.SETTLED
      ensures SentAsSettled(after.booked, j)
    {
      if j != k {
        assert SentAsSettled(w.booked, j);
        var c :| c in w.booked && KeyOf(c.event) == SettledKey(j);
        assert c in after.booked;
      }
    }
  }

  lemma SendsNoPayout(d: R.Desk, m: R.Move)
    ensures forall b :: b in Sends(d, m) && b.event.SettlementSettled? ==> m.BookOther? && m.booking == b
  {
  }

  lemma OtherKeepsPayouts(w: World, m: Move)
    requires PayoutsFollow(w) && !m.Settle?
    ensures PayoutsFollow(Acted(w, m))
  {
    var after := Acted(w, m);
    match m {
      case OnSettlements(s) =>
        if !(s.Transition? && s.to == S.SETTLED) { OtherMovesSettleNothing(Payouts(w), s); }
      case OnRefunds(r) => SendsNoPayout(w.desk, r);
    }
    forall k | 0 <= k < |after.table| && after.table[k].status == S.SETTLED
      ensures SentAsSettled(after.booked, k)
    {
      assert SentAsSettled(w.booked, k);
      var c :| c in w.booked && KeyOf(c.event) == SettledKey(k);
      assert c in after.booked;
    }
  }

  lemma {:induction false} PayoutsAlwaysFollow(moves: seq<Move>)
    ensures PayoutsFollow(Run(moves))
  {
    if |moves| > 0 {
      var w, m := Run(moves[..|moves| - 1]), moves[|moves| - 1];
      PayoutsAlwaysFollow(moves[..|moves| - 1]);
      if !m.Settle? {
        OtherKeepsPayouts(w, m);
      } else if m.k < |w.table| && S.Edge(w.table[m.k], S.SETTLED) {
        SettlingKeepsPayouts(w, m.k, m.spreadRial);
      }
    }
  }

  /** Every refund sent was sent to the books. */
  ghost predicate RefundsFollow(w: World) {
    forall i :: 0 <= i < |w.desk.refunds| && w.desk.refunds[i].status == R.SENT ==> SentAsRefund(w.booked, i)
  }

  ghost predicate SentAsRefund(booked: seq<Booking>, i: nat) {
    exists b :: b in booked && KeyOf(b.event) == R.RefundKey(i)
  }

  lemma ActedKeepsRefunds(w: World, m: Move)
    requires RefundsFollow(w) && R.Orderly(w.desk.refunds, w.desk.counters)
    ensures RefundsFollow(Acted(w, m))
  {
    var after := Acted(w, m);
    forall i | 0 <= i < |after.desk.refunds| && after.desk.refunds[i].status == R.SENT
      ensures SentAsRefund(after.booked, i)
    {
      if i < |w.desk.refunds| && w.desk.refunds[i].status == R.SENT {
        assert SentAsRefund(w.booked, i);
        var c :| c in w.booked && KeyOf(c.event) == R.RefundKey(i);
        assert c in after.booked;
      } else {
        JustSent(w.desk, m.refundMove, i);
        assert Sends(w.desk, m.refundMove)[0] in after.booked;
      }
    }
  }

  lemma JustSent(d: R.Desk, m: R.Move, i: nat)
    requires R.Orderly(d.refunds, d.counters)
    requires i < |R.Apply(d, m).refunds| && R.Apply(d, m).refunds[i].status == R.SENT
    requires i < |d.refunds| ==> d.refunds[i].status != R.SENT
    ensures |Sends(d, m)| == 1 && KeyOf(Sends(d, m)[0].event) == R.RefundKey(i)
    ensures i < |d.refunds| && m.Advancing? && R.Advance(d, m.user, m.ref, m.body, m.percent).1 == Ok(R.Apply(d, m).refunds[i])
  {
    if m.Advancing? && R.Advance(d, m.user, m.ref, m.body, m.percent).1.Ok? {
      R.DecidedKeepsIdentity(d.refunds[R.IndexOfRef(d.refunds, m.ref)], m.body, m.user);
    }
  }

  lemma {:induction false} RefundsAlwaysFollow(moves: seq<Move>)
    ensures RefundsFollow(Run(moves))
  {
    if |moves| > 0 {
      RefundsAlwaysFollow(moves[..|moves| - 1]);
      DeskIsReachable(moves[..|moves| - 1]);
      ReachableIsSound(Run(moves[..|moves| - 1]).desk);
      ActedKeepsRefunds(Run(moves[..|moves| - 1]), moves[|moves| - 1]);
    }
  }

  // ---------------------------------------------------------------- what the merchant is left owed

  /** A refund of this invoice was sent. */
  predicate Refunded(refunds: seq<R.Refund>, invoiceId: Id) {
    exists i :: 0 <= i < |refunds| && refunds[i].invoiceId == invoiceId && refunds[i].status == R.SENT
  }

  function RefundKeys(w: World, invoiceId: Id): set<Key> {
    set i | 0 <= i < |w.desk.refunds| && w.desk.refunds[i].invoiceId == invoiceId :: R.RefundKey(i)
  }

  function PayoutKeys(w: World, invoiceId: Id): set<Key> {
    set k | 0 <= k < |w.table| && w.table[k].sourceInvoiceId == Some(invoiceId) :: SettledKey(k)
  }

  /** The payment, every refund and every payout of this invoice. */
  function KeysOfInvoice(w: World, invoiceId: Id): set<Key> {
    {Key(INVOICE_PAID, invoiceId)} + RefundKeys(w, invoiceId) + PayoutKeys(w, invoiceId)
  }

  predicate AnyPosted(log: seq<Entry>, keys: set<Key>) {
    exists key :: key in keys && Posted(log, key)
  }

  /** What the invoice's owner is owed on account of this invoice alone. */
  function Owed(w: World, paid: Event): real
    requires paid.InvoicePaid?
  {
    Tally(Only(w.desk.log, KeysOfInvoice(w, paid.id)), OwedTo(paid.ownerId, Token(paid.currency)))
  }

  /** The payout, and what a refund reads back, carry the net the payment was booked with, for its owner. */
  ghost predicate FiguresAgree(w: World, paid: Event)
    requires paid.InvoicePaid?
  {
    && (forall k :: 0 <= k < |w.table| && w.table[k].sourceInvoiceId == Some(paid.id) ==>
          w.table[k].netAmount == paid.netAmount && w.table[k].ownerId == paid.ownerId && w.table[k].currency == paid.currency)
    && (forall b :: b in w.booked && KeyOf(b.event) in RefundKeys(w, paid.id) ==> ReadsBack(b.event, paid))
  }

  predicate ReadsBack(e: Event, paid: Event)
    requires paid.InvoicePaid?
  {
    e.RefundSent? && e.invoice.Some? && e.invoice.value.netAmount == Some(paid.netAmount)
    && e.invoice.value.ownerId == paid.ownerId && e.currency == paid.currency
  }

  lemma {:induction false} SameOnly(log: seq<Entry>, a: set<Key>, b: set<Key>)
    requires forall i :: 0 <= i < |log| ==> (log[i].context.key in a <==> log[i].context.key in b)
    ensures Only(log, a) == Only(log, b)
  {
    if |log| > 0 {
      SameOnly(log[..|log| - 1], a, b);
    }
  }

  /** Of keys that exclude each other at most one has entries, and they are one booking's group. */
  lemma OneOfMany(steps: seq<Booking>, keys: set<Key>, line: Line) returns (b: Option<Booking>)
    requires forall j, k :: j in keys && k in keys && Posted(Books.Run([], steps), j) && Posted(Books.Run([], steps), k) ==> j == k
    ensures b.Some? <==> AnyPosted(Books.Run([], steps), keys)
    ensures b.Some? ==> b.value in steps && KeyOf(b.value.event) in keys && GroupOf(b) != []
    ensures Tally(Only(Books.Run([], steps), keys), line) == if b.None? then 0.0 else Effect(b.value, line)
  {
    var log := Books.Run([], steps);
    if AnyPosted(log, keys) {
      var key :| key in keys && Posted(log, key);
      SameOnly(log, keys, {key});
      OneGroupPerKey(steps, key);
      WroteAtIsAStep(steps, key);
      b := WroteAt(steps, key);
      TallyOfGroup([], Rows(b.value.event, b.value.percent), ContextOf(b.value.event), line);
      assert [] + GroupOf(b) == GroupOf(b);
    } else {
      SameOnly(log, keys, {});
      OnlyOfNothing(log);
      b := None;
    }
  }

  predicate Cancels(e: Event, paid: Event)
    requires paid.InvoicePaid?
  {
    ReadsBack(e, paid)
    || (e.SettlementSettled? && e.netAmount == paid.netAmount && e.ownerId == paid.ownerId && e.currency == paid.currency)
  }

  lemma CancellingEffect(e: Event, paid: Event, p: real)
    requires paid.InvoicePaid? && Cancels(e, paid)
    ensures Effect(Booking(e, p), OwedTo(paid.ownerId, Token(paid.currency))) == -paid.netAmount
    ensures Group(e, p) == [] ==> paid.netAmount == 0.0
  {
    TotalWrittenOut(Rows(e, p), OwedTo(paid.ownerId, Token(paid.currency)));
    KeptIsEmpty(Rows(e, p));
    assert Rows(e, p)[if e.RefundSent? then 2 else 0].amount == -paid.netAmount;
  }

  /** Of keys that exclude each other, all cancelling the payment, one was sent to the books or none. */
  lemma CancelledOnce(steps: seq<Booking>, keys: set<Key>, paid: Event, sent: bool)
    requires paid.InvoicePaid?
    requires forall j, k :: j in keys && k in keys && Posted(Books.Run([], steps), j) && Posted(Books.Run([], steps), k) ==> j == k
    requires forall b :: b in steps && KeyOf(b.event) in keys ==> Cancels(b.event, paid)
    requires sent ==> exists b :: b in steps && KeyOf(b.event) in keys
    requires !sent ==> !AnyPosted(Books.Run([], steps), keys)
    ensures Tally(Only(Books.Run([], steps), keys), OwedTo(paid.ownerId, Token(paid.currency))) == if sent then -paid.netAmount else 0.0
  {
    var line := OwedTo(paid.ownerId, Token(paid.currency));
    var wrote := OneOfMany(steps, keys, line);
    if wrote.Some? {
      CancellingEffect(wrote.value.event, paid, wrote.value.percent);
    } else if sent {
      var b :| b in steps && KeyOf(b.event) in keys;
      var j :| 0 <= j < |steps| && steps[j] == b;
      RunAbsorbs([], steps, j);
      assert Group(b.event, b.percent) == [];
      CancellingEffect(b.event, paid, b.percent);
    }
  }

  lemma RefundsExclude(w: World, invoiceId: Id)
    requires R.Orderly(w.desk.refunds, w.desk.counters) && R.BooksFollow(w.desk)
    ensures forall j, k ::
              j in RefundKeys(w, invoiceId) && k in RefundKeys(w, invoiceId) && Posted(w.desk.log, j) && Posted(w.desk.log, k)
              ==> j == k
    ensures AnyPosted(w.desk.log, RefundKeys(w, invoiceId)) ==> Refunded(w.desk.refunds, invoiceId)
  {
    forall key | key in RefundKeys(w, invoiceId) && Posted(w.desk.log, key)
      ensures key.subjectId < |w.desk.refunds| && w.desk.refunds[key.subjectId].status == R.SENT
      ensures key == R.RefundKey(key.subjectId) && w.desk.refunds[key.subjectId].invoiceId == invoiceId
    {
    }
  }

  lemma RefundCancels(moves: seq<Move>, paid: Event)
    requires paid.InvoicePaid? && FiguresAgree(Run(moves), paid)
    ensures var w := Run(moves);
            Tally(Only(w.desk.log, RefundKeys(w, paid.id)), OwedTo(paid.ownerId, Token(paid.currency)))
            == if Refunded(w.desk.refunds, paid.id) then -paid.netAmount else 0.0
  {
    var w := Run(moves);
    DeskIsReachable(moves);
    ReachableIsSound(w.desk);
    LedgerIsItsBookings(moves);
    RefundsAlwaysFollow(moves);
    RefundsExclude(w, paid.id);
    if Refunded(w.desk.refunds, paid.id) {
      var i :| 0 <= i < |w.desk.refunds| && w.desk.refunds[i].invoiceId == paid.id && w.desk.refunds[i].status == R.SENT;
      assert R.RefundKey(i) in RefundKeys(w, paid.id) && SentAsRefund(w.booked, i);
    }
    CancelledOnce(w.booked, RefundKeys(w, paid.id), paid, Refunded(w.desk.refunds, paid.id));
  }

  lemma PayoutsExclude(w: World, invoiceId: Id)
    requires S.UniqueSources(w.table) && PayoutsFollow(w) && w.desk.log == Books.Run([], w.booked)
    ensures forall j, k :: j in PayoutKeys(w, invoiceId) && k in PayoutKeys(w, invoiceId) ==> j == k
    ensures AnyPosted(w.desk.log, PayoutKeys(w, invoiceId)) ==> Settled(w.table, invoiceId)
  {
    if AnyPosted(w.desk.log, PayoutKeys(w, invoiceId)) {
      var key :| key in PayoutKeys(w, invoiceId) && Posted(w.desk.log, key);
      OneGroupPerKey(w.booked, key);
      WroteAtIsAStep(w.booked, key);
      assert OwnPayout(w.table, WroteAt(w.booked, key).value.event);
    }
  }

  lemma PayoutCancels(moves: seq<Move>, paid: Event)
    requires paid.InvoicePaid? && FiguresAgree(Run(moves), paid)
    ensures var w := Run(moves);
            Tally(Only(w.desk.log, PayoutKeys(w, paid.id)), OwedTo(paid.ownerId, Token(paid.currency)))
            == if Settled(w.table, paid.id) then -paid.netAmount else 0.0
  {
    var w := Run(moves);
    LedgerIsItsBookings(moves);
    PayoutsAlwaysFollow(moves);
    RaceIsSound(moves);
    PayoutsExclude(w, paid.id);
    forall b | b in w.booked && KeyOf(b.event) in PayoutKeys(w, paid.id)
      ensures Cancels(b.event, paid)
    {
      assert OwnPayout(w.table, b.event);
    }
    if Settled(w.table, paid.id) {
      var k :| 0 <= k < |w.table| && w.table[k].sourceInvoiceId == Some(paid.id) && w.table[k].status == S.SETTLED;
      assert SettledKey(k) in PayoutKeys(w, paid.id) && SentAsSettled(w.booked, k);
    }
    CancelledOnce(w.booked, PayoutKeys(w, paid.id), paid, Settled(w.table, paid.id));
  }

  lemma PaymentOwesNet(paid: Event, p: real)
    requires paid.InvoicePaid? && !Importing(paid)
    ensures Effect(Booking(paid, p), OwedTo(paid.ownerId, Token(paid.currency))) == paid.netAmount
  {
    PaymentEffect(paid, p, OwedTo(paid.ownerId, Token(paid.currency)));
  }

  lemma ThreeKeySets(log: seq<Entry>, a: set<Key>, b: set<Key>, c: set<Key>, line: Line)
    requires a !! b && a !! c && b !! c
    ensures Tally(Only(log, a + b + c), line) == Tally(Only(log, a), line) + Tally(Only(log, b), line) + Tally(Only(log, c), line)
  {
    DisjointKeysAdd(log, a, b, line);
    DisjointKeysAdd(log, a + b, c, line);
  }

  lemma OwedIsThreeParts(w: World, paid: Event)
    requires paid.InvoicePaid? && !Importing(paid) && Booked(w.booked, paid) && w.desk.log == Books.Run([], w.booked)
    ensures var line := OwedTo(paid.ownerId, Token(paid.currency));
            Owed(w, paid) == paid.netAmount + Tally(Only(w.desk.log, RefundKeys(w, paid.id)), line)
                             + Tally(Only(w.desk.log, PayoutKeys(w, paid.id)), line)
  {
    var line := OwedTo(paid.ownerId, Token(paid.currency));
    ThreeKeySets(w.desk.log, {Key(INVOICE_PAID, paid.id)}, RefundKeys(w, paid.id), PayoutKeys(w, paid.id), line);
    ContributionOf(w.booked, paid, line);
    PaymentOwesNet(paid, BookedAt(w.booked, paid));
  }

  /**
   * What an export's owner is owed on its account, after any run of both desks and with any other
   * events in the books: its net, less its net for a refund that was sent, less its net for a payout
   * that was settled. It comes to nothing if and only if exactly one of the two happened; after
   * both, the owner is in debt for money already spent twice.
   */
  lemma OwedIffOneWayOut(moves: seq<Move>, paid: Event)
    requires paid.InvoicePaid? && !Importing(paid)
    requires Booked(Run(moves).booked, paid) && FiguresAgree(Run(moves), paid)
    ensures var w := Run(moves);
            Owed(w, paid) == paid.netAmount - (if Refunded(w.desk.refunds, paid.id) then paid.netAmount else 0.0)
                                            - (if Settled(w.table, paid.id) then paid.netAmount else 0.0)
    ensures var w := Run(moves);
            paid.netAmount != 0.0 ==>
              (Owed(w, paid) == 0.0 <==> (Refunded(w.desk.refunds, paid.id) <==> !Settled(w.table, paid.id)))
  {
    var w := Run(moves);
    LedgerIsItsBookings(moves);
    RefundCancels(moves, paid);
    PayoutCancels(moves, paid);
    OwedIsThreeParts(w, paid);
  }

  // ---------------------------------------------------------------- when both happen

  predicate PaidTwice(w: World, invoiceId: Id) {
    Refunded(w.desk.refunds, invoiceId) && Settled(w.table, invoiceId)
  }

  /** A `markSent` for a refund of this invoice, and accepted. */
  predicate MarksSent(d: R.Desk, m: R.Move, invoiceId: Id) {
    m.Advancing? &&
    var r := R.Advance(d, m.user, m.ref, m.body, m.percent).1;
    r.Ok? && r.value.status == R.SENT && r.value.invoiceId == invoiceId
  }

  predicate SendsRefund(w: World, m: Move, invoiceId: Id) {
    m.OnRefunds? && MarksSent(w.desk, m.refundMove, invoiceId)
  }

  /** A `settle` of this invoice's payout, and accepted. */
  predicate Settles(w: World, m: Move, invoiceId: Id) {
    m.Settle? && m.k < |w.table| && S.Edge(w.table[m.k], S.SETTLED) && w.table[m.k].sourceInvoiceId == Some(invoiceId)
  }

  /** One of the two, accepted although the other has already happened. */
  predicate Crosses(w: World, m: Move, invoiceId: Id) {
    (SendsRefund(w, m, invoiceId) && Settled(w.table, invoiceId)) || (Settles(w, m, invoiceId) && Refunded(w.desk.refunds, invoiceId))
  }

  lemma SentOnDesk(d: R.Desk, m: R.Move, invoiceId: Id)
    requires R.Orderly(d.refunds, d.counters)
    ensures Refunded(R.Apply(d, m).refunds, invoiceId) <==> Refunded(d.refunds, invoiceId) || MarksSent(d, m, invoiceId)
  {
    var before, after := d.refunds, R.Apply(d, m).refunds;
    if Refunded(before, invoiceId) {
      var i :| 0 <= i < |before| && before[i].invoiceId == invoiceId && before[i].status == R.SENT;
      R.OneMoveKeepsFigures(d, m, i);
      assert after[i] == before[i];
    } else if MarksSent(d, m, invoiceId) {
      var i := R.IndexOfRef(before, m.ref);
      assert after[i].invoiceId == invoiceId && after[i].status == R.SENT;
    } else if Refunded(after, invoiceId) {
      var i :| 0 <= i < |after| && after[i].invoiceId == invoiceId && after[i].status == R.SENT;
      JustSent(d, m, i);
    }
  }

  lemma RefundedAfter(w: World, m: Move, invoiceId: Id)
    requires R.Orderly(w.desk.refunds, w.desk.counters)
    ensures Refunded(Apply(w, m).desk.refunds, invoiceId) <==> Refunded(w.desk.refunds, invoiceId) || SendsRefund(w, m, invoiceId)
  {
    if m.OnRefunds? {
      SentOnDesk(w.desk, m.refundMove, invoiceId);
    }
  }

  lemma SettledAfter(w: World, m: Move, invoiceId: Id)
    ensures Settled(Apply(w, m).table, invoiceId) <==> Settled(w.table, invoiceId) || Settles(w, m, invoiceId)
  {
    var before, after := w.table, Apply(w, m).table;
    if m.OnSettlements? && !(m.settlementMove.Transition? && m.settlementMove.to == S.SETTLED) {
      OtherMovesSettleNothing(Payouts(w), m.settlementMove);
    }
    if Settled(before, invoiceId) {
      var k :| 0 <= k < |before| && before[k].sourceInvoiceId == Some(invoiceId) && before[k].status == S.SETTLED;
      assert after[k] == before[k];
    } else if Settles(w, m, invoiceId) {
      assert after[m.k].sourceInvoiceId == Some(invoiceId) && after[m.k].status == S.SETTLED;
    }
  }

  /** Some call of the run crossed. */
  predicate EverCrosses(moves: seq<Move>, invoiceId: Id) {
    |moves| > 0 &&
    var n := |moves| - 1;
    EverCrosses(moves[..n], invoiceId) || Crosses(Run(moves[..n]), moves[n], invoiceId)
  }

  lemma PaidTwiceAfter(w: World, m: Move, invoiceId: Id)
    requires R.Orderly(w.desk.refunds, w.desk.counters)
    ensures PaidTwice(Apply(w, m), invoiceId) <==> PaidTwice(w, invoiceId) || Crosses(w, m, invoiceId)
  {
    RefundedAfter(w, m, invoiceId);
    SettledAfter(w, m, invoiceId);
  }

  /**
   * Exactly when an invoice goes out both ways: if and only if some call crossed, a `markSent` let
   * through after its payout was settled or a `settle` let through after its refund was sent.
   */
  lemma {:induction false} PaidTwiceIff(moves: seq<Move>, invoiceId: Id)
    ensures PaidTwice(Run(moves), invoiceId) <==> EverCrosses(moves, invoiceId)
  {
    if |moves| > 0 {
      var last := |moves| - 1;
      PaidTwiceIff(moves[..last], invoiceId);
      DeskIsReachable(moves[..last]);
      ReachableIsSound(Run(moves[..last]).desk);
      PaidTwiceAfter(Run(moves[..last]), moves[last], invoiceId);
    }
  }

  lemma RunOneMore(moves: seq<Move>, m: Move)
    ensures Run(moves + [m]) == Apply(Run(moves), m)
  {
    assert (moves + [m])[..|moves|] == moves;
  }

  /** The invoice of a payment, as its row stands once it is paid. */
  function InvoiceOf(paid: Event, settled: bool): R.Invoice
    requires paid.InvoicePaid?
  {
    R.Invoice(paid.id, paid.ref, paid.ref, paid.ownerId, paid.currency, R.PAID, paid.receivedAmount, Some(paid.receivedAmount),
              Some(paid.feeAmount), Some(paid.netAmount), Some("payer"), settled)
  }

  /** Only this invoice and at most one refund of it, and nothing else booked but the payment. */
  predicate Early(w: World, paid: Event, refunds: seq<R.Refund>)
    requires paid.InvoicePaid?
  {
    w.desk.invoices == [InvoiceOf(paid, false)] && w.desk.refunds == refunds && w.booked == [Booking(paid, 0.0)]
  }

  lemma PaymentBooked(paid: Event) returns (moves: seq<Move>)
    requires paid.InvoicePaid?
    ensures Early(Run(moves), paid, []) && Run(moves).table == [] && Run(moves).callers == []
  {
    var change := OnRefunds(R.InvoicesChange([InvoiceOf(paid, false)]));
    RunOneMore([], change);
    RunOneMore([] + [change], OnRefunds(R.BookOther(Booking(paid, 0.0))));
    moves := [] + [change] + [OnRefunds(R.BookOther(Booking(paid, 0.0)))];
  }

  lemma RefundRequested(paid: Event) returns (moves: seq<Move>, refund: R.Refund)
    requires paid.InvoicePaid?
    ensures Early(Run(moves), paid, [refund]) && Run(moves).table == [] && Run(moves).callers == []
    ensures refund.status == R.REQUESTED && refund.invoiceId == paid.id && refund.currency == paid.currency
  {
    moves := PaymentBooked(paid);
    var owner, w := R.User(paid.ownerId, IRANIAN), Run(moves);
    RunOneMore(moves, OnRefunds(R.Raising(owner, paid.ref, "unwanted")));
    moves := moves + [OnRefunds(R.Raising(owner, paid.ref, "unwanted"))];
    refund := R.NewRefund(w.desk, owner, InvoiceOf(paid, false), "unwanted");
    assert R.RaiseRefusal(w.desk, owner, paid.ref).None?;
  }

  /** Raised and approved while the invoice has no payout yet. */
  lemma ApprovedBeforePayout(paid: Event) returns (moves: seq<Move>, refund: R.Refund)
    requires paid.InvoicePaid?
    ensures Early(Run(moves), paid, [refund]) && Run(moves).table == [] && Run(moves).callers == []
    ensures refund.status == R.APPROVED && refund.invoiceId == paid.id && refund.currency == paid.currency
  {
    moves, refund := RefundRequested(paid);
    var approve := OnRefunds(R.Advancing(R.User(1, ADMIN), refund.ref, R.Body(R.Approve, None, None, None), 0.0));
    OneRefundAdvances(Run(moves), refund, approve);
    RunOneMore(moves, approve);
    moves := moves + [approve];
    refund := refund.(status := R.APPROVED);
  }

  lemma OneRefundAdvances(w: World, refund: R.Refund, m: Move)
    requires w.desk.refunds == [refund] && m.OnRefunds? && m.refundMove.Advancing? && m.refundMove.ref == refund.ref
    requires m.refundMove.user.role in {ADMIN, BANK} && R.Decide(refund, m.refundMove.body, m.refundMove.user).Ok?
    ensures var r := R.Decide(refund, m.refundMove.body, m.refundMove.user).value;
            var after := Apply(w, m);
            && after.desk.refunds == [r] && after.table == w.table && after.callers == w.callers
            && after.desk.invoices == Joined(w.desk.invoices, w.table)
            && R.Advance(w.desk, m.refundMove.user, m.refundMove.ref, m.refundMove.body, m.refundMove.percent).1 == Ok(r)
            && after.booked == w.booked + Sends(w.desk, m.refundMove)
  {
    assert w.desk.refunds[0].ref == refund.ref;
    assert R.IndexOfRef(w.desk.refunds, refund.ref) == 0;
  }

  /** Nothing in the settlement flow asks about refunds: the payout is raised, rate-locked and settled. */
  lemma SettledDespiteRefund(before: seq<Move>, paid: Event, refund: R.Refund) returns (moves: seq<Move>, row: S.Settlement)
    requires paid.InvoicePaid? && paid.netAmount > 0.0
    requires Early(Run(before), paid, [refund]) && Run(before).table == [] && Run(before).callers == []
    ensures var w := Run(moves);
            && w.table == [row] && row.status == S.SETTLED && row.sourceInvoiceId == Some(paid.id)
            && row.netAmount == paid.netAmount && row.ownerId == paid.ownerId && row.currency == paid.currency
            && w.desk.refunds == [refund] && w.desk.invoices == [InvoiceOf(paid, true)]
            && w.booked == [Booking(paid, 0.0), Booking(SettledEvent(0, row, None), 0.0)]
  {
    var invoice := S.PaidInvoice(paid.id, paid.ownerId, paid.currency, Some(paid.netAmount), paid.receivedAmount);
    var locked: S.Settlement;
    moves, locked := RateLocked(before, paid, refund, invoice);
    var w := Run(moves);
    var settle := Settle(0, None);
    RunOneMore(moves, settle);
    row := locked.(status := S.SETTLED);
    moves := moves + [settle];
    assert Run(moves).table == [row];
    assert Settled([row], paid.id) by { assert [row][0].sourceInvoiceId == Some(paid.id); }
    assert SettledEvent(0, row, None) == SettledEvent(0, locked, None);
  }

  lemma TableMoves(before: seq<Move>, m: S.Move, paid: Event, refund: R.Refund) returns (moves: seq<Move>)
    requires paid.InvoicePaid? && Early(Run(before), paid, [refund]) && !(m.Transition? && m.to == S.SETTLED)
    requires !Settled(S.Apply(Payouts(Run(before)), m).table, paid.id)
    ensures Early(Run(moves), paid, [refund])
    ensures var after := S.Apply(Payouts(Run(before)), m); Run(moves).table == after.table && Run(moves).callers == after.callers
  {
    RunOneMore(before, OnSettlements(m));
    moves := before + [OnSettlements(m)];
  }

  lemma PayoutRaised(before: seq<Move>, paid: Event, refund: R.Refund, invoice: S.PaidInvoice) returns (moves: seq<Move>)
    requires paid.InvoicePaid? && invoice.netAmount == Some(paid.netAmount) && paid.netAmount > 0.0
    requires invoice.id == paid.id && invoice.ownerId == paid.ownerId && invoice.currency == paid.currency
    requires Early(Run(before), paid, [refund]) && Run(before).table == [] && Run(before).callers == []
    ensures Early(Run(moves), paid, [refund]) && Run(moves).table == [] && |Run(moves).callers| == 1
    ensures Run(moves).callers[0].at.Drawn? && Run(moves).callers[0].invoice == invoice
  {
    moves := TableMoves(before, S.Begin(invoice), paid, refund);
    assert Run(moves).callers == [S.Caller(invoice, S.Started)];
    moves := TableMoves(moves, S.Check(0), paid, refund);
    assert Run(moves).callers == [S.Caller(invoice, S.FoundNone)];
    moves := TableMoves(moves, S.Draw(0), paid, refund);
  }

  lemma RateLocked(before: seq<Move>, paid: Event, refund: R.Refund, invoice: S.PaidInvoice) returns (moves: seq<Move>, row: S.Settlement)
    requires paid.InvoicePaid? && invoice.netAmount == Some(paid.netAmount) && paid.netAmount > 0.0
    requires invoice.id == paid.id && invoice.ownerId == paid.ownerId && invoice.currency == paid.currency
    requires Early(Run(before), paid, [refund]) && Run(before).table == [] && Run(before).callers == []
    ensures Early(Run(moves), paid, [refund]) && Run(moves).table == [row] && row.status == S.BANK_RATE_LOCKED
    ensures row.sourceInvoiceId == Some(paid.id)
    ensures row.netAmount == paid.netAmount && row.ownerId == paid.ownerId && row.currency == paid.currency
  {
    moves := PayoutRaised(before, paid, refund, invoice);
    var at := Run(moves).callers[0].at;
    var raised := S.PayoutRow(at.ref, at.trxRef, invoice, Run(moves).now);
    assert S.Apply(Payouts(Run(moves)), S.Insert(0)).table == [raised];
    moves := TableMoves(moves, S.Insert(0), paid, refund);
    row := raised.(status := S.BANK_RATE_LOCKED);
    assert S.Apply(Payouts(Run(moves)), S.Transition(0, S.BANK_RATE_LOCKED)).table == [row];
    moves := TableMoves(moves, S.Transition(0, S.BANK_RATE_LOCKED), paid, refund);
  }

  /**
   * And it does happen, to any paid export with a net: the refund is raised and approved, the
   * payout settled meanwhile, and the bank's `markSent` goes through all the same. The owner is
   * left owing the whole net.
   */
  lemma BothWaysHappens(paid: Event) returns (moves: seq<Move>)
    requires paid.InvoicePaid? && !Importing(paid) && paid.netAmount > 0.0
    ensures PaidTwice(Run(moves), paid.id)
    ensures Booked(Run(moves).booked, paid) && FiguresAgree(Run(moves), paid)
    ensures Owed(Run(moves), paid) == -paid.netAmount
  {
    var before, refund := ApprovedBeforePayout(paid);
    var settled, row := SettledDespiteRefund(before, paid, refund);
    var last := refund.(status := R.SENT, txHash := Some("hash"));
    var sent: Booking;
    moves, sent := SentDespitePayout(settled, paid, refund, last);
    BothBooked(Run(moves), paid, last, row, sent);
    OwedIffOneWayOut(moves, paid);
  }

  /** Nothing in `markSent` asks about the payout. */
  lemma SentDespitePayout(before: seq<Move>, paid: Event, refund: R.Refund, last: R.Refund) returns (moves: seq<Move>, sent: Booking)
    requires paid.InvoicePaid? && refund.status == R.APPROVED && last == refund.(status := R.SENT, txHash := Some("hash"))
    requires Run(before).desk.refunds == [refund] && Run(before).desk.invoices == [InvoiceOf(paid, true)]
    ensures var w := Run(moves);
            w.desk.refunds == [last] && w.table == Run(before).table && w.booked == Run(before).booked + [sent]
    ensures sent.event == R.SentEvent(last, [InvoiceOf(paid, true)])
  {
    var send := OnRefunds(R.Advancing(R.User(2, BANK), refund.ref, R.Body(R.MarkSent, None, Some("hash"), Some("hash")), 0.0));
    RunOneMore(before, send);
    moves := before + [send];
    OneRefundAdvances(Run(before), refund, send);
    sent := Booking(R.SentEvent(last, Run(before).desk.invoices), 0.0);
  }

  lemma BothBooked(w: World, paid: Event, refund: R.Refund, row: S.Settlement, sent: Booking)
    requires paid.InvoicePaid? && w.desk.refunds == [refund] && w.table == [row]
    requires refund.status == R.SENT && refund.invoiceId == paid.id && refund.currency == paid.currency
    requires row.status == S.SETTLED && row.sourceInvoiceId == Some(paid.id)
    requires row.netAmount == paid.netAmount && row.ownerId == paid.ownerId && row.currency == paid.currency
    requires sent.event == R.SentEvent(refund, [InvoiceOf(paid, true)])
    requires w.booked == [Booking(paid, 0.0), Booking(SettledEvent(0, row, None), 0.0), sent]
    ensures PaidTwice(w, paid.id) && Booked(w.booked, paid) && FiguresAgree(w, paid)
  {
    assert w.desk.refunds[0].status == R.SENT && w.table[0].status == S.SETTLED;
    assert ReadsBack(sent.event, paid);
    assert w.booked[0].event == paid;
    UncontestedIsBooked(w.booked, paid);
  }

  /** What either route could ask before it acts: is the payout settled, is a refund still live. */
  predicate Guarded(w: World, m: Move) {
    && (m.OnRefunds? && m.refundMove.Advancing? && m.refundMove.body.action == R.MarkSent && R.HasRef(w.desk.refunds, m.refundMove.ref) ==>
          !Settled(w.table, w.desk.refunds[R.IndexOfRef(w.desk.refunds, m.refundMove.ref)].invoiceId))
    && (m.Settle? && m.k < |w.table| && w.table[m.k].sourceInvoiceId.Some? ==>
          !R.HasLive(w.desk.refunds, w.table[m.k].sourceInvoiceId.value))
  }

  lemma GuardedNeverCrosses(w: World, m: Move, invoiceId: Id)
    requires Guarded(w, m)
    ensures !Crosses(w, m, invoiceId)
  {
    if SendsRefund(w, m, invoiceId) {
      R.DecidedKeepsIdentity(w.desk.refunds[R.IndexOfRef(w.desk.refunds, m.refundMove.ref)], m.refundMove.body, m.refundMove.user);
    }
    if Settles(w, m, invoiceId) && Refunded(w.desk.refunds, invoiceId) {
      var i :| 0 <= i < |w.desk.refunds| && w.desk.refunds[i].invoiceId == invoiceId && w.desk.refunds[i].status == R.SENT;
      assert R.HasLive(w.desk.refunds, invoiceId);
    }
  }

  predicate AlwaysGuarded(moves: seq<Move>) {
    |moves| > 0 ==>
      var n := |moves| - 1;
      AlwaysGuarded(moves[..n]) && Guarded(Run(moves[..n]), moves[n])
  }

  lemma {:induction false} GuardedNeverEverCrosses(moves: seq<Move>, invoiceId: Id)
    requires AlwaysGuarded(moves)
    ensures !EverCrosses(moves, invoiceId)
  {
    if |moves| > 0 {
      var n := |moves| - 1;
      GuardedNeverEverCrosses(moves[..n], invoiceId);
      GuardedNeverCrosses(Run(moves[..n]), moves[n], invoiceId);
    }
  }

  /** With that guard before each call, which neither route has, no invoice ever goes out both ways. */
  lemma GuardedIsPaidOnce(moves: seq<Move>, invoiceId: Id)
    requires AlwaysGuarded(moves)
    ensures !PaidTwice(Run(moves), invoiceId)
  {
    PaidTwiceIff(moves, invoiceId);
    GuardedNeverEverCrosses(moves, invoiceId);
  }

  /** And then no booked export ever leaves its owner in debt: it is owed its net, or nothing. */
  lemma GuardedOwesNothingBack(moves: seq<Move>, paid: Event)
    requires AlwaysGuarded(moves) && paid.InvoicePaid? && !Importing(paid)
    requires Booked(Run(moves).booked, paid) && FiguresAgree(Run(moves), paid)
    ensures Owed(Run(moves), paid) == 0.0 || Owed(Run(moves), paid) == paid.netAmount
  {
    GuardedIsPaidOnce(moves, paid.id);
    OwedIffOneWayOut(moves, paid);
  }
}
