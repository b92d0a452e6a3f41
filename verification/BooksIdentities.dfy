/**
 * What the five events keep together: the identities of the books over every run, replays, and
 * what the journeys of an invoice leave behind.
 */
module BooksIdentities {
  import opened Wrappers
  import opened Money
  import opened Books

  // ---------------------------------------------------------------- balances are sums of effects

  function Effect(b: Booking, line: Line): real { Total(Rows(b.event, b.percent), line) }

  function Effects(bs: seq<Booking>, line: Line): real {
    if |bs| == 0 then 0.0 else Effects(bs[..|bs| - 1], line) + Effect(bs[|bs| - 1], line)
  }

  /** Nothing is stored as a balance: any quantity is its start plus the effect of what was written. */
  lemma {:induction false} RunTally(log: seq<Entry>, steps: seq<Booking>, line: Line)
    ensures Tally(Run(log, steps), line) == Tally(log, line) + Effects(Written(log, steps), line)
  {
    if |steps| > 0 {
      var n := |steps| - 1;
      var before := Run(log, steps[..n]);
      var b := steps[n];
      RunTally(log, steps[..n], line);
      if !Posted(before, KeyOf(b.event)) {
        TallyOfGroup(before, Rows(b.event, b.percent), ContextOf(b.event), line);
        assert Written(log, steps)[..|Written(log, steps)| - 1] == Written(log, steps[..n]);
      } else {
        assert Written(log, steps) == Written(log, steps[..n]);
      }
    }
  }

  /** The sum over a group's rows, written out (no event has more than six). */
  lemma {:induction false} TotalWrittenOut(rows: seq<Posting>, line: Line)
    requires |rows| <= 6
    ensures Total(rows, line) == Nth(rows, 0, line) + Nth(rows, 1, line) + Nth(rows, 2, line)
                                 + Nth(rows, 3, line) + Nth(rows, 4, line) + Nth(rows, 5, line)
  {
    if |rows| > 0 {
      TotalWrittenOut(rows[1..], line);
      assert Nth(rows[1..], 0, line) == Nth(rows, 1, line) && Nth(rows[1..], 1, line) == Nth(rows, 2, line);
      assert Nth(rows[1..], 2, line) == Nth(rows, 3, line) && Nth(rows[1..], 3, line) == Nth(rows, 4, line);
      assert Nth(rows[1..], 4, line) == Nth(rows, 5, line) && Nth(rows[1..], 5, line) == 0.0;
    }
  }

  function Nth(rows: seq<Posting>, i: nat, line: Line): real {
    if i < |rows| then Value(line, rows[i]) else 0.0
  }

  // ---------------------------------------------------------------- claims and tokens

  /** An import's principal: received, and owed to nobody here. */
  function ImportPrincipal(b: Booking, unit: Unit): real {
    if b.event.InvoicePaid? && Importing(b.event) && unit == Token(b.event.currency) then
      var s := PaidShares(b.event, b.percent);
      b.event.receivedAmount - (s.gateway + s.freezone)
    else 0.0
  }

  /** By how much an event's own figures fail to add up. */
  function Misfit(b: Booking, unit: Unit): real {
    if unit != Token(b.event.currency) then 0.0 else
    match b.event
    case InvoicePaid(_, _, _, _, _, received, _, net, _) =>
      if Importing(b.event) then 0.0
      else var s := PaidShares(b.event, b.percent); received - net - (s.gateway + s.freezone)
    case DepositReleased(_, _, _, _, total, gateway, freezone, beneficiary) =>
      gateway + freezone + beneficiary - total
    case SettlementFunded(_, _, _, _, amount, fee, net) => amount - net - fee
    case SettlementSettled(_, _, _, _, _, _) => 0.0
    case RefundSent(_, _, _, amount, invoice) =>
      if invoice.None? then 0.0
      else invoice.value.netAmount.GetOr(0.0) + invoice.value.feeAmount.GetOr(0.0) - amount
  }

  /** Tokens that physically came into custody with an event, or left it for good. */
  function Inflow(b: Booking, unit: Unit): real {
    if unit != Token(b.event.currency) then 0.0 else
    match b.event
    case InvoicePaid(_, _, _, _, _, received, _, _, _) => received
    case SettlementFunded(_, _, _, _, amount, _, _) => amount
    case SettlementSettled(_, _, _, _, net, _) => -net
    case _ => 0.0
  }

  function ReleaseMisfit(b: Booking, unit: Unit): real {
    if b.event.DepositReleased? then Misfit(b, unit) else 0.0
  }

  lemma EffectOnClaims(b: Booking, unit: Unit)
    ensures Effect(b, Claims(unit)) == ImportPrincipal(b, unit) + Misfit(b, unit)
  {
    TotalWrittenOut(Rows(b.event, b.percent), Claims(unit));
  }

  lemma EffectOnTokens(b: Booking, unit: Unit)
    ensures Effect(b, Tokens(unit)) == Inflow(b, unit) + ReleaseMisfit(b, unit)
  {
    TotalWrittenOut(Rows(b.event, b.percent), Tokens(unit));
  }

  /** Σ over the written events of one of their figures. */
  function Sum(bs: seq<Booking>, figure: Booking -> real): real {
    if |bs| == 0 then 0.0 else Sum(bs[..|bs| - 1], figure) + figure(bs[|bs| - 1])
  }

  lemma SumOneMore(bs: seq<Booking>, b: Booking, figure: Booking -> real)
    ensures Sum(bs + [b], figure) == Sum(bs, figure) + figure(b)
  {
    assert (bs + [b])[..|bs|] == bs;
  }

  /** Of a run's last event the sum takes the figure in, unless it was a replay. */
  lemma SumWrittenOneMore(steps: seq<Booking>, figure: Booking -> real)
    requires |steps| > 0
    ensures var n := |steps| - 1;
            var replay := Posted(Run([], steps[..n]), KeyOf(steps[n].event));
            Sum(Written([], steps), figure) == Sum(Written([], steps[..n]), figure) + if replay then 0.0 else figure(steps[n])
  {
    var n := |steps| - 1;
    var w := Written([], steps[..n]);
    if Posted(Run([], steps[..n]), KeyOf(steps[n].event)) {
      assert Written([], steps) == w;
    } else {
      SumOneMore(w, steps[n], figure);
    }
  }

  function Principals(unit: Unit): Booking -> real { b => ImportPrincipal(b, unit) }
  function Misfits(unit: Unit): Booking -> real { b => Misfit(b, unit) }
  function Inflows(unit: Unit): Booking -> real { b => Inflow(b, unit) }
  function ReleaseMisfits(unit: Unit): Booking -> real { b => ReleaseMisfit(b, unit) }

  lemma {:induction false} EffectsSplit(bs: seq<Booking>, unit: Unit)
    ensures Effects(bs, Claims(unit)) == Sum(bs, Principals(unit)) + Sum(bs, Misfits(unit))
    ensures Effects(bs, Tokens(unit)) == Sum(bs, Inflows(unit)) + Sum(bs, ReleaseMisfits(unit))
  {
    if |bs| > 0 {
      var b := bs[|bs| - 1];
      EffectsSplit(bs[..|bs| - 1], unit);
      EffectOnClaims(b, unit);
      EffectOnTokens(b, unit);
    }
  }

  /** What `balances()` sums for one account, before it is printed to eight places. */
  function Balance(log: seq<Entry>, account: Account, unit: Unit): real { Tally(log, OnAccount(account, unit)) }

  function HeldBalance(log: seq<Entry>, u: Unit): real {
    Balance(log, DEPOSIT_HELD, u) + Balance(log, BANK_HELD, u) + Balance(log, SUPPLIER_PAID, u)
  }

  function ClaimedBalance(log: seq<Entry>, u: Unit): real {
    Balance(log, MERCHANT_PAYABLE, u) + Balance(log, GATEWAY_SHARE, u) + Balance(log, FREEZONE_SHARE, u)
  }

  /** Every account tokens can be in, still held or already paid on. */
  function TokenBalance(log: seq<Entry>, u: Unit): real {
    Balance(log, DEPOSIT_HELD, u) + Balance(log, BANK_HELD, u) + Balance(log, GATEWAY_PAID, u)
    + Balance(log, FREEZONE_PAID, u) + Balance(log, SUPPLIER_PAID, u) + Balance(log, REFUNDED, u)
  }

  lemma {:induction false} ClaimsLineIsAccounts(log: seq<Entry>, u: Unit)
    ensures Tally(log, Claims(u)) == HeldBalance(log, u) - ClaimedBalance(log, u)
  {
    if |log| > 0 {
      ClaimsLineIsAccounts(log[..|log| - 1], u);
    }
  }

  lemma {:induction false} TokensLineIsAccounts(log: seq<Entry>, u: Unit)
    ensures Tally(log, Tokens(u)) == TokenBalance(log, u)
  {
    if |log| > 0 {
      TokensLineIsAccounts(log[..|log| - 1], u);
    }
  }

  /**
   * The claims identity, with nothing assumed of the figures: after any run, what is held equals
   * what is claimed plus imports' principal, off by exactly the misfits of the events written.
   */
  lemma ClaimsIdentity(steps: seq<Booking>, u: Unit)
    ensures var log, w := Run([], steps), Written([], steps);
            HeldBalance(log, u) == ClaimedBalance(log, u) + Sum(w, Principals(u)) + Sum(w, Misfits(u))
  {
    RunTally([], steps, Claims(u));
    EffectsSplit(Written([], steps), u);
    ClaimsLineIsAccounts(Run([], steps), u);
  }

  /** What "its own figures add up" means for an event; the settings' percent plays no part in it. */
  predicate AddsUp(e: Event) {
    match e
    case InvoicePaid(_, _, _, _, _, received, fee, net, share) =>
      Importing(e) || (received == net + fee && (share.Some? ==> share.value.gateway + share.value.freezone == fee))
    case DepositReleased(_, _, _, _, total, gateway, freezone, beneficiary) => total == gateway + freezone + beneficiary
    case SettlementFunded(_, _, _, _, amount, fee, net) => amount == net + fee
    case SettlementSettled(_, _, _, _, _, _) => true
    case RefundSent(_, _, _, amount, invoice) =>
      invoice.Some? ==> amount == invoice.value.netAmount.GetOr(0.0) + invoice.value.feeAmount.GetOr(0.0)
  }

  lemma AddsUpMeansNoMisfit(b: Booking, u: Unit)
    requires AddsUp(b.event)
    ensures Misfit(b, u) == 0.0
  {
  }

  lemma {:induction false} WrittenAreSteps(log: seq<Entry>, steps: seq<Booking>)
    ensures forall b :: b in Written(log, steps) ==> b in steps
  {
    if |steps| > 0 {
      WrittenAreSteps(log, steps[..|steps| - 1]);
    }
  }

  /** How many direct settlements of one token a run funded. */
  function FundedCount(bs: seq<Booking>, u: Unit): nat {
    if |bs| == 0 then 0
    else
      var e := bs[|bs| - 1].event;
      FundedCount(bs[..|bs| - 1], u) + (if e.SettlementFunded? && u == Token(e.currency) then 1 else 0)
  }

  function OffBy(u: Unit, log: seq<Entry>, w: seq<Booking>): real {
    HeldBalance(log, u) - ClaimedBalance(log, u) - Sum(w, Principals(u))
  }

  /** Adds up, or is a direct settlement off by no more than one unit in the eighth place. */
  predicate NearlyAddsUp(e: Event) {
    AddsUp(e) || (e.SettlementFunded? && -UNIT8 <= e.amount - e.netAmount - e.feeAmount <= UNIT8)
  }

  function Slack(bs: seq<Booking>, u: Unit): real { FundedCount(bs, u) as real * UNIT8 }

  lemma {:induction false} FundedDrift(bs: seq<Booking>, u: Unit)
    requires forall b :: b in bs ==> NearlyAddsUp(b.event)
    ensures -Slack(bs, u) <= Sum(bs, Misfits(u)) <= Slack(bs, u)
  {
    if |bs| > 0 {
      var b := bs[|bs| - 1];
      FundedDrift(bs[..|bs| - 1], u);
      assert NearlyAddsUp(b.event);
      if AddsUp(b.event) {
        AddsUpMeansNoMisfit(b, u);
      }
    }
  }

  /**
   * With figures that add up the identity is exact in every unit; with direct settlements whose fee
   * and net were rounded apart it is off by at most one unit in the eighth place for each one of that token.
   */
  lemma ClaimsHold(steps: seq<Booking>, u: Unit)
    requires forall b :: b in steps ==> NearlyAddsUp(b.event)
    ensures var log, w := Run([], steps), Written([], steps);
            -Slack(w, u) <= OffBy(u, log, w) <= Slack(w, u)
    ensures (forall b :: b in steps ==> AddsUp(b.event)) ==> OffBy(u, Run([], steps), Written([], steps)) == 0.0
  {
    var w := Written([], steps);
    OffByIsMisfit(steps, u);
    WrittenAreSteps([], steps);
    FundedDrift(w, u);
    if forall b :: b in steps ==> AddsUp(b.event) {
      NoMisfits(w, u);
    }
  }

  lemma OffByIsMisfit(steps: seq<Booking>, u: Unit)
    ensures OffBy(u, Run([], steps), Written([], steps)) == Sum(Written([], steps), Misfits(u))
  {
    ClaimsIdentity(steps, u);
  }

  lemma {:induction false} NoMisfits(bs: seq<Booking>, u: Unit)
    requires forall b :: b in bs ==> AddsUp(b.event)
    ensures Sum(bs, Misfits(u)) == 0.0
  {
    if |bs| > 0 {
      NoMisfits(bs[..|bs| - 1], u);
      assert bs[|bs| - 1] in bs;
      AddsUpMeansNoMisfit(bs[|bs| - 1], u);
    }
  }

  /**
   * Physical conservation: wherever the tokens are, held or paid on, they are exactly what came in
   * with invoices and direct settlements less what the bank bought, in both trade directions and
   * with refunds at any point. Only releases have to add up.
   */
  lemma TokensConserved(steps: seq<Booking>, u: Unit)
    requires forall b :: b in steps && b.event.DepositReleased? ==> AddsUp(b.event)
    ensures var log, w := Run([], steps), Written([], steps);
            TokenBalance(log, u) == Sum(w, Inflows(u))
  {
    RunTally([], steps, Tokens(u));
    EffectsSplit(Written([], steps), u);
    TokensLineIsAccounts(Run([], steps), u);
    WrittenAreSteps([], steps);
    NoReleaseMisfits(Written([], steps), u);
  }

  lemma {:induction false} NoReleaseMisfits(bs: seq<Booking>, u: Unit)
    requires forall b :: b in bs && b.event.DepositReleased? ==> AddsUp(b.event)
    ensures Sum(bs, ReleaseMisfits(u)) == 0.0
  {
    if |bs| > 0 {
      NoReleaseMisfits(bs[..|bs| - 1], u);
      assert bs[|bs| - 1] in bs;
    }
  }

  // ---------------------------------------------------------------- two views of the same entries

  predicate Owned(e: Entry) { e.posting.account == MERCHANT_PAYABLE ==> e.posting.userId.Some? }

  predicate AllOwned(log: seq<Entry>) { forall e :: e in log ==> Owned(e) }

  /** `users` lists every merchant the ledger says is owed something. */
  predicate AllMerchants(log: seq<Entry>, users: seq<Id>) {
    forall e :: e in log && e.posting.account == MERCHANT_PAYABLE && e.posting.userId.Some? ==> e.posting.userId.value in users
  }

  /** No event ever writes a payable without saying whose it is. */
  lemma {:induction false} PayablesAreOwned(steps: seq<Booking>)
    ensures AllOwned(Run([], steps))
  {
    if |steps| > 0 {
      PayablesAreOwned(steps[..|steps| - 1]);
      var b := steps[|steps| - 1];
      RowsAreOwned(b);
    }
  }

  lemma RowsAreOwned(b: Booking)
    ensures forall e :: e in Group(b.event, b.percent) ==> Owned(e)
  {
    var rows := Rows(b.event, b.percent);
    KeptIsSubset(rows);
    forall e | e in Group(b.event, b.percent)
      ensures Owned(e)
    {
      assert e.posting in rows;
    }
  }

  lemma {:induction false} KeptIsSubset(rows: seq<Posting>)
    ensures forall p :: p in Kept(rows) ==> p in rows
  {
    if |rows| > 0 {
      KeptIsSubset(rows[1..]);
    }
  }

  /** The merchants' own figures, added up. */
  function OwedInAll(log: seq<Entry>, users: seq<Id>, u: Unit): real {
    if |users| == 0 then 0.0
    else OwedInAll(log, users[..|users| - 1], u) + Tally(log, OwedTo(users[|users| - 1], u))
  }

  function ReportedInAll(log: seq<Entry>, users: seq<Id>, u: Unit): real {
    if |users| == 0 then 0.0
    else
      var payable := MerchantPayable(log, users[|users| - 1]);
      ReportedInAll(log, users[..|users| - 1], u) + (if u in payable then payable[u] else 0.0)
  }

  predicate Distinct(users: seq<Id>) { forall i, j :: 0 <= i < j < |users| ==> users[i] != users[j] }

  lemma {:induction false} OneEntryCountsOnce(log: seq<Entry>, e: Entry, users: seq<Id>, u: Unit)
    requires Distinct(users)
    ensures OwedInAll(log + [e], users, u) == OwedInAll(log, users, u) +
            (if e.posting.account == MERCHANT_PAYABLE && e.posting.unit == u && e.posting.userId.Some? && e.posting.userId.value in users
             then e.posting.amount else 0.0)
  {
    assert (log + [e])[..|log|] == log;
    if |users| > 0 {
      OneEntryCountsOnce(log, e, users[..|users| - 1], u);
    }
  }

  lemma {:induction false} PayableLineIsSumOfMerchants(log: seq<Entry>, users: seq<Id>, u: Unit)
    requires Distinct(users)
    requires AllOwned(log) && AllMerchants(log, users)
    ensures OwedInAll(log, users, u) == Balance(log, MERCHANT_PAYABLE, u)
  {
    if |log| == 0 {
      NothingOwed(users, u);
    } else {
      var n := |log| - 1;
      PayableLineIsSumOfMerchants(log[..n], users, u);
      OneEntryCountsOnce(log[..n], log[n], users, u);
      assert log == log[..n] + [log[n]];
      assert log[n] in log;
    }
  }

  lemma {:induction false} NothingOwed(users: seq<Id>, u: Unit)
    ensures OwedInAll([], users, u) == 0.0
  {
    if |users| > 0 {
      NothingOwed(users[..|users| - 1], u);
    }
  }

  /**
   * In every reachable ledger the per-merchant figures, over any list of all merchants, add up to
   * the MERCHANT_PAYABLE line exactly; as printed, to eight places each, they cannot part by more
   * than half a unit for each figure printed.
   */
  lemma TwoViewsAgree(steps: seq<Booking>, log: seq<Entry>, users: seq<Id>, u: Unit)
    requires log == Run([], steps) && Distinct(users) && AllMerchants(log, users)
    ensures OwedInAll(log, users, u) == Balance(log, MERCHANT_PAYABLE, u)
    ensures Abs(ReportedInAll(log, users, u) - ReportedLine(log, MERCHANT_PAYABLE, u)) <= HalfUnits(|users| + 1)
  {
    PayablesAreOwned(steps);
    PayableLineIsSumOfMerchants(log, users, u);
    ReportsAgree(log, users, u);
  }

  function HalfUnits(n: nat): real { n as real * (0.5 * UNIT8) }

  function ReportedLine(log: seq<Entry>, a: Account, u: Unit): real {
    if (a, u) in Balances(log) then Balances(log)[(a, u)] else 0.0
  }

  lemma ReportsAgree(log: seq<Entry>, users: seq<Id>, u: Unit)
    requires OwedInAll(log, users, u) == Balance(log, MERCHANT_PAYABLE, u)
    ensures Abs(ReportedInAll(log, users, u) - ReportedLine(log, MERCHANT_PAYABLE, u))
            <= HalfUnits(|users| + 1)
  {
    BalancesSumEntries(log, MERCHANT_PAYABLE, u);
    ReportedNearOwed(log, users, u);
    Fixed8Near(Balance(log, MERCHANT_PAYABLE, u));
  }

  lemma {:induction false} ReportedNearOwed(log: seq<Entry>, users: seq<Id>, u: Unit)
    ensures Abs(ReportedInAll(log, users, u) - OwedInAll(log, users, u)) <= HalfUnits(|users|)
  {
    if |users| > 0 {
      var user := users[|users| - 1];
      ReportedNearOwed(log, users[..|users| - 1], u);
      PayableSumsEntries(log, user, u);
      Fixed8Near(Tally(log, OwedTo(user, u)));
    }
  }

  /** An account is listed exactly when an entry touches it; unlisted, its plain sum is zero. */
  lemma {:induction false} BalancesSumEntries(log: seq<Entry>, a: Account, u: Unit)
    ensures (a, u) in Balances(log) <==> exists e :: e in log && e.posting.account == a && e.posting.unit == u
    ensures (a, u) in Balances(log) ==> Balances(log)[(a, u)] == Fixed8(Balance(log, a, u))
    ensures (a, u) !in Balances(log) ==> Balance(log, a, u) == 0.0
  {
    if exists e :: e in log && e.posting.account == a && e.posting.unit == u {
      var e :| e in log && e.posting.account == a && e.posting.unit == u;
      var i :| 0 <= i < |log| && log[i] == e;
      assert (log[i].posting.account, log[i].posting.unit) in Balances(log);
    } else {
      UntouchedIsZero(log, OnAccount(a, u));
    }
  }

  /** A merchant's figures are listed in exactly the units something was ever owed in, with their sums. */
  lemma PayableSumsEntries(log: seq<Entry>, user: Id, u: Unit)
    ensures u in MerchantPayable(log, user) <==>
            exists e :: e in log && e.posting.account == MERCHANT_PAYABLE && e.posting.userId == Some(user) && e.posting.unit == u
    ensures u in MerchantPayable(log, user) ==> MerchantPayable(log, user)[u] == Fixed8(Tally(log, OwedTo(user, u)))
    ensures u !in MerchantPayable(log, user) ==> Tally(log, OwedTo(user, u)) == 0.0
  {
    if e :| e in log && e.posting.account == MERCHANT_PAYABLE && e.posting.userId == Some(user) && e.posting.unit == u {
      var i :| 0 <= i < |log| && log[i] == e;
      assert log[i].posting.unit in MerchantPayable(log, user);
    } else {
      UntouchedIsZero(log, OwedTo(user, u));
    }
  }

  lemma {:induction false} UntouchedIsZero(log: seq<Entry>, line: Line)
    requires forall e :: e in log ==> Value(line, e.posting) == 0.0
    ensures Tally(log, line) == 0.0
  {
    if |log| > 0 {
      UntouchedIsZero(log[..|log| - 1], line);
      assert log[|log| - 1] in log;
    }
  }
}
