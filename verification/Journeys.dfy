/**
 * What whole journeys leave in the books: an export that is paid, released and settled cancels
 * everywhere but in the two shares paid out; a refund reverses its payment, and exactly when it
 * does not.
 */
module Journeys {
  import opened Wrappers
  import opened Money
  import opened Books
  import opened BooksIdentities
  import opened BooksReplay

  lemma {:induction false} DisjointKeysAdd(log: seq<Entry>, a: set<Key>, b: set<Key>, line: Line)
    requires a !! b
    ensures Tally(Only(log, a + b), line) == Tally(Only(log, a), line) + Tally(Only(log, b), line)
  {
    if |log| > 0 {
      var n := |log| - 1;
      DisjointKeysAdd(log[..n], a, b, line);
      TallyOfOnlyStep(log, a, line);
      TallyOfOnlyStep(log, b, line);
      TallyOfOnlyStep(log, a + b, line);
    }
  }

  lemma TallyOfOnlyStep(log: seq<Entry>, keys: set<Key>, line: Line)
    requires |log| > 0
    ensures var n := |log| - 1;
            Tally(Only(log, keys), line) == Tally(Only(log[..n], keys), line)
                                            + (if log[n].context.key in keys then Value(line, log[n].posting) else 0.0)
  {
    var n := |log| - 1;
    var kept := Only(log[..n], keys);
    if log[n].context.key in keys {
      assert (kept + [log[n]])[..|kept|] == kept;
    } else {
      assert kept + [] == kept;
    }
  }

  /** What one event put into the ledger of a run, on any line, is the effect of its rows. */
  lemma ContributionOf(steps: seq<Booking>, e: Event, line: Line)
    requires Booked(steps, e)
    ensures Tally(Only(Run([], steps), {KeyOf(e)}), line) == Effect(Booking(e, BookedAt(steps, e)), line)
  {
    BookedIsWritten(steps, e);
    TallyOfGroup([], Rows(e, BookedAt(steps, e)), ContextOf(e), line);
    assert [] + Group(e, BookedAt(steps, e)) == Group(e, BookedAt(steps, e));
  }

  lemma TwoEffects(steps: seq<Booking>, one: Event, other: Event, line: Line)
    requires Booked(steps, one) && Booked(steps, other) && KeyOf(one) != KeyOf(other)
    ensures Tally(Only(Run([], steps), {KeyOf(one), KeyOf(other)}), line) ==
            Effect(Booking(one, BookedAt(steps, one)), line) + Effect(Booking(other, BookedAt(steps, other)), line)
  {
    DisjointKeysAdd(Run([], steps), {KeyOf(one)}, {KeyOf(other)}, line);
    assert {KeyOf(one)} + {KeyOf(other)} == {KeyOf(one), KeyOf(other)};
    ContributionOf(steps, one, line);
    ContributionOf(steps, other, line);
  }

  // ---------------------------------------------------------------- completed journeys

  /** The three ways money goes all the way through: an export, an import, and crypto sold to the bank. */
  datatype Journey =
    | Exported(paid: Event, released: Event, settled: Event)
    | Imported(paid: Event, released: Event)
    | Direct(funded: Event, settled: Event)
  {
    predicate Shaped() {
      match this
      case Exported(paid, released, settled) => paid.InvoicePaid? && released.DepositReleased? && settled.SettlementSettled?
      case Imported(paid, released) => paid.InvoicePaid? && released.DepositReleased?
      case Direct(funded, settled) => funded.SettlementFunded? && settled.SettlementSettled?
    }
  }

  function KeysOf(j: Journey): set<Key> {
    match j
    case Exported(paid, released, settled) => {KeyOf(paid), KeyOf(released), KeyOf(settled)}
    case Imported(paid, released) => {KeyOf(paid), KeyOf(released)}
    case Direct(funded, settled) => {KeyOf(funded), KeyOf(settled)}
  }

  function AllKeys(js: seq<Journey>): set<Key> {
    if |js| == 0 then {} else AllKeys(js[..|js| - 1]) + KeysOf(js[|js| - 1])
  }

  /** The contract sent on what the payment was booked with: the same total, in the same split. */
  predicate ReleasedAsPaid(steps: seq<Booking>, paid: Event, released: Event)
    requires paid.InvoicePaid? && released.DepositReleased?
  {
    && released.currency == paid.currency && released.total == paid.receivedAmount
    && Shares(released.gateway, released.freezone) == PaidShares(paid, BookedAt(steps, paid))
    && (Importing(released) <==> Importing(paid))
  }

  /** The rial paid was for the claim this event credited. */
  predicate PaysOut(settled: Event, ownerId: Id, currency: Currency, net: real)
    requires settled.SettlementSettled?
  {
    settled.ownerId == ownerId && settled.currency == currency && settled.netAmount == net
  }

  /** The journey is in the books of a run from end to end. */
  predicate Completed(steps: seq<Booking>, j: Journey) {
    && j.Shaped()
    && match j
       case Exported(paid, released, settled) =>
         && Booked(steps, paid) && Booked(steps, released) && Booked(steps, settled)
         && !Importing(paid) && ReleasedAsPaid(steps, paid, released) && released.beneficiary == paid.netAmount
         && PaysOut(settled, paid.ownerId, paid.currency, paid.netAmount)
       case Imported(paid, released) =>
         && Booked(steps, paid) && Booked(steps, released)
         && Importing(paid) && ReleasedAsPaid(steps, paid, released)
       case Direct(funded, settled) =>
         && Booked(steps, funded) && Booked(steps, settled)
         && PaysOut(settled, funded.ownerId, funded.currency, funded.netAmount)
  }

  /**
   * All that a completed journey leaves. An export: the two shares as paid, and the bank's margin in
   * rial. An import: the two shares as paid, and what the foreign seller got. A direct settlement:
   * the fee, in the bank's hands and owed in its two shares, and the margin.
   */
  function Residue(steps: seq<Booking>, j: Journey, line: Line): real {
    if !j.Shaped() then 0.0 else
    match j
    case Exported(_, released, settled) =>
      ExportResidue(Token(released.currency), Shares(released.gateway, released.freezone), settled.spreadRial.GetOr(0.0), line)
    case Imported(_, released) =>
      ImportResidue(Token(released.currency), Shares(released.gateway, released.freezone), released.beneficiary, line)
    case Direct(funded, settled) =>
      var shares := SplitGatewayFee(funded.feeAmount, BookedAt(steps, funded));
      DirectResidue(Token(funded.currency), funded.amount - funded.netAmount, shares, settled.spreadRial.GetOr(0.0), line)
  }

  function ExportResidue(unit: Unit, paid: Shares, spread: real, line: Line): real {
    if line == OnAccount(BANK_SPREAD, IRR) then spread
    else if line.unit != unit then 0.0 else
    match line
    case OnAccount(GATEWAY_PAID, _) => paid.gateway
    case OnAccount(FREEZONE_PAID, _) => paid.freezone
    case Tokens(_) => paid.gateway + paid.freezone
    case _ => 0.0
  }

  function ImportResidue(unit: Unit, paid: Shares, supplier: real, line: Line): real {
    if line.unit != unit then 0.0 else
    match line
    case OnAccount(GATEWAY_PAID, _) => paid.gateway
    case OnAccount(FREEZONE_PAID, _) => paid.freezone
    case OnAccount(SUPPLIER_PAID, _) => supplier
    case Tokens(_) => paid.gateway + paid.freezone + supplier
    case Claims(_) => supplier
    case _ => 0.0
  }

  function DirectResidue(unit: Unit, kept: real, owed: Shares, spread: real, line: Line): real {
    if line == OnAccount(BANK_SPREAD, IRR) then spread
    else if line.unit != unit then 0.0 else
    match line
    case OnAccount(BANK_HELD, _) => kept
    case OnAccount(GATEWAY_SHARE, _) => owed.gateway
    case OnAccount(FREEZONE_SHARE, _) => owed.freezone
    case Tokens(_) => kept
    case Claims(_) => kept - (owed.gateway + owed.freezone)
    case _ => 0.0
  }

  /** One posting's part in a line. */
  function At(line: Line, account: Account, amount: real, unit: Unit, owner: Option<Id> := None): real {
    Value(line, Posting(account, amount, unit, owner))
  }

  lemma ExportFigures(c: Currency, received: real, net: real, owner: Id, s: Shares, spread: real, line: Line)
    ensures var u := Token(c);
            At(line, DEPOSIT_HELD, received, u) + At(line, MERCHANT_PAYABLE, net, u, Some(owner))
            + At(line, GATEWAY_SHARE, s.gateway, u) + At(line, FREEZONE_SHARE, s.freezone, u)
            + (At(line, DEPOSIT_HELD, -received, u) + At(line, BANK_HELD, net, u) + At(line, GATEWAY_PAID, s.gateway, u)
               + At(line, FREEZONE_PAID, s.freezone, u) + At(line, GATEWAY_SHARE, -s.gateway, u) + At(line, FREEZONE_SHARE, -s.freezone, u))
            + (At(line, MERCHANT_PAYABLE, -net, u, Some(owner)) + At(line, BANK_HELD, -net, u) + At(line, BANK_SPREAD, spread, IRR))
            == ExportResidue(u, s, spread, line)
  {
  }

  lemma ImportFigures(c: Currency, received: real, s: Shares, supplier: real, line: Line)
    ensures var u := Token(c);
            At(line, DEPOSIT_HELD, received, u) + At(line, GATEWAY_SHARE, s.gateway, u) + At(line, FREEZONE_SHARE, s.freezone, u)
            + (At(line, DEPOSIT_HELD, -received, u) + At(line, SUPPLIER_PAID, supplier, u) + At(line, GATEWAY_PAID, s.gateway, u)
               + At(line, FREEZONE_PAID, s.freezone, u) + At(line, GATEWAY_SHARE, -s.gateway, u) + At(line, FREEZONE_SHARE, -s.freezone, u))
            == ImportResidue(u, s, supplier, line)
  {
  }

  lemma DirectFigures(c: Currency, amount: real, net: real, owner: Id, s: Shares, spread: real, line: Line)
    ensures var u := Token(c);
            At(line, BANK_HELD, amount, u) + At(line, MERCHANT_PAYABLE, net, u, Some(owner))
            + At(line, GATEWAY_SHARE, s.gateway, u) + At(line, FREEZONE_SHARE, s.freezone, u)
            + (At(line, MERCHANT_PAYABLE, -net, u, Some(owner)) + At(line, BANK_HELD, -net, u) + At(line, BANK_SPREAD, spread, IRR))
            == DirectResidue(u, amount - net, s, spread, line)
  {
  }

  /** Three booked events under keys of their own leave the sum of their effects. */
  lemma ExportIsEffects(steps: seq<Booking>, j: Journey, line: Line)
    requires j.Exported? && j.Shaped()
    requires Booked(steps, j.paid) && Booked(steps, j.released) && Booked(steps, j.settled)
    ensures Tally(Only(Run([], steps), KeysOf(j)), line) ==
            Effect(Booking(j.paid, BookedAt(steps, j.paid)), line)
            + Effect(Booking(j.released, BookedAt(steps, j.released)), line)
            + Effect(Booking(j.settled, BookedAt(steps, j.settled)), line)
  {
    DisjointKeysAdd(Run([], steps), {KeyOf(j.paid), KeyOf(j.released)}, {KeyOf(j.settled)}, line);
    assert {KeyOf(j.paid), KeyOf(j.released)} + {KeyOf(j.settled)} == KeysOf(j);
    TwoEffects(steps, j.paid, j.released, line);
    ContributionOf(steps, j.settled, line);
  }

  lemma ExportCancels(steps: seq<Booking>, j: Journey, line: Line)
    requires j.Exported? && Completed(steps, j)
    ensures Tally(Only(Run([], steps), KeysOf(j)), line) == Residue(steps, j, line)
  {
    ExportIsEffects(steps, j, line);
    PaymentEffect(j.paid, BookedAt(steps, j.paid), line);
    ReleaseEffect(j.released, BookedAt(steps, j.released), line);
    SettledEffect(j.settled, BookedAt(steps, j.settled), line);
    ExportFigures(j.paid.currency, j.paid.receivedAmount, j.paid.netAmount, j.paid.ownerId,
                  Shares(j.released.gateway, j.released.freezone), j.settled.spreadRial.GetOr(0.0), line);
  }

  lemma ImportEffects(paid: Event, released: Event, p: real, q: real, line: Line)
    requires paid.InvoicePaid? && released.DepositReleased? && Importing(paid) && Importing(released)
    requires released.currency == paid.currency && released.total == paid.receivedAmount
    requires Shares(released.gateway, released.freezone) == PaidShares(paid, p)
    ensures Effect(Booking(paid, p), line) + Effect(Booking(released, q), line) ==
            ImportResidue(Token(paid.currency), Shares(released.gateway, released.freezone), released.beneficiary, line)
  {
    PaymentEffect(paid, p, line);
    ReleaseEffect(released, q, line);
    ImportFigures(paid.currency, paid.receivedAmount, Shares(released.gateway, released.freezone), released.beneficiary, line);
  }

  lemma ImportCancels(steps: seq<Booking>, j: Journey, line: Line)
    requires j.Imported? && Completed(steps, j)
    ensures Tally(Only(Run([], steps), KeysOf(j)), line) == Residue(steps, j, line)
  {
    TwoEffects(steps, j.paid, j.released, line);
    ImportEffects(j.paid, j.released, BookedAt(steps, j.paid), BookedAt(steps, j.released), line);
  }

  lemma DirectEffects(funded: Event, settled: Event, p: real, q: real, line: Line)
    requires funded.SettlementFunded? && settled.SettlementSettled?
    requires PaysOut(settled, funded.ownerId, funded.currency, funded.netAmount)
    ensures Effect(Booking(funded, p), line) + Effect(Booking(settled, q), line) ==
            DirectResidue(Token(funded.currency), funded.amount - funded.netAmount, SplitGatewayFee(funded.feeAmount, p),
                          settled.spreadRial.GetOr(0.0), line)
  {
    FundedEffect(funded, p, line);
    SettledEffect(settled, q, line);
    DirectFigures(funded.currency, funded.amount, funded.netAmount, funded.ownerId,
                  SplitGatewayFee(funded.feeAmount, p), settled.spreadRial.GetOr(0.0), line);
  }

  lemma DirectCancels(steps: seq<Booking>, j: Journey, line: Line)
    requires j.Direct? && Completed(steps, j)
    ensures Tally(Only(Run([], steps), KeysOf(j)), line) == Residue(steps, j, line)
  {
    TwoEffects(steps, j.funded, j.settled, line);
    DirectEffects(j.funded, j.settled, BookedAt(steps, j.funded), BookedAt(steps, j.settled), line);
  }

  /** The rows of a release, as one sum on any line. */
  lemma ReleaseEffect(released: Event, p: real, line: Line)
    requires released.DepositReleased?
    ensures var u := Token(released.currency);
            Effect(Booking(released, p), line) ==
            At(line, DEPOSIT_HELD, -released.total, u)
            + At(line, if Importing(released) then SUPPLIER_PAID else BANK_HELD, released.beneficiary, u)
            + At(line, GATEWAY_PAID, released.gateway, u) + At(line, FREEZONE_PAID, released.freezone, u)
            + At(line, GATEWAY_SHARE, -released.gateway, u) + At(line, FREEZONE_SHARE, -released.freezone, u)
  {
    TotalWrittenOut(Rows(released, p), line);
  }

  lemma SettledEffect(settled: Event, p: real, line: Line)
    requires settled.SettlementSettled?
    ensures var u := Token(settled.currency);
            Effect(Booking(settled, p), line) ==
            At(line, MERCHANT_PAYABLE, -settled.netAmount, u, Some(settled.ownerId)) + At(line, BANK_HELD, -settled.netAmount, u)
            + At(line, BANK_SPREAD, settled.spreadRial.GetOr(0.0), IRR)
  {
    TotalWrittenOut(Rows(settled, p), line);
  }

  lemma FundedEffect(funded: Event, p: real, line: Line)
    requires funded.SettlementFunded?
    ensures var u, s := Token(funded.currency), SplitGatewayFee(funded.feeAmount, p);
            Effect(Booking(funded, p), line) ==
            At(line, BANK_HELD, funded.amount, u) + At(line, MERCHANT_PAYABLE, funded.netAmount, u, Some(funded.ownerId))
            + At(line, GATEWAY_SHARE, s.gateway, u) + At(line, FREEZONE_SHARE, s.freezone, u)
  {
    TotalWrittenOut(Rows(funded, p), line);
  }

  /** What is left on an account when an export's three figures need not match each other. */
  function Outstanding(j: Journey, p: real, account: Account): real
    requires j.Exported? && j.Shaped()
  {
    match account
    case DEPOSIT_HELD => j.paid.receivedAmount - j.released.total
    case BANK_HELD => j.released.beneficiary - j.settled.netAmount
    case MERCHANT_PAYABLE => j.paid.netAmount - j.settled.netAmount
    case GATEWAY_SHARE => PaidShares(j.paid, p).gateway - j.released.gateway
    case FREEZONE_SHARE => PaidShares(j.paid, p).freezone - j.released.freezone
    case _ => 0.0
  }

  lemma OutstandingIsEffects(j: Journey, p: real, q: real, r: real, account: Account)
    requires j.Exported? && j.Shaped() && !Importing(j.paid) && !Importing(j.released)
    requires j.paid.currency == j.released.currency == j.settled.currency
    requires account in {DEPOSIT_HELD, BANK_HELD, MERCHANT_PAYABLE, GATEWAY_SHARE, FREEZONE_SHARE}
    ensures var line := OnAccount(account, Token(j.paid.currency));
            Effect(Booking(j.paid, p), line) + Effect(Booking(j.released, q), line) + Effect(Booking(j.settled, r), line)
            == Outstanding(j, p, account)
  {
    var line := OnAccount(account, Token(j.paid.currency));
    PaymentEffect(j.paid, p, line);
    ReleaseEffect(j.released, q, line);
    SettledEffect(j.settled, r, line);
  }

  predicate Apart(js: seq<Journey>) {
    forall i, k :: 0 <= i < k < |js| ==> KeysOf(js[i]) !! KeysOf(js[k])
  }

  function Residues(steps: seq<Booking>, js: seq<Journey>, line: Line): real {
    if |js| == 0 then 0.0 else Residues(steps, js[..|js| - 1], line) + Residue(steps, js[|js| - 1], line)
  }

  lemma {:induction false} ApartFromTheRest(js: seq<Journey>, j: Journey)
    requires forall i :: 0 <= i < |js| ==> KeysOf(js[i]) !! KeysOf(j)
    ensures AllKeys(js) !! KeysOf(j)
  {
    if |js| > 0 {
      ApartFromTheRest(js[..|js| - 1], j);
    }
  }

  lemma JourneyCancels(steps: seq<Booking>, j: Journey, line: Line)
    requires Completed(steps, j)
    ensures Tally(Only(Run([], steps), KeysOf(j)), line) == Residue(steps, j, line)
  {
    match j
    case Exported(_, _, _) => ExportCancels(steps, j, line);
    case Imported(_, _) => ImportCancels(steps, j, line);
    case Direct(_, _) => DirectCancels(steps, j, line);
  }

  /**
   * Any set of completed journeys, exports, imports and direct settlements, interleaved in any way
   * with each other and with any other events, retries and bookings of the same keys with other
   * figures: together they leave exactly their residues on every line of the books.
   */
  lemma {:induction false} CompletedJourneysCancel(steps: seq<Booking>, js: seq<Journey>, line: Line)
    requires Apart(js)
    requires forall j :: j in js ==> Completed(steps, j)
    ensures Tally(Only(Run([], steps), AllKeys(js)), line) == Residues(steps, js, line)
  {
    var log := Run([], steps);
    if |js| == 0 {
      OnlyOfNothing(log);
    } else {
      var n := |js| - 1;
      CompletedJourneysCancel(steps, js[..n], line);
      ApartFromTheRest(js[..n], js[n]);
      DisjointKeysAdd(log, AllKeys(js[..n]), KeysOf(js[n]), line);
      assert js[n] in js;
      JourneyCancels(steps, js[n], line);
    }
  }

  lemma {:induction false} OnlyOfNothing(log: seq<Entry>)
    ensures Only(log, {}) == []
  {
    if |log| > 0 {
      OnlyOfNothing(log[..|log| - 1]);
    }
  }

  lemma {:induction false} OnlyOfEverything(log: seq<Entry>, keys: set<Key>)
    requires forall i :: 0 <= i < |log| ==> log[i].context.key in keys
    ensures Only(log, keys) == log
  {
    if |log| > 0 {
      OnlyOfEverything(log[..|log| - 1], keys);
    }
  }

  lemma {:induction false} NoResidue(steps: seq<Booking>, js: seq<Journey>, line: Line)
    requires forall j :: j in js ==> Residue(steps, j, line) == 0.0
    ensures Residues(steps, js, line) == 0.0
  {
    if |js| > 0 {
      NoResidue(steps, js[..|js| - 1], line);
      assert js[|js| - 1] in js;
    }
  }

  /** The bank keeps of each direct settlement what its two shares are owed. */
  lemma {:induction false} FeesStayWithTheBank(steps: seq<Booking>, js: seq<Journey>, u: Unit)
    requires forall j :: j in js && j.Direct? && j.Shaped() ==> AddsUp(j.funded)
    ensures Residues(steps, js, OnAccount(BANK_HELD, u)) ==
            Residues(steps, js, OnAccount(GATEWAY_SHARE, u)) + Residues(steps, js, OnAccount(FREEZONE_SHARE, u))
  {
    if |js| > 0 {
      FeesStayWithTheBank(steps, js[..|js| - 1], u);
      assert js[|js| - 1] in js;
    }
  }

  lemma EverythingIsResidue(steps: seq<Booking>, js: seq<Journey>)
    requires Apart(js)
    requires forall j :: j in js ==> Completed(steps, j)
    requires forall b :: b in steps ==> KeyOf(b.event) in AllKeys(js)
    ensures forall line :: Tally(Run([], steps), line) == Residues(steps, js, line)
  {
    KeysOfRun(steps, AllKeys(js));
    OnlyOfEverything(Run([], steps), AllKeys(js));
    forall line: Line
      ensures Tally(Run([], steps), line) == Residues(steps, js, line)
    {
      CompletedJourneysCancel(steps, js, line);
    }
  }

  lemma NothingHeldOrOwed(steps: seq<Booking>, js: seq<Journey>, u: Unit, user: Id)
    ensures Residues(steps, js, OnAccount(DEPOSIT_HELD, u)) == 0.0
    ensures Residues(steps, js, OnAccount(MERCHANT_PAYABLE, u)) == 0.0 && Residues(steps, js, OwedTo(user, u)) == 0.0
  {
    NoResidue(steps, js, OnAccount(DEPOSIT_HELD, u));
    NoResidue(steps, js, OnAccount(MERCHANT_PAYABLE, u));
    NoResidue(steps, js, OwedTo(user, u));
  }

  /** Without direct settlements the bank holds nothing of a journey, and neither share is owed. */
  lemma NoDirectNoFees(steps: seq<Booking>, js: seq<Journey>, account: Account, u: Unit)
    requires account in {BANK_HELD, GATEWAY_SHARE, FREEZONE_SHARE} && forall j :: j in js ==> !j.Direct?
    ensures Residues(steps, js, OnAccount(account, u)) == 0.0
  {
    NoResidue(steps, js, OnAccount(account, u));
  }

  /**
   * When every journey the books know of has been completed, no deposit is held and nothing is owed
   * to any merchant; the bank holds exactly the direct settlements' fees, which both shares are still
   * owed, and so nothing at all if there were none; the rest is where the journeys sent it.
   */
  lemma NothingOutstanding(steps: seq<Booking>, js: seq<Journey>, u: Unit, user: Id)
    requires Apart(js)
    requires forall j :: j in js ==> Completed(steps, j)
    requires forall b :: b in steps ==> KeyOf(b.event) in AllKeys(js)
    ensures var log := Run([], steps);
            && Balance(log, DEPOSIT_HELD, u) == 0.0
            && Balance(log, MERCHANT_PAYABLE, u) == 0.0 && Tally(log, OwedTo(user, u)) == 0.0
    ensures var log := Run([], steps);
            (forall j :: j in js && j.Direct? ==> AddsUp(j.funded)) ==>
              Balance(log, BANK_HELD, u) == Balance(log, GATEWAY_SHARE, u) + Balance(log, FREEZONE_SHARE, u)
    ensures var log := Run([], steps);
            (forall j :: j in js ==> !j.Direct?) ==>
              Balance(log, BANK_HELD, u) == 0.0 && Balance(log, GATEWAY_SHARE, u) == 0.0 && Balance(log, FREEZONE_SHARE, u) == 0.0
    ensures forall a :: Balance(Run([], steps), a, u) == Residues(steps, js, OnAccount(a, u))
  {
    EverythingIsResidue(steps, js);
    NothingHeldOrOwed(steps, js, u, user);
    if forall j :: j in js && j.Direct? ==> AddsUp(j.funded) {
      FeesStayWithTheBank(steps, js, u);
    }
    if forall j :: j in js ==> !j.Direct? {
      NoDirectNoFees(steps, js, BANK_HELD, u);
      NoDirectNoFees(steps, js, GATEWAY_SHARE, u);
      NoDirectNoFees(steps, js, FREEZONE_SHARE, u);
    }
  }

  // ---------------------------------------------------------------- one journey, account by account

  /** What two booked events left on an account of the books of a run. */
  function LeftByTwo(steps: seq<Booking>, one: Event, other: Event, line: Line): real {
    Tally(Only(Run([], steps), {KeyOf(one), KeyOf(other)}), line)
  }

  /** The organization's part of a fee: its percentage to eight places, rounded down. */
  ghost predicate RoundedShare(share: real, fee: real, percent: real) {
    EightPlaces(share) && 0.0 <= Times(fee, percent) / 100.0 - share < UNIT8
  }

  /**
   * Crypto handed straight to the bank, in any run: no deposit address holds any of it, the bank
   * does; its owner is owed the net, and nobody else; the organization is owed its rounded share of
   * the fee and the gateway the rest.
   */
  lemma FundingLeaves(steps: seq<Booking>, funded: Event)
    requires funded.SettlementFunded? && Booked(steps, funded)
    ensures var entries, u := Only(Run([], steps), {KeyOf(funded)}), Token(funded.currency);
            && Balance(entries, DEPOSIT_HELD, u) == 0.0 && Balance(entries, BANK_HELD, u) == funded.amount
            && Balance(entries, MERCHANT_PAYABLE, u) == funded.netAmount
            && (forall user :: Tally(entries, OwedTo(user, u)) == if user == funded.ownerId then funded.netAmount else 0.0)
            && Balance(entries, GATEWAY_SHARE, u) == funded.feeAmount - Balance(entries, FREEZONE_SHARE, u)
            && (funded.feeAmount >= 0.0 && 0.0 <= BookedAt(steps, funded) <= 100.0 ==>
                  RoundedShare(Balance(entries, FREEZONE_SHARE, u), funded.feeAmount, BookedAt(steps, funded)))
  {
    var p := BookedAt(steps, funded);
    forall line: Line
      ensures Tally(Only(Run([], steps), {KeyOf(funded)}), line) == Effect(Booking(funded, p), line)
    {
      ContributionOf(steps, funded, line);
    }
    FundedOnAccounts(funded, p);
  }

  lemma FundedOnAccounts(funded: Event, p: real)
    requires funded.SettlementFunded?
    ensures var b, u := Booking(funded, p), Token(funded.currency);
            && Effect(b, OnAccount(DEPOSIT_HELD, u)) == 0.0 && Effect(b, OnAccount(BANK_HELD, u)) == funded.amount
            && Effect(b, OnAccount(MERCHANT_PAYABLE, u)) == funded.netAmount
            && (forall user :: Effect(b, OwedTo(user, u)) == if user == funded.ownerId then funded.netAmount else 0.0)
            && Effect(b, OnAccount(GATEWAY_SHARE, u)) == funded.feeAmount - Effect(b, OnAccount(FREEZONE_SHARE, u))
            && (funded.feeAmount >= 0.0 && 0.0 <= p <= 100.0 ==>
                  RoundedShare(Effect(b, OnAccount(FREEZONE_SHARE, u)), funded.feeAmount, p))
  {
    var u := Token(funded.currency);
    FundedEffect(funded, p, OnAccount(DEPOSIT_HELD, u));
    FundedEffect(funded, p, OnAccount(BANK_HELD, u));
    FundedEffect(funded, p, OnAccount(MERCHANT_PAYABLE, u));
    FundedEffect(funded, p, OnAccount(GATEWAY_SHARE, u));
    FundedEffect(funded, p, OnAccount(FREEZONE_SHARE, u));
    forall user
      ensures Effect(Booking(funded, p), OwedTo(user, u)) == if user == funded.ownerId then funded.netAmount else 0.0
    {
      FundedEffect(funded, p, OwedTo(user, u));
    }
    if funded.feeAmount >= 0.0 && 0.0 <= p <= 100.0 {
      SplitGatewayFeeShape(funded.feeAmount, p);
    }
  }

  /**
   * And once its rial is paid: the bank keeps the fee, the shares are owed as before, and nothing is
   * owed to the merchant or to anyone else.
   */
  lemma DirectSettlementLeaves(steps: seq<Booking>, funded: Event, settled: Event)
    requires Completed(steps, Direct(funded, settled))
    ensures var u := Token(funded.currency);
            && LeftByTwo(steps, funded, settled, OnAccount(DEPOSIT_HELD, u)) == 0.0
            && LeftByTwo(steps, funded, settled, OnAccount(BANK_HELD, u)) == funded.amount - funded.netAmount
            && LeftByTwo(steps, funded, settled, OnAccount(MERCHANT_PAYABLE, u)) == 0.0
            && (forall user :: LeftByTwo(steps, funded, settled, OwedTo(user, u)) == 0.0)
            && LeftByTwo(steps, funded, settled, OnAccount(BANK_SPREAD, IRR)) == settled.spreadRial.GetOr(0.0)
    ensures var u := Token(funded.currency);
            var freezone := LeftByTwo(steps, funded, settled, OnAccount(FREEZONE_SHARE, u));
            && LeftByTwo(steps, funded, settled, OnAccount(GATEWAY_SHARE, u)) == funded.feeAmount - freezone
            && (funded.feeAmount >= 0.0 && 0.0 <= BookedAt(steps, funded) <= 100.0 ==>
                  RoundedShare(freezone, funded.feeAmount, BookedAt(steps, funded)))
  {
    var j := Direct(funded, settled);
    forall line: Line
      ensures LeftByTwo(steps, funded, settled, line) == Residue(steps, j, line)
    {
      JourneyCancels(steps, j, line);
    }
    if funded.feeAmount >= 0.0 && 0.0 <= BookedAt(steps, funded) <= 100.0 {
      SplitGatewayFeeShape(funded.feeAmount, BookedAt(steps, funded));
    }
  }

  /**
   * An import paid and released, in any run: nothing stays in custody, in the bank, in either share
   * or on anyone's account; the foreign seller has the remainder and the two shares were paid.
   */
  lemma ImportLeaves(steps: seq<Booking>, paid: Event, released: Event)
    requires Completed(steps, Imported(paid, released))
    ensures var u := Token(paid.currency);
            && LeftByTwo(steps, paid, released, OnAccount(DEPOSIT_HELD, u)) == 0.0
            && LeftByTwo(steps, paid, released, OnAccount(BANK_HELD, u)) == 0.0
            && LeftByTwo(steps, paid, released, OnAccount(MERCHANT_PAYABLE, u)) == 0.0
            && (forall user :: LeftByTwo(steps, paid, released, OwedTo(user, u)) == 0.0)
            && LeftByTwo(steps, paid, released, OnAccount(GATEWAY_SHARE, u)) == 0.0
            && LeftByTwo(steps, paid, released, OnAccount(FREEZONE_SHARE, u)) == 0.0
            && LeftByTwo(steps, paid, released, OnAccount(SUPPLIER_PAID, u)) == released.beneficiary
            && LeftByTwo(steps, paid, released, OnAccount(GATEWAY_PAID, u)) == released.gateway
            && LeftByTwo(steps, paid, released, OnAccount(FREEZONE_PAID, u)) == released.freezone
  {
    forall line: Line
      ensures LeftByTwo(steps, paid, released, line) == Residue(steps, Imported(paid, released), line)
    {
      JourneyCancels(steps, Imported(paid, released), line);
    }
  }

  lemma {:induction false} KeysOfRun(steps: seq<Booking>, keys: set<Key>)
    requires forall b :: b in steps ==> KeyOf(b.event) in keys
    ensures forall i :: 0 <= i < |Run([], steps)| ==> Run([], steps)[i].context.key in keys
  {
    if |steps| > 0 {
      KeysOfRun(steps[..|steps| - 1], keys);
      assert steps[|steps| - 1] in steps;
    }
  }

  // ---------------------------------------------------------------- a refund against its payment

  /** The refund of a payment, with the figures the refund route reads back from the paid invoice. */
  predicate Refunds(refund: Event, paid: Event) {
    && paid.InvoicePaid? && refund.RefundSent?
    && refund.currency == paid.currency
    && refund.amount == paid.receivedAmount
    && refund.invoice == Some(RefundedInvoice(paid.ownerId, Some(paid.feeAmount), Some(paid.netAmount)))
  }

  /** What a payment and its refund leave together, on any line of the books of any run. */
  function Unwound(steps: seq<Booking>, paid: Event, refund: Event, line: Line): real {
    Tally(Only(Run([], steps), {KeyOf(paid), KeyOf(refund)}), line)
  }

  lemma UnwoundIsTwoEffects(steps: seq<Booking>, paid: Event, refund: Event, line: Line)
    requires Booked(steps, paid) && Booked(steps, refund) && Refunds(refund, paid)
    ensures Unwound(steps, paid, refund, line) ==
            Effect(Booking(paid, BookedAt(steps, paid)), line) + Effect(Booking(refund, BookedAt(steps, refund)), line)
  {
    TwoEffects(steps, paid, refund, line);
  }

  /** How far the refund's own split of the fee is from the one the payment was booked with. */
  function ShareGap(steps: seq<Booking>, paid: Event, refund: Event): real
    requires Refunds(refund, paid)
  {
    PaidShares(paid, BookedAt(steps, paid)).freezone - RefundShares(refund, BookedAt(steps, refund)).freezone
  }

  /**
   * A refund against its payment, with any other events in between. Custody and the two shares
   * together always come back to nothing; the shares one by one are left off by equal and opposite
   * amounts; and the merchant's payable comes back for an export, but for an import, where the
   * payment never credited it, it is left short by the whole net.
   */
  lemma RefundUndoesPayment(steps: seq<Booking>, paid: Event, refund: Event)
    requires Booked(steps, paid) && Booked(steps, refund) && Refunds(refund, paid)
    requires paid.share.Some? ==> paid.share.value.gateway + paid.share.value.freezone == paid.feeAmount
    ensures var u := Token(paid.currency);
            && Unwound(steps, paid, refund, OnAccount(DEPOSIT_HELD, u)) == 0.0
            && Unwound(steps, paid, refund, OnAccount(REFUNDED, u)) == paid.receivedAmount
            && Unwound(steps, paid, refund, OnAccount(FREEZONE_SHARE, u)) == ShareGap(steps, paid, refund)
            && Unwound(steps, paid, refund, OnAccount(GATEWAY_SHARE, u)) == -ShareGap(steps, paid, refund)
            && Unwound(steps, paid, refund, OwedTo(paid.ownerId, u)) == Unwound(steps, paid, refund, OnAccount(MERCHANT_PAYABLE, u))
            && Unwound(steps, paid, refund, OnAccount(MERCHANT_PAYABLE, u)) == if Importing(paid) then -paid.netAmount else 0.0
    ensures paid.share.None? && BookedAt(steps, paid) == BookedAt(steps, refund) ==> ShareGap(steps, paid, refund) == 0.0
  {
    var u := Token(paid.currency);
    var p, q := BookedAt(steps, paid), BookedAt(steps, refund);
    forall line: Line
      ensures Unwound(steps, paid, refund, line) == Effect(Booking(paid, p), line) + Effect(Booking(refund, q), line)
    {
      UnwoundIsTwoEffects(steps, paid, refund, line);
    }
    RefundEffects(paid, refund, p, q, OnAccount(DEPOSIT_HELD, u));
    RefundEffects(paid, refund, p, q, OnAccount(REFUNDED, u));
    RefundEffects(paid, refund, p, q, OnAccount(FREEZONE_SHARE, u));
    RefundEffects(paid, refund, p, q, OnAccount(GATEWAY_SHARE, u));
    RefundEffects(paid, refund, p, q, OwedTo(paid.ownerId, u));
    RefundEffects(paid, refund, p, q, OnAccount(MERCHANT_PAYABLE, u));
  }

  lemma RefundEffects(paid: Event, refund: Event, p: real, q: real, line: Line)
    requires Refunds(refund, paid)
    ensures Effect(Booking(paid, p), line) + Effect(Booking(refund, q), line) ==
            At(line, REFUNDED, paid.receivedAmount, Token(paid.currency))
            + At(line, GATEWAY_SHARE, PaidShares(paid, p).gateway - RefundShares(refund, q).gateway, Token(paid.currency))
            + At(line, FREEZONE_SHARE, PaidShares(paid, p).freezone - RefundShares(refund, q).freezone, Token(paid.currency))
            + (if Importing(paid) then At(line, MERCHANT_PAYABLE, -paid.netAmount, Token(paid.currency), Some(paid.ownerId)) else 0.0)
  {
    PaymentEffect(paid, p, line);
    TotalWrittenOut(Rows(refund, q), line);
  }

  /** The rows of a payment, as one sum on any line. */
  lemma PaymentEffect(paid: Event, p: real, line: Line)
    requires paid.InvoicePaid?
    ensures var u, s := Token(paid.currency), PaidShares(paid, p);
            Effect(Booking(paid, p), line) ==
            At(line, DEPOSIT_HELD, paid.receivedAmount, u)
            + (if Importing(paid) then 0.0 else At(line, MERCHANT_PAYABLE, paid.netAmount, u, Some(paid.ownerId)))
            + At(line, GATEWAY_SHARE, s.gateway, u) + At(line, FREEZONE_SHARE, s.freezone, u)
  {
    TotalWrittenOut(Rows(paid, p), line);
  }

  /**
   * The same net refunded and paid out in rial: a booked export whose refund and payout are both in
   * the books leaves its owner owing the whole net, whatever else the run books.
   */
  lemma RefundAndPayoutOweNet(steps: seq<Booking>, paid: Event, refund: Event, settled: Event)
    requires Booked(steps, paid) && Booked(steps, refund) && Booked(steps, settled)
    requires Refunds(refund, paid) && !Importing(paid) && settled.SettlementSettled?
    requires settled.ownerId == paid.ownerId && settled.currency == paid.currency && settled.netAmount == paid.netAmount
    ensures Tally(Only(Run([], steps), {KeyOf(paid), KeyOf(refund), KeyOf(settled)}), OwedTo(paid.ownerId, Token(paid.currency)))
            == -paid.netAmount
  {
    var line := OwedTo(paid.ownerId, Token(paid.currency));
    DisjointKeysAdd(Run([], steps), {KeyOf(paid), KeyOf(refund)}, {KeyOf(settled)}, line);
    assert {KeyOf(paid), KeyOf(refund)} + {KeyOf(settled)} == {KeyOf(paid), KeyOf(refund), KeyOf(settled)};
    UnwoundIsTwoEffects(steps, paid, refund, line);
    RefundEffects(paid, refund, BookedAt(steps, paid), BookedAt(steps, refund), line);
    ContributionOf(steps, settled, line);
    TotalWrittenOut(Rows(settled, BookedAt(steps, settled)), line);
  }

  /**
   * "Everything the payment created is reversed" holds exactly when the invoice was not an import
   * (or its net was zero) and the settings' split of the fee at the time of the refund equals the
   * split the payment was booked with, which is the contract's whenever it was passed in.
   */
  lemma RefundReversesEverythingIff(steps: seq<Booking>, paid: Event, refund: Event)
    requires Booked(steps, paid) && Booked(steps, refund) && Refunds(refund, paid)
    requires paid.share.Some? ==> paid.share.value.gateway + paid.share.value.freezone == paid.feeAmount
    ensures (forall a, u :: a in {DEPOSIT_HELD, BANK_HELD, MERCHANT_PAYABLE, GATEWAY_SHARE, FREEZONE_SHARE}
                            ==> Unwound(steps, paid, refund, OnAccount(a, u)) == 0.0)
            <==> (!Importing(paid) || paid.netAmount == 0.0) && ShareGap(steps, paid, refund) == 0.0
  {
    RefundUndoesPayment(steps, paid, refund);
    var unit := Token(paid.currency);
    forall a, u | a in {DEPOSIT_HELD, BANK_HELD, MERCHANT_PAYABLE, GATEWAY_SHARE, FREEZONE_SHARE} && (u != unit || a == BANK_HELD)
      ensures Unwound(steps, paid, refund, OnAccount(a, u)) == 0.0
    {
      UnwoundIsTwoEffects(steps, paid, refund, OnAccount(a, u));
      RefundEffects(paid, refund, BookedAt(steps, paid), BookedAt(steps, refund), OnAccount(a, u));
    }
  }

  /**
   * The two failing families on concrete figures: a 20 fee the contract halved, refunded while the
   * settings say 40 percent, leaves the organization credited 2 it will never be paid; and an
   * import of 1000 leaves its owner owing 980.
   */
  lemma RefundLeavesResidue()
    ensures var paid := InvoicePaid(1, "INV-1043", 7, USDT, Some(EXPORT), 1000.0, 20.0, 980.0, Some(Shares(10.0, 10.0)));
            var refund := RefundSent(2, "RFD-1009", USDT, 1000.0, Some(RefundedInvoice(7, Some(20.0), Some(980.0))));
            Unwound([Booking(paid, 40.0), Booking(refund, 40.0)], paid, refund, OnAccount(FREEZONE_SHARE, Token(USDT))) == 2.0
    ensures var paid := InvoicePaid(1, "INV-1043", 7, USDT, Some(IMPORT), 1000.0, 20.0, 980.0, Some(Shares(10.0, 10.0)));
            var refund := RefundSent(2, "RFD-1009", USDT, 1000.0, Some(RefundedInvoice(7, Some(20.0), Some(980.0))));
            Unwound([Booking(paid, 50.0), Booking(refund, 50.0)], paid, refund, OwedTo(7, Token(USDT))) == -980.0
  {
    var refund := RefundSent(2, "RFD-1009", USDT, 1000.0, Some(RefundedInvoice(7, Some(20.0), Some(980.0))));
    ConcreteRefund(InvoicePaid(1, "INV-1043", 7, USDT, Some(EXPORT), 1000.0, 20.0, 980.0, Some(Shares(10.0, 10.0))), refund, 40.0);
    ConcreteRefund(InvoicePaid(1, "INV-1043", 7, USDT, Some(IMPORT), 1000.0, 20.0, 980.0, Some(Shares(10.0, 10.0))), refund, 50.0);
    assert Times(20.0, 40.0) == 800.0;
    assert SplitGatewayFee(20.0, 40.0).freezone == 8.0;
  }

  lemma ConcreteRefund(paid: Event, refund: Event, p: real)
    requires Refunds(refund, paid) && paid.share.Some? && paid.receivedAmount != 0.0
    requires paid.share.value.gateway + paid.share.value.freezone == paid.feeAmount
    ensures var steps := [Booking(paid, p), Booking(refund, p)];
            var u := Token(paid.currency);
            && Unwound(steps, paid, refund, OnAccount(FREEZONE_SHARE, u)) ==
               paid.share.value.freezone - SplitGatewayFee(paid.feeAmount, p).freezone
            && Unwound(steps, paid, refund, OwedTo(paid.ownerId, u)) == if Importing(paid) then -paid.netAmount else 0.0
  {
    var steps := [Booking(paid, p), Booking(refund, p)];
    assert steps[0].event == paid && steps[1].event == refund;
    UncontestedIsBooked(steps, paid);
    UncontestedIsBooked(steps, refund);
    RefundBookedAt(steps, refund, p);
    RefundUndoesPayment(steps, paid, refund);
  }

  lemma RefundBookedAt(steps: seq<Booking>, refund: Event, p: real)
    requires refund.RefundSent? && refund.invoice.Some? && refund.amount != 0.0 && Booked(steps, refund)
    requires forall b :: b in steps ==> b.percent == p
    ensures BookedAt(steps, refund) == p
  {
    WroteAtIsAStep(steps, KeyOf(refund));
    KeptIsEmpty(Rows(refund, p));
    assert Rows(refund, p)[0].amount != 0.0;
    assert Group(refund, p) != [];
    if WroteAt(steps, KeyOf(refund)).None? {
      UnwrittenIsEmpty(steps, refund);
    }
  }
}
