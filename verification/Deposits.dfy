/**
 * Recording a release that happened on chain (app/api/deposits/route.ts, POST): find this deposit's
 * own `Released` event among the receipt's logs, record it once, and post its split.
 */
module Deposits {
  import opened Wrappers
  import opened Books
  import opened BooksIdentities
  import opened Journeys
  import opened Uids

  /** The event's figures, in the token's smallest unit. */
  datatype Figures = Figures(total: nat, gateway: nat, freezone: nat, beneficiary: nat)

  datatype Decoded = Undecodable | OtherEvent | Released(figures: Figures)

  datatype Log = Log(address: string, decoded: Decoded)

  datatype Receipt = Receipt(success: bool, logs: seq<Log>)

  datatype InvoiceOfDeposit = InvoiceOfDeposit(currency: Currency, direction: Direction)

  datatype Sweep = Sweep(at: int, txHash: string, gateway: real, freezone: real, beneficiary: real)

  datatype Deposit = Deposit(address: string, invoice: Option<InvoiceOfDeposit>, swept: Option<Sweep>)

  function LowerChar(c: char): char {
    if 'A' <= c <= 'Z' then (c as int + 32) as char else c
  }

  /** `toLowerCase()` on an address or a hash. */
  function Lower(s: string): string { seq(|s|, i requires 0 <= i < |s| => LowerChar(s[i])) }

  /** The same character, or the same Latin letter in the other case. */
  predicate SameLetter(c: char, d: char) {
    c == d || ('A' <= c <= 'Z' && d as int - c as int == 'a' as int - 'A' as int)
    || ('A' <= d <= 'Z' && c as int - d as int == 'a' as int - 'A' as int)
  }

  /** Two addresses are taken for one exactly when they differ in nothing but case. */
  lemma LowerIgnoresCase(a: string, b: string)
    ensures Lower(a) == Lower(b) <==> |a| == |b| && forall i :: 0 <= i < |a| ==> SameLetter(a[i], b[i])
  {
    if |a| == |b| {
      forall i | 0 <= i < |a|
        ensures Lower(a)[i] == Lower(b)[i] <==> SameLetter(a[i], b[i])
      {
      }
      if forall i :: 0 <= i < |a| ==> SameLetter(a[i], b[i]) {
        assert Lower(a) == Lower(b);
      }
    } else {
      assert |Lower(a)| == |a| && |Lower(b)| == |b|;
    }
  }

  predicate IsHex(c: char) { '0' <= c <= '9' || 'a' <= c <= 'f' || 'A' <= c <= 'F' }

  predicate IsTxHash(s: string) {
    |s| == 66 && s[0] == '0' && s[1] == 'x' && forall i :: 2 <= i < 66 ==> IsHex(s[i])
  }

  predicate IsOwnRelease(log: Log, address: string) {
    Lower(log.address) == Lower(address) && log.decoded.Released?
  }

  function OwnRelease(logs: seq<Log>, address: string): Option<Figures> {
    if |logs| == 0 then None
    else if IsOwnRelease(logs[0], address) then Some(logs[0].decoded.figures)
    else OwnRelease(logs[1..], address)
  }

  /** The first release of this very deposit: every earlier log is someone else's or something else. */
  lemma {:induction false} OwnReleaseIsFirst(logs: seq<Log>, address: string)
    ensures match OwnRelease(logs, address)
            case None => forall i :: 0 <= i < |logs| ==> !IsOwnRelease(logs[i], address)
            case Some(f) => exists i :: 0 <= i < |logs| && IsOwnRelease(logs[i], address) && logs[i].decoded.figures == f
                                        && forall j :: 0 <= j < i ==> !IsOwnRelease(logs[j], address)
  {
    if |logs| > 0 && !IsOwnRelease(logs[0], address) {
      var rest := logs[1..];
      OwnReleaseIsFirst(rest, address);
      if OwnRelease(logs, address).Some? {
        var i :| 0 <= i < |rest| && IsOwnRelease(rest[i], address) && rest[i].decoded.figures == OwnRelease(logs, address).value
                 && forall j :: 0 <= j < i ==> !IsOwnRelease(rest[j], address);
        assert logs[i + 1] == rest[i];
        assert forall j :: 1 <= j < i + 1 ==> logs[j] == rest[j - 1];
      } else {
        assert forall i :: 1 <= i < |logs| ==> logs[i] == rest[i - 1];
      }
    }
  }

  /** `toHuman`: whole tokens from the smallest unit, `scale` of which make one. */
  function ToHuman(value: nat, scale: nat): real
    requires scale > 0
  {
    value as real / scale as real
  }

  function ReleaseEvent(id: Id, d: Deposit, f: Figures, scale: nat): Event
    requires scale > 0
  {
    DepositReleased(id, d.address, CurrencyOf(d), if d.invoice.Some? then Some(d.invoice.value.direction) else None,
                    ToHuman(f.total, scale), ToHuman(f.gateway, scale), ToHuman(f.freezone, scale), ToHuman(f.beneficiary, scale))
  }

  function CurrencyOf(d: Deposit): Currency { if d.invoice.Some? then d.invoice.value.currency else USDT }

  /** All that has to hold for a release to be recorded; each failure is one of the route's refusals. */
  predicate Recordable(role: Role, deposits: map<Id, Deposit>, id: Id, txHash: string, receipt: Option<Receipt>) {
    && role == BANK && IsTxHash(txHash)
    && id in deposits && deposits[id].swept.None?
    && receipt.Some? && receipt.value.success
    && OwnRelease(receipt.value.logs, deposits[id].address).Some?
  }

  /**
   * What a release does to the books: custody gives up the total, the two wallets and the beneficiary
   * have their parts, and the two shares are no longer owed. The beneficiary of an import is the
   * foreign seller, of anything else the bank; a deposit without an invoice is in USDT.
   */
  ghost predicate TokensMoved(before: seq<Entry>, after: seq<Entry>, d: Deposit, f: Figures, scale: nat)
    requires scale > 0
  {
    var u := Token(match d.invoice case Some(invoice) => invoice.currency case None => USDT);
    var imported := d.invoice.Some? && d.invoice.value.direction == IMPORT;
    && Balance(after, DEPOSIT_HELD, u) == Balance(before, DEPOSIT_HELD, u) - ToHuman(f.total, scale)
    && Balance(after, SUPPLIER_PAID, u) == Balance(before, SUPPLIER_PAID, u) + (if imported then ToHuman(f.beneficiary, scale) else 0.0)
    && Balance(after, BANK_HELD, u) == Balance(before, BANK_HELD, u) + (if imported then 0.0 else ToHuman(f.beneficiary, scale))
    && Balance(after, GATEWAY_PAID, u) == Balance(before, GATEWAY_PAID, u) + ToHuman(f.gateway, scale)
    && Balance(after, FREEZONE_PAID, u) == Balance(before, FREEZONE_PAID, u) + ToHuman(f.freezone, scale)
    && Balance(after, GATEWAY_SHARE, u) == Balance(before, GATEWAY_SHARE, u) - ToHuman(f.gateway, scale)
    && Balance(after, FREEZONE_SHARE, u) == Balance(before, FREEZONE_SHARE, u) - ToHuman(f.freezone, scale)
    && forall user :: Tally(after, OwedTo(user, u)) == Tally(before, OwedTo(user, u))
  }

  /** The deposit's row records the very amounts the books paid on. */
  ghost predicate RowAgrees(before: seq<Entry>, after: seq<Entry>, d: Deposit) {
    var u := Token(match d.invoice case Some(invoice) => invoice.currency case None => USDT);
    && d.swept.Some?
    && d.swept.value.gateway == Balance(after, GATEWAY_PAID, u) - Balance(before, GATEWAY_PAID, u)
    && d.swept.value.freezone == Balance(after, FREEZONE_PAID, u) - Balance(before, FREEZONE_PAID, u)
    && d.swept.value.beneficiary == Balance(after, BANK_HELD, u) - Balance(before, BANK_HELD, u)
                                    + Balance(after, SUPPLIER_PAID, u) - Balance(before, SUPPLIER_PAID, u)
  }

  lemma ReleaseOnLine(log: seq<Entry>, e: Event, percent: real, line: Line)
    requires e.DepositReleased?
    ensures Tally(log + Group(e, percent), line) == Tally(log, line) + ReleaseSum(e, line)
  {
    TallyOfGroup(log, Rows(e, percent), ContextOf(e), line);
    ReleaseEffect(e, percent, line);
  }

  lemma ReleaseMovesTokens(log: seq<Entry>, id: Id, d: Deposit, f: Figures, scale: nat, percent: real)
    requires scale > 0
    ensures TokensMoved(log, log + Group(ReleaseEvent(id, d, f, scale), percent), d, f, scale)
  {
    var e := ReleaseEvent(id, d, f, scale);
    forall line: Line
      ensures Tally(log + Group(e, percent), line) == Tally(log, line) + ReleaseSum(e, line)
    {
      ReleaseOnLine(log, e, percent, line);
    }
  }

  function ReleaseSum(e: Event, line: Line): real
    requires e.DepositReleased?
  {
    var u := Token(e.currency);
    At(line, DEPOSIT_HELD, -e.total, u) + At(line, if Importing(e) then SUPPLIER_PAID else BANK_HELD, e.beneficiary, u)
    + At(line, GATEWAY_PAID, e.gateway, u) + At(line, FREEZONE_PAID, e.freezone, u)
    + At(line, GATEWAY_SHARE, -e.gateway, u) + At(line, FREEZONE_SHARE, -e.freezone, u)
  }

  class DepositDesk {
    var deposits: map<Id, Deposit>
    const books: Ledger
    const usdtScale: nat

    constructor (deposits: map<Id, Deposit>, books: Ledger, usdtScale: nat)
      requires usdtScale > 0
      requires forall id :: id in deposits && deposits[id].swept.None? ==> !Posted(books.entries, Key(DEPOSIT_RELEASED, id))
      ensures Valid() && this.deposits == deposits && this.books == books && this.usdtScale == usdtScale
    {
      this.deposits := deposits;
      this.books := books;
      this.usdtScale := usdtScale;
    }

    function Scale(currency: Currency): nat {
      if currency == BNB then 1_000_000_000_000_000_000 else usdtScale
    }

    /** A deposit not yet swept has nothing in the books under its release key. */
    ghost predicate Valid()
      reads this, books
    {
      usdtScale > 0 &&
      forall id :: id in deposits && deposits[id].swept.None? ==> !Posted(books.entries, Key(DEPOSIT_RELEASED, id))
    }

    /**
     * A release is recorded exactly when it may be, once for each deposit, with the figures of the
     * deposit's own first event; a refusal changes nothing.
     */
    method Record(role: Role, id: Id, txHash: string, receipt: Option<Receipt>, now: int, settings: Option<real>)
      returns (r: Result<()>)
      requires Valid()
      modifies this, books
      ensures Valid()
      ensures r.Ok? <==> Recordable(role, old(deposits), id, txHash, receipt)
      ensures r.Err? ==> deposits == old(deposits) && books.entries == old(books.entries)
      ensures r.Ok? ==>
        var d := old(deposits)[id];
        var f := OwnRelease(receipt.value.logs, d.address).value;
        var scale := Scale(CurrencyOf(d));
        && deposits == old(deposits)[id := d.(swept := Some(Sweep(now, Lower(txHash), ToHuman(f.gateway, scale),
                                                              ToHuman(f.freezone, scale), ToHuman(f.beneficiary, scale))))]
        && books.entries == old(books.entries) + Group(ReleaseEvent(id, d, f, scale), FreezonePercent(settings))
      ensures r.Ok? ==>
        && id in old(deposits) && receipt.Some? && receipt.value.success && |txHash| == 66
        && exists i :: 0 <= i < |receipt.value.logs| && IsOwnRelease(receipt.value.logs[i], old(deposits)[id].address)
                       && (forall j :: 0 <= j < i ==> !IsOwnRelease(receipt.value.logs[j], old(deposits)[id].address))
                       && TokensMoved(old(books.entries), books.entries, old(deposits)[id], receipt.value.logs[i].decoded.figures,
                                      Scale(if old(deposits)[id].invoice.Some? then old(deposits)[id].invoice.value.currency else USDT))
      ensures r.Ok? ==> id in deposits && RowAgrees(old(books.entries), books.entries, deposits[id])
      ensures role != BANK ==> r == Err(Forbidden)
      ensures role == BANK && IsTxHash(txHash) && id !in old(deposits) ==> r == Err(NotFound)
    {
      if role != BANK { return Err(Forbidden); }
      if !IsTxHash(txHash) { return Err(BadRequest); }
      if id !in deposits { return Err(NotFound); }
      var deposit := deposits[id];
      if deposit.swept.Some? { return Err(BadRequest); }
      if receipt.None? { return Err(BadRequest); }
      if !receipt.value.success { return Err(BadRequest); }

      var logs := receipt.value.logs;
      var released: Option<Figures> := None;
      var i := 0;
      while i < |logs|
        invariant 0 <= i <= |logs|
        invariant released.None? ==> OwnRelease(logs, deposit.address) == OwnRelease(logs[i..], deposit.address)
        invariant released.Some? ==> OwnRelease(logs, deposit.address) == released
      {
        var log := logs[i];
        assert logs[i..][1..] == logs[i + 1..];
        i := i + 1;
        if Lower(log.address) != Lower(deposit.address) { continue; }
        if !log.decoded.Released? { continue; }
        released := Some(log.decoded.figures);
        break;
      }
      if released.None? {
        assert released.None? ==> OwnRelease(logs, deposit.address).None?;
        return Err(BadRequest);
      }
      var f := released.value;
      var currency := if deposit.invoice.Some? then deposit.invoice.value.currency else USDT;
      var scale := Scale(currency);
      deposits := deposits[id := deposit.(swept := Some(Sweep(now, Lower(txHash), ToHuman(f.gateway, scale),
                                                          ToHuman(f.freezone, scale), ToHuman(f.beneficiary, scale))))];
      var release := DepositReleased(id, deposit.address, currency,
                                     if deposit.invoice.Some? then Some(deposit.invoice.value.direction) else None,
                                     ToHuman(f.total, scale), ToHuman(f.gateway, scale),
                                     ToHuman(f.freezone, scale), ToHuman(f.beneficiary, scale));
      books.PostDepositReleased(release, settings);
      GroupHasOneKey(release, FreezonePercent(settings));
      ReleaseMovesTokens(old(books.entries), id, deposit, f, scale, FreezonePercent(settings));
      OwnReleaseIsFirst(logs, deposit.address);
      r := Ok(());
    }
  }

  /** Whole tokens come out whole: eighteen decimals for BNB, as many as the chain is set up with for USDT. */
  lemma WholeTokens(desk: DepositDesk, tokens: nat)
    requires desk.usdtScale > 0
    ensures ToHuman(tokens * 1_000_000_000_000_000_000, desk.Scale(BNB)) == tokens as real
    ensures ToHuman(tokens * desk.usdtScale, desk.Scale(USDT)) == tokens as real
  {
    WholeTokensAt(tokens, 1_000_000_000_000_000_000);
    WholeTokensAt(tokens, desk.usdtScale);
  }

  lemma WholeTokensAt(tokens: nat, scale: nat)
    requires scale > 0
    ensures ToHuman(tokens * scale, scale) == tokens as real
  {
    var t, k := tokens as real, scale as real;
    assert (tokens * scale) as real == t * k;
    assert t * k / k == t;
  }

  lemma GroupHasOneKey(e: Event, percent: real)
    ensures forall i :: 0 <= i < |Group(e, percent)| ==> Group(e, percent)[i].context.key == KeyOf(e)
  {
  }

  /** Figures that add up on chain add up in whole tokens too. */
  lemma HumanFiguresAddUp(id: Id, d: Deposit, f: Figures, scale: nat)
    requires scale > 0 && f.total == f.gateway + f.freezone + f.beneficiary
    ensures AddsUp(ReleaseEvent(id, d, f, scale))
  {
    var k := scale as real;
    var t, g, z, b := f.total as real, f.gateway as real, f.freezone as real, f.beneficiary as real;
    assert t == g + z + b;
    assert t / k == g / k + z / k + b / k;
  }
}
