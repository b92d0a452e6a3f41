# Verification of the AFA payment gateway

AFA takes crypto payments for trade invoices, splits a fee between the gateway and the Free Zone
Organization, and pays merchants in rial through a bank. This project models the server code that
decides what the books say and what may be paid, and proves what that code keeps true over every run.

| file | module | models |
|---|---|---|
| Money.dfy | Money | roundings, the two fee shares, rial, bank spread, rate tolerance |
| Fees.dfy | Fees | the panel's fee and the deposit contract's own split |
| Books.dfy | Books | the append-only ledger, its five money events, its two readings |
| BooksIdentities.dfy | BooksIdentities | identities over every run of events |
| BooksReplay.dfy | BooksReplay | retries; one key, one group |
| BooksOrder.dfy | BooksOrder | any two orders of the same events leave the same books |
| Journeys.dfy | Journeys | completed exports, imports and direct settlements; a refund against its payment |
| Sources.dfy | Sources | where callers get the figures, and the identities with nothing assumed |
| Deposits.dfy | Deposits | recording a contract release |
| Refs.dfy | Refs, Uids | sequences, references, display uids |
| Refunds.dfy | Refunds | the refund state machine, its audit trail and its posting |
| Settlements.dfy | Settlements | the rolling quota, and the payout several callers race to create |
| PaidOnce.dfy | PaidOnce | both desks over one ledger: an invoice refunded and paid out |
| RateLimit.dfy | RateLimit | the fixed-window limiter and its pruned map |

Run `dafny verify dfyconfig.toml` to check everything.

## How it is modelled

- Tables are sequences or maps in the fields of a class; each method is proved equal to a pure
  function of the state before it, and the theorems are about runs of those functions.
- Amounts are exact reals; every explicit rounding of the code is written out. `toFixed`,
  `toDecimalPlaces` with its default mode, and `toDecimalPlaces(8, ROUND_DOWN)` are modelled for
  negative figures too.
- One request is one atomic step. The exception is `raisePayoutSettlement`, whose check, sequence
  draw, insert and return are separate steps that interleave freely.
- The clock, the settings row, the chain's verdicts and the session's user are parameters. The clock
  never goes back.
- Primary keys are opaque numbers, new rows getting new ones.
- A run of the refund desk lets invoices change in any way between steps, and a run of the books
  lets the organization's percent change at every step.

## What was found

- A refund does not always reverse "everything the payment created" (lib/server/refunds.ts:113-117).
  It recomputes the fee shares from the settings row, while payments are booked with the contract's
  split, so the two shares are left off by equal and opposite amounts; and for an import it debits a
  payable the payment never credited. `Journeys.RefundReversesEverythingIff` gives the exact
  condition and `Journeys.RefundLeavesResidue` concrete figures for both families.
- The same invoice can go out twice. `settle` does not ask whether a refund was sent, and whether the
  payout was settled is asked when a refund is raised and not when it is sent, so for any paid export
  with a net there is a run after which the owner owes that net back (`PaidOnce.BothWaysHappens`). It
  happens if and only if one of the two calls is accepted after the other
  (`PaidOnce.PaidTwiceIff`); the guard that rules it out is in `PaidOnce.GuardedIsPaidOnce`.
- Storing fee and net each rounded to eight places adds one unit of the eighth place to the claims of
  a direct settlement, exactly when the fee is on a half unit: 2 percent of 100.00000025 is such a
  request (`Sources.DirectSettlementDrift`, `Sources.HalfUnitFeeHappens`). `Sources.ExactDrift` is
  what that comes to over a run.
- The fee of a direct settlement is never paid on: no event moves its two shares to the wallets, so
  the bank keeps exactly what they are owed (`Journeys.DirectSettlementLeaves`,
  `Journeys.NothingOutstanding`).
- A merchant's automatic payouts use up the quota of the merchant's own requests, though they are not
  held to it (`Settlements.QuotaCountsPayouts`).
- A deposit topped up after its invoice was booked is released in full, and what was added stays in
  the books as an imbalance between accounts (`Sources.TopUpStaysInTheBooks`).
- The rate limiter lets up to 2 * limit - 1 calls through in one window, and that is reached. A caller
  who waits a full window after a refusal can be refused again (`RateLimit.WaitingAloneIsNotEnough`),
  and exactly when, its own calls tell (`RateLimit.RefusedAgainIff`).
- Without a settings row a settlement request is not limited at all. A merchant's last 24 hours can
  exceed the limit by what was asked for in such a time, and by no more
  (`Settlements.RollingQuota`, `Settlements.QuotaExceededWithoutSettings`).

## Model

| member | source | states |
|---|---|---|
| BooksIdentities.ClaimsIdentity | lib/server/postings.ts:34-231 | After any run of the five events, any order and retries, percent free at each: DEPOSIT_HELD + BANK_HELD + SUPPLIER_PAID = MERCHANT_PAYABLE + both shares + imports' principal, plus exactly the misfits of the events written |
| BooksIdentities.ClaimsHold | lib/server/ledger.ts:106-116 | With figures that add up the identity is exact; with n direct settlements rounded apart it is off by at most n units of the eighth place |
| BooksIdentities.TokensConserved | lib/server/postings.ts:108-140 | Tokens held or paid on, refunds included, equal invoice receipts plus direct funding less settled nets, in both trade directions |
| BooksIdentities.RunTally | lib/server/ledger.ts:6-18 | Any account, merchant or combination equals its start plus the effect of exactly the events that were not replays |
| BooksIdentities.PayablesAreOwned | lib/server/postings.ts:72-78 | In every reachable ledger each MERCHANT_PAYABLE entry says whose it is |
| BooksIdentities.TwoViewsAgree | lib/server/ledger.ts:75-98 | Per-merchant payables add up to the MERCHANT_PAYABLE line exactly, and as printed to within half a unit for each figure printed |
| BooksIdentities.BalancesSumEntries | lib/server/ledger.ts:75-86 | An account is listed exactly when an entry touches it, with the plain sum of its entries; unlisted it is zero |
| BooksReplay.ReplayIsNoOp | lib/server/ledger.ts:60-70 | A run with arbitrary repetition leaves exactly the entries of its first occurrences, though the percent changed and some groups were dropped whole |
| BooksReplay.EmptinessIgnoresPercent | lib/server/ledger.ts:41-56 | Whether all of an event's rows are dropped as zero does not depend on the percent |
| BooksReplay.OneGroupPerKey | lib/server/ledger.ts:36-70 | In any run, though a key may come again with other figures, its entries are one group: that of the first booking under it with anything to write |
| BooksOrder.OrderDoesNotMatter | lib/server/postings.ts:34-231 | Two runs with the same first bookings, in any order and with any retries, leave the same amount on every account, every merchant's claim and both identities |
| BooksIdentities.PayableSumsEntries | lib/server/ledger.ts:89-98 | A merchant's figures are listed in exactly the units something was booked to that merchant in, with their plain sums |
| Books.HalvesWithoutSettings | lib/server/postings.ts:15-18 | With no settings row a fee splits in two halves, the odd last unit going to the gateway |
| Books.Ledger.AlreadyPosted | lib/server/ledger.ts:60-70 | True exactly when some entry carries this kind and subject |
| Books.Ledger.Post | lib/server/ledger.ts:36-57 | Only appends, no zero entry, and every sum moves by the total of the rows asked for |
| Books.Ledger.PostInvoicePaid | lib/server/postings.ts:34-82 | The ledger becomes one step of the specification the identities are about |
| Books.Ledger.PostDepositReleased | lib/server/postings.ts:92-141 | The same, for a contract release in either direction |
| Books.Ledger.PostSettlementFunded | lib/server/postings.ts:149-182 | The same, for crypto handed straight to the bank |
| Books.Ledger.PostSettlementSettled | lib/server/postings.ts:191-231 | The same, for the rial paid out, with the margin in rial |
| Books.Ledger.PostRefundSent | lib/server/refunds.ts:119-152 | The same, for a refund; nothing is written when the invoice is gone |
| Journeys.CompletedJourneysCancel | lib/server/postings.ts:34-231 | Any set of exports, imports and direct settlements completed in the books, interleaved with anything, later bookings of their own keys with other figures included, leaves on every line exactly what each kind of journey leaves |
| Journeys.NothingOutstanding | lib/server/postings.ts:184-231 | When all journeys are completed no deposit is held and nothing is owed to any merchant; the bank holds exactly the direct settlements' fees still owed to the two shares, and nothing if there were none |
| Journeys.FundingLeaves | lib/server/postings.ts:149-182 | Crypto handed straight to the bank, in any run: held by the bank and by no deposit, its owner owed the net and nobody else anything, the organization owed its percentage of the fee rounded down and the gateway the rest |
| Journeys.DirectSettlementLeaves | lib/server/postings.ts:149-231 | And once its rial is paid: the bank keeps amount less net, the shares stand, the merchant is owed nothing |
| Journeys.ImportLeaves | lib/server/postings.ts:61-139 | An import paid and released, in any run: nothing in custody, bank, payables or shares; the foreign seller has the remainder, the two wallets their shares |
| Journeys.RefundUndoesPayment | lib/server/refunds.ts:111-152 | With any events between, payment and refund leave nothing in custody or in the two shares together; each share is off by the gap of the two splits; an import's payable is short by its net; one percent for both leaves no gap |
| Journeys.RefundReversesEverythingIff | lib/server/refunds.ts:111-152 | Everything is reversed if and only if the invoice is no import (or its net is zero) and the settings' split equals the booked one |
| Journeys.RefundAndPayoutOweNet | lib/server/postings.ts:202-230 | A booked export with both its refund and its payout in the books leaves its owner owing its net, in every run |
| Journeys.RefundLeavesResidue | lib/server/refunds.ts:128-151 | Concrete figures where it is not: 2 left in the organization's share; 980 debited from the payable of an import's owner |
| Sources.BooksBalance | lib/server/chain/watcher.ts:477-527 | The identities for every run of events with the figures the callers really compute, nothing assumed of them |
| Sources.ContractPaymentReversedIff | lib/server/refunds.ts:119-152 | A payment split by its contract's terms is reversed in full by its refund if and only if it was an export (or had no net) and the settings' percent of its fee is what the terms gave the organization |
| Sources.TopUpStaysInTheBooks | app/api/deposits/route.ts:152-205 | An export whose release is of another total than was booked leaves exactly the split of the difference: custody short, the bank long, each share overdrawn, the merchant owed nothing; it cancels if and only if the totals are equal |
| Sources.DirectSettlementDrift | app/api/settlements/route.ts:101-120 | A direct settlement of at most eight decimals drifts by one unit exactly when its fee is on a half unit, else not at all, with a settings row or the default fee |
| Sources.HalfUnitFeeHappens | app/api/settlements/route.ts:101-120 | A request that does drift: 100.00000025 at the default two percent |
| Sources.ExactDrift | lib/server/postings.ts:149-182 | Over any run of figures the callers compute from such amounts, the claims identity of a token is off by exactly one unit for each written settlement of that token with a half-unit fee, always the same way |
| Fees.ContractSplitGrows | contracts/AfaGateway.sol:93-116 | A larger release gives none of the three parties less |
| Fees.SplitFeeIsTheFee | lib/server/fees.ts:51-61 | Exactly one figure lies within every bound and is one of those it may be, and that is the fee; it comes off a credit and goes on top of a debit, where the payment does not cap it |
| Fees.CreditShape | lib/server/fees.ts:51-61 | On a credit 0 <= fee <= gross and fee + net = gross; the ceiling always holds, the floor unless payment or ceiling is smaller |
| Fees.FeeIsMonotone | lib/server/fees.ts:51-61 | A larger payment is never charged less, on either side |
| Fees.CreditIsMonotone | lib/server/fees.ts:51-61 | A larger payment never credits the merchant less, across floor, percentage, ceiling and clamp |
| Fees.ContractSplitAddsUp | contracts/AfaGateway.sol:93-116 | A release pays out the whole balance in three non-negative parts |
| Fees.ContractShareRoundsDown | contracts/AfaGateway.sol:103 | The organization's part is its basis points of the fee, rounded down |
| Fees.PanelAgreesWithContract | lib/server/chain/gateway-contract.ts:130-141 | The contract's fee is the panel's rounded down to the token's smallest unit, for all terms, amounts and decimals |
| Money.SplitGatewayFeeShape | lib/server/ledger.ts:106-116 | Two non-negative shares that add back exactly, the organization short of its exact share by less than one unit |
| Money.RialIsNearest | lib/server/money.ts:13-18 | A rial figure is the product rounded to the nearest hundredth |
| Money.SpreadAgreesWithRial | lib/server/ledger.ts:129-139 | Sell spread = minus buy spread exactly, and within 0.01 of the difference of the two rial figures |
| Money.AcceptedRateBoundsSpread | lib/server/rates.ts:25-43 | A rate the guard accepts bounds the spread by the tolerance on the whole amount plus 0.005 |
| Money.ToleranceMeansDistance | lib/server/rates.ts:29-35 | The guard accepts exactly the rates within tolerance of the reference |
| Money.AcceptedRates | lib/server/rates.ts:25-43 | And in all: any rate where no row, reference or tolerance is set, else exactly those |
| Money.Fixed2OfDifference | lib/server/money.ts:13-18 | Rounding a difference and differencing two roundings part by at most 0.01 |
| Money.RoundingDriftBound | app/api/settlements/route.ts:119-120 | Fee and net rounded apart stay within one unit of the amount |
| Money.RoundingDriftExact | app/api/settlements/route.ts:119-120 | For amounts of eight decimals the drift is one unit if the fee is on a half unit and zero otherwise |
| Deposits.OwnReleaseIsFirst | app/api/deposits/route.ts:152-178 | The event used is the first Released log of this deposit's own address, and none is found only if there is none |
| Deposits.DepositDesk.Record | app/api/deposits/route.ts:133-205 | Recorded exactly when it may be, once per deposit, on a confirmed receipt with its own event's figures: custody gives up the total, wallets and beneficiary (the seller of an import, else the bank) gain their parts, the shares are cleared; a refusal changes nothing |
| Deposits.LowerIgnoresCase | app/api/deposits/route.ts:158-159 | Two addresses are taken for one exactly when they differ in nothing but letter case |
| Deposits.WholeTokens | lib/server/chain/client.ts:66-69 | Whole tokens come out whole, BNB having eighteen decimals |
| Deposits.HumanFiguresAddUp | app/api/deposits/route.ts:196-205 | Figures that add up on chain add up in whole tokens |
| Refs.RefsNeverRepeat | lib/server/refs.ts:19-36 | No reference is handed out twice over any run, across all kinds |
| Refs.FirstReferences | lib/server/refs.ts:10-36 | The first reference of each kind as people read it, INV-1043 and its like |
| Refs.Sequences.NextRef | lib/server/refs.ts:30-36 | One number from the kind's sequence and one from the shared one; counters only grow |
| Refs.RefundRefIsInjective | app/api/refunds/route.ts:107-112 | Different settlement numbers give different refund references |
| Refs.PaddedToThree | lib/server/uid.ts:35 | A number below a thousand prints with three digits, zeros first, and a longer one is not cut |
| Uids.UidIsInjective | lib/server/uid.ts:35 | The padded uid determines its role and its number |
| Uids.UidAllocator.NextUid | lib/server/uid.ts:25-41 | The uid returned is free; with fewer than 1000 accounts one is always found |
| Uids.UidsNeverRepeat | lib/server/uid.ts:13-41 | Over any run, from any accounts and however they change, no uid is issued twice, for one role or across roles |
| Uids.FreeWhenIssued | lib/server/uid.ts:29-38 | Each uid issued in a run was on no account at the moment it was issued |
| Uids.SkippedAreTaken | lib/server/uid.ts:29-38 | The numbers the loop passes over are all on accounts, so the first free one is taken |
| Refunds.RefundDesk.Create | app/api/refunds/route.ts:82-135 | Raised if and only if the first invoice carrying the reference is paid, not paid out, without a live refund, its payer known and the user its owner or an admin; for what it received, in its currency, to its payer; a refusal changes nothing |
| Refunds.RefundDesk.Patch | lib/server/refunds.ts:27-99 | Moved if and only if the action is open to this role from this status with what must come with it; the hash kept is the one the chain confirmed; a refusal changes nothing |
| Refunds.AtMostOneLiveRefund | app/api/refunds/route.ts:95-98 | In every run at most one refund of an invoice is not rejected |
| Refunds.OneRefundPostedPerInvoice | lib/server/refunds.ts:119-120 | At most one refund of an invoice ever reaches the books, as one group of a SENT refund for its own amount |
| Refunds.FiguresNeverChange | app/api/refunds/route.ts:74-81 | Amount, destination and origin of a refund never change once raised, and a rejected or sent refund never changes at all |
| Refunds.EveryRefundGivesBack | app/api/refunds/route.ts:86-122 | Every refund of every run was raised against the first invoice with the reference given, by its owner or an admin, and gives back what it had received, in its currency, to its payer |
| Refunds.EveryEndIsVouchedFor | lib/server/refunds.ts:43-77 | Every SENT refund carries the hash the chain confirmed to the bank's own call, its entries being against its own invoice's owner, fee and net as they stood then; every REJECTED one the reason an admin gave |
| Refunds.TrailFollowsPattern | lib/server/statusEvents.ts:41-54 | Each invoice's refund events follow the one pattern, each by the role allowed it, ending where its latest refund stands |
| Refunds.SentWasApproved | lib/server/refunds.ts:53-76 | A sent event is by the bank, right after the admin's approval and the request, and is the last |
| PaidOnce.OwedIffOneWayOut | lib/server/refunds.ts:136-152 | In every run of both desks an export's owner is owed its net less its net for a sent refund less its net for a settled payout: zero if and only if exactly one of them happened |
| PaidOnce.PaidTwiceIff | app/api/settlements/[ref]/transition/route.ts:177-199 | An invoice ends both refunded and paid out if and only if some `markSent` was accepted after its payout was settled or some `settle` after its refund was sent |
| PaidOnce.GuardedIsPaidOnce | app/api/refunds/route.ts:95-101 | If `markSent` asked for an unsettled payout and `settle` for no live refund, no run would do both |
| PaidOnce.GuardedOwesNothingBack | app/api/refunds/route.ts:99-101 | And then an export's owner is owed its net or nothing, never in debt |
| PaidOnce.BothWaysHappens | lib/server/refunds.ts:53-77 | For every paid export with a net there is a run in which both are accepted and the owner owes the net |
| Settlements.RollingQuota | app/api/settlements/route.ts:80-93 | At every moment of every run a merchant's own live requests of the last 24 hours are within the limit, exceeded at most by what was requested in that time without a settings row, which is nothing when every request had one |
| Settlements.QuotaCountsPayouts | app/api/settlements/route.ts:84-88 | What the check adds up is the merchant's own requests and the payouts raised for the merchant's invoices |
| Settlements.QuotaExceededWithoutSettings | app/api/settlements/route.ts:80-93 | That bound is reached: for any limit a request may fill and any amount more, some run's last 24 hours hold the limit and exactly that much besides, asked for without a settings row |
| Settlements.SettlementDesk.Request | app/api/settlements/route.ts:74-137 | Accepted if and only if the merchant may ask and all that stands in 24 hours, payouts included, fits the limit; the row asks for that amount, priced at that currency's own rate for the amount less the fee; fee and net within one unit of the amount |
| Settlements.SettlementDesk.RaisePayout | lib/server/payout.ts:22-101 | Uninterrupted: the existing payout, or nothing to pay, or one new zero-fee payout |
| Settlements.SettledInTurn | app/api/settlements/[ref]/transition/route.ts:112-219 | In every run a settled settlement had waited for the bank and had its rate locked, and a merchant's own had its crypto confirmed first |
| Settlements.OnePayoutPerInvoice | lib/server/payout.ts:33-101 | In every interleaving at most one payout per invoice, every reference returned is that payout's, amount = net = the invoice's payable, no fee |
| RateLimit.RateLimiter.Limit | lib/server/ratelimit.ts:30-48 | One call of the specification; a refusal names the shortest whole-second wait after which the bucket is over |
| RateLimit.RateLimiter.Sweep | lib/server/ratelimit.ts:25-28 | Deletes exactly the dead buckets, all of them, and only in a map of at least five thousand |
| RateLimit.SweepingIsInvisible | lib/server/ratelimit.ts:25-48 | Over every call sequence the pruned limiter answers exactly as one that never deletes, and agrees with it on live buckets |
| RateLimit.LargeMapIsAllLive | lib/server/ratelimit.ts:22-28 | Whenever a run leaves more than five thousand buckets every one was still open at the last call |
| RateLimit.CeilingPerWindow | lib/server/ratelimit.ts:30-48 | Any interval as long as the window accepts at most 2 * limit - 1 calls of a key |
| RateLimit.CeilingIsReached | lib/server/ratelimit.ts:30-48 | For every limit that many calls do get through in some run |
| RateLimit.RefusedExactlyWhen | lib/server/ratelimit.ts:30-48 | In every run a call is refused if and only if the bucket open at that moment, told from the times of earlier calls alone, has already seen its limit of calls |
| RateLimit.RefusedAgainIff | lib/server/ratelimit.ts:37-47 | A call a full window after a refusal is refused again if and only if a call made after that refusal opened a bucket still open and already full |
| RateLimit.RecoversWithinWindow | lib/server/ratelimit.ts:43-47 | So refusals postpone nothing: after one, some call is accepted no later than the first one a full window after it |
| RateLimit.WaitingAloneIsNotEnough | lib/server/ratelimit.ts:37-41 | A run where a call a full window after a refusal is refused, because another call opened the next bucket in between |

## Left out

- Refunds.OneRefundPostedPerInvoice: assumes a request is atomic; two creation requests reading the same invoice at once are not modelled, because the route has no unique index behind its guard.
- Settlements.RollingQuota: assumes a request is atomic and takes the highest limit in force; amounts in both currencies are added as the code adds them.
- Settlements.OnePayoutPerInvoice: says nothing of a payout being raised in the end, because any database error on the way ends the call with no payout.
- RateLimit.RefusedAgainIff: assumes a key is always limited with the same limit and window, as the callers do; RateLimit.RefusedExactlyWhen assumes nothing of them.
- PaidOnce.OwedIffOneWayOut: takes it that the payout and what the refund reads back carry the net the payment was booked with; two callers that saw different totals can leave an invoice row that does not.
- BooksOrder.OrderDoesNotMatter: needs the same key to come with the same figures, because otherwise which figures are booked depends on which came first.
- Check-then-post on the ledger by two callers at once, and crashes between a record and its posting: the code does not make these atomic.
- Negative balances of single accounts: a refund may follow a release, so none is claimed to stay non-negative.
- JavaScript double error, the decimal library's digit limit and the eighteen places of the ledger column: figures are exact but for the roundings written out.
- Persian notes, notifications, audit log rows, e-mail, sessions, request parsing and serialization: plumbing with no figures.
- Chain verification, address derivation and the log watcher's scanning: taken as verdicts and figures passed in.
- The invoice state machine: invoices change freely in the model, so no order of their statuses is assumed.
- The settlement transition route beyond its status edges: reasons, receipts and rate locking write no ledger rows here.
- The factory contract, its deployment and its token transfers: only the arithmetic of a release is modelled.
- The refusal message of the tolerance guard: the printed range is rounded to whole rial and decides nothing.
- User interface, reports, exports and scripts: they read what is modelled here.
