# The money engine, verified

This project models the part of the platform that moves money, and proves what its callers rely on: the wallet
ledger, the fee schedules, the status engine that turns provider records into wallet movements, and the batches,
sweeps, withdrawals and transfers built on top. Beside it stand five smaller protocols: the job queue, the sending of
one SMS, the one-time payout link, the payload checksum and the login lockout.

`dafny verify dfyconfig.toml` checks everything. No lemma relies on automatic induction: the ones Dafny would try it
on carry `{:induction false}`.

## How it is organised

Money is counted in whole cents, and decimals are exact. A database state is a value, `Tables.Db`: wallets, ledger rows
and clock form its `books`, and each other table is a map from references to rows. `Tables.Database` is the store that
the services update in place, and `Snapshot()` is its value. Each service method is proved against a function on `Db`
(the new tables and the error), and every law is a lemma about those functions.

`Engine.Step` lists the service calls. `Engine.Run` is any finite sequence of them, with any references, new or taken,
any other arguments and any provider records, from the empty database. Only a call with a negative amount never reaches
the services, so such a step changes nothing. Batch jobs and sweeps over many accounts are shown to be such runs
(`BatchLaws.ProcessBatchIsRun`, `SweepLaws.SweepIsRun`), so the laws of runs cover them too.

| module | what it holds |
|---|---|
| `Wrappers`, `Totals` | optional values; sums over tables and over the ledger |
| `Fees`, `FeeSchedules` | fee arithmetic; stored schedules |
| `ProviderStatus`, `StatusMachine` | provider vocabulary; how one row reacts to a stream of records |
| `Tables`, `Wallets`, `TxnStatus`, `Collections`, `Disbursements`, `Settlements` | the services |
| `References` | internal references, and when they repeat |
| `Engine`, `EngineLaws`, `LedgerLaws`, `RowLaws` | steps and runs; what every step keeps |
| `Holds` | debits that precede a payout's row, and the ones that are lost |
| `RecordLaws`, `RequestLaws`, `FeeLaws`, `TransferLaws`, `BatchJobs` | what one record, request, fee, transfer and batch job does, in terms of rows and amounts |
| `ReceiptLaws`, `PayoutLaws`, `ClientLaws`, `BatchLaws`, `BatchSummary`, `SweepLaws`, `Accounting`, `Reconciliation` | the laws of runs |
| `InterleavedLedger` | movements whose read and commit are separate events |
| `Queue`, `Sms`, `PayoutLinks`, `Checksum`, `Lockout` | the smaller protocols |

## What the code does, where its comments say otherwise

The model follows the code. These points differ from what comments or names suggest, and each is stated as a result.

- A movement is documented as running in a serializable transaction (src/wallets/wallets.service.ts:15-17), but no
  isolation level is set. The balance stays right under any interleaving of movements
  (`InterleavedLedger.InterleavedSafe`), while a row's before and after columns can be stale (`StaleRow`,
  `StaleRowIff`), a debit can pass a freeze that follows its read (`FrozenRace`, `FrozenHoldsIff`), and the credit leg
  of a transfer, which writes an absolute balance, can lose an update (`AbsoluteWriteIff`, `LostUpdate`,
  `DriftIsRewritten`).
- A payout's or a batch's debit commits before its rows are inserted, and nothing returns it when a row's reference is
  taken. The internal reference of a 15-character client reference is always the same (`References.RepeatsIff`), and
  withdrawals and batch items do not look for an earlier payout with the client reference, so two identical
  withdrawals lose the second debit (`RequestLaws.LostWithdrawal`). `Accounting.RunBalanced` says of any run that the
  balance and the lost holds are what the tables account for, and that the balance alone is exactly when no covered hold
  met a taken reference; `RunPayoutBooked`, `PayoutNetEffect` and `BatchConservation` name the lost holds in the
  same way.
- "Exactly once" holds for rows that do not start on SUCCESS. A collection or deposit that the provider reports as
  SUCCESS in its very first answer is stored as SUCCESS and then ignores every further SUCCESS record
  (`ReceiptLaws.SuccessAtCreation`, `SuccessStartUncredited`). `CollectionExactlyOnce` and `DepositExactlyOnce` have no
  such condition: they say exactly which streams of records bring the credit.
- Final statuses are not absorbing: only a repetition of the same final status is ignored. What never goes back is the
  credit and refund marks (`StatusMachine.MovedIff`).
- The fee of a collection is computed from the amount in the crediting record, but taken from the stored collected
  amount. When the two differ the fee can exceed the gross amount, and the ledger then books the absolute value of
  the difference (`ReceiptLaws.MixedRun`). `CreditPlusFeeIff` is the condition, known before the call, under
  which credit and fee add up to the gross amount, and `Accounting.RunNetIff` says of any run that the accounting
  identity holds in terms of gross less fee exactly when every record that credited the wallet met it.
- EXPIRED is neither final nor refunded, so an expired item keeps its batch PROCESSING (`BatchSummary.BatchStatusMeaning`).
- The refund of a batch item of amount zero is refused, and the error comes before the batch is recounted. The summary
  is then stale (`BatchSummary.StaleBatch` is such a run), until another record of the batch brings a recount.
  `RecordKeepsSummaryIff` says that no other record makes a correct summary wrong, and `RunSummarised` that a summary
  agrees with its rows exactly when its batch is not stale. A FAILED batch has returned its hold in any case
  (`FailedBatchReturned`).
- Only single payouts look for an earlier payout with the same client reference, so payouts of an account can share one
  as long as at most one of them is a single payout (`RequestLaws.RunUniqueSingles`). A withdrawal's minimum is compared
  with amount plus fee (`WithdrawalAccepted`).
- A job that is delivered again calls the provider again if the first answer mapped to PENDING
  (`RequestLaws.JobRedelivered`).
- A fee tier above the threshold can leave less after the fee than the tier below (`Fees.NetDropExists`);
  `NetMonotoneIff` gives the schedules for which that cannot happen.
- The lockout is described as a sliding window (src/auth/auth.service.ts:16-20), but the window starts at the first
  failure. `Lockout.LockoutBoundIff` is the exact condition on the settings under which 2 * maxFailures - 1 failures
  are the most that any one window admits.
- The comment on the SMS claim (src/sms/sms.service.ts:131-132) says that a message can never be submitted twice. A job
  that dies between the provider's acceptance and its own write, followed by stale-claim recovery, submits it again
  (`Sms.CrashAfterAcceptance`), as do recovery of a live claim and a failure report on a sent message
  (`RecoveredWhileLive`, `ReportedFailed`). `Sms.Disorder` is exactly what must not happen: without it the message is
  accepted at most once, and after it an orderly continuation gets it accepted twice (`SingleAcceptanceIff`).

## Model

| member | source | states |
|---|---|---|
| Fees.FeeBounds | src/fees/fees.service.ts:82-100 | a fee lies between 0 and the amount and is off the exact rate by at most half a cent |
| Fees.FeeStep | src/fees/fees.service.ts:90 | one more cent raises the fee by 0 or 1 cent |
| Fees.FeeMonotone | src/fees/fees.service.ts:82-92 | within one tier both the fee and the amount net of fee grow with the amount |
| Fees.SplitFee | src/fees/fees.service.ts:82-92 | splitting an amount into n parts of one tier changes the total fee by at most (n + 1) / 2 cents |
| Fees.NetMonotoneIff | src/fees/fees.service.ts:82-92 | over both tiers, paying more never nets less if and only if the step at the threshold does not lose money |
| Fees.NetDropExists | src/fees/fees.service.ts:82-92 | a schedule with rates in bounds under which 30.00 nets less than 29.99 |
| Fees.NearestIff | src/fees/fees.service.ts:90 | the fee is the one amount of cents nearest to the exact rate, half a cent going away from zero |
| Fees.PatchedMeaning | src/fees/fees.service.ts:57-75 | an accepted patch gives each rate and each of the two thresholds it names exactly its value, leaves the others, and keeps every stored rate within 0..10000 |
| Fees.AcceptableIff | src/fees/fees.service.ts:65-71 | a patch is acceptable if and only if each of its rates is a whole number from 0 to 10000 |
| Fees.ClampedMeaning | src/accounts/accounts.service.ts:98-110 | an account is created with each acceptable rate it asks for, the default (5%, 2% or 2% for transfers) in place of any other, its thresholds or 3000.00, and so with every rate within 0..10000 |
| Fees.PatchedByFields | src/fees/fees.service.ts:58-75 | collecting the rates one by one in the fixed order gives the schedule of the whole patch |
| FeeSchedules.UpdateConfig | src/fees/fees.service.ts:44-76 | the loop over the rates accepts the patch if and only if every rate in it is an integer in 0..10000, and otherwise changes no rate; an unknown account is an error |
| FeeSchedules.ReadConfig | src/fees/fees.service.ts:31-42 | a first read stores the default schedule, a later one changes nothing, and both return what is stored; an unknown account has none and gets none |
| FeeLaws.ChargedIff | src/fees/fees.service.ts:82-100 | a collection is charged by the collection tiers, a payout, withdrawal or sweep by the disbursement tiers and a transfer by the transfer rate of the account's schedule (the default one if it has none), the lower tier ending below its threshold, to the nearest cent and in no other way |
| FeeLaws.StepSchedule | src/fees/fees.service.ts:31-76 | of all service calls only an accepted update of the account, or its creation with rates, changes what it is charged, and then to the patched schedule |
| FeeLaws.RunSchedule | src/fees/fees.service.ts:31-42 | over any run without such a call the account's schedule stays; storing the default one on first use changes no charge |
| FeeLaws.TransferCharged | src/wallets/wallets.service.ts:181-262 | an accepted transfer stores account, client reference, amount and the transfer fee on that amount, and takes amount plus that fee |
| EngineLaws.RunFeeBounds | src/fees/fees.service.ts:57-92 | in every state of every run, the fee of any account and amount is within 0..amount, at a rate within 0..10000, to half a cent |
| ProviderStatus.MapIgnoresCase | src/webhooks/txn-status.service.ts:16-17 | the spelling of a provider word does not change its status, letters whose upper case is ASCII included |
| ProviderStatus.AnySpelling | src/webhooks/txn-status.service.ts:17 | however the letters of a word of capitals are spelt, large or small, its upper case is that word |
| ProviderStatus.ForeignLetters | src/webhooks/txn-status.service.ts:17 | a sharp s anywhere in a text counts as SS, a long s as S and a dotless i as I |
| ProviderStatus.MapDecides | src/webhooks/txn-status.service.ts:16-47 | each status has its own words, spelled out: a word means SUCCESS, PROCESSING, FAILED, REFUNDED, REVERSED or EXPIRED if and only if it is in that list, and every other text, or none, PENDING |
| Wallets.MoveFunds | src/wallets/wallets.service.ts:63-143 | one movement posts as the ledger function says or leaves wallets and ledger as they were, with the error of the refusing check |
| Wallets.RunTransferLegs | src/wallets/wallets.service.ts:190-262 | the transaction of a transfer does both legs, or restores the state it started from and reports why |
| Wallets.TransferCollectionToDisbursement | src/wallets/wallets.service.ts:152-273 | a transfer gives the state and the error that `TransferLaws.TransferAllOrNothing` describes; a taken transfer reference rolls both legs back |
| Wallets.SetFrozen | src/wallets/wallets.service.ts:285-299 | a freeze or activation changes the status of one existing wallet and nothing else; an unknown wallet is an error |
| Wallets.RowsAppend | src/wallets/wallets.service.ts:126-141 | a new ledger row is the last row of its own wallet and no row of any other |
| LedgerLaws.MoveMeaning | src/wallets/wallets.service.ts:77-141 | a movement is refused for the first of: amount 0, no such wallet, a freeze it does not pass, not enough money to take; else one wallet changes by its size, down for the four kinds that take money, and one row says so, stamped with the clock |
| LedgerLaws.FreezeMeaning | src/wallets/wallets.service.ts:285-299 | a freeze or an activation sets the status of one wallet and nothing else; afterwards a movement that does not pass freezes is refused, or, once activated, goes through if and only if it is covered |
| LedgerLaws.PostSound | src/wallets/wallets.service.ts:101-141 | a movement that does not overdraw its wallet keeps every wallet's rows chained up to a non-negative balance |
| LedgerLaws.StepSound | src/wallets/wallets.service.ts:94-142 | movements, transfers, freezes, clock ticks and new wallets all keep every wallet sound |
| LedgerLaws.ChainSum | src/wallets/wallets.service.ts:302-320 | a chained ledger telescopes: its amounts add up to the balance its last row shows |
| LedgerLaws.SoundLedgerIntegrity | src/wallets/wallets.service.ts:302-320 | in sound books the integrity report says consistent, with discrepancy 0 |
| LedgerLaws.IntegrityIff | src/wallets/wallets.service.ts:302-320 | for any books the report says consistent if and only if the balance is the sum of the wallet's own rows, with the difference and the number of those rows |
| LedgerLaws.TamperingReported | src/wallets/wallets.service.ts:302-320 | a balance changed behind the ledger's back is reported by exactly what was changed |
| LedgerLaws.FrozenNoOutflow | src/wallets/wallets.service.ts:86-99 | no change of the books but an activation lowers a frozen wallet's balance or ends its freeze |
| EngineLaws.StepKept | src/webhooks/txn-status.service.ts:69-323 | every service call but a freeze keeps all tables well formed and changes the books by at most one movement, transfer, opening or tick |
| EngineLaws.StepRefines | src/wallets/wallets.service.ts:63-299 | every service call, freezes included, is one atomic change of the books |
| EngineLaws.StepAccounts | src/accounts/accounts.service.ts:68-84 | an account is created once, with two empty wallets in use, changes by configuration only, and never goes away |
| EngineLaws.ManualMeaning | src/wallets/wallets.controller.ts:49-80 | a manual deposit or withdrawal of a positive amount goes through if and only if the wallet is in use and covers what is withdrawn, and adds one marked row that raises or lowers the balance |
| EngineLaws.RunSound | src/wallets/wallets.service.ts:94-142 | in every state of every run no balance is negative and each wallet's rows chain, without gaps, from 0 to its balance |
| EngineLaws.RunLedgerIntegrity | src/wallets/wallets.service.ts:302-320 | in every state of every run the integrity report of every wallet is clean |
| EngineLaws.RunFrozenNoOutflow | src/wallets/wallets.service.ts:90-99 | in every run, from a freeze to the next activation the wallet's balance does not fall |
| EngineLaws.FeeBoundsOf | src/settlements/settlements.service.ts:306-307 | under stored schedules neither a disbursement fee nor a transfer fee is negative or exceeds its amount, so sweeps and withdrawals never owe a negative amount |
| TransferLaws.LegsEffect | src/wallets/wallets.service.ts:190-262 | the transaction goes through if and only if the source covers amount plus fee, and then has the full effect of a transfer |
| TransferLaws.TransferAllOrNothing | src/wallets/wallets.service.ts:163-262 | a transfer happens if and only if it is possible, its reference being free included; then the two balances together fall by exactly the fee and one OUT and one IN row share a reference; otherwise wallets, ledger and transfers are unchanged, and the error names the first check that fails |
| RowLaws.StepExtends | src/wallets/wallets.service.ts:126-141 | the ledger is append-only: each call adds only rows of its own kind and reference and changes none |
| RowLaws.CollectionFrame | src/webhooks/txn-status.service.ts:69-112 | nothing but its own start and its own records writes a collection row |
| RowLaws.DepositFrame | src/webhooks/txn-status.service.ts:167-198 | nothing but its own start and its own records writes a deposit row |
| RowLaws.PayoutFrame | src/webhooks/txn-status.service.ts:244-271 | nothing but the call that creates it and its own records writes a payout row |
| TxnStatus.ApplyCollectionUpdate | src/webhooks/txn-status.service.ts:69-158 | a collection record leaves the database in the state that `RecordLaws.CollectionRecordMeaning` describes; it is handled if and only if the reference is known |
| TxnStatus.ApplyDepositUpdate | src/webhooks/txn-status.service.ts:167-240 | the same for deposits, with `RecordLaws.DepositRecordMeaning` |
| TxnStatus.ApplyPayoutUpdate | src/webhooks/txn-status.service.ts:244-323 | the same for payouts, with `RecordLaws.PayoutRecordMeaning` for row and wallet and `BatchSummary` for the batch |
| TxnStatus.UpdateBatchCounters | src/webhooks/txn-status.service.ts:331-351 | the stored summary becomes the recount that `BatchSummary.RecountMeaning` describes, and nothing else changes |
| RecordLaws.CollectionRecordMeaning | src/webhooks/txn-status.service.ts:69-129 | a collection record in full: ignored if unknown or a repetition of SUCCESS, FAILED, REVERSED or REFUNDED; else status and collected amount are rewritten, and the first SUCCESS stores the collection fee on the record's own amount and credits the collection wallet, frozen or not, with the amount that came in less that fee |
| RecordLaws.DepositRecordMeaning | src/webhooks/txn-status.service.ts:167-213 | the same for deposits: the disbursement wallet gets the whole amount, no fee is stored |
| RecordLaws.PayoutRecordMeaning | src/webhooks/txn-status.service.ts:244-293 | a payout record in full: the first FAILED, REVERSED or REFUNDED returns amount plus fee to the wallet that paid, frozen or not; only status and refund mark of the row change |
| StatusMachine.MovedIff | src/webhooks/txn-status.service.ts:78-84 | for any stream of records, the money moves if and only if a trigger status arrives at or after a record that differs from the start status; afterwards it never moves again |
| StatusMachine.FiresFromOpenStart | src/webhooks/txn-status.service.ts:81-84 | a row that did not start on a trigger status moves its money if and only if some trigger arrives |
| StatusMachine.AllRepeated | src/webhooks/txn-status.service.ts:79-81 | records that only repeat a final start status change nothing |
| ReceiptLaws.CollectionMark | src/webhooks/txn-status.service.ts:69-112 | in any run, whatever else happens, a collection's status and credit mark are those of the status machine fed with its own records |
| ReceiptLaws.DepositMark | src/webhooks/txn-status.service.ts:167-198 | the same for deposits |
| ReceiptLaws.RunBooked | src/webhooks/txn-status.service.ts:114-129 | in every state of every run the ledger holds one credit of the right amount for each credited row and none for any other |
| ReceiptLaws.CollectionExactlyOnce | src/webhooks/txn-status.service.ts:78-129 | over any run, a collection's credit is in the ledger once, with its amount, if its records fire, and not at all otherwise, however many duplicates and flips follow |
| ReceiptLaws.DepositExactlyOnce | src/webhooks/txn-status.service.ts:176-213 | the same for deposits, credited in full |
| ReceiptLaws.NonSuccessStart | src/webhooks/txn-status.service.ts:81-84 | from any start but SUCCESS, the records fire if and only if SUCCESS is among them |
| ReceiptLaws.SuccessStartNeverFires | src/webhooks/txn-status.service.ts:79-84 | records that only confirm a SUCCESS start never fire |
| ReceiptLaws.SuccessStartUncredited | src/webhooks/txn-status.service.ts:79-84 | in any run, a collection or deposit that stands on SUCCESS uncredited stays so, with no credit in the ledger, while its records only confirm the SUCCESS |
| ReceiptLaws.SuccessAtCreation | src/collections/collections.service.ts:91 | a run that ends with such a row: the provider answers the request itself with PAID |
| ReceiptLaws.CreditPlusFeeIff | src/webhooks/txn-status.service.ts:88-121 | for the record that credits a collection: credit plus stored fee is the gross amount if and only if the fee on the record's amount does not exceed the gross amount the row will hold |
| ReceiptLaws.SameBaseCredit | src/webhooks/txn-status.service.ts:88-121 | when the crediting record carries the collected amount, or no earlier record did, the fee is within the gross amount and credit plus fee is the gross amount |
| ReceiptLaws.MixedBaseCredit | src/webhooks/txn-status.service.ts:91-121 | a collection of 1 cent with a request of 1000.00 is credited 49.99: the two amounts the code uses can differ |
| ReceiptLaws.MixedRun | src/webhooks/txn-status.service.ts:91-121 | a run from the empty database that ends with such a credit |
| Accounting.CreditBalanced | src/webhooks/txn-status.service.ts:114-129 | a credit brings exactly what the row starts to account for |
| Accounting.HoldBalanced | src/disbursements/disbursements.service.ts:226-265 | a hold and its row keep the accounting identity of a wallet if and only if it is not a covered hold of that wallet on a taken reference; then the gap is the amount held |
| Accounting.RefundBalanced | src/webhooks/txn-status.service.ts:273-293 | a refund returns exactly what the row stops accounting for |
| Accounting.ItemsTotal | src/disbursements/disbursements.service.ts:334-381 | the rows of a new batch account for exactly the amount held |
| Accounting.StepBalanced | src/webhooks/txn-status.service.ts:96-293 | no service call, with any reference, changes the gap between a wallet and the tables, except a lost hold by its amount |
| Accounting.RunBalanced | src/wallets/wallets.service.ts:94-262 | in every state of every run each balance plus the holds lost on it equals manual movements plus credits plus transfers less unrefunded payouts, as the rows of all tables record them; the balance alone does if and only if no covered hold on the wallet met a taken reference |
| Accounting.RunHonest | src/webhooks/txn-status.service.ts:91-116 | in runs whose records carry the collected amount themselves, or follow none that did, and no negative amounts, every stored fee is within its gross amount |
| Accounting.RunBalancedNet | src/webhooks/txn-status.service.ts:96-129 | in those runs the identity, lost holds included, holds with each credited collection counted as gross less fee and each deposit in full |
| Accounting.RunNetIff | src/webhooks/txn-status.service.ts:88-129 | over any run the identity in terms of gross less fee, lost holds included, holds on a wallet if and only if every record that credited the wallet came with a fee within the gross amount |
| Accounting.RowsFitIff | src/webhooks/txn-status.service.ts:96-129 | after any run every stored row of a wallet has its fee within its gross amount if and only if every crediting record of the run had; later records change nothing about it |
| PayoutLaws.PayoutMark | src/webhooks/txn-status.service.ts:253-271 | in any run, a payout's amounts, wallet and batch never change, and its status and refund mark are those of the status machine fed with its own records |
| PayoutLaws.RunPayoutBooked | src/webhooks/txn-status.service.ts:257-293 | in every state of every run the ledger holds for each payout its debit and at most one refund, of the full debit, on the wallet that paid, and besides them only holds lost under its reference, none if and only if no covered hold met it; a failed payout is always refunded |
| PayoutLaws.PayoutNetEffect | src/webhooks/txn-status.service.ts:253-293 | over any run, a payout's net effect on the wallet that funded it, a batch item's share of the hold included, is minus amount and fee if no record is a terminal failure and 0 otherwise, and on any other wallet 0, apart from holds lost under its reference |
| PayoutLaws.RecordsMove | src/webhooks/txn-status.service.ts:273-293 | records only shift money between a payout and its wallet: balance plus what is outstanding is constant, and no other wallet changes |
| PayoutLaws.RefundedIffFailed | src/webhooks/txn-status.service.ts:253-271 | after any sequence of records a payout is refunded if and only if it was before or some record is a terminal failure |
| PayoutLaws.PayoutConfluence | src/webhooks/txn-status.service.ts:253-293 | two sequences of records that both contain a terminal failure, or both contain none, leave all wallets the same: permuting or repeating records changes no money |
| Disbursements.CreatePayoutRequest | src/disbursements/disbursements.service.ts:186-273 | a payout request ends as `RequestLaws.PayoutAccepted` says: accepted with its whole row, client reference included, lost on a taken reference, or refused without trace in wallets and payouts |
| Disbursements.ProcessPayoutJob | src/disbursements/disbursements.service.ts:276-311 | a payout job makes the record of `RequestLaws.JobMeaning` of the provider's answer |
| Disbursements.CreateBatchRequest | src/disbursements/disbursements.service.ts:315-393 | a batch request ends as `RequestLaws.BatchAccepted` says: hold and all rows, the hold alone if a reference is taken, or nothing |
| Disbursements.ProcessBatchJob | src/disbursements/disbursements.service.ts:396-425 | the loop over the items does what the item-by-item recursion says, whose effect is `BatchJobs.BatchJobMeaning` |
| BatchLaws.RunComposed | src/disbursements/disbursements.service.ts:351-383 | in every state of every run a batch's items are exactly the payout rows that name it, distinct, and add up to the amount held |
| BatchLaws.BatchConservation | src/webhooks/txn-status.service.ts:257-293 | in every state of every run, the hold less what the ledger refunded is the sum of the unrefunded items, and the ledger's hold rows are that hold and the holds lost under the batch's reference |
| BatchSummary.RunSummarised | src/webhooks/txn-status.service.ts:310-351 | in every state of every run, the stored counts and status of a batch are what a recount would give if and only if the last record that touched the batch was not the first failure of an item of amount 0 |
| BatchSummary.PositiveNeverStale | src/webhooks/txn-status.service.ts:310-351 | in every state of every run the summary of a batch of positive items agrees with its rows |
| BatchSummary.StaleBatch | src/webhooks/txn-status.service.ts:257-312 | a run that ends with a failed item the summary does not count: a batch of 0 and 1.00 whose first item is rejected |
| BatchSummary.RecordKeepsSummaryIff | src/webhooks/txn-status.service.ts:257-312 | a record keeps a batch's summary in agreement with its rows if and only if it is not the first failure of an item of amount 0 |
| BatchSummary.CountsCover | src/webhooks/txn-status.service.ts:336-342 | success and failure counts never exceed the total, and reach it if and only if every item is final |
| BatchSummary.RecountMeaning | src/webhooks/txn-status.service.ts:331-351 | a recount stores how many of the batch's items are SUCCESS and how many FAILED, REVERSED or REFUNDED, and the status that follows: PROCESSING until these are all, COMPLETED without failures, FAILED without successes, else PARTIALLY_FAILED |
| BatchSummary.BatchStatusMeaning | src/webhooks/txn-status.service.ts:341-351 | in every state of every run, a batch that is not stale counts its successful and its failed items, has left PROCESSING if and only if all items are SUCCESS, FAILED, REVERSED or REFUNDED, is COMPLETED if and only if all succeeded, FAILED if and only if all failed, and PARTIALLY_FAILED if and only if all are final and there are both |
| BatchSummary.FailedRefunded | src/webhooks/txn-status.service.ts:257-351 | in every state of every run all items of a FAILED batch are refunded, zero amounts and later records included |
| BatchSummary.FailedBatchReturned | src/webhooks/txn-status.service.ts:273-351 | in every state of every run a batch whose status is FAILED has returned its hold to the cent |
| BatchLaws.ProcessBatchIsRun | src/disbursements/disbursements.service.ts:396-425 | a batch job, with any provider answers and stopping at any error, is a run of payout records on the job's own items |
| BatchJobs.ItemAnswered | src/disbursements/disbursements.service.ts:399-422 | one item of a job takes the answer's status if it is pending, and is refunded if that is a failure; it raises an error if and only if there is nothing to refund |
| BatchJobs.BatchJobMeaning | src/disbursements/disbursements.service.ts:396-425 | a batch job gives every pending item its answer, up to and including the first failed item that owes nothing; later items and all other payouts are untouched, and there is an error if and only if there is such an item |
| Collections.InitiateUssdPush | src/collections/collections.service.ts:60-112 | a collection request stores one uncredited row with the provider's status, FAILED if it was declined, and moves no money; a repeated client reference stores nothing |
| Collections.InitiateWalletDeposit | src/deposits/deposits.service.ts:51-118 | the same for deposits |
| Settlements.CreateWithdrawalRequest | src/settlements/settlements.service.ts:150-229 | a withdrawal ends as `RequestLaws.WithdrawalAccepted` says: accepted, lost on a taken reference, or refused without trace in wallets and payouts |
| Settlements.RunAutoSweep | src/settlements/settlements.service.ts:266-379 | the daily run ends in the state and with the counters and details that the account-by-account recursion gives; whom it sweeps is `SweepLaws.DailySweepIff` |
| Settlements.SweepOne | src/settlements/settlements.service.ts:279-373 | one account's turn ends in the state of `SweepLaws.TurnMeaning` with the verdict of `SweepLaws.TurnVerdict` |
| Settlements.RunAutoSweepSubset | src/settlements/settlements.service.ts:389-445 | an administrator's sweep ends as `RequestLaws.AdminSweepAccepted` says |
| Holds.DebitIff | src/wallets/wallets.service.ts:77-141 | a hold is posted if and only if it is positive, its wallet is usable and covers it; then exactly one balance and one row change |
| Holds.HoldShape | src/disbursements/disbursements.service.ts:226-265 | every call that starts one payout is its hold and its row, and touches nothing else but the stored schedule |
| Holds.LostNothingIff | src/settlements/settlements.service.ts:182-217 | what a run has lost is never negative, and 0 if and only if no covered hold in it met a taken reference |
| References.RepeatsIff | src/common/utils/reference.util.ts:53-63 | a client reference gives the same internal reference whatever is drawn at random if and only if it has all 15 characters |
| References.SameReferenceIff | src/common/utils/reference.util.ts:53-63 | two internal references are the same if and only if the accounts are and the filled client parts are |
| RequestLaws.HoldIff | src/settlements/settlements.service.ts:182-217 | a hold ends in one of three ways: accepted with exactly the given row if covered on a free reference, lost if covered on a taken one, refused with the wallet's reason and nothing changed if not covered |
| RequestLaws.PayoutAccepted | src/disbursements/disbursements.service.ts:186-265 | a payout is accepted if and only if the account exists, its client reference is new, the disbursement wallet covers amount plus disbursement fee and the reference is free; its row is stored column by column; if only the reference fails the debit is lost, else nothing is held and the first failing check names the error |
| RequestLaws.WithdrawalAccepted | src/settlements/settlements.service.ts:158-217 | a withdrawal is accepted if and only if account and settlement account exist, the amount is positive, amount plus disbursement fee reaches the minimum and is covered, and the reference is free; its row is stored column by column; if only the reference fails the debit is lost, else nothing is held |
| RequestLaws.FullReference | src/common/utils/reference.util.ts:53-63 | whatever is drawn at random, that client reference gives the one internal reference both withdrawals of the run below use |
| RequestLaws.LostWithdrawal | src/settlements/settlements.service.ts:178-217 | a run that loses money: the second of two identical withdrawals takes 105.00, leaves no row, and the wallet no longer matches the tables |
| RequestLaws.AdminSweepAccepted | src/settlements/settlements.service.ts:389-441 | an administrator's sweep is accepted if and only if there is a settlement account, money in a usable wallet, at least the minimum after the disbursement fee and a free reference; it takes the whole balance and stores a sweep payout of the rest; if only the reference fails the debit is lost, else nothing is held |
| RequestLaws.BatchAccepted | src/disbursements/disbursements.service.ts:320-383 | a batch is accepted if and only if the account exists, every item can be delivered, the disbursement wallet covers the sum and all references are free and distinct; the batch lists its items in order and each has its own pending row with its client reference, amount and no fee; if only the references fail the hold is lost, else nothing changes |
| RequestLaws.TotalIsSum | src/disbursements/disbursements.service.ts:334 | a batch holds the sum of its items' amounts |
| RequestLaws.ReceiptStored | src/collections/collections.service.ts:60-108 | a collection or deposit request stores its row, client reference included, if and only if the account exists, the client reference is new and the reference is free, with the provider's status, FAILED if it declines and PENDING if it says nothing; it never moves money, and each refusal has its own error |
| RequestLaws.JobMeaning | src/disbursements/disbursements.service.ts:276-311 | a job on a pending payout applies the answer as one record, FAILED for a refusal and PENDING for silence; on any other payout it does nothing |
| RequestLaws.JobRedelivered | src/disbursements/disbursements.service.ts:276-311 | a payout job delivered again applies the second answer if the first left the payout pending, and otherwise does nothing |
| RequestLaws.DeclinedReturned | src/disbursements/disbursements.service.ts:304-310 | a payout the provider declines fails, is refunded, and its wallet has the full debit back |
| RequestLaws.RunUniqueClients | src/wallets/wallets.service.ts:172-179 | in no state of any run do two collections, deposits or transfers of one account share a client reference |
| RequestLaws.RunUniqueSingles | src/disbursements/disbursements.service.ts:203-206 | in no state of any run are two payouts of an account with one client reference both single payouts |
| ClientLaws.RepeatedPayout | src/disbursements/disbursements.service.ts:203-248 | once a payout with a client reference is accepted, every later payout of the account with it ends in DUPLICATE_REFERENCE, whatever happens in between |
| ClientLaws.RepeatsWithdrawal | src/settlements/settlements.service.ts:195-217 | so does a payout with the client reference of an accepted withdrawal |
| ClientLaws.RepeatsItem | src/disbursements/disbursements.service.ts:364-381 | and one with the client reference of an item of an accepted batch |
| ClientLaws.RepeatedCollection | src/collections/collections.service.ts:60-98 | once a collection row is stored, declined or not, every later request of the account with its client reference ends in DUPLICATE_REFERENCE and changes nothing |
| ClientLaws.RepeatedDeposit | src/deposits/deposits.service.ts:65-103 | the same for deposits |
| ClientLaws.RepeatedTransfer | src/wallets/wallets.service.ts:163-179 | after an accepted transfer every later one of the account with its client reference ends in DUPLICATE_REFERENCE, or WALLET_FROZEN if a wallet is frozen by then, and changes nothing |
| ClientLaws.PayoutColumns | src/webhooks/txn-status.service.ts:259-271 | over any run a payout keeps account, client reference, amount, fee, wallet, kind, batch and time of creation |
| ClientLaws.RowsKeptInRun | src/webhooks/txn-status.service.ts:96-112 | over any run receipts keep account, client reference and amount, and transfers everything |
| SweepLaws.TurnMeaning | src/settlements/settlements.service.ts:279-372 | a turn that sweeps empties the collection wallet into one pending sweep payout of the old balance less the disbursement fee, at least the minimum, dated now; a turn on a taken reference empties it and adds no payout; any other turn, and every dry turn, leaves all money alone |
| SweepLaws.TurnVerdict | src/settlements/settlements.service.ts:281-372 | the verdict on an account is the first of: no settlement account, empty wallet, a sweep payout of this account made today that has not failed, less than the minimum after the fee, dry run, frozen wallet, taken reference; else it is swept |
| SweepLaws.TurnsIndependent | src/settlements/settlements.service.ts:279-373 | in a sweep every account gets the verdict it would get alone, whatever was swept before its turn |
| SweepLaws.SweepAccounted | src/settlements/settlements.service.ts:275-373 | a sweep reports every account once, in order; created counts the swept lines, skipped those neither swept nor dry, and together they are all accounts unless dry |
| SweepLaws.SweepMeaning | src/settlements/settlements.service.ts:279-377 | over any number of accounts the final state is what the report says, wallet by wallet, and every wallet it does not name as swept is unchanged |
| SweepLaws.SweepLeavesIdle | src/settlements/settlements.service.ts:291-312 | after a sweep every account in it is one whose next turn on the same day changes nothing |
| SweepLaws.SweepAgain | src/settlements/settlements.service.ts:296-304 | sweeping again on the same day, for any of the accounts in any order, creates nothing and changes nothing at all |
| SweepLaws.SelectedMeaning | src/settlements/settlements.service.ts:268-271 | the daily run selects every active account that has not opted out, once, and no other |
| SweepLaws.SelectedInOrder | src/settlements/settlements.service.ts:268-279 | the selected accounts are swept in the order in which they are listed |
| SweepLaws.DailySweepMeaning | src/settlements/settlements.service.ts:266-379 | the daily run over the whole account table does what its report says and leaves the wallets of inactive and opted-out accounts, and every disbursement wallet, as they were |
| SweepLaws.DailySweepIff | src/settlements/settlements.service.ts:266-379 | the daily run pays out every account that is due when it starts, and touches no wallet and no payout of any other: due is active, opted in, with a settlement account, money in a wallet in use, no unfailed sweep of its own today and at least the minimum after the fee |
| SweepLaws.DailySweepAgain | src/settlements/settlements.service.ts:268-304 | a second daily run on the same day creates nothing and changes nothing at all |
| SweepLaws.SweepIsRun | src/settlements/settlements.service.ts:279-373 | a sweep over many accounts is a run of per-account steps |
| Reconciliation.Computations | src/admin/admin.service.ts:126-152 | the loop reports one line per wallet, in order, for exactly its own rows in the window and its own live balance; the figures are `Reconciliation.EmptyLine` and `OneMoreMovement` |
| Reconciliation.EmptyLine | src/admin/admin.service.ts:133-149 | without movements opening, closing and live balance agree, nothing is credited or debited, and the line is clean |
| Reconciliation.OneMoreMovement | src/admin/admin.service.ts:133-149 | one more movement raises the credited total if it brings money and the debited total if it takes some, by its size, and leaves the other total alone; the line closes where it ended and counts it |
| Reconciliation.TotalsApart | src/admin/admin.service.ts:133-145 | neither total is negative; nothing is credited if and only if no movement brings money, nothing debited if and only if none takes any |
| Reconciliation.MovementsCounted | src/admin/admin.service.ts:129-148 | the number of movements is the number of the wallet's ledger rows from the one time to the other, both included |
| Reconciliation.WindowIsSlice | src/admin/admin.service.ts:129-132 | a time window of a ledger whose times never decrease is a contiguous slice of it |
| Reconciliation.SliceSum | src/wallets/wallets.service.ts:101-141 | the amounts of any slice of a chained ledger carry the balance at its start to the balance at its end |
| Reconciliation.ReconcileSlice | src/admin/admin.service.ts:133-149 | for every non-empty slice opening plus credits less debits is closing, and the discrepancy is the sum of all later movements |
| Reconciliation.RunReconciles | src/admin/admin.service.ts:127-151 | in every state of every run and for every window the line adds up, and it is reported inconsistent if and only if the later movements do not cancel |
| InterleavedLedger.InterleavedSafe | src/wallets/wallets.service.ts:94-142 | for any number of movements, however reads and commits interleave, the committed balance is never negative and is the sum of the committed rows |
| InterleavedLedger.StaleRowIff | src/wallets/wallets.service.ts:101-141 | a committed row's before and after columns are right if and only if the balance it read is still the balance at its commit |
| InterleavedLedger.StaleRow | src/wallets/wallets.service.ts:101-141 | two interleaved credits: a row says 0 to 100 where the balance went from 50 to 150 |
| InterleavedLedger.AbsoluteWriteIff | src/wallets/wallets.service.ts:225-246 | the credit leg of a transfer keeps the balance equal to its ledger if and only if no commit changed the balance since its read |
| InterleavedLedger.LostUpdate | src/wallets/wallets.service.ts:225-246 | a credit of 500 committed inside a transfer of 100 leaves a balance of 100 over rows that add up to 600 |
| InterleavedLedger.DriftIsRewritten | src/wallets/wallets.service.ts:225-246 | over any interleaving with transfers in flight, the balance drifts from the sum of its rows by exactly what the stale absolute writes changed |
| InterleavedLedger.NeverOverdrawn | src/wallets/wallets.service.ts:94-246 | no interleaving of movements and transfers makes the balance negative |
| InterleavedLedger.FrozenHolds | src/wallets/wallets.service.ts:90-99 | once a wallet is frozen with no debit in flight, and as only credits bypass a freeze, no interleaving of later events lowers its balance before it is activated |
| InterleavedLedger.FrozenRace | src/wallets/wallets.service.ts:95-124 | a debit that read before the freeze still goes through after it |
| InterleavedLedger.FrozenHoldsIff | src/wallets/wallets.service.ts:90-124 | a frozen wallet stays at or above its balance, whatever is committed from what is in flight and whatever credits come, if and only if no debit is in flight (or it is empty) and no transfer in flight would write less than the balance |
| InterleavedLedger.BackToBack | src/wallets/wallets.service.ts:63-143 | a read and a commit with nothing in between are the atomic movement of the ledger, refusals included |
| InterleavedLedger.LegsBackToBack | src/wallets/wallets.service.ts:190-262 | a transfer goes through if and only if both its legs do when each reads and commits with nothing in between, and then each wallet is as its own leg leaves it |
| Queue.JobTable.EnqueueJob | src/iii/queue.service.ts:43-55 | a new job is pending with no attempts and due after its delay; no other job changes |
| Queue.JobTable.ClaimJob | src/iii/queue.service.ts:86-111 | a claim returns nothing if and only if every due job is locked, else an oldest due unlocked one, now in progress with one more attempt |
| Queue.JobTable.Process | src/iii/queue.service.ts:113-143 | the outcome of a handler completes the job, returns it to the queue with its backoff, or makes it dead |
| Queue.QueueSound | src/iii/queue.service.ts:86-142 | for any number of workers and any outcomes, crashes included, a pending job has attempts left, a job in progress has at most one holder, attempts stay within the limit (1 for a job enqueued with none), and a dead job has used them all |
| Queue.MeasureFalls | src/iii/queue.service.ts:86-142 | twice the attempts left plus one while in progress falls at every claim and retry and never rises; finished jobs never change |
| Queue.QueueTerminates | src/iii/queue.service.ts:86-142 | from any reachable state, a job's handler starts at most as often as attempts are left, and its claims and retries together are at most its measure |
| Queue.BackoffBounds | src/iii/queue.service.ts:126-127 | retry delays never shrink from one attempt to the next and lie between the base and 64 times the base |
| Queue.BackoffExact | src/iii/queue.service.ts:126-127 | the delay is the base before the first attempt, doubles with each attempt up to the sixth, and stays at 64 times the base |
| Queue.OutcomeRecorded | src/iii/queue.service.ts:113-142 | a handler that succeeds completes its job, one that fails makes it dead once the attempts are used up and due after the backoff before, and one that is lost leaves it in progress; the worker holds it no longer, and no other job changes |
| Queue.RetryIff | src/iii/queue.service.ts:86-137 | a job that failed with attempts left is claimed again if and only if its backoff is over, no other claim has it locked and no unlocked due job is older; the claim starts its next attempt |
| Sms.AcceptancesBounded | src/sms/sms.service.ts:122-207 | for any interleaving of jobs, crashes, recoveries and reports, the provider accepts a message at most once plus once per event that reopened it |
| Sms.SingleAcceptance | src/sms/sms.service.ts:122-207 | without disorder, whatever the interleaving, crashes, recoveries and reports, the provider accepts a message at most once |
| Sms.SingleAcceptanceIff | src/sms/sms.service.ts:122-207 | after an orderly past, an event leaves every orderly continuation with at most one acceptance if and only if it is no disorder |
| Sms.DisorderDoubles | src/sms/sms.service.ts:122-207 | after any disorder some orderly continuation has the message accepted twice |
| Sms.PotentialRises | src/sms/sms.service.ts:124-139 | no event but a reopening raises the number of acceptances that have happened or may still happen above 1 or above what it was |
| Sms.CrashAfterAcceptance | src/sms/sms.service.ts:124-139 | a job that dies after the acceptance, then recovery and a second job: two acceptances |
| Sms.RecoveredWhileLive | src/sms/sms.service.ts:124-139 | recovery of a live claim and a second job: two acceptances |
| Sms.ReportedFailed | src/sms/sms.service.ts:230-240 | a failure report on a sent message and a second job: two acceptances |
| Sms.SegmentsFit | src/sms/sms.service.ts:161-164 | the billed segments, of 160 characters or 70 in Unicode, hold the whole message and no fewer would, and there is at least one |
| Sms.StatusFlow | src/sms/sms.service.ts:122-240 | where each event takes the status: only a queued or failed message is claimed, a persisted acceptance makes it sent and a refusal failed, recovery puts a claimed one back, and a report counts if it says delivered or failed |
| Sms.Message.ProcessSendJob | src/sms/sms.service.ts:122-207 | an uninterrupted job is recover, claim, submit, persist of the protocol: an open message ends sent or failed by the provider's answer, any other stays as it is; it bills and marks every recipient on acceptance, marks them failed and raises on refusal, and else touches neither |
| PayoutLinks.SingleUse | src/disbursements/disbursements.service.ts:95-116 | for any interleaving of confirmations at most one wins the link, at most one payout is created, and the link is consumed only before it expires |
| PayoutLinks.NeverAgain | src/disbursements/disbursements.service.ts:68-74 | a link that is consumed or expired is never won again, a failed payout included |
| PayoutLinks.CanBeWon | src/disbursements/disbursements.service.ts:95-116 | a confirmation that nothing interrupts wins the link if and only if it is unused and unexpired; the winner pays at most once, and a failed payment leaves the link used |
| PayoutLinks.ApplySound | src/disbursements/disbursements.service.ts:99-107 | every event keeps the protocol's invariant, and the time of consumption, once set, stays |
| PayoutLinks.PayoutLink.ConsumeLink | src/disbursements/disbursements.service.ts:99-107 | the locked step succeeds if and only if the link is unused and unexpired, and then marks it used |
| PayoutLinks.PayoutLink.Confirm | src/disbursements/disbursements.service.ts:95-116 | a confirmation succeeds if and only if the link was usable and the payout was created; a failed payout leaves the link used |
| Lockout.LockoutBound | src/auth/auth.service.ts:42-87 | with a lockout no shorter than the window and two failures allowed, any interval of one window without a success admits at most 2 * maxFailures - 1 failures |
| Lockout.LockoutBoundIff | src/auth/auth.service.ts:42-87 | over all logins and intervals, the bound holds if and only if some failure is allowed and the window is empty, or two are allowed and the lockout is as long as the window |
| Lockout.BurstAdmitted | src/auth/auth.service.ts:74-87 | when the lock is shorter than the window, twice the maximum gets through in one window |
| Lockout.AfterSound | src/auth/auth.service.ts:74-87 | with two failures allowed and a lockout as long as the window: after any logins the count is below the maximum, and a lock lasts at least until the window that began with it is over |
| Lockout.WindowExplained | src/auth/auth.service.ts:42-87 | under the same settings: after any logins the stored record accounts for every failure of the interval that got past the lock |
| Lockout.BoundReached | src/auth/auth.service.ts:74-87 | the bound is tight: with two failures allowed, three fall into one window |
| Lockout.FailureCounts | src/auth/auth.service.ts:74-87 | a failure more than a window after the first starts a count of 1; any other adds one, and the one that reaches the maximum locks the address for the lockout time and resets count and window |
| Lockout.AuthService.Login | src/auth/auth.service.ts:42-72 | a login is accepted if and only if the address is not locked and the password is right, and changes the record of that address only |
| Lockout.AuthService.RegisterFailure | src/auth/auth.service.ts:74-87 | a failure starts a new record, counts, or locks the address; all other addresses keep theirs |
| Checksum.CanonDecides | src/common/utils/checksum.util.ts:14-23 | two payloads have the same canonical form if and only if they agree up to key order, signature fields at any depth, and undefined against null |
| Checksum.CanonAgrees | src/common/utils/checksum.util.ts:14-23 | the canonical form is well formed and agrees with the payload it came from |
| Checksum.CanonIdempotent | src/common/utils/checksum.util.ts:14-23 | canonicalising twice is canonicalising once |
| Checksum.SortedUnique | src/common/utils/checksum.util.ts:18 | an object with sorted keys is determined by its set of fields |
| Checksum.LessIff | src/common/utils/checksum.util.ts:18 | one key comes before another if and only if, after the code units they share, it ends first or has the smaller unit |
| Checksum.SignatureNames | src/common/utils/checksum.util.ts:19 | the fields that are skipped are those spelled checksum and checksumMethod |
| Checksum.CanonCanonical | src/common/utils/checksum.util.ts:14-23 | in a canonical form the keys of every object, at any depth, are in ascending order, no signature field is left, and null stands for undefined |
| Checksum.CanonFixesIff | src/common/utils/checksum.util.ts:14-23 | canonicalisation leaves a payload as it is if and only if it is in that form already |
| Checksum.SortSorts | src/common/utils/checksum.util.ts:18 | sorting distinct keys keeps exactly the fields and puts them in the order of `Checksum.LessIff` |
| Checksum.Canonicalize | src/common/utils/checksum.util.ts:14-23 | the recursive walk computes the canonical form |
| Checksum.CanonicalizeFields | src/common/utils/checksum.util.ts:17-22 | the loop over the sorted keys, which skips signature fields as it goes, builds the sorted object of the counting fields |
| Checksum.SignedVerifies | src/common/utils/checksum.util.ts:25-39 | a payload that carries the checksum created for it passes verification |
| Checksum.ForeignChecksum | src/common/utils/checksum.util.ts:25-39 | if the digest does not collide on two payloads, the checksum of one is that of the other if and only if they agree |
| Checksum.XorZero | src/common/utils/checksum.util.ts:37 | the exclusive or of two code units is 0 if and only if they are equal |
| Checksum.VerifyPayloadChecksum | src/common/utils/checksum.util.ts:30-39 | the loop accepts if and only if the payload carries a non-empty checksum equal to the one computed for it |
| Checksum.ProvidedIff | src/common/utils/checksum.util.ts:31 | the checksum a payload provides is the text in its field spelled checksum, wherever it stands |

## Left out

- The two portals, the static server, controllers, guards, interceptors, pagination and request validation: wrappers. One of its guarantees is taken over: requested amounts carry no sign.
- The providers and their transport: an answer is an arbitrary status or a refusal. `result.ok` without data counts as a refusal for payouts.
- Tracing, analytics, audit, logging and outgoing webhooks: they do not touch money. The redelivery sweep of outgoing webhooks has no attempt bound to prove.
- PostgreSQL, Prisma and the cryptographic functions: row locks and the uniqueness of references in each table are taken as given, the digest is any function of key and canonical payload.
- Failures of the database between a wallet movement and the row insert that follows it, other than a taken reference: the code does not compensate for them, so no step of the model stops there.
- Overlapping calls of the status engine on one reference: it reads, updates and moves money without one transaction, so each call is one step. Only movements are interleaved (`InterleavedLedger`).
- The interleaving of two whole transfers, beyond the credit leg's absolute write.
- Decimals beyond two places, decimal precision limits and non-finite amounts: money is in cents.
- The message, provider identifier, channel and customer columns of collections, deposits and payouts. Client references are taken as upper-cased already.
- Pay-as-you-go bills, recurring billing, phone helpers, permissions, settlement account management, listings: they would add only easy members.
- The queue's in-flight limit and polling timer: overlapping polls can exceed the limit. A handler that is not registered counts as one that fails.
- An SMS provider that accepts a message without returning data: the code then fails the message but marks its recipients submitted. The model treats it as a refusal.
- Per-recipient delivery reports of an SMS: they are one event that sets the status. A recipient is its destination and submission status, and the count column is the number of recipients.
- Reconciliation of rows with equal times assumes commit order, which the query does not fix.
- Computations: covers the wallet reconciliation loop of the administrator's report, not the counts by status.
- Client references that the format check refuses: they end a request before it reaches the tables.
- Canonicalize: covers JSON trees of strings, numbers, booleans, null, undefined, arrays and objects in which each key occurs once; the serialisation of the canonical tree to text, the enumeration order of integer-like keys and the special key for prototypes are not modelled.
- VerifyPayloadChecksum: a checksum field that is not a string is refused; one that is an array or an object of matching length, on which the comparison would raise an error, is not modelled. The exclusive or and the or are those of non-negative numbers, since code units have 16 bits.
- Login: addresses are taken as trimmed and lower-cased, an inactive or unknown user is a wrong password, and token signing is not part of this model.
- Confirm: the recipient's phone number and the provider's preview, which move no money, are left out.
