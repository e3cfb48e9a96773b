/**
 The status engine: applies one provider record to one collection, deposit or payout, moves the
 wallet money that follows from it and keeps the summary of a payout's batch.
 */
module TxnStatus {
  import opened Wrappers
  import opened ProviderStatus
  import opened Tables
  import opened FeeSchedules
  import opened Wallets
  import Fees

  /** A record that repeats the final status the row already has is ignored. */
  predicate Repeats(current: TxStatus, next: TxStatus) {
    Final(current) && current == next
  }

  // -------------------------- Collections and deposits ----------------------

  predicate ShouldCredit(row: Receipt, next: TxStatus) {
    next.Success? && !row.credited
  }

  /** The collected amount the row holds after a record; a record without one keeps the old value. */
  function CollectedAfter(row: Receipt, collected: Option<Cents>): Option<Cents> {
    if collected.Some? then collected else row.collectedAmount
  }

  function GrossOf(row: Receipt, collected: Option<Cents>): Cents {
    CollectedAfter(row, collected).GetOr(row.amount)
  }

  /** The fee is computed from the record's own amount, not from the stored one. */
  function FeeBase(row: Receipt, collected: Option<Cents>): Cents {
    collected.GetOr(row.amount)
  }

  function CollectionFeeOf(db: Db, row: Receipt, collected: Option<Cents>): Cents {
    Fees.ComputeFee(Fees.CollectionFee, ConfigOf(db, row.account), FeeBase(row, collected)).amount
  }

  function CollectionCreditOf(ref: Ref, row: Receipt, net: Cents): Movement {
    Movement(WalletKey(row.account, CollectionWallet), CollectionCredit, net, Some(ref), false, true)
  }

  function DepositCreditOf(ref: Ref, row: Receipt, amount: Cents): Movement {
    Movement(WalletKey(row.account, DisbursementWallet), Deposit, amount, Some(ref), false, true)
  }

  /** The row after a record that credits nothing. */
  function Restated(row: Receipt, next: TxStatus, collected: Option<Cents>): Receipt {
    row.(status := next, collectedAmount := CollectedAfter(row, collected))
  }

  /** The row after the record that credits the wallet. */
  function CreditedRow(row: Receipt, next: TxStatus, collected: Option<Cents>, fee: Option<Cents>): Receipt {
    row.(status := next, collectedAmount := CollectedAfter(row, collected),
         feeAmount := if fee.Some? then fee else row.feeAmount,
         credited := true, gross := GrossOf(row, collected))
  }

  function ApplyCollection(db: Db, ref: Ref, next: TxStatus, collected: Option<Cents>): (o: Outcome)
    ensures o.db == db.(books := o.db.books, fees := o.db.fees, collections := o.db.collections)
  {
    if ref !in db.collections || Repeats(db.collections[ref].status, next) then Outcome(db, None)
    else
      var row := db.collections[ref];
      if !ShouldCredit(row, next) then
        Outcome(db.(collections := db.collections[ref := Restated(row, next, collected)]), None)
      else if !HasConfig(db, row.account) then Outcome(db, Some(NotFound))
      else
        var fee := CollectionFeeOf(db, row, collected);
        var db1 := EnsureConfig(db, row.account).(
          collections := db.collections[ref := CreditedRow(row, next, collected, Some(fee))]);
        var moved := Move(db.books, CollectionCreditOf(ref, row, GrossOf(row, collected) - fee));
        Outcome(db1.(books := After(db.books, moved)), ErrorOf(moved))
  }

  function ApplyDeposit(db: Db, ref: Ref, next: TxStatus, collected: Option<Cents>): (o: Outcome)
    ensures o.db == db.(books := o.db.books, deposits := o.db.deposits)
  {
    if ref !in db.deposits || Repeats(db.deposits[ref].status, next) then Outcome(db, None)
    else
      var row := db.deposits[ref];
      if !ShouldCredit(row, next) then
        Outcome(db.(deposits := db.deposits[ref := Restated(row, next, collected)]), None)
      else
        var db1 := db.(deposits := db.deposits[ref := CreditedRow(row, next, collected, None)]);
        var moved := Move(db.books, DepositCreditOf(ref, row, GrossOf(row, collected)));
        Outcome(db1.(books := After(db.books, moved)), ErrorOf(moved))
  }

  // --------------------------------- Payouts --------------------------------

  /** What a payout takes from its wallet: amount plus platform fee; batch items carry no fee. */
  function Owed(p: Payout): Cents {
    p.amount + p.feeAmount.GetOr(0)
  }

  function SourceOf(p: Payout): WalletKey {
    WalletKey(p.account, p.sourceWallet)
  }

  predicate ShouldRefund(p: Payout, next: TxStatus) {
    TerminalFail(next) && p.debited && !p.refunded
  }

  function RefundOf(ref: Ref, p: Payout): Movement {
    Movement(SourceOf(p), Refund, Owed(p), Some(ref), false, true)
  }

  function PayoutAfter(p: Payout, next: TxStatus): Payout {
    p.(status := next, refunded := p.refunded || ShouldRefund(p, next))
  }

  /** A refund that the ledger refuses raises its error before the batch is recounted. */
  function ApplyPayout(db: Db, ref: Ref, next: TxStatus): (o: Outcome)
    ensures o.db == db.(books := o.db.books, payouts := o.db.payouts, batches := o.db.batches)
  {
    if ref !in db.payouts || Repeats(db.payouts[ref].status, next) then Outcome(db, None)
    else
      var p := db.payouts[ref];
      var refund, moved := ShouldRefund(p, next), Move(db.books, RefundOf(ref, p));
      var db1 := db.(payouts := db.payouts[ref := PayoutAfter(p, next)],
                     books := if refund then After(db.books, moved) else db.books);
      if refund && moved.Refused? then Outcome(db1, Some(moved.error))
      else Outcome(if p.batch.Some? then Recount(db1, p.batch.value) else db1, None)
  }

  // --------------------------------- Batches --------------------------------

  /** The items whose payout row has a wanted status. */
  function CountWhere(payouts: map<Ref, Payout>, items: seq<Ref>, wanted: TxStatus -> bool): nat {
    if items == [] then 0
    else
      var last := items[|items| - 1];
      CountWhere(payouts, items[..|items| - 1], wanted)
      + (if last in payouts && wanted(payouts[last].status) then 1 else 0)
  }

  function SummaryStatus(success: nat, failed: nat, total: nat): BatchStatus {
    if success + failed != total then BatchProcessing
    else if success == total then BatchCompleted
    else if success == 0 then BatchFailed
    else BatchPartiallyFailed
  }

  function Recounted(payouts: map<Ref, Payout>, batch: Batch): Batch {
    var success := CountWhere(payouts, batch.items, OnSuccess());
    var failed := CountWhere(payouts, batch.items, OnFailure());
    batch.(successCount := success, failedCount := failed,
           status := SummaryStatus(success, failed, |batch.items|))
  }

  function Recount(db: Db, id: Ref): (db': Db)
    ensures db' == db.(batches := db'.batches)
  {
    if id in db.batches
    then db.(batches := db.batches[id := Recounted(db.payouts, db.batches[id])])
    else db
  }

  // ------------------------------- The service ------------------------------

  method ApplyCollectionUpdate(db: Database, ref: Ref, status: Option<string>, collected: Option<Cents>)
    returns (handled: bool, error: Option<Error>)
    modifies db
    ensures Outcome(db.Snapshot(), error)
         == ApplyCollection(old(db.Snapshot()), ref, MapProviderStatus(status), collected)
    ensures handled == (ref in old(db.collections))
  {
    hide Fees.FeeAt, MapProviderStatus, Move;
    if ref !in db.collections {
      return false, None;
    }
    var row := db.collections[ref];
    var nextStatus := MapProviderStatus(status);
    var alreadyFinal := Final(row.status);
    if alreadyFinal && row.status == nextStatus {
      return true, None;
    }
    var shouldCredit := nextStatus.Success? && !row.credited;
    var feeAmount: Option<Cents> := None;
    if shouldCredit {
      var config := ReadConfig(db, row.account);
      if config.None? {
        return true, Some(NotFound);
      }
      feeAmount := Some(Fees.ComputeFee(Fees.CollectionFee, config.value, collected.GetOr(row.amount)).amount);
    }
    var stored := if collected.Some? then collected else row.collectedAmount;
    var updated := row.(status := nextStatus, collectedAmount := stored,
                        feeAmount := if feeAmount.Some? then feeAmount else row.feeAmount,
                        credited := shouldCredit || row.credited,
                        gross := if shouldCredit then stored.GetOr(row.amount) else row.gross);
    db.collections := db.collections[ref := updated];
    if shouldCredit {
      assert updated == CreditedRow(row, nextStatus, collected, feeAmount);
      var gross := updated.collectedAmount.GetOr(updated.amount);
      error := MoveFunds(db, CollectionCreditOf(ref, row, gross - feeAmount.GetOr(0)));
      return true, error;
    }
    assert updated == Restated(row, nextStatus, collected);
    return true, None;
  }

  method ApplyDepositUpdate(db: Database, ref: Ref, status: Option<string>, collected: Option<Cents>)
    returns (handled: bool, error: Option<Error>)
    modifies db
    ensures Outcome(db.Snapshot(), error)
         == ApplyDeposit(old(db.Snapshot()), ref, MapProviderStatus(status), collected)
    ensures handled == (ref in old(db.deposits))
  {
    hide MapProviderStatus;
    if ref !in db.deposits {
      return false, None;
    }
    var row := db.deposits[ref];
    var nextStatus := MapProviderStatus(status);
    if Final(row.status) && row.status == nextStatus {
      return true, None;
    }
    var shouldCredit := nextStatus.Success? && !row.credited;
    var stored := if collected.Some? then collected else row.collectedAmount;
    var updated := row.(status := nextStatus, collectedAmount := stored,
                        credited := shouldCredit || row.credited,
                        gross := if shouldCredit then stored.GetOr(row.amount) else row.gross);
    db.deposits := db.deposits[ref := updated];
    if shouldCredit {
      error := MoveFunds(db, DepositCreditOf(ref, row, updated.collectedAmount.GetOr(updated.amount)));
      return true, error;
    }
    return true, None;
  }

  method ApplyPayoutUpdate(db: Database, ref: Ref, status: Option<string>)
    returns (handled: bool, error: Option<Error>)
    modifies db
    ensures Outcome(db.Snapshot(), error) == ApplyPayout(old(db.Snapshot()), ref, MapProviderStatus(status))
    ensures handled == (ref in old(db.payouts))
  {
    hide MapProviderStatus, Recount;
    if ref !in db.payouts {
      return false, None;
    }
    var payout := db.payouts[ref];
    var nextStatus := MapProviderStatus(status);
    if Final(payout.status) && payout.status == nextStatus {
      return true, None;
    }
    var shouldRefund := TerminalFail(nextStatus) && payout.debited && !payout.refunded;
    db.payouts := db.payouts[ref := payout.(status := nextStatus, refunded := shouldRefund || payout.refunded)];
    if shouldRefund {
      var refundAmount := if payout.feeAmount.Some? then payout.amount + payout.feeAmount.value else payout.amount;
      assert db.Snapshot() == old(db.Snapshot()).(payouts := old(db.payouts)[ref := PayoutAfter(payout, nextStatus)]);
      error := MoveFunds(db, Movement(WalletKey(payout.account, payout.sourceWallet), Refund, refundAmount,
                                      Some(ref), false, true));
      if error.Some? {
        return true, error;
      }
    }
    if payout.batch.Some? {
      UpdateBatchCounters(db, payout.batch.value);
    }
    return true, None;
  }

  method UpdateBatchCounters(db: Database, id: Ref)
    modifies db
    ensures db.Snapshot() == Recount(old(db.Snapshot()), id)
  {
    if id in db.batches {
      var batch := db.batches[id];
      var success := CountWhere(db.payouts, batch.items, OnSuccess());
      var failed := CountWhere(db.payouts, batch.items, OnFailure());
      var total := |batch.items|;
      var status := BatchProcessing;
      if success + failed == total {
        if success == total {
          status := BatchCompleted;
        } else if success == 0 {
          status := BatchFailed;
        } else {
          status := BatchPartiallyFailed;
        }
      }
      db.batches := db.batches[id := batch.(successCount := success, failedCount := failed, status := status)];
    }
  }
}
