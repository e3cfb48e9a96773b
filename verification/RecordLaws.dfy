/**
 One provider record in full: what it writes into its row, what it moves, and when it does nothing.
 */
module RecordLaws {
  import opened Wrappers
  import opened Totals
  import opened ProviderStatus
  import opened Tables
  import opened FeeSchedules
  import opened Wallets
  import opened TxnStatus
  import opened Disbursements
  import opened Engine
  import opened LedgerLaws
  import opened EngineLaws
  import opened RowLaws
  import opened FeeLaws
  import Fees

  /** The record says again what the row has: success, or one of the failures. */
  predicate SaysAgain(current: TxStatus, next: TxStatus) {
    current == next && next in {Success, Failed, Reversed, Refunded}
  }

  /** Wallet k gets the amount in one row, frozen or not; a movement of nothing is refused. */
  ghost predicate Received(b: Books, b': Books, error: Option<Error>, k: WalletKey, net: Cents, t: TxType, ref: Ref) {
    if net == 0 then b' == b && error == Some(ValidationFailed)
    else error == None && OneRow(b, b', k, Abs(net), t, Some(ref), false)
  }

  lemma CreditReceived(b: Books, m: Movement, ref: Ref)
    requires m.wallet in b.wallets && m.txType in {CollectionCredit, Deposit, Refund}
    requires m.ignoreFrozen && !m.manual && m.reference == Some(ref)
    ensures Received(b, After(b, Move(b, m)), ErrorOf(Move(b, m)), m.wallet, m.amount, m.txType, ref)
  {
    MoveMeaning(b, m);
    hide Move, OneRow;
  }

  /** A receipt's account exists, and so do its two wallets. */
  lemma ReceiptHome(db: Db, r: Ref)
    requires WellFormed(db)
    ensures r in db.collections ==>
              var a := db.collections[r].account;
              HasConfig(db, a) && WalletKey(a, CollectionWallet) in db.books.wallets
    ensures r in db.deposits ==> WalletKey(db.deposits[r].account, DisbursementWallet) in db.books.wallets
  {
    ReceiptConfig(db, r);
    assert r in db.collections ==> db.collections[r].account in db.accounts;
    assert r in db.deposits ==> db.deposits[r].account in db.accounts;
  }

  ghost predicate Nothing(db: Db, o: Outcome) {
    o == Outcome(db, None)
  }

  /** The amount that came in: the record's if it has one, else that of an earlier record, else the requested one. */
  function AmountIn(row: Receipt, collected: Option<Cents>): Cents {
    match collected
    case Some(cents) => cents
    case None => match row.collectedAmount case Some(earlier) => earlier case None => row.amount
  }

  /** A record rewrites status and collected amount, and, when it credits the row, fee, mark and gross amount. */
  ghost predicate Rewritten(row: Receipt, row': Receipt, next: TxStatus, collected: Option<Cents>) {
    && row'.status == next
    && row'.collectedAmount == (if collected == None then row.collectedAmount else collected)
    && row'.account == row.account && row'.clientReference == row.clientReference && row'.amount == row.amount
  }

  lemma CollectionShape(db: Db, r: Ref, next: TxStatus, collected: Option<Cents>)
    requires r in db.collections ==> HasConfig(db, db.collections[r].account)
    ensures var o := ApplyCollection(db, r, next, collected);
            if r !in db.collections || Repeats(db.collections[r].status, next) then Nothing(db, o)
            else
              var row := db.collections[r];
              var fee := CollectionFeeOf(db, row, collected);
              var moved := Move(db.books, CollectionCreditOf(r, row, GrossOf(row, collected) - fee));
              && o.db.collections
                 == db.collections[r := if ShouldCredit(row, next) then CreditedRow(row, next, collected, Some(fee))
                                        else Restated(row, next, collected)]
              && o.db.books == (if ShouldCredit(row, next) then After(db.books, moved) else db.books)
              && o.error == if ShouldCredit(row, next) then ErrorOf(moved) else None
  {
    hide Move, CollectionFeeOf, HasConfig, CreditedRow, Restated, ShouldCredit, Repeats, After, ErrorOf, GrossOf;
  }

  lemma DepositShape(db: Db, r: Ref, next: TxStatus, collected: Option<Cents>)
    ensures var o := ApplyDeposit(db, r, next, collected);
            if r !in db.deposits || Repeats(db.deposits[r].status, next) then Nothing(db, o)
            else
              var row := db.deposits[r];
              var moved := Move(db.books, DepositCreditOf(r, row, GrossOf(row, collected)));
              && o.db.deposits
                 == db.deposits[r := if ShouldCredit(row, next) then CreditedRow(row, next, collected, None)
                                     else Restated(row, next, collected)]
              && o.db.books == (if ShouldCredit(row, next) then After(db.books, moved) else db.books)
              && o.error == if ShouldCredit(row, next) then ErrorOf(moved) else None
  {
    hide Move, CreditedRow, Restated, ShouldCredit, Repeats, After, ErrorOf, GrossOf;
  }

  /**
   A collection record. It does nothing to an unknown reference or when it says again what is final. Else it
   rewrites the row; the first success credits the collection wallet with the amount that came in, less the
   collection fee on the record's own amount (on the requested one if it has none), frozen or not.
   */
  lemma CollectionRecordMeaning(db: Db, r: Ref, next: TxStatus, collected: Option<Cents>)
    requires WellFormed(db)
    ensures var o := ApplyCollection(db, r, next, collected);
            if r !in db.collections || SaysAgain(db.collections[r].status, next) then Nothing(db, o)
            else
              && r in o.db.collections && o.db.collections == db.collections[r := o.db.collections[r]]
              && (var row, row' := db.collections[r], o.db.collections[r];
                  && Rewritten(row, row', next, collected)
                  && if next == Success && !row.credited then
                       && row'.credited && row'.gross == AmountIn(row, collected) && row'.feeAmount.Some?
                       && CollectionCharge(db, row.account, if collected == None then row.amount else collected.value,
                                           row'.feeAmount.value)
                       && Received(db.books, o.db.books, o.error, WalletKey(row.account, CollectionWallet),
                                   row'.gross - row'.feeAmount.value, CollectionCredit, r)
                     else
                       && row'.credited == row.credited && row'.gross == row.gross && row'.feeAmount == row.feeAmount
                       && o.db.books == db.books && o.error == None)
  {
    hide WellFormed, Move, CollectionFeeOf, CollectionCharge, HasConfig, Received, ApplyCollection;
    ReceiptHome(db, r);
    CollectionShape(db, r, next, collected);
    if r in db.collections {
      var row := db.collections[r];
      var fee := CollectionFeeOf(db, row, collected);
      CollectionFeeIs(db, row, collected);
      CreditReceived(db.books, CollectionCreditOf(r, row, GrossOf(row, collected) - fee), r);
    }
  }

  lemma CollectionFeeIs(db: Db, row: Receipt, collected: Option<Cents>)
    ensures CollectionCharge(db, row.account, if collected == None then row.amount else collected.value,
                             CollectionFeeOf(db, row, collected))
  {
    ChargedIff(db, row.account, FeeBase(row, collected), CollectionFeeOf(db, row, collected));
    hide CollectionCharge, Fees.ComputeFee;
  }

  /** A deposit record, in the same way: the disbursement wallet gets the whole amount, and there is no fee. */
  lemma DepositRecordMeaning(db: Db, r: Ref, next: TxStatus, collected: Option<Cents>)
    requires WellFormed(db)
    ensures var o := ApplyDeposit(db, r, next, collected);
            if r !in db.deposits || SaysAgain(db.deposits[r].status, next) then Nothing(db, o)
            else
              && r in o.db.deposits && o.db.deposits == db.deposits[r := o.db.deposits[r]]
              && (var row, row' := db.deposits[r], o.db.deposits[r];
                  && Rewritten(row, row', next, collected) && row'.feeAmount == row.feeAmount
                  && if next == Success && !row.credited then
                       && row'.credited && row'.gross == AmountIn(row, collected)
                       && Received(db.books, o.db.books, o.error, WalletKey(row.account, DisbursementWallet),
                                   row'.gross, Deposit, r)
                     else
                       && row'.credited == row.credited && row'.gross == row.gross
                       && o.db.books == db.books && o.error == None)
  {
    hide WellFormed, Move, Received, ApplyDeposit;
    ReceiptHome(db, r);
    DepositShape(db, r, next, collected);
    if r in db.deposits {
      CreditReceived(db.books, DepositCreditOf(r, db.deposits[r], GrossOf(db.deposits[r], collected)), r);
    }
  }

  /**
   A payout record. The first failure, rejection, reversal or refund of a debited payout returns amount and
   fee to the wallet that paid, frozen or not. Only status and refund mark of the row change.
   */
  lemma PayoutRecordMeaning(db: Db, r: Ref, next: TxStatus)
    requires WellFormed(db)
    ensures var o := ApplyPayout(db, r, next);
            if r !in db.payouts || SaysAgain(db.payouts[r].status, next) then Nothing(db, o)
            else
              var p := db.payouts[r];
              var back := next in {Failed, Reversed, Refunded} && !p.refunded;
              && o.db.payouts == db.payouts[r := p.(status := next, refunded := p.refunded || back)]
              && if back then
                   Received(db.books, o.db.books, o.error, WalletKey(p.account, p.sourceWallet),
                            p.amount + (if p.feeAmount == None then 0 else p.feeAmount.value), Refund, r)
                 else o.db.books == db.books && o.error == None
  {
    hide WellFormed, Move, Recounted, Received;
    if r in db.payouts {
      PayoutRowFormed(db, r);
      CreditReceived(db.books, RefundOf(r, db.payouts[r]), r);
    }
  }
}
