/**
 Which rows of which tables a step can touch, and which ledger rows it can append. Laws about one
 collection, one payout or one batch use this to set every unrelated step aside.
 */
module RowLaws {
  import opened Wrappers
  import opened Totals
  import opened ProviderStatus
  import opened Tables
  import opened FeeSchedules
  import opened Wallets
  import opened TxnStatus
  import opened Disbursements
  import opened Settlements
  import opened Collections
  import opened Engine
  import Fees

  /** The ledger rows a step can append. */
  predicate Documents(s: Step, row: LedgerRow) {
    match s
    case ManualMove(_, _, _, _) => row.manual
    case StartTransfer(_, _, _, ref) =>
      !row.manual && (row.txType.TransferOut? || row.txType.TransferIn?) && row.reference == Some(ref)
    case StartPayout(ref, _, _, _) => !row.manual && row.txType.PayoutDebit? && row.reference == Some(ref)
    case StartWithdrawal(ref, _, _, _, _, _) => !row.manual && row.txType.Withdrawal? && row.reference == Some(ref)
    case Sweep(ref, _, _, _, _) => !row.manual && row.txType.Withdrawal? && row.reference == Some(ref)
    case AdminSweep(ref, _, _) => !row.manual && row.txType.Withdrawal? && row.reference == Some(ref)
    case StartBatch(ref, _, _) => !row.manual && row.txType.BatchHold? && row.reference == Some(ref)
    case CollectionRecord(ref, _, _) => !row.manual && row.txType.CollectionCredit? && row.reference == Some(ref)
    case DepositRecord(ref, _, _) => !row.manual && row.txType.Deposit? && row.reference == Some(ref)
    case PayoutRecord(ref, _) => !row.manual && row.txType.Refund? && row.reference == Some(ref)
    case _ => false
  }

  predicate Extends(ledger: seq<LedgerRow>, ledger': seq<LedgerRow>, s: Step) {
    ledger <= ledger' && forall i :: |ledger| <= i < |ledger'| ==> Documents(s, ledger'[i])
  }

  /** A movement appends one row that carries its type, its reference and its mark, or nothing. */
  lemma MoveExtends(b: Books, m: Movement, s: Step)
    requires forall row: LedgerRow :: row.txType == m.txType && row.manual == m.manual && row.reference == m.reference
                           ==> Documents(s, row)
    ensures Extends(b.ledger, b.ledger, s)
    ensures Extends(b.ledger, After(b, Move(b, m)).ledger, s)
  {
    hide Documents;
  }

  /** A step appends rows of its own kind and changes none that exist. */
  lemma StepExtends(db: Db, s: Step)
    ensures Extends(db.books.ledger, Next(db, s).books.ledger, s)
  {
    if s.StartPayout? || s.StartWithdrawal? {
      HoldExtends(db, s);
    } else if s.Sweep? || s.AdminSweep? {
      SweepExtends(db, s);
    } else if s.CollectionRecord? || s.DepositRecord? || s.PayoutRecord? {
      RecordExtends(db, s);
    } else if s.StartTransfer? {
      TransferExtends(db, s);
    } else {
      hide TransferFunds, CreatePayout, CreateWithdrawal, SweepAccount, SweepNow, WithItems, Move;
      hide ApplyCollection, ApplyDeposit, ApplyPayout;
      if s.ManualMove? {
        MoveExtends(db.books, ManualMovement(s.wallet, s.deposit, s.cents, s.note), s);
      } else if s.StartBatch? {
        MoveExtends(db.books, BatchHoldOf(s.account, s.ref, TotalAmount(s.items)), s);
      }
    }
  }

  lemma HoldExtends(db: Db, s: Step)
    requires s.StartPayout? || s.StartWithdrawal?
    ensures Extends(db.books.ledger, Next(db, s).books.ledger, s)
  {
    hide Fees.ComputeFee, Move, HasPayout;
    var total := s.cents + DisbursementFeeOf(db, s.account, s.cents);
    MoveExtends(db.books, if s.StartPayout? then PayoutDebitOf(s.account, s.ref, total)
                          else WithdrawalOf(s.account, s.ref, total), s);
  }

  lemma SweepExtends(db: Db, s: Step)
    requires s.Sweep? || s.AdminSweep?
    ensures Extends(db.books.ledger, Next(db, s).books.ledger, s)
  {
    hide Fees.ComputeFee, Move, SweptSince;
    MoveExtends(db.books, WithdrawalOf(s.account, s.ref, CollectionBalance(db, s.account)), s);
  }

  lemma TransferExtends(db: Db, s: Step)
    requires s.StartTransfer?
    ensures Extends(db.books.ledger, Next(db, s).books.ledger, s)
  {
    hide Fees.ComputeTransferFee, HasTransfer;
  }

  lemma RecordExtends(db: Db, s: Step)
    requires s.CollectionRecord? || s.DepositRecord? || s.PayoutRecord?
    ensures Extends(db.books.ledger, Next(db, s).books.ledger, s)
  {
    hide CollectionFeeOf, Recount, Move;
    if s.CollectionRecord? {
      hide ApplyDeposit, ApplyPayout;
      if s.ref in db.collections {
        var row := db.collections[s.ref];
        var net := GrossOf(row, s.collected) - CollectionFeeOf(db, row, s.collected);
        MoveExtends(db.books, CollectionCreditOf(s.ref, row, net), s);
      }
    } else if s.DepositRecord? {
      hide ApplyCollection, ApplyPayout;
      if s.ref in db.deposits {
        var row := db.deposits[s.ref];
        MoveExtends(db.books, DepositCreditOf(s.ref, row, GrossOf(row, s.collected)), s);
      }
    } else {
      hide ApplyCollection, ApplyDeposit;
      if s.ref in db.payouts {
        MoveExtends(db.books, RefundOf(s.ref, db.payouts[s.ref]), s);
      }
    }
  }

  /** A sum over the ledger that gives no weight to a step's rows does not see the step. */
  lemma {:induction false} ExtendsSum(ledger: seq<LedgerRow>, ledger': seq<LedgerRow>, s: Step, f: LedgerRow -> int)
    requires Extends(ledger, ledger', s)
    requires forall row :: Documents(s, row) ==> f(row) == 0
    ensures SumOf(ledger', f) == SumOf(ledger, f)
  {
    if |ledger'| > |ledger| {
      assert Documents(s, ledger'[|ledger'| - 1]);
      ExtendsSum(ledger, ledger'[..|ledger'| - 1], s, f);
    } else {
      assert ledger' == ledger;
    }
  }

  /** The row a posted movement appends. */
  function RowOf(b: Books, m: Movement): LedgerRow
    requires m.wallet in b.wallets
  {
    Post(b, m, Signed(m)).ledger[|b.ledger|]
  }

  lemma MoveSum(b: Books, m: Movement, f: LedgerRow -> int)
    ensures SumOf(After(b, Move(b, m)).ledger, f)
         == SumOf(b.ledger, f) + if Move(b, m).Posted? then f(RowOf(b, m)) else 0
  {
    if Move(b, m).Posted? {
      SumOfAppend(b.ledger, RowOf(b, m), f);
    }
  }

  predicate RefundNow(db: Db, r: Ref, next: TxStatus)
    requires r in db.payouts
  {
    !Repeats(db.payouts[r].status, next) && ShouldRefund(db.payouts[r], next)
  }

  /** What a record does to its payout and to the books, the batch's summary left aside. */
  lemma PayoutRecordShape(db: Db, r: Ref, next: TxStatus)
    requires r in db.payouts
    ensures var db', p := ApplyPayout(db, r, next).db, db.payouts[r];
            && db'.payouts == db.payouts[r := if Repeats(p.status, next) then p else PayoutAfter(p, next)]
            && db'.books == if RefundNow(db, r, next) then After(db.books, Move(db.books, RefundOf(r, p))) else db.books
  {
    hide Recounted, Move;
  }

  function CollectionAfter(db: Db, row: Receipt, next: TxStatus, collected: Option<Cents>): Receipt {
    if Repeats(row.status, next) then row
    else if !ShouldCredit(row, next) then Restated(row, next, collected)
    else CreditedRow(row, next, collected, Some(CollectionFeeOf(db, row, collected)))
  }

  function DepositAfter(row: Receipt, next: TxStatus, collected: Option<Cents>): Receipt {
    if Repeats(row.status, next) then row
    else if !ShouldCredit(row, next) then Restated(row, next, collected)
    else CreditedRow(row, next, collected, None)
  }

  /** What a record does to the tables of receipts. */
  lemma CollectionRecordShape(db: Db, r: Ref, next: TxStatus, collected: Option<Cents>)
    requires r in db.collections ==> HasConfig(db, db.collections[r].account)
    ensures ApplyCollection(db, r, next, collected).db.collections
         == if r in db.collections
            then db.collections[r := CollectionAfter(db, db.collections[r], next, collected)] else db.collections
    ensures ApplyCollection(db, r, next, collected).db.deposits == db.deposits
  {
    hide CollectionFeeOf, Move, HasConfig;
  }

  lemma DepositRecordShape(db: Db, r: Ref, next: TxStatus, collected: Option<Cents>)
    ensures ApplyDeposit(db, r, next, collected).db.deposits
         == if r in db.deposits
            then db.deposits[r := DepositAfter(db.deposits[r], next, collected)] else db.deposits
    ensures ApplyDeposit(db, r, next, collected).db.collections == db.collections
    ensures ApplyDeposit(db, r, next, collected).db.books
         == if r in db.deposits && ShouldCredit(db.deposits[r], next) && !Repeats(db.deposits[r].status, next)
            then After(db.books, Move(db.books, DepositCreditOf(r, db.deposits[r], GrossOf(db.deposits[r], collected))))
            else db.books
  {
    hide Move;
  }

  // ------------------------------ Table frames ------------------------------

  predicate AddsPayout(s: Step, r: Ref) {
    match s
    case StartPayout(ref, _, _, _) => ref == r
    case StartWithdrawal(ref, _, _, _, _, _) => ref == r
    case Sweep(ref, _, _, _, _) => ref == r
    case AdminSweep(ref, _, _) => ref == r
    case StartBatch(_, _, items) => exists i :: 0 <= i < |items| && items[i].ref == r
    case _ => false
  }

  lemma SameReceipts(db: Db, s: Step)
    ensures !s.StartCollection? && !s.CollectionRecord? ==> Next(db, s).collections == db.collections
    ensures !s.StartDeposit? && !s.DepositRecord? ==> Next(db, s).deposits == db.deposits
  {
    hide TransferFunds, CreatePayout, CreateWithdrawal, CreateBatch, SweepAccount, SweepNow, Opened, FeesUpdated, Move;
    hide ApplyCollection, ApplyDeposit, ApplyPayout, InitiateCollection, InitiateDeposit;
  }

  /** A request or a record writes one row. */
  lemma OneCollection(db: Db, ref: Ref, a: AccountId, cents: Cents, client: Option<Ref>, answer: ProviderAnswer,
                      next: TxStatus, collected: Option<Cents>)
    ensures var table := InitiateCollection(db, ref, a, cents, client, answer).db.collections;
            table == db.collections || (ref in table && table == db.collections[ref := table[ref]])
    ensures var table := ApplyCollection(db, ref, next, collected).db.collections;
            table == db.collections || (ref in table && table == db.collections[ref := table[ref]])
  {
    hide Move, CollectionFeeOf, HasReceipt, NewReceipt, Restated, CreditedRow;
  }

  lemma OneDeposit(db: Db, ref: Ref, a: AccountId, cents: Cents, client: Option<Ref>, answer: ProviderAnswer,
                   next: TxStatus, collected: Option<Cents>)
    ensures var table := InitiateDeposit(db, ref, a, cents, client, answer).db.deposits;
            table == db.deposits || (ref in table && table == db.deposits[ref := table[ref]])
    ensures var table := ApplyDeposit(db, ref, next, collected).db.deposits;
            table == db.deposits || (ref in table && table == db.deposits[ref := table[ref]])
  {
    hide Move, HasReceipt, NewReceipt, Restated, CreditedRow;
  }

  /** A collection row is written by its own start and its own records only. */
  lemma CollectionFrame(db: Db, s: Step, r: Ref)
    requires !(s.StartCollection? && s.ref == r) && !(s.CollectionRecord? && s.ref == r)
    ensures r in Next(db, s).collections <==> r in db.collections
    ensures r in db.collections ==> Next(db, s).collections[r] == db.collections[r]
  {
    hide ApplyCollection, InitiateCollection;
    if s.StartCollection? {
      OneCollection(db, s.ref, s.account, s.cents, s.client, s.answer, Pending, None);
    } else if s.CollectionRecord? {
      OneCollection(db, s.ref, "", 0, None, Declined, s.next, s.collected);
    } else {
      hide Next;
      SameReceipts(db, s);
    }
  }

  lemma DepositFrame(db: Db, s: Step, r: Ref)
    requires !(s.StartDeposit? && s.ref == r) && !(s.DepositRecord? && s.ref == r)
    ensures r in Next(db, s).deposits <==> r in db.deposits
    ensures r in db.deposits ==> Next(db, s).deposits[r] == db.deposits[r]
  {
    hide ApplyDeposit, InitiateDeposit;
    if s.StartDeposit? {
      OneDeposit(db, s.ref, s.account, s.cents, s.client, s.answer, Pending, None);
    } else if s.DepositRecord? {
      OneDeposit(db, s.ref, "", 0, None, Declined, s.next, s.collected);
    } else {
      hide Next;
      SameReceipts(db, s);
    }
  }

  lemma {:induction false} WithItemsFrame(payouts: map<Ref, Payout>, a: AccountId, batch: Ref, items: seq<BatchItem>,
                                          now: nat, r: Ref)
    requires forall i :: 0 <= i < |items| ==> items[i].ref != r
    ensures r in WithItems(payouts, a, batch, items, now) <==> r in payouts
    ensures r in payouts ==> WithItems(payouts, a, batch, items, now)[r] == payouts[r]
  {
    if items != [] {
      WithItemsFrame(payouts, a, batch, items[..|items| - 1], now, r);
    }
  }

  lemma BatchPayoutFrame(db: Db, s: Step, r: Ref)
    requires s.StartBatch? && !AddsPayout(s, r)
    ensures r in Next(db, s).payouts <==> r in db.payouts
    ensures r in db.payouts ==> Next(db, s).payouts[r] == db.payouts[r]
  {
    hide WithItems, Move;
    WithItemsFrame(db.payouts, s.account, s.ref, s.items, db.books.clock, r);
  }

  predicate StartsOne(s: Step) {
    s.StartPayout? || s.StartWithdrawal? || s.Sweep? || s.AdminSweep?
  }

  /** At most one payout is new, and it belongs to no batch. */
  predicate AddsOne(payouts: map<Ref, Payout>, payouts': map<Ref, Payout>, ref: Ref) {
    payouts' == payouts
    || (ref in payouts' && payouts'[ref].batch.None? && payouts' == payouts[ref := payouts'[ref]])
  }

  lemma HoldAddsOne(db: Db, m: Movement, ref: Ref, p: Payout)
    requires p.batch.None?
    ensures AddsOne(db.payouts, HoldPayout(db, m, ref, p).db.payouts, ref)
  {
    hide Move;
  }

  lemma StartAddsOne(db: Db, s: Step)
    requires StartsOne(s)
    ensures AddsOne(db.payouts, Next(db, s).payouts, s.ref)
  {
    hide HoldPayout, AddsOne, Fees.ComputeFee, HasPayout, SweptSince;
    HoldAddsNothing(db.payouts, s.ref);
    var a, db1 := s.account, EnsureConfig(db, s.account);
    if s.StartPayout? || s.StartWithdrawal? {
      var fee := DisbursementFeeOf(db, a, s.cents);
      HoldAddsOne(db1, PayoutDebitOf(a, s.ref, s.cents + fee), s.ref,
                  CustomerPayout(a, s.client, s.cents, fee, db.books.clock));
      HoldAddsOne(db1, WithdrawalOf(a, s.ref, s.cents + fee), s.ref,
                  SettlementPayout(a, s.client, SettlementWithdrawal, s.cents, fee, db.books.clock));
    } else {
      var balance := CollectionBalance(db, a);
      var fee := DisbursementFeeOf(db, a, balance);
      HoldAddsOne(db1, WithdrawalOf(a, s.ref, balance), s.ref,
                  SettlementPayout(a, SWEEP_CLIENT, AutoSweep, balance - fee, fee, db.books.clock));
    }
  }

  lemma HoldAddsNothing(payouts: map<Ref, Payout>, ref: Ref)
    ensures AddsOne(payouts, payouts, ref)
  {
  }

  lemma SamePayouts(db: Db, s: Step)
    requires !StartsOne(s) && !s.StartBatch? && !s.PayoutRecord?
    ensures Next(db, s).payouts == db.payouts
  {
    hide TransferFunds, Opened, FeesUpdated, Move, ApplyCollection, ApplyDeposit, ApplyPayout;
    hide InitiateCollection, InitiateDeposit, CreateBatch, CreatePayout, CreateWithdrawal, SweepAccount, SweepNow;
  }

  lemma RecordPayoutFrame(db: Db, s: Step, r: Ref)
    requires s.PayoutRecord? && s.ref != r
    ensures r in Next(db, s).payouts <==> r in db.payouts
    ensures r in db.payouts ==> Next(db, s).payouts[r] == db.payouts[r]
  {
    hide Recount, Move;
  }

  /** A payout row is written by the step that adds it and by its own records only. */
  lemma PayoutFrame(db: Db, s: Step, r: Ref)
    requires !AddsPayout(s, r) && !(s.PayoutRecord? && s.ref == r)
    ensures r in Next(db, s).payouts <==> r in db.payouts
    ensures r in db.payouts ==> Next(db, s).payouts[r] == db.payouts[r]
  {
    hide Next;
    if s.StartBatch? {
      BatchPayoutFrame(db, s, r);
    } else if StartsOne(s) {
      StartAddsOne(db, s);
    } else if s.PayoutRecord? {
      RecordPayoutFrame(db, s, r);
    } else {
      SamePayouts(db, s);
    }
  }
}
