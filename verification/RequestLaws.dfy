/**
 When payouts, withdrawals, batches and sweeps are accepted, what acceptance takes, and what a job does
 when it is delivered more than once.
 */
module RequestLaws {
  import opened Wrappers
  import opened ProviderStatus
  import opened Tables
  import opened FeeSchedules
  import opened Wallets
  import opened TxnStatus
  import opened Disbursements
  import opened Settlements
  import opened Collections
  import opened Engine
  import opened LedgerLaws
  import opened EngineLaws
  import opened RowLaws
  import opened Holds
  import opened PayoutLaws
  import opened FeeLaws
  import BatchLaws
  import References
  import Accounting
  import Fees

  predicate RowsKept(db: Db, db': Db) {
    db'.payouts == db.payouts && db'.batches == db.batches
  }

  /** Why wallet k refuses a hold: the first of these that applies. A covered hold is not refused. */
  function HoldRefusal(b: Books, k: WalletKey, total: Cents): Option<Error> {
    if total == 0 then Some(ValidationFailed)
    else if k !in b.wallets then Some(WalletNotFound)
    else if b.wallets[k].status == FrozenWallet then Some(WalletFrozen)
    else if b.wallets[k].balance < total then Some(InsufficientFunds)
    else None
  }

  /**
   The three ways a request for a hold can end. Accepted: wallet k pays the total and row p is stored. Lost:
   the wallet pays, but the reference is taken and there is no new row. Refused, by the request's own checks
   (`reason`) or by the wallet: nothing has happened.
   */
  ghost predicate HoldOutcome(db: Db, o: Outcome, ref: Ref, k: WalletKey, total: Cents, t: TxType, p: Payout,
                              reason: Option<Error>) {
    if reason.Some? then o.error == reason && o.db.books == db.books && RowsKept(db, o.db)
    else if !Covered(db.books, k, total) then
      o.error == HoldRefusal(db.books, k, total) && o.error.Some? && o.db.books == db.books && RowsKept(db, o.db)
    else if ref in db.payouts then
      o.error == Some(ReferenceTaken) && Paid(db.books, o.db.books, k, total, t, ref) && RowsKept(db, o.db)
    else
      && o.error == None && Paid(db.books, o.db.books, k, total, t, ref)
      && o.db.payouts == db.payouts[ref := p] && o.db.batches == db.batches
  }

  lemma HoldIff(db: Db, m: Movement, ref: Ref, p: Payout)
    requires IsHold(m, ref)
    ensures HoldOutcome(db, HoldPayout(db, m, ref, p), ref, m.wallet, m.amount, m.txType, p, None)
  {
    hide Move, Covered, Paid;
    DebitIff(db.books, m, ref);
    RefusedReason(db.books, m, ref);
  }

  /** The same after a default schedule was stored. */
  lemma ChargedHold(db: Db, a: AccountId, m: Movement, ref: Ref, p: Payout)
    requires IsHold(m, ref)
    ensures HoldOutcome(db, HoldPayout(EnsureConfig(db, a), m, ref, p), ref, m.wallet, m.amount, m.txType, p, None)
  {
    hide HoldPayout, Paid, Covered, HoldRefusal;
    HoldIff(EnsureConfig(db, a), m, ref, p);
  }

  lemma RefusedReason(b: Books, m: Movement, ref: Ref)
    requires IsHold(m, ref)
    ensures ErrorOf(Move(b, m)) == HoldRefusal(b, m.wallet, m.amount)
    ensures HoldRefusal(b, m.wallet, m.amount).None? <==> Covered(b, m.wallet, m.amount)
  {
  }

  predicate UnusedClient(db: Db, a: AccountId, client: Option<Ref>) {
    client.Some? ==> forall r :: r in db.payouts && db.payouts[r].account == a
                                 ==> db.payouts[r].clientReference != client
  }

  /**
   A payout is accepted exactly when the account exists, the client reference is new to it, the
   disbursement wallet covers amount plus fee and the reference is free. It then holds exactly that, and its
   row is stored in full.
   */
  lemma PayoutAccepted(db: Db, ref: Ref, a: AccountId, cents: Cents, client: Option<Ref>) returns (fee: Cents)
    requires FeesFormed(db.fees) && cents >= 0
    ensures DisbursementCharge(db, a, cents, fee)
    ensures HoldOutcome(db, CreatePayout(db, ref, a, cents, client), ref, WalletKey(a, DisbursementWallet), cents + fee,
                        PayoutDebit,
                        Payout(a, None, client, DisbursementWallet, Customer, cents, Some(fee), Pending, true, false,
                               db.books.clock),
                        if a !in db.accounts then Some(NotFound)
                        else if !UnusedClient(db, a, client) then Some(DuplicateReference) else None)
  {
    hide Fees.ComputeFee, Covered, Paid, HoldPayout, DisbursementCharge;
    FeeBoundsOf(db, a, cents);
    fee := DisbursementFeeOf(db, a, cents);
    ChargedIff(db, a, cents, fee);
    ChargedHold(db, a, PayoutDebitOf(a, ref, cents + fee), ref,
                CustomerPayout(a, client, cents, fee, db.books.clock));
  }

  /**
   A withdrawal is accepted exactly when the account and its settlement account exist, the amount is
   positive, amount plus fee reaches the minimum, the collection wallet covers it and the reference is
   free. Nothing looks for an earlier payout with the client reference: one that fills the reference makes
   it taken, and the withdrawal is lost.
   */
  lemma WithdrawalAccepted(db: Db, ref: Ref, a: AccountId, cents: Cents, client: Option<Ref>, settlement: bool,
                           min: Cents) returns (fee: Cents)
    requires FeesFormed(db.fees)
    ensures DisbursementCharge(db, a, cents, fee)
    ensures HoldOutcome(db, CreateWithdrawal(db, ref, a, cents, client, settlement, min), ref,
                        WalletKey(a, CollectionWallet), cents + fee, Withdrawal,
                        Payout(a, None, client, CollectionWallet, SettlementWithdrawal, cents, Some(fee), Pending, true,
                               false, db.books.clock),
                        if a !in db.accounts then Some(NotFound)
                        else if !settlement || cents <= 0 || cents + fee < min then Some(ValidationFailed) else None)
  {
    hide DisbursementFeeOf, Covered, Paid, HoldPayout, DisbursementCharge, HoldRefusal;
    fee := DisbursementFeeOf(db, a, cents);
    ChargedIff(db, a, cents, fee);
    if cents > 0 {
      FeeBoundsOf(db, a, cents);
      ChargedHold(db, a, WithdrawalOf(a, ref, cents + fee), ref,
                  SettlementPayout(a, client, SettlementWithdrawal, cents, fee, db.books.clock));
    }
  }

  /**
   An administrator's sweep is accepted exactly when there is a settlement account, the collection wallet
   is in use and not empty, what is left after the fee reaches the minimum and the reference is free; it
   then takes everything and pays out the rest.
   */
  lemma AdminSweepAccepted(db: Db, ref: Ref, a: AccountId, min: Cents) returns (fee: Cents)
    requires FeesFormed(db.fees)
    ensures var k := WalletKey(a, CollectionWallet);
            var balance := BalanceOf(db.books, k);
            && DisbursementCharge(db, a, balance, fee)
            && HoldOutcome(db, SweepNow(db, ref, a, min), ref, k, balance, Withdrawal,
                           Payout(a, None, Some("AUTO-SWEEP"), CollectionWallet, AutoSweep, balance - fee, Some(fee),
                                  Pending, true, false, db.books.clock),
                           if a !in db.accounts then Some(NotFound)
                           else if !db.accounts[a].hasSettlement || balance <= 0 || balance - fee < min
                           then Some(ValidationFailed) else None)
  {
    hide Fees.ComputeFee, Covered, Paid, HoldPayout, DisbursementCharge;
    var balance := CollectionBalance(db, a);
    fee := DisbursementFeeOf(db, a, balance);
    ChargedIff(db, a, balance, fee);
    if balance > 0 {
      FeeBoundsOf(db, a, balance);
      ChargedHold(db, a, WithdrawalOf(a, ref, balance), ref,
                  SettlementPayout(a, SWEEP_CLIENT, AutoSweep, balance - fee, fee, db.books.clock));
    }
  }

  /** The references of a batch are unused and distinct. */
  predicate AllFree(db: Db, ref: Ref, items: seq<BatchItem>) {
    && ref !in db.batches
    && (forall i :: 0 <= i < |items| ==> items[i].ref !in db.payouts)
    && (forall i, j :: 0 <= i < j < |items| ==> items[i].ref != items[j].ref)
  }

  /** Item i of an accepted batch has a pending row of its own. */
  ghost predicate ItemStored(db: Db, payouts: map<Ref, Payout>, ref: Ref, a: AccountId, item: BatchItem) {
    && item.ref in payouts
    && payouts[item.ref] == Payout(a, Some(ref), item.client, DisbursementWallet, Customer, item.amount, None, Pending,
                                   true, false, db.books.clock)
  }

  /** The payouts after a batch: a row for each item, every earlier row, and no other. */
  ghost predicate ItemsAdded(db: Db, payouts: map<Ref, Payout>, ref: Ref, a: AccountId, items: seq<BatchItem>) {
    && (forall i :: 0 <= i < |items| ==> ItemStored(db, payouts, ref, a, items[i]))
    && (forall r :: r in db.payouts ==> r in payouts && payouts[r] == db.payouts[r])
    && (forall r :: r in payouts && r !in db.payouts ==> exists i :: 0 <= i < |items| && items[i].ref == r)
  }

  /** The row of a new batch: nothing succeeded, nothing failed, and its items in the order of the request. */
  ghost predicate BatchStored(batch: Batch, a: AccountId, items: seq<BatchItem>) {
    && batch == Batch(a, BatchProcessing, |items|, batch.totalAmount, 0, 0, batch.items)
    && |batch.items| == |items| && forall i :: 0 <= i < |items| ==> batch.items[i] == items[i].ref
  }

  /**
   A batch is accepted exactly when the account exists, every item can be delivered, the disbursement
   wallet covers the sum and every reference it needs is free and used once; each item then has a pending
   row of its own. If only the references fail, the hold is lost; else nothing changes at all.
   */
  lemma {:induction false} BatchAccepted(db: Db, ref: Ref, a: AccountId, items: seq<BatchItem>)
    requires forall j :: 0 <= j < |items| ==> items[j].amount >= 0
    ensures var o, k, total := CreateBatch(db, ref, a, items), WalletKey(a, DisbursementWallet), TotalAmount(items);
            if a !in db.accounts then o == Outcome(db, Some(NotFound))
            else if exists j :: 0 <= j < |items| && !items[j].deliverable
            then o == Outcome(db, Some(ValidationFailed))
            else if !Covered(db.books, k, total) then
              o.db == db && o.error == HoldRefusal(db.books, k, total) && o.error.Some?
            else if !AllFree(db, ref, items) then
              o.error == Some(ReferenceTaken) && Paid(db.books, o.db.books, k, total, BatchHold, ref)
              && RowsKept(db, o.db)
            else
              && o.error == None && Paid(db.books, o.db.books, k, total, BatchHold, ref)
              && ref in o.db.batches && o.db.batches == db.batches[ref := o.db.batches[ref]]
              && BatchStored(o.db.batches[ref], a, items) && o.db.batches[ref].totalAmount == total
              && ItemsAdded(db, o.db.payouts, ref, a, items)
  {
    hide Move, Covered, Paid, WithItems, TotalAmount, RefsFree, AllFree, ItemsAdded, HoldRefusal;
    var m := BatchHoldOf(a, ref, TotalAmount(items));
    Accounting.TotalAmountSign(items);
    DebitIff(db.books, m, ref);
    RefusedReason(db.books, m, ref);
    RefsFreeIff(db, ref, items);
    if RefsFree(db, ref, items) {
      ItemsStored(db, ref, a, items);
    }
  }

  lemma RefsFreeIff(db: Db, ref: Ref, items: seq<BatchItem>)
    ensures RefsFree(db, ref, items) <==> AllFree(db, ref, items)
  {
  }

  /** The payout table after the rows of a batch are added: those rows, and every earlier one. */
  lemma {:induction false} ItemsStored(db: Db, ref: Ref, a: AccountId, items: seq<BatchItem>)
    requires RefsFree(db, ref, items)
    ensures ItemsAdded(db, WithItems(db.payouts, a, ref, items, db.books.clock), ref, a, items)
  {
    var payouts := WithItems(db.payouts, a, ref, items, db.books.clock);
    forall i | 0 <= i < |items| ensures ItemStored(db, payouts, ref, a, items[i]) {
      WithItemsAt(db.payouts, a, ref, items, db.books.clock, i);
      hide WithItems;
    }
    forall r
      ensures r in db.payouts ==> r in payouts && payouts[r] == db.payouts[r]
      ensures r in payouts && r !in db.payouts ==> exists i :: 0 <= i < |items| && items[i].ref == r
    {
      if forall i :: 0 <= i < |items| ==> items[i].ref != r {
        WithItemsFrame(db.payouts, a, ref, items, db.books.clock, r);
      }
      hide WithItems;
    }
  }

  /** What a batch holds: the sum of its items, one by one. */
  lemma {:induction false} TotalIsSum(items: seq<BatchItem>, item: BatchItem)
    ensures TotalAmount([]) == 0 && TotalAmount(items + [item]) == TotalAmount(items) + item.amount
  {
    assert (items + [item])[..|items|] == items;
  }

  // ----------------------------- Receipt requests ----------------------------

  predicate NewClient(table: map<Ref, Receipt>, a: AccountId, client: Option<Ref>) {
    client.Some? ==> forall r :: r in table && table[r].account == a ==> table[r].clientReference != client
  }

  /** The status of a new row: failed if the provider declined, else what it answered, pending if it said nothing. */
  function FirstStatus(answer: ProviderAnswer): TxStatus {
    match answer
    case Declined => Failed
    case Answered(None) => Pending
    case Answered(Some(word)) => MapProviderStatus(Some(word))
  }

  /**
   A request that passes its checks stores its row, uncredited and without fee, even if the provider then
   declines; others leave no trace.
   */
  ghost predicate Requested(db: Db, o: Outcome, table: map<Ref, Receipt>, table': map<Ref, Receipt>, ref: Ref,
                            a: AccountId, cents: Cents, client: Option<Ref>, answer: ProviderAnswer) {
    if a !in db.accounts then o == Outcome(db, Some(NotFound))
    else if !NewClient(table, a, client) then o == Outcome(db, Some(DuplicateReference))
    else if ref in table then o == Outcome(db, Some(ReferenceTaken))
    else
      && table' == table[ref := Receipt(a, client, cents, FirstStatus(answer), None, None, false, 0)]
      && o.error == if answer == Declined then Some(ProviderError) else None
  }

  /**
   A collection or deposit request leaves a row exactly when the account exists, the client reference is
   new to it and the reference is free, also when the provider declines; it never moves money.
   */
  lemma ReceiptStored(db: Db, ref: Ref, a: AccountId, cents: Cents, client: Option<Ref>, answer: ProviderAnswer)
    requires WalletsFormed(db.books.wallets, db.accounts)
    ensures var o := InitiateCollection(db, ref, a, cents, client, answer);
            && Requested(db, o, db.collections, o.db.collections, ref, a, cents, client, answer)
            && o.db == db.(collections := o.db.collections)
    ensures var o := InitiateDeposit(db, ref, a, cents, client, answer);
            && Requested(db, o, db.deposits, o.db.deposits, ref, a, cents, client, answer)
            && o.db == db.(deposits := o.db.deposits)
  {
    hide MapProviderStatus;
    SilentAnswer();
  }

  lemma SilentAnswer()
    ensures MapProviderStatus(None) == Pending
  {
    MapDecides(None);
  }

  // ---------------------------- Redelivered jobs ----------------------------

  /** The record that a job makes of the provider's answer: a refusal fails the payout, silence leaves it pending. */
  lemma JobMeaning(db: Db, ref: Ref, answer: ProviderAnswer)
    ensures ProcessPayout(db, ref, answer)
         == if ref in db.payouts && db.payouts[ref].status == Pending then ApplyPayout(db, ref, FirstStatus(answer))
            else Outcome(db, None)
  {
    hide ApplyPayout, MapProviderStatus;
    DeclinedFails();
    SilentPends();
  }

  lemma SilentPends()
    ensures MapProviderStatus(Some("PENDING")) == Pending
  {
    hide Upper, MapProviderStatus;
    UpperStays("PENDING");
    MapDecides(Some("PENDING"));
  }

  /**
   A job delivered twice calls the provider a second time exactly when the first answer left the payout
   pending; once it did not, every later delivery changes nothing.
   */
  lemma JobRedelivered(db: Db, ref: Ref, first: ProviderAnswer, second: ProviderAnswer)
    requires ref in db.payouts && db.payouts[ref].status.Pending?
    ensures var db1 := ProcessPayout(db, ref, first).db;
            && ref in db1.payouts
            && db1.payouts[ref].status == FirstStatus(first)
            && ProcessPayout(db1, ref, second)
               == if FirstStatus(first) == Pending then ApplyPayout(db1, ref, FirstStatus(second))
                  else Outcome(db1, None)
  {
    JobMeaning(db, ref, first);
    PayoutRecordShape(db, ref, FirstStatus(first));
    JobMeaning(ProcessPayout(db, ref, first).db, ref, second);
    hide ApplyPayout, FirstStatus, ProcessPayout;
  }

  /** A declined payout fails, is refunded, and its wallet has what the payout owed back. */
  lemma DeclinedReturned(db: Db, ref: Ref)
    requires WellFormed(db) && ref in db.payouts && db.payouts[ref].status.Pending? && !db.payouts[ref].refunded
    ensures var db', p := ProcessPayout(db, ref, Declined).db, db.payouts[ref];
            && ref in db'.payouts && db'.payouts[ref].status.Failed? && db'.payouts[ref].refunded
            && BalanceOf(db'.books, SourceOf(p)) == BalanceOf(db.books, SourceOf(p)) + Owed(p)
  {
    hide ApplyPayout, MapProviderStatus, Move, WellFormed;
    DeclinedFails();
    PayoutRowFormed(db, ref);
    PayoutRecordShape(db, ref, Failed);
    RefundMoves(db.books, ref, db.payouts[ref], SourceOf(db.payouts[ref]));
  }

  lemma DeclinedFails()
    ensures MapProviderStatus(AnswerStatus(Declined)) == Failed
  {
    hide Upper;
    UpperStays("FAILED");
  }

  // ------------------------- Repeated client references ----------------------

  ghost predicate UniqueReceipts(table: map<Ref, Receipt>) {
    forall r, q :: r in table && q in table && table[r].account == table[q].account
                && table[r].clientReference == table[q].clientReference && table[r].clientReference.Some?
                ==> r == q
  }

  ghost predicate UniqueTransfers(table: map<Ref, Transfer>) {
    forall r, q :: r in table && q in table && table[r].account == table[q].account
                && table[r].clientReference == table[q].clientReference && table[r].clientReference.Some?
                ==> r == q
  }

  ghost predicate UniqueClients(db: Db) {
    UniqueReceipts(db.collections) && UniqueReceipts(db.deposits) && UniqueTransfers(db.transfers)
  }

  lemma PutUnique(table: map<Ref, Receipt>, ref: Ref, row: Receipt)
    requires UniqueReceipts(table)
    requires if ref in table then row.account == table[ref].account && row.clientReference == table[ref].clientReference
             else row.clientReference.Some? ==> !HasReceipt(table, row.account, row.clientReference.value)
    ensures UniqueReceipts(table[ref := row])
  {
  }

  lemma StartUnique(db: Db, ref: Ref, a: AccountId, cents: Cents, client: Option<Ref>, answer: ProviderAnswer)
    requires UniqueReceipts(db.collections) && UniqueReceipts(db.deposits)
    ensures UniqueReceipts(InitiateCollection(db, ref, a, cents, client, answer).db.collections)
    ensures UniqueReceipts(InitiateDeposit(db, ref, a, cents, client, answer).db.deposits)
  {
    hide HasReceipt, UniqueReceipts;
    var row := NewReceipt(a, client, cents, answer);
    if client.Some? ==> !HasReceipt(db.collections, a, client.value) {
      if ref !in db.collections {
        PutUnique(db.collections, ref, row);
      }
    }
    if client.Some? ==> !HasReceipt(db.deposits, a, client.value) {
      if ref !in db.deposits {
        PutUnique(db.deposits, ref, row);
      }
    }
  }

  lemma CollectionRecordUnique(db: Db, ref: Ref, next: TxStatus, collected: Option<Cents>)
    requires UniqueReceipts(db.collections)
    ensures UniqueReceipts(ApplyCollection(db, ref, next, collected).db.collections)
  {
    hide UniqueReceipts, Move, CollectionFeeOf, EnsureConfig;
    if ref in db.collections {
      var row := db.collections[ref];
      PutUnique(db.collections, ref, Restated(row, next, collected));
      PutUnique(db.collections, ref, CreditedRow(row, next, collected, Some(CollectionFeeOf(db, row, collected))));
    }
  }

  lemma DepositRecordUnique(db: Db, ref: Ref, next: TxStatus, collected: Option<Cents>)
    requires UniqueReceipts(db.deposits)
    ensures UniqueReceipts(ApplyDeposit(db, ref, next, collected).db.deposits)
  {
    hide UniqueReceipts, Move;
    if ref in db.deposits {
      var row := db.deposits[ref];
      PutUnique(db.deposits, ref, Restated(row, next, collected));
      PutUnique(db.deposits, ref, CreditedRow(row, next, collected, None));
    }
  }

  lemma StepReceiptsUnique(db: Db, s: Step)
    requires UniqueReceipts(db.collections) && UniqueReceipts(db.deposits)
    ensures UniqueReceipts(Next(db, s).collections) && UniqueReceipts(Next(db, s).deposits)
  {
    hide UniqueReceipts, InitiateCollection, InitiateDeposit, ApplyCollection, ApplyDeposit;
    SameReceipts(db, s);
    if s.StartCollection? || s.StartDeposit? {
      StartUnique(db, s.ref, s.account, s.cents, s.client, s.answer);
    } else if s.CollectionRecord? || s.DepositRecord? {
      CollectionRecordUnique(db, s.ref, s.next, s.collected);
      DepositRecordUnique(db, s.ref, s.next, s.collected);
    } else {
      hide Next;
    }
  }

  lemma StepTransfersUnique(db: Db, s: Step)
    requires UniqueTransfers(db.transfers)
    ensures UniqueTransfers(Next(db, s).transfers)
  {
    if s.StartTransfer? {
      hide TransferLegs, Fees.ComputeTransferFee;
    } else {
      hide CreatePayout, CreateWithdrawal, CreateBatch, SweepAccount, SweepNow, Opened, FeesUpdated, Move;
      hide UniqueTransfers, ApplyCollection, ApplyDeposit, ApplyPayout, InitiateCollection, InitiateDeposit;
    }
  }

  /** In no state of any run do two collections, deposits or transfers of an account share a client reference. */
  lemma {:induction false} RunUniqueClients(steps: seq<Step>)
    ensures UniqueClients(Run(EMPTY, steps))
  {
    hide Next;
    if steps != [] {
      hide UniqueReceipts, UniqueTransfers;
      var front, last := steps[..|steps| - 1], steps[|steps| - 1];
      RunUniqueClients(front);
      StepReceiptsUnique(Run(EMPTY, front), last);
      StepTransfersUnique(Run(EMPTY, front), last);
    }
  }

  // ----------------------- Client references of payouts ----------------------

  /** A payout of a customer's own, no item of a batch: the only kind whose request looks for a repetition. */
  predicate Single(p: Payout) {
    p.kind.Customer? && p.batch.None?
  }

  predicate SameClient(p: Payout, q: Payout) {
    p.account == q.account && p.clientReference == q.clientReference && p.clientReference.Some?
  }

  ghost predicate UniqueSingles(payouts: map<Ref, Payout>) {
    forall r, q :: r in payouts && q in payouts && r != q && SameClient(payouts[r], payouts[q])
                ==> !Single(payouts[r]) || !Single(payouts[q])
  }

  lemma StartKeepsSingles(db: Db, s: Step)
    requires UniqueSingles(db.payouts) && StartsOne(s) && Admissible(s)
    ensures UniqueSingles(Next(db, s).payouts)
  {
    hide Next, Move, DisbursementFeeOf, SweptSince;
    HoldShape(db, s);
  }

  lemma BatchKeepsSingles(db: Db, s: Step)
    requires UniqueSingles(db.payouts) && s.StartBatch? && Admissible(s)
    ensures UniqueSingles(Next(db, s).payouts)
  {
    var payouts := WithItems(db.payouts, s.account, s.ref, s.items, db.books.clock);
    BatchLaws.BatchTables(db, s.ref, s.account, s.items);
    if RefsFree(db, s.ref, s.items) {
      forall r
        ensures r in payouts ==> if r in db.payouts then payouts[r] == db.payouts[r] else payouts[r].batch.Some?
      {
        BatchLaws.RowsOfBatch(db, s, r);
        if r in payouts && r !in db.payouts {
          var i :| 0 <= i < |s.items| && s.items[i].ref == r;
          WithItemsAt(db.payouts, s.account, s.ref, s.items, db.books.clock, i);
        }
      }
    }
    hide CreateBatch, WithItems;
  }

  lemma StepKeepsSingles(db: Db, s: Step)
    requires UniqueSingles(db.payouts)
    ensures UniqueSingles(Next(db, s).payouts)
  {
    if !Admissible(s) {
    } else if StartsOne(s) {
      StartKeepsSingles(db, s);
    } else if s.StartBatch? {
      BatchKeepsSingles(db, s);
    } else if s.PayoutRecord? {
      if s.ref in db.payouts {
        PayoutRecordShape(db, s.ref, s.next);
      } else {
        NoPayoutRecord(db, s.ref, s.next);
      }
      hide ApplyPayout;
    } else {
      SamePayouts(db, s);
      hide Next;
    }
  }

  /** In no state of any run are two payouts of an account with one client reference both single payouts. */
  lemma {:induction false} RunUniqueSingles(steps: seq<Step>)
    ensures UniqueSingles(Run(EMPTY, steps).payouts)
  {
    hide Next;
    if steps != [] {
      hide UniqueSingles;
      RunUniqueSingles(steps[..|steps| - 1]);
      StepKeepsSingles(Run(EMPTY, steps[..|steps| - 1]), steps[|steps| - 1]);
    }
  }

  // ----------------------------- A lost withdrawal ---------------------------

  /** Two identical withdrawals, with a client reference that fills the internal one. */
  const COLLECTED: seq<Step> := [
    OpenAccount("ACC", Account(true, true, true), None),
    ManualMove(WalletKey("ACC", CollectionWallet), true, 100000, None)]
  const FULL_CLIENT := "INVOICE20250001"
  const FULL_REF := "ZX9Q1" + FULL_CLIENT
  const WITHDRAWAL := StartWithdrawal(FULL_REF, "ACC", 10000, Some(FULL_CLIENT), true, 0)

  /** Whatever is drawn at random, the two withdrawals get the one reference. */
  lemma FullReference(random: string)
    requires References.Padding(random, FULL_CLIENT)
    ensures References.ClientRef(FULL_CLIENT) && References.BuildReference("ZX9Q1", FULL_CLIENT, random) == FULL_REF
  {
    assert |FULL_CLIENT| == References.CLIENT_REF_LENGTH;
    assert random == [];
  }

  lemma FundedCollection()
    ensures var db, k := Run(EMPTY, COLLECTED), WalletKey("ACC", CollectionWallet);
            && db.payouts == map[] && db.fees == map[] && "ACC" in db.accounts
            && k in db.books.wallets && db.books.wallets[k] == Wallet(100000, ActiveWallet)
  {
    var open, deposit := COLLECTED[0], COLLECTED[1];
    assert COLLECTED[..1] == [open] && [open][..0] == [];
    assert Run(EMPTY, COLLECTED) == Next(Run(EMPTY, [open]), deposit);
    var db := Next(EMPTY, open);
    assert db.books.wallets[WalletKey("ACC", CollectionWallet)] == Wallet(0, ActiveWallet);
  }

  /** A withdrawal of 100.00 at the default schedule takes 105.00, whether or not its row finds a place. */
  lemma WithdrawOnce(db: Db)
    requires FeesFormed(db.fees) && ConfigOf(db, "ACC") == Fees.DEFAULT_CONFIG && "ACC" in db.accounts
    requires Covered(db.books, WalletKey("ACC", CollectionWallet), 10500)
    ensures var db', k := Next(db, WITHDRAWAL), WalletKey("ACC", CollectionWallet);
            && db'.accounts == db.accounts && ConfigOf(db', "ACC") == Fees.DEFAULT_CONFIG
            && Paid(db.books, db'.books, k, 10500, Withdrawal, FULL_REF)
            && FULL_REF in db'.payouts && (FULL_REF in db.payouts ==> db'.payouts == db.payouts)
    ensures FULL_REF in db.payouts ==>
              Loses(db, WITHDRAWAL, OnWallet(WalletKey("ACC", CollectionWallet)))
  {
    assert Fees.FeeAt(10000, 500) == 500;
    assert DisbursementFeeOf(db, "ACC", 10000) == 500;
    hide DisbursementFeeOf, Covered, Paid;
    var fee := WithdrawalAccepted(db, FULL_REF, "ACC", 10000, Some(FULL_CLIENT), true, 0);
    ChargedIff(db, "ACC", 10000, fee);
    hide Move;
  }

  lemma WithdrawnOnce()
    ensures var db, k := Run(EMPTY, COLLECTED + [WITHDRAWAL]), WalletKey("ACC", CollectionWallet);
            && FULL_REF in db.payouts && "ACC" in db.accounts && FeesFormed(db.fees)
            && ConfigOf(db, "ACC") == Fees.DEFAULT_CONFIG
            && BalanceOf(db.books, k) == 89500 && Covered(db.books, k, 10500)
  {
    FundedCollection();
    RunAppend(EMPTY, COLLECTED, WITHDRAWAL);
    RunWellFormed(EMPTY, COLLECTED + [WITHDRAWAL]);
    hide Run, Next;
    WithdrawOnce(Run(EMPTY, COLLECTED));
    hide WalletsFormed, FeesFormed, ReceiptsFormed, PayoutsFormed, Loses;
  }

  /** The second withdrawal takes 105.00 more, leaves no row, and the wallet is no longer what the tables say. */
  lemma LostWithdrawal()
    ensures var once, twice := COLLECTED + [WITHDRAWAL], COLLECTED + [WITHDRAWAL] + [WITHDRAWAL];
            var k := WalletKey("ACC", CollectionWallet);
            && BalanceOf(Run(EMPTY, once).books, k) == 89500 && BalanceOf(Run(EMPTY, twice).books, k) == 79000
            && Run(EMPTY, twice).payouts == Run(EMPTY, once).payouts
            && !Accounting.Balanced(Run(EMPTY, twice), k)
  {
    var once, k := COLLECTED + [WITHDRAWAL], WalletKey("ACC", CollectionWallet);
    var twice := once + [WITHDRAWAL];
    WithdrawnOnce();
    RunAppend(EMPTY, once, WITHDRAWAL);
    hide Run, Next, Loses, NeverLoses, Accounting.Balanced, FeesFormed, Covered, Lost;
    WithdrawOnce(Run(EMPTY, once));
    assert twice[..|once|] == once && twice[|once|] == WITHDRAWAL;
    NeverLosesFront(twice, OnWallet(k));
    Accounting.RunBalanced(twice, k);
  }
}
