/**
 Client references over time: whatever was accepted with one, and whatever has happened since, a later request
 of the account that has to be new is refused.
 */
module ClientLaws {
  import opened Wrappers
  import opened ProviderStatus
  import opened Tables
  import opened FeeSchedules
  import opened Wallets
  import opened TxnStatus
  import opened Disbursements
  import opened Settlements
  import opened Collections
  import opened Engine
  import opened LedgerLaws
  import opened EngineLaws
  import opened RowLaws
  import opened RecordLaws
  import opened ReceiptLaws
  import opened PayoutLaws
  import opened RequestLaws
  import opened FeeLaws
  import opened TransferLaws
  import opened Holds
  import Fees

  // --------------------------------- Payouts ---------------------------------

  /** Whose payout it is and what the client calls it never changes. */
  lemma {:induction false} PayoutColumns(db: Db, steps: seq<Step>, r: Ref)
    requires WellFormed(db) && r in db.payouts
    ensures var db' := Run(db, steps);
            && WellFormed(db') && r in db'.payouts && db'.payouts[r].account in db'.accounts
            && db'.payouts[r].account == db.payouts[r].account
            && db'.payouts[r].clientReference == db.payouts[r].clientReference
            && db'.payouts[r].amount == db.payouts[r].amount && db'.payouts[r].feeAmount == db.payouts[r].feeAmount
            && db'.payouts[r].sourceWallet == db.payouts[r].sourceWallet && db'.payouts[r].kind == db.payouts[r].kind
            && db'.payouts[r].batch == db.payouts[r].batch && db'.payouts[r].createdAt == db.payouts[r].createdAt
  {
    PayoutMark(db, steps, r);
    RunWellFormed(db, steps);
    hide Run;
    assert PayoutFormed(Run(db, steps).accounts, Run(db, steps).payouts[r]);
  }

  /** A payout that repeats the client reference of any payout of the account, of whatever kind, is refused. */
  lemma KnownPayoutRefused(db: Db, r: Ref, ref: Ref, a: AccountId, cents: Cents, client: Ref)
    requires a in db.accounts && r in db.payouts
    requires db.payouts[r].account == a && db.payouts[r].clientReference == Some(client)
    ensures CreatePayout(db, ref, a, cents, Some(client)) == Outcome(db, Some(DuplicateReference))
  {
    hide HoldPayout, Fees.ComputeFee;
  }

  /** Once a payout is accepted, every later one with its client reference is refused, whatever came between. */
  lemma {:induction false} RepeatedPayout(db: Db, ref: Ref, a: AccountId, cents: Cents, client: Ref, later: seq<Step>,
                                          ref': Ref, cents': Cents)
    requires WellFormed(db) && cents >= 0
    requires CreatePayout(db, ref, a, cents, Some(client)).error == None
    ensures var db' := CreatePayout(db, ref, a, cents, Some(client)).db;
            CreatePayout(Run(db', later), ref', a, cents', Some(client)).error == Some(DuplicateReference)
  {
    var db' := CreatePayout(db, ref, a, cents, Some(client)).db;
    var fee := PayoutAccepted(db, ref, a, cents, Some(client));
    PayoutKept(db, ref, a, cents, Some(client));
    hide CreatePayout, WellFormed, QuietStep, Run, DisbursementCharge, Paid, Covered;
    PayoutColumns(db', later, ref);
    KnownPayoutRefused(Run(db', later), ref, ref', a, cents', client);
  }

  /** So is a payout that repeats the client reference of an accepted withdrawal. */
  lemma {:induction false} RepeatsWithdrawal(db: Db, ref: Ref, a: AccountId, cents: Cents, client: Ref,
                                             settlement: bool, min: Cents, later: seq<Step>, ref': Ref, cents': Cents)
    requires WellFormed(db) && cents >= 0
    requires CreateWithdrawal(db, ref, a, cents, Some(client), settlement, min).error == None
    ensures var db' := CreateWithdrawal(db, ref, a, cents, Some(client), settlement, min).db;
            CreatePayout(Run(db', later), ref', a, cents', Some(client)).error == Some(DuplicateReference)
  {
    var db' := CreateWithdrawal(db, ref, a, cents, Some(client), settlement, min).db;
    var fee := WithdrawalAccepted(db, ref, a, cents, Some(client), settlement, min);
    WithdrawalKept(db, ref, a, cents, Some(client), settlement, min);
    hide CreateWithdrawal, WellFormed, QuietStep, Run, DisbursementCharge, Paid, Covered;
    PayoutColumns(db', later, ref);
    KnownPayoutRefused(Run(db', later), ref, ref', a, cents', client);
  }

  /** And one that repeats the client reference of an item of an accepted batch. */
  lemma {:induction false} RepeatsItem(db: Db, ref: Ref, a: AccountId, items: seq<BatchItem>, i: nat, client: Ref,
                                       later: seq<Step>, ref': Ref, cents': Cents)
    requires WellFormed(db) && forall j :: 0 <= j < |items| ==> items[j].amount >= 0
    requires i < |items| && items[i].client == Some(client)
    requires CreateBatch(db, ref, a, items).error == None
    ensures var db' := CreateBatch(db, ref, a, items).db;
            CreatePayout(Run(db', later), ref', a, cents', Some(client)).error == Some(DuplicateReference)
  {
    var db' := CreateBatch(db, ref, a, items).db;
    BatchAccepted(db, ref, a, items);
    assert ItemStored(db, db'.payouts, ref, a, items[i]);
    BatchKept(db, ref, a, items);
    hide CreateBatch, WellFormed, QuietStep, Run, Paid, Covered;
    PayoutColumns(db', later, items[i].ref);
    KnownPayoutRefused(Run(db', later), items[i].ref, ref', a, cents', client);
  }

  // ----------------------------- Receipts, transfers --------------------------

  predicate SameReceipt(row: Receipt, row': Receipt) {
    row'.account == row.account && row'.clientReference == row.clientReference && row'.amount == row.amount
  }

  lemma StepKeepsCollection(db: Db, s: Step, r: Ref)
    requires WellFormed(db) && r in db.collections
    ensures r in Next(db, s).collections && SameReceipt(db.collections[r], Next(db, s).collections[r])
  {
    if s.CollectionRecord? && s.ref == r {
      CollectionRecordMeaning(db, r, s.next, s.collected);
      hide ApplyCollection, WellFormed;
    } else {
      hide Next, WellFormed;
      if s.StartCollection? && s.ref == r {
        StartCollectionRow(db, s, r);
      } else {
        CollectionFrame(db, s, r);
      }
    }
  }

  lemma StepKeepsDeposit(db: Db, s: Step, r: Ref)
    requires WellFormed(db) && r in db.deposits
    ensures r in Next(db, s).deposits && SameReceipt(db.deposits[r], Next(db, s).deposits[r])
  {
    if s.DepositRecord? && s.ref == r {
      DepositRecordMeaning(db, r, s.next, s.collected);
      hide ApplyDeposit, WellFormed;
    } else {
      hide Next, WellFormed;
      if s.StartDeposit? && s.ref == r {
        StartDepositRow(db, s, r);
      } else {
        DepositFrame(db, s, r);
      }
    }
  }

  /** A transfer, once stored, stays as it is. */
  lemma StepKeepsTransfer(db: Db, s: Step, r: Ref)
    requires r in db.transfers
    ensures r in Next(db, s).transfers && Next(db, s).transfers[r] == db.transfers[r]
  {
    if s.StartTransfer? {
      hide TransferLegs, Fees.ComputeTransferFee, HasTransfer;
    } else {
      hide CreatePayout, CreateWithdrawal, CreateBatch, SweepAccount, SweepNow, Opened, FeesUpdated, Move;
      hide ApplyCollection, ApplyDeposit, ApplyPayout, InitiateCollection, InitiateDeposit, TransferFunds;
    }
  }

  /** Over any run the rows of receipts and transfers stay, with their accounts, client references and amounts. */
  lemma {:induction false} RowsKeptInRun(db: Db, steps: seq<Step>, r: Ref)
    requires WellFormed(db)
    ensures WellFormed(Run(db, steps))
    ensures r in db.collections ==>
              r in Run(db, steps).collections && SameReceipt(db.collections[r], Run(db, steps).collections[r])
    ensures r in db.deposits ==>
              r in Run(db, steps).deposits && SameReceipt(db.deposits[r], Run(db, steps).deposits[r])
    ensures r in db.transfers ==>
              r in Run(db, steps).transfers && Run(db, steps).transfers[r] == db.transfers[r]
    ensures db.accounts.Keys <= Run(db, steps).accounts.Keys
  {
    if steps != [] {
      hide WellFormed, Next;
      var mid, s := Run(db, steps[..|steps| - 1]), steps[|steps| - 1];
      RowsKeptInRun(db, steps[..|steps| - 1], r);
      RunWellFormed(db, steps);
      StepAccounts(mid, s);
      if r in db.collections {
        StepKeepsCollection(mid, s, r);
      }
      if r in db.deposits {
        StepKeepsDeposit(mid, s, r);
      }
      if r in db.transfers {
        StepKeepsTransfer(mid, s, r);
      }
    }
  }

  /** A collection request whose row was stored, declined or not, keeps its client reference from being used again. */
  lemma {:induction false} RepeatedCollection(db: Db, ref: Ref, a: AccountId, cents: Cents, client: Ref,
                                              answer: ProviderAnswer, later: seq<Step>, ref': Ref, cents': Cents,
                                              answer': ProviderAnswer)
    requires WellFormed(db) && cents >= 0
    requires InitiateCollection(db, ref, a, cents, Some(client), answer).error in {None, Some(ProviderError)}
    ensures var db' := Run(InitiateCollection(db, ref, a, cents, Some(client), answer).db, later);
            InitiateCollection(db', ref', a, cents', Some(client), answer') == Outcome(db', Some(DuplicateReference))
  {
    var db1 := InitiateCollection(db, ref, a, cents, Some(client), answer).db;
    var db' := Run(db1, later);
    ReceiptStored(db, ref, a, cents, Some(client), answer);
    StartReceiptKept(db, ref, a, cents, Some(client), answer);
    hide InitiateCollection, InitiateDeposit, QuietStep, Run, FirstStatus, WellFormed;
    RowsKeptInRun(db1, later, ref);
    FormedWallets(db');
    ReceiptStored(db', ref', a, cents', Some(client), answer');
  }

  lemma {:induction false} RepeatedDeposit(db: Db, ref: Ref, a: AccountId, cents: Cents, client: Ref,
                                           answer: ProviderAnswer, later: seq<Step>, ref': Ref, cents': Cents,
                                           answer': ProviderAnswer)
    requires WellFormed(db) && cents >= 0
    requires InitiateDeposit(db, ref, a, cents, Some(client), answer).error in {None, Some(ProviderError)}
    ensures var db' := Run(InitiateDeposit(db, ref, a, cents, Some(client), answer).db, later);
            InitiateDeposit(db', ref', a, cents', Some(client), answer') == Outcome(db', Some(DuplicateReference))
  {
    var db1 := InitiateDeposit(db, ref, a, cents, Some(client), answer).db;
    var db' := Run(db1, later);
    ReceiptStored(db, ref, a, cents, Some(client), answer);
    StartReceiptKept(db, ref, a, cents, Some(client), answer);
    hide InitiateCollection, InitiateDeposit, QuietStep, Run, FirstStatus, WellFormed;
    RowsKeptInRun(db1, later, ref);
    FormedWallets(db');
    ReceiptStored(db', ref', a, cents', Some(client), answer');
  }

  lemma FormedWallets(db: Db)
    requires WellFormed(db)
    ensures WalletsFormed(db.books.wallets, db.accounts)
  {
  }

  /**
   A second transfer with the client reference of an accepted one never happens. It is told so, unless one of
   the wallets is frozen by then, which is found first.
   */
  lemma {:induction false} RepeatedTransfer(db: Db, a: AccountId, cents: Cents, client: Ref, ref: Ref, later: seq<Step>,
                                            cents': Cents, ref': Ref)
    requires WellFormed(db) && cents >= 0
    requires TransferFunds(db, a, cents, Some(client), ref).error == None
    ensures var db' := Run(TransferFunds(db, a, cents, Some(client), ref).db, later);
            && WalletKey(a, CollectionWallet) in db'.books.wallets
            && WalletKey(a, DisbursementWallet) in db'.books.wallets
            && TransferFunds(db', a, cents', Some(client), ref')
               == Outcome(db', Some(if db'.books.wallets[WalletKey(a, CollectionWallet)].status == FrozenWallet
                                       || db'.books.wallets[WalletKey(a, DisbursementWallet)].status == FrozenWallet
                                    then WalletFrozen else DuplicateReference))
  {
    var db1 := TransferFunds(db, a, cents, Some(client), ref).db;
    var db' := Run(db1, later);
    hide QuietStep, Run, WellFormed, TransferLegs, Fees.ComputeTransferFee, TransferCharge, TransferFunds, Transferred;
    TransferCharged(db, a, cents, Some(client), ref);
    TransferKept(db, a, cents, Some(client), ref);
    TransferNeeds(db, a, cents, Some(client), ref);
    RowsKeptInRun(db1, later, ref);
    FormedWallets(db');
    assert HasTransfer(db', a, client);
    KnownTransferRefused(db', a, cents', client, ref');
  }

  lemma TransferNeeds(db: Db, a: AccountId, cents: Cents, client: Option<Ref>, ref: Ref)
    requires TransferFunds(db, a, cents, client, ref).error == None
    ensures a in db.accounts && TransferFunds(db, a, cents, client, ref).db.accounts == db.accounts
  {
  }

  lemma KnownTransferRefused(db: Db, a: AccountId, cents: Cents, client: Ref, ref: Ref)
    requires a in db.accounts && HasTransfer(db, a, client)
    requires WalletKey(a, CollectionWallet) in db.books.wallets && WalletKey(a, DisbursementWallet) in db.books.wallets
    ensures TransferFunds(db, a, cents, Some(client), ref)
         == Outcome(db, Some(if db.books.wallets[WalletKey(a, CollectionWallet)].status == FrozenWallet
                                || db.books.wallets[WalletKey(a, DisbursementWallet)].status == FrozenWallet
                             then WalletFrozen else DuplicateReference))
  {
    hide TransferLegs, Fees.ComputeTransferFee;
  }
}
