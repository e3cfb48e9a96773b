/**
 What holds in every state the engine can reach: the tables refer to each other properly, schedules
 are bounded, and the books go through ledger steps only.
 */
module EngineLaws {
  import opened Wrappers
  import opened Totals
  import opened ProviderStatus
  import opened Tables
  import opened FeeSchedules
  import opened Wallets
  import opened TxnStatus
  import opened Disbursements
  import opened Settlements
  import opened Collections
  import opened Engine
  import opened LedgerLaws
  import Fees

  ghost predicate PayoutFormed(accounts: map<AccountId, Account>, p: Payout) {
    && p.account in accounts && p.debited
    && p.amount >= 0 && p.feeAmount.GetOr(0) >= 0
    && (p.batch.Some? ==> p.feeAmount.None? && p.sourceWallet.DisbursementWallet?)
  }

  /** Exactly the known accounts have wallets, and they have both. */
  ghost predicate WalletsFormed(wallets: map<WalletKey, Wallet>, accounts: map<AccountId, Account>) {
    forall k :: k in wallets <==> k.account in accounts
  }

  ghost predicate FeesFormed(fees: map<AccountId, Fees.FeeConfig>) {
    forall a :: a in fees ==> Fees.Bounded(fees[a])
  }

  ghost predicate ReceiptsFormed(table: map<Ref, Receipt>, accounts: map<AccountId, Account>) {
    forall r :: r in table ==> table[r].account in accounts
  }

  ghost predicate PayoutsFormed(payouts: map<Ref, Payout>, accounts: map<AccountId, Account>) {
    forall r :: r in payouts ==> PayoutFormed(accounts, payouts[r])
  }

  ghost predicate WellFormed(db: Db) {
    && WalletsFormed(db.books.wallets, db.accounts)
    && FeesFormed(db.fees)
    && ReceiptsFormed(db.collections, db.accounts)
    && ReceiptsFormed(db.deposits, db.accounts)
    && PayoutsFormed(db.payouts, db.accounts)
  }

  /** A payout's wallet exists, and what it owes has no sign. */
  lemma PayoutRowFormed(db: Db, r: Ref)
    requires WellFormed(db) && r in db.payouts
    ensures PayoutFormed(db.accounts, db.payouts[r])
    ensures SourceOf(db.payouts[r]) in db.books.wallets && Owed(db.payouts[r]) >= 0
  {
    assert PayoutFormed(db.accounts, db.payouts[r]);
  }

  /** A receipt's account has a fee schedule or can get one. */
  lemma ReceiptConfig(db: Db, r: Ref)
    requires WellFormed(db)
    ensures r in db.collections ==> HasConfig(db, db.collections[r].account)
  {
  }

  /** Fees are never negative, and what is left of an amount after its fee is not either. */
  lemma FeeBoundsOf(db: Db, account: AccountId, amount: Cents)
    requires FeesFormed(db.fees) && amount >= 0
    ensures 0 <= DisbursementFeeOf(db, account, amount) <= amount
    ensures 0 <= Fees.ComputeTransferFee(ConfigOf(db, account), amount).amount <= amount
  {
    var config := ConfigOf(db, account);
    assert Fees.Bounded(config);
    assert 0 <= Fees.Bps(config, Fees.DisbursementBelow) <= Fees.MAX_BPS;
    assert 0 <= Fees.Bps(config, Fees.DisbursementAbove) <= Fees.MAX_BPS;
    assert 0 <= Fees.Bps(config, Fees.TransferRate) <= Fees.MAX_BPS;
    Fees.FeeBounds(amount, config.disbursementBelowBps);
    Fees.FeeBounds(amount, config.disbursementAboveBps);
    Fees.FeeBounds(amount, config.transferBps);
  }

  lemma ConfigFormed(db: Db, account: AccountId)
    requires FeesFormed(db.fees)
    ensures FeesFormed(EnsureConfig(db, account).fees)
  {
  }

  lemma {:induction false} WithItemsFormed(payouts: map<Ref, Payout>, accounts: map<AccountId, Account>,
                                           account: AccountId, batch: Ref, items: seq<BatchItem>, now: nat)
    requires PayoutsFormed(payouts, accounts) && account in accounts
    requires forall i :: 0 <= i < |items| ==> items[i].amount >= 0
    ensures PayoutsFormed(WithItems(payouts, account, batch, items, now), accounts)
  {
    if items != [] {
      WithItemsFormed(payouts, accounts, account, batch, items[..|items| - 1], now);
    }
  }

  ghost predicate Kept(db: Db, db': Db) {
    WellFormed(db') && QuietStep(db.books, db'.books)
  }

  /** A single movement opens no wallets and is a quiet step of the books. */
  lemma MoveQuiet(b: Books, m: Movement, accounts: map<AccountId, Account>)
    requires m.ignoreFrozen ==> !IsDebit(m)
    requires WalletsFormed(b.wallets, accounts)
    ensures QuietStep(b, b) && QuietStep(b, After(b, Move(b, m)))
    ensures WalletsFormed(After(b, Move(b, m)).wallets, accounts)
  {
    assert Move(b, m).Posted? ==> ByMove(b, After(b, Move(b, m)), m);
  }

  lemma OpenAccountKept(db: Db, a: AccountId, settings: Account, fees: Option<Fees.FeePatch>)
    requires WellFormed(db) && a !in db.accounts
    ensures Kept(db, Opened(db, a, settings, fees))
  {
    if fees.Some? {
      Fees.ClampedMeaning(fees.value);
    }
    assert NoWallets(db.books, a);
    var db' := Opened(db, a, settings, fees);
    forall k: WalletKey ensures k in db'.books.wallets <==> k.account in db'.accounts {
      match k.kind
      case CollectionWallet => assert k == WalletKey(k.account, CollectionWallet);
      case DisbursementWallet => assert k == WalletKey(k.account, DisbursementWallet);
    }
  }

  lemma PatchBounded(config: Fees.FeeConfig, patch: Fees.FeePatch)
    ensures Fees.Bounded(Fees.DEFAULT_CONFIG)
    ensures Fees.Bounded(config) && Fees.Acceptable(patch) ==> Fees.Bounded(Fees.Patched(config, patch))
  {
    if Fees.Acceptable(patch) {
      Fees.PatchedMeaning(config, patch);
    }
  }

  lemma UpdateFeesKept(db: Db, a: AccountId, patch: Fees.FeePatch)
    requires WellFormed(db)
    ensures Kept(db, FeesUpdated(db, a, patch))
  {
    hide PayoutsFormed, ReceiptsFormed, WalletsFormed, QuietStep, Fees.Patched, Fees.Bounded, Fees.Acceptable;
    Still(db);
    ConfigFormed(db, a);
    PatchBounded(ConfigOf(db, a), patch);
  }

  lemma TransferKept(db: Db, a: AccountId, cents: Cents, client: Option<Ref>, ref: Ref)
    requires WellFormed(db)
    ensures Kept(db, TransferFunds(db, a, cents, client, ref).db)
  {
    hide Fees.ComputeTransferFee, PayoutsFormed, ReceiptsFormed, FeesFormed, WalletsFormed, HasTransfer, QuietStep;
    hide TransferLegs;
    Still(db);
    if cents > 0 {
      FeeBoundsOf(db, a, cents);
      ConfigFormed(db, a);
      LegsQuiet(db.books, a, cents, Fees.ComputeTransferFee(ConfigOf(db, a), cents).amount, ref, db.accounts);
    }
  }

  lemma LegsQuiet(b: Books, a: AccountId, amount: Cents, fee: Cents, r: Ref, accounts: map<AccountId, Account>)
    requires amount > 0 && fee >= 0 && WalletsFormed(b.wallets, accounts)
    ensures TransferLegs(b, a, amount, fee, r).Posted? ==>
              var b' := TransferLegs(b, a, amount, fee, r).books;
              QuietStep(b, b') && WalletsFormed(b'.wallets, accounts)
  {
    assert TransferLegs(b, a, amount, fee, r).Posted? ==>
             ByTransfer(b, TransferLegs(b, a, amount, fee, r).books, a, amount, fee, r);
  }

  /** A hold for a payout is one debit and one row. */
  lemma HoldKept(db: Db, m: Movement, ref: Ref, p: Payout)
    requires WellFormed(db) && !m.ignoreFrozen && PayoutFormed(db.accounts, p)
    ensures Kept(db, HoldPayout(db, m, ref, p).db)
  {
    hide Move, QuietStep;
    MoveQuiet(db.books, m, db.accounts);
  }

  lemma PayoutKept(db: Db, ref: Ref, a: AccountId, cents: Cents, client: Option<Ref>)
    requires WellFormed(db) && cents >= 0
    ensures Kept(db, CreatePayout(db, ref, a, cents, client).db)
  {
    hide HoldPayout, Fees.ComputeFee, Fees.ComputeTransferFee, PayoutsFormed, ReceiptsFormed, FeesFormed, WalletsFormed;
    hide QuietStep, HasPayout;
    Still(db);
    FeeBoundsOf(db, a, cents);
    ConfigFormed(db, a);
    if a in db.accounts {
      var fee := DisbursementFeeOf(db, a, cents);
      HoldKept(EnsureConfig(db, a), PayoutDebitOf(a, ref, cents + fee), ref,
               CustomerPayout(a, client, cents, fee, db.books.clock));
    }
  }

  lemma WithdrawalKept(db: Db, ref: Ref, a: AccountId, cents: Cents, client: Option<Ref>, settlement: bool, min: Cents)
    requires WellFormed(db) && cents >= 0
    ensures Kept(db, CreateWithdrawal(db, ref, a, cents, client, settlement, min).db)
  {
    hide HoldPayout, DisbursementFeeOf, Fees.ComputeTransferFee, PayoutsFormed, ReceiptsFormed, FeesFormed;
    hide WalletsFormed, QuietStep;
    Still(db);
    FeeBoundsOf(db, a, cents);
    ConfigFormed(db, a);
    if a in db.accounts {
      var fee := DisbursementFeeOf(db, a, cents);
      HoldKept(EnsureConfig(db, a), WithdrawalOf(a, ref, cents + fee), ref,
               SettlementPayout(a, client, SettlementWithdrawal, cents, fee, db.books.clock));
    }
  }

  lemma BatchKept(db: Db, ref: Ref, a: AccountId, items: seq<BatchItem>)
    requires WellFormed(db) && forall i :: 0 <= i < |items| ==> items[i].amount >= 0
    ensures Kept(db, CreateBatch(db, ref, a, items).db)
  {
    hide WithItems, ReceiptsFormed, FeesFormed, WalletsFormed, PayoutsFormed, QuietStep, Move;
    MoveQuiet(db.books, BatchHoldOf(a, ref, TotalAmount(items)), db.accounts);
    if a in db.accounts {
      WithItemsFormed(db.payouts, db.accounts, a, ref, items, db.books.clock);
    }
  }

  lemma SweepKept(db: Db, ref: Ref, a: AccountId, start: nat, min: Cents, dryRun: bool)
    requires WellFormed(db) && a in db.accounts
    ensures Kept(db, SweepAccount(db, ref, a, start, min, dryRun).0)
    ensures Kept(db, SweepNow(db, ref, a, min).db)
  {
    hide DisbursementFeeOf, HoldPayout, ReceiptsFormed, FeesFormed, WalletsFormed, PayoutsFormed, SweptSince, QuietStep;
    hide Fees.ComputeTransferFee;
    Still(db);
    var balance := CollectionBalance(db, a);
    if balance > 0 {
      FeeBoundsOf(db, a, balance);
      ConfigFormed(db, a);
      var fee := DisbursementFeeOf(db, a, balance);
      HoldKept(EnsureConfig(db, a), WithdrawalOf(a, ref, balance), ref,
               SettlementPayout(a, SWEEP_CLIENT, AutoSweep, balance - fee, fee, db.books.clock));
    }
  }

  lemma PutReceiptFormed(table: map<Ref, Receipt>, accounts: map<AccountId, Account>, ref: Ref, row: Receipt)
    requires ReceiptsFormed(table, accounts) && ref in table && row.account == table[ref].account
    ensures ReceiptsFormed(table[ref := row], accounts)
  {
  }

  lemma CollectionRecordKept(db: Db, ref: Ref, next: TxStatus, collected: Option<Cents>)
    requires WellFormed(db)
    ensures Kept(db, ApplyCollection(db, ref, next, collected).db)
  {
    hide CollectionFeeOf, FeesFormed, WalletsFormed, PayoutsFormed, ReceiptsFormed, QuietStep, Move;
    Still(db);
    if ref in db.collections {
      var row := db.collections[ref];
      ConfigFormed(db, row.account);
      var fee := CollectionFeeOf(db, row, collected);
      PutReceiptFormed(db.collections, db.accounts, ref, Restated(row, next, collected));
      PutReceiptFormed(db.collections, db.accounts, ref, CreditedRow(row, next, collected, Some(fee)));
      MoveQuiet(db.books, CollectionCreditOf(ref, row, GrossOf(row, collected) - fee), db.accounts);
    }
  }

  lemma DepositRecordKept(db: Db, ref: Ref, next: TxStatus, collected: Option<Cents>)
    requires WellFormed(db)
    ensures Kept(db, ApplyDeposit(db, ref, next, collected).db)
  {
    hide FeesFormed, WalletsFormed, PayoutsFormed, ReceiptsFormed, QuietStep, Move;
    Still(db);
    if ref in db.deposits {
      var row := db.deposits[ref];
      PutReceiptFormed(db.deposits, db.accounts, ref, Restated(row, next, collected));
      PutReceiptFormed(db.deposits, db.accounts, ref, CreditedRow(row, next, collected, None));
      MoveQuiet(db.books, DepositCreditOf(ref, row, GrossOf(row, collected)), db.accounts);
    }
  }

  lemma PutPayoutFormed(payouts: map<Ref, Payout>, accounts: map<AccountId, Account>, ref: Ref, next: TxStatus)
    requires PayoutsFormed(payouts, accounts) && ref in payouts
    ensures PayoutsFormed(payouts[ref := PayoutAfter(payouts[ref], next)], accounts)
  {
  }

  lemma PayoutRecordKept(db: Db, ref: Ref, next: TxStatus)
    requires WellFormed(db)
    ensures Kept(db, ApplyPayout(db, ref, next).db)
  {
    hide Recount, PayoutAfter, ReceiptsFormed, FeesFormed, WalletsFormed, PayoutsFormed, QuietStep, Move;
    Still(db);
    if ref in db.payouts {
      PutPayoutFormed(db.payouts, db.accounts, ref, next);
      MoveQuiet(db.books, RefundOf(ref, db.payouts[ref]), db.accounts);
    }
  }

  lemma Still(db: Db)
    requires WellFormed(db)
    ensures Kept(db, db)
  {
  }

  lemma TickKept(db: Db, elapsed: nat)
    requires WellFormed(db)
    ensures Kept(db, db.(books := db.books.(clock := db.books.clock + elapsed)))
  {
    var b' := db.books.(clock := db.books.clock + elapsed);
    assert db.books.clock <= b'.clock && b' == db.books.(clock := b'.clock);
  }

  lemma ManualMoveKept(db: Db, m: Movement)
    requires WellFormed(db) && !m.ignoreFrozen
    ensures Kept(db, db.(books := After(db.books, Move(db.books, m))))
  {
    hide Move;
    MoveQuiet(db.books, m, db.accounts);
  }

  lemma ConfigureKept(db: Db, a: AccountId, settings: Account)
    requires WellFormed(db) && a in db.accounts
    ensures Kept(db, db.(accounts := db.accounts[a := settings]))
  {
  }

  lemma AddReceiptFormed(table: map<Ref, Receipt>, accounts: map<AccountId, Account>, ref: Ref, a: AccountId,
                         cents: Cents, client: Option<Ref>, answer: ProviderAnswer)
    requires ReceiptsFormed(table, accounts)
    ensures a in accounts ==> ReceiptsFormed(table[ref := NewReceipt(a, client, cents, answer)], accounts)
  {
  }

  lemma StartReceiptKept(db: Db, ref: Ref, a: AccountId, cents: Cents, client: Option<Ref>, answer: ProviderAnswer)
    requires WellFormed(db)
    ensures Kept(db, InitiateCollection(db, ref, a, cents, client, answer).db)
    ensures Kept(db, InitiateDeposit(db, ref, a, cents, client, answer).db)
  {
    hide NewReceipt, HasReceipt, QuietStep, FeesFormed, PayoutsFormed, WalletsFormed, ReceiptsFormed;
    Still(db);
    AddReceiptFormed(db.collections, db.accounts, ref, a, cents, client, answer);
    AddReceiptFormed(db.deposits, db.accounts, ref, a, cents, client, answer);
  }

  /** Every step but a freeze keeps the tables well formed and makes at most one quiet step of the books. */
  lemma StepKept(db: Db, s: Step)
    requires WellFormed(db) && !s.SetWalletFrozen?
    ensures Kept(db, Next(db, s))
  {
    hide Kept, WellFormed, TransferFunds, CreatePayout, CreateWithdrawal, CreateBatch, SweepAccount;
    hide FeesUpdated, Opened;
    hide ApplyCollection, ApplyDeposit, ApplyPayout, InitiateCollection, InitiateDeposit, Move;
    Still(db);
    if Admissible(s) {
      match s
      case OpenAccount(a, settings, fees) =>
        if a !in db.accounts {
          OpenAccountKept(db, a, settings, fees);
        }
      case ConfigureAccount(a, settings) =>
        if a in db.accounts {
          ConfigureKept(db, a, settings);
        }
      case UpdateFees(a, patch) => UpdateFeesKept(db, a, patch);
      case Tick(elapsed) => TickKept(db, elapsed);
      case ManualMove(k, deposit, cents, note) => ManualMoveKept(db, ManualMovement(k, deposit, cents, note));
      case StartTransfer(a, cents, client, ref) => TransferKept(db, a, cents, client, ref);
      case StartCollection(ref, a, cents, client, answer) => StartReceiptKept(db, ref, a, cents, client, answer);
      case StartDeposit(ref, a, cents, client, answer) => StartReceiptKept(db, ref, a, cents, client, answer);
      case StartPayout(ref, a, cents, client) => PayoutKept(db, ref, a, cents, client);
      case StartWithdrawal(ref, a, cents, client, settlement, min) =>
        WithdrawalKept(db, ref, a, cents, client, settlement, min);
      case StartBatch(ref, a, items) => BatchKept(db, ref, a, items);
      case Sweep(ref, a, start, min, dryRun) =>
        if a in db.accounts {
          SweepKept(db, ref, a, start, min, dryRun);
        }
      case AdminSweep(ref, a, min) =>
        if a in db.accounts {
          SweepKept(db, ref, a, 0, min, false);
        }
      case CollectionRecord(ref, next, collected) => CollectionRecordKept(db, ref, next, collected);
      case DepositRecord(ref, next, collected) => DepositRecordKept(db, ref, next, collected);
      case PayoutRecord(ref, next) => PayoutRecordKept(db, ref, next);
    }
  }

  lemma FreezeKept(db: Db, k: WalletKey, frozen: bool)
    requires WellFormed(db)
    ensures WellFormed(Next(db, SetWalletFrozen(k, frozen)))
    ensures LedgerStep(db.books, Next(db, SetWalletFrozen(k, frozen)).books)
  {
    if k in db.books.wallets {
      assert k in db.books.wallets && Next(db, SetWalletFrozen(k, frozen)).books == Freeze(db.books, k, frozen);
    }
  }

  /**
   The engine refines the ledger: each step keeps the tables well formed and changes the books by at
   most one ledger step.
   */
  lemma StepRefines(db: Db, s: Step)
    requires WellFormed(db)
    ensures WellFormed(Next(db, s)) && LedgerStep(db.books, Next(db, s).books)
  {
    if s.SetWalletFrozen? {
      FreezeKept(db, s.wallet, s.frozen);
    } else {
      hide Next, WellFormed, QuietStep;
      StepKept(db, s);
    }
  }

  /**
   Accounts are created once, with two empty wallets in use, and afterwards change by configuration only; no
   account and no wallet ever goes away.
   */
  lemma StepAccounts(db: Db, s: Step)
    ensures var db' := Next(db, s);
            db'.accounts == if s.OpenAccount? && s.account !in db.accounts then db.accounts[s.account := s.settings]
                            else if s.ConfigureAccount? && s.account in db.accounts
                            then db.accounts[s.account := s.settings] else db.accounts
    ensures s.OpenAccount? ==>
              var b, b' := db.books, Next(db, s).books;
              b' == if s.account in db.accounts then b
                    else b.(wallets := b.wallets[WalletKey(s.account, CollectionWallet) := Wallet(0, ActiveWallet)]
                                                [WalletKey(s.account, DisbursementWallet) := Wallet(0, ActiveWallet)])
    ensures s.Tick? ==> Next(db, s) == db.(books := db.books.(clock := db.books.clock + s.elapsed))
  {
    hide TransferFunds, CreatePayout, CreateWithdrawal, CreateBatch, SweepAccount, SweepNow, FeesUpdated, Move;
    hide ApplyCollection, ApplyDeposit, ApplyPayout, InitiateCollection, InitiateDeposit, Fees.Clamped;
  }

  /**
   A manual deposit or withdrawal goes through exactly when it is of something, on a wallet in use that covers
   what is withdrawn; it then adds one row with the manual mark.
   */
  lemma ManualMeaning(db: Db, k: WalletKey, deposit: bool, cents: Cents, note: Option<Ref>)
    requires cents >= 0
    ensures var db' := Next(db, ManualMove(k, deposit, cents, note));
            && db' == db.(books := db'.books)
            && if cents > 0 && k in db.books.wallets && db.books.wallets[k].status == ActiveWallet
                  && (deposit || db.books.wallets[k].balance >= cents)
               then OneRow(db.books, db'.books, k, if deposit then cents else -cents,
                           if deposit then Deposit else Withdrawal, note, true)
               else db' == db
  {
    MoveMeaning(db.books, ManualMovement(k, deposit, cents, note));
    hide Move, OneRow;
  }

  // ------------------------------- Whole runs -------------------------------

  /** In every state of every run no balance is negative and each wallet's rows chain up to its balance. */
  lemma {:induction false} RunSound(steps: seq<Step>, k: WalletKey)
    ensures WellFormed(Run(EMPTY, steps))
    ensures WalletSound(Run(EMPTY, steps).books, k)
  {
    if steps != [] {
      var front, s := steps[..|steps| - 1], steps[|steps| - 1];
      var db := Run(EMPTY, front);
      RunSound(front, k);
      StepRefines(db, s);
      StepSound(db.books, Next(db, s).books, k);
    }
  }

  lemma {:induction false} RunWellFormed(db: Db, steps: seq<Step>)
    requires WellFormed(db)
    ensures WellFormed(Run(db, steps))
  {
    if steps != [] {
      RunWellFormed(db, steps[..|steps| - 1]);
      StepRefines(Run(db, steps[..|steps| - 1]), steps[|steps| - 1]);
    }
  }

  /**
   Over every schedule a run can store, a fee lies between nothing and the amount and is off by at most
   half a cent from the exact rate.
   */
  lemma {:induction false} RunFeeBounds(steps: seq<Step>, account: AccountId, kind: Fees.FeeKind, amount: Cents)
    requires amount >= 0
    ensures var fee := Fees.ComputeFee(kind, ConfigOf(Run(EMPTY, steps), account), amount);
            && 0 <= fee.bps <= Fees.MAX_BPS && 0 <= fee.amount <= amount
            && Abs(20000 * fee.amount - 2 * (amount * fee.bps)) <= 10000
  {
    RunWellFormed(EMPTY, steps);
    hide Run;
    var config := ConfigOf(Run(EMPTY, steps), account);
    assert Fees.Bounded(config);
    assert 0 <= Fees.Bps(config, Fees.CollectionBelow) <= Fees.MAX_BPS;
    assert 0 <= Fees.Bps(config, Fees.CollectionAbove) <= Fees.MAX_BPS;
    assert 0 <= Fees.Bps(config, Fees.DisbursementBelow) <= Fees.MAX_BPS;
    assert 0 <= Fees.Bps(config, Fees.DisbursementAbove) <= Fees.MAX_BPS;
    Fees.FeeBounds(amount, Fees.TierBps(kind, config, amount < Fees.Threshold(kind, config)));
  }

  /** Reconciling ledger: in every reachable state the integrity check of every wallet is clean. */
  lemma {:induction false} RunLedgerIntegrity(steps: seq<Step>, k: WalletKey)
    requires k in Run(EMPTY, steps).books.wallets
    ensures var report := LedgerIntegrity(Run(EMPTY, steps).books, k);
            report.Some? && report.value.consistent && report.value.discrepancy == 0 && report.value.balance >= 0
  {
    RunSound(steps, k);
    SoundLedgerIntegrity(Run(EMPTY, steps).books, k);
  }

  /** From a freeze up to the next activation a wallet only ever gains. */
  lemma {:induction false} RunFrozenNoOutflow(db: Db, steps: seq<Step>, k: WalletKey)
    requires WellFormed(db) && k in db.books.wallets && db.books.wallets[k].status.FrozenWallet?
    requires SetWalletFrozen(k, false) !in steps
    ensures var b := Run(db, steps).books;
            k in b.wallets && b.wallets[k].status.FrozenWallet? && b.wallets[k].balance >= db.books.wallets[k].balance
  {
    if steps != [] {
      var front, s := steps[..|steps| - 1], steps[|steps| - 1];
      RunFrozenNoOutflow(db, front, k);
      RunWellFormed(db, front);
      var mid := Run(db, front);
      if !s.SetWalletFrozen? {
        StepKept(mid, s);
        FrozenNoOutflow(mid.books, Next(mid, s).books, k);
      }
    }
  }
}
