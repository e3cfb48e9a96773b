/**
 The accounting identity. At every moment of every run a wallet holds exactly what the business tables
 say it should: manual deposits less manual withdrawals, credited collections net of fee, credited
 deposits, transfers, less the payouts that were not refunded.
 */
module Accounting {
  import opened Wrappers
  import opened Totals
  import opened ProviderStatus
  import opened Tables
  import opened FeeSchedules
  import opened Wallets
  import opened TxnStatus
  import opened Disbursements
  import opened Settlements
  import opened Collections
  import opened Engine
  import opened LedgerLaws
  import opened EngineLaws
  import opened RowLaws
  import opened ReceiptLaws
  import opened Holds
  import Fees

  // ------------------------- What each row accounts for ----------------------

  function ManualOn(w: WalletKey): LedgerRow -> int {
    (row: LedgerRow) => if row.manual && row.wallet == w then row.amount else 0
  }

  /** A credited collection brings its gross amount less its fee; the ledger takes the absolute value. */
  function CollectionIn(w: WalletKey): Receipt -> int {
    (c: Receipt) =>
      if c.credited && WalletKey(c.account, CollectionWallet) == w then Abs(c.gross - c.feeAmount.GetOr(0)) else 0
  }

  function DepositIn(w: WalletKey): Receipt -> int {
    (d: Receipt) => if d.credited && WalletKey(d.account, DisbursementWallet) == w then Abs(d.gross) else 0
  }

  /** A transfer takes amount and fee from one wallet and brings the amount to the other. */
  function TransferNet(w: WalletKey): Transfer -> int {
    (t: Transfer) =>
      if WalletKey(t.account, CollectionWallet) == w then -(t.amount + t.feeAmount)
      else if WalletKey(t.account, DisbursementWallet) == w then t.amount
      else 0
  }

  function PayoutOut(w: WalletKey): Payout -> int {
    (p: Payout) => if !p.refunded && SourceOf(p) == w then Owed(p) else 0
  }

  ghost function Explained(db: Db, w: WalletKey): Cents {
    SumOf(db.books.ledger, ManualOn(w))
    + Total(db.collections, CollectionIn(w))
    + Total(db.deposits, DepositIn(w))
    + Total(db.transfers, TransferNet(w))
    - Total(db.payouts, PayoutOut(w))
  }

  /** What the business tables account for and the wallet does not hold. */
  ghost function Gap(db: Db, w: WalletKey): Cents {
    Explained(db, w) - BalanceOf(db.books, w)
  }

  ghost predicate Balanced(db: Db, w: WalletKey) {
    Gap(db, w) == 0
  }

  // ---------------------- What each change accounts for ---------------------

  /** The money in a wallet that manual movements do not explain. */
  ghost function Earned(b: Books, w: WalletKey): Cents {
    BalanceOf(b, w) - SumOf(b.ledger, ManualOn(w))
  }

  function Effect(b: Books, m: Movement, w: WalletKey): Cents {
    if Move(b, m).Posted? && m.wallet == w && !m.manual then Signed(m) else 0
  }

  lemma PostEarned(b: Books, m: Movement, amount: Cents, w: WalletKey)
    requires m.wallet in b.wallets
    ensures Earned(Post(b, m, amount), w) == Earned(b, w) + if m.wallet == w && !m.manual then amount else 0
  {
    SumOfAppend(b.ledger, Post(b, m, amount).ledger[|b.ledger|], ManualOn(w));
  }

  lemma MoveEarned(b: Books, m: Movement, w: WalletKey)
    ensures Earned(After(b, Move(b, m)), w) == Earned(b, w) + Effect(b, m, w)
  {
    if Move(b, m).Posted? {
      PostEarned(b, m, Signed(m), w);
    }
  }

  /** Status engine credits are never refused on an existing wallet, except that nothing is nothing. */
  lemma EngineCredit(b: Books, m: Movement, w: WalletKey)
    requires m.wallet in b.wallets && m.ignoreFrozen && !IsDebit(m) && !m.manual
    ensures Effect(b, m, w) == if m.wallet == w then Abs(m.amount) else 0
  {
  }

  /** A credit brings exactly what the collection's row starts to account for. */
  lemma CreditBalanced(db: Db, ref: Ref, row': Receipt, m: Movement, w: WalletKey)
    requires ref in db.collections && !db.collections[ref].credited
    requires m.wallet in db.books.wallets && m.ignoreFrozen && !IsDebit(m) && !m.manual
    requires row'.credited && m.wallet == WalletKey(row'.account, CollectionWallet)
    requires m.amount == row'.gross - row'.feeAmount.GetOr(0)
    ensures Gap(db.(collections := db.collections[ref := row'], books := After(db.books, Move(db.books, m))), w)
         == Gap(db, w)
  {
    hide Move, Effect;
    TotalPut(db.collections, ref, row', CollectionIn(w));
    MoveEarned(db.books, m, w);
    EngineCredit(db.books, m, w);
  }

  lemma CollectionRecordBalanced(db: Db, ref: Ref, next: TxStatus, collected: Option<Cents>, w: WalletKey)
    requires WellFormed(db)
    ensures Gap(ApplyCollection(db, ref, next, collected).db, w) == Gap(db, w)
  {
    hide CollectionFeeOf, Move, Gap, FeesFormed, PayoutsFormed;
    if ref in db.collections {
      var row := db.collections[ref];
      if ShouldCredit(row, next) {
        var fee := CollectionFeeOf(db, row, collected);
        FeesBalanced(db, EnsureConfig(db, row.account).fees, w);
        CreditBalanced(EnsureConfig(db, row.account), ref, CreditedRow(row, next, collected, Some(fee)),
                       CollectionCreditOf(ref, row, GrossOf(row, collected) - fee), w);
      } else {
        RestatedBalanced(db, ref, next, collected, w);
      }
    }
  }

  lemma RestatedBalanced(db: Db, ref: Ref, next: TxStatus, collected: Option<Cents>, w: WalletKey)
    requires ref in db.collections
    ensures Gap(db.(collections := db.collections[ref := Restated(db.collections[ref], next, collected)]), w)
         == Gap(db, w)
  {
    TotalPut(db.collections, ref, Restated(db.collections[ref], next, collected), CollectionIn(w));
  }

  lemma DepositRecordBalanced(db: Db, ref: Ref, next: TxStatus, collected: Option<Cents>, w: WalletKey)
    requires WellFormed(db)
    ensures Gap(ApplyDeposit(db, ref, next, collected).db, w) == Gap(db, w)
  {
    hide Move, Effect, FeesFormed, PayoutsFormed;
    if ref in db.deposits {
      var row := db.deposits[ref];
      var m := DepositCreditOf(ref, row, GrossOf(row, collected));
      TotalPut(db.deposits, ref, Restated(row, next, collected), DepositIn(w));
      TotalPut(db.deposits, ref, CreditedRow(row, next, collected, None), DepositIn(w));
      MoveEarned(db.books, m, w);
      EngineCredit(db.books, m, w);
    }
  }

  lemma RecountBalanced(db: Db, id: Ref, w: WalletKey)
    ensures Gap(Recount(db, id), w) == Gap(db, w)
  {
    hide Recounted;
  }

  /** A refund brings back exactly what the payout's row stops accounting for. */
  lemma RefundBalanced(db: Db, ref: Ref, next: TxStatus, w: WalletKey)
    requires ref in db.payouts && SourceOf(db.payouts[ref]) in db.books.wallets
    requires Owed(db.payouts[ref]) >= 0
    ensures var p := db.payouts[ref];
            Gap(db.(payouts := db.payouts[ref := PayoutAfter(p, next)],
                    books := if ShouldRefund(p, next) then After(db.books, Move(db.books, RefundOf(ref, p)))
                             else db.books), w)
            == Gap(db, w)
  {
    hide Move, Effect;
    var p := db.payouts[ref];
    TotalPut(db.payouts, ref, PayoutAfter(p, next), PayoutOut(w));
    MoveEarned(db.books, RefundOf(ref, p), w);
    EngineCredit(db.books, RefundOf(ref, p), w);
  }

  lemma PayoutRecordBalanced(db: Db, ref: Ref, next: TxStatus, w: WalletKey)
    requires WellFormed(db)
    ensures Gap(ApplyPayout(db, ref, next).db, w) == Gap(db, w)
  {
    hide Move, FeesFormed, ReceiptsFormed, Recount, Gap, PayoutAfter;
    if ref in db.payouts {
      var p := db.payouts[ref];
      assert PayoutFormed(db.accounts, p);
      RefundBalanced(db, ref, next, w);
      if p.batch.Some? {
        var books := if ShouldRefund(p, next) then After(db.books, Move(db.books, RefundOf(ref, p))) else db.books;
        RecountBalanced(db.(payouts := db.payouts[ref := PayoutAfter(p, next)], books := books), p.batch.value, w);
      }
    }
  }

  lemma FeesBalanced(db: Db, fees: map<AccountId, Fees.FeeConfig>, w: WalletKey)
    ensures Gap(db.(fees := fees), w) == Gap(db, w)
  {
  }

  /**
   A debit and the payout row it pays for. The identity survives the call exactly when the debit did not
   happen, or the reference was free, or another wallet paid.
   */
  lemma HoldBalanced(db: Db, m: Movement, ref: Ref, p: Payout, w: WalletKey)
    requires IsHold(m, ref) && Funds(m, p)
    ensures var lost := ref in db.payouts && w == m.wallet && Covered(db.books, m.wallet, m.amount);
            && Gap(HoldPayout(db, m, ref, p).db, w) == Gap(db, w) + (if lost then m.amount else 0)
            && (Balanced(db, w) ==> (Balanced(HoldPayout(db, m, ref, p).db, w) <==> !lost))
  {
    hide Paid, Covered;
    DebitIff(db.books, m, ref);
    MoveEarned(db.books, m, w);
    TotalPut(db.payouts, ref, p, PayoutOut(w));
    hide Move;
  }

  /** A step that starts one payout opens a gap of exactly what it loses. */
  lemma StartBalanced(db: Db, s: Step, w: WalletKey)
    requires WellFormed(db) && StartsOne(s) && Admissible(s)
    ensures Gap(Next(db, s), w) == Gap(db, w) + LostNow(db, s, OnWallet(w))
  {
    assert FeesFormed(db.fees);
    hide Next, HoldPayout, WellFormed, HoldOf, RowFor, Gap, Balanced;
    HoldShape(db, s);
    FeesBalanced(db, Next(db, s).fees, w);
    if HoldOf(db, s).Some? {
      HoldFits(db, s);
      HoldBalanced(db.(fees := Next(db, s).fees), HoldOf(db, s).value, s.ref, RowFor(db, s), w);
    }
  }

  lemma TransferBalanced(db: Db, a: AccountId, cents: Cents, client: Option<Ref>, ref: Ref, w: WalletKey)
    ensures Gap(TransferFunds(db, a, cents, client, ref).db, w) == Gap(db, w)
  {
    hide Fees.ComputeTransferFee, HasTransfer, Post;
    var fee := Fees.ComputeTransferFee(ConfigOf(db, a), cents).amount;
    if TransferLegs(db.books, a, cents, fee, ref).Posted? {
      var debited := Post(db.books, OutLeg(a, cents + fee, ref), -(cents + fee));
      PostEarned(db.books, OutLeg(a, cents + fee, ref), -(cents + fee), w);
      PostKeepsWallets(db.books, OutLeg(a, cents + fee, ref), -(cents + fee));
      PostEarned(debited, InLeg(a, cents, ref), cents, w);
      TotalPut(db.transfers, ref, Transfer(a, client, cents, fee), TransferNet(w));
    }
  }

  lemma PostKeepsWallets(b: Books, m: Movement, amount: Cents)
    requires m.wallet in b.wallets
    ensures Post(b, m, amount).wallets.Keys == b.wallets.Keys
  {
  }

  lemma {:induction false} ItemsFresh(payouts: map<Ref, Payout>, a: AccountId, batch: Ref, items: seq<BatchItem>,
                                      now: nat, r: Ref)
    requires r !in payouts && forall i :: 0 <= i < |items| ==> items[i].ref != r
    ensures r !in WithItems(payouts, a, batch, items, now)
  {
    if items != [] {
      ItemsFresh(payouts, a, batch, items[..|items| - 1], now, r);
    }
  }

  /** The rows of a new batch account for exactly the amount held. */
  lemma {:induction false} ItemsTotal(payouts: map<Ref, Payout>, a: AccountId, batch: Ref, items: seq<BatchItem>,
                                      now: nat, w: WalletKey)
    requires Distinct(items) && forall i :: 0 <= i < |items| ==> items[i].ref !in payouts
    ensures Total(WithItems(payouts, a, batch, items, now), PayoutOut(w))
         == Total(payouts, PayoutOut(w))
            + if WalletKey(a, DisbursementWallet) == w then TotalAmount(items) else 0
  {
    if items != [] {
      var front, last := items[..|items| - 1], items[|items| - 1];
      ItemsTotal(payouts, a, batch, front, now, w);
      ItemsFresh(payouts, a, batch, front, now, last.ref);
      TotalPut(WithItems(payouts, a, batch, front, now), last.ref, ItemPayout(a, batch, last, now), PayoutOut(w));
    }
  }

  lemma {:induction false} TotalAmountSign(items: seq<BatchItem>)
    requires forall i :: 0 <= i < |items| ==> items[i].amount >= 0
    ensures TotalAmount(items) >= 0
  {
    if items != [] {
      TotalAmountSign(items[..|items| - 1]);
    }
  }

  /** A batch request opens a gap of exactly what it loses: its hold, if a reference it needs is taken. */
  lemma BatchBalanced(db: Db, s: Step, w: WalletKey)
    requires s.StartBatch? && Admissible(s)
    ensures Gap(Next(db, s), w) == Gap(db, w) + LostNow(db, s, OnWallet(w))
  {
    BatchShape(db, s);
    TotalAmountSign(s.items);
    hide Next, TotalAmount, WithItems, Paid, Covered;
    if HoldOf(db, s).Some? {
      var m := HoldOf(db, s).value;
      DebitIff(db.books, m, s.ref);
      MoveEarned(db.books, m, w);
      if RefsFree(db, s.ref, s.items) {
        ItemsTotal(db.payouts, s.account, s.ref, s.items, db.books.clock, w);
      }
    }
    hide Move, RefsFree;
  }

  lemma OpenBalanced(db: Db, a: AccountId, settings: Account, fees: Option<Fees.FeePatch>, w: WalletKey)
    requires WellFormed(db) && a !in db.accounts
    ensures Gap(Opened(db, a, settings, fees), w) == Gap(db, w)
  {
  }

  lemma ManualMoveBalanced(db: Db, m: Movement, w: WalletKey)
    requires m.manual
    ensures Gap(db.(books := After(db.books, Move(db.books, m))), w) == Gap(db, w)
  {
    MoveEarned(db.books, m, w);
  }

  /** A new collection or deposit accounts for nothing yet. */
  lemma StartReceiptBalanced(db: Db, ref: Ref, a: AccountId, cents: Cents, client: Option<Ref>, answer: ProviderAnswer,
                             w: WalletKey)
    ensures Gap(InitiateCollection(db, ref, a, cents, client, answer).db, w) == Gap(db, w)
    ensures Gap(InitiateDeposit(db, ref, a, cents, client, answer).db, w) == Gap(db, w)
  {
    hide MapProviderStatus, HasReceipt;
    TotalPut(db.collections, ref, NewReceipt(a, client, cents, answer), CollectionIn(w));
    TotalPut(db.deposits, ref, NewReceipt(a, client, cents, answer), DepositIn(w));
  }

  /** Whatever leaves the tables, the ledger and the wallet's balance alone leaves the gap alone. */
  lemma SameMoney(db: Db, db': Db, w: WalletKey)
    requires db'.collections == db.collections && db'.deposits == db.deposits
    requires db'.transfers == db.transfers && db'.payouts == db.payouts
    requires db'.books.ledger == db.books.ledger && BalanceOf(db'.books, w) == BalanceOf(db.books, w)
    ensures Gap(db', w) == Gap(db, w)
  {
  }

  /** No step changes the gap of any wallet, except by what it loses. */
  lemma StepBalanced(db: Db, s: Step, w: WalletKey)
    requires WellFormed(db)
    ensures Gap(Next(db, s), w) == Gap(db, w) + LostNow(db, s, OnWallet(w))
  {
    if !Admissible(s) {
    } else if StartsOne(s) {
      StartBalanced(db, s, w);
    } else if s.StartBatch? {
      BatchBalanced(db, s, w);
    } else {
      OtherBalanced(db, s, w);
    }
  }

  lemma OtherBalanced(db: Db, s: Step, w: WalletKey)
    requires WellFormed(db) && !StartsOne(s) && !s.StartBatch?
    ensures Gap(Next(db, s), w) == Gap(db, w) && LostBy(db, s).None?
  {
    hide TransferFunds, Opened, FeesUpdated;
    hide Gap, ApplyCollection, ApplyDeposit, ApplyPayout, Move, WellFormed, InitiateCollection, InitiateDeposit;
    match s
    case OpenAccount(a, settings, fees) =>
      if a !in db.accounts {
        OpenBalanced(db, a, settings, fees, w);
      }
    case ConfigureAccount(a, settings) => SameMoney(db, db.(accounts := db.accounts[a := settings]), w);
    case UpdateFees(a, patch) => FeesBalanced(db, FeesUpdated(db, a, patch).fees, w);
    case Tick(elapsed) => SameMoney(db, db.(books := db.books.(clock := db.books.clock + elapsed)), w);
    case SetWalletFrozen(k, frozen) =>
      if k in db.books.wallets {
        SameMoney(db, db.(books := Freeze(db.books, k, frozen)), w);
      }
    case ManualMove(k, deposit, cents, note) => ManualMoveBalanced(db, ManualMovement(k, deposit, cents, note), w);
    case StartTransfer(a, cents, client, ref) => TransferBalanced(db, a, cents, client, ref, w);
    case StartCollection(ref, a, cents, client, answer) => StartReceiptBalanced(db, ref, a, cents, client, answer, w);
    case StartDeposit(ref, a, cents, client, answer) => StartReceiptBalanced(db, ref, a, cents, client, answer, w);
    case CollectionRecord(ref, next, collected) => CollectionRecordBalanced(db, ref, next, collected, w);
    case DepositRecord(ref, next, collected) => DepositRecordBalanced(db, ref, next, collected, w);
    case PayoutRecord(ref, next) => PayoutRecordBalanced(db, ref, next, w);
    case _ =>
  }

  /**
   The accounting identity over every run, for every wallet: the balance and what covered holds on taken
   references have lost are what the tables account for. So the balance alone is, exactly when the run has
   lost nothing on the wallet.
   */
  lemma {:induction false} RunBalanced(steps: seq<Step>, w: WalletKey)
    ensures BalanceOf(Run(EMPTY, steps).books, w) + Lost(steps, OnWallet(w)) == Explained(Run(EMPTY, steps), w)
    ensures Balanced(Run(EMPTY, steps), w) <==> NeverLoses(steps, OnWallet(w))
  {
    RunGap(steps, w);
    LostNothingIff(steps, OnWallet(w));
  }

  lemma {:induction false} RunGap(steps: seq<Step>, w: WalletKey)
    ensures Gap(Run(EMPTY, steps), w) == Lost(steps, OnWallet(w))
  {
    if steps != [] {
      var front := steps[..|steps| - 1];
      RunGap(front, w);
      RunWellFormed(EMPTY, front);
      hide Gap, LostNow, Next, WellFormed;
      StepBalanced(Run(EMPTY, front), steps[|steps| - 1], w);
    }
  }

  // --------------------- The identity in business terms ---------------------

  function CollectionNet(w: WalletKey): Receipt -> int {
    (c: Receipt) =>
      if c.credited && WalletKey(c.account, CollectionWallet) == w then c.gross - c.feeAmount.GetOr(0) else 0
  }

  function DepositNet(w: WalletKey): Receipt -> int {
    (d: Receipt) => if d.credited && WalletKey(d.account, DisbursementWallet) == w then d.gross else 0
  }

  /**
   The accounting identity with gross less fee for collections and the full amount for deposits, on a wallet
   that has lost some holds.
   */
  ghost predicate NetIdentity(db: Db, w: WalletKey, lost: Cents) {
    BalanceOf(db.books, w) + lost == SumOf(db.books.ledger, ManualOn(w))
                              + Total(db.collections, CollectionNet(w))
                              + Total(db.deposits, DepositNet(w))
                              + Total(db.transfers, TransferNet(w))
                              - Total(db.payouts, PayoutOut(w))
  }

  /** What a row credits to the wallet is not negative. */
  predicate RowFits(db: Db, r: Ref, w: WalletKey) {
    && (r in db.collections ==> CollectionIn(w)(db.collections[r]) == CollectionNet(w)(db.collections[r]))
    && (r in db.deposits ==> DepositIn(w)(db.deposits[r]) == DepositNet(w)(db.deposits[r]))
  }

  /**
   Known before the call: if the record credits the wallet, the fee on the record's amount does not exceed
   the gross amount of the collection, or the amount of the deposit is not negative.
   */
  predicate RecordFits(db: Db, s: Step, w: WalletKey) {
    && (s.CollectionRecord? && s.ref in db.collections ==>
          var row := db.collections[s.ref];
          ShouldCredit(row, s.next) && !row.status.Success? && WalletKey(row.account, CollectionWallet) == w
          ==> CollectionFeeOf(db, row, s.collected) <= GrossOf(row, s.collected))
    && (s.DepositRecord? && s.ref in db.deposits ==>
          var row := db.deposits[s.ref];
          ShouldCredit(row, s.next) && !row.status.Success? && WalletKey(row.account, DisbursementWallet) == w
          ==> GrossOf(row, s.collected) >= 0)
  }

  predicate RunFits(steps: seq<Step>, w: WalletKey) {
    forall i :: 0 <= i < |steps| ==> RecordFits(Run(EMPTY, steps[..i]), steps[i], w)
  }

  /** The ledger's absolute values never undercut the business terms, and meet them where every row fits. */
  lemma NetIffRowsFit(db: Db, w: WalletKey)
    ensures NetIdentity(db, w, Gap(db, w)) <==> forall r :: RowFits(db, r, w)
  {
    hide Total, SumOf;
    TotalAbove(db.collections, CollectionIn(w), CollectionNet(w));
    TotalAbove(db.deposits, DepositIn(w), DepositNet(w));
    if forall r :: RowFits(db, r, w) {
      forall r | r in db.collections
        ensures CollectionIn(w)(db.collections[r]) == CollectionNet(w)(db.collections[r])
      {
        assert RowFits(db, r, w);
      }
      forall r | r in db.deposits ensures DepositIn(w)(db.deposits[r]) == DepositNet(w)(db.deposits[r]) {
        assert RowFits(db, r, w);
      }
    }
  }

  lemma CollectionRecordFits(db: Db, r: Ref, next: TxStatus, collected: Option<Cents>, w: WalletKey)
    requires WellFormed(db)
    ensures RowFits(ApplyCollection(db, r, next, collected).db, r, w)
       <==> RowFits(db, r, w) && RecordFits(db, CollectionRecord(r, next, collected), w)
  {
    hide ApplyCollection, CollectionFeeOf, GrossOf, WellFormed, HasConfig;
    ReceiptConfig(db, r);
    CollectionRecordShape(db, r, next, collected);
  }

  lemma DepositRecordFits(db: Db, r: Ref, next: TxStatus, collected: Option<Cents>, w: WalletKey)
    ensures RowFits(ApplyDeposit(db, r, next, collected).db, r, w)
       <==> RowFits(db, r, w) && RecordFits(db, DepositRecord(r, next, collected), w)
  {
    DepositRecordShape(db, r, next, collected);
    hide ApplyDeposit, GrossOf;
  }

  /** A row keeps fitting or failing to fit unless its own record credits it. */
  lemma StepRowFits(db: Db, s: Step, r: Ref, w: WalletKey)
    requires WellFormed(db)
    ensures RowFits(Next(db, s), r, w)
       <==> RowFits(db, r, w) && ((s.CollectionRecord? || s.DepositRecord?) && s.ref == r ==> RecordFits(db, s, w))
  {
    if s.CollectionRecord? && s.ref == r {
      CollectionRecordFits(db, r, s.next, s.collected, w);
      hide ApplyCollection, WellFormed, RowFits, RecordFits;
    } else if s.DepositRecord? && s.ref == r {
      DepositRecordFits(db, r, s.next, s.collected, w);
      hide ApplyDeposit, WellFormed, RowFits, RecordFits;
    } else {
      hide Next, WellFormed;
      if s.StartCollection? && s.ref == r {
        StartCollectionRow(db, s, r);
      } else {
        CollectionFrame(db, s, r);
      }
      if s.StartDeposit? && s.ref == r {
        StartDepositRow(db, s, r);
      } else {
        DepositFrame(db, s, r);
      }
    }
  }

  lemma {:induction false} RowsFitIff(steps: seq<Step>, w: WalletKey)
    ensures (forall r :: RowFits(Run(EMPTY, steps), r, w)) <==> RunFits(steps, w)
  {
    if steps != [] {
      var n := |steps| - 1;
      var front, s := steps[..n], steps[n];
      var db := Run(EMPTY, front);
      RowsFitIff(front, w);
      RunWellFormed(EMPTY, front);
      RunFitsFront(steps, w);
      hide Next, RecordFits, RunFits, RowFits, WellFormed;
      forall r ensures RowFits(Run(EMPTY, steps), r, w)
                  <==> RowFits(db, r, w)
                       && ((s.CollectionRecord? || s.DepositRecord?) && s.ref == r ==> RecordFits(db, s, w))
      {
        StepRowFits(db, s, r, w);
      }
      if s.CollectionRecord? || s.DepositRecord? {
        assert RowFits(Run(EMPTY, steps), s.ref, w) <==> RowFits(db, s.ref, w) && RecordFits(db, s, w);
      }
    }
  }

  lemma RunFitsFront(steps: seq<Step>, w: WalletKey)
    requires steps != []
    ensures var n := |steps| - 1;
            RunFits(steps, w) <==> RunFits(steps[..n], w) && RecordFits(Run(EMPTY, steps[..n]), steps[n], w)
    ensures var s := steps[|steps| - 1];
            !s.CollectionRecord? && !s.DepositRecord? ==> RecordFits(Run(EMPTY, steps[..|steps| - 1]), s, w)
  {
    hide Run;
    var n := |steps| - 1;
    assert forall i :: 0 <= i < n ==> steps[..n][..i] == steps[..i];
    if RunFits(steps[..n], w) && RecordFits(Run(EMPTY, steps[..n]), steps[n], w) {
      forall i | 0 <= i < |steps| ensures RecordFits(Run(EMPTY, steps[..i]), steps[i], w) {
        if i < n {
          assert RecordFits(Run(EMPTY, steps[..n][..i]), steps[..n][i], w);
        }
      }
    }
    if RunFits(steps, w) {
      forall i | 0 <= i < n ensures RecordFits(Run(EMPTY, steps[..n][..i]), steps[..n][i], w) {
        assert RecordFits(Run(EMPTY, steps[..i]), steps[i], w);
      }
    }
  }

  /**
   Over any run, a wallet's balance is manual deposits less manual withdrawals, plus credited collections
   as gross less fee, credited deposits and transfers, less unrefunded payouts and lost holds, exactly when
   every record that credited the wallet came with a fee within the gross amount.
   */
  lemma {:induction false} RunNetIff(steps: seq<Step>, w: WalletKey)
    ensures NetIdentity(Run(EMPTY, steps), w, Lost(steps, OnWallet(w))) <==> RunFits(steps, w)
  {
    hide Run, Gap, Lost, NetIdentity, RowFits, RunFits;
    RunGap(steps, w);
    NetIffRowsFit(Run(EMPTY, steps), w);
    RowsFitIff(steps, w);
  }

  // ------------------------- Runs of clean records ---------------------------

  /**
   A record whose amounts are not negative and that does not mix two amounts: it carries the collected
   amount itself, or no earlier record did.
   */
  predicate CleanRecord(db: Db, s: Step) {
    && (s.CollectionRecord? && s.ref in db.collections ==>
          && (s.collected.Some? || db.collections[s.ref].collectedAmount.None?)
          && GrossOf(db.collections[s.ref], s.collected) >= 0)
    && (s.DepositRecord? && s.ref in db.deposits ==> GrossOf(db.deposits[s.ref], s.collected) >= 0)
  }

  predicate CleanRun(steps: seq<Step>) {
    forall i :: 0 <= i < |steps| ==> CleanRecord(Run(EMPTY, steps[..i]), steps[i])
  }

  lemma CleanRecordFits(db: Db, s: Step, w: WalletKey)
    requires WellFormed(db) && CleanRecord(db, s)
    ensures RecordFits(db, s, w)
  {
    hide ApplyCollection, CollectionFeeOf, WellFormed, GrossOf;
    if s.CollectionRecord? && s.ref in db.collections && ShouldCredit(db.collections[s.ref], s.next)
       && !db.collections[s.ref].status.Success? {
      SameBaseCredit(db, s.ref, s.collected);
      CreditPlusFeeIff(db, s.ref, s.collected);
    }
  }

  lemma CleanRunFits(steps: seq<Step>, w: WalletKey)
    requires CleanRun(steps)
    ensures RunFits(steps, w)
  {
    forall i | 0 <= i < |steps| ensures RecordFits(Run(EMPTY, steps[..i]), steps[i], w) {
      RunWellFormed(EMPTY, steps[..i]);
      assert CleanRecord(Run(EMPTY, steps[..i]), steps[i]);
      CleanRecordFits(Run(EMPTY, steps[..i]), steps[i], w);
    }
  }

  /** A credited collection kept a fee within its gross amount; a credited deposit is not negative. */
  ghost predicate Honest(db: Db, r: Ref) {
    && (r in db.collections && db.collections[r].credited ==>
          db.collections[r].feeAmount.GetOr(0) <= db.collections[r].gross)
    && (r in db.deposits && db.deposits[r].credited ==> db.deposits[r].gross >= 0)
  }

  lemma HonestIffFits(db: Db, r: Ref)
    ensures Honest(db, r) <==> forall w :: RowFits(db, r, w)
  {
    if forall w :: RowFits(db, r, w) {
      if r in db.collections {
        assert RowFits(db, r, WalletKey(db.collections[r].account, CollectionWallet));
      }
      if r in db.deposits {
        assert RowFits(db, r, WalletKey(db.deposits[r].account, DisbursementWallet));
      }
    }
  }

  lemma {:induction false} RunHonest(steps: seq<Step>, r: Ref)
    requires CleanRun(steps)
    ensures Honest(Run(EMPTY, steps), r)
  {
    hide Run, RowFits, RunFits, CleanRun, Honest;
    forall w ensures RowFits(Run(EMPTY, steps), r, w) {
      CleanRunFits(steps, w);
      RowsFitIff(steps, w);
    }
    HonestIffFits(Run(EMPTY, steps), r);
  }

  /**
   Over every clean run a wallet's balance is manual deposits less manual withdrawals, plus credited
   collections (gross less fee), credited deposits and transfers, less unrefunded payouts and lost holds.
   */
  lemma {:induction false} RunBalancedNet(steps: seq<Step>, w: WalletKey)
    requires CleanRun(steps)
    ensures NetIdentity(Run(EMPTY, steps), w, Lost(steps, OnWallet(w)))
  {
    hide Run, CleanRun, RunFits, NetIdentity, Lost;
    CleanRunFits(steps, w);
    RunNetIff(steps, w);
  }
}
