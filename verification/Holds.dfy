/**
 Holds: the debit that comes before a payout's row or a batch's rows. The debit and the rows are separate
 transactions, so a hold whose reference is taken is lost: the money has left the wallet and no row says why.
 */
module Holds {
  import opened Wrappers
  import opened Totals
  import opened ProviderStatus
  import opened Tables
  import opened FeeSchedules
  import opened Wallets
  import opened TxnStatus
  import opened Disbursements
  import opened Settlements
  import opened Engine
  import opened LedgerLaws
  import opened EngineLaws
  import opened RowLaws
  import Fees

  // ---------------------------- What a hold needs ---------------------------

  /** What a debit needs: something to take, a wallet that is not frozen, and enough money in it. */
  predicate Covered(b: Books, k: WalletKey, total: Cents) {
    total > 0 && k in b.wallets && b.wallets[k].status == ActiveWallet && b.wallets[k].balance >= total
  }

  /** Wallet k pays the total, one row documents it, and nothing else in the books changes. */
  ghost predicate Paid(b: Books, b': Books, k: WalletKey, total: Cents, t: TxType, ref: Ref) {
    && BalanceOf(b', k) == BalanceOf(b, k) - total >= 0
    && b'.clock == b.clock && b'.wallets.Keys == b.wallets.Keys
    && (forall j :: j in b.wallets ==>
          b'.wallets[j] == if j == k then b.wallets[j].(balance := b.wallets[j].balance - total) else b.wallets[j])
    && |b'.ledger| == |b.ledger| + 1 && b.ledger <= b'.ledger
    && b'.ledger[|b.ledger|]
       == LedgerRow(k, t, -total, BalanceOf(b, k), BalanceOf(b', k), Some(ref), false, b.clock)
  }

  predicate IsHold(m: Movement, ref: Ref) {
    && (m.txType.PayoutDebit? || m.txType.Withdrawal? || m.txType.BatchHold?)
    && !m.manual && !m.ignoreFrozen && m.reference == Some(ref) && m.amount >= 0
  }

  /** A hold is posted exactly when it is covered. */
  lemma DebitIff(b: Books, m: Movement, ref: Ref)
    requires IsHold(m, ref)
    ensures Move(b, m).Posted? <==> Covered(b, m.wallet, m.amount)
    ensures Move(b, m).Posted? ==> Paid(b, Move(b, m).books, m.wallet, m.amount, m.txType, ref)
  {
  }

  /** A new payout that a debit of wallet m.wallet pays for. */
  predicate Funds(m: Movement, p: Payout) {
    SourceOf(p) == m.wallet && Owed(p) == m.amount && p.status.Pending? && !p.refunded && p.batch.None?
  }

  // ------------------------- The hold a step asks for -----------------------

  /** The debit a step asks the ledger for once its own checks have passed. */
  function HoldOf(db: Db, s: Step): Option<Movement> {
    match s
    case StartPayout(ref, a, cents, client) =>
      if a !in db.accounts || (client.Some? && HasPayout(db, a, client.value)) then None
      else Some(PayoutDebitOf(a, ref, cents + DisbursementFeeOf(db, a, cents)))
    case StartWithdrawal(ref, a, cents, _, settlement, min) =>
      var total := cents + DisbursementFeeOf(db, a, cents);
      if a !in db.accounts || !settlement || cents <= 0 || total < min then None
      else Some(WithdrawalOf(a, ref, total))
    case StartBatch(ref, a, items) =>
      if a !in db.accounts || exists i :: 0 <= i < |items| && !items[i].deliverable then None
      else Some(BatchHoldOf(a, ref, TotalAmount(items)))
    case Sweep(ref, a, start, min, dryRun) =>
      var balance := CollectionBalance(db, a);
      if a !in db.accounts || !db.accounts[a].hasSettlement || balance <= 0 || SweptSince(db, a, start)
         || balance - DisbursementFeeOf(db, a, balance) < min || dryRun then None
      else Some(WithdrawalOf(a, ref, balance))
    case AdminSweep(ref, a, min) =>
      var balance := CollectionBalance(db, a);
      if a !in db.accounts || !db.accounts[a].hasSettlement || balance <= 0
         || balance - DisbursementFeeOf(db, a, balance) < min then None
      else Some(WithdrawalOf(a, ref, balance))
    case _ => None
  }

  /** A reference that the rows of the hold need is in use. */
  predicate RefTaken(db: Db, s: Step) {
    if s.StartBatch? then !RefsFree(db, s.ref, s.items) else StartsOne(s) && s.ref in db.payouts
  }

  /** The debit that a step leaves without a row: a covered hold that meets a taken reference. */
  function LostBy(db: Db, s: Step): Option<Movement> {
    if !Admissible(s) || HoldOf(db, s).None? || !RefTaken(db, s) then None
    else
      var m := HoldOf(db, s).value;
      if Covered(db.books, m.wallet, m.amount) then Some(m) else None
  }

  /** The payout row that a step's hold pays for. */
  function RowFor(db: Db, s: Step): Payout
    requires StartsOne(s)
  {
    var balance, now := CollectionBalance(db, s.account), db.books.clock;
    match s
    case StartPayout(_, a, cents, client) => CustomerPayout(a, client, cents, DisbursementFeeOf(db, a, cents), now)
    case StartWithdrawal(_, a, cents, client, _, _) =>
      SettlementPayout(a, client, SettlementWithdrawal, cents, DisbursementFeeOf(db, a, cents), now)
    case _ =>
      var fee := DisbursementFeeOf(db, s.account, balance);
      SettlementPayout(s.account, SWEEP_CLIENT, AutoSweep, balance - fee, fee, now)
  }

  /** A step that starts one payout is its hold, on top of a schedule that may have been stored. */
  ghost predicate IsItsHold(db: Db, s: Step)
    requires StartsOne(s)
  {
    var db1 := db.(fees := Next(db, s).fees);
    Next(db, s)
    == if HoldOf(db, s).Some? then HoldPayout(db1, HoldOf(db, s).value, s.ref, RowFor(db, s)).db else db1
  }

  lemma RequestShape(db: Db, s: Step)
    requires (s.StartPayout? || s.StartWithdrawal?) && Admissible(s)
    ensures IsItsHold(db, s)
  {
    hide Fees.ComputeFee, HoldPayout, HasPayout;
  }

  lemma SweepShape(db: Db, s: Step)
    requires s.Sweep?
    ensures IsItsHold(db, s)
  {
    hide DisbursementFeeOf, HoldPayout, SweptSince, CollectionBalance, HasPayout;
    hide CreatePayout, CreateWithdrawal, CreateBatch, SweepNow, TransferFunds;
  }

  lemma AdminSweepShape(db: Db, s: Step)
    requires s.AdminSweep?
    ensures IsItsHold(db, s)
  {
    hide DisbursementFeeOf, HoldPayout, SweptSince, CollectionBalance, HasPayout;
    hide CreatePayout, CreateWithdrawal, CreateBatch, SweepAccount, TransferFunds;
  }

  lemma HoldShape(db: Db, s: Step)
    requires StartsOne(s) && Admissible(s)
    ensures IsItsHold(db, s)
  {
    hide IsItsHold;
    if s.Sweep? {
      SweepShape(db, s);
    } else if s.AdminSweep? {
      AdminSweepShape(db, s);
    } else {
      RequestShape(db, s);
    }
  }

  /** A batch request is its hold, and then all of its rows or none. */
  lemma BatchShape(db: Db, s: Step)
    requires s.StartBatch? && Admissible(s)
    ensures var asked, free := HoldOf(db, s), RefsFree(db, s.ref, s.items);
            && Next(db, s) == db.(books := Next(db, s).books, payouts := Next(db, s).payouts,
                                  batches := Next(db, s).batches)
            && Next(db, s).books == (if asked.Some? then After(db.books, Move(db.books, asked.value)) else db.books)
            && Next(db, s).payouts
               == (if asked.Some? && free && Move(db.books, asked.value).Posted?
                   then WithItems(db.payouts, s.account, s.ref, s.items, db.books.clock) else db.payouts)
            && Next(db, s).batches
               == (if asked.Some? && free && Move(db.books, asked.value).Posted?
                   then db.batches[s.ref := Batch(s.account, BatchProcessing, |s.items|, TotalAmount(s.items), 0, 0,
                                                  ItemRefs(s.items))]
                   else db.batches)
  {
    hide Move, WithItems, TotalAmount, RefsFree;
  }

  lemma HoldFits(db: Db, s: Step)
    requires StartsOne(s) && Admissible(s) && FeesFormed(db.fees) && HoldOf(db, s).Some?
    ensures IsHold(HoldOf(db, s).value, s.ref) && !HoldOf(db, s).value.txType.BatchHold?
    ensures Funds(HoldOf(db, s).value, RowFor(db, s))
  {
    hide DisbursementFeeOf, HasPayout, SweptSince;
    var amount := if s.StartPayout? || s.StartWithdrawal? then s.cents else CollectionBalance(db, s.account);
    FeeBoundsOf(db, s.account, amount);
  }

  /** What is lost is a positive amount of a hold under the step's own reference. */
  lemma LostIsHold(db: Db, s: Step)
    requires FeesFormed(db.fees) && LostBy(db, s).Some?
    ensures LostBy(db, s) == HoldOf(db, s) && IsHold(LostBy(db, s).value, s.ref) && LostBy(db, s).value.amount > 0
  {
    if s.StartBatch? {
      hide TotalAmount;
    } else {
      HoldFits(db, s);
      hide HoldOf, RefTaken;
    }
  }

  // ------------------------------- Lost in a run ----------------------------

  /** What the holds that a run lost amount to, under a measure. */
  ghost function Lost(steps: seq<Step>, f: Movement -> int): int {
    if steps == [] then 0
    else
      var front, s := steps[..|steps| - 1], steps[|steps| - 1];
      Lost(front, f) + LostNow(Run(EMPTY, front), s, f)
  }

  function LostNow(db: Db, s: Step, f: Movement -> int): int {
    if LostBy(db, s).Some? then f(LostBy(db, s).value) else 0
  }

  /** Lost on wallet w; lost on w under the reference of payout r; lost as a hold for batch id. */
  function OnWallet(w: WalletKey): Movement -> int {
    (m: Movement) => if m.wallet == w then m.amount else 0
  }

  function UnderRef(r: Ref, w: WalletKey): Movement -> int {
    (m: Movement) => if m.wallet == w && m.reference == Some(r) && !m.txType.BatchHold? then m.amount else 0
  }

  function ForBatch(id: Ref): Movement -> int {
    (m: Movement) => if m.reference == Some(id) && m.txType.BatchHold? then m.amount else 0
  }

  /** A step loses money that the measure sees. */
  predicate Loses(db: Db, s: Step, f: Movement -> int) {
    LostBy(db, s).Some? && f(LostBy(db, s).value) != 0
  }

  predicate NeverLoses(steps: seq<Step>, f: Movement -> int) {
    forall i :: 0 <= i < |steps| ==> !Loses(Run(EMPTY, steps[..i]), steps[i], f)
  }

  ghost predicate AmountOrNothing(f: Movement -> int) {
    forall m :: f(m) == m.amount || f(m) == 0
  }

  /** A run has lost nothing exactly when no covered hold in it met a taken reference. */
  lemma {:induction false} LostNothingIff(steps: seq<Step>, f: Movement -> int)
    requires AmountOrNothing(f)
    ensures Lost(steps, f) >= 0
    ensures Lost(steps, f) == 0 <==> NeverLoses(steps, f)
  {
    if steps != [] {
      var n := |steps| - 1;
      LostNothingIff(steps[..n], f);
      RunWellFormed(EMPTY, steps[..n]);
      LostSign(Run(EMPTY, steps[..n]), steps[n], f);
      NeverLosesFront(steps, f);
      hide Run, LostNow, Loses, NeverLoses, WellFormed;
    }
  }

  lemma NeverLosesFront(steps: seq<Step>, f: Movement -> int)
    requires steps != []
    ensures var n := |steps| - 1;
            NeverLoses(steps, f) <==> NeverLoses(steps[..n], f) && !Loses(Run(EMPTY, steps[..n]), steps[n], f)
  {
    hide Run, Loses;
    var n := |steps| - 1;
    assert forall i :: 0 <= i < n ==> steps[..n][..i] == steps[..i];
    if NeverLoses(steps[..n], f) && !Loses(Run(EMPTY, steps[..n]), steps[n], f) {
      forall i | 0 <= i < |steps| ensures !Loses(Run(EMPTY, steps[..i]), steps[i], f) {
        if i < n {
          assert !Loses(Run(EMPTY, steps[..n][..i]), steps[..n][i], f);
        }
      }
    }
    if NeverLoses(steps, f) {
      forall i | 0 <= i < n ensures !Loses(Run(EMPTY, steps[..n][..i]), steps[..n][i], f) {
        assert !Loses(Run(EMPTY, steps[..i]), steps[i], f);
      }
    }
  }

  lemma LostSign(db: Db, s: Step, f: Movement -> int)
    requires WellFormed(db) && AmountOrNothing(f)
    ensures LostNow(db, s, f) >= 0 && (LostNow(db, s, f) == 0 <==> !Loses(db, s, f))
  {
    assert FeesFormed(db.fees);
    hide LostBy, WellFormed;
    if LostBy(db, s).Some? {
      LostIsHold(db, s);
    }
  }
}
