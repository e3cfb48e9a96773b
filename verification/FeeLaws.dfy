/**
 What an account is charged: which schedule counts, which of its rates applies, and how the fee is rounded.
 */
module FeeLaws {
  import opened Wrappers
  import opened ProviderStatus
  import opened Tables
  import opened FeeSchedules
  import opened Wallets
  import opened TxnStatus
  import opened Disbursements
  import opened Settlements
  import opened Collections
  import opened Engine
  import opened TransferLaws
  import Fees

  /** The schedule an account is charged by: its own, or 5% below 3000.00, 2% from there and 2% for transfers. */
  function ScheduleOf(db: Db, a: AccountId): Fees.FeeConfig {
    if a in db.fees then db.fees[a] else Fees.FeeConfig(500, 300000, 200, 500, 300000, 200, 200)
  }

  /** The fee for collecting an amount: the lower tier ends below its threshold. */
  ghost predicate CollectionCharge(db: Db, a: AccountId, amount: Cents, fee: Cents) {
    var c := ScheduleOf(db, a);
    var bps := if amount < c.collectionThreshold then c.collectionBelowBps else c.collectionAboveBps;
    Fees.NearestCent(amount, bps, fee)
  }

  /** The fee for paying an amount out. */
  ghost predicate DisbursementCharge(db: Db, a: AccountId, amount: Cents, fee: Cents) {
    var c := ScheduleOf(db, a);
    var bps := if amount < c.disbursementThreshold then c.disbursementBelowBps else c.disbursementAboveBps;
    Fees.NearestCent(amount, bps, fee)
  }

  /** The fee for moving an amount between the account's wallets. */
  ghost predicate TransferCharge(db: Db, a: AccountId, amount: Cents, fee: Cents) {
    Fees.NearestCent(amount, ScheduleOf(db, a).transferBps, fee)
  }

  /** Each operation charges exactly one fee, that of its own tier. */
  lemma ChargedIff(db: Db, a: AccountId, amount: Cents, fee: Cents)
    ensures CollectionCharge(db, a, amount, fee)
       <==> fee == Fees.ComputeFee(Fees.CollectionFee, ConfigOf(db, a), amount).amount
    ensures DisbursementCharge(db, a, amount, fee) <==> fee == DisbursementFeeOf(db, a, amount)
    ensures TransferCharge(db, a, amount, fee) <==> fee == TransferFeeOf(db, a, amount)
  {
    var c := ScheduleOf(db, a);
    Fees.NearestIff(amount, if amount < c.collectionThreshold then c.collectionBelowBps else c.collectionAboveBps, fee);
    Fees.NearestIff(amount, if amount < c.disbursementThreshold then c.disbursementBelowBps
                            else c.disbursementAboveBps, fee);
    Fees.NearestIff(amount, c.transferBps, fee);
    hide Fees.FeeAt, Fees.NearestCent;
  }

  // ------------------------------ The schedules ------------------------------

  /** Storing a default schedule on first use changes what nobody is charged. */
  lemma EnsureKeeps(db: Db, a: AccountId, b: AccountId)
    ensures ScheduleOf(EnsureConfig(db, a), b) == ScheduleOf(db, b)
  {
  }

  /** The fee patch a step applies to account a, if it has one and may. */
  predicate Reschedules(db: Db, s: Step, a: AccountId) {
    || (s.UpdateFees? && s.account == a && (a in db.fees || a in db.accounts) && Fees.Acceptable(s.patch))
    || (s.OpenAccount? && s.account == a && a !in db.accounts && s.fees.Some?)
  }

  /** Only an accepted update of its own, or its creation, changes what an account is charged. */
  lemma StepSchedule(db: Db, s: Step, a: AccountId)
    ensures ScheduleOf(Next(db, s), a)
         == if !Reschedules(db, s, a) then ScheduleOf(db, a)
            else if s.UpdateFees? then Fees.Patched(ScheduleOf(db, a), s.patch)
            else Fees.Clamped(s.fees.value)
  {
    hide Next, Fees.Patched, Fees.Clamped, Fees.Acceptable;
    if s.UpdateFees? || s.OpenAccount? {
      PatchStores(db, s);
    } else {
      StepStores(db, s);
      EnsureKeeps(db, AccountOf(db, s), a);
    }
  }

  lemma PatchStores(db: Db, s: Step)
    requires s.UpdateFees? || s.OpenAccount?
    ensures Next(db, s)
         == if s.UpdateFees? then FeesUpdated(db, s.account, s.patch)
            else if s.account in db.accounts then db else Opened(db, s.account, s.settings, s.fees)
  {
    hide FeesUpdated, Opened;
  }

  /** The account whose schedule a step may read. */
  function AccountOf(db: Db, s: Step): AccountId {
    if s.CollectionRecord? then if s.ref in db.collections then db.collections[s.ref].account else ""
    else if s.StartTransfer? || s.StartPayout? || s.StartWithdrawal? || s.Sweep? || s.AdminSweep? then s.account
    else ""
  }

  lemma StepStores(db: Db, s: Step)
    requires !s.UpdateFees? && !s.OpenAccount?
    ensures Next(db, s).fees in {db.fees, EnsureConfig(db, AccountOf(db, s)).fees}
  {
    hide HoldPayout, Fees.ComputeFee, Fees.ComputeTransferFee, TransferLegs, Move, HasPayout, SweptSince, HasTransfer;
    if s.StartTransfer? {
      hide CreatePayout, CreateWithdrawal, SweepAccount, SweepNow, ApplyCollection;
    } else if s.CollectionRecord? {
      hide CreatePayout, CreateWithdrawal, SweepAccount, SweepNow, TransferFunds, CollectionFeeOf, HasConfig;
    } else {
      hide TransferFunds, ApplyCollection, ApplyDeposit, ApplyPayout, CreateBatch, InitiateCollection, InitiateDeposit;
    }
  }

  /** So over any run without an update of its own, an account's charges stay the same. */
  lemma {:induction false} RunSchedule(db: Db, steps: seq<Step>, a: AccountId)
    requires forall i :: 0 <= i < |steps| ==>
               !((steps[i].UpdateFees? || steps[i].OpenAccount?) && steps[i].account == a)
    ensures ScheduleOf(Run(db, steps), a) == ScheduleOf(db, a)
  {
    if steps != [] {
      hide Next, Fees.Acceptable;
      RunSchedule(db, steps[..|steps| - 1], a);
      StepSchedule(Run(db, steps[..|steps| - 1]), steps[|steps| - 1], a);
    }
  }

  // -------------------------------- Transfers --------------------------------

  /** A transfer takes the amount and the transfer fee from one wallet and brings the amount to the other. */
  lemma TransferCharged(db: Db, a: AccountId, cents: Cents, client: Option<Ref>, ref: Ref)
    requires TransferFunds(db, a, cents, client, ref).error.None?
    ensures var db' := TransferFunds(db, a, cents, client, ref).db;
            && ref in db'.transfers && db'.transfers == db.transfers[ref := db'.transfers[ref]]
            && db'.transfers[ref] == Transfer(a, client, cents, db'.transfers[ref].feeAmount)
            && TransferCharge(db, a, cents, db'.transfers[ref].feeAmount)
            && Transferred(db, db', a, cents, client, ref)
  {
    TransferAllOrNothing(db, a, cents, client, ref);
    ChargedIff(db, a, cents, TransferFeeOf(db, a, cents));
    hide TransferFunds, TransferFeeOf, TransferCharge;
  }
}
