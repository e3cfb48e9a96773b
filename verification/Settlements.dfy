/**
 Moving collected money out: manual withdrawals and the daily sweep of COLLECTION wallets.
 */
module Settlements {
  import opened Wrappers
  import opened ProviderStatus
  import opened Tables
  import opened FeeSchedules
  import opened Wallets
  import Fees

  function WithdrawalOf(account: AccountId, ref: Ref, total: Cents): Movement {
    Movement(WalletKey(account, CollectionWallet), Withdrawal, total, Some(ref), false, false)
  }

  function SettlementPayout(account: AccountId, client: Option<Ref>, kind: PayoutKind, amount: Cents, fee: Cents,
                            now: nat): Payout {
    Payout(account, None, client, CollectionWallet, kind, amount, Some(fee), Pending, true, false, now)
  }

  function DisbursementFeeOf(db: Db, account: AccountId, amount: Cents): Cents {
    Fees.ComputeFee(Fees.DisbursementFee, ConfigOf(db, account), amount).amount
  }

  // ------------------------------- Withdrawals ------------------------------

  /** `settlement` says whether the settlement account the request designates exists and is active. */
  function CreateWithdrawal(db: Db, ref: Ref, account: AccountId, amount: Cents, client: Option<Ref>,
                            settlement: bool, minPayout: Cents): (o: Outcome)
    ensures o.db == db.(books := o.db.books, fees := o.db.fees, payouts := o.db.payouts)
  {
    if account !in db.accounts then Outcome(db, Some(NotFound))
    else if !settlement || amount <= 0 then Outcome(db, Some(ValidationFailed))
    else
      var db1 := EnsureConfig(db, account);
      var fee := DisbursementFeeOf(db, account, amount);
      if amount + fee < minPayout then Outcome(db1, Some(ValidationFailed))
      else
        HoldPayout(db1, WithdrawalOf(account, ref, amount + fee), ref,
                   SettlementPayout(account, client, SettlementWithdrawal, amount, fee, db.books.clock))
  }

  // ---------------------------------- Sweeps --------------------------------

  /** How the sweep dealt with one account. */
  datatype Verdict =
    | Swept(ref: Ref, amount: Cents)
    | DryRun(ref: Ref, amount: Cents)
    | NoSettlement | EmptyWallet | AlreadySwept | BelowMinimum | LegFailed(error: Error)

  function CollectionBalance(db: Db, account: AccountId): Cents {
    var k := WalletKey(account, CollectionWallet);
    if k in db.books.wallets then db.books.wallets[k].balance else 0
  }

  /** A sweep payout of the account created today that has not failed. */
  predicate SweptSince(db: Db, account: AccountId, startOfToday: nat) {
    exists r :: r in db.payouts && db.payouts[r].account == account && db.payouts[r].kind.AutoSweep?
             && db.payouts[r].createdAt >= startOfToday && !db.payouts[r].status.Failed?
  }

  const SWEEP_CLIENT: Option<Ref> := Some("AUTO-SWEEP")

  /** Debits the full balance and pays it out less the fee. */
  function SweepBalance(db: Db, ref: Ref, account: AccountId, balance: Cents, fee: Cents): Outcome {
    HoldPayout(db, WithdrawalOf(account, ref, balance), ref,
               SettlementPayout(account, SWEEP_CLIENT, AutoSweep, balance - fee, fee, db.books.clock))
  }

  /** One account's turn in the daily sweep. */
  function SweepAccount(db: Db, ref: Ref, account: AccountId, startOfToday: nat, minPayout: Cents, dryRun: bool)
    : (result: (Db, Verdict))
    requires account in db.accounts
    ensures result.0 == db.(books := result.0.books, fees := result.0.fees, payouts := result.0.payouts)
  {
    if !db.accounts[account].hasSettlement then (db, NoSettlement)
    else
      var balance := CollectionBalance(db, account);
      if balance <= 0 then (db, EmptyWallet)
      else if SweptSince(db, account, startOfToday) then (db, AlreadySwept)
      else
        var db1 := EnsureConfig(db, account);
        var fee := DisbursementFeeOf(db, account, balance);
        if balance - fee < minPayout then (db1, BelowMinimum)
        else if dryRun then (db1, DryRun(ref, balance - fee))
        else
          var o := SweepBalance(db1, ref, account, balance, fee);
          (o.db, if o.error.Some? then LegFailed(o.error.value) else Swept(ref, balance - fee))
  }

  /** One line of the sweep's report. */
  datatype Detail = Detail(account: AccountId, verdict: Verdict)

  datatype Report = Report(created: nat, skipped: nat, details: seq<Detail>)

  function Extended(report: Report, account: AccountId, verdict: Verdict): Report {
    Report(report.created + (if verdict.Swept? then 1 else 0),
           report.skipped + (if verdict.Swept? || verdict.DryRun? then 0 else 1),
           report.details + [Detail(account, verdict)])
  }

  /**
   The sweep over a list of selected accounts; refs[i] is the reference drawn for accounts[i].
   */
  function SweepAll(db: Db, accounts: seq<AccountId>, refs: seq<Ref>, startOfToday: nat, minPayout: Cents,
                    dryRun: bool): (result: (Db, Report))
    requires |refs| == |accounts| && forall a :: a in accounts ==> a in db.accounts
    ensures result.0.accounts == db.accounts
  {
    if accounts == [] then (db, Report(0, 0, []))
    else
      var n := |accounts| - 1;
      var (before, report) := SweepAll(db, accounts[..n], refs[..n], startOfToday, minPayout, dryRun);
      var (after, verdict) := SweepAccount(before, refs[n], accounts[n], startOfToday, minPayout, dryRun);
      (after, Extended(report, accounts[n], verdict))
  }

  predicate SweepsDaily(a: Account) {
    a.active && a.autoSweep
  }

  /** The accounts the sweep selects, in the order the account table is listed. */
  function Selected(accounts: map<AccountId, Account>, listing: seq<AccountId>): (selected: seq<AccountId>)
    ensures forall a :: a in selected ==> a in accounts
  {
    if listing == [] then []
    else
      var front, last := Selected(accounts, listing[..|listing| - 1]), listing[|listing| - 1];
      if last in accounts && SweepsDaily(accounts[last]) then front + [last] else front
  }

  /** The daily run: the sweep of all active accounts that have not opted out. */
  function DailySweep(db: Db, listing: seq<AccountId>, refs: seq<Ref>, startOfToday: nat, minPayout: Cents,
                      dryRun: bool): (Db, Report)
    requires |refs| == |Selected(db.accounts, listing)|
  {
    SweepAll(db, Selected(db.accounts, listing), refs, startOfToday, minPayout, dryRun)
  }

  /** The administrator's immediate sweep of one account: no daily limit, errors instead of skips. */
  function SweepNow(db: Db, ref: Ref, account: AccountId, minPayout: Cents): (o: Outcome)
    ensures o.db == db.(books := o.db.books, fees := o.db.fees, payouts := o.db.payouts)
  {
    if account !in db.accounts then Outcome(db, Some(NotFound))
    else if !db.accounts[account].hasSettlement then Outcome(db, Some(ValidationFailed))
    else
      var balance := CollectionBalance(db, account);
      if balance <= 0 then Outcome(db, Some(ValidationFailed))
      else
        var db1 := EnsureConfig(db, account);
        var fee := DisbursementFeeOf(db, account, balance);
        if balance - fee < minPayout then Outcome(db1, Some(ValidationFailed))
        else SweepBalance(db1, ref, account, balance, fee)
  }

  // ------------------------------- The service ------------------------------

  method CreateWithdrawalRequest(db: Database, ref: Ref, account: AccountId, amount: Cents, client: Option<Ref>,
                                 settlement: bool, minPayout: Cents)
    returns (error: Option<Error>)
    modifies db
    ensures Outcome(db.Snapshot(), error)
         == CreateWithdrawal(old(db.Snapshot()), ref, account, amount, client, settlement, minPayout)
  {
    hide Fees.FeeAt;
    if account !in db.accounts {
      return Some(NotFound);
    }
    if !settlement {
      return Some(ValidationFailed);
    }
    if amount <= 0 {
      return Some(ValidationFailed);
    }
    var config := ReadConfig(db, account);
    var fee := Fees.ComputeFee(Fees.DisbursementFee, config.value, amount);
    var totalDebit := amount + fee.amount;
    if totalDebit < minPayout {
      return Some(ValidationFailed);
    }
    error := MoveFunds(db, WithdrawalOf(account, ref, totalDebit));
    if error.None? {
      error := InsertPayout(db, ref, SettlementPayout(account, client, SettlementWithdrawal, amount, fee.amount,
                                                      db.clock));
    }
  }

  method RunAutoSweep(db: Database, listing: seq<AccountId>, refs: seq<Ref>, startOfToday: nat, minPayout: Cents,
                      dryRun: bool)
    returns (created: nat, skipped: nat, details: seq<Detail>)
    requires |refs| == |Selected(db.accounts, listing)|
    modifies db
    ensures (db.Snapshot(), Report(created, skipped, details))
         == DailySweep(old(db.Snapshot()), listing, refs, startOfToday, minPayout, dryRun)
  {
    var accounts := Selected(db.accounts, listing);
    created, skipped, details := SweepEach(db, accounts, refs, startOfToday, minPayout, dryRun);
  }

  /** The loop over the selected accounts. */
  method SweepEach(db: Database, accounts: seq<AccountId>, refs: seq<Ref>, startOfToday: nat, minPayout: Cents,
                   dryRun: bool)
    returns (created: nat, skipped: nat, details: seq<Detail>)
    requires |refs| == |accounts| && forall a :: a in accounts ==> a in db.accounts
    modifies db
    ensures (db.Snapshot(), Report(created, skipped, details))
         == SweepAll(old(db.Snapshot()), accounts, refs, startOfToday, minPayout, dryRun)
  {
    hide SweepAccount;
    created, skipped, details := 0, 0, [];
    for i := 0 to |accounts|
      invariant db.accounts == old(db.accounts)
      invariant (db.Snapshot(), Report(created, skipped, details))
             == SweepAll(old(db.Snapshot()), accounts[..i], refs[..i], startOfToday, minPayout, dryRun)
    {
      assert accounts[..i + 1][..i] == accounts[..i] && refs[..i + 1][..i] == refs[..i];
      var verdict := SweepOne(db, refs[i], accounts[i], startOfToday, minPayout, dryRun);
      if verdict.Swept? {
        created := created + 1;
      } else if !verdict.DryRun? {
        skipped := skipped + 1;
      }
      details := details + [Detail(accounts[i], verdict)];
    }
    assert accounts[..|accounts|] == accounts && refs[..|refs|] == refs;
  }

  /** The body of the sweep's loop. */
  method SweepOne(db: Database, ref: Ref, account: AccountId, startOfToday: nat, minPayout: Cents, dryRun: bool)
    returns (verdict: Verdict)
    requires account in db.accounts
    modifies db
    ensures (db.Snapshot(), verdict)
         == SweepAccount(old(db.Snapshot()), ref, account, startOfToday, minPayout, dryRun)
  {
    hide Fees.FeeAt;
    if !db.accounts[account].hasSettlement {
      return NoSettlement;
    }
    var k := WalletKey(account, CollectionWallet);
    var balance := if k in db.wallets then db.wallets[k].balance else 0;
    if balance <= 0 {
      return EmptyWallet;
    }
    if exists r :: r in db.payouts && db.payouts[r].account == account && db.payouts[r].kind.AutoSweep?
                && db.payouts[r].createdAt >= startOfToday && !db.payouts[r].status.Failed? {
      return AlreadySwept;
    }
    var config := ReadConfig(db, account);
    var fee := Fees.ComputeFee(Fees.DisbursementFee, config.value, balance);
    var payoutAmount := balance - fee.amount;
    if payoutAmount < minPayout {
      return BelowMinimum;
    }
    if dryRun {
      return DryRun(ref, payoutAmount);
    }
    var error := MoveFunds(db, WithdrawalOf(account, ref, balance));
    if error.None? {
      error := InsertPayout(db, ref, SettlementPayout(account, SWEEP_CLIENT, AutoSweep, payoutAmount, fee.amount,
                                                      db.clock));
    }
    if error.Some? {
      return LegFailed(error.value);
    }
    return Swept(ref, payoutAmount);
  }

  method RunAutoSweepSubset(db: Database, ref: Ref, account: AccountId, minPayout: Cents)
    returns (error: Option<Error>)
    modifies db
    ensures Outcome(db.Snapshot(), error) == SweepNow(old(db.Snapshot()), ref, account, minPayout)
  {
    hide Fees.FeeAt;
    if account !in db.accounts {
      return Some(NotFound);
    }
    if !db.accounts[account].hasSettlement {
      return Some(ValidationFailed);
    }
    var k := WalletKey(account, CollectionWallet);
    var balance := if k in db.wallets then db.wallets[k].balance else 0;
    if balance <= 0 {
      return Some(ValidationFailed);
    }
    var config := ReadConfig(db, account);
    var fee := Fees.ComputeFee(Fees.DisbursementFee, config.value, balance);
    var payoutAmount := balance - fee.amount;
    if payoutAmount < minPayout {
      return Some(ValidationFailed);
    }
    error := MoveFunds(db, WithdrawalOf(account, ref, balance));
    if error.None? {
      error := InsertPayout(db, ref, SettlementPayout(account, SWEEP_CLIENT, AutoSweep, payoutAmount, fee.amount,
                                                      db.clock));
    }
  }
}
