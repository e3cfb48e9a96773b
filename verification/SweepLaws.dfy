/**
 The daily sweep: what one run does to each selected account, and why running it again does nothing.
 */
module SweepLaws {
  import opened Wrappers
  import opened Totals
  import opened ProviderStatus
  import opened Tables
  import opened FeeSchedules
  import opened Wallets
  import opened Settlements
  import opened Engine
  import opened LedgerLaws
  import opened EngineLaws
  import opened FeeLaws
  import Fees

  predicate DistinctAccounts(accounts: seq<AccountId>) {
    forall i, j :: 0 <= i < j < |accounts| ==> accounts[i] != accounts[j]
  }

  /** The references drawn for a run are new and distinct. */
  predicate FreshRefs(db: Db, refs: seq<Ref>) {
    && (forall i, j :: 0 <= i < j < |refs| ==> refs[i] != refs[j])
    && (forall i :: 0 <= i < |refs| ==> refs[i] !in db.payouts)
  }

  // ---------------------------- One account's turn --------------------------

  /** A sweep payout of the account, made today, that has not failed. */
  predicate IsTodaysSweep(p: Payout, a: AccountId, startOfToday: nat) {
    p.account == a && p.kind == AutoSweep && p.createdAt >= startOfToday && p.status != Failed
  }

  predicate SweptToday(db: Db, a: AccountId, startOfToday: nat) {
    exists r :: r in db.payouts && IsTodaysSweep(db.payouts[r], a, startOfToday)
  }

  /**
   The verdict on an account, from its own settings, wallet and payouts: without a settlement account there is
   none to pay; then comes the empty wallet, then a sweep of the account itself today, then the minimum that
   has to be left after the fee, then a frozen wallet and a taken reference. Otherwise it is swept.
   */
  lemma TurnVerdict(db: Db, ref: Ref, a: AccountId, start: nat, min: Cents, dryRun: bool) returns (fee: Cents)
    requires a in db.accounts
    ensures var k := WalletKey(a, CollectionWallet);
            var balance := BalanceOf(db.books, k);
            && DisbursementCharge(db, a, balance, fee)
            && SweepAccount(db, ref, a, start, min, dryRun).1
               == if !db.accounts[a].hasSettlement then NoSettlement
                  else if balance <= 0 then EmptyWallet
                  else if SweptToday(db, a, start) then AlreadySwept
                  else if balance - fee < min then BelowMinimum
                  else if dryRun then DryRun(ref, balance - fee)
                  else if db.books.wallets[k].status == FrozenWallet then LegFailed(WalletFrozen)
                  else if ref in db.payouts then LegFailed(ReferenceTaken)
                  else Swept(ref, balance - fee)
  {
    fee := DisbursementFeeOf(db, a, CollectionBalance(db, a));
    ChargedIff(db, a, CollectionBalance(db, a), fee);
    TodaysSweep(db, a, start);
    hide DisbursementFeeOf, DisbursementCharge, SweptSince, SweptToday;
  }

  lemma TodaysSweep(db: Db, a: AccountId, start: nat)
    ensures SweptSince(db, a, start) <==> SweptToday(db, a, start)
  {
  }

  /**
   What a sweep achieved for one account: the wallet is empty, and a payout of its old balance less the fee, no
   smaller than the minimum, is under way.
   */
  ghost predicate SweptOut(db: Db, db': Db, account: AccountId, ref: Ref, paid: Cents, minPayout: Cents) {
    var k := WalletKey(account, CollectionWallet);
    && BalanceOf(db'.books, k) == 0 && BalanceOf(db.books, k) > 0 && paid >= minPayout
    && DisbursementCharge(db, account, BalanceOf(db.books, k), BalanceOf(db.books, k) - paid)
    && ref in db'.payouts
    && db'.payouts[ref] == Payout(account, None, Some("AUTO-SWEEP"), CollectionWallet, AutoSweep, paid,
                                  Some(BalanceOf(db.books, k) - paid), Pending, true, false, db.books.clock)
  }

  /** An account that was not swept keeps its money, and no payout appears. */
  ghost predicate LeftAlone(db: Db, db': Db) {
    db'.books == db.books && db'.payouts == db.payouts
  }

  /** A sweep under a taken reference: the wallet is emptied all the same, and no payout appears. */
  ghost predicate LostOut(db: Db, db': Db, account: AccountId) {
    CollectionBalance(db', account) == 0 && CollectionBalance(db, account) > 0 && db'.payouts == db.payouts
  }

  /** A full debit empties the wallet; its payout is stored unless the reference is taken. */
  lemma SweepBalanceMeaning(db: Db, ref: Ref, a: AccountId, balance: Cents, fee: Cents)
    requires balance > 0 && balance == CollectionBalance(db, a)
    ensures var o := SweepBalance(db, ref, a, balance, fee);
            match o.error
            case None =>
              && CollectionBalance(o.db, a) == 0 && ref !in db.payouts
              && o.db.payouts == db.payouts[ref := Payout(a, None, Some("AUTO-SWEEP"), CollectionWallet, AutoSweep,
                                                          balance - fee, Some(fee), Pending, true, false,
                                                          db.books.clock)]
            case Some(ReferenceTaken) =>
              CollectionBalance(o.db, a) == 0 && ref in db.payouts && o.db.payouts == db.payouts
            case Some(_) => o.db == db
  {
  }

  lemma TurnMeaning(db: Db, ref: Ref, account: AccountId, start: nat, min: Cents, dryRun: bool)
    requires account in db.accounts
    ensures var (db', verdict) := SweepAccount(db, ref, account, start, min, dryRun);
            if verdict.Swept? then
              ref !in db.payouts && verdict.ref == ref && SweptOut(db, db', account, ref, verdict.amount, min)
            else if verdict == LegFailed(ReferenceTaken) then ref in db.payouts && LostOut(db, db', account)
            else LeftAlone(db, db')
    ensures dryRun ==> LeftAlone(db, SweepAccount(db, ref, account, start, min, dryRun).0)
  {
    hide DisbursementFeeOf, SweptSince, DisbursementCharge, SweepBalance;
    var balance := CollectionBalance(db, account);
    if balance > 0 {
      SweepBalanceMeaning(EnsureConfig(db, account), ref, account, balance, DisbursementFeeOf(db, account, balance));
    }
    ChargedIff(db, account, balance, DisbursementFeeOf(db, account, balance));
  }

  /** The hold of a sweep touches one wallet and adds one payout of its account. */
  lemma HoldFrame(db: Db, m: Movement, ref: Ref, p: Payout)
    requires ref !in db.payouts && m.wallet == WalletKey(p.account, CollectionWallet)
    ensures var db' := HoldPayout(db, m, ref, p).db;
            && TurnFrame(db, db', ref, p.account) && db'.fees == db.fees
  {
    hide IsDebit, Signed;
    var books := Move(db.books, m);
    assert books.Posted? ==> books.books.wallets.Keys == db.books.wallets.Keys;
  }

  /** A turn touches one wallet's balance and adds at most one payout, of the account itself. */
  ghost predicate TurnFrame(db: Db, db': Db, ref: Ref, account: AccountId) {
    && db'.books.clock == db.books.clock && db'.books.wallets.Keys == db.books.wallets.Keys
    && (forall k :: k in db.books.wallets ==>
          db'.books.wallets[k].status == db.books.wallets[k].status
          && (k != WalletKey(account, CollectionWallet) ==> db'.books.wallets[k] == db.books.wallets[k]))
    && db.payouts.Keys <= db'.payouts.Keys <= db.payouts.Keys + {ref}
    && (forall r :: r in db.payouts ==> db'.payouts[r] == db.payouts[r])
    && (ref in db'.payouts ==> db'.payouts[ref].account == account)
  }

  lemma TurnFramed(db: Db, ref: Ref, account: AccountId, start: nat, min: Cents, dryRun: bool)
    requires account in db.accounts && ref !in db.payouts
    ensures var db' := SweepAccount(db, ref, account, start, min, dryRun).0;
            && TurnFrame(db, db', ref, account)
            && (db'.fees == db.fees || db'.fees == db.fees[account := ConfigOf(db, account)])
  {
    hide DisbursementFeeOf, SweptSince, HoldPayout;
    var balance := CollectionBalance(db, account);
    var fee := DisbursementFeeOf(db, account, balance);
    HoldFrame(EnsureConfig(db, account), WithdrawalOf(account, ref, balance), ref,
              SettlementPayout(account, SWEEP_CLIENT, AutoSweep, balance - fee, fee, db.books.clock));
  }

  // ------------------------------- The whole run ----------------------------

  predicate SweptAt(report: Report, i: nat)
    requires i < |report.details|
  {
    report.details[i].verdict.Swept?
  }

  /** A wallet no swept account owns. */
  predicate Untouched(report: Report, k: WalletKey) {
    forall i :: 0 <= i < |report.details| && SweptAt(report, i)
                ==> k != WalletKey(report.details[i].account, CollectionWallet)
  }

  /** The lines of the accounts that were swept, and of those that were skipped. */
  function SweptLines(details: seq<Detail>): set<nat> {
    set i: nat | i < |details| && details[i].verdict.Swept?
  }

  function SkippedLines(details: seq<Detail>): set<nat> {
    set i: nat | i < |details| && !details[i].verdict.Swept? && !details[i].verdict.DryRun?
  }

  /** One line per account, in order; created and skipped count them all unless the run is dry. */
  ghost predicate Accounted(report: Report, accounts: seq<AccountId>, dryRun: bool) {
    && |report.details| == |accounts|
    && report.created == |SweptLines(report.details)| && report.skipped == |SkippedLines(report.details)|
    && (forall i :: 0 <= i < |accounts| ==> report.details[i].account == accounts[i])
    && (forall i :: 0 <= i < |accounts| && dryRun ==> !SweptAt(report, i))
    && (!dryRun ==> report.created + report.skipped == |accounts|)
  }

  /** The effect of a sweep on the money, account by account and for everything else. */
  ghost predicate SweptAsReported(db: Db, db': Db, report: Report, refs: seq<Ref>, min: Cents)
    requires |refs| == |report.details|
  {
    && (forall i :: 0 <= i < |refs| && SweptAt(report, i) ==>
          SweptOut(db, db', report.details[i].account, refs[i], report.details[i].verdict.amount, min))
    && db'.books.clock == db.books.clock && db'.books.wallets.Keys == db.books.wallets.Keys
    && (forall k :: k in db.books.wallets && Untouched(report, k) ==> db'.books.wallets[k] == db.books.wallets[k])
    && (forall a :: ScheduleOf(db', a) == ScheduleOf(db, a))
    && (forall r :: r in db.payouts ==> r in db'.payouts && db'.payouts[r] == db.payouts[r])
    && (forall r :: r in db'.payouts && r !in db.payouts
                    ==> exists i :: 0 <= i < |refs| && refs[i] == r && SweptAt(report, i))
  }

  lemma {:induction false} SweepAccounted(db: Db, accounts: seq<AccountId>, refs: seq<Ref>, start: nat, min: Cents,
                                          dryRun: bool)
    requires |refs| == |accounts| && forall a :: a in accounts ==> a in db.accounts
    ensures Accounted(SweepAll(db, accounts, refs, start, min, dryRun).1, accounts, dryRun)
    decreases |accounts|
  {
    if accounts != [] {
      var n := |accounts| - 1;
      SweepAccounted(db, accounts[..n], refs[..n], start, min, dryRun);
      var (before, report) := SweepAll(db, accounts[..n], refs[..n], start, min, dryRun);
      DryNeverSweeps(before, refs[n], accounts[n], start, min, dryRun);
      hide SweepAccount;
      var report' := SweepAll(db, accounts, refs, start, min, dryRun).1;
      OneMoreLine(report.details, report'.details[n]);
      hide SweptLines, SkippedLines;
      forall i | 0 <= i < n + 1
        ensures report'.details[i].account == accounts[i] && (dryRun ==> !SweptAt(report', i))
      {
        if i < n {
          assert accounts[..n][i] == accounts[i] && report'.details[i] == report.details[i];
          assert dryRun ==> !SweptAt(report, i);
        }
      }
    }
  }

  lemma OneMoreLine(details: seq<Detail>, last: Detail)
    ensures |SweptLines(details + [last])| == |SweptLines(details)| + (if last.verdict.Swept? then 1 else 0)
    ensures |SkippedLines(details + [last])|
         == |SkippedLines(details)| + (if last.verdict.Swept? || last.verdict.DryRun? then 0 else 1)
  {
    var n: nat, more := |details|, details + [last];
    assert SweptLines(more) == SweptLines(details) + if last.verdict.Swept? then {n} else {};
    assert SkippedLines(more)
        == SkippedLines(details) + if last.verdict.Swept? || last.verdict.DryRun? then {} else {n};
  }

  lemma DryNeverSweeps(db: Db, ref: Ref, account: AccountId, start: nat, min: Cents, dryRun: bool)
    requires account in db.accounts
    ensures dryRun ==> !SweepAccount(db, ref, account, start, min, dryRun).1.Swept?
    ensures !dryRun ==> !SweepAccount(db, ref, account, start, min, dryRun).1.DryRun?
  {
    hide HoldPayout, DisbursementFeeOf, SweptSince;
  }

  /**
   The sweep: every selected account is created, skipped or reported dry; a swept COLLECTION wallet goes
   to 0 with payout and fee equal to its old balance and the payout no smaller than the minimum; every
   other wallet is untouched.
   */
  lemma {:induction false} SweepMeaning(db: Db, accounts: seq<AccountId>, refs: seq<Ref>, start: nat, min: Cents,
                                        dryRun: bool)
    requires |refs| == |accounts| && forall a :: a in accounts ==> a in db.accounts
    requires DistinctAccounts(accounts) && FreshRefs(db, refs)
    ensures var (db', report) := SweepAll(db, accounts, refs, start, min, dryRun);
            Accounted(report, accounts, dryRun) && SweptAsReported(db, db', report, refs, min)
  {
    hide SweepAll, Accounted, SweptAsReported;
    SweepAccounted(db, accounts, refs, start, min, dryRun);
    SweepEffect(db, accounts, refs, start, min, dryRun);
  }

  lemma {:induction false} SweepEffect(db: Db, accounts: seq<AccountId>, refs: seq<Ref>, start: nat, min: Cents,
                                       dryRun: bool)
    requires |refs| == |accounts| && forall a :: a in accounts ==> a in db.accounts
    requires DistinctAccounts(accounts) && FreshRefs(db, refs)
    ensures var (db', report) := SweepAll(db, accounts, refs, start, min, dryRun);
            |report.details| == |accounts| && SweptAsReported(db, db', report, refs, min)
    decreases |accounts|
  {
    if accounts != [] {
      hide SweepAccount, SweptAsReported, TurnFrame, SweptOut, LeftAlone;
      var n := |accounts| - 1;
      SweepEffect(db, accounts[..n], refs[..n], start, min, dryRun);
      SweepAccounted(db, accounts[..n], refs[..n], start, min, dryRun);
      var (mid, report) := SweepAll(db, accounts[..n], refs[..n], start, min, dryRun);
      var (db', verdict) := SweepAccount(mid, refs[n], accounts[n], start, min, dryRun);
      assert SweepAll(db, accounts, refs, start, min, dryRun) == (db', Extended(report, accounts[n], verdict));
      hide SweepAll;
      FreshNext(db, mid, report, refs, min);
      TurnMeaning(mid, refs[n], accounts[n], start, min, dryRun);
      TurnFramed(mid, refs[n], accounts[n], start, min, dryRun);
      forall a ensures ScheduleOf(db', a) == ScheduleOf(mid, a) {
        EnsureKeeps(mid, accounts[n], a);
      }
      OneMoreTurn(db, mid, db', report, accounts, refs, verdict, min);
    }
  }

  /** The next reference is still unused. */
  lemma FreshNext(db: Db, mid: Db, report: Report, refs: seq<Ref>, min: Cents)
    requires |refs| == |report.details| + 1 && FreshRefs(db, refs)
    requires SweptAsReported(db, mid, report, refs[..|report.details|], min)
    ensures refs[|report.details|] !in mid.payouts
  {
  }

  /** A later turn of another account does not undo a sweep. */
  lemma SweptOutKept(db: Db, mid: Db, db': Db, account: AccountId, ref: Ref, paid: Cents, min: Cents, other: AccountId,
                     otherRef: Ref)
    requires SweptOut(db, mid, account, ref, paid, min) && TurnFrame(mid, db', otherRef, other) && account != other
    ensures SweptOut(db, db', account, ref, paid, min)
  {
    var k := WalletKey(account, CollectionWallet);
    assert k in mid.books.wallets ==> k != WalletKey(other, CollectionWallet);
  }

  /** A sweep that did as it reported, and the next account's turn. */
  ghost predicate NextTurn(db: Db, mid: Db, db': Db, report: Report, accounts: seq<AccountId>, refs: seq<Ref>,
                           verdict: Verdict, min: Cents) {
    var n := |report.details|;
    && |accounts| == |refs| == n + 1
    && DistinctAccounts(accounts) && FreshRefs(db, refs)
    && (forall i :: 0 <= i < n ==> report.details[i].account == accounts[i])
    && SweptAsReported(db, mid, report, refs[..n], min)
    && TurnFrame(mid, db', refs[n], accounts[n])
    && (forall a :: ScheduleOf(db', a) == ScheduleOf(mid, a))
    && if verdict.Swept? then SweptOut(mid, db', accounts[n], refs[n], verdict.amount, min) else LeftAlone(mid, db')
  }

  lemma EarlierSwept(db: Db, mid: Db, db': Db, report: Report, accounts: seq<AccountId>, refs: seq<Ref>,
                     verdict: Verdict, min: Cents, i: nat)
    requires NextTurn(db, mid, db', report, accounts, refs, verdict, min) && i < |report.details| && SweptAt(report, i)
    ensures SweptOut(db, db', accounts[i], refs[i], report.details[i].verdict.amount, min)
  {
    var n := |report.details|;
    assert refs[..n][i] == refs[i];
    hide SweptOut, TurnFrame;
    SweptOutKept(db, mid, db', accounts[i], refs[i], report.details[i].verdict.amount, min, accounts[n], refs[n]);
  }

  /** What the account had when its turn came is what it had at the start. */
  lemma UntilItsTurn(db: Db, mid: Db, report: Report, accounts: seq<AccountId>, refs: seq<Ref>, min: Cents, n: nat)
    requires n == |report.details| == |refs| < |accounts| && DistinctAccounts(accounts)
    requires forall i :: 0 <= i < n ==> report.details[i].account == accounts[i]
    requires SweptAsReported(db, mid, report, refs, min)
    ensures var k := WalletKey(accounts[n], CollectionWallet);
            && (k in mid.books.wallets <==> k in db.books.wallets)
            && (k in db.books.wallets ==> mid.books.wallets[k] == db.books.wallets[k])
  {
    assert Untouched(report, WalletKey(accounts[n], CollectionWallet));
    hide SweptOut;
  }

  lemma NewRows(db: Db, mid: Db, db': Db, report: Report, accounts: seq<AccountId>, refs: seq<Ref>, verdict: Verdict,
                min: Cents, r: Ref)
    requires NextTurn(db, mid, db', report, accounts, refs, verdict, min) && r in db'.payouts && r !in db.payouts
    ensures var report' := Extended(report, accounts[|report.details|], verdict);
            exists i :: 0 <= i < |refs| && refs[i] == r && SweptAt(report', i)
  {
    hide SweptOut, FreshRefs, DistinctAccounts, ScheduleOf;
    var n := |report.details|;
    var report' := Extended(report, accounts[n], verdict);
    if r in mid.payouts {
      var i :| 0 <= i < n && refs[..n][i] == r && SweptAt(report, i);
      assert refs[i] == r && SweptAt(report', i);
    } else {
      assert refs[n] == r && SweptAt(report', n);
    }
  }

  lemma UntouchedKept(db: Db, mid: Db, db': Db, report: Report, accounts: seq<AccountId>, refs: seq<Ref>,
                      verdict: Verdict, min: Cents, k: WalletKey)
    requires NextTurn(db, mid, db', report, accounts, refs, verdict, min) && k in db.books.wallets
    requires Untouched(Extended(report, accounts[|report.details|], verdict), k)
    ensures k in db'.books.wallets && db'.books.wallets[k] == db.books.wallets[k]
  {
    var n := |report.details|;
    var report' := Extended(report, accounts[n], verdict);
    hide SweptOut;
    forall i | 0 <= i < n && SweptAt(report, i) ensures k != WalletKey(report.details[i].account, CollectionWallet) {
      assert SweptAt(report', i);
    }
    assert Untouched(report, k);
    assert verdict.Swept? ==> SweptAt(report', n);
  }

  /** Adding one account's turn to a sweep that did as it reported. */
  lemma OneMoreTurn(db: Db, mid: Db, db': Db, report: Report, accounts: seq<AccountId>, refs: seq<Ref>,
                    verdict: Verdict, min: Cents)
    requires |accounts| == |refs| == |report.details| + 1
    requires NextTurn(db, mid, db', report, accounts, refs, verdict, min)
    ensures SweptAsReported(db, db', Extended(report, accounts[|report.details|], verdict), refs, min)
  {
    hide NextTurn, SweptOut, Untouched, ScheduleOf;
    var n := |report.details|;
    var report' := Extended(report, accounts[n], verdict);
    RestKept(db, mid, db', report, accounts, refs, verdict, min);
    forall i | 0 <= i < n + 1 && SweptAt(report', i)
      ensures SweptOut(db, db', report'.details[i].account, refs[i], report'.details[i].verdict.amount, min)
    {
      if i < n {
        EarlierSwept(db, mid, db', report, accounts, refs, verdict, min, i);
      }
    }
    forall r | r in db'.payouts && r !in db.payouts
      ensures exists i :: 0 <= i < |refs| && refs[i] == r && SweptAt(report', i)
    {
      NewRows(db, mid, db', report, accounts, refs, verdict, min, r);
    }
    forall k | k in db.books.wallets && Untouched(report', k) ensures db'.books.wallets[k] == db.books.wallets[k] {
      UntouchedKept(db, mid, db', report, accounts, refs, verdict, min, k);
    }
  }

  /** The turn's own sweep, and what neither the sweep so far nor the turn has changed. */
  lemma RestKept(db: Db, mid: Db, db': Db, report: Report, accounts: seq<AccountId>, refs: seq<Ref>,
                 verdict: Verdict, min: Cents)
    requires NextTurn(db, mid, db', report, accounts, refs, verdict, min)
    ensures var n := |report.details|;
            && (verdict.Swept? ==> SweptOut(db, db', accounts[n], refs[n], verdict.amount, min))
            && (forall i :: 0 <= i < n ==> report.details[i].account == accounts[i])
            && db'.books.clock == db.books.clock && db'.books.wallets.Keys == db.books.wallets.Keys
            && (forall a :: ScheduleOf(db', a) == ScheduleOf(db, a))
            && (forall r :: r in db.payouts ==> r in db'.payouts && db'.payouts[r] == db.payouts[r])
  {
    hide ScheduleOf;
    UntilItsTurn(db, mid, report, accounts, refs[..|report.details|], min, |report.details|);
  }

  // --------------------------- Who is swept at all ---------------------------

  /** An account's verdict depends on nothing that the turns of other accounts change. */
  lemma SameVerdict(db: Db, mid: Db, ref: Ref, a: AccountId, start: nat, min: Cents, dryRun: bool)
    requires a in db.accounts && mid.accounts == db.accounts && ref !in db.payouts && ref !in mid.payouts
    requires ScheduleOf(mid, a) == ScheduleOf(db, a)
    requires var k := WalletKey(a, CollectionWallet);
             && (k in mid.books.wallets <==> k in db.books.wallets)
             && (k in db.books.wallets ==> mid.books.wallets[k] == db.books.wallets[k])
    requires SweptToday(mid, a, start) <==> SweptToday(db, a, start)
    ensures SweepAccount(mid, ref, a, start, min, dryRun).1 == SweepAccount(db, ref, a, start, min, dryRun).1
  {
    var fee := TurnVerdict(db, ref, a, start, min, dryRun);
    var fee' := TurnVerdict(mid, ref, a, start, min, dryRun);
    var balance := BalanceOf(db.books, WalletKey(a, CollectionWallet));
    ChargedIff(db, a, balance, fee);
    assert DisbursementCharge(db, a, balance, fee');
    ChargedIff(db, a, balance, fee');
    hide SweepAccount, SweptToday, DisbursementCharge, DisbursementFeeOf;
  }

  /** The sweep payouts of an account whose turn has not come are those it had. */
  lemma NoSweepYet(db: Db, mid: Db, report: Report, accounts: seq<AccountId>, refs: seq<Ref>, start: nat, min: Cents,
                   n: nat)
    requires n == |report.details| == |refs| < |accounts| && DistinctAccounts(accounts)
    requires forall i :: 0 <= i < n ==> report.details[i].account == accounts[i]
    requires SweptAsReported(db, mid, report, refs, min)
    ensures SweptToday(mid, accounts[n], start) <==> SweptToday(db, accounts[n], start)
  {
    forall r | r in mid.payouts && r !in db.payouts ensures mid.payouts[r].account != accounts[n] {
      var i :| 0 <= i < n && refs[i] == r && SweptAt(report, i);
      assert SweptOut(db, mid, accounts[i], refs[i], report.details[i].verdict.amount, min);
    }
    if SweptToday(mid, accounts[n], start) {
      var r :| r in mid.payouts && IsTodaysSweep(mid.payouts[r], accounts[n], start);
      assert r in db.payouts && IsTodaysSweep(db.payouts[r], accounts[n], start);
    }
    if r :| r in db.payouts && IsTodaysSweep(db.payouts[r], accounts[n], start) {
      assert r in mid.payouts && IsTodaysSweep(mid.payouts[r], accounts[n], start);
    }
  }

  /** In a sweep each account gets the verdict it would get alone, whatever was swept before its turn. */
  lemma {:induction false} TurnsIndependent(db: Db, accounts: seq<AccountId>, refs: seq<Ref>, start: nat, min: Cents,
                                            dryRun: bool, i: nat)
    requires |refs| == |accounts| && forall a :: a in accounts ==> a in db.accounts
    requires DistinctAccounts(accounts) && FreshRefs(db, refs) && i < |accounts|
    ensures var report := SweepAll(db, accounts, refs, start, min, dryRun).1;
            && |report.details| == |accounts|
            && report.details[i].verdict == SweepAccount(db, refs[i], accounts[i], start, min, dryRun).1
    decreases |accounts|
  {
    hide SweepAccount, SweptAsReported, SweptToday, Accounted;
    var n := |accounts| - 1;
    var (mid, report) := SweepAll(db, accounts[..n], refs[..n], start, min, dryRun);
    SweepMeaning(db, accounts[..n], refs[..n], start, min, dryRun);
    AccountedLines(report, accounts[..n], dryRun);
    if i < n {
      TurnsIndependent(db, accounts[..n], refs[..n], start, min, dryRun, i);
    } else {
      FreshNext(db, mid, report, refs, min);
      UntilItsTurn(db, mid, report, accounts, refs[..n], min, n);
      NoSweepYet(db, mid, report, accounts, refs[..n], start, min, n);
      SchedulesReported(db, mid, report, refs[..n], min, accounts[n]);
      SameVerdict(db, mid, refs[n], accounts[n], start, min, dryRun);
    }
  }

  lemma AccountedLines(report: Report, accounts: seq<AccountId>, dryRun: bool)
    requires Accounted(report, accounts, dryRun)
    ensures |report.details| == |accounts|
    ensures forall i :: 0 <= i < |accounts| ==> report.details[i].account == accounts[i]
  {
  }

  lemma SchedulesReported(db: Db, mid: Db, report: Report, refs: seq<Ref>, min: Cents, a: AccountId)
    requires |refs| == |report.details| && SweptAsReported(db, mid, report, refs, min)
    ensures ScheduleOf(mid, a) == ScheduleOf(db, a)
  {
  }

  // ---------------------------------- Again ---------------------------------

  /** The account's turn would change nothing. */
  ghost predicate Idle(db: Db, account: AccountId, start: nat, min: Cents)
    requires account in db.accounts
  {
    var balance, k := CollectionBalance(db, account), WalletKey(account, CollectionWallet);
    || !db.accounts[account].hasSettlement
    || balance <= 0
    || SweptSince(db, account, start)
    || (account in db.fees
        && (balance - DisbursementFeeOf(db, account, balance) < min || db.books.wallets[k].status.FrozenWallet?))
  }

  lemma IdleTurn(db: Db, ref: Ref, account: AccountId, start: nat, min: Cents)
    requires account in db.accounts && Idle(db, account, start, min)
    ensures SweepAccount(db, ref, account, start, min, false).0 == db
    ensures !SweepAccount(db, ref, account, start, min, false).1.Swept?
  {
    hide DisbursementFeeOf, SweptSince;
    if account in db.fees {
      assert db.fees[account := ConfigOf(db, account)] == db.fees;
      assert EnsureConfig(db, account) == db;
    }
  }

  /** After its turn an account is idle. */
  lemma TurnMakesIdle(db: Db, ref: Ref, account: AccountId, start: nat, min: Cents)
    requires account in db.accounts
    ensures Idle(SweepAccount(db, ref, account, start, min, false).0, account, start, min)
  {
    hide SweptSince, Fees.ComputeFee;
  }

  /** Another account's turn does not wake an idle account. */
  lemma TurnKeepsIdle(db: Db, ref: Ref, account: AccountId, start: nat, min: Cents, other: AccountId)
    requires account in db.accounts && other in db.accounts && account != other && ref !in db.payouts
    requires Idle(db, other, start, min)
    ensures Idle(SweepAccount(db, ref, account, start, min, false).0, other, start, min)
  {
    TurnFramed(db, ref, account, start, min, false);
    hide SweepAccount, Fees.ComputeFee;
    var k := WalletKey(other, CollectionWallet);
    assert k in db.books.wallets ==> k != WalletKey(account, CollectionWallet);
  }

  lemma {:induction false} SweepLeavesIdle(db: Db, accounts: seq<AccountId>, refs: seq<Ref>, start: nat, min: Cents)
    requires |refs| == |accounts| && forall a :: a in accounts ==> a in db.accounts
    requires DistinctAccounts(accounts) && FreshRefs(db, refs)
    ensures var db' := SweepAll(db, accounts, refs, start, min, false).0;
            forall a :: a in accounts ==> Idle(db', a, start, min)
    decreases |accounts|
  {
    if accounts != [] {
      hide Idle, SweepAccount, SweptAsReported, Accounted;
      var n := |accounts| - 1;
      SweepLeavesIdle(db, accounts[..n], refs[..n], start, min);
      SweepMeaning(db, accounts[..n], refs[..n], start, min, false);
      var (mid, report) := SweepAll(db, accounts[..n], refs[..n], start, min, false);
      var db' := SweepAccount(mid, refs[n], accounts[n], start, min, false).0;
      TurnMakesIdle(mid, refs[n], accounts[n], start, min);
      AccountedLines(report, accounts[..n], false);
      FreshNext(db, mid, report, refs, min);
      forall a | a in accounts ensures Idle(db', a, start, min) {
        if a != accounts[n] {
          var i :| 0 <= i < |accounts| && accounts[i] == a;
          assert accounts[..n][i] == a;
          TurnKeepsIdle(mid, refs[n], accounts[n], start, min, a);
        }
      }
    }
  }

  lemma {:induction false} IdleSweep(db: Db, accounts: seq<AccountId>, refs: seq<Ref>, start: nat, min: Cents)
    requires |refs| == |accounts| && forall a :: a in accounts ==> a in db.accounts && Idle(db, a, start, min)
    ensures SweepAll(db, accounts, refs, start, min, false).0 == db
    ensures SweepAll(db, accounts, refs, start, min, false).1.created == 0
    decreases |accounts|
  {
    if accounts != [] {
      var n := |accounts| - 1;
      IdleSweep(db, accounts[..n], refs[..n], start, min);
      IdleTurn(db, refs[n], accounts[n], start, min);
      hide SweepAccount;
    }
  }

  /**
   Running the sweep again at once on the same day creates nothing and changes nothing at all, whichever
   of the same accounts it selects and in whatever order.
   */
  lemma {:induction false} SweepAgain(db: Db, accounts: seq<AccountId>, refs: seq<Ref>, again: seq<AccountId>,
                                      refs': seq<Ref>, start: nat, min: Cents)
    requires |refs| == |accounts| && forall a :: a in accounts ==> a in db.accounts
    requires DistinctAccounts(accounts) && FreshRefs(db, refs)
    requires |refs'| == |again| && forall a :: a in again ==> a in accounts
    ensures var db' := SweepAll(db, accounts, refs, start, min, false).0;
            var (db'', report) := SweepAll(db', again, refs', start, min, false);
            db'' == db' && report.created == 0
  {
    SweepLeavesIdle(db, accounts, refs, start, min);
    hide Idle;
    IdleSweep(SweepAll(db, accounts, refs, start, min, false).0, again, refs', start, min);
  }

  // ------------------------------- The selection ----------------------------

  ghost predicate IsListing(accounts: map<AccountId, Account>, listing: seq<AccountId>) {
    DistinctAccounts(listing) && forall a :: a in listing <==> a in accounts
  }

  /** The sweep selects each active account that has not opted out, once, and no other. */
  lemma {:induction false} SelectedMeaning(accounts: map<AccountId, Account>, listing: seq<AccountId>)
    requires DistinctAccounts(listing)
    ensures DistinctAccounts(Selected(accounts, listing))
    ensures forall a :: a in Selected(accounts, listing)
                   <==> a in listing && a in accounts && accounts[a].active && accounts[a].autoSweep
  {
    if listing != [] {
      var n := |listing| - 1;
      SelectedMeaning(accounts, listing[..n]);
      assert forall a :: a in listing <==> a in listing[..n] || a == listing[n];
    }
  }

  lemma {:induction false} SelectedListed(accounts: map<AccountId, Account>, listing: seq<AccountId>)
    ensures forall a :: a in Selected(accounts, listing) ==> a in listing
  {
    if listing != [] {
      SelectedListed(accounts, listing[..|listing| - 1]);
    }
  }

  /** The selected accounts come in the order in which they are listed. */
  lemma {:induction false} SelectedInOrder(accounts: map<AccountId, Account>, listing: seq<AccountId>, i: nat, j: nat)
    returns (p: nat, q: nat)
    requires i < j < |Selected(accounts, listing)|
    ensures p < q < |listing|
    ensures listing[p] == Selected(accounts, listing)[i] && listing[q] == Selected(accounts, listing)[j]
  {
    var n := |listing| - 1;
    var front := Selected(accounts, listing[..n]);
    if j < |front| {
      p, q := SelectedInOrder(accounts, listing[..n], i, j);
    } else {
      q := n;
      SelectedListed(accounts, listing[..n]);
      assert front[i] in front && front[i] in listing[..n];
      p :| p < n && listing[..n][p] == front[i];
    }
  }

  predicate OptedIn(db: Db, a: AccountId) {
    a in db.accounts && db.accounts[a].active && db.accounts[a].autoSweep
  }

  /** The daily run, over the whole account table: a wallet it may not touch is as it was. */
  lemma {:induction false} DailySweepMeaning(db: Db, listing: seq<AccountId>, refs: seq<Ref>, start: nat, min: Cents,
                                             dryRun: bool, k: WalletKey)
    requires |refs| == |Selected(db.accounts, listing)| && IsListing(db.accounts, listing) && FreshRefs(db, refs)
    ensures var (db', report) := DailySweep(db, listing, refs, start, min, dryRun);
            && Accounted(report, Selected(db.accounts, listing), dryRun)
            && SweptAsReported(db, db', report, refs, min)
            && (k in db.books.wallets
                && (k.kind.DisbursementWallet? || !OptedIn(db, k.account))
                ==> k in db'.books.wallets && db'.books.wallets[k] == db.books.wallets[k])
  {
    var accounts := Selected(db.accounts, listing);
    SelectedMeaning(db.accounts, listing);
    SweepMeaning(db, accounts, refs, start, min, dryRun);
    hide SweepAll, Selected, SweptOut;
    var (db', report) := SweepAll(db, accounts, refs, start, min, dryRun);
    if k.kind.DisbursementWallet? || !OptedIn(db, k.account) {
      assert Untouched(report, k) by {
        forall i | 0 <= i < |report.details| ensures k != WalletKey(report.details[i].account, CollectionWallet) {
          assert accounts[i] in accounts;
        }
      }
    }
  }

  /** Everything a sweep of an account needs at the moment the daily run starts. */
  predicate Due(db: Db, a: AccountId, start: nat, min: Cents, fee: Cents) {
    var k := WalletKey(a, CollectionWallet);
    && OptedIn(db, a) && db.accounts[a].hasSettlement
    && k in db.books.wallets && db.books.wallets[k].status == ActiveWallet && db.books.wallets[k].balance > 0
    && !SweptToday(db, a, start)
    && db.books.wallets[k].balance - fee >= min
  }

  /** The account's wallet was emptied into one payout of its balance less the fee. */
  ghost predicate PaidOut(db: Db, db': Db, refs: seq<Ref>, a: AccountId, fee: Cents) {
    var k := WalletKey(a, CollectionWallet);
    && BalanceOf(db'.books, k) == 0
    && exists r :: r in refs && r in db'.payouts
         && db'.payouts[r] == Payout(a, None, Some("AUTO-SWEEP"), CollectionWallet, AutoSweep,
                                     BalanceOf(db.books, k) - fee, Some(fee), Pending, true, false, db.books.clock)
  }

  /** Nothing of the account was touched. */
  ghost predicate NotPaidOut(db: Db, db': Db, a: AccountId) {
    var k := WalletKey(a, CollectionWallet);
    && (k in db'.books.wallets <==> k in db.books.wallets)
    && (k in db.books.wallets ==> db'.books.wallets[k] == db.books.wallets[k])
    && forall r :: r in db'.payouts && r !in db.payouts ==> db'.payouts[r].account != a
  }

  /**
   The daily run sweeps exactly the accounts that are due when it starts, each of them, whatever it does with
   the others before: the wallet is paid out less the fee. Of any other account it touches nothing.
   */
  lemma DailySweepIff(db: Db, listing: seq<AccountId>, refs: seq<Ref>, start: nat, min: Cents, a: AccountId)
    returns (fee: Cents)
    requires |refs| == |Selected(db.accounts, listing)| && IsListing(db.accounts, listing) && FreshRefs(db, refs)
    ensures DisbursementCharge(db, a, BalanceOf(db.books, WalletKey(a, CollectionWallet)), fee)
    ensures var db' := DailySweep(db, listing, refs, start, min, false).0;
            if Due(db, a, start, min, fee) then PaidOut(db, db', refs, a, fee) else NotPaidOut(db, db', a)
  {
    hide SweepAll, Selected, SweptOut, SweptAsReported, SweptToday, Accounted, SweepAccount, DisbursementCharge;
    hide DisbursementFeeOf, PaidOut, NotPaidOut;
    var balance := BalanceOf(db.books, WalletKey(a, CollectionWallet));
    fee := DisbursementFeeOf(db, a, balance);
    ChargedIff(db, a, balance, fee);
    var accounts := Selected(db.accounts, listing);
    SelectedMeaning(db.accounts, listing);
    SweepMeaning(db, accounts, refs, start, min, false);
    var (db', report) := SweepAll(db, accounts, refs, start, min, false);
    AccountedLines(report, accounts, false);
    if a in accounts {
      var i :| 0 <= i < |accounts| && accounts[i] == a;
      TurnsIndependent(db, accounts, refs, start, min, false, i);
      var fee' := TurnVerdict(db, refs[i], a, start, min, false);
      ChargedIff(db, a, balance, fee');
      if SweptAt(report, i) {
        SweptLine(db, db', report, refs, min, a, i, fee);
      } else {
        NotSweptLine(db, db', report, refs, min, a);
      }
    } else {
      NotSweptLine(db, db', report, refs, min, a);
    }
  }

  lemma SweptLine(db: Db, db': Db, report: Report, refs: seq<Ref>, min: Cents, a: AccountId, i: nat, fee: Cents)
    requires |refs| == |report.details| && SweptAsReported(db, db', report, refs, min)
    requires i < |refs| && report.details[i].account == a && SweptAt(report, i)
    requires report.details[i].verdict.amount == BalanceOf(db.books, WalletKey(a, CollectionWallet)) - fee
    ensures PaidOut(db, db', refs, a, fee)
  {
    hide SweptAsReported, DisbursementCharge;
    LineSwept(db, db', report, refs, min, i);
    assert refs[i] in refs;
  }

  lemma LineSwept(db: Db, db': Db, report: Report, refs: seq<Ref>, min: Cents, i: nat)
    requires |refs| == |report.details| && SweptAsReported(db, db', report, refs, min)
    requires i < |refs| && SweptAt(report, i)
    ensures SweptOut(db, db', report.details[i].account, refs[i], report.details[i].verdict.amount, min)
  {
    hide SweptOut;
  }

  lemma NotSweptLine(db: Db, db': Db, report: Report, refs: seq<Ref>, min: Cents, a: AccountId)
    requires |refs| == |report.details| && SweptAsReported(db, db', report, refs, min)
    requires forall i :: 0 <= i < |refs| && report.details[i].account == a ==> !SweptAt(report, i)
    ensures NotPaidOut(db, db', a)
  {
    assert Untouched(report, WalletKey(a, CollectionWallet));
    forall r | r in db'.payouts && r !in db.payouts ensures db'.payouts[r].account != a {
      var i :| 0 <= i < |refs| && refs[i] == r && SweptAt(report, i);
      assert SweptOut(db, db', report.details[i].account, refs[i], report.details[i].verdict.amount, min);
    }
  }

  /** A second daily run, on the same day and in any order, creates nothing and changes nothing at all. */
  lemma {:induction false} DailySweepAgain(db: Db, listing: seq<AccountId>, refs: seq<Ref>, again: seq<AccountId>,
                                           refs': seq<Ref>, start: nat, min: Cents)
    requires |refs| == |Selected(db.accounts, listing)| && IsListing(db.accounts, listing) && FreshRefs(db, refs)
    requires |refs'| == |Selected(db.accounts, again)| && IsListing(db.accounts, again)
    ensures var db' := DailySweep(db, listing, refs, start, min, false).0;
            && db'.accounts == db.accounts
            && DailySweep(db', again, refs', start, min, false).0 == db'
            && DailySweep(db', again, refs', start, min, false).1.created == 0
  {
    SelectedMeaning(db.accounts, listing);
    SelectedMeaning(db.accounts, again);
    hide SweepAll, Selected;
    SweepAgain(db, Selected(db.accounts, listing), refs, Selected(db.accounts, again), refs', start, min);
  }

  // ----------------------------- A run of the engine ------------------------

  lemma SweepStep(db: Db, ref: Ref, account: AccountId, start: nat, min: Cents, dryRun: bool)
    requires account in db.accounts
    ensures Next(db, Sweep(ref, account, start, min, dryRun)) == SweepAccount(db, ref, account, start, min, dryRun).0
  {
    hide SweepAccount;
  }

  function SweepSteps(accounts: seq<AccountId>, refs: seq<Ref>, start: nat, min: Cents, dryRun: bool): seq<Step>
    requires |refs| == |accounts|
  {
    if accounts == [] then []
    else
      var n := |accounts| - 1;
      SweepSteps(accounts[..n], refs[..n], start, min, dryRun) + [Sweep(refs[n], accounts[n], start, min, dryRun)]
  }

  /** A sweep is a run of per-account steps: every law of runs covers it. */
  lemma {:induction false} SweepIsRun(db: Db, accounts: seq<AccountId>, refs: seq<Ref>, start: nat, min: Cents,
                                      dryRun: bool)
    requires |refs| == |accounts| && forall a :: a in accounts ==> a in db.accounts
    ensures SweepAll(db, accounts, refs, start, min, dryRun).0
         == Run(db, SweepSteps(accounts, refs, start, min, dryRun))
    decreases |accounts|
  {
    if accounts != [] {
      var n := |accounts| - 1;
      SweepIsRun(db, accounts[..n], refs[..n], start, min, dryRun);
      RunAppend(db, SweepSteps(accounts[..n], refs[..n], start, min, dryRun),
                Sweep(refs[n], accounts[n], start, min, dryRun));
      hide SweepAccount, Next, Run;
      SweepStep(SweepAll(db, accounts[..n], refs[..n], start, min, dryRun).0, refs[n], accounts[n], start, min, dryRun);
    }
  }
}
