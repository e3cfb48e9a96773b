/**
 Exactly-once credit: what a whole run does for one collection or one deposit.
 */
module ReceiptLaws {
  import opened Wrappers
  import opened Totals
  import opened ProviderStatus
  import opened Tables
  import opened FeeSchedules
  import opened Wallets
  import opened TxnStatus
  import opened Disbursements
  import opened Collections
  import opened Engine
  import opened EngineLaws
  import opened RowLaws
  import opened StatusMachine
  import Fees

  // ------------------------------ The status mark ---------------------------

  function MarkOf(row: Receipt): Mark {
    Mark(row.status, row.credited)
  }

  /** The statuses of the records a run applies to collection r, in order. */
  function CollectionRecords(steps: seq<Step>, r: Ref): seq<TxStatus> {
    if steps == [] then []
    else
      var front, last := CollectionRecords(steps[..|steps| - 1], r), steps[|steps| - 1];
      if last.CollectionRecord? && last.ref == r then front + [last.next] else front
  }

  function DepositRecords(steps: seq<Step>, r: Ref): seq<TxStatus> {
    if steps == [] then []
    else
      var front, last := DepositRecords(steps[..|steps| - 1], r), steps[|steps| - 1];
      if last.DepositRecord? && last.ref == r then front + [last.next] else front
  }

  lemma {:induction false} ObserveAppend(m: Mark, records: seq<TxStatus>, next: TxStatus, triggers: TxStatus -> bool)
    ensures ObserveAll(m, records + [next], triggers) == Observe(ObserveAll(m, records, triggers), next, triggers)
  {
    assert (records + [next])[..|records|] == records;
  }

  /** Whatever else happens in a run, a collection's mark depends on its own records only. */
  lemma {:induction false} CollectionMark(db: Db, steps: seq<Step>, r: Ref)
    requires WellFormed(db) && r in db.collections
    ensures r in Run(db, steps).collections
    ensures MarkOf(Run(db, steps).collections[r])
         == ObserveAll(MarkOf(db.collections[r]), CollectionRecords(steps, r), OnSuccess())
  {
    if steps != [] {
      var front, s := steps[..|steps| - 1], steps[|steps| - 1];
      var mid := Run(db, front);
      hide Next, ApplyCollection, WellFormed;
      CollectionMark(db, front, r);
      RunWellFormed(db, front);
      if s.CollectionRecord? && s.ref == r {
        ObserveAppend(MarkOf(db.collections[r]), CollectionRecords(front, r), s.next, OnSuccess());
        CollectionObserves(mid, r, s.next, s.collected);
      } else if s.StartCollection? && s.ref == r {
        StartCollectionRow(mid, s, r);
      } else {
        CollectionFrame(mid, s, r);
      }
    }
  }

  lemma CollectionObserves(db: Db, r: Ref, next: TxStatus, collected: Option<Cents>)
    requires WellFormed(db) && r in db.collections
    ensures var db' := Next(db, CollectionRecord(r, next, collected));
            r in db'.collections
            && MarkOf(db'.collections[r]) == Observe(MarkOf(db.collections[r]), next, OnSuccess())
  {
    hide CollectionFeeOf, ApplyCollection, WellFormed, HasConfig;
    ReceiptConfig(db, r);
    CollectionRecordShape(db, r, next, collected);
  }

  lemma {:induction false} DepositMark(db: Db, steps: seq<Step>, r: Ref)
    requires r in db.deposits
    ensures r in Run(db, steps).deposits
    ensures MarkOf(Run(db, steps).deposits[r])
         == ObserveAll(MarkOf(db.deposits[r]), DepositRecords(steps, r), OnSuccess())
  {
    if steps != [] {
      var front, s := steps[..|steps| - 1], steps[|steps| - 1];
      var mid := Run(db, front);
      hide Next, ApplyCollection, ApplyDeposit;
      DepositMark(db, front, r);
      if s.DepositRecord? && s.ref == r {
        ObserveAppend(MarkOf(db.deposits[r]), DepositRecords(front, r), s.next, OnSuccess());
        DepositObserves(mid, r, s.next, s.collected);
      } else if s.StartDeposit? && s.ref == r {
        StartDepositRow(mid, s, r);
      } else {
        DepositFrame(mid, s, r);
      }
    }
  }

  lemma DepositObserves(db: Db, r: Ref, next: TxStatus, collected: Option<Cents>)
    requires r in db.deposits
    ensures var db' := Next(db, DepositRecord(r, next, collected));
            r in db'.deposits
            && MarkOf(db'.deposits[r]) == Observe(MarkOf(db.deposits[r]), next, OnSuccess())
  {
    DepositRecordShape(db, r, next, collected);
    hide ApplyDeposit;
  }

  // ------------------------------ The ledger side ---------------------------

  /** The engine's own credit of receipt r: manual rows that happen to name r do not count. */
  predicate IsCredit(row: LedgerRow, t: TxType, r: Ref) {
    row.txType == t && !row.manual && row.reference == Some(r)
  }

  function CountCredit(t: TxType, r: Ref): LedgerRow -> int {
    (row: LedgerRow) => if IsCredit(row, t, r) then 1 else 0
  }

  function CreditMoney(t: TxType, r: Ref): LedgerRow -> int {
    (row: LedgerRow) => if IsCredit(row, t, r) then row.amount else 0
  }

  function CreditOf(c: Receipt): Cents {
    Abs(c.gross - c.feeAmount.GetOr(0))
  }

  /** The ledger holds one credit of the right amount for a credited receipt and none for any other. */
  ghost predicate Booked(table: map<Ref, Receipt>, ledger: seq<LedgerRow>, t: TxType, r: Ref) {
    if r in table && table[r].credited then
      && SumOf(ledger, CountCredit(t, r)) == (if CreditOf(table[r]) == 0 then 0 else 1)
      && SumOf(ledger, CreditMoney(t, r)) == CreditOf(table[r])
    else
      && SumOf(ledger, CountCredit(t, r)) == 0
      && SumOf(ledger, CreditMoney(t, r)) == 0
  }

  ghost predicate CollectionBooked(db: Db, r: Ref) {
    Booked(db.collections, db.books.ledger, CollectionCredit, r)
  }

  /** Deposits carry no fee. */
  ghost predicate DepositBooked(db: Db, r: Ref) {
    Booked(db.deposits, db.books.ledger, Deposit, r) && (r in db.deposits ==> db.deposits[r].feeAmount.None?)
  }

  /** An engine credit of net cents writes one row of |net| cents, or none when net is 0. */
  lemma CreditWrites(b: Books, m: Movement, t: TxType, r: Ref)
    requires m.wallet in b.wallets && m.ignoreFrozen && !IsDebit(m) && !m.manual
    requires m.txType == t && m.reference == Some(r)
    ensures var ledger' := After(b, Move(b, m)).ledger;
            && SumOf(ledger', CountCredit(t, r))
            == SumOf(b.ledger, CountCredit(t, r)) + (if m.amount == 0 then 0 else 1)
            && SumOf(ledger', CreditMoney(t, r)) == SumOf(b.ledger, CreditMoney(t, r)) + Abs(m.amount)
  {
    MoveSum(b, m, CountCredit(t, r));
    MoveSum(b, m, CreditMoney(t, r));
  }

  lemma CollectionRecordBooked(db: Db, r: Ref, next: TxStatus, collected: Option<Cents>)
    requires WellFormed(db) && CollectionBooked(db, r)
    ensures CollectionBooked(ApplyCollection(db, r, next, collected).db, r)
  {
    hide CollectionFeeOf, Move, FeesFormed, PayoutsFormed;
    if r in db.collections {
      var row := db.collections[r];
      CreditWrites(db.books, CollectionCreditOf(r, row, GrossOf(row, collected) - CollectionFeeOf(db, row, collected)),
                   CollectionCredit, r);
    }
  }

  lemma DepositRecordBooked(db: Db, r: Ref, next: TxStatus, collected: Option<Cents>)
    requires WellFormed(db) && DepositBooked(db, r)
    ensures DepositBooked(ApplyDeposit(db, r, next, collected).db, r)
  {
    DepositRecordShape(db, r, next, collected);
    hide ApplyDeposit, Move, FeesFormed, PayoutsFormed;
    if r in db.deposits {
      var row := db.deposits[r];
      CreditWrites(db.books, DepositCreditOf(r, row, GrossOf(row, collected)), Deposit, r);
    }
  }

  lemma StepCollectionBooked(db: Db, s: Step, r: Ref)
    requires WellFormed(db) && CollectionBooked(db, r)
    ensures CollectionBooked(Next(db, s), r)
  {
    if s.CollectionRecord? && s.ref == r {
      CollectionRecordBooked(db, r, s.next, s.collected);
    } else {
      hide Next, WellFormed;
      StepExtends(db, s);
      ExtendsSum(db.books.ledger, Next(db, s).books.ledger, s, CountCredit(CollectionCredit, r));
      ExtendsSum(db.books.ledger, Next(db, s).books.ledger, s, CreditMoney(CollectionCredit, r));
      if s.StartCollection? && s.ref == r {
        StartCollectionRow(db, s, r);
      } else {
        CollectionFrame(db, s, r);
      }
    }
  }

  lemma StartCollectionRow(db: Db, s: Step, r: Ref)
    requires s.StartCollection? && s.ref == r
    ensures r in db.collections ==> Next(db, s) == db
    ensures r !in db.collections && r in Next(db, s).collections ==> !Next(db, s).collections[r].credited
  {
    hide HasReceipt, MapProviderStatus;
  }

  lemma StartDepositRow(db: Db, s: Step, r: Ref)
    requires s.StartDeposit? && s.ref == r
    ensures r in db.deposits ==> Next(db, s) == db
    ensures r !in db.deposits && r in Next(db, s).deposits
            ==> !Next(db, s).deposits[r].credited && Next(db, s).deposits[r].feeAmount.None?
  {
    hide HasReceipt, MapProviderStatus;
  }

  lemma StepDepositBooked(db: Db, s: Step, r: Ref)
    requires WellFormed(db) && DepositBooked(db, r)
    ensures DepositBooked(Next(db, s), r)
  {
    if s.DepositRecord? && s.ref == r {
      DepositRecordBooked(db, r, s.next, s.collected);
    } else {
      hide Next, WellFormed;
      StepExtends(db, s);
      ExtendsSum(db.books.ledger, Next(db, s).books.ledger, s, CountCredit(Deposit, r));
      ExtendsSum(db.books.ledger, Next(db, s).books.ledger, s, CreditMoney(Deposit, r));
      if s.StartDeposit? && s.ref == r {
        StartDepositRow(db, s, r);
      } else {
        DepositFrame(db, s, r);
      }
    }
  }

  /** In every state of every run the ledger holds exactly one credit per credited receipt. */
  lemma {:induction false} RunBooked(steps: seq<Step>, r: Ref)
    ensures CollectionBooked(Run(EMPTY, steps), r) && DepositBooked(Run(EMPTY, steps), r)
  {
    if steps != [] {
      var front := steps[..|steps| - 1];
      RunBooked(front, r);
      RunWellFormed(EMPTY, front);
      StepCollectionBooked(Run(EMPTY, front), steps[|steps| - 1], r);
      StepDepositBooked(Run(EMPTY, front), steps[|steps| - 1], r);
    }
  }

  // ------------------------------ Exactly once ------------------------------

  lemma OnlySuccess()
    ensures OnlyFinalTriggers(OnSuccess())
  {
  }

  /**
   Exactly-once credit of a collection. After any run that follows the moment the row was seen
   uncredited, the ledger credits it once if a SUCCESS record arrived that did not just repeat a SUCCESS
   the row was created with, and never otherwise.
   */
  lemma {:induction false} CollectionExactlyOnce(before: seq<Step>, later: seq<Step>, r: Ref)
    requires r in Run(EMPTY, before).collections && !Run(EMPTY, before).collections[r].credited
    ensures r in Run(EMPTY, before + later).collections
    ensures var start, row := Run(EMPTY, before).collections[r].status, Run(EMPTY, before + later).collections[r];
            var ledger := Run(EMPTY, before + later).books.ledger;
            var fired := Fires(start, CollectionRecords(later, r), OnSuccess());
            && row.credited == fired
            && SumOf(ledger, CountCredit(CollectionCredit, r)) == (if fired && CreditOf(row) != 0 then 1 else 0)
            && SumOf(ledger, CreditMoney(CollectionCredit, r)) == (if fired then CreditOf(row) else 0)
  {
    hide CreditOf, CountCredit, CreditMoney;
    RunConcat(EMPTY, before, later);
    RunWellFormed(EMPTY, before);
    CollectionMark(Run(EMPTY, before), later, r);
    OnlySuccess();
    MovedIff(MarkOf(Run(EMPTY, before).collections[r]), CollectionRecords(later, r), OnSuccess());
    RunBooked(before + later, r);
  }

  /** The same for deposits, which are credited in full. */
  lemma {:induction false} DepositExactlyOnce(before: seq<Step>, later: seq<Step>, r: Ref)
    requires r in Run(EMPTY, before).deposits && !Run(EMPTY, before).deposits[r].credited
    ensures r in Run(EMPTY, before + later).deposits
    ensures var start, row := Run(EMPTY, before).deposits[r].status, Run(EMPTY, before + later).deposits[r];
            var ledger := Run(EMPTY, before + later).books.ledger;
            var fired := Fires(start, DepositRecords(later, r), OnSuccess());
            && row.credited == fired
            && SumOf(ledger, CountCredit(Deposit, r)) == (if fired && row.gross != 0 then 1 else 0)
            && SumOf(ledger, CreditMoney(Deposit, r)) == (if fired then Abs(row.gross) else 0)
  {
    hide CountCredit, CreditMoney;
    RunConcat(EMPTY, before, later);
    DepositMark(Run(EMPTY, before), later, r);
    OnlySuccess();
    MovedIff(MarkOf(Run(EMPTY, before).deposits[r]), DepositRecords(later, r), OnSuccess());
    RunBooked(before + later, r);
  }

  /** For a row that did not start on SUCCESS, any SUCCESS record at all brings the credit. */
  lemma NonSuccessStart(start: TxStatus, records: seq<TxStatus>)
    requires start != Success
    ensures Fires(start, records, OnSuccess()) <==> Success in records
  {
    FiresFromOpenStart(start, records, OnSuccess());
  }

  /** A row created on SUCCESS and then confirmed by SUCCESS records alone is never credited. */
  lemma SuccessStartNeverFires(records: seq<TxStatus>)
    requires forall i :: 0 <= i < |records| ==> records[i].Success?
    ensures !Fires(Success, records, OnSuccess())
  {
  }

  /**
   In a run: a collection or deposit that stands on SUCCESS uncredited stays uncredited, and the ledger
   without a credit for it, for as long as its records only confirm the SUCCESS.
   */
  lemma {:induction false} SuccessStartUncredited(before: seq<Step>, later: seq<Step>, r: Ref)
    ensures var db, db' := Run(EMPTY, before), Run(EMPTY, before + later);
            r in db.collections && db.collections[r].status.Success? && !db.collections[r].credited
            && (forall i :: 0 <= i < |CollectionRecords(later, r)| ==> CollectionRecords(later, r)[i].Success?)
            ==> r in db'.collections && !db'.collections[r].credited
                && SumOf(db'.books.ledger, CreditMoney(CollectionCredit, r)) == 0
    ensures var db, db' := Run(EMPTY, before), Run(EMPTY, before + later);
            r in db.deposits && db.deposits[r].status.Success? && !db.deposits[r].credited
            && (forall i :: 0 <= i < |DepositRecords(later, r)| ==> DepositRecords(later, r)[i].Success?)
            ==> r in db'.deposits && !db'.deposits[r].credited
                && SumOf(db'.books.ledger, CreditMoney(Deposit, r)) == 0
  {
    hide Run, SumOf, CreditMoney, CountCredit, CreditOf;
    var db := Run(EMPTY, before);
    if r in db.collections && !db.collections[r].credited {
      CollectionExactlyOnce(before, later, r);
    }
    if r in db.deposits && !db.deposits[r].credited {
      DepositExactlyOnce(before, later, r);
    }
  }

  /** Such rows exist: the provider answers the request itself with PAID. */
  const PAID_AT_ONCE: seq<Step> := [
    OpenAccount("ACC", Account(true, true, true), None),
    StartCollection("PAID", "ACC", 100000, None, Answered(Some("PAID")))]

  lemma PaidWord()
    ensures MapProviderStatus(Some("PAID")) == Success
  {
    hide Upper;
    UpperStays("PAID");
  }

  lemma PaidAtOnce(db: Db)
    requires "ACC" in db.accounts && db.collections == map[]
    ensures var db' := Next(db, PAID_AT_ONCE[1]);
            && "PAID" in db'.collections
            && db'.collections["PAID"].status == MapProviderStatus(Some("PAID")) && !db'.collections["PAID"].credited
  {
    hide MapProviderStatus;
  }

  lemma SuccessAtCreation()
    ensures var db := Run(EMPTY, PAID_AT_ONCE);
            "PAID" in db.collections && db.collections["PAID"].status.Success? && !db.collections["PAID"].credited
  {
    var open, start := PAID_AT_ONCE[0], PAID_AT_ONCE[1];
    assert PAID_AT_ONCE[..1] == [open] && [open][..0] == [];
    assert Run(EMPTY, PAID_AT_ONCE) == Next(Next(EMPTY, open), start);
    var db := Next(EMPTY, open);
    assert "ACC" in db.accounts && db.collections == map[];
    hide Next, MapProviderStatus, Run;
    PaidWord();
    PaidAtOnce(db);
  }

  // ------------------------------- The amounts ------------------------------

  /**
   The record that credits a collection: credit plus stored fee is the gross amount exactly when the fee
   on the record's own amount does not exceed the gross amount the row will hold.
   */
  lemma CreditPlusFeeIff(db: Db, r: Ref, collected: Option<Cents>)
    requires WellFormed(db) && r in db.collections && ShouldCredit(db.collections[r], Success)
    requires !db.collections[r].status.Success?
    ensures var row := ApplyCollection(db, r, Success, collected).db.collections[r];
            && row.credited && row.gross == GrossOf(db.collections[r], collected)
            && row.feeAmount == Some(CollectionFeeOf(db, db.collections[r], collected))
            && (CreditOf(row) + row.feeAmount.value == row.gross
                <==> CollectionFeeOf(db, db.collections[r], collected) <= GrossOf(db.collections[r], collected))
  {
    hide CollectionFeeOf, ApplyCollection, WellFormed, HasConfig;
    ReceiptConfig(db, r);
    CollectionRecordShape(db, r, Success, collected);
  }

  /**
   The fee does not exceed the gross amount when both are taken from the same non-negative amount: the
   record carries its amount, or no earlier one did.
   */
  lemma SameBaseCredit(db: Db, r: Ref, collected: Option<Cents>)
    requires WellFormed(db) && r in db.collections && ShouldCredit(db.collections[r], Success)
    requires !db.collections[r].status.Success?
    requires collected.Some? || db.collections[r].collectedAmount.None?
    requires GrossOf(db.collections[r], collected) >= 0
    ensures var row := ApplyCollection(db, r, Success, collected).db.collections[r];
            && row.credited && row.gross == GrossOf(db.collections[r], collected)
            && row.feeAmount.Some? && 0 <= row.feeAmount.value <= row.gross
            && CreditOf(row) + row.feeAmount.value == row.gross
  {
    var row := db.collections[r];
    var config := ConfigOf(db, row.account);
    assert Fees.Bounded(config);
    assert 0 <= Fees.Bps(config, Fees.CollectionBelow) <= Fees.MAX_BPS;
    assert 0 <= Fees.Bps(config, Fees.CollectionAbove) <= Fees.MAX_BPS;
    Fees.FeeBounds(GrossOf(row, collected), config.collectionBelowBps);
    Fees.FeeBounds(GrossOf(row, collected), config.collectionAboveBps);
    assert 0 <= CollectionFeeOf(db, row, collected) <= GrossOf(row, collected);
    hide CollectionFeeOf, Move, WellFormed;
  }

  /**
   Otherwise the fee can be charged on one amount and taken from another: a row asking for 1000.00 that
   holds an earlier collected amount of 0.01 is credited 49.99 by a plain SUCCESS record.
   */
  lemma MixedBaseCredit(db: Db, r: Ref, a: AccountId)
    requires a in db.accounts && a !in db.fees && WalletKey(a, CollectionWallet) in db.books.wallets
    requires r in db.collections
             && db.collections[r] == Receipt(a, None, 100000, Processing, Some(1), None, false, 0)
    ensures var row := ApplyCollection(db, r, Success, None).db.collections[r];
            row.gross == 1 && row.feeAmount == Some(5000) && CreditOf(row) == 4999
  {
    assert Fees.FeeAt(100000, 500) == 5000;
    hide Move;
  }

  /** A run that does it: a request for 1000.00, a report of 0.01 collected, and a SUCCESS without an amount. */
  const ASKED: seq<Step> := [
    OpenAccount("ACC", Account(true, true, true), None),
    StartCollection("MIXED", "ACC", 100000, None, Answered(None))]
  const ONE_CENT := CollectionRecord("MIXED", Processing, Some(1))
  const CONFIRMED := CollectionRecord("MIXED", Success, None)

  lemma AskedRow()
    ensures var db := Run(EMPTY, ASKED);
            && "ACC" in db.accounts && "ACC" !in db.fees && "MIXED" in db.collections
            && db.collections["MIXED"] == NewReceipt("ACC", None, 100000, Answered(None))
            && WalletKey("ACC", CollectionWallet) in db.books.wallets
  {
    var open, start := ASKED[0], ASKED[1];
    assert ASKED[..1] == [open] && [open][..0] == [];
    assert Run(EMPTY, ASKED) == Next(Next(EMPTY, open), start);
    var db := Next(EMPTY, open);
    assert "ACC" in db.accounts && db.collections == map[] && db.fees == map[];
    hide NewReceipt, HasReceipt;
  }

  lemma OneCentRow()
    ensures var db := Run(EMPTY, ASKED + [ONE_CENT]);
            && "ACC" in db.accounts && "ACC" !in db.fees && "MIXED" in db.collections
            && db.collections["MIXED"] == Receipt("ACC", None, 100000, Processing, Some(1), None, false, 0)
            && WalletKey("ACC", CollectionWallet) in db.books.wallets
  {
    AskedRow();
    RunAppend(EMPTY, ASKED, ONE_CENT);
    hide Run, MapProviderStatus, Move;
  }

  lemma MixedRun()
    ensures var db := Run(EMPTY, ASKED + [ONE_CENT] + [CONFIRMED]);
            && "MIXED" in db.collections && db.collections["MIXED"].gross == 1
            && db.collections["MIXED"].feeAmount == Some(5000) && CreditOf(db.collections["MIXED"]) == 4999
  {
    OneCentRow();
    var front := ASKED + [ONE_CENT];
    RunAppend(EMPTY, front, CONFIRMED);
    MixedBaseCredit(Run(EMPTY, front), "MIXED", "ACC");
    OneCollection(Run(EMPTY, front), "MIXED", "", 0, None, Declined, Success, None);
    hide Run, ApplyCollection;
  }
}
