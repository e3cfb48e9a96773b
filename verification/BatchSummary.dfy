/**
 The stored summary of a batch: when it agrees with the payout rows, what its status then means, and what
 a FAILED batch has returned.
 */
module BatchSummary {
  import opened Wrappers
  import opened Totals
  import opened ProviderStatus
  import opened Tables
  import opened Wallets
  import opened TxnStatus
  import opened Disbursements
  import opened Engine
  import opened EngineLaws
  import opened RowLaws
  import opened Holds
  import opened PayoutLaws
  import opened BatchLaws
  import opened RequestLaws

  /** The stored summary is what a recount of the rows would give. */
  ghost predicate Summarised(db: Db, id: Ref)
    requires id in db.batches
  {
    db.batches[id] == Recounted(db.payouts, db.batches[id])
  }

  /** The summary misses failed items. */
  ghost predicate Behind(db: Db, id: Ref)
    requires id in db.batches
  {
    db.batches[id].failedCount < CountWhere(db.payouts, db.batches[id].items, OnFailure())
  }

  // ---------------------------------- Counts --------------------------------

  lemma {:induction false} CountAgree(payouts: map<Ref, Payout>, payouts': map<Ref, Payout>, items: seq<Ref>,
                                      wanted: TxStatus -> bool)
    requires forall i :: 0 <= i < |items| ==>
               && (items[i] in payouts <==> items[i] in payouts')
               && (items[i] in payouts ==> wanted(payouts[items[i]].status) == wanted(payouts'[items[i]].status))
    ensures CountWhere(payouts, items, wanted) == CountWhere(payouts', items, wanted)
  {
    if items != [] {
      CountAgree(payouts, payouts', items[..|items| - 1], wanted);
    }
  }

  /** One more item with a wanted status is one more in the count. */
  lemma {:induction false} CountOneMore(payouts: map<Ref, Payout>, payouts': map<Ref, Payout>, items: seq<Ref>, k: nat,
                                        wanted: TxStatus -> bool)
    requires k < |items| && forall i, j :: 0 <= i < j < |items| ==> items[i] != items[j]
    requires items[k] in payouts && !wanted(payouts[items[k]].status)
    requires items[k] in payouts' && wanted(payouts'[items[k]].status)
    requires forall i :: 0 <= i < |items| && i != k ==>
               && (items[i] in payouts <==> items[i] in payouts')
               && (items[i] in payouts ==> payouts[items[i]].status == payouts'[items[i]].status)
    ensures CountWhere(payouts', items, wanted) == CountWhere(payouts, items, wanted) + 1
  {
    var n := |items| - 1;
    if k == n {
      CountAgree(payouts, payouts', items[..n], wanted);
    } else {
      CountOneMore(payouts, payouts', items[..n], k, wanted);
    }
  }

  lemma {:induction false} NoneWanted(payouts: map<Ref, Payout>, items: seq<Ref>, wanted: TxStatus -> bool)
    requires forall i :: 0 <= i < |items| && items[i] in payouts ==> !wanted(payouts[items[i]].status)
    ensures CountWhere(payouts, items, wanted) == 0
  {
    if items != [] {
      NoneWanted(payouts, items[..|items| - 1], wanted);
    }
  }

  /** No item is counted twice, and all are counted exactly when none is still open. */
  lemma {:induction false} CountsCover(payouts: map<Ref, Payout>, items: seq<Ref>)
    requires forall i :: 0 <= i < |items| ==> items[i] in payouts
    ensures CountWhere(payouts, items, OnSuccess()) + CountWhere(payouts, items, OnFailure()) <= |items|
    ensures CountWhere(payouts, items, OnSuccess()) + CountWhere(payouts, items, OnFailure()) == |items|
       <==> forall i :: 0 <= i < |items| ==> Final(payouts[items[i]].status)
  {
    if items != [] {
      var n := |items| - 1;
      CountsCover(payouts, items[..n]);
      assert forall i :: 0 <= i < n ==> items[..n][i] == items[i];
    }
  }

  lemma {:induction false} CountAllIff(payouts: map<Ref, Payout>, items: seq<Ref>, wanted: TxStatus -> bool)
    requires forall i :: 0 <= i < |items| ==> items[i] in payouts
    ensures CountWhere(payouts, items, wanted) <= |items|
    ensures CountWhere(payouts, items, wanted) == |items|
       <==> forall i :: 0 <= i < |items| ==> wanted(payouts[items[i]].status)
  {
    if items != [] {
      var n := |items| - 1;
      CountAllIff(payouts, items[..n], wanted);
      assert forall i :: 0 <= i < n ==> items[..n][i] == items[i];
    }
  }

  /** The items whose row has one of these statuses. */
  ghost function ItemsWith(payouts: map<Ref, Payout>, items: seq<Ref>, statuses: set<TxStatus>): set<Ref> {
    set r | r in items && r in payouts && payouts[r].status in statuses
  }

  lemma {:induction false} CountIsSize(payouts: map<Ref, Payout>, items: seq<Ref>, wanted: TxStatus -> bool,
                                       statuses: set<TxStatus>)
    requires forall i, j :: 0 <= i < j < |items| ==> items[i] != items[j]
    requires forall s :: wanted(s) <==> s in statuses
    ensures CountWhere(payouts, items, wanted) == |ItemsWith(payouts, items, statuses)|
  {
    if items == [] {
      assert ItemsWith(payouts, items, statuses) == {};
    } else {
      hide ItemsWith;
      CountIsSize(payouts, items[..|items| - 1], wanted, statuses);
      ItemsWithNext(payouts, items, statuses);
    }
  }

  lemma ItemsWithNext(payouts: map<Ref, Payout>, items: seq<Ref>, statuses: set<TxStatus>)
    requires items != [] && forall i, j :: 0 <= i < j < |items| ==> items[i] != items[j]
    ensures var n := |items| - 1;
            |ItemsWith(payouts, items, statuses)|
            == |ItemsWith(payouts, items[..n], statuses)|
               + (if items[n] in payouts && payouts[items[n]].status in statuses then 1 else 0)
  {
    var front, last := items[..|items| - 1], items[|items| - 1];
    assert last !in front;
    assert forall r :: r in items <==> r in front || r == last;
    assert ItemsWith(payouts, front, statuses) == ItemsWith(payouts, items, statuses) - {last};
  }

  /**
   The recount of a batch: how many of its items succeeded, how many failed, were reversed or refunded, and what
   follows for the batch once these are all of its items.
   */
  lemma RecountMeaning(payouts: map<Ref, Payout>, batch: Batch)
    requires forall i, j :: 0 <= i < j < |batch.items| ==> batch.items[i] != batch.items[j]
    ensures var success := |ItemsWith(payouts, batch.items, {Success})|;
            var failed := |ItemsWith(payouts, batch.items, {Failed, Reversed, Refunded})|;
            Recounted(payouts, batch)
            == batch.(successCount := success, failedCount := failed,
                      status := if success + failed != |batch.items| then BatchProcessing
                                else if failed == 0 then BatchCompleted
                                else if success == 0 then BatchFailed
                                else BatchPartiallyFailed)
  {
    CountIsSize(payouts, batch.items, OnSuccess(), {Success});
    CountIsSize(payouts, batch.items, OnFailure(), {Failed, Reversed, Refunded});
    hide CountWhere, ItemsWith;
  }

  // -------------------------- What one record does --------------------------

  /** A record that newly fails an item of amount 0: its refund is refused, and the recount is skipped. */
  predicate SkipsRecount(db: Db, r: Ref, next: TxStatus)
    requires r in db.payouts
  {
    RefundNow(db, r, next) && Owed(db.payouts[r]) == 0
  }

  /** What a record does to the batches. */
  lemma PayoutRecordBatches(db: Db, r: Ref, next: TxStatus)
    requires WellFormed(db) && r in db.payouts
    ensures var db', p := ApplyPayout(db, r, next).db, db.payouts[r];
            db'.batches == if Repeats(p.status, next) || SkipsRecount(db, r, next)
                              || p.batch.None? || p.batch.value !in db.batches
                           then db.batches
                           else db.batches[p.batch.value := Recounted(db'.payouts, db.batches[p.batch.value])]
  {
    PayoutRowFormed(db, r);
    hide WellFormed, Recounted;
  }

  lemma RecountTwice(payouts: map<Ref, Payout>, batch: Batch)
    ensures Recounted(payouts, Recounted(payouts, batch)) == Recounted(payouts, batch)
  {
  }

  /**
   Exactly when a record keeps a correct summary correct: always, except when it newly fails an item of
   amount 0, for then the refused refund ends the call before the recount.
   */
  lemma RecordKeepsSummaryIff(db: Db, id: Ref, r: Ref, next: TxStatus)
    requires WellFormed(db) && Composed(db, id) && id in db.batches && Summarised(db, id)
    requires r in db.payouts && db.payouts[r].batch == Some(id)
    requires TerminalFail(db.payouts[r].status) ==> db.payouts[r].refunded
    ensures var db' := ApplyPayout(db, r, next).db;
            id in db'.batches && (Summarised(db', id) <==> !SkipsRecount(db, r, next))
  {
    var db' := ApplyPayout(db, r, next).db;
    PayoutRecordBatches(db, r, next);
    hide ApplyPayout, CountWhere, Composed;
    if SkipsRecount(db, r, next) {
      SkippedBehind(db, id, r, next);
    } else if !Repeats(db.payouts[r].status, next) {
      RecountTwice(db'.payouts, db.batches[id]);
    } else {
      PayoutRecordShape(db, r, next);
    }
  }

  /** A skipped recount leaves the summary one failure further behind. */
  lemma SkippedBehind(db: Db, id: Ref, r: Ref, next: TxStatus)
    requires WellFormed(db) && Composed(db, id) && id in db.batches
    requires Summarised(db, id) || Behind(db, id)
    requires r in db.payouts && db.payouts[r].batch == Some(id)
    requires TerminalFail(db.payouts[r].status) ==> db.payouts[r].refunded
    requires SkipsRecount(db, r, next)
    ensures var db' := ApplyPayout(db, r, next).db;
            id in db'.batches && Behind(db', id)
  {
    var db', batch := ApplyPayout(db, r, next).db, db.batches[id];
    PayoutRecordBatches(db, r, next);
    PayoutRecordShape(db, r, next);
    hide WellFormed, ApplyPayout, CountWhere, AmountsOf, SumOf;
    var k :| 0 <= k < |batch.items| && batch.items[k] == r;
    CountOneMore(db.payouts, db'.payouts, batch.items, k, OnFailure());
  }

  // ------------------------- What a whole run has done ----------------------

  /** A record that is not just repeating the final status of an item of the batch. */
  predicate Touches(db: Db, s: Step, id: Ref) {
    s.PayoutRecord? && s.ref in db.payouts && db.payouts[s.ref].batch == Some(id)
    && !Repeats(db.payouts[s.ref].status, s.next)
  }

  /** The last record that touched the batch newly failed an item of amount 0. */
  ghost predicate Stale(steps: seq<Step>, id: Ref) {
    if steps == [] then false
    else
      var front, s := steps[..|steps| - 1], steps[|steps| - 1];
      var db := Run(EMPTY, front);
      if Touches(db, s, id) then SkipsRecount(db, s.ref, s.next) else Stale(front, id)
  }

  /** The summary agrees with the rows, or, if the batch is stale, misses failures. */
  ghost predicate SummaryLaw(db: Db, id: Ref, stale: bool) {
    if id !in db.batches then !stale
    else if stale then Behind(db, id)
    else Summarised(db, id)
  }

  /** The batch's row and the status of each of its items are the same in both states. */
  ghost predicate SameRows(db: Db, db': Db, id: Ref) {
    && (id in db.batches <==> id in db'.batches)
    && (id in db.batches ==>
          && db'.batches[id] == db.batches[id]
          && forall i :: 0 <= i < |db.batches[id].items| ==>
               var r := db.batches[id].items[i];
               && (r in db.payouts <==> r in db'.payouts)
               && (r in db.payouts ==> db.payouts[r].status == db'.payouts[r].status))
  }

  lemma SameRowsLaw(db: Db, db': Db, id: Ref, stale: bool)
    requires SameRows(db, db', id) && SummaryLaw(db, id, stale)
    ensures SummaryLaw(db', id, stale)
  {
    hide CountWhere;
    if id in db.batches {
      CountAgree(db.payouts, db'.payouts, db.batches[id].items, OnSuccess());
      CountAgree(db.payouts, db'.payouts, db.batches[id].items, OnFailure());
    }
  }

  lemma TouchedSummary(db: Db, s: Step, id: Ref, stale: bool)
    requires WellFormed(db) && Composed(db, id) && SummaryLaw(db, id, stale) && Touches(db, s, id)
    requires TerminalFail(db.payouts[s.ref].status) ==> db.payouts[s.ref].refunded
    ensures SummaryLaw(ApplyPayout(db, s.ref, s.next).db, id, SkipsRecount(db, s.ref, s.next))
  {
    assert id in db.batches by {
      hide SumOf, AmountsOf;
    }
    if SkipsRecount(db, s.ref, s.next) {
      hide ApplyPayout, CountWhere, WellFormed, Composed, SkipsRecount;
      SkippedBehind(db, id, s.ref, s.next);
    } else {
      PayoutRecordBatches(db, s.ref, s.next);
      hide ApplyPayout, CountWhere, WellFormed, Composed;
      RecountTwice(ApplyPayout(db, s.ref, s.next).db.payouts, db.batches[id]);
    }
  }

  /** A record of another payout, or one that repeats a final status, leaves the batch's rows as they are. */
  lemma UntouchedRows(db: Db, s: Step, id: Ref)
    requires WellFormed(db) && Composed(db, id) && s.PayoutRecord? && !Touches(db, s, id)
    ensures SameRows(db, ApplyPayout(db, s.ref, s.next).db, id)
  {
    if s.ref !in db.payouts {
      NoPayoutRecord(db, s.ref, s.next);
    } else {
      hide WellFormed, ApplyPayout, Recounted, AmountsOf, SumOf;
      PayoutRecordBatches(db, s.ref, s.next);
      PayoutRecordShape(db, s.ref, s.next);
    }
  }

  lemma OtherRows(db: Db, s: Step, id: Ref)
    requires Composed(db, id) && !s.StartBatch? && !s.PayoutRecord?
    ensures SameRows(db, Next(db, s), id)
  {
    var db' := Next(db, s);
    SameBatches(db, s);
    if id in db.batches {
      var items := db.batches[id].items;
      forall i | 0 <= i < |items|
        ensures items[i] in db.payouts && items[i] in db'.payouts && db'.payouts[items[i]] == db.payouts[items[i]]
      {
        assert IsItem(db.payouts, id, items[i]);
        if AddsPayout(s, items[i]) {
          NoSecondStart(db, s, items[i]);
        } else {
          PayoutFrame(db, s, items[i]);
        }
      }
    }
  }

  /** A batch request leaves the rows of every other batch as they are. */
  lemma StartRows(db: Db, s: Step, id: Ref)
    requires Composed(db, id) && s.StartBatch? && Admissible(s) && (id != s.ref || id in db.batches)
    ensures SameRows(db, Next(db, s), id)
  {
    var payouts := WithItems(db.payouts, s.account, s.ref, s.items, db.books.clock);
    hide WithItems, CreateBatch, AmountsOf, SumOf;
    if RefsFree(db, s.ref, s.items) {
      forall r | r in db.payouts ensures r in payouts && payouts[r] == db.payouts[r] {
        RowsOfBatch(db, s, r);
      }
    }
    BatchTables(db, s.ref, s.account, s.items);
  }

  lemma NewBatchSummary(db: Db, s: Step)
    requires s.StartBatch? && Admissible(s) && s.ref !in db.batches && s.ref in Next(db, s).batches
    ensures Summarised(Next(db, s), s.ref)
  {
    var payouts, refs := WithItems(db.payouts, s.account, s.ref, s.items, db.books.clock), ItemRefs(s.items);
    hide WithItems, CountWhere, Move;
    forall i | 0 <= i < |refs| ensures refs[i] in payouts && payouts[refs[i]].status.Pending? {
      WithItemsAt(db.payouts, s.account, s.ref, s.items, db.books.clock, i);
    }
    NoneWanted(payouts, refs, OnSuccess());
    NoneWanted(payouts, refs, OnFailure());
    ZeroHold(db.books, s);
  }

  lemma ZeroHold(b: Books, s: Step)
    requires s.StartBatch?
    ensures s.items == [] ==> Move(b, BatchHoldOf(s.account, s.ref, TotalAmount(s.items))).Refused?
  {
  }

  lemma StepSummary(db: Db, s: Step, id: Ref, stale: bool)
    requires WellFormed(db) && Composed(db, id) && SummaryLaw(db, id, stale)
    requires forall r :: PayoutBooked(db, r)
    ensures SummaryLaw(Next(db, s), id, if Touches(db, s, id) then SkipsRecount(db, s.ref, s.next) else stale)
  {
    hide SummaryLaw, Composed, SameRows, WellFormed, SkipsRecount;
    if s.PayoutRecord? {
      hide ApplyPayout;
      if Touches(db, s, id) {
        assert PayoutBooked(db, s.ref);
        hide SumOf;
        TouchedSummary(db, s, id, stale);
      } else {
        UntouchedRows(db, s, id);
        SameRowsLaw(db, ApplyPayout(db, s.ref, s.next).db, id, stale);
      }
    } else if !s.StartBatch? {
      OtherRows(db, s, id);
      SameRowsLaw(db, Next(db, s), id, stale);
    } else if Admissible(s) {
      StartSummary(db, s, id, stale);
    }
  }

  lemma StartSummary(db: Db, s: Step, id: Ref, stale: bool)
    requires Composed(db, id) && SummaryLaw(db, id, stale) && s.StartBatch? && Admissible(s)
    ensures SummaryLaw(Next(db, s), id, stale)
  {
    if id != s.ref || id in db.batches {
      StartRows(db, s, id);
      SameRowsLaw(db, Next(db, s), id, stale);
    } else if s.ref in Next(db, s).batches {
      NewBatchSummary(db, s);
    }
  }

  /** In every state of every run a batch's summary agrees with its rows exactly when the batch is not stale. */
  lemma {:induction false} RunSummarised(steps: seq<Step>, id: Ref)
    requires id in Run(EMPTY, steps).batches
    ensures Summarised(Run(EMPTY, steps), id) <==> !Stale(steps, id)
  {
    RunSummaryLaw(steps, id);
  }

  lemma {:induction false} RunSummaryLaw(steps: seq<Step>, id: Ref)
    ensures SummaryLaw(Run(EMPTY, steps), id, Stale(steps, id))
  {
    if steps != [] {
      var front, s := steps[..|steps| - 1], steps[|steps| - 1];
      hide SummaryLaw, Next, Touches, SkipsRecount, PayoutBooked;
      RunSummaryLaw(front, id);
      RunWellFormed(EMPTY, front);
      RunComposed(front, id);
      forall r ensures PayoutBooked(Run(EMPTY, front), r) {
        RunRefundsBooked(front, r);
      }
      StepSummary(Run(EMPTY, front), s, id, Stale(front, id));
    }
  }

  // ---------------------- Batches that are never stale ----------------------

  ghost predicate AllPositive(payouts: map<Ref, Payout>, items: seq<Ref>) {
    forall i :: 0 <= i < |items| && items[i] in payouts ==> payouts[items[i]].amount > 0
  }

  /** Only a batch with an item of amount 0 can become stale. */
  lemma {:induction false} StaleHasZero(steps: seq<Step>, id: Ref) returns (r: Ref)
    requires Stale(steps, id)
    ensures r in Run(EMPTY, steps).payouts
    ensures Run(EMPTY, steps).payouts[r].batch == Some(id) && Run(EMPTY, steps).payouts[r].amount == 0
  {
    var front, s := steps[..|steps| - 1], steps[|steps| - 1];
    var db := Run(EMPTY, front);
    RunWellFormed(EMPTY, front);
    if Touches(db, s, id) {
      r := s.ref;
      assert PayoutFormed(db.accounts, db.payouts[r]);
    } else {
      r := StaleHasZero(front, id);
    }
    hide WellFormed, Next;
    StepKeepsPayout(db, s, r);
  }

  lemma ItemListed(steps: seq<Step>, id: Ref, r: Ref) returns (i: nat)
    requires id in Run(EMPTY, steps).batches && r in Run(EMPTY, steps).payouts
    requires Run(EMPTY, steps).payouts[r].batch == Some(id)
    ensures i < |Run(EMPTY, steps).batches[id].items| && Run(EMPTY, steps).batches[id].items[i] == r
  {
    hide Run, AmountsOf, SumOf;
    RunComposed(steps, id);
    i :| 0 <= i < |Run(EMPTY, steps).batches[id].items| && Run(EMPTY, steps).batches[id].items[i] == r;
  }

  /** So the summary of a batch of positive items always agrees with its rows. */
  lemma {:induction false} PositiveNeverStale(steps: seq<Step>, id: Ref)
    requires id in Run(EMPTY, steps).batches
    requires AllPositive(Run(EMPTY, steps).payouts, Run(EMPTY, steps).batches[id].items)
    ensures !Stale(steps, id) && Summarised(Run(EMPTY, steps), id)
  {
    RunSummarised(steps, id);
    if Stale(steps, id) {
      var r := StaleHasZero(steps, id);
      var i := ItemListed(steps, id, r);
    }
  }

  /** A run that ends stale: a batch of nothing and 1.00, and a provider that rejects the nothing. */
  const FUNDED: seq<Step> := [
    OpenAccount("ACC", Account(true, true, true), None),
    ManualMove(WalletKey("ACC", DisbursementWallet), true, 100, None)]
  const TWO_ITEMS := [BatchItem("NOTHING", None, 0, true), BatchItem("ONE", None, 100, true)]
  const NEW_BATCH := StartBatch("BATCH", "ACC", TWO_ITEMS)
  const REJECTED := PayoutRecord("NOTHING", Failed)

  lemma FundedWallet()
    ensures var db, k := Run(EMPTY, FUNDED), WalletKey("ACC", DisbursementWallet);
            && db.payouts == map[] && db.batches == map[] && "ACC" in db.accounts
            && k in db.books.wallets && db.books.wallets[k] == Wallet(100, ActiveWallet)
  {
    var open, deposit := FUNDED[0], FUNDED[1];
    assert FUNDED[..1] == [open] && [open][..0] == [];
    assert Run(EMPTY, FUNDED) == Next(Run(EMPTY, [open]), deposit);
    var db := Next(EMPTY, open);
    assert db.books.wallets[WalletKey("ACC", DisbursementWallet)] == Wallet(0, ActiveWallet);
  }

  lemma TwoItems()
    ensures TotalAmount(TWO_ITEMS) == 100 && Distinct(TWO_ITEMS)
    ensures forall i :: 0 <= i < |TWO_ITEMS| ==> TWO_ITEMS[i].deliverable && TWO_ITEMS[i].amount >= 0
  {
    assert TWO_ITEMS[..1] == [TWO_ITEMS[0]] && [TWO_ITEMS[0]][..0] == [];
    assert TotalAmount([TWO_ITEMS[0]]) == 0;
  }

  lemma BatchStarts(db: Db)
    requires db.payouts == map[] && db.batches == map[] && "ACC" in db.accounts
    requires var k := WalletKey("ACC", DisbursementWallet);
             k in db.books.wallets && db.books.wallets[k] == Wallet(100, ActiveWallet)
    ensures Next(db, NEW_BATCH) == CreateBatch(db, "BATCH", "ACC", TWO_ITEMS).db
    ensures CreateBatch(db, "BATCH", "ACC", TWO_ITEMS).error.None?
  {
    TwoItems();
    hide TotalAmount, CreateBatch;
    BatchAccepted(db, "BATCH", "ACC", TWO_ITEMS);
  }

  lemma BatchInPlace()
    ensures var db := Run(EMPTY, FUNDED + [NEW_BATCH]);
            && "BATCH" in db.batches && "NOTHING" in db.payouts
            && (var p := db.payouts["NOTHING"];
                Owed(p) == 0 && p.batch == Some("BATCH") && p.status.Pending? && !p.refunded)
  {
    FundedWallet();
    RunAppend(EMPTY, FUNDED, NEW_BATCH);
    var db := Run(EMPTY, FUNDED);
    hide Run, Next, CreateBatch, TotalAmount;
    BatchStarts(db);
    TwoItems();
    BatchAccepted(db, "BATCH", "ACC", TWO_ITEMS);
    hide Paid, Covered;
    assert ItemStored(db, CreateBatch(db, "BATCH", "ACC", TWO_ITEMS).db.payouts, "BATCH", "ACC", TWO_ITEMS[0]);
  }

  /** The batch stays PROCESSING with no failure counted, although the item has failed. */
  lemma StaleBatch()
    ensures var steps := FUNDED + [NEW_BATCH] + [REJECTED];
            "BATCH" in Run(EMPTY, steps).batches && Stale(steps, "BATCH") && !Summarised(Run(EMPTY, steps), "BATCH")
  {
    BatchInPlace();
    var front := FUNDED + [NEW_BATCH];
    var steps, db := front + [REJECTED], Run(EMPTY, front);
    assert steps[..|steps| - 1] == front;
    RunWellFormed(EMPTY, front);
    assert PayoutFormed(db.accounts, db.payouts["NOTHING"]);
    hide WellFormed, Next;
    SameItems(db, REJECTED, "BATCH");
    RunSummarised(steps, "BATCH");
  }

  // ------------------------- What the summary means -------------------------

  /**
   In every reachable state a batch that is not stale has left PROCESSING exactly when no item is pending,
   processing or expired; it is COMPLETED exactly when all items succeeded and FAILED exactly when all of
   them failed.
   */
  lemma {:induction false} BatchStatusMeaning(steps: seq<Step>, id: Ref)
    requires id in Run(EMPTY, steps).batches && !Stale(steps, id)
    ensures var db := Run(EMPTY, steps);
            var batch := db.batches[id];
            && batch.successCount == |ItemsWith(db.payouts, batch.items, {Success})|
            && batch.failedCount == |ItemsWith(db.payouts, batch.items, {Failed, Reversed, Refunded})|
            && batch.successCount + batch.failedCount <= batch.totalCount == |batch.items|
            && (forall i :: 0 <= i < |batch.items| ==> batch.items[i] in db.payouts)
            && (batch.status != BatchProcessing <==>
                  forall i :: 0 <= i < |batch.items| ==>
                    db.payouts[batch.items[i]].status in {Success, Failed, Reversed, Refunded})
            && (batch.status == BatchCompleted <==>
                  forall i :: 0 <= i < |batch.items| ==> db.payouts[batch.items[i]].status == Success)
            && (batch.status == BatchFailed <==>
                  batch.totalCount > 0
                  && forall i :: 0 <= i < |batch.items| ==>
                       db.payouts[batch.items[i]].status in {Failed, Reversed, Refunded})
            && (batch.status == BatchPartiallyFailed <==>
                  batch.successCount > 0 && batch.failedCount > 0
                  && batch.successCount + batch.failedCount == batch.totalCount)
  {
    hide Run;
    var db := Run(EMPTY, steps);
    var items := db.batches[id].items;
    RunSummarised(steps, id);
    ItemsPresent(steps, id);
    hide CountWhere, Stale, ItemsWith;
    RecountMeaning(db.payouts, db.batches[id]);
    CountsCover(db.payouts, items);
    CountAllIff(db.payouts, items, OnSuccess());
    CountAllIff(db.payouts, items, OnFailure());
  }

  lemma {:induction false} ItemsPresent(steps: seq<Step>, id: Ref)
    requires id in Run(EMPTY, steps).batches
    ensures var db := Run(EMPTY, steps);
            && db.batches[id].totalCount == |db.batches[id].items|
            && (forall i, j :: 0 <= i < j < |db.batches[id].items| ==>
                  db.batches[id].items[i] != db.batches[id].items[j])
            && forall i :: 0 <= i < |db.batches[id].items| ==> db.batches[id].items[i] in db.payouts
  {
    hide Run, AmountsOf, SumOf;
    RunComposed(steps, id);
    var db := Run(EMPTY, steps);
    forall i | 0 <= i < |db.batches[id].items| ensures db.batches[id].items[i] in db.payouts {
      assert IsItem(db.payouts, id, db.batches[id].items[i]);
    }
  }

  // ------------------------------ Failed batches ----------------------------

  /** A refund mark never goes back. */
  lemma StepKeepsRefunded(db: Db, s: Step, r: Ref)
    requires WellFormed(db) && r in db.payouts && db.payouts[r].refunded
    ensures r in Next(db, s).payouts && Next(db, s).payouts[r].refunded
  {
    hide Next, WellFormed;
    StepPayoutMark(db, s, r);
  }

  /** The only way to FAILED is a recount that finds every item failed. */
  lemma FailedByRecount(db: Db, s: Step, id: Ref)
    requires WellFormed(db) && id in Next(db, s).batches && Next(db, s).batches[id].status == BatchFailed
    requires id in db.batches ==> db.batches[id].status != BatchFailed
    ensures Next(db, s).batches[id] == Recounted(Next(db, s).payouts, Next(db, s).batches[id])
  {
    if s.PayoutRecord? {
      if s.ref in db.payouts {
        PayoutRecordBatches(db, s.ref, s.next);
        hide ApplyPayout, WellFormed, CountWhere;
      } else {
        NoPayoutRecord(db, s.ref, s.next);
      }
    } else if s.StartBatch? {
      if Admissible(s) {
        BatchShape(db, s);
        hide Next, Move, WithItems, WellFormed, HoldOf, CountWhere;
      }
    } else {
      hide Next;
      SameBatches(db, s);
    }
  }

  lemma FailedMeans(payouts: map<Ref, Payout>, batch: Batch)
    requires batch.status == BatchFailed && batch == Recounted(payouts, batch)
    requires forall i :: 0 <= i < |batch.items| ==> batch.items[i] in payouts
    ensures forall i :: 0 <= i < |batch.items| ==> TerminalFail(payouts[batch.items[i]].status)
  {
    CountAllIff(payouts, batch.items, OnFailure());
  }

  lemma SameItems(db: Db, s: Step, id: Ref)
    requires id in db.batches
    ensures id in Next(db, s).batches && Next(db, s).batches[id].items == db.batches[id].items
  {
    if s.StartBatch? {
      hide Move, WithItems, TotalAmount;
    } else {
      hide Next;
      BatchRowFixed(db, s, id);
    }
  }

  /** In every state of every run all items of a FAILED batch are refunded, whatever records followed. */
  lemma {:induction false} FailedRefunded(steps: seq<Step>, id: Ref, i: nat)
    requires id in Run(EMPTY, steps).batches && Run(EMPTY, steps).batches[id].status == BatchFailed
    requires i < |Run(EMPTY, steps).batches[id].items|
    ensures var db := Run(EMPTY, steps);
            var r := db.batches[id].items[i];
            r in db.payouts && db.payouts[r].refunded
  {
    if steps != [] {
      var front, s := steps[..|steps| - 1], steps[|steps| - 1];
      var db, db' := Run(EMPTY, front), Run(EMPTY, steps);
      var r := db'.batches[id].items[i];
      RunWellFormed(EMPTY, front);
      hide Next, WellFormed;
      if id in db.batches && db.batches[id].status == BatchFailed {
        SameItems(db, s, id);
        FailedRefunded(front, id, i);
        StepKeepsRefunded(db, s, r);
      } else {
        FailedByRecount(db, s, id);
        ItemsPresent(steps, id);
        FailedMeans(db'.payouts, db'.batches[id]);
        RunRefundsBooked(steps, r);
      }
    }
  }

  /** A batch whose status is FAILED has returned the amount held, to the cent. */
  lemma {:induction false} FailedBatchReturned(steps: seq<Step>, id: Ref)
    requires id in Run(EMPTY, steps).batches && Run(EMPTY, steps).batches[id].status == BatchFailed
    ensures var db := Run(EMPTY, steps);
            RefundsTo(db.books.ledger, db.batches[id].items) == db.batches[id].totalAmount
  {
    hide Run, SumOf, RefundsTo;
    var db := Run(EMPTY, steps);
    BatchConservation(steps, id);
    forall i | 0 <= i < |db.batches[id].items|
      ensures db.batches[id].items[i] in db.payouts && db.payouts[db.batches[id].items[i]].refunded
    {
      FailedRefunded(steps, id, i);
    }
    AllRefunded(db.payouts, db.batches[id].items);
  }

  lemma {:induction false} AllRefunded(payouts: map<Ref, Payout>, items: seq<Ref>)
    requires forall i :: 0 <= i < |items| ==> items[i] in payouts && payouts[items[i]].refunded
    ensures Unrefunded(payouts, items) == 0
  {
    if items != [] {
      AllRefunded(payouts, items[..|items| - 1]);
    }
  }
}
