/**
 Batches: conservation of the amount held, and a summary that agrees with the payout rows.
 */
module BatchLaws {
  import opened Wrappers
  import opened Totals
  import opened ProviderStatus
  import opened Tables
  import opened FeeSchedules
  import opened Wallets
  import opened TxnStatus
  import opened Disbursements
  import opened Engine
  import opened EngineLaws
  import opened RowLaws
  import opened Holds
  import opened PayoutLaws
  import opened Settlements
  import opened Collections
  import Fees
  import Accounting

  // ------------------------------ Sums over items ---------------------------

  function AmountAt(payouts: map<Ref, Payout>, r: Ref): Cents {
    if r in payouts then payouts[r].amount else 0
  }

  function AmountsOf(payouts: map<Ref, Payout>, items: seq<Ref>): Cents {
    if items == [] then 0 else AmountsOf(payouts, items[..|items| - 1]) + AmountAt(payouts, items[|items| - 1])
  }

  /** The amounts of the items that were not refunded. */
  function Unrefunded(payouts: map<Ref, Payout>, items: seq<Ref>): Cents {
    if items == [] then 0
    else
      var last := items[|items| - 1];
      Unrefunded(payouts, items[..|items| - 1])
      + (if last in payouts && !payouts[last].refunded then payouts[last].amount else 0)
  }

  /** What the ledger returned for the items. */
  ghost function RefundsTo(ledger: seq<LedgerRow>, items: seq<Ref>): Cents {
    if items == [] then 0
    else RefundsTo(ledger, items[..|items| - 1]) + SumOf(ledger, RefundMoney(items[|items| - 1]))
  }

  /** What the ledger took for the batch when it was created. */
  function HoldMoney(id: Ref): LedgerRow -> int {
    (row: LedgerRow) =>
      if !row.manual && row.txType.BatchHold? && row.reference == Some(id) then row.amount else 0
  }

  // --------------------------- The batch's own rows --------------------------

  ghost predicate IsItem(payouts: map<Ref, Payout>, id: Ref, r: Ref) {
    r in payouts && payouts[r].batch == Some(id) && payouts[r].feeAmount.None?
  }

  /** The items are distinct payout rows of the batch, and all of them. */
  ghost predicate ItemsOf(payouts: map<Ref, Payout>, id: Ref, items: seq<Ref>) {
    && (forall i, j :: 0 <= i < j < |items| ==> items[i] != items[j])
    && (forall i :: 0 <= i < |items| ==> IsItem(payouts, id, items[i]))
    && (forall r :: r in payouts && payouts[r].batch == Some(id) ==> r in items)
  }

  /** A batch has its items, which add up to its total amount. */
  ghost predicate Composed(db: Db, id: Ref) {
    if id in db.batches then
      var batch := db.batches[id];
      && ItemsOf(db.payouts, id, batch.items)
      && batch.totalCount == |batch.items|
      && batch.totalAmount == AmountsOf(db.payouts, batch.items)
    else ItemsOf(db.payouts, id, [])
  }

  /** What the ledger took for a batch beyond the batch's total amount. */
  ghost function HoldGap(db: Db, id: Ref): Cents {
    (if id in db.batches then -db.batches[id].totalAmount else 0) - SumOf(db.books.ledger, HoldMoney(id))
  }

  lemma {:induction false} AmountsAgree(payouts: map<Ref, Payout>, payouts': map<Ref, Payout>, items: seq<Ref>)
    requires forall i :: 0 <= i < |items| ==> AmountAt(payouts, items[i]) == AmountAt(payouts', items[i])
    ensures AmountsOf(payouts, items) == AmountsOf(payouts', items)
  {
    if items != [] {
      AmountsAgree(payouts, payouts', items[..|items| - 1]);
    }
  }

  lemma {:induction false} NewItemsAmount(payouts: map<Ref, Payout>, items: seq<BatchItem>)
    requires forall i :: 0 <= i < |items| ==> AmountAt(payouts, items[i].ref) == items[i].amount
    ensures AmountsOf(payouts, ItemRefs(items)) == TotalAmount(items)
  {
    if items != [] {
      var front := items[..|items| - 1];
      assert ItemRefs(items)[..|items| - 1] == ItemRefs(front);
      NewItemsAmount(payouts, front);
    } else {
      assert ItemRefs(items) == [];
    }
  }

  lemma StepKeepsPayout(db: Db, s: Step, r: Ref)
    requires WellFormed(db) && r in db.payouts
    ensures r in Next(db, s).payouts && SamePayout(db.payouts[r], Next(db, s).payouts[r])
  {
    StepPayoutMark(db, s, r);
  }

  /** Rows that a step adds, except by StartBatch, belong to no batch. */
  lemma NewPayoutAlone(db: Db, s: Step, r: Ref)
    requires !s.StartBatch? && r !in db.payouts && r in Next(db, s).payouts
    ensures Next(db, s).payouts[r].batch.None?
  {
    if s.PayoutRecord? {
      hide Move, Recounted;
    } else if StartsOne(s) {
      hide Next;
      StartAddsOne(db, s);
    } else {
      PayoutFrame(db, s, r);
    }
  }

  lemma SameBatches(db: Db, s: Step)
    requires !s.StartBatch? && !s.PayoutRecord?
    ensures Next(db, s).batches == db.batches
  {
    hide TransferFunds, CreatePayout, CreateWithdrawal, SweepAccount, SweepNow, ApplyCollection, ApplyDeposit, Move;
    hide InitiateCollection, InitiateDeposit, Opened, FeesUpdated;
  }

  /** Records and every other step but the creation of a batch keep the composition of all batches. */
  lemma BatchRowFixed(db: Db, s: Step, id: Ref)
    requires !s.StartBatch?
    ensures id in Next(db, s).batches <==> id in db.batches
    ensures id in db.batches ==>
              var batch, batch' := db.batches[id], Next(db, s).batches[id];
              batch' == batch.(status := batch'.status, successCount := batch'.successCount,
                               failedCount := batch'.failedCount)
  {
    hide Move, CountWhere;
    if !s.PayoutRecord? {
      hide Next;
      SameBatches(db, s);
    }
  }

  /** Steps that keep the rows and add only rows without a batch keep the items of every batch. */
  lemma {:induction false} ItemsKept(payouts: map<Ref, Payout>, payouts': map<Ref, Payout>, id: Ref, items: seq<Ref>)
    requires ItemsOf(payouts, id, items)
    requires forall r :: r in payouts ==> r in payouts' && SamePayout(payouts[r], payouts'[r])
    requires forall r :: r in payouts' && r !in payouts ==> payouts'[r].batch != Some(id)
    ensures ItemsOf(payouts', id, items) && AmountsOf(payouts', items) == AmountsOf(payouts, items)
  {
    AmountsAgree(payouts, payouts', items);
  }

  /** A step that creates no batch keeps every batch composed, and its hold as it was. */
  lemma QuietComposed(db: Db, s: Step, id: Ref)
    requires WellFormed(db) && !s.StartBatch?
    ensures Composed(db, id) ==> Composed(Next(db, s), id)
    ensures HoldGap(Next(db, s), id) == HoldGap(db, id) && LostNow(db, s, ForBatch(id)) == 0
  {
    var db' := Next(db, s);
    QuietLosesNoHold(db, s, id);
    hide Next, WellFormed, SumOf, ItemsOf, AmountsOf, LostNow;
    StepExtends(db, s);
    BatchRowFixed(db, s, id);
    ExtendsSum(db.books.ledger, db'.books.ledger, s, HoldMoney(id));
    forall r | r in db.payouts ensures r in db'.payouts && SamePayout(db.payouts[r], db'.payouts[r]) {
      StepKeepsPayout(db, s, r);
    }
    forall r | r in db'.payouts && r !in db.payouts ensures db'.payouts[r].batch != Some(id) {
      NewPayoutAlone(db, s, r);
    }
    if Composed(db, id) {
      ItemsKept(db.payouts, db'.payouts, id, if id in db.batches then db.batches[id].items else []);
    }
  }

  lemma QuietLosesNoHold(db: Db, s: Step, id: Ref)
    requires !s.StartBatch?
    ensures LostNow(db, s, ForBatch(id)) == 0
  {
    hide DisbursementFeeOf, Covered;
  }

  /** The rows a new batch adds. */
  lemma {:induction false} NewItems(db: Db, s: Step, id: Ref, items: seq<Ref>)
    requires s.StartBatch? && RefsFree(db, s.ref, s.items) && ItemsOf(db.payouts, id, items)
    ensures var payouts := WithItems(db.payouts, s.account, s.ref, s.items, db.books.clock);
            if id != s.ref then ItemsOf(payouts, id, items) && AmountsOf(payouts, items) == AmountsOf(db.payouts, items)
            else items == [] ==>
                   && ItemsOf(payouts, id, ItemRefs(s.items))
                   && AmountsOf(payouts, ItemRefs(s.items)) == TotalAmount(s.items)
  {
    var payouts := WithItems(db.payouts, s.account, s.ref, s.items, db.books.clock);
    hide WithItems, AmountsOf;
    forall r ensures (r in payouts <==> r in db.payouts || r in ItemRefs(s.items))
                  && (r in db.payouts ==> payouts[r] == db.payouts[r])
    {
      RowsOfBatch(db, s, r);
    }
    forall i | 0 <= i < |s.items|
      ensures s.items[i].ref in payouts
              && payouts[s.items[i].ref] == ItemPayout(s.account, s.ref, s.items[i], db.books.clock)
    {
      WithItemsAt(db.payouts, s.account, s.ref, s.items, db.books.clock, i);
    }
    if id == s.ref {
      NewItemsAmount(payouts, s.items);
    } else {
      ItemsKept(db.payouts, payouts, id, items);
    }
  }

  /** The creation of a batch composes it and leaves the others as they are, or only loses its hold. */
  lemma StartBatchComposed(db: Db, s: Step, id: Ref)
    requires Composed(db, id) && s.StartBatch? && Admissible(s)
    ensures Composed(Next(db, s), id)
  {
    BatchShape(db, s);
    hide Next, WithItems, Move, ItemsOf, AmountsOf, TotalAmount, RefsFree, HoldOf;
    if RefsFree(db, s.ref, s.items) {
      FreeBatchRef(db, s.ref, s.items);
      NewItems(db, s, id, if id in db.batches then db.batches[id].items else []);
    }
  }

  lemma FreeBatchRef(db: Db, ref: Ref, items: seq<BatchItem>)
    requires RefsFree(db, ref, items)
    ensures ref !in db.batches
  {
  }

  /** The ledger's hold for a batch is its total amount; a hold that finds a reference taken is one too many. */
  lemma StartBatchHold(db: Db, s: Step, id: Ref)
    requires s.StartBatch? && Admissible(s)
    ensures HoldGap(Next(db, s), id) == HoldGap(db, id) + LostNow(db, s, ForBatch(id))
  {
    hide Next, SumOf, TotalAmount, WithItems, Paid, Covered;
    BatchShape(db, s);
    Accounting.TotalAmountSign(s.items);
    if HoldOf(db, s).Some? {
      var m := HoldOf(db, s).value;
      DebitIff(db.books, m, s.ref);
      MoveSum(db.books, m, HoldMoney(id));
      if RefsFree(db, s.ref, s.items) {
        FreeBatchRef(db, s.ref, s.items);
      }
    }
    hide Move, RefsFree;
  }

  lemma RowsOfBatch(db: Db, s: Step, r: Ref)
    requires s.StartBatch? && RefsFree(db, s.ref, s.items)
    ensures var payouts := WithItems(db.payouts, s.account, s.ref, s.items, db.books.clock);
            && (r in payouts <==> r in db.payouts || r in ItemRefs(s.items))
            && (r in db.payouts ==> payouts[r] == db.payouts[r])
  {
    if r in ItemRefs(s.items) {
      var i :| 0 <= i < |s.items| && s.items[i].ref == r;
      WithItemsAt(db.payouts, s.account, s.ref, s.items, db.books.clock, i);
    } else {
      assert forall i :: 0 <= i < |s.items| ==> ItemRefs(s.items)[i] == s.items[i].ref;
      WithItemsFrame(db.payouts, s.account, s.ref, s.items, db.books.clock, r);
    }
  }

  /** A batch request stores the batch with all its rows, or touches neither table. */
  lemma {:induction false} BatchTables(db: Db, ref: Ref, a: AccountId, items: seq<BatchItem>)
    ensures var db' := CreateBatch(db, ref, a, items).db;
            || (db'.payouts == db.payouts && db'.batches == db.batches)
            || (&& RefsFree(db, ref, items)
                && db'.payouts == WithItems(db.payouts, a, ref, items, db.books.clock)
                && ref in db'.batches && db'.batches == db.batches[ref := db'.batches[ref]])
  {
    hide Move, WithItems, TotalAmount, RefsFree;
  }

  lemma {:induction false} RunComposed(steps: seq<Step>, id: Ref)
    ensures Composed(Run(EMPTY, steps), id)
    ensures HoldGap(Run(EMPTY, steps), id) == Lost(steps, ForBatch(id))
  {
    if steps != [] {
      var front, s := steps[..|steps| - 1], steps[|steps| - 1];
      var db := Run(EMPTY, front);
      RunComposed(front, id);
      RunWellFormed(EMPTY, front);
      hide Composed, HoldGap, LostNow, WellFormed;
      if !s.StartBatch? {
        hide Next;
        QuietComposed(db, s, id);
      } else if Admissible(s) {
        hide Next;
        StartBatchComposed(db, s, id);
        StartBatchHold(db, s, id);
      } else {
        NothingLost(db, s, ForBatch(id));
      }
    }
  }

  lemma NothingLost(db: Db, s: Step, f: Movement -> int)
    requires !Admissible(s)
    ensures LostNow(db, s, f) == 0
  {
  }

  // ------------------------------ Conservation ------------------------------

  /** Item by item, what was returned and what is still out add up to the item's amount. */
  lemma {:induction false} RefundsAdd(db: Db, id: Ref, items: seq<Ref>)
    requires forall i :: 0 <= i < |items| ==>
               IsItem(db.payouts, id, items[i]) && PayoutBooked(db, items[i])
    ensures RefundsTo(db.books.ledger, items) + Unrefunded(db.payouts, items) == AmountsOf(db.payouts, items)
  {
    if items != [] {
      RefundsAdd(db, id, items[..|items| - 1]);
      assert PayoutBooked(db, items[|items| - 1]);
    }
  }

  /**
   Conservation: at every moment of every run, the amount held for a batch less the refunds of its items
   is the sum of the amounts of the items that were not refunded. The ledger holds for it what it was
   created with and what other requests lost under its reference.
   */
  lemma {:induction false} BatchConservation(steps: seq<Step>, id: Ref)
    requires id in Run(EMPTY, steps).batches
    ensures var db := Run(EMPTY, steps);
            var batch := db.batches[id];
            && SumOf(db.books.ledger, HoldMoney(id)) == -batch.totalAmount - Lost(steps, ForBatch(id))
            && batch.totalAmount - RefundsTo(db.books.ledger, batch.items) == Unrefunded(db.payouts, batch.items)
  {
    hide Run, SumOf, Lost;
    var db := Run(EMPTY, steps);
    RunComposed(steps, id);
    forall r ensures PayoutBooked(db, r) {
      RunRefundsBooked(steps, r);
    }
    RefundsAdd(db, id, db.batches[id].items);
  }

  // -------------------------------- Batch jobs ------------------------------

  /** One item of a job is one record, or nothing. */
  lemma ProcessPayoutIsRun(db: Db, ref: Ref, answer: ProviderAnswer) returns (steps: seq<Step>)
    ensures ProcessPayout(db, ref, answer).db == Run(db, steps)
    ensures forall i :: 0 <= i < |steps| ==> steps[i].PayoutRecord? && steps[i].ref == ref
  {
    hide MapProviderStatus, ApplyPayout;
    if ref in db.payouts && db.payouts[ref].status.Pending? {
      steps := [PayoutRecord(ref, MapProviderStatus(AnswerStatus(answer)))];
      assert steps[..0] == [];
    } else {
      steps := [];
    }
  }

  /** A batch job is a run of payout records: every law of runs covers the queue's work. */
  lemma {:induction false} ProcessBatchIsRun(db: Db, refs: seq<Ref>, answers: seq<ProviderAnswer>)
    returns (steps: seq<Step>)
    requires |refs| == |answers|
    ensures ProcessBatch(db, refs, answers).db == Run(db, steps)
    ensures forall i :: 0 <= i < |steps| ==> steps[i].PayoutRecord? && steps[i].ref in refs
    decreases |refs|
  {
    hide ProcessPayout, Next;
    if refs == [] {
      steps := [];
    } else {
      var first := ProcessPayout(db, refs[0], answers[0]);
      var head := ProcessPayoutIsRun(db, refs[0], answers[0]);
      if first.error.Some? {
        steps := head;
      } else {
        var tail := ProcessBatchIsRun(first.db, refs[1..], answers[1..]);
        RunConcat(db, head, tail);
        steps := head + tail;
      }
    }
  }
}
