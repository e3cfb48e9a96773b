/**
 Payout confluence: what a whole run does for one payout, whatever the order and repetition of the
 provider's records.
 */
module PayoutLaws {
  import opened Wrappers
  import opened Totals
  import opened ProviderStatus
  import opened Tables
  import opened FeeSchedules
  import opened Wallets
  import opened TxnStatus
  import opened Disbursements
  import opened Settlements
  import opened Engine
  import opened LedgerLaws
  import opened EngineLaws
  import opened RowLaws
  import opened StatusMachine
  import opened ReceiptLaws
  import opened Holds
  import Fees

  // ------------------------------ The status mark ---------------------------

  function PayoutMarkOf(p: Payout): Mark {
    Mark(p.status, p.refunded)
  }

  function PayoutRecords(steps: seq<Step>, r: Ref): seq<TxStatus> {
    if steps == [] then []
    else
      var front, last := PayoutRecords(steps[..|steps| - 1], r), steps[|steps| - 1];
      if last.PayoutRecord? && last.ref == r then front + [last.next] else front
  }

  /** Everything about a payout but its status and its refund is fixed when it is created. */
  predicate SamePayout(p: Payout, q: Payout) {
    q == p.(status := q.status, refunded := q.refunded)
  }

  lemma PayoutObserves(db: Db, r: Ref, next: TxStatus)
    requires WellFormed(db) && r in db.payouts
    ensures var db' := ApplyPayout(db, r, next).db;
            && r in db'.payouts && SamePayout(db.payouts[r], db'.payouts[r])
            && PayoutMarkOf(db'.payouts[r]) == Observe(PayoutMarkOf(db.payouts[r]), next, OnFailure())
  {
    PayoutRecordShape(db, r, next);
    hide ApplyPayout, Move;
  }

  /** Starting a payout under a taken reference writes no row, whatever it does to the wallet. */
  lemma NoSecondStart(db: Db, s: Step, r: Ref)
    requires r in db.payouts && AddsPayout(s, r)
    ensures Next(db, s).payouts == db.payouts && Next(db, s).batches == db.batches
  {
    hide Next, HoldOf, RowFor, HoldPayout, Admissible;
    if s.StartBatch? {
      NoSecondItem(db, s, r);
    } else if Admissible(s) {
      HoldShape(db, s);
      if HoldOf(db, s).Some? {
        HoldKeepsRows(db.(fees := Next(db, s).fees), HoldOf(db, s).value, r, RowFor(db, s));
      }
    } else {
      Unchanged(db, s);
    }
  }

  lemma HoldKeepsRows(db: Db, m: Movement, r: Ref, p: Payout)
    requires r in db.payouts
    ensures HoldPayout(db, m, r, p).db == db.(books := HoldPayout(db, m, r, p).db.books)
  {
    hide Move;
  }

  lemma NoSecondItem(db: Db, s: Step, r: Ref)
    requires r in db.payouts && AddsPayout(s, r) && s.StartBatch?
    ensures Next(db, s).payouts == db.payouts && Next(db, s).batches == db.batches
  {
    hide Move, WithItems, TotalAmount;
    assert !RefsFree(db, s.ref, s.items);
  }

  /** A step writes an existing payout's status and refund mark only, and only as the payout's own record. */
  lemma StepPayoutMark(db: Db, s: Step, r: Ref)
    requires WellFormed(db) && r in db.payouts
    ensures r in Next(db, s).payouts && SamePayout(db.payouts[r], Next(db, s).payouts[r])
    ensures var m := PayoutMarkOf(db.payouts[r]);
            PayoutMarkOf(Next(db, s).payouts[r])
            == if s.PayoutRecord? && s.ref == r then Observe(m, s.next, OnFailure()) else m
  {
    hide ApplyPayout, WellFormed;
    if s.PayoutRecord? && s.ref == r {
      PayoutObserves(db, r, s.next);
    } else {
      hide Next;
      if AddsPayout(s, r) {
        NoSecondStart(db, s, r);
      } else {
        PayoutFrame(db, s, r);
      }
    }
  }

  /** Whatever else happens in a run, a payout depends on its own records only. */
  lemma {:induction false} PayoutMark(db: Db, steps: seq<Step>, r: Ref)
    requires WellFormed(db) && r in db.payouts
    ensures r in Run(db, steps).payouts && SamePayout(db.payouts[r], Run(db, steps).payouts[r])
    ensures PayoutMarkOf(Run(db, steps).payouts[r])
         == ObserveAll(PayoutMarkOf(db.payouts[r]), PayoutRecords(steps, r), OnFailure())
  {
    if steps != [] {
      hide Next, WellFormed, Observe;
      var front, s := steps[..|steps| - 1], steps[|steps| - 1];
      PayoutMark(db, front, r);
      RunWellFormed(db, front);
      StepPayoutMark(Run(db, front), s, r);
      if s.PayoutRecord? && s.ref == r {
        ObserveAppend(PayoutMarkOf(db.payouts[r]), PayoutRecords(front, r), s.next, OnFailure());
      }
    }
  }

  // ------------------------------ The ledger side ---------------------------

  /** The engine's own ledger rows about payout r: the debit that funded it and its refund. */
  predicate IsPayoutRow(row: LedgerRow, r: Ref) {
    !row.manual && row.reference == Some(r) && (row.txType.PayoutDebit? || row.txType.Withdrawal? || row.txType.Refund?)
  }

  function PayoutMoney(r: Ref, w: WalletKey): LedgerRow -> int {
    (row: LedgerRow) => if IsPayoutRow(row, r) && row.wallet == w then row.amount else 0
  }

  function CountRefund(r: Ref): LedgerRow -> int {
    (row: LedgerRow) => if IsPayoutRow(row, r) && row.txType.Refund? then 1 else 0
  }

  function RefundMoney(r: Ref): LedgerRow -> int {
    (row: LedgerRow) => if IsPayoutRow(row, r) && row.txType.Refund? then row.amount else 0
  }

  /**
   What the ledger owes to one payout on one wallet. A payout of its own was debited when it started; a
   batch item was paid for by its batch's hold. Either way a refund returns all of it, once.
   */
  function NetOf(p: Payout, w: WalletKey): Cents {
    if w != SourceOf(p) then 0
    else (if p.batch.None? then -Owed(p) else 0) + (if p.refunded then Owed(p) else 0)
  }

  /** What the payout's row accounts for on wallet w beyond the ledger's rows about it. */
  ghost function DebitGap(db: Db, r: Ref, w: WalletKey): Cents {
    (if r in db.payouts then NetOf(db.payouts[r], w) else 0) - SumOf(db.books.ledger, PayoutMoney(r, w))
  }

  /** One refund of everything owed for a refunded payout, none for any other; a failed payout is refunded. */
  ghost predicate PayoutBooked(db: Db, r: Ref) {
    if r !in db.payouts then
      && SumOf(db.books.ledger, CountRefund(r)) == 0
      && SumOf(db.books.ledger, RefundMoney(r)) == 0
    else
      var p := db.payouts[r];
      && SumOf(db.books.ledger, CountRefund(r)) == (if p.refunded && Owed(p) != 0 then 1 else 0)
      && SumOf(db.books.ledger, RefundMoney(r)) == (if p.refunded then Owed(p) else 0)
      && (TerminalFail(p.status) ==> p.refunded)
  }

  /** A refund writes one row of the full amount on the wallet that paid, or none when nothing is owed. */
  lemma RefundWrites(b: Books, r: Ref, p: Payout, w: WalletKey)
    requires SourceOf(p) in b.wallets && Owed(p) >= 0
    ensures var ledger' := After(b, Move(b, RefundOf(r, p))).ledger;
            && SumOf(ledger', PayoutMoney(r, w))
               == SumOf(b.ledger, PayoutMoney(r, w)) + (if w == SourceOf(p) then Owed(p) else 0)
            && SumOf(ledger', CountRefund(r)) == SumOf(b.ledger, CountRefund(r)) + (if Owed(p) == 0 then 0 else 1)
            && SumOf(ledger', RefundMoney(r)) == SumOf(b.ledger, RefundMoney(r)) + Owed(p)
  {
    MoveSum(b, RefundOf(r, p), PayoutMoney(r, w));
    MoveSum(b, RefundOf(r, p), CountRefund(r));
    MoveSum(b, RefundOf(r, p), RefundMoney(r));
  }

  lemma PayoutRecordBooked(db: Db, r: Ref, next: TxStatus, w: WalletKey)
    requires WellFormed(db)
    ensures DebitGap(ApplyPayout(db, r, next).db, r, w) == DebitGap(db, r, w)
    ensures PayoutBooked(db, r) ==> PayoutBooked(ApplyPayout(db, r, next).db, r)
  {
    hide WellFormed, Move, PayoutMoney, CountRefund, RefundMoney, SumOf, ApplyPayout, RefundOf;
    if r in db.payouts {
      PayoutRowFormed(db, r);
      PayoutRecordShape(db, r, next);
      RefundWrites(db.books, r, db.payouts[r], w);
    } else {
      NoPayoutRecord(db, r, next);
    }
  }

  lemma NoPayoutRecord(db: Db, r: Ref, next: TxStatus)
    requires r !in db.payouts
    ensures ApplyPayout(db, r, next).db == db
  {
  }

  /** A debit writes one row of the full amount on the wallet it is taken from. */
  lemma DebitWrites(b: Books, m: Movement, r: Ref, w: WalletKey)
    requires m.txType.PayoutDebit? || m.txType.Withdrawal?
    requires !m.manual && m.reference == Some(r) && m.amount >= 0 && Move(b, m).Posted?
    ensures var ledger' := Move(b, m).books.ledger;
            && SumOf(ledger', PayoutMoney(r, w))
               == SumOf(b.ledger, PayoutMoney(r, w)) - (if w == m.wallet then m.amount else 0)
            && SumOf(ledger', CountRefund(r)) == SumOf(b.ledger, CountRefund(r))
            && SumOf(ledger', RefundMoney(r)) == SumOf(b.ledger, RefundMoney(r))
  {
    MoveSum(b, m, PayoutMoney(r, w));
    MoveSum(b, m, CountRefund(r));
    MoveSum(b, m, RefundMoney(r));
  }

  /** The hold of a new payout writes its debit; under a taken reference that debit is one too many. */
  lemma HoldBooked(db: Db, m: Movement, r: Ref, p: Payout, w: WalletKey)
    requires IsHold(m, r) && !m.txType.BatchHold? && Funds(m, p)
    ensures var db' := HoldPayout(db, m, r, p).db;
            && DebitGap(db', r, w) == DebitGap(db, r, w)
               + (if r in db.payouts && w == m.wallet && Covered(db.books, m.wallet, m.amount) then m.amount else 0)
            && (PayoutBooked(db, r) ==> PayoutBooked(db', r))
  {
    hide Move, SumOf, PayoutMoney, CountRefund, RefundMoney, Covered, Paid;
    DebitIff(db.books, m, r);
    if Move(db.books, m).Posted? {
      DebitWrites(db.books, m, r, w);
    }
  }

  lemma FeesPayoutBooked(db: Db, fees: map<AccountId, Fees.FeeConfig>, r: Ref, w: WalletKey)
    ensures DebitGap(db.(fees := fees), r, w) == DebitGap(db, r, w)
    ensures PayoutBooked(db, r) ==> PayoutBooked(db.(fees := fees), r)
  {
  }

  lemma StartBooked(db: Db, s: Step, w: WalletKey)
    requires WellFormed(db) && StartsOne(s) && Admissible(s)
    ensures DebitGap(Next(db, s), s.ref, w) == DebitGap(db, s.ref, w) + LostNow(db, s, UnderRef(s.ref, w))
    ensures PayoutBooked(db, s.ref) ==> PayoutBooked(Next(db, s), s.ref)
  {
    assert FeesFormed(db.fees);
    hide Next, HoldPayout, WellFormed, HoldOf, RowFor, DebitGap, PayoutBooked;
    HoldShape(db, s);
    FeesPayoutBooked(db, Next(db, s).fees, s.ref, w);
    if HoldOf(db, s).Some? {
      HoldFits(db, s);
      HoldBooked(db.(fees := Next(db, s).fees), HoldOf(db, s).value, s.ref, RowFor(db, s), w);
    }
  }

  lemma {:induction false} WithItemsAt(payouts: map<Ref, Payout>, a: AccountId, batch: Ref, items: seq<BatchItem>,
                                       now: nat, i: nat)
    requires Distinct(items) && i < |items|
    ensures items[i].ref in WithItems(payouts, a, batch, items, now)
    ensures WithItems(payouts, a, batch, items, now)[items[i].ref] == ItemPayout(a, batch, items[i], now)
  {
    if i < |items| - 1 {
      WithItemsAt(payouts, a, batch, items[..|items| - 1], now, i);
    }
  }

  lemma BatchItemBooked(db: Db, s: Step, r: Ref, w: WalletKey)
    requires s.StartBatch? && AddsPayout(s, r)
    ensures DebitGap(Next(db, s), r, w) == DebitGap(db, r, w)
    ensures PayoutBooked(db, r) ==> PayoutBooked(Next(db, s), r)
  {
    hide Next, Move, WithItems, SumOf, HoldOf, RefsFree;
    UnseenBy(db, s, r, w);
    if r in db.payouts {
      NoSecondStart(db, s, r);
    } else if Admissible(s) {
      BatchShape(db, s);
      if RefsFree(db, s.ref, s.items) {
        ItemRow(db, s, r);
      }
    } else {
      Unchanged(db, s);
    }
  }

  lemma Unchanged(db: Db, s: Step)
    requires !Admissible(s)
    ensures Next(db, s) == db
  {
  }

  lemma ItemRow(db: Db, s: Step, r: Ref)
    requires s.StartBatch? && AddsPayout(s, r) && RefsFree(db, s.ref, s.items)
    ensures var payouts := WithItems(db.payouts, s.account, s.ref, s.items, db.books.clock);
            r in payouts && payouts[r].batch.Some? && payouts[r].status.Pending? && !payouts[r].refunded
  {
    var i :| 0 <= i < |s.items| && s.items[i].ref == r;
    WithItemsAt(db.payouts, s.account, s.ref, s.items, db.books.clock, i);
  }

  /** A step that writes no row about payout r leaves every sum about r as it was. */
  lemma UnseenBy(db: Db, s: Step, r: Ref, w: WalletKey)
    requires s.StartBatch? || (!AddsPayout(s, r) && !(s.PayoutRecord? && s.ref == r))
    ensures var ledger, ledger' := db.books.ledger, Next(db, s).books.ledger;
            && SumOf(ledger', PayoutMoney(r, w)) == SumOf(ledger, PayoutMoney(r, w))
            && SumOf(ledger', CountRefund(r)) == SumOf(ledger, CountRefund(r))
            && SumOf(ledger', RefundMoney(r)) == SumOf(ledger, RefundMoney(r))
  {
    StepExtends(db, s);
    hide Next;
    ExtendsSum(db.books.ledger, Next(db, s).books.ledger, s, PayoutMoney(r, w));
    ExtendsSum(db.books.ledger, Next(db, s).books.ledger, s, CountRefund(r));
    ExtendsSum(db.books.ledger, Next(db, s).books.ledger, s, RefundMoney(r));
  }

  /** A step about another payout, or about none, loses nothing under payout r's reference. */
  lemma OtherLosesNothing(db: Db, s: Step, r: Ref, w: WalletKey)
    requires FeesFormed(db.fees) && !AddsPayout(s, r)
    ensures LostNow(db, s, UnderRef(r, w)) == 0
  {
    hide LostBy;
    if LostBy(db, s).Some? {
      LostIsHold(db, s);
      LostByStart(db, s);
    }
  }

  lemma OtherPayoutBooked(db: Db, s: Step, r: Ref, w: WalletKey)
    requires WellFormed(db) && !AddsPayout(s, r) && !(s.PayoutRecord? && s.ref == r)
    ensures DebitGap(Next(db, s), r, w) == DebitGap(db, r, w) && LostNow(db, s, UnderRef(r, w)) == 0
    ensures PayoutBooked(db, r) ==> PayoutBooked(Next(db, s), r)
  {
    assert FeesFormed(db.fees);
    hide Next, SumOf, LostNow, WellFormed;
    OtherLosesNothing(db, s, r, w);
    UnseenBy(db, s, r, w);
    PayoutFrame(db, s, r);
  }

  lemma LostByStart(db: Db, s: Step)
    requires LostBy(db, s).Some?
    ensures (StartsOne(s) && AddsPayout(s, s.ref)) || (s.StartBatch? && LostBy(db, s).value.txType.BatchHold?)
  {
    hide TotalAmount, DisbursementFeeOf;
  }

  lemma StepPayoutBooked(db: Db, s: Step, r: Ref, w: WalletKey)
    requires WellFormed(db)
    ensures DebitGap(Next(db, s), r, w) == DebitGap(db, r, w) + LostNow(db, s, UnderRef(r, w))
    ensures PayoutBooked(db, r) ==> PayoutBooked(Next(db, s), r)
  {
    hide DebitGap, PayoutBooked, WellFormed;
    if !Admissible(s) {
    } else if s.PayoutRecord? && s.ref == r {
      hide ApplyPayout;
      PayoutRecordBooked(db, r, s.next, w);
    } else if !AddsPayout(s, r) {
      hide Next;
      OtherPayoutBooked(db, s, r, w);
    } else if s.StartBatch? {
      BatchItemBooked(db, s, r, w);
      hide Next, Covered;
    } else {
      hide Next;
      StartBooked(db, s, w);
    }
  }

  /** In every state of every run there is one refund for each refunded payout, and a failed payout is refunded. */
  lemma {:induction false} RunRefundsBooked(steps: seq<Step>, r: Ref)
    ensures PayoutBooked(Run(EMPTY, steps), r)
  {
    if steps != [] {
      var front := steps[..|steps| - 1];
      RunRefundsBooked(front, r);
      RunWellFormed(EMPTY, front);
      hide PayoutBooked, DebitGap, Next, WellFormed, LostNow;
      StepPayoutBooked(Run(EMPTY, front), steps[|steps| - 1], r, WalletKey("", CollectionWallet));
    }
  }

  /**
   In every state of every run the ledger's rows about a payout are its debit and its refund, and besides
   them only the debits of later holds that were lost under its reference.
   */
  lemma {:induction false} RunPayoutBooked(steps: seq<Step>, r: Ref, w: WalletKey)
    ensures PayoutBooked(Run(EMPTY, steps), r)
    ensures DebitGap(Run(EMPTY, steps), r, w) == Lost(steps, UnderRef(r, w))
    ensures DebitGap(Run(EMPTY, steps), r, w) == 0 <==> NeverLoses(steps, UnderRef(r, w))
  {
    RunRefundsBooked(steps, r);
    RunDebitGap(steps, r, w);
    LostNothingIff(steps, UnderRef(r, w));
  }

  lemma {:induction false} RunDebitGap(steps: seq<Step>, r: Ref, w: WalletKey)
    ensures DebitGap(Run(EMPTY, steps), r, w) == Lost(steps, UnderRef(r, w))
  {
    if steps != [] {
      var front := steps[..|steps| - 1];
      RunDebitGap(front, r, w);
      RunWellFormed(EMPTY, front);
      hide PayoutBooked, DebitGap, Next, WellFormed, LostNow;
      StepPayoutBooked(Run(EMPTY, front), steps[|steps| - 1], r, w);
    }
  }

  // ------------------------------- Confluence -------------------------------

  lemma OnlyFailures()
    ensures OnlyFinalTriggers(OnFailure())
  {
  }

  /** The share of its batch's hold that paid for a batch item. */
  function HeldFor(p: Payout, w: WalletKey): Cents {
    if p.batch.Some? && w == SourceOf(p) then Owed(p) else 0
  }

  /**
   The net effect of a payout on each wallet, over any run whatever: minus amount and fee on the wallet
   that funded it while no record has failed it, exactly nothing once one has, and nothing elsewhere. A
   batch item was paid for by its share of the batch's hold; what later holds lost under the payout's
   reference comes on top.
   */
  lemma {:induction false} PayoutNetEffect(before: seq<Step>, later: seq<Step>, r: Ref, w: WalletKey)
    requires r in Run(EMPTY, before).payouts && !Run(EMPTY, before).payouts[r].refunded
    ensures var p := Run(EMPTY, before).payouts[r];
            var failed := exists j :: 0 <= j < |PayoutRecords(later, r)| && TerminalFail(PayoutRecords(later, r)[j]);
            SumOf(Run(EMPTY, before + later).books.ledger, PayoutMoney(r, w)) - HeldFor(p, w)
            == (if w == SourceOf(p) && !failed then -Owed(p) else 0) - Lost(before + later, UnderRef(r, w))
  {
    hide PayoutMoney, UnderRef;
    var db := Run(EMPTY, before);
    RunConcat(EMPTY, before, later);
    RunWellFormed(EMPTY, before);
    PayoutMark(db, later, r);
    OnlyFailures();
    RunRefundsBooked(before, r);
    RunDebitGap(before + later, r, w);
    MovedIff(PayoutMarkOf(db.payouts[r]), PayoutRecords(later, r), OnFailure());
    FiresFromOpenStart(db.payouts[r].status, PayoutRecords(later, r), OnFailure());
    var records := PayoutRecords(later, r);
    assert forall j :: 0 <= j < |records| ==> OnFailure()(records[j]) == TerminalFail(records[j]);
  }

  // ------------------- Records of one payout in any order -------------------

  function RecordSteps(r: Ref, records: seq<TxStatus>): (steps: seq<Step>)
    ensures |steps| == |records| && forall i :: 0 <= i < |records| ==> steps[i] == PayoutRecord(r, records[i])
  {
    seq(|records|, i requires 0 <= i < |records| => PayoutRecord(r, records[i]))
  }

  predicate SomeFailure(records: seq<TxStatus>) {
    exists j :: 0 <= j < |records| && TerminalFail(records[j])
  }

  /** What the payout still has of a wallet's money. */
  function Outstanding(db: Db, r: Ref, w: WalletKey): Cents
    requires r in db.payouts
  {
    if w == SourceOf(db.payouts[r]) && !db.payouts[r].refunded then Owed(db.payouts[r]) else 0
  }

  /** A refund changes one balance, by what is owed, and no status. */
  lemma RefundMoves(b: Books, r: Ref, p: Payout, w: WalletKey)
    requires SourceOf(p) in b.wallets && w in b.wallets && Owed(p) >= 0
    ensures var b' := After(b, Move(b, RefundOf(r, p)));
            && b'.wallets.Keys == b.wallets.Keys && b'.wallets[w].status == b.wallets[w].status
            && b'.wallets[w].balance == b.wallets[w].balance + (if w == SourceOf(p) then Owed(p) else 0)
  {
  }

  /** A record moves money between the payout and its wallet and changes nothing else of any wallet. */
  lemma RecordMoves(db: Db, r: Ref, next: TxStatus, w: WalletKey)
    requires WellFormed(db) && r in db.payouts && w in db.books.wallets
    ensures var db' := ApplyPayout(db, r, next).db;
            && r in db'.payouts && db'.books.wallets.Keys == db.books.wallets.Keys
            && db'.books.wallets[w].status == db.books.wallets[w].status
            && db'.books.wallets[w].balance + Outstanding(db', r, w)
            == db.books.wallets[w].balance + Outstanding(db, r, w)
  {
    hide WellFormed, Move, ApplyPayout, RefundOf;
    PayoutRowFormed(db, r);
    PayoutRecordShape(db, r, next);
    RefundMoves(db.books, r, db.payouts[r], w);
  }

  lemma {:induction false} RecordsMove(db: Db, r: Ref, records: seq<TxStatus>, w: WalletKey)
    requires WellFormed(db) && r in db.payouts && w in db.books.wallets
    ensures var db' := Run(db, RecordSteps(r, records));
            && r in db'.payouts && db'.books.wallets.Keys == db.books.wallets.Keys
            && db'.books.wallets[w].status == db.books.wallets[w].status
            && db'.books.wallets[w].balance + Outstanding(db', r, w)
            == db.books.wallets[w].balance + Outstanding(db, r, w)
  {
    hide ApplyPayout, WellFormed, Outstanding;
    if records != [] {
      var n := |records| - 1;
      assert RecordSteps(r, records)[..n] == RecordSteps(r, records[..n]);
      RecordsMove(db, r, records[..n], w);
      RunWellFormed(db, RecordSteps(r, records[..n]));
      RecordMoves(Run(db, RecordSteps(r, records[..n])), r, records[n], w);
    } else {
      assert RecordSteps(r, records) == [];
    }
  }

  lemma {:induction false} RecordsOf(r: Ref, records: seq<TxStatus>)
    ensures PayoutRecords(RecordSteps(r, records), r) == records
  {
    if records != [] {
      var n := |records| - 1;
      assert RecordSteps(r, records)[..n] == RecordSteps(r, records[..n]);
      RecordsOf(r, records[..n]);
    } else {
      assert RecordSteps(r, records) == [];
    }
  }

  /**
   Confluence: two sequences of records for one open payout leave every wallet in the same state as soon
   as they agree on whether any record fails the payout. Order and repetition do not matter.
   */
  lemma {:induction false} PayoutConfluence(db: Db, r: Ref, first: seq<TxStatus>, second: seq<TxStatus>)
    requires WellFormed(db) && r in db.payouts && !TerminalFail(db.payouts[r].status)
    requires SomeFailure(first) <==> SomeFailure(second)
    ensures Run(db, RecordSteps(r, first)).books.wallets == Run(db, RecordSteps(r, second)).books.wallets
  {
    hide Run, WellFormed, SomeFailure;
    var wallets := Run(db, RecordSteps(r, first)).books.wallets;
    var wallets' := Run(db, RecordSteps(r, second)).books.wallets;
    RefundedIffFailed(db, r, first);
    RefundedIffFailed(db, r, second);
    forall w | w in db.books.wallets ensures w in wallets && w in wallets' && wallets[w] == wallets'[w] {
      RecordsMove(db, r, first, w);
      RecordsMove(db, r, second, w);
    }
    SameKeys(db, r, first);
    SameKeys(db, r, second);
  }

  lemma {:induction false} SameKeys(db: Db, r: Ref, records: seq<TxStatus>)
    requires WellFormed(db) && r in db.payouts
    ensures Run(db, RecordSteps(r, records)).books.wallets.Keys == db.books.wallets.Keys
  {
    assert PayoutFormed(db.accounts, db.payouts[r]);
    RecordsMove(db, r, records, SourceOf(db.payouts[r]));
  }

  lemma {:induction false} RefundedIffFailed(db: Db, r: Ref, records: seq<TxStatus>)
    requires WellFormed(db) && r in db.payouts && !TerminalFail(db.payouts[r].status)
    ensures var db' := Run(db, RecordSteps(r, records));
            && r in db'.payouts && SamePayout(db.payouts[r], db'.payouts[r])
            && (db'.payouts[r].refunded <==> db.payouts[r].refunded || SomeFailure(records))
  {
    PayoutMark(db, RecordSteps(r, records), r);
    RecordsOf(r, records);
    OnlyFailures();
    MovedIff(PayoutMarkOf(db.payouts[r]), records, OnFailure());
    FiresFromOpenStart(db.payouts[r].status, records, OnFailure());
    assert forall j :: 0 <= j < |records| ==> OnFailure()(records[j]) == TerminalFail(records[j]);
  }
}
