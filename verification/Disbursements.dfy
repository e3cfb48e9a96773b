/**
 Customer payouts: single payouts, batches, and the queue handlers that hand them to the provider.
 */
module Disbursements {
  import opened Wrappers
  import opened ProviderStatus
  import opened Tables
  import opened FeeSchedules
  import opened Wallets
  import opened TxnStatus
  import Fees

  /** What the provider said to a payout request: its answer's status, or a refusal. */
  datatype ProviderAnswer = Answered(status: Option<string>) | Declined

  /** One item of a batch request. `deliverable` says that the fields its channel needs are present. */
  datatype BatchItem = BatchItem(ref: Ref, client: Option<Ref>, amount: Cents, deliverable: bool)

  // ------------------------------ Single payouts -----------------------------

  predicate HasPayout(db: Db, account: AccountId, client: Ref) {
    exists r :: r in db.payouts && db.payouts[r].account == account
             && db.payouts[r].clientReference == Some(client)
  }

  function PayoutDebitOf(account: AccountId, ref: Ref, total: Cents): Movement {
    Movement(WalletKey(account, DisbursementWallet), PayoutDebit, total, Some(ref), false, false)
  }

  function CustomerPayout(account: AccountId, client: Option<Ref>, amount: Cents, fee: Cents, now: nat): Payout {
    Payout(account, None, client, DisbursementWallet, Customer, amount, Some(fee), Pending, true, false, now)
  }

  function CreatePayout(db: Db, ref: Ref, account: AccountId, amount: Cents, client: Option<Ref>): (o: Outcome)
    ensures o.db == db.(books := o.db.books, fees := o.db.fees, payouts := o.db.payouts)
  {
    if account !in db.accounts then Outcome(db, Some(NotFound))
    else if client.Some? && HasPayout(db, account, client.value) then Outcome(db, Some(DuplicateReference))
    else
      var db1 := EnsureConfig(db, account);
      var fee := Fees.ComputeFee(Fees.DisbursementFee, ConfigOf(db, account), amount).amount;
      HoldPayout(db1, PayoutDebitOf(account, ref, amount + fee), ref,
                 CustomerPayout(account, client, amount, fee, db.books.clock))
  }

  /** The status a provider answer is applied as. */
  function AnswerStatus(answer: ProviderAnswer): Option<string> {
    match answer
    case Answered(status) => Some(status.GetOr("PENDING"))
    case Declined => Some("FAILED")
  }

  /** A job on a payout that is missing or no longer pending does nothing. */
  function ProcessPayout(db: Db, ref: Ref, answer: ProviderAnswer): Outcome {
    if ref !in db.payouts || !db.payouts[ref].status.Pending? then Outcome(db, None)
    else ApplyPayout(db, ref, MapProviderStatus(AnswerStatus(answer)))
  }

  // --------------------------------- Batches --------------------------------

  function TotalAmount(items: seq<BatchItem>): Cents {
    if items == [] then 0 else TotalAmount(items[..|items| - 1]) + items[|items| - 1].amount
  }

  function ItemRefs(items: seq<BatchItem>): (refs: seq<Ref>)
    ensures |refs| == |items| && forall i :: 0 <= i < |items| ==> refs[i] == items[i].ref
  {
    seq(|items|, i requires 0 <= i < |items| => items[i].ref)
  }

  function ItemPayout(account: AccountId, batch: Ref, item: BatchItem, now: nat): Payout {
    Payout(account, Some(batch), item.client, DisbursementWallet, Customer, item.amount, None, Pending, true, false,
           now)
  }

  /** The payout table with one row per item added. */
  function WithItems(payouts: map<Ref, Payout>, account: AccountId, batch: Ref, items: seq<BatchItem>, now: nat)
    : map<Ref, Payout>
  {
    if items == [] then payouts
    else
      var last := items[|items| - 1];
      WithItems(payouts, account, batch, items[..|items| - 1], now)
        [last.ref := ItemPayout(account, batch, last, now)]
  }

  predicate Distinct(items: seq<BatchItem>) {
    forall i, j :: 0 <= i < j < |items| ==> items[i].ref != items[j].ref
  }

  /** The references a batch needs, its own and one for each item, are all unused. */
  predicate RefsFree(db: Db, ref: Ref, items: seq<BatchItem>) {
    ref !in db.batches && Distinct(items) && forall i :: 0 <= i < |items| ==> items[i].ref !in db.payouts
  }

  function BatchHoldOf(account: AccountId, ref: Ref, total: Cents): Movement {
    Movement(WalletKey(account, DisbursementWallet), BatchHold, total, Some(ref), false, false)
  }

  /** The hold comes first; the batch and its rows follow in a transaction of their own, all or none. */
  function CreateBatch(db: Db, ref: Ref, account: AccountId, items: seq<BatchItem>): (o: Outcome)
    ensures o.db == db.(books := o.db.books, payouts := o.db.payouts, batches := o.db.batches)
  {
    if account !in db.accounts then Outcome(db, Some(NotFound))
    else if exists i :: 0 <= i < |items| && !items[i].deliverable then Outcome(db, Some(ValidationFailed))
    else
      match Move(db.books, BatchHoldOf(account, ref, TotalAmount(items)))
      case Refused(e) => Outcome(db, Some(e))
      case Posted(books) =>
        if !RefsFree(db, ref, items) then Outcome(db.(books := books), Some(ReferenceTaken))
        else
          Outcome(db.(books := books,
                      batches := db.batches[ref := Batch(account, BatchProcessing, |items|, TotalAmount(items), 0, 0,
                                                         ItemRefs(items))],
                      payouts := WithItems(db.payouts, account, ref, items, db.books.clock)),
                  None)
  }

  /** The batch job: item by item, until one raises an error. */
  function ProcessBatch(db: Db, refs: seq<Ref>, answers: seq<ProviderAnswer>): Outcome
    requires |refs| == |answers|
    decreases |refs|
  {
    if refs == [] then Outcome(db, None)
    else
      var first := ProcessPayout(db, refs[0], answers[0]);
      if first.error.Some? then first else ProcessBatch(first.db, refs[1..], answers[1..])
  }

  // ------------------------------- The service ------------------------------

  method CreatePayoutRequest(db: Database, ref: Ref, account: AccountId, amount: Cents, client: Option<Ref>)
    returns (error: Option<Error>)
    modifies db
    ensures Outcome(db.Snapshot(), error) == CreatePayout(old(db.Snapshot()), ref, account, amount, client)
  {
    hide Fees.FeeAt;
    if account !in db.accounts {
      return Some(NotFound);
    }
    if client.Some? && exists r :: r in db.payouts && db.payouts[r].account == account
                                && db.payouts[r].clientReference == client {
      return Some(DuplicateReference);
    }
    var config := ReadConfig(db, account);
    var fee := Fees.ComputeFee(Fees.DisbursementFee, config.value, amount);
    var totalDebit := amount + fee.amount;
    error := MoveFunds(db, PayoutDebitOf(account, ref, totalDebit));
    if error.None? {
      error := InsertPayout(db, ref, CustomerPayout(account, client, amount, fee.amount, db.clock));
    }
  }

  method ProcessPayoutJob(db: Database, ref: Ref, answer: ProviderAnswer) returns (error: Option<Error>)
    modifies db
    ensures Outcome(db.Snapshot(), error) == ProcessPayout(old(db.Snapshot()), ref, answer)
  {
    if ref !in db.payouts || !db.payouts[ref].status.Pending? {
      return None;
    }
    var handled;
    handled, error := ApplyPayoutUpdate(db, ref, AnswerStatus(answer));
  }

  method CreateBatchRequest(db: Database, ref: Ref, account: AccountId, items: seq<BatchItem>)
    returns (error: Option<Error>)
    modifies db
    ensures Outcome(db.Snapshot(), error) == CreateBatch(old(db.Snapshot()), ref, account, items)
  {
    if account !in db.accounts {
      return Some(NotFound);
    }
    for i := 0 to |items|
      invariant forall j :: 0 <= j < i ==> items[j].deliverable
      invariant db.Snapshot() == old(db.Snapshot())
    {
      if !items[i].deliverable {
        return Some(ValidationFailed);
      }
    }
    var total := TotalAmount(items);
    error := MoveFunds(db, BatchHoldOf(account, ref, total));
    if error.None? {
      if ref in db.batches || !Distinct(items) || exists i :: 0 <= i < |items| && items[i].ref in db.payouts {
        return Some(ReferenceTaken);
      }
      db.batches := db.batches[ref := Batch(account, BatchProcessing, |items|, total, 0, 0, ItemRefs(items))];
      db.payouts := WithItems(db.payouts, account, ref, items, db.clock);
    }
  }

  method ProcessBatchJob(db: Database, refs: seq<Ref>, answers: seq<ProviderAnswer>) returns (error: Option<Error>)
    requires |refs| == |answers|
    modifies db
    ensures Outcome(db.Snapshot(), error) == ProcessBatch(old(db.Snapshot()), refs, answers)
  {
    error := None;
    for i := 0 to |refs|
      invariant error == None
      invariant ProcessBatch(db.Snapshot(), refs[i..], answers[i..]) == ProcessBatch(old(db.Snapshot()), refs, answers)
    {
      assert refs[i..][1..] == refs[i + 1..] && answers[i..][1..] == answers[i + 1..];
      error := ProcessPayoutJob(db, refs[i], answers[i]);
      if error.Some? {
        return;
      }
    }
  }
}
