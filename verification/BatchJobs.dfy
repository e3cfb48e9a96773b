/**
 The batch job in full: which items get the provider's answer, which are left, and where the job stops.
 */
module BatchJobs {
  import opened Wrappers
  import opened ProviderStatus
  import opened Tables
  import opened Wallets
  import opened TxnStatus
  import opened Disbursements
  import opened EngineLaws
  import opened LedgerLaws
  import opened RecordLaws
  import opened RequestLaws

  /** A pending item that owes nothing and that the provider fails: there is nothing to refund, and the job stops. */
  predicate Stops(db: Db, r: Ref, answer: ProviderAnswer) {
    && r in db.payouts && db.payouts[r].status == Pending && !db.payouts[r].refunded
    && FirstStatus(answer) in {Failed, Reversed, Refunded}
    && db.payouts[r].amount + db.payouts[r].feeAmount.GetOr(0) == 0
  }

  /** A pending payout takes the status of the answer, and is refunded if that is a failure; another stays. */
  function Answered(p: Payout, answer: ProviderAnswer): Payout {
    if p.status != Pending then p
    else p.(status := FirstStatus(answer),
            refunded := p.refunded || FirstStatus(answer) in {Failed, Reversed, Refunded})
  }

  /** What one item of the job does to the payouts, and when it raises an error. */
  lemma ItemAnswered(db: Db, r: Ref, answer: ProviderAnswer)
    requires WellFormed(db)
    ensures var o := ProcessPayout(db, r, answer);
            && WellFormed(o.db)
            && o.error == (if Stops(db, r, answer) then Some(ValidationFailed) else None)
            && o.db.payouts == if r in db.payouts then db.payouts[r := Answered(db.payouts[r], answer)] else db.payouts
  {
    hide ProcessPayout, ApplyPayout, WellFormed, QuietStep, OneRow, FirstStatus;
    JobMeaning(db, r, answer);
    if r in db.payouts && db.payouts[r].status == Pending {
      PayoutRecordMeaning(db, r, FirstStatus(answer));
      PayoutRecordKept(db, r, FirstStatus(answer));
    }
  }

  /** No item before item i stops the job. */
  predicate Reaches(db: Db, refs: seq<Ref>, answers: seq<ProviderAnswer>, i: nat)
    requires |refs| == |answers|
  {
    forall j :: 0 <= j < i && j < |refs| ==> !Stops(db, refs[j], answers[j])
  }

  predicate DistinctRefs(refs: seq<Ref>) {
    forall i, j :: 0 <= i < j < |refs| ==> refs[i] != refs[j]
  }

  /**
   Each pending item has the provider's answer, up to and including the first one that stops the job; the items
   after that one, and every payout that is not in the job, are as they were. There is an error exactly when
   some item stops the job.
   */
  ghost predicate JobDone(db: Db, o: Outcome, refs: seq<Ref>, answers: seq<ProviderAnswer>)
    requires |refs| == |answers|
  {
    && o.error == (if Reaches(db, refs, answers, |refs|) then None else Some(ValidationFailed))
    && o.db.payouts.Keys == db.payouts.Keys
    && (forall i :: 0 <= i < |refs| && refs[i] in db.payouts ==>
          o.db.payouts[refs[i]] == if Reaches(db, refs, answers, i) then Answered(db.payouts[refs[i]], answers[i])
                                   else db.payouts[refs[i]])
    && (forall r :: r in db.payouts && r !in refs ==> o.db.payouts[r] == db.payouts[r])
  }

  /** Every batch job ends so. */
  lemma {:induction false} BatchJobMeaning(db: Db, refs: seq<Ref>, answers: seq<ProviderAnswer>)
    requires |refs| == |answers| && WellFormed(db) && DistinctRefs(refs)
    ensures JobDone(db, ProcessBatch(db, refs, answers), refs, answers)
    decreases |refs|
  {
    if refs != [] {
      hide WellFormed, ProcessPayout, Answered, Stops, JobDone;
      var first := ProcessPayout(db, refs[0], answers[0]);
      ItemAnswered(db, refs[0], answers[0]);
      if first.error.Some? {
        StoppedAtOnce(db, first, refs, answers);
      } else {
        BatchJobMeaning(first.db, refs[1..], answers[1..]);
        RestAnswered(db, first.db, ProcessBatch(first.db, refs[1..], answers[1..]), refs, answers);
      }
    }
  }

  lemma StoppedAtOnce(db: Db, o: Outcome, refs: seq<Ref>, answers: seq<ProviderAnswer>)
    requires |refs| == |answers| && refs != [] && DistinctRefs(refs)
    requires Stops(db, refs[0], answers[0]) && o.error == Some(ValidationFailed)
    requires refs[0] in db.payouts && o.db.payouts == db.payouts[refs[0] := Answered(db.payouts[refs[0]], answers[0])]
    ensures JobDone(db, o, refs, answers)
  {
    hide Stops, Answered;
    assert forall i: nat :: i > 0 ==> !Reaches(db, refs, answers, i);
  }

  lemma RestAnswered(db: Db, mid: Db, o: Outcome, refs: seq<Ref>, answers: seq<ProviderAnswer>)
    requires |refs| == |answers| && refs != [] && DistinctRefs(refs) && !Stops(db, refs[0], answers[0])
    requires mid.payouts == if refs[0] in db.payouts
                            then db.payouts[refs[0] := Answered(db.payouts[refs[0]], answers[0])] else db.payouts
    requires JobDone(mid, o, refs[1..], answers[1..])
    ensures JobDone(db, o, refs, answers)
  {
    hide Stops, Answered, Reaches;
    forall i: nat | i < |refs| ensures Reaches(mid, refs[1..], answers[1..], i) <==> Reaches(db, refs, answers, i + 1) {
      ReachesNext(db, mid, refs, answers, i);
    }
    ReachesFirst(db, refs, answers);
    forall i | 0 <= i < |refs| && refs[i] in db.payouts
      ensures o.db.payouts[refs[i]] == if Reaches(db, refs, answers, i) then Answered(db.payouts[refs[i]], answers[i])
                                       else db.payouts[refs[i]]
    {
      if i > 0 {
        assert refs[1..][i - 1] == refs[i] && refs[i] != refs[0];
      }
    }
  }

  lemma ReachesFirst(db: Db, refs: seq<Ref>, answers: seq<ProviderAnswer>)
    requires |refs| == |answers|
    ensures Reaches(db, refs, answers, 0)
  {
  }

  /** The first item does not decide whether a later one stops the job. */
  lemma ReachesNext(db: Db, mid: Db, refs: seq<Ref>, answers: seq<ProviderAnswer>, i: nat)
    requires |refs| == |answers| && refs != [] && DistinctRefs(refs) && !Stops(db, refs[0], answers[0])
    requires mid.payouts.Keys == db.payouts.Keys
    requires forall r :: r in db.payouts && r != refs[0] ==> mid.payouts[r] == db.payouts[r]
    ensures Reaches(mid, refs[1..], answers[1..], i) <==> Reaches(db, refs, answers, i + 1)
  {
    hide FirstStatus;
    forall j | 0 <= j < |refs| - 1
      ensures Stops(mid, refs[1..][j], answers[1..][j]) <==> Stops(db, refs[j + 1], answers[j + 1])
    {
      assert refs[j + 1] != refs[0];
    }
    if Reaches(mid, refs[1..], answers[1..], i) {
      forall j | 0 <= j < i + 1 && j < |refs| ensures !Stops(db, refs[j], answers[j]) {
        assert j > 0 ==> !Stops(mid, refs[1..][j - 1], answers[1..][j - 1]);
      }
    }
  }
}
