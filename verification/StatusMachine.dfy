/**
 The part of a row that the status engine turns: its status, and the mark that its money has moved.
 Credits of collections and deposits and refunds of payouts are instances of the one machine.
 */
module StatusMachine {
  import opened ProviderStatus
  import opened TxnStatus

  /** `moved` is walletCreditedAt != null for a receipt and refundedAt != null for a payout. */
  datatype Mark = Mark(status: TxStatus, moved: bool)

  function Observe(m: Mark, next: TxStatus, triggers: TxStatus -> bool): Mark {
    if Repeats(m.status, next) then m else Mark(next, m.moved || triggers(next))
  }

  function ObserveAll(m: Mark, records: seq<TxStatus>, triggers: TxStatus -> bool): Mark {
    if records == [] then m
    else Observe(ObserveAll(m, records[..|records| - 1], triggers), records[|records| - 1], triggers)
  }

  /** Some trigger arrives at or after a record that differs from the status the row started with. */
  ghost predicate Fires(start: TxStatus, records: seq<TxStatus>, triggers: TxStatus -> bool) {
    exists i, j :: 0 <= i <= j < |records| && records[i] != start && triggers(records[j])
  }

  ghost predicate OnlyFinalTriggers(triggers: TxStatus -> bool) {
    forall s :: triggers(s) ==> Final(s)
  }

  /**
   Exactly when the money moves: the mark is set by the end of a record sequence if and only if it was
   set before, or a trigger arrived that was not merely repeating the row's original status.
   */
  lemma {:induction false} MovedIff(m: Mark, records: seq<TxStatus>, triggers: TxStatus -> bool)
    requires OnlyFinalTriggers(triggers)
    ensures ObserveAll(m, records, triggers).moved <==> m.moved || Fires(m.status, records, triggers)
    ensures !ObserveAll(m, records, triggers).moved && triggers(ObserveAll(m, records, triggers).status)
            ==> forall i :: 0 <= i < |records| ==> records[i] == m.status
  {
    if records != [] {
      var n := |records| - 1;
      var front, last := records[..n], records[n];
      MovedIff(m, front, triggers);
      var before := ObserveAll(m, front, triggers);
      assert forall i :: 0 <= i < n ==> front[i] == records[i];
      if Fires(m.status, front, triggers) {
        var i, j :| 0 <= i <= j < n && front[i] != m.status && triggers(front[j]);
        assert records[i] != m.status && triggers(records[j]);
      }
      if !before.moved && !m.moved {
        if triggers(last) {
          if forall i :: 0 <= i < n ==> records[i] == m.status {
            AllRepeated(m, front, triggers);
          } else {
            var i :| 0 <= i < n && records[i] != m.status;
            assert triggers(records[n]);
          }
        }
      }
    }
  }

  /** Records that repeat a final start status change nothing at all. */
  lemma {:induction false} AllRepeated(m: Mark, records: seq<TxStatus>, triggers: TxStatus -> bool)
    requires forall i :: 0 <= i < |records| ==> records[i] == m.status
    ensures ObserveAll(m, records, triggers).status == m.status
    ensures !m.moved && !triggers(m.status) ==> !ObserveAll(m, records, triggers).moved
    ensures Final(m.status) ==> ObserveAll(m, records, triggers) == m
  {
    if records != [] {
      AllRepeated(m, records[..|records| - 1], triggers);
    }
  }

  /** A row that did not start on a trigger status moves its money as soon as any trigger arrives. */
  lemma FiresFromOpenStart(start: TxStatus, records: seq<TxStatus>, triggers: TxStatus -> bool)
    requires !triggers(start)
    ensures Fires(start, records, triggers) <==> exists j :: 0 <= j < |records| && triggers(records[j])
  {
    if j :| 0 <= j < |records| && triggers(records[j]) {
      assert records[j] != start;
    }
  }
}
