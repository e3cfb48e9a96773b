/**
 One wallet under concurrent movements. A movement reads the balance in one step and commits in a later
 one; any number of other movements may commit in between. This is the ledger without the assumption
 that a movement is atomic.
 */
module InterleavedLedger {
  import opened Wrappers
  import opened Totals
  import opened Tables
  import opened Wallets

  /** What a ledger row says about one movement: its amount, and the balances as they were read. */
  datatype Entry = Entry(amount: Cents, before: Cents, after: Cents)

  /** A movement between its read and its commit. */
  datatype Pending = Pending(amount: Cents, read: Cents, absolute: bool)

  datatype State = State(balance: Cents, frozen: bool, entries: seq<Entry>, pending: map<nat, Pending>)

  /**
   Read(pid, amount, ignoreFrozen): a movement of `amount` (negative: a debit) reads the wallet.
   ReadIn(pid, amount): the credit leg of a transfer reads its wallet.
   Commit(pid): the conditional update and the ledger row, or the absolute write of a transfer.
   Drop(pid): the transaction is rolled back or its process dies.
   */
  datatype Event =
    | Read(pid: nat, amount: Cents, ignoreFrozen: bool)
    | ReadIn(pid: nat, amount: Cents)
    | Commit(pid: nat)
    | Drop(pid: nat)
    | SetFrozen(frozen: bool)

  /** A refused read leaves nothing pending. */
  function AfterRead(s: State, pid: nat, amount: Cents, ignoreFrozen: bool): State {
    if pid in s.pending || amount == 0 || (s.frozen && !ignoreFrozen) || (amount < 0 && s.balance + amount < 0) then s
    else s.(pending := s.pending[pid := Pending(amount, s.balance, false)])
  }

  function AfterReadIn(s: State, pid: nat, amount: Cents): State {
    if pid in s.pending || amount <= 0 || s.frozen then s
    else s.(pending := s.pending[pid := Pending(amount, s.balance, true)])
  }

  /**
   The update re-checks the floor against the committed balance and changes that balance by the amount;
   the row records the balances that were read.
   */
  function AfterCommit(s: State, pid: nat): State
    requires pid in s.pending
  {
    var p := s.pending[pid];
    var rest := s.pending - {pid};
    var entry := Entry(p.amount, p.read, p.read + p.amount);
    if p.absolute then State(p.read + p.amount, s.frozen, s.entries + [entry], rest)
    else if p.amount < 0 && s.balance < -p.amount then s.(pending := rest)
    else State(s.balance + p.amount, s.frozen, s.entries + [entry], rest)
  }

  function Apply(s: State, e: Event): State {
    match e
    case Read(pid, amount, ignoreFrozen) => AfterRead(s, pid, amount, ignoreFrozen)
    case ReadIn(pid, amount) => AfterReadIn(s, pid, amount)
    case Commit(pid) => if pid in s.pending then AfterCommit(s, pid) else s
    case Drop(pid) => s.(pending := s.pending - {pid})
    case SetFrozen(frozen) => s.(frozen := frozen)
  }

  function Execute(s: State, events: seq<Event>): State {
    if events == [] then s else Apply(Execute(s, events[..|events| - 1]), events[|events| - 1])
  }

  function EntryAmount(): Entry -> int {
    (e: Entry) => e.amount
  }

  /** The committed balance is never negative and is the sum of the committed entries. */
  ghost predicate Safe(s: State) {
    s.balance >= 0 && s.balance == SumOf(s.entries, EntryAmount())
  }

  ghost predicate OnlyRelative(s: State) {
    forall pid :: pid in s.pending ==> !s.pending[pid].absolute
  }

  lemma CommitSafe(s: State, pid: nat)
    requires Safe(s) && OnlyRelative(s) && pid in s.pending
    ensures Safe(AfterCommit(s, pid)) && OnlyRelative(AfterCommit(s, pid))
  {
    var p := s.pending[pid];
    SumOfAppend(s.entries, Entry(p.amount, p.read, p.read + p.amount), EntryAmount());
    hide SumOf;
  }

  /** No interleaving of movements overdraws the wallet or parts the balance from its ledger. */
  lemma {:induction false} InterleavedSafe(s: State, events: seq<Event>)
    requires Safe(s) && OnlyRelative(s)
    requires forall i :: 0 <= i < |events| ==> !events[i].ReadIn?
    ensures Safe(Execute(s, events)) && OnlyRelative(Execute(s, events))
  {
    if events != [] {
      var front, e := events[..|events| - 1], events[|events| - 1];
      InterleavedSafe(s, front);
      var mid := Execute(s, front);
      hide SumOf, AfterCommit;
      if e.Commit? && e.pid in mid.pending {
        CommitSafe(mid, e.pid);
      }
    }
  }

  /** A movement that is rolled back or dies leaves balance and ledger alone, and a freeze changes nothing else. */
  lemma OnlyCommitsMove(s: State, e: Event)
    requires !e.Commit?
    ensures Apply(s, e).balance == s.balance && Apply(s, e).entries == s.entries
    ensures e.Drop? ==> Apply(s, e) == s.(pending := Apply(s, e).pending)
    ensures e.Drop? ==> forall pid :: pid in Apply(s, e).pending <==> pid in s.pending && pid != e.pid
    ensures e.Drop? ==> forall pid :: pid in Apply(s, e).pending ==> Apply(s, e).pending[pid] == s.pending[pid]
    ensures e.SetFrozen? ==> Apply(s, e) == s.(frozen := e.frozen)
  {
  }

  /** A row can be stale, exactly when another commit came between its read and its own commit. */
  lemma StaleRowIff(s: State, pid: nat)
    requires pid in s.pending && !s.pending[pid].absolute && |AfterCommit(s, pid).entries| > |s.entries|
    ensures var row := AfterCommit(s, pid).entries[|s.entries|];
            (row.before == s.balance && row.after == AfterCommit(s, pid).balance) <==> s.pending[pid].read == s.balance
  {
  }

  /** Two credits that both read 0: the later row says 0 to 100 where the balance went from 50 to 150. */
  lemma StaleRow()
    ensures var s := Apply(Apply(Apply(EMPTY_WALLET, Read(1, 100, false)), Read(2, 50, false)), Commit(2));
            && s.balance == 50 && Apply(s, Commit(1)).balance == 150
            && Apply(s, Commit(1)).entries == [Entry(50, 0, 50), Entry(100, 0, 100)]
  {
  }

  /**
   The credit leg of a transfer writes an absolute balance. It keeps the balance equal to the ledger
   exactly when nothing was committed between its read and its write.
   */
  lemma AbsoluteWriteIff(s: State, pid: nat)
    requires Safe(s) && pid in s.pending && s.pending[pid].absolute
    ensures AfterCommit(s, pid).balance == SumOf(AfterCommit(s, pid).entries, EntryAmount())
       <==> s.pending[pid].read == s.balance
  {
    var p := s.pending[pid];
    SumOfAppend(s.entries, Entry(p.amount, p.read, p.read + p.amount), EntryAmount());
  }

  const EMPTY_WALLET := State(0, false, [], map[])

  /** A credit of 500 committed inside a transfer of 100 is lost from the balance. */
  lemma LostUpdate()
    ensures var s := Apply(Apply(Apply(Apply(EMPTY_WALLET, ReadIn(1, 100)), Read(2, 500, true)), Commit(2)), Commit(1));
            s.balance == 100 && SumOf(s.entries, EntryAmount()) == 600
  {
    hide SumOf;
    var s1 := Apply(EMPTY_WALLET, ReadIn(1, 100));
    assert s1 == State(0, false, [], map[1 := Pending(100, 0, true)]);
    var s2 := Apply(s1, Read(2, 500, true));
    assert s2 == State(0, false, [], map[1 := Pending(100, 0, true), 2 := Pending(500, 0, false)]);
    var s3 := Apply(s2, Commit(2));
    assert s3.balance == 500 && s3.entries == [] + [Entry(500, 0, 500)] && s3.pending[1] == Pending(100, 0, true);
    SumOfEmpty();
    SumOfAppend([], Entry(500, 0, 500), EntryAmount());
    SumOfAppend(s3.entries, Entry(100, 0, 100), EntryAmount());
  }

  lemma SumOfEmpty()
    ensures SumOf([], EntryAmount()) == 0
  {
  }

  // ------------------------ Runs with transfers in flight --------------------

  /** What an absolute write changes of the balance beyond its own amount. */
  function Rewritten(s: State, e: Event): Cents {
    if e.Commit? && e.pid in s.pending && s.pending[e.pid].absolute then s.pending[e.pid].read - s.balance else 0
  }

  function RewrittenIn(s: State, events: seq<Event>): Cents {
    if events == [] then 0
    else
      var front := events[..|events| - 1];
      RewrittenIn(s, front) + Rewritten(Execute(s, front), events[|events| - 1])
  }

  ghost function Drift(s: State): Cents {
    s.balance - SumOf(s.entries, EntryAmount())
  }

  lemma DriftStep(s: State, e: Event)
    ensures Drift(Apply(s, e)) == Drift(s) + Rewritten(s, e)
  {
    if e.Commit? && e.pid in s.pending {
      var p := s.pending[e.pid];
      SumOfAppend(s.entries, Entry(p.amount, p.read, p.read + p.amount), EntryAmount());
    }
    hide SumOf;
  }

  /** Over any interleaving, the balance drifts from its ledger by exactly what the stale absolute writes changed. */
  lemma {:induction false} DriftIsRewritten(s: State, events: seq<Event>)
    ensures Drift(Execute(s, events)) == Drift(s) + RewrittenIn(s, events)
  {
    if events != [] {
      hide Drift, Apply, Rewritten;
      var front := events[..|events| - 1];
      DriftIsRewritten(s, front);
      DriftStep(Execute(s, front), events[|events| - 1]);
    }
  }

  /** A transfer in flight has read a balance and brings money. */
  ghost predicate Solvent(s: State) {
    && s.balance >= 0
    && forall pid :: pid in s.pending && s.pending[pid].absolute ==> s.pending[pid].read + s.pending[pid].amount >= 0
  }

  /** No interleaving overdraws the wallet, transfers included. */
  lemma {:induction false} NeverOverdrawn(s: State, events: seq<Event>)
    requires Solvent(s)
    ensures Solvent(Execute(s, events))
  {
    if events != [] {
      NeverOverdrawn(s, events[..|events| - 1]);
    }
  }

  // --------------------------------- Freezing -------------------------------

  ghost predicate NoDebitPending(s: State) {
    forall pid :: pid in s.pending ==> s.pending[pid].amount >= 0 && !s.pending[pid].absolute
  }

  /**
   A freeze that finds no debit in flight holds: until the activation the balance only grows. Credits
   that pass the freeze are the status engine's.
   */
  lemma {:induction false} FrozenHolds(s: State, events: seq<Event>)
    requires s.frozen && NoDebitPending(s) && SetFrozen(false) !in events
    requires forall i :: 0 <= i < |events| && events[i].Read? && events[i].ignoreFrozen ==> events[i].amount >= 0
    ensures var s' := Execute(s, events);
            s'.frozen && NoDebitPending(s') && s'.balance >= s.balance
  {
    if events != [] {
      FrozenHolds(s, events[..|events| - 1]);
    }
  }

  /** Nothing activates the wallet, and what passes the freeze is a credit: the status engine's. */
  predicate CreditsOnly(events: seq<Event>) {
    forall i :: 0 <= i < |events| ==>
                  events[i] != SetFrozen(false) && (events[i].Read? && events[i].ignoreFrozen ==> events[i].amount >= 0)
  }

  /** A movement in flight that can take the frozen wallet below its balance. */
  predicate Threatens(s: State, p: Pending) {
    if p.absolute then p.read + p.amount < s.balance else p.amount < 0 < s.balance
  }

  /** What every continuation keeps when nothing in flight is a threat. */
  ghost predicate Above(s: State, floor: Cents) {
    && s.frozen && s.balance >= floor
    && forall pid :: pid in s.pending ==>
         var p := s.pending[pid];
         if p.absolute then p.read + p.amount >= floor else p.amount >= 0 || floor == 0
  }

  lemma {:induction false} StaysAbove(s: State, events: seq<Event>, floor: nat)
    requires Above(s, floor) && CreditsOnly(events)
    ensures Above(Execute(s, events), floor)
  {
    if events != [] {
      var n := |events| - 1;
      assert events[n] != SetFrozen(false);
      StaysAbove(s, events[..n], floor);
    }
  }

  /** A threat is carried out at once, or after a credit that makes up what the debit still lacks. */
  lemma ThreatCarriedOut(s: State, pid: nat) returns (events: seq<Event>)
    requires s.frozen && pid in s.pending && Threatens(s, s.pending[pid])
    ensures CreditsOnly(events) && Execute(s, events).balance < s.balance
  {
    var p := s.pending[pid];
    if p.absolute || s.balance >= -p.amount {
      events := [Commit(pid)];
      assert events[..0] == [];
    } else {
      var other := Unused(s.pending.Keys);
      var lacking := -p.amount - s.balance;
      var credit := [Read(other, lacking, true)];
      events := credit + [Commit(other)] + [Commit(pid)];
      assert credit[..0] == [];
      ExecuteAppend(s, credit, Commit(other));
      ExecuteAppend(s, credit + [Commit(other)], Commit(pid));
      assert Execute(s, credit + [Commit(other)]).pending[pid] == p;
    }
  }

  lemma {:induction false} ExecuteAppend(s: State, events: seq<Event>, e: Event)
    ensures Execute(s, events + [e]) == Apply(Execute(s, events), e)
  {
    assert (events + [e])[..|events|] == events;
  }

  /**
   Exactly when a freeze means no outflow, whatever is still in flight and whatever credits come: no
   debit is in flight, unless the wallet is empty, and no transfer is about to write less than the balance.
   */
  lemma {:induction false} FrozenHoldsIff(s: State)
    requires s.frozen && s.balance >= 0
    ensures (forall events :: CreditsOnly(events) ==> Execute(s, events).balance >= s.balance)
       <==> forall pid :: pid in s.pending ==> !Threatens(s, s.pending[pid])
  {
    if forall pid :: pid in s.pending ==> !Threatens(s, s.pending[pid]) {
      forall events | CreditsOnly(events) ensures Execute(s, events).balance >= s.balance {
        StaysAbove(s, events, s.balance);
      }
    } else {
      var pid :| pid in s.pending && Threatens(s, s.pending[pid]);
      var events := ThreatCarriedOut(s, pid);
    }
  }

  /** A debit that read the wallet before the freeze still goes through after it. */
  lemma FrozenRace(s: State, pid: nat, amount: Cents)
    requires s.balance >= amount > 0 && !s.frozen && pid !in s.pending
    ensures var s' := Apply(Apply(Apply(s, Read(pid, -amount, false)), SetFrozen(true)), Commit(pid));
            s'.frozen && s'.balance == s.balance - amount
  {
  }

  // -------------------------- The atomic ledger again -----------------------

  function EntriesOf(rows: seq<LedgerRow>): seq<Entry> {
    if rows == [] then []
    else
      var last := rows[|rows| - 1];
      EntriesOf(rows[..|rows| - 1]) + [Entry(last.amount, last.balanceBefore, last.balanceAfter)]
  }

  /** One wallet of the books, with nothing in flight. */
  function View(b: Books, k: WalletKey): State
    requires k in b.wallets
  {
    State(b.wallets[k].balance, b.wallets[k].status.FrozenWallet?, EntriesOf(Rows(b.ledger, k)), map[])
  }

  /** The wallet after one movement of `amount` whose row says what happened. */
  function Moved(s: State, amount: Cents): State {
    s.(balance := s.balance + amount, entries := s.entries + [Entry(amount, s.balance, s.balance + amount)])
  }

  lemma ViewAfterPost(b: Books, m: Movement, amount: Cents)
    requires m.wallet in b.wallets
    ensures m.wallet in Post(b, m, amount).wallets
    ensures View(Post(b, m, amount), m.wallet) == Moved(View(b, m.wallet), amount)
  {
    var row, rows := Post(b, m, amount).ledger[|b.ledger|], Rows(b.ledger, m.wallet);
    RowsAppend(b.ledger, row, m.wallet);
    assert (rows + [row])[..|rows|] == rows;
  }

  predicate ReadRefused(s: State, amount: Cents, ignoreFrozen: bool) {
    amount == 0 || (s.frozen && !ignoreFrozen) || (amount < 0 && s.balance + amount < 0)
  }

  /** What a read and a commit without anything in between come to. */
  lemma ReadThenCommit(s: State, pid: nat, amount: Cents, ignoreFrozen: bool)
    requires s.pending == map[]
    ensures Apply(Apply(s, Read(pid, amount, ignoreFrozen)), Commit(pid))
         == if ReadRefused(s, amount, ignoreFrozen) then s else Moved(s, amount)
  {
    assert map[pid := Pending(amount, s.balance, false)] - {pid} == map[];
  }

  /** A movement whose commit directly follows its read is the atomic movement of the ledger. */
  lemma BackToBack(b: Books, m: Movement, pid: nat)
    requires m.wallet in b.wallets
    ensures m.wallet in After(b, Move(b, m)).wallets
    ensures View(After(b, Move(b, m)), m.wallet)
         == Apply(Apply(View(b, m.wallet), Read(pid, Signed(m), m.ignoreFrozen)), Commit(pid))
  {
    ViewAfterPost(b, m, Signed(m));
    ReadThenCommit(View(b, m.wallet), pid, Signed(m), m.ignoreFrozen);
    hide Rows, EntriesOf, Post, Apply;
  }

  /** A leg posted to another wallet is not seen from this one. */
  lemma ViewElsewhere(b: Books, m: Movement, amount: Cents, k: WalletKey)
    requires m.wallet in b.wallets && k in b.wallets && k != m.wallet
    ensures k in Post(b, m, amount).wallets && View(Post(b, m, amount), k) == View(b, k)
  {
    RowsAppend(b.ledger, Post(b, m, amount).ledger[|b.ledger|], k);
  }

  /**
   The two legs of a transfer that nothing interrupts: a debit that is refused when it is not covered, and a
   credit that is refused when the target is frozen. The transfer does both, or neither.
   */
  lemma LegsBackToBack(b: Books, a: AccountId, amount: Cents, fee: Cents, r: Ref, pid: nat)
    requires amount > 0 && fee >= 0
    requires WalletKey(a, CollectionWallet) in b.wallets && WalletKey(a, DisbursementWallet) in b.wallets
    ensures var source, target := WalletKey(a, CollectionWallet), WalletKey(a, DisbursementWallet);
            var b' := After(b, TransferLegs(b, a, amount, fee, r));
            var out := Apply(Apply(View(b, source), Read(pid, -(amount + fee), false)), Commit(pid));
            var into := Apply(Apply(View(b, target), ReadIn(pid, amount)), Commit(pid));
            && source in b'.wallets && target in b'.wallets
            && (TransferLegs(b, a, amount, fee, r).Posted? <==> out != View(b, source) && into != View(b, target))
            && (TransferLegs(b, a, amount, fee, r).Posted? ==> View(b', source) == out && View(b', target) == into)
  {
    hide Rows, EntriesOf, Apply, Post, TransferLegs;
    LegViews(b, a, amount, amount + fee, r);
    ReadThenCommit(View(b, WalletKey(a, CollectionWallet)), pid, -(amount + fee), false);
    ReadInThenCommit(View(b, WalletKey(a, DisbursementWallet)), pid, amount);
    LegsPosted(b, a, amount, fee, r);
  }

  lemma LegViews(b: Books, a: AccountId, amount: Cents, debit: Cents, r: Ref)
    requires WalletKey(a, CollectionWallet) in b.wallets && WalletKey(a, DisbursementWallet) in b.wallets
    ensures var source, target := WalletKey(a, CollectionWallet), WalletKey(a, DisbursementWallet);
            var b' := Post(Post(b, OutLeg(a, debit, r), -debit), InLeg(a, amount, r), amount);
            && source in b'.wallets && target in b'.wallets
            && View(b', source) == Moved(View(b, source), -debit) && View(b', target) == Moved(View(b, target), amount)
  {
    hide Rows, EntriesOf, View, Post, Moved;
    var source, target := WalletKey(a, CollectionWallet), WalletKey(a, DisbursementWallet);
    var out, into := OutLeg(a, debit, r), InLeg(a, amount, r);
    var mid := Post(b, out, -debit);
    ViewAfterPost(b, out, -debit);
    ViewElsewhere(b, out, -debit, target);
    ViewAfterPost(mid, into, amount);
    ViewElsewhere(mid, into, amount, source);
  }

  lemma LegsPosted(b: Books, a: AccountId, amount: Cents, fee: Cents, r: Ref)
    requires WalletKey(a, CollectionWallet) in b.wallets && WalletKey(a, DisbursementWallet) in b.wallets
    ensures var source := b.wallets[WalletKey(a, CollectionWallet)];
            var target := b.wallets[WalletKey(a, DisbursementWallet)];
            TransferLegs(b, a, amount, fee, r).Posted?
            <==> !source.status.FrozenWallet? && !target.status.FrozenWallet? && source.balance >= amount + fee
    ensures var mid := Post(b, OutLeg(a, amount + fee, r), -(amount + fee));
            After(b, TransferLegs(b, a, amount, fee, r))
            == if TransferLegs(b, a, amount, fee, r).Posted? then Post(mid, InLeg(a, amount, r), amount) else b
  {
  }

  lemma ReadInThenCommit(s: State, pid: nat, amount: Cents)
    requires s.pending == map[]
    ensures Apply(Apply(s, ReadIn(pid, amount)), Commit(pid))
         == if amount <= 0 || s.frozen then s else Moved(s, amount)
  {
    assert map[pid := Pending(amount, s.balance, true)] - {pid} == map[];
  }
}
