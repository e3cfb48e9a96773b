/**
 The administrator's reconciliation of a wallet over a time window.
 */
module Reconciliation {
  import opened Wrappers
  import opened Totals
  import opened Tables
  import opened Wallets
  import opened LedgerLaws
  import opened Engine
  import opened EngineLaws

  /** One wallet's line in the report. */
  datatype Line = Line(
    wallet: WalletKey,
    opening: Cents,
    credited: Cents,
    debited: Cents,
    closing: Cents,
    live: Cents,
    ledgerConsistent: bool,
    discrepancy: Cents,
    movements: nat)

  predicate InWindow(row: LedgerRow, from: nat, to: nat) {
    from <= row.createdAt <= to
  }

  /** The rows of a window, in order. */
  function Window(rows: seq<LedgerRow>, from: nat, to: nat): seq<LedgerRow> {
    if rows == [] then []
    else
      var front, last := Window(rows[..|rows| - 1], from, to), rows[|rows| - 1];
      if InWindow(last, from, to) then front + [last] else front
  }

  function Credit(): LedgerRow -> int {
    (row: LedgerRow) => if row.amount > 0 then row.amount else 0
  }

  function Debit(): LedgerRow -> int {
    (row: LedgerRow) => if row.amount < 0 then row.amount else 0
  }

  function Amount(): LedgerRow -> int {
    (row: LedgerRow) => row.amount
  }

  function Reconcile(k: WalletKey, txs: seq<LedgerRow>, live: Cents): Line {
    var credits, debits := SumOf(txs, Credit()), SumOf(txs, Debit());
    var opening := if |txs| > 0 then txs[0].balanceBefore else live;
    var closing := if |txs| > 0 then txs[|txs| - 1].balanceAfter else opening;
    Line(k, opening, credits, -debits, closing, live,
         opening + credits + debits == closing && closing == live, live - closing, |txs|)
  }

  /** The report has one line per wallet, in the order the wallets are listed. */
  method Computations(db: Database, keys: seq<WalletKey>, from: nat, to: nat) returns (lines: seq<Line>)
    requires forall k :: k in keys ==> k in db.wallets
    ensures |lines| == |keys|
    ensures forall i :: 0 <= i < |keys| ==>
              && lines[i] == Reconcile(keys[i], Window(Rows(db.ledger, keys[i]), from, to), db.wallets[keys[i]].balance)
              && lines[i].wallet == keys[i] && lines[i].live == db.wallets[keys[i]].balance
  {
    lines := [];
    for i := 0 to |keys|
      invariant |lines| == i
      invariant forall j :: 0 <= j < i ==>
        lines[j] == Reconcile(keys[j], Window(Rows(db.ledger, keys[j]), from, to), db.wallets[keys[j]].balance)
    {
      var txs := Window(Rows(db.ledger, keys[i]), from, to);
      lines := lines + [Reconcile(keys[i], txs, db.wallets[keys[i]].balance)];
    }
  }

  // ------------------------------- The figures -------------------------------

  /** A window without movements stands at the live balance throughout, with nothing credited or debited. */
  lemma EmptyLine(k: WalletKey, live: Cents)
    ensures Reconcile(k, [], live) == Line(k, live, 0, 0, live, live, true, 0, 0)
  {
  }

  /**
   One more movement: money in raises what was credited, money out what was debited, each by its own size and
   without touching the other; the line closes where the movement ended and opens where the first began.
   */
  lemma OneMoreMovement(k: WalletKey, txs: seq<LedgerRow>, row: LedgerRow, live: Cents)
    ensures var line, line' := Reconcile(k, txs, live), Reconcile(k, txs + [row], live);
            && line'.wallet == k && line'.live == live
            && line'.credited == line.credited + (if row.amount > 0 then row.amount else 0)
            && line'.debited == line.debited + (if row.amount < 0 then -row.amount else 0)
            && line'.opening == (if txs == [] then row.balanceBefore else line.opening)
            && line'.closing == row.balanceAfter
            && line'.movements == line.movements + 1
            && line'.discrepancy == live - row.balanceAfter
            && (line'.ledgerConsistent
                <==> line'.opening + line'.credited - line'.debited == row.balanceAfter == live)
  {
    SumOfAppend(txs, row, Credit());
    SumOfAppend(txs, row, Debit());
  }

  /** What came in and what went out are told apart. */
  lemma {:induction false} TotalsApart(k: WalletKey, txs: seq<LedgerRow>, live: Cents)
    ensures Reconcile(k, txs, live).credited >= 0 && Reconcile(k, txs, live).debited >= 0
    ensures Reconcile(k, txs, live).credited == 0 <==> forall i :: 0 <= i < |txs| ==> txs[i].amount <= 0
    ensures Reconcile(k, txs, live).debited == 0 <==> forall i :: 0 <= i < |txs| ==> txs[i].amount >= 0
  {
    if txs == [] {
      EmptyLine(k, live);
    } else {
      var n := |txs| - 1;
      TotalsApart(k, txs[..n], live);
      OneMoreMovement(k, txs[..n], txs[n], live);
      assert txs == txs[..n] + [txs[n]];
      assert forall i :: 0 <= i < n ==> txs[..n][i] == txs[i];
      hide Reconcile;
    }
  }

  /** The positions of a wallet's rows of a window in the common ledger. */
  ghost function Positions(ledger: seq<LedgerRow>, k: WalletKey, from: nat, to: nat): set<nat> {
    set i: nat | i < |ledger| && ledger[i].wallet == k && from <= ledger[i].createdAt <= to
  }

  lemma PositionsNext(ledger: seq<LedgerRow>, k: WalletKey, from: nat, to: nat)
    requires ledger != []
    ensures var n := |ledger| - 1;
            |Positions(ledger, k, from, to)|
            == |Positions(ledger[..n], k, from, to)|
               + (if ledger[n].wallet == k && from <= ledger[n].createdAt <= to then 1 else 0)
  {
    var n := |ledger| - 1;
    var before, after := Positions(ledger[..n], k, from, to), Positions(ledger, k, from, to);
    assert forall i: nat :: i in before <==> i in after && i != n;
    assert before == after - {n};
  }

  lemma {:induction false} WindowNext(rows: seq<LedgerRow>, row: LedgerRow, from: nat, to: nat)
    ensures |Window(rows + [row], from, to)|
         == |Window(rows, from, to)| + (if from <= row.createdAt <= to then 1 else 0)
  {
    assert (rows + [row])[..|rows|] == rows;
  }

  /** The number of movements is the number of the wallet's ledger rows from the one time to the other. */
  lemma {:induction false} MovementsCounted(ledger: seq<LedgerRow>, k: WalletKey, from: nat, to: nat, live: Cents)
    ensures Reconcile(k, Window(Rows(ledger, k), from, to), live).movements == |Positions(ledger, k, from, to)|
  {
    if ledger == [] {
      assert Positions(ledger, k, from, to) == {};
    } else {
      hide Window, Positions, SumOf;
      var n := |ledger| - 1;
      MovementsCounted(ledger[..n], k, from, to, live);
      PositionsNext(ledger, k, from, to);
      WindowNext(Rows(ledger[..n], k), ledger[n], from, to);
    }
  }

  // ---------------------------- Windows are slices --------------------------

  /** How many leading rows were written before `time`. */
  function Before(rows: seq<LedgerRow>, time: nat): (n: nat)
    ensures n <= |rows|
  {
    if rows == [] then 0
    else if rows[|rows| - 1].createdAt < time then |rows|
    else Before(rows[..|rows| - 1], time)
  }

  function Slice(rows: seq<LedgerRow>, lo: nat, hi: nat): seq<LedgerRow>
    requires hi <= |rows|
  {
    if lo <= hi then rows[lo..hi] else []
  }

  lemma SliceOfFront(rows: seq<LedgerRow>, lo: nat, hi: nat)
    requires hi < |rows|
    ensures Slice(rows, lo, hi) == Slice(rows[..|rows| - 1], lo, hi)
    ensures lo <= hi == |rows| - 1 ==> Slice(rows, lo, |rows|) == Slice(rows[..|rows| - 1], lo, hi) + [rows[hi]]
    ensures Slice(rows, |rows|, |rows|) == [] && (lo >= hi ==> Slice(rows, lo, hi) == [])
  {
  }

  /** In a ledger whose times never decrease, a window is a contiguous slice. */
  lemma {:induction false} WindowIsSlice(rows: seq<LedgerRow>, from: nat, to: nat, clock: nat)
    requires Timed(rows, clock)
    ensures Window(rows, from, to) == Slice(rows, Before(rows, from), Before(rows, to + 1))
    decreases |rows|
  {
    if rows != [] {
      var n := |rows| - 1;
      var front, last := rows[..n], rows[n];
      WindowIsSlice(front, from, to, clock);
      assert n > 0 ==> front[n - 1].createdAt <= last.createdAt;
      hide Timed, Slice;
      SliceOfFront(rows, Before(front, from), Before(front, to + 1));
      SliceOfFront(rows, n + 1, Before(front, to + 1));
      SliceOfFront(front + [last], n, n);
      assert n == 0 ==> Before(front, from) == 0 == Before(front, to + 1);
    }
  }

  // ---------------------------------- Chains --------------------------------

  /** Where a chained ledger stands after its first i rows. */
  function Standing(rows: seq<LedgerRow>, i: nat, final: Cents): Cents
    requires i <= |rows|
  {
    if i < |rows| then rows[i].balanceBefore else final
  }

  /** Consecutive rows of a chain meet: each ends where the next begins. */
  lemma {:induction false} ChainMeets(rows: seq<LedgerRow>, final: Cents, i: nat)
    requires Chain(rows, final) && i < |rows|
    ensures rows[i].balanceAfter == Standing(rows, i + 1, final)
    ensures rows[i].balanceAfter == rows[i].balanceBefore + rows[i].amount
  {
    var n := |rows| - 1;
    if i < n {
      ChainMeets(rows[..n], rows[n].balanceBefore, i);
    }
  }

  /** The amounts of any slice carry the standing at its start to the standing at its end. */
  lemma {:induction false} SliceSum(rows: seq<LedgerRow>, final: Cents, lo: nat, hi: nat)
    requires Chain(rows, final) && lo <= hi <= |rows|
    ensures Standing(rows, hi, final) == Standing(rows, lo, final) + SumOf(rows[lo..hi], Amount())
    decreases hi - lo
  {
    if lo < hi {
      SliceSum(rows, final, lo, hi - 1);
      ChainMeets(rows, final, hi - 1);
      assert rows[lo..hi][..hi - 1 - lo] == rows[lo..hi - 1];
    }
  }

  lemma {:induction false} CreditsAndDebits(txs: seq<LedgerRow>)
    ensures SumOf(txs, Credit()) + SumOf(txs, Debit()) == SumOf(txs, Amount())
  {
    if txs != [] {
      CreditsAndDebits(txs[..|txs| - 1]);
    }
  }

  /**
   For every window with movements, opening plus credits less debits is the closing balance, and the
   reported discrepancy is the sum of all later movements.
   */
  lemma {:induction false} ReconcileSlice(k: WalletKey, rows: seq<LedgerRow>, live: Cents, lo: nat, hi: nat)
    requires Chain(rows, live) && lo < hi <= |rows|
    ensures var line := Reconcile(k, rows[lo..hi], live);
            && line.opening + line.credited - line.debited == line.closing
            && line.discrepancy == SumOf(rows[hi..], Amount())
            && (line.ledgerConsistent <==> SumOf(rows[hi..], Amount()) == 0)
  {
    SliceSum(rows, live, lo, hi);
    CreditsAndDebits(rows[lo..hi]);
    SliceSum(rows, live, hi, |rows|);
    assert rows[hi..|rows|] == rows[hi..];
    ChainMeets(rows, live, hi - 1);
  }

  /** The rows written after a window's end. */
  function Later(rows: seq<LedgerRow>, to: nat): seq<LedgerRow> {
    rows[Before(rows, to + 1)..]
  }

  /**
   Reconciliation over any window of any wallet in any reachable state. With movements in the window the
   books inside it always add up, and the line is clean exactly when the later movements cancel out; a
   window without movements is always clean.
   */
  lemma {:induction false} RunReconciles(steps: seq<Step>, k: WalletKey, from: nat, to: nat)
    requires k in Run(EMPTY, steps).books.wallets
    ensures var b := Run(EMPTY, steps).books;
            var rows := Rows(b.ledger, k);
            var line := Reconcile(k, Window(rows, from, to), b.wallets[k].balance);
            && line.opening + line.credited - line.debited == line.closing
            && line.discrepancy == (if line.movements == 0 then 0 else SumOf(Later(rows, to), Amount()))
            && (line.ledgerConsistent <==> line.discrepancy == 0)
  {
    RunSound(steps, k);
    hide Run;
    var b := Run(EMPTY, steps).books;
    var rows, live := Rows(b.ledger, k), b.wallets[k].balance;
    WindowIsSlice(rows, from, to, b.clock);
    var lo, hi := Before(rows, from), Before(rows, to + 1);
    if lo < hi {
      ReconcileSlice(k, rows, live, lo, hi);
    }
  }
}
