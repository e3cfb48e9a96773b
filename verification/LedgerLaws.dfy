/**
 What every run of ledger operations keeps. A wallet's rows form a chain that starts at zero and
 ends at its balance; overdraft, the ledger sum and reconciliation all follow from the chain.
 */
module LedgerLaws {
  import opened Wrappers
  import opened Totals
  import opened Tables
  import opened Wallets

  function BalanceOf(b: Books, k: WalletKey): Cents {
    if k in b.wallets then b.wallets[k].balance else 0
  }

  // ----------------------------- One movement -------------------------------

  /** The books gain one row: wallet k changes by `amount`, and the row says so. */
  ghost predicate OneRow(b: Books, b': Books, k: WalletKey, amount: Cents, t: TxType, reference: Option<Ref>,
                         manual: bool) {
    && k in b.wallets
    && b'.wallets == b.wallets[k := Wallet(b.wallets[k].balance + amount, b.wallets[k].status)]
    && b'.ledger == b.ledger + [LedgerRow(k, t, amount, b.wallets[k].balance, b.wallets[k].balance + amount,
                                          reference, manual, b.clock)]
    && b'.clock == b.clock
  }

  /** What takes money: withdrawals, payout debits, batch holds, and adjustments below zero. */
  predicate Takes(t: TxType, amount: Cents) {
    t in {Withdrawal, PayoutDebit, BatchHold} || (t == Adjustment && amount < 0)
  }

  /** Why a movement is refused: the first of these that applies. */
  function Refusal(b: Books, m: Movement): Option<Error> {
    if m.amount == 0 then Some(ValidationFailed)
    else if m.wallet !in b.wallets then Some(WalletNotFound)
    else if b.wallets[m.wallet].status == FrozenWallet && !m.ignoreFrozen then Some(WalletFrozen)
    else if Takes(m.txType, m.amount) && b.wallets[m.wallet].balance < Abs(m.amount) then Some(InsufficientFunds)
    else None
  }

  /** A movement is one row of its size, down if it takes money and up if it brings some, unless it is refused. */
  lemma MoveMeaning(b: Books, m: Movement)
    ensures match Refusal(b, m)
            case Some(e) => Move(b, m) == Refused(e)
            case None =>
              && Move(b, m).Posted?
              && OneRow(b, Move(b, m).books, m.wallet,
                        if Takes(m.txType, m.amount) then 0 - Abs(m.amount) else Abs(m.amount),
                        m.txType, m.reference, m.manual)
  {
  }

  /** Each row starts where the one before it ended; the first starts at 0, the last ends at `final`. */
  ghost predicate Chain(rows: seq<LedgerRow>, final: Cents) {
    if rows == [] then final == 0
    else
      var last := rows[|rows| - 1];
      && last.balanceAfter == final
      && last.balanceAfter == last.balanceBefore + last.amount
      && last.balanceBefore >= 0
      && Chain(rows[..|rows| - 1], last.balanceBefore)
  }

  /** Row times never decrease and never pass the clock. */
  ghost predicate Timed(rows: seq<LedgerRow>, clock: nat) {
    forall i, j :: 0 <= i <= j < |rows| ==> rows[i].createdAt <= rows[j].createdAt <= clock
  }

  ghost predicate WalletSound(b: Books, k: WalletKey) {
    && BalanceOf(b, k) >= 0
    && Chain(Rows(b.ledger, k), BalanceOf(b, k))
    && Timed(Rows(b.ledger, k), b.clock)
  }

  ghost predicate Sound(b: Books) {
    forall k :: WalletSound(b, k)
  }

  ghost predicate ByMove(b: Books, b': Books, m: Movement) {
    (m.ignoreFrozen ==> !IsDebit(m)) && Move(b, m) == Posted(b')
  }

  ghost predicate ByTransfer(b: Books, b': Books, a: AccountId, amount: Cents, fee: Cents, r: Ref) {
    amount > 0 && fee >= 0 && TransferLegs(b, a, amount, fee, r) == Posted(b')
  }

  /**
   One atomic change of the books that is not a freeze or an activation. The only movements that pass
   a freeze are credits; that is how every caller of the ledger uses it.
   */
  ghost predicate QuietStep(b: Books, b': Books) {
    || b' == b
    || (exists m :: ByMove(b, b', m))
    || (exists a, amount, fee, r :: ByTransfer(b, b', a, amount, fee, r))
    || (exists a :: NoWallets(b, a) && b' == OpenWallets(b, a))
    || (b.clock <= b'.clock && b' == b.(clock := b'.clock))
  }

  ghost predicate LedgerStep(b: Books, b': Books) {
    || QuietStep(b, b')
    || (exists k, frozen :: k in b.wallets && b' == Freeze(b, k, frozen))
  }

  predicate NoWallets(b: Books, a: AccountId) {
    WalletKey(a, CollectionWallet) !in b.wallets && WalletKey(a, DisbursementWallet) !in b.wallets
  }

  /** Posting keeps every wallet sound unless it overdraws the one it posts to. */
  lemma PostSound(b: Books, m: Movement, amount: Cents, k: WalletKey)
    requires m.wallet in b.wallets && WalletSound(b, k)
    requires m.wallet == k ==> b.wallets[k].balance + amount >= 0
    ensures WalletSound(Post(b, m, amount), k)
  {
    var b' := Post(b, m, amount);
    var row := b'.ledger[|b.ledger|];
    RowsAppend(b.ledger, row, k);
    var rows := Rows(b.ledger, k);
    if m.wallet == k {
      assert (rows + [row])[..|rows|] == rows;
      assert Rows(b'.ledger, k) == rows + [row];
      forall i, j | 0 <= i <= j < |rows + [row]|
        ensures (rows + [row])[i].createdAt <= (rows + [row])[j].createdAt <= b'.clock
      {
        if j < |rows| {
          assert rows[i].createdAt <= rows[j].createdAt;
        } else if i < |rows| {
          assert rows[i].createdAt <= b.clock;
        }
      }
    }
  }

  lemma TransferSound(b: Books, b': Books, k: WalletKey, a: AccountId, amount: Cents, fee: Cents, r: Ref)
    requires WalletSound(b, k) && ByTransfer(b, b', a, amount, fee, r)
    ensures WalletSound(b', k)
  {
    PostSound(b, OutLeg(a, amount + fee, r), -(amount + fee), k);
    PostSound(Post(b, OutLeg(a, amount + fee, r), -(amount + fee)), InLeg(a, amount, r), amount, k);
  }

  /** Every atomic change keeps every wallet sound. */
  lemma StepSound(b: Books, b': Books, k: WalletKey)
    requires WalletSound(b, k) && LedgerStep(b, b')
    ensures WalletSound(b', k)
  {
    if m :| ByMove(b, b', m) {
      PostSound(b, m, Signed(m), k);
    } else if a, amount, fee, r :| ByTransfer(b, b', a, amount, fee, r) {
      TransferSound(b, b', k, a, amount, fee, r);
    } else if x, frozen :| x in b.wallets && b' == Freeze(b, x, frozen) {
    } else if a :| NoWallets(b, a) && b' == OpenWallets(b, a) {
    } else {
      assert b'.ledger == b.ledger && b'.wallets == b.wallets;
    }
  }

  // ------------------------------ Consequences ------------------------------

  /** The balance is the sum of the wallet's rows: the chain telescopes. */
  lemma {:induction false} ChainSum(rows: seq<LedgerRow>, final: Cents, k: WalletKey)
    requires Chain(rows, final) && forall i :: 0 <= i < |rows| ==> rows[i].wallet == k
    ensures SumOf(rows, AmountOn(k)) == final
  {
    if rows != [] {
      ChainSum(rows[..|rows| - 1], rows[|rows| - 1].balanceBefore, k);
    }
  }

  lemma {:induction false} RowsSum(ledger: seq<LedgerRow>, k: WalletKey)
    ensures SumOf(Rows(ledger, k), AmountOn(k)) == SumOf(ledger, AmountOn(k))
    ensures forall i :: 0 <= i < |Rows(ledger, k)| ==> Rows(ledger, k)[i].wallet == k
  {
    if ledger != [] {
      var front, last := ledger[..|ledger| - 1], ledger[|ledger| - 1];
      RowsSum(front, k);
      if last.wallet == k {
        SumOfAppend(Rows(front, k), last, AmountOn(k));
      }
    }
  }

  /** In sound books the integrity check of every wallet reports no discrepancy. */
  lemma SoundLedgerIntegrity(b: Books, k: WalletKey)
    requires WalletSound(b, k) && k in b.wallets
    ensures LedgerIntegrity(b, k).Some? && LedgerIntegrity(b, k).value.consistent
    ensures LedgerIntegrity(b, k).value.discrepancy == 0
    ensures LedgerIntegrity(b, k).value.ledgerSum == b.wallets[k].balance >= 0
  {
    RowsSum(b.ledger, k);
    ChainSum(Rows(b.ledger, k), BalanceOf(b, k), k);
  }

  /** What the integrity check reports of any books: the balance against the sum of the wallet's own rows. */
  lemma {:induction false} IntegrityIff(b: Books, k: WalletKey)
    ensures LedgerIntegrity(b, k).Some? <==> k in b.wallets
    ensures k in b.wallets ==>
              var report, sum := LedgerIntegrity(b, k).value, SumOf(Rows(b.ledger, k), AmountOn(k));
              && report.balance == b.wallets[k].balance && report.ledgerSum == sum
              && report.discrepancy == b.wallets[k].balance - sum
              && (report.consistent <==> b.wallets[k].balance == sum)
              && report.transactionCount == |Rows(b.ledger, k)|
  {
    RowsSum(b.ledger, k);
  }

  /** A balance changed behind the ledger's back is reported, by exactly what was changed. */
  lemma TamperingReported(b: Books, k: WalletKey, balance: Cents)
    requires WalletSound(b, k) && k in b.wallets
    ensures var report := LedgerIntegrity(b.(wallets := b.wallets[k := b.wallets[k].(balance := balance)]), k);
            && report.Some? && report.value.discrepancy == balance - b.wallets[k].balance
            && (report.value.consistent <==> balance == b.wallets[k].balance)
  {
    SoundLedgerIntegrity(b, k);
  }

  // -------------------------------- Freezing --------------------------------

  /** A freeze or an activation sets one wallet's status. What it takes to debit that wallet afterwards follows. */
  lemma FreezeMeaning(b: Books, k: WalletKey, frozen: bool, m: Movement)
    requires k in b.wallets
    ensures var b' := Freeze(b, k, frozen);
            && b' == b.(wallets := b.wallets[k := Wallet(b.wallets[k].balance,
                                                         if frozen then FrozenWallet else ActiveWallet)])
            && (m.wallet == k && !m.ignoreFrozen && m.amount != 0 ==>
                  && (frozen ==> Move(b', m) == Refused(WalletFrozen))
                  && (!frozen && Takes(m.txType, m.amount) ==>
                        (Move(b', m).Posted? <==> b.wallets[k].balance >= Abs(m.amount)))
                  && (!frozen && !Takes(m.txType, m.amount) ==> Move(b', m).Posted?))
  {
    MoveMeaning(Freeze(b, k, frozen), m);
  }

  /** Nothing leaves a frozen wallet, and nothing but an activation ends the freeze. */
  lemma FrozenNoOutflow(b: Books, b': Books, k: WalletKey)
    requires QuietStep(b, b')
    requires k in b.wallets && b.wallets[k].status.FrozenWallet?
    ensures k in b'.wallets && b'.wallets[k].status.FrozenWallet?
    ensures b.wallets[k].balance <= b'.wallets[k].balance
  {
    if m :| ByMove(b, b', m) {
      assert m.wallet == k ==> m.ignoreFrozen;
    } else if a, amount, fee, r :| ByTransfer(b, b', a, amount, fee, r) {
      assert k != WalletKey(a, CollectionWallet) && k != WalletKey(a, DisbursementWallet);
    }
  }
}
