/**
 The wallet ledger: single movements, the transfer between an account's two wallets, freezing.
 */
module Wallets {
  import opened Wrappers
  import opened Totals
  import opened Tables
  import opened FeeSchedules
  import Fees

  /** The input of one ledger movement. The sign of `amount` matters for adjustments only. */
  datatype Movement = Movement(
    wallet: WalletKey,
    txType: TxType,
    amount: Cents,
    reference: Option<Ref>,
    manual: bool,
    ignoreFrozen: bool)

  datatype BooksResult = Posted(books: Books) | Refused(error: Error)

  predicate IsDebit(m: Movement) {
    m.txType.Withdrawal? || m.txType.PayoutDebit? || m.txType.BatchHold? || (m.txType.Adjustment? && m.amount < 0)
  }

  function Signed(m: Movement): Cents {
    if IsDebit(m) then 0 - Abs(m.amount) else Abs(m.amount)
  }

  /** Changes one balance and appends the row that documents the change. */
  function Post(b: Books, m: Movement, amount: Cents): Books
    requires m.wallet in b.wallets
  {
    var w := b.wallets[m.wallet];
    b.(wallets := b.wallets[m.wallet := w.(balance := w.balance + amount)],
       ledger := b.ledger + [LedgerRow(m.wallet, m.txType, amount, w.balance, w.balance + amount,
                                       m.reference, m.manual, b.clock)])
  }

  /** One ledger movement; a refused one leaves no trace. */
  function Move(b: Books, m: Movement): BooksResult {
    if m.amount == 0 then Refused(ValidationFailed)
    else if m.wallet !in b.wallets then Refused(WalletNotFound)
    else if b.wallets[m.wallet].status.FrozenWallet? && !m.ignoreFrozen then Refused(WalletFrozen)
    else if IsDebit(m) && b.wallets[m.wallet].balance + Signed(m) < 0 then Refused(InsufficientFunds)
    else Posted(Post(b, m, Signed(m)))
  }

  function After(b: Books, r: BooksResult): Books {
    if r.Posted? then r.books else b
  }

  function ErrorOf(r: BooksResult): Option<Error> {
    if r.Posted? then None else Some(r.error)
  }

  // -------------------------------- Transfer --------------------------------

  function OutLeg(account: AccountId, debit: Cents, reference: Ref): Movement {
    Movement(WalletKey(account, CollectionWallet), TransferOut, debit, Some(reference), false, false)
  }

  function InLeg(account: AccountId, amount: Cents, reference: Ref): Movement {
    Movement(WalletKey(account, DisbursementWallet), TransferIn, amount, Some(reference), false, false)
  }

  predicate Usable(b: Books, k: WalletKey) {
    k in b.wallets && b.wallets[k].status.ActiveWallet?
  }

  /** The transaction of a transfer: both legs or none. */
  function TransferLegs(b: Books, account: AccountId, amount: Cents, fee: Cents, reference: Ref): BooksResult {
    var source, target := WalletKey(account, CollectionWallet), WalletKey(account, DisbursementWallet);
    if source !in b.wallets || target !in b.wallets then Refused(WalletNotFound)
    else if b.wallets[source].status.FrozenWallet? then Refused(WalletFrozen)
    else if b.wallets[source].balance - (amount + fee) < 0 then Refused(InsufficientFunds)
    else if b.wallets[target].status.FrozenWallet? then Refused(WalletFrozen)
    else
      var debited := Post(b, OutLeg(account, amount + fee, reference), -(amount + fee));
      Posted(Post(debited, InLeg(account, amount, reference), amount))
  }

  predicate HasTransfer(db: Db, account: AccountId, client: Ref) {
    exists r :: r in db.transfers && db.transfers[r].account == account
             && db.transfers[r].clientReference == Some(client)
  }

  function TransferFunds(db: Db, account: AccountId, amount: Cents, client: Option<Ref>, reference: Ref): (o: Outcome)
    ensures o.db == db.(books := o.db.books, fees := o.db.fees, transfers := o.db.transfers)
  {
    var source, target := WalletKey(account, CollectionWallet), WalletKey(account, DisbursementWallet);
    if account !in db.accounts then Outcome(db, Some(NotFound))
    else if source !in db.books.wallets || target !in db.books.wallets then Outcome(db, Some(WalletNotFound))
    else if !Usable(db.books, source) || !Usable(db.books, target) then Outcome(db, Some(WalletFrozen))
    else if client.Some? && HasTransfer(db, account, client.value) then Outcome(db, Some(DuplicateReference))
    else if amount <= 0 then Outcome(db, Some(ValidationFailed))
    else
      var db1 := EnsureConfig(db, account);
      var fee := Fees.ComputeTransferFee(ConfigOf(db, account), amount).amount;
      match TransferLegs(db1.books, account, amount, fee, reference)
      case Refused(e) => Outcome(db1, Some(e))
      case Posted(books) =>
        if reference in db.transfers then Outcome(db1, Some(ReferenceTaken))
        else
          Outcome(db1.(books := books,
                       transfers := db1.transfers[reference := Transfer(account, client, amount, fee)]),
                  None)
  }

  // ----------------------------- Payout holds -------------------------------

  /**
   Debits a wallet for a payout and, if the ledger agrees, inserts the payout's row. The two are separate
   transactions: when the reference is taken the insertion fails and the debit stays.
   */
  function HoldPayout(db: Db, m: Movement, ref: Ref, p: Payout): (o: Outcome)
    ensures o.db == db.(books := o.db.books, payouts := o.db.payouts)
  {
    match Move(db.books, m)
    case Refused(e) => Outcome(db, Some(e))
    case Posted(books) =>
      if ref in db.payouts then Outcome(db.(books := books), Some(ReferenceTaken))
      else Outcome(db.(books := books, payouts := db.payouts[ref := p]), None)
  }

  // ------------------------- Freezing and opening --------------------------

  function Freeze(b: Books, k: WalletKey, frozen: bool): Books
    requires k in b.wallets
  {
    b.(wallets := b.wallets[k := b.wallets[k].(status := if frozen then FrozenWallet else ActiveWallet)])
  }

  /** A new account gets its two wallets, empty. */
  function OpenWallets(b: Books, account: AccountId): Books {
    b.(wallets := b.wallets[WalletKey(account, CollectionWallet) := Wallet(0, ActiveWallet)]
                           [WalletKey(account, DisbursementWallet) := Wallet(0, ActiveWallet)])
  }

  // ------------------------------ The service -------------------------------

  method MoveFunds(db: Database, m: Movement) returns (error: Option<Error>)
    modifies db
    ensures var r := Move(old(db.Snapshot()).books, m);
            db.Snapshot() == old(db.Snapshot()).(books := After(old(db.Snapshot()).books, r)) && error == ErrorOf(r)
  {
    if m.amount == 0 {
      return Some(ValidationFailed);
    }
    if m.wallet !in db.wallets {
      return Some(WalletNotFound);
    }
    var current := db.wallets[m.wallet];
    if current.status.FrozenWallet? && !m.ignoreFrozen {
      return Some(WalletFrozen);
    }
    var delta: int := Abs(m.amount);
    var isDebit := IsDebit(m);
    var balanceAfter := if isDebit then current.balance - delta else current.balance + delta;
    if isDebit && balanceAfter < 0 {
      return Some(InsufficientFunds);
    }
    db.wallets := db.wallets[m.wallet := current.(balance := balanceAfter)];
    db.ledger := db.ledger + [LedgerRow(m.wallet, m.txType, if isDebit then -delta else delta, current.balance,
                                        balanceAfter, m.reference, m.manual, db.clock)];
    return None;
  }

  /** The database transaction of a transfer. A refusal in its middle rolls the first leg back. */
  method RunTransferLegs(db: Database, account: AccountId, amount: Cents, fee: Cents, reference: Ref)
    returns (error: Option<Error>)
    modifies db
    ensures var r := TransferLegs(old(db.Snapshot()).books, account, amount, fee, reference);
            db.Snapshot() == old(db.Snapshot()).(books := After(old(db.Snapshot()).books, r)) && error == ErrorOf(r)
  {
    var source, target := WalletKey(account, CollectionWallet), WalletKey(account, DisbursementWallet);
    if source !in db.wallets || target !in db.wallets {
      return Some(WalletNotFound);
    }
    var savedWallets, savedLedger := db.wallets, db.ledger;

    var src := db.wallets[source];
    if src.status.FrozenWallet? {
      return Some(WalletFrozen);
    }
    var totalDebit := amount + fee;
    var srcAfter := src.balance - totalDebit;
    if srcAfter < 0 {
      return Some(InsufficientFunds);
    }
    db.wallets := db.wallets[source := src.(balance := srcAfter)];
    db.ledger := db.ledger + [LedgerRow(source, TransferOut, -totalDebit, src.balance, srcAfter,
                                        Some(reference), false, db.clock)];

    var dst := db.wallets[target];
    if dst.status.FrozenWallet? {
      db.wallets, db.ledger := savedWallets, savedLedger;
      return Some(WalletFrozen);
    }
    var dstAfter := dst.balance + amount;
    db.wallets := db.wallets[target := dst.(balance := dstAfter)];
    db.ledger := db.ledger + [LedgerRow(target, TransferIn, amount, dst.balance, dstAfter,
                                        Some(reference), false, db.clock)];
    return None;
  }

  method TransferCollectionToDisbursement(db: Database, account: AccountId, amount: Cents, client: Option<Ref>,
                                          reference: Ref)
    returns (error: Option<Error>)
    modifies db
    ensures Outcome(db.Snapshot(), error) == TransferFunds(old(db.Snapshot()), account, amount, client, reference)
  {
    if account !in db.accounts {
      return Some(NotFound);
    }
    var source, target := WalletKey(account, CollectionWallet), WalletKey(account, DisbursementWallet);
    if source !in db.wallets || target !in db.wallets {
      return Some(WalletNotFound);
    }
    if db.wallets[source].status.FrozenWallet? || db.wallets[target].status.FrozenWallet? {
      return Some(WalletFrozen);
    }
    if client.Some? && exists r :: r in db.transfers && db.transfers[r].account == account
                                && db.transfers[r].clientReference == client {
      return Some(DuplicateReference);
    }
    if amount <= 0 {
      return Some(ValidationFailed);
    }
    var config := ReadConfig(db, account);
    var fee := Fees.ComputeTransferFee(config.value, amount);
    var savedWallets, savedLedger := db.wallets, db.ledger;
    error := RunTransferLegs(db, account, amount, fee.amount, reference);
    if error.None? {
      if reference in db.transfers {
        db.wallets, db.ledger := savedWallets, savedLedger;
        return Some(ReferenceTaken);
      }
      db.transfers := db.transfers[reference := Transfer(account, client, amount, fee.amount)];
    }
  }

  /** The reference of a payout is unique in its table. */
  method InsertPayout(db: Database, ref: Ref, p: Payout) returns (error: Option<Error>)
    modifies db
    ensures db.Snapshot()
         == old(db.Snapshot()).(payouts := if ref in old(db.payouts) then old(db.payouts)
                                           else old(db.payouts)[ref := p])
    ensures error == if ref in old(db.payouts) then Some(ReferenceTaken) else None
  {
    if ref in db.payouts {
      return Some(ReferenceTaken);
    }
    db.payouts := db.payouts[ref := p];
    return None;
  }

  method SetFrozen(db: Database, k: WalletKey, frozen: bool) returns (error: Option<Error>)
    modifies db
    ensures var b := old(db.Snapshot()).books;
            db.Snapshot() == old(db.Snapshot()).(books := if k in b.wallets then Freeze(b, k, frozen) else b)
    ensures error == if k in old(db.wallets) then None else Some(WalletNotFound)
  {
    if k !in db.wallets {
      return Some(WalletNotFound);
    }
    db.wallets := db.wallets[k := db.wallets[k].(status := if frozen then FrozenWallet else ActiveWallet)];
    return None;
  }

  /** The figures of the integrity check of one wallet. */
  datatype Integrity = Integrity(balance: Cents, ledgerSum: Cents, transactionCount: nat, consistent: bool,
                                 discrepancy: Cents)

  function LedgerIntegrity(b: Books, k: WalletKey): Option<Integrity> {
    if k !in b.wallets then None
    else
      var balance, sum := b.wallets[k].balance, SumOf(b.ledger, AmountOn(k));
      Some(Integrity(balance, sum, |Rows(b.ledger, k)|, balance == sum, balance - sum))
  }

  // ------------------------- Reading the ledger -----------------------------

  function AmountOn(k: WalletKey): LedgerRow -> int {
    (row: LedgerRow) => if row.wallet == k then row.amount else 0
  }

  /** The rows of one wallet, in commit order. */
  function Rows(ledger: seq<LedgerRow>, k: WalletKey): seq<LedgerRow> {
    if ledger == [] then []
    else
      var front, last := ledger[..|ledger| - 1], ledger[|ledger| - 1];
      if last.wallet == k then Rows(front, k) + [last] else Rows(front, k)
  }

  lemma {:induction false} RowsAppend(ledger: seq<LedgerRow>, row: LedgerRow, k: WalletKey)
    ensures Rows(ledger + [row], k) == Rows(ledger, k) + (if row.wallet == k then [row] else [])
  {
    assert (ledger + [row])[..|ledger|] == ledger;
  }
}
