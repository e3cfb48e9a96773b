/**
 Transfers between an account's two wallets happen as a whole or not at all.
 */
module TransferLaws {
  import opened Wrappers
  import opened Totals
  import opened Tables
  import opened FeeSchedules
  import opened Wallets
  import opened LedgerLaws
  import Fees

  function TransferFeeOf(db: Db, a: AccountId, cents: Cents): Cents {
    Fees.ComputeTransferFee(ConfigOf(db, a), cents).amount
  }

  /** When a transfer goes through: everything it needs, and nothing else. */
  ghost predicate TransferPossible(db: Db, a: AccountId, cents: Cents, client: Option<Ref>, ref: Ref) {
    && a in db.accounts && cents > 0 && ref !in db.transfers
    && Usable(db.books, WalletKey(a, CollectionWallet)) && Usable(db.books, WalletKey(a, DisbursementWallet))
    && (client.Some? ==> forall r :: r in db.transfers && db.transfers[r].account == a
                                     ==> db.transfers[r].clientReference != client)
    && db.books.wallets[WalletKey(a, CollectionWallet)].balance >= cents + TransferFeeOf(db, a, cents)
  }

  /** Why a transfer is refused: the first of these that applies. */
  function TransferRefusal(db: Db, a: AccountId, cents: Cents, client: Option<Ref>, ref: Ref): Option<Error> {
    var b, source, target := db.books, WalletKey(a, CollectionWallet), WalletKey(a, DisbursementWallet);
    if a !in db.accounts then Some(NotFound)
    else if source !in b.wallets || target !in b.wallets then Some(WalletNotFound)
    else if b.wallets[source].status == FrozenWallet || b.wallets[target].status == FrozenWallet then Some(WalletFrozen)
    else if exists r :: r in db.transfers && db.transfers[r].account == a && client.Some?
                        && db.transfers[r].clientReference == client then Some(DuplicateReference)
    else if cents <= 0 then Some(ValidationFailed)
    else if b.wallets[source].balance < cents + TransferFeeOf(db, a, cents) then Some(InsufficientFunds)
    else if ref in db.transfers then Some(ReferenceTaken)
    else None
  }

  /** Both legs: two balances, two rows with one reference, one transfer. */
  ghost predicate Transferred(db: Db, db': Db, a: AccountId, cents: Cents, client: Option<Ref>, ref: Ref) {
    var source, target := WalletKey(a, CollectionWallet), WalletKey(a, DisbursementWallet);
    var b, b' := db.books, db'.books;
    var fee := TransferFeeOf(db, a, cents);
    && source in b'.wallets && target in b'.wallets
    && BalanceOf(b', source) == BalanceOf(b, source) - cents - fee >= 0
    && BalanceOf(b', target) == BalanceOf(b, target) + cents
    && BalanceOf(b, source) + BalanceOf(b, target) - (BalanceOf(b', source) + BalanceOf(b', target)) == fee
    && (forall k :: k != source && k != target ==>
          (k in b'.wallets <==> k in b.wallets) && (k in b.wallets ==> b'.wallets[k] == b.wallets[k]))
    && |b'.ledger| == |b.ledger| + 2 && b.ledger <= b'.ledger
    && (var out, into := b'.ledger[|b.ledger|], b'.ledger[|b.ledger| + 1];
        && out.wallet == source && out.txType.TransferOut? && out.amount == -(cents + fee)
        && into.wallet == target && into.txType.TransferIn? && into.amount == cents
        && out.reference == into.reference == Some(ref)
        && !out.manual && !into.manual && out.createdAt == into.createdAt == b.clock == b'.clock
        && out.balanceBefore == BalanceOf(b, source) && out.balanceAfter == BalanceOf(b', source)
        && into.balanceBefore == BalanceOf(b, target) && into.balanceAfter == BalanceOf(b', target))
    && b'.wallets[source].status == b'.wallets[target].status == ActiveWallet
    && db'.transfers == db.transfers[ref := Transfer(a, client, cents, fee)]
  }

  /** The transaction: what it needs, and what it does to the books. */
  lemma LegsEffect(db: Db, a: AccountId, cents: Cents, fee: Cents, client: Option<Ref>, ref: Ref)
    requires cents > 0 && fee == TransferFeeOf(db, a, cents)
    requires Usable(db.books, WalletKey(a, CollectionWallet)) && Usable(db.books, WalletKey(a, DisbursementWallet))
    ensures var r := TransferLegs(db.books, a, cents, fee, ref);
            && (r.Posted? <==> db.books.wallets[WalletKey(a, CollectionWallet)].balance >= cents + fee)
            && (r.Refused? ==> r.error == InsufficientFunds)
            && (r.Posted? ==>
                  var done := db.(books := r.books, fees := EnsureConfig(db, a).fees,
                                  transfers := db.transfers[ref := Transfer(a, client, cents, fee)]);
                  Transferred(db, done, a, cents, client, ref))
  {
    hide Fees.ComputeTransferFee;
  }

  /** The error of a transfer is that of the first check that fails. */
  lemma TransferRefused(db: Db, a: AccountId, cents: Cents, client: Option<Ref>, ref: Ref)
    ensures TransferFunds(db, a, cents, client, ref).error == TransferRefusal(db, a, cents, client, ref)
  {
    hide Fees.ComputeTransferFee, TransferLegs, Transferred;
    if cents > 0 && Usable(db.books, WalletKey(a, CollectionWallet))
       && Usable(db.books, WalletKey(a, DisbursementWallet)) {
      LegsEffect(db, a, cents, TransferFeeOf(db, a, cents), client, ref);
    }
  }

  /**
   All or nothing: a transfer happens exactly when it is possible, and then moves both wallets and
   charges exactly the fee; otherwise wallets, ledger and transfer table stay as they were.
   */
  lemma TransferAllOrNothing(db: Db, a: AccountId, cents: Cents, client: Option<Ref>, ref: Ref)
    ensures var o := TransferFunds(db, a, cents, client, ref);
            && (o.error.None? <==> TransferPossible(db, a, cents, client, ref))
            && o.error == TransferRefusal(db, a, cents, client, ref)
            && (o.error.None? ==> Transferred(db, o.db, a, cents, client, ref))
            && (o.error.Some? ==> o.db.books == db.books && o.db.transfers == db.transfers)
  {
    hide Fees.ComputeTransferFee, TransferLegs, Transferred, TransferRefusal;
    var o := TransferFunds(db, a, cents, client, ref);
    TransferRefused(db, a, cents, client, ref);
    if cents > 0 && Usable(db.books, WalletKey(a, CollectionWallet))
       && Usable(db.books, WalletKey(a, DisbursementWallet)) {
      LegsEffect(db, a, cents, TransferFeeOf(db, a, cents), client, ref);
    }
  }
}
