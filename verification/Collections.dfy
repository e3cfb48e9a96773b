/**
 Asking a payer for money: collections into the COLLECTION wallet and deposits into the DISBURSEMENT
 wallet start the same way, with a push request to the provider.
 */
module Collections {
  import opened Wrappers
  import opened ProviderStatus
  import opened Tables
  import opened Disbursements

  predicate HasReceipt(table: map<Ref, Receipt>, account: AccountId, client: Ref) {
    exists r :: r in table && table[r].account == account && table[r].clientReference == Some(client)
  }

  /** A declined request is stored as failed; otherwise the row takes the status the provider gave. */
  function NewReceipt(account: AccountId, client: Option<Ref>, amount: Cents, answer: ProviderAnswer): Receipt {
    Receipt(account, client, amount, if answer.Answered? then MapProviderStatus(answer.status) else Failed,
            None, None, false, 0)
  }

  function AnswerError(answer: ProviderAnswer): Option<Error> {
    if answer.Answered? then None else Some(ProviderError)
  }

  function InitiateCollection(db: Db, ref: Ref, account: AccountId, amount: Cents, client: Option<Ref>,
                              answer: ProviderAnswer): (o: Outcome)
    ensures o.db == db.(collections := o.db.collections)
  {
    if account !in db.accounts then Outcome(db, Some(NotFound))
    else if client.Some? && HasReceipt(db.collections, account, client.value) then
      Outcome(db, Some(DuplicateReference))
    else if ref in db.collections then Outcome(db, Some(ReferenceTaken))
    else
      Outcome(db.(collections := db.collections[ref := NewReceipt(account, client, amount, answer)]),
              AnswerError(answer))
  }

  function InitiateDeposit(db: Db, ref: Ref, account: AccountId, amount: Cents, client: Option<Ref>,
                           answer: ProviderAnswer): (o: Outcome)
    ensures o.db == db.(deposits := o.db.deposits)
  {
    if account !in db.accounts then Outcome(db, Some(NotFound))
    else if WalletKey(account, DisbursementWallet) !in db.books.wallets then Outcome(db, Some(WalletNotFound))
    else if client.Some? && HasReceipt(db.deposits, account, client.value) then
      Outcome(db, Some(DuplicateReference))
    else if ref in db.deposits then Outcome(db, Some(ReferenceTaken))
    else
      Outcome(db.(deposits := db.deposits[ref := NewReceipt(account, client, amount, answer)]),
              AnswerError(answer))
  }

  // ------------------------------- The service ------------------------------

  method InitiateUssdPush(db: Database, ref: Ref, account: AccountId, amount: Cents, client: Option<Ref>,
                          answer: ProviderAnswer)
    returns (error: Option<Error>)
    modifies db
    ensures Outcome(db.Snapshot(), error)
         == InitiateCollection(old(db.Snapshot()), ref, account, amount, client, answer)
  {
    hide MapProviderStatus;
    if account !in db.accounts {
      return Some(NotFound);
    }
    if client.Some? && exists r :: r in db.collections && db.collections[r].account == account
                                && db.collections[r].clientReference == client {
      return Some(DuplicateReference);
    }
    var row := Receipt(account, client, amount, if answer.Answered? then MapProviderStatus(answer.status) else Pending,
                       None, None, false, 0);
    if ref in db.collections {
      return Some(ReferenceTaken);
    }
    db.collections := db.collections[ref := row];
    if answer.Declined? {
      db.collections := db.collections[ref := row.(status := Failed)];
      assert db.collections == old(db.collections)[ref := row.(status := Failed)];
      return Some(ProviderError);
    }
    return None;
  }

  method InitiateWalletDeposit(db: Database, ref: Ref, account: AccountId, amount: Cents, client: Option<Ref>,
                               answer: ProviderAnswer)
    returns (error: Option<Error>)
    modifies db
    ensures Outcome(db.Snapshot(), error)
         == InitiateDeposit(old(db.Snapshot()), ref, account, amount, client, answer)
  {
    hide MapProviderStatus;
    if account !in db.accounts {
      return Some(NotFound);
    }
    if WalletKey(account, DisbursementWallet) !in db.wallets {
      return Some(WalletNotFound);
    }
    if client.Some? && exists r :: r in db.deposits && db.deposits[r].account == account
                                && db.deposits[r].clientReference == client {
      return Some(DuplicateReference);
    }
    var row := Receipt(account, client, amount, if answer.Answered? then MapProviderStatus(answer.status) else Pending,
                       None, None, false, 0);
    if ref in db.deposits {
      return Some(ReferenceTaken);
    }
    db.deposits := db.deposits[ref := row];
    if answer.Declined? {
      db.deposits := db.deposits[ref := row.(status := Failed)];
      assert db.deposits == old(db.deposits)[ref := row.(status := Failed)];
      return Some(ProviderError);
    }
    return None;
  }
}
