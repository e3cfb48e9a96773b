/**
 The tables behind the services, as one value (Db) and as the mutable database the services work on.
 */
module Tables {
  import opened Wrappers
  import opened ProviderStatus
  import Fees

  type AccountId = string
  type Ref = string
  type Cents = int

  datatype WalletType = CollectionWallet | DisbursementWallet
  datatype WalletStatus = ActiveWallet | FrozenWallet
  datatype WalletKey = WalletKey(account: AccountId, kind: WalletType)
  datatype Wallet = Wallet(balance: Cents, status: WalletStatus)

  datatype TxType =
    Deposit | Withdrawal | CollectionCredit | PayoutDebit | BatchHold | Refund | Adjustment
    | TransferOut | TransferIn

  /**
   One ledger entry. `manual` stands for the "via" mark that the deposit and withdrawal endpoints
   put into the entry's metadata.
   */
  datatype LedgerRow = LedgerRow(
    wallet: WalletKey,
    txType: TxType,
    amount: Cents,
    balanceBefore: Cents,
    balanceAfter: Cents,
    reference: Option<Ref>,
    manual: bool,
    createdAt: nat)

  /** The wallets, their common ledger in commit order, and the clock that stamps its rows. */
  datatype Books = Books(wallets: map<WalletKey, Wallet>, ledger: seq<LedgerRow>, clock: nat)

  datatype Account = Account(active: bool, autoSweep: bool, hasSettlement: bool)

  /**
   A collection or a deposit: money asked from a payer. `credited` is walletCreditedAt != null.
   `gross` is a history variable, not a column: the amount that counted when the wallet was credited.
   */
  datatype Receipt = Receipt(
    account: AccountId,
    clientReference: Option<Ref>,
    amount: Cents,
    status: TxStatus,
    collectedAmount: Option<Cents>,
    feeAmount: Option<Cents>,
    credited: bool,
    gross: Cents)

  datatype PayoutKind = Customer | SettlementWithdrawal | AutoSweep

  /** `debited` and `refunded` stand for walletDebitedAt != null and refundedAt != null. */
  datatype Payout = Payout(
    account: AccountId,
    batch: Option<Ref>,
    clientReference: Option<Ref>,
    sourceWallet: WalletType,
    kind: PayoutKind,
    amount: Cents,
    feeAmount: Option<Cents>,
    status: TxStatus,
    debited: bool,
    refunded: bool,
    createdAt: nat)

  datatype BatchStatus = BatchProcessing | BatchCompleted | BatchPartiallyFailed | BatchFailed

  /** `items` is the relation from a batch to the references of its payout rows. */
  datatype Batch = Batch(
    account: AccountId,
    status: BatchStatus,
    totalCount: nat,
    totalAmount: Cents,
    successCount: nat,
    failedCount: nat,
    items: seq<Ref>)

  datatype Transfer = Transfer(
    account: AccountId,
    clientReference: Option<Ref>,
    amount: Cents,
    feeAmount: Cents)

  datatype Db = Db(
    books: Books,
    accounts: map<AccountId, Account>,
    fees: map<AccountId, Fees.FeeConfig>,
    collections: map<Ref, Receipt>,
    deposits: map<Ref, Receipt>,
    transfers: map<Ref, Transfer>,
    payouts: map<Ref, Payout>,
    batches: map<Ref, Batch>)

  datatype Error =
    ValidationFailed | NotFound | WalletNotFound | WalletFrozen | InsufficientFunds | DuplicateReference | ProviderError
    | ReferenceTaken

  /** What a service call leaves behind and the exception it raised, if any. */
  datatype Outcome = Outcome(db: Db, error: Option<Error>)

  const EMPTY: Db := Db(Books(map[], [], 0), map[], map[], map[], map[], map[], map[], map[])

  /** The mutable database. */
  class Database {
    var wallets: map<WalletKey, Wallet>
    var ledger: seq<LedgerRow>
    var clock: nat
    var accounts: map<AccountId, Account>
    var fees: map<AccountId, Fees.FeeConfig>
    var collections: map<Ref, Receipt>
    var deposits: map<Ref, Receipt>
    var transfers: map<Ref, Transfer>
    var payouts: map<Ref, Payout>
    var batches: map<Ref, Batch>

    constructor ()
      ensures Snapshot() == EMPTY
    {
      wallets, ledger, clock := map[], [], 0;
      accounts, fees := map[], map[];
      collections, deposits, transfers := map[], map[], map[];
      payouts, batches := map[], map[];
    }

    ghost function Snapshot(): Db
      reads this
    {
      Db(Books(wallets, ledger, clock), accounts, fees, collections, deposits, transfers, payouts, batches)
    }
  }
}
