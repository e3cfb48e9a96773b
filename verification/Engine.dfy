/**
 The money engine as a state machine. A step is one service call; a run is any finite sequence of
 steps, in any order and with any arguments.
 */
module Engine {
  import opened Wrappers
  import opened Totals
  import opened ProviderStatus
  import opened Tables
  import opened FeeSchedules
  import opened Wallets
  import opened TxnStatus
  import opened Disbursements
  import opened Settlements
  import opened Collections
  import Fees

  datatype Step =
    | OpenAccount(account: AccountId, settings: Account, fees: Option<Fees.FeePatch>)
    | ConfigureAccount(account: AccountId, settings: Account)
    | UpdateFees(account: AccountId, patch: Fees.FeePatch)
    | Tick(elapsed: nat)
    | ManualMove(wallet: WalletKey, deposit: bool, cents: Cents, note: Option<Ref>)
    | SetWalletFrozen(wallet: WalletKey, frozen: bool)
    | StartTransfer(account: AccountId, cents: Cents, client: Option<Ref>, ref: Ref)
    | StartCollection(ref: Ref, account: AccountId, cents: Cents, client: Option<Ref>, answer: ProviderAnswer)
    | StartDeposit(ref: Ref, account: AccountId, cents: Cents, client: Option<Ref>, answer: ProviderAnswer)
    | StartPayout(ref: Ref, account: AccountId, cents: Cents, client: Option<Ref>)
    | StartWithdrawal(ref: Ref, account: AccountId, cents: Cents, client: Option<Ref>, settlement: bool,
                      minPayout: Cents)
    | StartBatch(ref: Ref, account: AccountId, items: seq<BatchItem>)
    | Sweep(ref: Ref, account: AccountId, startOfToday: nat, minPayout: Cents, dryRun: bool)
    | AdminSweep(ref: Ref, account: AccountId, minPayout: Cents)
    | CollectionRecord(ref: Ref, next: TxStatus, collected: Option<Cents>)
    | DepositRecord(ref: Ref, next: TxStatus, collected: Option<Cents>)
    | PayoutRecord(ref: Ref, next: TxStatus)

  /** Requested amounts have passed the request validation: no sign. References may be anything. */
  predicate Admissible(s: Step) {
    match s
    case ManualMove(_, _, cents, _) => cents >= 0
    case StartTransfer(_, cents, _, _) => cents >= 0
    case StartCollection(_, _, cents, _, _) => cents >= 0
    case StartDeposit(_, _, cents, _, _) => cents >= 0
    case StartPayout(_, _, cents, _) => cents >= 0
    case StartWithdrawal(_, _, cents, _, _, _) => cents >= 0
    case StartBatch(_, _, items) => forall i :: 0 <= i < |items| ==> items[i].amount >= 0
    case _ => true
  }

  function ManualMovement(wallet: WalletKey, deposit: bool, cents: Cents, note: Option<Ref>): Movement {
    Movement(wallet, if deposit then Deposit else Withdrawal, cents, note, true, false)
  }

  function Opened(db: Db, account: AccountId, settings: Account, fees: Option<Fees.FeePatch>): (db': Db)
    ensures db' == db.(books := db'.books, accounts := db'.accounts, fees := db'.fees)
  {
    db.(books := OpenWallets(db.books, account),
        accounts := db.accounts[account := settings],
        fees := if fees.Some? then db.fees[account := Fees.Clamped(fees.value)] else db.fees)
  }

  function Do(db: Db, s: Step): Db
    requires Admissible(s)
  {
    match s
    case OpenAccount(a, settings, fees) => if a in db.accounts then db else Opened(db, a, settings, fees)
    case ConfigureAccount(a, settings) =>
      if a in db.accounts then db.(accounts := db.accounts[a := settings]) else db
    case UpdateFees(a, patch) => FeesUpdated(db, a, patch)
    case Tick(elapsed) => db.(books := db.books.(clock := db.books.clock + elapsed))
    case ManualMove(k, deposit, cents, note) =>
      db.(books := After(db.books, Move(db.books, ManualMovement(k, deposit, cents, note))))
    case SetWalletFrozen(k, frozen) =>
      if k in db.books.wallets then db.(books := Freeze(db.books, k, frozen)) else db
    case StartTransfer(a, cents, client, ref) => TransferFunds(db, a, cents, client, ref).db
    case StartCollection(ref, a, cents, client, answer) => InitiateCollection(db, ref, a, cents, client, answer).db
    case StartDeposit(ref, a, cents, client, answer) => InitiateDeposit(db, ref, a, cents, client, answer).db
    case StartPayout(ref, a, cents, client) => CreatePayout(db, ref, a, cents, client).db
    case StartWithdrawal(ref, a, cents, client, settlement, min) =>
      CreateWithdrawal(db, ref, a, cents, client, settlement, min).db
    case StartBatch(ref, a, items) => CreateBatch(db, ref, a, items).db
    case Sweep(ref, a, start, min, dryRun) =>
      if a in db.accounts then SweepAccount(db, ref, a, start, min, dryRun).0 else db
    case AdminSweep(ref, a, min) => SweepNow(db, ref, a, min).db
    case CollectionRecord(ref, next, collected) => ApplyCollection(db, ref, next, collected).db
    case DepositRecord(ref, next, collected) => ApplyDeposit(db, ref, next, collected).db
    case PayoutRecord(ref, next) => ApplyPayout(db, ref, next).db
  }

  /** A call that is not admissible never reaches the engine. */
  function Next(db: Db, s: Step): Db {
    if Admissible(s) then Do(db, s) else db
  }

  function Run(db: Db, steps: seq<Step>): Db {
    if steps == [] then db else Next(Run(db, steps[..|steps| - 1]), steps[|steps| - 1])
  }

  lemma {:induction false} RunAppend(db: Db, steps: seq<Step>, s: Step)
    ensures Run(db, steps + [s]) == Next(Run(db, steps), s)
  {
    assert (steps + [s])[..|steps|] == steps;
  }

  lemma {:induction false} RunConcat(db: Db, first: seq<Step>, second: seq<Step>)
    ensures Run(db, first + second) == Run(Run(db, first), second)
    decreases |second|
  {
    if second == [] {
      assert first + second == first;
    } else {
      var front, last := second[..|second| - 1], second[|second| - 1];
      assert first + second == (first + front) + [last];
      RunAppend(db, first + front, last);
      RunConcat(db, first, front);
    }
  }
}
