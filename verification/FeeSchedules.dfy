/**
 The stored fee schedules of the accounts. A schedule row is created when it is first read.
 */
module FeeSchedules {
  import opened Wrappers
  import opened Tables
  import Fees

  function ConfigOf(db: Db, account: AccountId): Fees.FeeConfig {
    if account in db.fees then db.fees[account] else Fees.DEFAULT_CONFIG
  }

  /** Reading a schedule stores the default one when there is none. */
  function EnsureConfig(db: Db, account: AccountId): Db {
    db.(fees := db.fees[account := ConfigOf(db, account)])
  }

  /** Only an account can have a schedule. */
  predicate HasConfig(db: Db, account: AccountId) {
    account in db.fees || account in db.accounts
  }

  /** An update is taken as a whole or, if one of its rates is unacceptable, not at all. */
  function FeesUpdated(db: Db, account: AccountId, patch: Fees.FeePatch): (db': Db)
    ensures db' == db.(fees := db'.fees)
  {
    var db1 := EnsureConfig(db, account);
    if !HasConfig(db, account) then db
    else if Fees.Acceptable(patch)
    then db1.(fees := db1.fees[account := Fees.Patched(ConfigOf(db, account), patch)])
    else db1
  }

  // ------------------------------- The service ------------------------------

  /** Finds or creates the schedule; there is none for an account that does not exist. */
  method ReadConfig(db: Database, account: AccountId) returns (config: Option<Fees.FeeConfig>)
    modifies db
    ensures config.Some? <==> HasConfig(old(db.Snapshot()), account)
    ensures db.Snapshot()
         == if config.Some? then EnsureConfig(old(db.Snapshot()), account) else old(db.Snapshot())
    ensures config.Some? ==> config.value == ConfigOf(old(db.Snapshot()), account)
  {
    if account !in db.fees {
      if account !in db.accounts {
        return None;
      }
      db.fees := db.fees[account := Fees.DEFAULT_CONFIG];
    }
    assert db.fees == old(db.fees)[account := db.fees[account]];
    return Some(db.fees[account]);
  }

  /** Collects the rates of the patch one by one and stops at the first that is not acceptable. */
  method UpdateConfig(db: Database, account: AccountId, patch: Fees.FeePatch) returns (error: Option<Error>)
    modifies db
    ensures db.Snapshot() == FeesUpdated(old(db.Snapshot()), account, patch)
    ensures error == if !HasConfig(old(db.Snapshot()), account) then Some(NotFound)
                     else if Fees.Acceptable(patch) then None
                     else Some(ValidationFailed)
  {
    var found := ReadConfig(db, account);
    if found.None? {
      return Some(NotFound);
    }
    var config := found.value;
    var data := config;
    for i := 0 to |Fees.FIELD_ORDER|
      invariant forall j :: 0 <= j < i && Fees.FIELD_ORDER[j] in patch.bps
                            ==> Fees.ValidRate(patch.bps[Fees.FIELD_ORDER[j]])
      invariant data == Fees.PatchedUpTo(config, patch, i)
      invariant db.Snapshot() == EnsureConfig(old(db.Snapshot()), account)
    {
      var field := Fees.FIELD_ORDER[i];
      if field in patch.bps {
        if !Fees.ValidRate(patch.bps[field]) {
          return Some(ValidationFailed);
        }
        data := Fees.WithBps(data, field, patch.bps[field].Floor);
      }
    }
    Fees.EveryField(patch);
    Fees.PatchedByFields(config, patch);
    db.fees := db.fees[account := Fees.WithThresholds(data, patch)];
    return None;
  }
}
