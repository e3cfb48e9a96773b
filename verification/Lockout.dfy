/**
 The login lockout: failures per e-mail address, counted in a window, lock the address for a while.
 */
module Lockout {
  import opened Wrappers

  datatype FailureRecord = FailureRecord(count: nat, firstAt: nat, lockedUntil: Option<nat>)

  datatype Settings = Settings(maxFailures: nat, window: nat, lockout: nat)

  predicate Locked(r: Option<FailureRecord>, now: nat) {
    r.Some? && r.value.lockedUntil.Some? && r.value.lockedUntil.value > now
  }

  /** The record after one more failure at `now`. */
  function Registered(r: Option<FailureRecord>, now: nat, c: Settings): FailureRecord {
    if r.None? || now - r.value.firstAt > c.window then FailureRecord(1, now, None)
    else if r.value.count + 1 >= c.maxFailures then FailureRecord(0, now, Some(now + c.lockout))
    else r.value.(count := r.value.count + 1)
  }

  /** One login attempt for an address: refused while locked, else counted if it fails, forgotten if not. */
  function Attempted(r: Option<FailureRecord>, now: nat, success: bool, c: Settings): Option<FailureRecord> {
    if Locked(r, now) then r
    else if success then None
    else Some(Registered(r, now, c))
  }

  /**
   A failure more than a window after the first one starts a count of 1. Any other is one more; the one that
   reaches the maximum locks the address for the lockout time and starts the next window, with a count of 0.
   */
  lemma FailureCounts(r: FailureRecord, now: nat, c: Settings)
    ensures Registered(None, now, c) == FailureRecord(1, now, None)
    ensures now > r.firstAt + c.window ==> Registered(Some(r), now, c) == FailureRecord(1, now, None)
    ensures now <= r.firstAt + c.window ==>
              Registered(Some(r), now, c)
              == if r.count + 1 < c.maxFailures then FailureRecord(r.count + 1, r.firstAt, r.lockedUntil)
                 else FailureRecord(0, now, Some(now + c.lockout))
  {
  }

  // ------------------------------- The service ------------------------------

  class AuthService {
    const settings: Settings
    var failures: map<string, FailureRecord>

    constructor (settings: Settings)
      ensures this.settings == settings && failures == map[]
    {
      this.settings, failures := settings, map[];
    }

    function RecordOf(email: string): Option<FailureRecord>
      reads this
    {
      if email in failures then Some(failures[email]) else None
    }

    /** Concerns one address only, and succeeds exactly when it is not locked and the password is right. */
    method Login(email: string, now: nat, valid: bool) returns (accepted: bool)
      modifies this`failures
      ensures RecordOf(email) == Attempted(old(RecordOf(email)), now, valid, settings)
      ensures var locked := email in old(failures) && old(failures)[email].lockedUntil.Some?
                            && old(failures)[email].lockedUntil.value > now;
              && (accepted <==> valid && !locked)
              && (locked ==> failures == old(failures))
              && (accepted ==> failures == old(failures) - {email})
              && (!locked && !valid ==>
                    failures == old(failures)[email := Registered(old(RecordOf(email)), now, settings)])
      ensures forall other :: other != email ==> RecordOf(other) == old(RecordOf(other))
    {
      if email in failures && failures[email].lockedUntil.Some? && failures[email].lockedUntil.value > now {
        return false;
      }
      if !valid {
        RegisterFailure(email, now);
        return false;
      }
      failures := failures - {email};
      return true;
    }

    method RegisterFailure(email: string, now: nat)
      modifies this`failures
      ensures failures == old(failures)[email := Registered(old(RecordOf(email)), now, settings)]
    {
      if email !in failures || now - failures[email].firstAt > settings.window {
        failures := failures[email := FailureRecord(1, now, None)];
        return;
      }
      var record := failures[email];
      record := record.(count := record.count + 1);
      if record.count >= settings.maxFailures {
        record := FailureRecord(0, now, Some(now + settings.lockout));
      }
      failures := failures[email := record];
    }
  }

  // -------------------------------- The bound -------------------------------

  datatype Attempt = Attempt(time: nat, success: bool)

  function After(r: Option<FailureRecord>, attempts: seq<Attempt>, c: Settings): Option<FailureRecord> {
    if attempts == [] then r
    else
      var n := |attempts| - 1;
      Attempted(After(r, attempts[..n], c), attempts[n].time, attempts[n].success, c)
  }

  /** Failed logins from `from` on, before `to`, that got past the lockout check. */
  function AdmittedFailures(r: Option<FailureRecord>, attempts: seq<Attempt>, c: Settings, from: nat, to: nat): nat {
    if attempts == [] then 0
    else
      var n := |attempts| - 1;
      var last := attempts[n];
      AdmittedFailures(r, attempts[..n], c, from, to)
      + (if from <= last.time < to && !last.success && !Locked(After(r, attempts[..n], c), last.time) then 1 else 0)
  }

  predicate Ordered(attempts: seq<Attempt>) {
    forall i, j :: 0 <= i <= j < |attempts| ==> attempts[i].time <= attempts[j].time
  }

  /** What every record satisfies: the count is below the maximum, and a lock outlasts the window. */
  predicate RecordSound(r: Option<FailureRecord>, c: Settings, now: nat) {
    r.Some? ==>
      && r.value.count < c.maxFailures && r.value.firstAt <= now
      && (r.value.lockedUntil.Some? ==> r.value.lockedUntil.value >= r.value.firstAt + c.window)
  }

  lemma {:induction false} AfterSound(attempts: seq<Attempt>, c: Settings, now: nat)
    requires c.maxFailures >= 2 && c.lockout >= c.window && Ordered(attempts)
    requires attempts != [] ==> attempts[|attempts| - 1].time <= now
    ensures RecordSound(After(None, attempts, c), c, now)
  {
    if attempts != [] {
      AfterSound(attempts[..|attempts| - 1], c, attempts[|attempts| - 1].time);
    }
  }

  /**
   How many failures of the interval that starts at `from` the record after them can stand for. Either
   all of them are in the record's count; or the record began inside the interval, after fewer than a
   maximum of them; or the address is locked until the interval is over.
   */
  ghost predicate Explains(r: Option<FailureRecord>, admitted: nat, from: nat, c: Settings) {
    || admitted == 0
    || (r.Some? && admitted <= r.value.count < c.maxFailures)
    || (r.Some? && r.value.firstAt >= from && r.value.count < c.maxFailures
        && admitted <= c.maxFailures - 1 + r.value.count)
    || (r.Some? && r.value.lockedUntil.Some? && r.value.lockedUntil.value >= from + c.window
        && admitted <= 2 * c.maxFailures - 1)
  }

  predicate NoSuccessIn(attempts: seq<Attempt>, from: nat, to: nat) {
    forall i :: 0 <= i < |attempts| && from <= attempts[i].time < to ==> !attempts[i].success
  }

  lemma {:induction false} WindowExplained(attempts: seq<Attempt>, c: Settings, from: nat)
    requires c.maxFailures >= 2 && c.lockout >= c.window && Ordered(attempts)
    requires NoSuccessIn(attempts, from, from + c.window)
    requires attempts != [] ==> attempts[|attempts| - 1].time < from + c.window
    ensures Explains(After(None, attempts, c), AdmittedFailures(None, attempts, c, from, from + c.window), from, c)
  {
    if attempts != [] {
      var n := |attempts| - 1;
      WindowExplained(attempts[..n], c, from);
      AfterSound(attempts[..n], c, attempts[n].time);
      if attempts[n].time < from {
        NoneBefore(attempts, c, from);
      }
    }
  }

  lemma {:induction false} NoneBefore(attempts: seq<Attempt>, c: Settings, from: nat)
    requires forall i :: 0 <= i < |attempts| ==> attempts[i].time < from
    ensures AdmittedFailures(None, attempts, c, from, from + c.window) == 0
  {
    if attempts != [] {
      NoneBefore(attempts[..|attempts| - 1], c, from);
    }
  }

  /**
   The bound: with a lockout no shorter than the window, any half-open interval of one window length
   without a successful login in it contains at most 2 * maxFailures - 1 failures that got past the lock.
   */
  lemma {:induction false} LockoutBound(attempts: seq<Attempt>, c: Settings, from: nat)
    requires c.maxFailures >= 2 && c.lockout >= c.window && Ordered(attempts)
    requires NoSuccessIn(attempts, from, from + c.window)
    ensures AdmittedFailures(None, attempts, c, from, from + c.window) <= 2 * c.maxFailures - 1
  {
    if attempts == [] || attempts[|attempts| - 1].time < from + c.window {
      WindowExplained(attempts, c, from);
    } else {
      LockoutBound(attempts[..|attempts| - 1], c, from);
    }
  }

  // --------------------------- When the bound holds --------------------------

  predicate HoldsFor(c: Settings, attempts: seq<Attempt>, from: nat) {
    (Ordered(attempts) && NoSuccessIn(attempts, from, from + c.window))
    ==> AdmittedFailures(None, attempts, c, from, from + c.window) <= 2 * c.maxFailures - 1
  }

  /** The bound, for every sequence of logins and every interval. */
  ghost predicate Bounded(c: Settings) {
    forall attempts: seq<Attempt>, from: nat :: HoldsFor(c, attempts, from)
  }

  /** Failures at time 0 until the address is locked, then more of them the moment the lock is over. */
  function Burst(c: Settings, n: nat): seq<Attempt> {
    seq(n, i => Attempt(if i < c.maxFailures then 0 else c.lockout, false))
  }

  function BurstRecord(c: Settings, n: nat): Option<FailureRecord> {
    if n == 0 then None
    else if n < c.maxFailures then Some(FailureRecord(n, 0, None))
    else if n < 2 * c.maxFailures then Some(FailureRecord(n - c.maxFailures, 0, Some(c.lockout)))
    else Some(FailureRecord(0, c.lockout, Some(2 * c.lockout)))
  }

  /** A lock shorter than the window lets twice the maximum through. */
  lemma {:induction false} BurstAdmitted(c: Settings, n: nat)
    requires c.maxFailures >= 2 && c.lockout < c.window && n <= 2 * c.maxFailures
    ensures After(None, Burst(c, n), c) == BurstRecord(c, n)
    ensures AdmittedFailures(None, Burst(c, n), c, 0, c.window) == n
  {
    if n > 0 {
      BurstAdmitted(c, n - 1);
      assert Burst(c, n)[..n - 1] == Burst(c, n - 1);
    }
  }

  /** With a single failure allowed, the first does not lock the address yet. */
  lemma {:induction false} PairAdmitted(c: Settings)
    requires c.maxFailures == 1 && c.window > 0
    ensures AdmittedFailures(None, [Attempt(0, false), Attempt(0, false)], c, 0, c.window) == 2
  {
    var first, both := [Attempt(0, false)], [Attempt(0, false), Attempt(0, false)];
    assert both[..1] == first && first[..0] == [];
    assert After(None, first, c) == Some(FailureRecord(1, 0, None));
    assert AdmittedFailures(None, first, c, 0, c.window) == 1;
  }

  lemma {:induction false} EmptyWindow(attempts: seq<Attempt>, c: Settings, from: nat)
    ensures AdmittedFailures(None, attempts, c, from, from) == 0
  {
    if attempts != [] {
      EmptyWindow(attempts[..|attempts| - 1], c, from);
    }
  }

  /** The settings under which the bound holds: two failures allowed, and a lockout as long as the window. */
  lemma LockoutBoundIff(c: Settings)
    ensures Bounded(c)
       <==> c.maxFailures >= 1 && (c.window == 0 || (c.maxFailures >= 2 && c.lockout >= c.window))
  {
    if c.maxFailures == 0 {
      assert !HoldsFor(c, [], 0);
    } else if c.window == 0 {
      forall attempts: seq<Attempt>, from: nat ensures HoldsFor(c, attempts, from) {
        EmptyWindow(attempts, c, from);
      }
    } else if c.maxFailures == 1 {
      PairAdmitted(c);
      assert !HoldsFor(c, [Attempt(0, false), Attempt(0, false)], 0);
    } else if c.lockout < c.window {
      BurstAdmitted(c, 2 * c.maxFailures);
      assert !HoldsFor(c, Burst(c, 2 * c.maxFailures), 0);
    } else {
      forall attempts: seq<Attempt>, from: nat ensures HoldsFor(c, attempts, from) {
        if Ordered(attempts) && NoSuccessIn(attempts, from, from + c.window) {
          LockoutBound(attempts, c, from);
        }
      }
    }
  }

  /** The bound is reached: with two failures allowed, three can fall into one window. */
  lemma BoundReached()
    ensures var c := Settings(2, 10, 10);
            var attempts := [Attempt(0, false), Attempt(0, false), Attempt(10, false), Attempt(11, false),
                             Attempt(12, false)];
            AdmittedFailures(None, attempts, c, 10, 20) == 3
  {
    var c := Settings(2, 10, 10);
    var a5 := [Attempt(0, false), Attempt(0, false), Attempt(10, false), Attempt(11, false), Attempt(12, false)];
    var a4 := [Attempt(0, false), Attempt(0, false), Attempt(10, false), Attempt(11, false)];
    var a3 := [Attempt(0, false), Attempt(0, false), Attempt(10, false)];
    var a2 := [Attempt(0, false), Attempt(0, false)];
    var a1 := [Attempt(0, false)];
    assert a5[..4] == a4 && a4[..3] == a3 && a3[..2] == a2 && a2[..1] == a1 && a1[..0] == [];
    assert After(None, a1, c) == Some(FailureRecord(1, 0, None));
    assert After(None, a2, c) == Some(FailureRecord(0, 0, Some(10)));
    assert After(None, a3, c) == Some(FailureRecord(1, 0, Some(10)));
    assert After(None, a4, c) == Some(FailureRecord(1, 11, None));
    assert AdmittedFailures(None, a2, c, 10, 20) == 0;
    assert AdmittedFailures(None, a3, c, 10, 20) == 1;
    assert AdmittedFailures(None, a4, c, 10, 20) == 2;
  }
}
