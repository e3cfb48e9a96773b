/**
 The job queue: a table of jobs that any number of workers claim from, with retries, backoff and a dead
 state.
 */
module Queue {
  import opened Wrappers

  type JobId = nat
  type Token = nat

  datatype JobStatus = JobPending | JobProcessing | JobCompleted | JobDead

  datatype Job = Job(status: JobStatus, attempts: nat, maxAttempts: nat, runAt: nat, createdAt: nat)

  /** The copy of a claimed row that its worker holds while the handler runs. */
  datatype Held = Held(job: JobId, attempts: nat, maxAttempts: nat)

  /** The table, and the handler executions in progress anywhere. */
  datatype State = State(jobs: map<JobId, Job>, held: map<Token, Held>)

  const MAX_BACKOFF_EXPONENT := 6

  function Pow2(n: nat): nat {
    if n == 0 then 1 else 2 * Pow2(n - 1)
  }

  function Min(a: nat, b: nat): nat {
    if a < b then a else b
  }

  function BackoffMs(base: nat, attempts: nat): nat {
    base * Pow2(Min(attempts, MAX_BACKOFF_EXPONENT))
  }

  /** A claim may take a job that is pending and due. */
  predicate Due(jobs: map<JobId, Job>, id: JobId, now: nat) {
    id in jobs && jobs[id].status.JobPending? && jobs[id].runAt <= now
  }

  /** The same of a row: it is pending and its time has come. */
  predicate Waiting(job: Job, now: nat) {
    job.status == JobPending && job.runAt <= now
  }

  /** It takes one that is due, not locked by another claim, and as old as any such job. */
  predicate NextJob(jobs: map<JobId, Job>, id: JobId, now: nat, locked: set<JobId>) {
    && Due(jobs, id, now) && id !in locked
    && forall other :: other in jobs && Due(jobs, other, now) && other !in locked
                       ==> jobs[id].createdAt <= jobs[other].createdAt
  }

  function ClaimedJob(job: Job): Job {
    job.(status := JobProcessing, attempts := job.attempts + 1)
  }

  /** After a failed handler: dead if the held copy says the attempts are used up, due again later if not. */
  function FailedJob(job: Job, h: Held, now: nat, base: nat): Job {
    if h.attempts >= h.maxAttempts then job.(status := JobDead)
    else job.(status := JobPending, runAt := now + BackoffMs(base, h.attempts))
  }

  datatype Event =
    | Enqueue(id: JobId, maxAttempts: nat, now: nat, delay: nat)
    | Claim(token: Token, id: JobId, now: nat, locked: set<JobId>)
    | Succeed(token: Token)
    | Fail(token: Token, now: nat, base: nat)
    | Lose(token: Token)

  /** Lose: the worker dies, or the update that should record its outcome fails. */
  function Apply(s: State, e: Event): State {
    match e
    case Enqueue(id, max, now, delay) =>
      if id in s.jobs then s else s.(jobs := s.jobs[id := Job(JobPending, 0, max, now + delay, now)])
    case Claim(token, id, now, locked) =>
      if token in s.held || !NextJob(s.jobs, id, now, locked) then s
      else
        var job := ClaimedJob(s.jobs[id]);
        State(s.jobs[id := job], s.held[token := Held(id, job.attempts, job.maxAttempts)])
    case Succeed(token) =>
      if token !in s.held || s.held[token].job !in s.jobs then s
      else
        var id := s.held[token].job;
        State(s.jobs[id := s.jobs[id].(status := JobCompleted)], s.held - {token})
    case Fail(token, now, base) =>
      if token !in s.held || s.held[token].job !in s.jobs then s
      else
        var h := s.held[token];
        State(s.jobs[h.job := FailedJob(s.jobs[h.job], h, now, base)], s.held - {token})
    case Lose(token) => s.(held := s.held - {token})
  }

  function Execute(s: State, events: seq<Event>): State {
    if events == [] then s else Apply(Execute(s, events[..|events| - 1]), events[|events| - 1])
  }

  const NO_JOBS := State(map[], map[])

  // ------------------------------- The service ------------------------------

  /** Some oldest job exists whenever any candidate does. */
  lemma {:induction false} OldestExists(jobs: map<JobId, Job>, ids: set<JobId>)
    requires ids != {} && ids <= jobs.Keys
    ensures exists id :: id in ids && forall other :: other in ids ==> jobs[id].createdAt <= jobs[other].createdAt
    decreases |ids|
  {
    var first :| first in ids;
    var rest := ids - {first};
    if rest == {} {
      forall other | other in ids ensures other == first {
        assert other in rest || other == first;
      }
    } else {
      OldestExists(jobs, rest);
      var best :| best in rest && forall other :: other in rest ==> jobs[best].createdAt <= jobs[other].createdAt;
      var oldest := if jobs[first].createdAt <= jobs[best].createdAt then first else best;
      forall other | other in ids ensures jobs[oldest].createdAt <= jobs[other].createdAt {
        if other != first {
          assert other in rest;
        }
      }
    }
  }

  class JobTable {
    var jobs: map<JobId, Job>

    constructor ()
      ensures jobs == map[]
    {
      jobs := map[];
    }

    method EnqueueJob(id: JobId, maxAttempts: nat, now: nat, delay: nat)
      requires id !in jobs
      modifies this
      ensures forall held: map<Token, Held> ::
                State(jobs, held) == Apply(State(old(jobs), held), Enqueue(id, maxAttempts, now, delay))
      ensures jobs == old(jobs)[id := jobs[id]] && jobs[id].status == JobPending && jobs[id].attempts == 0
      ensures jobs[id].maxAttempts == maxAttempts && jobs[id].runAt == now + delay && jobs[id].createdAt == now
    {
      jobs := jobs[id := Job(JobPending, 0, maxAttempts, now + delay, now)];
    }

    /** Returns nothing exactly when no unlocked job is due; otherwise an oldest one, now being processed. */
    method ClaimJob(now: nat, locked: set<JobId>) returns (row: Option<Held>)
      modifies this
      ensures row.None? <==> forall id :: id in old(jobs) && Waiting(old(jobs)[id], now) ==> id in locked
      ensures row.None? ==> jobs == old(jobs)
      ensures row.Some? ==>
                var id, was := row.value.job, old(jobs);
                && id in was && Waiting(was[id], now) && id !in locked
                && (forall other :: other in was && Waiting(was[other], now) && other !in locked
                                    ==> was[id].createdAt <= was[other].createdAt)
                && jobs == was[id := was[id].(status := JobProcessing, attempts := was[id].attempts + 1)]
                && row.value.attempts == was[id].attempts + 1 && row.value.maxAttempts == was[id].maxAttempts
      ensures row.Some? ==> forall held: map<Token, Held>, token: Token :: token !in held ==>
                State(jobs, held[token := row.value])
                == Apply(State(old(jobs), held), Claim(token, row.value.job, now, locked))
    {
      var candidates := set id | id in jobs && Due(jobs, id, now) && id !in locked;
      assert forall id :: id in jobs ==> (Due(jobs, id, now) <==> Waiting(jobs[id], now));
      if candidates == {} {
        assert forall id :: id in jobs && Due(jobs, id, now) && id !in locked ==> id in candidates;
        return None;
      }
      OldestExists(jobs, candidates);
      var id :| id in candidates && forall other :: other in candidates ==> jobs[id].createdAt <= jobs[other].createdAt;
      assert NextJob(jobs, id, now, locked) by {
        forall other | other in jobs && Due(jobs, other, now) && other !in locked
          ensures jobs[id].createdAt <= jobs[other].createdAt
        {
          assert other in candidates;
        }
      }
      var job := ClaimedJob(jobs[id]);
      jobs := jobs[id := job];
      return Some(Held(id, job.attempts, job.maxAttempts));
    }

    /** Records the outcome of a handler: completed, dead once the attempts are used up, or due again later. */
    method Process(row: Held, succeeded: bool, now: nat, base: nat)
      requires row.job in jobs
      modifies this
      ensures row.job in jobs
      ensures var job, job' := old(jobs)[row.job], jobs[row.job];
              && jobs == old(jobs)[row.job := job']
              && job' == job.(status := job'.status, runAt := job'.runAt)
              && (succeeded ==> job'.status == JobCompleted)
              && (!succeeded && row.attempts >= row.maxAttempts ==> job'.status == JobDead)
              && (!succeeded && row.attempts < row.maxAttempts ==>
                    job'.status == JobPending && job'.runAt == now + BackoffMs(base, row.attempts))
      ensures forall held: map<Token, Held>, token: Token :: token in held && held[token] == row ==>
                State(jobs, held - {token})
                == Apply(State(old(jobs), held), if succeeded then Succeed(token) else Fail(token, now, base))
    {
      var job := jobs[row.job];
      if succeeded {
        jobs := jobs[row.job := job.(status := JobCompleted)];
      } else {
        var exhausted := row.attempts >= row.maxAttempts;
        if exhausted {
          jobs := jobs[row.job := job.(status := JobDead)];
        } else {
          jobs := jobs[row.job := job.(status := JobPending, runAt := now + BackoffMs(base, row.attempts))];
        }
      }
    }
  }

  // ------------------------------- Laws of runs -----------------------------

  /** A job is started once even if it was enqueued with no attempts allowed. */
  function Limit(job: Job): nat {
    if job.maxAttempts == 0 then 1 else job.maxAttempts
  }

  ghost predicate JobSound(s: State, id: JobId) {
    id in s.jobs ==>
      var job := s.jobs[id];
      && job.attempts <= Limit(job)
      && (job.status.JobPending? ==> job.attempts < Limit(job))
      && (job.status.JobProcessing? ==> job.attempts >= 1)
      && (job.status.JobDead? ==> job.attempts == Limit(job))
  }

  /** Whoever holds a job holds it alone, and holds its current attempt. */
  ghost predicate HeldSound(s: State) {
    && (forall t :: t in s.held ==>
          && s.held[t].job in s.jobs
          && s.jobs[s.held[t].job].status.JobProcessing?
          && s.held[t].attempts == s.jobs[s.held[t].job].attempts >= 1
          && s.held[t].maxAttempts == s.jobs[s.held[t].job].maxAttempts)
    && (forall t, u :: t in s.held && u in s.held && s.held[t].job == s.held[u].job ==> t == u)
  }

  lemma ApplySound(s: State, e: Event, id: JobId)
    requires HeldSound(s) && JobSound(s, id)
    ensures HeldSound(Apply(s, e)) && JobSound(Apply(s, e), id)
  {
    hide BackoffMs;
  }

  /** At every moment of every run: attempts stay within the limit and each job in progress has one holder. */
  lemma {:induction false} QueueSound(events: seq<Event>, id: JobId)
    ensures HeldSound(Execute(NO_JOBS, events)) && JobSound(Execute(NO_JOBS, events), id)
  {
    if events != [] {
      QueueSound(events[..|events| - 1], id);
      ApplySound(Execute(NO_JOBS, events[..|events| - 1]), events[|events| - 1], id);
    }
  }

  // -------------------------------- Termination -----------------------------

  /** Twice the attempts left, plus one while the job is being processed. */
  function Measure(job: Job): int {
    2 * (Limit(job) - job.attempts) + (if job.status.JobProcessing? then 1 else 0)
  }

  /** A claim of the job, or its return to the queue after a failed attempt. */
  predicate Turns(s: State, e: Event, id: JobId) {
    id in s.jobs && id in Apply(s, e).jobs
    && (s.jobs[id].status.JobPending? != Apply(s, e).jobs[id].status.JobPending?)
  }

  predicate StartsHandler(s: State, e: Event, id: JobId) {
    id in s.jobs && id in Apply(s, e).jobs && Apply(s, e).jobs[id].attempts > s.jobs[id].attempts
  }

  function TurnsIn(s: State, events: seq<Event>, id: JobId): nat {
    if events == [] then 0
    else
      var front := events[..|events| - 1];
      TurnsIn(s, front, id) + (if Turns(Execute(s, front), events[|events| - 1], id) then 1 else 0)
  }

  function StartsIn(s: State, events: seq<Event>, id: JobId): nat {
    if events == [] then 0
    else
      var front := events[..|events| - 1];
      StartsIn(s, front, id) + (if StartsHandler(Execute(s, front), events[|events| - 1], id) then 1 else 0)
  }

  /** Every claim and every retry lowers the measure, and nothing raises it. */
  lemma MeasureFalls(s: State, e: Event, id: JobId)
    requires HeldSound(s) && JobSound(s, id) && id in s.jobs
    ensures id in Apply(s, e).jobs && Apply(s, e).jobs[id].maxAttempts == s.jobs[id].maxAttempts
    ensures Measure(Apply(s, e).jobs[id]) <= Measure(s.jobs[id]) - (if Turns(s, e, id) then 1 else 0)
    ensures Apply(s, e).jobs[id].attempts == s.jobs[id].attempts + (if StartsHandler(s, e, id) then 1 else 0)
    ensures s.jobs[id].status.JobCompleted? || s.jobs[id].status.JobDead? ==> Apply(s, e).jobs[id] == s.jobs[id]
  {
    hide BackoffMs;
  }

  /**
   Termination: for any number of workers and any outcomes, a handler is started at most `maxAttempts`
   times for a job (once if that is 0), and the job is claimed and returned at most twice as often.
   */
  lemma {:induction false} QueueTerminates(before: seq<Event>, later: seq<Event>, id: JobId)
    requires id in Execute(NO_JOBS, before).jobs
    ensures id in Execute(Execute(NO_JOBS, before), later).jobs
    ensures var s := Execute(NO_JOBS, before);
            var job, job' := s.jobs[id], Execute(s, later).jobs[id];
            && job'.maxAttempts == job.maxAttempts
            && job.attempts + StartsIn(s, later, id) == job'.attempts <= Limit(job')
            && TurnsIn(s, later, id) + Measure(job') <= Measure(job) && Measure(job') >= 0
            && HeldSound(Execute(s, later)) && JobSound(Execute(s, later), id)
  {
    var s := Execute(NO_JOBS, before);
    if later == [] {
      QueueSound(before, id);
    } else {
      var front, e := later[..|later| - 1], later[|later| - 1];
      QueueTerminates(before, front, id);
      MeasureFalls(Execute(s, front), e, id);
      ApplySound(Execute(s, front), e, id);
    }
  }

  // --------------------------------- Backoff --------------------------------

  lemma {:induction false} Pow2Monotone(a: nat, b: nat)
    requires a <= b
    ensures 1 <= Pow2(a) <= Pow2(b)
    decreases b
  {
    if a < b {
      Pow2Monotone(a, b - 1);
    } else if a > 0 {
      Pow2Monotone(a - 1, b - 1);
    }
  }

  /** Retry delays never shrink from one attempt to the next and never exceed 64 times the base. */
  lemma BackoffBounds(base: nat, attempts: nat, more: nat)
    requires attempts <= more
    ensures base <= BackoffMs(base, attempts) <= BackoffMs(base, more) <= 64 * base
  {
    var a, b := Min(attempts, MAX_BACKOFF_EXPONENT), Min(more, MAX_BACKOFF_EXPONENT);
    Pow2Monotone(0, a);
    Pow2Monotone(a, b);
    Pow2Monotone(b, 6);
    assert Pow2(6) == 64;
    Scale(base, 1, Pow2(a));
    Scale(base, Pow2(a), Pow2(b));
    Scale(base, Pow2(b), 64);
  }

  /** The delay is the base before any attempt, doubles with each of the first six, and is 64 times the base after. */
  lemma BackoffExact(base: nat, attempts: nat)
    ensures BackoffMs(base, 0) == base
    ensures attempts < 6 ==> BackoffMs(base, attempts + 1) == 2 * BackoffMs(base, attempts)
    ensures attempts >= 6 ==> BackoffMs(base, attempts) == 64 * base
  {
    assert Pow2(6) == 64;
    Twice(base, Pow2(attempts));
  }

  lemma Twice(base: nat, x: nat)
    ensures base * (2 * x) == 2 * (base * x)
  {
  }

  lemma Scale(base: nat, x: nat, y: nat)
    requires x <= y
    ensures base * x <= base * y
  {
    assert base * (y - x) >= 0;
  }

  /** What a worker's outcome, or its death, does to the job it holds; no other job changes. */
  lemma OutcomeRecorded(s: State, token: Token, now: nat, base: nat)
    requires token in s.held && s.held[token].job in s.jobs
    ensures var h, done, failed := s.held[token], Apply(s, Succeed(token)), Apply(s, Fail(token, now, base));
            && done.held == failed.held == s.held - {token}
            && done.jobs == s.jobs[h.job := s.jobs[h.job].(status := JobCompleted)]
            && failed.jobs == s.jobs[h.job := failed.jobs[h.job]]
            && (h.attempts >= h.maxAttempts ==> failed.jobs[h.job] == s.jobs[h.job].(status := JobDead))
            && (h.attempts < h.maxAttempts ==>
                  failed.jobs[h.job]
                  == s.jobs[h.job].(status := JobPending, runAt := now + BackoffMs(base, h.attempts)))
            && Apply(s, Lose(token)) == State(s.jobs, s.held - {token})
  {
    hide BackoffMs;
  }

  /**
   A job that failed with attempts left is claimed again exactly when its backoff is over, no other claim has
   it locked, and no unlocked job that is due is older.
   */
  lemma RetryIff(s: State, token: Token, now: nat, base: nat, claim: Event)
    requires token in s.held && s.held[token].job in s.jobs && s.held[token].attempts < s.held[token].maxAttempts
    requires claim.Claim? && claim.id == s.held[token].job && claim.token !in s.held
    ensures var s' := Apply(s, Fail(token, now, base));
            var claimed := Apply(s', claim);
            && (claimed != s' <==>
                  && claim.now >= now + BackoffMs(base, s.held[token].attempts) && claim.id !in claim.locked
                  && forall other :: other in s.jobs && other != claim.id && Waiting(s.jobs[other], claim.now)
                                     && other !in claim.locked
                                     ==> s.jobs[claim.id].createdAt <= s.jobs[other].createdAt)
            && (claimed != s' ==>
                  && claimed.jobs[claim.id].status == JobProcessing
                  && claimed.jobs[claim.id].attempts == s.jobs[claim.id].attempts + 1
                  && claim.token in claimed.held && claimed.held[claim.token].job == claim.id)
  {
    hide BackoffMs;
    var s' := Apply(s, Fail(token, now, base));
    assert forall other :: other in s.jobs && other != claim.id ==> s'.jobs[other] == s.jobs[other];
    assert forall other :: other in s'.jobs
             ==> (Due(s'.jobs, other, claim.now) <==> Waiting(s'.jobs[other], claim.now));
  }
}
