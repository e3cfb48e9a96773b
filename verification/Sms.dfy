/**
 Sending one SMS through at-least-once jobs: claim, submit to the provider, persist. Any number of jobs
 run interleaved, may crash anywhere and be delivered again.
 */
module Sms {
  import opened Wrappers

  type JobId = nat

  datatype SmsStatus = Queued | Processing | Sent | Delivered | SmsFailed

  /**
   The message row and the jobs at work on it. `claimed` jobs have claimed the message and not yet heard
   from the provider; `accepted` and `rejected` jobs have its answer and not yet persisted it.
   `acceptances` counts how often the provider accepted the message: the property, not a column.
   */
  datatype State = State(
    status: SmsStatus,
    claimed: set<JobId>,
    accepted: set<JobId>,
    rejected: set<JobId>,
    acceptances: nat)

  const CREATED := State(Queued, {}, {}, {}, 0)

  /**
   Recover: stale-claim recovery puts a PROCESSING message back. Claim: the conditional update that only
   one job can win. Submit: the provider's answer. Persist: the job's final write. Crash: the job dies,
   or its write fails. Report: a delivery report sets the status.
   */
  datatype Event =
    | Recover
    | Claim(job: JobId)
    | Submit(job: JobId, ok: bool)
    | Persist(job: JobId)
    | Crash(job: JobId)
    | Report(status: SmsStatus)

  predicate Open(s: State) {
    s.status.Queued? || s.status.SmsFailed?
  }

  predicate Working(s: State, job: JobId) {
    job in s.claimed || job in s.accepted || job in s.rejected
  }

  function Apply(s: State, e: Event): State {
    match e
    case Recover => if s.status.Processing? then s.(status := Queued) else s
    case Claim(job) =>
      if Open(s) && !Working(s, job) then s.(status := Processing, claimed := s.claimed + {job}) else s
    case Submit(job, ok) =>
      if job !in s.claimed then s
      else if ok then
        s.(claimed := s.claimed - {job}, accepted := s.accepted + {job}, acceptances := s.acceptances + 1)
      else s.(claimed := s.claimed - {job}, rejected := s.rejected + {job})
    case Persist(job) =>
      if job in s.accepted then s.(status := Sent, accepted := s.accepted - {job})
      else if job in s.rejected then s.(status := SmsFailed, rejected := s.rejected - {job})
      else s
    case Crash(job) =>
      s.(claimed := s.claimed - {job}, accepted := s.accepted - {job}, rejected := s.rejected - {job})
    case Report(status) =>
      if status.SmsFailed? || status.Delivered? then s.(status := status) else s
  }

  function Execute(s: State, events: seq<Event>): State {
    if events == [] then s else Apply(Execute(s, events[..|events| - 1]), events[|events| - 1])
  }

  /**
   Where each event takes the status: a claim is won on a queued or failed message only; the answer that is
   persisted makes it sent or failed; recovery puts a claimed one back; a report stands if it is final.
   */
  lemma StatusFlow(s: State, e: Event)
    ensures var s' := Apply(s, e);
            match e
            case Recover => s'.status == if s.status == Processing then Queued else s.status
            case Claim(job) =>
              var won := s.status in {Queued, SmsFailed} && job !in s.claimed + s.accepted + s.rejected;
              && s'.status == (if won then Processing else s.status)
              && s'.claimed == (if won then s.claimed + {job} else s.claimed)
            case Submit(job, ok) =>
              && s'.status == s.status
              && s'.acceptances == s.acceptances + (if ok && job in s.claimed then 1 else 0)
              && (job in s.claimed ==> job in (if ok then s'.accepted else s'.rejected))
            case Persist(job) =>
              s'.status == if job in s.accepted then Sent else if job in s.rejected then SmsFailed else s.status
            case Crash(job) => s' == s.(claimed := s'.claimed, accepted := s'.accepted, rejected := s'.rejected)
            case Report(status) => s' == s.(status := if status in {Delivered, SmsFailed} then status else s.status)
    ensures !e.Submit? ==> Apply(s, e).acceptances == s.acceptances
    ensures e.Persist? || e.Crash? ==>
              var s' := Apply(s, e);
              && s'.accepted <= s.accepted && s'.rejected <= s.rejected && s'.claimed <= s.claimed
              && (Apart(s) ==> e.job !in s'.accepted + s'.rejected)
              && (e.Crash? ==> e.job !in s'.claimed)
              && (forall job :: job != e.job && Working(s, job) ==> Working(s', job))
  {
  }

  /**
   An event that opens the message again although it was accepted, or although some job may still get it
   accepted: recovery of a live or unpersisted claim, or a failure report.
   */
  predicate Reopens(s: State, e: Event) {
    && !Open(s) && Open(Apply(s, e)) && (e.Recover? || e.Report?)
    && (s.acceptances > 0 || s.claimed != {} || s.rejected != {})
  }

  function ReopeningsIn(s: State, events: seq<Event>): nat {
    if events == [] then 0
    else
      var front := events[..|events| - 1];
      ReopeningsIn(s, front) + (if Reopens(Execute(s, front), events[|events| - 1]) then 1 else 0)
  }

  /** Acceptances so far, plus those that could still come without the message being opened again. */
  function Potential(s: State): nat {
    s.acceptances + |s.claimed| + |s.rejected| + (if Open(s) then 1 else 0)
  }

  ghost predicate Apart(s: State) {
    s.claimed !! s.accepted && s.claimed !! s.rejected && s.accepted !! s.rejected
  }

  lemma StaysApart(s: State, e: Event)
    requires Apart(s)
    ensures Apart(Apply(s, e))
  {
  }

  /**
   Only a reopening raises the potential, and by one. Recovery of a claim that died before it was
   submitted gives a spent potential back, but never more than the first one.
   */
  lemma PotentialRises(s: State, e: Event)
    requires Apart(s)
    ensures Potential(Apply(s, e)) <= Potential(s) + (if Reopens(s, e) then 1 else 0) || Potential(Apply(s, e)) <= 1
  {
    match e
    case Recover =>
    case Claim(job) => ClaimKeeps(s, job);
    case Submit(job, ok) => SubmitKeeps(s, job, ok);
    case Persist(job) => Removed(s.rejected, job);
    case Crash(job) =>
      Removed(s.claimed, job);
      Removed(s.rejected, job);
    case Report(status) =>
  }

  lemma ClaimKeeps(s: State, job: JobId)
    ensures Potential(Apply(s, Claim(job))) == Potential(s)
  {
    if job !in s.claimed {
      assert |s.claimed + {job}| == |s.claimed| + 1;
    }
  }

  lemma SubmitKeeps(s: State, job: JobId, ok: bool)
    requires Apart(s)
    ensures Potential(Apply(s, Submit(job, ok))) == Potential(s)
  {
    Removed(s.claimed, job);
    if job in s.claimed {
      assert job !in s.rejected;
      assert |s.rejected + {job}| == |s.rejected| + 1;
    }
  }

  lemma Removed(jobs: set<JobId>, job: JobId)
    ensures |jobs - {job}| == |jobs| - (if job in jobs then 1 else 0)
  {
    if job !in jobs {
      assert jobs - {job} == jobs;
    }
  }

  /**
   Single acceptance: over every interleaving of every number of jobs, with crashes anywhere, the
   provider accepts the message at most once more often than it was reopened.
   */
  lemma {:induction false} AcceptancesBounded(events: seq<Event>)
    ensures Apart(Execute(CREATED, events))
    ensures Potential(Execute(CREATED, events)) <= 1 + ReopeningsIn(CREATED, events)
  {
    if events != [] {
      var front := events[..|events| - 1];
      AcceptancesBounded(front);
      StaysApart(Execute(CREATED, front), events[|events| - 1]);
      PotentialRises(Execute(CREATED, front), events[|events| - 1]);
    }
  }

  /**
   What must not happen to a message: a job dies with the provider's acceptance in hand while the message
   is still PROCESSING; recovery meets a job at work; a failure report meets a message that was accepted, or
   that a job may still get accepted or put back.
   */
  predicate Disorder(s: State, e: Event) {
    match e
    case Crash(job) => job in s.accepted && s.status.Processing?
    case Recover => s.status.Processing? && (s.claimed != {} || s.accepted != {} || s.rejected != {})
    case Report(status) => status.SmsFailed? && (s.acceptances > 0 || s.claimed != {} || s.rejected != {})
    case _ => false
  }

  predicate OrderlyFrom(s: State, events: seq<Event>) {
    forall i :: 0 <= i < |events| ==> !Disorder(Execute(s, events[..i]), events[i])
  }

  /** One job at a time, and once the provider has accepted, no other claim, no refusal and no way back. */
  ghost predicate Settled(s: State) {
    && Apart(s)
    && (forall job :: Working(s, job) ==> !Open(s))
    && (forall job, other :: Working(s, job) && Working(s, other) ==> job == other)
    && (s.accepted != {} ==> s.acceptances >= 1)
    && (s.acceptances >= 1 ==>
          && s.acceptances == 1 && s.claimed == {} && s.rejected == {} && !Open(s)
          && (s.status.Processing? ==> s.accepted != {}))
  }

  lemma StaysSettled(s: State, e: Event)
    requires Settled(s) && !Disorder(s, e)
    ensures Settled(Apply(s, e))
  {
    var s' := Apply(s, e);
    forall job | Working(s', job) ensures Working(s, job) || (e.Claim? && e.job == job) {
    }
    if e.Submit? && e.job in s.claimed {
      assert Working(s, e.job);
      forall job | job in s'.claimed || job in s'.rejected ensures !e.ok {
        assert Working(s, job);
      }
    } else if e.Persist? {
      assert e.job in s.accepted || e.job in s.rejected ==> Working(s, e.job);
    }
  }

  lemma {:induction false} OrderlySettled(s: State, events: seq<Event>)
    requires Settled(s) && OrderlyFrom(s, events)
    ensures Settled(Execute(s, events))
  {
    if events != [] {
      var n := |events| - 1;
      var front := events[..n];
      assert !Disorder(Execute(s, events[..n]), events[n]);
      forall i | 0 <= i < n ensures !Disorder(Execute(s, front[..i]), front[i]) {
        assert front[..i] == events[..i];
      }
      OrderlySettled(s, front);
      StaysSettled(Execute(s, front), events[n]);
    }
  }

  /** Whatever the interleaving, without disorder the provider accepts the message at most once. */
  lemma {:induction false} SingleAcceptance(events: seq<Event>)
    requires OrderlyFrom(CREATED, events)
    ensures Settled(Execute(CREATED, events)) && Execute(CREATED, events).acceptances <= 1
  {
    OrderlySettled(CREATED, events);
  }

  // -------------------------- No less than disorder -------------------------

  lemma {:induction false} ExecuteAppend(s: State, events: seq<Event>, e: Event)
    ensures Execute(s, events + [e]) == Apply(Execute(s, events), e)
  {
    assert (events + [e])[..|events|] == events;
  }

  lemma {:induction false} ExecuteConcat(s: State, first: seq<Event>, second: seq<Event>)
    ensures Execute(s, first + second) == Execute(Execute(s, first), second)
  {
    if second == [] {
      assert first + second == first;
    } else {
      var front, last := second[..|second| - 1], second[|second| - 1];
      assert first + second == (first + front) + [last];
      ExecuteAppend(s, first + front, last);
      ExecuteConcat(s, first, front);
    }
  }

  predicate JobsOnly(events: seq<Event>) {
    forall i :: 0 <= i < |events| ==> events[i].Claim? || events[i].Submit? || events[i].Persist?
  }

  /** An open message that was accepted before is claimed and accepted once more. */
  lemma OnceMore(s: State) returns (events: seq<Event>)
    requires Open(s)
    ensures JobsOnly(events) && Execute(s, events).acceptances == s.acceptances + 1
    ensures s.claimed <= Execute(s, events).claimed && Execute(s, events).rejected == s.rejected
    ensures forall job :: job in s.rejected && job !in s.accepted ==> job !in Execute(s, events).accepted
  {
    var job := Unused(s.claimed + s.accepted + s.rejected);
    events := [Claim(job)] + [Submit(job, true)];
    ExecuteAppend(s, [], Claim(job));
    assert [] + [Claim(job)] == [Claim(job)];
    ExecuteAppend(s, [Claim(job)], Submit(job, true));
  }

  /** An open message with an acceptance, a live claim or a refusal to be written is accepted twice. */
  lemma TwiceFrom(s: State) returns (events: seq<Event>)
    requires Open(s) && Apart(s) && (s.acceptances > 0 || s.claimed != {} || s.rejected != {})
    ensures JobsOnly(events) && Execute(s, events).acceptances >= 2
  {
    events := OnceMore(s);
    var mid := Execute(s, events);
    if s.acceptances > 0 {
    } else if s.claimed != {} {
      var job :| job in s.claimed;
      ExecuteAppend(s, events, Submit(job, true));
      events := events + [Submit(job, true)];
    } else {
      var job :| job in s.rejected;
      ExecuteAppend(s, events, Persist(job));
      var open := Apply(mid, Persist(job));
      var again := OnceMore(open);
      ExecuteConcat(s, events + [Persist(job)], again);
      events := events + [Persist(job)] + again;
    }
  }

  /** After disorder, an orderly continuation exists in which the provider accepts the message twice. */
  lemma DisorderDoubles(s: State, e: Event) returns (events: seq<Event>)
    requires Settled(s) && Disorder(s, e)
    ensures OrderlyFrom(Apply(s, e), events) && Execute(Apply(s, e), events).acceptances >= 2
  {
    var s' := Apply(s, e);
    StaysApart(s, e);
    if e.Crash? {
      assert Working(s, e.job);
      forall job | job in s.accepted ensures job == e.job {
        assert Working(s, job);
      }
      assert s'.claimed == {} && s'.accepted == {} && s'.rejected == {};
      var rest := TwiceFrom(Apply(s', Recover));
      events := [Recover] + rest;
      ExecuteConcat(s', [Recover], rest);
      assert [Recover][..0] == [] && events[..0] == [];
    } else {
      events := TwiceFrom(s');
    }
  }

  /**
   Exactly what keeps a message single: of any event in an orderly past, that no orderly continuation gets
   the message accepted twice, if and only if the event is no disorder itself.
   */
  lemma SingleAcceptanceIff(s: State, e: Event)
    requires Settled(s)
    ensures (forall events :: OrderlyFrom(Apply(s, e), events) ==> Execute(Apply(s, e), events).acceptances <= 1)
       <==> !Disorder(s, e)
  {
    if Disorder(s, e) {
      var events := DisorderDoubles(s, e);
    } else {
      StaysSettled(s, e);
      forall events | OrderlyFrom(Apply(s, e), events) ensures Execute(Apply(s, e), events).acceptances <= 1 {
        OrderlySettled(Apply(s, e), events);
      }
    }
  }

  /** A job that dies with the provider's acceptance in hand, and a recovery, send the message twice. */
  lemma CrashAfterAcceptance()
    ensures var s := Apply(Apply(Apply(CREATED, Claim(1)), Submit(1, true)), Crash(1));
            Apply(Apply(Apply(s, Recover), Claim(2)), Submit(2, true)).acceptances == 2
  {
    var s := Apply(Apply(Apply(CREATED, Claim(1)), Submit(1, true)), Crash(1));
    assert s.claimed == {} && s.accepted == {} && s.status.Processing?;
  }

  /** So does a recovery that meets a live claim. */
  lemma RecoveredWhileLive()
    ensures var s := Apply(Apply(Apply(Apply(CREATED, Claim(1)), Recover), Claim(2)), Submit(1, true));
            Apply(s, Submit(2, true)).acceptances == 2
  {
    var s := Apply(Apply(Apply(CREATED, Claim(1)), Recover), Claim(2));
    assert 1 in s.claimed && 2 in s.claimed;
  }

  /** And so does a failure report on a message that was sent. */
  lemma ReportedFailed()
    ensures var s := Apply(Apply(Apply(CREATED, Claim(1)), Submit(1, true)), Persist(1));
            Apply(Apply(Apply(s, Report(SmsFailed)), Claim(2)), Submit(2, true)).acceptances == 2
  {
    var s := Apply(Apply(Apply(CREATED, Claim(1)), Submit(1, true)), Persist(1));
    assert s.claimed == {} && s.accepted == {} && s.status.Sent?;
  }

  // ------------------------------- The service ------------------------------

  datatype RecipientStatus = NotSubmitted | Submitted | SubmitFailed
  datatype Recipient = Recipient(dest: string, status: RecipientStatus)

  const GSM_SEGMENT := 160
  const UNICODE_SEGMENT := 70

  /** max(1, ceil(length / perSegment)) */
  function Segments(length: nat, unicode: bool): nat {
    var per := if unicode then UNICODE_SEGMENT else GSM_SEGMENT;
    if length == 0 then 1 else (length + per - 1) / per
  }

  /** The segments are as few as hold the whole message, and at least one. */
  lemma SegmentsFit(length: nat, unicode: bool)
    ensures var per := if unicode then 70 else 160;
            var n := Segments(length, unicode);
            n >= 1 && length <= n * per && (n > 1 ==> (n - 1) * per < length)
  {
  }

  class Message {
    const text: string
    const unicode: bool
    var status: SmsStatus
    var recipients: seq<Recipient>
    var cost: nat

    constructor (text: string, unicode: bool, dests: seq<string>)
      ensures status == Queued && cost == 0 && |recipients| == |dests|
      ensures this.text == text && this.unicode == unicode
    {
      this.text, this.unicode := text, unicode;
      status, cost := Queued, 0;
      recipients := seq(|dests|, i requires 0 <= i < |dests| => Recipient(dests[i], NotSubmitted));
    }

    /**
     One job that nothing interrupts: it is the sequence recover, claim, submit, persist. `stale` says
     that a PROCESSING claim on the row has passed its ten minutes. The job raises an error exactly when
     the provider refused a message it had claimed.
     */
    method ProcessSendJob(stale: bool, ok: bool, rate: nat, job: JobId) returns (threw: bool)
      modifies this
      ensures forall n: nat ::
                var s := State(old(status), {}, {}, {}, n);
                var r := if stale then Apply(s, Recover) else s;
                State(status, {}, {}, {}, if Open(r) && ok then n + 1 else n)
                == Apply(Apply(Apply(r, Claim(job)), Submit(job, ok)), Persist(job))
      ensures threw <==> !ok && (old(status).Queued? || old(status).SmsFailed? || (stale && old(status).Processing?))
      ensures var open := old(status) in {Queued, SmsFailed} || (stale && old(status) == Processing);
              status == if !open then old(status) else if ok then Sent else SmsFailed
      ensures status.Sent? && !old(status).Sent? ==>
                cost == rate * Segments(|text|, unicode) * |recipients| && |recipients| == |old(recipients)|
                && forall i :: 0 <= i < |recipients| ==>
                     recipients[i] == Recipient(old(recipients)[i].dest, Submitted)
      ensures threw ==>
                cost == old(cost) && |recipients| == |old(recipients)|
                && forall i :: 0 <= i < |recipients| ==>
                     recipients[i] == Recipient(old(recipients)[i].dest, SubmitFailed)
      ensures !threw && (old(status).Sent? || !status.Sent?) ==> cost == old(cost) && recipients == old(recipients)
    {
      if stale && status.Processing? {
        status := Queued;
      }
      if status.Sent? || status.Delivered? || !(status.Queued? || status.SmsFailed?) {
        assert forall n: nat :: State(status, {}, {}, {}, n).claimed - {job} == {};
        return false;
      }
      status := Processing;
      assert {job} - {job} == {} && {} + {job} == {job};
      var outcome := if ok then Submitted else SubmitFailed;
      var current := recipients;
      recipients := seq(|current|, i requires 0 <= i < |current| => current[i].(status := outcome));
      if ok {
        cost := rate * Segments(|text|, unicode) * |recipients|;
        status := Sent;
        return false;
      }
      status := SmsFailed;
      return true;
    }
  }
}
