/**
 One-time payout links: any number of confirmations of one link run interleaved, and any of them may die
 at any point.
 */
module PayoutLinks {
  import opened Wrappers

  type Pid = nat

  /**
   The link's row and the confirmations at work on it. `resolved` confirmations found the link active;
   `winners` have consumed it and not yet created their payout. `wins` and `payouts` count what happened
   so far.
   */
  datatype State = State(
    clock: nat,
    expiresAt: nat,
    redeemedAt: Option<nat>,
    resolved: set<Pid>,
    winners: set<Pid>,
    wins: nat,
    payouts: nat)

  function Created(now: nat, expiresAt: nat): State {
    State(now, expiresAt, None, {}, {}, 0, 0)
  }

  predicate Active(s: State) {
    s.redeemedAt.None? && s.clock < s.expiresAt
  }

  datatype Event =
    | Tick(elapsed: nat)
    | Resolve(pid: Pid)
    | Consume(pid: Pid)
    | Pay(pid: Pid, ok: bool)
    | Die(pid: Pid)

  /** The consume step locks the row, checks it again and marks it in one transaction. */
  function Apply(s: State, e: Event): State {
    match e
    case Tick(elapsed) => s.(clock := s.clock + elapsed)
    case Resolve(pid) => if Active(s) then s.(resolved := s.resolved + {pid}) else s
    case Consume(pid) =>
      if pid !in s.resolved || pid in s.winners then s
      else if !Active(s) then s.(resolved := s.resolved - {pid})
      else s.(redeemedAt := Some(s.clock), resolved := s.resolved - {pid}, winners := s.winners + {pid},
              wins := s.wins + 1)
    case Pay(pid, ok) =>
      if pid !in s.winners then s
      else s.(winners := s.winners - {pid}, payouts := s.payouts + if ok then 1 else 0)
    case Die(pid) => s.(resolved := s.resolved - {pid}, winners := s.winners - {pid})
  }

  function Execute(s: State, events: seq<Event>): State {
    if events == [] then s else Apply(Execute(s, events[..|events| - 1]), events[|events| - 1])
  }

  ghost predicate Sound(s: State) {
    && s.wins == (if s.redeemedAt.Some? then 1 else 0)
    && s.payouts + |s.winners| <= s.wins
    && (s.redeemedAt.Some? ==> s.redeemedAt.value < s.expiresAt && s.redeemedAt.value <= s.clock)
  }

  lemma ApplySound(s: State, e: Event)
    requires Sound(s)
    ensures Sound(Apply(s, e))
    ensures s.redeemedAt.Some? ==> Apply(s, e).redeemedAt == s.redeemedAt
    ensures Apply(s, e).expiresAt == s.expiresAt
  {
    if e.Pay? && e.pid in s.winners {
      assert |s.winners - {e.pid}| == |s.winners| - 1;
    } else if e.Die? {
      assert e.pid !in s.winners ==> s.winners - {e.pid} == s.winners;
    } else if e.Consume? && e.pid !in s.winners {
      assert |s.winners + {e.pid}| == |s.winners| + 1;
    }
  }

  /**
   Single use: over every interleaving at most one confirmation wins and at most one payout is created;
   the link is consumed before it expires, and once consumed it stays so.
   */
  lemma {:induction false} SingleUse(now: nat, expiresAt: nat, events: seq<Event>)
    ensures var s := Execute(Created(now, expiresAt), events);
            Sound(s) && s.wins <= 1 && s.payouts <= 1 && s.expiresAt == expiresAt
  {
    if events != [] {
      SingleUse(now, expiresAt, events[..|events| - 1]);
      ApplySound(Execute(Created(now, expiresAt), events[..|events| - 1]), events[|events| - 1]);
    }
  }

  /** From the moment a link is consumed, or has expired, no confirmation can win it any more. */
  lemma {:induction false} NeverAgain(s: State, events: seq<Event>)
    requires Sound(s) && !Active(s)
    ensures var s' := Execute(s, events);
            Sound(s') && !Active(s') && s'.wins == s.wins && s'.redeemedAt == s.redeemedAt
            && s'.expiresAt == s.expiresAt && s'.clock >= s.clock
  {
    if events != [] {
      NeverAgain(s, events[..|events| - 1]);
      ApplySound(Execute(s, events[..|events| - 1]), events[|events| - 1]);
    }
  }

  /** A confirmation that dies takes nothing with it but itself. */
  lemma DiesAlone(s: State, pid: Pid)
    ensures var s' := Apply(s, Die(pid));
            && s' == s.(resolved := s'.resolved, winners := s'.winners)
            && (forall p :: p in s'.resolved <==> p in s.resolved && p != pid)
            && (forall p :: p in s'.winners <==> p in s.winners && p != pid)
  {
  }

  /** The other way round: a link that is unused and has not expired can be won, and its winner can pay. */
  lemma CanBeWon(s: State, pid: Pid)
    requires pid !in s.winners
    ensures var consumed := Apply(Apply(s, Resolve(pid)), Consume(pid));
            && (consumed.wins > s.wins <==> s.redeemedAt == None && s.clock < s.expiresAt)
            && (consumed.wins > s.wins ==>
                  && consumed.redeemedAt == Some(s.clock) && consumed.wins == s.wins + 1
                  && Apply(consumed, Pay(pid, true)).payouts == s.payouts + 1
                  && Apply(consumed, Pay(pid, false)).payouts == s.payouts
                  && Apply(consumed, Pay(pid, false)).redeemedAt == Some(s.clock)
                  && forall ok: bool, again: bool ::
                       Apply(Apply(consumed, Pay(pid, ok)), Pay(pid, again)) == Apply(consumed, Pay(pid, ok)))
            && (consumed.wins == s.wins ==> consumed.redeemedAt == s.redeemedAt)
  {
  }

  // ------------------------------- The service ------------------------------

  class PayoutLink {
    const expiresAt: nat
    var redeemedAt: Option<nat>
    var payoutId: Option<string>

    constructor (expiresAt: nat)
      ensures redeemedAt.None? && payoutId.None? && this.expiresAt == expiresAt
    {
      this.expiresAt, redeemedAt, payoutId := expiresAt, None, None;
    }

    /** The locked transaction: of all calls on one link, only the first in time can succeed. */
    method ConsumeLink(now: nat) returns (won: bool)
      modifies this`redeemedAt
      ensures won <==> old(redeemedAt).None? && now < expiresAt
      ensures redeemedAt == if won then Some(now) else old(redeemedAt)
    {
      if redeemedAt.Some? || expiresAt <= now {
        return false;
      }
      redeemedAt := Some(now);
      return true;
    }

    /** A confirmation that nothing interrupts: resolve, consume, pay. A failed payout leaves the link used. */
    method Confirm(now: nat, later: nat, payout: Option<string>) returns (done: bool)
      requires now <= later
      modifies this
      ensures done <==> old(redeemedAt).None? && later < expiresAt && payout.Some?
      ensures old(redeemedAt).None? && later < expiresAt ==> redeemedAt == Some(later)
      ensures !(old(redeemedAt).None? && later < expiresAt) ==> redeemedAt == old(redeemedAt)
      ensures payoutId == if done then payout else old(payoutId)
    {
      if redeemedAt.Some? || expiresAt <= now {
        return false;
      }
      var won := ConsumeLink(later);
      if !won || payout.None? {
        return false;
      }
      payoutId := payout;
      return true;
    }
  }
}
