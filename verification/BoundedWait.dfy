/**
 * The bounded wait of the latency benchmark as a function of what its polls return, what the clock shows
 * and when its deadline is. The clock is read at the first poll and then at every hundredth, after the
 * completions of that poll have been counted.
 */
module BoundedWait {
  /** The two work requests a side may wait for. */
  datatype Wr = SendWr | RecvWr

  const CHECK_TIMEOUT_ITER: nat := 100

  /** One poll: it fails, or it returns completions, and a clock read after it would show `now`. */
  datatype Poll = Broken | Reaped(ids: seq<Wr>, now: nat)

  datatype Outcome = Waiting(missing: set<Wr>) | Satisfied | TimedOut(missing: set<Wr>) | Failed

  function SetOf(ids: seq<Wr>): set<Wr> {
    set x | x in ids
  }

  /** What poll number `i` makes of a wait that still misses `missing`. */
  function After(missing: set<Wr>, deadline: nat, i: nat, poll: Poll): Outcome {
    match poll
    case Broken => Failed
    case Reaped(ids, now) =>
      var left := missing - SetOf(ids);
      if i % CHECK_TIMEOUT_ITER == 0 && now >= deadline then TimedOut(left)
      else if left == {} then Satisfied else Waiting(left)
  }

  /** The wait for `want` after `polls`; once it is over, further polls do not matter. */
  function Wait(want: set<Wr>, deadline: nat, polls: seq<Poll>): Outcome {
    if polls == [] then if want == {} then Satisfied else Waiting(want)
    else
      var n := |polls| - 1;
      match Wait(want, deadline, polls[..n])
      case Waiting(missing) => After(missing, deadline, n, polls[n])
      case over => over
  }

  lemma WaitAppend(want: set<Wr>, deadline: nat, polls: seq<Poll>, poll: Poll)
    requires Wait(want, deadline, polls).Waiting?
    ensures Wait(want, deadline, polls + [poll])
            == After(Wait(want, deadline, polls).missing, deadline, |polls|, poll)
  {
    assert (polls + [poll])[..|polls|] == polls;
  }

  // ----- The outcome, declared -----

  /** Some poll before number `n` failed. */
  ghost predicate BrokeBefore(polls: seq<Poll>, n: nat)
    requires n <= |polls|
  {
    exists i :: 0 <= i < n && polls[i].Broken?
  }

  /** The clock was read at poll `i` and showed the deadline or later. */
  predicate Fires(deadline: nat, polls: seq<Poll>, i: nat)
    requires i < |polls|
  {
    i % CHECK_TIMEOUT_ITER == 0 && polls[i].Reaped? && polls[i].now >= deadline
  }

  ghost predicate FiredBefore(deadline: nat, polls: seq<Poll>, n: nat)
    requires n <= |polls|
  {
    exists i :: 0 <= i < n && Fires(deadline, polls, i)
  }

  /** What the first `n` polls have returned. */
  ghost function Seen(polls: seq<Poll>, n: nat): set<Wr>
    requires n <= |polls|
  {
    set i, x | 0 <= i < n && polls[i].Reaped? && x in polls[i].ids :: x
  }

  /** Poll `i` is the first after which nothing in `want` is missing. */
  ghost predicate FirstCover(want: set<Wr>, polls: seq<Poll>, i: nat)
    requires i < |polls|
  {
    want <= Seen(polls, i + 1) && !(want <= Seen(polls, i))
  }

  lemma SeenGrows(polls: seq<Poll>, n: nat)
    requires n < |polls|
    ensures Seen(polls, n + 1) == Seen(polls, n) + if polls[n].Reaped? then SetOf(polls[n].ids) else {}
  {
  }

  /** Nothing failed, no check fired and something is missing before poll number `n`. */
  ghost predicate UnderWay(want: set<Wr>, deadline: nat, polls: seq<Poll>, n: nat)
    requires n <= |polls|
  {
    !BrokeBefore(polls, n) && !FiredBefore(deadline, polls, n) && !(want <= Seen(polls, n))
  }

  lemma UnderWayPrefix(want: set<Wr>, deadline: nat, polls: seq<Poll>, n: nat, i: nat)
    requires i <= n <= |polls|
    ensures UnderWay(want, deadline, polls[..n], i) <==> UnderWay(want, deadline, polls, i)
    ensures Seen(polls[..n], i) == Seen(polls, i)
  {
    assert forall j :: 0 <= j < i ==> polls[..n][j] == polls[j];
    assert forall j :: 0 <= j < i ==> (Fires(deadline, polls[..n], j) <==> Fires(deadline, polls, j));
  }

  lemma UnderWayNext(want: set<Wr>, deadline: nat, polls: seq<Poll>, n: nat)
    requires n < |polls|
    ensures UnderWay(want, deadline, polls, n + 1)
            <==> UnderWay(want, deadline, polls, n) && polls[n].Reaped? && !Fires(deadline, polls, n)
                 && !(want <= Seen(polls, n + 1))
  {
    SeenGrows(polls, n);
    hide Seen, Fires;
  }

  lemma NothingMissing(want: set<Wr>, seen: set<Wr>)
    ensures want - seen == {} <==> want <= seen
  {
    if want - seen == {} {
      forall x | x in want
        ensures x in seen
      {
        assert x in want - seen || x in seen;
      }
    }
  }

  /** What one more poll makes of a wait, in terms of what all polls have returned. */
  lemma AfterDeclared(want: set<Wr>, deadline: nat, polls: seq<Poll>, n: nat)
    requires n < |polls|
    ensures After(want - Seen(polls, n), deadline, n, polls[n])
            == if polls[n].Broken? then Failed
               else if Fires(deadline, polls, n) then TimedOut(want - Seen(polls, n + 1))
               else if want <= Seen(polls, n + 1) then Satisfied else Waiting(want - Seen(polls, n + 1))
  {
    SeenGrows(polls, n);
    NothingMissing(want, Seen(polls, n + 1));
    hide Seen;
    if polls[n].Reaped? {
      assert want - Seen(polls, n) - SetOf(polls[n].ids) == want - Seen(polls, n + 1);
    }
  }

  /** The wait is still under way exactly when its declaration says so. */
  lemma {:induction false} StillWaiting(want: set<Wr>, deadline: nat, polls: seq<Poll>)
    ensures Wait(want, deadline, polls).Waiting? <==> UnderWay(want, deadline, polls, |polls|)
    ensures Wait(want, deadline, polls).Waiting? ==> Wait(want, deadline, polls).missing == want - Seen(polls, |polls|)
  {
    if polls != [] {
      var n := |polls| - 1;
      StillWaiting(want, deadline, polls[..n]);
      UnderWayPrefix(want, deadline, polls, n, n);
      UnderWayNext(want, deadline, polls, n);
      AfterDeclared(want, deadline, polls, n);
      hide Seen, UnderWay, After, Fires;
    } else {
      NothingMissing(want, {});
      assert Seen(polls, 0) == {} && want - {} == want;
    }
  }

  /** How a wait that is under way before poll `i` ends there. */
  ghost predicate EndsAt(want: set<Wr>, deadline: nat, polls: seq<Poll>, i: nat, outcome: Outcome)
    requires i < |polls|
  {
    && UnderWay(want, deadline, polls, i)
    && match outcome
       case Waiting(_) => false
       case Failed => polls[i].Broken?
       case TimedOut(missing) => Fires(deadline, polls, i) && missing == want - Seen(polls, i + 1)
       case Satisfied => polls[i].Reaped? && !Fires(deadline, polls, i) && want <= Seen(polls, i + 1)
  }

  lemma OverStaysOver(want: set<Wr>, deadline: nat, polls: seq<Poll>, i: nat, n: nat, outcome: Outcome)
    requires i < n <= |polls| && EndsAt(want, deadline, polls, i, outcome)
    ensures !UnderWay(want, deadline, polls, n)
  {
    assert Seen(polls, i + 1) <= Seen(polls, n);
  }

  /** Every way a wait can end, and where. */
  lemma {:induction false} OutcomeDeclared(want: set<Wr>, deadline: nat, polls: seq<Poll>, outcome: Outcome)
    requires want != {} && !outcome.Waiting?
    ensures Wait(want, deadline, polls) == outcome
            <==> exists i :: 0 <= i < |polls| && EndsAt(want, deadline, polls, i, outcome)
  {
    if polls != [] {
      var n := |polls| - 1;
      OutcomeDeclared(want, deadline, polls[..n], outcome);
      StillWaiting(want, deadline, polls[..n]);
      UnderWayPrefix(want, deadline, polls, n, n);
      AfterDeclared(want, deadline, polls, n);
      forall i | 0 <= i < n
        ensures EndsAt(want, deadline, polls[..n], i, outcome) <==> EndsAt(want, deadline, polls, i, outcome)
      {
        UnderWayPrefix(want, deadline, polls, n, i);
        UnderWayPrefix(want, deadline, polls, n, i + 1);
      }
      forall i | 0 <= i < n && EndsAt(want, deadline, polls, i, outcome)
        ensures !UnderWay(want, deadline, polls, n)
      {
        OverStaysOver(want, deadline, polls, i, n, outcome);
      }
      hide UnderWay, Seen, Fires, After;
      assert EndsAt(want, deadline, polls, n, outcome)
             <==> Wait(want, deadline, polls[..n]).Waiting? && Wait(want, deadline, polls) == outcome;
    }
  }

  /**
   * A wait that has seen everything it wants still reports a timeout exactly when the poll that completed
   * it is one of those that look at the clock and the clock shows the deadline or later, no earlier look at
   * the clock having done so.
   */
  lemma TimesOutSatisfied(want: set<Wr>, deadline: nat, polls: seq<Poll>)
    requires want != {}
    ensures Wait(want, deadline, polls) == TimedOut({})
            <==> exists i :: 0 <= i < |polls| && FirstCover(want, polls, i) && Fires(deadline, polls, i)
                             && !BrokeBefore(polls, i) && !FiredBefore(deadline, polls, i)
  {
    hide Wait, Fires, BrokeBefore, FiredBefore, Seen;
    OutcomeDeclared(want, deadline, polls, TimedOut({}));
    forall i | 0 <= i < |polls|
      ensures EndsAt(want, deadline, polls, i, TimedOut({}))
              <==> FirstCover(want, polls, i) && Fires(deadline, polls, i)
                   && !BrokeBefore(polls, i) && !FiredBefore(deadline, polls, i)
    {
      NothingMissing(want, Seen(polls, i + 1));
    }
  }

  /** A wait for a ping or an echo that is over at its first poll and is reported as timed out all the same. */
  lemma SatisfiedButTimedOut(want: set<Wr>, deadline: nat, ids: seq<Wr>, now: nat)
    requires want != {} && want <= SetOf(ids) && now >= deadline
    ensures Wait(want, deadline, [Reaped(ids, now)]) == TimedOut({})
  {
    var polls := [Reaped(ids, now)];
    assert polls[..0] == [];
    assert want - SetOf(ids) == {};
  }

  // ----- How long a wait can take -----

  /** The clock never stands still between two polls, and shows more than `began` at the first. */
  ghost predicate InOrder(began: nat, polls: seq<Poll>) {
    && (forall i :: 0 <= i < |polls| && polls[i].Reaped? ==> polls[i].now > began)
    && (forall i, j :: 0 <= i < j < |polls| && polls[i].Reaped? && polls[j].Reaped? ==> polls[i].now < polls[j].now)
  }

  /** At most a hundred polls begin once the clock has shown the deadline. */
  lemma FewLatePolls(want: set<Wr>, deadline: nat, began: nat, polls: seq<Poll>, i: nat)
    requires InOrder(began, polls) && polls != [] && Wait(want, deadline, polls[..|polls| - 1]).Waiting?
    requires i < |polls| && polls[i].Reaped? && polls[i].now >= deadline
    ensures |polls| - (i + 1) <= 100
  {
    var n := |polls| - 1;
    StillWaiting(want, deadline, polls[..n]);
    UnderWayPrefix(want, deadline, polls, n, n);
    hide Wait, Seen;
    forall j: nat | i <= j < n
      ensures j % CHECK_TIMEOUT_ITER != 0
    {
      assert polls[j].Reaped? && !Fires(deadline, polls, j);
    }
    var check := i + (CHECK_TIMEOUT_ITER - i % CHECK_TIMEOUT_ITER) % CHECK_TIMEOUT_ITER;
    assert check % CHECK_TIMEOUT_ITER == 0 && i <= check < i + CHECK_TIMEOUT_ITER;
    assert n <= check;
  }

  /** Every clock reading so far is at most `t`. */
  ghost predicate UpTo(polls: seq<Poll>, t: nat) {
    forall i :: 0 <= i < |polls| && polls[i].Reaped? ==> polls[i].now <= t
  }

  lemma NoPollsYet(began: nat)
    ensures InOrder(began, []) && UpTo([], began)
  {
  }

  lemma OrderKept(began: nat, polls: seq<Poll>, t: nat, poll: Poll)
    requires InOrder(began, polls) && UpTo(polls, t) && began <= t && (poll.Reaped? ==> poll.now > t)
    ensures InOrder(began, polls + [poll])
    ensures poll.Reaped? ==> UpTo(polls + [poll], poll.now)
  {
  }
}
