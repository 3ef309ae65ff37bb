/**
 * The receivers' drain loop as a function of what its polls return and what the clock shows after each of
 * them. It counts completions until enough have come or nothing has come for too long.
 */
module Drains {
  import opened Machine
  import opened Polls

  datatype Outcome = Draining(received: nat, last: nat) | ByCount(received: nat) | Quiet(received: nat) | Failed

  /** What a poll makes of a loop that has received `received` and last saw progress at `last`. */
  function After(iterations: nat, received: nat, last: nat, poll: Poll): Outcome {
    match poll
    case Broken => Failed
    case Polled(n, now) =>
      if n == 0 then if now >= last + IDLE_TIMEOUT then Quiet(received) else Draining(received, last)
      else if received + n >= iterations then ByCount(received + n) else Draining(received + n, now)
  }

  /**
   * The loop for `iterations` messages, begun at `began`, after `polls`; once it is over, further polls do not
   * matter.
   */
  function Drain(iterations: nat, began: nat, polls: seq<Poll>): Outcome {
    if polls == [] then if iterations == 0 then ByCount(0) else Draining(0, began)
    else
      var n := |polls| - 1;
      match Drain(iterations, began, polls[..n])
      case Draining(received, last) => After(iterations, received, last, polls[n])
      case over => over
  }

  lemma DrainAppend(iterations: nat, began: nat, polls: seq<Poll>, poll: Poll)
    ensures Drain(iterations, began, polls + [poll])
            == match Drain(iterations, began, polls)
               case Draining(received, last) => After(iterations, received, last, poll)
               case over => over
  {
    assert (polls + [poll])[..|polls|] == polls;
  }

  // ----- The outcome, declared -----

  /** Poll `i` is the last of the first `n` that was not empty. */
  ghost predicate LastProgress(polls: seq<Poll>, n: nat, i: nat)
    requires n <= |polls|
  {
    i < n && !Empty(polls[i]) && forall j :: i < j < n ==> Empty(polls[j])
  }

  /** When the loop last saw progress before poll number `n`. */
  ghost predicate ProgressAt(began: nat, polls: seq<Poll>, n: nat, last: nat)
    requires n <= |polls|
  {
    if forall j :: 0 <= j < n ==> Empty(polls[j]) then last == began
    else exists i: nat :: LastProgress(polls, n, i) && polls[i].Polled? && polls[i].now == last
  }

  /** Poll `i` is empty and comes too long after the last progress. */
  ghost predicate TooQuiet(began: nat, polls: seq<Poll>, i: nat)
    requires i < |polls|
  {
    Empty(polls[i]) && exists last: nat :: ProgressAt(began, polls, i, last) && polls[i].now >= last + IDLE_TIMEOUT
  }

  /** Before poll number `n` nothing failed, too few completions have come and no spell was too quiet. */
  ghost predicate UnderWay(iterations: nat, began: nat, polls: seq<Poll>, n: nat)
    requires n <= |polls|
  {
    && Sum(polls, n) < iterations
    && forall i :: 0 <= i < n ==> polls[i].Polled? && !TooQuiet(began, polls, i)
  }

  /** How a loop that is under way before poll `i` ends there. */
  ghost predicate EndsAt(iterations: nat, began: nat, polls: seq<Poll>, i: nat, outcome: Outcome)
    requires i < |polls|
  {
    && UnderWay(iterations, began, polls, i)
    && match outcome
       case Draining(_, _) => false
       case Failed => polls[i].Broken?
       case ByCount(received) => polls[i].Polled? && Sum(polls, i + 1) >= iterations && received == Sum(polls, i + 1)
       case Quiet(received) => TooQuiet(began, polls, i) && received == Sum(polls, i)
  }

  lemma PrefixProgress(began: nat, polls: seq<Poll>, m: nat, n: nat, last: nat)
    requires n <= m <= |polls|
    ensures ProgressAt(began, polls[..m], n, last) <==> ProgressAt(began, polls, n, last)
  {
    assert forall j :: 0 <= j < n ==> polls[..m][j] == polls[j];
    forall i | 0 <= i < n
      ensures LastProgress(polls[..m], n, i) <==> LastProgress(polls, n, i)
    {
    }
  }

  lemma PrefixQuiet(began: nat, polls: seq<Poll>, m: nat, i: nat)
    requires i < m <= |polls|
    ensures TooQuiet(began, polls[..m], i) <==> TooQuiet(began, polls, i)
  {
    forall last: nat
      ensures ProgressAt(began, polls[..m], i, last) <==> ProgressAt(began, polls, i, last)
    {
      PrefixProgress(began, polls, m, i, last);
    }
  }

  lemma PrefixUnderWay(iterations: nat, began: nat, polls: seq<Poll>, m: nat, n: nat)
    requires n <= m <= |polls|
    ensures UnderWay(iterations, began, polls[..m], n) <==> UnderWay(iterations, began, polls, n)
  {
    hide TooQuiet, Sum;
    PrefixSum(polls, m, n);
    forall i | 0 <= i < n
      ensures TooQuiet(began, polls[..m], i) <==> TooQuiet(began, polls, i)
    {
      PrefixQuiet(began, polls, m, i);
    }
  }

  /** There is one time of last progress, and how a poll moves it. */
  lemma ProgressUnique(began: nat, polls: seq<Poll>, n: nat, last: nat, other: nat)
    requires n <= |polls| && ProgressAt(began, polls, n, last) && ProgressAt(began, polls, n, other)
    ensures last == other
  {
  }

  lemma ProgressNext(began: nat, polls: seq<Poll>, n: nat, last: nat)
    requires n < |polls| && polls[n].Polled? && ProgressAt(began, polls, n, last)
    ensures ProgressAt(began, polls, n + 1, if polls[n].n == 0 then last else polls[n].now)
  {
    if polls[n].n > 0 {
      assert LastProgress(polls, n + 1, n);
    } else if exists j :: 0 <= j < n && !Empty(polls[j]) {
      var i: nat :| LastProgress(polls, n, i) && polls[i].Polled? && polls[i].now == last;
      assert LastProgress(polls, n + 1, i);
    }
  }

  /** The loop is under way exactly when its declaration says so, and its variables are what they should be. */
  lemma {:induction false} StillDraining(iterations: nat, began: nat, polls: seq<Poll>)
    ensures Drain(iterations, began, polls).Draining? <==> UnderWay(iterations, began, polls, |polls|)
    ensures var d := Drain(iterations, began, polls);
            d.Draining? ==> d.received == Sum(polls, |polls|) && ProgressAt(began, polls, |polls|, d.last)
  {
    if polls != [] {
      var n := |polls| - 1;
      StillDraining(iterations, began, polls[..n]);
      PrefixUnderWay(iterations, began, polls, n, n);
      PrefixSum(polls, n, n);
      var d := Drain(iterations, began, polls[..n]);
      if d.Draining? {
        PrefixProgress(began, polls, n, n, d.last);
        OnePoll(iterations, began, polls, n, d.last);
      } else {
        NotAgain(iterations, began, polls, n);
      }
    }
  }

  lemma NotAgain(iterations: nat, began: nat, polls: seq<Poll>, n: nat)
    requires n < |polls|
    ensures UnderWay(iterations, began, polls, n + 1) ==> UnderWay(iterations, began, polls, n)
  {
    hide TooQuiet;
    SumGrows(polls, n, n + 1);
  }

  /** What one more poll makes of a loop under way, in terms of all polls. */
  lemma OnePoll(iterations: nat, began: nat, polls: seq<Poll>, n: nat, last: nat)
    requires n < |polls| && UnderWay(iterations, began, polls, n) && ProgressAt(began, polls, n, last)
    ensures var after := After(iterations, Sum(polls, n), last, polls[n]);
            && (after.Draining? <==> UnderWay(iterations, began, polls, n + 1))
            && (after.Draining? ==>
                  after.received == Sum(polls, n + 1) && ProgressAt(began, polls, n + 1, after.last))
            && (!after.Draining? ==> EndsAt(iterations, began, polls, n, after))
  {
    QuietNow(began, polls, n, last);
    if polls[n].Polled? {
      ProgressNext(began, polls, n, last);
    }
    hide TooQuiet, ProgressAt;
  }

  lemma QuietNow(began: nat, polls: seq<Poll>, n: nat, last: nat)
    requires n < |polls| && ProgressAt(began, polls, n, last)
    ensures TooQuiet(began, polls, n) <==> Empty(polls[n]) && polls[n].now >= last + IDLE_TIMEOUT
  {
    forall other: nat | ProgressAt(began, polls, n, other)
      ensures other == last
    {
      ProgressUnique(began, polls, n, last, other);
    }
    hide ProgressAt;
  }

  lemma OverStaysOver(iterations: nat, began: nat, polls: seq<Poll>, i: nat, n: nat, outcome: Outcome)
    requires i < n <= |polls| && EndsAt(iterations, began, polls, i, outcome)
    ensures !UnderWay(iterations, began, polls, n)
  {
    hide TooQuiet;
    SumGrows(polls, i + 1, n);
  }

  lemma PrefixEnds(iterations: nat, began: nat, polls: seq<Poll>, m: nat, i: nat, outcome: Outcome)
    requires i < m <= |polls|
    ensures EndsAt(iterations, began, polls[..m], i, outcome) <==> EndsAt(iterations, began, polls, i, outcome)
  {
    hide TooQuiet, UnderWay, Sum;
    PrefixUnderWay(iterations, began, polls, m, i);
    PrefixSum(polls, m, i);
    PrefixSum(polls, m, i + 1);
    PrefixQuiet(began, polls, m, i);
  }

  /** A loop under way ends at a poll in one way only. */
  lemma EndsOneWay(iterations: nat, began: nat, polls: seq<Poll>, n: nat, last: nat, outcome: Outcome)
    requires n < |polls| && UnderWay(iterations, began, polls, n) && ProgressAt(began, polls, n, last)
    requires !outcome.Draining?
    ensures EndsAt(iterations, began, polls, n, outcome)
            <==> After(iterations, Sum(polls, n), last, polls[n]) == outcome
  {
    QuietNow(began, polls, n, last);
    hide TooQuiet, ProgressAt, UnderWay;
  }

  /**
   * Every way the loop can end, and at which poll: a failed one; the first at which the completions add up to
   * `iterations`; or the first empty one whose reading is `IDLE_TIMEOUT` past that of the last poll that was
   * not empty, or past the beginning if there was none. Whichever comes first ends it.
   */
  lemma {:induction false} DrainDeclared(iterations: nat, began: nat, polls: seq<Poll>, outcome: Outcome)
    requires iterations > 0 && !outcome.Draining?
    ensures Drain(iterations, began, polls) == outcome
            <==> exists i :: 0 <= i < |polls| && EndsAt(iterations, began, polls, i, outcome)
  {
    hide TooQuiet, Sum, EndsAt, UnderWay, ProgressAt;
    if polls != [] {
      var n := |polls| - 1;
      DrainDeclared(iterations, began, polls[..n], outcome);
      StillDraining(iterations, began, polls[..n]);
      PrefixUnderWay(iterations, began, polls, n, n);
      PrefixSum(polls, n, n);
      forall i | 0 <= i < n
        ensures EndsAt(iterations, began, polls[..n], i, outcome) <==> EndsAt(iterations, began, polls, i, outcome)
      {
        PrefixEnds(iterations, began, polls, n, i, outcome);
      }
      forall i | 0 <= i < n && EndsAt(iterations, began, polls, i, outcome)
        ensures !UnderWay(iterations, began, polls, n)
      {
        OverStaysOver(iterations, began, polls, i, n, outcome);
      }
      var d := Drain(iterations, began, polls[..n]);
      if d.Draining? {
        PrefixProgress(began, polls, n, n, d.last);
        EndsOneWay(iterations, began, polls, n, d.last, outcome);
      } else {
        EndsUnderWay(iterations, began, polls, n, outcome);
      }
    }
  }

  lemma EndsUnderWay(iterations: nat, began: nat, polls: seq<Poll>, i: nat, outcome: Outcome)
    requires i < |polls|
    ensures EndsAt(iterations, began, polls, i, outcome) ==> UnderWay(iterations, began, polls, i)
  {
  }

  /** The clock never stands still between two polls, and shows more than `began` at the first. */
  ghost predicate Ticking(began: nat, world: nat -> Poll) {
    && (forall i: nat :: world(i).Polled? ==> world(i).now > began)
    && (forall i: nat, j: nat :: i < j && world(i).Polled? && world(j).Polled? ==> world(i).now < world(j).now)
  }

  lemma MadeNext(iterations: nat, began: nat, world: nat -> Poll, k: nat)
    ensures Made(world, k + 1) == Made(world, k) + [world(k)]
    ensures Drain(iterations, began, Made(world, k + 1))
            == match Drain(iterations, began, Made(world, k))
               case Draining(received, last) => After(iterations, received, last, world(k))
               case over => over
    ensures Sum(Made(world, k + 1), k + 1) == Sum(Made(world, k), k) + if world(k).Polled? then world(k).n else 0
  {
    SumNext(world, k);
    DrainAppend(iterations, began, Made(world, k), world(k));
  }

  // ----- The loop in a world that answers its polls -----

  /** A loop has made `k` polls and received `received`; it last saw progress at `last`, and the clock shows `now`. */
  ghost predicate Reached(
    iterations: nat, began: nat, world: nat -> Poll, k: nat, received: nat, last: nat, now: nat)
  {
    && Drain(iterations, began, Made(world, k))
       == (if received < iterations then Draining(received, last) else ByCount(received))
    && received == Sum(Made(world, k), k)
    && last <= now < last + IDLE_TIMEOUT
    && (now == began || exists i: nat :: i < k && world(i).Polled? && world(i).now == now)
  }

  lemma NothingMade(iterations: nat, began: nat, world: nat -> Poll)
    ensures Reached(iterations, began, world, 0, 0, began, began)
  {
  }

  /** What one more poll does to such a loop. */
  lemma PollMade(iterations: nat, began: nat, world: nat -> Poll, k: nat, received: nat, last: nat, now: nat)
    requires Ticking(began, world) && Reached(iterations, began, world, k, received, last, now)
    requires received < iterations
    ensures var after, sum := Drain(iterations, began, Made(world, k + 1)), Sum(Made(world, k + 1), k + 1);
            match world(k)
            case Broken => after == Failed && sum == received
            case Polled(n, t) =>
              && t > now && sum == received + n
              && (if n == 0 && t >= last + IDLE_TIMEOUT then after == Quiet(received)
                  else Reached(iterations, began, world, k + 1, received + n, if n == 0 then last else t, t))
  {
    hide Drain, Sum, Made;
    MadeNext(iterations, began, world, k);
  }

  lemma ReachedSum(iterations: nat, began: nat, world: nat -> Poll, k: nat, received: nat, last: nat, now: nat)
    requires Reached(iterations, began, world, k, received, last, now)
    ensures received == Sum(Made(world, k), k) && last <= now < last + IDLE_TIMEOUT
    ensures received >= iterations ==> Drain(iterations, began, Made(world, k)) == ByCount(received)
  {
  }
}
