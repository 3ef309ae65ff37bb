/**
 * What the steps of the exchange show of a side's polls and waits, and of the client's round trips, once each step
 * is stamped with what that side's clock last showed.
 */
module LatencyTiming {
  import opened Machine
  import opened BoundedWait
  import opened PingPong

  /** The polls a side has made and that did not fail. */
  function PollsOf(side: Side, steps: seq<Step>): nat {
    if steps == [] then 0
    else
      var n := |steps| - 1;
      PollsOf(side, steps[..n]) + if steps[n].Reap? && steps[n].side == side then 1 else 0
  }

  lemma PollsAppend(side: Side, steps: seq<Step>, step: Step)
    ensures PollsOf(side, steps + [step]) == PollsOf(side, steps) + if step.Reap? && step.side == side then 1 else 0
  {
    assert (steps + [step])[..|steps|] == steps;
  }

  lemma PollsForeign(side: Side, steps: seq<Step>, step: Step)
    requires !CpuOf(side, step)
    ensures PollsOf(side, steps + [step]) == PollsOf(side, steps)
  {
    PollsAppend(side, steps, step);
  }

  /** No poll a side has made so far is one that fails. */
  ghost predicate NoneFailed(side: Side, steps: seq<Step>, fails: nat -> bool) {
    forall k: nat :: k < PollsOf(side, steps) ==> !fails(k)
  }

  predicate CpuOf(side: Side, step: Step) {
    if side.Client? then ClientCpu(step) else ServerCpu(step)
  }

  /** What the clock last showed before each step, none of it later than `clock`. */
  ghost predicate Stamped(stamps: seq<nat>, clock: nat) {
    forall i :: 0 <= i < |stamps| ==> stamps[i] <= clock
  }

  /** All that a side's CPU does from step `from` up to step `to` is poll, for this deadline, between these times. */
  ghost predicate OnlyPolls(side: Side, steps: seq<Step>, from: nat, to: nat, deadline: nat, began: nat, end: nat) {
    && from <= to <= |steps|
    && forall k :: from <= k < to && CpuOf(side, steps[k])
         ==> steps[k].Reap? && steps[k].deadline == deadline && began < steps[k].now < end
  }

  lemma PollsJoined(
    side: Side, steps: seq<Step>, longer: seq<Step>, from: nat, deadline: nat, began: nat, t: nat, end: nat)
    requires steps <= longer && began <= t < end
    requires OnlyPolls(side, steps, from, |steps|, deadline, began, t + 1)
    requires OnlyPolls(side, longer, |steps|, |longer|, deadline, t, end)
    ensures OnlyPolls(side, longer, from, |longer|, deadline, began, end)
  {
    forall k | from <= k < |longer| && CpuOf(side, longer[k])
      ensures longer[k].Reap? && longer[k].deadline == deadline && began < longer[k].now < end
    {
      if k < |steps| {
        assert longer[k] == steps[k];
      }
    }
  }

  lemma NoPolls(side: Side, steps: seq<Step>, deadline: nat, began: nat, end: nat)
    ensures OnlyPolls(side, steps, |steps|, |steps|, deadline, began, end)
  {
  }

  /**
   * The steps of a side's CPU from number `from` up to number `to` are the polls of one wait: it began at `began`,
   * after the step before them, its deadline is `timeout` later, and the last reading was before `end`.
   */
  ghost predicate WaitedIn(
    side: Side, steps: seq<Step>, stamps: seq<nat>, from: nat, to: nat, began: nat, timeout: nat, end: nat)
  {
    && |steps| == |stamps| && from <= |steps| && (from > 0 ==> stamps[from - 1] < began)
    && OnlyPolls(side, steps, from, to, began + timeout, began, end)
  }

  /**
   * One round trip as the client's clock saw it: read at `t0`, the wait begun at `began`, read again at `t1`. Its
   * ping is step number `post` and its sample step number `take`.
   */
  datatype Round = Round(t0: nat, post: nat, began: nat, t1: nat, take: nat)

  /** Two of these samples, in microseconds, are the whole of the round, in nanoseconds. */
  predicate Measures(sample: real, r: Round) {
    1000.0 * (sample + sample) == (r.t1 - r.t0) as real
  }

  /** A ping was posted no earlier than `t0` was read, and nothing but the polls of its wait came after it. */
  ghost predicate Pinged(steps: seq<Step>, stamps: seq<nat>, r: Round, to: nat) {
    && r.post < to <= |steps| == |stamps|
    && steps[r.post].PostPing? && r.t0 <= stamps[r.post]
    && WaitedIn(Client, steps, stamps, r.post + 1, to, r.began, IDLE_TIMEOUT, r.t1)
  }

  /** The wait of a side, begun at `began`, ran out. */
  ghost predicate GaveUp(p: Port, side: Side, began: nat) {
    && p.deadline == began + IDLE_TIMEOUT && InOrder(began, p.polls)
    && Wait(Wanted(side), p.deadline, p.polls).TimedOut?
  }

  /** Nobody gives up within two seconds. */
  lemma GivingUpTakesTime(p: Port, side: Side, began: nat)
    requires GaveUp(p, side, began)
    ensures exists i :: 0 <= i < |p.polls| && p.polls[i].Reaped? && p.polls[i].now >= began + 2 * 1_000_000_000
  {
    var outcome := Wait(Wanted(side), p.deadline, p.polls);
    hide Wait;
    OutcomeDeclared(Wanted(side), p.deadline, p.polls, outcome);
    var i :| 0 <= i < |p.polls| && EndsAt(Wanted(side), p.deadline, p.polls, i, outcome);
  }

  /** `t1` was read once that wait was over and before the sample was taken. */
  ghost predicate Timed(steps: seq<Step>, stamps: seq<nat>, r: Round) {
    && r.take < |steps| == |stamps|
    && Pinged(steps, stamps, r, r.take)
    && steps[r.take].TakeSample? && r.began < r.t1 <= stamps[r.take]
  }

  /** All the client does from step `from` up to step `to` is post its receive again. */
  ghost predicate OnlyReposts(steps: seq<Step>, from: nat, to: nat) {
    from <= to <= |steps| && forall k :: from <= k < to && ClientCpu(steps[k]) ==> steps[k].RepostEchoBuffer?
  }

  /** Where the round after `rounds` begins. */
  function NextFrom(from: nat, rounds: seq<Round>): nat {
    if rounds == [] then from else rounds[|rounds| - 1].take + 1
  }

  /** From step `from` on the client made these round trips, one after the other. */
  ghost predicate InTurn(steps: seq<Step>, stamps: seq<nat>, from: nat, rounds: seq<Round>) {
    forall i :: 0 <= i < |rounds|
      ==> && Timed(steps, stamps, rounds[i]) && OnlyReposts(steps, NextFrom(from, rounds[..i]), rounds[i].post)
          && (i > 0 ==> rounds[i - 1].t1 < rounds[i].t0)
  }

  /** The server's wait for ping number `i` is the first, or follows a repost. */
  ghost predicate Since(steps: seq<Step>, start: nat, from: nat, i: nat) {
    start <= from <= |steps| && if i == 0 then from == start else from > 0 && steps[from - 1].RepostPingBuffer?
  }

  lemma SinceKept(steps: seq<Step>, longer: seq<Step>, start: nat, from: nat, i: nat)
    requires steps <= longer && Since(steps, start, from, i)
    ensures Since(longer, start, from, i)
  {
  }

  lemma FirstWait(steps: seq<Step>)
    ensures Since(steps, |steps|, |steps|, 0)
  {
  }

  lemma NextWait(steps: seq<Step>, start: nat, i: nat)
    requires start < |steps| && steps[|steps| - 1] == RepostPingBuffer && i > 0
    ensures Since(steps, start, |steps|, i)
  {
  }

  /** A wait that follows `steps`. */
  lemma WaitedNow(side: Side, steps: seq<Step>, stamps: seq<nat>, longer: seq<Step>, later: seq<nat>,
                  began: nat, timeout: nat, at: nat, end: nat)
    requires steps <= longer && stamps <= later && |longer| == |later| && |steps| == |stamps|
    requires Stamped(stamps, at) && at < began
    requires OnlyPolls(side, longer, |steps|, |longer|, began + timeout, began, end)
    ensures WaitedIn(side, longer, later, |steps|, |longer|, began, timeout, end)
  {
  }

  lemma WaitedKept(side: Side, steps: seq<Step>, stamps: seq<nat>, longer: seq<Step>, later: seq<nat>,
                   from: nat, to: nat, began: nat, timeout: nat, end: nat)
    requires steps <= longer && stamps <= later && |longer| == |later|
    requires WaitedIn(side, steps, stamps, from, to, began, timeout, end)
    ensures WaitedIn(side, longer, later, from, to, began, timeout, end)
  {
  }

  lemma PingedKept(steps: seq<Step>, stamps: seq<nat>, longer: seq<Step>, later: seq<nat>, r: Round, to: nat)
    requires steps <= longer && stamps <= later && |longer| == |later|
    requires Pinged(steps, stamps, r, to)
    ensures Pinged(longer, later, r, to)
  {
  }

  lemma TimedKept(
    steps: seq<Step>, stamps: seq<nat>, longer: seq<Step>, later: seq<nat>, r: Round)
    requires steps <= longer && stamps <= later && |longer| == |later|
    requires Timed(steps, stamps, r)
    ensures Timed(longer, later, r)
  {
    hide Pinged;
    PingedKept(steps, stamps, longer, later, r, r.take);
  }

  /** A ping posted after `steps`, followed by its wait, which is over before `end`. */
  lemma PingedNow(steps: seq<Step>, stamps: seq<nat>, longer: seq<Step>, later: seq<nat>, r: Round, end: nat)
    requires |steps| == |stamps| == r.post && steps + [PostPing] <= longer && stamps + [r.t0] <= later
    requires |longer| == |later| && r.t0 < r.began && end <= r.t1
    requires OnlyPolls(Client, longer, r.post + 1, |longer|, r.began + IDLE_TIMEOUT, r.began, end)
    ensures Pinged(longer, later, r, |longer|)
  {
    assert longer[r.post] == (steps + [PostPing])[r.post];
    assert later[r.post] == (stamps + [r.t0])[r.post];
  }

  lemma PingedUntil(steps: seq<Step>, stamps: seq<nat>, r: Round, t1: nat, to: nat)
    requires Pinged(steps, stamps, r, to) && r.t1 <= t1
    ensures Pinged(steps, stamps, r.(t1 := t1, take := to), to)
  {
  }

  lemma TimedNow(steps: seq<Step>, stamps: seq<nat>, r: Round, at: nat)
    requires Pinged(steps, stamps, r, |steps|) && r.take == |steps| && r.began < r.t1 <= at
    ensures Timed(steps + [TakeSample], stamps + [at], r)
  {
    hide Pinged;
    assert |steps| == |stamps| by {
      PingedLengths(steps, stamps, r, |steps|);
    }
    PingedKept(steps, stamps, steps + [TakeSample], stamps + [at], r, |steps|);
  }

  lemma PingedLengths(steps: seq<Step>, stamps: seq<nat>, r: Round, to: nat)
    requires Pinged(steps, stamps, r, to)
    ensures |steps| == |stamps|
  {
  }

  lemma RepostedNow(steps: seq<Step>, from: nat)
    requires from <= |steps| && forall k :: from <= k < |steps| ==> !CpuOf(Client, steps[k])
    ensures OnlyReposts(steps + [RepostEchoBuffer], from, |steps| + 1)
  {
  }

  lemma InTurnKept(
    steps: seq<Step>, stamps: seq<nat>, longer: seq<Step>, later: seq<nat>, from: nat, rounds: seq<Round>)
    requires steps <= longer && stamps <= later && |longer| == |later|
    requires InTurn(steps, stamps, from, rounds)
    ensures InTurn(longer, later, from, rounds)
  {
    hide Timed;
    forall i | 0 <= i < |rounds|
      ensures Timed(longer, later, rounds[i])
    {
      TimedKept(steps, stamps, longer, later, rounds[i]);
    }
  }

  lemma InTurnNext(steps: seq<Step>, stamps: seq<nat>, from: nat, rounds: seq<Round>, r: Round)
    requires InTurn(steps, stamps, from, rounds) && Timed(steps, stamps, r)
    requires OnlyReposts(steps, NextFrom(from, rounds), r.post)
    requires rounds != [] ==> rounds[|rounds| - 1].t1 < r.t0
    ensures InTurn(steps, stamps, from, rounds + [r])
  {
    hide Timed, OnlyReposts, NextFrom;
    var longer := rounds + [r];
    assert longer[..|rounds|] == rounds;
    forall i | 0 <= i < |rounds|
      ensures longer[i] == rounds[i] && longer[..i] == rounds[..i]
    {
    }
  }

  lemma NoRounds(steps: seq<Step>, stamps: seq<nat>, from: nat)
    requires from == |steps|
    ensures InTurn(steps, stamps, from, []) && OnlyReposts(steps, NextFrom(from, []), |steps|)
  {
  }

  lemma RepostsKept(steps: seq<Step>, longer: seq<Step>, from: nat, to: nat)
    requires steps <= longer && OnlyReposts(steps, from, to)
    ensures OnlyReposts(longer, from, to)
  {
  }
}
