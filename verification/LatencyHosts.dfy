/** The loops of the latency benchmark: the bounded wait, and the two sides of the exchange. */
module LatencyHosts {
  import opened Wrappers
  import opened Machine
  import opened BoundedWait
  import opened PingPong
  import opened RoundTrips
  import opened LatencyTiming

  const WR_SEND: bv64 := 1
  const WR_RECV: bv64 := 2

  datatype WaitError = RanOut | PollFailed

  function IdOf(x: Wr): bv64 {
    if x.SendWr? then WR_SEND else WR_RECV
  }

  /** The bitmask of a set of work requests. */
  function MaskOf(s: set<Wr>): bv64 {
    (if SendWr in s then WR_SEND else 0) | (if RecvWr in s then WR_RECV else 0)
  }

  lemma MaskClears(s: set<Wr>, x: Wr)
    ensures MaskOf(s) & !IdOf(x) == MaskOf(s - {x})
  {
  }

  lemma MaskZero(s: set<Wr>)
    ensures MaskOf(s) == 0 <==> s == {}
  {
    if SendWr !in s && RecvWr !in s {
      PendingIsEmpty(s);
    }
  }

  predicate SameWait(p: Port, q: Port) {
    p.pending == q.pending && p.deadline == q.deadline && p.polls == q.polls && p.expired == q.expired
  }

  /** A wait that has not polled yet. */
  predicate Fresh(p: Port, side: Side) {
    p.pending == Wanted(side) && p.polls == [] && !p.expired
  }

  /** The NICs and the network change no phase, no counter and no wait. */
  lemma NicLeaves(n: nat, v: World, step: Step)
    requires Apply(n, v, step).Some? && !ClientCpu(step) && !ServerCpu(step)
    ensures var u := Apply(n, v, step).value;
            && u.ping == v.ping && u.sent == v.sent && u.samples == v.samples && SameWait(u.client, v.client)
            && u.pong == v.pong && u.reaped == v.reaped && u.echoed == v.echoed && SameWait(u.server, v.server)
  {
    hide SetOf, Polled, Begin, Done, Over;
  }

  lemma ServerLeavesClient(n: nat, v: World, step: Step)
    requires Apply(n, v, step).Some? && ServerCpu(step)
    ensures var u := Apply(n, v, step).value;
            u.ping == v.ping && u.sent == v.sent && u.samples == v.samples && u.client == v.client
  {
    hide SetOf, Polled, Begin, Done, Over;
  }

  lemma ClientLeavesServer(n: nat, v: World, step: Step)
    requires Apply(n, v, step).Some? && ClientCpu(step)
    ensures var u := Apply(n, v, step).value;
            u.pong == v.pong && u.reaped == v.reaped && u.echoed == v.echoed && u.server == v.server
  {
    hide SetOf, Polled, Begin, Done, Over;
  }

  lemma LeavesClient(n: nat, v: World, step: Step)
    requires Apply(n, v, step).Some? && !ClientCpu(step)
    ensures var u := Apply(n, v, step).value;
            u.ping == v.ping && u.sent == v.sent && u.samples == v.samples && SameWait(u.client, v.client)
  {
    hide Apply;
    if ServerCpu(step) {
      ServerLeavesClient(n, v, step);
    } else {
      NicLeaves(n, v, step);
    }
  }

  lemma LeavesServer(n: nat, v: World, step: Step)
    requires Apply(n, v, step).Some? && !ServerCpu(step)
    ensures var u := Apply(n, v, step).value;
            u.pong == v.pong && u.reaped == v.reaped && u.echoed == v.echoed && SameWait(u.server, v.server)
  {
    hide Apply;
    if ClientCpu(step) {
      ClientLeavesServer(n, v, step);
    } else {
      NicLeaves(n, v, step);
    }
  }

  /** Clears the bits of the completions in `ids`. */
  method ClearBits(mask: bv64, ids: seq<Wr>, ghost missing: set<Wr>) returns (left: bv64)
    requires mask == MaskOf(missing)
    ensures left == MaskOf(missing - SetOf(ids))
  {
    hide MaskOf, IdOf;
    left := mask;
    assert missing - SetOf(ids[..0]) == missing;
    for k := 0 to |ids|
      invariant left == MaskOf(missing - SetOf(ids[..k]))
    {
      MaskClears(missing - SetOf(ids[..k]), ids[k]);
      assert missing - SetOf(ids[..k + 1]) == missing - SetOf(ids[..k]) - {ids[k]};
      left := left & !IdOf(ids[k]);
    }
    assert ids[..|ids|] == ids;
  }

  lemma SameOutcome(p: Port, q: Port)
    requires SameWait(p, q)
    ensures OutcomeOf(p) == OutcomeOf(q)
  {
  }

  /** One side of the exchange, with the rest of the world going on around it. */
  class Host {
    const n: nat
    const side: Side
    ghost const start: World
    /** Which of this side's polls fail, by the number of those before that did not. */
    const fails: nat -> bool
    var w: World
    var clock: nat
    /** Every step taken so far, by anyone, and what the clock last showed before it. */
    var steps: seq<Step>
    ghost var stamps: seq<nat>

    ghost predicate Valid()
      reads this`w, this`steps, this`stamps, this`clock
    {
      && Init(n, start) && Exec(n, start, steps) == Some(w)
      && |stamps| == |steps| && Stamped(stamps, clock)
      && NoneFailed(side, steps, fails)
    }

    constructor (n: nat, side: Side, fails: nat -> bool, w: World)
      requires Init(n, w)
      ensures Valid() && this.n == n && this.side == side && this.fails == fails && this.w == w
    {
      this.fails := fails;
      this.n := n;
      this.side := side;
      this.start := w;
      this.w := w;
      clock := 0;
      steps := [];
      stamps := [];
    }

    /** Reads the clock. */
    method Now() returns (t: nat)
      requires Valid()
      modifies this`clock
      ensures Valid() && t == clock > old(clock)
    {
      hide Exec, Init, NoneFailed;
      clock := Later(clock);
      t := clock;
    }

    /** What only this side's CPU changes, but for the progress of its current wait. */
    predicate SameCpu(v: World)
      reads this`w
    {
      if side.Client?
      then v.ping == w.ping && v.sent == w.sent && v.samples == w.samples
      else v.pong == w.pong && v.reaped == w.reaped && v.echoed == w.echoed
    }

    /** Takes one step. */
    method Do(step: Step)
      requires Valid() && Apply(n, w, step).Some?
      requires step.Reap? && step.side == side ==> !fails(PollsOf(side, steps))
      modifies this`w, this`steps, this`stamps
      ensures Valid() && Some(w) == Apply(n, old(w), step)
      ensures steps == old(steps) + [step] && stamps == old(stamps) + [clock]
    {
      hide Apply, Init, PollsOf;
      ExecAppend(n, start, steps, step);
      PollsAppend(side, steps, step);
      w := Apply(n, w, step).value;
      steps := steps + [step];
      stamps := stamps + [clock];
    }

    lemma ForeignStep(v: World, step: Step)
      requires Apply(n, v, step).Some? && !CpuOf(side, step) && SameCpu(v)
      ensures SameCpu(Apply(n, v, step).value)
      ensures SameWait(PortOf(Apply(n, v, step).value, side), PortOf(v, side))
    {
      hide Apply;
      if side.Client? {
        LeavesClient(n, v, step);
      } else {
        LeavesServer(n, v, step);
      }
    }

    /** The steps from number `from` on are not this side's. */
    ghost predicate Foreign(from: nat)
      reads this`steps
    {
      forall k :: from <= k < |steps| ==> !CpuOf(side, steps[k])
    }

    /** The NICs, the network and the peer take any number of steps. */
    method OthersRun()
      requires Valid()
      modifies this`w, this`steps, this`stamps
      ensures Valid() && old(steps) <= steps && old(stamps) <= stamps
      ensures SameCpu(old(w)) && SameWait(PortOf(w, side), PortOf(old(w), side))
      ensures Foreign(|old(steps)|) && PollsOf(side, steps) == PollsOf(side, old(steps))
    {
      hide Apply, Exec, Init, PollsOf, NoneFailed;
      var count: nat := *;
      while count > 0
        invariant Valid() && old(steps) <= steps && old(stamps) <= stamps
        invariant SameCpu(old(w)) && SameWait(PortOf(w, side), PortOf(old(w), side))
        invariant Foreign(|old(steps)|) && PollsOf(side, steps) == PollsOf(side, old(steps))
      {
        var step: Step := *;
        if !CpuOf(side, step) && Apply(n, w, step).Some? {
          ForeignStep(w, step);
          PollsForeign(side, steps, step);
          Do(step);
        }
        count := count - 1;
      }
    }

    /** Reaps up to two completions of this side's queue; a clock read afterwards shows `clock`. */
    method PollQueue(deadline: nat) returns (r: Result<seq<Wr>, WaitError>)
      requires Valid() && Waits(w, side) && !Over(PortOf(w, side))
      requires PortOf(w, side).polls == [] || PortOf(w, side).deadline == deadline
      modifies this`w, this`steps, this`stamps, this`clock
      ensures Valid() && old(steps) <= steps && old(stamps) <= stamps && clock > old(clock)
      ensures SameCpu(old(w)) && OnlyPolls(side, steps, |old(steps)|, |steps|, deadline, old(clock), clock + 1)
      ensures r.Err? <==> fails(PollsOf(side, old(steps)))
      ensures var p, q := PortOf(old(w), side), PortOf(w, side);
              && (r.Ok? ==>
                    && q.pending == p.pending - SetOf(r.value) && q.deadline == deadline
                    && q.polls == p.polls + [Reaped(r.value, clock)]
                    && (q.expired <==> |p.polls| % CHECK_TIMEOUT_ITER == 0 && clock >= deadline)
                    && (OutcomeOf(p) == Wait(Wanted(side), p.deadline, p.polls)
                        ==> OutcomeOf(q) == Wait(Wanted(side), deadline, q.polls)))
              && (r.Err? ==> SameWait(q, p) && r.error == PollFailed && fails(PollsOf(side, steps)))
    {
      hide Apply, Wait, OutcomeOf, Exec, Init, NoneFailed, PollsOf, Stamped, SetOf;
      OthersRun();
      SameOutcome(PortOf(old(w), side), PortOf(w, side));
      var now := Now();
      if fails(PollsOf(side, steps)) {
        return Err(PollFailed);
      }
      var p := PortOf(w, side);
      var k: nat := *;
      if !(0 <= k <= Min(2, |p.cq|)) {
        k := 0;
      }
      if OutcomeOf(p) == Wait(Wanted(side), p.deadline, p.polls) {
        PollIsFaithful(p, side, k, deadline, clock);
      }
      ReapEnabled(n, w, side, k, deadline, clock);
      Do(Reap(side, k, deadline, clock));
      return Ok(p.cq[..k]);
    }

    /**
     * Polls until every request in `want` has completed, or gives up some time after the deadline. The
     * result is that of the bounded wait on the polls made, whose deadline is `timeout` after `began`.
     */
    method WaitFor(want: bv64, timeout: nat)
      returns (r: Result<bv64, WaitError>, ghost began: nat, ghost polls: seq<Poll>)
      requires Valid() && Waits(w, side) && want == MaskOf(Wanted(side))
      requires Fresh(PortOf(w, side), side)
      modifies this`w, this`steps, this`stamps, this`clock
      ensures Valid() && old(steps) <= steps && old(stamps) <= stamps && SameCpu(old(w))
      ensures OnlyPolls(side, steps, |old(steps)|, |steps|, began + timeout, began, clock + 1)
      ensures old(clock) < began <= clock && InOrder(began, polls)
      ensures r == match Wait(Wanted(side), began + timeout, polls)
                   case Satisfied => Ok(0)
                   case TimedOut(_) => Err(RanOut)
                   case Failed => Err(PollFailed)
                   case Waiting(missing) => Ok(MaskOf(missing))
      ensures !Wait(Wanted(side), began + timeout, polls).Waiting?
      ensures r == Err(PollFailed) ==> fails(PollsOf(side, steps))
      ensures var p := PortOf(w, side);
              && (r.Ok? ==> Done(p)) && (r == Err(RanOut) ==> p.expired) && (r == Err(PollFailed) ==> !Over(p))
              && (!(r == Err(PollFailed)) ==> p.polls == polls && p.deadline == began + timeout)
    {
      hide Apply, Exec, Init, Wait, SetOf, InOrder, UpTo, PollsOf, NoneFailed, Stamped, OnlyPolls, MaskOf;
      var now := Now();
      began := now;
      var deadline := now + timeout;
      var pending := want;
      var i: nat := 0;
      WaitBegins(side, deadline);
      DeadlineOpen(Wanted(side), deadline, PortOf(w, side).deadline);
      MaskZero(PortOf(w, side).pending);
      polls := [];
      NoPollsYet(began);
      NoPolls(side, steps, deadline, began, clock + 1);
      while pending != 0
        invariant Valid() && old(steps) <= steps && old(stamps) <= stamps && SameCpu(old(w))
        invariant OnlyPolls(side, steps, |old(steps)|, |steps|, deadline, began, clock + 1)
        invariant pending == MaskOf(PortOf(w, side).pending)
        invariant pending == 0 <==> PortOf(w, side).pending == {}
        invariant polls == PortOf(w, side).polls && |polls| == i && !PortOf(w, side).expired
        invariant polls == [] ==> pending != 0
        invariant polls != [] ==> PortOf(w, side).deadline == deadline
        invariant OutcomeOf(PortOf(w, side)) == Wait(Wanted(side), PortOf(w, side).deadline, polls)
        invariant began <= clock && InOrder(began, polls) && UpTo(polls, clock)
        decreases if clock < deadline then deadline - clock else 0,
                  if i % CHECK_TIMEOUT_ITER == 0 then 0 else CHECK_TIMEOUT_ITER - i % CHECK_TIMEOUT_ITER
      {
        ghost var missing := PortOf(w, side).pending;
        DeadlineOpen(Wanted(side), deadline, PortOf(w, side).deadline);
        ghost var before, done := clock, steps;
        var polled := PollQueue(deadline);
        PollsJoined(side, done, steps, |old(steps)|, deadline, began, before, clock + 1);
        if polled.Err? {
          WaitAppend(Wanted(side), deadline, polls, Poll.Broken);
          OrderKept(began, polls, before, Poll.Broken);
          polls := polls + [Poll.Broken];
          return Err(polled.error), began, polls;
        }
        pending := ClearBits(pending, polled.value, missing);
        MaskZero(PortOf(w, side).pending);
        OrderKept(began, polls, before, Reaped(polled.value, clock));
        polls := PortOf(w, side).polls;
        if i % CHECK_TIMEOUT_ITER == 0 {
          if clock >= deadline {
            return Err(RanOut), began, polls;
          }
        }
        i := i + 1;
      }
      return Ok(pending), began, polls;
    }

    /** The first half of a turn of the client's loop: reads the clock, posts a ping and waits for both completions. */
    method PostAndWait() returns (waited: Result<bv64, WaitError>, t0: nat, ghost round: Round)
      requires Valid() && side.Client? && w.ping.ToSend?
      modifies this`w, this`steps, this`stamps, this`clock
      ensures Valid() && old(steps) <= steps && old(stamps) <= stamps
      ensures w.ping.AwaitEcho? && w.samples == old(w).samples
      ensures old(clock) < t0 == round.t0 <= clock && round.post == |old(steps)|
      ensures round.began < round.t1 == clock + 1 && Pinged(steps, stamps, round, |steps|)
      ensures match waited
              case Ok(_) => Done(w.client)
              case Err(RanOut) => w.client.expired && GaveUp(w.client, Client, round.began)
              case Err(PollFailed) => fails(PollsOf(side, steps))
    {
      hide Apply, Exec, Init, Wait, SetOf, PollsOf, NoneFailed, InOrder, OnlyPolls, Pinged, Stamped;
      t0 := Now();
      ghost var before, stamped := steps, stamps;
      PostPingEnabled(n, w);
      Do(PostPing);
      ghost var began, polls;
      waited, began, polls := WaitFor(WR_SEND | WR_RECV, IDLE_TIMEOUT);
      round := Round(t0, |before|, began, clock + 1, |steps|);
      PingedNow(before, stamped, steps, stamps, round, clock + 1);
    }

    /**
     * One turn of the client's loop: reads the clock, posts a ping, waits for both completions, takes a sample and
     * posts the receive again. A wait that times out, or a poll that fails, ends it.
     */
    method RoundTrip() returns (r: Result<real, WaitError>, ghost round: Round)
      requires Valid() && side.Client? && w.ping.ToSend?
      modifies this`w, this`steps, this`stamps, this`clock
      ensures Valid() && old(steps) <= steps && old(stamps) <= stamps
      ensures round.post == |old(steps)| && old(clock) < round.t0 <= clock
      ensures match r
              case Ok(sample) =>
                && Timed(steps, stamps, round) && round.t1 <= clock && Measures(sample, round)
                && |w.samples| == |old(w).samples| + 1
                && (if |w.samples| < n then w.ping.ToSend? else w.ping.PingDone?)
                && OnlyReposts(steps, round.take + 1, |steps|)
              case Err(RanOut) =>
                && w.ping.PingTimedOut? && w.samples == old(w).samples
                && Pinged(steps, stamps, round, |steps| - 1) && GaveUp(w.client, Client, round.began)
              case Err(PollFailed) =>
                && w.samples == old(w).samples && Pinged(steps, stamps, round, |steps|)
                && fails(PollsOf(side, steps))
    {
      hide Apply, Exec, Init, SetOf, PollsOf, NoneFailed, Pinged, Timed, OnlyReposts, Stamped, GaveUp;
      var waited, t0, tried := PostAndWait();
      round := tried;
      ghost var over, late := steps, stamps;
      match waited {
        case Err(RanOut) =>
          PingTimeoutEnabled(n, w);
          Do(PingTimeout);
          PingedKept(over, late, steps, stamps, round, |over|);
          return Err(RanOut), round;
        case Err(PollFailed) =>
          return Err(PollFailed), round;
        case Ok(_) =>
      }
      var t1 := Now();
      round := tried.(t1 := t1, take := |steps|);
      PingedUntil(steps, stamps, tried, t1, |steps|);
      TimedNow(steps, stamps, round, clock);
      TakeSampleEnabled(n, w);
      Do(TakeSample);
      ghost var sampled, at := steps, stamps;
      OthersRun();
      RepostEnabled(n, w);
      RepostedNow(steps, |sampled|);
      Do(RepostEchoBuffer);
      TimedKept(sampled, at, steps, stamps, round);
      return Ok((t1 - t0) as real / 2000.0), round;
    }

    /**
     * The client: makes round trips until all are done, one wait times out or a poll fails. Each sample is half
     * the time between two readings of the clock, one before the ping was posted and one after its wait; giving
     * up takes a wait begun after the post that ran out `IDLE_TIMEOUT` after it began.
     */
    method Ping() returns (r: Result<seq<real>, WaitError>, ghost rounds: seq<Round>, ghost last: Round)
      requires Valid() && side.Client? && w.ping.ToSend? && w.sent == 0 && w.samples == []
      modifies this`w, this`steps, this`stamps, this`clock
      ensures Valid() && old(steps) <= steps
      ensures InTurn(steps, stamps, |old(steps)|, rounds) && |rounds| == |w.samples|
      ensures rounds != [] ==> rounds[0].t0 > old(clock) && rounds[|rounds| - 1].t1 <= clock
      ensures r.Ok? ==> |r.value| == |rounds| && if |rounds| == n then w.ping.PingDone? else w.ping.PingTimedOut?
      ensures r.Ok? ==> forall i :: 0 <= i < |rounds| ==> Measures(r.value[i], rounds[i])
      ensures r.Err? || |rounds| < n ==> OnlyReposts(steps, NextFrom(|old(steps)|, rounds), last.post)
      ensures r.Ok? && |rounds| < n
              ==> Pinged(steps, stamps, last, |steps| - 1) && GaveUp(w.client, Client, last.began)
      ensures r.Err? ==> r.error == PollFailed && Pinged(steps, stamps, last, |steps|)
      ensures r.Err? ==> fails(PollsOf(side, steps))
      ensures forall i :: 0 <= i < |w.samples| ==> w.samples[i] == i
    {
      hide Apply, Exec, Init, SetOf, PollsOf, NoneFailed, Timed, Pinged, InTurn, GaveUp, OnlyReposts;
      var samples: seq<real> := [];
      ghost var from := |steps|;
      rounds := [];
      last := Round(0, 0, 0, 0, 0);
      Facts();
      NoRounds(steps, stamps, from);
      for i := 0 to n
        invariant Valid() && old(steps) <= steps
        invariant |samples| == i == |w.samples| == |rounds|
        invariant if i < n then w.ping.ToSend? else w.ping.PingDone?
        invariant InTurn(steps, stamps, from, rounds) && OnlyReposts(steps, NextFrom(from, rounds), |steps|)
        invariant rounds != [] ==> rounds[0].t0 > old(clock) && rounds[i - 1].t1 <= clock
        invariant old(clock) <= clock
        invariant forall k :: 0 <= k < i ==> Measures(samples[k], rounds[k])
      {
        ghost var before, stamped := steps, stamps;
        var trip;
        trip, last := RoundTrip();
        RepostsKept(before, steps, NextFrom(from, rounds), |before|);
        InTurnKept(before, stamped, steps, stamps, from, rounds);
        match trip {
          case Err(RanOut) =>
            Facts();
            return Ok(samples), rounds, last;
          case Err(PollFailed) =>
            Facts();
            return Err(PollFailed), rounds, last;
          case Ok(sample) =>
            samples := samples + [sample];
        }
        InTurnNext(steps, stamps, from, rounds, last);
        rounds := rounds + [last];
      }
      Facts();
      return Ok(samples), rounds, last;
    }

    /** The rest of a turn of the server's loop: it takes the ping, posts the echo and its receive again. */
    method Echo()
      requires Valid() && side.Server? && w.pong.AwaitPing? && Done(w.server)
      modifies this`w, this`steps, this`stamps
      ensures Valid() && old(steps) < steps && steps[|steps| - 1] == RepostPingBuffer
      ensures w.echoed == old(w).echoed + 1
      ensures if w.echoed < n then w.pong.AwaitPing? && Fresh(w.server, Server) else w.pong.PongDone?
    {
      hide Apply, Exec, Init, SetOf, PollsOf, NoneFailed, Stamped;
      TakePingEnabled(n, w);
      Do(TakePing);
      OthersRun();
      PostEchoEnabled(n, w);
      Do(PostEcho);
      OthersRun();
      RepostPingEnabled(n, w);
      Do(RepostPingBuffer);
    }

    /**
     * The server: echoes every ping it receives and reposts its receive, giving up at the first wait that
     * fails. Giving up takes a failed poll or a wait, the first or begun after the last repost, that ran out
     * `IDLE_TIMEOUT` after it began.
     */
    method Pong() returns (echoed: nat, ghost from: nat, ghost began: nat)
      requires Valid() && side.Server? && w.pong.AwaitPing? && w.echoed == 0 && Fresh(w.server, Server)
      modifies this`w, this`steps, this`stamps, this`clock
      ensures Valid() && old(steps) <= steps
      ensures echoed == w.echoed <= n
      ensures if echoed == n then w.pong.PongDone? else w.pong.PongGaveUp?
      ensures echoed < n ==> GaveUp(w.server, Server, began) || fails(PollsOf(Server, steps))
      ensures echoed < n ==> began > old(clock) && Since(steps, |old(steps)|, from, echoed)
      ensures echoed < n ==> WaitedIn(Server, steps, stamps, from, |steps| - 1, began, IDLE_TIMEOUT, clock + 1)
    {
      hide Apply, Exec, Init, Wait, SetOf, PollsOf, NoneFailed, InOrder, Stamped, OnlyPolls, WaitedIn, Since;
      echoed := 0;
      from, began := |steps|, 0;
      Facts();
      FirstWait(steps);
      for i := 0 to n
        invariant Valid() && old(steps) <= steps && clock >= old(clock)
        invariant echoed == i == w.echoed
        invariant if i < n then w.pong.AwaitPing? && Fresh(w.server, Server) else w.pong.PongDone?
        invariant from == |steps| && Since(steps, |old(steps)|, from, i)
      {
        ghost var before, stamped, at := steps, stamps, clock;
        var waited, since, polls := WaitFor(WR_RECV, IDLE_TIMEOUT);
        began := since;
        if waited.Err? {
          WaitedNow(Server, before, stamped, steps, stamps, began, IDLE_TIMEOUT, at, clock + 1);
          var broken := waited.error == PollFailed;
          PongGivesUpEnabled(n, w, broken);
          PollsAppend(Server, steps, PongGivesUp(broken));
          ghost var over, last := steps, stamps;
          Do(PongGivesUp(broken));
          SinceKept(before, steps, |old(steps)|, from, i);
          WaitedKept(Server, over, last, steps, stamps, from, |over|, began, IDLE_TIMEOUT, clock + 1);
          return;
        }
        Echo();
        echoed := echoed + 1;
        from := |steps|;
        NextWait(steps, |old(steps)|, i + 1);
      }
    }

    /** What every reachable state guarantees. */
    lemma Facts()
      requires Valid()
      ensures Inv(n, w) && n > 0
      ensures forall i :: 0 <= i < |w.samples| ==> w.samples[i] == i
      ensures w.ping.PingDone? ==> |w.samples| == n
      ensures w.ping.PingTimedOut? ==> |w.samples| < n
      ensures w.pong.PongDone? ==> w.echoed == n
      ensures w.pong.PongGaveUp? ==> w.echoed < n
    {
      ExecInv(n, start, steps);
    }
  }

  lemma ReapEnabled(n: nat, w: World, side: Side, k: nat, deadline: nat, now: nat)
    requires var p := PortOf(w, side);
             Waits(w, side) && !Over(p) && k <= Min(2, |p.cq|) && (p.polls == [] || deadline == p.deadline)
    ensures Apply(n, w, Reap(side, k, deadline, now))
            == Some(WithPort(w, side, Polled(PortOf(w, side), k, deadline, now)))
  {
  }

  lemma PostPingEnabled(n: nat, w: World)
    requires w.ping.ToSend?
    ensures var w' := Apply(n, w, PostPing);
            && w'.Some? && w'.value.ping.AwaitEcho? && w'.value.samples == w.samples
            && Fresh(w'.value.client, Client) && MaskOf(Wanted(Client)) == WR_SEND | WR_RECV
  {
  }

  lemma PingTimeoutEnabled(n: nat, w: World)
    requires w.ping.AwaitEcho? && w.client.expired
    ensures var w' := Apply(n, w, PingTimeout);
            && w'.Some? && w'.value.ping.PingTimedOut? && w'.value.samples == w.samples
            && w'.value.client == w.client
  {
  }

  lemma TakeSampleEnabled(n: nat, w: World)
    requires w.ping.AwaitEcho? && Done(w.client)
    ensures var w' := Apply(n, w, TakeSample);
            w'.Some? && w'.value.ping.Sampled? && |w'.value.samples| == |w.samples| + 1
  {
  }

  lemma RepostEnabled(n: nat, w: World)
    requires w.ping.Sampled?
    ensures var w' := Apply(n, w, RepostEchoBuffer);
            && w'.Some? && w'.value.samples == w.samples
            && (if |w.samples| < n then w'.value.ping.ToSend? else w'.value.ping.PingDone?)
  {
  }

  lemma PongGivesUpEnabled(n: nat, w: World, broken: bool)
    requires w.pong.AwaitPing? && if broken then !Over(w.server) else w.server.expired
    ensures var w' := Apply(n, w, PongGivesUp(broken));
            && w'.Some? && w'.value.pong.PongGaveUp? && w'.value.echoed == w.echoed
            && w'.value.server == w.server
  {
  }

  lemma TakePingEnabled(n: nat, w: World)
    requires w.pong.AwaitPing? && Done(w.server)
    ensures var w' := Apply(n, w, TakePing);
            w'.Some? && w'.value.pong.ToEcho? && w'.value.echoed == w.echoed
  {
  }

  lemma PostEchoEnabled(n: nat, w: World)
    requires w.pong.ToEcho?
    ensures var w' := Apply(n, w, PostEcho);
            w'.Some? && w'.value.pong.ToRepost? && w'.value.echoed == w.echoed + 1
  {
  }

  lemma RepostPingEnabled(n: nat, w: World)
    requires w.pong.ToRepost?
    ensures var w' := Apply(n, w, RepostPingBuffer);
            && w'.Some? && w'.value.echoed == w.echoed
            && (if w.echoed < n then w'.value.pong.AwaitPing? && Fresh(w'.value.server, Server)
                else w'.value.pong.PongDone?)
  {
  }
}
