/**
 * Round trips of the ping-pong exchange that are complete and yet contribute no sample, and the sends that
 * `pong` leaves behind.
 */
module RoundTrips {
  import opened Wrappers
  import opened BoundedWait
  import opened PingPong

  // ----- The waits of the exchange are bounded waits -----

  function OutcomeOf(p: Port): Outcome {
    if p.expired then TimedOut(p.pending) else if p.pending == {} then Satisfied else Waiting(p.pending)
  }

  ghost predicate Faithful(w: World, side: Side) {
    var p := PortOf(w, side);
    Waits(w, side) ==> Wait(Wanted(side), p.deadline, p.polls) == OutcomeOf(p)
  }

  lemma WaitBegins(side: Side, deadline: nat)
    ensures Wait(Wanted(side), deadline, []) == Waiting(Wanted(side))
  {
  }

  /** Before the first poll the deadline is open. */
  lemma DeadlineOpen(want: set<Wr>, d: nat, e: nat)
    ensures Wait(want, d, []) == Wait(want, e, [])
  {
  }

  lemma PollIsFaithful(p: Port, side: Side, k: nat, deadline: nat, now: nat)
    requires k <= |p.cq| && !Over(p) && (p.polls == [] || deadline == p.deadline)
    requires Wait(Wanted(side), p.deadline, p.polls) == OutcomeOf(p)
    ensures var q := Polled(p, k, deadline, now); Wait(Wanted(side), q.deadline, q.polls) == OutcomeOf(q)
  {
    hide SetOf, Wait;
    DeadlineOpen(Wanted(side), p.deadline, deadline);
    WaitAppend(Wanted(side), deadline, p.polls, Reaped(p.cq[..k], now));
  }

  lemma FaithfulNext(n: nat, w: World, step: Step, side: Side)
    requires Faithful(w, side) && Apply(n, w, step).Some?
    ensures Faithful(Apply(n, w, step).value, side)
  {
    var p := PortOf(w, side);
    WaitBegins(side, p.deadline);
    hide SetOf, Wait;
    if step.Reap? && step.side == side {
      PollIsFaithful(p, side, step.n, step.deadline, step.now);
    }
  }

  lemma {:induction false} ExecFaithful(n: nat, start: World, steps: seq<Step>, side: Side)
    requires Init(n, start) && Exec(n, start, steps).Some?
    ensures Faithful(Exec(n, start, steps).value, side)
  {
    if steps == [] {
      WaitBegins(side, PortOf(start, side).deadline);
    } else {
      hide Apply, Faithful;
      var init := steps[..|steps| - 1];
      ExecFaithful(n, start, init, side);
      FaithfulNext(n, Exec(n, start, init).value, steps[|steps| - 1], side);
    }
  }

  /**
   * In every reachable state of a wait of `ping`: it can time out exactly when the bounded wait has, it can
   * take a sample exactly when the bounded wait is satisfied, and it can discard a round trip that is
   * complete exactly when the poll that completed it was a late look at the clock.
   */
  lemma DiscardedExactly(n: nat, start: World, steps: seq<Step>)
    requires Init(n, start) && Exec(n, start, steps).Some? && Exec(n, start, steps).value.ping.AwaitEcho?
    ensures var w := Exec(n, start, steps).value;
            var p, want := w.client, Wanted(Client);
            && (Apply(n, w, PingTimeout).Some? <==> Wait(want, p.deadline, p.polls).TimedOut?)
            && (Apply(n, w, TakeSample).Some? <==> Wait(want, p.deadline, p.polls).Satisfied?)
            && (Apply(n, w, PingTimeout).Some? && p.pending == {}
                <==> exists i :: 0 <= i < |p.polls| && FirstCover(want, p.polls, i) && Fires(p.deadline, p.polls, i)
                                 && !BrokeBefore(p.polls, i) && !FiredBefore(p.deadline, p.polls, i))
            && (p.pending == {} ==> p.arrived == w.echoed == w.sent == |w.samples| + 1)
  {
    var w := Exec(n, start, steps).value;
    ExecFaithful(n, start, steps, Client);
    ExecInv(n, start, steps);
    SatisfiedWaitIsClean(n, start, steps);
    hide Exec, Init, Wait, Fires, FirstCover, FiredBefore, BrokeBefore;
    TimesOutSatisfied(Wanted(Client), w.client.deadline, w.client.polls);
  }

  /**
   * In every reachable state of a wait of `pong`: it can time out exactly when the bounded wait has, it can
   * take the ping exactly when the bounded wait is satisfied, and it can give up on a ping it has reaped
   * exactly when the poll that reaped it was a late look at the clock.
   */
  lemma AbandonedExactly(n: nat, start: World, steps: seq<Step>)
    requires Init(n, start) && Exec(n, start, steps).Some? && Exec(n, start, steps).value.pong.AwaitPing?
    ensures var w := Exec(n, start, steps).value;
            var p, want := w.server, Wanted(Server);
            && (Apply(n, w, PongGivesUp(false)).Some? <==> Wait(want, p.deadline, p.polls).TimedOut?)
            && (Apply(n, w, TakePing).Some? <==> Wait(want, p.deadline, p.polls).Satisfied?)
            && (Apply(n, w, PongGivesUp(false)).Some? && p.pending == {}
                <==> exists i :: 0 <= i < |p.polls| && FirstCover(want, p.polls, i) && Fires(p.deadline, p.polls, i)
                                 && !BrokeBefore(p.polls, i) && !FiredBefore(p.deadline, p.polls, i))
            && (p.pending == {} ==> p.arrived == w.sent == w.echoed + 1 && p.buffer == w.echoed)
  {
    var w := Exec(n, start, steps).value;
    ExecFaithful(n, start, steps, Server);
    ExecInv(n, start, steps);
    hide Exec, Init, Wait, Fires, FirstCover, FiredBefore, BrokeBefore;
    TimesOutSatisfied(Wanted(Server), w.server.deadline, w.server.polls);
  }

  /** Once `pong` has given up it echoes nothing more, so a ping it gave up on is never echoed. */
  lemma {:induction false} GivingUpIsFinal(n: nat, w: World, steps: seq<Step>)
    requires w.pong.PongGaveUp? && Exec(n, w, steps).Some?
    ensures var v := Exec(n, w, steps).value; v.pong.PongGaveUp? && v.echoed == w.echoed && v.reaped == w.reaped
  {
    if steps != [] {
      hide Apply;
      GivingUpIsFinal(n, w, steps[..|steps| - 1]);
      GaveUpStays(n, Exec(n, w, steps[..|steps| - 1]).value, steps[|steps| - 1]);
    }
  }

  lemma GaveUpStays(n: nat, w: World, step: Step)
    requires w.pong.PongGaveUp? && Apply(n, w, step).Some?
    ensures var v := Apply(n, w, step).value; v.pong.PongGaveUp? && v.echoed == w.echoed && v.reaped == w.reaped
  {
    hide SetOf;
  }

  // ----- Rounds -----

  /** The state between two round trips, `k` of them done, with no send of the server completed. */
  ghost predicate Rested(n: nat, k: nat, w: World) {
    && k < n && w.ping.ToSend? && w.sent == k == |w.samples| && w.client.sendsOut == 0 && w.client.recvsOut == 1
    && w.client.cq == [] && w.pong.AwaitPing? && w.reaped == w.echoed == k && w.server.sendsOut == k
    && w.server.recvsOut == 1 && w.server.cq == [] && w.server.pending == {RecvWr} && w.server.polls == []
    && !w.server.expired && w.pings == multiset{} && w.echoes == multiset{}
  }

  /** The ping of round `k` has been echoed. */
  ghost predicate Echoed(n: nat, k: nat, w: World) {
    && k < n && w.ping.AwaitEcho? && w.sent == k + 1 && |w.samples| == k && w.client.sendsOut == 1
    && w.client.recvsOut == 1 && w.client.cq == [] && w.client.pending == {SendWr, RecvWr} && w.client.polls == []
    && !w.client.expired && w.pong.ToRepost? && w.reaped == w.echoed == k + 1 && w.server.sendsOut == k + 1
    && w.server.recvsOut == 0 && w.server.cq == [] && w.pings == multiset{} && w.echoes == multiset{w.server.buffer}
  }

  /** The client has only to poll to see that round `k` is complete. */
  ghost predicate Answered(n: nat, k: nat, w: World) {
    && k < n && w.ping.AwaitEcho? && w.sent == k + 1 && |w.samples| == k && w.client.sendsOut == 0
    && w.client.recvsOut == 0 && w.client.cq == [RecvWr, SendWr] && w.client.pending == {SendWr, RecvWr}
    && w.client.polls == [] && !w.client.expired && w.reaped == w.echoed == k + 1 && w.server.sendsOut == k + 1
    && (k + 1 < n ==> w.pong.AwaitPing? && w.server.pending == {RecvWr} && w.server.polls == [] && !w.server.expired)
    && w.server.recvsOut == 1 && w.server.cq == [] && w.pings == multiset{} && w.echoes == multiset{}
  }

  lemma ReapsOne(p: Port)
    requires p.cq == [RecvWr] && p.pending == {RecvWr}
    ensures var q := Polled(p, 1, 1, 0); q.pending == {} && q.cq == [] && !q.expired
  {
    assert p.cq[..1] == [RecvWr] && SetOf([RecvWr]) == {RecvWr};
  }

  lemma PingEchoed(n: nat, start: World, steps: seq<Step>, w: World, k: nat) returns (w': World, longer: seq<Step>)
    requires Exec(n, start, steps) == Some(w) && Rested(n, k, w)
    ensures Exec(n, start, longer) == Some(w') && Echoed(n, k, w')
  {
    hide Exec;
    assert multiset{} + multiset{k} == multiset{k} && multiset{k} - multiset{k} == multiset{};
    w', longer := NextState(n, start, steps, w, PostPing);
    w', longer := NextState(n, start, longer, w', DeliverPing(k));
    assert w'.server.cq == [RecvWr];
    ReapsOne(w'.server);
    w', longer := NextState(n, start, longer, w', Reap(Server, 1, 1, 0));
    w', longer := NextState(n, start, longer, w', TakePing);
    w', longer := NextState(n, start, longer, w', PostEcho);
    assert multiset{} + multiset{w'.server.buffer} == multiset{w'.server.buffer};
  }

  lemma PingAnswered(n: nat, start: World, steps: seq<Step>, w: World, k: nat) returns (w': World, longer: seq<Step>)
    requires Exec(n, start, steps) == Some(w) && Rested(n, k, w)
    ensures Exec(n, start, longer) == Some(w') && Answered(n, k, w')
  {
    w', longer := PingEchoed(n, start, steps, w, k);
    hide Exec, Rested;
    var tag := w'.server.buffer;
    assert multiset{tag} - multiset{tag} == multiset{};
    w', longer := NextState(n, start, longer, w', RepostPingBuffer);
    w', longer := NextState(n, start, longer, w', DeliverEcho(tag));
    w', longer := NextState(n, start, longer, w', SendDone(Client));
    assert w'.client.cq == [RecvWr, SendWr];
  }

  lemma ReapsBoth(p: Port, deadline: nat, now: nat)
    requires p.cq == [RecvWr, SendWr] && p.pending == {SendWr, RecvWr} && p.polls == []
    ensures var q := Polled(p, 2, deadline, now);
            && q.pending == {} && q.cq == [] && q.polls == [Reaped([RecvWr, SendWr], now)]
            && q.deadline == deadline && (q.expired <==> now >= deadline)
  {
    assert p.cq[..2] == [RecvWr, SendWr] && SetOf([RecvWr, SendWr]) == {RecvWr, SendWr};
  }

  lemma RoundDone(n: nat, start: World, steps: seq<Step>, w: World, k: nat) returns (w': World, longer: seq<Step>)
    requires Exec(n, start, steps) == Some(w) && Rested(n, k, w) && k + 1 < n
    ensures Exec(n, start, longer) == Some(w') && Rested(n, k + 1, w')
  {
    w', longer := PingAnswered(n, start, steps, w, k);
    hide Exec;
    ReapsBoth(w'.client, 1, 0);
    w', longer := NextState(n, start, longer, w', Reap(Client, 2, 1, 0));
    w', longer := NextState(n, start, longer, w', TakeSample);
    w', longer := NextState(n, start, longer, w', RepostEchoBuffer);
  }

  lemma {:induction false} RoundsDone(n: nat, start: World, k: nat) returns (w: World, steps: seq<Step>)
    requires Init(n, start) && k < n
    ensures Exec(n, start, steps) == Some(w) && Rested(n, k, w)
  {
    if k == 0 {
      w, steps := start, [];
    } else {
      w, steps := RoundsDone(n, start, k - 1);
      w, steps := RoundDone(n, start, steps, w, k - 1);
    }
  }

  /**
   * Any round trip of any run may be complete and discarded: everything it waits for is reaped by its first
   * poll, which is one that looks at the clock, and the clock shows the deadline.
   */
  lemma TimeoutMayDiscardRoundTrip(n: nat, start: World, k: nat, deadline: nat, now: nat)
    returns (w: World, steps: seq<Step>)
    requires Init(n, start) && k < n && now >= deadline
    ensures Exec(n, start, steps) == Some(w) && w.ping.AwaitEcho? && |w.samples| == k && w.echoed == w.sent == k + 1
    ensures w.client.polls == [Reaped([RecvWr, SendWr], now)] && w.client.deadline == deadline
    ensures Wait(Wanted(Client), deadline, w.client.polls) == TimedOut({})
    ensures Apply(n, w, PingTimeout).Some? && Apply(n, w, PingTimeout).value.samples == w.samples
    ensures Apply(n, w, TakeSample).None?
  {
    w, steps := RoundsDone(n, start, k);
    w, steps := PingAnswered(n, start, steps, w, k);
    ReapsBoth(w.client, deadline, now);
    hide Exec;
    w, steps := NextState(n, start, steps, w, Reap(Client, 2, deadline, now));
    SatisfiedButTimedOut(Wanted(Client), deadline, [RecvWr, SendWr], now);
  }

  // ----- The sends of `pong` -----

  /** Sends posted by a side that still occupy its send queue. */
  function SendsHeld(p: Port): nat {
    p.sendsOut + Count(p.cq, SendWr)
  }

  /** The network and the NICs leave the sends of a whole run unreaped. */
  lemma SendsPileUp(n: nat, start: World) returns (w: World, steps: seq<Step>)
    requires Init(n, start)
    ensures Exec(n, start, steps) == Some(w) && SendsHeld(w.server) == n
  {
    w, steps := RoundsDone(n, start, n - 1);
    w, steps := PingAnswered(n, start, steps, w, n - 1);
  }

  lemma HeldNext(n: nat, w: World, step: Step)
    requires SendsHeld(w.server) <= w.echoed && Apply(n, w, step).Some?
    ensures SendsHeld(Apply(n, w, step).value.server) <= Apply(n, w, step).value.echoed
  {
    hide SetOf, Count;
    var p := w.server;
    CountAppend(p.cq, SendWr, SendWr);
    CountAppend(p.cq, RecvWr, SendWr);
    if step.Reap? && step.side.Server? {
      CountSplit(p.cq, Min(step.n, |p.cq|), SendWr);
    }
  }

  lemma {:induction false} ExecHeld(n: nat, start: World, steps: seq<Step>)
    requires Init(n, start) && Exec(n, start, steps).Some?
    ensures var w := Exec(n, start, steps).value; SendsHeld(w.server) <= w.echoed
  {
    if steps != [] {
      hide Apply, SendsHeld;
      var init := steps[..|steps| - 1];
      ExecHeld(n, start, init);
      HeldNext(n, Exec(n, start, init).value, steps[|steps| - 1]);
    }
  }

  ghost predicate FitsSendQueue(n: nat, start: World, depth: nat) {
    forall steps :: Exec(n, start, steps).Some? ==> SendsHeld(Exec(n, start, steps).value.server) <= depth
  }

  /** With no assumption on when sends complete, only a queue for the echoes of the whole run is never full. */
  lemma SendQueueNeeded(n: nat, start: World, depth: nat)
    requires Init(n, start)
    ensures FitsSendQueue(n, start, depth) <==> n <= depth
  {
    var w, worst := SendsPileUp(n, start);
    assert Exec(n, start, worst).Some?;
    forall steps | Exec(n, start, steps).Some?
      ensures SendsHeld(Exec(n, start, steps).value.server) <= n
    {
      ExecHeld(n, start, steps);
      Chain(n, start, steps);
    }
  }

  /** An echo's send completes before the next ping, which answers it, is delivered. */
  ghost predicate Orderly(n: nat, start: World, steps: seq<Step>) {
    forall i :: 0 <= i < |steps| && steps[i].DeliverPing? && Exec(n, start, steps[..i]).Some?
      ==> Exec(n, start, steps[..i]).value.server.sendsOut == 0
  }

  ghost predicate OneHeld(w: World) {
    var p := w.server;
    && SendsHeld(p) <= 1
    && (w.pong.ToEcho? || (w.pong.AwaitPing? && RecvWr !in p.pending) ==> SendsHeld(p) == 0)
    && (Count(p.cq, RecvWr) > 0 ==> p.sendsOut == 0 && p.cq[|p.cq| - 1] == RecvWr)
  }

  lemma OneHeldReap(n: nat, w: World, step: Step)
    requires Inv(n, w) && OneHeld(w) && Apply(n, w, step).Some? && step.Reap? && step.side.Server?
    ensures OneHeld(Apply(n, w, step).value)
  {
    hide SetOf, ClientInv, FlowInv;
    var p, k := w.server, step.n;
    CountSplit(p.cq, k, SendWr);
    CountSplit(p.cq, k, RecvWr);
    if k < |p.cq| {
      assert p.cq[k..][|p.cq| - k - 1] == p.cq[|p.cq| - 1];
      if Count(p.cq, RecvWr) > 0 {
        assert Count(p.cq[k..], RecvWr) > 0;
      }
    } else {
      assert p.cq[k..] == [];
    }
    hide Count;
  }

  lemma OneHeldNic(n: nat, w: World, step: Step)
    requires Inv(n, w) && OneHeld(w) && Apply(n, w, step).Some?
    requires step.SendDone? || (step.DeliverPing? && w.server.sendsOut == 0)
    ensures OneHeld(Apply(n, w, step).value)
  {
    hide ClientInv, FlowInv, Count;
    var p := w.server;
    CountAppend(p.cq, SendWr, SendWr);
    CountAppend(p.cq, SendWr, RecvWr);
    CountAppend(p.cq, RecvWr, SendWr);
    CountAppend(p.cq, RecvWr, RecvWr);
  }

  lemma OneHeldCpu(n: nat, w: World, step: Step)
    requires Inv(n, w) && OneHeld(w) && Apply(n, w, step).Some? && ServerCpu(step) && !step.Reap?
    ensures OneHeld(Apply(n, w, step).value)
  {
    hide ClientInv, FlowInv, Count;
  }

  lemma ServerAside(n: nat, w: World, step: Step)
    requires Apply(n, w, step).Some? && !ServerCpu(step) && !step.SendDone? && !step.DeliverPing?
    ensures var v := Apply(n, w, step).value; v.server == w.server && v.pong == w.pong
  {
    hide SetOf;
  }

  lemma OneHeldNext(n: nat, w: World, step: Step)
    requires Inv(n, w) && OneHeld(w) && Apply(n, w, step).Some?
    requires step.DeliverPing? ==> w.server.sendsOut == 0
    ensures OneHeld(Apply(n, w, step).value)
  {
    hide Apply, Inv, Count;
    if step.Reap? && step.side.Server? {
      OneHeldReap(n, w, step);
    } else if step.SendDone? || step.DeliverPing? {
      OneHeldNic(n, w, step);
    } else if ServerCpu(step) {
      OneHeldCpu(n, w, step);
    } else {
      ServerAside(n, w, step);
    }
  }

  /** If sends complete before the replies to them are delivered, `pong` never has more than one in its queue. */
  lemma {:induction false} OrderlySendsFit(n: nat, start: World, steps: seq<Step>)
    requires Init(n, start) && Exec(n, start, steps).Some? && Orderly(n, start, steps)
    ensures OneHeld(Exec(n, start, steps).value)
    ensures SendsHeld(Exec(n, start, steps).value.server) <= 1
  {
    if steps != [] {
      hide Apply, Inv, Init;
      var init := steps[..|steps| - 1];
      assert forall i :: 0 <= i < |init| ==> init[..i] == steps[..i];
      OrderlySendsFit(n, start, init);
      ExecInv(n, start, init);
      OneHeldNext(n, Exec(n, start, init).value, steps[|steps| - 1]);
    }
  }
}
