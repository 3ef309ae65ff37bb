/**
 * The latency benchmark's stop-and-wait exchange as one system: `ping`, `pong`, their queue pairs and a
 * network that may delay, reorder and lose messages but does not duplicate them. Pings are numbered
 * from zero and an echo carries the number of the ping it answers.
 */
module PingPong {
  import opened Wrappers
  import opened BoundedWait

  datatype Side = Client | Server

  /**
   * One side's queue pair and wait: requests posted and not completed, the completion queue, what the
   * current wait still misses, its deadline and polls, whether a look at the clock has ended it, the number
   * of messages delivered and the one in the receive buffer.
   */
  datatype Port = Port(
    sendsOut: nat,
    recvsOut: nat,
    cq: seq<Wr>,
    pending: set<Wr>,
    deadline: nat,
    polls: seq<Poll>,
    expired: bool,
    arrived: nat,
    buffer: nat)

  datatype PingPhase = ToSend | AwaitEcho | Sampled | PingDone | PingTimedOut

  datatype PongPhase = AwaitPing | ToEcho | ToRepost | PongDone | PongGaveUp

  /** `sent` pings posted, the echo each sample timed, `reaped` pings seen by the server, `echoed` echoes posted. */
  datatype World = World(
    ping: PingPhase, sent: nat, samples: seq<nat>, client: Port,
    pong: PongPhase, reaped: nat, echoed: nat, server: Port,
    pings: multiset<nat>, echoes: multiset<nat>)

  datatype Step =
    // the client's CPU
    | PostPing | TakeSample | RepostEchoBuffer | PingTimeout
    // the server's CPU
    | TakePing | PostEcho | RepostPingBuffer | PongGivesUp(broken: bool)
    // either CPU polls; a wait sets its deadline before its first poll
    | Reap(side: Side, n: nat, deadline: nat, now: nat)
    // the NICs and the network
    | SendDone(side: Side) | DeliverPing(tag: nat) | DeliverEcho(tag: nat)
    | LosePing(tag: nat) | LoseEcho(tag: nat)

  function PortOf(w: World, side: Side): Port {
    if side.Client? then w.client else w.server
  }

  function WithPort(w: World, side: Side, p: Port): World {
    if side.Client? then w.(client := p) else w.(server := p)
  }

  predicate Waits(w: World, side: Side) {
    if side.Client? then w.ping.AwaitEcho? else w.pong.AwaitPing?
  }

  /** What a side waits for. */
  function Wanted(side: Side): set<Wr> {
    if side.Client? then {SendWr, RecvWr} else {RecvWr}
  }

  /** A side begins to wait. */
  function Begin(p: Port, side: Side): Port {
    p.(pending := Wanted(side), polls := [], expired := false)
  }

  /** The wait has seen everything it wants and its clock has not run out. */
  predicate Done(p: Port) {
    p.pending == {} && !p.expired
  }

  /** The wait has ended, one way or the other. */
  predicate Over(p: Port) {
    p.pending == {} || p.expired
  }

  /** What a poll that reaps the first `k` completions makes of a wait. */
  function Polled(p: Port, k: nat, deadline: nat, now: nat): Port
    requires k <= |p.cq|
  {
    p.(cq := p.cq[k..], pending := p.pending - SetOf(p.cq[..k]), deadline := deadline,
    polls := p.polls + [Reaped(p.cq[..k], now)],
    expired := |p.polls| % CHECK_TIMEOUT_ITER == 0 && now >= deadline)
  }

  /** One step of the exchange of `n` round trips, if it can be taken. */
  function Apply(n: nat, w: World, step: Step): Option<World> {
    match step
    case PostPing =>
      if !w.ping.ToSend? then None
      else Some(w.(ping := AwaitEcho, sent := w.sent + 1, pings := w.pings + multiset{w.sent},
                   client := Begin(w.client.(sendsOut := w.client.sendsOut + 1), Client)))
    case TakeSample =>
      if !(w.ping.AwaitEcho? && Done(w.client)) then None
      else Some(w.(ping := Sampled, samples := w.samples + [w.client.buffer]))
    case RepostEchoBuffer =>
      if !w.ping.Sampled? then None
      else if |w.samples| < n
      then Some(w.(ping := ToSend, client := w.client.(recvsOut := w.client.recvsOut + 1)))
      else Some(w.(ping := PingDone))
    case PingTimeout =>
      if !(w.ping.AwaitEcho? && w.client.expired) then None else Some(w.(ping := PingTimedOut))
    case TakePing =>
      if !(w.pong.AwaitPing? && Done(w.server)) then None
      else Some(w.(pong := ToEcho, reaped := w.reaped + 1))
    case PostEcho =>
      if !w.pong.ToEcho? then None
      else Some(w.(pong := ToRepost, echoed := w.echoed + 1, echoes := w.echoes + multiset{w.server.buffer},
                   server := w.server.(sendsOut := w.server.sendsOut + 1)))
    case RepostPingBuffer =>
      if !w.pong.ToRepost? then None
      else
        var p := w.server.(recvsOut := w.server.recvsOut + 1);
        if w.echoed < n
        then Some(w.(pong := AwaitPing, server := Begin(p, Server)))
        else Some(w.(pong := PongDone, server := p))
    case PongGivesUp(broken) =>
      if !(w.pong.AwaitPing? && if broken then !Over(w.server) else w.server.expired) then None
      else Some(w.(pong := PongGaveUp))
    case Reap(side, k, deadline, now) =>
      var p := PortOf(w, side);
      if !(Waits(w, side) && !Over(p) && k <= Min(2, |p.cq|) && (p.polls == [] || deadline == p.deadline)) then None
      else Some(WithPort(w, side, Polled(p, k, deadline, now)))
    case SendDone(side) =>
      var p := PortOf(w, side);
      if p.sendsOut == 0 then None
      else Some(WithPort(w, side, p.(sendsOut := p.sendsOut - 1, cq := p.cq + [SendWr])))
    case DeliverPing(tag) =>
      if !(tag in w.pings && w.server.recvsOut > 0) then None
      else Some(w.(pings := w.pings - multiset{tag}, server := Received(w.server, tag)))
    case DeliverEcho(tag) =>
      if !(tag in w.echoes && w.client.recvsOut > 0) then None
      else Some(w.(echoes := w.echoes - multiset{tag}, client := Received(w.client, tag)))
    case LosePing(tag) =>
      if tag !in w.pings then None else Some(w.(pings := w.pings - multiset{tag}))
    case LoseEcho(tag) =>
      if tag !in w.echoes then None else Some(w.(echoes := w.echoes - multiset{tag}))
  }

  /** A message lands in the buffer of the posted receive. */
  function Received(p: Port, tag: nat): Port
    requires p.recvsOut > 0
  {
    p.(recvsOut := p.recvsOut - 1, cq := p.cq + [RecvWr], arrived := p.arrived + 1, buffer := tag)
  }

  /** Both receives posted and the last barrier before the first ping passed. */
  ghost predicate Init(n: nat, w: World) {
    && n > 0
    && w.ping.ToSend? && w.sent == 0 && w.samples == [] && w.pong.AwaitPing? && w.reaped == 0 && w.echoed == 0
    && w.client == Port(0, 1, [], {}, w.client.deadline, [], false, 0, w.client.buffer)
    && w.server == Port(0, 1, [], {RecvWr}, w.server.deadline, [], false, 0, w.server.buffer)
    && w.pings == multiset{} && w.echoes == multiset{}
  }

  function Count(ids: seq<Wr>, x: Wr): nat {
    multiset(ids)[x]
  }

  function One(b: bool): nat {
    if b then 1 else 0
  }

  /** The client's queues, phase by phase: nothing is outstanding or stale once a wait has succeeded. */
  ghost predicate ClientInv(n: nat, w: World) {
    var p := w.client;
    var sends, recvs := p.sendsOut + Count(p.cq, SendWr), p.recvsOut + Count(p.cq, RecvWr);
    match w.ping
    case ToSend =>
      w.sent == |w.samples| < n && sends == 0 && p.recvsOut == 1 && recvs == 1 && p.arrived == |w.samples|
    case AwaitEcho =>
      && w.sent == |w.samples| + 1 <= n
      && sends + One(SendWr !in p.pending) == 1 && recvs + One(RecvWr !in p.pending) == 1
      && p.arrived == |w.samples| + Count(p.cq, RecvWr) + One(RecvWr !in p.pending)
    case Sampled =>
      w.sent == |w.samples| <= n && sends == 0 && recvs == 0 && p.arrived == |w.samples|
    case PingDone =>
      w.sent == |w.samples| == n && sends == 0 && recvs == 0
    case PingTimedOut =>
      w.sent == |w.samples| + 1 <= n
  }

  /** The server has at most one receive posted and owes at most one echo. */
  ghost predicate ServerInv(n: nat, w: World) {
    var p := w.server;
    var recvs := p.recvsOut + Count(p.cq, RecvWr);
    match w.pong
    case AwaitPing =>
      && p.pending <= {RecvWr} && w.echoed == w.reaped < n
      && recvs + One(RecvWr !in p.pending) == 1
      && p.arrived == w.reaped + Count(p.cq, RecvWr) + One(RecvWr !in p.pending)
    case ToEcho =>
      w.reaped == w.echoed + 1 <= n && recvs == 0 && p.arrived == w.reaped
    case ToRepost =>
      w.reaped == w.echoed <= n && recvs == 0 && p.arrived == w.reaped
    case PongDone =>
      w.reaped == w.echoed == n && recvs <= 1
    case PongGaveUp =>
      w.reaped == w.echoed < n
  }

  /** Messages in flight account for the gaps between the counters, and each carries the right number. */
  ghost predicate FlowInv(w: World) {
    && |w.samples| <= w.client.arrived <= w.echoed <= w.reaped <= w.server.arrived <= w.sent <= |w.samples| + 1
    && |w.pings| + w.server.arrived <= w.sent
    && |w.echoes| + w.client.arrived <= w.echoed
    && (forall t :: t in w.pings ==> t == w.sent - 1)
    && (forall t :: t in w.echoes ==> t == w.echoed - 1)
    && (w.server.arrived > 0 ==> w.server.buffer == w.server.arrived - 1)
    && (w.client.arrived > 0 ==> w.client.buffer == w.client.arrived - 1)
    && (forall i :: 0 <= i < |w.samples| ==> w.samples[i] == i)
  }

  ghost predicate Inv(n: nat, w: World) {
    ClientInv(n, w) && ServerInv(n, w) && FlowInv(w)
  }

  lemma InitInv(n: nat, w: World)
    requires Init(n, w)
    ensures Inv(n, w)
  {
  }

  // ----- The invariant, step by step -----

  predicate ClientCpu(step: Step) {
    step.PostPing? || step.TakeSample? || step.RepostEchoBuffer? || step.PingTimeout?
    || (step.Reap? && step.side.Client?)
  }

  predicate ServerCpu(step: Step) {
    step.TakePing? || step.PostEcho? || step.RepostPingBuffer? || step.PongGivesUp?
    || (step.Reap? && step.side.Server?)
  }

  lemma PostPingInv(n: nat, w: World)
    requires Inv(n, w) && Apply(n, w, PostPing).Some?
    ensures Inv(n, Apply(n, w, PostPing).value)
  {
    hide ServerInv;
    ServerIndependent(n, w, Apply(n, w, PostPing).value);
  }

  /** The server's invariant is about the server's part of the state only. */
  lemma ServerIndependent(n: nat, w: World, w': World)
    requires ServerInv(n, w)
    requires w'.pong == w.pong && w'.reaped == w.reaped && w'.echoed == w.echoed && w'.server == w.server
    ensures ServerInv(n, w')
  {
  }

  lemma ClientIndependent(n: nat, w: World, w': World)
    requires ClientInv(n, w)
    requires w'.ping == w.ping && w'.sent == w.sent && w'.samples == w.samples && w'.client == w.client
    ensures ClientInv(n, w')
  {
  }

  /** What the client's steps after a ping do. */
  lemma ClientCpuForm(n: nat, w: World, step: Step)
    requires Apply(n, w, step).Some? && ClientCpu(step) && !step.Reap? && !step.PostPing?
    ensures var v := Apply(n, w, step).value;
            match step
            case TakeSample =>
              w.ping.AwaitEcho? && Done(w.client) && v == w.(ping := Sampled, samples := w.samples + [w.client.buffer])
            case RepostEchoBuffer =>
              w.ping.Sampled?
              && v == if |w.samples| < n
                      then w.(ping := ToSend, client := w.client.(recvsOut := w.client.recvsOut + 1))
                      else w.(ping := PingDone)
            case _ => step.PingTimeout? && w.ping.AwaitEcho? && v == w.(ping := PingTimedOut)
  {
    hide SetOf;
  }

  lemma ClientCpuInv(n: nat, w: World, step: Step)
    requires Inv(n, w) && Apply(n, w, step).Some? && ClientCpu(step) && !step.Reap? && !step.PostPing?
    ensures Inv(n, Apply(n, w, step).value)
  {
    hide Apply, ServerInv, SetOf, Count;
    ClientCpuForm(n, w, step);
    ServerIndependent(n, w, Apply(n, w, step).value);
  }

  lemma PostEchoInv(n: nat, w: World)
    requires Inv(n, w) && Apply(n, w, PostEcho).Some?
    ensures Inv(n, Apply(n, w, PostEcho).value)
  {
    hide ClientInv;
    assert |w.echoes| == 0;
    assert w.server.buffer == w.echoed;
    ClientIndependent(n, w, Apply(n, w, PostEcho).value);
  }

  lemma TakePingInv(n: nat, w: World)
    requires Inv(n, w) && Apply(n, w, TakePing).Some?
    ensures Inv(n, Apply(n, w, TakePing).value)
  {
    hide ClientInv;
    ClientIndependent(n, w, Apply(n, w, TakePing).value);
  }

  lemma RepostPingForm(n: nat, w: World)
    requires Apply(n, w, RepostPingBuffer).Some?
    ensures var p := w.server.(recvsOut := w.server.recvsOut + 1);
            && w.pong.ToRepost?
            && Apply(n, w, RepostPingBuffer).value
               == if w.echoed < n then w.(pong := AwaitPing, server := Begin(p, Server))
                  else w.(pong := PongDone, server := p)
  {
  }

  lemma RepostPingInv(n: nat, w: World)
    requires Inv(n, w) && Apply(n, w, RepostPingBuffer).Some?
    ensures Inv(n, Apply(n, w, RepostPingBuffer).value)
  {
    hide Apply, ClientInv, Count;
    RepostPingForm(n, w);
    ClientIndependent(n, w, Apply(n, w, RepostPingBuffer).value);
  }

  lemma PongGivesUpInv(n: nat, w: World, broken: bool)
    requires Inv(n, w) && Apply(n, w, PongGivesUp(broken)).Some?
    ensures Inv(n, Apply(n, w, PongGivesUp(broken)).value)
  {
    hide ClientInv;
    ClientIndependent(n, w, Apply(n, w, PongGivesUp(broken)).value);
  }

  lemma CountSplit(ids: seq<Wr>, k: nat, x: Wr)
    requires k <= |ids|
    ensures Count(ids, x) == Count(ids[..k], x) + Count(ids[k..], x)
    ensures x in SetOf(ids[..k]) <==> Count(ids[..k], x) > 0
  {
    assert ids == ids[..k] + ids[k..];
  }

  lemma ReapForm(n: nat, w: World, step: Step)
    requires step.Reap? && Apply(n, w, step).Some?
    ensures var p := PortOf(w, step.side);
            && Waits(w, step.side) && step.n <= |p.cq|
            && Apply(n, w, step).value == WithPort(w, step.side, Polled(p, step.n, step.deadline, step.now))
  {
  }

  lemma ReapInv(n: nat, w: World, step: Step)
    requires step.Reap? && Inv(n, w) && Apply(n, w, step).Some?
    ensures Inv(n, Apply(n, w, step).value)
  {
    hide Apply, Count, SetOf;
    ReapForm(n, w, step);
    var side, k := step.side, step.n;
    var w' := Apply(n, w, step).value;
    var p := PortOf(w, side);
    CountSplit(p.cq, k, SendWr);
    CountSplit(p.cq, k, RecvWr);
    if side.Client? {
      hide ServerInv;
      ServerIndependent(n, w, w');
    } else {
      hide ClientInv;
      ClientIndependent(n, w, w');
    }
  }

  lemma CountAppend(ids: seq<Wr>, y: Wr, x: Wr)
    ensures Count(ids + [y], x) == Count(ids, x) + One(x == y)
  {
  }

  lemma SendDoneInv(n: nat, w: World, side: Side)
    requires Inv(n, w) && Apply(n, w, SendDone(side)).Some?
    ensures Inv(n, Apply(n, w, SendDone(side)).value)
  {
    hide Count;
    var w' := Apply(n, w, SendDone(side)).value;
    CountAppend(PortOf(w, side).cq, SendWr, SendWr);
    CountAppend(PortOf(w, side).cq, SendWr, RecvWr);
    if side.Client? {
      hide ServerInv;
      ServerIndependent(n, w, w');
    } else {
      hide ClientInv;
      ClientIndependent(n, w, w');
    }
  }

  lemma DeliverPingInv(n: nat, w: World, tag: nat)
    requires Inv(n, w) && Apply(n, w, DeliverPing(tag)).Some?
    ensures Inv(n, Apply(n, w, DeliverPing(tag)).value)
  {
    hide Count, ClientInv;
    CountAppend(w.server.cq, RecvWr, SendWr);
    CountAppend(w.server.cq, RecvWr, RecvWr);
    ClientIndependent(n, w, Apply(n, w, DeliverPing(tag)).value);
    assert |w.pings - multiset{tag}| == |w.pings| - 1;
  }

  lemma DeliverEchoInv(n: nat, w: World, tag: nat)
    requires Inv(n, w) && Apply(n, w, DeliverEcho(tag)).Some?
    ensures Inv(n, Apply(n, w, DeliverEcho(tag)).value)
  {
    hide Count, ServerInv;
    CountAppend(w.client.cq, RecvWr, SendWr);
    CountAppend(w.client.cq, RecvWr, RecvWr);
    ServerIndependent(n, w, Apply(n, w, DeliverEcho(tag)).value);
    assert |w.echoes - multiset{tag}| == |w.echoes| - 1;
  }

  lemma LoseForm(n: nat, w: World, step: Step)
    requires Apply(n, w, step).Some? && (step.LosePing? || step.LoseEcho?)
    ensures var v := Apply(n, w, step).value;
            && v == w.(pings := v.pings, echoes := v.echoes) && v.pings <= w.pings && v.echoes <= w.echoes
            && |v.pings| <= |w.pings| && |v.echoes| <= |w.echoes|
  {
    assert step.tag in w.pings ==> |w.pings - multiset{step.tag}| == |w.pings| - 1;
    assert step.tag in w.echoes ==> |w.echoes - multiset{step.tag}| == |w.echoes| - 1;
  }

  lemma FlowShrinks(w: World, v: World)
    requires FlowInv(w) && v == w.(pings := v.pings, echoes := v.echoes)
    requires v.pings <= w.pings && v.echoes <= w.echoes && |v.pings| <= |w.pings| && |v.echoes| <= |w.echoes|
    ensures FlowInv(v)
  {
  }

  lemma LoseInv(n: nat, w: World, step: Step)
    requires Inv(n, w) && Apply(n, w, step).Some? && (step.LosePing? || step.LoseEcho?)
    ensures Inv(n, Apply(n, w, step).value)
  {
    hide Apply, ClientInv, ServerInv, FlowInv;
    LoseForm(n, w, step);
    FlowShrinks(w, Apply(n, w, step).value);
    var w' := Apply(n, w, step).value;
    ClientIndependent(n, w, w');
    ServerIndependent(n, w, w');
  }

  lemma InvNext(n: nat, w: World, step: Step)
    requires Inv(n, w) && Apply(n, w, step).Some?
    ensures Inv(n, Apply(n, w, step).value)
  {
    hide Apply, Inv;
    if step.PostPing? {
      PostPingInv(n, w);
    } else if step.Reap? {
      ReapInv(n, w, step);
    } else if ClientCpu(step) {
      ClientCpuInv(n, w, step);
    } else {
      match step
      case PostEcho => PostEchoInv(n, w);
      case TakePing => TakePingInv(n, w);
      case RepostPingBuffer => RepostPingInv(n, w);
      case PongGivesUp(broken) => PongGivesUpInv(n, w, broken);
      case SendDone(side) => SendDoneInv(n, w, side);
      case DeliverPing(tag) => DeliverPingInv(n, w, tag);
      case DeliverEcho(tag) => DeliverEchoInv(n, w, tag);
      case _ => LoseInv(n, w, step);
    }
  }

  // ----- Whole runs -----

  /** The state after taking `steps` in order, if each could be taken. */
  function Exec(n: nat, start: World, steps: seq<Step>): Option<World> {
    if steps == [] then Some(start)
    else match Exec(n, start, steps[..|steps| - 1])
      case None => None
      case Some(w) => Apply(n, w, steps[|steps| - 1])
  }

  lemma ExecAppend(n: nat, start: World, steps: seq<Step>, step: Step)
    ensures Exec(n, start, steps + [step])
            == match Exec(n, start, steps) case None => None case Some(w) => Apply(n, w, step)
  {
    assert (steps + [step])[..|steps|] == steps;
  }

  lemma {:induction false} ExecInv(n: nat, start: World, steps: seq<Step>)
    requires Init(n, start) && Exec(n, start, steps).Some?
    ensures Inv(n, Exec(n, start, steps).value)
  {
    hide Apply, Init, Inv;
    if steps == [] {
      InitInv(n, start);
    } else {
      var init := steps[..|steps| - 1];
      ExecInv(n, start, init);
      InvNext(n, Exec(n, start, init).value, steps[|steps| - 1]);
    }
  }

  /**
   * In every reachable state the counters form a chain no longer than one message, so the sample of a
   * round trip always times the echo of that round trip's own ping.
   */
  lemma Chain(n: nat, start: World, steps: seq<Step>)
    requires Init(n, start) && Exec(n, start, steps).Some?
    ensures var w := Exec(n, start, steps).value;
            && w.sent - 1 <= |w.samples| <= w.echoed <= w.reaped <= w.sent <= n
            && (forall i :: 0 <= i < |w.samples| ==> w.samples[i] == i)
  {
    ExecInv(n, start, steps);
  }

  /** A wait of `ping` that has seen everything leaves no request outstanding and no stale completion. */
  lemma SatisfiedWaitIsClean(n: nat, start: World, steps: seq<Step>)
    requires Init(n, start) && Exec(n, start, steps).Some?
    ensures var w := Exec(n, start, steps).value;
            w.ping.AwaitEcho? && w.client.pending == {}
            ==> w.client.sendsOut == 0 && w.client.recvsOut == 0 && w.client.cq == []
                && w.client.arrived == w.sent && w.client.buffer == w.sent - 1
  {
    ExecInv(n, start, steps);
    var w := Exec(n, start, steps).value;
    NoStrayCompletions(w.client.cq);
  }

  lemma NoStrayCompletions(ids: seq<Wr>)
    ensures Count(ids, SendWr) == 0 && Count(ids, RecvWr) == 0 ==> ids == []
  {
    if ids != [] {
      assert ids[0] in multiset(ids);
      match ids[0]
      case SendWr => assert Count(ids, SendWr) > 0;
      case RecvWr => assert Count(ids, RecvWr) > 0;
    }
  }

  // ----- Networks that lose nothing -----

  ghost predicate NothingLost(w: World) {
    |w.pings| + w.server.arrived == w.sent && |w.echoes| + w.client.arrived == w.echoed
  }

  predicate Loses(step: Step) {
    step.LosePing? || step.LoseEcho?
  }

  predicate MovesMessages(step: Step) {
    step.PostPing? || step.PostEcho? || step.DeliverPing? || step.DeliverEcho? || Loses(step)
  }

  lemma MessagesStay(n: nat, w: World, step: Step)
    requires Apply(n, w, step).Some? && !MovesMessages(step)
    ensures var v := Apply(n, w, step).value;
            && v.pings == w.pings && v.echoes == w.echoes && v.sent == w.sent && v.echoed == w.echoed
            && v.server.arrived == w.server.arrived && v.client.arrived == w.client.arrived
  {
    hide SetOf;
  }

  lemma PostsKeep(n: nat, w: World, step: Step)
    requires NothingLost(w) && Apply(n, w, step).Some? && (step.PostPing? || step.PostEcho?)
    ensures NothingLost(Apply(n, w, step).value)
  {
    hide SetOf, Polled;
    assert |w.pings + multiset{w.sent}| == |w.pings| + 1;
    assert |w.echoes + multiset{w.server.buffer}| == |w.echoes| + 1;
  }

  lemma DeliveriesKeep(n: nat, w: World, step: Step)
    requires NothingLost(w) && Apply(n, w, step).Some? && (step.DeliverPing? || step.DeliverEcho?)
    ensures NothingLost(Apply(n, w, step).value)
  {
    hide SetOf, Polled, Begin;
    assert step.tag in w.pings ==> |w.pings - multiset{step.tag}| == |w.pings| - 1;
    assert step.tag in w.echoes ==> |w.echoes - multiset{step.tag}| == |w.echoes| - 1;
  }

  lemma MessagesMove(n: nat, w: World, step: Step)
    requires NothingLost(w) && Apply(n, w, step).Some? && MovesMessages(step) && !Loses(step)
    ensures NothingLost(Apply(n, w, step).value)
  {
    hide Apply, NothingLost;
    if step.PostPing? || step.PostEcho? {
      PostsKeep(n, w, step);
    } else {
      DeliveriesKeep(n, w, step);
    }
  }

  lemma NothingLostNext(n: nat, w: World, step: Step)
    requires NothingLost(w) && Apply(n, w, step).Some? && !Loses(step)
    ensures NothingLost(Apply(n, w, step).value)
  {
    hide Apply;
    if MovesMessages(step) {
      MessagesMove(n, w, step);
    } else {
      MessagesStay(n, w, step);
    }
  }

  lemma {:induction false} ExecNothingLost(n: nat, start: World, steps: seq<Step>)
    requires Init(n, start) && Exec(n, start, steps).Some?
    requires forall i :: 0 <= i < |steps| ==> !Loses(steps[i])
    ensures NothingLost(Exec(n, start, steps).value)
  {
    hide Apply;
    if steps != [] {
      var init := steps[..|steps| - 1];
      ExecNothingLost(n, start, init);
      NothingLostNext(n, Exec(n, start, init).value, steps[|steps| - 1]);
    }
  }

  predicate TimesOut(step: Step) {
    step.PingTimeout? || step.PongGivesUp?
  }

  /** A step that brings the exchange forward: not a loss, not a timeout, not an empty or a late poll. */
  predicate Advances(step: Step) {
    !Loses(step) && !TimesOut(step) && (step.Reap? ==> step.n > 0 && step.now < step.deadline)
  }

  /** No wait has run out: neither side has given up or is about to. */
  predicate InTime(w: World) {
    !w.ping.PingTimedOut? && !w.pong.PongGaveUp? && !w.client.expired && !w.server.expired
  }

  /**
   * Stop-and-wait never deadlocks: on a network that loses nothing, as long as neither wait has run out,
   * some step brings the exchange forward until both sides are done with all round trips.
   */
  lemma NeverStuck(n: nat, start: World, steps: seq<Step>) returns (step: Step)
    requires Init(n, start) && Exec(n, start, steps).Some?
    requires forall i :: 0 <= i < |steps| ==> !Loses(steps[i])
    requires var w := Exec(n, start, steps).value;
             InTime(w) && !(w.ping.PingDone? && w.pong.PongDone?)
    ensures Advances(step) && Apply(n, Exec(n, start, steps).value, step).Some?
  {
    ExecInv(n, start, steps);
    ExecNothingLost(n, start, steps);
    ExecDeadlines(n, start, steps);
    step := Enabled(n, Exec(n, start, steps).value);
  }

  /** Neither CPU has anything to do and the client's sends have completed. */
  predicate Idle(w: World) {
    && (w.ping.PingDone? || (w.ping.AwaitEcho? && w.client.pending != {} && w.client.cq == []))
    && (w.pong.PongDone? || (w.pong.AwaitPing? && w.server.pending != {} && w.server.cq == []))
    && w.client.sendsOut == 0
  }

  /** A first poll before the deadline, which is still to be set if this is the first of the wait. */
  function PollInTime(w: World, side: Side): Step {
    var p := PortOf(w, side);
    Reap(side, 1, if p.polls == [] then 1 else p.deadline, 0)
  }

  /** A wait that has not run out was given a deadline after the start of time. */
  predicate DeadlineAhead(p: Port) {
    p.polls != [] && !p.expired ==> p.deadline > 0
  }

  lemma {:induction false} ExecDeadlines(n: nat, start: World, steps: seq<Step>)
    requires Init(n, start) && Exec(n, start, steps).Some?
    ensures var w := Exec(n, start, steps).value; DeadlineAhead(w.client) && DeadlineAhead(w.server)
  {
    hide Apply;
    if steps != [] {
      var init := steps[..|steps| - 1];
      ExecDeadlines(n, start, init);
      DeadlinesNext(n, Exec(n, start, init).value, steps[|steps| - 1]);
    }
  }

  lemma DeadlinesNext(n: nat, w: World, step: Step)
    requires DeadlineAhead(w.client) && DeadlineAhead(w.server) && Apply(n, w, step).Some?
    ensures var v := Apply(n, w, step).value; DeadlineAhead(v.client) && DeadlineAhead(v.server)
  {
    hide SetOf;
  }

  lemma LocalStep(n: nat, w: World) returns (step: Option<Step>)
    requires InTime(w) && DeadlineAhead(w.client) && DeadlineAhead(w.server)
    ensures step.Some? ==> Advances(step.value) && Apply(n, w, step.value).Some?
    ensures step.None? ==> Idle(w)
  {
    if w.ping.ToSend? { return Some(PostPing); }
    if w.ping.Sampled? { return Some(RepostEchoBuffer); }
    if w.pong.ToEcho? { return Some(PostEcho); }
    if w.pong.ToRepost? { return Some(RepostPingBuffer); }
    if w.ping.AwaitEcho? && Done(w.client) { return Some(TakeSample); }
    if w.pong.AwaitPing? && Done(w.server) { return Some(TakePing); }
    if w.ping.AwaitEcho? && w.client.cq != [] { return Some(PollInTime(w, Client)); }
    if w.pong.AwaitPing? && w.server.cq != [] { return Some(PollInTime(w, Server)); }
    if w.client.sendsOut > 0 { return Some(SendDone(Client)); }
    return None;
  }

  /** When both CPUs wait, a message is on its way to a posted receive. */
  lemma IdleMeansInFlight(n: nat, w: World)
    requires Inv(n, w) && NothingLost(w) && Idle(w) && !(w.ping.PingDone? && w.pong.PongDone?)
    ensures (|w.echoes| > 0 && w.client.recvsOut > 0) || (|w.pings| > 0 && w.server.recvsOut > 0)
  {
    assert Count([], SendWr) == 0 && Count([], RecvWr) == 0;
    hide Count;
    if w.ping.AwaitEcho? {
      assert SendWr !in w.client.pending;
      assert RecvWr in w.client.pending by {
        if RecvWr !in w.client.pending {
          PendingIsEmpty(w.client.pending);
        }
      }
    }
  }

  lemma PendingIsEmpty(pending: set<Wr>)
    requires SendWr !in pending && RecvWr !in pending
    ensures pending == {}
  {
    forall x: Wr
      ensures x !in pending
    {
      match x case SendWr => case RecvWr =>
    }
  }

  lemma Enabled(n: nat, w: World) returns (step: Step)
    requires Inv(n, w) && NothingLost(w) && DeadlineAhead(w.client) && DeadlineAhead(w.server)
    requires InTime(w) && !(w.ping.PingDone? && w.pong.PongDone?)
    ensures Advances(step) && Apply(n, w, step).Some?
  {
    hide Inv;
    var local := LocalStep(n, w);
    if local.Some? {
      return local.value;
    }
    IdleMeansInFlight(n, w);
    if |w.echoes| > 0 && w.client.recvsOut > 0 {
      var tag :| tag in w.echoes;
      return DeliverEcho(tag);
    }
    var tag :| tag in w.pings;
    return DeliverPing(tag);
  }

  // ----- Bounded runs -----

  function PingRank(p: PingPhase): nat {
    match p
    case AwaitEcho => 2
    case Sampled => 1
    case _ => 0
  }

  function PongRank(p: PongPhase): nat {
    match p
    case AwaitPing => 2
    case ToEcho => 1
    case ToRepost => 3
    case _ => 0
  }

  /** Work left in the exchange. */
  function Work(n: nat, w: World): int {
    10 * (n - w.sent) + PingRank(w.ping) + 2 * w.client.sendsOut + |w.client.cq| + 2 * |w.echoes|
    + 10 * (n - w.echoed) + PongRank(w.pong) + 2 * w.server.sendsOut + |w.server.cq| + 2 * |w.pings|
  }

  lemma ReapShrinks(n: nat, w: World, step: Step)
    requires step.Reap? && Apply(n, w, step).Some? && step.n > 0
    ensures Work(n, Apply(n, w, step).value) < Work(n, w)
  {
  }

  lemma SendDoneShrinks(n: nat, w: World, side: Side)
    requires Apply(n, w, SendDone(side)).Some?
    ensures Work(n, Apply(n, w, SendDone(side)).value) < Work(n, w)
  {
  }

  lemma DeliveryShrinks(n: nat, w: World, step: Step)
    requires Apply(n, w, step).Some? && (step.DeliverPing? || step.DeliverEcho?)
    ensures Work(n, Apply(n, w, step).value) < Work(n, w)
  {
    var tag := step.tag;
    if step.DeliverPing? {
      assert |w.pings - multiset{tag}| == |w.pings| - 1;
    } else {
      assert |w.echoes - multiset{tag}| == |w.echoes| - 1;
    }
  }

  lemma PostShrinks(n: nat, w: World, step: Step)
    requires Apply(n, w, step).Some? && (step.PostPing? || step.PostEcho?)
    ensures Work(n, Apply(n, w, step).value) < Work(n, w)
  {
    assert |w.pings + multiset{w.sent}| == |w.pings| + 1;
    assert |w.echoes + multiset{w.server.buffer}| == |w.echoes| + 1;
  }

  lemma WorkShrinks(n: nat, w: World, step: Step)
    requires Apply(n, w, step).Some? && Advances(step)
    ensures Work(n, Apply(n, w, step).value) < Work(n, w)
  {
    match step
    case Reap(_, _, _, _) => ReapShrinks(n, w, step);
    case PostPing => PostShrinks(n, w, step);
    case PostEcho => PostShrinks(n, w, step);
    case SendDone(side) => SendDoneShrinks(n, w, side);
    case DeliverPing(_) => DeliveryShrinks(n, w, step);
    case DeliverEcho(_) => DeliveryShrinks(n, w, step);
    case TakeSample =>
    case RepostEchoBuffer =>
    case TakePing =>
    case RepostPingBuffer =>
  }

  lemma {:induction false} WorkBound(n: nat, start: World, steps: seq<Step>)
    requires Exec(n, start, steps).Some? && forall i :: 0 <= i < |steps| ==> Advances(steps[i])
    ensures Work(n, Exec(n, start, steps).value) + |steps| <= Work(n, start)
  {
    hide Apply, Work, Advances;
    if steps != [] {
      var init := steps[..|steps| - 1];
      WorkBound(n, start, init);
      WorkShrinks(n, Exec(n, start, init).value, steps[|steps| - 1]);
    }
  }

  /** With `NeverStuck`: without losses and timeouts the exchange is over after a bounded number of steps. */
  lemma RunsAreBounded(n: nat, start: World, steps: seq<Step>)
    requires Init(n, start) && Exec(n, start, steps).Some?
    requires forall i :: 0 <= i < |steps| ==> Advances(steps[i])
    ensures |steps| <= 20 * n + 2
  {
    WorkBound(n, start, steps);
    ExecInv(n, start, steps);
  }

  lemma NextState(n: nat, start: World, steps: seq<Step>, w: World, step: Step) returns (w': World, longer: seq<Step>)
    requires Exec(n, start, steps) == Some(w) && Apply(n, w, step).Some?
    ensures longer == steps + [step] && Some(w') == Apply(n, w, step) && Exec(n, start, longer) == Some(w')
  {
    ExecAppend(n, start, steps, step);
    w', longer := Apply(n, w, step).value, steps + [step];
  }
}
