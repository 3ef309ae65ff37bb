/**
 * The ping-pong exchange inside its session. Each side posts its first receive where its script says so, and
 * its CPU takes part in the exchange only in its data loop; the NICs and the network are not held back.
 */
module LatencySession {
  import opened Wrappers
  import opened BoundedWait
  import opened PingPong
  import Talk = Session
  import Scripts = SessionScripts

  /**
   * `said` are the steps of the session so far and `work` those of the exchange; the flags tell which side has
   * posted its first receive.
   */
  datatype Joint = Joint(
    said: seq<Talk.Step>, session: Talk.World,
    clientPosted: bool, serverPosted: bool, work: seq<Step>, world: World)

  datatype JointStep =
    | Converse(talk: Talk.Step)
    | PostFirst(side: Talk.Side)
    | Work(step: Step)

  const MODE: Scripts.Mode := Scripts.Mode.Latency

  /** The barrier before the exchange and the one after it. */
  const READY: nat := 5
  const FINAL: nat := 6

  function Halves(l: Scripts.Lines): Talk.Scripts {
    Scripts.ScriptsOf(Scripts.Run(MODE), l)
  }

  function Posted(j: Joint, side: Talk.Side): bool {
    if side.Client? then j.clientPosted else j.serverPosted
  }

  /** When a side may call an action done. */
  predicate MayFinish(j: Joint, side: Talk.Side, a: Talk.Action) {
    match a
    case PostReceives => Posted(j, side)
    case StreamOut => j.world.ping.PingDone? || j.world.ping.PingTimedOut?
    case DrainIn => j.world.pong.PongDone? || j.world.pong.PongGaveUp?
    case _ => true
  }

  /** Which steps of the exchange are a CPU's, and in which part of its script it takes them. */
  predicate Allowed(l: Scripts.Lines, w: Talk.World, step: Step) {
    && (ClientCpu(step) ==> Talk.Busy(Halves(l), w, Talk.Client, Talk.StreamOut))
    && (ServerCpu(step) ==> Talk.Busy(Halves(l), w, Talk.Server, Talk.DrainIn))
  }

  /** `a` and `b` more receives posted on the two sides. */
  function Ahead(w: World, a: nat, b: nat): World {
    w.(client := w.client.(recvsOut := w.client.recvsOut + a), server := w.server.(recvsOut := w.server.recvsOut + b))
  }

  /** The exchange with the first receives posted ahead of time. */
  function Alone(j: Joint): World {
    Ahead(j.world, if j.clientPosted then 0 else 1, if j.serverPosted then 0 else 1)
  }

  ghost predicate JointInit(n: nat, j: Joint) {
    && j.said == [] && j.session == Talk.START && !j.clientPosted && !j.serverPosted && j.work == []
    && j.world.client.recvsOut == 0 && j.world.server.recvsOut == 0 && Init(n, Alone(j))
  }

  ghost predicate JointNext(n: nat, l: Scripts.Lines, j: Joint, step: JointStep, j': Joint) {
    match step
    case Converse(talk) =>
      && (forall a :: talk.Act? && Talk.Busy(Halves(l), j.session, talk.side, a) ==> MayFinish(j, talk.side, a))
      && Talk.Apply(Halves(l), j.session, talk) == Some(j'.session)
      && j' == j.(said := j.said + [talk], session := j'.session)
    case PostFirst(side) =>
      && Talk.Busy(Halves(l), j.session, side, Talk.PostReceives) && !Posted(j, side)
      && j' == if side.Client? then j.(clientPosted := true, world := Ahead(j.world, 1, 0))
               else j.(serverPosted := true, world := Ahead(j.world, 0, 1))
    case Work(step) =>
      && Allowed(l, j.session, step) && Apply(n, j.world, step) == Some(j'.world)
      && j' == j.(work := j.work + [step], world := j'.world)
  }

  ghost predicate JointSteps(n: nat, l: Scripts.Lines, j: Joint, j': Joint) {
    exists step :: JointNext(n, l, j, step, j')
  }

  ghost predicate IsJointRun(n: nat, l: Scripts.Lines, run: seq<Joint>) {
    && |run| > 0 && JointInit(n, run[0])
    && forall i :: 0 <= i < |run| - 1 ==> JointSteps(n, l, run[i], run[i + 1])
  }

  // ----- The exchange alone -----

  lemma ClientAhead(n: nat, w: World, step: Step, a: nat, b: nat)
    requires Apply(n, w, step).Some? && ClientCpu(step) && !step.Reap?
    ensures Apply(n, Ahead(w, a, b), step) == Some(Ahead(Apply(n, w, step).value, a, b))
  {
    hide SetOf;
  }

  lemma ServerAhead(n: nat, w: World, step: Step, a: nat, b: nat)
    requires Apply(n, w, step).Some? && ServerCpu(step) && !step.Reap?
    ensures Apply(n, Ahead(w, a, b), step) == Some(Ahead(Apply(n, w, step).value, a, b))
  {
    hide SetOf;
  }

  lemma ReapAhead(n: nat, w: World, step: Step, a: nat, b: nat)
    requires Apply(n, w, step).Some? && step.Reap?
    ensures Apply(n, Ahead(w, a, b), step) == Some(Ahead(Apply(n, w, step).value, a, b))
  {
    hide SetOf;
  }

  lemma CompletionAhead(n: nat, w: World, step: Step, a: nat, b: nat)
    requires Apply(n, w, step).Some? && step.SendDone?
    ensures Apply(n, Ahead(w, a, b), step) == Some(Ahead(Apply(n, w, step).value, a, b))
  {
  }

  lemma DeliveryAhead(n: nat, w: World, step: Step, a: nat, b: nat)
    requires Apply(n, w, step).Some? && (step.DeliverPing? || step.DeliverEcho?)
    ensures Apply(n, Ahead(w, a, b), step) == Some(Ahead(Apply(n, w, step).value, a, b))
  {
  }

  lemma LossAhead(n: nat, w: World, step: Step, a: nat, b: nat)
    requires Apply(n, w, step).Some? && (step.LosePing? || step.LoseEcho?)
    ensures Apply(n, Ahead(w, a, b), step) == Some(Ahead(Apply(n, w, step).value, a, b))
  {
    hide SetOf;
  }

  /** What the exchange does, it also does with receives posted ahead of time. */
  lemma WorkAhead(n: nat, w: World, step: Step, a: nat, b: nat)
    requires Apply(n, w, step).Some?
    ensures Apply(n, Ahead(w, a, b), step) == Some(Ahead(Apply(n, w, step).value, a, b))
  {
    hide Apply, Ahead;
    if step.Reap? {
      ReapAhead(n, w, step, a, b);
    } else if ClientCpu(step) {
      ClientAhead(n, w, step, a, b);
    } else if ServerCpu(step) {
      ServerAhead(n, w, step, a, b);
    } else if step.SendDone? {
      CompletionAhead(n, w, step, a, b);
    } else if step.LosePing? || step.LoseEcho? {
      LossAhead(n, w, step, a, b);
    } else {
      DeliveryAhead(n, w, step, a, b);
    }
  }

  lemma Positions(l: Scripts.Lines)
    ensures var p, q := Halves(l).client, Halves(l).server;
            && |p| == |q| > FINAL + 1
            && READY == Scripts.ReadyBarrier(MODE) && FINAL == Scripts.FinalBarrier(MODE)
            && p[READY].before == q[READY].before == [Talk.PostReceives]
            && p[FINAL].before == [Talk.StreamOut] && q[FINAL].before == [Talk.DrainIn]
            && p[READY].io.Sync? && p[FINAL].io.Sync? && q[READY].io.Sync? && q[FINAL].io.Sync?
            && forall k, i :: 0 <= k < |p| && 0 <= i < |p[k].before| && p[k].before[i] == Talk.StreamOut ==> k == FINAL
  {
  }

  lemma HalvesAreDual(l: Scripts.Lines)
    requires Scripts.WellFormed(l)
    ensures Talk.Dual(Halves(l))
  {
    Scripts.ScriptsAreDual(Scripts.Run(MODE), l);
  }

  // ----- What every joint run keeps -----

  /** What has been done by the time the scripts say so. */
  ghost predicate Milestones(w: Talk.World, j: Joint) {
    && (Talk.Past(w.client, READY, 0) ==> j.clientPosted) && (Talk.Past(w.server, READY, 0) ==> j.serverPosted)
    && (j.world.sent > 0 ==> j.clientPosted && j.serverPosted)
    && (Talk.Past(w.client, FINAL, 0) ==> j.world.ping.PingDone? || j.world.ping.PingTimedOut?)
    && (Talk.Past(w.server, FINAL, 0) ==> j.world.pong.PongDone? || j.world.pong.PongGaveUp?)
  }

  ghost predicate JointInv(n: nat, l: Scripts.Lines, start: World, j: Joint) {
    && Talk.Exec(Halves(l), j.said) == Some(j.session)
    && Init(n, start) && Exec(n, start, j.work) == Some(Alone(j))
    && Milestones(j.session, j)
  }

  lemma ConverseKeeps(n: nat, l: Scripts.Lines, start: World, j: Joint, talk: Talk.Step, j': Joint)
    requires JointInv(n, l, start, j) && JointNext(n, l, j, Converse(talk), j')
    ensures JointInv(n, l, start, j')
  {
    hide Halves, Exec, Init, Apply, Allowed, Talk.Apply;
    Positions(l);
    var ps, w, w' := Halves(l), j.session, j'.session;
    assert (j.said + [talk])[..|j.said|] == j.said;
    if !Talk.Past(w.client, READY, 0) && Talk.Past(w'.client, READY, 0) {
      Talk.FinishedByActing(ps, w, talk, Talk.Client, READY, 0);
    }
    if !Talk.Past(w.server, READY, 0) && Talk.Past(w'.server, READY, 0) {
      Talk.FinishedByActing(ps, w, talk, Talk.Server, READY, 0);
    }
    if !Talk.Past(w.client, FINAL, 0) && Talk.Past(w'.client, FINAL, 0) {
      Talk.FinishedByActing(ps, w, talk, Talk.Client, FINAL, 0);
    }
    if !Talk.Past(w.server, FINAL, 0) && Talk.Past(w'.server, FINAL, 0) {
      Talk.FinishedByActing(ps, w, talk, Talk.Server, FINAL, 0);
    }
  }

  lemma PostFirstKeeps(n: nat, l: Scripts.Lines, start: World, j: Joint, side: Talk.Side, j': Joint)
    requires JointInv(n, l, start, j) && JointNext(n, l, j, PostFirst(side), j')
    ensures JointInv(n, l, start, j')
  {
    hide Halves, Exec, Init, Apply, Allowed, Talk.Apply, Talk.Exec, Talk.Busy;
    assert Alone(j') == Alone(j);
  }

  /** A client at its data loop has passed the barrier that both sides reach with their receives posted. */
  lemma StreamingMeansPosted(n: nat, l: Scripts.Lines, start: World, j: Joint)
    requires Scripts.WellFormed(l) && JointInv(n, l, start, j)
    requires Talk.Busy(Halves(l), j.session, Talk.Client, Talk.StreamOut)
    ensures j.clientPosted && j.serverPosted
  {
    hide Halves, Exec, Init, Alone, Talk.Exec, Talk.Dual;
    Positions(l);
    HalvesAreDual(l);
    Talk.BarrierHolds(Halves(l), j.said, Talk.Client, READY);
    assert Talk.Past(j.session.client, READY, 0) && Talk.Past(j.session.server, READY, 0);
  }

  /** A step that sends the first ping is the client's, and a side that is done stays done. */
  lemma CpuCounters(n: nat, w: World, step: Step)
    requires Apply(n, w, step).Some?
    ensures var v := Apply(n, w, step).value;
            && (v.sent > w.sent ==> ClientCpu(step))
            && (w.ping.PingDone? || w.ping.PingTimedOut? ==> v.ping == w.ping)
            && (w.pong.PongDone? || w.pong.PongGaveUp? ==> v.pong == w.pong)
  {
    hide SetOf;
  }

  lemma WorkKeeps(n: nat, l: Scripts.Lines, start: World, j: Joint, step: Step, j': Joint)
    requires Scripts.WellFormed(l) && JointInv(n, l, start, j) && JointNext(n, l, j, Work(step), j')
    ensures JointInv(n, l, start, j')
  {
    hide Halves, Exec, Init, Apply, Ahead, Talk.Apply, Talk.Exec, Talk.Busy;
    WorkAhead(n, j.world, step, if j.clientPosted then 0 else 1, if j.serverPosted then 0 else 1);
    ExecAppend(n, start, j.work, step);
    CpuCounters(n, j.world, step);
    if j'.world.sent > j.world.sent {
      StreamingMeansPosted(n, l, start, j);
    }
  }

  lemma {:induction false} RunHolds(n: nat, l: Scripts.Lines, run: seq<Joint>, i: nat)
    requires Scripts.WellFormed(l) && IsJointRun(n, l, run) && i < |run|
    ensures JointInv(n, l, Alone(run[0]), run[i])
  {
    hide JointInv, JointNext, Alone;
    if i == 0 {
      StartHolds(n, l, run[0]);
    } else {
      RunHolds(n, l, run, i - 1);
      assert JointSteps(n, l, run[i - 1], run[i - 1 + 1]);
      var step :| JointNext(n, l, run[i - 1], step, run[i]);
      match step
      case Converse(talk) => ConverseKeeps(n, l, Alone(run[0]), run[i - 1], talk, run[i]);
      case PostFirst(side) => PostFirstKeeps(n, l, Alone(run[0]), run[i - 1], side, run[i]);
      case Work(work) => WorkKeeps(n, l, Alone(run[0]), run[i - 1], work, run[i]);
    }
  }

  lemma StartHolds(n: nat, l: Scripts.Lines, j: Joint)
    requires JointInit(n, j)
    ensures JointInv(n, l, Alone(j), j)
  {
  }

  // ----- What it means -----

  /**
   * Every run of the exchange inside its session is a run of the exchange alone, and a ping is only ever posted
   * when both sides have posted their first receives.
   */
  lemma PingsMeetPostedReceives(n: nat, l: Scripts.Lines, run: seq<Joint>, i: nat)
    requires Scripts.WellFormed(l) && IsJointRun(n, l, run) && i < |run|
    ensures Init(n, Alone(run[0])) && Exec(n, Alone(run[0]), run[i].work) == Some(Alone(run[i]))
    ensures run[i].world.sent > 0 ==> run[i].clientPosted && run[i].serverPosted && run[i].world == Alone(run[i])
  {
    hide IsJointRun, Init, Exec, Talk.Exec, Halves;
    RunHolds(n, l, run, i);
  }

  lemma LeavingMeansOver(n: nat, l: Scripts.Lines, start: World, j: Joint)
    requires Scripts.WellFormed(l) && JointInv(n, l, start, j)
    ensures j.session.server.pc > FINAL ==> j.world.ping.PingDone? || j.world.ping.PingTimedOut?
    ensures j.session.client.pc > FINAL ==> j.world.pong.PongDone? || j.world.pong.PongGaveUp?
  {
    hide Halves, Exec, Init, Alone, Talk.Exec, Talk.Dual;
    Positions(l);
    HalvesAreDual(l);
    if j.session.server.pc > FINAL {
      Talk.BarrierHolds(Halves(l), j.said, Talk.Server, FINAL);
    }
    if j.session.client.pc > FINAL {
      Talk.BarrierHolds(Halves(l), j.said, Talk.Client, FINAL);
    }
  }

  /**
   * Neither side leaves the last barrier before the other has finished its loop, and by then each sample has
   * timed its own round trip.
   */
  lemma ExchangeIsOver(n: nat, l: Scripts.Lines, run: seq<Joint>, i: nat)
    requires Scripts.WellFormed(l) && IsJointRun(n, l, run) && i < |run|
    ensures var j := run[i];
            && (j.session.server.pc > FINAL ==> j.world.ping.PingDone? || j.world.ping.PingTimedOut?)
            && (j.session.client.pc > FINAL ==> j.world.pong.PongDone? || j.world.pong.PongGaveUp?)
            && |j.world.samples| <= j.world.echoed <= j.world.reaped <= j.world.sent <= n
            && forall k :: 0 <= k < |j.world.samples| ==> j.world.samples[k] == k
  {
    hide IsJointRun, JointInv, Init, Exec;
    RunHolds(n, l, run, i);
    LeavingMeansOver(n, l, Alone(run[0]), run[i]);
    PingsMeetPostedReceives(n, l, run, i);
    Chain(n, Alone(run[0]), run[i].work);
  }
}
