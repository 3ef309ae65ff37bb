/**
 * The bandwidth benchmark inside its session. The receiver posts its window where its script says so, and
 * either CPU touches its queue only in its data loop; the NICs and the network are not held back.
 */
module BandwidthSession {
  import opened Wrappers
  import opened Bandwidth
  import Talk = Session
  import Scripts = SessionScripts

  datatype Setup = Setup(iterations: nat, txDepth: nat, rxDepth: nat)

  /**
   * `said`, `sent` and `got` are the steps of the session and of the two queues so far; `drained` says that the
   * receiver's loop is over.
   */
  datatype Joint = Joint(
    said: seq<Talk.Step>, session: Talk.World,
    sent: seq<Step>, send: Queue, got: seq<Step>, recv: Queue, drained: bool)

  datatype JointStep =
    | Converse(talk: Talk.Step)
    | PostFirst              // one receive of the opening window
    | Sender(step: Step)
    | Receiver(step: Step)
    | EndDrain

  const MODE: Scripts.Mode := Scripts.Mode.Bandwidth

  /** The barrier before the stream and the one after it. */
  const READY: nat := 5
  const FINAL: nat := 6

  function Halves(l: Scripts.Lines): Talk.Scripts {
    Scripts.ScriptsOf(Scripts.Run(MODE), l)
  }

  /** The receives posted before the stream may start. */
  function Window(c: Setup): nat {
    Min(c.rxDepth, c.iterations)
  }

  /** When a side may call an action done. */
  predicate MayFinish(c: Setup, j: Joint, a: Talk.Action) {
    match a
    case PostReceives => |j.recv.posted| >= Window(c)
    case StreamOut => j.send.reaped == c.iterations
    case DrainIn => j.drained
    case _ => true
  }

  ghost predicate JointInit(j: Joint) {
    j == Joint([], Talk.START, [], EMPTY, [], EMPTY, false)
  }

  ghost predicate JointNext(c: Setup, l: Scripts.Lines, j: Joint, step: JointStep, j': Joint) {
    match step
    case Converse(talk) =>
      && (forall a :: talk.Act? && Talk.Busy(Halves(l), j.session, talk.side, a) ==> MayFinish(c, j, a))
      && Talk.Apply(Halves(l), j.session, talk) == Some(j'.session)
      && j' == j.(said := j.said + [talk], session := j'.session)
    case PostFirst =>
      var post := Post(|j.recv.posted|);
      && Talk.Busy(Halves(l), j.session, Talk.Server, Talk.PostReceives) && |j.recv.posted| < Window(c)
      && Apply(c.rxDepth, j.recv, post) == Some(j'.recv)
      && j' == j.(got := j.got + [post], recv := j'.recv)
    case Sender(step) =>
      && (!step.Complete? ==> Talk.Busy(Halves(l), j.session, Talk.Client, Talk.StreamOut))
      && (step.Post? ==> |j.send.posted| < c.iterations)
      && Apply(c.txDepth, j.send, step) == Some(j'.send)
      && j' == j.(sent := j.sent + [step], send := j'.send)
    case Receiver(step) =>
      // a receive completes when a message has come
      && (if step.Complete? then j.recv.done < |j.send.posted|
          else Talk.Busy(Halves(l), j.session, Talk.Server, Talk.DrainIn) && !j.drained)
      && (step.Post? ==> |j.recv.posted| < c.iterations)
      && Apply(c.rxDepth, j.recv, step) == Some(j'.recv)
      && j' == j.(got := j.got + [step], recv := j'.recv)
    case EndDrain =>
      Talk.Busy(Halves(l), j.session, Talk.Server, Talk.DrainIn) && j' == j.(drained := true)
  }

  ghost predicate JointSteps(c: Setup, l: Scripts.Lines, j: Joint, j': Joint) {
    exists step :: JointNext(c, l, j, step, j')
  }

  ghost predicate IsJointRun(c: Setup, l: Scripts.Lines, run: seq<Joint>) {
    && |run| > 0 && JointInit(run[0])
    && forall i :: 0 <= i < |run| - 1 ==> JointSteps(c, l, run[i], run[i + 1])
  }

  lemma Positions(l: Scripts.Lines)
    ensures var p, q := Halves(l).client, Halves(l).server;
            && |p| == |q| > FINAL + 1
            && READY == Scripts.ReadyBarrier(MODE) && FINAL == Scripts.FinalBarrier(MODE)
            && q[READY].before == [Talk.PostReceives]
            && p[FINAL].before == [Talk.StreamOut] && q[FINAL].before == [Talk.DrainIn]
            && p[READY].io.Sync? && p[FINAL].io.Sync? && q[READY].io.Sync? && q[FINAL].io.Sync?
            && forall k, i :: 0 <= k < |p| && 0 <= i < |p[k].before| && p[k].before[i] == Talk.StreamOut ==> k == FINAL
  {
  }

  lemma HalvesAreDual(l: Scripts.Lines)
    requires Scripts.WellFormed(l)
    ensures Talk.Dual(Halves(l))
  {
    Scripts.ScriptsAreDual(Scripts.Run(MODE), l);
  }

  // ----- What every joint run keeps -----

  /** What has been done by the time the scripts say so. */
  ghost predicate Milestones(c: Setup, w: Talk.World, j: Joint) {
    && (Talk.Past(w.server, READY, 0) ==> |j.recv.posted| >= Window(c))
    && (|j.send.posted| > 0 ==> |j.recv.posted| >= Window(c))
    && (Talk.Past(w.client, FINAL, 0) ==> j.send.reaped == c.iterations)
    && (Talk.Past(w.server, FINAL, 0) ==> j.drained)
    && j.recv.done <= |j.send.posted| <= c.iterations && |j.recv.posted| <= c.iterations
  }

  ghost predicate JointInv(c: Setup, l: Scripts.Lines, j: Joint) {
    && Talk.Exec(Halves(l), j.said) == Some(j.session)
    && Exec(c.txDepth, j.sent) == Some(j.send) && Exec(c.rxDepth, j.got) == Some(j.recv)
    && Milestones(c, j.session, j)
  }

  lemma ConverseKeeps(c: Setup, l: Scripts.Lines, j: Joint, talk: Talk.Step, j': Joint)
    requires JointInv(c, l, j) && JointNext(c, l, j, Converse(talk), j')
    ensures JointInv(c, l, j')
  {
    hide Halves, Exec, Apply, Talk.Apply;
    Positions(l);
    var ps, w, w' := Halves(l), j.session, j'.session;
    assert (j.said + [talk])[..|j.said|] == j.said;
    if !Talk.Past(w.server, READY, 0) && Talk.Past(w'.server, READY, 0) {
      Talk.FinishedByActing(ps, w, talk, Talk.Server, READY, 0);
    }
    if !Talk.Past(w.client, FINAL, 0) && Talk.Past(w'.client, FINAL, 0) {
      Talk.FinishedByActing(ps, w, talk, Talk.Client, FINAL, 0);
    }
    if !Talk.Past(w.server, FINAL, 0) && Talk.Past(w'.server, FINAL, 0) {
      Talk.FinishedByActing(ps, w, talk, Talk.Server, FINAL, 0);
    }
  }

  /** A client at its data loop has passed the barrier that the server reaches with its window posted. */
  lemma StreamingMeansPosted(c: Setup, l: Scripts.Lines, j: Joint)
    requires Scripts.WellFormed(l) && JointInv(c, l, j)
    requires Talk.Busy(Halves(l), j.session, Talk.Client, Talk.StreamOut)
    ensures |j.recv.posted| >= Window(c)
  {
    hide Halves, Exec, Talk.Exec, Talk.Dual;
    Positions(l);
    HalvesAreDual(l);
    Talk.BarrierHolds(Halves(l), j.said, Talk.Client, READY);
    assert Talk.Past(j.session.server, READY, 0);
  }

  /** How far a step may move a queue. */
  lemma QueueMoves(depth: nat, q: Queue, step: Step)
    requires Apply(depth, q, step).Some?
    ensures var v := Apply(depth, q, step).value;
            && |v.posted| == |q.posted| + (if step.Post? then 1 else 0)
            && v.done == q.done + (if step.Complete? then 1 else 0) && q.reaped <= v.reaped
  {
  }

  lemma SenderKeeps(c: Setup, l: Scripts.Lines, j: Joint, step: Step, j': Joint)
    requires Scripts.WellFormed(l) && JointInv(c, l, j) && JointNext(c, l, j, Sender(step), j')
    ensures JointInv(c, l, j')
  {
    hide Halves, Exec, Apply, Talk.Exec, Talk.Apply, Talk.Busy;
    ExecAppend(c.txDepth, j.sent, step);
    QueueMoves(c.txDepth, j.send, step);
    QueueFits(c.txDepth, j'.sent);
    if step.Post? {
      StreamingMeansPosted(c, l, j);
    }
  }

  lemma ReceiverKeeps(c: Setup, l: Scripts.Lines, j: Joint, step: Step, j': Joint)
    requires JointInv(c, l, j)
    requires JointNext(c, l, j, Receiver(step), j') || (step.Post? && JointNext(c, l, j, PostFirst, j'))
    ensures JointInv(c, l, j')
  {
    hide Halves, Exec, Apply, Talk.Exec, Talk.Apply, Talk.Busy;
    var taken := if JointNext(c, l, j, Receiver(step), j') then step else Post(|j.recv.posted|);
    ExecAppend(c.rxDepth, j.got, taken);
    QueueMoves(c.rxDepth, j.recv, taken);
  }

  lemma {:induction false} RunHolds(c: Setup, l: Scripts.Lines, run: seq<Joint>, i: nat)
    requires Scripts.WellFormed(l) && IsJointRun(c, l, run) && i < |run|
    ensures JointInv(c, l, run[i])
  {
    hide JointInv, JointNext;
    if i == 0 {
      StartHolds(c, l, run[0]);
    } else {
      RunHolds(c, l, run, i - 1);
      assert JointSteps(c, l, run[i - 1], run[i - 1 + 1]);
      var step :| JointNext(c, l, run[i - 1], step, run[i]);
      match step
      case Converse(talk) => ConverseKeeps(c, l, run[i - 1], talk, run[i]);
      case PostFirst => ReceiverKeeps(c, l, run[i - 1], Post(0), run[i]);
      case Sender(work) => SenderKeeps(c, l, run[i - 1], work, run[i]);
      case Receiver(work) => ReceiverKeeps(c, l, run[i - 1], work, run[i]);
      case EndDrain => EndDrainKeeps(c, l, run[i - 1], run[i]);
    }
  }

  lemma StartHolds(c: Setup, l: Scripts.Lines, j: Joint)
    requires JointInit(j)
    ensures JointInv(c, l, j)
  {
  }

  lemma EndDrainKeeps(c: Setup, l: Scripts.Lines, j: Joint, j': Joint)
    requires JointInv(c, l, j) && JointNext(c, l, j, EndDrain, j')
    ensures JointInv(c, l, j')
  {
    hide Halves, Exec, Talk.Exec, Talk.Busy;
  }

  // ----- What it means -----

  /**
   * Both queues run as they do by themselves, and a message is only ever posted when the receiver has posted its
   * whole window. No more is received than was sent.
   */
  lemma SendsMeetPostedReceives(c: Setup, l: Scripts.Lines, run: seq<Joint>, i: nat)
    requires Scripts.WellFormed(l) && IsJointRun(c, l, run) && i < |run|
    ensures Exec(c.txDepth, run[i].sent) == Some(run[i].send) && Exec(c.rxDepth, run[i].got) == Some(run[i].recv)
    ensures |run[i].send.posted| > 0 ==> |run[i].recv.posted| >= Window(c)
    ensures run[i].recv.reaped <= run[i].recv.done <= |run[i].send.posted| <= c.iterations
  {
    hide IsJointRun, Exec, Talk.Exec, Halves;
    RunHolds(c, l, run, i);
    QueueFits(c.rxDepth, run[i].got);
  }

  lemma LeavingMeansOver(c: Setup, l: Scripts.Lines, j: Joint)
    requires Scripts.WellFormed(l) && JointInv(c, l, j)
    ensures j.session.server.pc > FINAL ==> j.send.reaped == c.iterations
    ensures j.session.client.pc > FINAL ==> j.drained
  {
    hide Halves, Exec, Talk.Exec, Talk.Dual;
    Positions(l);
    HalvesAreDual(l);
    if j.session.server.pc > FINAL {
      Talk.BarrierHolds(Halves(l), j.said, Talk.Server, FINAL);
    }
    if j.session.client.pc > FINAL {
      Talk.BarrierHolds(Halves(l), j.said, Talk.Client, FINAL);
    }
  }

  /** Neither side leaves the last barrier before the other's loop is over: all sends reaped, or the drain ended. */
  lemma LoopsAreOver(c: Setup, l: Scripts.Lines, run: seq<Joint>, i: nat)
    requires Scripts.WellFormed(l) && IsJointRun(c, l, run) && i < |run|
    ensures run[i].session.server.pc > FINAL ==> run[i].send.reaped == c.iterations
    ensures run[i].session.client.pc > FINAL ==> run[i].drained
  {
    hide IsJointRun, JointInv;
    RunHolds(c, l, run, i);
    LeavingMeansOver(c, l, run[i]);
  }
}
