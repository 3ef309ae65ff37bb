/**
 * The accuracy benchmark inside its session. What either CPU may do to its queue depends on where its side
 * is in the script; posting the receives is done slot by slot; the NICs and the network are not held back.
 */
module AccuracySession {
  import opened Wrappers
  import opened Ledger
  import opened AccuracyProtocol
  import opened AccuracySystem
  import Talk = Session
  import Scripts = SessionScripts

  /** `said` are the steps of the session so far, `slots` the number of receive slots posted at the start. */
  datatype Joint = Joint(said: seq<Talk.Step>, session: Talk.World, slots: nat, sys: Sys)

  datatype JointStep =
    | Converse(talk: Talk.Step)
    | PostSlot
    | Work(step: Step)

  const MODE: Scripts.Mode := Scripts.Mode.Accuracy

  /** The barrier before the stream and the one after it. */
  const READY: nat := 3
  const FINAL: nat := 4

  function Halves(l: Scripts.Lines): Talk.Scripts {
    Scripts.ScriptsOf(Scripts.Run(MODE), l)
  }

  /** When a side may call an action done. */
  predicate MayFinish(c: Config, j: Joint, a: Talk.Action)
    requires Accepted(c)
  {
    match a
    case PostReceives => j.slots == RxWindow(c)
    case StreamOut => j.sys.tx.completed == c.iterations
    case DrainIn => j.sys.rx.stopped
    case _ => true
  }

  /** Whether a step of the benchmark is taken by a CPU, and in which part of its script. */
  predicate Allowed(l: Scripts.Lines, w: Talk.World, step: Step) {
    match step
    case Sender(tx) => tx.Fetch? || tx.Complete? || Talk.Busy(Halves(l), w, Talk.Client, Talk.StreamOut)
    case Receiver(rx) => Talk.Busy(Halves(l), w, Talk.Server, Talk.DrainIn)
    case _ => true
  }

  ghost predicate JointInit(c: Config, j: Joint)
    requires Accepted(c)
  {
    && j.said == [] && j.session == Talk.START && j.slots == 0 && j.sys.rx.posted == multiset{}
    && Init(c, j.sys.(rx := j.sys.rx.(posted := AllSlots(RxWindow(c)))))
  }

  ghost predicate JointNext(c: Config, net: Net, l: Scripts.Lines, j: Joint, step: JointStep, j': Joint)
    requires Accepted(c) && Shape(c, j.sys)
  {
    match step
    case Converse(talk) =>
      && (forall a :: talk.Act? && Talk.Busy(Halves(l), j.session, talk.side, a) ==> MayFinish(c, j, a))
      && Talk.Apply(Halves(l), j.session, talk) == Some(j'.session)
      && j' == j.(said := j.said + [talk], session := j'.session)
    case PostSlot =>
      && Talk.Busy(Halves(l), j.session, Talk.Server, Talk.PostReceives) && j.slots < RxWindow(c)
      && j' == j.(slots := j.slots + 1,
                  sys := j.sys.(rx := j.sys.rx.(posted := j.sys.rx.posted + multiset{j.slots})))
    case Work(step) =>
      Allowed(l, j.session, step) && Next(c, net, j.sys, step, j'.sys) && j' == j.(sys := j'.sys)
  }

  ghost predicate JointSteps(c: Config, net: Net, l: Scripts.Lines, j: Joint, j': Joint)
    requires Accepted(c)
  {
    Shape(c, j.sys) && exists step :: JointNext(c, net, l, j, step, j')
  }

  ghost predicate IsJointRun(c: Config, net: Net, l: Scripts.Lines, run: seq<Joint>)
    requires Accepted(c)
  {
    && |run| > 0 && JointInit(c, run[0])
    && forall i :: 0 <= i < |run| - 1 ==> JointSteps(c, net, l, run[i], run[i + 1])
  }

  // ----- The benchmark alone -----

  /** The slots still to be posted at the start. */
  function Unposted(c: Config, slots: nat): multiset<nat>
    requires Accepted(c)
  {
    AllSlots(RxWindow(c)) - AllSlots(slots)
  }

  /** The state of the benchmark with the posting of the receives done ahead of time. */
  function Alone(c: Config, j: Joint): Sys
    requires Accepted(c)
  {
    j.sys.(rx := j.sys.rx.(posted := j.sys.rx.posted + Unposted(c, j.slots)))
  }

  lemma OneLessToPost(c: Config, slots: nat)
    requires Accepted(c) && slots < RxWindow(c)
    ensures Unposted(c, slots) == multiset{slots} + Unposted(c, slots + 1)
  {
    var n := RxWindow(c);
    hide AllSlots, Accepted, RxWindow;
    forall k: nat
      ensures (AllSlots(n) - AllSlots(slots))[k] == (multiset{slots} + (AllSlots(n) - AllSlots(slots + 1)))[k]
    {
    }
  }

  lemma Regroup(a: multiset<nat>, b: multiset<nat>, c: multiset<nat>)
    ensures a + b + c == a + (b + c)
  {
  }

  lemma PostingIsInvisible(c: Config, j: Joint)
    requires Accepted(c) && j.slots < RxWindow(c)
    ensures Alone(c, j.(slots := j.slots + 1,
                        sys := j.sys.(rx := j.sys.rx.(posted := j.sys.rx.posted + multiset{j.slots}))))
            == Alone(c, j)
  {
    OneLessToPost(c, j.slots);
    hide Unposted, Accepted, RxWindow;
    Regroup(j.sys.rx.posted, multiset{j.slots}, Unposted(c, j.slots + 1));
  }

  function Ahead(r: Rx, extra: multiset<nat>): Rx {
    r.(posted := r.posted + extra)
  }

  lemma ReceiverAhead(c: Config, r: Rx, step: RxStep, r': Rx, extra: multiset<nat>)
    requires Accepted(c) && RxShape(c, r) && RxShape(c, Ahead(r, extra)) && RxNext(c, r, step, r')
    ensures RxNext(c, Ahead(r, extra), step, Ahead(r', extra))
  {
    hide Accepted, RxWindow, CheckStep, Held, SlotsOf;
    match step
    case Arrive(slot, _, _) => TakeAhead(r.posted, slot, extra);
    case Repost => Swapped(r.posted, multiset{r.hand.value}, extra);
    case _ =>
  }

  lemma TakeAhead(posted: multiset<nat>, slot: nat, extra: multiset<nat>)
    requires slot in posted
    ensures posted - multiset{slot} + extra == posted + extra - multiset{slot}
  {
  }

  lemma Swapped(a: multiset<nat>, b: multiset<nat>, c: multiset<nat>)
    ensures a + b + c == a + c + b
  {
  }

  /** What the benchmark does, it also does with the remaining receives posted ahead of time. */
  lemma WorkAlone(c: Config, net: Net, j: Joint, step: Step, sys': Sys)
    requires Accepted(c) && Shape(c, j.sys) && Shape(c, Alone(c, j)) && Next(c, net, j.sys, step, sys')
    ensures Next(c, net, Alone(c, j), step, Alone(c, j.(sys := sys')))
  {
    hide Accepted, TxWindow, Unposted, TxNext, RxNext, RxShape;
    var extra := Unposted(c, j.slots);
    match step
    case Deliver(packet, slot, len) => ReceiverAhead(c, j.sys.rx, Arrive(slot, packet, len), sys'.rx, extra);
    case Receiver(rx) => ReceiverAhead(c, j.sys.rx, rx, sys'.rx, extra);
    case _ =>
  }

  // ----- Where the actions stand in the scripts -----

  lemma Positions(l: Scripts.Lines)
    ensures var p, q := Halves(l).client, Halves(l).server;
            && |p| == |q| > FINAL + 1
            && READY == Scripts.ReadyBarrier(MODE) && FINAL == Scripts.FinalBarrier(MODE)
            && q[READY].before == [Talk.ConnectQueuePair, Talk.PostReceives]
            && p[FINAL].before == [Talk.StreamOut] && q[FINAL].before == [Talk.DrainIn]
            && p[READY].io.Sync? && p[FINAL].io.Sync? && q[READY].io.Sync? && q[FINAL].io.Sync?
            && forall k, i :: 0 <= k < |p| && 0 <= i < |p[k].before| && p[k].before[i] == Talk.StreamOut ==> k == FINAL
  {
  }

  lemma HalvesAreDual(l: Scripts.Lines)
    requires Scripts.WellFormed(l)
    ensures Talk.Dual(Halves(l))
  {
    Scripts.ScriptsAreDual(Scripts.Run(MODE), l);
  }

  // ----- What every joint run keeps -----

  /** What has been done by the time the scripts say so. */
  ghost predicate Milestones(c: Config, w: Talk.World, slots: nat, s: Sys)
    requires Accepted(c)
  {
    && (Talk.Past(w.server, READY, 1) ==> slots == RxWindow(c))
    && (s.tx.posted > 0 ==> slots == RxWindow(c))
    && (Talk.Past(w.client, FINAL, 0) ==> s.tx.completed == c.iterations)
    && (Talk.Past(w.server, FINAL, 0) ==> s.rx.stopped)
  }

  ghost predicate JointInv(c: Config, l: Scripts.Lines, j: Joint)
    requires Accepted(c)
  {
    && Talk.Exec(Halves(l), j.said) == Some(j.session)
    && j.slots <= RxWindow(c) && SysInv(c, Alone(c, j)) && Shape(c, j.sys)
    && Milestones(c, j.session, j.slots, j.sys)
  }

  lemma StartHolds(c: Config, l: Scripts.Lines, j: Joint)
    requires Accepted(c) && JointInit(c, j)
    ensures JointInv(c, l, j) && Init(c, Alone(c, j))
  {
    hide Accepted, RxWindow, TxWindow, Halves, RxInv, TxInv;
    assert AllSlots(RxWindow(c)) - AllSlots(0) == AllSlots(RxWindow(c));
    assert Alone(c, j) == j.sys.(rx := j.sys.rx.(posted := AllSlots(RxWindow(c))));
    InitInv(c, Alone(c, j));
    ShapeBelow(c, j);
  }

  lemma ShapeBelow(c: Config, j: Joint)
    requires Accepted(c) && SysInv(c, Alone(c, j))
    ensures Shape(c, j.sys) && Shape(c, Alone(c, j))
  {
    hide Accepted, RxWindow, TxWindow, Fold, Unposted;
    assert Held(j.sys.rx) <= Held(Alone(c, j).rx);
  }

  lemma ConverseKeeps(c: Config, net: Net, l: Scripts.Lines, j: Joint, talk: Talk.Step, j': Joint)
    requires Accepted(c) && JointInv(c, l, j) && JointNext(c, net, l, j, Converse(talk), j')
    ensures JointInv(c, l, j') && Alone(c, j') == Alone(c, j)
  {
    Positions(l);
    hide Halves, Accepted, RxWindow, TxWindow, SysInv, Shape, Unposted;
    var ps := Halves(l);
    assert (j.said + [talk])[..|j.said|] == j.said;
    hide Talk.Exec;
    var w, w' := j.session, j'.session;
    if !Talk.Past(w.server, READY, 1) && Talk.Past(w'.server, READY, 1) {
      Talk.FinishedByActing(ps, w, talk, Talk.Server, READY, 1);
      assert Talk.Busy(Halves(l), w, Talk.Server, Talk.PostReceives);
    }
    if !Talk.Past(w.client, FINAL, 0) && Talk.Past(w'.client, FINAL, 0) {
      Talk.FinishedByActing(ps, w, talk, Talk.Client, FINAL, 0);
      assert Talk.Busy(Halves(l), w, Talk.Client, Talk.StreamOut);
    }
    if !Talk.Past(w.server, FINAL, 0) && Talk.Past(w'.server, FINAL, 0) {
      Talk.FinishedByActing(ps, w, talk, Talk.Server, FINAL, 0);
      assert Talk.Busy(Halves(l), w, Talk.Server, Talk.DrainIn);
    }
    hide Talk.Apply;
  }

  lemma PostSlotKeeps(c: Config, net: Net, l: Scripts.Lines, j: Joint, j': Joint)
    requires Accepted(c) && JointInv(c, l, j) && JointNext(c, net, l, j, PostSlot, j')
    ensures JointInv(c, l, j') && Alone(c, j') == Alone(c, j)
  {
    hide Halves, Accepted, RxWindow, TxWindow, SysInv, Shape, Unposted, Alone, Talk.Exec, Talk.Apply, Talk.Busy,
         MayFinish, Next;
    PostingIsInvisible(c, j);
    ShapeBelow(c, j');
  }

  /** A sender at its data loop has passed the barrier that the receiver reaches with its receives posted. */
  lemma StreamingMeansPosted(c: Config, l: Scripts.Lines, j: Joint)
    requires Accepted(c) && Scripts.WellFormed(l) && JointInv(c, l, j)
    requires Talk.Busy(Halves(l), j.session, Talk.Client, Talk.StreamOut)
    ensures j.slots == RxWindow(c)
  {
    Positions(l);
    HalvesAreDual(l);
    hide Halves, Accepted, RxWindow, SysInv, Shape, Talk.Exec, Talk.Dual, Alone;
    Talk.BarrierHolds(Halves(l), j.said, Talk.Client, READY);
    assert Talk.Past(j.session.server, READY, 1);
  }

  lemma CpuCounters(c: Config, net: Net, s: Sys, step: Step, s': Sys)
    requires Accepted(c) && Shape(c, s) && Next(c, net, s, step, s')
    ensures s'.tx.posted > s.tx.posted ==> step.Sender? && step.tx.Post?
    ensures s'.tx.completed >= s.tx.completed && (s.rx.stopped ==> s'.rx.stopped)
  {
    hide Accepted, CheckStep, RxWindow, TxWindow, Held;
  }

  lemma WorkMilestones(c: Config, net: Net, l: Scripts.Lines, j: Joint, step: Step, s': Sys)
    requires Accepted(c) && Scripts.WellFormed(l) && JointInv(c, l, j)
    requires Allowed(l, j.session, step) && Next(c, net, j.sys, step, s') && s'.tx.completed <= c.iterations
    ensures Milestones(c, j.session, j.slots, s')
  {
    CpuCounters(c, net, j.sys, step, s');
    hide Next, Halves, Accepted, RxWindow, SysInv, Shape, Alone, Talk.Exec, Talk.Busy;
    if s'.tx.posted > j.sys.tx.posted {
      StreamingMeansPosted(c, l, j);
    }
  }

  lemma WorkKeeps(c: Config, net: Net, l: Scripts.Lines, j: Joint, step: Step, j': Joint)
    requires Accepted(c) && Scripts.WellFormed(l) && JointInv(c, l, j) && JointNext(c, net, l, j, Work(step), j')
    ensures Shape(c, Alone(c, j)) && JointInv(c, l, j') && Next(c, net, Alone(c, j), step, Alone(c, j'))
  {
    hide Next, Halves, Accepted, RxWindow, TxWindow, SysInv, Shape, Milestones, Alone, Talk.Exec, Talk.Apply,
         Talk.Busy, Allowed, MayFinish;
    ShapeBelow(c, j);
    assert j' == j.(sys := j'.sys);
    WorkAlone(c, net, j, step, j'.sys);
    SysInvNext(c, net, Alone(c, j), step, Alone(c, j'));
    ShapeBelow(c, j');
    CompletedBound(c, j');
    WorkMilestones(c, net, l, j, step, j'.sys);
  }

  lemma CompletedBound(c: Config, j: Joint)
    requires Accepted(c) && SysInv(c, Alone(c, j))
    ensures j.sys.tx.completed <= c.iterations
  {
  }

  lemma {:induction false} RunHolds(c: Config, net: Net, l: Scripts.Lines, run: seq<Joint>, i: nat)
    returns (alone: seq<Sys>)
    requires Accepted(c) && Scripts.WellFormed(l) && IsJointRun(c, net, l, run) && i < |run|
    ensures JointInv(c, l, run[i])
    ensures IsRun(c, net, alone) && alone[|alone| - 1] == Alone(c, run[i])
  {
    hide JointInv, JointInit, JointNext, Alone, Next, Init, Accepted, SysInv;
    if i == 0 {
      StartHolds(c, l, run[0]);
      alone := [Alone(c, run[0])];
    } else {
      alone := RunHolds(c, net, l, run, i - 1);
      assert JointSteps(c, net, l, run[i - 1], run[i - 1 + 1]);
      var step :| JointNext(c, net, l, run[i - 1], step, run[i]);
      alone := StepHolds(c, net, l, run[i - 1], step, run[i], alone);
    }
  }

  lemma StepHolds(c: Config, net: Net, l: Scripts.Lines, j: Joint, step: JointStep, j': Joint, alone: seq<Sys>)
    returns (longer: seq<Sys>)
    requires Accepted(c) && Scripts.WellFormed(l) && JointInv(c, l, j) && JointNext(c, net, l, j, step, j')
    requires IsRun(c, net, alone) && alone[|alone| - 1] == Alone(c, j)
    ensures JointInv(c, l, j') && IsRun(c, net, longer) && longer[|longer| - 1] == Alone(c, j')
  {
    hide JointInv, JointNext, Alone, Next, Init, Accepted, SysInv, IsRun, Shape;
    longer := alone;
    match step
    case Converse(talk) =>
      ConverseKeeps(c, net, l, j, talk, j');
    case PostSlot =>
      PostSlotKeeps(c, net, l, j, j');
    case Work(work) =>
      WorkKeeps(c, net, l, j, work, j');
      Extend(c, net, alone, work, Alone(c, j'));
      longer := alone + [Alone(c, j')];
  }

  // ----- What it means -----

  /**
   * Every run of the benchmark inside its session is a run of the benchmark alone, and a message is only
   * ever posted when the receiver has posted its whole window.
   */
  lemma SendsMeetPostedReceives(c: Config, net: Net, l: Scripts.Lines, run: seq<Joint>, i: nat)
    returns (alone: seq<Sys>)
    requires Accepted(c) && Scripts.WellFormed(l) && IsJointRun(c, net, l, run) && i < |run|
    ensures IsRun(c, net, alone) && alone[|alone| - 1] == Alone(c, run[i])
    ensures run[i].sys.tx.posted > 0 ==> run[i].slots == RxWindow(c) && run[i].sys == alone[|alone| - 1]
  {
    alone := RunHolds(c, net, l, run, i);
    hide IsJointRun, IsRun, Accepted, RxWindow;
    if run[i].sys.tx.posted > 0 {
      assert AllSlots(RxWindow(c)) - AllSlots(RxWindow(c)) == multiset{};
      assert run[i].sys.rx.posted + multiset{} == run[i].sys.rx.posted;
    }
  }

  lemma LeavingMeansOver(c: Config, l: Scripts.Lines, j: Joint)
    requires Accepted(c) && Scripts.WellFormed(l) && JointInv(c, l, j)
    ensures j.session.server.pc > FINAL ==> j.sys.tx.completed == c.iterations
    ensures j.session.client.pc > FINAL ==> j.sys.rx.stopped
  {
    Positions(l);
    HalvesAreDual(l);
    hide Halves, Accepted, RxWindow, SysInv, Shape, Talk.Exec, Talk.Dual, Alone;
    if j.session.server.pc > FINAL {
      Talk.BarrierHolds(Halves(l), j.said, Talk.Server, FINAL);
    }
    if j.session.client.pc > FINAL {
      Talk.BarrierHolds(Halves(l), j.said, Talk.Client, FINAL);
    }
  }

  /** Neither side leaves the last barrier before the other has finished its data loop. */
  lemma LoopsAreOver(c: Config, net: Net, l: Scripts.Lines, run: seq<Joint>, i: nat)
    requires Accepted(c) && Scripts.WellFormed(l) && IsJointRun(c, net, l, run) && i < |run|
    ensures run[i].session.server.pc > FINAL ==> run[i].sys.tx.completed == c.iterations
    ensures run[i].session.client.pc > FINAL ==> run[i].sys.rx.stopped
  {
    hide IsJointRun, IsRun, Accepted, JointInv;
    var _ := RunHolds(c, net, l, run, i);
    LeavingMeansOver(c, l, run[i]);
  }

  /** What the benchmark alone reports, it reports in its session, and by the last barrier the report is due. */
  lemma ReportInSession(c: Config, net: Net, l: Scripts.Lines, run: seq<Joint>, i: nat)
    requires Accepted(c) && Scripts.WellFormed(l) && IsJointRun(c, net, l, run) && i < |run|
    requires !net.duplicates && !net.damages && !net.injects && run[i].session.client.pc > FINAL
    ensures var n := run[i].sys.rx.received;
            && n <= c.iterations
            && Reported(run[i].sys) == AccuracyReport(c.msgSize, c.iterations, n, c.iterations - n, 0, 0, 0, 0,
                                                      n * c.msgSize, 8 * (n * c.msgSize))
  {
    LoopsAreOver(c, net, l, run, i);
    var alone := RunHolds(c, net, l, run, i);
    hide IsJointRun, IsRun, Accepted, JointInv;
    EndToEnd(c, net, alone, |alone| - 1);
  }
}
