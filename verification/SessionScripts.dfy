/** The two halves of a session, as the client and the server program write them. */
module SessionScripts {
  import opened Session

  datatype Transport = Rc | Uc | Ud

  datatype Mode = Bandwidth | Latency | Accuracy | RdmaWrite | RdmaRead

  /** Whether a combination has an implementation. */
  predicate Supported(transport: Transport, mode: Mode) {
    match (transport, mode)
    case (Ud, _) => false
    case (Uc, RdmaRead) => false
    case _ => true
  }

  /** The operations of a transport's queue pairs. */
  datatype Verb = SendReceive | RemoteWrite | RemoteRead

  /** What a mode asks of its transport. */
  function Needs(mode: Mode): Verb {
    match mode
    case Bandwidth => SendReceive
    case Latency => SendReceive
    case Accuracy => SendReceive
    case RdmaWrite => RemoteWrite
    case RdmaRead => RemoteRead
  }

  /** What a transport service offers: an unreliable connection has no read. */
  function Offers(transport: Transport): set<Verb> {
    match transport
    case Rc => {SendReceive, RemoteWrite, RemoteRead}
    case Uc => {SendReceive, RemoteWrite}
    case Ud => {SendReceive}
  }

  /** The transports whose queue pairs this program can build. */
  const BUILT: set<Transport> := {Rc, Uc}

  /** A combination is supported exactly when the transport can be built and offers what the mode asks for. */
  lemma SupportedIsOffered(transport: Transport, mode: Mode)
    ensures Supported(transport, mode) <==> transport in BUILT && Needs(mode) in Offers(transport)
  {
  }

  /** The texts the messages of one session are serialized to. */
  datatype Lines = Lines(request: Text, ack: Text, endpoint: Text, report: Text, buffer: Text, row: Text)

  predicate WellFormed(l: Lines) {
    IsJson(l.request) && IsJson(l.ack) && IsJson(l.endpoint) && IsJson(l.report) && IsJson(l.buffer) && IsJson(l.row)
  }

  /** How a session goes: turned down by the server, refused by the benchmark on both sides, or run. */
  datatype Course = Rejected | Refused | Run(mode: Mode)

  /** Modes in which both sides post work requests. In the others the server only lends a buffer. */
  predicate TwoSided(mode: Mode) {
    mode.Bandwidth? || mode.Latency? || mode.Accuracy?
  }

  // ----- The client -----

  function ClientScript(course: Course, l: Lines): Script {
    var hello := [Op([BuildQueuePair], Send(Message(BenchmarkRequest, l.request))), Op([], Recv(HandshakeAck))];
    if course.Rejected? then hello
    else
      var connected := hello + [Op([ConnectQueuePair], Send(Message(ClientEndpoint, l.endpoint)))];
      if course.Refused? then connected
      else connected + ClientBenchmark(course.mode) + [Op([], Send(Message(ResultRow, l.row)))]
  }

  /** The one-sided modes are initiated by another program; its half is the one the server's is written for. */
  function ClientBenchmark(mode: Mode): Script {
    match mode
    case Bandwidth => [Op([], Sync), Op([Settle], Sync), Op([], Sync), Op([StreamOut], Sync)]
    case Latency => [Op([], Sync), Op([Settle], Sync), Op([PostReceives], Sync), Op([StreamOut], Sync)]
    case Accuracy => [Op([], Sync), Op([StreamOut], Sync), Op([], Recv(AccuracyReport))]
    case _ => [Op([], Recv(RemoteBufferInfo)), Op([], Sync), Op([StreamOut], Sync)]
  }

  // ----- The server -----

  function ServerScript(course: Course, l: Lines): Script {
    var hello := [Op([], Recv(BenchmarkRequest))];
    if course.Rejected? then hello + [Op([], Send(Message(HandshakeAck, l.ack)))]
    else
      var connected :=
        hello + [Op([BuildQueuePair], Send(Message(HandshakeAck, l.ack))), Op([], Recv(ClientEndpoint))];
      if course.Refused? then connected
      else connected + ServerBenchmark(course.mode, l) + [Op([], Recv(ResultRow))]
  }

  function ServerBenchmark(mode: Mode, l: Lines): Script {
    match mode
    case Bandwidth => [Op([ConnectQueuePair], Sync), Op([Settle], Sync), Op([PostReceives], Sync), Op([DrainIn], Sync)]
    case Latency => [Op([ConnectQueuePair], Sync), Op([Settle], Sync), Op([PostReceives], Sync), Op([DrainIn], Sync)]
    case Accuracy =>
      [Op([ConnectQueuePair, PostReceives], Sync), Op([DrainIn], Sync), Op([], Send(Message(AccuracyReport, l.report)))]
    case _ => [Op([ConnectQueuePair], Send(Message(RemoteBufferInfo, l.buffer))), Op([], Sync), Op([], Sync)]
  }

  function ScriptsOf(course: Course, l: Lines): Scripts {
    Scripts(ClientScript(course, l), ServerScript(course, l))
  }

  /** The separately written halves answer each other exchange by exchange, so `Session`'s laws apply. */
  lemma ScriptsAreDual(course: Course, l: Lines)
    requires WellFormed(l)
    ensures Dual(ScriptsOf(course, l))
  {
    var p, q := ClientScript(course, l), ServerScript(course, l);
    if course.Run? {
      BenchmarksAreDual(course.mode, l);
      hide ClientBenchmark, ServerBenchmark;
      var a, b := ClientBenchmark(course.mode), ServerBenchmark(course.mode, l);
      forall k | 0 <= k < |p|
        ensures DualIo(p[k].io, q[k].io)
      {
        if 3 <= k < 3 + |a| {
          assert p[k] == a[k - 3] && q[k] == b[k - 3];
        }
      }
    }
  }

  lemma BenchmarksAreDual(mode: Mode, l: Lines)
    requires WellFormed(l)
    ensures Answers(ClientBenchmark(mode), ServerBenchmark(mode, l))
  {
    match mode
    case Bandwidth =>
    case Latency =>
    case Accuracy =>
    case _ =>
  }

  // ----- What the barriers of a benchmark mean -----

  /** The last barrier before the stream starts, and the one after it has ended. */
  function ReadyBarrier(mode: Mode): nat {
    if mode.Accuracy? then 3 else 5
  }

  function FinalBarrier(mode: Mode): nat {
    ReadyBarrier(mode) + 1
  }

  /** The side has performed `a`, which its script lists before some exchange. */
  ghost predicate Performed(p: Script, e: End, a: Action) {
    exists k, i :: 0 <= k < |p| && 0 <= i < |p[k].before| && p[k].before[i] == a
                   && (e.pc > k || (e.pc == k && e.acted > i))
  }

  lemma BarrierPositions(mode: Mode, l: Lines, side: Side)
    requires TwoSided(mode)
    ensures var p := ScriptOf(ScriptsOf(Run(mode), l), side);
            var loop := if side.Client? then StreamOut else DrainIn;
            && FinalBarrier(mode) < |p| == |ClientScript(Run(mode), l)| == |ServerScript(Run(mode), l)|
            && p[ReadyBarrier(mode)].io.Sync? && p[FinalBarrier(mode)].io.Sync?
            && p[FinalBarrier(mode)].before == [loop]
            && (side.Server? || mode.Latency? ==> PostReceives in p[ReadyBarrier(mode)].before)
  {
    match mode
    case Bandwidth =>
    case Latency =>
    case Accuracy =>
  }

  lemma ReachedMeansPerformed(p: Script, e: End, k: nat, a: Action)
    requires k < |p| && ReachedBarrier(p, e, k) && a in p[k].before
    ensures Performed(p, e, a)
  {
    var i :| 0 <= i < |p[k].before| && p[k].before[i] == a;
  }

  /**
   * Nothing is streamed before the receives it needs are posted: once a side may be in its data loop, the
   * peer has reached the barrier before it with its receives posted.
   */
  lemma StreamsIntoPostedReceives(mode: Mode, l: Lines, steps: seq<Step>, side: Side)
    requires TwoSided(mode) && WellFormed(l) && Exec(ScriptsOf(Run(mode), l), steps).Some?
    ensures var ps := ScriptsOf(Run(mode), l);
            var w := Exec(ps, steps).value;
            EndOf(w, side).pc >= FinalBarrier(mode)
            ==> ReachedBarrier(ScriptOf(ps, Peer(side)), EndOf(w, Peer(side)), ReadyBarrier(mode))
                && (side.Client? || mode.Latency?
                    ==> Performed(ScriptOf(ps, Peer(side)), EndOf(w, Peer(side)), PostReceives))
  {
    hide ClientScript, ServerScript, Exec, Apply, Dual, Performed;
    var ps := ScriptsOf(Run(mode), l);
    var w := Exec(ps, steps).value;
    ScriptsAreDual(Run(mode), l);
    BarrierPositions(mode, l, side);
    BarrierPositions(mode, l, Peer(side));
    if EndOf(w, side).pc >= FinalBarrier(mode) {
      BarrierHolds(ps, steps, side, ReadyBarrier(mode));
      if side.Client? || mode.Latency? {
        ReachedMeansPerformed(ScriptOf(ps, Peer(side)), EndOf(w, Peer(side)), ReadyBarrier(mode), PostReceives);
      }
    }
  }

  /** Where each side builds its queue pair, and where it connects it. */
  lemma PairPositions(mode: Mode, l: Lines, side: Side)
    requires TwoSided(mode)
    ensures var p := ScriptOf(ScriptsOf(Run(mode), l), side);
            var built := if side.Client? then 0 else 1;
            && |p| > 3 && BuildQueuePair in p[built].before && ConnectQueuePair in p[built + 2].before
            && built + 2 <= ReadyBarrier(mode) < |p|
  {
    match mode
    case Bandwidth =>
    case Latency =>
    case Accuracy =>
  }

  lemma EarlierMeansPerformed(p: Script, e: End, k: nat, at: nat, a: Action)
    requires k <= at < |p| && ReachedBarrier(p, e, at) && a in p[k].before
    ensures Performed(p, e, a)
  {
    if k == at {
      ReachedMeansPerformed(p, e, k, a);
    } else {
      var i :| 0 <= i < |p[k].before| && p[k].before[i] == a;
    }
  }

  /** Nor before both queue pairs are built and connected. */
  lemma StreamsBetweenConnectedPairs(mode: Mode, l: Lines, steps: seq<Step>, side: Side, either: Side)
    requires TwoSided(mode) && WellFormed(l) && Exec(ScriptsOf(Run(mode), l), steps).Some?
    ensures var ps := ScriptsOf(Run(mode), l);
            var w := Exec(ps, steps).value;
            EndOf(w, side).pc >= FinalBarrier(mode)
            ==> Performed(ScriptOf(ps, either), EndOf(w, either), BuildQueuePair)
                && Performed(ScriptOf(ps, either), EndOf(w, either), ConnectQueuePair)
  {
    hide ClientScript, ServerScript, Exec, Apply, Dual, Performed;
    var ps := ScriptsOf(Run(mode), l);
    var w := Exec(ps, steps).value;
    if EndOf(w, side).pc >= FinalBarrier(mode) {
      StreamsIntoPostedReceives(mode, l, steps, side);
      PairPositions(mode, l, either);
      var built := if either.Client? then 0 else 1;
      var p, e := ScriptOf(ps, either), EndOf(w, either);
      EarlierMeansPerformed(p, e, built, ReadyBarrier(mode), BuildQueuePair);
      EarlierMeansPerformed(p, e, built + 2, ReadyBarrier(mode), ConnectQueuePair);
    }
  }

  /** Neither side leaves the final barrier before the other has left its data loop. */
  lemma LoopsEndTogether(mode: Mode, l: Lines, steps: seq<Step>, side: Side)
    requires TwoSided(mode) && WellFormed(l) && Exec(ScriptsOf(Run(mode), l), steps).Some?
    ensures var ps := ScriptsOf(Run(mode), l);
            var w := Exec(ps, steps).value;
            EndOf(w, side).pc > FinalBarrier(mode)
            ==> Performed(ScriptOf(ps, Peer(side)), EndOf(w, Peer(side)), if side.Client? then DrainIn else StreamOut)
  {
    hide ClientScript, ServerScript, Exec, Apply, Dual, Performed;
    var ps := ScriptsOf(Run(mode), l);
    var w := Exec(ps, steps).value;
    ScriptsAreDual(Run(mode), l);
    BarrierPositions(mode, l, side);
    BarrierPositions(mode, l, Peer(side));
    if EndOf(w, side).pc > FinalBarrier(mode) {
      BarrierHolds(ps, steps, side, FinalBarrier(mode));
      ReachedMeansPerformed(ScriptOf(ps, Peer(side)), EndOf(w, Peer(side)), FinalBarrier(mode),
                            if side.Client? then DrainIn else StreamOut);
    }
  }
}
