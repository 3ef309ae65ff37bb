/**
 * The out-of-band session: two endpoints that run separately written scripts of JSON lines and one-byte
 * barriers over one byte stream in each direction. Bytes are written and read one at a time, which
 * covers every way TCP may fragment them.
 */
module Session {
  import opened Wrappers

  type Octet = b: int | 0 <= b < 256

  type Text = seq<Octet>

  const NEWLINE: Octet := 10
  const BARRIER: Octet := 0

  /** What a message is parsed as. */
  datatype Kind = BenchmarkRequest | HandshakeAck | ClientEndpoint | AccuracyReport | RemoteBufferInfo | ResultRow

  datatype Message = Message(kind: Kind, text: Text)

  /** Serialized JSON: not empty, and control characters are escaped (section 7 of RFC 8259). */
  predicate IsJson(text: Text) {
    text != [] && forall i :: 0 <= i < |text| ==> text[i] >= 0x20
  }

  datatype Io = Send(m: Message) | Recv(kind: Kind) | Sync

  /** Things a side does between two exchanges. */
  datatype Action = BuildQueuePair | ConnectQueuePair | Settle | PostReceives | StreamOut | DrainIn

  /** One exchange, and what the side does before it. */
  datatype Op = Op(before: seq<Action>, io: Io)

  type Script = seq<Op>

  /** The bytes an exchange writes; a barrier writes its byte before it reads one. */
  function Output(io: Io): (bytes: Text)
    ensures io.Send? || io.Sync? ==> |bytes| > 0
    ensures io.Recv? ==> |bytes| == 0
  {
    match io
    case Send(m) => m.text + [NEWLINE]
    case Recv(_) => []
    case Sync => [BARRIER]
  }

  /**
   * Where a side is in its script: actions done and bytes written within the current exchange, the part
   * of a line read so far, the lines and barrier bytes received. `cut` says that a line was accepted
   * at the end of the stream without its newline.
   */
  datatype End = End(
    pc: nat, acted: nat, wrote: nat, acc: Text,
    inbox: seq<Text>, barriers: seq<Octet>, failed: bool, cut: bool)

  const FRESH: End := End(0, 0, 0, [], [], [], false, false)

  datatype Side = Client | Server

  datatype World = World(client: End, server: End, toServer: Text, toClient: Text)

  const START: World := World(FRESH, FRESH, [], [])

  datatype Scripts = Scripts(client: Script, server: Script)

  datatype Step =
    | Act(side: Side)
    | Write(side: Side)
    | Read(side: Side)
    | Eof(side: Side, parsed: bool)  // a read finds the stream closed; `parsed` is what serde makes of a partial line
    | Abort(side: Side)              // any other error, on this side

  function Peer(side: Side): Side {
    if side.Client? then Server else Client
  }

  function ScriptOf(p: Scripts, side: Side): Script {
    if side.Client? then p.client else p.server
  }

  function EndOf(w: World, side: Side): End {
    if side.Client? then w.client else w.server
  }

  /** Bytes on their way to `side`. */
  function Incoming(w: World, side: Side): Text {
    if side.Client? then w.toClient else w.toServer
  }

  function WithEnd(w: World, side: Side, e: End): World {
    if side.Client? then w.(client := e) else w.(server := e)
  }

  function WithIncoming(w: World, side: Side, bytes: Text): World {
    if side.Client? then w.(toClient := bytes) else w.(toServer := bytes)
  }

  predicate Finished(p: Script, e: End) {
    e.pc >= |p|
  }

  predicate Running(p: Script, e: End) {
    !e.failed && e.pc < |p|
  }

  /** A side that has ended has dropped its connection. */
  predicate Closed(p: Script, e: End) {
    e.failed || Finished(p, e)
  }

  function NextOp(e: End): End {
    e.(pc := e.pc + 1, acted := 0, wrote := 0, acc := [])
  }

  predicate ReadyToRead(p: Script, e: End) {
    && Running(p, e) && e.acted == |p[e.pc].before|
    && match p[e.pc].io
       case Send(_) => false
       case Recv(_) => true
       case Sync => e.wrote == 1
  }

  /** What a side makes of the next byte of its stream. */
  function Consume(p: Script, e: End, b: Octet): End
    requires ReadyToRead(p, e)
  {
    match p[e.pc].io
    case Sync => NextOp(e.(barriers := e.barriers + [b]))
    case _ =>
      if b == NEWLINE then NextOp(e.(inbox := e.inbox + [e.acc])) else e.(acc := e.acc + [b])
  }

  function WriteByte(p: Script, e: End): End
    requires Running(p, e)
  {
    if p[e.pc].io.Send? && e.wrote + 1 == |Output(p[e.pc].io)| then NextOp(e) else e.(wrote := e.wrote + 1)
  }

  predicate CanWrite(p: Script, e: End) {
    Running(p, e) && e.acted == |p[e.pc].before| && e.wrote < |Output(p[e.pc].io)|
  }

  function Apply(ps: Scripts, w: World, step: Step): Option<World> {
    var p, e := ScriptOf(ps, step.side), EndOf(w, step.side);
    match step
    case Act(side) =>
      if !(Running(p, e) && e.acted < |p[e.pc].before|) then None
      else Some(WithEnd(w, side, e.(acted := e.acted + 1)))
    case Write(side) =>
      if !CanWrite(p, e) then None
      else
        Some(WithIncoming(WithEnd(w, side, WriteByte(p, e)), Peer(side),
                          Incoming(w, Peer(side)) + [Output(p[e.pc].io)[e.wrote]]))
    case Read(side) =>
      var bytes := Incoming(w, side);
      if !(ReadyToRead(p, e) && bytes != []) then None
      else Some(WithIncoming(WithEnd(w, side, Consume(p, e, bytes[0])), side, bytes[1..]))
    case Eof(side, parsed) =>
      if !(ReadyToRead(p, e) && Incoming(w, side) == [] && Closed(ScriptOf(ps, Peer(side)), EndOf(w, Peer(side))))
      then None
      else if e.acc != [] && parsed then Some(WithEnd(w, side, NextOp(e.(inbox := e.inbox + [e.acc], cut := true))))
      else Some(WithEnd(w, side, e.(failed := true)))
    case Abort(side) =>
      if !Running(p, e) then None else Some(WithEnd(w, side, e.(failed := true)))
  }

  function Exec(ps: Scripts, steps: seq<Step>): Option<World> {
    if steps == [] then Some(START)
    else match Exec(ps, steps[..|steps| - 1])
      case None => None
      case Some(w) => Apply(ps, w, steps[|steps| - 1])
  }

  // ----- What a side is at -----

  /** The next thing a side's script lists is `a`, so it may be at it. */
  predicate Busy(ps: Scripts, w: World, side: Side, a: Action) {
    var p, e := ScriptOf(ps, side), EndOf(w, side);
    Running(p, e) && e.acted < |p[e.pc].before| && p[e.pc].before[e.acted] == a
  }

  /** A side has finished the action listed at position `i` of exchange `k`. */
  predicate Past(e: End, k: nat, i: nat) {
    e.pc > k || (e.pc == k && e.acted > i)
  }

  /** An action is finished by its own step and no other. */
  lemma FinishedByActing(ps: Scripts, w: World, step: Step, side: Side, k: nat, i: nat)
    requires Apply(ps, w, step).Some? && k < |ScriptOf(ps, side)| && i < |ScriptOf(ps, side)[k].before|
    requires !Past(EndOf(w, side), k, i) && Past(EndOf(Apply(ps, w, step).value, side), k, i)
    ensures step == Act(side) && Busy(ps, w, side, ScriptOf(ps, side)[k].before[i])
    ensures EndOf(w, side).pc == k && EndOf(w, side).acted == i
  {
    hide Output;
  }

  // ----- Dual scripts -----

  /** Two exchanges that answer each other. */
  predicate DualIo(a: Io, b: Io) {
    match a
    case Send(m) => b == Recv(m.kind) && IsJson(m.text)
    case Recv(kind) => b.Send? && b.m.kind == kind && IsJson(b.m.text)
    case Sync => b.Sync?
  }

  ghost predicate Dual(ps: Scripts) {
    && |ps.client| == |ps.server|
    && forall k :: 0 <= k < |ps.client| ==> DualIo(ps.client[k].io, ps.server[k].io)
  }

  /** The texts of the messages sent by the first `n` exchanges of a script. */
  function Texts(p: Script, n: nat): seq<Text>
    requires n <= |p|
  {
    if n == 0 then []
    else Texts(p, n - 1) + (if p[n - 1].io.Send? then [p[n - 1].io.m.text] else [])
  }

  /** All bytes the first `n` exchanges of a script write. */
  function Stream(p: Script, n: nat): Text
    requires n <= |p|
  {
    if n == 0 then [] else Stream(p, n - 1) + Output(p[n - 1].io)
  }

  /** The position in the whole stream of byte `j` of exchange `k`. */
  function At(p: Script, k: nat, j: nat): nat
    requires k <= |p|
  {
    |Stream(p, k)| + j
  }

  lemma {:induction false} StreamGrows(p: Script, k: nat, n: nat)
    requires k <= n <= |p|
    ensures Stream(p, k) <= Stream(p, n)
  {
    if k < n {
      StreamGrows(p, k, n - 1);
    }
  }

  /** The stream carries exchange `k`'s bytes at exchange `k`'s position. */
  lemma StreamAt(p: Script, k: nat, j: nat)
    requires k < |p| && j < |Output(p[k].io)|
    ensures At(p, k, j) < |Stream(p, |p|)| && Stream(p, |p|)[At(p, k, j)] == Output(p[k].io)[j]
  {
    hide Output;
    StreamGrows(p, k + 1, |p|);
    assert Stream(p, k + 1)[At(p, k, j)] == Output(p[k].io)[j];
  }

  lemma PositionsOrdered(p: Script, k: nat, n: nat)
    requires k < n <= |p|
    ensures At(p, k, |Output(p[k].io)|) <= At(p, n, 0)
  {
    hide Output;
    StreamGrows(p, k + 1, n);
  }

  /** How far `sender` has written its own stream. */
  function Written(p: Script, sender: End): nat
    requires sender.pc <= |p|
  {
    At(p, sender.pc, sender.wrote)
  }

  /** How far `receiver` has read the stream of the script `p` of its peer. */
  function Consumed(p: Script, receiver: End): nat
    requires receiver.pc <= |p|
  {
    At(p, receiver.pc, |receiver.acc|)
  }

  /** The lines received are the texts sent, but for the last one having been cut short. */
  ghost predicate AsSent(inbox: seq<Text>, texts: seq<Text>, cut: bool) {
    if !cut then inbox == texts
    else
      && |inbox| == |texts| > 0
      && var n := |texts| - 1;
         inbox[..n] == texts[..n] && inbox[n] <= texts[n]
  }

  /** A side's own bookkeeping, `q` being the peer's script. */
  ghost predicate EndInv(p: Script, q: Script, e: End) {
    && e.pc <= |p| == |q|
    && (e.pc < |p| ==>
          && e.acted <= |p[e.pc].before|
          && e.wrote <= |Output(p[e.pc].io)|
          && (p[e.pc].io.Send? ==> e.wrote < |Output(p[e.pc].io)|)
          && (e.wrote > 0 ==> e.acted == |p[e.pc].before|))
    && (e.pc == |p| ==> e.wrote == 0 && e.acted == 0)
    && (if e.pc < |p| && q[e.pc].io.Send? then e.acc <= q[e.pc].io.m.text else e.acc == [])
    && (forall i :: 0 <= i < |e.barriers| ==> e.barriers[i] == BARRIER)
    && AsSent(e.inbox, Texts(q, e.pc), e.cut) && (e.cut ==> e.acc == [])
  }

  /** The bytes on their way are those written and not yet consumed. */
  ghost predicate FlowInv(p: Script, sender: End, receiver: End, bytes: Text) {
    sender.pc <= |p| && receiver.pc <= |p| &&
    if receiver.cut then bytes == [] && Closed(p, sender)
    else
      && Consumed(p, receiver) <= Written(p, sender) <= |Stream(p, |p|)|
      && bytes == Stream(p, |p|)[Consumed(p, receiver)..Written(p, sender)]
  }

  ghost predicate Inv(ps: Scripts, w: World)
    requires Dual(ps)
  {
    && EndInv(ps.client, ps.server, w.client) && EndInv(ps.server, ps.client, w.server)
    && FlowInv(ps.client, w.client, w.server, w.toServer)
    && FlowInv(ps.server, w.server, w.client, w.toClient)
  }

  /** Exchange by exchange, `p` and `q` answer each other. */
  ghost predicate Answers(p: Script, q: Script) {
    |p| == |q| && forall k :: 0 <= k < |p| ==> DualIo(p[k].io, q[k].io)
  }

  lemma DualAnswers(ps: Scripts)
    requires Dual(ps)
    ensures Answers(ps.client, ps.server) && Answers(ps.server, ps.client)
  {
  }

  lemma OutputEmpty(p: Script, k: nat)
    requires k < |p| && p[k].io.Recv?
    ensures Stream(p, k + 1) == Stream(p, k)
  {
  }

  lemma WriteKeeps(p: Script, q: Script, e: End, peer: End, bytes: Text)
    requires Answers(p, q) && EndInv(p, q, e) && peer.pc <= |p| && FlowInv(p, e, peer, bytes) && CanWrite(p, e)
    ensures EndInv(p, q, WriteByte(p, e))
    ensures FlowInv(p, WriteByte(p, e), peer, bytes + [Output(p[e.pc].io)[e.wrote]])
  {
    hide Output, Stream;
    var e' := WriteByte(p, e);
    assert DualIo(p[e.pc].io, q[e.pc].io);
    StreamAt(p, e.pc, e.wrote);
    StreamStep(p, e.pc);
    TextsStep(q, e.pc);
    assert Written(p, e') == Written(p, e) + 1;
  }

  lemma StreamStep(p: Script, k: nat)
    requires k < |p|
    ensures |Stream(p, k + 1)| == |Stream(p, k)| + |Output(p[k].io)|
  {
  }

  lemma TextsStep(p: Script, k: nat)
    requires k < |p|
    ensures Texts(p, k + 1) == Texts(p, k) + (if p[k].io.Send? then [p[k].io.m.text] else [])
  {
  }

  /** Writing does not disturb what the side has consumed. */
  lemma WriteKeepsInput(p: Script, q: Script, e: End, peer: End, bytes: Text)
    requires Answers(p, q) && EndInv(p, q, e) && peer.pc <= |q| && FlowInv(q, peer, e, bytes) && CanWrite(p, e)
    ensures WriteByte(p, e).pc <= |q| && FlowInv(q, peer, WriteByte(p, e), bytes)
  {
    assert DualIo(p[e.pc].io, q[e.pc].io);
    if p[e.pc].io.Send? {
      OutputEmpty(q, e.pc);
    }
  }

  lemma ReadKeeps(p: Script, q: Script, e: End, peer: End, bytes: Text)
    requires Answers(p, q) && EndInv(p, q, e) && peer.pc <= |q| && FlowInv(q, peer, e, bytes)
    requires ReadyToRead(p, e) && bytes != []
    ensures EndInv(p, q, Consume(p, e, bytes[0]))
    ensures FlowInv(q, peer, Consume(p, e, bytes[0]), bytes[1..])
  {
    hide Stream;
    var io := q[e.pc].io;
    assert DualIo(p[e.pc].io, io);
    StreamAt(q, e.pc, |e.acc|);
    var b := bytes[0];
    assert b == Output(io)[|e.acc|];
    if io.Send? {
      assert e.acc == io.m.text[..|e.acc|];
      if |e.acc| == |io.m.text| {
        assert e.acc == io.m.text && b == NEWLINE;
      } else {
        assert b == io.m.text[|e.acc|] && b != NEWLINE;
        assert e.acc + [b] == io.m.text[..|e.acc| + 1];
      }
    }
    StreamStep(q, e.pc);
    TextsStep(q, e.pc);
    assert Consumed(q, Consume(p, e, bytes[0])) == Consumed(q, e) + 1;
  }

  /** Reading does not disturb what the side has written. */
  lemma ReadKeepsOutput(p: Script, q: Script, e: End, peer: End, bytes: Text, b: Octet)
    requires Answers(p, q) && EndInv(p, q, e) && peer.pc <= |p| && FlowInv(p, e, peer, bytes) && ReadyToRead(p, e)
    ensures Consume(p, e, b).pc <= |p| && FlowInv(p, Consume(p, e, b), peer, bytes)
  {
    hide Stream;
    StreamStep(p, e.pc);
  }

  lemma EofKeeps(p: Script, q: Script, e: End, peer: End, coming: Text, going: Text)
    requires Answers(p, q) && EndInv(p, q, e) && peer.pc <= |p| && ReadyToRead(p, e) && e.acc != []
    requires coming == [] && Closed(q, peer) && FlowInv(p, e, peer, going)
    ensures var e' := NextOp(e.(inbox := e.inbox + [e.acc], cut := true));
            EndInv(p, q, e') && FlowInv(q, peer, e', coming) && FlowInv(p, e', peer, going)
  {
    hide Stream;
    assert DualIo(p[e.pc].io, q[e.pc].io);
    StreamStep(p, e.pc);
    TextsStep(q, e.pc);
  }

  /** The invariant as seen from one side. */
  ghost predicate SideInv(ps: Scripts, w: World, side: Side) {
    var p, q := ScriptOf(ps, side), ScriptOf(ps, Peer(side));
    var e, peer := EndOf(w, side), EndOf(w, Peer(side));
    && EndInv(p, q, e) && EndInv(q, p, peer)
    && FlowInv(p, e, peer, Incoming(w, Peer(side))) && FlowInv(q, peer, e, Incoming(w, side))
  }

  lemma SideInvIsInv(ps: Scripts, w: World, side: Side)
    requires Dual(ps)
    ensures SideInv(ps, w, side) <==> Inv(ps, w)
  {
    hide EndInv, FlowInv, Dual;
  }

  /** What a step that moves no bytes may change of a side. */
  lemma QuietKeeps(p: Script, q: Script, e: End, e': End, peer: End, coming: Text, going: Text)
    requires EndInv(p, q, e) && peer.pc <= |p| && FlowInv(q, peer, e, coming) && FlowInv(p, e, peer, going)
    requires e' == e.(acted := e'.acted, failed := e'.failed)
    requires e.failed ==> e'.failed
    requires e'.acted == e.acted || (e.pc < |p| && e.acted < e'.acted <= |p[e.pc].before|)
    ensures EndInv(p, q, e') && FlowInv(q, peer, e', coming) && FlowInv(p, e', peer, going)
  {
    hide Stream, Output;
  }

  lemma SideInvNext(ps: Scripts, w: World, step: Step)
    requires Dual(ps) && SideInv(ps, w, step.side) && Apply(ps, w, step).Some?
    ensures SideInv(ps, Apply(ps, w, step).value, step.side)
  {
    hide Stream, Output, EndInv, FlowInv, Consume, WriteByte, Dual;
    DualAnswers(ps);
    var side := step.side;
    var p, q := ScriptOf(ps, side), ScriptOf(ps, Peer(side));
    var e, peer := EndOf(w, side), EndOf(w, Peer(side));
    var coming, going := Incoming(w, side), Incoming(w, Peer(side));
    var w' := Apply(ps, w, step).value;
    var e' := EndOf(w', side);
    Lengths(p, q, e);
    Lengths(q, p, peer);
    match step
    case Write(_) =>
      WriteKeeps(p, q, e, peer, going);
      WriteKeepsInput(p, q, e, peer, coming);
    case Read(_) =>
      ReadKeeps(p, q, e, peer, coming);
      ReadKeepsOutput(p, q, e, peer, going, coming[0]);
    case Eof(_, parsed) =>
      if e.acc != [] && parsed {
        EofKeeps(p, q, e, peer, coming, going);
      } else {
        QuietKeeps(p, q, e, e', peer, coming, going);
      }
    case Act(_) =>
      QuietKeeps(p, q, e, e', peer, coming, going);
    case Abort(_) =>
      QuietKeeps(p, q, e, e', peer, coming, going);
  }

  lemma Lengths(p: Script, q: Script, e: End)
    requires EndInv(p, q, e)
    ensures e.pc <= |p| == |q|
  {
  }

  lemma InvNext(ps: Scripts, w: World, step: Step)
    requires Dual(ps) && Inv(ps, w) && Apply(ps, w, step).Some?
    ensures Inv(ps, Apply(ps, w, step).value)
  {
    hide Apply, Inv, SideInv, Dual;
    SideInvIsInv(ps, w, step.side);
    SideInvNext(ps, w, step);
    SideInvIsInv(ps, Apply(ps, w, step).value, step.side);
  }

  lemma {:induction false} ExecInv(ps: Scripts, steps: seq<Step>)
    requires Dual(ps) && Exec(ps, steps).Some?
    ensures Inv(ps, Exec(ps, steps).value)
  {
    hide Apply, Inv, Dual;
    if steps == [] {
      StartInv(ps);
    } else {
      var init := steps[..|steps| - 1];
      ExecInv(ps, init);
      InvNext(ps, Exec(ps, init).value, steps[|steps| - 1]);
    }
  }

  lemma StartInv(ps: Scripts)
    requires Dual(ps)
    ensures Inv(ps, START)
  {
    hide Output;
    if |ps.client| > 0 {
      assert DualIo(ps.client[0].io, ps.server[0].io);
      SendsSomething(ps.client[0].io, ps.server[0].io);
    }
  }

  lemma SendsSomething(a: Io, b: Io)
    requires DualIo(a, b)
    ensures a.Send? ==> |Output(a)| > 1
    ensures b.Send? ==> |Output(b)| > 1
  {
  }

  // ----- What the session guarantees -----

  /**
   * In every reachable state each side has received, exchange by exchange, exactly the lines its peer
   * sent for those exchanges, and its barriers have consumed nothing but barrier bytes. (A last line that
   * the peer's abort cut short and that still parsed is a prefix of what was to be sent.)
   */
  lemma LinesArriveAsSent(ps: Scripts, steps: seq<Step>, side: Side)
    requires Dual(ps) && Exec(ps, steps).Some?
    ensures var e := EndOf(Exec(ps, steps).value, side);
            var q := ScriptOf(ps, Peer(side));
            && e.pc <= |q|
            && AsSent(e.inbox, Texts(q, e.pc), e.cut)
            && (forall i :: 0 <= i < |e.barriers| ==> e.barriers[i] == BARRIER)
  {
    ExecInv(ps, steps);
  }

  /** A side that waits for a byte of a finished exchange finds it in its stream. */
  lemma BytesAwait(p: Script, q: Script, e: End, peer: End, coming: Text)
    requires Answers(p, q) && EndInv(p, q, e) && peer.pc <= |q| && FlowInv(q, peer, e, coming)
    requires ReadyToRead(p, e) && !e.cut
    requires Written(q, peer) >= At(q, e.pc, |Output(q[e.pc].io)|)
    ensures coming != []
  {
    hide Stream;
    assert DualIo(p[e.pc].io, q[e.pc].io);
    ReadsLess(p, q, e);
  }

  lemma ReadsLess(p: Script, q: Script, e: End)
    requires Answers(p, q) && EndInv(p, q, e) && ReadyToRead(p, e)
    ensures Consumed(q, e) < At(q, e.pc, |Output(q[e.pc].io)|)
  {
    hide Stream;
    assert DualIo(p[e.pc].io, q[e.pc].io);
  }

  lemma WrittenPast(q: Script, peer: End, k: nat)
    requires k < peer.pc <= |q|
    ensures Written(q, peer) >= At(q, k, |Output(q[k].io)|)
  {
    hide Stream, Output;
    PositionsOrdered(q, k, peer.pc);
  }

  /** Two sides that both wait with nothing on its way would have to be at exchanges that do not answer each other. */
  lemma NeverBothWaiting(ps: Scripts, w: World)
    requires Dual(ps) && Inv(ps, w)
    requires ReadyToRead(ps.client, w.client) && ReadyToRead(ps.server, w.server)
    ensures w.toClient != [] || w.toServer != []
  {
    hide Stream;
    DualAnswers(ps);
    var c, d := w.client, w.server;
    assert DualIo(ps.client[c.pc].io, ps.server[c.pc].io);
    if c.pc < d.pc {
      WrittenPast(ps.server, d, c.pc);
      BytesAwait(ps.client, ps.server, c, d, w.toClient);
    } else if d.pc < c.pc {
      WrittenPast(ps.client, c, d.pc);
      BytesAwait(ps.server, ps.client, d, c, w.toServer);
    } else {
      BytesAwait(ps.client, ps.server, c, d, w.toClient);
    }
  }

  /**
   * Dual scripts never deadlock: in every reachable state in which some side is still running, some step
   * other than an abort can be taken. In particular a side whose peer is gone never keeps waiting.
   */
  lemma NeverStuck(ps: Scripts, steps: seq<Step>) returns (step: Step)
    requires Dual(ps) && Exec(ps, steps).Some?
    requires var w := Exec(ps, steps).value;
             Running(ps.client, w.client) || Running(ps.server, w.server)
    ensures !step.Abort? && Apply(ps, Exec(ps, steps).value, step).Some?
  {
    ExecInv(ps, steps);
    step := Enabled(ps, Exec(ps, steps).value);
  }

  lemma Enabled(ps: Scripts, w: World) returns (step: Step)
    requires Dual(ps) && Inv(ps, w)
    requires Running(ps.client, w.client) || Running(ps.server, w.server)
    ensures !step.Abort? && Apply(ps, w, step).Some?
  {
    var c := OwnStep(ps, w, Client);
    if c.Some? {
      return c.value;
    }
    var d := OwnStep(ps, w, Server);
    if d.Some? {
      return d.value;
    }
    assert false by {
      NeverBothWaiting(ps, w);
    }
  }

  /** What a side can do on its own; if nothing, it waits for a running peer on an empty stream. */
  lemma OwnStep(ps: Scripts, w: World, side: Side) returns (step: Option<Step>)
    requires Dual(ps) && Inv(ps, w)
    ensures step.Some? ==> !step.value.Abort? && Apply(ps, w, step.value).Some?
    ensures step.None? && Running(ScriptOf(ps, side), EndOf(w, side))
            ==> ReadyToRead(ScriptOf(ps, side), EndOf(w, side)) && Incoming(w, side) == []
                && Running(ScriptOf(ps, Peer(side)), EndOf(w, Peer(side)))
  {
    hide Stream, FlowInv;
    var p, e := ScriptOf(ps, side), EndOf(w, side);
    if !Running(p, e) { return None; }
    if e.acted < |p[e.pc].before| { return Some(Act(side)); }
    if CanWrite(p, e) { return Some(Write(side)); }
    assert ReadyToRead(p, e);
    if Incoming(w, side) != [] { return Some(Read(side)); }
    if Closed(ScriptOf(ps, Peer(side)), EndOf(w, Peer(side))) { return Some(Eof(side, false)); }
    return None;
  }

  // ----- Every session ends -----

  /** What the exchanges from `k` on still have to do, a written byte counting for its reading as well. */
  function Remaining(p: Script, k: nat): nat
    requires k <= |p|
    decreases |p| - k
  {
    if k == |p| then 0 else |p[k].before| + 2 * |Output(p[k].io)| + 1 + Remaining(p, k + 1)
  }

  function WorkOf(p: Script, e: End): int {
    (if e.pc <= |p| then Remaining(p, e.pc) else 0) - e.acted - 2 * e.wrote + (if e.failed then 0 else 1)
  }

  function Work(ps: Scripts, w: World): int {
    WorkOf(ps.client, w.client) + WorkOf(ps.server, w.server) + |w.toServer| + |w.toClient|
  }

  /** The counters of the exchange under way stay within it. */
  ghost predicate Within(p: Script, e: End) {
    && e.pc <= |p|
    && (if e.pc < |p| then e.acted <= |p[e.pc].before| && e.wrote <= |Output(p[e.pc].io)|
        else e.acted == 0 && e.wrote == 0)
  }

  lemma WithinNext(ps: Scripts, w: World, step: Step, side: Side)
    requires Within(ScriptOf(ps, side), EndOf(w, side)) && Apply(ps, w, step).Some?
    ensures Within(ScriptOf(ps, side), EndOf(Apply(ps, w, step).value, side))
  {
    hide Output;
  }

  lemma {:induction false} ExecWithin(ps: Scripts, steps: seq<Step>, side: Side)
    requires Exec(ps, steps).Some?
    ensures Within(ScriptOf(ps, side), EndOf(Exec(ps, steps).value, side))
  {
    if steps != [] {
      hide Apply, Within;
      ExecWithin(ps, steps[..|steps| - 1], side);
      WithinNext(ps, Exec(ps, steps[..|steps| - 1]).value, steps[|steps| - 1], side);
    }
  }

  lemma ConsumeShrinks(p: Script, e: End, b: Octet)
    requires ReadyToRead(p, e) && Within(p, e)
    ensures WorkOf(p, Consume(p, e, b)) <= WorkOf(p, e)
  {
  }

  lemma WriteShrinks(p: Script, e: End)
    requires CanWrite(p, e)
    ensures WorkOf(p, WriteByte(p, e)) <= WorkOf(p, e) - 2
  {
  }

  lemma EofShrinks(p: Script, e: End, inbox: seq<Text>)
    requires ReadyToRead(p, e) && Within(p, e)
    ensures WorkOf(p, NextOp(e.(inbox := inbox, cut := true))) < WorkOf(p, e)
  {
  }

  lemma WorkShrinks(ps: Scripts, w: World, step: Step)
    requires Apply(ps, w, step).Some? && Within(ScriptOf(ps, step.side), EndOf(w, step.side))
    ensures Work(ps, Apply(ps, w, step).value) < Work(ps, w)
  {
    hide Output, Consume, WriteByte, NextOp, Within;
    var p, e := ScriptOf(ps, step.side), EndOf(w, step.side);
    match step
    case Read(side) => ConsumeShrinks(p, e, Incoming(w, side)[0]);
    case Write(side) => WriteShrinks(p, e);
    case Eof(side, parsed) => EofShrinks(p, e, e.inbox + [e.acc]);
    case _ =>
  }

  lemma {:induction false} WorkBound(ps: Scripts, steps: seq<Step>)
    requires Exec(ps, steps).Some?
    ensures Work(ps, Exec(ps, steps).value) + |steps| <= Work(ps, START)
  {
    hide Apply, Work, Within;
    if steps != [] {
      var init, step := steps[..|steps| - 1], steps[|steps| - 1];
      WorkBound(ps, init);
      ExecWithin(ps, init, step.side);
      WorkShrinks(ps, Exec(ps, init).value, step);
    }
  }

  /**
   * No session goes on forever, whatever the scripts: with `NeverStuck`, both sides of dual scripts end in
   * every run that is carried on.
   */
  lemma SessionsEnd(ps: Scripts, steps: seq<Step>)
    requires Exec(ps, steps).Some?
    ensures |steps| <= Remaining(ps.client, 0) + Remaining(ps.server, 0) + 2
  {
    hide Exec, Remaining, Within;
    var w := Exec(ps, steps).value;
    WorkBound(ps, steps);
    ExecWithin(ps, steps, Client);
    ExecWithin(ps, steps, Server);
    WorkNatural(ps.client, w.client);
    WorkNatural(ps.server, w.server);
  }

  lemma WorkNatural(p: Script, e: End)
    requires Within(p, e)
    ensures WorkOf(p, e) >= 0
  {
  }

  // ----- What an abort does to the other side -----

  /** Nobody can do anything but give up. */
  ghost predicate Stuck(ps: Scripts, w: World) {
    forall step: Step :: !step.Abort? ==> Apply(ps, w, step).None?
  }

  /**
   * A read that waits on an empty stream whose other end is closed is over: the side can take no other step,
   * and that one ends it with an error or, at most, on a line that was cut short.
   */
  lemma PendingReadEnds(ps: Scripts, w: World, side: Side)
    requires ReadyToRead(ScriptOf(ps, side), EndOf(w, side)) && Incoming(w, side) == []
    requires Closed(ScriptOf(ps, Peer(side)), EndOf(w, Peer(side)))
    ensures Apply(ps, w, Eof(side, false)).Some?
    ensures forall step: Step :: step.side == side && !step.Abort? && Apply(ps, w, step).Some? ==>
              && step.Eof?
              && (var e := EndOf(Apply(ps, w, step).value, side); e.failed || (e.cut && EndOf(w, side).acc != []))
  {
  }

  /** A side that has ended although the peer still had something to write has failed or accepted a cut line. */
  lemma EndedShort(ps: Scripts, steps: seq<Step>, side: Side)
    requires Dual(ps) && Exec(ps, steps).Some?
    ensures var w := Exec(ps, steps).value;
            var q, e, peer := ScriptOf(ps, Peer(side)), EndOf(w, side), EndOf(w, Peer(side));
            && peer.pc <= |q|
            && (!Running(ScriptOf(ps, side), e) && Written(q, peer) < |Stream(q, |q|)| ==> e.failed || e.cut)
  {
    hide Stream;
    ExecInv(ps, steps);
  }

  /**
   * After the peer's abort, a session that can go no further has this side failed, ended on a line cut short, or
   * done with its script and in possession of everything the peer's had to send.
   */
  lemma AbortEndsPeer(ps: Scripts, steps: seq<Step>, side: Side)
    requires Dual(ps) && Exec(ps, steps).Some? && Stuck(ps, Exec(ps, steps).value)
    requires EndOf(Exec(ps, steps).value, Peer(side)).failed
    ensures var w := Exec(ps, steps).value;
            var p, q, e, peer := ScriptOf(ps, side), ScriptOf(ps, Peer(side)), EndOf(w, side), EndOf(w, Peer(side));
            || e.failed || e.cut
            || (Finished(p, e) && peer.pc <= |q| && Written(q, peer) == |Stream(q, |q|)| && e.inbox == Texts(q, |q|))
  {
    hide Exec, Stream, Apply;
    var w := Exec(ps, steps).value;
    ExecInv(ps, steps);
    StuckMeansEnded(ps, w);
  }

  lemma StuckMeansEnded(ps: Scripts, w: World)
    requires Dual(ps) && Inv(ps, w)
    ensures Running(ps.client, w.client) || Running(ps.server, w.server) ==> !Stuck(ps, w)
  {
    hide Apply, Inv;
    if Running(ps.client, w.client) || Running(ps.server, w.server) {
      var step := Enabled(ps, w);
      assert Apply(ps, w, step).Some?;
    }
  }

  // ----- Sessions in which nobody aborts -----

  /** Nobody has failed and no line was cut short. */
  predicate Healthy(w: World) {
    !w.client.failed && !w.server.failed && !w.client.cut && !w.server.cut
  }

  lemma HealthyNext(ps: Scripts, w: World, step: Step)
    requires Dual(ps) && Inv(ps, w) && Healthy(w) && Apply(ps, w, step).Some? && !step.Abort?
    ensures Healthy(Apply(ps, w, step).value)
  {
    hide Inv, Dual, Output;
    if step.Eof? {
      SomethingToRead(ps, w, step.side);
    }
  }

  /** A healthy side whose peer is done still has something to read where it reads. */
  lemma SomethingToRead(ps: Scripts, w: World, side: Side)
    requires Dual(ps) && Inv(ps, w) && Healthy(w)
    requires ReadyToRead(ScriptOf(ps, side), EndOf(w, side))
    requires Closed(ScriptOf(ps, Peer(side)), EndOf(w, Peer(side)))
    ensures Incoming(w, side) != []
  {
    hide Stream, Output;
    DualAnswers(ps);
    var p, q := ScriptOf(ps, side), ScriptOf(ps, Peer(side));
    var e, peer := EndOf(w, side), EndOf(w, Peer(side));
    WrittenPast(q, peer, e.pc);
    BytesAwait(p, q, e, peer, Incoming(w, side));
  }

  lemma {:induction false} ExecHealthy(ps: Scripts, steps: seq<Step>)
    requires Dual(ps) && Exec(ps, steps).Some? && forall i :: 0 <= i < |steps| ==> !steps[i].Abort?
    ensures Healthy(Exec(ps, steps).value)
  {
    hide Apply, Inv, Dual;
    if steps != [] {
      var init := steps[..|steps| - 1];
      ExecHealthy(ps, init);
      ExecInv(ps, init);
      HealthyNext(ps, Exec(ps, init).value, steps[|steps| - 1]);
    }
  }

  /**
   * Without aborts no read ever fails, and when both sides have ended each has received every line of
   * the other's script.
   */
  lemma CompleteSession(ps: Scripts, steps: seq<Step>)
    requires Dual(ps) && Exec(ps, steps).Some? && forall i :: 0 <= i < |steps| ==> !steps[i].Abort?
    ensures var w := Exec(ps, steps).value;
            && !w.client.failed && !w.server.failed
            && (Finished(ps.client, w.client) && Finished(ps.server, w.server)
                ==> w.client.inbox == Texts(ps.server, |ps.server|) && w.server.inbox == Texts(ps.client, |ps.client|)
                    && w.toServer == [] && w.toClient == [])
  {
    ExecHealthy(ps, steps);
    ExecInv(ps, steps);
  }

  // ----- Barriers -----

  /** The actions a side has performed before exchange `k` are all those its script lists there. */
  predicate ReachedBarrier(p: Script, e: End, k: nat)
    requires k < |p|
  {
    e.pc > k || (e.pc == k && e.acted == |p[k].before| && e.wrote > 0)
  }

  /** What is true of the peer at a barrier stays true. */
  lemma ReachedStays(ps: Scripts, w: World, step: Step, side: Side, k: nat)
    requires Apply(ps, w, step).Some? && k < |ScriptOf(ps, side)|
    requires ReachedBarrier(ScriptOf(ps, side), EndOf(w, side), k)
    ensures ReachedBarrier(ScriptOf(ps, side), EndOf(Apply(ps, w, step).value, side), k)
  {
  }

  /** A side passes a barrier by reading a byte the peer wrote there. */
  lemma PassingBarrier(ps: Scripts, w: World, side: Side, k: nat)
    requires Dual(ps) && Inv(ps, w) && k < |ps.client| && !EndOf(w, side).cut
    requires ScriptOf(ps, side)[k].io.Sync? && EndOf(w, side).pc > k
    ensures ReachedBarrier(ScriptOf(ps, Peer(side)), EndOf(w, Peer(side)), k)
  {
    hide Stream;
    DualAnswers(ps);
    var p, q := ScriptOf(ps, side), ScriptOf(ps, Peer(side));
    var e, peer := EndOf(w, side), EndOf(w, Peer(side));
    assert DualIo(p[k].io, q[k].io);
    PositionsOrdered(q, k, e.pc);
    if peer.pc < k {
      PositionsOrdered(q, peer.pc, k);
    }
  }

  lemma AtBarrier(ps: Scripts, w: World, side: Side)
    requires Dual(ps) && Inv(ps, w) && EndOf(w, side).pc < |ps.client|
    requires ScriptOf(ps, side)[EndOf(w, side).pc].io.Sync?
    ensures EndOf(w, side).acc == [] && (EndOf(w, side).cut ==> Incoming(w, side) == [])
  {
    hide Stream, AsSent, Output;
    var k := EndOf(w, side).pc;
    assert DualIo(ps.client[k].io, ps.server[k].io);
  }

  /** A side that accepted a cut line passes no further barrier. */
  lemma PassesUncut(ps: Scripts, w: World, step: Step, side: Side, k: nat)
    requires Dual(ps) && Inv(ps, w) && Apply(ps, w, step).Some? && k < |ps.client|
    requires ScriptOf(ps, side)[k].io.Sync? && EndOf(w, side).pc <= k < EndOf(Apply(ps, w, step).value, side).pc
    ensures !EndOf(Apply(ps, w, step).value, side).cut
  {
    hide Inv, Dual, Output;
    assert EndOf(w, side).pc == k && step.side == side;
    AtBarrier(ps, w, side);
  }

  /**
   * A barrier holds both sides: neither has passed it before the other has reached it, with everything
   * its script does up to there done. This is so in every run, whoever aborts.
   */
  lemma {:induction false} BarrierHolds(ps: Scripts, steps: seq<Step>, side: Side, k: nat)
    requires Dual(ps) && Exec(ps, steps).Some? && k < |ps.client|
    requires ScriptOf(ps, side)[k].io.Sync? && EndOf(Exec(ps, steps).value, side).pc > k
    ensures ReachedBarrier(ScriptOf(ps, Peer(side)), EndOf(Exec(ps, steps).value, Peer(side)), k)
  {
    hide Apply, Inv, ReachedBarrier;
    if steps != [] {
      var init, step := steps[..|steps| - 1], steps[|steps| - 1];
      var w := Exec(ps, init).value;
      if EndOf(w, side).pc > k {
        BarrierHolds(ps, init, side, k);
        ReachedStays(ps, w, step, Peer(side), k);
      } else {
        ExecInv(ps, init);
        ExecInv(ps, steps);
        PassesUncut(ps, w, step, side, k);
        PassingBarrier(ps, Exec(ps, steps).value, side, k);
      }
    }
  }
}
