/** The client's and the server's half of a session as programs over a connection. */
module SessionHosts {
  import opened Wrappers
  import opened Session
  import opened SessionScripts
  import opened Comm

  /** What either program makes of the lines it reads; `None` and `false` are parse errors. */
  datatype Codec = Codec(
    requestOf: Text -> Option<(Transport, Mode)>,
    admits: Text -> Option<bool>,
    parses: (Kind, Text) -> bool)

  /** The codec reads the lines of a session as what they were written from. */
  predicate Understands(codec: Codec, l: Lines, transport: Transport, mode: Mode) {
    && codec.requestOf(l.request) == Some((transport, mode)) && codec.admits(l.ack) == Some(Supported(transport, mode))
    && codec.parses(ClientEndpoint, l.endpoint) && codec.parses(AccuracyReport, l.report)
    && codec.parses(ResultRow, l.row)
  }

  /**
   * `Failed` is an error of the RDMA side: a resource, a post, a poll or a work completion. `CannotInitiate` is the
   * refusal of a client that has no operation for one-sided requests.
   */
  datatype HostError = NotImplemented | Disconnected | Malformed | TurnedDown | CannotInitiate | Failed

  /** The exchanges before which the client has RDMA work to do, which may fail. */
  function ClientWork(mode: Mode): set<nat> {
    match mode
    case Bandwidth => {0, 2, 3, 6}
    case Latency => {0, 2, 3, 5, 6}
    case Accuracy => {0, 2, 3, 4}
    case _ => {0, 2}
  }

  /** And the server. */
  function ServerWork(mode: Mode): set<nat> {
    match mode
    case Bandwidth => {1, 3, 5, 6}
    case Latency => {1, 3, 5, 6}
    case Accuracy => {1, 3, 4}
    case _ => {1, 3}
  }

  /**
   * A side that runs `p` has done the first `k` exchanges: it has written what they write, and if the bytes
   * sent to it begin with what the first `k` exchanges of the peer's script `q` write, it has taken those.
   */
  ghost predicate InStep(conn: Conn, p: Script, q: Script, whole: Text, k: nat)
    reads conn
  {
    && k <= |p| == |q|
    && conn.written == Stream(p, k)
    && (Stream(q, k) <= whole ==> Stream(q, k) + conn.Unread() == whole)
  }

  /**
   * A side gave up. It has written whole exchanges of its script; if it failed, the work before the next one, one
   * of `bad`, did; and if it found the stream closed, the peer's script was not complete.
   */
  ghost predicate Stopped(e: HostError, conn: Conn, p: Script, q: Script, whole: Text, bad: set<nat>)
    reads conn
  {
    && (exists n: nat :: n <= |p| && conn.written == Stream(p, n) && (e == Failed ==> n in bad))
    && (e == Disconnected ==> !(Stream(q, |q|) <= whole))
  }

  /** The peer's exchange `k` is the next thing in the stream. */
  lemma Ahead(q: Script, whole: Text, k: nat, rest: Text)
    requires k < |q| && Stream(q, k + 1) <= whole && (Stream(q, k) <= whole ==> Stream(q, k) + rest == whole)
    ensures Output(q[k].io) <= rest
    ensures Stream(q, k + 1) + rest[|Output(q[k].io)|..] == whole
  {
    hide Output;
    var before, out := Stream(q, k), Output(q[k].io);
    assert Stream(q, k + 1) == before + out;
    assert whole[..|before + out|] == before + out;
    assert before <= whole;
    assert rest == whole[|before|..];
    assert rest[..|out|] == whole[|before|..|before + out|] == out;
  }

  lemma MayStop(e: HostError, conn: Conn, p: Script, q: Script, whole: Text, k: nat, bad: set<nat>)
    requires InStep(conn, p, q, whole, k) && !e.Disconnected? && (e == Failed ==> k in bad)
    ensures Stopped(e, conn, p, q, whole, bad)
  {
  }

  /** A complete stream holds every exchange of the peer's script. */
  lemma Complete(q: Script, whole: Text)
    ensures Stream(q, |q|) <= whole ==> forall n: nat :: n <= |q| ==> Stream(q, n) <= whole
  {
    forall n: nat | n <= |q|
      ensures Stream(q, n) <= Stream(q, |q|)
    {
      StreamGrows(q, n, |q|);
    }
  }

  // ----- Single exchanges -----

  method Sends(conn: Conn, m: Message, ghost p: Script, ghost q: Script, ghost whole: Text, ghost k: nat)
    requires Answers(p, q) && InStep(conn, p, q, whole, k) && k < |p| && p[k].io == Send(m)
    modifies conn
    ensures InStep(conn, p, q, whole, k + 1)
  {
    conn.SendMsg(m.text);
    assert Stream(q, k + 1) == Stream(q, k);
    assert Stream(p, k) + m.text + [NEWLINE] == Stream(p, k + 1);
  }

  method Receives(
    conn: Conn, ghost p: Script, ghost q: Script, ghost whole: Text, ghost k: nat, ghost bad: set<nat>)
    returns (r: Result<Text, HostError>)
    requires Answers(p, q) && InStep(conn, p, q, whole, k) && k < |p| && p[k].io.Recv?
    modifies conn
    ensures r.Ok? ==> InStep(conn, p, q, whole, k + 1)
    ensures r.Ok? && Stream(q, k + 1) <= whole ==> r.value == q[k].io.m.text
    ensures r.Err? ==> r.error == Disconnected && Stopped(r.error, conn, p, q, whole, bad)
    ensures r.Err? ==> !(Stream(q, k + 1) <= whole)
  {
    ghost var all := conn.Unread();
    assert DualIo(p[k].io, q[k].io);
    ghost var text := q[k].io.m.text;
    if Stream(q, k + 1) <= whole {
      Ahead(q, whole, k, all);
      OneLine(text, all[|text| + 1..]);
      assert all == text + [NEWLINE] + all[|text| + 1..];
      assert all[..|text|] == text;
    }
    Complete(q, whole);
    assert Stream(p, k + 1) == Stream(p, k);
    var line := conn.RecvMsg();
    match line {
      case Ok(t) => return Ok(t);
      case Err(_) => return Err(Disconnected);
    }
  }

  /** What work there is on the RDMA side, which fails if `k` is one of `bad`, and a barrier. */
  method WorkAndSync(conn: Conn, ghost p: Script, ghost q: Script, ghost whole: Text, k: nat, bad: set<nat>)
    returns (r: Result<(), HostError>)
    requires Answers(p, q) && InStep(conn, p, q, whole, k) && k < |p| && p[k].io.Sync?
    modifies conn
    ensures r.Ok? ==> InStep(conn, p, q, whole, k + 1) && k !in bad
    ensures r.Err? ==> r.error in {Failed, Disconnected} && Stopped(r.error, conn, p, q, whole, bad)
  {
    if k in bad {
      return Err(Failed);
    }
    ghost var all := conn.Unread();
    assert DualIo(p[k].io, q[k].io);
    if Stream(q, k + 1) <= whole {
      Ahead(q, whole, k, all);
    }
    Complete(q, whole);
    var passed := conn.Sync();
    assert conn.written == Stream(p, k + 1);
    return if passed.Ok? then Ok(()) else Err(Disconnected);
  }

  // ----- The two programs -----

  /** The exchange in which the client hands over its result. */
  function LastExchange(mode: Mode): nat {
    if mode.Bandwidth? || mode.Latency? then 7 else 6
  }

  /** The exchanges of both halves of a benchmark, by position. */
  lemma Exchanges(mode: Mode, l: Lines)
    requires WellFormed(l)
    ensures var p, q := ClientScript(Run(mode), l), ServerScript(Run(mode), l);
            var last := LastExchange(mode);
            && |p| == |q| == last + 1 && Answers(p, q) && Answers(q, p)
            && p[0].io == Send(Message(BenchmarkRequest, l.request))
            && q[1].io == Send(Message(HandshakeAck, l.ack))
            && p[2].io == Send(Message(ClientEndpoint, l.endpoint))
            && p[4].io == q[4].io == Sync
            && (if TwoSided(mode) then p[3].io == q[3].io == Sync
                else q[3].io == Send(Message(RemoteBufferInfo, l.buffer)) && p[5].io == q[5].io == Sync)
            && (mode.Bandwidth? || mode.Latency? ==> p[5].io == p[6].io == q[5].io == q[6].io == Sync)
            && (mode.Accuracy? ==> q[5].io == Send(Message(AccuracyReport, l.report)))
            && p[last].io == Send(Message(ResultRow, l.row))
  {
    ScriptsAreDual(Run(mode), l);
    DualAnswers(ScriptsOf(Run(mode), l));
  }

  /** The part of the benchmark both halves have in common: the barriers, with work before each. */
  method Barriers(conn: Conn, mode: Mode, ghost p: Script, ghost q: Script, ghost whole: Text, bad: set<nat>)
    returns (r: Result<(), HostError>)
    requires TwoSided(mode) && Answers(p, q) && InStep(conn, p, q, whole, 3) && |p| > 6
    requires p[3].io == p[4].io == Sync && (!mode.Accuracy? ==> p[5].io == p[6].io == Sync)
    modifies conn
    ensures r.Ok? ==> InStep(conn, p, q, whole, if mode.Accuracy? then 5 else 7) && 3 !in bad && 4 !in bad
    ensures r.Ok? && !mode.Accuracy? ==> 5 !in bad && 6 !in bad
    ensures r.Err? ==> r.error in {Failed, Disconnected} && Stopped(r.error, conn, p, q, whole, bad)
  {
    hide Stream, Answers;
    var _ :- WorkAndSync(conn, p, q, whole, 3, bad);
    var _ :- WorkAndSync(conn, p, q, whole, 4, bad);
    if !mode.Accuracy? {
      var _ :- WorkAndSync(conn, p, q, whole, 5, bad);
      var _ :- WorkAndSync(conn, p, q, whole, 6, bad);
    }
    return Ok(());
  }

  /** Reads whether the server takes the request. */
  method Hear(conn: Conn, codec: Codec, ghost mode: Mode, l: Lines, ghost whole: Text, ghost bad: set<nat>)
    returns (r: Result<(), HostError>)
    requires WellFormed(l)
    requires InStep(conn, ClientScript(Run(mode), l), ServerScript(Run(mode), l), whole, 1)
    modifies conn
    ensures var p, q := ClientScript(Run(mode), l), ServerScript(Run(mode), l);
            && (r.Ok? ==> InStep(conn, p, q, whole, 2))
            && (r.Err? ==> r.error != Failed && Stopped(r.error, conn, p, q, whole, bad))
            && (Stream(q, 2) <= whole && codec.admits(l.ack) == Some(true) ==> r.Ok?)
            && (Stream(q, 2) <= whole && codec.admits(l.ack) == Some(false) ==> r == Err(TurnedDown))
  {
    ghost var p, q := ClientScript(Run(mode), l), ServerScript(Run(mode), l);
    Exchanges(mode, l);
    hide Stream, ClientScript, ServerScript, Answers, InStep, Stopped, Output, WellFormed, IsJson, DualIo;
    var ack :- Receives(conn, p, q, whole, 1, bad);
    match codec.admits(ack) {
      case None =>
        MayStop(Malformed, conn, p, q, whole, 2, bad);
        return Err(Malformed);
      case Some(admitted) =>
        if !admitted {
          MayStop(TurnedDown, conn, p, q, whole, 2, bad);
          return Err(TurnedDown);
        }
    }
    return Ok(());
  }

  /** The client's part of the handshake, building its queue pair on the way. */
  method Greet(conn: Conn, codec: Codec, ghost mode: Mode, l: Lines, ghost whole: Text, bad: set<nat>)
    returns (r: Result<(), HostError>)
    requires WellFormed(l)
    requires InStep(conn, ClientScript(Run(mode), l), ServerScript(Run(mode), l), whole, 0)
    modifies conn
    ensures var p, q := ClientScript(Run(mode), l), ServerScript(Run(mode), l);
            && (r.Ok? ==> InStep(conn, p, q, whole, 3) && 0 !in bad && 2 !in bad)
            && (r.Err? ==> Stopped(r.error, conn, p, q, whole, bad))
            && (Stream(q, 2) <= whole && codec.admits(l.ack) == Some(true)
                ==> if 0 in bad || 2 in bad then r == Err(Failed) else r.Ok?)
            && (Stream(q, 2) <= whole && codec.admits(l.ack) == Some(false)
                ==> r == Err(if 0 in bad then Failed else TurnedDown))
  {
    hide Stream, ClientScript, ServerScript, Answers, InStep, Stopped, Output, WellFormed, IsJson, DualIo;
    ghost var p, q := ClientScript(Run(mode), l), ServerScript(Run(mode), l);
    Exchanges(mode, l);
    if 0 in bad {
      MayStop(Failed, conn, p, q, whole, 0, bad);
      return Err(Failed);
    }
    Sends(conn, Message(BenchmarkRequest, l.request), p, q, whole, 0);
    var _ :- Hear(conn, codec, mode, l, whole, bad);
    if 2 in bad {
      MayStop(Failed, conn, p, q, whole, 2, bad);
      return Err(Failed);
    }
    Sends(conn, Message(ClientEndpoint, l.endpoint), p, q, whole, 2);
    return Ok(());
  }

  /** The client's benchmark and the result it sends back. */
  method Conclude(conn: Conn, codec: Codec, mode: Mode, l: Lines, ghost whole: Text, bad: set<nat>)
    returns (r: Result<(), HostError>)
    requires TwoSided(mode) && WellFormed(l)
    requires InStep(conn, ClientScript(Run(mode), l), ServerScript(Run(mode), l), whole, 3)
    requires bad <= ClientWork(mode) - {0, 2}
    modifies conn
    ensures var p, q := ClientScript(Run(mode), l), ServerScript(Run(mode), l);
            && (r.Ok? ==> InStep(conn, p, q, whole, |p|) && bad == {})
            && (r.Err? ==> Stopped(r.error, conn, p, q, whole, bad))
            && (Stream(q, |q|) <= whole && codec.parses(AccuracyReport, l.report)
                ==> r == if bad != {} then Err(Failed) else Ok(()))
  {
    ghost var p, q := ClientScript(Run(mode), l), ServerScript(Run(mode), l);
    Exchanges(mode, l);
    Complete(q, whole);
    hide Stream, ClientScript, ServerScript, Answers, InStep, Stopped, Output, WellFormed, IsJson, DualIo;
    var _ :- Barriers(conn, mode, p, q, whole, bad);
    if mode.Accuracy? {
      var report :- Receives(conn, p, q, whole, 5, bad);
      if !codec.parses(AccuracyReport, report) {
        MayStop(Malformed, conn, p, q, whole, 6, bad);
        return Err(Malformed);
      }
      Sends(conn, Message(ResultRow, l.row), p, q, whole, 6);
    } else {
      Sends(conn, Message(ResultRow, l.row), p, q, whole, 7);
    }
    return Ok(());
  }

  lemma OnlyGreeting(mode: Mode, bad: set<nat>)
    requires bad <= ClientWork(mode) && 0 !in bad && 2 !in bad
    ensures bad <= ClientWork(mode) - {0, 2}
    ensures !TwoSided(mode) ==> bad == {}
  {
  }

  /** The client's part of a session that it asks for. */
  method Ask(conn: Conn, codec: Codec, mode: Mode, l: Lines, ghost whole: Text, bad: set<nat>)
    returns (r: Result<(), HostError>)
    requires WellFormed(l) && bad <= ClientWork(mode)
    requires InStep(conn, ClientScript(Run(mode), l), ServerScript(Run(mode), l), whole, 0)
    modifies conn
    ensures var p, q := ClientScript(Run(mode), l), ServerScript(Run(mode), l);
            && (r.Ok? ==> InStep(conn, p, q, whole, |p|) && bad == {} && TwoSided(mode))
            && (r.Err? ==> Stopped(r.error, conn, p, q, whole, bad))
            && (Stream(q, |q|) <= whole && codec.admits(l.ack) == Some(true) && codec.parses(AccuracyReport, l.report)
                ==> r == if bad != {} then Err(Failed) else if TwoSided(mode) then Ok(()) else Err(CannotInitiate))
            && (Stream(q, 2) <= whole && codec.admits(l.ack) == Some(false)
                ==> r == Err(if 0 in bad then Failed else TurnedDown))
  {
    ghost var p, q := ClientScript(Run(mode), l), ServerScript(Run(mode), l);
    Exchanges(mode, l);
    Complete(q, whole);
    hide Stream, ClientScript, ServerScript, Answers, InStep, Stopped, Output, WellFormed, IsJson, DualIo, ClientWork;
    var _ :- Greet(conn, codec, mode, l, whole, bad);
    OnlyGreeting(mode, bad);
    if !TwoSided(mode) {
      MayStop(CannotInitiate, conn, p, q, whole, 3, bad);
      return Err(CannotInitiate);
    }
    r := Conclude(conn, codec, mode, l, whole, bad);
  }

  /** Runs one benchmark as the client; the RDMA work before the exchanges in `trouble` fails. */
  method RunOnce(conn: Conn, codec: Codec, transport: Transport, mode: Mode, l: Lines, trouble: set<nat>)
    returns (r: Result<(), HostError>)
    requires conn.written == [] && WellFormed(l)
    modifies conn
    ensures var p, q := ClientScript(Run(mode), l), ServerScript(Run(mode), l);
            var whole, bad := old(conn.Unread()), trouble * ClientWork(mode);
            && (r.Ok? ==> InStep(conn, p, q, whole, |p|) && bad == {} && TwoSided(mode))
            && (r.Err? ==> Stopped(r.error, conn, p, q, whole, bad))
            && (Understands(codec, l, transport, mode) && Supported(transport, mode) && Stream(q, |q|) <= whole
                ==> r == if bad != {} then Err(Failed) else if TwoSided(mode) then Ok(()) else Err(CannotInitiate))
    ensures !Supported(transport, mode) ==> r == Err(NotImplemented) && conn.written == []
    ensures Supported(transport, mode) && codec.admits(l.ack) == Some(false)
            && Stream(ServerScript(Rejected, l), 2) <= old(conn.Unread())
            ==> r == Err(if 0 in trouble then Failed else TurnedDown)
  {
    ghost var p, q := ClientScript(Run(mode), l), ServerScript(Run(mode), l);
    ghost var whole := conn.Unread();
    var bad := trouble * ClientWork(mode);
    assert 0 in ClientWork(mode);
    AtStart(conn, p, q);
    SharedStart(mode, l);
    hide Stream, ClientScript, ServerScript, Answers, InStep, Stopped, Output, WellFormed, IsJson, DualIo, ClientWork;
    if !Supported(transport, mode) {
      MayStop(NotImplemented, conn, p, q, whole, 0, bad);
      return Err(NotImplemented);
    }
    r := Ask(conn, codec, mode, l, whole, bad);
  }

  /** A rejection and a run begin with the same two exchanges. */
  lemma SharedStart(mode: Mode, l: Lines)
    ensures |ClientScript(Rejected, l)| == |ServerScript(Rejected, l)| == 2
    ensures |ClientScript(Run(mode), l)| == |ServerScript(Run(mode), l)| > 2
    ensures Stream(ClientScript(Rejected, l), 2) == Stream(ClientScript(Run(mode), l), 2)
    ensures Stream(ServerScript(Rejected, l), 2) == Stream(ServerScript(Run(mode), l), 2)
  {
    StreamShared(ClientScript(Rejected, l), ClientScript(Run(mode), l), 2);
    StreamShared(ServerScript(Rejected, l), ServerScript(Run(mode), l), 2);
  }

  lemma {:induction false} StreamShared(p: Script, q: Script, n: nat)
    requires n <= |p| && n <= |q| && forall k :: 0 <= k < n ==> p[k].io == q[k].io
    ensures Stream(p, n) == Stream(q, n)
  {
    if n > 0 {
      StreamShared(p, q, n - 1);
    }
  }

  lemma AtStart(conn: Conn, p: Script, q: Script)
    requires conn.written == [] && |p| == |q|
    ensures InStep(conn, p, q, conn.Unread(), 0)
  {
  }

  /** The server's part of an accepted session, from its answer to the client's result. */
  method Serve(conn: Conn, codec: Codec, mode: Mode, l: Lines, ghost whole: Text, bad: set<nat>)
    returns (r: Result<(), HostError>)
    requires WellFormed(l)
    requires InStep(conn, ServerScript(Run(mode), l), ClientScript(Run(mode), l), whole, 1)
    requires bad <= ServerWork(mode)
    modifies conn
    ensures var p, q := ServerScript(Run(mode), l), ClientScript(Run(mode), l);
            && (r.Ok? ==> InStep(conn, p, q, whole, |p|) && bad == {})
            && (r.Err? ==> Stopped(r.error, conn, p, q, whole, bad))
            && (Stream(q, |q|) <= whole && codec.parses(ClientEndpoint, l.endpoint) && codec.parses(ResultRow, l.row)
                ==> r == if bad != {} then Err(Failed) else Ok(()))
  {
    ghost var p, q := ServerScript(Run(mode), l), ClientScript(Run(mode), l);
    Exchanges(mode, l);
    Complete(q, whole);
    hide Stream, ClientScript, ServerScript, Answers, InStep, Stopped, Output, WellFormed, IsJson, DualIo;
    if 1 in bad {
      MayStop(Failed, conn, p, q, whole, 1, bad);
      return Err(Failed);
    }
    Sends(conn, Message(HandshakeAck, l.ack), p, q, whole, 1);
    var endpoint :- Receives(conn, p, q, whole, 2, bad);
    if !codec.parses(ClientEndpoint, endpoint) {
      MayStop(Malformed, conn, p, q, whole, 3, bad);
      return Err(Malformed);
    }
    r := ServeBenchmark(conn, codec, mode, l, whole, bad);
  }

  /** The server's part of a one-sided benchmark: it lends a buffer and waits. */
  method Respond(conn: Conn, ghost mode: Mode, l: Lines, ghost whole: Text, bad: set<nat>)
    returns (r: Result<(), HostError>)
    requires !TwoSided(mode) && WellFormed(l)
    requires InStep(conn, ServerScript(Run(mode), l), ClientScript(Run(mode), l), whole, 3)
    modifies conn
    ensures var p, q := ServerScript(Run(mode), l), ClientScript(Run(mode), l);
            && (r.Ok? ==> InStep(conn, p, q, whole, 6) && 3 !in bad)
            && (r.Err? ==> r.error in {Failed, Disconnected} && Stopped(r.error, conn, p, q, whole, bad))
  {
    hide Stream, ClientScript, ServerScript, Answers, InStep, Stopped, Output, WellFormed, IsJson, DualIo;
    ghost var p, q := ServerScript(Run(mode), l), ClientScript(Run(mode), l);
    Exchanges(mode, l);
    if 3 in bad {
      MayStop(Failed, conn, p, q, whole, 3, bad);
      return Err(Failed);
    }
    Sends(conn, Message(RemoteBufferInfo, l.buffer), p, q, whole, 3);
    var _ :- WorkAndSync(conn, p, q, whole, 4, bad);
    var _ :- WorkAndSync(conn, p, q, whole, 5, bad);
    return Ok(());
  }

  /** The server's benchmark and the client's result. */
  method ServeBenchmark(conn: Conn, codec: Codec, mode: Mode, l: Lines, ghost whole: Text, bad: set<nat>)
    returns (r: Result<(), HostError>)
    requires WellFormed(l)
    requires InStep(conn, ServerScript(Run(mode), l), ClientScript(Run(mode), l), whole, 3)
    requires bad <= ServerWork(mode) - {1}
    modifies conn
    ensures var p, q := ServerScript(Run(mode), l), ClientScript(Run(mode), l);
            && (r.Ok? ==> InStep(conn, p, q, whole, |p|) && bad == {})
            && (r.Err? ==> Stopped(r.error, conn, p, q, whole, bad))
            && (Stream(q, |q|) <= whole && codec.parses(ResultRow, l.row)
                ==> r == if bad != {} then Err(Failed) else Ok(()))
  {
    ghost var p, q := ServerScript(Run(mode), l), ClientScript(Run(mode), l);
    Exchanges(mode, l);
    Complete(q, whole);
    hide Stream, ClientScript, ServerScript, Answers, InStep, Stopped, Output, WellFormed, IsJson, DualIo;
    ghost var last := LastExchange(mode);
    if TwoSided(mode) {
      var _ :- Barriers(conn, mode, p, q, whole, bad);
      if mode.Accuracy? {
        Sends(conn, Message(AccuracyReport, l.report), p, q, whole, 5);
      }
    } else {
      var _ :- Respond(conn, mode, l, whole, bad);
    }
    var row :- Receives(conn, p, q, whole, last, bad);
    if !codec.parses(ResultRow, row) {
      MayStop(Malformed, conn, p, q, whole, last + 1, bad);
      return Err(Malformed);
    }
    return Ok(());
  }

  /** Reads what the client asks for. */
  method HearRequest(conn: Conn, codec: Codec, l: Lines, ghost whole: Text, ghost bad: set<nat>)
    returns (r: Result<(Transport, Mode), HostError>)
    requires WellFormed(l) && InStep(conn, ServerScript(Rejected, l), ClientScript(Rejected, l), whole, 0)
    modifies conn
    ensures var p, q := ServerScript(Rejected, l), ClientScript(Rejected, l);
            && (r.Ok? ==> InStep(conn, p, q, whole, 1))
            && (r.Err? ==> r.error != Failed && Stopped(r.error, conn, p, q, whole, bad))
            && (Stream(q, 1) <= whole && codec.requestOf(l.request).Some?
                ==> r == Ok(codec.requestOf(l.request).value))
  {
    ghost var p, q := ServerScript(Rejected, l), ClientScript(Rejected, l);
    Rejection(l);
    hide Stream, ClientScript, ServerScript, Answers, InStep, Stopped, Output, WellFormed, IsJson, DualIo;
    var line :- Receives(conn, p, q, whole, 0, bad);
    var asked := codec.requestOf(line);
    if asked == None {
      MayStop(Malformed, conn, p, q, whole, 1, bad);
      return Err(Malformed);
    }
    return Ok(asked.value);
  }

  lemma Rejection(l: Lines)
    requires WellFormed(l)
    ensures var p, q := ServerScript(Rejected, l), ClientScript(Rejected, l);
            && |p| == |q| == 2 && Answers(p, q)
            && q[0].io == Send(Message(BenchmarkRequest, l.request)) && p[0].io.Recv?
            && p[1].io == Send(Message(HandshakeAck, l.ack))
  {
    ScriptsAreDual(Rejected, l);
    DualAnswers(ScriptsOf(Rejected, l));
  }

  /** After the request, a server may still take either course. */
  lemma EitherCourse(conn: Conn, mode: Mode, l: Lines, whole: Text)
    requires WellFormed(l)
    requires InStep(conn, ServerScript(Rejected, l), ClientScript(Rejected, l), whole, 1)
    ensures InStep(conn, ServerScript(Run(mode), l), ClientScript(Run(mode), l), whole, 1)
  {
    Exchanges(mode, l);
    StreamShared(ClientScript(Rejected, l), ClientScript(Run(mode), l), 1);
    StreamShared(ServerScript(Rejected, l), ServerScript(Run(mode), l), 1);
  }

  lemma BeginsAlike(course: Course, l: Lines, whole: Text)
    requires WellFormed(l)
    ensures var q := ClientScript(course, l);
            Stream(q, |q|) <= whole ==> Stream(ClientScript(Rejected, l), 1) <= whole
  {
    var q := ClientScript(course, l);
    StreamShared(ClientScript(Rejected, l), q, 1);
    Complete(q, whole);
    hide Stream, ClientScript;
  }

  /**
   * Serves one connection; the value is the mode that was run, if the request was admitted. The RDMA work before
   * the exchanges in `trouble` fails.
   */
  method HandleConnection(conn: Conn, codec: Codec, l: Lines, trouble: set<nat>)
    returns (r: Result<Option<Mode>, HostError>, ghost course: Course)
    requires conn.written == [] && WellFormed(l)
    modifies conn
    ensures r.Ok? ==> course == if r.value.Some? then Run(r.value.value) else Rejected
    ensures var p, q := ServerScript(course, l), ClientScript(course, l);
            var bad := if course.Run? then trouble * ServerWork(course.mode) else {};
            && (r.Ok? ==> InStep(conn, p, q, old(conn.Unread()), |p|) && bad == {})
            && (r.Err? ==> Stopped(r.error, conn, p, q, old(conn.Unread()), bad))
    ensures codec.requestOf(l.request).Some?
            ==> var (transport, mode) := codec.requestOf(l.request).value;
                if Supported(transport, mode)
                then Understands(codec, l, transport, mode)
                     && Stream(ClientScript(Run(mode), l), |ClientScript(Run(mode), l)|) <= old(conn.Unread())
                     ==> r == if trouble * ServerWork(mode) != {} then Err(Failed) else Ok(Some(mode))
                else Stream(ClientScript(Rejected, l), 2) <= old(conn.Unread()) ==> r == Ok(None)
  {
    course := Rejected;
    ghost var p, q := ServerScript(Rejected, l), ClientScript(Rejected, l);
    ghost var whole := conn.Unread();
    Rejection(l);
    AtStart(conn, p, q);
    if codec.requestOf(l.request).Some? {
      BeginsAlike(Rejected, l, whole);
      BeginsAlike(Run(codec.requestOf(l.request).value.1), l, whole);
    }
    hide Stream, ClientScript, ServerScript, Answers, InStep, Stopped, Output, WellFormed, IsJson, DualIo, ServerWork;
    var asked :- HearRequest(conn, codec, l, whole, {});
    var (transport, mode) := asked;
    if !Supported(transport, mode) {
      Sends(conn, Message(HandshakeAck, l.ack), p, q, whole, 1);
      return Ok(None), Rejected;
    }
    course := Run(mode);
    EitherCourse(conn, mode, l, whole);
    var _ :- Serve(conn, codec, mode, l, whole, trouble * ServerWork(mode));
    return Ok(Some(mode)), Run(mode);
  }
}
