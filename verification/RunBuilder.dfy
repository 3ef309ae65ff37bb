/** Runs of the accuracy benchmark built message by message: what the network and the two sides can do. */
module RunBuilder {
  import opened Wrappers
  import opened Payloads
  import opened Ledger
  import opened LedgerLaws
  import opened AccuracyProtocol
  import opened AccuracySystem

  ghost predicate Leads(c: Config, net: Net, run: seq<Sys>, s: Sys) {
    Accepted(c) && IsRun(c, net, run) && run[|run| - 1] == s && Shape(c, s)
  }

  lemma Moved(c: Config, net: Net, run: seq<Sys>, s: Sys, step: Step, next: Sys) returns (longer: seq<Sys>)
    requires Leads(c, net, run, s) && Next(c, net, s, step, next)
    ensures Leads(c, net, longer, next)
  {
    hide IsRun, Next, RxInv, TxInv, Accepted;
    Extend(c, net, run, step, next);
    longer := run + [next];
    RunInv(c, net, longer, |run|);
    ShapesOf(c, next);
  }

  // ----- The receiver -----

  /** The receiver between two batches, having checked the messages of `log`. */
  ghost predicate AtRest(c: Config, r: Rx, log: seq<Bytes>)
    requires Accepted(c)
  {
    && r.posted == AllSlots(RxWindow(c)) && r.cq == [] && r.batch == [] && r.hand == None && !r.stopped
    && r.received == |log| && r.log == log
    && Fits(log, c.msgSize) && r.ledger == Fold(log, c.msgSize, c.iterations)
  }

  lemma Arrives(c: Config, net: Net, run: seq<Sys>, t: Tx, wire: multiset<Bytes>, r: Rx, g: Bytes)
    returns (longer: seq<Sys>, r': Rx)
    requires Leads(c, net, run, Sys(t, wire + multiset{g}, r)) && |g| <= c.msgSize && 0 in r.posted
    ensures Leads(c, net, longer, Sys(t, wire, r')) && |r'.mem| == |r.mem| > 0 && Got(r'.mem, Wc(0, |g|)) == g
    ensures r' == r.(mem := r'.mem, posted := r.posted - multiset{0}, cq := r.cq + [Wc(0, |g|)])
  {
    hide Accepted, IsRun, TxWindow, RxWindow, SlotsOf, Fold;
    assert 0 in Held(r);
    assert wire + multiset{g} - multiset{g} == wire;
    r' := r.(mem := r.mem[0 := g + r.mem[0][|g|..]], posted := r.posted - multiset{0}, cq := r.cq + [Wc(0, |g|)]);
    longer := Moved(c, net, run, Sys(t, wire + multiset{g}, r), Deliver(g, 0, |g|), Sys(t, wire, r'));
  }

  lemma Polls(c: Config, net: Net, run: seq<Sys>, t: Tx, wire: multiset<Bytes>, r: Rx) returns (longer: seq<Sys>)
    requires Leads(c, net, run, Sys(t, wire, r)) && |r.cq| == 1
    requires !r.stopped && r.batch == [] && r.hand == None && r.received < c.iterations
    ensures Leads(c, net, longer, Sys(t, wire, r.(cq := [], batch := r.cq, received := r.received + 1)))
  {
    hide Accepted, IsRun, TxWindow, Held, SlotsOf;
    assert r.cq[1..] == [] && r.cq[..1] == r.cq;
    longer := Moved(c, net, run, Sys(t, wire, r), Receiver(RxStep.Poll(1)),
                    Sys(t, wire, r.(cq := [], batch := r.cq, received := r.received + 1)));
  }

  lemma Checks(c: Config, net: Net, run: seq<Sys>, t: Tx, wire: multiset<Bytes>, r: Rx, g: Bytes)
    returns (longer: seq<Sys>)
    requires Leads(c, net, run, Sys(t, wire, r)) && |g| <= c.msgSize && |r.mem| > 0
    requires Got(r.mem, Wc(0, |g|)) == g && r.batch == [Wc(0, |g|)] && r.hand == None
    requires |r.ledger.seen| == c.iterations && r.ledger.report.msgSize == c.msgSize
    ensures Leads(c, net, longer, Sys(t, wire, r.(batch := [], posted := r.posted + multiset{0},
                                                  ledger := CheckStep(r.ledger, g), log := r.log + [g])))
  {
    hide Accepted, IsRun, TxWindow, RxWindow, Held, SlotsOf, CheckStep, Got;
    var mid := r.(batch := [], hand := Some(0), ledger := CheckStep(r.ledger, g), log := r.log + [g]);
    assert r.batch[1..] == [];
    longer := Moved(c, net, run, Sys(t, wire, r), Receiver(Check), Sys(t, wire, mid));
    longer := Moved(c, net, longer, Sys(t, wire, mid), Receiver(Repost),
                    Sys(t, wire, mid.(hand := None, posted := mid.posted + multiset{0})));
  }

  lemma RestFacts(c: Config, r: Rx, log: seq<Bytes>)
    requires Accepted(c) && AtRest(c, r, log)
    ensures 0 in r.posted && r.posted - multiset{0} + multiset{0} == r.posted
    ensures |r.ledger.seen| == c.iterations && r.ledger.report.msgSize == c.msgSize
    ensures r.cq == [] && r.batch == [] && r.hand == None && !r.stopped && r.received == |log| && r.log == log
  {
  }

  lemma RestLater(c: Config, r: Rx, log: seq<Bytes>, g: Bytes, mem: seq<Bytes>)
    requires Accepted(c) && AtRest(c, r, log) && |g| <= c.msgSize
    requires |r.ledger.seen| == c.iterations && r.ledger.report.msgSize == c.msgSize
    ensures AtRest(c, r.(mem := mem, received := r.received + 1, ledger := CheckStep(r.ledger, g), log := log + [g]),
                   log + [g])
  {
    hide CheckStep, Fold;
    FoldAppend(log, g, c.msgSize, c.iterations);
  }

  /** The receiver takes a message off the wire, checks it and reposts its slot. */
  lemma Takes(c: Config, net: Net, run: seq<Sys>, t: Tx, wire: multiset<Bytes>, r: Rx, log: seq<Bytes>, g: Bytes)
    returns (longer: seq<Sys>, r': Rx)
    requires Accepted(c) && Leads(c, net, run, Sys(t, wire + multiset{g}, r)) && AtRest(c, r, log)
    requires |g| <= c.msgSize && |log| < c.iterations
    ensures Leads(c, net, longer, Sys(t, wire, r')) && AtRest(c, r', log + [g])
  {
    hide Leads, AtRest, CheckStep, Accepted, Got;
    RestFacts(c, r, log);
    var arrived: Rx;
    longer, arrived := Arrives(c, net, run, t, wire, r, g);
    longer := Polls(c, net, longer, t, wire, arrived);
    longer := Checks(c, net, longer, t, wire, arrived.(cq := [], batch := arrived.cq, received := |log| + 1), g);
    RestLater(c, r, log, g, arrived.mem);
    r' := r.(mem := arrived.mem, received := r.received + 1, ledger := CheckStep(r.ledger, g), log := log + [g]);
  }

  /** The receiver's loop ends by count, and some message is none of those it has checked. */
  lemma StopsWithout(c: Config, net: Net, run: seq<Sys>, t: Tx, wire: multiset<Bytes>, r: Rx, log: seq<Bytes>, s: nat)
    returns (longer: seq<Sys>)
    requires Accepted(c) && Leads(c, net, run, Sys(t, wire, r)) && AtRest(c, r, log) && |log| == c.iterations
    requires s < c.iterations && forall i :: 0 <= i < |log| ==> Identify(log[i], c.iterations) != Some(s)
    ensures IsRun(c, net, longer)
    ensures var z := longer[|longer| - 1];
            && z.rx.stopped && z.rx.received == c.iterations && z.wire == wire && z.tx == t && z.rx.log == log
            && |z.rx.ledger.seen| == c.iterations && !z.rx.ledger.seen[s] && Reported(z).lost > 0
  {
    hide Fold, Identify, Shape, IsRun, Accepted;
    longer := Stops(c, net, run, t, wire, r);
    SeenIffAttributed(log, c.msgSize, c.iterations, s);
    UnseenZero(r.ledger.seen, c.iterations);
  }

  lemma Stops(c: Config, net: Net, run: seq<Sys>, t: Tx, wire: multiset<Bytes>, r: Rx) returns (longer: seq<Sys>)
    requires Leads(c, net, run, Sys(t, wire, r)) && !r.stopped && r.batch == [] && r.hand == None
    ensures Leads(c, net, longer, Sys(t, wire, r.(stopped := true)))
  {
    hide Accepted, IsRun, TxWindow, RxWindow, Held, SlotsOf;
    longer := Moved(c, net, run, Sys(t, wire, r), Receiver(Stop), Sys(t, wire, r.(stopped := true)));
  }

  // ----- The sender -----

  /** The sender with `k` messages sent and every completion reaped. */
  predicate AllReaped(t: Tx, k: nat) {
    t.posted == k && t.completed == k && t.done == k && t.fetched == Below(k)
  }

  lemma SenderMoves(c: Config, net: Net, run: seq<Sys>, t: Tx, wire: multiset<Bytes>, r: Rx, step: TxStep, t': Tx)
    returns (longer: seq<Sys>)
    requires Leads(c, net, run, Sys(t, wire, r)) && TxNext(c, t, step, t')
    ensures Leads(c, net, longer, Sys(t', wire + Emitted(c, t, step), r))
    ensures !step.Fetch? ==> wire + Emitted(c, t, step) == wire
  {
    hide Accepted, IsRun, TxNext, RxShape;
    longer := Moved(c, net, run, Sys(t, wire, r), Step.Sender(step), Sys(t', wire + Emitted(c, t, step), r));
  }

  /** Message `k` is written, posted, read by the NIC, completed and reaped. */
  lemma Sends(c: Config, net: Net, run: seq<Sys>, t: Tx, wire: multiset<Bytes>, r: Rx, k: nat)
    returns (longer: seq<Sys>, t': Tx)
    requires Accepted(c) && Leads(c, net, run, Sys(t, wire, r)) && AllReaped(t, k) && k < c.iterations
    ensures Leads(c, net, longer, Sys(t', wire + multiset{Payload(k, c.msgSize)}, r)) && AllReaped(t', k + 1)
  {
    hide Payload, Accepted, IsRun, RxShape;
    var p := Payload(k, c.msgSize);
    var t1 := t.(mem := t.mem[TxSlot(c, k) := p]);
    longer := SenderMoves(c, net, run, t, wire, r, Write(p), t1);
    var t2 := t1.(posted := k + 1);
    longer := SenderMoves(c, net, longer, t1, wire, r, Post, t2);
    var t3 := t2.(fetched := t2.fetched + {k});
    longer := SenderMoves(c, net, longer, t2, wire, r, Fetch(k), t3);
    assert Emitted(c, t2, Fetch(k)) == multiset{p};
    var out := wire + multiset{p};
    var t4 := t3.(done := k + 1);
    longer := SenderMoves(c, net, longer, t3, out, r, Complete, t4);
    t' := t4.(completed := k + 1);
    longer := SenderMoves(c, net, longer, t4, out, r, TxStep.Reap(1), t');
  }

  /** Nothing sent, nothing received. */
  lemma Begins(c: Config, net: Net) returns (run: seq<Sys>, t: Tx, r: Rx)
    requires Accepted(c)
    ensures Leads(c, net, run, Sys(t, multiset{}, r)) && AllReaped(t, 0) && AtRest(c, r, [])
  {
    hide Accepted;
    t := Tx(seq(TxWindow(c), _ => seq(c.msgSize, _ => 0)), 0, 0, 0, {});
    r := Rx(seq(RxWindow(c), _ => seq(c.msgSize, _ => 0)), AllSlots(RxWindow(c)), [], [], None, 0,
            Opening(c.msgSize, c.iterations), [], false);
    var s := Sys(t, multiset{}, r);
    run := [s];
    assert Init(c, s);
    InitInv(c, s);
    ShapesOf(c, s);
  }

  // ----- The network -----

  /** The network has a way to come by `g` again and again. */
  predicate Supplies(net: Net, wire: multiset<Bytes>, g: Bytes, step: Step) {
    || (step == Inject(g) && net.injects)
    || (step == Duplicate(g) && net.duplicates && g in wire)
  }

  lemma Supplied(c: Config, net: Net, run: seq<Sys>, t: Tx, wire: multiset<Bytes>, r: Rx, g: Bytes, step: Step)
    returns (longer: seq<Sys>)
    requires Leads(c, net, run, Sys(t, wire, r)) && Supplies(net, wire, g, step)
    ensures Leads(c, net, longer, Sys(t, wire + multiset{g}, r))
  {
    hide Accepted, IsRun, Shape;
    longer := Moved(c, net, run, Sys(t, wire, r), step, Sys(t, wire + multiset{g}, r));
  }

  function Copies(g: Bytes, k: nat): seq<Bytes> {
    seq(k, _ => g)
  }

  /** The receiver checks `k` copies of `g`. */
  lemma {:induction false} Repeats(c: Config, net: Net, run: seq<Sys>, t: Tx, wire: multiset<Bytes>, r: Rx,
                                   g: Bytes, k: nat, step: Step)
    returns (longer: seq<Sys>, r': Rx)
    requires Accepted(c) && |g| <= c.msgSize && k <= c.iterations && Supplies(net, wire, g, step)
    requires Leads(c, net, run, Sys(t, wire, r)) && AtRest(c, r, [])
    ensures Leads(c, net, longer, Sys(t, wire, r')) && AtRest(c, r', Copies(g, k))
  {
    hide Leads, AtRest, Accepted, Supplies;
    if k == 0 {
      longer, r' := run, r;
    } else {
      longer, r' := Repeats(c, net, run, t, wire, r, g, k - 1, step);
      longer := Supplied(c, net, longer, t, wire, r', g, step);
      longer, r' := Takes(c, net, longer, t, wire, r', Copies(g, k - 1), g);
      assert Copies(g, k) == Copies(g, k - 1) + [g];
    }
  }

  /** A message on the wire is damaged. */
  lemma Damaged(c: Config, net: Net, run: seq<Sys>, t: Tx, wire: multiset<Bytes>, r: Rx, g: Bytes, into: Bytes)
    returns (longer: seq<Sys>)
    requires Leads(c, net, run, Sys(t, wire + multiset{g}, r)) && net.damages
    ensures Leads(c, net, longer, Sys(t, wire + multiset{into}, r))
  {
    hide Accepted, IsRun, Shape;
    assert wire + multiset{g} - multiset{g} == wire;
    longer := Moved(c, net, run, Sys(t, wire + multiset{g}, r), Damage(g, into), Sys(t, wire + multiset{into}, r));
  }
}
