/**
 * The drain loop stops once as many completions were reaped as messages were sent, and duplicates and
 * strays count towards that number, as do damaged messages. What the report then calls lost need not be
 * lost. This module says on which networks a stop by count means that nothing is reported lost, and on
 * which it means that nothing was lost.
 */
module EarlyStop {
  import opened Wrappers
  import opened Payloads
  import opened Ledger
  import opened LedgerLaws
  import opened AccuracyProtocol
  import opened AccuracySystem
  import opened RunBuilder

  predicate StoppedByCount(c: Config, s: Sys) {
    s.rx.stopped && s.rx.received >= c.iterations
  }

  /** Whenever the drain loop stops by count, nothing is reported lost. */
  ghost predicate CountMeansComplete(c: Config, net: Net)
    requires Accepted(c)
  {
    forall run: seq<Sys>, i :: IsRun(c, net, run) && 0 <= i < |run| && StoppedByCount(c, run[i])
      ==> Reported(run[i]).lost == 0
  }

  /**
   * A stop by count means a complete stream exactly on networks that neither damage nor inject messages
   * and that do not duplicate them either, unless a single message is sent.
   */
  lemma StopByCountIsComplete(c: Config, net: Net)
    requires Accepted(c)
    ensures CountMeansComplete(c, net)
            <==> !net.damages && !net.injects && (!net.duplicates || c.iterations == 1)
  {
    if net.injects {
      var run := StraysTakeAllPlaces(c, net);
      assert IsRun(c, net, run) && StoppedByCount(c, run[|run| - 1]);
    } else if net.damages {
      var run := DamageUnnamesOne(c, net);
      assert IsRun(c, net, run) && StoppedByCount(c, run[|run| - 1]);
    } else if net.duplicates && c.iterations > 1 {
      var run := DuplicateHidesArrival(c, net);
      assert IsRun(c, net, run) && StoppedByCount(c, run[|run| - 1]);
    } else {
      forall run: seq<Sys>, i | IsRun(c, net, run) && 0 <= i < |run| && StoppedByCount(c, run[i])
        ensures Reported(run[i]).lost == 0
      {
        if net.duplicates {
          OneMessageArrived(c, net, run, i);
        } else {
          EndToEnd(c, net, run, i);
        }
      }
    }
  }

  // ----- Networks that invent nothing -----

  /** Everything on the wire or in the receiver's memory is the payload of some message. */
  ghost predicate Genuine(c: Config, s: Sys)
    requires Accepted(c) && RxShape(c, s.rx)
  {
    && Placed(s.rx.mem, s.rx.cq) && Placed(s.rx.mem, s.rx.batch)
    && forall g :: g in s.wire + Delivered(s.rx) ==> IsPayload(g, c.msgSize, c.iterations)
  }

  lemma GenuineNext(c: Config, net: Net, s: Sys, step: Step, s': Sys)
    requires Accepted(c) && !net.damages && !net.injects
    requires SysInv(c, s) && Genuine(c, s) && Next(c, net, s, step, s')
    ensures SysInv(c, s') && Genuine(c, s')
  {
    hide Payload, Delivered, Placed, RxInv, TxInv;
    SysInvNext(c, net, s, step, s');
    match step
    case Sender(tx) =>
      if tx.Fetch? {
        FetchedIsPayload(c, s.tx, tx.s);
      }
    case Receiver(rx) => ReceiverKeepsDelivered(c, s.rx, rx, s'.rx);
    case Deliver(packet, slot, len) => ArriveDelivers(c, s.rx, slot, packet, len, s'.rx);
    case Drop(_) =>
    case Duplicate(_) =>
  }

  lemma {:induction false} RunGenuine(c: Config, net: Net, run: seq<Sys>, i: nat)
    requires Accepted(c) && !net.damages && !net.injects && IsRun(c, net, run) && i < |run|
    ensures SysInv(c, run[i]) && Genuine(c, run[i])
  {
    hide SysInv, Genuine, Next;
    RunInv(c, net, run, i);
    if i == 0 {
      StartGenuine(c, run[0]);
    } else {
      RunGenuine(c, net, run, i - 1);
      assert Steps(c, net, run[i - 1], run[i - 1 + 1]);
      var step :| Next(c, net, run[i - 1], step, run[i]);
      GenuineNext(c, net, run[i - 1], step, run[i]);
    }
  }

  lemma StartGenuine(c: Config, s: Sys)
    requires Accepted(c) && Init(c, s) && SysInv(c, s)
    ensures Genuine(c, s)
  {
    assert Contents(s.rx.mem, s.rx.cq) == [] && Contents(s.rx.mem, s.rx.batch) == [];
  }

  /** A single message cannot be missed by a loop that waits for one genuine message. */
  lemma OneMessageArrived(c: Config, net: Net, run: seq<Sys>, i: nat)
    requires Accepted(c) && !net.damages && !net.injects && c.iterations == 1 && IsRun(c, net, run) && i < |run|
    requires run[i].rx.stopped && run[i].rx.received >= 1
    ensures Reported(run[i]).lost == 0
  {
    hide SysInv, IsRun, Payload, Fold, Identify, Accepted, Reported, Fits;
    var s := run[i];
    RunGenuine(c, net, run, i);
    ReportedIsFinal(c, s);
    MessageSizeHasHeader(c);
    var first := s.rx.log[0];
    assert first in multiset(s.rx.log);
    assert IsPayload(first, c.msgSize, 1);
    PayloadIdentified(0, c.msgSize, 1);
    SeenIffAttributed(s.rx.log, c.msgSize, 1, 0);
    UnseenZero(Fold(s.rx.log, c.msgSize, 1).seen, 1);
  }

  lemma PayloadIdentified(s: nat, msgSize: nat, sent: nat)
    requires s < sent <= U64_LIMIT && msgSize >= HEADER_LEN
    ensures Identify(Payload(s, msgSize), sent) == Some(s)
  {
    HeaderRoundTrip(s, msgSize);
  }

  // ----- The families of failing runs -----

  lemma NoName(sent: nat)
    ensures Identify([], sent) == None
  {
  }

  /** Strays that carry no header use up the count before anything is sent. */
  lemma StraysTakeAllPlaces(c: Config, net: Net) returns (run: seq<Sys>)
    requires Accepted(c) && net.injects
    ensures IsRun(c, net, run)
    ensures var s := run[|run| - 1];
            s.rx.stopped && s.rx.received == c.iterations && Reported(s).lost > 0 && s.tx.posted == 0
  {
    hide Leads, AtRest, IsRun, Identify;
    var t, r;
    run, t, r := Begins(c, net);
    run, r := Repeats(c, net, run, t, multiset{}, r, [], c.iterations, Inject([]));
    NoName(c.iterations);
    run := StopsWithout(c, net, run, t, multiset{}, r, Copies([], c.iterations), 0);
  }

  /**
   * Duplicates of the first message use up the count, and the second is reported lost while it is still
   * on its way, on a network that need lose nothing.
   */
  lemma DuplicateHidesArrival(c: Config, net: Net) returns (run: seq<Sys>)
    requires Accepted(c) && net.duplicates && c.iterations > 1
    ensures IsRun(c, net, run)
    ensures var s := run[|run| - 1];
            && s.rx.stopped && s.rx.received == c.iterations && Reported(s).lost > 0
            && |s.rx.ledger.seen| == c.iterations && !s.rx.ledger.seen[1] && Payload(1, c.msgSize) in s.wire
  {
    hide Leads, AtRest, IsRun, Identify, Payload, AllReaped;
    var g := Payload(0, c.msgSize);
    MessageSizeHasHeader(c);
    PayloadIdentified(0, c.msgSize, c.iterations);
    var t, r;
    run, t, r := Begins(c, net);
    run, t := Sends(c, net, run, t, multiset{}, r, 0);
    run, t := Sends(c, net, run, t, multiset{} + multiset{g}, r, 1);
    var wire := multiset{} + multiset{g} + multiset{Payload(1, c.msgSize)};
    run, r := Repeats(c, net, run, t, wire, r, g, c.iterations, Duplicate(g));
    run := StopsWithout(c, net, run, t, wire, r, Copies(g, c.iterations), 1);
  }

  /** The payloads of messages `1` to `k - 1`, after something that is the payload of none. */
  function Unnamed(c: Config, k: nat): seq<Bytes>
    requires k <= c.iterations
  {
    seq(k, i requires 0 <= i < k => if i == 0 then [] else Payload(i, c.msgSize))
  }

  lemma {:induction false} DeliversTheRest(c: Config, net: Net, run: seq<Sys>, t: Tx, r: Rx, k: nat)
    returns (longer: seq<Sys>, t': Tx, r': Rx)
    requires Accepted(c) && 1 <= k <= c.iterations && AllReaped(t, 1)
    requires Leads(c, net, run, Sys(t, multiset{}, r)) && AtRest(c, r, Unnamed(c, 1))
    ensures Leads(c, net, longer, Sys(t', multiset{}, r')) && AllReaped(t', k) && AtRest(c, r', Unnamed(c, k))
    decreases k
  {
    hide Leads, AtRest, IsRun, Payload, AllReaped, Accepted;
    if k == 1 {
      longer, t', r' := run, t, r;
    } else {
      longer, t', r' := DeliversTheRest(c, net, run, t, r, k - 1);
      longer, t' := Sends(c, net, longer, t', multiset{}, r', k - 1);
      longer, r' := Takes(c, net, longer, t', multiset{}, r', Unnamed(c, k - 1), Payload(k - 1, c.msgSize));
      assert Unnamed(c, k) == Unnamed(c, k - 1) + [Payload(k - 1, c.msgSize)];
    }
  }

  /** Every message arrives, but one of them has been cut off before the end of its header: it counts as lost. */
  lemma DamageUnnamesOne(c: Config, net: Net) returns (run: seq<Sys>)
    requires Accepted(c) && net.damages
    ensures IsRun(c, net, run)
    ensures var s := run[|run| - 1];
            && s.rx.stopped && s.rx.received == c.iterations && Reported(s).lost > 0
            && s.tx.posted == c.iterations && s.wire == multiset{} && |s.rx.log| == c.iterations
            && forall i :: 0 < i < c.iterations ==> s.rx.log[i] == Payload(i, c.msgSize)
  {
    hide Leads, AtRest, IsRun, Identify, Payload;
    var t, r;
    run, t, r := Begins(c, net);
    run, t := Sends(c, net, run, t, multiset{}, r, 0);
    run := Damaged(c, net, run, t, multiset{}, r, Payload(0, c.msgSize), []);
    run, r := Takes(c, net, run, t, multiset{}, r, [], []);
    assert [] + [[]] == Unnamed(c, 1);
    run, t, r := DeliversTheRest(c, net, run, t, r, c.iterations);
    NoneIsFirst(c);
    RestFacts(c, r, Unnamed(c, c.iterations));
    run := StopsWithout(c, net, run, t, multiset{}, r, Unnamed(c, c.iterations), 0);
  }

  lemma NoneIsFirst(c: Config)
    requires Accepted(c)
    ensures var log := Unnamed(c, c.iterations);
            forall i :: 0 <= i < |log| ==> Identify(log[i], c.iterations) != Some(0)
  {
    hide Identify, Payload;
    MessageSizeHasHeader(c);
    NoName(c.iterations);
    forall i | 0 < i < c.iterations
      ensures Identify(Payload(i, c.msgSize), c.iterations) != Some(0)
    {
      PayloadIdentified(i, c.msgSize, c.iterations);
    }
  }

  // ----- When a stop by count means that nothing was lost -----

  /** Every message was sent and delivered: none was dropped and none is on its way or unreaped. */
  ghost predicate AllDelivered(c: Config, run: seq<Sys>, i: nat)
    requires i < |run|
  {
    var s := run[i];
    && s.tx.fetched == Below(c.iterations) && s.tx.posted == c.iterations
    && s.wire == multiset{} && s.rx.cq == [] && Dropped(run, i) == multiset{}
  }

  ghost predicate CountMeansDelivered(c: Config, net: Net)
    requires Accepted(c)
  {
    forall run: seq<Sys>, i :: IsRun(c, net, run) && 0 <= i < |run| && StoppedByCount(c, run[i])
      ==> AllDelivered(c, run, i)
  }

  /** What was read is on the wire, delivered or dropped, one for one, damaged or not. */
  ghost predicate Conserved(c: Config, s: Sys, dropped: multiset<Bytes>)
    requires Accepted(c) && RxShape(c, s.rx)
  {
    && Placed(s.rx.mem, s.rx.cq) && Placed(s.rx.mem, s.rx.batch)
    && |s.wire| + |Delivered(s.rx)| + |dropped| == |s.tx.fetched|
  }

  lemma OneMore<T>(m: multiset<T>, x: T)
    ensures |m + multiset{x}| == |m| + 1
    ensures x in m ==> |m - multiset{x}| == |m| - 1
  {
  }

  lemma ConservedSender(c: Config, s: Sys, step: TxStep, s': Sys, dropped: multiset<Bytes>)
    requires Accepted(c) && SysInv(c, s) && Conserved(c, s, dropped)
    requires TxNext(c, s.tx, step, s'.tx) && s' == Sys(s'.tx, s.wire + Emitted(c, s.tx, step), s.rx)
    ensures Conserved(c, s', dropped)
  {
    hide Payload, Delivered, Placed, RxInv, Accepted;
    if step.Fetch? {
      OneMore(s.wire, s.tx.mem[TxSlot(c, step.s)]);
    }
  }

  lemma ConservedReceiver(c: Config, s: Sys, step: RxStep, s': Sys, dropped: multiset<Bytes>)
    requires Accepted(c) && SysInv(c, s) && Conserved(c, s, dropped) && RxNext(c, s.rx, step, s'.rx)
    requires s'.tx == s.tx && RxShape(c, s'.rx)
    requires if step.Arrive? then step.content in s.wire && s'.wire == s.wire - multiset{step.content}
             else s'.wire == s.wire
    ensures Conserved(c, s', dropped)
  {
    hide Payload, Delivered, Placed, RxInv, TxInv, Accepted, RxNext, RxShape;
    if step.Arrive? {
      ArriveDelivers(c, s.rx, step.slot, step.content, step.len, s'.rx);
      OneMore(s.wire, step.content);
      OneMore(Delivered(s.rx), step.content);
    } else {
      ReceiverKeepsDelivered(c, s.rx, step, s'.rx);
    }
  }

  lemma ConservedNetwork(c: Config, net: Net, s: Sys, step: Step, s': Sys, dropped: multiset<Bytes>)
    requires Accepted(c) && !net.duplicates && !net.injects && Shape(c, s) && Conserved(c, s, dropped)
    requires !step.Sender? && !step.Receiver? && !step.Deliver? && Next(c, net, s, step, s')
    ensures Conserved(c, s', dropped + if step.Drop? then multiset{step.packet} else multiset{})
  {
    hide Delivered, Placed, RxShape, Accepted;
    OneMore(s.wire, step.packet);
    OneMore(dropped, step.packet);
    if step.Damage? {
      OneMore(s.wire - multiset{step.packet}, step.into);
    }
  }

  lemma ConservedNext(c: Config, net: Net, s: Sys, step: Step, s': Sys, dropped: multiset<Bytes>)
    requires Accepted(c) && !net.duplicates && !net.injects
    requires SysInv(c, s) && Conserved(c, s, dropped) && Next(c, net, s, step, s')
    ensures SysInv(c, s') && Conserved(c, s', dropped + Gone(s, s'))
  {
    hide Conserved, SysInv, Gone, Accepted, RxNext, TxNext, RxShape, Emitted, IsDrop;
    ShapesOf(c, s);
    OnlyDropsDrop(c, net, s, step, s');
    SysInvNext(c, net, s, step, s');
    ShapesOf(c, s');
    assert dropped + multiset{} == dropped;
    match step
    case Sender(tx) => ConservedSender(c, s, tx, s', dropped);
    case Receiver(rx) => ConservedReceiver(c, s, rx, s', dropped);
    case Deliver(packet, slot, len) => ConservedReceiver(c, s, Arrive(slot, packet, len), s', dropped);
    case _ => ConservedNetwork(c, net, s, step, s', dropped);
  }

  lemma {:induction false} RunConserved(c: Config, net: Net, run: seq<Sys>, i: nat)
    requires Accepted(c) && !net.duplicates && !net.injects && IsRun(c, net, run) && i < |run|
    ensures SysInv(c, run[i]) && Conserved(c, run[i], Dropped(run, i))
  {
    hide SysInv, Conserved, Next;
    RunInv(c, net, run, i);
    if i == 0 {
      StartConserved(c, run[0]);
    } else {
      RunConserved(c, net, run, i - 1);
      assert Steps(c, net, run[i - 1], run[i - 1 + 1]);
      var step :| Next(c, net, run[i - 1], step, run[i]);
      ConservedNext(c, net, run[i - 1], step, run[i], Dropped(run, i - 1));
    }
  }

  lemma StartConserved(c: Config, s: Sys)
    requires Accepted(c) && Init(c, s) && SysInv(c, s)
    ensures Conserved(c, s, multiset{})
  {
    assert Contents(s.rx.mem, s.rx.cq) == [] && Contents(s.rx.mem, s.rx.batch) == [];
  }

  /** Without duplicates and strays, a stop by count leaves nothing to wait for, whatever was damaged. */
  lemma NothingLeftOut(c: Config, net: Net, run: seq<Sys>, i: nat)
    requires Accepted(c) && !net.duplicates && !net.injects && IsRun(c, net, run) && i < |run|
    requires StoppedByCount(c, run[i])
    ensures AllDelivered(c, run, i)
  {
    hide IsRun, Accepted, Payload, Fold, Dropped, Held;
    var s := run[i];
    RunConserved(c, net, run, i);
    NoMoreThan(s.tx.fetched, s.tx.posted);
    assert Contents(s.rx.mem, s.rx.batch) == [];
    assert |Contents(s.rx.mem, s.rx.cq)| == |s.rx.cq|;
  }

  /** A duplicate is still on its way when the loop stops by count. */
  lemma DuplicateLeftOver(c: Config, net: Net) returns (run: seq<Sys>)
    requires Accepted(c) && net.duplicates
    ensures IsRun(c, net, run)
    ensures var s := run[|run| - 1];
            s.rx.stopped && s.rx.received == c.iterations && s.wire == multiset{Payload(0, c.msgSize)}
  {
    hide AtRest, IsRun, Payload, Shape;
    var g := Payload(0, c.msgSize);
    var t, r;
    run, t, r := Begins(c, net);
    run, t := Sends(c, net, run, t, multiset{}, r, 0);
    assert multiset{} + multiset{g} == multiset{g};
    run, r := Repeats(c, net, run, t, multiset{g}, r, g, c.iterations, Duplicate(g));
    RestFacts(c, r, Copies(g, c.iterations));
    run := Stops(c, net, run, t, multiset{g}, r);
  }

  /**
   * A stop by count means that every message was sent, none was dropped and none is left on the wire or in the
   * completion queue exactly on networks that neither duplicate nor inject messages. They may damage them.
   */
  lemma StopByCountIsDelivered(c: Config, net: Net)
    requires Accepted(c)
    ensures CountMeansDelivered(c, net) <==> !net.duplicates && !net.injects
  {
    if net.injects {
      var run := StraysTakeAllPlaces(c, net);
      assert IsRun(c, net, run) && StoppedByCount(c, run[|run| - 1]);
    } else if net.duplicates {
      var run := DuplicateLeftOver(c, net);
      assert IsRun(c, net, run) && StoppedByCount(c, run[|run| - 1]);
    } else {
      forall run: seq<Sys>, i | IsRun(c, net, run) && 0 <= i < |run| && StoppedByCount(c, run[i])
        ensures AllDelivered(c, run, i)
      {
        NothingLeftOut(c, net, run, i);
      }
    }
  }
}
