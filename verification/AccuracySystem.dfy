/** Whole runs of the accuracy benchmark over a network that may misbehave, and what they report. */
module AccuracySystem {
  import opened Wrappers
  import opened Payloads
  import opened Ledger
  import opened LedgerLaws
  import opened AccuracyProtocol

  /** What the network may do to messages besides delaying and reordering them. */
  datatype Net = Net(drops: bool, duplicates: bool, damages: bool, injects: bool)

  /** `wire` holds the messages read by the sender's NIC and not yet delivered. */
  datatype Sys = Sys(tx: Tx, wire: multiset<Bytes>, rx: Rx)

  datatype Step =
    | Sender(tx: TxStep)
    | Receiver(rx: RxStep)
    | Deliver(packet: Bytes, slot: nat, len: nat)
    | Drop(packet: Bytes)
    | Duplicate(packet: Bytes)
    | Damage(packet: Bytes, into: Bytes)  // corruption, truncation, or both
    | Inject(packet: Bytes)               // a stray from elsewhere

  ghost predicate Init(c: Config, s: Sys)
    requires Accepted(c)
  {
    TxInit(c, s.tx) && s.wire == multiset{} && RxInit(c, s.rx)
  }

  ghost predicate Shape(c: Config, s: Sys)
    requires Accepted(c)
  {
    |s.tx.mem| == TxWindow(c) && RxShape(c, s.rx)
  }

  /** What a step of the sender puts on the wire. */
  function Emitted(c: Config, t: Tx, step: TxStep): multiset<Bytes>
    requires Accepted(c) && |t.mem| == TxWindow(c)
  {
    if step.Fetch? then multiset{t.mem[TxSlot(c, step.s)]} else multiset{}
  }

  ghost predicate Next(c: Config, net: Net, s: Sys, step: Step, s': Sys)
    requires Accepted(c) && Shape(c, s)
  {
    match step
    case Sender(tx) =>
      && TxNext(c, s.tx, tx, s'.tx)
      && s' == Sys(s'.tx, s.wire + Emitted(c, s.tx, tx), s.rx)
    case Receiver(rx) =>
      !rx.Arrive? && RxNext(c, s.rx, rx, s'.rx) && s' == s.(rx := s'.rx)
    case Deliver(packet, slot, len) =>
      && packet in s.wire && RxNext(c, s.rx, Arrive(slot, packet, len), s'.rx)
      && s' == Sys(s.tx, s.wire - multiset{packet}, s'.rx)
    case Drop(packet) =>
      net.drops && packet in s.wire && s' == s.(wire := s.wire - multiset{packet})
    case Duplicate(packet) =>
      net.duplicates && packet in s.wire && s' == s.(wire := s.wire + multiset{packet})
    case Damage(packet, into) =>
      net.damages && packet in s.wire && s' == s.(wire := s.wire - multiset{packet} + multiset{into})
    case Inject(packet) =>
      net.injects && s' == s.(wire := s.wire + multiset{packet})
  }

  ghost predicate SysInv(c: Config, s: Sys)
    requires Accepted(c)
  {
    TxInv(c, s.tx) && RxInv(c, s.rx)
  }

  lemma SysInvNext(c: Config, net: Net, s: Sys, step: Step, s': Sys)
    requires Accepted(c) && SysInv(c, s) && Next(c, net, s, step, s')
    ensures SysInv(c, s')
  {
    hide TxNext, RxNext;
    match step
    case Sender(tx) => TxInvNext(c, s.tx, tx, s'.tx);
    case Receiver(rx) => RxInvNext(c, s.rx, rx, s'.rx);
    case Deliver(packet, slot, len) => RxInvNext(c, s.rx, Arrive(slot, packet, len), s'.rx);
    case _ =>
  }

  // ----- Runs -----

  ghost predicate Steps(c: Config, net: Net, s: Sys, s': Sys)
    requires Accepted(c)
  {
    Shape(c, s) && exists step :: Next(c, net, s, step, s')
  }

  ghost predicate IsRun(c: Config, net: Net, run: seq<Sys>)
    requires Accepted(c)
  {
    && |run| > 0 && Init(c, run[0])
    && forall i :: 0 <= i < |run| - 1 ==> Steps(c, net, run[i], run[i + 1])
  }

  lemma Extend(c: Config, net: Net, run: seq<Sys>, step: Step, next: Sys)
    requires Accepted(c) && IsRun(c, net, run) && Shape(c, run[|run| - 1])
    requires Next(c, net, run[|run| - 1], step, next)
    ensures IsRun(c, net, run + [next])
  {
    hide Next, Init, Shape;
    var after := run + [next];
    forall i | 0 <= i < |after| - 1
      ensures Steps(c, net, after[i], after[i + 1])
    {
      if i < |run| - 1 {
        assert Steps(c, net, run[i], run[i + 1]);
      }
    }
  }

  lemma {:induction false} RunInv(c: Config, net: Net, run: seq<Sys>, i: nat)
    requires Accepted(c) && IsRun(c, net, run) && i < |run|
    ensures SysInv(c, run[i])
  {
    hide Init, SysInv, Next;
    if i == 0 {
      InitInv(c, run[0]);
    } else {
      RunInv(c, net, run, i - 1);
      assert Steps(c, net, run[i - 1], run[i - 1 + 1]);
      var step :| Next(c, net, run[i - 1], step, run[i]);
      SysInvNext(c, net, run[i - 1], step, run[i]);
    }
  }

  lemma InitInv(c: Config, s: Sys)
    requires Accepted(c) && Init(c, s)
    ensures SysInv(c, s)
  {
    hide TxInit, RxInit, TxInv, RxInv;
    TxInvInit(c, s.tx);
    RxInvInit(c, s.rx);
  }

  /** Whenever the sender's NIC reads a slot, it reads the payload of the request it is serving. */
  lemma FetchReadsPayload(c: Config, net: Net, run: seq<Sys>, i: nat, s: nat)
    requires Accepted(c) && IsRun(c, net, run) && i < |run|
    requires run[i].tx.completed <= s < run[i].tx.posted
    ensures s < c.iterations && |run[i].tx.mem| == TxWindow(c)
    ensures run[i].tx.mem[TxSlot(c, s)] == Payload(s, c.msgSize)
  {
    hide Payload;
    RunInv(c, net, run, i);
    assert SlotHolds(c, run[i].tx, s);
  }

  /** Every slot of the receiver is in exactly one place, so none is read while the NIC may write it. */
  lemma SlotOwnership(c: Config, net: Net, run: seq<Sys>, i: nat, k: nat)
    requires Accepted(c) && IsRun(c, net, run) && i < |run| && k < RxWindow(c)
    ensures var r := run[i].rx;
            r.posted[k] + multiset(SlotsOf(r.cq))[k] + multiset(SlotsOf(r.batch))[k] + InHand(r.hand)[k] == 1
  {
    RunInv(c, net, run, i);
    assert Held(run[i].rx)[k] == 1;
  }

  // ----- What every run reports -----

  /** The report the receiver sends once its drain loop has ended. */
  function Reported(s: Sys): AccuracyReport {
    Close(s.rx.ledger, s.rx.received)
  }

  lemma ReportedIsFinal(c: Config, s: Sys)
    requires Accepted(c) && SysInv(c, s) && s.rx.stopped
    ensures Fits(s.rx.log, c.msgSize)
    ensures Reported(s) == FinalReport(s.rx.log, c.msgSize, c.iterations)
    ensures s.rx.received == |s.rx.log|
  {
  }

  /** Nothing the network does can unbalance the report or push a counter past what was sent. */
  lemma ReportBalances(c: Config, net: Net, run: seq<Sys>, i: nat)
    requires Accepted(c) && IsRun(c, net, run) && i < |run| && run[i].rx.stopped
    ensures var r := Reported(run[i]);
            && r.sent == c.iterations
            && r.lost + r.received - r.unidentifiable - r.duplicated == r.sent
            && r.received <= c.iterations - 1 + RxWindow(c)
            && 8 * r.correctBytes <= r.correctBits <= 8 * c.msgSize * (r.sent - r.lost)
            && r.truncated <= r.corrupted <= r.sent - r.lost
  {
    hide *;
    var s := run[i];
    RunInv(c, net, run, i);
    ReportedIsFinal(c, s);
    Conservation(s.rx.log, c.msgSize, c.iterations);
    IntegrityBounds(s.rx.log, c.msgSize, c.iterations);
    ReceivedBound(c, s);
  }

  lemma ReceivedBound(c: Config, s: Sys)
    requires Accepted(c) && SysInv(c, s)
    ensures s.rx.received <= c.iterations - 1 + RxWindow(c)
  {
  }

  // ----- Networks that neither duplicate nor damage -----

  ghost predicate Placed(mem: seq<Bytes>, ws: seq<Wc>) {
    forall i :: 0 <= i < |ws| ==> ws[i].slot < |mem|
  }

  /** The messages that `ws` says are in `mem`. */
  function Contents(mem: seq<Bytes>, ws: seq<Wc>): seq<Bytes>
    requires forall i :: 0 <= i < |ws| ==> ws[i].slot < |mem|
  {
    seq(|ws|, i requires 0 <= i < |ws| => Got(mem, ws[i]))
  }

  lemma AllPlaced(c: Config, r: Rx)
    requires Accepted(c) && RxShape(c, r)
    ensures Placed(r.mem, r.cq) && Placed(r.mem, r.batch)
  {
    forall i | 0 <= i < |r.cq|
      ensures r.cq[i].slot < |r.mem|
    {
      assert SlotsOf(r.cq)[i] in Held(r);
    }
    forall i | 0 <= i < |r.batch|
      ensures r.batch[i].slot < |r.mem|
    {
      assert SlotsOf(r.batch)[i] in Held(r);
    }
  }

  /** Messages delivered to the receiver's memory, waiting or checked. */
  ghost function Delivered(r: Rx): multiset<Bytes>
    requires Placed(r.mem, r.cq) && Placed(r.mem, r.batch)
  {
    multiset(Contents(r.mem, r.cq)) + multiset(Contents(r.mem, r.batch)) + multiset(r.log)
  }

  /** The sequence numbers below `n`. */
  function Below(n: nat): (ids: set<nat>)
    ensures forall s: nat :: s in ids <==> s < n
  {
    if n == 0 then {} else Below(n - 1) + {n - 1}
  }

  lemma {:induction false} BelowSize(n: nat)
    ensures |Below(n)| == n
  {
    if n > 0 {
      BelowSize(n - 1);
      assert n - 1 !in Below(n - 1);
    }
  }

  lemma NoMoreThan(ids: set<nat>, n: nat)
    requires forall k :: k in ids ==> k < n
    ensures |ids| <= n && (|ids| == n ==> ids == Below(n))
  {
    BelowSize(n);
    var rest := Below(n) - ids;
    assert ids + rest == Below(n) && ids !! rest;
    assert |ids| + |rest| == n;
    assert rest == {} ==> ids == Below(n);
  }

  /** One copy of the payload of every sequence number in `ids`. */
  ghost function Sent(c: Config, ids: set<nat>): multiset<Bytes> {
    multiset(set s | s in ids && s < c.iterations :: Payload(s, c.msgSize))
  }

  lemma SentAdd(c: Config, ids: set<nat>, s: nat)
    requires Accepted(c) && s < c.iterations && s !in ids
    ensures Sent(c, ids + {s}) == Sent(c, ids) + multiset{Payload(s, c.msgSize)}
  {
    hide Payload;
    var before := set t | t in ids && t < c.iterations :: Payload(t, c.msgSize);
    var after := set t | t in ids + {s} && t < c.iterations :: Payload(t, c.msgSize);
    assert after == before + {Payload(s, c.msgSize)};
    forall t | t in ids && t < c.iterations
      ensures Payload(t, c.msgSize) != Payload(s, c.msgSize)
    {
      PayloadInjective(s, t, c.msgSize);
    }
    assert Payload(s, c.msgSize) !in before;
  }

  /** No copy appears from nowhere; without drops none disappears either. */
  ghost predicate Accounted(c: Config, net: Net, s: Sys)
    requires Accepted(c) && RxShape(c, s.rx)
  {
    && Placed(s.rx.mem, s.rx.cq) && Placed(s.rx.mem, s.rx.batch)
    && s.wire + Delivered(s.rx) <= Sent(c, s.tx.fetched)
    && (!net.drops ==> s.wire + Delivered(s.rx) == Sent(c, s.tx.fetched))
  }

  lemma ArriveDelivers(c: Config, r: Rx, slot: nat, content: Bytes, len: nat, r': Rx)
    requires Accepted(c) && RxInv(c, r) && RxNext(c, r, Arrive(slot, content, len), r')
    ensures Placed(r.mem, r.cq) && Placed(r.mem, r.batch) && Placed(r'.mem, r'.cq) && Placed(r'.mem, r'.batch)
    ensures Delivered(r') == Delivered(r) + multiset{content}
  {
    hide CheckStep, Fold, RxWindow, Accepted, AllSlots;
    AllPlaced(c, r);
    assert slot in Held(r);
    SlotIsElsewhere(c, r, slot);
    assert Contents(r'.mem, r.cq) == Contents(r.mem, r.cq);
    assert Contents(r'.mem, r.batch) == Contents(r.mem, r.batch);
    assert Got(r'.mem, Wc(slot, len)) == content;
    assert Contents(r'.mem, r'.cq) == Contents(r'.mem, r.cq) + [content];
  }

  lemma SlotIsElsewhere(c: Config, r: Rx, slot: nat)
    requires Accepted(c) && RxInv(c, r) && slot in r.posted
    ensures forall i :: 0 <= i < |r.cq| ==> r.cq[i].slot != slot
    ensures forall i :: 0 <= i < |r.batch| ==> r.batch[i].slot != slot
  {
    assert Held(r)[slot] <= 1;
    forall i | 0 <= i < |r.cq|
      ensures r.cq[i].slot != slot
    {
      assert SlotsOf(r.cq)[i] in multiset(SlotsOf(r.cq));
    }
    forall i | 0 <= i < |r.batch|
      ensures r.batch[i].slot != slot
    {
      assert SlotsOf(r.batch)[i] in multiset(SlotsOf(r.batch));
    }
  }

  lemma PollKeepsDelivered(r: Rx, n: nat)
    requires Placed(r.mem, r.cq) && r.batch == [] && n <= |r.cq|
    ensures Placed(r.mem, r.batch)
    ensures var r' := r.(cq := r.cq[n..], batch := r.cq[..n], received := r.received + n);
            Placed(r.mem, r'.cq) && Placed(r.mem, r'.batch) && Delivered(r') == Delivered(r)
  {
    assert Contents(r.mem, r.batch) == [];
    assert Contents(r.mem, r.cq) == Contents(r.mem, r.cq[..n]) + Contents(r.mem, r.cq[n..]);
  }

  lemma CheckKeepsDelivered(r: Rx, l: Ledger, hand: Option<nat>)
    requires Placed(r.mem, r.cq) && Placed(r.mem, r.batch) && r.batch != []
    ensures var r' := r.(batch := r.batch[1..], hand := hand, ledger := l, log := r.log + [Got(r.mem, r.batch[0])]);
            Placed(r.mem, r'.batch) && Delivered(r') == Delivered(r)
  {
    hide Got;
    assert Contents(r.mem, r.batch) == [Got(r.mem, r.batch[0])] + Contents(r.mem, r.batch[1..]);
  }

  lemma ReceiverKeepsDelivered(c: Config, r: Rx, step: RxStep, r': Rx)
    requires Accepted(c) && RxInv(c, r) && RxNext(c, r, step, r') && !step.Arrive?
    ensures Placed(r.mem, r.cq) && Placed(r.mem, r.batch) && Placed(r'.mem, r'.cq) && Placed(r'.mem, r'.batch)
    ensures Delivered(r') == Delivered(r)
  {
    hide CheckStep, Fold, RxWindow, Accepted, AllSlots, Held, Contents, SlotsOf, RxInv;
    ShapeOf(c, r);
    AllPlaced(c, r);
    match step
    case Poll(n) => PollKeepsDelivered(r, n);
    case Check => CheckKeepsDelivered(r, r'.ledger, r'.hand);
    case Repost =>
    case Stop =>
  }

  lemma ShapeOf(c: Config, r: Rx)
    requires Accepted(c) && RxInv(c, r)
    ensures RxShape(c, r)
  {
  }

  lemma ShapesOf(c: Config, s: Sys)
    requires Accepted(c) && SysInv(c, s)
    ensures Shape(c, s) && RxShape(c, s.rx)
  {
  }

  lemma FetchedIsPayload(c: Config, t: Tx, s: nat)
    requires Accepted(c) && TxInv(c, t) && t.done <= s < t.posted
    ensures s < c.iterations && t.mem[TxSlot(c, s)] == Payload(s, c.msgSize)
  {
    assert SlotHolds(c, t, s);
  }

  /** The network takes messages off the wire and nothing else happens. */
  predicate IsDrop(s: Sys, s': Sys) {
    s'.tx == s.tx && s'.rx == s.rx && s'.wire < s.wire
  }

  function Gone(s: Sys, s': Sys): multiset<Bytes> {
    if IsDrop(s, s') then s.wire - s'.wire else multiset{}
  }

  /** The messages dropped in the first `i` steps of a run. */
  function Dropped(run: seq<Sys>, i: nat): multiset<Bytes>
    requires i < |run|
  {
    if i == 0 then multiset{} else Dropped(run, i - 1) + Gone(run[i - 1], run[i])
  }

  /** Every message sent is on the wire, delivered, or dropped. */
  ghost predicate Balanced(c: Config, s: Sys, dropped: multiset<Bytes>)
    requires Accepted(c) && RxShape(c, s.rx)
  {
    && Placed(s.rx.mem, s.rx.cq) && Placed(s.rx.mem, s.rx.batch)
    && s.wire + Delivered(s.rx) + dropped == Sent(c, s.tx.fetched)
  }

  lemma SenderDropsNothing(c: Config, s: Sys, step: TxStep, s': Sys)
    requires Accepted(c) && Shape(c, s)
    requires TxNext(c, s.tx, step, s'.tx) && s' == Sys(s'.tx, s.wire + Emitted(c, s.tx, step), s.rx)
    ensures Gone(s, s') == multiset{}
  {
    hide TxNext, RxShape, Accepted, TxWindow;
    assert !(s'.wire < s.wire);
  }

  lemma ArrivalIsNoDrop(c: Config, s: Sys, step: RxStep, s': Sys)
    requires Accepted(c) && Shape(c, s) && RxNext(c, s.rx, step, s'.rx) && step.Arrive?
    ensures Gone(s, s') == multiset{}
  {
    hide Accepted, RxWindow, TxWindow, Held, CheckStep, Fold;
    assert |s'.rx.cq| == |s.rx.cq| + 1;
  }

  lemma OnlyDropsDrop(c: Config, net: Net, s: Sys, step: Step, s': Sys)
    requires Accepted(c) && Shape(c, s) && Next(c, net, s, step, s')
    ensures Gone(s, s') == if step.Drop? then multiset{step.packet} else multiset{}
  {
    hide TxNext, RxNext, Shape, Accepted, TxWindow, RxWindow;
    match step
    case Sender(tx) => SenderDropsNothing(c, s, tx, s');
    case Deliver(packet, slot, len) => ArrivalIsNoDrop(c, s, Arrive(slot, packet, len), s');
    case Damage(packet, into) => SameSize(s.wire, packet, into);
    case _ =>
  }

  lemma SameSize(wire: multiset<Bytes>, packet: Bytes, into: Bytes)
    requires packet in wire
    ensures !(wire - multiset{packet} + multiset{into} < wire)
  {
    assert |wire - multiset{packet} + multiset{into}| == |wire|;
    assert wire - multiset{packet} + multiset{into} < wire ==> |wire - multiset{packet} + multiset{into}| < |wire|
      by {
      if wire - multiset{packet} + multiset{into} < wire {
        Smaller(wire - multiset{packet} + multiset{into}, wire);
      }
    }
  }

  lemma Smaller(a: multiset<Bytes>, b: multiset<Bytes>)
    requires a < b
    ensures |a| < |b|
  {
    assert b == a + (b - a);
    assert b - a != multiset{};
  }

  lemma BalancedSender(c: Config, s: Sys, step: TxStep, s': Sys, dropped: multiset<Bytes>)
    requires Accepted(c) && SysInv(c, s) && Balanced(c, s, dropped)
    requires TxNext(c, s.tx, step, s'.tx) && s' == Sys(s'.tx, s.wire + Emitted(c, s.tx, step), s.rx)
    ensures Balanced(c, s', dropped)
  {
    if step.Fetch? {
      FetchedIsPayload(c, s.tx, step.s);
      SentAdd(c, s.tx.fetched, step.s);
    }
    hide Payload, Sent, Delivered, Placed, RxInv, Accepted;
  }

  lemma BalancedReceiver(c: Config, s: Sys, step: RxStep, s': Sys, dropped: multiset<Bytes>, came: multiset<Bytes>)
    requires Accepted(c) && SysInv(c, s) && Balanced(c, s, dropped) && RxNext(c, s.rx, step, s'.rx)
    requires came == if step.Arrive? then multiset{step.content} else multiset{}
    requires s'.tx == s.tx && s.wire == s'.wire + came && RxShape(c, s'.rx)
    ensures Balanced(c, s', dropped)
  {
    hide Payload, Sent, Delivered, Placed, RxInv, TxInv, Accepted, RxNext, RxShape;
    if step.Arrive? {
      ArriveDelivers(c, s.rx, step.slot, step.content, step.len, s'.rx);
    } else {
      ReceiverKeepsDelivered(c, s.rx, step, s'.rx);
    }
  }

  lemma BalancedDrop(c: Config, s: Sys, packet: Bytes, dropped: multiset<Bytes>)
    requires Accepted(c) && RxShape(c, s.rx) && Balanced(c, s, dropped) && packet in s.wire
    ensures Balanced(c, s.(wire := s.wire - multiset{packet}), dropped + multiset{packet})
  {
    hide Sent, Delivered, Placed, RxShape, Accepted;
  }

  lemma BalancedNext(c: Config, net: Net, s: Sys, step: Step, s': Sys, dropped: multiset<Bytes>)
    requires Accepted(c) && !net.duplicates && !net.damages && !net.injects
    requires SysInv(c, s) && Balanced(c, s, dropped) && Next(c, net, s, step, s')
    ensures SysInv(c, s') && Balanced(c, s', dropped + Gone(s, s'))
  {
    hide Balanced, SysInv, Gone, Accepted, RxNext, TxNext, RxShape, Emitted, IsDrop;
    ShapesOf(c, s);
    OnlyDropsDrop(c, net, s, step, s');
    SysInvNext(c, net, s, step, s');
    ShapesOf(c, s');
    assert dropped + multiset{} == dropped;
    match step
    case Sender(tx) => BalancedSender(c, s, tx, s', dropped);
    case Receiver(rx) => BalancedReceiver(c, s, rx, s', dropped, multiset{});
    case Deliver(packet, slot, len) =>
      BalancedReceiver(c, s, Arrive(slot, packet, len), s', dropped, multiset{packet});
    case Drop(packet) => BalancedDrop(c, s, packet, dropped);
  }

  lemma {:induction false} RunBalanced(c: Config, net: Net, run: seq<Sys>, i: nat)
    requires Accepted(c) && !net.duplicates && !net.damages && !net.injects && IsRun(c, net, run) && i < |run|
    ensures SysInv(c, run[i]) && Balanced(c, run[i], Dropped(run, i))
  {
    hide SysInv, Balanced, Next;
    RunInv(c, net, run, i);
    if i == 0 {
      StartBalanced(c, run[0]);
    } else {
      RunBalanced(c, net, run, i - 1);
      assert Steps(c, net, run[i - 1], run[i - 1 + 1]);
      var step :| Next(c, net, run[i - 1], step, run[i]);
      BalancedNext(c, net, run[i - 1], step, run[i], Dropped(run, i - 1));
    }
  }

  lemma StartBalanced(c: Config, s: Sys)
    requires Accepted(c) && Init(c, s) && SysInv(c, s)
    ensures Balanced(c, s, multiset{})
  {
    assert Contents(s.rx.mem, s.rx.cq) == [] && Contents(s.rx.mem, s.rx.batch) == [];
  }

  lemma {:induction false} NothingDropped(c: Config, net: Net, run: seq<Sys>, i: nat)
    requires Accepted(c) && !net.drops && !net.duplicates && !net.damages && !net.injects
    requires IsRun(c, net, run) && i < |run|
    ensures Dropped(run, i) == multiset{}
  {
    hide Next, Init, Gone, Accepted;
    if i > 0 {
      NothingDropped(c, net, run, i - 1);
      assert Steps(c, net, run[i - 1], run[i - 1 + 1]);
      var step :| Next(c, net, run[i - 1], step, run[i]);
      OnlyDropsDrop(c, net, run[i - 1], step, run[i]);
      NoDropStep(c, net, run[i - 1], step, run[i]);
    }
  }

  lemma NoDropStep(c: Config, net: Net, s: Sys, step: Step, s': Sys)
    requires Accepted(c) && !net.drops && Shape(c, s) && Next(c, net, s, step, s')
    ensures !step.Drop?
  {
  }

  lemma RunAccounted(c: Config, net: Net, run: seq<Sys>, i: nat)
    requires Accepted(c) && !net.duplicates && !net.damages && !net.injects
    requires IsRun(c, net, run) && i < |run|
    ensures SysInv(c, run[i]) && Accounted(c, net, run[i])
  {
    hide IsRun, SysInv, Accepted, Sent, Delivered, Placed, Dropped;
    RunBalanced(c, net, run, i);
    if !net.drops {
      NothingDropped(c, net, run, i);
    }
  }

  lemma LogIsClean(c: Config, net: Net, s: Sys)
    requires Accepted(c) && SysInv(c, s) && Accounted(c, net, s)
    ensures AllPayloads(s.rx.log, c.msgSize, c.iterations) && NoRepeats(s.rx.log)
  {
    hide Payload;
    var log := s.rx.log;
    var sent := Sent(c, s.tx.fetched);
    assert multiset(log) <= sent;
    forall i | 0 <= i < |log|
      ensures IsPayload(log[i], c.msgSize, c.iterations)
    {
      assert log[i] in multiset(log);
      assert log[i] in sent;
    }
    forall i, j | 0 <= i < j < |log|
      ensures log[i] != log[j]
    {
      assert sent[log[i]] <= 1;
      if log[i] == log[j] {
        RepeatCountsTwice(log, i, j);
      }
    }
  }

  lemma RepeatCountsTwice(log: seq<Bytes>, i: nat, j: nat)
    requires i < j < |log| && log[i] == log[j]
    ensures multiset(log)[log[i]] >= 2
  {
    assert log == log[..j] + [log[j]] + log[j + 1..];
    assert log[i] in log[..j];
  }

  /** The report of a run that lost nothing and damaged nothing. */
  ghost predicate Perfect(c: Config, r: AccuracyReport) {
    r == AccuracyReport(c.msgSize, c.iterations, c.iterations, 0, 0, 0, 0, 0,
                        c.iterations * c.msgSize, 8 * (c.iterations * c.msgSize))
  }

  /**
   * End to end: over a network that may drop, delay and reorder, whenever the NIC reads the slots and
   * however polls batch the completions, the report charges the run for exactly the messages not
   * reaped, and everything reaped scores in full. It is perfect exactly when every message was reaped,
   * which is the case whenever the drain loop did not give up waiting.
   */
  lemma EndToEnd(c: Config, net: Net, run: seq<Sys>, i: nat)
    requires Accepted(c) && IsRun(c, net, run) && !net.duplicates && !net.damages && !net.injects
    requires i < |run| && run[i].rx.stopped
    ensures var s := run[i];
            var n := s.rx.received;
            && n <= c.iterations
            && Reported(s) == AccuracyReport(c.msgSize, c.iterations, n, c.iterations - n, 0, 0, 0, 0,
                                             n * c.msgSize, 8 * (n * c.msgSize))
            && (Perfect(c, Reported(s)) <==> n >= c.iterations)
  {
    hide IsRun, Accounted, SysInv, Reported, FinalReport, Accepted, Fits, AllPayloads, NoRepeats;
    var s := run[i];
    RunAccounted(c, net, run, i);
    ReportedIsFinal(c, s);
    LogIsClean(c, net, s);
    MessageSizeHasHeader(c);
    CleanReport(s.rx.log, c.msgSize, c.iterations);
  }

  lemma MessageSizeHasHeader(c: Config)
    requires Accepted(c)
    ensures c.msgSize >= HEADER_LEN
  {
  }

  lemma EverythingLogged(c: Config, net: Net, s: Sys, k: nat)
    requires Accepted(c) && SysInv(c, s) && Accounted(c, net, s) && !net.drops && k < c.iterations
    requires s.rx.stopped && s.tx.completed == c.iterations && s.wire == multiset{} && s.rx.cq == []
    ensures Payload(k, c.msgSize) in s.rx.log
  {
    hide Payload, Fold, RxShape, Held;
    assert Contents(s.rx.mem, s.rx.cq) == [] && Contents(s.rx.mem, s.rx.batch) == [];
    assert k in s.tx.fetched;
    assert Payload(k, c.msgSize) in Sent(c, s.tx.fetched);
    assert Payload(k, c.msgSize) in multiset(s.rx.log);
  }

  /** On a network that loses nothing, a receiver that outwaits every delivery reports perfection. */
  lemma LosslessIsPerfect(c: Config, net: Net, run: seq<Sys>, i: nat)
    requires Accepted(c) && IsRun(c, net, run) && !net.drops && !net.duplicates && !net.damages && !net.injects
    requires i < |run|
    requires var s := run[i];
             s.rx.stopped && s.tx.completed == c.iterations && s.wire == multiset{} && s.rx.cq == []
    ensures Perfect(c, Reported(run[i]))
  {
    hide IsRun, Accounted, SysInv, FinalReport, Accepted, Fits, AllPayloads, NoRepeats, Perfect, Payload, Fold, Unseen;
    var s := run[i];
    RunAccounted(c, net, run, i);
    ReportedIsFinal(c, s);
    LogIsClean(c, net, s);
    MessageSizeHasHeader(c);
    EndToEnd(c, net, run, i);
    CleanFold(s.rx.log, c.msgSize, c.iterations);
    LedgerOf(c, s);
    forall k: nat | k < c.iterations
      ensures s.rx.ledger.seen[k]
    {
      EverythingLogged(c, net, s, k);
    }
    UnseenZero(s.rx.ledger.seen, c.iterations);
  }

  lemma LedgerOf(c: Config, s: Sys)
    requires Accepted(c) && SysInv(c, s)
    ensures Fits(s.rx.log, c.msgSize)
    ensures s.rx.ledger == Fold(s.rx.log, c.msgSize, c.iterations) && |s.rx.ledger.seen| == c.iterations
  {
  }
}
