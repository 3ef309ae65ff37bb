/**
 * The accuracy benchmark as one system: a windowed sender, its NIC, the network, and a receiver with
 * its NIC. Every step is one thing one party does; a run is any interleaving of them.
 */
module AccuracyProtocol {
  import opened Wrappers
  import opened Payloads
  import opened Ledger

  type Usize = n: nat | n < U64_LIMIT

  datatype Config = Config(msgSize: nat, iterations: Usize, txDepth: nat, rxDepth: nat)

  datatype Role = Client | Server

  datatype RunError = NoIterations | NoRoomForHeader

  /** The number of buffer slots a side allocates, unless the run is refused. */
  function Window(c: Config, role: Role): (w: Result<nat, RunError>)
    ensures w.Ok? ==> 1 <= w.value <= c.iterations
  {
    if c.iterations == 0 then Err(NoIterations)
    else if c.msgSize < HEADER_LEN then Err(NoRoomForHeader)
    else match role
      case Client => Ok(Min(Max(c.txDepth, 1), c.iterations))
      case Server => Ok(Min(Max(c.rxDepth, 1), c.iterations))
  }

  predicate Accepted(c: Config) {
    Window(c, Client).Ok?
  }

  function TxWindow(c: Config): (w: nat)
    requires Accepted(c)
    ensures 1 <= w <= c.iterations
  {
    Window(c, Client).value
  }

  function RxWindow(c: Config): (w: nat)
    requires Accepted(c)
    ensures 1 <= w <= c.iterations
  {
    Window(c, Server).value
  }

  /** The queue depth that governs a side's window. */
  function DepthOf(c: Config, role: Role): nat {
    if role.Client? then c.txDepth else c.rxDepth
  }

  /** A run is refused without messages or room for their header; else its window is the largest its depth allows. */
  lemma WindowIsLargest(c: Config, role: Role, n: nat)
    ensures Window(c, role) == Err(NoIterations) <==> c.iterations == 0
    ensures Window(c, role) == Err(NoRoomForHeader) <==> c.iterations > 0 && c.msgSize < 8
    ensures Window(c, role).Ok?
            ==> (n <= Window(c, role).value <==> n <= c.iterations && (n <= 1 || n <= DepthOf(c, role)))
  {
  }

  // ----- The sender and its NIC -----

  /** The slot that sequence number `s` is sent from. */
  function TxSlot(c: Config, s: nat): (slot: nat)
    requires Accepted(c)
    ensures slot < TxWindow(c)
  {
    s % TxWindow(c)
  }

  /**
   * `posted` and `completed` are the CPU's counters; `done` counts the requests the NIC has completed
   * and `fetched` holds those whose slot it has read, which it may do at any time while it owns them.
   */
  datatype Tx = Tx(mem: seq<Bytes>, posted: nat, completed: nat, done: nat, fetched: set<nat>)

  datatype TxStep =
    | Write(content: Bytes)  // the CPU changes the slot it is about to post
    | Post
    | Fetch(s: nat)          // the NIC reads the slot of an outstanding request
    | Complete               // the NIC completes its oldest request: send queues complete in order
    | Reap(n: nat)           // the CPU polls completions out of the queue

  ghost predicate TxInit(c: Config, t: Tx)
    requires Accepted(c)
  {
    && |t.mem| == TxWindow(c)
    && (forall k :: 0 <= k < |t.mem| ==> |t.mem[k]| == c.msgSize)
    && t.posted == 0 && t.completed == 0 && t.done == 0 && t.fetched == {}
  }

  /** The CPU may fill and post as long as the credit window is open. */
  predicate MayPost(c: Config, t: Tx)
    requires Accepted(c)
  {
    t.posted < c.iterations && t.posted < t.completed + TxWindow(c)
  }

  ghost predicate TxNext(c: Config, t: Tx, step: TxStep, t': Tx)
    requires Accepted(c) && |t.mem| == TxWindow(c)
  {
    var slot := TxSlot(c, t.posted);
    match step
    case Write(content) =>
      MayPost(c, t) && |content| == c.msgSize && t' == t.(mem := t.mem[slot := content])
    case Post =>
      MayPost(c, t) && t.mem[slot] == Payload(t.posted, c.msgSize) && t' == t.(posted := t.posted + 1)
    case Fetch(s) =>
      t.done <= s < t.posted && s !in t.fetched && t' == t.(fetched := t.fetched + {s})
    case Complete =>
      t.done < t.posted && t.done in t.fetched && t' == t.(done := t.done + 1)
    case Reap(n) =>
      n <= TxWindow(c) && t.completed + n <= t.done && t' == t.(completed := t.completed + n)
  }

  /** Every request the NIC may still read has its own payload in its slot. */
  ghost predicate TxInv(c: Config, t: Tx)
    requires Accepted(c)
  {
    && |t.mem| == TxWindow(c)
    && (forall k :: 0 <= k < |t.mem| ==> |t.mem[k]| == c.msgSize)
    && t.completed <= t.done <= t.posted <= Min(c.iterations, t.completed + TxWindow(c))
    && (forall s: nat :: t.completed <= s < t.posted ==> SlotHolds(c, t, s))
    && (forall s: nat :: s in t.fetched ==> s < t.posted)
    && (forall s: nat :: s < t.done ==> s in t.fetched)
  }

  ghost predicate SlotHolds(c: Config, t: Tx, s: nat)
    requires Accepted(c) && |t.mem| == TxWindow(c) && s < c.iterations
  {
    t.mem[TxSlot(c, s)] == Payload(s, c.msgSize)
  }

  /** Sequence numbers less than a window apart never share a slot. */
  lemma SlotsDistinct(c: Config, a: nat, b: nat)
    requires Accepted(c) && a < b < a + TxWindow(c)
    ensures TxSlot(c, a) != TxSlot(c, b)
  {
    hide TxWindow;
    RemaindersDistinct(a, b, TxWindow(c));
  }

  /** The first window of messages fills the slots in order, and each later one takes the slot a window before it. */
  lemma SlotsInTurn(c: Config, s: nat)
    requires Accepted(c)
    ensures TxSlot(c, s) == if s < TxWindow(c) then s else TxSlot(c, s - TxWindow(c))
  {
    hide TxWindow;
    var w := TxWindow(c);
    if s >= w {
      OneTurn(s, w);
    } else {
      SmallRemainder(s, w);
    }
  }

  lemma SmallRemainder(k: nat, w: nat)
    requires k <= w && w > 0
    ensures k % w == if k < w then k else 0
  {
  }

  lemma OneTurn(s: nat, w: nat)
    requires 0 < w <= s
    ensures s % w == (s - w) % w
  {
    var p, q := s / w, (s - w) / w;
    assert s == p * w + s % w && s - w == q * w + (s - w) % w;
    assert p * w - q * w - w == (p - q - 1) * w;
    MultipleApart(p - q - 1, w);
    MultipleApart(q + 1 - p, w);
    assert (q + 1 - p) * w == -((p - q - 1) * w);
  }

  lemma RemaindersDistinct(a: nat, b: nat, w: nat)
    requires a < b < a + w
    ensures a % w != b % w
  {
    var d := b / w - a / w;
    MultipleApart(d, w);
    assert a == (a / w) * w + a % w && b == (b / w) * w + b % w;
    assert (b / w) * w - (a / w) * w == d * w;
  }

  lemma MultipleApart(d: int, w: nat)
    ensures d <= 0 ==> d * w <= 0
    ensures d >= 1 ==> d * w >= w
  {
    if d >= 1 {
      assert d * w == w + (d - 1) * w;
    }
  }

  lemma TxInvInit(c: Config, t: Tx)
    requires Accepted(c) && TxInit(c, t)
    ensures TxInv(c, t)
  {
  }

  lemma TxInvNext(c: Config, t: Tx, step: TxStep, t': Tx)
    requires Accepted(c) && TxInv(c, t) && TxNext(c, t, step, t')
    ensures TxInv(c, t')
  {
    hide Payload, TxSlot, TxWindow, Accepted;
    if step.Write? {
      forall s: nat | t.completed <= s < t.posted
        ensures SlotHolds(c, t', s)
      {
        assert SlotHolds(c, t, s);
        SlotsDistinct(c, s, t.posted);
      }
    } else {
      forall s: nat | t'.completed <= s < t'.posted
        ensures SlotHolds(c, t', s)
      {
        assert s < t.posted ==> SlotHolds(c, t, s);
      }
    }
  }

  // ----- The receiver and its NIC -----

  /** A work completion: the slot filled and the length it reports. */
  datatype Wc = Wc(slot: nat, len: nat)

  /**
   * A slot is at any time posted to the NIC, or in an unreaped completion, or in the current batch, or
   * in hand: checked but not reposted. `log` is the history of messages checked.
   */
  datatype Rx = Rx(
    mem: seq<Bytes>,
    posted: multiset<nat>,
    cq: seq<Wc>,
    batch: seq<Wc>,
    hand: Option<nat>,
    received: nat,
    ledger: Ledger,
    log: seq<Bytes>,
    stopped: bool)

  datatype RxStep =
    | Arrive(slot: nat, content: Bytes, len: nat)  // the NIC writes a message into a posted slot
    | Poll(n: nat)
    | Check
    | Repost
    | Stop                                         // the drain loop ends, by count or by quiet

  /** The slots `0..n`, each once. */
  function AllSlots(n: nat): (slots: multiset<nat>)
    ensures forall k: nat :: slots[k] == if k < n then 1 else 0
  {
    if n == 0 then multiset{} else AllSlots(n - 1) + multiset{n - 1}
  }

  function SlotsOf(ws: seq<Wc>): seq<nat> {
    seq(|ws|, i requires 0 <= i < |ws| => ws[i].slot)
  }

  function InHand(hand: Option<nat>): multiset<nat> {
    if hand.Some? then multiset{hand.value} else multiset{}
  }

  /** Where every slot is. */
  function Held(r: Rx): multiset<nat> {
    r.posted + multiset(SlotsOf(r.cq)) + multiset(SlotsOf(r.batch)) + InHand(r.hand)
  }

  /** The part of a slot a completion says was written. */
  function Got(mem: seq<Bytes>, w: Wc): Bytes
    requires w.slot < |mem|
  {
    mem[w.slot][..Min(w.len, |mem[w.slot]|)]
  }

  /** State once every slot has been posted and the barrier has been passed. */
  ghost predicate RxInit(c: Config, r: Rx)
    requires Accepted(c)
  {
    && |r.mem| == RxWindow(c)
    && (forall k :: 0 <= k < |r.mem| ==> |r.mem[k]| == c.msgSize)
    && r.posted == AllSlots(RxWindow(c))
    && r.cq == [] && r.batch == [] && r.hand == None && r.received == 0
    && r.ledger == Opening(c.msgSize, c.iterations) && r.log == [] && !r.stopped
  }

  ghost predicate RxShape(c: Config, r: Rx)
    requires Accepted(c)
  {
    && |r.mem| == RxWindow(c)
    && (forall k :: 0 <= k < |r.mem| ==> |r.mem[k]| == c.msgSize)
    && (forall k :: k in Held(r) ==> k < |r.mem|)
    && |r.ledger.seen| == c.iterations && r.ledger.report.msgSize == c.msgSize
  }

  ghost predicate RxNext(c: Config, r: Rx, step: RxStep, r': Rx)
    requires Accepted(c) && RxShape(c, r)
  {
    match step
    case Arrive(slot, content, len) =>
      && slot in r.posted && |content| == Min(len, c.msgSize)
      && (assert slot in Held(r);
          r' == r.(mem := r.mem[slot := content + r.mem[slot][|content|..]],
                   posted := r.posted - multiset{slot},
                   cq := r.cq + [Wc(slot, len)]))
    case Poll(n) =>
      && !r.stopped && r.batch == [] && r.hand == None && r.received < c.iterations
      && 1 <= n <= Min(RxWindow(c), |r.cq|)
      && r' == r.(cq := r.cq[n..], batch := r.cq[..n], received := r.received + n)
    case Check =>
      && r.batch != [] && r.hand == None
      && var w := r.batch[0];
         assert SlotsOf(r.batch)[0] == w.slot;
         assert w.slot in Held(r);
         var got := Got(r.mem, w);
         r' == r.(batch := r.batch[1..], hand := Some(w.slot),
                  ledger := CheckStep(r.ledger, got), log := r.log + [got])
    case Repost =>
      r.hand.Some? && r' == r.(hand := None, posted := r.posted + multiset{r.hand.value})
    case Stop =>
      && !r.stopped && r.batch == [] && r.hand == None
      && r' == r.(stopped := true)
  }

  ghost predicate RxInv(c: Config, r: Rx)
    requires Accepted(c)
  {
    && RxShape(c, r)
    && Held(r) == AllSlots(RxWindow(c))
    && r.received == |r.log| + |r.batch|
    && r.received <= c.iterations - 1 + RxWindow(c)
    && (r.stopped ==> r.batch == [])
    && Fits(r.log, c.msgSize)
    && r.ledger == Fold(r.log, c.msgSize, c.iterations)
  }

  lemma RxInvInit(c: Config, r: Rx)
    requires Accepted(c) && RxInit(c, r)
    ensures RxInv(c, r)
  {
    hide Window, Accepted;
    assert SlotsOf([]) == [];
    assert Held(r) == r.posted;
  }

  lemma HeldArrive(r: Rx, w: Wc, mem: seq<Bytes>)
    requires w.slot in r.posted
    ensures Held(r.(mem := mem, posted := r.posted - multiset{w.slot}, cq := r.cq + [w])) == Held(r)
  {
    assert SlotsOf(r.cq + [w]) == SlotsOf(r.cq) + [w.slot];
  }

  lemma RxInvArrive(c: Config, r: Rx, slot: nat, content: Bytes, len: nat, r': Rx)
    requires Accepted(c) && RxInv(c, r) && RxNext(c, r, Arrive(slot, content, len), r')
    ensures RxInv(c, r')
  {
    assert slot in Held(r);
    hide CheckStep, Fold, RxWindow, Accepted, AllSlots, Held;
    HeldArrive(r, Wc(slot, len), r'.mem);
  }

  lemma HeldPoll(r: Rx, n: nat)
    requires r.batch == [] && n <= |r.cq|
    ensures Held(r.(cq := r.cq[n..], batch := r.cq[..n], received := r.received + n)) == Held(r)
  {
    assert SlotsOf(r.batch) == [];
    assert SlotsOf(r.cq) == SlotsOf(r.cq[..n]) + SlotsOf(r.cq[n..]);
  }

  lemma RxInvPoll(c: Config, r: Rx, n: nat, r': Rx)
    requires Accepted(c) && RxInv(c, r) && RxNext(c, r, RxStep.Poll(n), r')
    ensures RxInv(c, r')
  {
    hide CheckStep, Fold, RxWindow, Accepted, AllSlots, Held;
    HeldPoll(r, n);
  }

  lemma HeldCheck(r: Rx, l: Ledger, log: seq<Bytes>)
    requires r.batch != [] && r.hand == None
    ensures r.batch[0].slot in Held(r)
    ensures Held(r.(batch := r.batch[1..], hand := Some(r.batch[0].slot), ledger := l, log := log)) == Held(r)
  {
    assert SlotsOf(r.batch) == [r.batch[0].slot] + SlotsOf(r.batch[1..]);
  }

  lemma RxInvCheck(c: Config, r: Rx, r': Rx)
    requires Accepted(c) && RxInv(c, r) && RxNext(c, r, Check, r')
    ensures RxInv(c, r')
  {
    hide CheckStep, Fold, RxWindow, Accepted, AllSlots, Held;
    HeldCheck(r, r'.ledger, r'.log);
    FoldAppend(r.log, Got(r.mem, r.batch[0]), c.msgSize, c.iterations);
  }

  lemma HeldRepost(r: Rx)
    requires r.hand.Some?
    ensures Held(r.(hand := None, posted := r.posted + multiset{r.hand.value})) == Held(r)
  {
  }

  lemma RxInvRepost(c: Config, r: Rx, r': Rx)
    requires Accepted(c) && RxInv(c, r) && RxNext(c, r, Repost, r')
    ensures RxInv(c, r')
  {
    hide CheckStep, Fold, RxWindow, Accepted, AllSlots, Held;
    HeldRepost(r);
  }

  lemma RxInvNext(c: Config, r: Rx, step: RxStep, r': Rx)
    requires Accepted(c) && RxInv(c, r) && RxNext(c, r, step, r')
    ensures RxInv(c, r')
  {
    hide CheckStep, Fold, RxWindow, Accepted, AllSlots, Held;
    match step
    case Arrive(slot, content, len) => RxInvArrive(c, r, slot, content, len, r');
    case Poll(n) => RxInvPoll(c, r, n, r');
    case Check => RxInvCheck(c, r, r');
    case Repost => RxInvRepost(c, r, r');
    case Stop =>
      assert Held(r') == Held(r) by { HeldStop(r); }
  }

  lemma HeldStop(r: Rx)
    ensures Held(r.(stopped := true)) == Held(r)
  {
  }
}
