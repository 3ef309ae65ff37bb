/** The receiving half of the accuracy benchmark: the drain loop and the check of every message. */
module AccuracyReceiver {
  import opened Wrappers
  import opened Machine
  import opened Polls
  import opened Drains
  import opened Splitmix
  import opened Payloads
  import opened Scoring
  import opened Ledger
  import opened LedgerLaws
  import opened AccuracyProtocol
  import opened SlotRegion

  ghost predicate RxSteps(c: Config, r: Rx, r': Rx)
    requires Accepted(c)
  {
    RxShape(c, r) && exists step :: RxNext(c, r, step, r')
  }

  /** A sequence of receiver states, each one step of the protocol after the one before. */
  ghost predicate RxRun(c: Config, run: seq<Rx>)
    requires Accepted(c)
  {
    && |run| > 0 && RxInit(c, run[0])
    && forall i :: 0 <= i < |run| - 1 ==> RxSteps(c, run[i], run[i + 1])
  }

  lemma RxRunStart(c: Config, r: Rx)
    requires Accepted(c) && RxInit(c, r)
    ensures RxRun(c, [r])
  {
  }

  lemma AllSlotsGrow(n: nat)
    ensures AllSlots(0) == multiset{} && AllSlots(n + 1) == AllSlots(n) + multiset{n}
  {
  }

  lemma {:induction false} AllSlotsSize(n: nat)
    ensures |AllSlots(n)| == n
  {
    if n > 0 {
      AllSlotsSize(n - 1);
    }
  }

  lemma RxRunAppend(c: Config, run: seq<Rx>, step: RxStep, r: Rx)
    requires Accepted(c) && RxRun(c, run) && RxShape(c, run[|run| - 1])
    requires RxNext(c, run[|run| - 1], step, r)
    ensures RxRun(c, run + [r])
  {
    hide RxNext, RxInit, RxShape;
    var longer := run + [r];
    forall i | 0 <= i < |longer| - 1
      ensures RxSteps(c, longer[i], longer[i + 1])
    {
      if i < |run| - 1 {
        assert RxSteps(c, run[i], run[i + 1]);
      }
    }
  }

  class Receiver {
    const c: Config
    const mr: array<Byte>
    /** Scratch space one message long. */
    const expected: array<Byte>
    const seen: array<bool>
    var report: AccuracyReport
    /** The protocol state; the NIC writes the region `mr` behind `rx.mem`. */
    var rx: Rx
    /** Every protocol state passed through. */
    ghost var history: seq<Rx>

    /** The CPU's own records agree with the protocol's ledger. */
    ghost predicate Recorded()
      reads this`report, this`rx, mr, expected, seen
    {
      && Accepted(c)
      && expected.Length == c.msgSize
      && mr != expected && seen as object != mr && seen as object != expected
      && seen.Length == c.iterations
      && Slotted(mr[..], rx.mem, c.msgSize)
      && seen[..] == rx.ledger.seen
      && report == rx.ledger.report.(received := rx.received)
    }

    ghost predicate Valid()
      reads this`report, this`rx, this`history, mr, expected, seen
    {
      Recorded() && OnTrack()
    }

    /** The protocol state satisfies its invariant and was reached by protocol steps. */
    ghost predicate OnTrack()
      reads this`rx, this`history
    {
      && Accepted(c)
      && RxInv(c, rx)
      && |history| > 0 && RxRun(c, history) && history[|history| - 1] == rx
    }

    /** The state before any slot has been posted. */
    ghost predicate Unposted()
      reads this`report, this`rx, mr, expected, seen
    {
      Recorded() && rx.posted == multiset{} && RxInit(c, rx.(posted := AllSlots(RxWindow(c))))
    }

    constructor (c: Config)
      requires Accepted(c)
      ensures Unposted() && this.c == c && fresh(mr) && fresh(expected) && fresh(seen)
    {
      this.c := c;
      var region := new Byte[RxWindow(c) * c.msgSize];
      var slots := Cut(region[..], RxWindow(c), c.msgSize);
      mr := region;
      expected := new Byte[c.msgSize];
      seen := new bool[c.iterations](_ => false);
      report := Opening(c.msgSize, c.iterations).report;
      rx := Rx(slots, multiset{}, [], [], None, 0, Opening(c.msgSize, c.iterations), [], false);
      history := [];
      new;
      CutHolds(mr[..], RxWindow(c), c.msgSize);
      assert seen[..] == Opening(c.msgSize, c.iterations).seen;
    }

    /** Moves the protocol by one step after the CPU's records have been brought in line with it. */
    ghost method Move(step: RxStep, before: Rx)
      requires Recorded() && |history| > 0 && RxRun(c, history) && history[|history| - 1] == before
      requires RxInv(c, before) && RxNext(c, before, step, rx)
      modifies this`history
      ensures Valid() && history == old(history) + [rx]
    {
      RxInvNext(c, before, step, rx);
      RxRunAppend(c, history, step, rx);
      history := history + [rx];
    }

    /** Messages of any content arrive in any posted slots, any number of them. */
    method NicRuns()
      requires Valid()
      modifies this`rx, this`history, mr
      ensures Valid() && old(history) <= history
      ensures rx == old(rx).(mem := rx.mem, posted := rx.posted, cq := rx.cq)
    {
      var steps: nat := *;
      while steps > 0
        invariant Valid() && old(history) <= history
        invariant rx == old(rx).(mem := rx.mem, posted := rx.posted, cq := rx.cq)
      {
        var slot: nat := *;
        var content: Bytes := *;
        var len: nat := *;
        if slot in rx.posted && |content| == Min(len, c.msgSize) {
          Arrival(slot, content, len);
        }
        steps := steps - 1;
      }
    }

    /** One message is written into one posted slot. */
    method Arrival(slot: nat, content: Bytes, len: nat)
      requires Valid() && slot in rx.posted && |content| == Min(len, c.msgSize)
      modifies this`rx, this`history, mr
      ensures Valid() && old(history) <= history
      ensures rx == old(rx).(mem := rx.mem, posted := old(rx).posted - multiset{slot},
                             cq := old(rx).cq + [Wc(slot, len)])
    {
      hide RxRun, Slotted, Fold, CheckStep, RxWindow;
      ghost var was := rx;
      assert slot in Held(rx);
      WriteSlot(mr, rx.mem, slot, content, c.msgSize);
      var filled := content + rx.mem[slot][|content|..];
      rx := rx.(mem := rx.mem[slot := filled], posted := rx.posted - multiset{slot},
      cq := rx.cq + [Wc(slot, len)]);
      Move(Arrive(slot, content, len), was);
    }

    /** Messages arrive until `n` completions are waiting to be reaped. */
    method FillQueue(n: nat)
      requires Valid() && rx.batch == [] && rx.hand == None && n <= RxWindow(c)
      modifies this`rx, this`history, mr
      ensures Valid() && old(history) <= history && |rx.cq| >= n
      ensures rx == old(rx).(mem := rx.mem, posted := rx.posted, cq := rx.cq)
    {
      hide Valid, Held, RxWindow, AllSlots;
      while |rx.cq| < n
        invariant Valid() && old(history) <= history
        invariant rx == old(rx).(mem := rx.mem, posted := rx.posted, cq := rx.cq)
        decreases n - |rx.cq|
      {
        SlotWaits();
        var slot: nat :| slot in rx.posted;
        var content: Bytes := *;
        var len: nat := *;
        if |content| != Min(len, c.msgSize) {
          content, len := [], 0;
        }
        Arrival(slot, content, len);
      }
    }

    /** Between batches a slot that is not in a completion is posted. */
    lemma SlotWaits()
      requires Valid() && rx.batch == [] && rx.hand == None && |rx.cq| < RxWindow(c)
      ensures rx.posted != multiset{}
    {
      hide RxWindow, RxRun, Slotted;
      assert SlotsOf([]) == [];
      assert |Held(rx)| == |rx.posted| + |rx.cq|;
      AllSlotsSize(RxWindow(c));
    }

    /** A poll that the world answers with `answer`, into the batch. */
    method PollQueue(answer: Poll) returns (r: Result<nat, WcError>)
      requires Valid() && !rx.stopped && rx.batch == [] && rx.hand == None && rx.received < c.iterations
      requires report.received == rx.received && (answer.Polled? ==> answer.n <= RxWindow(c))
      modifies this`rx, this`history, this`report, mr
      ensures Valid() && old(history) <= history
      ensures r == if answer.Broken? then Err(WcError) else Ok(answer.n)
      ensures rx == old(rx).(mem := rx.mem, posted := rx.posted, cq := rx.cq, batch := rx.batch,
                             received := old(rx).received + if r.Ok? then r.value else 0)
      ensures |rx.batch| == (if r.Ok? then r.value else 0) && report.received == rx.received
    {
      hide RxInv, RxRun, Slotted, Accepted, RxWindow, Held;
      NicRuns();
      if answer.Broken? {
        return Err(WcError);
      }
      var n := answer.n;
      if n == 0 {
        return Ok(0);
      }
      FillQueue(n);
      ghost var was := rx;
      rx := rx.(cq := rx.cq[n..], batch := rx.cq[..n], received := rx.received + n);
      report := report.(received := report.received + n);
      Move(RxStep.Poll(n), was);
      return Ok(n);
    }

    /** Attributes one message to a sequence number and folds it into the report. */
    method Check(got: Bytes)
      requires Recorded() && |got| <= c.msgSize && c.msgSize >= HEADER_LEN
      requires |rx.ledger.seen| == c.iterations && rx.ledger.report.msgSize == c.msgSize
      modifies this`report, expected, seen
      ensures seen[..] == CheckStep(rx.ledger, got).seen
      ensures report == CheckStep(rx.ledger, got).report.(received := rx.received)
    {
      hide Payload, HeaderOf, CountOnes, Diff, Slotted, Filled;
      if |got| < HEADER_LEN {
        report := report.(unidentifiable := report.unidentifiable + 1);
        return;
      }
      var s := HeaderOf(got);
      if s >= seen.Length {
        report := report.(unidentifiable := report.unidentifiable + 1);
        return;
      }
      if seen[s] {
        report := report.(duplicated := report.duplicated + 1);
        return;
      }
      seen[s] := true;
      if |got| < c.msgSize {
        report := report.(truncated := report.truncated + 1);
      }
      ghost var before := expected[..];
      FillPayload(expected, 0, c.msgSize, s);
      WholeFill(before, expected[..], s);
      var correctBytes, correctBits := 0, 0;
      for i := 0 to |got|
        invariant correctBytes == MatchingBytes(got, Payload(s, c.msgSize), i)
        invariant correctBits == MatchingBits(got, Payload(s, c.msgSize), i)
      {
        var diff := Diff(got[i], expected[i]);
        if diff == 0 {
          correctBytes := correctBytes + 1;
        }
        correctBits := correctBits + (8 - CountOnes(diff));
      }
      if correctBytes != c.msgSize {
        report := report.(corrupted := report.corrupted + 1);
      }
      report := report.(correctBytes := report.correctBytes + correctBytes,
      correctBits := report.correctBits + correctBits);
    }

    /** Checks the next message of the batch, reading what its completion says was written, and reposts its slot. */
    method HandleOne()
      requires Valid() && rx.batch != [] && rx.hand == None
      modifies this`rx, this`history, this`report, mr, expected, seen
      ensures Valid() && old(history) <= history
      ensures rx.hand == None && rx.batch == old(rx).batch[1..]
      ensures var w := old(rx).batch[0];
              && w.slot < |old(rx).mem| && |Got(old(rx).mem, w)| <= rx.ledger.report.msgSize
              && rx.log == old(rx).log + [Got(old(rx).mem, w)]
              && |old(rx).ledger.seen| <= U64_LIMIT && old(rx).ledger.report.msgSize == rx.ledger.report.msgSize
              && rx.ledger == CheckStep(old(rx).ledger, Got(old(rx).mem, w))
              && w.slot in rx.posted
      ensures rx.received == old(rx).received && rx.stopped == old(rx).stopped
      ensures report.received == rx.received
    {
      hide RxRun, Slotted, Fold, CheckStep, RxWindow, SlotStart, Held;
      var w := rx.batch[0];
      HeldCheck(rx, rx.ledger, rx.log);
      var lo := SlotStart(w.slot, c.msgSize);
      SlotRead(mr[..], rx.mem, w.slot, Min(w.len, c.msgSize), c.msgSize);
      var got := mr[lo..lo + Min(w.len, c.msgSize)];
      ghost var was := rx;
      Check(got);
      rx := rx.(batch := rx.batch[1..], hand := Some(w.slot),
      ledger := CheckStep(rx.ledger, got), log := rx.log + [got]);
      Move(RxStep.Check, was);
      NicRuns();
      was := rx;
      rx := rx.(hand := None, posted := rx.posted + multiset{w.slot});
      Move(Repost, was);
    }

    /** Checks and reposts the whole batch, in order. */
    method HandleBatch()
      requires Valid() && rx.hand == None && report.received == rx.received
      modifies this`rx, this`history, this`report, mr, expected, seen
      ensures Valid() && old(history) <= history
      ensures rx.hand == None && rx.batch == []
      ensures rx.received == old(rx).received && rx.stopped == old(rx).stopped
      ensures report.received == rx.received
    {
      hide Valid, Recorded, OnTrack;
      for k := 0 to |rx.batch|
        invariant Valid() && old(history) <= history
        invariant rx.hand == None && rx.batch == old(rx).batch[k..]
        invariant rx.received == old(rx).received && rx.stopped == old(rx).stopped
        invariant report.received == rx.received
      {
        HandleOne();
      }
    }

    /** Posts every slot. */
    method PostSlots()
      requires Recorded() && rx.posted == multiset{}
      modifies this`rx
      ensures Recorded() && rx == old(rx).(posted := AllSlots(RxWindow(c)))
    {
      hide Slotted, Accepted, RxWindow, AllSlots;
      AllSlotsGrow(0);
      for slot := 0 to RxWindow(c)
        invariant Recorded() && rx == old(rx).(posted := AllSlots(slot))
      {
        AllSlotsGrow(slot);
        rx := rx.(posted := rx.posted + multiset{slot});
      }
    }

    /** Posts every slot, so that the stream may start. */
    method PostAll()
      requires Unposted()
      modifies this`rx, this`history
      ensures Valid() && rx == old(rx).(posted := AllSlots(RxWindow(c)))
      ensures report.received == rx.received && !rx.stopped && rx.batch == [] && rx.hand == None
    {
      hide Slotted, Window, RxRun, RxInv, RxWindow;
      PostSlots();
      RxInvInit(c, rx);
      RxRunStart(c, rx);
      history := [rx];
    }

    /**
     * Drains the stream and checks every message. In a world that answers its polls with `world`, the loop
     * ends as the drain does on the polls made, having received what they returned, and the report is then
     * the protocol's.
     */
    method Receive(began: nat, world: nat -> Poll) returns (r: Result<(), WcError>, ghost made: nat)
      requires Unposted() && Ticking(began, world) && AtMost(world, RxWindow(c))
      modifies this, mr, expected, seen
      ensures rx.received == Sum(Made(world, made), made)
      ensures match Drain(c.iterations, began, Made(world, made))
              case Draining(_, _) => false
              case Failed => r == Err(WcError)
              case ByCount(n) => r == Ok(()) && rx.received == n
              case Quiet(n) => r == Ok(()) && rx.received == n < c.iterations
      ensures r.Ok? ==> OnTrack() && rx.stopped && rx.hand == None
      ensures r.Ok? ==> report == Close(rx.ledger, rx.received)
      ensures r.Ok? ==> rx.received <= c.iterations - 1 + RxWindow(c)
    {
      hide Unposted, Valid, Recorded, OnTrack, RxWindow, Close, AllSlots, Drain, Sum, Made, Reached, Ticking;
      StartsAtZero();
      PostAll();
      var last: nat, now: nat := began, began;
      var k: nat := 0;
      NothingMade(c.iterations, began, world);
      while report.received < c.iterations
        invariant Valid() && !rx.stopped && rx.batch == [] && rx.hand == None
        invariant report.received == rx.received
        invariant Reached(c.iterations, began, world, k, rx.received, last, now) && now < last + IDLE_TIMEOUT
        decreases c.iterations - report.received, last + IDLE_TIMEOUT - now
      {
        ReachedSum(c.iterations, began, world, k, rx.received, last, now);
        PollMade(c.iterations, began, world, k, rx.received, last, now);
        var answer := world(k);
        var polled := PollQueue(answer);
        k := k + 1;
        if polled.Err? {
          return Err(polled.error), k;
        }
        now := answer.now;
        if polled.value == 0 {
          if now - last >= IDLE_TIMEOUT {
            Finish();
            ReceivedBounded();
            return Ok(()), k;
          }
          continue;
        }
        last := now;
        HandleBatch();
      }
      ReachedSum(c.iterations, began, world, k, rx.received, last, now);
      Finish();
      ReceivedBounded();
      return Ok(()), k;
    }

    lemma StartsAtZero()
      requires Unposted()
      ensures rx.received == 0
    {
    }

    lemma ReceivedBounded()
      requires OnTrack()
      ensures rx.received <= c.iterations - 1 + RxWindow(c)
    {
    }

    /** Ends the drain: every sequence number not seen is lost. */
    method Finish()
      requires Valid() && !rx.stopped && rx.batch == [] && rx.hand == None
      modifies this`rx, this`history, this`report
      ensures OnTrack() && rx == old(rx).(stopped := true)
      ensures report == Close(rx.ledger, rx.received)
    {
      ghost var was := rx;
      rx := rx.(stopped := true);
      Move(Stop, was);
      var lost := 0;
      for i := 0 to seen.Length
        invariant lost == Unseen(seen[..], i)
      {
        if !seen[i] {
          lost := lost + 1;
        }
      }
      report := report.(lost := lost);
    }
  }
}
