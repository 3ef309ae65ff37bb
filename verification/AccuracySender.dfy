/** The sending half of the accuracy benchmark, as the loop that drives the protocol. */
module AccuracySender {
  import opened Wrappers
  import opened Machine
  import opened Polls
  import opened Splitmix
  import opened Payloads
  import opened AccuracyProtocol
  import opened SlotRegion

  ghost predicate TxSteps(c: Config, t: Tx, t': Tx)
    requires Accepted(c)
  {
    |t.mem| == TxWindow(c) && exists step :: TxNext(c, t, step, t')
  }

  /** A sequence of sender states, each one step of the protocol after the one before. */
  ghost predicate TxRun(c: Config, run: seq<Tx>)
    requires Accepted(c)
  {
    && |run| > 0 && TxInit(c, run[0])
    && forall i :: 0 <= i < |run| - 1 ==> TxSteps(c, run[i], run[i + 1])
  }

  lemma TxRunAppend(c: Config, run: seq<Tx>, step: TxStep, t: Tx)
    requires Accepted(c) && TxRun(c, run) && |run[|run| - 1].mem| == TxWindow(c)
    requires TxNext(c, run[|run| - 1], step, t)
    ensures TxRun(c, run + [t])
  {
    hide TxNext, TxInit;
    var longer := run + [t];
    forall i | 0 <= i < |longer| - 1
      ensures TxSteps(c, longer[i], longer[i + 1])
    {
      if i < |run| - 1 {
        assert TxSteps(c, run[i], run[i + 1]);
      }
    }
  }

  class Sender {
    const c: Config
    const mr: array<Byte>
    /** The protocol state; the CPU and the NIC share the region `mr` behind `tx.mem`. */
    var tx: Tx
    /** Every protocol state passed through. */
    ghost var history: seq<Tx>

    ghost predicate Valid()
      reads this, mr
    {
      && Accepted(c)
      && TxInv(c, tx)
      && Slotted(mr[..], tx.mem, c.msgSize)
      && |history| > 0 && TxRun(c, history) && history[|history| - 1] == tx
    }

    constructor (c: Config)
      requires Accepted(c)
      ensures Valid() && fresh(mr) && this.c == c
      ensures tx.posted == 0 && tx.completed == 0
    {
      this.c := c;
      var region := new Byte[TxWindow(c) * c.msgSize];
      var slots := Cut(region[..], TxWindow(c), c.msgSize);
      mr := region;
      tx := Tx(slots, 0, 0, 0, {});
      history := [Tx(slots, 0, 0, 0, {})];
      new;
      CutHolds(mr[..], TxWindow(c), c.msgSize);
      TxInvInit(c, tx);
    }

    /** Moves the protocol by one step that leaves the region alone. */
    method Move(ghost step: TxStep, next: Tx)
      requires Valid() && TxNext(c, tx, step, next) && next.mem == tx.mem
      modifies this`tx, this`history
      ensures Valid() && tx == next
      ensures history == old(history) + [next]
    {
      TxInvNext(c, tx, step, next);
      TxRunAppend(c, history, step, next);
      tx := next;
      history := history + [next];
    }

    /** The NIC reads slots and completes requests, any number of either. */
    method NicRuns()
      requires Valid()
      modifies this`tx, this`history
      ensures Valid() && old(history) <= history
      ensures tx == old(tx).(done := tx.done, fetched := tx.fetched) && tx.done >= old(tx).done
    {
      var steps: nat := *;
      while steps > 0
        invariant Valid() && old(history) <= history
        invariant tx == old(tx).(done := tx.done, fetched := tx.fetched) && tx.done >= old(tx).done
      {
        var s: nat := *;
        if tx.done <= s < tx.posted && s !in tx.fetched {
          Move(Fetch(s), tx.(fetched := tx.fetched + {s}));
        } else if tx.done < tx.posted && tx.done in tx.fetched {
          Move(Complete, tx.(done := tx.done + 1));
        }
        steps := steps - 1;
      }
    }

    /** The NIC serves its oldest outstanding request to completion. */
    method NicCompletesOne()
      requires Valid() && tx.done < tx.posted
      modifies this`tx, this`history
      ensures Valid() && old(history) <= history
      ensures tx == old(tx).(done := old(tx).done + 1, fetched := tx.fetched)
    {
      if tx.done !in tx.fetched {
        Move(Fetch(tx.done), tx.(fetched := tx.fetched + {tx.done}));
      }
      Move(Complete, tx.(done := tx.done + 1));
    }

    /** A poll that the world answers with `answer`: the NIC has completed what it returns. */
    method PollQueue(answer: Poll) returns (r: Result<nat, WcError>)
      requires Valid()
      requires answer.Polled? ==> answer.n <= TxWindow(c) && answer.n <= tx.posted - tx.completed
      modifies this`tx, this`history
      ensures Valid() && old(history) <= history
      ensures tx.mem == old(tx).mem && tx.posted == old(tx).posted
      ensures r == if answer.Broken? then Err(WcError) else Ok(answer.n)
      ensures tx.completed == old(tx).completed + if r.Ok? then r.value else 0
    {
      NicRuns();
      if answer.Broken? {
        return Err(WcError);
      }
      while tx.done < tx.completed + answer.n
        invariant Valid() && old(history) <= history
        invariant tx == old(tx).(done := tx.done, fetched := tx.fetched)
        decreases tx.completed + answer.n - tx.done
      {
        NicCompletesOne();
      }
      if answer.n > 0 {
        Move(Reap(answer.n), tx.(completed := tx.completed + answer.n));
      }
      return Ok(answer.n);
    }

    /** Fills the slot of message `s`, which must be the next to post, and posts it. */
    method FillAndPost(s: nat)
      requires Valid() && MayPost(c, tx) && s == tx.posted
      modifies this`tx, this`history, mr
      ensures Valid() && old(history) <= history
      ensures tx.posted == old(tx).posted + 1 && tx.completed == old(tx).completed
      ensures TxSlot(c, s) < |old(tx).mem| && tx.mem == old(tx).mem[TxSlot(c, s) := Payload(s, c.msgSize)]
    {
      var slot := TxSlot(c, s);
      var lo := SlotStart(slot, c.msgSize);
      SlotInside(|tx.mem|, slot, c.msgSize);
      ghost var before := mr[..];
      FillPayload(mr, lo, lo + c.msgSize, s);
      SlotWritten(before, mr[..], tx.mem, slot, Payload(s, c.msgSize), c.msgSize);
      var written := tx.(mem := tx.mem[slot := Payload(s, c.msgSize)]);
      TxInvNext(c, tx, Write(Payload(s, c.msgSize)), written);
      TxRunAppend(c, history, Write(Payload(s, c.msgSize)), written);
      tx := written;
      history := history + [written];
      NicRuns();
      Move(Post, tx.(posted := tx.posted + 1));
    }

    /** Fills and posts the next messages, one for each of `n` free slots, until all have been posted. */
    method Refill(posted: nat, n: nat) returns (now: nat)
      requires Valid() && tx.posted == posted && posted + n <= tx.completed + TxWindow(c)
      modifies this`tx, this`history, mr
      ensures Valid() && old(history) <= history
      ensures tx.posted == now && tx.completed == old(tx).completed
      ensures now == Max(posted, Min(c.iterations, posted + n))
    {
      hide TxInv, TxRun, Slotted, TxWindow, Window;
      now := posted;
      for k := 0 to n
        invariant Valid() && old(history) <= history
        invariant tx.posted == now && tx.completed == old(tx).completed
        invariant now == Max(posted, Min(c.iterations, posted + k))
      {
        if now < c.iterations {
          FillAndPost(now);
          now := now + 1;
        }
      }
    }

    lemma CountersOrdered()
      requires Valid()
      ensures tx.completed <= tx.done <= tx.posted <= c.iterations
    {
    }

    /**
     * Streams every message once, keeping a window of them in flight, in a world that answers its polls with
     * `world`. It fails exactly when a poll does before all messages have completed; otherwise every message
     * was posted once and completed. Every state on the way is one the protocol allows.
     */
    method Send(world: nat -> Poll) returns (r: Result<(), WcError>, ghost made: nat)
      requires Valid() && tx.posted == 0 && tx.completed == 0
      requires Answerable(world, c.iterations, TxWindow(c)) && Lively(world, c.iterations)
      modifies this, mr
      ensures Valid() && old(history) <= history
      ensures EndsAfter(c.iterations, world, made)
      ensures r == if Breaks(c.iterations, world) then Err(WcError) else Ok(())
      ensures tx.completed == Sum(Made(world, made), made)
      ensures tx.posted == Min(c.iterations, tx.completed + TxWindow(c))
      ensures r.Ok? ==> tx.posted == c.iterations && tx.done == c.iterations && tx.completed == c.iterations
    {
      hide TxInv, TxRun, Slotted, TxWindow, Window, Sum, Made, Answerable, Lively, Going, EndsAfter, Breaks;
      var window := TxWindow(c);
      var posted := Refill(0, window);
      var completed := 0;
      var k: nat := 0;
      ghost var due: nat := Begins(c.iterations, world);
      while completed < c.iterations
        invariant Valid() && old(history) <= history
        invariant posted == tx.posted && completed == tx.completed <= c.iterations
        invariant posted == Min(c.iterations, completed + window)
        invariant Going(c.iterations, world, k, completed, due)
        decreases c.iterations - completed, due - k
      {
        ghost var next: nat := PollMore(c.iterations, world, window, k, completed, due);
        var polled := PollQueue(world(k));
        k := k + 1;
        if polled.Err? {
          return Err(polled.error), k;
        }
        due := next;
        completed := completed + polled.value;
        posted := Refill(posted, polled.value);
      }
      CountersOrdered();
      GotAll(c.iterations, world, k, due);
      return Ok(()), k;
    }
  }
}
