/**
 * The accuracy sender on a queue that may complete its requests in any order: how far the reuse of slots
 * depends on completions coming in the order of the posts.
 */
module OutOfOrder {
  import opened Wrappers
  import opened Payloads
  import opened AccuracyProtocol
  import opened AccuracySystem

  /** As `Tx`, but `done` is the set of requests completed and `reaped` how many completions were polled. */
  datatype Loose = Loose(mem: seq<Bytes>, posted: nat, reaped: nat, fetched: set<nat>, done: set<nat>)

  datatype LooseStep = Write(content: Bytes) | Post | Fetch(s: nat) | Complete(s: nat) | Reap(n: nat)

  ghost predicate LooseInit(c: Config, t: Loose)
    requires Accepted(c)
  {
    && |t.mem| == TxWindow(c) && (forall k :: 0 <= k < |t.mem| ==> |t.mem[k]| == c.msgSize)
    && t.posted == 0 && t.reaped == 0 && t.fetched == {} && t.done == {}
  }

  predicate MayPost(c: Config, t: Loose)
    requires Accepted(c)
  {
    t.posted < c.iterations && t.posted < t.reaped + TxWindow(c)
  }

  predicate Owned(t: Loose, s: nat) {
    s < t.posted && s !in t.done
  }

  function Apply(c: Config, t: Loose, step: LooseStep): Option<Loose>
    requires Accepted(c) && |t.mem| == TxWindow(c)
    ensures Apply(c, t, step).Some? ==> |Apply(c, t, step).value.mem| == TxWindow(c)
  {
    match step
    case Write(content) =>
      if !(MayPost(c, t) && |content| == c.msgSize) then None
      else Some(t.(mem := t.mem[TxSlot(c, t.posted) := content]))
    case Post =>
      if !(MayPost(c, t) && t.mem[TxSlot(c, t.posted)] == Payload(t.posted, c.msgSize)) then None
      else Some(t.(posted := t.posted + 1))
    case Fetch(s) =>
      if !(Owned(t, s) && s !in t.fetched) then None else Some(t.(fetched := t.fetched + {s}))
    case Complete(s) =>
      if !(Owned(t, s) && s in t.fetched) then None else Some(t.(done := t.done + {s}))
    case Reap(n) =>
      if !(n <= TxWindow(c) && t.reaped + n <= |t.done|) then None else Some(t.(reaped := t.reaped + n))
  }

  function Exec(c: Config, start: Loose, steps: seq<LooseStep>): (t: Option<Loose>)
    requires Accepted(c) && |start.mem| == TxWindow(c)
    ensures t.Some? ==> |t.value.mem| == TxWindow(c)
  {
    if steps == [] then Some(start)
    else match Exec(c, start, steps[..|steps| - 1])
      case None => None
      case Some(t) => Apply(c, t, steps[|steps| - 1])
  }

  lemma ExecAppend(c: Config, start: Loose, steps: seq<LooseStep>, step: LooseStep)
    requires Accepted(c) && |start.mem| == TxWindow(c)
    ensures Exec(c, start, steps + [step])
            == match Exec(c, start, steps) case None => None case Some(t) => Apply(c, t, step)
  {
    assert (steps + [step])[..|steps|] == steps;
  }

  /** Every request the NIC still owns has its own payload in its slot. */
  ghost predicate SlotsHold(c: Config, t: Loose)
    requires Accepted(c) && |t.mem| == TxWindow(c)
  {
    forall s: nat :: Owned(t, s) && s < c.iterations ==> t.mem[TxSlot(c, s)] == Payload(s, c.msgSize)
  }

  ghost predicate AlwaysHolds(c: Config)
    requires Accepted(c)
  {
    forall start, steps :: LooseInit(c, start) && Exec(c, start, steps).Some? ==>
      SlotsHold(c, Exec(c, start, steps).value)
  }

  // ----- Where any order will do -----

  /** No slot is used twice. */
  ghost predicate Distinct(c: Config, t: Loose)
    requires Accepted(c) && |t.mem| == TxWindow(c)
  {
    && t.posted <= c.iterations
    && forall s: nat :: s < t.posted ==> t.mem[TxSlot(c, s)] == Payload(s, c.msgSize)
  }

  lemma DistinctNext(c: Config, t: Loose, step: LooseStep)
    requires Accepted(c) && |t.mem| == TxWindow(c) && c.iterations <= TxWindow(c) && Distinct(c, t)
    requires Apply(c, t, step).Some?
    ensures Distinct(c, Apply(c, t, step).value)
  {
    hide Payload, TxSlot, TxWindow, Accepted;
    if step.Write? {
      forall s: nat | s < t.posted
        ensures Apply(c, t, step).value.mem[TxSlot(c, s)] == Payload(s, c.msgSize)
      {
        SlotsDistinct(c, s, t.posted);
      }
    }
  }

  /** Only the last request posted can still be owned, and the next is posted when none is. */
  ghost predicate OneAtATime(c: Config, t: Loose)
    requires Accepted(c) && |t.mem| == TxWindow(c)
  {
    && t.posted <= c.iterations && t.done <= Below(t.posted) && t.reaped <= |t.done|
    && (forall s: nat :: s + 1 < t.posted ==> s in t.done)
    && (t.posted > 0 && Owned(t, t.posted - 1) ==> t.mem[0] == Payload(t.posted - 1, c.msgSize))
  }

  lemma OneAtATimeNext(c: Config, t: Loose, step: LooseStep)
    requires Accepted(c) && |t.mem| == TxWindow(c) && TxWindow(c) == 1 && OneAtATime(c, t)
    requires Apply(c, t, step).Some?
    ensures OneAtATime(c, Apply(c, t, step).value)
  {
    hide Payload, TxWindow, Accepted, Below;
    NoMoreThan(t.done, t.posted);
    if step.Complete? {
      assert |t.done + {step.s}| == |t.done| + 1;
    }
  }

  lemma {:induction false} ExecHolds(c: Config, start: Loose, steps: seq<LooseStep>)
    requires Accepted(c) && LooseInit(c, start) && Exec(c, start, steps).Some?
    requires TxWindow(c) == 1 || c.iterations <= TxWindow(c)
    ensures var t := Exec(c, start, steps).value;
            && (c.iterations <= TxWindow(c) ==> Distinct(c, t))
            && (TxWindow(c) == 1 ==> OneAtATime(c, t))
  {
    if steps != [] {
      hide Apply, Distinct, OneAtATime, TxWindow, Accepted, LooseInit;
      var init, step := steps[..|steps| - 1], steps[|steps| - 1];
      ExecHolds(c, start, init);
      var t := Exec(c, start, init).value;
      if c.iterations <= TxWindow(c) {
        DistinctNext(c, t, step);
      }
      if TxWindow(c) == 1 {
        OneAtATimeNext(c, t, step);
      }
    }
  }

  // ----- Where it will not -----

  function Posts(n: nat): seq<LooseStep> {
    seq(n, _ => LooseStep.Post)
  }

  /** A region that already holds the payloads of the first window. */
  function Filled(c: Config): (t: Loose)
    requires Accepted(c)
    ensures |t.mem| == TxWindow(c)
  {
    Loose(seq(TxWindow(c), k requires 0 <= k < TxWindow(c) => Payload(k, c.msgSize)), 0, 0, {}, {})
  }

  lemma FirstSlots(c: Config, k: nat)
    requires Accepted(c) && k <= TxWindow(c)
    ensures TxSlot(c, k) == if k < TxWindow(c) then k else 0
  {
    hide TxWindow;
    SmallRemainder(k, TxWindow(c));
  }

  lemma {:induction false} PostsFill(c: Config, n: nat)
    requires Accepted(c) && n <= TxWindow(c)
    ensures Exec(c, Filled(c), Posts(n)) == Some(Filled(c).(posted := n))
  {
    hide Payload, TxWindow, Accepted, TxSlot;
    if n > 0 {
      PostsFill(c, n - 1);
      FirstSlots(c, n - 1);
      assert Posts(n)[..n - 1] == Posts(n - 1);
    }
  }

  /**
   * The second request completes first. Its completion opens the window, and the next message is written
   * over the first, which the NIC has not even read.
   */
  lemma OvertakenSlot(c: Config) returns (steps: seq<LooseStep>, t: Loose)
    requires Accepted(c) && 1 < TxWindow(c) < c.iterations
    ensures LooseInit(c, Filled(c)) && Exec(c, Filled(c), steps) == Some(t)
    ensures Owned(t, 0) && 0 !in t.fetched && t.mem[TxSlot(c, 0)] == Payload(TxWindow(c), c.msgSize)
  {
    hide Payload, TxWindow, Accepted, TxSlot, Exec;
    var w := TxWindow(c);
    PostsFill(c, w);
    FirstSlots(c, 0);
    FirstSlots(c, w);
    steps := Posts(w);
    t := Filled(c).(posted := w);
    ExecAppend(c, Filled(c), steps, LooseStep.Fetch(1));
    steps, t := steps + [LooseStep.Fetch(1)], t.(fetched := {1});
    ExecAppend(c, Filled(c), steps, LooseStep.Complete(1));
    steps, t := steps + [LooseStep.Complete(1)], t.(done := {1});
    ExecAppend(c, Filled(c), steps, LooseStep.Reap(1));
    steps, t := steps + [LooseStep.Reap(1)], t.(reaped := 1);
    ExecAppend(c, Filled(c), steps, LooseStep.Write(Payload(w, c.msgSize)));
    steps, t := steps + [LooseStep.Write(Payload(w, c.msgSize))], t.(mem := t.mem[0 := Payload(w, c.msgSize)]);
  }

  /**
   * With completions in any order the slots are safe exactly when a single message is in flight at a time or
   * no slot is used twice. In every other configuration the sender needs completions in order.
   */
  lemma InOrderNeeded(c: Config)
    requires Accepted(c)
    ensures AlwaysHolds(c) <==> TxWindow(c) == 1 || c.iterations <= TxWindow(c)
  {
    hide Payload, Accepted, Exec;
    if TxWindow(c) == 1 || c.iterations <= TxWindow(c) {
      forall start, steps | LooseInit(c, start) && Exec(c, start, steps).Some?
        ensures SlotsHold(c, Exec(c, start, steps).value)
      {
        ExecHolds(c, start, steps);
      }
    } else {
      var steps, t := OvertakenSlot(c);
      PayloadDiffers(c, TxWindow(c));
      assert !SlotsHold(c, t);
    }
  }

  lemma PayloadDiffers(c: Config, w: nat)
    requires Accepted(c) && 0 < w < c.iterations
    ensures Payload(w, c.msgSize) != Payload(0, c.msgSize)
  {
    MessageSizeHasHeader(c);
    PayloadInjective(w, 0, c.msgSize);
  }
}
