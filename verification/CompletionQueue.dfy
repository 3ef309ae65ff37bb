/**
 * The completion queue that the send queue and the receive queue of one endpoint share. Nothing but
 * their depths keeps it from overflowing: a completion is delivered whether there is room or not.
 */
module CompletionQueue {
  import opened Wrappers
  import opened Counting

  datatype Kind = Sends | Recvs

  /** Requests posted and not completed, by kind, and the completions not yet reaped. */
  datatype Endpoint = Endpoint(sends: nat, recvs: nat, cq: seq<Kind>)

  datatype Step = Post(kind: Kind) | Complete(kind: Kind) | Reap(n: nat)

  const EMPTY: Endpoint := Endpoint(0, 0, [])

  function Outstanding(e: Endpoint, kind: Kind): nat {
    if kind.Sends? then e.sends else e.recvs
  }

  function WithOutstanding(e: Endpoint, kind: Kind, n: nat): Endpoint {
    if kind.Sends? then e.(sends := n) else e.(recvs := n)
  }

  function Is(kind: Kind): Kind -> bool {
    k => k == kind
  }

  function Count(cq: seq<Kind>, kind: Kind): nat {
    CountIf(cq, Is(kind))
  }

  /** One step of an endpoint whose queues have the given depths. An entry is free once it is reaped. */
  function Apply(tx: nat, rx: nat, e: Endpoint, step: Step): Option<Endpoint> {
    match step
    case Post(kind) =>
      if Outstanding(e, kind) + Count(e.cq, kind) >= (if kind.Sends? then tx else rx) then None
      else Some(WithOutstanding(e, kind, Outstanding(e, kind) + 1))
    case Complete(kind) =>
      if Outstanding(e, kind) == 0 then None
      else Some(WithOutstanding(e, kind, Outstanding(e, kind) - 1).(cq := e.cq + [kind]))
    case Reap(n) =>
      if n > |e.cq| then None else Some(e.(cq := e.cq[n..]))
  }

  function Exec(tx: nat, rx: nat, steps: seq<Step>): Option<Endpoint> {
    if steps == [] then Some(EMPTY)
    else match Exec(tx, rx, steps[..|steps| - 1])
      case None => None
      case Some(e) => Apply(tx, rx, e, steps[|steps| - 1])
  }

  lemma {:induction false} CountBoth(cq: seq<Kind>)
    ensures Count(cq, Sends) + Count(cq, Recvs) == |cq|
  {
    if cq != [] {
      CountBoth(cq[..|cq| - 1]);
    }
  }

  lemma CountAppend(cq: seq<Kind>, last: Kind, kind: Kind)
    ensures Count(cq + [last], kind) == Count(cq, kind) + (if last == kind then 1 else 0)
  {
    CountConcat(cq, [last], Is(kind));
    CountOne(last, Is(kind));
  }

  lemma CountSplit(cq: seq<Kind>, n: nat, kind: Kind)
    requires n <= |cq|
    ensures Count(cq[n..], kind) <= Count(cq, kind)
  {
    CountConcat(cq[..n], cq[n..], Is(kind));
    assert cq == cq[..n] + cq[n..];
  }

  /** Each work queue holds at most its depth, unreaped completions included. */
  predicate Fits(tx: nat, rx: nat, e: Endpoint) {
    e.sends + Count(e.cq, Sends) <= tx && e.recvs + Count(e.cq, Recvs) <= rx
  }

  lemma FitsNext(tx: nat, rx: nat, e: Endpoint, step: Step)
    requires Fits(tx, rx, e) && Apply(tx, rx, e, step).Some?
    ensures Fits(tx, rx, Apply(tx, rx, e, step).value)
  {
    hide Count;
    match step
    case Post(_) =>
    case Complete(kind) =>
      CountAppend(e.cq, kind, Sends);
      CountAppend(e.cq, kind, Recvs);
    case Reap(n) =>
      CountSplit(e.cq, n, Sends);
      CountSplit(e.cq, n, Recvs);
  }

  lemma {:induction false} ExecFits(tx: nat, rx: nat, steps: seq<Step>)
    requires Exec(tx, rx, steps).Some?
    ensures Fits(tx, rx, Exec(tx, rx, steps).value)
  {
    hide Apply, Fits;
    if steps == [] {
      EmptyFits(tx, rx);
    } else {
      ExecFits(tx, rx, steps[..|steps| - 1]);
      FitsNext(tx, rx, Exec(tx, rx, steps[..|steps| - 1]).value, steps[|steps| - 1]);
    }
  }

  lemma EmptyFits(tx: nat, rx: nat)
    ensures Fits(tx, rx, EMPTY)
  {
  }

  lemma ExecAppend(tx: nat, rx: nat, steps: seq<Step>, step: Step)
    ensures Exec(tx, rx, steps + [step])
            == match Exec(tx, rx, steps) case None => None case Some(e) => Apply(tx, rx, e, step)
  {
    assert (steps + [step])[..|steps|] == steps;
  }

  /** Every request posted has completed and none has been reaped. */
  ghost predicate Loaded(e: Endpoint, a: nat, b: nat) {
    e.sends == 0 && e.recvs == 0 && |e.cq| == a + b && Count(e.cq, Sends) == a && Count(e.cq, Recvs) == b
  }

  lemma StartsLoaded(tx: nat, rx: nat)
    ensures Exec(tx, rx, []) == Some(EMPTY) && Loaded(EMPTY, 0, 0)
  {
  }

  /** One more request of a kind is posted and completes. */
  lemma OneLoaded(tx: nat, rx: nat, e: Endpoint, a: nat, b: nat, kind: Kind)
    requires Loaded(e, a, b) && if kind.Sends? then a < tx else b < rx
    ensures var posted := Apply(tx, rx, e, Post(kind));
            && posted.Some? && Apply(tx, rx, posted.value, Complete(kind)).Some?
            && Loaded(Apply(tx, rx, posted.value, Complete(kind)).value,
                      if kind.Sends? then a + 1 else a, if kind.Sends? then b else b + 1)
  {
    hide Count;
    CountAppend(e.cq, kind, Sends);
    CountAppend(e.cq, kind, Recvs);
  }

  /** The largest load. */
  lemma {:induction false} Load(tx: nat, rx: nat, a: nat, b: nat) returns (steps: seq<Step>)
    requires a <= tx && b <= rx
    ensures Exec(tx, rx, steps).Some? && Loaded(Exec(tx, rx, steps).value, a, b)
    decreases a + b
  {
    hide Exec, Apply, Loaded;
    StartsLoaded(tx, rx);
    if a + b == 0 {
      return [];
    }
    var kind, a', b' := Recvs, a, b;
    if a > 0 {
      kind, a' := Sends, a - 1;
    } else {
      b' := b - 1;
    }
    steps := Load(tx, rx, a', b');
    OneLoaded(tx, rx, Exec(tx, rx, steps).value, a', b', kind);
    ExecAppend(tx, rx, steps, Post(kind));
    steps := steps + [Post(kind)];
    ExecAppend(tx, rx, steps, Complete(kind));
    steps := steps + [Complete(kind)];
  }

  ghost predicate NeverOverflows(tx: nat, rx: nat, capacity: int) {
    forall steps :: Exec(tx, rx, steps).Some? ==> |Exec(tx, rx, steps).value.cq| <= capacity
  }

  /** The sum of the depths is the least capacity that no run overflows. */
  lemma CapacityIsExact(tx: nat, rx: nat, capacity: int)
    ensures NeverOverflows(tx, rx, capacity) <==> tx + rx <= capacity
  {
    var worst := Load(tx, rx, tx, rx);
    assert Exec(tx, rx, worst).Some?;
    forall steps | Exec(tx, rx, steps).Some?
      ensures |Exec(tx, rx, steps).value.cq| <= tx + rx
    {
      ExecFits(tx, rx, steps);
      CountBoth(Exec(tx, rx, steps).value.cq);
    }
  }

  /** The conversion of a size to a signed 32-bit number, which keeps the low bits. */
  function AsI32(n: nat): int {
    var low := n % 0x1_0000_0000;
    if low < 0x8000_0000 then low else low - 0x1_0000_0000
  }

  /** The conversion of a depth to an unsigned 32-bit number. */
  function AsU32(n: nat): nat {
    n % 0x1_0000_0000
  }

  /** Both conversions keep the low 32 bits and land in their type's range. */
  lemma ConversionsWrap(n: nat)
    ensures -0x8000_0000 <= AsI32(n) < 0x8000_0000 && (n - AsI32(n)) % 0x1_0000_0000 == 0
    ensures 0 <= AsU32(n) < 0x1_0000_0000 && (n - AsU32(n)) % 0x1_0000_0000 == 0
  {
  }

  /**
   * The completion queue both programs create is never overflowed by the work queues they create, whose
   * depths are converted too, exactly when those depths add up to less than 2^31.
   */
  lemma CreatedQueueSuffices(txDepth: nat, rxDepth: nat)
    ensures NeverOverflows(AsU32(txDepth), AsU32(rxDepth), AsI32(txDepth + rxDepth))
            <==> AsU32(txDepth) + AsU32(rxDepth) < 0x8000_0000
  {
    CapacityIsExact(AsU32(txDepth), AsU32(rxDepth), AsI32(txDepth + rxDepth));
  }

  function Posts(kind: Kind, n: nat): seq<Step> {
    seq(n, _ => Post(kind))
  }

  /** Requests can be posted without a completion up to the depth of their queue and no further. */
  lemma {:induction false} PostsFit(tx: nat, rx: nat, kind: Kind, n: nat)
    ensures Exec(tx, rx, Posts(kind, n)).Some? <==> n <= if kind.Sends? then tx else rx
    ensures Exec(tx, rx, Posts(kind, n)).Some? ==>
              Exec(tx, rx, Posts(kind, n)).value == WithOutstanding(EMPTY, kind, n)
  {
    if n > 0 {
      PostsFit(tx, rx, kind, n - 1);
      assert Posts(kind, n)[..n - 1] == Posts(kind, n - 1);
    }
  }

  /** The window a loop opens with fits the queue created for it exactly when the conversion leaves room for it. */
  lemma WindowFits(txDepth: nat, rxDepth: nat, iterations: nat, kind: Kind)
    ensures var depth := if kind.Sends? then txDepth else rxDepth;
            var window := Min(depth, iterations);
            && (Exec(AsU32(txDepth), AsU32(rxDepth), Posts(kind, window)).Some? <==> window <= AsU32(depth))
            && (window <= AsU32(depth) <==> depth < 0x1_0000_0000 || iterations <= AsU32(depth))
  {
    var depth := if kind.Sends? then txDepth else rxDepth;
    PostsFit(AsU32(txDepth), AsU32(rxDepth), kind, Min(depth, iterations));
  }
}
