/** The bandwidth benchmark: a credit window of work requests on each side. */
module Bandwidth {
  import opened Wrappers
  import opened Machine
  import opened Polls
  import opened Drains

  /** A work queue: the ids posted, in order, how many the NIC completed and how many the CPU reaped. */
  datatype Queue = Queue(posted: seq<nat>, done: nat, reaped: nat)

  datatype Step = Post(id: nat) | Complete | Reap(n: nat)

  const EMPTY: Queue := Queue([], 0, 0)

  /** One step of a queue of `depth` entries. Posting to a full queue fails; an entry is free once reaped. */
  function Apply(depth: nat, q: Queue, step: Step): Option<Queue> {
    match step
    case Post(id) =>
      if |q.posted| - q.reaped >= depth then None else Some(q.(posted := q.posted + [id]))
    case Complete =>
      if q.done >= |q.posted| then None else Some(q.(done := q.done + 1))
    case Reap(n) =>
      if n > Max(depth, 1) || q.reaped + n > q.done then None else Some(q.(reaped := q.reaped + n))
  }

  function Exec(depth: nat, steps: seq<Step>): Option<Queue> {
    if steps == [] then Some(EMPTY)
    else match Exec(depth, steps[..|steps| - 1])
      case None => None
      case Some(q) => Apply(depth, q, steps[|steps| - 1])
  }

  lemma ExecAppend(depth: nat, steps: seq<Step>, step: Step)
    ensures Exec(depth, steps + [step])
            == match Exec(depth, steps) case None => None case Some(q) => Apply(depth, q, step)
  {
    assert (steps + [step])[..|steps|] == steps;
  }

  /** In every reachable state the outstanding requests, unreaped completions included, fit the work queue. */
  lemma {:induction false} QueueFits(depth: nat, steps: seq<Step>)
    requires Exec(depth, steps).Some?
    ensures var q := Exec(depth, steps).value;
            q.reaped <= q.done <= |q.posted| <= q.reaped + depth
  {
    if steps != [] {
      QueueFits(depth, steps[..|steps| - 1]);
    }
  }

  /** The ids `0..n`, each once, in order. */
  function Ids(n: nat): seq<nat> {
    seq(n, i => i)
  }

  // ----- When the send loop can end -----

  lemma {:induction false} OneAtATime(depth: nat, n: nat) returns (steps: seq<Step>)
    requires depth > 0
    ensures Exec(depth, steps) == Some(Queue(Ids(n), n, n))
  {
    hide Exec;
    if n == 0 {
      StartsEmpty(depth);
      return [];
    }
    steps := OneAtATime(depth, n - 1);
    ExecAppend(depth, steps, Post(n - 1));
    steps := steps + [Post(n - 1)];
    assert Ids(n) == Ids(n - 1) + [n - 1];
    ExecAppend(depth, steps, Complete);
    steps := steps + [Complete];
    ExecAppend(depth, steps, Reap(1));
    steps := steps + [Reap(1)];
  }

  /** The sender's loop can reach its exit exactly when the depth is not zero or there is nothing to send. */
  lemma SendCanFinish(depth: nat, iterations: nat)
    ensures (exists steps :: Exec(depth, steps).Some? && Exec(depth, steps).value.reaped == iterations)
            <==> depth > 0 || iterations == 0
  {
    StartsEmpty(depth);
    hide Exec;
    if depth > 0 {
      var steps := OneAtATime(depth, iterations);
      assert Exec(depth, steps).Some? && Exec(depth, steps).value.reaped == iterations;
    } else {
      if iterations == 0 {
        assert Exec(depth, []).Some? && Exec(depth, []).value.reaped == iterations;
      }
      forall steps | Exec(depth, steps).Some?
        ensures Exec(depth, steps).value.reaped == 0
      {
        NothingMoves(steps);
      }
    }
  }

  // ----- A loop that opens with a window -----

  /** The posts a loop opens with. */
  function Opening(window: nat): seq<Step> {
    seq(window, i requires 0 <= i < window => Post(i))
  }

  lemma {:induction false} OpeningFits(depth: nat, window: nat)
    ensures Exec(depth, Opening(window)) == if window <= depth then Some(Queue(Ids(window), 0, 0)) else None
  {
    if window == 0 {
      assert Ids(0) == [];
    } else {
      OpeningFits(depth, window - 1);
      assert Opening(window)[..window - 1] == Opening(window - 1);
      assert Ids(window) == Ids(window - 1) + [window - 1];
    }
  }

  /** A run that failed stays failed. */
  lemma {:induction false} FailedStays(depth: nat, steps: seq<Step>, more: seq<Step>)
    requires Exec(depth, steps).None?
    ensures Exec(depth, steps + more).None?
  {
    if more == [] {
      assert steps + more == steps;
    } else {
      FailedStays(depth, steps, more[..|more| - 1]);
      assert steps + more == steps + more[..|more| - 1] + [more[|more| - 1]];
      ExecAppend(depth, steps + more[..|more| - 1], more[|more| - 1]);
    }
  }

  /** Once the window is posted, the loop can go on to `n` requests reaped, whatever is left of the window. */
  lemma {:induction false} GoesOn(depth: nat, window: nat, n: nat) returns (more: seq<Step>)
    requires window <= depth && (window > 0 || n == 0)
    ensures Exec(depth, Opening(window) + more) == Some(Queue(Ids(Max(window, n)), n, n))
  {
    hide Exec;
    if n == 0 {
      OpeningFits(depth, window);
      assert Opening(window) + [] == Opening(window);
      return [];
    }
    var before := GoesOn(depth, window, n - 1);
    more := before;
    if n > window {
      more := OneStep(depth, Opening(window), more, Post(n - 1));
      assert Ids(n) == Ids(n - 1) + [n - 1];
    }
    more := OneStep(depth, Opening(window), more, Complete);
    more := OneStep(depth, Opening(window), more, Reap(1));
  }

  lemma OneStep(depth: nat, steps: seq<Step>, more: seq<Step>, step: Step) returns (longer: seq<Step>)
    ensures longer == more + [step]
    ensures Exec(depth, steps + longer)
            == match Exec(depth, steps + more) case None => None case Some(q) => Apply(depth, q, step)
  {
    longer := more + [step];
    assert steps + longer == steps + more + [step];
    ExecAppend(depth, steps + more, step);
  }

  /** A loop that opens with a window can reach its exit exactly when the queue has room for the window. */
  lemma WindowCanFinish(depth: nat, window: nat, iterations: nat)
    requires window <= iterations && (window > 0 || iterations == 0)
    ensures (exists more :: Exec(depth, Opening(window) + more).Some?
                            && Exec(depth, Opening(window) + more).value.reaped == iterations)
            <==> window <= depth
  {
    hide Exec;
    OpeningFits(depth, window);
    if window <= depth {
      var more := GoesOn(depth, window, iterations);
      assert Exec(depth, Opening(window) + more).Some?;
    } else {
      forall more: seq<Step>
        ensures Exec(depth, Opening(window) + more).None?
      {
        FailedStays(depth, Opening(window), more);
      }
    }
  }

  lemma StartsEmpty(depth: nat)
    ensures Exec(depth, []) == Some(EMPTY)
  {
  }

  lemma {:induction false} NothingMoves(steps: seq<Step>)
    requires Exec(0, steps).Some?
    ensures Exec(0, steps).value == EMPTY
  {
    if steps != [] {
      NothingMoves(steps[..|steps| - 1]);
    }
  }

  // ----- The loops -----

  class Pipeline {
    const depth: nat
    var q: Queue
    ghost var steps: seq<Step>

    ghost predicate Valid()
      reads this`q, this`steps
    {
      && Exec(depth, steps) == Some(q)
      && q.reaped <= q.done <= |q.posted| <= q.reaped + depth
    }

    constructor (depth: nat)
      ensures Valid() && q == EMPTY && this.depth == depth
    {
      this.depth := depth;
      q := EMPTY;
      steps := [];
    }

    method Do(step: Step)
      requires Valid() && Apply(depth, q, step).Some?
      modifies this`q, this`steps
      ensures Valid() && Some(q) == Apply(depth, old(q), step)
    {
      ExecAppend(depth, steps, step);
      QueueFits(depth, steps + [step]);
      q := Apply(depth, q, step).value;
      steps := steps + [step];
    }

    /** The NIC completes any number of outstanding requests. */
    method NicRuns()
      requires Valid()
      modifies this`q, this`steps
      ensures Valid() && q == old(q).(done := q.done) && q.done >= old(q).done
    {
      var count: nat := *;
      while count > 0
        invariant Valid() && q == old(q).(done := q.done) && q.done >= old(q).done
      {
        if q.done < |q.posted| {
          Do(Complete);
        }
        count := count - 1;
      }
    }

    /**
     * Posts the next ids, one for each of `n` completions just reaped, until all have been posted. The
     * queue is never full.
     */
    method Refill(iterations: nat, posted: nat, n: nat) returns (now: nat)
      requires Valid() && q.posted == Ids(posted) && posted + n <= q.reaped + depth
      modifies this`q, this`steps
      ensures Valid() && q.posted == Ids(now) && q.reaped == old(q).reaped && q.done == old(q).done
      ensures now == Max(posted, Min(iterations, posted + n))
    {
      now := posted;
      for k := 0 to n
        invariant Valid() && q.posted == Ids(now) && q.reaped == old(q).reaped && q.done == old(q).done
        invariant now == Max(posted, Min(iterations, posted + k))
      {
        if now < iterations {
          Do(Post(now));
          assert Ids(now + 1) == Ids(now) + [now];
          now := now + 1;
        }
      }
    }

    /** A poll that the world answers with `answer`: the NIC has completed what it returns. */
    method PollQueue(answer: Poll) returns (r: Result<nat, WcError>)
      requires Valid() && (answer.Polled? ==> answer.n <= |q.posted| - q.reaped && answer.n <= Max(depth, 1))
      modifies this`q, this`steps
      ensures Valid() && q.posted == old(q).posted
      ensures r == if answer.Broken? then Err(WcError) else Ok(answer.n)
      ensures q.reaped == old(q).reaped + if r.Ok? then r.value else 0
    {
      NicRuns();
      if answer.Broken? {
        return Err(WcError);
      }
      while q.done < q.reaped + answer.n
        invariant Valid() && q == old(q).(done := q.done)
        decreases q.reaped + answer.n - q.done
      {
        Do(Complete);
      }
      Do(Reap(answer.n));
      return Ok(answer.n);
    }

    /**
     * The sender: keeps a window of sends in flight until every one has completed. In a world that answers its
     * polls with `world` it fails exactly when a poll does before all have; otherwise each id below
     * `iterations` was posted exactly once and every request was completed and reaped.
     */
    method Send(iterations: nat, world: nat -> Poll) returns (r: Result<(), WcError>, ghost made: nat)
      requires Valid() && q == EMPTY
      requires Answerable(world, iterations, Min(depth, iterations)) && Lively(world, iterations)
      modifies this
      ensures Valid()
      ensures EndsAfter(iterations, world, made)
      ensures r == if Breaks(iterations, world) then Err(WcError) else Ok(())
      ensures q.reaped == Sum(Made(world, made), made)
      ensures q.posted == Ids(Min(iterations, Min(depth, iterations) + q.reaped))
      ensures r.Ok? ==> q == Queue(Ids(iterations), iterations, iterations)
    {
      hide Exec, Sum, Made, Answerable, Lively, Going, EndsAfter, Breaks;
      var window := Min(depth, iterations);
      var posted := Refill(window, 0, window);
      var completed := 0;
      var k: nat := 0;
      ghost var due: nat := Begins(iterations, world);
      while completed < iterations
        invariant Valid() && q.posted == Ids(posted) && q.reaped == completed <= iterations
        invariant posted == Min(iterations, window + completed)
        invariant Going(iterations, world, k, completed, due)
        decreases iterations - completed, due - k
      {
        ghost var next: nat := PollMore(iterations, world, window, k, completed, due);
        var polled := PollQueue(world(k));
        k := k + 1;
        if polled.Err? {
          return Err(polled.error), k;
        }
        due := next;
        completed := completed + polled.value;
        posted := Refill(iterations, posted, polled.value);
      }
      GotAll(iterations, world, k, due);
      return Ok(()), k;
    }

    /**
     * The receiver: drains the stream until every message has arrived or the stream has been quiet for
     * too long. In a world that answers its polls with `world`, the outcome is that of the drain on the polls
     * made, and the shortfall returned is exact: so many receive completions were never reaped.
     */
    method Receive(iterations: nat, began: nat, world: nat -> Poll)
      returns (shortfall: Result<nat, WcError>, ghost made: nat)
      requires Valid() && q == EMPTY
      requires Ticking(began, world) && Answerable(world, iterations, Min(depth, iterations))
      modifies this
      ensures Valid() && q.reaped == Sum(Made(world, made), made)
      ensures match Drain(iterations, began, Made(world, made))
              case Draining(_, _) => false
              case Failed => shortfall == Err(WcError)
              case ByCount(n) => q.reaped == n && shortfall == Ok(0)
              case Quiet(n) => q.reaped == n < iterations && shortfall == Ok(iterations - n)
      ensures q.posted == Ids(Min(iterations, Min(depth, iterations) + q.reaped))
    {
      hide Exec, Drain, Sum, Made, Reached, Ticking;
      var window := Min(depth, iterations);
      var posted := Refill(window, 0, window);
      var completed := 0;
      var last: nat, now: nat := began, began;
      var k: nat := 0;
      NothingMade(iterations, began, world);
      while completed < iterations
        invariant Valid() && q.posted == Ids(posted) && q.reaped == completed <= iterations
        invariant posted == Min(iterations, window + completed)
        invariant Reached(iterations, began, world, k, completed, last, now) && now < last + IDLE_TIMEOUT
        decreases iterations - completed, last + IDLE_TIMEOUT - now
      {
        ReachedSum(iterations, began, world, k, completed, last, now);
        PollMade(iterations, began, world, k, completed, last, now);
        var answer := world(k);
        var polled := PollQueue(answer);
        k := k + 1;
        if polled.Err? {
          return Err(polled.error), k;
        }
        now := answer.now;
        var n := polled.value;
        if n == 0 {
          if now - last >= IDLE_TIMEOUT {
            return Ok(iterations - completed), k;
          }
          continue;
        }
        last := now;
        completed := completed + n;
        posted := Refill(iterations, posted, n);
      }
      ReachedSum(iterations, began, world, k, completed, last, now);
      return Ok(iterations - completed), k;
    }
  }
}
