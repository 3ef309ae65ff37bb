/** What a loop's polls of its completion queue return, and the world that answers them. */
module Polls {
  /** One poll: it fails, or it returns `n` completions and the clock read after it shows `now`. */
  datatype Poll = Broken | Polled(n: nat, now: nat)

  predicate Empty(poll: Poll) {
    poll.Polled? && poll.n == 0
  }

  /** The completions returned by the first `n` polls. */
  function Sum(polls: seq<Poll>, n: nat): nat
    requires n <= |polls|
  {
    if n == 0 then 0 else Sum(polls, n - 1) + if polls[n - 1].Polled? then polls[n - 1].n else 0
  }

  lemma {:induction false} PrefixSum(polls: seq<Poll>, m: nat, n: nat)
    requires n <= m <= |polls|
    ensures Sum(polls[..m], n) == Sum(polls, n)
  {
    if n > 0 {
      PrefixSum(polls, m, n - 1);
    }
  }

  lemma {:induction false} SumGrows(polls: seq<Poll>, i: nat, n: nat)
    requires i <= n <= |polls|
    ensures Sum(polls, i) <= Sum(polls, n)
  {
    if i < n {
      SumGrows(polls, i, n - 1);
    }
  }

  /** The first `k` polls in a world that answers poll number `i` with `world(i)`. */
  function Made(world: nat -> Poll, k: nat): (polls: seq<Poll>)
    ensures |polls| == k && forall i: nat :: i < k ==> polls[i] == world(i)
  {
    seq(k, i requires 0 <= i < k => world(i))
  }

  /** No poll returns more than fits its buffer. */
  ghost predicate AtMost(world: nat -> Poll, window: nat) {
    forall i: nat :: world(i).Polled? ==> world(i).n <= window
  }

  /** Nor more than has been posted by a loop that keeps `window` requests posted until there are `iterations`. */
  ghost predicate Answerable(world: nat -> Poll, iterations: nat, window: nat) {
    forall k: nat :: world(k).Polled? && Sum(Made(world, k), k) <= iterations
      ==> world(k).n <= window && world(k).n <= iterations - Sum(Made(world, k), k)
  }

  lemma SumNext(world: nat -> Poll, k: nat)
    ensures Made(world, k + 1) == Made(world, k) + [world(k)]
    ensures Sum(Made(world, k + 1), k + 1) == Sum(Made(world, k), k) + if world(k).Polled? then world(k).n else 0
  {
    assert Made(world, k + 1)[..k] == Made(world, k);
    PrefixSum(Made(world, k + 1), k, k);
  }

  // ----- A loop that waits for a number of completions and knows no time limit -----

  /** Poll `k` or a later one is not empty. */
  ghost predicate Answered(world: nat -> Poll, k: nat) {
    exists due: nat :: due >= k && !Empty(world(due))
  }

  /** After `k` polls of a loop for `iterations` completions, none failed and each was made for want of them. */
  ghost predicate UnderWay(iterations: nat, world: nat -> Poll, k: nat) {
    forall i: nat :: i < k ==> world(i).Polled? && Sum(Made(world, i), i) < iterations
  }

  /** While completions are wanting, one comes sooner or later, or a poll fails. */
  ghost predicate Lively(world: nat -> Poll, iterations: nat) {
    forall k: nat :: UnderWay(iterations, world, k) && Sum(Made(world, k), k) < iterations ==> Answered(world, k)
  }

  /**
   * A loop for `iterations` completions makes `made` polls and no more: until then too few completions have
   * come and none has failed.
   */
  ghost predicate EndsAfter(iterations: nat, world: nat -> Poll, made: nat) {
    && (forall k: nat :: k < made ==> Sum(Made(world, k), k) < iterations)
    && (forall k: nat :: k + 1 < made ==> world(k).Polled?)
    && (Sum(Made(world, made), made) >= iterations || Fails(world, made))
  }

  /** The last of `made` polls fails. */
  predicate Fails(world: nat -> Poll, made: nat) {
    made > 0 && world(made - 1).Broken?
  }

  /** Some poll fails before enough completions have come. */
  ghost predicate Breaks(iterations: nat, world: nat -> Poll) {
    exists k: nat :: world(k).Broken? && Sum(Made(world, k), k) < iterations
  }

  lemma {:induction false} MadeSumGrows(world: nat -> Poll, i: nat, n: nat)
    requires i <= n
    ensures Sum(Made(world, i), i) <= Sum(Made(world, n), n)
  {
    hide Made, Sum;
    if i < n {
      MadeSumGrows(world, i, n - 1);
      SumNext(world, n - 1);
    }
  }

  /** How such a loop ends is the world's doing: it fails exactly when a poll does before enough have come. */
  lemma EndsBroken(iterations: nat, world: nat -> Poll, made: nat)
    requires EndsAfter(iterations, world, made)
    ensures Fails(world, made) <==> Breaks(iterations, world)
    ensures Fails(world, made) <==> Sum(Made(world, made), made) < iterations
  {
    hide Made, Sum;
    if Fails(world, made) {
      SumNext(world, made - 1);
    }
    if Breaks(iterations, world) {
      var k: nat :| world(k).Broken? && Sum(Made(world, k), k) < iterations;
      if k >= made {
        MadeSumGrows(world, made, k);
      }
    }
  }

  /** And so is when it ends. */
  lemma EndsOnce(iterations: nat, world: nat -> Poll, made: nat, other: nat)
    requires EndsAfter(iterations, world, made) && EndsAfter(iterations, world, other)
    ensures made == other
  {
    hide Made, Sum;
    EndsBroken(iterations, world, made);
    EndsBroken(iterations, world, other);
  }

  /** The loop has made `k` polls and counted `completed`; unless that is enough, poll `due` is not empty. */
  ghost predicate Going(iterations: nat, world: nat -> Poll, k: nat, completed: nat, due: nat) {
    && UnderWay(iterations, world, k) && completed == Sum(Made(world, k), k) <= iterations
    && (completed < iterations ==> k <= due && !Empty(world(due)))
  }

  lemma Awaited(iterations: nat, world: nat -> Poll, k: nat) returns (due: nat)
    requires Lively(world, iterations) && UnderWay(iterations, world, k)
    requires Sum(Made(world, k), k) <= iterations
    ensures Going(iterations, world, k, Sum(Made(world, k), k), due)
  {
    due := k;
    if Sum(Made(world, k), k) < iterations {
      assert Answered(world, k);
      due :| due >= k && !Empty(world(due));
    }
  }

  lemma Begins(iterations: nat, world: nat -> Poll) returns (due: nat)
    requires Lively(world, iterations)
    ensures Going(iterations, world, 0, 0, due)
  {
    assert Sum(Made(world, 0), 0) == 0;
    due := Awaited(iterations, world, 0);
  }

  /** What one more poll does to such a loop; an empty one brings it nearer to the one that is due. */
  lemma PollMore(iterations: nat, world: nat -> Poll, window: nat, k: nat, completed: nat, due: nat)
    returns (next: nat)
    requires Answerable(world, iterations, window) && Lively(world, iterations)
    requires Going(iterations, world, k, completed, due) && completed < iterations
    ensures k <= due
    ensures match world(k)
            case Broken => EndsAfter(iterations, world, k + 1) && Sum(Made(world, k + 1), k + 1) == completed
                           && Breaks(iterations, world)
            case Polled(n, _) =>
              && n <= window && completed + n <= iterations
              && Going(iterations, world, k + 1, completed + n, next) && (n == 0 ==> next == due)
  {
    hide Made, Sum;
    SumNext(world, k);
    next := due;
    if world(k).Polled? && world(k).n > 0 {
      next := Awaited(iterations, world, k + 1);
    }
  }

  lemma GotAll(iterations: nat, world: nat -> Poll, k: nat, due: nat)
    requires Going(iterations, world, k, iterations, due)
    ensures EndsAfter(iterations, world, k) && Sum(Made(world, k), k) == iterations && !Breaks(iterations, world)
  {
    hide Made, Sum;
    EndsBroken(iterations, world, k);
  }

  lemma {:induction false} Ends(iterations: nat, world: nat -> Poll, window: nat, k: nat, completed: nat, due: nat)
    requires Answerable(world, iterations, window) && Lively(world, iterations)
    requires Going(iterations, world, k, completed, due) && completed <= iterations
    ensures exists made: nat :: EndsAfter(iterations, world, made)
    decreases iterations - completed, due - k
  {
    hide Answerable, Lively, EndsAfter, Going;
    if completed == iterations {
      GotAll(iterations, world, k, due);
    } else {
      var next := PollMore(iterations, world, window, k, completed, due);
      if world(k).Polled? {
        Ends(iterations, world, window, k + 1, completed + world(k).n, next);
      }
    }
  }

  lemma {:induction false} EmptyAdds(world: nat -> Poll, k: nat, n: nat)
    requires k <= n && forall i: nat :: k <= i < n ==> Empty(world(i))
    ensures Sum(Made(world, n), n) == Sum(Made(world, k), k)
  {
    hide Made, Sum;
    if k < n {
      EmptyAdds(world, k, n - 1);
      SumNext(world, n - 1);
    }
  }

  /** The loop ends exactly when something always comes while it waits. */
  lemma EndsIffLively(iterations: nat, world: nat -> Poll, window: nat)
    requires Answerable(world, iterations, window)
    ensures (exists made: nat :: EndsAfter(iterations, world, made)) <==> Lively(world, iterations)
  {
    hide Made, Sum, Answerable, EndsAfter, Answered;
    if Lively(world, iterations) {
      var due := Begins(iterations, world);
      Ends(iterations, world, window, 0, 0, due);
    }
    if made: nat :| EndsAfter(iterations, world, made) {
      forall k: nat | UnderWay(iterations, world, k) && Sum(Made(world, k), k) < iterations
        ensures Answered(world, k)
      {
        AnsweredBefore(iterations, world, made, k);
      }
    }
  }

  lemma AnsweredBefore(iterations: nat, world: nat -> Poll, made: nat, k: nat)
    requires EndsAfter(iterations, world, made)
    requires UnderWay(iterations, world, k) && Sum(Made(world, k), k) < iterations
    ensures Answered(world, k)
  {
    hide Made, Sum;
    if made <= k {
      MadeSumGrows(world, made, k);
    } else if forall i: nat :: k <= i < made ==> Empty(world(i)) {
      EmptyAdds(world, k, made);
    }
  }
}
