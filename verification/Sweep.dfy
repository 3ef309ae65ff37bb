/** The benchmark matrix a client expands its arguments to. Sizes are unsigned 64-bit numbers. */
module Sweep {
  import opened Wrappers
  import opened SessionScripts
  import opened Payloads
  import opened Powers
  import AccuracyProtocol
  import CompletionQueue
  import BandwidthQueue = Bandwidth

  type Usize = AccuracyProtocol.Usize

  /** Half the limit, the largest power of two a size can be. */
  const TOP: Usize := 0x8000_0000_0000_0000

  /** `Overflow` is the one case that is not an error return: no size is a power of two at or above the minimum. */
  datatype Failure = NoIterations | NoDepth | NoSize | ZeroMin | MaxBelowMin | NoneBetween | Overflow

  // ----- Powers of two -----

  lemma TopIsPower()
    ensures IsPower(TOP)
  {
    PowersMultiply(32, 31);
    assert Pow2(16) == 0x1_0000 && Pow2(15) == 0x8000;
    PowersMultiply(16, 16);
    PowersMultiply(16, 15);
  }

  /** The least power of two at or above `n`, looked for from the power `p` up. */
  function RoundUp(n: nat, p: nat): nat
    requires p > 0
    decreases if p < n then n - p else 0
  {
    if n <= p then p else RoundUp(n, 2 * p)
  }

  lemma {:induction false} RoundUpIsLeast(n: nat, p: nat)
    requires IsPower(p) && p > 0 && (p == 1 || p < 2 * n)
    ensures var r := RoundUp(n, p);
            && IsPower(r) && n <= r
            && (forall q :: IsPower(q) && n <= q && p <= q ==> r <= q)
    decreases if p < n then n - p else 0
  {
    if p < n {
      Doubled(p);
      RoundUpIsLeast(n, 2 * p);
      forall q | IsPower(q) && n <= q && p <= q
        ensures RoundUp(n, p) <= q
      {
        PowersApart(p, q);
      }
    }
  }

  // ----- The sweep -----

  ghost predicate Ascending(s: seq<int>) {
    forall i, j :: 0 <= i < j < |s| ==> s[i] < s[j]
  }

  /** `s` lists exactly the powers of two in `lo..=hi`, in ascending order. */
  ghost predicate Lists(s: seq<int>, lo: int, hi: int) {
    && Ascending(s)
    && forall n :: n in s <==> IsPower(n) && lo <= n <= hi
  }

  /** There is only one such list. */
  lemma {:induction false} ListsUnique(s: seq<int>, t: seq<int>, lo: int, hi: int)
    requires Lists(s, lo, hi) && Lists(t, lo, hi)
    ensures s == t
    decreases |s|
  {
    hide IsPower;
    assert t == [] || t[0] in t;
    if s != [] {
      var m := |s| - 1;
      assert s[m] in s;
      assert s[m] in t;
      var n := |t| - 1;
      assert t[n] in t;
      assert t[n] in s;
      assert s[m] == t[n];
      LastCut(s, lo, hi);
      LastCut(t, lo, hi);
      ListsUnique(s[..m], t[..n], lo, s[m] - 1);
      assert s == s[..m] + [s[m]] && t == t[..n] + [t[n]];
    }
  }

  lemma LastCut(s: seq<int>, lo: int, hi: int)
    requires Lists(s, lo, hi) && s != []
    ensures Lists(s[..|s| - 1], lo, s[|s| - 1] - 1)
  {
    var m := |s| - 1;
    assert s == s[..m] + [s[m]];
    assert s[m] in s;
    forall n
      ensures n in s[..m] <==> IsPower(n) && lo <= n <= s[m] - 1
    {
      assert IsPower(n) && lo <= n < s[m] ==> n in s;
      assert n in s[..m] ==> n in s;
    }
  }

  /** Each entry of a sweep is twice the one before it. */
  lemma SweepDoubles(s: seq<int>, lo: int, hi: int, i: nat)
    requires Lists(s, lo, hi) && i + 1 < |s|
    ensures s[i + 1] == 2 * s[i]
  {
    assert s[i] in s && s[i + 1] in s;
    PowersApart(s[i], s[i + 1]);
    Doubled(s[i]);
    if s[i + 1] != 2 * s[i] {
      assert 2 * s[i] in s;
      var j :| 0 <= j < |s| && s[j] == 2 * s[i];
      assert false;
    }
  }

  lemma ListsAppend(s: seq<int>, lo: int, size: int)
    requires IsPower(size) && 0 < lo <= size && Lists(s, lo, size - 1)
    ensures Lists(s + [size], lo, 2 * size - 1)
  {
    var after := s + [size];
    assert forall n :: n in s ==> n < size;
    forall i, j | 0 <= i < j < |after|
      ensures after[i] < after[j]
    {
      assert after[i] == s[i];
      assert s[i] in s;
    }
    forall n
      ensures n in s + [size] <==> IsPower(n) && lo <= n <= 2 * size - 1
    {
      if IsPower(n) && size < n {
        PowersApart(size, n);
      }
    }
  }

  method PowerOfTwoSizes(min: Usize, max: Usize) returns (r: Result<seq<nat>, Failure>)
    ensures min == 0 ==> r == Err(ZeroMin)
    ensures 0 < min && max < min ==> r == Err(MaxBelowMin)
    ensures 0 < min <= max ==> (r == Err(Overflow) <==> min > TOP)
    ensures 0 < min <= max && min <= TOP ==>
              (r == Err(NoneBetween) <==> !exists n :: IsPower(n) && min <= n <= max)
    ensures 0 < min <= max && min <= TOP && r.Err? ==> r == Err(NoneBetween)
    ensures r.Ok? ==> 0 < min <= max && r.value != [] && Lists(r.value, min, max)
  {
    if min == 0 {
      return Err(ZeroMin);
    }
    if max < min {
      return Err(MaxBelowMin);
    }
    var sizes: seq<nat> := [];
    assert IsPower(1) by { assert Pow2(0) == 1; }
    RoundUpIsLeast(min, 1);
    TopIsPower();
    var first := RoundUp(min, 1);
    if first > TOP {
      return Err(Overflow);
    }
    var size: Usize := first;
    while size <= max
      invariant IsPower(size) && min <= size
      invariant Lists(sizes, min, size - 1)
      invariant forall n :: n in sizes ==> n <= max
      decreases U64_LIMIT - size
    {
      ListsAppend(sizes, min, size);
      Doubled(size);
      sizes := sizes + [size];
      if 2 * size < U64_LIMIT {
        size := 2 * size;
      } else {
        break;
      }
    }
    assert Lists(sizes, min, max);
    if sizes == [] {
      return Err(NoneBetween);
    }
    assert sizes[0] in sizes;
    return Ok(sizes);
  }

  // ----- The plan -----

  datatype Args = Args(
    mode: seq<Mode>, size: Usize, all: bool, minSize: Usize, maxSize: Usize,
    iterations: Usize, txDepth: Usize, rxDepth: Usize)

  datatype Plan = Plan(modes: seq<Mode>, sizes: seq<nat>)

  const ALL: seq<Mode> := [Bandwidth, Latency, Accuracy]

  /** The smallest size a mode can be run with. */
  function MinMsgSize(mode: Mode): nat {
    match mode
    case Accuracy => 8
    case _ => 1
  }

  /** A suite runs every mode this program can initiate, each once. */
  lemma AllModes(mode: Mode)
    ensures multiset(ALL)[mode] == if TwoSided(mode) then 1 else 0
  {
    assert multiset(ALL) == multiset{Bandwidth, Latency, Accuracy};
  }

  /** Whether a mode's benchmark starts for messages of `size` bytes. */
  predicate Starts(mode: Mode, size: nat, iterations: Usize) {
    match mode
    case Accuracy => AccuracyProtocol.Accepted(AccuracyProtocol.Config(size, iterations, 1, 1))
    case _ => iterations > 0
  }

  /** The sizes of a plan that a suite runs a mode at. */
  function SuiteSizes(mode: Mode, sizes: seq<nat>): seq<nat> {
    if sizes == [] then []
    else (if sizes[0] >= MinMsgSize(mode) then [sizes[0]] else []) + SuiteSizes(mode, sizes[1..])
  }

  /** A suite skips exactly the sizes at which the mode would not start. */
  lemma {:induction false} SkipsWhatFails(mode: Mode, sizes: seq<nat>, iterations: Usize, size: nat)
    requires iterations > 0 && forall i :: 0 <= i < |sizes| ==> sizes[i] > 0
    ensures size in SuiteSizes(mode, sizes) <==> size in sizes && Starts(mode, size, iterations)
  {
    if sizes != [] {
      SkipsWhatFails(mode, sizes[1..], iterations, size);
    }
  }

  /** What a plan's sizes are, given the arguments it came from. */
  ghost predicate SizesFit(args: Args, sizes: seq<nat>) {
    if args.all then Lists(sizes, args.minSize, args.maxSize) else sizes == [args.size]
  }

  method MakePlan(args: Args) returns (r: Result<Plan, Failure>)
    ensures r.Ok? <==>
            && args.iterations > 0 && args.txDepth > 0 && args.rxDepth > 0
            && (if args.all
                then args.minSize > 0 && exists n :: IsPower(n) && args.minSize <= n <= args.maxSize
                else args.size > 0)
    ensures r.Ok? ==>
              && r.value.modes != [] && r.value.sizes != []
              && SizesFit(args, r.value.sizes)
              && r.value.modes == if args.mode == [] then ALL else args.mode
    ensures args.iterations == 0 ==> r == Err(NoIterations)
    ensures args.iterations > 0 && (args.txDepth == 0 || args.rxDepth == 0) ==> r == Err(NoDepth)
    ensures args.iterations > 0 && args.txDepth > 0 && args.rxDepth > 0 && !args.all && args.size == 0 ==>
              r == Err(NoSize)
    ensures args.iterations > 0 && args.txDepth > 0 && args.rxDepth > 0 && args.all && r.Err? ==>
              r.error == if args.minSize == 0 then ZeroMin
                         else if args.maxSize < args.minSize then MaxBelowMin
                         else if args.minSize > TOP then Overflow else NoneBetween
  {
    if args.iterations == 0 {
      return Err(NoIterations);
    }
    if args.txDepth == 0 || args.rxDepth == 0 {
      return Err(NoDepth);
    }
    var modes := if args.mode == [] then ALL else args.mode;
    var sizes: seq<nat> := [args.size];
    if args.all {
      var swept := PowerOfTwoSizes(args.minSize, args.maxSize);
      if args.minSize > TOP {
        NothingAboveTop(args.minSize, args.maxSize);
      }
      if swept.Err? {
        return Err(swept.error);
      }
      sizes := swept.value;
      assert sizes[0] in sizes;
    } else if args.size == 0 {
      return Err(NoSize);
    }
    return Ok(Plan(modes, sizes));
  }

  lemma NothingAboveTop(min: Usize, max: Usize)
    requires min > TOP
    ensures !exists n :: IsPower(n) && min <= n <= max
  {
    TopIsPower();
    forall n | IsPower(n) && min <= n
      ensures n > max
    {
      PowersApart(TOP, n);
    }
  }

  /**
   * What an accepted plan grants the loops. The depths are used as they are given, but the queue created for a
   * sender has the depth converted to 32 bits: the bandwidth sender can post its window, and go on to its exit,
   * exactly when the window fits that. The accuracy run starts exactly for the sizes its mode admits.
   */
  lemma AcceptedPlanRuns(args: Args, size: nat)
    requires args.iterations > 0 && args.txDepth > 0 && args.rxDepth > 0
    ensures var window, depth := Min(args.txDepth, args.iterations), CompletionQueue.AsU32(args.txDepth);
            (exists more :: BandwidthQueue.Exec(depth, BandwidthQueue.Opening(window) + more).Some?
               && BandwidthQueue.Exec(depth, BandwidthQueue.Opening(window) + more).value.reaped == args.iterations)
            <==> window <= depth
    ensures Min(args.txDepth, args.iterations) <= CompletionQueue.AsU32(args.txDepth)
            <==> args.txDepth < 0x1_0000_0000 || args.iterations <= CompletionQueue.AsU32(args.txDepth)
    ensures var c := AccuracyProtocol.Config(size, args.iterations, args.txDepth, args.rxDepth);
            && (AccuracyProtocol.Accepted(c) <==> size >= MinMsgSize(Accuracy))
            && (AccuracyProtocol.Accepted(c) ==>
                  && AccuracyProtocol.TxWindow(c) == Min(args.txDepth, args.iterations)
                  && AccuracyProtocol.RxWindow(c) == Min(args.rxDepth, args.iterations))
  {
    BandwidthQueue.WindowCanFinish(
      CompletionQueue.AsU32(args.txDepth), Min(args.txDepth, args.iterations), args.iterations);
  }
}
