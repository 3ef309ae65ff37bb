/** Counting the elements of a sequence that satisfy a predicate. */
module Counting {
  function CountIf<T>(s: seq<T>, p: T -> bool): (n: nat)
    ensures n <= |s|
  {
    if s == [] then 0 else CountIf(s[..|s| - 1], p) + (if p(s[|s| - 1]) then 1 else 0)
  }

  lemma {:induction false} CountConcat<T>(a: seq<T>, b: seq<T>, p: T -> bool)
    ensures CountIf(a + b, p) == CountIf(a, p) + CountIf(b, p)
  {
    if b == [] {
      assert a + b == a;
    } else {
      var n := |b| - 1;
      CountConcat(a, b[..n], p);
      assert (a + b)[..|a + b| - 1] == a + b[..n];
    }
  }

  lemma CountOne<T>(x: T, p: T -> bool)
    ensures CountIf([x], p) == if p(x) then 1 else 0
  {
    assert CountIf([x], p) == CountIf([], p) + (if p(x) then 1 else 0);
  }

  /** A sequence without its element `k`. */
  function Without<T>(s: seq<T>, k: nat): seq<T>
    requires k < |s|
  {
    s[..k] + s[k + 1..]
  }

  lemma MultisetWithout<T>(s: seq<T>, k: nat)
    requires k < |s|
    ensures s[k] in multiset(s)
    ensures multiset(Without(s, k)) == multiset(s)[s[k] := multiset(s)[s[k]] - 1]
  {
    assert s == s[..k] + ([s[k]] + s[k + 1..]);
  }

  lemma CountWithout<T>(s: seq<T>, k: nat, p: T -> bool)
    requires k < |s|
    ensures CountIf(s, p) == CountIf(Without(s, k), p) + (if p(s[k]) then 1 else 0)
  {
    hide CountIf;
    var a, x, b := s[..k], [s[k]], s[k + 1..];
    Parted(s, k);
    CountConcat(a + x, b, p);
    CountConcat(a, x, p);
    CountConcat(a, b, p);
    CountOne(s[k], p);
  }

  lemma Parted<T>(s: seq<T>, k: nat)
    requires k < |s|
    ensures s == s[..k] + [s[k]] + s[k + 1..]
  {
  }

  /** The count does not depend on the order. */
  lemma {:induction false} CountPermute<T>(a: seq<T>, b: seq<T>, p: T -> bool)
    requires multiset(a) == multiset(b)
    ensures CountIf(a, p) == CountIf(b, p)
    decreases |a|
  {
    if a == [] {
      assert |b| == |multiset(b)|;
    } else {
      assert a[0] in multiset(b);
      var k :| 0 <= k < |b| && b[k] == a[0];
      MultisetWithout(a, 0);
      MultisetWithout(b, k);
      CountWithout(a, 0, p);
      CountWithout(b, k, p);
      CountPermute(Without(a, 0), Without(b, k), p);
    }
  }

  /** At least the first `at` elements count. */
  lemma {:induction false} CountAtLeast<T>(s: seq<T>, at: nat, p: T -> bool)
    requires at <= |s| && forall i :: 0 <= i < at ==> p(s[i])
    ensures CountIf(s, p) >= at
  {
    if s != [] {
      CountAtLeast(s[..|s| - 1], if at < |s| then at else at - 1, p);
    }
  }

  /** At most the first `at` elements count. */
  lemma {:induction false} CountAtMost<T>(s: seq<T>, at: nat, p: T -> bool)
    requires at <= |s| && forall i :: at <= i < |s| ==> !p(s[i])
    ensures CountIf(s, p) <= at
  {
    if at < |s| {
      CountAtMost(s[..|s| - 1], at, p);
    }
  }
}
