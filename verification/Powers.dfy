/** The powers of two. */
module Powers {
  function Pow2(k: nat): (n: nat)
    ensures n > 0
  {
    if k == 0 then 1 else 2 * Pow2(k - 1)
  }

  ghost predicate IsPower(n: int) {
    exists k: nat :: n == Pow2(k)
  }

  lemma {:induction false} PowersGrow(j: nat, k: nat)
    requires j < k
    ensures 2 * Pow2(j) <= Pow2(k)
  {
    if j + 1 < k {
      PowersGrow(j, k - 1);
    }
  }

  /** No power of two lies strictly between one and its double. */
  lemma PowersApart(a: int, b: int)
    requires IsPower(a) && IsPower(b) && a < b
    ensures 2 * a <= b
  {
    var j: nat :| a == Pow2(j);
    var k: nat :| b == Pow2(k);
    if k < j {
      PowersGrow(k, j);
    }
    PowersGrow(j, k);
  }

  lemma Doubled(a: int)
    requires IsPower(a)
    ensures IsPower(2 * a)
  {
    var k: nat :| a == Pow2(k);
    assert Pow2(k + 1) == 2 * a;
  }

  lemma {:induction false} PowersMultiply(j: nat, k: nat)
    ensures Pow2(j + k) == Pow2(j) * Pow2(k)
  {
    if k > 0 {
      PowersMultiply(j, k - 1);
    }
  }
}
