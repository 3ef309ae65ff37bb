/** The generator does not repeat itself within `2^64` draws. */
module SplitmixPeriod {
  import opened Splitmix
  import opened Powers

  function Plus(a: Word, b: Word): Word { a + b }

  lemma PlusAdvance(a: Word, b: Word)
    ensures Plus(a, Advance(b)) == Advance(Plus(a, b))
  {
    assert Plus(a, b + GAMMA) == Advance(a + b);
  }

  lemma PlusZero(a: Word)
    ensures Plus(a, 0) == a
  {
  }

  /** The distance covered in `i` steps is the same from every seed. */
  lemma {:induction false} StateIsOffset(seed: Word, i: nat)
    ensures StateAt(seed, i) == Plus(seed, StateAt(0, i))
  {
    hide Plus, Advance;
    if i == 0 {
      PlusZero(seed);
    } else {
      StateIsOffset(seed, i - 1);
      PlusAdvance(seed, StateAt(0, i - 1));
    }
  }

  lemma {:induction false} StepsAdd(seed: Word, i: nat, j: nat)
    ensures StateAt(seed, i + j) == StateAt(StateAt(seed, i), j)
  {
    hide Advance;
    if j > 0 {
      StepsAdd(seed, i, j - 1);
    }
  }

  function Double(x: Word): Word { Plus(x, x) }

  /** `x` doubled `t` times. */
  function Doubles(x: Word, t: nat): Word
    decreases t
  {
    if t == 0 then x else Doubles(Double(x), t - 1)
  }

  lemma {:induction false} ZeroStays(t: nat)
    ensures Doubles(0, t) == 0
  {
    if t > 0 {
      PlusZero(0);
      ZeroStays(t - 1);
      hide Plus;
    }
  }

  lemma {:induction false} DoublesAdd(x: Word, t: nat, u: nat)
    ensures Doubles(x, t + u) == Doubles(Doubles(x, t), u)
    decreases t
  {
    hide Double;
    if t > 0 {
      DoublesAdd(Double(x), t - 1, u);
    }
  }

  lemma Nine(x: Word)
    ensures Double(Double(Double(Double(Double(Double(Double(Double(Double(x))))))))) == x * 512
  {
  }

  lemma Doubles9(x: Word)
    ensures Doubles(x, 9) == x * 512
  {
    Nine(x);
    hide Double;
    var a := Double(Double(Double(x)));
    assert Doubles(x, 9) == Doubles(a, 6);
    var b := Double(Double(Double(a)));
    assert Doubles(a, 6) == Doubles(b, 3);
    assert Doubles(b, 3) == Double(Double(Double(b)));
  }

  lemma OddShifted(x: Word)
    requires x & 1 == 1
    ensures x * 512 * 512 * 512 * 512 * 512 * 512 * 512 == 0x8000_0000_0000_0000
  {
  }

  lemma OddLeavesTop(x: Word)
    requires x & 1 == 1
    ensures Doubles(x, 63) == 0x8000_0000_0000_0000
  {
    hide Doubles, Double;
    OddShifted(x);
    DoublesAdd(x, 9, 54);
    Doubles9(x);
    var a := x * 512;
    DoublesAdd(a, 9, 45);
    Doubles9(a);
    var b := a * 512;
    DoublesAdd(b, 9, 36);
    Doubles9(b);
    var c := b * 512;
    DoublesAdd(c, 9, 27);
    Doubles9(c);
    var d := c * 512;
    DoublesAdd(d, 9, 18);
    Doubles9(d);
    var e := d * 512;
    DoublesAdd(e, 9, 9);
    Doubles9(e);
    Doubles9(e * 512);
  }

  predicate Odd(x: Word) { x & 1 == 1 }

  lemma OddSum(c: Word)
    ensures Odd(Advance(Double(c)))
  {
    assert Odd(Advance(c + c));
  }

  /** An odd word, doubled up to 63 times, is not zero. */
  lemma OddKeeps(x: Word, t: nat)
    requires Odd(x) && t <= 63
    ensures Doubles(x, t) != 0
  {
    OddLeavesTop(x);
    hide Doubles, Double;
    DoublesAdd(x, t, 63 - t);
    ZeroStays(63 - t);
  }

  /** Fewer than `2^64` steps lead somewhere, even when doubled as often as their number allows. */
  lemma {:induction false} OffsetSurvives(d: nat, t: nat)
    requires t <= 64 && 0 < d < Pow2(64 - t)
    ensures Doubles(StateAt(0, d), t) != 0
    decreases d
  {
    assert t <= 63;
    var m := d / 2;
    StepsAdd(0, m, m);
    StateIsOffset(StateAt(0, m), m);
    var c := StateAt(0, m);
    assert StateAt(0, m + m) == Double(c);
    hide Advance, Double, Plus, Odd;
    if d == m + m {
      assert Doubles(c, t + 1) == Doubles(Double(c), t);
      hide Doubles;
      assert m < Pow2(64 - (t + 1));
      OffsetSurvives(m, t + 1);
    } else {
      assert d == m + m + 1;
      assert StateAt(0, d) == Advance(Double(c));
      hide Doubles, StateAt;
      OddSum(c);
      OddKeeps(Advance(Double(c)), t);
    }
  }

  /** As many steps as a power of two are the first one doubled. */
  lemma {:induction false} PowerOffset(t: nat)
    ensures StateAt(0, Pow2(t)) == Doubles(StateAt(0, 1), t)
  {
    hide Advance, Plus;
    if t > 0 {
      var n := Pow2(t - 1);
      PowerOffset(t - 1);
      StepsAdd(0, n, n);
      StateIsOffset(StateAt(0, n), n);
      hide StateAt;
      assert StateAt(0, Pow2(t)) == Double(StateAt(0, n));
      DoublesAdd(StateAt(0, 1), t - 1, 1);
      assert Doubles(Doubles(StateAt(0, 1), t - 1), 1) == Double(StateAt(0, n));
    }
  }

  lemma OneStep()
    ensures StateAt(0, 1) == GAMMA && GAMMA & 1 == 1
  {
    assert StateAt(0, 0) == 0;
  }

  lemma FullTurn()
    ensures StateAt(0, Pow2(64)) == 0
  {
    hide StateAt, Doubles, Pow2;
    PowerOffset(64);
    OneStep();
    OddLeavesTop(GAMMA);
    DoublesAdd(GAMMA, 63, 1);
    TopVanishes();
  }

  lemma TopVanishes()
    ensures Doubles(0x8000_0000_0000_0000, 1) == 0
  {
    assert Double(0x8000_0000_0000_0000) == 0;
  }

  lemma PlusMoves(a: Word, b: Word)
    requires b != 0
    ensures Plus(a, b) != a
  {
  }

  /** The words drawn repeat after `2^64` positions, and none repeats any sooner. */
  lemma PeriodIsFull(seed: Word, i: nat, j: nat)
    requires i < j <= i + Pow2(64)
    ensures WordAt(seed, i) == WordAt(seed, j) <==> j == i + Pow2(64)
  {
    hide Mix, Unmix, Advance, Plus, Pow2;
    var d := j - i;
    var at := StateAt(seed, i + 1);
    StepsAdd(seed, i + 1, d);
    StateIsOffset(at, d);
    MixInvertible(at);
    MixInvertible(StateAt(seed, j + 1));
    if d == Pow2(64) {
      FullTurn();
      PlusZero(at);
    } else {
      OffsetSurvives(d, 0);
      assert Doubles(StateAt(0, d), 0) == StateAt(0, d);
      PlusMoves(at, StateAt(0, d));
    }
  }
}
