/** The payload generator of the accuracy benchmark: splitmix64, on 64-bit registers. */
module Splitmix {
  type Byte = bv8
  type Word = bv64

  const GAMMA: Word := 0x9E37_79B9_7F4A_7C15

  // The five rounds that turn a state into an output word, and the round that undoes each.
  function Shift30(x: Word): Word { x ^ (x >> 30) }
  function Mul1(x: Word): Word { x * 0xBF58_476D_1CE4_E5B9 }
  function Shift27(x: Word): Word { x ^ (x >> 27) }
  function Mul2(x: Word): Word { x * 0x94D0_49BB_1331_11EB }
  function Shift31(x: Word): Word { x ^ (x >> 31) }

  function Unshift30(x: Word): Word { x ^ (x >> 30) ^ (x >> 60) }
  function Div1(x: Word): Word { x * 0x96DE_1B17_3F11_9089 }
  function Unshift27(x: Word): Word { x ^ (x >> 27) ^ (x >> 54) }
  function Div2(x: Word): Word { x * 0x3196_42B2_D24D_8EC3 }
  function Unshift31(x: Word): Word { x ^ (x >> 31) ^ (x >> 62) }

  /** The output word for a state that has already been advanced. */
  function Mix(state: Word): Word {
    Shift31(Mul2(Shift27(Mul1(Shift30(state)))))
  }

  /** The state an output word came from. */
  function Unmix(word: Word): Word {
    Unshift30(Div1(Unshift27(Div2(Unshift31(word)))))
  }

  // The explicit argument lets the solver cancel the round symbolically; the unfolded call is then
  // the same term.
  lemma Undo30(x: Word)
    ensures Unshift30(Shift30(x)) == x
  {
    assert Unshift30(x ^ (x >> 30)) == x;
  }

  lemma UndoMul1(x: Word)
    ensures Div1(Mul1(x)) == x
  {
    assert Div1(x * 0xBF58_476D_1CE4_E5B9) == x;
  }

  lemma Undo27(x: Word)
    ensures Unshift27(Shift27(x)) == x
  {
    assert Unshift27(x ^ (x >> 27)) == x;
  }

  lemma UndoMul2(x: Word)
    ensures Div2(Mul2(x)) == x
  {
    assert Div2(x * 0x94D0_49BB_1331_11EB) == x;
  }

  lemma Undo31(x: Word)
    ensures Unshift31(Shift31(x)) == x
  {
    assert Unshift31(x ^ (x >> 31)) == x;
  }

  /** Every round is invertible, so the generator never maps two states to one word. */
  lemma MixInvertible(state: Word)
    ensures Unmix(Mix(state)) == state
  {
    var a := Shift30(state);
    var b := Mul1(a);
    var c := Shift27(b);
    var d := Mul2(c);
    Undo31(d);
    UndoMul2(c);
    Undo27(b);
    UndoMul1(a);
    Undo30(state);
  }

  /** One step of the generator: advances the state and returns the word drawn. */
  method NextWord(state: Word) returns (next: Word, word: Word)
    ensures next == Advance(state)
    ensures word == Mix(next)
    ensures Retreat(Unmix(word)) == state
  {
    next := Advance(state);
    var z := next;
    z := Mul1(Shift30(z));
    z := Mul2(Shift27(z));
    word := Shift31(z);
    MixInvertible(next);
    AdvanceInvertible(state);
  }

  /** The generator's state after `i` steps from `seed`. */
  function StateAt(seed: Word, i: nat): Word {
    if i == 0 then seed else Advance(StateAt(seed, i - 1))
  }

  function Advance(state: Word): Word { state + GAMMA }

  function Retreat(state: Word): Word { state - GAMMA }

  /** The `i`-th word drawn from `seed`, counting from zero. */
  function WordAt(seed: Word, i: nat): Word {
    Mix(StateAt(seed, i + 1))
  }

  /** The words after the first are those drawn from the state the first one leaves. */
  lemma {:induction false} StatesShift(seed: Word, i: nat)
    ensures StateAt(Advance(seed), i) == StateAt(seed, i + 1)
  {
    hide Advance;
    if i > 0 {
      StatesShift(seed, i - 1);
    }
  }

  /** The generator is the one its constants are known by: the first words drawn from zero. */
  lemma ReferenceWords()
    ensures WordAt(0, 0) == 0xE220_A839_7B1D_CDAF
    ensures WordAt(0, 1) == 0x6E78_9E6A_A1B9_65F4
    ensures WordAt(0, 2) == 0x06C4_5D18_8009_454F
  {
    FirstStates(0);
  }

  lemma FirstStates(seed: Word)
    ensures StateAt(seed, 1) == seed + GAMMA && StateAt(seed, 2) == seed + GAMMA + GAMMA
    ensures StateAt(seed, 3) == seed + GAMMA + GAMMA + GAMMA
  {
    assert StateAt(seed, 0) == seed;
  }

  lemma AdvanceInvertible(state: Word)
    ensures Retreat(Advance(state)) == state
  {
    assert Retreat(state + GAMMA) == state;
  }

  lemma {:induction false} StatesStayApart(a: Word, b: Word, i: nat)
    requires a != b
    ensures StateAt(a, i) != StateAt(b, i)
  {
    if i > 0 {
      StatesStayApart(a, b, i - 1);
      AdvanceInvertible(StateAt(a, i - 1));
      AdvanceInvertible(StateAt(b, i - 1));
    }
  }

  /** Two different seeds disagree in every word they ever draw. */
  lemma WordsStayApart(a: Word, b: Word, i: nat)
    requires a != b
    ensures WordAt(a, i) != WordAt(b, i)
  {
    StatesStayApart(a, b, i + 1);
    MixInvertible(StateAt(a, i + 1));
    MixInvertible(StateAt(b, i + 1));
  }
}
