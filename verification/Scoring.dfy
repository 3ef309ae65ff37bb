/** How many bytes and bits of a received message agree with what it should have held. */
module Scoring {
  import opened Splitmix
  import opened Payloads

  function Flag(on: bool): nat {
    if on then 1 else 0
  }

  /** Whether bit `k` of `b` is set. */
  predicate Bit(b: Byte, k: nat) {
    match k
    case 0 => b & 1 != 0
    case 1 => b & 2 != 0
    case 2 => b & 4 != 0
    case 3 => b & 8 != 0
    case 4 => b & 16 != 0
    case 5 => b & 32 != 0
    case 6 => b & 64 != 0
    case 7 => b & 128 != 0
    case _ => false
  }

  function CountOnes(b: Byte): (n: nat)
    ensures n <= 8
    ensures n == 0 <==> b == 0
  {
    Flag(Bit(b, 0)) + Flag(Bit(b, 1)) + Flag(Bit(b, 2)) + Flag(Bit(b, 3))
    + Flag(Bit(b, 4)) + Flag(Bit(b, 5)) + Flag(Bit(b, 6)) + Flag(Bit(b, 7))
  }

  function Diff(a: Byte, b: Byte): Byte {
    a ^ b
  }

  lemma DiffZero(a: Byte, b: Byte)
    ensures Diff(a, b) == 0 <==> a == b
  {
  }

  /** Bytes among the first `n` in which the two messages agree. */
  function MatchingBytes(a: Bytes, b: Bytes, n: nat): nat
    requires n <= |a| && n <= |b|
  {
    if n == 0 then 0 else MatchingBytes(a, b, n - 1) + Flag(Diff(a[n - 1], b[n - 1]) == 0)
  }

  /** The positions among the first `n` in which the two messages hold the same byte. */
  function AgreeingBytes(a: Bytes, b: Bytes, n: nat): set<nat>
    requires n <= |a| && n <= |b|
  {
    set i: nat | i < n && a[i] == b[i]
  }

  /** The byte score is the number of positions that agree. */
  lemma {:induction false} BytesAreMatches(a: Bytes, b: Bytes, n: nat)
    requires n <= |a| && n <= |b|
    ensures MatchingBytes(a, b, n) == |AgreeingBytes(a, b, n)|
  {
    hide AgreeingBytes, Diff;
    if n > 0 {
      BytesAreMatches(a, b, n - 1);
      DiffZero(a[n - 1], b[n - 1]);
      AgreeingNext(a, b, n - 1);
    } else {
      NoneAgree(a, b);
    }
  }

  lemma NoneAgree(a: Bytes, b: Bytes)
    ensures AgreeingBytes(a, b, 0) == {}
  {
  }

  lemma AgreeingNext(a: Bytes, b: Bytes, n: nat)
    requires n < |a| && n < |b|
    ensures |AgreeingBytes(a, b, n + 1)| == |AgreeingBytes(a, b, n)| + if a[n] == b[n] then 1 else 0
  {
    var before := AgreeingBytes(a, b, n);
    assert AgreeingBytes(a, b, n + 1) == if a[n] == b[n] then before + {n} else before;
  }

  /** Bits among the first `n` bytes in which the two messages agree. */
  function MatchingBits(a: Bytes, b: Bytes, n: nat): nat
    requires n <= |a| && n <= |b|
  {
    if n == 0 then 0 else MatchingBits(a, b, n - 1) + (8 - CountOnes(Diff(a[n - 1], b[n - 1])))
  }

  /** The positions, as (byte, bit), in which the first `n` bytes differ. */
  function DifferingBits(a: Bytes, b: Bytes, n: nat): set<(nat, nat)>
    requires n <= |a| && n <= |b|
  {
    set i: nat, k: nat | i < n && k < 8 && Bit(a[i], k) != Bit(b[i], k) :: (i, k)
  }

  lemma DiffBits(a: Byte, b: Byte)
    ensures forall k: nat :: k < 8 ==> (Bit(Diff(a, b), k) <==> Bit(a, k) != Bit(b, k))
  {
  }

  function BitSet(at: nat, b: Byte, upTo: nat): (s: set<(nat, nat)>)
    ensures forall p :: p in s <==> p.0 == at && p.1 < upTo && Bit(b, p.1)
  {
    if upTo == 0 then {}
    else BitSet(at, b, upTo - 1) + if Bit(b, upTo - 1) then {(at, upTo - 1)} else {}
  }

  function BitSum(b: Byte, upTo: nat): nat {
    if upTo == 0 then 0 else BitSum(b, upTo - 1) + Flag(Bit(b, upTo - 1))
  }

  lemma {:induction false} BitSetSize(at: nat, b: Byte, upTo: nat)
    ensures |BitSet(at, b, upTo)| == BitSum(b, upTo)
  {
    if upTo > 0 {
      BitSetSize(at, b, upTo - 1);
    }
  }

  lemma CountOnesIsSize(at: nat, b: Byte)
    ensures |BitSet(at, b, 8)| == CountOnes(b)
  {
    hide Bit;
    BitSetSize(at, b, 8);
    assert BitSum(b, 2) == BitSum(b, 0) + Flag(Bit(b, 0)) + Flag(Bit(b, 1));
    assert BitSum(b, 4) == BitSum(b, 2) + Flag(Bit(b, 2)) + Flag(Bit(b, 3));
    assert BitSum(b, 6) == BitSum(b, 4) + Flag(Bit(b, 4)) + Flag(Bit(b, 5));
    assert BitSum(b, 8) == BitSum(b, 6) + Flag(Bit(b, 6)) + Flag(Bit(b, 7));
  }

  lemma DifferingStep(a: Bytes, b: Bytes, n: nat, x: Byte)
    requires 0 < n <= |a| && n <= |b|
    requires forall k: nat :: k < 8 ==> (Bit(x, k) <==> Bit(a[n - 1], k) != Bit(b[n - 1], k))
    ensures |DifferingBits(a, b, n)| == |DifferingBits(a, b, n - 1)| + |BitSet(n - 1, x, 8)|
  {
    hide Bit;
    assert DifferingBits(a, b, n) == DifferingBits(a, b, n - 1) + BitSet(n - 1, x, 8);
    assert DifferingBits(a, b, n - 1) !! BitSet(n - 1, x, 8);
  }

  /** The bit score is eight per byte less the Hamming distance. */
  lemma {:induction false} BitsAreHamming(a: Bytes, b: Bytes, n: nat)
    requires n <= |a| && n <= |b|
    ensures MatchingBits(a, b, n) + |DifferingBits(a, b, n)| == 8 * n
  {
    hide Bit, CountOnes, BitSet, Diff;
    if n == 0 {
      assert DifferingBits(a, b, 0) == {};
    } else {
      BitsAreHamming(a, b, n - 1);
      var x := Diff(a[n - 1], b[n - 1]);
      CountOnesIsSize(n - 1, x);
      DiffBits(a[n - 1], b[n - 1]);
      DifferingStep(a, b, n, x);
    }
  }

  /** Either score is full exactly when the messages agree, and bits never lag behind bytes. */
  lemma {:induction false} ScoreBounds(a: Bytes, b: Bytes, n: nat)
    requires n <= |a| && n <= |b|
    ensures 8 * MatchingBytes(a, b, n) <= MatchingBits(a, b, n) <= 8 * n
    ensures MatchingBytes(a, b, n) == n <==> a[..n] == b[..n]
    ensures MatchingBits(a, b, n) == 8 * n <==> a[..n] == b[..n]
  {
    hide Bit, CountOnes, Diff;
    if n > 0 {
      ScoreBounds(a, b, n - 1);
      DiffZero(a[n - 1], b[n - 1]);
      assert a[..n] == a[..n - 1] + [a[n - 1]] && b[..n] == b[..n - 1] + [b[n - 1]];
    }
  }

  // ----- A body under someone else's header -----

  /** The message whose header says `t` while its body is that of message `s`. */
  function Swapped(s: nat, t: nat, msgSize: nat): (p: Bytes)
    requires s < U64_LIMIT && t < U64_LIMIT && msgSize >= HEADER_LEN
    ensures |p| == msgSize
  {
    Payload(t, HEADER_LEN) + Payload(s, msgSize)[HEADER_LEN..]
  }

  lemma SwappedHeader(s: nat, t: nat, msgSize: nat)
    requires s < U64_LIMIT && t < U64_LIMIT && msgSize >= HEADER_LEN
    ensures HeaderOf(Swapped(s, t, msgSize)) == t
  {
    HeaderRoundTrip(t, HEADER_LEN);
    var p := Swapped(s, t, msgSize);
    assert forall k | 0 <= k < HEADER_LEN :: p[k] == Payload(t, HEADER_LEN)[k];
  }

  lemma {:induction false} MatchingBytesStep(a: Bytes, b: Bytes, n: nat, len: nat)
    requires n + len <= |a| && n + len <= |b|
    ensures MatchingBytes(a, b, n) <= MatchingBytes(a, b, n + len) <= MatchingBytes(a, b, n) + len
    ensures (exists k :: n <= k < n + len && a[k] != b[k])
            ==> MatchingBytes(a, b, n + len) < MatchingBytes(a, b, n) + len
  {
    hide Diff;
    if len > 0 {
      MatchingBytesStep(a, b, n, len - 1);
      DiffZero(a[n + len - 1], b[n + len - 1]);
    }
  }

  /** Word `w` of a swapped body differs from the word the header calls for. */
  lemma SwappedWordDiffers(s: nat, t: nat, msgSize: nat, w: nat) returns (i: nat)
    requires s < U64_LIMIT && t < U64_LIMIT && s != t
    requires HEADER_LEN + WORD_LEN * (w + 1) <= msgSize
    ensures HEADER_LEN + WORD_LEN * w <= i < HEADER_LEN + WORD_LEN * (w + 1)
    ensures Swapped(s, t, msgSize)[i] != Payload(t, msgSize)[i]
  {
    hide LeByte, WordAt, PayloadByte;
    RegistersDiffer(s, t);
    WordsStayApart(Register(s), Register(t), w);
    var k := WordsDiffer(WordAt(Register(s), w), WordAt(Register(t), w));
    BodyByte(s, w, k);
    BodyByte(t, w, k);
    i := HEADER_LEN + WORD_LEN * w + k;
    assert Swapped(s, t, msgSize)[i] == Payload(s, msgSize)[i];
  }

  lemma {:induction false} SwappedScore(s: nat, t: nat, msgSize: nat, words: nat)
    requires s < U64_LIMIT && t < U64_LIMIT && s != t
    requires HEADER_LEN + WORD_LEN * words <= msgSize
    ensures MatchingBytes(Swapped(s, t, msgSize), Payload(t, msgSize), HEADER_LEN + WORD_LEN * words)
            <= HEADER_LEN + (WORD_LEN - 1) * words
  {
    hide Payload, Swapped, Diff;
    var a, b := Swapped(s, t, msgSize), Payload(t, msgSize);
    if words == 0 {
      MatchingBytesStep(a, b, 0, HEADER_LEN);
    } else {
      SwappedScore(s, t, msgSize, words - 1);
      var i := SwappedWordDiffers(s, t, msgSize, words - 1);
      MatchingBytesStep(a, b, HEADER_LEN + WORD_LEN * (words - 1), WORD_LEN);
    }
  }

  /**
   * Every full body word of a swapped message is wrong somewhere: at most `msgSize` less the number
   * of full words score, so one full word is enough for the message to count as corrupted.
   */
  lemma SwapDetected(s: nat, t: nat, msgSize: nat)
    requires s < U64_LIMIT && t < U64_LIMIT && s != t && msgSize >= HEADER_LEN
    ensures var score := MatchingBytes(Swapped(s, t, msgSize), Payload(t, msgSize), msgSize);
            && score <= msgSize - (msgSize - HEADER_LEN) / WORD_LEN
            && (msgSize >= HEADER_LEN + WORD_LEN ==> score < msgSize)
            && (msgSize == HEADER_LEN ==> score == msgSize)
  {
    hide LeByte, WordAt, PayloadByte, Diff;
    var words := (msgSize - HEADER_LEN) / WORD_LEN;
    var full := HEADER_LEN + WORD_LEN * words;
    var a, b := Swapped(s, t, msgSize), Payload(t, msgSize);
    SwappedScore(s, t, msgSize, words);
    MatchingBytesStep(a, b, full, msgSize - full);
    if msgSize == HEADER_LEN {
      assert a == b;
      ScoreBounds(a, b, msgSize);
    }
  }
}
