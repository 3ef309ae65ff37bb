/** What message `s` must carry: its sequence number, little endian, then a generated body. */
module Payloads {
  import opened Wrappers
  import opened Splitmix

  type Bytes = seq<Byte>

  const HEADER_LEN: nat := 8
  const WORD_LEN: nat := 8

  // ----- 64-bit registers as little-endian bytes -----

  function LeByte(w: Word, k: nat): Byte
    requires k < WORD_LEN
  {
    if k == 0 then (w & 0xFF) as bv8
    else if k == 1 then ((w >> 8) & 0xFF) as bv8
    else if k == 2 then ((w >> 16) & 0xFF) as bv8
    else if k == 3 then ((w >> 24) & 0xFF) as bv8
    else if k == 4 then ((w >> 32) & 0xFF) as bv8
    else if k == 5 then ((w >> 40) & 0xFF) as bv8
    else if k == 6 then ((w >> 48) & 0xFF) as bv8
    else ((w >> 56) & 0xFF) as bv8
  }

  function Pack(b0: Byte, b1: Byte, b2: Byte, b3: Byte, b4: Byte, b5: Byte, b6: Byte, b7: Byte): Word {
    (b0 as bv64) | ((b1 as bv64) << 8) | ((b2 as bv64) << 16) | ((b3 as bv64) << 24)
    | ((b4 as bv64) << 32) | ((b5 as bv64) << 40) | ((b6 as bv64) << 48) | ((b7 as bv64) << 56)
  }

  lemma PackWord(w: Word)
    ensures Pack(LeByte(w, 0), LeByte(w, 1), LeByte(w, 2), LeByte(w, 3),
                 LeByte(w, 4), LeByte(w, 5), LeByte(w, 6), LeByte(w, 7)) == w
  {
  }

  /** Different words differ in at least one byte. */
  lemma WordsDiffer(v: Word, w: Word) returns (k: nat)
    requires v != w
    ensures k < WORD_LEN && LeByte(v, k) != LeByte(w, k)
  {
    PackWord(v);
    PackWord(w);
    k :| k < WORD_LEN && LeByte(v, k) != LeByte(w, k);
  }

  /** The register a little-endian load of the first eight bytes fills. */
  function Load(b: Bytes): Word
    requires |b| >= WORD_LEN
  {
    Pack(b[0], b[1], b[2], b[3], b[4], b[5], b[6], b[7])
  }

  lemma LoadStored(b: Bytes, w: Word)
    requires |b| >= WORD_LEN && forall k: nat :: k < WORD_LEN ==> b[k] == LeByte(w, k)
    ensures Load(b) == w
  {
    PackWord(w);
  }

  // ----- Sequence numbers -----

  /** The range of a sequence number: `u64`, which is also `usize` on the targets served. */
  const U64_LIMIT: nat := 0x1_0000_0000_0000_0000

  function Register(s: nat): Word
    requires s < U64_LIMIT
  {
    s as bv64
  }

  function Number(w: Word): (n: nat)
    ensures n < U64_LIMIT
  {
    w as nat
  }

  lemma NumberOfRegister(s: nat)
    requires s < U64_LIMIT
    ensures Number(Register(s)) == s
  {
    assert s % 0x1_0000_0000_0000_0000 == s;
  }

  lemma RegistersDiffer(s: nat, t: nat)
    requires s != t && s < U64_LIMIT && t < U64_LIMIT
    ensures Register(s) != Register(t)
  {
    NumberOfRegister(s);
    NumberOfRegister(t);
  }

  // ----- The payload -----

  /** Byte `i` of message `s`: header first, then splitmix words seeded by the sequence number. */
  function PayloadByte(s: nat, i: nat): Byte
    requires s < U64_LIMIT
  {
    if i < HEADER_LEN
    then LeByte(Register(s), i)
    else LeByte(WordAt(Register(s), (i - HEADER_LEN) / WORD_LEN), (i - HEADER_LEN) % WORD_LEN)
  }

  function Payload(s: nat, msgSize: nat): (p: Bytes)
    requires s < U64_LIMIT
    ensures |p| == msgSize
  {
    seq(msgSize, i requires 0 <= i < msgSize => PayloadByte(s, i))
  }

  /** The sequence number written in a message's header. */
  function HeaderOf(got: Bytes): (n: nat)
    requires |got| >= HEADER_LEN
    ensures n < U64_LIMIT
  {
    Number(Load(got))
  }

  lemma HeaderRoundTrip(s: nat, msgSize: nat)
    requires s < U64_LIMIT && msgSize >= HEADER_LEN
    ensures HeaderOf(Payload(s, msgSize)) == s
  {
    LoadStored(Payload(s, msgSize), Register(s));
    NumberOfRegister(s);
  }

  /** A payload is determined by its sequence number and determines it. */
  lemma PayloadInjective(s: nat, t: nat, msgSize: nat)
    requires s < U64_LIMIT && t < U64_LIMIT && msgSize >= HEADER_LEN
    ensures Payload(s, msgSize) == Payload(t, msgSize) <==> s == t
  {
    HeaderRoundTrip(s, msgSize);
    HeaderRoundTrip(t, msgSize);
  }

  lemma PayloadPrefix(s: nat, shorter: nat, longer: nat)
    requires s < U64_LIMIT && shorter <= longer
    ensures Payload(s, shorter) <= Payload(s, longer)
  {
  }

  lemma HeaderBytes(s: nat)
    requires s < U64_LIMIT
    ensures forall i: nat :: i < HEADER_LEN ==> PayloadByte(s, i) == LeByte(Register(s), i)
  {
  }

  lemma BodyByte(s: nat, chunk: nat, k: nat)
    requires s < U64_LIMIT && k < WORD_LEN
    ensures PayloadByte(s, HEADER_LEN + WORD_LEN * chunk + k) == LeByte(WordAt(Register(s), chunk), k)
  {
    assert (WORD_LEN * chunk + k) / WORD_LEN == chunk && (WORD_LEN * chunk + k) % WORD_LEN == k;
  }

  // ----- The payload as a stream -----

  /** A register as it is stored. */
  function Stored(w: Word): (b: Bytes)
    ensures |b| == WORD_LEN
  {
    seq(WORD_LEN, k requires 0 <= k < WORD_LEN => LeByte(w, k))
  }

  /** The next `n` words a generator in `state` draws, stored one after the other. */
  function Drawn(state: Word, n: nat): (b: Bytes)
    ensures |b| == WORD_LEN * n
    decreases n
  {
    if n == 0 then [] else Stored(Mix(Advance(state))) + Drawn(Advance(state), n - 1)
  }

  lemma FirstState(state: Word)
    ensures StateAt(state, 1) == Advance(state)
  {
    assert StateAt(state, 0) == state;
  }

  lemma {:induction false} DrawnAt(state: Word, n: nat, chunk: nat, k: nat)
    requires chunk < n && k < WORD_LEN
    ensures Drawn(state, n)[WORD_LEN * chunk + k] == LeByte(WordAt(state, chunk), k)
    decreases n
  {
    hide Mix, Advance, LeByte;
    if chunk == 0 {
      assert Drawn(state, n)[k] == Stored(Mix(Advance(state)))[k];
      FirstState(state);
    } else {
      DrawnAt(Advance(state), n - 1, chunk - 1, k);
      StatesShift(state, chunk);
    }
  }

  /** A payload is the sequence number followed by the generator's words, cut off where the message ends. */
  lemma PayloadIsStream(s: nat, msgSize: nat, n: nat)
    requires s < U64_LIMIT && msgSize <= HEADER_LEN + WORD_LEN * n
    ensures Payload(s, msgSize) == (Stored(Register(s)) + Drawn(Register(s), n))[..msgSize]
  {
    hide Drawn, LeByte, Register;
    forall i | 0 <= i < msgSize
      ensures PayloadByte(s, i) == (Stored(Register(s)) + Drawn(Register(s), n))[i]
    {
      if i >= HEADER_LEN {
        DrawnAt(Register(s), n, (i - HEADER_LEN) / WORD_LEN, (i - HEADER_LEN) % WORD_LEN);
      }
    }
  }

  /** Copies the first `len` little-endian bytes of `w` to `buf[at..]`. */
  method StoreLe(buf: array<Byte>, at: nat, len: nat, w: Word)
    requires len <= WORD_LEN && at + len <= buf.Length
    modifies buf
    ensures forall i :: 0 <= i < at || at + len <= i < buf.Length ==> buf[i] == old(buf[i])
    ensures forall i :: at <= i < at + len ==> buf[i] == LeByte(w, i - at)
  {
    forall k | 0 <= k < len {
      buf[at + k] := LeByte(w, k);
    }
  }

  /** `after` is `before` with the payload of message `s` written over `lo..hi` and nothing else. */
  ghost predicate Filled(before: Bytes, after: Bytes, lo: nat, hi: nat, s: nat)
    requires s < U64_LIMIT && lo <= hi <= |before|
  {
    after == before[..lo] + Payload(s, hi - lo) + before[hi..]
  }

  lemma WholeFill(before: Bytes, after: Bytes, s: nat)
    requires s < U64_LIMIT && Filled(before, after, 0, |before|, s)
    ensures after == Payload(s, |before|)
  {
  }

  lemma FilledPointwise(before: Bytes, after: Bytes, lo: nat, hi: nat, s: nat)
    requires s < U64_LIMIT && lo <= hi <= |before| == |after|
    requires forall i :: 0 <= i < lo || hi <= i < |before| ==> after[i] == before[i]
    requires forall i :: lo <= i < hi ==> after[i] == PayloadByte(s, i - lo)
    ensures Filled(before, after, lo, hi, s)
  {
    hide PayloadByte;
  }

  /**
   * Writes the payload of message `s` into `buf[lo..hi]`, word by word, whatever was there before,
   * and leaves the rest of the region alone. The last word is cut off where the message ends.
   */
  method FillPayload(buf: array<Byte>, lo: nat, hi: nat, s: nat)
    requires s < U64_LIMIT
    requires lo + HEADER_LEN <= hi <= buf.Length
    modifies buf
    ensures Filled(old(buf[..]), buf[..], lo, hi, s)
  {
    hide Filled, LeByte, PayloadByte, Mix, Unmix, Advance, Retreat;
    ghost var before := buf[..];
    StoreLe(buf, lo, HEADER_LEN, Register(s));
    HeaderBytes(s);
    var state := Register(s);
    ghost var chunk := 0;
    var at := lo + HEADER_LEN;
    while at < hi
      invariant at == Min(lo + HEADER_LEN + WORD_LEN * chunk, hi)
      invariant state == StateAt(Register(s), chunk)
      invariant forall i :: 0 <= i < lo || hi <= i < buf.Length ==> buf[i] == before[i]
      invariant forall i :: lo <= i < at ==> buf[i] == PayloadByte(s, i - lo)
      decreases hi - at
    {
      var word;
      state, word := NextWord(state);
      assert word == WordAt(Register(s), chunk);
      var len := Min(WORD_LEN, hi - at);
      StoreLe(buf, at, len, word);
      forall i | at <= i < at + len
        ensures buf[i] == PayloadByte(s, i - lo)
      {
        BodyByte(s, chunk, i - at);
      }
      at := at + len;
      chunk := chunk + 1;
    }
    FilledPointwise(before, buf[..], lo, hi, s);
  }
}
