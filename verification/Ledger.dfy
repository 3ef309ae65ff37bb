/** The receiver's ledger: what checking every arriving message adds up to. */
module Ledger {
  import opened Wrappers
  import opened Counting
  import opened Payloads
  import opened Scoring

  datatype AccuracyReport = AccuracyReport(
    msgSize: nat,
    sent: nat,
    received: nat,
    lost: nat,
    duplicated: nat,
    unidentifiable: nat,
    truncated: nat,
    corrupted: nat,
    correctBytes: nat,
    correctBits: nat)

  /** The report under way, and which sequence numbers have been seen. */
  datatype Ledger = Ledger(seen: seq<bool>, report: AccuracyReport)

  function Opening(msgSize: nat, sent: nat): Ledger {
    Ledger(seq(sent, _ => false), AccuracyReport(msgSize, sent, 0, 0, 0, 0, 0, 0, 0, 0))
  }

  /** The sequence number a message is attributed to, among the `sent` ones of this run. */
  function Identify(got: Bytes, sent: nat): Option<nat> {
    if |got| < HEADER_LEN then None
    else if HeaderOf(got) >= sent then None
    else Some(HeaderOf(got))
  }

  lemma IdentifyInRange(got: Bytes, sent: nat)
    ensures Identify(got, sent).Some? ==> Identify(got, sent).value < sent
  {
  }

  /** One message folded into the ledger. */
  function CheckStep(l: Ledger, got: Bytes): (after: Ledger)
    requires |l.seen| <= U64_LIMIT && |got| <= l.report.msgSize
    ensures |after.seen| == |l.seen| && after.report.msgSize == l.report.msgSize
  {
    var r := l.report;
    match Identify(got, |l.seen|)
    case None => l.(report := r.(unidentifiable := r.unidentifiable + 1))
    case Some(s) =>
      if l.seen[s] then l.(report := r.(duplicated := r.duplicated + 1))
      else
        var expected := Payload(s, r.msgSize);
        var correct := MatchingBytes(got, expected, |got|);
        Ledger(l.seen[s := true], r.(
          truncated := r.truncated + Flag(|got| < r.msgSize),
          corrupted := r.corrupted + Flag(correct != r.msgSize),
          correctBytes := r.correctBytes + correct,
          correctBits := r.correctBits + MatchingBits(got, expected, |got|)))
  }

  /** Every message fits the buffer slot it arrived in. */
  ghost predicate Fits(log: seq<Bytes>, msgSize: nat) {
    forall i :: 0 <= i < |log| ==> |log[i]| <= msgSize
  }

  /** The ledger after checking the messages of `log` in order. */
  ghost function Fold(log: seq<Bytes>, msgSize: nat, sent: nat): (l: Ledger)
    requires sent <= U64_LIMIT && Fits(log, msgSize)
    ensures |l.seen| == sent && l.report.msgSize == msgSize
  {
    if log == [] then Opening(msgSize, sent)
    else CheckStep(Fold(log[..|log| - 1], msgSize, sent), log[|log| - 1])
  }

  lemma FoldAppend(log: seq<Bytes>, got: Bytes, msgSize: nat, sent: nat)
    requires sent <= U64_LIMIT && Fits(log, msgSize) && |got| <= msgSize
    ensures Fits(log + [got], msgSize)
    ensures Fold(log + [got], msgSize, sent) == CheckStep(Fold(log, msgSize, sent), got)
  {
    assert (log + [got])[..|log|] == log;
  }

  // ----- Sums over sequence numbers -----

  ghost function SumTo(n: nat, f: nat -> nat): nat {
    if n == 0 then 0 else SumTo(n - 1, f) + f(n - 1)
  }

  lemma {:induction false} SumChange(n: nat, f: nat -> nat, g: nat -> nat, at: nat)
    requires forall s: nat :: s < n && s != at ==> f(s) == g(s)
    requires at < n ==> f(at) <= g(at)
    ensures SumTo(n, g) == SumTo(n, f) + (if at < n then g(at) - f(at) else 0)
  {
    if n > 0 {
      SumChange(n - 1, f, g, at);
    }
  }

  lemma Distribute(a: nat, x: nat, y: nat)
    ensures a * (x + y) == a * x + a * y
  {
  }

  lemma {:induction false} SumScaled(n: nat, a: nat, f: nat -> nat, b: nat, g: nat -> nat)
    requires forall s: nat :: s < n ==> a * f(s) <= b * g(s)
    ensures a * SumTo(n, f) <= b * SumTo(n, g)
  {
    if n > 0 {
      SumScaled(n - 1, a, f, b, g);
      Distribute(a, SumTo(n - 1, f), f(n - 1));
      Distribute(b, SumTo(n - 1, g), g(n - 1));
    }
  }

  lemma {:induction false} SumFull(n: nat, f: nat -> nat, m: nat)
    requires forall s: nat :: s < n ==> f(s) <= m
    ensures SumTo(n, f) <= n * m
    ensures SumTo(n, f) == n * m <==> forall s: nat :: s < n ==> f(s) == m
  {
    if n > 0 {
      SumFull(n - 1, f, m);
      assert n * m == (n - 1) * m + m;
      assert f(n - 1) <= m;
    }
  }

  lemma {:induction false} SumZero(n: nat, f: nat -> nat)
    ensures SumTo(n, f) == 0 <==> forall s: nat :: s < n ==> f(s) == 0
  {
    if n > 0 {
      SumZero(n - 1, f);
    }
  }

  // ----- The declarative report: one line per sequence number -----

  /** The first message of `log` attributed to `s`. */
  ghost function FirstOf(log: seq<Bytes>, s: nat, sent: nat): (first: Option<Bytes>)
    ensures first.Some? ==> first.value in log && Identify(first.value, sent) == Some(s)
  {
    if log == [] then None
    else
      var last := log[|log| - 1];
      match FirstOf(log[..|log| - 1], s, sent)
      case Some(g) => Some(g)
      case None => if Identify(last, sent) == Some(s) then Some(last) else None
  }

  /** `FirstOf` is what its name says. */
  lemma {:induction false} FirstOfIsFirst(log: seq<Bytes>, s: nat, sent: nat)
    ensures FirstOf(log, s, sent).None?
            <==> forall i :: 0 <= i < |log| ==> Identify(log[i], sent) != Some(s)
    ensures FirstOf(log, s, sent).Some?
            <==> exists i :: 0 <= i < |log| && IsFirst(log, i, s, sent)
    ensures forall i :: 0 <= i < |log| && IsFirst(log, i, s, sent) ==> FirstOf(log, s, sent) == Some(log[i])
  {
    hide Identify;
    if log != [] {
      var n := |log| - 1;
      var init := log[..n];
      FirstOfIsFirst(init, s, sent);
      assert forall i :: 0 <= i < n ==> (IsFirst(init, i, s, sent) <==> IsFirst(log, i, s, sent));
      if FirstOf(init, s, sent).None? && Identify(log[n], sent) == Some(s) {
        assert IsFirst(log, n, s, sent);
      }
    }
  }

  ghost predicate IsFirst(log: seq<Bytes>, i: nat, s: nat, sent: nat)
    requires i < |log|
  {
    && Identify(log[i], sent) == Some(s)
    && forall j :: 0 <= j < i ==> Identify(log[j], sent) != Some(s)
  }

  /** What one sequence number contributes to a counter, given the first message attributed to it. */
  type Weight = (nat, Option<Bytes>) -> nat

  ghost function Tally(log: seq<Bytes>, sent: nat, w: Weight): nat {
    SumTo(sent, Line(log, sent, w))
  }

  ghost function Line(log: seq<Bytes>, sent: nat, w: Weight): nat -> nat {
    (s: nat) => w(s, FirstOf(log, s, sent))
  }

  ghost function Present(): Weight {
    (s: nat, o: Option<Bytes>) => Flag(o.Some?)
  }

  ghost function Short(msgSize: nat): Weight {
    (s: nat, o: Option<Bytes>) => Flag(o.Some? && |o.value| < msgSize)
  }

  ghost function Wrong(msgSize: nat): Weight {
    (s: nat, o: Option<Bytes>) => Flag(o.Some? && s < U64_LIMIT && o.value != Payload(s, msgSize))
  }

  ghost function GoodBytes(msgSize: nat): Weight {
    (s: nat, o: Option<Bytes>) =>
      if o.Some? && s < U64_LIMIT && |o.value| <= msgSize
      then MatchingBytes(o.value, Payload(s, msgSize), |o.value|) else 0
  }

  ghost function GoodBits(msgSize: nat): Weight {
    (s: nat, o: Option<Bytes>) =>
      if o.Some? && s < U64_LIMIT && |o.value| <= msgSize
      then MatchingBits(o.value, Payload(s, msgSize), |o.value|) else 0
  }

  ghost function Strays(log: seq<Bytes>, sent: nat): nat {
    CountIf(log, Stray(sent))
  }

  /** Messages that cannot be attributed to anything sent. */
  function Stray(sent: nat): Bytes -> bool {
    got => Identify(got, sent).None?
  }

  lemma FirstOfAppend(log: seq<Bytes>, got: Bytes, s: nat, sent: nat)
    ensures FirstOf(log + [got], s, sent)
            == if FirstOf(log, s, sent).None? && Identify(got, sent) == Some(s) then Some(got)
               else FirstOf(log, s, sent)
  {
    assert (log + [got])[..|log|] == log;
  }

  /** A counter that ignores absent messages. */
  ghost predicate CountsArrivals(w: Weight) {
    forall s :: w(s, None) == 0
  }

  /** A message counts for a sequence number only when it is the first attributed to it. */
  lemma TallyAppend(log: seq<Bytes>, got: Bytes, sent: nat, w: Weight)
    requires CountsArrivals(w)
    ensures var id := Identify(got, sent);
            Tally(log + [got], sent, w) == Tally(log, sent, w)
            + (if id.Some? && FirstOf(log, id.value, sent).None? then w(id.value, Some(got)) else 0)
  {
    hide Identify, FirstOf;
    var id := Identify(got, sent);
    var f, g := Line(log, sent, w), Line(log + [got], sent, w);
    forall s: nat
      ensures FirstOf(log + [got], s, sent)
              == if FirstOf(log, s, sent).None? && id == Some(s) then Some(got) else FirstOf(log, s, sent)
    {
      FirstOfAppend(log, got, s, sent);
    }
    var at := if id.Some? then id.value else sent;
    IdentifyInRange(got, sent);
    SumChange(sent, f, g, at);
  }

  lemma TallyEmpty(sent: nat, w: Weight)
    requires CountsArrivals(w)
    ensures Tally([], sent, w) == 0
  {
    forall s: nat
      ensures Line([], sent, w)(s) == 0
    {
      assert FirstOf([], s, sent) == None;
    }
    SumZero(sent, Line([], sent, w));
  }

  lemma CountersCountArrivals(msgSize: nat)
    ensures CountsArrivals(Present()) && CountsArrivals(Short(msgSize)) && CountsArrivals(Wrong(msgSize))
    ensures CountsArrivals(GoodBytes(msgSize)) && CountsArrivals(GoodBits(msgSize))
  {
  }

  /** A message scores every byte exactly when it is the payload it should have been. */
  lemma FullScore(got: Bytes, s: nat, msgSize: nat)
    requires s < U64_LIMIT && |got| <= msgSize
    ensures MatchingBytes(got, Payload(s, msgSize), |got|) == msgSize <==> got == Payload(s, msgSize)
    ensures MatchingBits(got, Payload(s, msgSize), |got|) == 8 * msgSize <==> got == Payload(s, msgSize)
    ensures 8 * MatchingBytes(got, Payload(s, msgSize), |got|)
            <= MatchingBits(got, Payload(s, msgSize), |got|) <= 8 * msgSize
  {
    hide Payload, MatchingBytes, MatchingBits;
    var expected := Payload(s, msgSize);
    ScoreBounds(got, expected, |got|);
    assert got[..|got|] == got;
    assert expected[..msgSize] == expected;
  }

  /** `report` carries the counters of the declarative report for `log`. */
  ghost predicate Declares(log: seq<Bytes>, msgSize: nat, sent: nat, r: AccuracyReport) {
    && r.msgSize == msgSize && r.sent == sent
    && r.unidentifiable == Strays(log, sent)
    && r.duplicated + Strays(log, sent) + Tally(log, sent, Present()) == |log|
    && r.truncated == Tally(log, sent, Short(msgSize))
    && r.corrupted == Tally(log, sent, Wrong(msgSize))
    && r.correctBytes == Tally(log, sent, GoodBytes(msgSize))
    && r.correctBits == Tally(log, sent, GoodBits(msgSize))
  }

  ghost predicate Marks(log: seq<Bytes>, seen: seq<bool>) {
    forall s :: 0 <= s < |seen| ==> (seen[s] <==> FirstOf(log, s, |seen|).Some?)
  }

  /** One step of the fold is one message appended to the declarative report. */
  lemma CheckStepDeclares(log: seq<Bytes>, got: Bytes, l: Ledger)
    requires |l.seen| <= U64_LIMIT && |got| <= l.report.msgSize
    requires Declares(log, l.report.msgSize, |l.seen|, l.report) && Marks(log, l.seen)
    ensures Declares(log + [got], l.report.msgSize, |l.seen|, CheckStep(l, got).report)
    ensures Marks(log + [got], CheckStep(l, got).seen)
  {
    hide FirstOf, Tally, Payload, MatchingBytes, MatchingBits, HeaderOf;
    var m, n := l.report.msgSize, |l.seen|;
    CountersCountArrivals(m);
    TallyAppend(log, got, n, Present());
    TallyAppend(log, got, n, Short(m));
    TallyAppend(log, got, n, Wrong(m));
    TallyAppend(log, got, n, GoodBytes(m));
    TallyAppend(log, got, n, GoodBits(m));
    assert (log + [got])[..|log|] == log;
    forall s: nat | s < n
      ensures FirstOf(log + [got], s, n)
              == if FirstOf(log, s, n).None? && Identify(got, n) == Some(s) then Some(got) else FirstOf(log, s, n)
    {
      FirstOfAppend(log, got, s, n);
    }
    if Identify(got, n).Some? {
      FullScore(got, Identify(got, n).value, m);
    }
  }

  /** The fold in `receive` computes the declarative report, whatever arrived in whatever order. */
  lemma {:induction false} FoldIsDeclarative(log: seq<Bytes>, msgSize: nat, sent: nat)
    requires sent <= U64_LIMIT && Fits(log, msgSize)
    ensures Declares(log, msgSize, sent, Fold(log, msgSize, sent).report)
    ensures Marks(log, Fold(log, msgSize, sent).seen)
  {
    hide CheckStep, Tally;
    if log == [] {
      CountersCountArrivals(msgSize);
      TallyEmpty(sent, Present());
      TallyEmpty(sent, Short(msgSize));
      TallyEmpty(sent, Wrong(msgSize));
      TallyEmpty(sent, GoodBytes(msgSize));
      TallyEmpty(sent, GoodBits(msgSize));
    } else {
      var init, got := log[..|log| - 1], log[|log| - 1];
      assert init + [got] == log;
      FoldIsDeclarative(init, msgSize, sent);
      CheckStepDeclares(init, got, Fold(init, msgSize, sent));
    }
  }
}
