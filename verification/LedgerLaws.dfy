/** What the ledger promises of every run, whatever the network did to the messages. */
module LedgerLaws {
  import opened Wrappers
  import opened Counting
  import opened Payloads
  import opened Scoring
  import opened Ledger

  // ----- Closing the ledger -----

  /** The number of sequence numbers among the first `n` that were never seen. */
  function Unseen(seen: seq<bool>, n: nat): nat
    requires n <= |seen|
  {
    if n == 0 then 0 else Unseen(seen, n - 1) + Flag(!seen[n - 1])
  }

  /** The report as sent: the receiver's count of completions and the unseen numbers filled in. */
  function Close(l: Ledger, received: nat): AccuracyReport {
    l.report.(received := received, lost := Unseen(l.seen, |l.seen|))
  }

  lemma {:induction false} UnseenZero(seen: seq<bool>, n: nat)
    requires n <= |seen|
    ensures Unseen(seen, n) == 0 <==> forall k :: 0 <= k < n ==> seen[k]
  {
    if n > 0 {
      UnseenZero(seen, n - 1);
    }
  }

  /** A sequence number is marked exactly when some message checked was attributed to it. */
  lemma SeenIffAttributed(log: seq<Bytes>, msgSize: nat, sent: nat, s: nat)
    requires sent <= U64_LIMIT && Fits(log, msgSize) && s < sent
    ensures Fold(log, msgSize, sent).seen[s] <==> exists i :: 0 <= i < |log| && Identify(log[i], sent) == Some(s)
  {
    hide Fold, Identify, Declares;
    FoldIsDeclarative(log, msgSize, sent);
    FirstOfIsFirst(log, s, sent);
  }

  lemma LineMarks(log: seq<Bytes>, seen: seq<bool>, s: nat)
    requires s < |seen| && Marks(log, seen)
    ensures Line(log, |seen|, Present())(s) == Flag(seen[s])
  {
  }

  lemma {:induction false} UnseenIsAbsent(log: seq<Bytes>, seen: seq<bool>, n: nat)
    requires n <= |seen| && Marks(log, seen)
    ensures Unseen(seen, n) + SumTo(n, Line(log, |seen|, Present())) == n
  {
    hide FirstOf, Line, Present, Marks;
    if n > 0 {
      UnseenIsAbsent(log, seen, n - 1);
      LineMarks(log, seen, n - 1);
    }
  }

  /** The report a run that reaped `log` ends with. */
  ghost function FinalReport(log: seq<Bytes>, msgSize: nat, sent: nat): AccuracyReport
    requires sent <= U64_LIMIT && Fits(log, msgSize)
  {
    Close(Fold(log, msgSize, sent), |log|)
  }

  lemma FinalDeclares(log: seq<Bytes>, msgSize: nat, sent: nat)
    requires sent <= U64_LIMIT && Fits(log, msgSize)
    ensures Declares(log, msgSize, sent, FinalReport(log, msgSize, sent))
    ensures FinalReport(log, msgSize, sent).received == |log|
    ensures FinalReport(log, msgSize, sent).lost + Tally(log, sent, Present()) == sent
  {
    hide Tally, Present;
    var l := Fold(log, msgSize, sent);
    FoldIsDeclarative(log, msgSize, sent);
    UnseenIsAbsent(log, l.seen, sent);
    TallyIsSum(log, sent, Present());
  }

  lemma TallyIsSum(log: seq<Bytes>, sent: nat, w: Weight)
    ensures Tally(log, sent, w) == SumTo(sent, Line(log, sent, w))
  {
  }

  /** Every reaped message and every sequence number is accounted for exactly once. */
  lemma Conservation(log: seq<Bytes>, msgSize: nat, sent: nat)
    requires sent <= U64_LIMIT && Fits(log, msgSize)
    ensures var r := FinalReport(log, msgSize, sent);
            && r.sent == sent && r.received == |log|
            && r.received == r.unidentifiable + r.duplicated + (r.sent - r.lost)
            && r.lost + r.received - r.unidentifiable - r.duplicated == r.sent
  {
    hide Tally, Present, Strays, FinalReport;
    FinalDeclares(log, msgSize, sent);
  }

  // ----- Bounds -----

  lemma TallyScaled(log: seq<Bytes>, sent: nat, a: nat, v: Weight, b: nat, w: Weight)
    requires forall s: nat :: s < sent ==> a * v(s, FirstOf(log, s, sent)) <= b * w(s, FirstOf(log, s, sent))
    ensures a * Tally(log, sent, v) <= b * Tally(log, sent, w)
  {
    hide FirstOf;
    SumScaled(sent, a, Line(log, sent, v), b, Line(log, sent, w));
  }

  lemma FirstFits(log: seq<Bytes>, msgSize: nat, s: nat, sent: nat)
    requires Fits(log, msgSize)
    ensures var o := FirstOf(log, s, sent); o.Some? ==> |o.value| <= msgSize
  {
  }

  lemma DeclaredCounters(log: seq<Bytes>, msgSize: nat, sent: nat, r: AccuracyReport)
    requires Declares(log, msgSize, sent, r)
    ensures r.sent == sent && r.msgSize == msgSize
    ensures r.truncated == Tally(log, sent, Short(msgSize)) && r.corrupted == Tally(log, sent, Wrong(msgSize))
    ensures r.correctBytes == Tally(log, sent, GoodBytes(msgSize))
    ensures r.correctBits == Tally(log, sent, GoodBits(msgSize))
  {
  }

  /** What one sequence number contributes, counter against counter. */
  lemma LineBounds(log: seq<Bytes>, msgSize: nat, s: nat, sent: nat)
    requires sent <= U64_LIMIT && s < sent && Fits(log, msgSize)
    ensures var o := FirstOf(log, s, sent);
            && 8 * GoodBytes(msgSize)(s, o) <= 1 * GoodBits(msgSize)(s, o)
            && 1 * GoodBits(msgSize)(s, o) <= (8 * msgSize) * Present()(s, o)
            && 1 * Short(msgSize)(s, o) <= 1 * Wrong(msgSize)(s, o)
            && 1 * Wrong(msgSize)(s, o) <= 1 * Present()(s, o)
            && GoodBytes(msgSize)(s, o) <= msgSize
            && GoodBits(msgSize)(s, o) <= 8 * msgSize
            && (GoodBytes(msgSize)(s, o) == msgSize
                <==> msgSize == 0 || (Present()(s, o) == 1 && Wrong(msgSize)(s, o) == 0))
            && (GoodBits(msgSize)(s, o) == 8 * msgSize
                <==> msgSize == 0 || (Present()(s, o) == 1 && Wrong(msgSize)(s, o) == 0))
  {
    hide MatchingBytes, MatchingBits, FirstOf;
    var o := FirstOf(log, s, sent);
    FirstFits(log, msgSize, s, sent);
    if o.Some? {
      FullScore(o.value, s, msgSize);
    }
  }

  /** The relations between the integrity counters, whatever arrived. */
  lemma IntegrityBounds(log: seq<Bytes>, msgSize: nat, sent: nat)
    requires sent <= U64_LIMIT && Fits(log, msgSize)
    ensures var r := FinalReport(log, msgSize, sent);
            && 8 * r.correctBytes <= r.correctBits
            && r.correctBits <= 8 * msgSize * (r.sent - r.lost)
            && r.truncated <= r.corrupted <= r.sent - r.lost
  {
    hide *;
    FinalDeclares(log, msgSize, sent);
    DeclaredCounters(log, msgSize, sent, FinalReport(log, msgSize, sent));
    forall s: nat | s < sent
      ensures var o := FirstOf(log, s, sent);
              && 8 * GoodBytes(msgSize)(s, o) <= 1 * GoodBits(msgSize)(s, o)
              && 1 * GoodBits(msgSize)(s, o) <= (8 * msgSize) * Present()(s, o)
              && 1 * Short(msgSize)(s, o) <= 1 * Wrong(msgSize)(s, o)
              && 1 * Wrong(msgSize)(s, o) <= 1 * Present()(s, o)
    {
      LineBounds(log, msgSize, s, sent);
    }
    TallyScaled(log, sent, 8, GoodBytes(msgSize), 1, GoodBits(msgSize));
    TallyScaled(log, sent, 1, GoodBits(msgSize), 8 * msgSize, Present());
    TallyScaled(log, sent, 1, Short(msgSize), 1, Wrong(msgSize));
    TallyScaled(log, sent, 1, Wrong(msgSize), 1, Present());
  }

  // ----- The percentages shown -----

  function ByteAccuracy(r: AccuracyReport): real
    requires r.sent * r.msgSize > 0
  {
    r.correctBytes as real / (r.sent * r.msgSize) as real * 100.0
  }

  function BitAccuracy(r: AccuracyReport): real
    requires r.sent * r.msgSize > 0
  {
    r.correctBits as real / ((r.sent * r.msgSize) as real * 8.0) * 100.0
  }

  /** Either percentage is the share of what was sent that arrived as it was sent. */
  lemma AccuracyIsShare(r: AccuracyReport)
    requires r.sent * r.msgSize > 0
    ensures ByteAccuracy(r) * (r.sent * r.msgSize) as real == 100.0 * r.correctBytes as real
    ensures BitAccuracy(r) * (8 * (r.sent * r.msgSize)) as real == 100.0 * r.correctBits as real
  {
    var whole := r.sent * r.msgSize;
    ShareOf(r.correctBytes as real, whole as real);
    ShareOf(r.correctBits as real, whole as real * 8.0);
    assert (8 * whole) as real == whole as real * 8.0;
  }

  lemma ShareOf(part: real, whole: real)
    requires whole > 0.0
    ensures part / whole * 100.0 * whole == 100.0 * part
  {
    var q := part / whole;
    assert q * whole == part;
    assert q * 100.0 * whole == 100.0 * (q * whole);
  }

  lemma FullRatio(part: nat, whole: nat)
    requires whole > 0
    ensures part as real / whole as real * 100.0 == 100.0 <==> part == whole
  {
    var q := part as real / whole as real;
    assert q * whole as real == part as real;
  }

  /** Whether sequence number `s` arrived, first, as exactly its payload. */
  ghost predicate Intact(log: seq<Bytes>, msgSize: nat, s: nat, sent: nat) {
    Present()(s, FirstOf(log, s, sent)) == 1 && Wrong(msgSize)(s, FirstOf(log, s, sent)) == 0
  }

  ghost predicate AllIntact(log: seq<Bytes>, msgSize: nat, sent: nat) {
    forall s: nat :: s < sent ==> Intact(log, msgSize, s, sent)
  }

  /** Sequence number `s` contributes `value` to the counter `w`. */
  ghost predicate Contributes(log: seq<Bytes>, sent: nat, w: Weight, s: nat, value: nat) {
    w(s, FirstOf(log, s, sent)) == value
  }

  /** A tally is as large as it can be exactly when every line is. */
  lemma TallyFull(log: seq<Bytes>, sent: nat, w: Weight, most: nat)
    requires forall s: nat :: s < sent ==> w(s, FirstOf(log, s, sent)) <= most
    ensures Tally(log, sent, w) == sent * most <==> forall s: nat :: s < sent ==> Contributes(log, sent, w, s, most)
  {
    hide FirstOf;
    var f := Line(log, sent, w);
    SumFull(sent, f, most);
    if forall s: nat :: s < sent ==> f(s) == most {
      forall s: nat | s < sent
        ensures Contributes(log, sent, w, s, most)
      {
        assert f(s) == most;
      }
    } else {
      var s: nat :| s < sent && f(s) != most;
      assert !Contributes(log, sent, w, s, most);
    }
  }

  lemma TallyNone(log: seq<Bytes>, sent: nat, w: Weight)
    ensures Tally(log, sent, w) == 0 <==> forall s: nat :: s < sent ==> Contributes(log, sent, w, s, 0)
  {
    hide FirstOf;
    var f := Line(log, sent, w);
    SumZero(sent, f);
    if forall s: nat :: s < sent ==> f(s) == 0 {
      forall s: nat | s < sent
        ensures Contributes(log, sent, w, s, 0)
      {
        assert f(s) == 0;
      }
    } else {
      var s: nat :| s < sent && f(s) != 0;
      assert !Contributes(log, sent, w, s, 0);
    }
  }

  lemma FullBytes(log: seq<Bytes>, msgSize: nat, sent: nat)
    requires sent <= U64_LIMIT && Fits(log, msgSize) && msgSize > 0
    ensures Tally(log, sent, GoodBytes(msgSize)) == sent * msgSize <==> AllIntact(log, msgSize, sent)
  {
    hide FirstOf, Present, Wrong, GoodBytes, GoodBits, Tally;
    forall s: nat | s < sent
      ensures GoodBytes(msgSize)(s, FirstOf(log, s, sent)) <= msgSize
      ensures Contributes(log, sent, GoodBytes(msgSize), s, msgSize) <==> Intact(log, msgSize, s, sent)
    {
      LineBounds(log, msgSize, s, sent);
    }
    TallyFull(log, sent, GoodBytes(msgSize), msgSize);
  }

  lemma FullBits(log: seq<Bytes>, msgSize: nat, sent: nat)
    requires sent <= U64_LIMIT && Fits(log, msgSize) && msgSize > 0
    ensures Tally(log, sent, GoodBits(msgSize)) == sent * (8 * msgSize) <==> AllIntact(log, msgSize, sent)
  {
    hide FirstOf, Present, Wrong, GoodBytes, GoodBits, Tally;
    forall s: nat | s < sent
      ensures GoodBits(msgSize)(s, FirstOf(log, s, sent)) <= 8 * msgSize
      ensures Contributes(log, sent, GoodBits(msgSize), s, 8 * msgSize) <==> Intact(log, msgSize, s, sent)
    {
      LineBounds(log, msgSize, s, sent);
    }
    TallyFull(log, sent, GoodBits(msgSize), 8 * msgSize);
  }

  lemma FullCounts(log: seq<Bytes>, msgSize: nat, sent: nat)
    ensures Tally(log, sent, Present()) == sent && Tally(log, sent, Wrong(msgSize)) == 0
            <==> AllIntact(log, msgSize, sent)
  {
    hide FirstOf, Present, Wrong, Tally;
    forall s: nat
      ensures Present()(s, FirstOf(log, s, sent)) <= 1
      ensures Contributes(log, sent, Present(), s, 1) && Contributes(log, sent, Wrong(msgSize), s, 0)
              <==> Intact(log, msgSize, s, sent)
    {
      PresentIsFlag(s, FirstOf(log, s, sent));
    }
    TallyFull(log, sent, Present(), 1);
    TallyNone(log, sent, Wrong(msgSize));
  }

  lemma PresentIsFlag(s: nat, o: Option<Bytes>)
    ensures Present()(s, o) <= 1
  {
  }

  /** Either percentage is 100 exactly when nothing was lost and nothing arrived damaged. */
  lemma PerfectAccuracy(log: seq<Bytes>, msgSize: nat, sent: nat)
    requires 0 < sent <= U64_LIMIT && Fits(log, msgSize) && msgSize > 0
    ensures var r := FinalReport(log, msgSize, sent);
            && r.sent * r.msgSize > 0
            && (ByteAccuracy(r) == 100.0 <==> r.lost == 0 && r.corrupted == 0)
            && (BitAccuracy(r) == 100.0 <==> r.lost == 0 && r.corrupted == 0)
  {
    hide Tally, Present, Wrong, GoodBytes, GoodBits, FinalReport, Declares, AllIntact, Fits;
    var r := FinalReport(log, msgSize, sent);
    FinalDeclares(log, msgSize, sent);
    DeclaredCounters(log, msgSize, sent, r);
    FullBytes(log, msgSize, sent);
    FullBits(log, msgSize, sent);
    FullCounts(log, msgSize, sent);
    assert sent * (8 * msgSize) == 8 * (sent * msgSize);
    FullRatio(r.correctBytes, sent * msgSize);
    FullRatio(r.correctBits, 8 * (sent * msgSize));
    assert (sent * msgSize) as real * 8.0 == (8 * (sent * msgSize)) as real;
  }

  // ----- Arrival order -----

  lemma SomeInOther(a: seq<Bytes>, b: seq<Bytes>, s: nat, sent: nat)
    requires multiset(a) == multiset(b) && FirstOf(a, s, sent).Some?
    ensures FirstOf(b, s, sent).Some?
  {
    var g := FirstOf(a, s, sent).value;
    assert g in multiset(a);
    assert g in multiset(b);
    var i :| 0 <= i < |b| && b[i] == g;
    FirstOfIsFirst(b, s, sent);
  }

  lemma SumSame(n: nat, f: nat -> nat, g: nat -> nat)
    requires forall s: nat :: s < n ==> f(s) == g(s)
    ensures SumTo(n, f) == SumTo(n, g)
  {
    SumChange(n, f, g, n);
  }

  /** The order of arrival decides neither what was lost nor what was counted as a duplicate or stray. */
  lemma OrderIrrelevant(a: seq<Bytes>, b: seq<Bytes>, msgSize: nat, sent: nat)
    requires sent <= U64_LIMIT && Fits(a, msgSize) && Fits(b, msgSize)
    requires multiset(a) == multiset(b)
    ensures var r, t := FinalReport(a, msgSize, sent), FinalReport(b, msgSize, sent);
            && r.received == t.received && r.lost == t.lost
            && r.duplicated == t.duplicated && r.unidentifiable == t.unidentifiable
  {
    assert |multiset(a)| == |a| && |multiset(b)| == |b|;
    FinalDeclares(a, msgSize, sent);
    FinalDeclares(b, msgSize, sent);
    CountPermute(a, b, Stray(sent));
    hide FirstOf, Strays, FinalReport;
    forall s: nat
      ensures Line(a, sent, Present())(s) == Line(b, sent, Present())(s)
    {
      PresenceIsSame(a, b, s, sent);
    }
    SumSame(sent, Line(a, sent, Present()), Line(b, sent, Present()));
  }

  lemma PresenceIsSame(a: seq<Bytes>, b: seq<Bytes>, s: nat, sent: nat)
    requires multiset(a) == multiset(b)
    ensures Present()(s, FirstOf(a, s, sent)) == Present()(s, FirstOf(b, s, sent))
  {
    if FirstOf(a, s, sent).Some? { SomeInOther(a, b, s, sent); }
    if FirstOf(b, s, sent).Some? { SomeInOther(b, a, s, sent); }
  }

  /** Messages attributed to one sequence number all hold the same bytes. */
  ghost predicate Consistent(log: seq<Bytes>, sent: nat) {
    forall g, h :: g in log && h in log && Identify(g, sent).Some? && Identify(g, sent) == Identify(h, sent) ==> g == h
  }

  lemma SameFirst(a: seq<Bytes>, b: seq<Bytes>, s: nat, sent: nat)
    requires multiset(a) == multiset(b) && Consistent(a, sent)
    ensures FirstOf(a, s, sent) == FirstOf(b, s, sent)
  {
    if FirstOf(a, s, sent).Some? { SomeInOther(a, b, s, sent); }
    if FirstOf(b, s, sent).Some? {
      SomeInOther(b, a, s, sent);
      var h := FirstOf(b, s, sent).value;
      assert h in multiset(b);
      assert h in multiset(a);
    }
  }

  lemma SameTally(a: seq<Bytes>, b: seq<Bytes>, sent: nat, w: Weight)
    requires multiset(a) == multiset(b) && Consistent(a, sent)
    ensures Tally(a, sent, w) == Tally(b, sent, w)
  {
    hide FirstOf, Consistent;
    forall s: nat
      ensures Line(a, sent, w)(s) == Line(b, sent, w)(s)
    {
      SameFirst(a, b, s, sent);
    }
    SumSame(sent, Line(a, sent, w), Line(b, sent, w));
  }

  /** Unless two messages contradict each other under one header, the whole report ignores order. */
  lemma ReportIgnoresOrder(a: seq<Bytes>, b: seq<Bytes>, msgSize: nat, sent: nat)
    requires sent <= U64_LIMIT && Fits(a, msgSize) && Fits(b, msgSize)
    requires multiset(a) == multiset(b) && Consistent(a, sent)
    ensures FinalReport(a, msgSize, sent) == FinalReport(b, msgSize, sent)
  {
    hide Tally, Present, Wrong, GoodBytes, GoodBits, FinalReport, Fits, Consistent, Strays;
    FinalDeclares(a, msgSize, sent);
    FinalDeclares(b, msgSize, sent);
    OrderIrrelevant(a, b, msgSize, sent);
    SameTally(a, b, sent, Short(msgSize));
    SameTally(a, b, sent, Wrong(msgSize));
    SameTally(a, b, sent, GoodBytes(msgSize));
    SameTally(a, b, sent, GoodBits(msgSize));
  }

  // ----- Messages that arrive as sent -----

  /** `g` is the payload of one of this run's sequence numbers. */
  ghost predicate IsPayload(g: Bytes, msgSize: nat, sent: nat)
    requires sent <= U64_LIMIT
  {
    exists s :: 0 <= s < sent && g == Payload(s, msgSize)
  }

  ghost predicate AllPayloads(log: seq<Bytes>, msgSize: nat, sent: nat)
    requires sent <= U64_LIMIT
  {
    forall i :: 0 <= i < |log| ==> IsPayload(log[i], msgSize, sent)
  }

  ghost predicate NoRepeats(log: seq<Bytes>) {
    forall i, j :: 0 <= i < j < |log| ==> log[i] != log[j]
  }

  lemma CleanStep(l: Ledger, s: nat)
    requires |l.seen| <= U64_LIMIT && s < |l.seen| && !l.seen[s] && l.report.msgSize >= HEADER_LEN
    ensures CheckStep(l, Payload(s, l.report.msgSize))
            == Ledger(l.seen[s := true], l.report.(correctBytes := l.report.correctBytes + l.report.msgSize,
                                                   correctBits := l.report.correctBits + 8 * l.report.msgSize))
  {
    hide Payload, MatchingBytes, MatchingBits, HeaderOf;
    HeaderRoundTrip(s, l.report.msgSize);
    FullScore(Payload(s, l.report.msgSize), s, l.report.msgSize);
  }

  /** The ledger of a run whose messages all arrived undamaged and at most once. */
  ghost predicate Clean(l: Ledger, log: seq<Bytes>, msgSize: nat, sent: nat)
    requires sent <= U64_LIMIT
  {
    && |l.seen| == sent
    && (forall s :: 0 <= s < sent ==> (l.seen[s] <==> Payload(s, msgSize) in log))
    && l.report == Opening(msgSize, sent).report.(
      correctBytes := |log| * msgSize, correctBits := 8 * (|log| * msgSize))
  }

  lemma CleanAppend(l: Ledger, log: seq<Bytes>, msgSize: nat, sent: nat, s: nat)
    requires sent <= U64_LIMIT && msgSize >= HEADER_LEN && s < sent
    requires Clean(l, log, msgSize, sent) && Payload(s, msgSize) !in log
    ensures Clean(CheckStep(l, Payload(s, msgSize)), log + [Payload(s, msgSize)], msgSize, sent)
  {
    hide Payload, CheckStep;
    CleanStep(l, s);
    forall t | 0 <= t < sent && t != s
      ensures Payload(t, msgSize) != Payload(s, msgSize)
    {
      PayloadInjective(s, t, msgSize);
    }
    assert (|log| + 1) * msgSize == |log| * msgSize + msgSize;
  }

  lemma {:induction false} CleanFold(log: seq<Bytes>, msgSize: nat, sent: nat)
    requires sent <= U64_LIMIT && msgSize >= HEADER_LEN
    requires AllPayloads(log, msgSize, sent) && NoRepeats(log) && Fits(log, msgSize)
    ensures Clean(Fold(log, msgSize, sent), log, msgSize, sent)
  {
    hide Payload, CheckStep;
    if log != [] {
      hide Clean;
      var n := |log| - 1;
      var init, got := log[..n], log[n];
      CleanFold(init, msgSize, sent);
      assert IsPayload(log[n], msgSize, sent);
      var s :| 0 <= s < sent && got == Payload(s, msgSize);
      CleanAppend(Fold(init, msgSize, sent), init, msgSize, sent, s);
      assert log == init + [got];
    }
  }

  /** Messages that arrive undamaged and at most once are reported in full; only absence costs. */
  lemma CleanReport(log: seq<Bytes>, msgSize: nat, sent: nat)
    requires sent <= U64_LIMIT && msgSize >= HEADER_LEN
    requires AllPayloads(log, msgSize, sent) && NoRepeats(log) && Fits(log, msgSize)
    ensures |log| <= sent
    ensures FinalReport(log, msgSize, sent)
            == AccuracyReport(msgSize, sent, |log|, sent - |log|, 0, 0, 0, 0,
                              |log| * msgSize, 8 * (|log| * msgSize))
  {
    hide Fold, AllPayloads, NoRepeats, Fits, Payload;
    CleanFold(log, msgSize, sent);
    Conservation(log, msgSize, sent);
  }

  // ----- Damage the checks catch -----

  /**
   * A body delivered under another message's header is charged to that header: as soon as the body
   * holds one full word the message counts as corrupted and every full word costs it a byte.
   */
  lemma SwapCharged(l: Ledger, s: nat, t: nat)
    requires |l.seen| <= U64_LIMIT && s < U64_LIMIT && t < |l.seen| && s != t && !l.seen[t]
    requires l.report.msgSize >= HEADER_LEN
    ensures var m := l.report.msgSize;
            var after := CheckStep(l, Swapped(s, t, m)).report;
            && after.correctBytes <= l.report.correctBytes + m - (m - HEADER_LEN) / WORD_LEN
            && (m >= HEADER_LEN + WORD_LEN ==> after.corrupted == l.report.corrupted + 1)
            && (m == HEADER_LEN ==> after.corrupted == l.report.corrupted)
  {
    hide Swapped, Payload, MatchingBytes, MatchingBits, HeaderOf;
    SwappedHeader(s, t, l.report.msgSize);
    SwapDetected(s, t, l.report.msgSize);
  }
}
