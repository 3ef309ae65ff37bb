/** What the receiver reports over a network that may drop and duplicate messages but invents nothing. */
module Duplicates {
  import opened Wrappers
  import opened Counting
  import opened Payloads
  import opened Scoring
  import opened Ledger
  import opened LedgerLaws
  import opened AccuracyProtocol
  import opened AccuracySystem
  import opened EarlyStop

  /** The first message attributed to `s` is its payload. */
  lemma FirstIsPayload(log: seq<Bytes>, msgSize: nat, sent: nat, s: nat)
    requires s < sent <= U64_LIMIT && msgSize >= HEADER_LEN && AllPayloads(log, msgSize, sent)
    ensures var o := FirstOf(log, s, sent); o.Some? ==> o.value == Payload(s, msgSize)
  {
    hide Identify, Payload, FirstOf;
    FirstOfIsFirst(log, s, sent);
    if FirstOf(log, s, sent).Some? {
      var i :| 0 <= i < |log| && IsFirst(log, i, s, sent);
      assert IsPayload(log[i], msgSize, sent);
      var t :| 0 <= t < sent && log[i] == Payload(t, msgSize);
      PayloadIdentified(t, msgSize, sent);
    }
  }

  lemma GenuineLine(log: seq<Bytes>, msgSize: nat, sent: nat, s: nat)
    requires s < sent <= U64_LIMIT && msgSize >= HEADER_LEN && AllPayloads(log, msgSize, sent) && Fits(log, msgSize)
    ensures Contributes(log, sent, Short(msgSize), s, 0) && Contributes(log, sent, Wrong(msgSize), s, 0)
    ensures var o := FirstOf(log, s, sent);
            && GoodBytes(msgSize)(s, o) == msgSize * Present()(s, o)
            && GoodBits(msgSize)(s, o) == 8 * msgSize * Present()(s, o)
  {
    hide MatchingBytes, MatchingBits, FirstOf, Payload, IsPayload;
    FirstIsPayload(log, msgSize, sent, s);
    FirstFits(log, msgSize, s, sent);
    var o := FirstOf(log, s, sent);
    if o.Some? {
      FullScore(o.value, s, msgSize);
    }
  }

  lemma NoStrays(log: seq<Bytes>, msgSize: nat, sent: nat)
    requires sent <= U64_LIMIT && msgSize >= HEADER_LEN && AllPayloads(log, msgSize, sent)
    ensures Strays(log, sent) == 0
  {
    hide Identify, Payload, CountIf;
    forall i | 0 <= i < |log|
      ensures !Stray(sent)(log[i])
    {
      assert IsPayload(log[i], msgSize, sent);
      var t :| 0 <= t < sent && log[i] == Payload(t, msgSize);
      PayloadIdentified(t, msgSize, sent);
    }
    CountAtMost(log, 0, Stray(sent));
  }

  /** Genuine messages score in full the first time they are seen, and only then. */
  lemma GenuineReport(log: seq<Bytes>, msgSize: nat, sent: nat)
    requires sent <= U64_LIMIT && msgSize >= HEADER_LEN && AllPayloads(log, msgSize, sent) && Fits(log, msgSize)
    ensures var r := FinalReport(log, msgSize, sent);
            && r.unidentifiable == 0 && r.truncated == 0 && r.corrupted == 0
            && r.duplicated == r.received - (sent - r.lost)
            && r.correctBytes == msgSize * (sent - r.lost) && r.correctBits == 8 * msgSize * (sent - r.lost)
  {
    hide Tally, FirstOf, Strays, FinalReport, Fits, AllPayloads, Short, Wrong, GoodBytes, GoodBits, Present,
         Contributes;
    var r := FinalReport(log, msgSize, sent);
    FinalDeclares(log, msgSize, sent);
    DeclaredCounters(log, msgSize, sent, r);
    Conservation(log, msgSize, sent);
    NoStrays(log, msgSize, sent);
    forall s: nat | s < sent
      ensures Contributes(log, sent, Short(msgSize), s, 0) && Contributes(log, sent, Wrong(msgSize), s, 0)
      ensures var o := FirstOf(log, s, sent);
              && GoodBytes(msgSize)(s, o) == msgSize * Present()(s, o)
              && GoodBits(msgSize)(s, o) == 8 * msgSize * Present()(s, o)
    {
      GenuineLine(log, msgSize, sent, s);
    }
    TallyNone(log, sent, Short(msgSize));
    TallyNone(log, sent, Wrong(msgSize));
    TallyScaled(log, sent, 1, GoodBytes(msgSize), msgSize, Present());
    TallyScaled(log, sent, msgSize, Present(), 1, GoodBytes(msgSize));
    TallyScaled(log, sent, 1, GoodBits(msgSize), 8 * msgSize, Present());
    TallyScaled(log, sent, 8 * msgSize, Present(), 1, GoodBits(msgSize));
  }

  /** A sequence number is marked exactly when a copy of its payload was checked. */
  lemma SeenIffChecked(log: seq<Bytes>, msgSize: nat, sent: nat, s: nat)
    requires s < sent <= U64_LIMIT && msgSize >= HEADER_LEN && AllPayloads(log, msgSize, sent) && Fits(log, msgSize)
    ensures Fold(log, msgSize, sent).seen[s] <==> Payload(s, msgSize) in log
  {
    hide Fold, Identify, Payload, Fits;
    SeenIffAttributed(log, msgSize, sent, s);
    PayloadIdentified(s, msgSize, sent);
    forall i | 0 <= i < |log|
      ensures Identify(log[i], sent) == Some(s) <==> log[i] == Payload(s, msgSize)
    {
      assert IsPayload(log[i], msgSize, sent);
      var t :| 0 <= t < sent && log[i] == Payload(t, msgSize);
      PayloadIdentified(t, msgSize, sent);
    }
  }

  lemma LogIsGenuine(c: Config, s: Sys)
    requires Accepted(c) && SysInv(c, s) && Genuine(c, s)
    ensures AllPayloads(s.rx.log, c.msgSize, c.iterations)
  {
    hide Payload, TxInv, RxInv, IsPayload;
    forall i | 0 <= i < |s.rx.log|
      ensures IsPayload(s.rx.log[i], c.msgSize, c.iterations)
    {
      assert s.rx.log[i] in multiset(s.rx.log);
      assert s.rx.log[i] in s.wire + Delivered(s.rx);
    }
  }

  /**
   * End to end over a network that may drop, delay, reorder and duplicate: nothing is reported damaged, every
   * message seen scores in full once, every other completion is a duplicate, and the messages seen are those
   * of which a copy was checked.
   */
  lemma EndToEndDuplicating(c: Config, net: Net, run: seq<Sys>, i: nat)
    requires Accepted(c) && IsRun(c, net, run) && !net.damages && !net.injects
    requires i < |run| && run[i].rx.stopped
    ensures var s := run[i];
            var r := Reported(s);
            var seen := c.iterations - r.lost;
            && 0 <= seen <= r.received == s.rx.received
            && r == AccuracyReport(c.msgSize, c.iterations, s.rx.received, r.lost, s.rx.received - seen, 0, 0, 0,
                                   c.msgSize * seen, 8 * c.msgSize * seen)
    ensures |run[i].rx.ledger.seen| == c.iterations
    ensures forall k :: 0 <= k < c.iterations ==>
              (run[i].rx.ledger.seen[k] <==> Payload(k, c.msgSize) in run[i].rx.log)
  {
    hide IsRun, Genuine, SysInv, Reported, FinalReport, Accepted, Fits, AllPayloads, Fold;
    var s := run[i];
    RunGenuine(c, net, run, i);
    ReportedIsFinal(c, s);
    LogIsGenuine(c, s);
    MessageSizeHasHeader(c);
    LedgerOf(c, s);
    Conservation(s.rx.log, c.msgSize, c.iterations);
    FinalSizes(s.rx.log, c.msgSize, c.iterations);
    GenuineReport(s.rx.log, c.msgSize, c.iterations);
    forall k | 0 <= k < c.iterations
      ensures s.rx.ledger.seen[k] <==> Payload(k, c.msgSize) in s.rx.log
    {
      SeenIffChecked(s.rx.log, c.msgSize, c.iterations, k);
    }
  }

  lemma FinalSizes(log: seq<Bytes>, msgSize: nat, sent: nat)
    requires sent <= U64_LIMIT && Fits(log, msgSize)
    ensures FinalReport(log, msgSize, sent).msgSize == msgSize && FinalReport(log, msgSize, sent).lost <= sent
  {
    hide Tally, Present, FinalReport;
    FinalDeclares(log, msgSize, sent);
  }
}
