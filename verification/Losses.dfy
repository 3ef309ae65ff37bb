/** What the report calls lost on a network that may drop messages but neither duplicates nor damages them. */
module Losses {
  import opened Payloads
  import opened Ledger
  import opened LedgerLaws
  import opened AccuracyProtocol
  import opened AccuracySystem

  lemma {:induction false} SentSize(c: Config, n: nat)
    requires Accepted(c) && n <= c.iterations
    ensures |Sent(c, Below(n))| == n
  {
    hide Sent;
    if n == 0 {
      NoneSent(c);
    } else {
      SentSize(c, n - 1);
      SentAdd(c, Below(n - 1), n - 1);
      assert Below(n) == Below(n - 1) + {n - 1};
    }
  }

  lemma NoneSent(c: Config)
    requires Accepted(c)
    ensures Sent(c, Below(0)) == multiset{}
  {
  }

  lemma AllSent(c: Config, t: Tx)
    requires Accepted(c) && TxInv(c, t) && t.completed == c.iterations
    ensures Sent(c, t.fetched) == Sent(c, Below(c.iterations))
  {
    hide Payload;
    assert forall s: nat :: s < c.iterations ==> s in t.fetched;
  }

  lemma SentOnce(c: Config, n: nat, k: nat)
    requires Accepted(c) && k < n <= c.iterations
    ensures Sent(c, Below(n))[Payload(k, c.msgSize)] == 1
  {
    hide Payload;
    assert k in Below(n);
  }

  /**
   * Once everything sent has either been delivered and checked or dropped, the loss reported is the number
   * of messages dropped, and the sequence numbers it counts are those of the messages dropped.
   */
  lemma LossIsDrops(c: Config, net: Net, run: seq<Sys>, i: nat)
    requires Accepted(c) && !net.duplicates && !net.damages && !net.injects && IsRun(c, net, run) && i < |run|
    requires var s := run[i];
             s.rx.stopped && s.tx.completed == c.iterations && s.wire == multiset{} && s.rx.cq == []
    ensures Reported(run[i]).lost == |Dropped(run, i)|
    ensures |run[i].rx.ledger.seen| == c.iterations
    ensures forall k :: 0 <= k < c.iterations ==>
              (run[i].rx.ledger.seen[k] <==> Payload(k, c.msgSize) !in Dropped(run, i))
  {
    hide IsRun, SysInv, Reported, Accepted, Payload, Fold, Dropped, Fits, AllPayloads, NoRepeats, Sent;
    var s, dropped := run[i], Dropped(run, i);
    RunBalanced(c, net, run, i);
    EndToEnd(c, net, run, i);
    ReportedIsFinal(c, s);
    AllDone(c, s, dropped);
    LedgerOf(c, s);
    RunAccounted(c, net, run, i);
    LogIsClean(c, net, s);
    MessageSizeHasHeader(c);
    CleanFold(s.rx.log, c.msgSize, c.iterations);
    forall k | 0 <= k < c.iterations
      ensures s.rx.ledger.seen[k] <==> Payload(k, c.msgSize) !in dropped
    {
      SentOnce(c, c.iterations, k);
      assert (multiset(s.rx.log) + dropped)[Payload(k, c.msgSize)] == 1;
      assert Payload(k, c.msgSize) in s.rx.log <==> Payload(k, c.msgSize) in multiset(s.rx.log);
    }
  }

  lemma AllDone(c: Config, s: Sys, dropped: multiset<Bytes>)
    requires Accepted(c) && SysInv(c, s) && Balanced(c, s, dropped)
    requires s.rx.stopped && s.tx.completed == c.iterations && s.wire == multiset{} && s.rx.cq == []
    ensures multiset(s.rx.log) + dropped == Sent(c, Below(c.iterations))
    ensures |s.rx.log| + |dropped| == c.iterations
  {
    hide Sent, Accepted, Fold, TxInv, Held;
    assert Contents(s.rx.mem, s.rx.cq) == [] && Contents(s.rx.mem, s.rx.batch) == [];
    AllSent(c, s.tx);
    SentSize(c, c.iterations);
  }
}
