/**
 * Scripts that answer each other up to an exchange at which one side is at a barrier and the other is not.
 * What becomes of the barrier depends on what it meets: the end of the other script, a line read, or a line.
 */
module UnmatchedBarrier {
  import opened Session

  /**
   * The two scripts answer each other in their first `k` exchanges; the next of `side` is a barrier, and
   * there is none in the other script to meet it.
   */
  predicate Parts(ps: Scripts, side: Side, k: nat) {
    && k <= |ps.client| && k <= |ps.server|
    && (forall j :: 0 <= j < k ==> DualIo(ps.client[j].io, ps.server[j].io))
    && k < |ScriptOf(ps, side)| && ScriptOf(ps, side)[k].io.Sync?
    && var q := ScriptOf(ps, Peer(side)); MeetsEnd(q, k) || MeetsRead(q, k) || MeetsLine(q, k)
  }

  predicate MeetsEnd(q: Script, k: nat) {
    |q| == k
  }

  predicate MeetsRead(q: Script, k: nat) {
    k < |q| && q[k].io.Recv?
  }

  predicate MeetsLine(q: Script, k: nat) {
    k < |q| && q[k].io.Send? && IsJson(q[k].io.m.text)
  }

  /** The scripts cut off where they part. */
  function Matched(ps: Scripts, k: nat): Scripts
    requires k <= |ps.client| && k <= |ps.server|
  {
    Scripts(ps.client[..k], ps.server[..k])
  }

  lemma MatchedIsDual(ps: Scripts, side: Side, k: nat)
    requires Parts(ps, side, k)
    ensures Dual(Matched(ps, k))
  {
  }

  predicate Alive(e: End) {
    !e.failed && !e.cut
  }

  /** A side as the matched part knows it: what it does at exchange `k` is left out. */
  function Trim(e: End, k: nat): End {
    if e.pc < k then e else e.(acted := 0, wrote := 0, acc := [])
  }

  /**
   * Where the barrier's side stands, `a0` being what the matched part knows of it and `b` the exchange the
   * other side is at; `xa` are the bytes written at exchange `k` that are not yet read.
   */
  ghost predicate BarrierPart(p: Script, k: nat, a: End, a0: End, b: nat, xa: Text)
    requires k < |p|
  {
    && a.pc <= k && Alive(a) && a0 == Trim(a, k)
    && (a.pc < k ==> xa == [])
    && (a.pc == k ==>
          && a.acc == [] && a.acted <= |p[k].before| && a.wrote <= 1 && (a.wrote > 0 ==> a.acted == |p[k].before|)
          && (b < k ==> xa == [BARRIER][..a.wrote]))
  }

  /** The barrier bytes written at exchange `k`. */
  function Announced(a: End, k: nat): Text {
    if a.pc == k && a.wrote > 0 then [BARRIER] else []
  }

  /**
   * Where the other side stands, `b0` being what the matched part knows of it; `to` and `to0` are the bytes
   * on their way to it, and `xb` those it wrote from exchange `k` on that are not yet read.
   */
  ghost predicate OtherPart(q: Script, k: nat, announced: Text, b: End, b0: End, to: Text, to0: Text,
                            xa: Text, xb: Text)
  {
    && (b.pc <= k ==> Alive(b) && b0 == Trim(b, k) && to == to0 + xa)
    && (b.pc < k ==> xb == [])
    && (b.pc == k < |q| ==> b.acted <= |q[k].before| && (b.wrote > 0 ==> b.acted == |q[k].before|))
    && (b.pc == k && MeetsEnd(q, k) ==> xb == [])
    && (b.pc == k && MeetsRead(q, k) ==> xb == [] && b.wrote == 0 && b.acc + xa == announced)
    && (b.pc == k && MeetsLine(q, k) ==> b.wrote < |Output(q[k].io)| && xb == Output(q[k].io)[..b.wrote])
    && (b.pc > k ==> MeetsLine(q, k) && b0.pc == k && xb != [] && xb[0] == q[k].io.m.text[0])
  }

  /** The run so far is a run `v` of the matched part and what the sides did at exchange `k`. */
  ghost predicate Core(ps: Scripts, side: Side, k: nat, w: World, v: World, xa: Text, xb: Text)
    requires Parts(ps, side, k)
  {
    var a, b := EndOf(w, side), EndOf(w, Peer(side));
    && Dual(Matched(ps, k)) && Inv(Matched(ps, k), v) && Healthy(v)
    && BarrierPart(ScriptOf(ps, side), k, a, EndOf(v, side), b.pc, xa)
    && OtherPart(ScriptOf(ps, Peer(side)), k, Announced(a, k), b, EndOf(v, Peer(side)),
                 Incoming(w, Peer(side)), Incoming(v, Peer(side)), xa, xb)
    && Incoming(w, side) == Incoming(v, side) + xb
  }

  /** What is on its way to a side that has read the whole matched part. */
  lemma NothingLeft(ps: Scripts, v: World, side: Side, k: nat)
    requires Dual(ps) && Inv(ps, v) && Healthy(v) && k == |ps.client| && EndOf(v, side).pc == k
    ensures Incoming(v, side) == [] && EndOf(v, side).acc == []
  {
    hide Stream;
    var q := ScriptOf(ps, Peer(side));
    WrittenWithin(q, EndOf(v, Peer(side)));
  }

  lemma WrittenWithin(q: Script, e: End)
    requires e.pc <= |q| && e.wrote <= if e.pc < |q| then |Output(q[e.pc].io)| else 0
    ensures Written(q, e) <= |Stream(q, |q|)|
  {
    hide Stream, Output;
    if e.pc < |q| {
      PositionsOrdered(q, e.pc, |q|);
    }
  }

  /** A side that still has to read something of the matched part finds it in its stream. */
  lemma SomethingComes(ps: Scripts, v: World, side: Side)
    requires Dual(ps) && Inv(ps, v) && Healthy(v) && EndOf(v, Peer(side)).pc > EndOf(v, side).pc
    requires ReadyToRead(ScriptOf(ps, side), EndOf(v, side))
    ensures Incoming(v, side) != []
  {
    hide Stream;
    DualAnswers(ps);
    var p, q := ScriptOf(ps, side), ScriptOf(ps, Peer(side));
    var e, peer := EndOf(v, side), EndOf(v, Peer(side));
    WrittenPast(q, peer, e.pc);
    BytesAwait(p, q, e, peer, Incoming(v, side));
  }

  // ----- Steps within the matched part -----

  /** A step of a side before exchange `k` is a step of the matched part. */
  lemma MatchedStep(ps: Scripts, k: nat, x: Side, w: World, v: World, step: Step, extra: Text)
    requires k <= |ps.client| && k <= |ps.server| && EndOf(w, x).pc < k && EndOf(v, x) == EndOf(w, x)
    requires step.side == x && !step.Abort? && !step.Eof? && Apply(ps, w, step).Some?
    requires Incoming(w, x) == Incoming(v, x) + extra && (step.Read? ==> Incoming(v, x) != [])
    ensures var v', w' := Apply(Matched(ps, k), v, step), Apply(ps, w, step).value;
            && v'.Some? && EndOf(v'.value, x) == EndOf(w', x) && EndOf(v'.value, Peer(x)) == EndOf(v, Peer(x))
            && EndOf(w', Peer(x)) == EndOf(w, Peer(x))
            && EndOf(w', x).pc <= k && (EndOf(w', x).pc == k ==> Trim(EndOf(w', x), k) == EndOf(w', x))
            && Incoming(w', x) == Incoming(v'.value, x) + extra
            && (step.Write? ==> exists b :: Incoming(w', Peer(x)) == Incoming(w, Peer(x)) + [b]
                                            && Incoming(v'.value, Peer(x)) == Incoming(v, Peer(x)) + [b])
            && (!step.Write? ==> Incoming(w', Peer(x)) == Incoming(w, Peer(x))
                                 && Incoming(v'.value, Peer(x)) == Incoming(v, Peer(x)))
  {
    hide Output;
    var p0, p, e := ScriptOf(Matched(ps, k), x), ScriptOf(ps, x), EndOf(w, x);
    assert p0[e.pc] == p[e.pc];
    match step
    case Act(_) =>
    case Write(_) =>
      var b := Output(p[e.pc].io)[e.wrote];
      assert Incoming(Apply(ps, w, step).value, Peer(x)) == Incoming(w, Peer(x)) + [b];
    case Read(_) =>
      assert (Incoming(v, x) + extra)[1..] == Incoming(v, x)[1..] + extra;
  }

  /** `Apply` without the partial read at the end of a stream never fails a side. */
  lemma InvAfter(ps: Scripts, v: World, step: Step)
    requires Dual(ps) && Inv(ps, v) && Healthy(v) && !step.Abort? && Apply(ps, v, step).Some?
    ensures Inv(ps, Apply(ps, v, step).value) && Healthy(Apply(ps, v, step).value)
  {
    hide Inv, Dual, Apply, Healthy;
    InvNext(ps, v, step);
    HealthyNext(ps, v, step);
  }

  /** While nothing of exchange `k` is on its way to it, the other side may be sent more of the matched part. */
  lemma OtherFed(q: Script, k: nat, b: End, b0: End, to: Text, to0: Text, xb: Text, c: Octet)
    requires OtherPart(q, k, [], b, b0, to, to0, [], xb)
    ensures OtherPart(q, k, [], b, b0, to + [c], to0 + [c], [], xb)
  {
    hide Output;
  }

  lemma BarrierEarly(ps: Scripts, side: Side, k: nat, w: World, v: World, xa: Text, xb: Text, step: Step)
    returns (v': World)
    requires Parts(ps, side, k) && Core(ps, side, k, w, v, xa, xb) && EndOf(w, side).pc < k
    requires step.side == side && !step.Abort? && !step.Eof? && Apply(ps, w, step).Some?
    requires step.Read? ==> Incoming(v, side) != []
    ensures Core(ps, side, k, Apply(ps, w, step).value, v', xa, xb)
  {
    hide Inv, Dual, Output, Apply, OtherPart, Matched;
    var a, b, b0 := EndOf(w, side), EndOf(w, Peer(side)), EndOf(v, Peer(side));
    MatchedStep(ps, k, side, w, v, step, xb);
    v' := Apply(Matched(ps, k), v, step).value;
    InvAfter(Matched(ps, k), v, step);
    var w' := Apply(ps, w, step).value;
    if step.Write? {
      var c :| Incoming(w', Peer(side)) == Incoming(w, Peer(side)) + [c]
               && Incoming(v', Peer(side)) == Incoming(v, Peer(side)) + [c];
      OtherFed(ScriptOf(ps, Peer(side)), k, b, b0, Incoming(w, Peer(side)), Incoming(v, Peer(side)), xb, c);
    }
  }

  lemma OtherEarly(ps: Scripts, side: Side, k: nat, w: World, v: World, xa: Text, xb: Text, step: Step)
    returns (v': World)
    requires Parts(ps, side, k) && Core(ps, side, k, w, v, xa, xb) && EndOf(w, Peer(side)).pc < k
    requires step.side == Peer(side) && !step.Abort? && !step.Eof? && Apply(ps, w, step).Some?
    requires step.Read? ==> Incoming(v, Peer(side)) != []
    ensures Core(ps, side, k, Apply(ps, w, step).value, v', xa, xb)
  {
    hide Inv, Dual, Output, Apply, Matched;
    MatchedStep(ps, k, Peer(side), w, v, step, xa);
    v' := Apply(Matched(ps, k), v, step).value;
    InvAfter(Matched(ps, k), v, step);
    assert [BARRIER][..1] == [BARRIER] && [BARRIER][..0] == [];
    OutputStarts(ScriptOf(ps, Peer(side)), k);
  }

  lemma OutputStarts(q: Script, k: nat)
    ensures MeetsLine(q, k) ==> |Output(q[k].io)| > 1 && Output(q[k].io)[..0] == []
                                && Output(q[k].io)[0] == q[k].io.m.text[0]
  {
  }

  // ----- Steps at exchange `k` -----

  lemma BarrierActed(p: Script, k: nat, a: End, a0: End, b: nat, xa: Text)
    requires k < |p| && BarrierPart(p, k, a, a0, b, xa) && a.pc == k && a.acted < |p[k].before|
    ensures BarrierPart(p, k, a.(acted := a.acted + 1), a0, b, xa)
    ensures Announced(a.(acted := a.acted + 1), k) == Announced(a, k)
  {
  }

  lemma BarrierWritten(p: Script, k: nat, a: End, a0: End, b: nat, xa: Text)
    requires k < |p| && BarrierPart(p, k, a, a0, b, xa) && a.pc == k && a.wrote == 0 && a.acted == |p[k].before|
    ensures BarrierPart(p, k, a.(wrote := 1), a0, b, xa + [BARRIER])
    ensures Announced(a, k) == [] && Announced(a.(wrote := 1), k) == [BARRIER]
  {
    assert [BARRIER][..0] == [] && [BARRIER][..1] == [BARRIER];
  }

  lemma OtherGetsBarrier(q: Script, k: nat, b: End, b0: End, to: Text, to0: Text, xa: Text, xb: Text)
    requires OtherPart(q, k, [], b, b0, to, to0, xa, xb)
    ensures OtherPart(q, k, [BARRIER], b, b0, to + [BARRIER], to0, xa + [BARRIER], xb)
  {
    hide Output;
    assert to0 + xa + [BARRIER] == to0 + (xa + [BARRIER]);
    assert b.acc + (xa + [BARRIER]) == b.acc + xa + [BARRIER];
  }

  /** What a side at a barrier can do before it reads. */
  lemma BarrierSteps(ps: Scripts, w: World, side: Side, step: Step)
    requires var p, e := ScriptOf(ps, side), EndOf(w, side); e.pc < |p| && p[e.pc].io.Sync?
    requires (step == Act(side) || step == Write(side)) && Apply(ps, w, step).Some?
    ensures var p, e, w' := ScriptOf(ps, side), EndOf(w, side), Apply(ps, w, step).value;
            && (step.Act? ==> e.acted < |p[e.pc].before| && w' == WithEnd(w, side, e.(acted := e.acted + 1)))
            && (step.Write? ==>
                  && e.acted == |p[e.pc].before| && e.wrote == 0
                  && w' == WithIncoming(WithEnd(w, side, e.(wrote := 1)), Peer(side),
                                        Incoming(w, Peer(side)) + [BARRIER]))
  {
  }

  lemma BarrierAt(ps: Scripts, side: Side, k: nat, w: World, v: World, xa: Text, xb: Text, step: Step)
    returns (xa': Text)
    requires Parts(ps, side, k) && Core(ps, side, k, w, v, xa, xb) && EndOf(w, side).pc == k
    requires (step == Act(side) || step == Write(side)) && Apply(ps, w, step).Some?
    ensures Core(ps, side, k, Apply(ps, w, step).value, v, xa', xb)
  {
    hide Inv, Dual, Healthy, Matched, BarrierPart, OtherPart, Announced, Apply, Output, DualIo, MeetsLine, MeetsRead;
    var p, q, a, b := ScriptOf(ps, side), ScriptOf(ps, Peer(side)), EndOf(w, side), EndOf(w, Peer(side));
    BarrierSteps(ps, w, side, step);
    if step.Act? {
      BarrierActed(p, k, a, EndOf(v, side), b.pc, xa);
      xa' := xa;
    } else {
      BarrierWritten(p, k, a, EndOf(v, side), b.pc, xa);
      OtherGetsBarrier(q, k, b, EndOf(v, Peer(side)), Incoming(w, Peer(side)), Incoming(v, Peer(side)), xa, xb);
      xa' := xa + [BARRIER];
    }
  }

  lemma ListensRead(q: Script, k: nat, a: End, b: End, b0: End, to: Text, xa: Text, xb: Text)
    requires OtherPart(q, k, Announced(a, k), b, b0, to, [], xa, xb) && b.pc == k && MeetsRead(q, k) && to != []
    ensures to[0] == BARRIER
    ensures OtherPart(q, k, Announced(a, k), b.(acc := b.acc + [to[0]]), b0, to[1..], [], [], xb)
  {
    OneByte(a, k, b.acc, xa);
    assert [] + xa == xa && [] + [] == to[1..];
  }

  lemma ListensAct(q: Script, k: nat, announced: Text, b: End, b0: End, to: Text, to0: Text, xa: Text, xb: Text)
    requires OtherPart(q, k, announced, b, b0, to, to0, xa, xb) && b.pc == k && MeetsRead(q, k)
    requires b.acted < |q[k].before|
    ensures OtherPart(q, k, announced, b.(acted := b.acted + 1), b0, to, to0, xa, xb)
  {
  }

  /** What a side at a line read can do. */
  lemma ReaderSteps(ps: Scripts, w: World, x: Side, step: Step)
    requires var p, e := ScriptOf(ps, x), EndOf(w, x); e.pc < |p| && p[e.pc].io.Recv? && e.wrote == 0
    requires step.side == x && !step.Abort? && !step.Eof? && Apply(ps, w, step).Some?
    ensures var p, e, to := ScriptOf(ps, x), EndOf(w, x), Incoming(w, x);
            && (step.Act? || step.Read?)
            && (step.Act? ==> e.acted < |p[e.pc].before|
                              && Apply(ps, w, step).value == WithEnd(w, x, e.(acted := e.acted + 1)))
            && (step.Read? ==> to != [])
            && (step.Read? && to[0] != NEWLINE ==>
                  Apply(ps, w, step).value == WithIncoming(WithEnd(w, x, e.(acc := e.acc + [to[0]])), x, to[1..]))
  {
  }

  lemma OtherAlive(q: Script, k: nat, announced: Text, b: End, b0: End, to: Text, to0: Text, xa: Text, xb: Text)
    requires OtherPart(q, k, announced, b, b0, to, to0, xa, xb) && b.pc == k
    ensures Alive(b) && (MeetsRead(q, k) ==> b.wrote == 0)
  {
  }

  /** The other side reads a line and finds the barrier byte, which ends no line. */
  lemma OtherListens(ps: Scripts, side: Side, k: nat, w: World, v: World, xa: Text, xb: Text, step: Step)
    returns (xa': Text)
    requires Parts(ps, side, k) && Core(ps, side, k, w, v, xa, xb) && EndOf(w, Peer(side)).pc == k
    requires MeetsRead(ScriptOf(ps, Peer(side)), k)
    requires step.side == Peer(side) && !step.Abort? && !step.Eof? && Apply(ps, w, step).Some?
    ensures Core(ps, side, k, Apply(ps, w, step).value, v, xa', xb)
  {
    hide Core, Parts, Inv, Dual, Healthy, Matched, BarrierPart, OtherPart, Announced, Apply, Output, DualIo;
    CoreParts(ps, side, k, w, v, xa, xb);
    var q, a, b, b0 := ScriptOf(ps, Peer(side)), EndOf(w, side), EndOf(w, Peer(side)), EndOf(v, Peer(side));
    CoreAtK(ps, side, k, w, v, xa, xb);
    OtherAlive(q, k, Announced(a, k), b, b0, Incoming(w, Peer(side)), Incoming(v, Peer(side)), xa, xb);
    ReaderSteps(ps, w, Peer(side), step);
    xa' := xa;
    if step.Read? {
      ListensRead(q, k, a, b, b0, Incoming(w, Peer(side)), xa, xb);
      xa' := [];
      BarrierRead(ScriptOf(ps, side), k, a, EndOf(v, side), k, xa);
    } else {
      ListensAct(q, k, Announced(a, k), b, b0, Incoming(w, Peer(side)), Incoming(v, Peer(side)), xa, xb);
    }
    CoreOf(ps, side, k, Apply(ps, w, step).value, v, xa', xb);
  }

  lemma CoreParts(ps: Scripts, side: Side, k: nat, w: World, v: World, xa: Text, xb: Text)
    requires Parts(ps, side, k) && Core(ps, side, k, w, v, xa, xb)
    ensures k < |ScriptOf(ps, side)| && k <= |ps.client| && k <= |ps.server|
    ensures var a, b := EndOf(w, side), EndOf(w, Peer(side));
            && Dual(Matched(ps, k)) && Inv(Matched(ps, k), v) && Healthy(v)
            && BarrierPart(ScriptOf(ps, side), k, a, EndOf(v, side), b.pc, xa)
            && OtherPart(ScriptOf(ps, Peer(side)), k, Announced(a, k), b, EndOf(v, Peer(side)),
                         Incoming(w, Peer(side)), Incoming(v, Peer(side)), xa, xb)
            && Incoming(w, side) == Incoming(v, side) + xb
  {
  }

  lemma CoreOf(ps: Scripts, side: Side, k: nat, w: World, v: World, xa: Text, xb: Text)
    requires Parts(ps, side, k) && k < |ScriptOf(ps, side)| && k <= |ps.client| && k <= |ps.server|
    requires Dual(Matched(ps, k)) && Inv(Matched(ps, k), v) && Healthy(v)
    requires var a, b := EndOf(w, side), EndOf(w, Peer(side));
             && BarrierPart(ScriptOf(ps, side), k, a, EndOf(v, side), b.pc, xa)
             && OtherPart(ScriptOf(ps, Peer(side)), k, Announced(a, k), b, EndOf(v, Peer(side)),
                          Incoming(w, Peer(side)), Incoming(v, Peer(side)), xa, xb)
             && Incoming(w, side) == Incoming(v, side) + xb
    ensures Core(ps, side, k, w, v, xa, xb)
  {
  }

  /** A side at exchange `k` has read all of the matched part. */
  lemma CoreAtK(ps: Scripts, side: Side, k: nat, w: World, v: World, xa: Text, xb: Text)
    requires Parts(ps, side, k) && Core(ps, side, k, w, v, xa, xb)
    ensures EndOf(w, side).pc == k ==> Incoming(v, side) == []
    ensures EndOf(w, Peer(side)).pc == k ==> Incoming(v, Peer(side)) == []
    ensures var b := EndOf(w, Peer(side)); b.pc == k && MeetsRead(ScriptOf(ps, Peer(side)), k) ==> b.wrote == 0
  {
    hide Inv, Dual, Output;
    if EndOf(w, side).pc == k {
      NothingLeft(Matched(ps, k), v, side, k);
    }
    if EndOf(w, Peer(side)).pc == k {
      NothingLeft(Matched(ps, k), v, Peer(side), k);
    }
  }

  lemma OneByte(a: End, k: nat, acc: Text, xa: Text)
    requires acc + xa == Announced(a, k) && xa != []
    ensures acc == [] && xa == [BARRIER] && xa[1..] == [] && Announced(a, k) == [BARRIER]
    ensures acc + [BARRIER] + [] == [BARRIER]
  {
    assert |acc| + |xa| <= 1;
  }

  lemma BarrierRead(p: Script, k: nat, a: End, a0: End, b: nat, xa: Text)
    requires k < |p| && k <= b && BarrierPart(p, k, a, a0, b, xa)
    ensures BarrierPart(p, k, a, a0, b, [])
  {
  }

  /** The other side writes a line. */
  lemma OtherSpeaks(ps: Scripts, side: Side, k: nat, w: World, v: World, xa: Text, xb: Text, step: Step)
    returns (xb': Text)
    requires Parts(ps, side, k) && Core(ps, side, k, w, v, xa, xb) && EndOf(w, Peer(side)).pc == k
    requires MeetsLine(ScriptOf(ps, Peer(side)), k)
    requires step.side == Peer(side) && !step.Abort? && !step.Eof? && Apply(ps, w, step).Some?
    ensures Core(ps, side, k, Apply(ps, w, step).value, v, xa, xb')
  {
    hide Core, Parts, Inv, Dual, Healthy, Matched, Output, BarrierPart, DualIo;
    CoreParts(ps, side, k, w, v, xa, xb);
    var q, b := ScriptOf(ps, Peer(side)), EndOf(w, Peer(side));
    OutputStarts(q, k);
    xb' := xb;
    if step.Write? {
      var out := Output(q[k].io);
      xb' := xb + [out[b.wrote]];
      assert out[..b.wrote] + [out[b.wrote]] == out[..b.wrote + 1];
      assert Incoming(v, side) + xb + [out[b.wrote]] == Incoming(v, side) + xb';
      BarrierPartLater(ScriptOf(ps, side), k, EndOf(w, side), EndOf(v, side), k, k + 1, xa);
    }
    CoreOf(ps, side, k, Apply(ps, w, step).value, v, xa, xb');
  }

  lemma BarrierPartLater(p: Script, k: nat, a: End, a0: End, b: nat, b': nat, xa: Text)
    requires k < |p| && k <= b <= b' && BarrierPart(p, k, a, a0, b, xa)
    ensures BarrierPart(p, k, a, a0, b', xa)
  {
  }

  lemma OtherBeyond(ps: Scripts, side: Side, k: nat, w: World, v: World, xa: Text, xb: Text, step: Step)
    returns (xb': Text)
    requires Parts(ps, side, k) && Core(ps, side, k, w, v, xa, xb) && EndOf(w, Peer(side)).pc > k
    requires step.side == Peer(side) && !step.Abort? && Apply(ps, w, step).Some?
    ensures Core(ps, side, k, Apply(ps, w, step).value, v, xa, xb')
  {
    hide Core, Parts, Inv, Dual, Healthy, Matched, Output, DualIo;
    CoreParts(ps, side, k, w, v, xa, xb);
    var q, b := ScriptOf(ps, Peer(side)), EndOf(w, Peer(side));
    xb' := xb;
    if step.Write? {
      var c := Output(q[b.pc].io)[b.wrote];
      xb' := xb + [c];
      assert Incoming(v, side) + xb + [c] == Incoming(v, side) + xb';
    }
    CoreOf(ps, side, k, Apply(ps, w, step).value, v, xa, xb');
  }

  // ----- Runs -----

  /** The two ends a barrier's side can come to at exchange `k`. */
  predicate Passes(w: World, w': World, side: Side, k: nat) {
    EndOf(w, side).pc <= k < EndOf(w', side).pc
  }

  predicate GivesUp(w: World, w': World, side: Side) {
    !EndOf(w, side).failed && EndOf(w', side).failed
  }

  predicate Ended(ps: Scripts, side: Side, k: nat, w: World) {
    var q, a, b := ScriptOf(ps, Peer(side)), EndOf(w, side), EndOf(w, Peer(side));
    MeetsEnd(q, k) && a.failed && a.pc == k && b.pc == k && Alive(b)
  }

  /** The number of barriers among the first `k` exchanges. */
  function Syncs(p: Script, k: nat): nat
    requires k <= |p|
  {
    if k == 0 then 0 else Syncs(p, k - 1) + (if p[k - 1].io.Sync? then 1 else 0)
  }

  /** The barrier was passed on the first byte of the line it met. */
  predicate Passed(ps: Scripts, side: Side, k: nat, w: World)
    requires k < |ScriptOf(ps, side)|
  {
    var p, q, a := ScriptOf(ps, side), ScriptOf(ps, Peer(side)), EndOf(w, side);
    && MeetsLine(q, k) && a.pc > k
    && Syncs(p, k) < |a.barriers| && a.barriers[Syncs(p, k)] == q[k].io.m.text[0]
  }

  /** A side has received one byte for each of its barriers, and parts of lines only where it reads lines. */
  predicate Counted(p: Script, e: End) {
    && e.pc <= |p| && |e.barriers| == Syncs(p, e.pc)
    && (e.acc != [] ==> e.pc < |p| && p[e.pc].io.Recv?)
  }

  /** Facts of a core that name no part of it. */
  lemma CoreFacts(ps: Scripts, side: Side, k: nat, w: World, v: World, xa: Text, xb: Text)
    requires Parts(ps, side, k) && Core(ps, side, k, w, v, xa, xb)
    ensures EndOf(w, side).pc <= k && Alive(EndOf(w, side))
    ensures EndOf(w, Peer(side)).pc <= k ==> Alive(EndOf(w, Peer(side)))
    ensures EndOf(w, Peer(side)).pc > k ==> MeetsLine(ScriptOf(ps, Peer(side)), k)
    ensures EndOf(w, side).pc == k ==> EndOf(w, side).acc == []
    ensures xb != [] ==> EndOf(w, Peer(side)).pc >= k && MeetsLine(ScriptOf(ps, Peer(side)), k)
                         && xb[0] == ScriptOf(ps, Peer(side))[k].io.m.text[0]
    ensures xa != [] ==> EndOf(w, side).pc == k
    ensures EndOf(w, Peer(side)).pc > k ==> xb != []
    ensures Incoming(w, side) == Incoming(v, side) + xb
    ensures EndOf(w, Peer(side)).pc <= k ==> Incoming(w, Peer(side)) == Incoming(v, Peer(side)) + xa
  {
    hide Inv, Dual, Healthy;
    var q, b := ScriptOf(ps, Peer(side)), EndOf(w, Peer(side));
    OutputStarts(q, k);
  }

  /** The bytes a side before exchange `k` waits for are those of the matched part. */
  lemma EarlyRead(ps: Scripts, side: Side, k: nat, w: World, v: World, xa: Text, xb: Text, x: Side)
    requires Parts(ps, side, k) && Core(ps, side, k, w, v, xa, xb) && EndOf(w, x).pc < k
    requires ReadyToRead(ScriptOf(ps, x), EndOf(w, x))
    ensures Incoming(w, x) != [] ==> Incoming(v, x) != []
    ensures EndOf(w, Peer(x)).pc >= k ==> Incoming(v, x) != [] && Incoming(w, x) != []
  {
    hide Inv, Dual, Healthy, Output;
    CoreFacts(ps, side, k, w, v, xa, xb);
    var p0, p := ScriptOf(Matched(ps, k), x), ScriptOf(ps, x);
    assert p0[EndOf(w, x).pc] == p[EndOf(w, x).pc];
    if EndOf(w, Peer(x)).pc >= k {
      SomethingComes(Matched(ps, k), v, x);
    }
  }

  /** No side finds its stream closed but the barrier's, at the end of the other script, and one that is further on. */
  lemma WhoMeetsTheEnd(ps: Scripts, side: Side, k: nat, w: World, v: World, xa: Text, xb: Text, step: Step)
    requires Parts(ps, side, k) && Core(ps, side, k, w, v, xa, xb) && step.Eof? && Apply(ps, w, step).Some?
    ensures EndOf(w, step.side).pc >= k
    ensures step.side == side ==> MeetsEnd(ScriptOf(ps, Peer(side)), k) && EndOf(w, Peer(side)).pc == k
    ensures step.side == Peer(side) ==> EndOf(w, Peer(side)).pc > k
  {
    hide Inv, Dual, Healthy, Output, Core;
    CoreFacts(ps, side, k, w, v, xa, xb);
    if EndOf(w, step.side).pc < k {
      EarlyRead(ps, side, k, w, v, xa, xb, step.side);
    }
  }

  /** Unless the barrier's side comes to an end of its wait, the run stays a run of the matched part. */
  lemma CoreNext(ps: Scripts, side: Side, k: nat, w: World, v: World, xa: Text, xb: Text, step: Step)
    returns (v': World, xa': Text, xb': Text)
    requires Parts(ps, side, k) && Core(ps, side, k, w, v, xa, xb) && !step.Abort? && Apply(ps, w, step).Some?
    requires !Passes(w, Apply(ps, w, step).value, side, k) && !GivesUp(w, Apply(ps, w, step).value, side)
    ensures Core(ps, side, k, Apply(ps, w, step).value, v', xa', xb')
  {
    hide Inv, Dual, Healthy, Output, Core;
    v', xa', xb' := v, xa, xb;
    var a, b, q := EndOf(w, side), EndOf(w, Peer(side)), ScriptOf(ps, Peer(side));
    CoreFacts(ps, side, k, w, v, xa, xb);
    if step.Eof? {
      WhoMeetsTheEnd(ps, side, k, w, v, xa, xb, step);
    }
    if step.Read? && EndOf(w, step.side).pc < k {
      EarlyRead(ps, side, k, w, v, xa, xb, step.side);
    }
    if step.side == side {
      if a.pc < k {
        v' := BarrierEarly(ps, side, k, w, v, xa, xb, step);
      } else {
        xa' := BarrierAt(ps, side, k, w, v, xa, xb, step);
      }
    } else if b.pc < k {
      v' := OtherEarly(ps, side, k, w, v, xa, xb, step);
    } else if b.pc > k {
      xb' := OtherBeyond(ps, side, k, w, v, xa, xb, step);
    } else if MeetsRead(q, k) {
      xa' := OtherListens(ps, side, k, w, v, xa, xb, step);
    } else {
      xb' := OtherSpeaks(ps, side, k, w, v, xa, xb, step);
    }
  }

  /** The barrier's side gives up only at the end of the other script. */
  lemma GivesUpAtEnd(ps: Scripts, side: Side, k: nat, w: World, v: World, xa: Text, xb: Text, step: Step)
    requires Parts(ps, side, k) && Core(ps, side, k, w, v, xa, xb) && !step.Abort? && Apply(ps, w, step).Some?
    requires GivesUp(w, Apply(ps, w, step).value, side)
    ensures Ended(ps, side, k, Apply(ps, w, step).value)
  {
    hide Inv, Dual, Healthy, Output, Core, Parts, MeetsLine, MeetsRead;
    CoreFacts(ps, side, k, w, v, xa, xb);
    OnlyEofFails(ps, w, step, side);
    WhoMeetsTheEnd(ps, side, k, w, v, xa, xb, step);
  }

  lemma OnlyEofFails(ps: Scripts, w: World, step: Step, side: Side)
    requires !step.Abort? && Apply(ps, w, step).Some? && GivesUp(w, Apply(ps, w, step).value, side)
    ensures step.Eof? && step.side == side
    ensures Apply(ps, w, step).value == WithEnd(w, side, EndOf(w, side).(failed := true))
  {
    hide Output;
  }

  /** The barrier's side passes only by reading a byte, and the first one the other side wrote is a line's. */
  lemma PassesOnByte(ps: Scripts, side: Side, k: nat, w: World, v: World, xa: Text, xb: Text, step: Step)
    requires Parts(ps, side, k) && Core(ps, side, k, w, v, xa, xb) && !step.Abort? && Apply(ps, w, step).Some?
    requires Passes(w, Apply(ps, w, step).value, side, k) && Counted(ScriptOf(ps, side), EndOf(w, side))
    ensures Passed(ps, side, k, Apply(ps, w, step).value)
  {
    hide Inv, Dual, Healthy, Output, Core, MeetsLine, MeetsRead, DualIo;
    CoreFacts(ps, side, k, w, v, xa, xb);
    CoreAtK(ps, side, k, w, v, xa, xb);
    PassesByReading(ps, w, step, side, k);
  }

  lemma PassesByReading(ps: Scripts, w: World, step: Step, side: Side, k: nat)
    requires k < |ScriptOf(ps, side)| && ScriptOf(ps, side)[k].io.Sync?
    requires !step.Abort? && Apply(ps, w, step).Some? && Passes(w, Apply(ps, w, step).value, side, k)
    requires EndOf(w, side).pc == k ==> EndOf(w, side).acc == []
    ensures var e, to := EndOf(w, side), Incoming(w, side);
            && e.pc == k && to != []
            && EndOf(Apply(ps, w, step).value, side) == NextOp(e.(barriers := e.barriers + [to[0]]))
  {
    hide Output;
  }

  /** The barrier's side has not come to an end of its wait. */
  ghost predicate Open(ps: Scripts, side: Side, k: nat, w: World)
    requires Parts(ps, side, k)
  {
    exists v, xa, xb :: Core(ps, side, k, w, v, xa, xb)
  }

  lemma ReadCounted(p: Script, e: End, b: Octet)
    requires ReadyToRead(p, e) && Counted(p, e)
    ensures var e' := Consume(p, e, b); Counted(p, e') && e.pc <= e'.pc && e.barriers <= e'.barriers
  {
  }

  lemma WriteCounted(p: Script, e: End)
    requires CanWrite(p, e) && Counted(p, e)
    ensures var e' := WriteByte(p, e); Counted(p, e') && e.pc <= e'.pc && e.barriers == e'.barriers
  {
  }

  lemma LineCounted(p: Script, e: End)
    requires Running(p, e) && e.acc != [] && Counted(p, e)
    ensures var e' := NextOp(e.(inbox := e.inbox + [e.acc], cut := true));
            Counted(p, e') && e.pc <= e'.pc && e.barriers == e'.barriers
  {
  }

  lemma BarriersCounted(ps: Scripts, w: World, step: Step, side: Side)
    requires Counted(ScriptOf(ps, side), EndOf(w, side)) && Apply(ps, w, step).Some?
    ensures var e, e' := EndOf(w, side), EndOf(Apply(ps, w, step).value, side);
            Counted(ScriptOf(ps, side), e') && e.pc <= e'.pc && e.barriers <= e'.barriers
  {
    hide Consume, WriteByte, NextOp, Output, Syncs;
    var p, e := ScriptOf(ps, side), EndOf(w, side);
    if step.side == side {
      match step
      case Read(_) => ReadCounted(p, e, Incoming(w, side)[0]);
      case Write(_) => WriteCounted(p, e);
      case Eof(_, parsed) =>
        if e.acc != [] && parsed {
          LineCounted(p, e);
        }
      case _ =>
    }
  }

  lemma {:induction false} ExecBarriers(ps: Scripts, steps: seq<Step>, side: Side)
    requires Exec(ps, steps).Some?
    ensures Counted(ScriptOf(ps, side), EndOf(Exec(ps, steps).value, side))
  {
    if steps != [] {
      hide Apply, Counted;
      ExecBarriers(ps, steps[..|steps| - 1], side);
      BarriersCounted(ps, Exec(ps, steps[..|steps| - 1]).value, steps[|steps| - 1], side);
    }
  }

  lemma StartOpen(ps: Scripts, side: Side, k: nat)
    requires Parts(ps, side, k)
    ensures Open(ps, side, k, START)
  {
    MatchedIsDual(ps, side, k);
    StartInv(Matched(ps, k));
    OutputStarts(ScriptOf(ps, Peer(side)), k);
    assert [BARRIER][..0] == [];
    assert Core(ps, side, k, START, START, [], []);
  }

  /** Every run without aborts is in one of three states. */
  lemma {:induction false} ThreeStates(ps: Scripts, side: Side, k: nat, steps: seq<Step>)
    requires Parts(ps, side, k) && Exec(ps, steps).Some? && forall i :: 0 <= i < |steps| ==> !steps[i].Abort?
    ensures var w := Exec(ps, steps).value;
            Open(ps, side, k, w) || Ended(ps, side, k, w) || Passed(ps, side, k, w)
  {
    hide Apply, Core, Open, Ended, Passed, Parts, Counted;
    if steps == [] {
      StartOpen(ps, side, k);
    } else {
      var init, step := steps[..|steps| - 1], steps[|steps| - 1];
      ThreeStates(ps, side, k, init);
      ExecBarriers(ps, init, side);
      ThreeStatesNext(ps, side, k, Exec(ps, init).value, step);
    }
  }

  lemma ThreeStatesNext(ps: Scripts, side: Side, k: nat, w: World, step: Step)
    requires Parts(ps, side, k) && !step.Abort? && Apply(ps, w, step).Some?
    requires Counted(ScriptOf(ps, side), EndOf(w, side))
    requires Open(ps, side, k, w) || Ended(ps, side, k, w) || Passed(ps, side, k, w)
    ensures var w' := Apply(ps, w, step).value;
            Open(ps, side, k, w') || Ended(ps, side, k, w') || Passed(ps, side, k, w')
  {
    var w' := Apply(ps, w, step).value;
    if Open(ps, side, k, w) {
      hide Apply, Core, Counted, Passed, Ended;
      var v, xa, xb :| Core(ps, side, k, w, v, xa, xb);
      if Passes(w, w', side, k) {
        PassesOnByte(ps, side, k, w, v, xa, xb, step);
      } else if GivesUp(w, w', side) {
        GivesUpAtEnd(ps, side, k, w, v, xa, xb, step);
      } else {
        var v', xa', xb' := CoreNext(ps, side, k, w, v, xa, xb, step);
      }
    } else if Passed(ps, side, k, w) {
      BarriersCounted(ps, w, step, side);
    }
  }

  // ----- What becomes of the barrier -----

  /**
   * A barrier that meets a line read hangs both sides: in every run without aborts both are still running at
   * its end, however long it is carried on, and no run can be carried on for ever.
   */
  lemma HangsOnRead(ps: Scripts, side: Side, k: nat, steps: seq<Step>)
    requires Parts(ps, side, k) && MeetsRead(ScriptOf(ps, Peer(side)), k)
    requires Exec(ps, steps).Some? && forall i :: 0 <= i < |steps| ==> !steps[i].Abort?
    ensures var w := Exec(ps, steps).value; Running(ps.client, w.client) && Running(ps.server, w.server)
    ensures |steps| <= Remaining(ps.client, 0) + Remaining(ps.server, 0) + 2
  {
    hide Exec, Core, Remaining;
    ThreeStates(ps, side, k, steps);
    SessionsEnd(ps, steps);
    var w := Exec(ps, steps).value;
    var v, xa, xb :| Core(ps, side, k, w, v, xa, xb);
    CoreFacts(ps, side, k, w, v, xa, xb);
  }

  /** While the barrier's side is before exchange `k` or the other one is, the matched part can go on. */
  lemma MatchedGoesOn(ps: Scripts, side: Side, k: nat, w: World, v: World, xa: Text, xb: Text) returns (step: Step)
    requires Parts(ps, side, k) && Core(ps, side, k, w, v, xa, xb)
    requires EndOf(w, side).pc < k || EndOf(w, Peer(side)).pc < k
    ensures !step.Abort? && Apply(ps, w, step).Some?
  {
    hide Inv, Dual, Healthy, Output, Core, Apply, DualIo;
    CoreFacts(ps, side, k, w, v, xa, xb);
    CoreEnds(ps, side, k, w, v, xa, xb);
    step := Enabled(Matched(ps, k), v);
    NoEofInHealth(Matched(ps, k), v, step);
    SameStep(ps, k, w, v, step);
  }

  /** A step the matched part allows a side is allowed by the whole scripts. */
  lemma SameStep(ps: Scripts, k: nat, w: World, v: World, step: Step)
    requires k <= |ps.client| && k <= |ps.server| && Apply(Matched(ps, k), v, step).Some?
    requires !step.Eof? && (EndOf(v, step.side).pc < k ==> EndOf(v, step.side) == EndOf(w, step.side))
    requires step.Read? && EndOf(w, step.side).pc < k && Incoming(v, step.side) != [] ==> Incoming(w, step.side) != []
    ensures Apply(ps, w, step).Some?
  {
    hide Output;
    var x := step.side;
    assert EndOf(v, x).pc < k;
    assert ScriptOf(Matched(ps, k), x)[EndOf(w, x).pc] == ScriptOf(ps, x)[EndOf(w, x).pc];
  }

  lemma CoreEnds(ps: Scripts, side: Side, k: nat, w: World, v: World, xa: Text, xb: Text)
    requires Parts(ps, side, k) && Core(ps, side, k, w, v, xa, xb)
    ensures Dual(Matched(ps, k)) && Inv(Matched(ps, k), v) && Healthy(v)
    ensures EndOf(v, side) == Trim(EndOf(w, side), k)
    ensures EndOf(w, Peer(side)).pc <= k ==> EndOf(v, Peer(side)) == Trim(EndOf(w, Peer(side)), k)
    ensures EndOf(w, Peer(side)).pc > k ==> EndOf(v, Peer(side)).pc == k
  {
    hide Inv, Dual, Healthy, Output;
  }

  lemma NoEofInHealth(ps: Scripts, v: World, step: Step)
    requires Dual(ps) && Inv(ps, v) && Healthy(v) && !step.Abort? && Apply(ps, v, step).Some?
    ensures !step.Eof?
  {
    hide Inv, Dual;
    HealthyNext(ps, v, step);
  }

  /** With both sides at exchange `k` or later, an end or a line lets the barrier's side go on, or the other. */
  lemma BarrierGoesOn(ps: Scripts, side: Side, k: nat, w: World, v: World, xa: Text, xb: Text) returns (step: Step)
    requires Parts(ps, side, k) && Core(ps, side, k, w, v, xa, xb) && !MeetsRead(ScriptOf(ps, Peer(side)), k)
    requires EndOf(w, side).pc >= k && EndOf(w, Peer(side)).pc >= k
    ensures !step.Abort? && Apply(ps, w, step).Some?
  {
    hide Inv, Dual, Healthy;
    var p, q, a, b := ScriptOf(ps, side), ScriptOf(ps, Peer(side)), EndOf(w, side), EndOf(w, Peer(side));
    CoreFacts(ps, side, k, w, v, xa, xb);
    CoreAtK(ps, side, k, w, v, xa, xb);
    if a.acted < |p[k].before| {
      return Act(side);
    }
    if a.wrote == 0 {
      return Write(side);
    }
    if MeetsEnd(q, k) {
      return Eof(side, false);
    }
    if xb != [] {
      return Read(side);
    }
    if b.acted < |q[k].before| {
      return Act(Peer(side));
    }
    return Write(Peer(side));
  }

  lemma OpenGoesOn(ps: Scripts, side: Side, k: nat, w: World)
    requires Parts(ps, side, k) && Open(ps, side, k, w) && !MeetsRead(ScriptOf(ps, Peer(side)), k)
    ensures !Stuck(ps, w)
  {
    hide Core, Apply, Parts;
    var v, xa, xb :| Core(ps, side, k, w, v, xa, xb);
    var step: Step;
    if EndOf(w, side).pc < k || EndOf(w, Peer(side)).pc < k {
      step := MatchedGoesOn(ps, side, k, w, v, xa, xb);
    } else {
      step := BarrierGoesOn(ps, side, k, w, v, xa, xb);
    }
    assert Apply(ps, w, step).Some?;
  }

  /**
   * A barrier that meets the end of the other script fails: in no run without aborts is it passed, and a run
   * that cannot go on has ended with that side failed and the other done.
   */
  lemma FailsAtEnd(ps: Scripts, side: Side, k: nat, steps: seq<Step>)
    requires Parts(ps, side, k) && MeetsEnd(ScriptOf(ps, Peer(side)), k)
    requires Exec(ps, steps).Some? && forall i :: 0 <= i < |steps| ==> !steps[i].Abort?
    ensures var w := Exec(ps, steps).value;
            && EndOf(w, side).pc <= k
            && (Stuck(ps, w) ==> EndOf(w, side).failed && EndOf(w, side).pc == k
                                 && Finished(ScriptOf(ps, Peer(side)), EndOf(w, Peer(side)))
                                 && !EndOf(w, Peer(side)).failed)
  {
    hide Exec, Core, Stuck;
    ThreeStates(ps, side, k, steps);
    var w := Exec(ps, steps).value;
    if Open(ps, side, k, w) {
      OpenGoesOn(ps, side, k, w);
      var v, xa, xb :| Core(ps, side, k, w, v, xa, xb);
      CoreFacts(ps, side, k, w, v, xa, xb);
    }
  }

  /**
   * A barrier that meets a line is passed on the line's first byte, which is no barrier byte: no run without
   * aborts stops short of that, and what is read at the barrier is never anything else.
   */
  lemma PassesOnLine(ps: Scripts, side: Side, k: nat, steps: seq<Step>)
    requires Parts(ps, side, k) && MeetsLine(ScriptOf(ps, Peer(side)), k)
    requires Exec(ps, steps).Some? && forall i :: 0 <= i < |steps| ==> !steps[i].Abort?
    ensures var w := Exec(ps, steps).value;
            && (Stuck(ps, w) ==> EndOf(w, side).pc > k)
            && (EndOf(w, side).pc > k ==> Passed(ps, side, k, w)
                                          && EndOf(w, side).barriers[Syncs(ScriptOf(ps, side), k)] != BARRIER)
  {
    hide Exec, Core, Stuck;
    ThreeStates(ps, side, k, steps);
    var w := Exec(ps, steps).value;
    if Open(ps, side, k, w) {
      OpenGoesOn(ps, side, k, w);
      var v, xa, xb :| Core(ps, side, k, w, v, xa, xb);
      CoreFacts(ps, side, k, w, v, xa, xb);
    }
  }
}
