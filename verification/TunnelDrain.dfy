/** An attached tunnel that is left alone drains: a measure bounds the steps, and when none is left all is delivered
    and acked. */
module TunnelDrain {
  import opened Basics
  import opened TunnelCore
  import opened TunnelProtocol
  import opened TunnelInvariant
  import opened TunnelSafety

  /** Both ends are on stream `k` and nothing of it is lost. */
  ghost predicate Connected(s: System, k: nat) {
    && Inv(s) && k < |s.halves.client|
    && s.ends.client.On(k) && s.ends.server.On(k)
    && !s.halves.client[k].cut && !s.halves.server[k].cut
  }

  /** The loops at work, without new input, breaks or handshakes. */
  predicate IsDrain(step: Step, k: nat) {
    step.Write? || step.Finish? || (step.Take? && step.k == k)
  }

  function PacketWeight(p: Packet): nat { if p.frame.Data? then 4 else 1 }

  function QueueWeight(q: seq<Packet>): nat {
    if q == [] then 0 else PacketWeight(q[0]) + QueueWeight(q[1..])
  }

  /** An unsent byte weighs more than the frame it becomes, a frame more than the apply, the apply more than the ack
      it causes, and that more than the ack in flight. */
  function EndWeight(e: Endpoint): nat {
    (if e.core.sendSent < e.core.End() then 5 * (e.core.End() - e.core.sendSent) else 0)
    + (if e.applying.Some? then 3 else 0)
    + (if e.core.recv > e.core.ackSent then 2 else 0)
    + (if e.core.finSent then 0 else 2)
  }

  function Weight(s: System, k: nat): nat
    requires Sized(s) && k < |s.halves.client|
  {
    EndWeight(s.ends.client) + QueueWeight(s.halves.client[k].inbox)
    + EndWeight(s.ends.server) + QueueWeight(s.halves.server[k].inbox)
  }

  lemma {:induction false} QueueWeightAppend(q: seq<Packet>, p: Packet)
    ensures QueueWeight(q + [p]) == QueueWeight(q) + PacketWeight(p)
  {
    if q == [] {
      assert q + [p] == [p] && [p][1..] == [];
    } else {
      assert (q + [p])[1..] == q[1..] + [p];
      QueueWeightAppend(q[1..], p);
    }
  }

  lemma WriteLightens(e: Endpoint)
    requires WriteOne(e.core).Wrote?
    ensures EndWeight(e.(core := WriteOne(e.core).core))
            + PacketWeight(Packet(WriteOne(e.core).frame, |e.read|, e.readEnded))
            < EndWeight(e)
  {
  }

  lemma ReceiveLightens(e: Endpoint, gen: nat, p: Packet, wrote: nat)
    requires p.frame.Data? ==> e.applying.None? && wrote <= |p.frame.payload|
    ensures EndWeight(Receive(e, gen, p.frame, wrote)) < EndWeight(e) + PacketWeight(p)
  {
  }

  /** Neither end is attached to any other stream. */
  ghost predicate OnlyOn(s: System, k: nat) {
    && Sized(s) && k < |s.halves.client|
    && (s.ends.client.core.stream.None? || s.ends.client.On(k))
    && (s.ends.server.core.stream.None? || s.ends.server.On(k))
  }

  lemma WriteStepLightens(s: System, k: nat, x: Side)
    requires OnlyOn(s, k) && Enabled(s, Write(x))
    ensures OnlyOn(Next(s, Write(x)), k) && Weight(Next(s, Write(x)), k) < Weight(s, k)
  {
    var e := s.ends.At(x);
    var pkt := Packet(WriteOne(e.core).frame, |e.read|, e.readEnded);
    assert WriteOne(e.core).core.stream == e.core.stream;
    WriteLightens(e);
    QueueWeightAppend(s.halves.At(x.Other())[k].inbox, pkt);
  }

  lemma TakeStepLightens(s: System, k: nat, x: Side, wrote: nat)
    requires OnlyOn(s, k) && Enabled(s, Take(x, k, wrote))
    ensures OnlyOn(Next(s, Take(x, k, wrote)), k) && Weight(Next(s, Take(x, k, wrote)), k) < Weight(s, k)
  {
    var e, h := s.ends.At(x), s.halves.At(x)[k];
    var e' := Receive(e, h.gen.value, h.inbox[0].frame, wrote);
    assert e'.core.stream == e.core.stream || e'.core.stream.None?;
    ReceiveLightens(e, h.gen.value, h.inbox[0], wrote);
  }

  lemma FinishStepLightens(s: System, k: nat, x: Side)
    requires OnlyOn(s, k) && Enabled(s, Finish(x))
    ensures OnlyOn(Next(s, Finish(x)), k) && Weight(Next(s, Finish(x)), k) < Weight(s, k)
  {
    FinishLightens(s.ends.At(x));
    var t := Next(s, Finish(x));
    assert t.halves == s.halves && t.ends.At(x.Other()) == s.ends.At(x.Other());
  }

  lemma FinishLightens(e: Endpoint)
    requires e.applying.Some?
    ensures var c := FinishApply(e.core, |e.applying.value.payload|, e.applying.value.failed);
            c.stream == e.core.stream && EndWeight(e.(core := c, applying := None)) < EndWeight(e)
  {
  }

  lemma DrainStepLightens(s: System, k: nat, step: Step)
    requires OnlyOn(s, k) && Enabled(s, step) && IsDrain(step, k)
    ensures OnlyOn(Next(s, step), k) && Weight(Next(s, step), k) < Weight(s, k)
  {
    match step {
      case Write(x) => WriteStepLightens(s, k, x);
      case Take(x, _, wrote) => TakeStepLightens(s, k, x, wrote);
      case Finish(x) => FinishStepLightens(s, k, x);
    }
  }

  /** A run of drain steps; it may close a session, by a second fin, only as its last step. */
  ghost predicate DrainRun(s: System, k: nat, steps: seq<Step>, t: System)
    decreases |steps|
  {
    Sized(s) &&
    if steps == [] then s == t
    else
      && Connected(s, k) && Enabled(s, steps[0]) && IsDrain(steps[0], k)
      && DrainRun(Next(s, steps[0]), k, steps[1..], t)
  }

  /** No run of the loops alone is longer than the weight of its first state. */
  lemma {:induction false} DrainEnds(s: System, k: nat, steps: seq<Step>, t: System)
    requires DrainRun(s, k, steps, t) && k < |s.halves.client|
    ensures |steps| <= Weight(s, k)
    decreases |steps|
  {
    if steps == [] {
    } else {
      DrainStepLightens(s, k, steps[0]);
      DrainEnds(Next(s, steps[0]), k, steps[1..], t);
    }
  }

  ghost predicate Quiescent(s: System, k: nat)
    requires Sized(s)
  {
    forall step: Step :: IsDrain(step, k) ==> !Enabled(s, step)
  }

  lemma QuietSide(s: System, k: nat, x: Side)
    requires Connected(s, k) && Quiescent(s, k)
    ensures s.halves.At(x)[k].inbox == [] && s.ends.At(x).applying.None? && !s.ends.At(x).core.HasWork()
  {
    assert IsDrain(Finish(x), k) && IsDrain(Take(x, k, 0), k) && IsDrain(Write(x), k);
    assert !Enabled(s, Finish(x));
    assert !Enabled(s, Take(x, k, 0));
    assert !Enabled(s, Write(x));
    var p, e := s.ends.At(x), s.ends.At(x.Other());
    assert Toward(s, x) && Toward(s, x.Other());
    assert StreamOk(e, p, s.halves.At(x.Other())[k], s.halves.At(x)[k], k);
  }

  /** When the loops have nothing left to do, each end has everything the other read, and every buffer is empty. */
  lemma DrainDeliversAll(s: System, k: nat, x: Side)
    requires Connected(s, k) && Quiescent(s, k)
    ensures s.ends.At(x).core.sendBuf == []
    ensures s.ends.At(x.Other()).core.recv == s.ends.At(x.Other()).core.ackSent == |s.ends.At(x).read|
    ensures !s.ends.At(x.Other()).core.connDead ==> s.ends.At(x.Other()).written == s.ends.At(x).read
  {
    QuietSide(s, k, x);
    QuietSide(s, k, x.Other());
    var p, e := s.ends.At(x), s.ends.At(x.Other());
    assert Toward(s, x) && Toward(s, x.Other());
    assert Direction(e, p, s.halves.At(x.Other()), s.halves.At(x));
    assert StreamOk(e, p, s.halves.At(x.Other())[k], s.halves.At(x)[k], k);
  }

  /** The end that acts stays on its stream, unless it closes. */
  lemma EndStays(s: System, k: nat, step: Step)
    requires Connected(s, k) && Enabled(s, step) && IsDrain(step, k)
    ensures Next(s, step).ends.At(step.side).On(k) || Next(s, step).ends.At(step.side).core.closed
  {
    var e := s.ends.At(step.side);
    match step {
      case Write(_) => assert WriteOne(e.core).core.stream == e.core.stream;
      case Take(x, _, wrote) =>
        var h := s.halves.At(x)[k];
        var e' := Receive(e, h.gen.value, h.inbox[0].frame, wrote);
        assert e'.On(k) || e'.core.closed;
      case Finish(_) =>
    }
  }

  lemma DrainStepStays(s: System, k: nat, step: Step)
    requires Connected(s, k) && Enabled(s, step) && IsDrain(step, k)
    ensures Connected(Next(s, step), k) || Next(s, step).ends.client.core.closed
            || Next(s, step).ends.server.core.closed
  {
    StepKeepsInv(s, step);
    EndStays(s, k, step);
    var t := Next(s, step);
    assert t.ends.At(step.side.Other()) == s.ends.At(step.side.Other());
    assert |t.halves.client| == |s.halves.client|;
    assert t.halves.client[k].cut == s.halves.client[k].cut && t.halves.server[k].cut == s.halves.server[k].cut;
  }

  /** Left alone, a connected tunnel gets there: it ends with both directions delivered and acked, or closed by the
      fins. */
  lemma {:induction false} DrainCompletes(s: System, k: nat) returns (steps: seq<Step>, t: System)
    requires Connected(s, k)
    ensures DrainRun(s, k, steps, t)
    ensures t.ends.client.core.closed || t.ends.server.core.closed || (Connected(t, k) && Quiescent(t, k))
    decreases Weight(s, k)
  {
    if Quiescent(s, k) {
      steps, t := [], s;
    } else {
      var step: Step :| IsDrain(step, k) && Enabled(s, step);
      DrainStepLightens(s, k, step);
      DrainStepStays(s, k, step);
      var m := Next(s, step);
      var rest := [];
      t := m;
      if Connected(m, k) {
        rest, t := DrainCompletes(m, k);
      }
      steps := [step] + rest;
      assert steps[1..] == rest;
    }
  }
}
