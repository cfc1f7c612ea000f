/**
 What the fins of an orderly end guarantee, over every run in which the local reads stop once a fin is due: each fin in
 flight stands after the last byte its writer ever reads, and a fin is never lost without the stream being cut.
 */
module TunnelFins {
  import opened Basics
  import opened TunnelCore
  import opened TunnelProtocol
  import opened TunnelInvariant
  import opened TunnelSafety

  /** `pumpLocal` has stopped, or stops before the fin is due: it buffers nothing more then. */
  predicate PumpStops(s: System, step: Step) {
    match step
    case LocalRead(x, _) => !s.ends.At(x).core.finQueued
    case _ => true
  }

  ghost predicate HasFin(q: seq<Packet>) { exists p :: p in q && p.frame.Fin? }

  /** Every fin of `q` was written when its writer had buffered `total` bytes. */
  ghost predicate FinsAt(q: seq<Packet>, total: nat) { forall p :: p in q && p.frame.Fin? ==> p.buffered == total }

  /** The fin that `p` wrote to the stream is still on its way to `e`, or was taken. */
  ghost predicate FinKept(e: Endpoint, p: Endpoint, h: Half, k: nat) {
    p.On(k) && p.core.finSent && !h.cut && (e.On(k) || h.gen.None?) ==> HasFin(h.inbox) || (e.On(k) && e.core.peerFin)
  }

  /** The fins from `p` to `e`. */
  ghost predicate FinsOk(e: Endpoint, p: Endpoint, he: seq<Half>) {
    && (e.core.peerFin ==> p.core.finQueued && e.core.finQueued && e.core.connDead && e.Taken() == |p.read|)
    && (p.core.finSent ==> p.core.finQueued && p.core.sendSent == p.core.End())
    && (forall k :: 0 <= k < |he| ==> FinsAt(he[k].inbox, |p.read|) && (HasFin(he[k].inbox) ==> p.core.finQueued))
    && (forall k :: 0 <= k < |he| ==> FinKept(e, p, he[k], k))
  }

  ghost predicate FinsToward(s: System, x: Side) { FinsOk(s.ends.At(x), s.ends.At(x.Other()), s.halves.At(x)) }

  ghost predicate Fins(s: System) { FinsToward(s, Client) && FinsToward(s, Server) }

  lemma InitFins()
    ensures Fins(Init())
  {
  }

  // ---- one direction, step by step ----

  /** `e` is where the fins arrive. Nothing of this direction moved but, perhaps, the flags that only ever rise. */
  lemma SameFins(e: Endpoint, p: Endpoint, e': Endpoint, p': Endpoint, he: seq<Half>, he': seq<Half>)
    requires FinsOk(e, p, he)
    requires e'.core.peerFin == e.core.peerFin && e'.Taken() == e.Taken()
    requires e.core.finQueued ==> e'.core.finQueued
    requires e.core.connDead ==> e'.core.connDead
    requires p.core.finQueued ==> p'.core.finQueued
    requires p'.read == p.read && p'.core.End() == p.core.End()
    requires p'.core.finSent ==> p.core.finSent && p'.core.sendSent == p.core.sendSent
    requires StaysOrLeaves(p, p') || !p'.core.finSent
    requires |he'| == |he|
    requires forall k :: 0 <= k < |he| ==> he'[k].inbox <= he[k].inbox && (he'[k].inbox == he[k].inbox || he'[k].cut)
    requires forall k :: 0 <= k < |he| ==> (he[k].cut ==> he'[k].cut)
    requires forall k :: 0 <= k < |he| && (e'.On(k) || he'[k].gen.None?) ==>
               (e.On(k) && e'.On(k)) || (he[k].gen.None? && !e.On(k))
    ensures FinsOk(e', p', he')
  {
    forall k | 0 <= k < |he|
      ensures FinsAt(he'[k].inbox, |p'.read|) && (HasFin(he'[k].inbox) ==> p'.core.finQueued)
      ensures FinKept(e', p', he'[k], k)
    {
      assert FinKept(e, p, he[k], k) && FinsAt(he[k].inbox, |p.read|);
      assert forall x :: x in he'[k].inbox ==> x in he[k].inbox;
    }
  }

  lemma ReadKeepsFins(e: Endpoint, p: Endpoint, p': Endpoint, he: seq<Half>, data: seq<byte>)
    requires FinsOk(e, p, he) && !p.core.finQueued
    requires p' == p.(core := PumpBytes(p.core, data), read := p.read + data)
    ensures FinsOk(e, p', he)
  {
    forall k | 0 <= k < |he|
      ensures FinsAt(he[k].inbox, |p'.read|)
    {
      assert !HasFin(he[k].inbox);
    }
  }

  lemma WriteKeepsFins(e: Endpoint, p: Endpoint, p': Endpoint, pkt: Packet, he: seq<Half>, hp: seq<Half>)
    requires FinsOk(e, p, he) && Direction(e, p, he, hp) && Generations(p, hp)
    requires p.core.stream.Some? && WriteOne(p.core).Wrote?
    requires p' == p.(core := WriteOne(p.core).core) && pkt == NextPacket(p)
    ensures var k := p.core.stream.value;
            FinsOk(e, p', if he[k].cut then he else he[k := he[k].(inbox := he[k].inbox + [pkt])])
  {
    var n := p.core.stream.value;
    var he' := if he[n].cut then he else he[n := he[n].(inbox := he[n].inbox + [pkt])];
    assert StreamOk(e, p, he[n], hp[n], n);
    WriteOneWrites(p);
    forall k | 0 <= k < |he'|
      ensures FinsAt(he'[k].inbox, |p'.read|) && (HasFin(he'[k].inbox) ==> p'.core.finQueued)
      ensures FinKept(e, p', he'[k], k)
    {
      assert FinKept(e, p, he[k], k) && FinsAt(he[k].inbox, |p.read|);
      if k == n && !he[n].cut { PushFin(he[n].inbox, pkt, |p.read|); }
    }
  }

  lemma PushFin(q: seq<Packet>, pkt: Packet, total: nat)
    requires FinsAt(q, total) && pkt.buffered == total
    ensures FinsAt(q + [pkt], total)
    ensures HasFin(q + [pkt]) <==> HasFin(q) || pkt.frame.Fin?
  {
    if HasFin(q) {
      var p :| p in q && p.frame.Fin?;
      assert p in q + [pkt];
    }
    if pkt.frame.Fin? { assert pkt in q + [pkt]; }
  }

  lemma PopFin(q: seq<Packet>, total: nat)
    requires q != [] && FinsAt(q, total)
    ensures FinsAt(q[1..], total)
    ensures HasFin(q[1..]) ==> HasFin(q)
    ensures !q[0].frame.Fin? && HasFin(q) ==> HasFin(q[1..])
  {
    assert q == [q[0]] + q[1..];
    if !q[0].frame.Fin? && HasFin(q) {
      var p :| p in q && p.frame.Fin?;
      assert p in q[1..];
    }
  }

  /** An end takes a frame: of what it counts as taken, nothing is beyond the last byte its peer read. */
  lemma TakeKeepsFins(e: Endpoint, p: Endpoint, e': Endpoint, he: seq<Half>, hp: seq<Half>, n: nat, wrote: nat)
    requires FinsOk(e, p, he) && Direction(e, p, he, hp)
    requires n < |he| && he[n].gen.Some? && he[n].inbox != []
    requires he[n].inbox[0].frame.Data? ==> e.applying.None? && wrote <= |he[n].inbox[0].frame.payload|
    requires he[n].inbox[0].frame.Fin? ==> e.applying.None?
    requires e' == Receive(e, he[n].gen.value, he[n].inbox[0].frame, wrote) && e'.Taken() <= |p.read|
    ensures FinsOk(e', p, he[n := Pop(he[n])])
  {
    var f := he[n].inbox[0];
    var he' := he[n := Pop(he[n])];
    assert StreamOk(e, p, he[n], hp[n], n);
    PopFin(he[n].inbox, |p.read|);
    assert f in he[n].inbox;
    assert FinsAt(he[n].inbox, |p.read|) && (f.frame.Fin? ==> HasFin(he[n].inbox));
    forall k | 0 <= k < |he'|
      ensures FinsAt(he'[k].inbox, |p.read|) && (HasFin(he'[k].inbox) ==> p.core.finQueued)
      ensures FinKept(e', p, he'[k], k)
    {
      assert FinKept(e, p, he[k], k) && FinsAt(he[k].inbox, |p.read|);
    }
  }

  lemma HelloKeepsFins(e: Endpoint, p: Endpoint, he: seq<Half>, h: Half)
    requires FinsOk(e, p, he) && h.inbox == [] && !p.On(|he|)
    ensures FinsOk(e, p, he + [h])
  {
    forall k | 0 <= k < |he| + 1
      ensures FinsAt((he + [h])[k].inbox, |p.read|) && (HasFin((he + [h])[k].inbox) ==> p.core.finQueued)
      ensures FinKept(e, p, (he + [h])[k], k)
    {
      if k < |he| { assert FinKept(e, p, he[k], k) && FinsAt(he[k].inbox, |p.read|); }
    }
  }

  // ---- whole steps ----

  /** The end that takes the fins only raised flags, counted what it had taken, or left its stream. */
  lemma TakerMoves(e: Endpoint, p: Endpoint, e': Endpoint, he: seq<Half>)
    requires FinsOk(e, p, he) && Generations(e, he) && StaysOrLeaves(e, e')
    requires e'.core.peerFin == e.core.peerFin && e'.Taken() == e.Taken()
    requires e.core.finQueued ==> e'.core.finQueued
    requires e.core.connDead ==> e'.core.connDead
    ensures FinsOk(e', p, he)
  {
    SameFins(e, p, e', p, he, he);
  }

  /** The end that writes the fins only raised flags, dropped what was acked, or left its stream. */
  lemma WriterMoves(e: Endpoint, p: Endpoint, p': Endpoint, he: seq<Half>)
    requires FinsOk(e, p, he) && Generations(e, he) && (StaysOrLeaves(p, p') || !p'.core.finSent)
    requires p.core.finQueued ==> p'.core.finQueued
    requires p'.read == p.read && p'.core.End() == p.core.End()
    requires p'.core.finSent ==> p.core.finSent && p'.core.sendSent == p.core.sendSent
    ensures FinsOk(e, p', he)
  {
    SameFins(e, p, e, p', he, he);
  }

  lemma BothDirections(s: System, x: Side)
    requires Inv(s) && Fins(s)
    ensures var e, p, he, hp := s.ends.At(x), s.ends.At(x.Other()), s.halves.At(x), s.halves.At(x.Other());
            && Direction(e, p, he, hp) && Direction(p, e, hp, he) && FinsOk(e, p, he) && FinsOk(p, e, hp)
  {
    assert Toward(s, x) && Toward(s, x.Other()) && FinsToward(s, x) && FinsToward(s, x.Other());
  }

  lemma TogetherFins(t: System, x: Side)
    requires FinsOk(t.ends.At(x), t.ends.At(x.Other()), t.halves.At(x))
    requires FinsOk(t.ends.At(x.Other()), t.ends.At(x), t.halves.At(x.Other()))
    ensures Fins(t)
  {
    assert FinsToward(t, x) && FinsToward(t, x.Other());
  }

  lemma LocalReadFins(s: System, x: Side, data: seq<byte>)
    requires Inv(s) && Fins(s) && Enabled(s, LocalRead(x, data)) && !s.ends.At(x).core.finQueued
    ensures Fins(Next(s, LocalRead(x, data)))
  {
    var t := Next(s, LocalRead(x, data));
    BothDirections(s, x);
    TakerMoves(s.ends.At(x), s.ends.At(x.Other()), t.ends.At(x), s.halves.At(x));
    ReadKeepsFins(s.ends.At(x.Other()), s.ends.At(x), t.ends.At(x), s.halves.At(x.Other()), data);
    TogetherFins(t, x);
  }

  /** Steps of one end that leave the streams alone and write nothing. */
  lemma LocalFins(s: System, x: Side, t: System)
    requires Inv(s) && Fins(s) && t.halves == s.halves && t.ends == s.ends.With(x, t.ends.At(x))
    requires var e, e' := s.ends.At(x), t.ends.At(x);
             && StaysOrLeaves(e, e') && e'.core.peerFin == e.core.peerFin && e'.Taken() == e.Taken()
             && (e.core.finQueued ==> e'.core.finQueued) && (e.core.connDead ==> e'.core.connDead)
             && e'.read == e.read && e'.core.End() == e.core.End()
             && e'.core.finSent == e.core.finSent && e'.core.sendSent == e.core.sendSent
    ensures Fins(t)
  {
    BothDirections(s, x);
    TakerMoves(s.ends.At(x), s.ends.At(x.Other()), t.ends.At(x), s.halves.At(x));
    WriterMoves(s.ends.At(x.Other()), s.ends.At(x), t.ends.At(x), s.halves.At(x.Other()));
    TogetherFins(t, x);
  }

  lemma WriteMoves(e: Endpoint)
    requires WriteOne(e.core).Wrote?
    ensures var c := WriteOne(e.core).core;
            && c.stream == e.core.stream && c.recv == e.core.recv && c.peerFin == e.core.peerFin
            && c.finQueued == e.core.finQueued && c.connDead == e.core.connDead
  {
  }

  lemma WriteFins(s: System, x: Side)
    requires Inv(s) && Fins(s) && Enabled(s, Write(x))
    ensures Fins(Next(s, Write(x)))
  {
    var t := Next(s, Write(x));
    var e, p, he, hp := s.ends.At(x), s.ends.At(x.Other()), s.halves.At(x), s.halves.At(x.Other());
    BothDirections(s, x);
    WriteMoves(e);
    var e' := e.(core := WriteOne(e.core).core);
    assert t.ends == s.ends.With(x, e') && t.halves.At(x) == he;
    TakerMoves(e, p, e', he);
    WriteKeepsFins(p, e, e', NextPacket(e), hp, he);
    TogetherFins(t, x);
  }

  lemma ReceiveMoves(e: Endpoint, gen: nat, f: Frame, wrote: nat)
    requires f.Data? ==> wrote <= |f.payload|
    ensures var e' := Receive(e, gen, f, wrote);
            && StaysOrLeaves(e, e') && (e.core.finQueued ==> e'.core.finQueued)
            && e'.read == e.read && e'.core.End() == e.core.End()
            && e'.core.finSent == e.core.finSent && e'.core.sendSent == e.core.sendSent
  {
  }

  lemma TakeBounded(s: System, x: Side, k: nat, wrote: nat)
    requires Inv(s) && Enabled(s, Take(x, k, wrote))
    ensures Next(s, Take(x, k, wrote)).ends.At(x).Taken() <= |s.ends.At(x.Other()).read|
  {
    var t := Next(s, Take(x, k, wrote));
    StepKeepsInv(s, Take(x, k, wrote));
    assert Toward(t, x);
    assert Delivered(t.ends.At(x), t.ends.At(x.Other()));
  }

  lemma TakeFins(s: System, x: Side, k: nat, wrote: nat)
    requires Inv(s) && Fins(s) && Enabled(s, Take(x, k, wrote))
    ensures Fins(Next(s, Take(x, k, wrote)))
  {
    var t := Next(s, Take(x, k, wrote));
    var e, h := s.ends.At(x), s.halves.At(x)[k];
    BothDirections(s, x);
    TakeBounded(s, x, k, wrote);
    ReceiveMoves(e, h.gen.value, h.inbox[0].frame, wrote);
    TakeKeepsFins(e, s.ends.At(x.Other()), t.ends.At(x), s.halves.At(x), s.halves.At(x.Other()), k, wrote);
    WriterMoves(s.ends.At(x.Other()), e, t.ends.At(x), s.halves.At(x.Other()));
    TogetherFins(t, x);
  }

  lemma CutKeepsFins(e: Endpoint, p: Endpoint, he: seq<Half>, k: nat, keep: nat)
    requires FinsOk(e, p, he) && Generations(e, he) && k < |he| && keep <= |he[k].inbox|
    ensures FinsOk(e, p, he[k := he[k].(inbox := he[k].inbox[..keep], cut := true)])
  {
    SameFins(e, p, e, p, he, he[k := he[k].(inbox := he[k].inbox[..keep], cut := true)]);
  }

  lemma LoseFins(s: System, x: Side, k: nat, keep: nat)
    requires Inv(s) && Fins(s) && Enabled(s, Lose(x, k, keep))
    ensures Fins(Next(s, Lose(x, k, keep)))
  {
    BothDirections(s, x);
    CutKeepsFins(s.ends.At(x), s.ends.At(x.Other()), s.halves.At(x), k, keep);
    TogetherFins(Next(s, Lose(x, k, keep)), x);
  }

  lemma HandshakeFins(s: System, step: Step)
    requires Inv(s) && Fins(s) && Enabled(s, step) && (step.Hello? || step.Reply?)
    ensures Fins(Next(s, step))
  {
    var t := Next(s, step);
    var c, v := s.ends.client, s.ends.server;
    assert Toward(s, Client) && Toward(s, Server) && FinsToward(s, Client) && FinsToward(s, Server);
    if step.Hello? {
      HelloKeepsFins(c, v, s.halves.client, Half(Some(c.core.recv), [], false, None));
      HelloKeepsFins(v, c, s.halves.server, Half(None, [], false, None));
    } else {
      SameFins(v, c, v, c, s.halves.server, t.halves.server);
    }
  }

  lemma AttachKeepsTaker(e: Endpoint, p: Endpoint, c: Core, he: seq<Half>, k: nat, peerRecv: nat)
    requires FinsOk(e, p, he) && Generations(e, he) && k < |he| && he[k].gen.None?
    requires Attach(e.core, k, peerRecv) == Attached(c)
    ensures FinsOk(e.(core := c), p, he[k := he[k].(gen := Some(c.gen))])
  {
    SameFins(e, p, e.(core := c), p, he, he[k := he[k].(gen := Some(c.gen))]);
  }

  lemma AttachKeepsWriter(e: Endpoint, p: Endpoint, c: Core, he: seq<Half>, k: nat, peerRecv: nat)
    requires FinsOk(e, p, he) && Generations(e, he) && Attach(p.core, k, peerRecv) == Attached(c)
    ensures FinsOk(e, p.(core := c), he)
  {
    WriterMoves(e, p, p.(core := c), he);
  }

  lemma AttachedFins(s: System, x: Side, k: nat, c: Core)
    requires Inv(s) && Fins(s) && Enabled(s, AttachStep(x, k))
    requires Attach(s.ends.At(x).core, k, PeerRecv(s, x, k).value) == Attached(c)
    ensures Fins(Next(s, AttachStep(x, k)))
  {
    var e, p := s.ends.At(x), s.ends.At(x.Other());
    BothDirections(s, x);
    AttachKeepsTaker(e, p, c, s.halves.At(x), k, PeerRecv(s, x, k).value);
    AttachKeepsWriter(p, e, c, s.halves.At(x.Other()), k, PeerRecv(s, x, k).value);
    TogetherFins(Next(s, AttachStep(x, k)), x);
  }

  lemma AttachFins(s: System, x: Side, k: nat)
    requires Inv(s) && Fins(s) && Enabled(s, AttachStep(x, k))
    ensures Fins(Next(s, AttachStep(x, k)))
  {
    var result := Attach(s.ends.At(x).core, k, PeerRecv(s, x, k).value);
    if result.Attached? {
      AttachedFins(s, x, k, result.core);
    } else {
      LocalFins(s, x, Next(s, AttachStep(x, k)));
    }
  }

  lemma FinishFins(s: System, x: Side)
    requires Inv(s) && Fins(s) && Enabled(s, Finish(x))
    ensures Fins(Next(s, Finish(x)))
  {
    LocalFins(s, x, Next(s, Finish(x)));
  }

  lemma QuietFins(s: System, step: Step)
    requires Inv(s) && Fins(s) && Enabled(s, step)
    requires step.LocalEnd? || step.Finish? || step.DetachStep? || step.Close?
    ensures Fins(Next(s, step))
  {
    match step {
      case LocalEnd(x) => LocalFins(s, x, Next(s, step));
      case Finish(x) => FinishFins(s, x);
      case DetachStep(x) => LocalFins(s, x, Next(s, step));
      case Close(x) => LocalFins(s, x, Next(s, step));
    }
  }

  lemma StepKeepsFins(s: System, step: Step)
    requires Inv(s) && Fins(s) && Enabled(s, step) && PumpStops(s, step)
    ensures Fins(Next(s, step))
  {
    match step {
      case LocalRead(x, data) => LocalReadFins(s, x, data);
      case Write(x) => WriteFins(s, x);
      case Take(x, k, wrote) => TakeFins(s, x, k, wrote);
      case Lose(x, k, keep) => LoseFins(s, x, k, keep);
      case Hello => HandshakeFins(s, step);
      case Reply(_) => HandshakeFins(s, step);
      case AttachStep(x, k) => AttachFins(s, x, k);
      case LocalEnd(_) => QuietFins(s, step);
      case Finish(_) => QuietFins(s, step);
      case DetachStep(_) => QuietFins(s, step);
      case Close(_) => QuietFins(s, step);
    }
  }

  /** A fenced run in which the local reads stop once a fin is due. */
  ghost predicate OrderlyRun(s: System, steps: seq<Step>, t: System)
    decreases |steps|
  {
    Sized(s) &&
    if steps == [] then s == t
    else Enabled(s, steps[0]) && Fenced(s, steps[0]) && PumpStops(s, steps[0])
         && OrderlyRun(Next(s, steps[0]), steps[1..], t)
  }

  lemma {:induction false} RunKeepsFins(s: System, steps: seq<Step>, t: System)
    requires Inv(s) && Fins(s) && OrderlyRun(s, steps, t)
    ensures Inv(t) && Fins(t)
    decreases |steps|
  {
    if steps == [] {
    } else {
      StepKeepsInv(s, steps[0]);
      StepKeepsFins(s, steps[0]);
      RunKeepsFins(Next(s, steps[0]), steps[1..], t);
    }
  }
}
