/**
 How a session ends: the loops of both ends run on past the first close by the fins, until both ends are closed and each
 has all that the other read. What a loss after the first close cuts off is said exactly.
 */
module TunnelClose {
  import opened Basics
  import opened TunnelCore
  import opened TunnelProtocol
  import opened TunnelInvariant
  import opened TunnelSafety
  import opened TunnelTheorems
  import opened TunnelDrain
  import opened TunnelFins

  /** The loops at work, the write loop's own shutdown after its fin among them. */
  predicate IsLoop(s: System, step: Step, k: nat) {
    match step
    case Close(x) => var c := s.ends.At(x).core; c.finSent && c.peerFin && !c.closed
    case _ => IsDrain(step, k)
  }

  /** An open end is on stream `k`; a closed one has had the peer's fin and sent its own, and left all it had on its
      way. */
  ghost predicate EndingSide(e: Endpoint, p: Endpoint, h: Half, k: nat) {
    && (e.core.closed ==> e.core.peerFin && e.core.finSent && e.core.stream.None?)
    && (!e.core.closed ==> e.On(k) && !h.cut)
    && (!e.core.closed && p.core.closed ==> Left(e, p, h))
  }

  ghost predicate Left(e: Endpoint, p: Endpoint, h: Half) {
    EndOffset(h.inbox, e.Taken()) == |p.read| && (e.core.peerFin || HasFin(h.inbox))
  }

  ghost predicate Ending(s: System, k: nat) {
    && Inv(s) && Fins(s) && k < |s.halves.client|
    && EndingSide(s.ends.client, s.ends.server, s.halves.client[k], k)
    && EndingSide(s.ends.server, s.ends.client, s.halves.server[k], k)
  }

  lemma ConnectedIsEnding(s: System, k: nat)
    requires Connected(s, k) && Fins(s)
    ensures Ending(s, k)
  {
    assert Toward(s, Client) && Toward(s, Server);
  }

  // ---- each step keeps it ----

  /** An end that has sent its fin has all of its bytes in front of its peer, and the fin behind them. */
  lemma FinLeavesAll(s: System, k: nat, x: Side)
    requires Ending(s, k) && !s.ends.At(x).core.closed && s.ends.At(x).core.finSent
    requires !s.ends.At(x.Other()).core.closed
    ensures Left(s.ends.At(x.Other()), s.ends.At(x), s.halves.At(x.Other())[k])
  {
    var e, p := s.ends.At(x.Other()), s.ends.At(x);
    var he, hp := s.halves.At(x.Other()), s.halves.At(x);
    BothDirections(s, x);
    assert StreamOk(e, p, he[k], hp[k], k) && FinKept(e, p, he[k], k);
  }

  /** The attached end's read loop is of the current generation. */
  lemma Accepted(s: System, k: nat, x: Side)
    requires Ending(s, k) && !s.ends.At(x).core.closed
    ensures s.halves.At(x)[k].gen == Some(s.ends.At(x).core.gen)
  {
    BothDirections(s, x);
  }

  lemma TakeLeaves(e: Endpoint, p: Endpoint, h: Half, k: nat, wrote: nat)
    requires Left(e, p, h) && e.On(k) && !e.core.closed && h.gen == Some(e.core.gen) && h.inbox != []
    requires h.inbox[0].frame.Data? ==> e.applying.None? && wrote <= |h.inbox[0].frame.payload|
    ensures var e' := Receive(e, h.gen.value, h.inbox[0].frame, wrote);
            Left(e', p, Pop(h))
  {
    PopAny(h.inbox);
  }

  lemma PopAny(q: seq<Packet>)
    requires q != []
    ensures !q[0].frame.Fin? && HasFin(q) ==> HasFin(q[1..])
  {
    assert q == [q[0]] + q[1..];
    if !q[0].frame.Fin? && HasFin(q) {
      var p :| p in q && p.frame.Fin?;
      assert p in q[1..];
    }
  }

  lemma TakeSide(e: Endpoint, p: Endpoint, h: Half, k: nat, wrote: nat)
    requires EndingSide(e, p, h, k) && h.gen.Some? && h.inbox != []
    requires !e.core.closed ==> h.gen == Some(e.core.gen)
    requires h.inbox[0].frame.Data? ==> e.applying.None? && wrote <= |h.inbox[0].frame.payload|
    ensures EndingSide(Receive(e, h.gen.value, h.inbox[0].frame, wrote), p, Pop(h), k)
  {
    if !e.core.closed && p.core.closed { TakeLeaves(e, p, h, k, wrote); }
  }

  /** When an end closes on the fin it takes, all it had is before its peer. */
  lemma PeerOfTaker(s: System, k: nat, x: Side, e': Endpoint)
    requires Ending(s, k) && e'.read == s.ends.At(x).read
    requires !s.ends.At(x).core.closed && e'.core.closed ==> s.ends.At(x).core.finSent
    requires s.ends.At(x).core.closed ==> e'.core.closed
    ensures EndingSide(s.ends.At(x.Other()), e', s.halves.At(x.Other())[k], k)
  {
    var p := s.ends.At(x.Other());
    if e'.core.closed && !s.ends.At(x).core.closed && !p.core.closed {
      FinLeavesAll(s, k, x);
    }
  }

  lemma ReceiveCloses(e: Endpoint, gen: nat, f: Frame, wrote: nat)
    requires f.Data? ==> wrote <= |f.payload|
    ensures var e' := Receive(e, gen, f, wrote);
            && e'.read == e.read && (e.core.closed ==> e'.core.closed)
            && (!e.core.closed && e'.core.closed ==> e.core.finSent)
  {
  }

  lemma TakeEnding(s: System, k: nat, x: Side, wrote: nat)
    requires Ending(s, k) && Enabled(s, Take(x, k, wrote)) && Inv(Next(s, Take(x, k, wrote)))
    requires Fins(Next(s, Take(x, k, wrote)))
    ensures Ending(Next(s, Take(x, k, wrote)), k)
  {
    var t := Next(s, Take(x, k, wrote));
    var e, h := s.ends.At(x), s.halves.At(x)[k];
    if !e.core.closed { Accepted(s, k, x); }
    TakeSide(e, s.ends.At(x.Other()), h, k, wrote);
    ReceiveCloses(e, h.gen.value, h.inbox[0].frame, wrote);
    PeerOfTaker(s, k, x, t.ends.At(x));
    EndingSides(t, k, x);
  }

  /** An end that took nothing and did not close. */
  lemma SameSide(e: Endpoint, p: Endpoint, e': Endpoint, h: Half, k: nat)
    requires EndingSide(e, p, h, k)
    requires e'.core.stream == e.core.stream && e'.core.closed == e.core.closed && e'.Taken() == e.Taken()
    requires e'.core.peerFin == e.core.peerFin && (e.core.finSent ==> e'.core.finSent)
    ensures EndingSide(e', p, h, k)
  {
  }

  /** The peer did not close, and what it may have written was added to what is on its way. */
  lemma SamePeer(e: Endpoint, p: Endpoint, p': Endpoint, h: Half, h': Half, k: nat)
    requires EndingSide(e, p, h, k) && h'.cut == h.cut
    requires p'.core.closed == p.core.closed && p'.read == p.read && (p.core.closed ==> h' == h)
    ensures EndingSide(e, p', h', k)
  {
  }

  /** `x` took nothing and did not close, and its peer did not move; `x` may have written. */
  ghost predicate OnlySends(s: System, t: System, k: nat, x: Side) {
    && k < |s.halves.client| && k < |s.halves.server| && k < |t.halves.client| && k < |t.halves.server|
    && var e, e' := s.ends.At(x), t.ends.At(x);
    && e'.core.stream == e.core.stream && e'.core.closed == e.core.closed && e'.Taken() == e.Taken()
    && e'.core.peerFin == e.core.peerFin && (e.core.finSent ==> e'.core.finSent) && e'.read == e.read
    && t.ends.At(x.Other()) == s.ends.At(x.Other()) && t.halves.At(x)[k] == s.halves.At(x)[k]
    && t.halves.At(x.Other())[k].cut == s.halves.At(x.Other())[k].cut
    && (e.core.closed ==> t.halves.At(x.Other())[k] == s.halves.At(x.Other())[k])
  }

  lemma SendingKeepsEnding(s: System, t: System, k: nat, x: Side)
    requires Ending(s, k) && Inv(t) && Fins(t) && OnlySends(s, t, k, x)
    ensures Ending(t, k)
  {
    var y := x.Other();
    SameSide(s.ends.At(x), s.ends.At(y), t.ends.At(x), s.halves.At(x)[k], k);
    SamePeer(s.ends.At(y), s.ends.At(x), t.ends.At(x), s.halves.At(y)[k], t.halves.At(y)[k], k);
    EndingSides(t, k, x);
  }

  lemma WriteOnlySends(s: System, k: nat, x: Side)
    requires Sized(s) && Enabled(s, Write(x)) && k < |s.halves.client|
    ensures OnlySends(s, Next(s, Write(x)), k, x)
  {
    WriteMoves(s.ends.At(x));
  }

  lemma FinishOnlySends(s: System, k: nat, x: Side)
    requires Sized(s) && Enabled(s, Finish(x)) && k < |s.halves.client|
    ensures OnlySends(s, Next(s, Finish(x)), k, x)
  {
  }

  lemma EndingSides(t: System, k: nat, x: Side)
    requires Inv(t) && Fins(t) && k < |t.halves.client|
    requires EndingSide(t.ends.At(x), t.ends.At(x.Other()), t.halves.At(x)[k], k)
    requires EndingSide(t.ends.At(x.Other()), t.ends.At(x), t.halves.At(x.Other())[k], k)
    ensures Ending(t, k)
  {
  }

  lemma CloseEnding(s: System, k: nat, x: Side)
    requires Ending(s, k) && IsLoop(s, Close(x), k) && Inv(Next(s, Close(x))) && Fins(Next(s, Close(x)))
    ensures Ending(Next(s, Close(x)), k)
  {
    var t := Next(s, Close(x));
    var p := s.ends.At(x.Other());
    if !p.core.closed { FinLeavesAll(s, k, x); }
    assert EndingSide(t.ends.At(x), p, t.halves.At(x)[k], k);
    assert EndingSide(p, t.ends.At(x), t.halves.At(x.Other())[k], k);
  }

  lemma LoopKeepsInvariants(s: System, k: nat, step: Step)
    requires Inv(s) && Fins(s) && Enabled(s, step) && IsLoop(s, step, k)
    ensures Inv(Next(s, step)) && Fins(Next(s, step))
  {
    StepKeepsInv(s, step);
    StepKeepsFins(s, step);
  }

  lemma WriteEnding(s: System, k: nat, x: Side)
    requires Ending(s, k) && Enabled(s, Write(x)) && Inv(Next(s, Write(x))) && Fins(Next(s, Write(x)))
    ensures Ending(Next(s, Write(x)), k)
  {
    WriteOnlySends(s, k, x);
    SendingKeepsEnding(s, Next(s, Write(x)), k, x);
  }

  lemma FinishEnding(s: System, k: nat, x: Side)
    requires Ending(s, k) && Enabled(s, Finish(x)) && Inv(Next(s, Finish(x))) && Fins(Next(s, Finish(x)))
    ensures Ending(Next(s, Finish(x)), k)
  {
    FinishOnlySends(s, k, x);
    SendingKeepsEnding(s, Next(s, Finish(x)), k, x);
  }

  lemma SendStepEnding(s: System, k: nat, step: Step)
    requires Ending(s, k) && Enabled(s, step) && (step.Write? || step.Finish?)
    requires Inv(Next(s, step)) && Fins(Next(s, step))
    ensures Ending(Next(s, step), k)
  {
    if step.Write? {
      WriteEnding(s, k, step.side);
    } else {
      FinishEnding(s, k, step.side);
    }
  }

  lemma MoveStepEnding(s: System, k: nat, step: Step)
    requires Ending(s, k) && Enabled(s, step) && IsLoop(s, step, k) && (step.Take? || step.Close?)
    requires Inv(Next(s, step)) && Fins(Next(s, step))
    ensures Ending(Next(s, step), k)
  {
    if step.Take? {
      TakeEnding(s, k, step.side, step.wrote);
    } else {
      CloseEnding(s, k, step.side);
    }
  }

  lemma StepKeepsEnding(s: System, k: nat, step: Step)
    requires Ending(s, k) && Enabled(s, step) && IsLoop(s, step, k)
    ensures Ending(Next(s, step), k)
  {
    LoopKeepsInvariants(s, k, step);
    if step.Take? || step.Close? {
      MoveStepEnding(s, k, step);
    } else {
      SendStepEnding(s, k, step);
    }
  }

  // ---- runs of the loops ----

  ghost predicate LoopRun(s: System, k: nat, steps: seq<Step>, t: System)
    decreases |steps|
  {
    Sized(s) &&
    if steps == [] then s == t
    else Enabled(s, steps[0]) && IsLoop(s, steps[0], k) && LoopRun(Next(s, steps[0]), k, steps[1..], t)
  }

  lemma {:induction false} LoopsKeepEnding(s: System, k: nat, steps: seq<Step>, t: System)
    requires Ending(s, k) && LoopRun(s, k, steps, t)
    ensures Ending(t, k)
    decreases |steps|
  {
    if steps == [] {
    } else {
      StepKeepsEnding(s, k, steps[0]);
      LoopsKeepEnding(Next(s, steps[0]), k, steps[1..], t);
    }
  }

  function LoopWeight(s: System, k: nat): nat
    requires Sized(s) && k < |s.halves.client|
  {
    Weight(s, k) + (if s.ends.client.core.closed then 0 else 1) + (if s.ends.server.core.closed then 0 else 1)
  }

  lemma CloseLightens(s: System, k: nat, x: Side)
    requires Sized(s) && k < |s.halves.client| && !s.ends.At(x).core.closed
    ensures LoopWeight(Next(s, Close(x)), k) < LoopWeight(s, k)
  {
    assert EndWeight(Next(s, Close(x)).ends.At(x)) == EndWeight(s.ends.At(x));
  }

  /** A closed end stays closed. */
  lemma StaysClosed(s: System, step: Step, x: Side)
    requires Sized(s) && Enabled(s, step) && s.ends.At(x).core.closed && !step.AttachStep?
    ensures Next(s, step).ends.At(x).core.closed
  {
    match step {
      case Write(y) => assert WriteOne(s.ends.At(y).core).core.closed == s.ends.At(y).core.closed;
      case Take(y, k, wrote) =>
        var e, h := s.ends.At(y), s.halves.At(y)[k];
        assert e.core.closed ==> Receive(e, h.gen.value, h.inbox[0].frame, wrote).core.closed;
      case _ =>
    }
  }

  lemma LoopStepLightens(s: System, k: nat, step: Step)
    requires Ending(s, k) && Enabled(s, step) && IsLoop(s, step, k)
    ensures Sized(Next(s, step)) && k < |Next(s, step).halves.client| && LoopWeight(Next(s, step), k) < LoopWeight(s, k)
  {
    if step.Close? {
      CloseLightens(s, k, step.side);
    } else {
      DrainStepLightens(s, k, step);
      if s.ends.client.core.closed { StaysClosed(s, step, Client); }
      if s.ends.server.core.closed { StaysClosed(s, step, Server); }
    }
  }

  /** No run of the loops is longer than the weight of its first state. */
  lemma {:induction false} LoopsEnd(s: System, k: nat, steps: seq<Step>, t: System)
    requires Ending(s, k) && LoopRun(s, k, steps, t)
    ensures |steps| <= LoopWeight(s, k)
    decreases |steps|
  {
    if steps == [] {
    } else {
      LoopStepLightens(s, k, steps[0]);
      StepKeepsEnding(s, k, steps[0]);
      LoopsEnd(Next(s, steps[0]), k, steps[1..], t);
    }
  }

  /** No loop of either end can go on. */
  ghost predicate AtRest(s: System, k: nat)
    requires Sized(s)
  {
    forall step: Step :: IsLoop(s, step, k) ==> !Enabled(s, step)
  }

  // ---- at rest ----

  lemma RestSide(s: System, k: nat, x: Side)
    requires Ending(s, k) && AtRest(s, k)
    ensures s.ends.At(x).applying.None? && s.ends.At(x).core.recv == s.ends.At(x).Taken()
    ensures !s.ends.At(x).core.closed ==> s.halves.At(x)[k].inbox == []
    ensures s.ends.At(x).core.finSent && s.ends.At(x).core.peerFin ==> s.ends.At(x).core.closed
  {
    assert IsLoop(s, Finish(x), k) && IsLoop(s, Take(x, k, 0), k);
    assert !Enabled(s, Finish(x)) && !Enabled(s, Take(x, k, 0));
    if !s.ends.At(x).core.closed { Accepted(s, k, x); }
    assert IsLoop(s, Close(x), k) ==> !Enabled(s, Close(x));
  }

  /** An open end at rest has sent all it has to, a due fin included. */
  lemma RestSent(s: System, k: nat, x: Side)
    requires Ending(s, k) && AtRest(s, k) && !s.ends.At(x).core.closed
    ensures !s.ends.At(x).core.HasWork()
  {
    assert IsLoop(s, Write(x), k);
    assert !Enabled(s, Write(x));
    var p, e := s.ends.At(x), s.ends.At(x.Other());
    BothDirections(s, x);
    assert StreamOk(e, p, s.halves.At(x.Other())[k], s.halves.At(x)[k], k);
  }

  /** If one end has closed, so has the other. */
  lemma CloseTogether(s: System, k: nat, x: Side)
    requires Ending(s, k) && AtRest(s, k) && s.ends.At(x).core.closed
    ensures s.ends.At(x.Other()).core.closed
  {
    var y := x.Other();
    if !s.ends.At(y).core.closed {
      RestSide(s, k, y);
      RestSent(s, k, y);
      BothDirections(s, y);
    }
  }

  /** If a fin is due on either end, both have closed. */
  lemma FinCloses(s: System, k: nat, x: Side)
    requires Ending(s, k) && AtRest(s, k) && s.ends.At(x).core.finQueued
    ensures s.ends.At(x).core.closed
  {
    var y := x.Other();
    BothDirections(s, y);
    assert FinKept(s.ends.At(y), s.ends.At(x), s.halves.At(y)[k], k);
    if !s.ends.At(x).core.closed {
      RestSide(s, k, x);
      RestSent(s, k, x);
      if s.ends.At(y).core.closed {
        CloseTogether(s, k, y);
      } else {
        RestSide(s, k, y);
        RestSent(s, k, y);
      }
    }
  }

  /**
   * An orderly end: once the loops are at rest, both ends are closed, if a fin was due on either, or neither is; and
   * each end has received all that the other ever read.
   */
  lemma OrderlyEnd(s: System, k: nat, x: Side)
    requires Ending(s, k) && AtRest(s, k)
    ensures s.ends.At(x).core.closed <==> s.ends.At(x).core.finQueued || s.ends.At(x.Other()).core.finQueued
    ensures s.ends.At(x).core.closed <==> s.ends.At(x.Other()).core.closed
    ensures s.ends.At(x).core.recv == |s.ends.At(x.Other()).read|
  {
    var y := x.Other();
    BothDirections(s, x);
    RestSide(s, k, x);
    if s.ends.At(x).core.closed { CloseTogether(s, k, x); }
    if s.ends.At(y).core.closed { CloseTogether(s, k, y); }
    if s.ends.At(x).core.finQueued { FinCloses(s, k, x); }
    if s.ends.At(y).core.finQueued { FinCloses(s, k, y); }
    if !s.ends.At(x).core.closed && !s.ends.At(y).core.closed { RestDelivered(s, k, x); }
  }

  lemma RestDelivered(s: System, k: nat, x: Side)
    requires Ending(s, k) && AtRest(s, k)
    requires !s.ends.At(x).core.closed && !s.ends.At(x.Other()).core.closed
    ensures s.ends.At(x).core.recv == |s.ends.At(x.Other()).read|
  {
    assert Connected(s, k);
    forall step: Step | IsDrain(step, k)
      ensures !Enabled(s, step)
    {
      assert IsLoop(s, step, k);
    }
    DrainDeliversAll(s, k, x.Other());
  }

  /** From a connected pair the loops get there. */
  lemma {:induction false} LoopsComplete(s: System, k: nat) returns (steps: seq<Step>, t: System)
    requires Ending(s, k)
    ensures LoopRun(s, k, steps, t) && Ending(t, k) && AtRest(t, k)
    decreases LoopWeight(s, k)
  {
    if AtRest(s, k) {
      steps, t := [], s;
    } else {
      var step: Step :| IsLoop(s, step, k) && Enabled(s, step);
      LoopStepLightens(s, k, step);
      StepKeepsEnding(s, k, step);
      var rest;
      rest, t := LoopsComplete(Next(s, step), k);
      steps := [step] + rest;
      assert steps[1..] == rest;
    }
  }

  // ---- what was written locally ----

  /** The local connection of `e` works, or worked until the peer's fin came, and has been given everything. */
  ghost predicate Heard(e: Endpoint, p: Endpoint) {
    e.ConnAlive() || (e.core.peerFin && e.written == p.read)
  }

  /** If `x` takes data in this step, its local connection accepts all of it. */
  predicate Accepting(s: System, step: Step, x: Side)
    requires Sized(s) && Enabled(s, step)
  {
    match step
    case Take(y, k, wrote) =>
      y == x && s.halves.At(y)[k].inbox[0].frame.Data? ==> wrote == |s.halves.At(y)[k].inbox[0].frame.payload|
    case _ => true
  }

  ghost predicate AllAccepted(s: System, steps: seq<Step>, x: Side)
    decreases |steps|
  {
    Sized(s) &&
    (steps == [] || (Enabled(s, steps[0]) && Accepting(s, steps[0], x)
        && AllAccepted(Next(s, steps[0]), steps[1..], x)))
  }

  lemma TakeHeard(e: Endpoint, p: Endpoint, gen: nat, f: Frame, wrote: nat)
    requires Heard(e, p) && Delivered(e, p) && (e.core.peerFin ==> e.core.connDead)
    requires f.Data? ==> wrote == |f.payload|
    requires f.Fin? ==> e.applying.None?
    requires f.Fin? && Accepts(e.core, gen) ==> e.Taken() == |p.read|
    ensures Heard(Receive(e, gen, f, wrote), p)
  {
  }

  lemma TakeStepHeard(s: System, k: nat, x: Side, wrote: nat)
    requires Ending(s, k) && Enabled(s, Take(x, k, wrote)) && Accepting(s, Take(x, k, wrote), x)
    requires Inv(Next(s, Take(x, k, wrote))) && Fins(Next(s, Take(x, k, wrote)))
    requires Heard(s.ends.At(x), s.ends.At(x.Other()))
    ensures Heard(Next(s, Take(x, k, wrote)).ends.At(x), s.ends.At(x.Other()))
  {
    var t := Next(s, Take(x, k, wrote));
    var e, p, h := s.ends.At(x), s.ends.At(x.Other()), s.halves.At(x)[k];
    BothDirections(s, x);
    assert t.ends.At(x) == Receive(e, h.gen.value, h.inbox[0].frame, wrote);
    if h.inbox[0].frame.Fin? && Accepts(e.core, h.gen.value) {
      FinTaken(t, x);
      assert t.ends.At(x).core.peerFin && t.ends.At(x).Taken() == e.Taken();
    }
    TakeHeard(e, p, h.gen.value, h.inbox[0].frame, wrote);
  }

  lemma FinTaken(t: System, x: Side)
    requires Inv(t) && Fins(t)
    ensures t.ends.At(x).core.peerFin ==> t.ends.At(x).Taken() == |t.ends.At(x.Other()).read|
  {
    BothDirections(t, x);
  }

  /** The written bytes and the state of the local connection are those before. */
  ghost predicate SameLocally(e: Endpoint, e': Endpoint) {
    e'.ConnAlive() == e.ConnAlive() && e'.core.peerFin == e.core.peerFin && e'.written == e.written
  }

  lemma WriteLocally(s: System, x: Side, y: Side)
    requires Sized(s) && Enabled(s, Write(y))
    ensures SameLocally(s.ends.At(x), Next(s, Write(y)).ends.At(x))
  {
    WriteMoves(s.ends.At(y));
  }

  lemma OtherStepHeard(s: System, k: nat, step: Step, x: Side)
    requires Sized(s) && Enabled(s, step) && IsLoop(s, step, k) && !(step.Take? && step.side == x)
    ensures SameLocally(s.ends.At(x), Next(s, step).ends.At(x))
  {
    match step {
      case Write(y) => WriteLocally(s, x, y);
      case Take(_, _, _) =>
      case Finish(_) =>
      case Close(_) =>
    }
  }

  lemma StepKeepsHeard(s: System, k: nat, step: Step, x: Side)
    requires Ending(s, k) && Enabled(s, step) && IsLoop(s, step, k) && Accepting(s, step, x)
    requires Heard(s.ends.At(x), s.ends.At(x.Other()))
    ensures Heard(Next(s, step).ends.At(x), Next(s, step).ends.At(x.Other()))
  {
    LoopKeepsRead(s, step, k, x.Other());
    if step.Take? && step.side == x {
      LoopKeepsInvariants(s, k, step);
      TakeStepHeard(s, k, x, step.wrote);
    } else {
      OtherStepHeard(s, k, step, x);
    }
  }

  lemma {:induction false} LoopsKeepHeard(s: System, k: nat, steps: seq<Step>, t: System, x: Side)
    requires Ending(s, k) && LoopRun(s, k, steps, t) && AllAccepted(s, steps, x)
    requires Heard(s.ends.At(x), s.ends.At(x.Other()))
    ensures Heard(t.ends.At(x), t.ends.At(x.Other()))
    decreases |steps|
  {
    if steps == [] {
    } else {
      StepKeepsHeard(s, k, steps[0], x);
      StepKeepsEnding(s, k, steps[0]);
      LoopsKeepHeard(Next(s, steps[0]), k, steps[1..], t, x);
    }
  }

  /**
   * How a session ends: from any connected state of an orderly run, wherever the loops come to rest, both ends are
   * closed, if a fin was due on either, and else neither; each end has received all that the other read; and it has
   * written all of that, if its local connection accepted what it was given until then.
   */
  lemma SessionEnds(steps: seq<Step>, s: System, k: nat, loops: seq<Step>, t: System, x: Side)
    requires OrderlyRun(Init(), steps, s) && Connected(s, k)
    requires LoopRun(s, k, loops, t) && Sized(t) && AtRest(t, k)
    ensures t.ends.At(x).core.closed <==> t.ends.At(x).core.finQueued || t.ends.At(x.Other()).core.finQueued
    ensures t.ends.At(x).core.closed <==> t.ends.At(x.Other()).core.closed
    ensures t.ends.At(x).core.recv == |t.ends.At(x.Other()).read|
    ensures s.ends.At(x).ConnAlive() && AllAccepted(s, loops, x) ==> t.ends.At(x).written == t.ends.At(x.Other()).read
  {
    InitInv();
    InitFins();
    RunKeepsFins(Init(), steps, s);
    ConnectedIsEnding(s, k);
    LoopsKeepEnding(s, k, loops, t);
    OrderlyEnd(t, k, x);
    if s.ends.At(x).ConnAlive() && AllAccepted(s, loops, x) {
      LoopsKeepHeard(s, k, loops, t, x);
      RestSide(t, k, x);
      BothDirections(t, x);
    }
  }

  // ---- a fin freezes what was written ----

  /** What an end with a dead local connection goes on to be. */
  ghost predicate Later(e: Endpoint, e': Endpoint) {
    e.read <= e'.read && (e.core.connDead ==> e'.core.connDead && e'.written == e.written)
  }

  lemma ReceiveLater(e: Endpoint, gen: nat, f: Frame, wrote: nat)
    requires f.Data? ==> wrote <= |f.payload|
    ensures Later(e, Receive(e, gen, f, wrote))
  {
  }

  lemma DeadStep(s: System, step: Step, x: Side)
    requires Sized(s) && Enabled(s, step)
    ensures Later(s.ends.At(x), Next(s, step).ends.At(x))
  {
    match step {
      case Write(y) => WriteMoves(s.ends.At(y));
      case Take(y, k, wrote) =>
        var h := s.halves.At(y)[k];
        ReceiveLater(s.ends.At(y), h.gen.value, h.inbox[0].frame, wrote);
      case AttachStep(_, _) =>
      case _ =>
    }
  }

  lemma {:induction false} DeadRun(s: System, steps: seq<Step>, t: System, x: Side)
    requires Run(s, steps, t) && s.ends.At(x).core.connDead
    ensures t.ends.At(x).written == s.ends.At(x).written && s.ends.At(x.Other()).read <= t.ends.At(x.Other()).read
    decreases |steps|
  {
    if steps == [] {
    } else {
      DeadStep(s, steps[0], x);
      DeadStep(s, steps[0], x.Other());
      DeadRun(Next(s, steps[0]), steps[1..], t, x);
    }
  }

  /**
   * Why the reads have to stop: what an end has written when it handles a fin is what it will ever have written, and
   * that is all its peer has read exactly when nothing was read after the fin.
   */
  lemma FinDecides(s: System, x: Side, k: nat, wrote: nat, steps: seq<Step>, t: System)
    requires Inv(s) && Enabled(s, Take(x, k, wrote)) && s.halves.At(x)[k].inbox[0].frame.Fin?
    requires Accepts(s.ends.At(x).core, s.halves.At(x)[k].gen.value) && s.ends.At(x).ConnAlive()
    requires Run(Next(s, Take(x, k, wrote)), steps, t)
    ensures s.halves.At(x)[k].inbox[0].buffered <= |t.ends.At(x.Other()).read|
    ensures t.ends.At(x).written == t.ends.At(x.Other()).read[..s.halves.At(x)[k].inbox[0].buffered]
    ensures t.ends.At(x).written == t.ends.At(x.Other()).read
            <==> s.halves.At(x)[k].inbox[0].buffered == |t.ends.At(x.Other()).read|
  {
    var e, p := s.ends.At(x), s.ends.At(x.Other());
    assert Toward(s, x);
    assert Direction(e, p, s.halves.At(x), s.halves.At(x.Other()));
    assert StreamOk(e, p, s.halves.At(x)[k], s.halves.At(x.Other())[k], k);
    var s1 := Next(s, Take(x, k, wrote));
    assert s1.ends.At(x).core.connDead && s1.ends.At(x).written == e.written;
    DeadRun(s1, steps, t, x);
  }

  // ---- a loss after the first close ----

  /** One end has closed; the other, `y`, still holds what is on its way in a stream that may be cut, and would end
      with `total` bytes taken. */
  ghost predicate Tail(s: System, k: nat, y: Side, total: nat) {
    && Inv(s) && Fins(s) && k < |s.halves.client|
    && s.ends.At(y.Other()).core.closed && s.ends.At(y.Other()).core.stream.None?
    && (if s.ends.At(y).core.closed then s.ends.At(y).Taken() == total
        else s.ends.At(y).On(k) && EndOffset(s.halves.At(y)[k].inbox, s.ends.At(y).Taken()) == total)
  }

  lemma TailReceive(e: Endpoint, h: Half, k: nat, total: nat, wrote: nat)
    requires e.On(k) && !e.core.closed && h.gen == Some(e.core.gen) && h.inbox != []
    requires h.inbox[0].frame.Data? ==> e.applying.None? && wrote <= |h.inbox[0].frame.payload|
    requires EndOffset(h.inbox, e.Taken()) == total
    ensures var e' := Receive(e, h.gen.value, h.inbox[0].frame, wrote);
            && EndOffset(Pop(h).inbox, e'.Taken()) == total
            && (e'.core.closed || e'.On(k)) && (e'.core.closed ==> h.inbox[0].frame.Fin? && e'.core.peerFin)
  {
  }

  /** A fin takes effect only after all the data. */
  lemma FinIsLast(s: System, k: nat, y: Side, total: nat)
    requires Inv(s) && Fins(s) && k < |s.halves.client| && s.ends.At(y).On(k) && s.ends.At(y).core.peerFin
    requires EndOffset(s.halves.At(y)[k].inbox, s.ends.At(y).Taken()) == total
    ensures s.ends.At(y).Taken() == total
  {
    var e, p := s.ends.At(y), s.ends.At(y.Other());
    BothDirections(s, y);
    assert StreamOk(e, p, s.halves.At(y)[k], s.halves.At(y.Other())[k], k);
    InOrderBounds(s.halves.At(y)[k].inbox, e.Taken(), p.read, p.readEnded);
  }

  /** The fin that closes is the end of the data, so nothing is behind it. */
  lemma FinAtTotal(s: System, k: nat, y: Side, total: nat)
    requires Inv(s) && Fins(s) && k < |s.halves.client| && s.ends.At(y).On(k)
    requires s.halves.At(y)[k].inbox != [] && s.halves.At(y)[k].inbox[0].frame.Fin?
    requires EndOffset(s.halves.At(y)[k].inbox, s.ends.At(y).Taken()) == total
    ensures s.ends.At(y).Taken() == total
  {
    var e, p, h := s.ends.At(y), s.ends.At(y.Other()), s.halves.At(y)[k];
    BothDirections(s, y);
    assert StreamOk(e, p, h, s.halves.At(y.Other())[k], k);
    assert h.inbox[0] in h.inbox && FinsAt(h.inbox, |p.read|);
    InOrderBounds(h.inbox, e.Taken(), p.read, p.readEnded);
  }

  lemma TailTake(s: System, k: nat, y: Side, total: nat, wrote: nat)
    requires Tail(s, k, y, total) && Enabled(s, Take(y, k, wrote)) && !s.ends.At(y).core.closed
    requires Inv(Next(s, Take(y, k, wrote))) && Fins(Next(s, Take(y, k, wrote)))
    ensures Tail(Next(s, Take(y, k, wrote)), k, y, total)
  {
    var t := Next(s, Take(y, k, wrote));
    var e, h := s.ends.At(y), s.halves.At(y)[k];
    StreamGen(s, k, y);
    TailReceive(e, h, k, total, wrote);
    if h.inbox[0].frame.Fin? { FinAtTotal(s, k, y, total); }
    TailHolds(t, k, y, total);
  }

  lemma StreamGen(s: System, k: nat, y: Side)
    requires Inv(s) && k < |s.halves.client| && s.ends.At(y).On(k)
    ensures s.halves.At(y)[k].gen == Some(s.ends.At(y).core.gen)
  {
    assert Toward(s, y);
  }

  lemma TailHolds(t: System, k: nat, y: Side, total: nat)
    requires Inv(t) && Fins(t) && k < |t.halves.client|
    requires t.ends.At(y.Other()).core.closed && t.ends.At(y.Other()).core.stream.None?
    requires t.ends.At(y).core.closed ==> t.ends.At(y).Taken() == total
    requires !t.ends.At(y).core.closed ==>
               t.ends.At(y).On(k) && EndOffset(t.halves.At(y)[k].inbox, t.ends.At(y).Taken()) == total
    ensures Tail(t, k, y, total)
  {
  }

  /** A step that leaves `y` where it is. */
  lemma TailSame(s: System, t: System, k: nat, y: Side, total: nat)
    requires Tail(s, k, y, total) && Inv(t) && Fins(t) && k < |t.halves.client|
    requires t.ends.At(y.Other()).core.closed && t.ends.At(y.Other()).core.stream.None?
    requires t.ends.At(y).core.closed == s.ends.At(y).core.closed && t.ends.At(y).Taken() == s.ends.At(y).Taken()
    requires !s.ends.At(y).core.closed ==>
               t.ends.At(y).core.stream == s.ends.At(y).core.stream
                   && t.halves.At(y)[k].inbox == s.halves.At(y)[k].inbox
    ensures Tail(t, k, y, total)
  {
  }

  /** `y` sends, or finishes a payload. */
  lemma TailSends(s: System, t: System, k: nat, y: Side, total: nat)
    requires Tail(s, k, y, total) && Inv(t) && Fins(t) && OnlySends(s, t, k, y)
    ensures Tail(t, k, y, total)
  {
    TailSame(s, t, k, y, total);
  }

  lemma TailClose(s: System, k: nat, y: Side, total: nat)
    requires Tail(s, k, y, total) && !s.ends.At(y).core.closed && s.ends.At(y).core.peerFin
    requires Inv(Next(s, Close(y))) && Fins(Next(s, Close(y)))
    ensures Tail(Next(s, Close(y)), k, y, total)
  {
    FinIsLast(s, k, y, total);
    TailHolds(Next(s, Close(y)), k, y, total);
  }

  lemma TailCloses(s: System, k: nat, y: Side, total: nat, x: Side)
    requires Tail(s, k, y, total) && IsLoop(s, Close(x), k) && Inv(Next(s, Close(x))) && Fins(Next(s, Close(x)))
    ensures Tail(Next(s, Close(x)), k, y, total)
  {
    TailClose(s, k, y, total);
  }

  /** A closed end discards what it reads. */
  lemma ClosedDiscards(s: System, k: nat, x: Side, wrote: nat)
    requires Sized(s) && Enabled(s, Take(x, k, wrote)) && s.ends.At(x).core.closed
    ensures var t := Next(s, Take(x, k, wrote));
            t.ends == s.ends && k < |t.halves.client| && t.halves.At(x.Other()) == s.halves.At(x.Other())
  {
    var e, h := s.ends.At(x), s.halves.At(x)[k];
    assert Receive(e, h.gen.value, h.inbox[0].frame, wrote) == e;
  }

  lemma TailDiscard(s: System, k: nat, y: Side, total: nat, x: Side, wrote: nat)
    requires Tail(s, k, y, total) && Enabled(s, Take(x, k, wrote)) && s.ends.At(x).core.closed
    requires Inv(Next(s, Take(x, k, wrote))) && Fins(Next(s, Take(x, k, wrote)))
    ensures Tail(Next(s, Take(x, k, wrote)), k, y, total)
  {
    ClosedDiscards(s, k, x, wrote);
    TailSame(s, Next(s, Take(x, k, wrote)), k, y, total);
  }

  lemma TailPeerFinishes(s: System, k: nat, y: Side, total: nat)
    requires Tail(s, k, y, total) && Enabled(s, Finish(y.Other()))
    requires Inv(Next(s, Finish(y.Other()))) && Fins(Next(s, Finish(y.Other())))
    ensures Tail(Next(s, Finish(y.Other())), k, y, total)
  {
    TailSame(s, Next(s, Finish(y.Other())), k, y, total);
  }

  lemma TailFinish(s: System, k: nat, y: Side, total: nat, x: Side)
    requires Tail(s, k, y, total) && Enabled(s, Finish(x))
    requires Inv(Next(s, Finish(x))) && Fins(Next(s, Finish(x)))
    ensures Tail(Next(s, Finish(x)), k, y, total)
  {
    if x == y {
      FinishOnlySends(s, k, x);
      TailSends(s, Next(s, Finish(x)), k, y, total);
    } else {
      TailPeerFinishes(s, k, y, total);
    }
  }

  lemma TailWrite(s: System, k: nat, y: Side, total: nat, x: Side)
    requires Tail(s, k, y, total) && Enabled(s, Write(x))
    requires Inv(Next(s, Write(x))) && Fins(Next(s, Write(x)))
    ensures Tail(Next(s, Write(x)), k, y, total)
  {
    WriteOnlySends(s, k, x);
    TailSends(s, Next(s, Write(x)), k, y, total);
  }

  lemma TailTakes(s: System, k: nat, y: Side, total: nat, x: Side, wrote: nat)
    requires Tail(s, k, y, total) && Enabled(s, Take(x, k, wrote))
    requires Inv(Next(s, Take(x, k, wrote))) && Fins(Next(s, Take(x, k, wrote)))
    ensures Tail(Next(s, Take(x, k, wrote)), k, y, total)
  {
    if s.ends.At(x).core.closed {
      TailDiscard(s, k, y, total, x, wrote);
    } else {
      TailTake(s, k, y, total, wrote);
    }
  }

  lemma TailSendStep(s: System, k: nat, y: Side, total: nat, step: Step)
    requires Tail(s, k, y, total) && Enabled(s, step) && (step.Write? || step.Finish?)
    requires Inv(Next(s, step)) && Fins(Next(s, step))
    ensures Tail(Next(s, step), k, y, total)
  {
    if step.Write? {
      TailWrite(s, k, y, total, step.side);
    } else {
      TailFinish(s, k, y, total, step.side);
    }
  }

  lemma TailMoveStep(s: System, k: nat, y: Side, total: nat, step: Step)
    requires Tail(s, k, y, total) && Enabled(s, step) && IsLoop(s, step, k) && (step.Take? || step.Close?)
    requires Inv(Next(s, step)) && Fins(Next(s, step))
    ensures Tail(Next(s, step), k, y, total)
  {
    if step.Take? {
      TailTakes(s, k, y, total, step.side, step.wrote);
    } else {
      TailCloses(s, k, y, total, step.side);
    }
  }

  lemma StepKeepsTail(s: System, k: nat, y: Side, total: nat, step: Step)
    requires Tail(s, k, y, total) && Enabled(s, step) && IsLoop(s, step, k)
    requires Inv(Next(s, step)) && Fins(Next(s, step))
    ensures Tail(Next(s, step), k, y, total)
  {
    if step.Take? || step.Close? {
      TailMoveStep(s, k, y, total, step);
    } else {
      TailSendStep(s, k, y, total, step);
    }
  }

  lemma {:induction false} LoopsKeepTail(s: System, k: nat, steps: seq<Step>, t: System, y: Side, total: nat)
    requires Tail(s, k, y, total) && LoopRun(s, k, steps, t)
    ensures Tail(t, k, y, total) && t.ends.At(y.Other()).read == s.ends.At(y.Other()).read
    decreases |steps|
  {
    if steps == [] {
    } else {
      LoopKeepsInvariants(s, k, steps[0]);
      StepKeepsTail(s, k, y, total, steps[0]);
      LoopKeepsRead(s, steps[0], k, y.Other());
      LoopsKeepTail(Next(s, steps[0]), k, steps[1..], t, y, total);
    }
  }

  lemma LoopKeepsRead(s: System, step: Step, k: nat, x: Side)
    requires Sized(s) && Enabled(s, step) && IsLoop(s, step, k)
    ensures Next(s, step).ends.At(x).read == s.ends.At(x).read
  {
    match step {
      case Write(y) =>
      case Take(y, _, wrote) =>
        var h := s.halves.At(y)[k];
        ReceiveMoves(s.ends.At(y), h.gen.value, h.inbox[0].frame, wrote);
      case Finish(_) =>
      case Close(_) =>
    }
  }

  lemma TailAtRest(s: System, k: nat, y: Side, total: nat)
    requires Tail(s, k, y, total) && AtRest(s, k)
    ensures s.ends.At(y).core.recv == total
  {
    assert IsLoop(s, Finish(y), k) && IsLoop(s, Take(y, k, 0), k);
    assert !Enabled(s, Finish(y)) && !Enabled(s, Take(y, k, 0));
    BothDirections(s, y);
  }

  /**
   * A loss after the first close, on what is on its way to the end `y` that is still open: when the loops come to rest,
   * `y` has exactly the data of the packets that were kept, so the loss truncates what `y` receives exactly when it
   * drops data.
   */
  lemma LossTruncates(s: System, k: nat, y: Side, keep: nat, loops: seq<Step>, t: System)
    requires Ending(s, k) && s.ends.At(y.Other()).core.closed && !s.ends.At(y).core.closed
    requires keep <= |s.halves.At(y)[k].inbox|
    requires LoopRun(Next(s, Lose(y, k, keep)), k, loops, t) && Sized(t) && AtRest(t, k)
    ensures t.ends.At(y).core.recv == EndOffset(s.halves.At(y)[k].inbox[..keep], s.ends.At(y).Taken())
    ensures t.ends.At(y).core.recv == |t.ends.At(y.Other()).read|
            <==> forall p :: p in s.halves.At(y)[k].inbox[keep..] && p.frame.Data? ==> p.frame.payload == []
  {
    var q := s.halves.At(y)[k].inbox;
    var from := s.ends.At(y).Taken();
    StepKeepsInv(s, Lose(y, k, keep));
    StepKeepsFins(s, Lose(y, k, keep));
    var s1 := Next(s, Lose(y, k, keep));
    assert Tail(s1, k, y, EndOffset(q[..keep], from));
    LoopsKeepTail(s1, k, loops, t, y, EndOffset(q[..keep], from));
    TailAtRest(t, k, y, EndOffset(q[..keep], from));
    OffsetSplits(q, keep, from);
    NothingDropped(q[keep..], EndOffset(q[..keep], from));
  }

  lemma {:induction false} OffsetSplits(q: seq<Packet>, n: nat, off: nat)
    requires n <= |q|
    ensures EndOffset(q, off) == EndOffset(q[n..], EndOffset(q[..n], off))
    decreases n
  {
    if n == 0 {
      assert q[0..] == q && q[..0] == [];
    } else {
      assert q[..n][1..] == q[1..][..n - 1] && q[n..] == q[1..][n - 1..];
      OffsetSplits(q[1..], n - 1, if q[0].frame.Data? then off + |q[0].frame.payload| else off);
    }
  }

  lemma {:induction false} NothingDropped(q: seq<Packet>, off: nat)
    ensures off <= EndOffset(q, off)
    ensures EndOffset(q, off) == off <==> forall p :: p in q && p.frame.Data? ==> p.frame.payload == []
    decreases |q|
  {
    if q == [] {
    } else {
      var next := if q[0].frame.Data? then off + |q[0].frame.payload| else off;
      NothingDropped(q[1..], next);
      assert q == [q[0]] + q[1..];
    }
  }
}
