/** What the invariant means for a whole run of the tunnel. */
module TunnelTheorems {
  import opened Basics
  import opened TunnelCore
  import opened TunnelProtocol
  import opened TunnelInvariant
  import opened TunnelSafety

  lemma InitInv()
    ensures Inv(Init())
  {
  }

  lemma Reached(steps: seq<Step>, t: System)
    requires FencedRun(Init(), steps, t)
    ensures Inv(t)
  {
    InitInv();
    RunKeepsInv(Init(), steps, t);
  }

  /** Exactly once, in order: whatever was lost, replayed or resumed, what one end wrote locally is a prefix of what
      the other end read, and is all of its first `recv` bytes as long as the local connection works. */
  lemma ExactlyOnce(steps: seq<Step>, t: System, x: Side)
    requires FencedRun(Init(), steps, t)
    ensures t.ends.At(x).written <= t.ends.At(x.Other()).read
    ensures t.ends.At(x).applying.None? && !t.ends.At(x).core.connDead ==>
              t.ends.At(x).core.recv <= |t.ends.At(x.Other()).read|
              && t.ends.At(x).written == t.ends.At(x.Other()).read[..t.ends.At(x).core.recv]
  {
    Reached(steps, t);
    assert Delivered(t.ends.At(x), t.ends.At(x.Other()));
  }

  /** The unacked buffer always covers what the peer lacks, and the write cursor never leaves it. */
  lemma WindowIsSafe(steps: seq<Step>, t: System, x: Side)
    requires FencedRun(Init(), steps, t)
    ensures t.ends.At(x).core.sendBase <= t.ends.At(x.Other()).core.recv <= t.ends.At(x).core.End()
    ensures t.ends.At(x).core.End() == |t.ends.At(x).read|
    ensures t.ends.At(x).core.sendBuf == t.ends.At(x).read[t.ends.At(x).core.sendBase..]
    ensures t.ends.At(x).core.stream.Some? ==>
              t.ends.At(x).core.sendBase <= t.ends.At(x).core.sendSent <= t.ends.At(x).core.End()
              && !WriteOne(t.ends.At(x).core).OutOfRange?
  {
    Reached(steps, t);
    var p, e := t.ends.At(x), t.ends.At(x.Other());
    var he, hp := t.halves.At(x.Other()), t.halves.At(x);
    assert Direction(e, p, he, hp) && Direction(p, e, hp, he);
    if p.core.stream.Some? {
      var k := p.core.stream.value;
      assert StreamOk(e, p, he[k], hp[k], k);
    }
  }

  /** Between honest ends `attach` reports missing bytes in one case only: a service that handles the hello of a
      stream late, after it has dropped bytes the client has acked since. A client never sees it. */
  lemma MissingBytesOnlyWhenStale(steps: seq<Step>, t: System, x: Side, k: nat)
    requires FencedRun(Init(), steps, t) && Sized(t) && Enabled(t, AttachStep(x, k))
    ensures Attach(t.ends.At(x).core, k, PeerRecv(t, x, k).value).MissingBytes?
            <==> PeerRecv(t, x, k).value < t.ends.At(x).core.sendBase
    ensures x.Client? || k == |t.halves.client| - 1 ==> Attach(t.ends.At(x).core, k, PeerRecv(t, x, k).value).Attached?
  {
    Reached(steps, t);
    var p, e := t.ends.At(x), t.ends.At(x.Other());
    var he, hp := t.halves.At(x.Other()), t.halves.At(x);
    assert Direction(e, p, he, hp) && Direction(p, e, hp, he);
    assert StreamOk(e, p, he[k], hp[k], k);
  }

  /** Missing bytes close the session. */
  lemma MissingBytesClose(t: System, x: Side, k: nat)
    requires Sized(t) && Enabled(t, AttachStep(x, k))
    ensures Attach(t.ends.At(x).core, k, PeerRecv(t, x, k).value).MissingBytes?
            <==> Next(t, AttachStep(x, k)).ends.At(x).core.closed
  {
  }

  /** The loops of a stream detach their own stream only: once it was replaced, or the session closed, the end of such a
      loop changes nothing. */
  lemma LoopsDetachOwnStream(steps: seq<Step>, t: System, x: Side, k: nat)
    requires FencedRun(Init(), steps, t) && Sized(t) && k < |t.halves.client| && t.halves.At(x)[k].gen.Some?
    ensures var c, g := t.ends.At(x).core, t.halves.At(x)[k].gen.value;
            && (t.ends.At(x).On(k) <==> !c.closed && c.gen == g && c.stream.Some?)
            && (!t.ends.At(x).On(k) ==> Detach(c, g) == c)
            && (t.ends.At(x).On(k) ==>
                  && Enabled(t, DetachStep(x))
                  && SetEnd(t, x, t.ends.At(x).(core := Detach(c, g))) == Next(t, DetachStep(x))
                  && !Next(t, DetachStep(x)).ends.At(x).On(k))
  {
    Reached(steps, t);
    assert Toward(t, x);
  }

  /** A fin marks the end of everything its writer had buffered; if the writer's local read had ended by then, its
      peer has received every byte of it when it handles the fin. */
  lemma FinAfterEverything(steps: seq<Step>, t: System, x: Side, k: nat, wrote: nat)
    requires FencedRun(Init(), steps, t) && Sized(t) && Enabled(t, Take(x, k, wrote))
    requires t.halves.At(x)[k].inbox[0].frame.Fin?
    requires Accepts(t.ends.At(x).core, t.halves.At(x)[k].gen.value)
    ensures t.ends.At(x).core.recv == t.halves.At(x)[k].inbox[0].buffered
    ensures t.halves.At(x)[k].inbox[0].readEnded ==>
              t.ends.At(x.Other()).readEnded && t.ends.At(x).core.recv == |t.ends.At(x.Other()).read|
              && (t.ends.At(x).ConnAlive() ==> t.ends.At(x).written == t.ends.At(x.Other()).read)
  {
    Reached(steps, t);
    var e, p := t.ends.At(x), t.ends.At(x.Other());
    assert Direction(e, p, t.halves.At(x), t.halves.At(x.Other()));
    assert StreamOk(e, p, t.halves.At(x)[k], t.halves.At(x.Other())[k], k);
  }

  // ---- back-pressure ----

  ghost predicate Bounded(s: System) { BoundedEnd(s.ends.client) && BoundedEnd(s.ends.server) }

  ghost predicate BoundedEnd(e: Endpoint) {
    |e.core.sendBuf| < MAX_UNACKED + FRAME_MAX && e.core.End() == |e.read|
  }

  /** Trimming the front of the buffer, or leaving it alone. */
  ghost predicate Trims(e: Endpoint, e': Endpoint) {
    e'.read == e.read && e'.core.End() == e.core.End() && |e'.core.sendBuf| <= |e.core.sendBuf|
  }

  lemma ReceiveTrims(e: Endpoint, gen: nat, f: Frame, wrote: nat)
    requires f.Data? ==> wrote <= |f.payload|
    ensures Trims(e, Receive(e, gen, f, wrote))
  {
  }

  lemma WriteTrims(e: Endpoint)
    requires WriteOne(e.core).Wrote?
    ensures Trims(e, e.(core := WriteOne(e.core).core))
  {
  }

  lemma StepTrims(s: System, step: Step, x: Side)
    requires Sized(s) && Enabled(s, step) && !step.LocalRead?
    ensures Trims(s.ends.At(x), Next(s, step).ends.At(x))
  {
    match step {
      case Write(y) => WriteTrims(s.ends.At(y));
      case Take(y, k, wrote) =>
        var h := s.halves.At(y)[k];
        ReceiveTrims(s.ends.At(y), h.gen.value, h.inbox[0].frame, wrote);
      case AttachStep(y, k) =>
      case _ =>
    }
  }

  /** An open end reads on, up to 32 kB at a time, exactly while less than 1 MB is unacked. */
  lemma StepKeepsBound(s: System, step: Step)
    requires Sized(s) && Enabled(s, step) && Bounded(s)
    ensures Bounded(Next(s, step))
    ensures forall x: Side, data :: !s.ends.At(x).core.closed && !s.ends.At(x).readEnded && 0 < |data| <= 32_768 ==>
              (Enabled(s, LocalRead(x, data)) <==> |s.ends.At(x).core.sendBuf| < 1_048_576)
  {
    if !step.LocalRead? {
      StepTrims(s, step, Client);
      StepTrims(s, step, Server);
    }
  }

  /** A stalled peer costs a bounded buffer, and no byte that was read is ever left out of the accounting. */
  lemma {:induction false} BackPressure(s: System, steps: seq<Step>, t: System)
    requires Bounded(s) && Run(s, steps, t)
    ensures Bounded(t)
    ensures |t.ends.client.core.sendBuf| < 1_048_576 + 32_768 && |t.ends.server.core.sendBuf| < 1_048_576 + 32_768
    decreases |steps|
  {
    if steps == [] {
    } else {
      StepKeepsBound(s, steps[0]);
      BackPressure(Next(s, steps[0]), steps[1..], t);
    }
  }

  // ---- where the fence comes from ----

  ghost predicate Detached(s: System) { s.ends.server.core.stream.None? }

  /** While a service is detached it takes nothing: the frames of its old streams are not accepted any more. */
  lemma DetachedReceives(e: Endpoint, he: seq<Half>, k: nat, wrote: nat)
    requires Generations(e, he) && e.core.stream.None?
    requires k < |he| && he[k].gen.Some? && he[k].inbox != []
    requires he[k].inbox[0].frame.Data? ==> wrote <= |he[k].inbox[0].frame.payload|
    ensures Receive(e, he[k].gen.value, he[k].inbox[0].frame, wrote) == e
  {
  }

  /** The service took nothing, and nothing it told has changed. */
  ghost predicate StaysDetached(s: System, t: System) {
    && Detached(t) && t.ends.server.Taken() == s.ends.server.Taken()
    && |s.halves.server| <= |t.halves.server|
    && forall k :: 0 <= k < |s.halves.server| && s.halves.server[k].told.Some? ==>
         t.halves.server[k].told == s.halves.server[k].told
  }

  lemma DetachedTake(s: System, x: Side, k: nat, wrote: nat)
    requires Inv(s) && Enabled(s, Take(x, k, wrote)) && Detached(s)
    ensures StaysDetached(s, Next(s, Take(x, k, wrote)))
  {
    assert Toward(s, Server);
    if x.Server? { DetachedReceives(s.ends.server, s.halves.server, k, wrote); }
  }

  lemma DetachedLocal(s: System, step: Step)
    requires Sized(s) && Enabled(s, step) && Detached(s)
    requires step.LocalRead? || step.LocalEnd? || step.Write? || step.Finish? || step.DetachStep? || step.Close?
    ensures StaysDetached(s, Next(s, step))
  {
  }

  lemma DetachedNetwork(s: System, step: Step)
    requires Sized(s) && Enabled(s, step) && Detached(s)
    requires step.Lose? || step.Hello? || step.Reply? || (step.AttachStep? && step.side.Client?)
    ensures StaysDetached(s, Next(s, step))
  {
  }

  lemma DetachedStep(s: System, step: Step)
    requires Inv(s) && Enabled(s, step) && Detached(s) && !(step.AttachStep? && step.side.Server?)
    ensures StaysDetached(s, Next(s, step))
  {
    match step {
      case Take(x, k, wrote) => DetachedTake(s, x, k, wrote);
      case Lose(_, _, _) => DetachedNetwork(s, step);
      case Hello => DetachedNetwork(s, step);
      case Reply(_) => DetachedNetwork(s, step);
      case AttachStep(_, _) => DetachedNetwork(s, step);
      case _ => DetachedLocal(s, step);
    }
  }

  lemma {:induction false} DetachedRun(s: System, steps: seq<Step>, t: System, k: nat)
    requires Inv(s) && Run(s, steps, t) && Detached(s)
    requires forall i :: 0 <= i < |steps| ==> !(steps[i].AttachStep? && steps[i].side.Server?)
    requires k < |s.halves.server| && s.halves.server[k].told.Some?
    ensures Inv(t) && Detached(t) && t.ends.server.Taken() == s.ends.server.Taken()
    ensures k < |t.halves.server| && t.halves.server[k].told == s.halves.server[k].told
    decreases |steps|
  {
    if steps == [] {
    } else {
      DetachedStep(s, steps[0]);
      StepKeepsInv(s, steps[0]);
      DetachedRun(Next(s, steps[0]), steps[1..], t, k);
    }
  }

  /** What a handler finds when it answers decides: if the service has no stream then, and no other handler attaches
      in between, the attach is fenced exactly when no payload was held at the answer. A handler that detached the
      stream itself waited for that; one that found no stream did not look. */
  lemma AnswerDecidesFence(s: System, k: nat, steps: seq<Step>, t: System)
    requires Inv(s) && Detached(s) && Enabled(s, Reply(k))
    requires Run(Next(s, Reply(k)), steps, t)
    requires forall i :: 0 <= i < |steps| ==> !(steps[i].AttachStep? && steps[i].side.Server?)
    requires Sized(t) && Enabled(t, AttachStep(Server, k))
    ensures Inv(t)
    ensures Fenced(t, AttachStep(Server, k)) <==> s.ends.server.InFlight() == 0
  {
    StepKeepsInv(s, Reply(k));
    DetachedStep(s, Reply(k));
    DetachedRun(Next(s, Reply(k)), steps, t, k);
  }
}
