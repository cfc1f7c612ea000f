/**
 What happens without the fence. `forceDetach` returns at once when the stream is already gone, so a handler can read
 `recv` while `applyData` still holds a payload. The step that then attaches is enabled in the model, as it is in the
 code; this module shows that it breaks delivery always, not only in unlucky cases.
 */
module TunnelUnfenced {
  import opened Basics
  import opened TunnelCore
  import opened TunnelProtocol
  import opened TunnelInvariant
  import opened TunnelSafety
  import opened TunnelTheorems
  import opened TunnelFins

  lemma {:induction false} RunSnoc(s: System, steps: seq<Step>, t: System, step: Step)
    requires FencedRun(s, steps, t) && Sized(t) && Enabled(t, step) && Fenced(t, step) && Sized(Next(t, step))
    ensures FencedRun(s, steps + [step], Next(t, step))
    decreases |steps|
  {
    if steps == [] {
      assert ([step])[1..] == [];
      assert steps + [step] == [step];
      assert FencedRun(Next(s, step), [], Next(s, step));
    } else {
      assert (steps + [step])[1..] == steps[1..] + [step];
      RunSnoc(Next(s, steps[0]), steps[1..], t, step);
    }
  }

  /**
   * Both ends are on stream `k`, and `extra` bytes too many have been written: what is on its way to the service, and
   * then what the client has yet to send, starts so many bytes below what the service has.
   */
  ghost predicate Replaying(s: System, k: nat, extra: nat) {
    && Sized(s) && k < |s.halves.server|
    && var c, v, h := s.ends.client.core, s.ends.server.core, s.halves.server[k];
    && s.ends.client.On(k) && !c.closed && c.recv <= c.ackSent
    && c.End() == |s.ends.client.read| && c.sendBase <= c.sendSent <= c.End()
    && c.sendBuf == s.ends.client.read[c.sendBase..]
    && s.ends.server.On(k) && !v.closed && s.ends.server.applying.None? && !v.connDead
    && h.gen == Some(v.gen) && !h.cut
    && v.recv == |s.ends.server.written| && extra <= v.recv
    && OnItsWay(h.inbox, v.recv - extra, c.sendSent, s.ends.client)
  }

  /** Data from one offset to the other, and fins behind the last byte read. */
  ghost predicate OnItsWay(q: seq<Packet>, from: nat, to: nat, p: Endpoint) {
    InOrder(q, from, p.read, p.readEnded) && EndOffset(q, from) == to && NoAcks(q) && FinsAt(q, |p.read|)
  }

  lemma OnItsWayPops(q: seq<Packet>, from: nat, to: nat, p: Endpoint)
    requires q != [] && OnItsWay(q, from, to, p)
    ensures !q[0].frame.Ack?
    ensures q[0].frame.Data? ==> OnItsWay(q[1..], from + |q[0].frame.payload|, to, p)
    ensures q[0].frame.Fin? ==> from == |p.read|
    ensures from <= to <= |p.read|
  {
    InOrderBounds(q, from, p.read, p.readEnded);
    assert q[0] in q;
    assert q == [q[0]] + q[1..];
  }

  /** The service takes all of the next payload. */
  lemma TakeOne(s: System, k: nat, extra: nat) returns (steps: seq<Step>, t: System)
    requires Replaying(s, k, extra) && s.halves.server[k].inbox != [] && s.halves.server[k].inbox[0].frame.Data?
    ensures FencedRun(s, steps, t) && Replaying(t, k, extra)
    ensures t.ends.client == s.ends.client && t.halves.client == s.halves.client
    ensures var n := |s.halves.server[k].inbox[0].frame.payload|;
            t.ends.server.core == s.ends.server.core.(recv := s.ends.server.core.recv + n)
    ensures t.halves.server[k].inbox == s.halves.server[k].inbox[1..]
  {
    var p := s.halves.server[k].inbox[0].frame.payload;
    OnItsWayPops(s.halves.server[k].inbox, s.ends.server.core.recv - extra, s.ends.client.core.sendSent, s.ends.client);
    var s1 := Next(s, Take(Server, k, |p|));
    t := Next(s1, Finish(Server));
    assert p[..|p|] == p;
    steps := [Take(Server, k, |p|)] + [Finish(Server)];
    RunSnoc(s, [], s, Take(Server, k, |p|));
    RunSnoc(s, [Take(Server, k, |p|)], s1, Finish(Server));
  }

  /** The client sends its next frame. */
  lemma SendOne(s: System, k: nat, extra: nat) returns (steps: seq<Step>, t: System)
    requires Replaying(s, k, extra) && s.halves.server[k].inbox == []
    requires s.ends.client.core.sendSent < s.ends.client.core.End()
    ensures FencedRun(s, steps, t) && Replaying(t, k, extra)
    ensures var n := Min(FRAME_MAX, s.ends.client.core.End() - s.ends.client.core.sendSent);
            && 0 < n
            && t.ends.client == s.ends.client.(core := s.ends.client.core.(sendSent := s.ends.client.core.sendSent + n))
            && |t.halves.server[k].inbox| == 1 && t.halves.server[k].inbox[0].frame.Data?
            && |t.halves.server[k].inbox[0].frame.payload| == n
    ensures t.ends.server == s.ends.server && t.halves.client == s.halves.client
  {
    var e := s.ends.client;
    var w := WriteOne(e.core);
    t := Next(s, Write(Client));
    var pkt := NextPacket(e);
    assert w.frame.Data? && w.core == e.core.(sendSent := e.core.sendSent + |w.frame.payload|);
    assert t.halves.server[k].inbox == [pkt];
    NextIsOnItsWay(s, k, extra);
    steps := [] + [Write(Client)];
    RunSnoc(s, [], s, Write(Client));
  }

  lemma NextIsOnItsWay(s: System, k: nat, extra: nat)
    requires Replaying(s, k, extra) && s.halves.server[k].inbox == []
    requires s.ends.client.core.sendSent < s.ends.client.core.End()
    ensures var e := s.ends.client;
            && WriteOne(e.core).Wrote?
            && OnItsWay([NextPacket(e)], e.core.sendSent, WriteOne(e.core).core.sendSent, e)
  {
    var e := s.ends.client;
    DataIsHistory(e);
    Singleton(NextPacket(e), e.core.sendSent, e.read, e.readEnded);
  }

  lemma {:induction false} RunConcat(s: System, a: seq<Step>, m: System, b: seq<Step>, t: System)
    requires FencedRun(s, a, m) && FencedRun(m, b, t)
    ensures FencedRun(s, a + b, t)
    decreases |a|
  {
    if a == [] {
      assert a + b == b;
    } else {
      assert (a + b)[1..] == a[1..] + b;
      RunConcat(Next(s, a[0]), a[1..], m, b, t);
    }
  }

  /** Nothing is left, or a fin stands behind everything. */
  lemma ReplayedAll(s: System, k: nat, extra: nat)
    requires Replaying(s, k, extra)
    requires if s.halves.server[k].inbox == [] then s.ends.client.core.sendSent == s.ends.client.core.End()
             else s.halves.server[k].inbox[0].frame.Fin?
    ensures |s.ends.server.written| == |s.ends.client.read| + extra
  {
    var q := s.halves.server[k].inbox;
    if q != [] {
      OnItsWayPops(q, s.ends.server.core.recv - extra, s.ends.client.core.sendSent, s.ends.client);
    }
  }

  lemma {:induction false} ReplayAll(s: System, k: nat, extra: nat) returns (steps: seq<Step>, t: System)
    requires Replaying(s, k, extra)
    ensures FencedRun(s, steps, t) && t.ends.client.read == s.ends.client.read
    ensures |t.ends.server.written| == |s.ends.client.read| + extra
    decreases s.ends.client.core.End() - s.ends.client.core.sendSent, |s.halves.server[k].inbox|
  {
    var q := s.halves.server[k].inbox;
    if q != [] {
      OnItsWayPops(q, s.ends.server.core.recv - extra, s.ends.client.core.sendSent, s.ends.client);
    }
    if q == [] && s.ends.client.core.sendSent < s.ends.client.core.End() {
      var a, m := SendOne(s, k, extra);
      var b;
      b, t := ReplayAll(m, k, extra);
      RunConcat(s, a, m, b, t);
      steps := a + b;
    } else if q != [] && q[0].frame.Data? {
      var a, m := TakeOne(s, k, extra);
      var b;
      b, t := ReplayAll(m, k, extra);
      RunConcat(s, a, m, b, t);
      steps := a + b;
    } else {
      ReplayedAll(s, k, extra);
      steps, t := [], s;
    }
  }

  /**
   * The situation of a service about to attach to the client's newest stream, which the client may have joined already
   * or not. Nothing was read behind a fin that is on its way.
   */
  ghost predicate AboutToAttach(s: System, k: nat) {
    && Inv(s) && Enabled(s, AttachStep(Server, k)) && k == |s.halves.client| - 1 && !s.ends.client.core.closed
    && (Joined(s, k) || (s.ends.client.core.stream.None? && s.halves.client[k].gen.None?))
    && s.ends.server.ConnAlive() && !s.halves.server[k].cut
    && FinsAt(s.halves.server[k].inbox, |s.ends.client.read|)
  }

  predicate Joined(s: System, k: nat) { s.ends.client.On(k) }

  /** How far the client has sent, or will have, when both are attached. */
  function Sent(s: System, k: nat): nat
    requires k < |s.halves.server| && s.halves.server[k].told.Some?
  {
    if Joined(s, k) then s.ends.client.core.sendSent else s.halves.server[k].told.value
  }

  lemma AboutFacts(s: System, k: nat)
    requires AboutToAttach(s, k)
    ensures s.ends.server.core.sendBase <= s.halves.client[k].told.value <= s.ends.server.core.End()
    ensures s.ends.client.core.sendBase <= s.halves.server[k].told.value <= s.ends.server.core.recv
    ensures s.ends.server.Taken() == |s.ends.server.written| <= |s.ends.client.read| == s.ends.client.core.End()
    ensures s.ends.client.core.sendBuf == s.ends.client.read[s.ends.client.core.sendBase..]
    ensures s.halves.client[k].inbox == []
    ensures OnItsWay(s.halves.server[k].inbox, s.halves.server[k].told.value, Sent(s, k), s.ends.client)
    ensures Joined(s, k) ==> s.ends.client.core.sendBase == s.halves.server[k].told.value
    ensures Joined(s, k) ==> s.ends.client.core.recv == s.ends.client.core.ackSent
    ensures Joined(s, k) ==> s.halves.client[k].gen == Some(s.ends.client.core.gen)
  {
    var c, v, hc, hv := s.ends.client, s.ends.server, s.halves.client, s.halves.server;
    assert Direction(c, v, hc, hv) && Direction(v, c, hv, hc);
    assert StreamOk(c, v, hc[k], hv[k], k) && StreamOk(v, c, hv[k], hc[k], k);
  }

  /** The service attaches. */
  lemma ServiceJoins(s: System, k: nat)
    requires AboutToAttach(s, k)
    ensures var t := Next(s, AttachStep(Server, k));
            && t.ends.client == s.ends.client && t.halves.client == s.halves.client && Sized(t)
            && t.ends.server.On(k) && !t.ends.server.core.closed && t.ends.server.written == s.ends.server.written
            && t.ends.server.core.recv == s.ends.server.core.recv == t.ends.server.core.ackSent
            && t.ends.server.applying == s.ends.server.applying
                 && t.ends.server.core.connDead == s.ends.server.core.connDead
            && t.halves.server[k] == s.halves.server[k].(gen := Some(t.ends.server.core.gen))
  {
    AboutFacts(s, k);
  }

  /** The service has attached; now the client does, if it has not. */
  ghost predicate HasJoined(s: System, t: System, k: nat)
    requires Sized(s) && Enabled(s, AttachStep(Server, k)) && k < |Next(s, AttachStep(Server, k)).halves.server|
  {
    && Sized(t) && k < |t.halves.client| && k < |t.halves.server| && Joined(t, k) && !t.ends.client.core.closed
    && t.ends.server == Next(s, AttachStep(Server, k)).ends.server
    && t.halves.server[k] == Next(s, AttachStep(Server, k)).halves.server[k]
    && t.ends.client.read == s.ends.client.read && t.ends.client.readEnded == s.ends.client.readEnded
    && t.ends.client.core.End() == |s.ends.client.read| && t.ends.client.core.recv <= t.ends.client.core.ackSent
    && t.ends.client.core.sendBuf == s.ends.client.read[t.ends.client.core.sendBase..]
    && t.ends.client.core.sendBase == s.halves.server[k].told.value && t.ends.client.core.sendSent == Sent(s, k)
    && t.halves.client[k] == s.halves.client[k].(gen := Some(t.ends.client.core.gen))
  }

  lemma ClientJoins(s: System, k: nat) returns (steps: seq<Step>, t: System)
    requires AboutToAttach(s, k)
    ensures k < |Next(s, AttachStep(Server, k)).halves.server|
    ensures FencedRun(Next(s, AttachStep(Server, k)), steps, t) && HasJoined(s, t, k)
  {
    AboutFacts(s, k);
    ServiceJoins(s, k);
    var s1 := Next(s, AttachStep(Server, k));
    if Joined(s, k) {
      steps, t := [], s1;
    } else {
      t := Next(s1, AttachStep(Client, k));
      steps := [] + [AttachStep(Client, k)];
      RunSnoc(s1, [], s1, AttachStep(Client, k));
    }
  }

  /** Both ends are attached, and the service has finished the payload it held. */
  lemma JoinBoth(s: System, k: nat) returns (steps: seq<Step>, t: System)
    requires AboutToAttach(s, k)
    ensures FencedRun(Next(s, AttachStep(Server, k)), steps, t) && t.ends.client.read == s.ends.client.read
    ensures s.halves.server[k].told.value <= s.ends.server.Taken() <= |s.ends.client.read|
    ensures Replaying(t, k, s.ends.server.Taken() - s.halves.server[k].told.value)
    ensures t.ends.client.core.sendBase == s.halves.server[k].told.value && t.ends.client.core.sendSent == Sent(s, k)
    ensures t.ends.server.core.recv == s.ends.server.Taken() && t.ends.server.core.ackSent == s.ends.server.core.recv
    ensures k < |t.halves.client| && t.halves.client[k] == s.halves.client[k].(gen := Some(t.ends.client.core.gen))
    ensures t.ends.client.readEnded == s.ends.client.readEnded && t.halves.client[k].inbox == []
    ensures t.halves.server[k].inbox == s.halves.server[k].inbox
  {
    AboutFacts(s, k);
    ServiceJoins(s, k);
    steps, t := ClientJoins(s, k);
    if s.ends.server.applying.Some? {
      RunSnoc(Next(s, AttachStep(Server, k)), steps, t, Finish(Server));
      steps, t := steps + [Finish(Server)], Next(t, Finish(Server));
    }
  }

  /** Once everything is replayed, the service has written as many bytes too many as it had taken, but not told. */
  lemma UnfencedOverruns(s: System, k: nat) returns (steps: seq<Step>, t: System)
    requires AboutToAttach(s, k)
    ensures FencedRun(Next(s, AttachStep(Server, k)), steps, t) && t.ends.client.read == s.ends.client.read
    ensures |t.ends.server.written| == |t.ends.client.read| + s.ends.server.Taken() - s.halves.server[k].told.value
  {
    var a, m := JoinBoth(s, k);
    var b;
    b, t := ReplayAll(m, k, s.ends.server.Taken() - s.halves.server[k].told.value);
    RunConcat(Next(s, AttachStep(Server, k)), a, m, b, t);
    steps := a + b;
  }

  /** Whatever happens from `s` on, as long as later attaches are fenced, the service writes a prefix of what the
      client read. */
  ghost predicate DeliversPrefix(s: System) {
    forall steps, t :: FencedRun(s, steps, t) ==> t.ends.server.written <= t.ends.client.read
  }

  lemma BreaksPrefix(s: System, steps: seq<Step>, t: System)
    requires FencedRun(s, steps, t) && |t.ends.client.read| < |t.ends.server.written|
    ensures !DeliversPrefix(s)
  {
  }

  /** The fence is exactly what delivery needs: an attach that is not fenced has a continuation that delivers bytes
      twice. */
  lemma FenceIsExact(s: System, k: nat)
    requires AboutToAttach(s, k)
    ensures Fenced(s, AttachStep(Server, k)) <==> DeliversPrefix(Next(s, AttachStep(Server, k)))
  {
    if Fenced(s, AttachStep(Server, k)) {
      StepKeepsInv(s, AttachStep(Server, k));
      forall steps, t | FencedRun(Next(s, AttachStep(Server, k)), steps, t)
        ensures t.ends.server.written <= t.ends.client.read
      {
        RunKeepsInv(Next(s, AttachStep(Server, k)), steps, t);
        assert Delivered(t.ends.server, t.ends.client);
      }
    } else {
      var steps, t := UnfencedOverruns(s, k);
      AboutFacts(s, k);
      BreaksPrefix(Next(s, AttachStep(Server, k)), steps, t);
    }
  }

  // ---- the client's next write ----

  /** The client's write loop is about to slice its buffer below the start, which is a run-time panic. */
  ghost predicate Panics(t: System) {
    t.ends.client.core.stream.Some? && WriteOne(t.ends.client.core).OutOfRange?
  }

  /** The service, attached to the same stream, has an ack to write that lies above the cursor of the client. */
  ghost predicate Overtaking(s: System, k: nat) {
    && Sized(s) && k < |s.halves.client|
    && var c, v := s.ends.client.core, s.ends.server.core;
    && s.ends.client.On(k) && !c.closed && c.recv <= c.ackSent && c.sendBase <= c.sendSent <= c.End()
    && s.halves.client[k].gen == Some(c.gen) && s.halves.client[k].inbox == [] && !s.halves.client[k].cut
    && s.ends.server.On(k) && !v.closed && v.ackSent < v.recv && c.sendSent < v.recv
  }

  /** The service writes the ack, the client takes it, and its cursor is below its buffer. */
  lemma AckOvertakes(s: System, k: nat) returns (steps: seq<Step>, t: System)
    requires Overtaking(s, k) && s.ends.server.core.recv <= s.ends.client.core.End()
    ensures FencedRun(s, steps, t) && Panics(t)
  {
    var c := s.ends.client.core;
    var off := s.ends.server.core.recv;
    var s1 := Next(s, Write(Server));
    assert s1.halves.client[k].inbox == [Packet(Ack(off), |s.ends.server.read|, s.ends.server.readEnded)];
    t := Next(s1, Take(Client, k, 0));
    assert t.ends.client.core == ApplyAck(c, c.gen, off);
    steps := [Write(Server)] + [Take(Client, k, 0)];
    RunSnoc(s, [], s, Write(Server));
    RunSnoc(s, [Write(Server)], s1, Take(Client, k, 0));
  }

  /** One more local read makes the client's buffer long enough for the ack. */
  lemma ReadUpTo(s: System, k: nat, data: seq<byte>) returns (steps: seq<Step>, t: System)
    requires Overtaking(s, k) && Enabled(s, LocalRead(Client, data))
    ensures FencedRun(s, steps, t) && Overtaking(t, k)
    ensures t.ends.client.core.End() == s.ends.client.core.End() + |data|
    ensures t.ends.server == s.ends.server
  {
    t := Next(s, LocalRead(Client, data));
    steps := [] + [LocalRead(Client, data)];
    RunSnoc(s, [], s, LocalRead(Client, data));
  }

  /** Once attached, the client can take a local read: its input has not ended and its trimmed buffer is not full. */
  ghost predicate CanRead(s: System, k: nat)
    requires k < |s.halves.server| && s.halves.server[k].told.Some?
  {
    !s.ends.client.readEnded && |s.ends.client.read| - s.halves.server[k].told.value < MAX_UNACKED
  }

  /** No data frame on its way is longer than the write loop makes them. */
  ghost predicate Fit(q: seq<Packet>) { forall p :: p in q && p.frame.Data? ==> |p.frame.payload| <= FRAME_MAX }

  ghost predicate AllFit(s: System) {
    && (forall k :: 0 <= k < |s.halves.client| ==> Fit(s.halves.client[k].inbox))
    && (forall k :: 0 <= k < |s.halves.server| ==> Fit(s.halves.server[k].inbox))
  }

  lemma WriteFits(s: System, x: Side)
    requires Sized(s) && Enabled(s, Write(x)) && AllFit(s)
    ensures AllFit(Next(s, Write(x)))
  {
    var frame := WriteOne(s.ends.At(x).core).frame;
    assert frame.Data? ==> |frame.payload| <= FRAME_MAX;
  }

  lemma StepKeepsFit(s: System, step: Step)
    requires Sized(s) && Enabled(s, step) && AllFit(s)
    ensures AllFit(Next(s, step))
  {
    match step {
      case Write(x) => WriteFits(s, x);
      case _ =>
    }
  }

  /** In every run all frames fit. */
  lemma {:induction false} RunKeepsFit(s: System, steps: seq<Step>, t: System)
    requires Run(s, steps, t) && AllFit(s)
    ensures AllFit(t)
    decreases |steps|
  {
    if steps == [] {
    } else {
      StepKeepsFit(s, steps[0]);
      RunKeepsFit(Next(s, steps[0]), steps[1..], t);
    }
  }

  /** The service can ack more than the client has sent, and at most one frame beyond the client's buffer. */
  ghost predicate Ahead(s: System, t: System, k: nat) {
    && Overtaking(t, k) && t.ends.server.core.recv <= t.ends.client.core.End() + FRAME_MAX
    && t.ends.client.core.End() == s.ends.client.core.End()
         && t.ends.client.core.sendBase == s.ends.client.core.sendBase
    && t.ends.client.readEnded == s.ends.client.readEnded
  }

  ghost predicate ReadyForAck(s: System, k: nat) {
    && k < |s.halves.client|
    && s.halves.client[k].gen == Some(s.ends.client.core.gen) && s.halves.client[k].inbox == []
    && !s.halves.client[k].cut && s.ends.server.core.ackSent <= s.ends.server.core.recv
  }

  /** Nothing is on its way, so the client sends one frame more. */
  lemma AheadBySending(s: System, k: nat, extra: nat) returns (steps: seq<Step>, t: System)
    requires Replaying(s, k, extra) && ReadyForAck(s, k) && extra > 0 && s.halves.server[k].inbox == []
    requires s.ends.server.core.recv <= s.ends.client.core.End()
    ensures FencedRun(s, steps, t) && Ahead(s, t, k)
  {
    var a, m := SendOne(s, k, extra);
    var b;
    b, t := TakeOne(m, k, extra);
    RunConcat(s, a, m, b, t);
    steps := a + b;
    assert t.halves.server[k].inbox == [];
  }

  lemma {:induction false} GetAhead(s: System, k: nat, extra: nat) returns (steps: seq<Step>, t: System)
    requires Replaying(s, k, extra) && ReadyForAck(s, k) && extra > 0 && Fit(s.halves.server[k].inbox)
    requires s.ends.server.core.recv <= s.ends.client.core.End()
    ensures FencedRun(s, steps, t) && Ahead(s, t, k)
    ensures s.ends.client.core.sendSent < s.ends.server.core.recv
            && s.ends.server.core.ackSent < s.ends.server.core.recv
            ==> t == s
    decreases |s.halves.server[k].inbox|
  {
    var q := s.halves.server[k].inbox;
    if s.ends.client.core.sendSent < s.ends.server.core.recv && s.ends.server.core.ackSent < s.ends.server.core.recv {
      steps, t := [], s;
    } else if q == [] {
      steps, t := AheadBySending(s, k, extra);
    } else {
      OnItsWayPops(q, s.ends.server.core.recv - extra, s.ends.client.core.sendSent, s.ends.client);
      var a, m := TakeOne(s, k, extra);
      assert q[0] in q && q == [q[0]] + q[1..];
      if m.ends.server.core.recv <= m.ends.client.core.End() {
        var b;
        b, t := GetAhead(m, k, extra);
        RunConcat(s, a, m, b, t);
        steps := a + b;
      } else {
        steps, t := a, m;
      }
    }
  }

  /** Worse, an ack of the late payload, or of what is replayed after it, overtakes the client's cursor, and its next
      write slices out of range: at once if the payload is still held and the client has not sent it again, after
      some replayed frames otherwise. */
  lemma UnfencedAckPanics(s: System, k: nat) returns (steps: seq<Step>, t: System)
    requires AboutToAttach(s, k) && !s.halves.client[k].cut && !Fenced(s, AttachStep(Server, k))
    requires Fit(s.halves.server[k].inbox)
    requires (s.ends.server.InFlight() > 0 && Sent(s, k) < s.ends.server.Taken()) || CanRead(s, k)
    ensures FencedRun(Next(s, AttachStep(Server, k)), steps, t) && Panics(t)
  {
    AboutFacts(s, k);
    var s1 := Next(s, AttachStep(Server, k));
    var a, j := JoinBoth(s, k);
    var b, m := GetAhead(j, k, s.ends.server.Taken() - s.halves.server[k].told.value);
    RunConcat(s1, a, j, b, m);
    a := a + b;
    var missing := m.ends.server.core.recv - m.ends.client.core.End();
    if missing > 0 {
      var data := seq(missing, i => 0 as byte);
      var c, n := ReadUpTo(m, k, data);
      RunConcat(s1, a, m, c, n);
      a, m := a + c, n;
    }
    b, t := AckOvertakes(m, k);
    RunConcat(s1, a, m, b, t);
    steps := a + b;
  }

  /** Whatever happens from `s` on, as long as later attaches are fenced, the client's writes slice within its
      buffer. */
  ghost predicate SlicesInRange(s: System) {
    forall steps, t :: FencedRun(s, steps, t) ==> !Panics(t)
  }

  lemma BreaksSlices(s: System, steps: seq<Step>, t: System)
    requires FencedRun(s, steps, t) && Panics(t)
    ensures !SlicesInRange(s)
  {
  }

  lemma AttachedSlices(t: System)
    requires Inv(t)
    ensures !Panics(t)
  {
    var p, e := t.ends.client, t.ends.server;
    var he, hp := t.halves.server, t.halves.client;
    assert Direction(e, p, he, hp) && Direction(p, e, hp, he);
    if p.core.stream.Some? {
      assert StreamOk(e, p, he[p.core.stream.value], hp[p.core.stream.value], p.core.stream.value);
    }
  }

  /** The fence is also exactly what keeps the client from slicing out of range, if it can still be acked and read. */
  lemma FenceKeepsSlices(s: System, k: nat)
    requires AboutToAttach(s, k) && !s.halves.client[k].cut && CanRead(s, k) && Fit(s.halves.server[k].inbox)
    ensures Fenced(s, AttachStep(Server, k)) <==> SlicesInRange(Next(s, AttachStep(Server, k)))
  {
    var s1 := Next(s, AttachStep(Server, k));
    if Fenced(s, AttachStep(Server, k)) {
      StepKeepsInv(s, AttachStep(Server, k));
      forall steps, t | FencedRun(s1, steps, t)
        ensures !Panics(t)
      {
        RunKeepsInv(s1, steps, t);
        AttachedSlices(t);
      }
    } else {
      var steps, t := UnfencedAckPanics(s, k);
      BreaksSlices(s1, steps, t);
    }
  }

  // ---- what the handler finds ----

  /** A handler that answers while the service has no stream, on the client's newest hello: delivery and the client's
      slices are safe from its attach on exactly when no payload was held as it answered. */
  lemma AnswerDecidesDelivery(s: System, k: nat, steps: seq<Step>, t: System)
    requires Inv(s) && Detached(s) && Enabled(s, Reply(k))
    requires Run(Next(s, Reply(k)), steps, t) && AboutToAttach(t, k)
    requires forall i :: 0 <= i < |steps| ==> !(steps[i].AttachStep? && steps[i].side.Server?)
    ensures s.ends.server.InFlight() == 0 <==> DeliversPrefix(Next(t, AttachStep(Server, k)))
    ensures !t.halves.client[k].cut && CanRead(t, k) && Fit(t.halves.server[k].inbox) ==>
              (s.ends.server.InFlight() == 0 <==> SlicesInRange(Next(t, AttachStep(Server, k))))
  {
    AnswerDecidesFence(s, k, steps, t);
    FenceIsExact(t, k);
    if !t.halves.client[k].cut && CanRead(t, k) && Fit(t.halves.server[k].inbox) { FenceKeepsSlices(t, k); }
  }
}
