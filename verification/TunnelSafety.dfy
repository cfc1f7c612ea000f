/** Every step of the tunnel keeps the invariant, hence delivery is exact over every fenced run. */
module TunnelSafety {
  import opened Basics
  import opened TunnelCore
  import opened TunnelProtocol
  import opened TunnelInvariant

  // ---- local reads: `p` is the reading end ----

  lemma ReadKeepsOutgoing(e: Endpoint, p: Endpoint, p': Endpoint, he: seq<Half>, hp: seq<Half>, data: seq<byte>)
    requires Direction(e, p, he, hp)
    requires !p.readEnded
    requires p' == p.(core := PumpBytes(p.core, data), read := p.read + data)
    ensures Direction(e, p', he, hp)
  {
    forall k | 0 <= k < |he| ensures StreamOk(e, p', he[k], hp[k], k) {
      assert StreamOk(e, p, he[k], hp[k], k);
      var x := Expected(e, he[k], k);
      if x.Some? {
        InOrderGrow(he[k].inbox, x.value, p.read, data, false, false);
      }
    }
  }

  lemma EndKeepsOutgoing(e: Endpoint, p: Endpoint, p': Endpoint, he: seq<Half>, hp: seq<Half>)
    requires Direction(e, p, he, hp)
    requires p' == p.(core := PumpEnd(p.core), readEnded := true)
    ensures Direction(e, p', he, hp)
  {
    forall k | 0 <= k < |he| ensures StreamOk(e, p', he[k], hp[k], k) {
      assert StreamOk(e, p, he[k], hp[k], k);
      var x := Expected(e, he[k], k);
      if x.Some? {
        InOrderGrow(he[k].inbox, x.value, p.read, [], p.readEnded, true);
        assert p.read + [] == p.read;
      }
    }
  }

  /** Steps of `e` that only touch what it sends change nothing in the direction it receives. */
  lemma SenderFieldsKeepIncoming(e: Endpoint, p: Endpoint, e': Endpoint, he: seq<Half>, hp: seq<Half>)
    requires Direction(e, p, he, hp)
    requires e'.core.stream == e.core.stream && e'.core.gen == e.core.gen && e'.core.closed == e.core.closed
    requires e'.core.ackSent == e.core.ackSent && e'.core.recv == e.core.recv && e'.applying == e.applying
    requires e'.written == e.written
    requires e.core.connDead ==> e'.core.connDead
    ensures Direction(e', p, he, hp)
  {
    forall k | 0 <= k < |he| ensures StreamOk(e', p, he[k], hp[k], k) {
      assert StreamOk(e, p, he[k], hp[k], k);
    }
  }

  // ---- writeLoop ----

  /** The packet `p` writes next. */
  ghost function NextPacket(p: Endpoint): Packet
    requires WriteOne(p.core).Wrote?
  {
    Packet(WriteOne(p.core).frame, |p.read|, p.readEnded)
  }

  /** `p` has written `pkt`: an ack of everything received, or the bytes that follow, or a fin after all of them. */
  ghost predicate Writes(p: Endpoint, p': Endpoint, pkt: Packet) {
    && p' == p.(core := p.core.(sendSent := p'.core.sendSent, ackSent := p'.core.ackSent, finSent := p'.core.finSent))
    && (if pkt.frame.Ack? then p.core.ackSent < pkt.frame.offset == p.core.recv == p'.core.ackSent
        else p'.core.ackSent == p.core.ackSent)
    && (p.core.sendBase <= p.core.sendSent <= |p.read| ==>
          && InOrder([pkt], p.core.sendSent, p.read, p.readEnded)
          && EndOffset([pkt], p.core.sendSent) == p'.core.sendSent <= |p.read|)
  }

  lemma Singleton(pkt: Packet, off: nat, read: seq<byte>, ended: bool)
    ensures InOrder([pkt], off, read, ended) <==>
              match pkt.frame
              case Data(b) => off + |b| <= |read| && read[off..off + |b|] == b
              case Ack(_) => off <= |read|
              case Fin => off == pkt.buffered && off <= |read| && (pkt.readEnded ==> ended && off == |read|)
    ensures EndOffset([pkt], off) == if pkt.frame.Data? then off + |pkt.frame.payload| else off
  {
    assert [pkt][1..] == [];
  }

  lemma WriteOneWrites(p: Endpoint)
    requires WriteOne(p.core).Wrote?
    requires p.core.End() == |p.read| && p.core.sendBuf == p.read[p.core.sendBase..]
    ensures Writes(p, p.(core := WriteOne(p.core).core), NextPacket(p))
  {
    var c := p.core;
    Singleton(NextPacket(p), c.sendSent, p.read, p.readEnded);
    if c.recv <= c.ackSent && c.sendSent < c.End() {
      DataIsHistory(p);
    }
  }

  lemma DataIsHistory(p: Endpoint)
    requires p.core.End() == |p.read| && p.core.sendBuf == p.read[p.core.sendBase..]
    requires p.core.recv <= p.core.ackSent && p.core.sendBase <= p.core.sendSent < p.core.End()
    ensures var w := WriteOne(p.core);
            && w.Wrote? && w.frame.Data? && w.core == p.core.(sendSent := p.core.sendSent + |w.frame.payload|)
            && w.core.sendSent <= |p.read| && p.read[p.core.sendSent..w.core.sendSent] == w.frame.payload
  {
    var c := p.core;
    var start := c.sendSent - c.sendBase;
    var n := Min(FRAME_MAX, |c.sendBuf| - start);
    assert c.sendBuf[start..start + n] == p.read[c.sendSent..c.sendSent + n];
  }

  lemma WriteStreamOutgoing(e: Endpoint, p: Endpoint, p': Endpoint, pkt: Packet, h: Half, h': Half, g: Half, k: nat)
    requires StreamOk(e, p, h, g, k) && p.On(k) && g.gen.Some? && Writes(p, p', pkt)
    requires h' == if h.cut then h else h.(inbox := h.inbox + [pkt])
    ensures StreamOk(e, p', h', g, k)
  {
    var x := Expected(e, h, k);
    InOrderBounds([pkt], p.core.sendSent, p.read, p.readEnded);
    if x.Some? && !h.cut {
      InOrderAppend(h.inbox, x.value, p.read, p.readEnded, pkt);
    }
  }

  lemma WriteKeepsOutgoing(e: Endpoint, p: Endpoint, p': Endpoint, pkt: Packet, he: seq<Half>, he': seq<Half>,
                           hp: seq<Half>)
    requires Direction(e, p, he, hp) && Generations(p, hp)
    requires p.core.stream.Some? && Writes(p, p', pkt)
    requires var k := p.core.stream.value;
             he' == if he[k].cut then he else he[k := he[k].(inbox := he[k].inbox + [pkt])]
    ensures Direction(e, p', he', hp)
  {
    var n := p.core.stream.value;
    forall k | 0 <= k < |he| ensures StreamOk(e, p', he'[k], hp[k], k) {
      assert StreamOk(e, p, he[k], hp[k], k);
      if k == n { WriteStreamOutgoing(e, p, p', pkt, he[k], he'[k], hp[k], k); }
    }
  }

  lemma WriteStreamIncoming(e: Endpoint, p: Endpoint, e': Endpoint, pkt: Packet, h: Half, g: Half, g': Half, k: nat)
    requires StreamOk(e, p, h, g, k) && e.On(k) && h.gen.Some? && e.core.ackSent <= e.core.recv
    requires Writes(e, e', pkt)
    requires g' == if g.cut then g else g.(inbox := g.inbox + [pkt])
    ensures StreamOk(e', p, h, g', k)
  {
    if p.On(k) {
      InOrderBounds(h.inbox, e.Taken(), p.read, p.readEnded);
      if !g.cut { RisingAppend(g.inbox, p.core.sendBase, pkt); }
    }
  }

  lemma WriteKeepsIncoming(e: Endpoint, p: Endpoint, e': Endpoint, pkt: Packet, he: seq<Half>, hp: seq<Half>,
                           hp': seq<Half>)
    requires Direction(e, p, he, hp)
    requires e.core.stream.Some? && Writes(e, e', pkt)
    requires var k := e.core.stream.value;
             hp' == if hp[k].cut then hp else hp[k := hp[k].(inbox := hp[k].inbox + [pkt])]
    ensures Direction(e', p, he, hp')
  {
    var n := e.core.stream.value;
    forall k | 0 <= k < |he| ensures StreamOk(e', p, he[k], hp'[k], k) {
      assert StreamOk(e, p, he[k], hp[k], k);
      if k == n { WriteStreamIncoming(e, p, e', pkt, he[k], hp[k], hp'[k], k); }
    }
  }

  // ---- steps that at most drop a stream, set flags and consume a frame without effect on the window ----

  ghost predicate StaysOrLeaves(e: Endpoint, e': Endpoint) {
    e'.core.stream == e.core.stream || e'.core.stream == None
  }

  ghost function Pop(h: Half): Half
    requires h.inbox != []
  {
    h.(inbox := h.inbox[1..])
  }

  lemma QuietStreamIncoming(e: Endpoint, p: Endpoint, e': Endpoint, h: Half, h': Half, g: Half, k: nat)
    requires StreamOk(e, p, h, g, k) && (e.On(k) ==> h.gen.Some?)
    requires StaysOrLeaves(e, e') && e'.applying == e.applying
    requires e'.core.recv == e.core.recv && e'.core.ackSent == e.core.ackSent
    requires h' == h || (h.inbox != [] && h.gen.Some? && h' == Pop(h) && (e'.On(k) ==> !h.inbox[0].frame.Data?))
    ensures StreamOk(e', p, h', g, k)
  {
  }

  lemma QuietIncoming(e: Endpoint, p: Endpoint, e': Endpoint, he: seq<Half>, he': seq<Half>, hp: seq<Half>, n: nat)
    requires Direction(e, p, he, hp)
    requires StaysOrLeaves(e, e') && e'.applying == e.applying && e'.written == e.written
    requires e'.core.recv == e.core.recv && e'.core.ackSent == e.core.ackSent
    requires e'.ConnAlive() ==> e.ConnAlive()
    requires e.core.gen <= e'.core.gen
             && (e'.core.stream.Some? ==> e'.core.gen == e.core.gen && e'.core.closed == e.core.closed)
    requires e'.core.stream.None?
             ==> e'.core.closed || (e.core.stream.None? && e'.core.gen == e.core.gen) || e.core.gen < e'.core.gen
    requires e.core.closed ==> e'.core.closed
    requires he' == he || (n < |he| && he[n].inbox != [] && he[n].gen.Some? && he' == he[n := Pop(he[n])]
                           && (e'.On(n) ==> !he[n].inbox[0].frame.Data?))
    ensures Direction(e', p, he', hp)
  {
    forall k | 0 <= k < |he| ensures StreamOk(e', p, he'[k], hp[k], k) {
      assert StreamOk(e, p, he[k], hp[k], k);
      QuietStreamIncoming(e, p, e', he[k], he'[k], hp[k], k);
    }
  }

  lemma QuietStreamOutgoing(e: Endpoint, p: Endpoint, p': Endpoint, h: Half, g: Half, g': Half, k: nat)
    requires StreamOk(e, p, h, g, k)
    requires StaysOrLeaves(p, p') && p'.read == p.read && p'.readEnded == p.readEnded
    requires p'.core.sendSent == p.core.sendSent && p'.core.sendBase == p.core.sendBase
    requires g' == g || (g.inbox != [] && g.gen.Some? && g' == Pop(g) && (p'.On(k) ==> !g.inbox[0].frame.Ack?))
    ensures StreamOk(e, p', h, g', k)
  {
  }

  lemma QuietOutgoing(e: Endpoint, p: Endpoint, p': Endpoint, he: seq<Half>, hp: seq<Half>, hp': seq<Half>, n: nat)
    requires Direction(e, p, he, hp)
    requires StaysOrLeaves(p, p') && p'.read == p.read && p'.readEnded == p.readEnded
    requires p'.core.sendSent == p.core.sendSent && p'.core.sendBase == p.core.sendBase
             && p'.core.sendBuf == p.core.sendBuf
    requires hp' == hp || (n < |hp| && hp[n].inbox != [] && hp[n].gen.Some? && hp' == hp[n := Pop(hp[n])]
                           && (p'.On(n) ==> !hp[n].inbox[0].frame.Ack?))
    ensures Direction(e, p', he, hp')
  {
    forall k | 0 <= k < |he| ensures StreamOk(e, p', he[k], hp'[k], k) {
      assert StreamOk(e, p, he[k], hp[k], k);
      QuietStreamOutgoing(e, p, p', he[k], hp[k], hp'[k], k);
    }
  }

  // ---- applyData, applyAck ----

  lemma TakeDataStream(e: Endpoint, p: Endpoint, e': Endpoint, h: Half, g: Half, k: nat, payload: seq<byte>)
    requires StreamOk(e, p, h, g, k) && e.On(k)
    requires h.inbox != [] && h.inbox[0].frame == Data(payload)
    requires e'.core == e.core && e'.Taken() == e.Taken() + |payload|
    ensures StreamOk(e', p, Pop(h), g, k)
  {
  }

  lemma TakeDataDelivers(e: Endpoint, p: Endpoint, h: Half, payload: seq<byte>, wrote: nat)
    requires Delivered(e, p) && e.applying.None? && InOrder(h.inbox, e.Taken(), p.read, p.readEnded)
    requires h.inbox != [] && h.inbox[0].frame == Data(payload) && wrote <= |payload|
    ensures Delivered(Receive(e, e.core.gen, Data(payload), wrote), p)
  {
    InOrderBounds(h.inbox, e.Taken(), p.read, p.readEnded);
    assert p.read[e.Taken()..e.Taken() + |payload|] == payload;
    if e.ConnAlive() {
      assert e.written + payload[..wrote] == p.read[..e.Taken() + wrote];
    }
  }

  lemma TakeDataIncoming(e: Endpoint, p: Endpoint, e': Endpoint, he: seq<Half>, hp: seq<Half>, n: nat, wrote: nat)
    requires Direction(e, p, he, hp)
    requires e.On(n) && he[n].inbox != [] && he[n].inbox[0].frame.Data? && e.applying.None?
    requires wrote <= |he[n].inbox[0].frame.payload|
    requires e' == Receive(e, e.core.gen, he[n].inbox[0].frame, wrote)
    ensures Direction(e', p, he[n := Pop(he[n])], hp)
  {
    var payload := he[n].inbox[0].frame.payload;
    assert StreamOk(e, p, he[n], hp[n], n);
    TakeDataDelivers(e, p, he[n], payload, wrote);
    forall k | 0 <= k < |he| ensures StreamOk(e', p, he[n := Pop(he[n])][k], hp[k], k) {
      assert StreamOk(e, p, he[k], hp[k], k);
      if k == n { TakeDataStream(e, p, e', he[k], hp[k], k, payload); }
    }
  }

  /** Acks of an honest peer are never out of range, so each one moves the window. */
  lemma TakeAckStream(e: Endpoint, p: Endpoint, p': Endpoint, h: Half, g: Half, k: nat)
    requires StreamOk(e, p, h, g, k) && p.On(k)
    requires g.inbox != [] && g.inbox[0].frame.Ack?
    requires p' == p.(core := p.core.(sendBuf := p'.core.sendBuf, sendBase := g.inbox[0].frame.offset))
    ensures StreamOk(e, p', h, Pop(g), k)
  {
    RisingLast(g.inbox, p.core.sendBase);
  }

  /** What an ack on its way to `p` does to its window. */
  lemma TakeAckWindow(e: Endpoint, p: Endpoint, h: Half, g: Half, k: nat)
    requires Window(e, p) && StreamOk(e, p, h, g, k) && p.On(k) && !p.core.closed
    requires g.inbox != [] && g.inbox[0].frame.Ack?
    ensures var p' := Receive(p, p.core.gen, g.inbox[0].frame, 0);
            && p' == p.(core := p.core.(sendBuf := p'.core.sendBuf, sendBase := g.inbox[0].frame.offset))
            && Window(e, p')
  {
    RisingLast(g.inbox, p.core.sendBase);
  }

  lemma TakeAckOutgoing(e: Endpoint, p: Endpoint, p': Endpoint, he: seq<Half>, hp: seq<Half>, n: nat)
    requires Direction(e, p, he, hp) && !p.core.closed
    requires p.On(n) && n < |hp| && hp[n].inbox != [] && hp[n].inbox[0].frame.Ack?
    requires p' == Receive(p, p.core.gen, hp[n].inbox[0].frame, 0)
    ensures p'.core.sendBase == hp[n].inbox[0].frame.offset
    ensures Direction(e, p', he, hp[n := Pop(hp[n])])
  {
    assert StreamOk(e, p, he[n], hp[n], n);
    TakeAckWindow(e, p, he[n], hp[n], n);
    forall k | 0 <= k < |he| ensures StreamOk(e, p', he[k], hp[n := Pop(hp[n])][k], k) {
      assert StreamOk(e, p, he[k], hp[k], k);
      if k == n {
        TakeAckStream(e, p, p', he[k], hp[k], k);
      } else {
        OtherStream(e, p, p', he[k], hp[k], k);
      }
    }
  }

  /** The window of `p` does not matter to a stream that it is not attached to. */
  lemma OtherStream(e: Endpoint, p: Endpoint, p': Endpoint, h: Half, g: Half, k: nat)
    requires StreamOk(e, p, h, g, k) && !p.On(k)
    requires p'.core.stream == p.core.stream && p'.read == p.read && p'.readEnded == p.readEnded
    ensures StreamOk(e, p', h, g, k)
  {
  }

  lemma FinishIncoming(e: Endpoint, p: Endpoint, e': Endpoint, he: seq<Half>, hp: seq<Half>)
    requires Direction(e, p, he, hp) && e.applying.Some?
    requires e' == e.(core := FinishApply(e.core, |e.applying.value.payload|, e.applying.value.failed),
             applying := None)
    ensures Direction(e', p, he, hp)
  {
    forall k | 0 <= k < |he| ensures StreamOk(e', p, he[k], hp[k], k) {
      assert StreamOk(e, p, he[k], hp[k], k);
    }
  }

  // ---- the network and the handshake ----

  lemma LoseIncoming(e: Endpoint, p: Endpoint, he: seq<Half>, hp: seq<Half>, n: nat, keep: nat)
    requires Direction(e, p, he, hp) && n < |he| && keep <= |he[n].inbox|
    ensures Direction(e, p, he[n := he[n].(inbox := he[n].inbox[..keep], cut := true)], hp)
  {
    var he' := he[n := he[n].(inbox := he[n].inbox[..keep], cut := true)];
    forall k | 0 <= k < |he| ensures StreamOk(e, p, he'[k], hp[k], k) {
      assert StreamOk(e, p, he[k], hp[k], k);
      var x := Expected(e, he[k], k);
      if k == n && x.Some? { InOrderPrefix(he[k].inbox, x.value, p.read, p.readEnded, keep); }
    }
  }

  lemma LoseOutgoing(e: Endpoint, p: Endpoint, he: seq<Half>, hp: seq<Half>, n: nat, keep: nat)
    requires Direction(e, p, he, hp) && n < |hp| && keep <= |hp[n].inbox|
    ensures Direction(e, p, he, hp[n := hp[n].(inbox := hp[n].inbox[..keep], cut := true)])
  {
    var hp' := hp[n := hp[n].(inbox := hp[n].inbox[..keep], cut := true)];
    forall k | 0 <= k < |he| ensures StreamOk(e, p, he[k], hp'[k], k) {
      assert StreamOk(e, p, he[k], hp[k], k);
      if k == n && p.On(k) { RisingPrefix(hp[k].inbox, p.core.sendBase, keep); }
    }
  }

  lemma NewStream(e: Endpoint, p: Endpoint, he: seq<Half>, hp: seq<Half>, h: Half, g: Half)
    requires Direction(e, p, he, hp) && Generations(p, hp)
    requires h.inbox == [] && g.inbox == [] && h.gen.None? && g.gen.None?
    requires h.told == Some(e.core.recv) || h.told.None?
    ensures Direction(e, p, he + [h], hp + [g])
  {
    forall k | 0 <= k < |he| + 1 ensures StreamOk(e, p, (he + [h])[k], (hp + [g])[k], k) {
      if k < |he| { assert StreamOk(e, p, he[k], hp[k], k); }
    }
  }

  lemma TellIncoming(e: Endpoint, p: Endpoint, he: seq<Half>, hp: seq<Half>, n: nat)
    requires Direction(e, p, he, hp) && Generations(p, hp) && n < |he| && he[n].told.None?
    ensures Direction(e, p, he[n := he[n].(told := Some(e.core.recv))], hp)
  {
    var he' := he[n := he[n].(told := Some(e.core.recv))];
    forall k | 0 <= k < |he| ensures StreamOk(e, p, he'[k], hp[k], k) {
      assert StreamOk(e, p, he[k], hp[k], k);
    }
  }

  lemma TellOutgoing(e: Endpoint, p: Endpoint, he: seq<Half>, hp: seq<Half>, n: nat)
    requires Direction(e, p, he, hp) && n < |he|
    ensures Direction(e, p, he, hp[n := hp[n].(told := Some(p.core.recv))])
  {
    var hp' := hp[n := hp[n].(told := Some(p.core.recv))];
    forall k | 0 <= k < |he| ensures StreamOk(e, p, he[k], hp'[k], k) {
      assert StreamOk(e, p, he[k], hp[k], k);
    }
  }

  // ---- attach ----

  lemma AttachIncoming(e: Endpoint, p: Endpoint, c: Core, he: seq<Half>, hp: seq<Half>, n: nat, peerRecv: nat)
    requires Direction(e, p, he, hp) && n < |he| && he[n].gen.None?
    requires he[n].told == Some(e.Taken())
    requires Attach(e.core, n, peerRecv) == Attached(c)
    ensures Direction(e.(core := c), p, he[n := he[n].(gen := Some(c.gen))], hp)
  {
    var e' := e.(core := c);
    var he' := he[n := he[n].(gen := Some(c.gen))];
    assert StreamOk(e, p, he[n], hp[n], n);
    forall k | 0 <= k < |he| ensures StreamOk(e', p, he'[k], hp[k], k) {
      assert StreamOk(e, p, he[k], hp[k], k);
      if k == n && p.On(k) { NoAcksLast(hp[k].inbox, p.core.sendBase); }
    }
  }

  lemma AttachOutgoing(e: Endpoint, p: Endpoint, c: Core, he: seq<Half>, hp: seq<Half>, n: nat)
    requires Direction(e, p, he, hp) && Generations(p, hp) && n < |he| && hp[n].gen.None? && he[n].told.Some?
    requires Attach(p.core, n, he[n].told.value) == Attached(c)
    ensures Direction(e, p.(core := c), he, hp[n := hp[n].(gen := Some(c.gen))])
  {
    var p' := p.(core := c);
    var hp' := hp[n := hp[n].(gen := Some(c.gen))];
    assert StreamOk(e, p, he[n], hp[n], n);
    assert p'.core.sendBuf == p'.read[p'.core.sendBase..];
    forall k | 0 <= k < |he| ensures StreamOk(e, p', he[k], hp'[k], k) {
      assert StreamOk(e, p, he[k], hp[k], k);
      if k == n { NoAcksLast(hp[k].inbox, p'.core.sendBase); }
    }
  }

  // ---- whole steps ----

  ghost predicate Both(s: System) { Sized(s) && Toward(s, Client) && Toward(s, Server) }

  lemma LocalReadStep(s: System, x: Side, data: seq<byte>)
    requires Both(s) && Enabled(s, LocalRead(x, data))
    ensures Both(Next(s, LocalRead(x, data)))
  {
    var t := Next(s, LocalRead(x, data));
    var e, p := s.ends.At(x), s.ends.At(x.Other());
    var he, hp := s.halves.At(x), s.halves.At(x.Other());
    assert Direction(e, p, he, hp) && Direction(p, e, hp, he);
    ReadKeepsOutgoing(p, e, t.ends.At(x), hp, he, data);
    SenderFieldsKeepIncoming(e, p, t.ends.At(x), he, hp);
  }

  lemma LocalEndStep(s: System, x: Side)
    requires Both(s) && Enabled(s, LocalEnd(x))
    ensures Both(Next(s, LocalEnd(x)))
  {
    var t := Next(s, LocalEnd(x));
    var e, p := s.ends.At(x), s.ends.At(x.Other());
    var he, hp := s.halves.At(x), s.halves.At(x.Other());
    assert Direction(e, p, he, hp) && Direction(p, e, hp, he);
    EndKeepsOutgoing(p, e, t.ends.At(x), hp, he);
    SenderFieldsKeepIncoming(e, p, t.ends.At(x), he, hp);
  }

  lemma FinishStep(s: System, x: Side)
    requires Both(s) && Enabled(s, Finish(x))
    ensures Both(Next(s, Finish(x)))
  {
    var t := Next(s, Finish(x));
    var e, p := s.ends.At(x), s.ends.At(x.Other());
    var he, hp := s.halves.At(x), s.halves.At(x.Other());
    assert Direction(e, p, he, hp) && Direction(p, e, hp, he);
    FinishIncoming(e, p, t.ends.At(x), he, hp);
    QuietOutgoing(p, e, t.ends.At(x), hp, he, he, 0);
  }

  lemma LeaveStep(s: System, x: Side, step: Step)
    requires Both(s) && Enabled(s, step) && (step == DetachStep(x) || step == Close(x))
    ensures Both(Next(s, step))
  {
    var t := Next(s, step);
    var e, p := s.ends.At(x), s.ends.At(x.Other());
    var he, hp := s.halves.At(x), s.halves.At(x.Other());
    assert Direction(e, p, he, hp) && Direction(p, e, hp, he);
    QuietIncoming(e, p, t.ends.At(x), he, he, hp, 0);
    QuietOutgoing(p, e, t.ends.At(x), hp, he, he, 0);
  }

  lemma WriteStep(s: System, x: Side)
    requires Both(s) && Enabled(s, Write(x))
    ensures Both(Next(s, Write(x)))
  {
    var t := Next(s, Write(x));
    var e, p := s.ends.At(x), s.ends.At(x.Other());
    var he, hp := s.halves.At(x), s.halves.At(x.Other());
    assert Direction(e, p, he, hp) && Direction(p, e, hp, he);
    WriteOneWrites(e);
    WriteKeepsOutgoing(p, e, t.ends.At(x), NextPacket(e), hp, t.halves.At(x.Other()), he);
    WriteKeepsIncoming(e, p, t.ends.At(x), NextPacket(e), he, hp, t.halves.At(x.Other()));
  }

  lemma TakeDataStep(s: System, x: Side, k: nat, wrote: nat)
    requires Both(s) && Enabled(s, Take(x, k, wrote))
    requires s.halves.At(x)[k].inbox[0].frame.Data? && Accepts(s.ends.At(x).core, s.halves.At(x)[k].gen.value)
    ensures Both(Next(s, Take(x, k, wrote)))
  {
    var t := Next(s, Take(x, k, wrote));
    var e, p := s.ends.At(x), s.ends.At(x.Other());
    var he, hp := s.halves.At(x), s.halves.At(x.Other());
    assert Direction(e, p, he, hp) && Direction(p, e, hp, he);
    TakeDataIncoming(e, p, t.ends.At(x), he, hp, k, wrote);
    QuietOutgoing(p, e, t.ends.At(x), hp, he, t.halves.At(x), k);
  }

  lemma TakeAckStep(s: System, x: Side, k: nat, wrote: nat)
    requires Both(s) && Enabled(s, Take(x, k, wrote))
    requires s.halves.At(x)[k].inbox[0].frame.Ack? && Accepts(s.ends.At(x).core, s.halves.At(x)[k].gen.value)
    ensures Both(Next(s, Take(x, k, wrote)))
  {
    var t := Next(s, Take(x, k, wrote));
    var e, p := s.ends.At(x), s.ends.At(x.Other());
    var he, hp := s.halves.At(x), s.halves.At(x.Other());
    assert Direction(e, p, he, hp) && Direction(p, e, hp, he);
    TakeAckOutgoing(p, e, t.ends.At(x), hp, he, k);
    QuietIncoming(e, p, t.ends.At(x), he, t.halves.At(x), hp, k);
  }

  /** A fin, or any frame of a replaced stream: the generation check makes the latter a no-op. */
  lemma TakeQuietStep(s: System, x: Side, k: nat, wrote: nat)
    requires Both(s) && Enabled(s, Take(x, k, wrote))
    requires s.halves.At(x)[k].inbox[0].frame.Fin? || !Accepts(s.ends.At(x).core, s.halves.At(x)[k].gen.value)
    ensures Both(Next(s, Take(x, k, wrote)))
  {
    var t := Next(s, Take(x, k, wrote));
    var e, p := s.ends.At(x), s.ends.At(x.Other());
    var he, hp := s.halves.At(x), s.halves.At(x.Other());
    assert Direction(e, p, he, hp) && Direction(p, e, hp, he);
    QuietIncoming(e, p, t.ends.At(x), he, t.halves.At(x), hp, k);
    QuietOutgoing(p, e, t.ends.At(x), hp, he, t.halves.At(x), k);
  }

  lemma LoseStep(s: System, x: Side, k: nat, keep: nat)
    requires Both(s) && Enabled(s, Lose(x, k, keep))
    ensures Both(Next(s, Lose(x, k, keep)))
  {
    var t := Next(s, Lose(x, k, keep));
    var e, p := s.ends.At(x), s.ends.At(x.Other());
    var he, hp := s.halves.At(x), s.halves.At(x.Other());
    assert Direction(e, p, he, hp) && Direction(p, e, hp, he);
    LoseIncoming(e, p, he, hp, k, keep);
    LoseOutgoing(p, e, hp, he, k, keep);
  }

  lemma HelloStep(s: System)
    requires Both(s) && Enabled(s, Hello)
    ensures Both(Next(s, Hello))
  {
    var c, v := s.ends.client, s.ends.server;
    var hc, hv := s.halves.client, s.halves.server;
    assert Toward(s, Client) && Toward(s, Server);
    NewStream(c, v, hc, hv, Half(Some(c.core.recv), [], false, None), Half(None, [], false, None));
    NewStream(v, c, hv, hc, Half(None, [], false, None), Half(Some(c.core.recv), [], false, None));
  }

  lemma ReplyStep(s: System, k: nat)
    requires Both(s) && Enabled(s, Reply(k))
    ensures Both(Next(s, Reply(k)))
  {
    var c, v := s.ends.client, s.ends.server;
    var hc, hv := s.halves.client, s.halves.server;
    assert Toward(s, Client) && Toward(s, Server);
    TellIncoming(v, c, hv, hc, k);
    TellOutgoing(c, v, hc, hv, k);
  }

  /** An attach between honest ends keeps everything, provided the count this end told is still current. */
  lemma AttachKeepsBoth(s: System, x: Side, k: nat)
    requires Both(s) && Enabled(s, AttachStep(x, k))
    requires s.halves.At(x)[k].told.value == s.ends.At(x).Taken()
    ensures Both(Next(s, AttachStep(x, k)))
  {
    var t := Next(s, AttachStep(x, k));
    var e, p := s.ends.At(x), s.ends.At(x.Other());
    var he, hp := s.halves.At(x), s.halves.At(x.Other());
    assert Direction(e, p, he, hp) && Direction(p, e, hp, he);
    var result := Attach(e.core, k, hp[k].told.value);
    if result.Attached? {
      AttachIncoming(e, p, result.core, he, hp, k, hp[k].told.value);
      AttachOutgoing(p, e, result.core, hp, he, k);
    } else {
      QuietIncoming(e, p, t.ends.At(x), he, he, hp, 0);
      QuietOutgoing(p, e, t.ends.At(x), hp, he, he, 0);
    }
  }

  /** The client attaches only from `resumeTunnel`, after `finishDetach`: its own fence always holds. */
  lemma ClientIsFenced(s: System, k: nat)
    requires Inv(s) && Enabled(s, AttachStep(Client, k))
    ensures s.halves.client[k].told.value == s.ends.client.Taken()
  {
  }

  lemma StepKeepsBoth(s: System, step: Step)
    requires Inv(s) && Enabled(s, step) && Fenced(s, step)
    ensures Both(Next(s, step))
  {
    assert Both(s);
    match step {
      case LocalRead(x, data) => LocalReadStep(s, x, data);
      case LocalEnd(x) => LocalEndStep(s, x);
      case Write(x) => WriteStep(s, x);
      case Take(x, k, wrote) =>
        if s.halves.At(x)[k].inbox[0].frame.Fin? || !Accepts(s.ends.At(x).core, s.halves.At(x)[k].gen.value) {
          TakeQuietStep(s, x, k, wrote);
        } else if s.halves.At(x)[k].inbox[0].frame.Data? {
          TakeDataStep(s, x, k, wrote);
        } else {
          TakeAckStep(s, x, k, wrote);
        }
      case Finish(x) => FinishStep(s, x);
      case DetachStep(x) => LeaveStep(s, x, step);
      case Close(x) => LeaveStep(s, x, step);
      case Lose(x, k, keep) => LoseStep(s, x, k, keep);
      case Hello => HelloStep(s);
      case Reply(k) => ReplyStep(s, k);
      case AttachStep(x, k) =>
        if x.Client? { ClientIsFenced(s, k); }
        AttachKeepsBoth(s, x, k);
    }
  }

  /** Same streams, same handshake, and the client took, trimmed and attached to nothing. */
  ghost predicate SameHandshake(s: System, t: System)
    requires Sized(s) && Sized(t)
  {
    && |t.halves.client| == |s.halves.client|
    && StaysOrLeaves(s.ends.client, t.ends.client)
    && (forall k :: 0 <= k < |s.halves.client| ==>
          && t.halves.client[k].told == s.halves.client[k].told && t.halves.client[k].gen == s.halves.client[k].gen
          && t.halves.server[k].told == s.halves.server[k].told && t.halves.server[k].gen == s.halves.server[k].gen)
  }

  lemma QuietNewest(s: System, t: System)
    requires Sized(s) && Newest(s) && Sized(t) && SameHandshake(s, t)
    requires t.ends.client.Taken() != s.ends.client.Taken() ==>
               exists k: nat :: s.ends.client.On(k) && k < |s.halves.client| && s.halves.client[k].gen.Some?
                   && s.halves.server[k].gen.Some?
    requires t.ends.client.core.sendBase != s.ends.client.core.sendBase ==>
               exists k: nat :: s.ends.client.On(k) && k < |s.halves.client| && s.halves.client[k].gen.Some?
    ensures Newest(t)
  {
  }

  lemma TakeNewest(s: System, x: Side, k: nat, wrote: nat)
    requires Inv(s) && Enabled(s, Take(x, k, wrote))
    ensures Newest(Next(s, Take(x, k, wrote)))
  {
    var t := Next(s, Take(x, k, wrote));
    var e := s.ends.client;
    assert SameHandshake(s, t);
    assert Generations(e, s.halves.client);
    assert StreamOk(e, s.ends.server, s.halves.client[k], s.halves.server[k], k);
    QuietNewest(s, t);
  }

  lemma LocalNewest(s: System, step: Step)
    requires Inv(s) && Enabled(s, step)
    requires step.LocalRead? || step.LocalEnd? || step.Finish? || step.DetachStep? || step.Close?
    ensures Newest(Next(s, step))
  {
    var t := Next(s, step);
    assert t.halves == s.halves;
    assert t.ends.client.Taken() == s.ends.client.Taken() && t.ends.client.core.sendBase == s.ends.client.core.sendBase;
    QuietNewest(s, t);
  }

  lemma LoseNewest(s: System, x: Side, k: nat, keep: nat)
    requires Inv(s) && Enabled(s, Lose(x, k, keep))
    ensures Newest(Next(s, Lose(x, k, keep)))
  {
    QuietNewest(s, Next(s, Lose(x, k, keep)));
  }

  lemma WriteHandshake(s: System, x: Side)
    requires Sized(s) && Enabled(s, Write(x))
    ensures var t := Next(s, Write(x));
            && Sized(t) && SameHandshake(s, t) && t.ends.client.Taken() == s.ends.client.Taken()
            && t.ends.client.core.sendBase == s.ends.client.core.sendBase
  {
    var c, c' := s.ends.At(x).core, Next(s, Write(x)).ends.At(x).core;
    assert c' == WriteOne(c).core && c'.stream == c.stream && c'.recv == c.recv && c'.sendBase == c.sendBase;
  }

  lemma WriteNewest(s: System, x: Side)
    requires Inv(s) && Enabled(s, Write(x))
    ensures Newest(Next(s, Write(x)))
  {
    WriteHandshake(s, x);
    QuietNewest(s, Next(s, Write(x)));
  }

  lemma HelloNewest(s: System)
    requires Inv(s) && Enabled(s, Hello)
    ensures Newest(Next(s, Hello))
  {
  }

  lemma ReplyNewest(s: System, k: nat)
    requires Inv(s) && Enabled(s, Reply(k))
    ensures Newest(Next(s, Reply(k)))
  {
    assert Window(s.ends.server, s.ends.client);
  }

  lemma ClientAttachNewest(s: System, k: nat)
    requires Inv(s) && Enabled(s, AttachStep(Client, k))
    ensures Newest(Next(s, AttachStep(Client, k)))
  {
  }

  lemma ServerAttachNewest(s: System, k: nat)
    requires Inv(s) && Enabled(s, AttachStep(Server, k))
    ensures Newest(Next(s, AttachStep(Server, k)))
  {
    var t := Next(s, AttachStep(Server, k));
    assert t.ends.client == s.ends.client && t.halves.client == s.halves.client;
    assert forall j :: 0 <= j < |s.halves.server| ==> t.halves.server[j].told == s.halves.server[j].told;
  }

  lemma AttachNewest(s: System, x: Side, k: nat)
    requires Inv(s) && Enabled(s, AttachStep(x, k))
    ensures Newest(Next(s, AttachStep(x, k)))
  {
    if x.Client? {
      ClientAttachNewest(s, k);
    } else {
      ServerAttachNewest(s, k);
    }
  }

  lemma StepKeepsNewest(s: System, step: Step)
    requires Inv(s) && Enabled(s, step)
    ensures Newest(Next(s, step))
  {
    match step {
      case Take(x, k, wrote) => TakeNewest(s, x, k, wrote);
      case Write(x) => WriteNewest(s, x);
      case Lose(x, k, keep) => LoseNewest(s, x, k, keep);
      case Hello => HelloNewest(s);
      case Reply(k) => ReplyNewest(s, k);
      case AttachStep(x, k) => AttachNewest(s, x, k);
      case _ => LocalNewest(s, step);
    }
  }

  lemma StepKeepsInv(s: System, step: Step)
    requires Inv(s) && Enabled(s, step) && Fenced(s, step)
    ensures Inv(Next(s, step))
  {
    StepKeepsBoth(s, step);
    StepKeepsNewest(s, step);
  }

  lemma {:induction false} RunKeepsInv(s: System, steps: seq<Step>, t: System)
    requires Inv(s) && FencedRun(s, steps, t)
    ensures Inv(t)
    decreases |steps|
  {
    if steps == [] {
    } else {
      StepKeepsInv(s, steps[0]);
      RunKeepsInv(Next(s, steps[0]), steps[1..], t);
    }
  }
}
