/**
 The session object of realm/features/services/session.go. Each method is proved against the steps of TunnelProtocol,
 and the two loops against what they do to the byte stream.
 */
module TunnelSession {
  import opened Basics
  import opened TunnelCore
  import opened TunnelProtocol
  import opened FrameCodec

  /** A session end together with the bytes its local socket still accepts; a closed socket accepts none. */
  datatype Running = Running(end: Endpoint, room: nat)

  function Accepted(r: Running, p: seq<byte>): nat {
    if r.end.core.connDead then 0 else Min(r.room, |p|)
  }

  /** `applyData` from start to finish: a Take step of the protocol followed by its Finish step. */
  function Applied(r: Running, gen: nat, p: seq<byte>): Running {
    var wrote := Accepted(r, p);
    var e := Receive(r.end, gen, Data(p), wrote);
    if e.applying.None? then r
    else Running(e.(core := FinishApply(e.core, |p|, e.applying.value.failed), applying := None),
                 if r.end.core.connDead then r.room else if wrote < |p| then 0 else r.room - |p|)
  }

  /** One frame handled by the read loop of generation `gen`, and whether that loop goes on. */
  function Handled(r: Running, gen: nat, f: Frame): (Running, bool) {
    if !Accepts(r.end.core, gen) then (r, false)
    else match f
      case Data(p) => (Applied(r, gen, p), true)
      case Ack(_) => (r.(end := Receive(r.end, gen, f, 0)), true)
      case Fin => (Running(Receive(r.end, gen, f, 0), 0), !r.end.core.finSent)
  }

  function HandledAll(r: Running, gen: nat, fs: seq<Frame>): (Running, bool)
    decreases |fs|
  {
    if fs == [] then (r, true)
    else
      var (r', more) := Handled(r, gen, fs[0]);
      if more then HandledAll(r', gen, fs[1..]) else (r', false)
  }

  /** `unsent` cut into frames of FRAME_MAX bytes. */
  function Chunks(unsent: seq<byte>): seq<Frame>
    decreases |unsent|
  {
    if unsent == [] then []
    else
      var n := Min(FRAME_MAX, |unsent|);
      [Data(unsent[..n])] + Chunks(unsent[n..])
  }

  function Unsent(c: Core): seq<byte>
    requires c.sendBase <= c.sendSent <= c.End()
  {
    c.sendBuf[c.sendSent - c.sendBase..]
  }

  /** All a write loop has to send: one ack, the unsent bytes, then the fin. */
  function Outgoing(c: Core): seq<Frame>
    requires c.sendBase <= c.sendSent <= c.End()
  {
    (if c.recv > c.ackSent then [Ack(c.recv)] else [])
    + Chunks(Unsent(c))
    + (if c.finQueued && !c.finSent then [Fin] else [])
  }

  function AllSent(c: Core): Core
    requires c.ackSent <= c.recv
  {
    c.(ackSent := c.recv, sendSent := c.End(), finSent := c.finSent || c.finQueued)
  }

  ghost predicate Ready(c: Core) { c.ackSent <= c.recv && c.sendBase <= c.sendSent <= c.End() }

  lemma FirstIsAck(c: Core)
    requires Ready(c) && c.recv > c.ackSent
    ensures WriteOne(c) == Wrote(c.(ackSent := c.recv), Ack(c.recv))
    ensures Outgoing(c) == [Ack(c.recv)] + Outgoing(c.(ackSent := c.recv))
    ensures AllSent(c.(ackSent := c.recv)) == AllSent(c)
  {
    var c' := c.(ackSent := c.recv);
    var fin := if c.finQueued && !c.finSent then [Fin] else [];
    assert Unsent(c') == Unsent(c);
    assert Outgoing(c') == Chunks(Unsent(c)) + fin;
    assert Outgoing(c) == [Ack(c.recv)] + Chunks(Unsent(c)) + fin;
  }

  function FinLeft(c: Core): seq<Frame> { if c.finQueued && !c.finSent then [Fin] else [] }

  lemma OutgoingAfterAck(c: Core)
    requires Ready(c) && c.recv <= c.ackSent
    ensures Outgoing(c) == Chunks(Unsent(c)) + FinLeft(c)
  {
  }

  lemma FirstIsData(c: Core, n: nat)
    requires Ready(c) && c.recv <= c.ackSent && c.sendSent < c.End() && n == Min(FRAME_MAX, |Unsent(c)|)
    ensures WriteOne(c) == Wrote(c.(sendSent := c.sendSent + n), Data(Unsent(c)[..n]))
    ensures 0 < n && Ready(c.(sendSent := c.sendSent + n))
    ensures Outgoing(c) == [Data(Unsent(c)[..n])] + Outgoing(c.(sendSent := c.sendSent + n))
    ensures AllSent(c.(sendSent := c.sendSent + n)) == AllSent(c)
  {
    var c' := c.(sendSent := c.sendSent + n);
    var start := c.sendSent - c.sendBase;
    assert c.sendBuf[start..start + n] == Unsent(c)[..n];
    assert Unsent(c') == Unsent(c)[n..];
    OutgoingAfterAck(c);
    OutgoingAfterAck(c');
    FirstChunk(Unsent(c), n, FinLeft(c));
  }

  lemma FirstChunk(unsent: seq<byte>, n: nat, fin: seq<Frame>)
    requires unsent != [] && n == Min(FRAME_MAX, |unsent|)
    ensures Chunks(unsent) + fin == [Data(unsent[..n])] + (Chunks(unsent[n..]) + fin)
  {
    Associates([Data(unsent[..n])], Chunks(unsent[n..]), fin);
  }

  lemma FirstIsFin(c: Core)
    requires Ready(c) && c.recv <= c.ackSent && c.sendSent == c.End() && c.finQueued && !c.finSent
    ensures WriteOne(c) == Wrote(c.(finSent := true), Fin)
    ensures Outgoing(c) == [Fin] && Outgoing(c.(finSent := true)) == []
    ensures AllSent(c.(finSent := true)) == AllSent(c)
  {
    var c' := c.(finSent := true);
    assert Unsent(c) == [] && Unsent(c') == [];
    assert Outgoing(c) == [] + Chunks([]) + [Fin];
    assert Outgoing(c') == [] + Chunks([]) + [];
  }

  /** The loop's next turn takes the first of the outgoing frames. */
  lemma WriteOneIsFirst(c: Core)
    requires Ready(c) && c.HasWork()
    ensures WriteOne(c).Wrote? && Ready(WriteOne(c).core)
    ensures Outgoing(c) == [WriteOne(c).frame] + Outgoing(WriteOne(c).core)
    ensures AllSent(WriteOne(c).core) == AllSent(c)
  {
    if c.recv > c.ackSent {
      FirstIsAck(c);
    } else if c.sendSent < c.End() {
      FirstIsData(c, Min(FRAME_MAX, |Unsent(c)|));
    } else {
      FirstIsFin(c);
    }
  }

  /** Between turns: `sent` is out, what `c` still has to send is what is left, and a fin was the last frame. */
  ghost predicate Sending(c0: Core, c: Core, sent: seq<Frame>, fin: bool) {
    && Ready(c0) && Ready(c)
    && Outgoing(c0) == sent + Outgoing(c)
    && AllSent(c) == AllSent(c0)
    && (if fin then Outgoing(c) == [] && c == AllSent(c0) && c0.finQueued && !c0.finSent else c.finSent == c0.finSent)
  }

  lemma SendingStep(c0: Core, c: Core, c': Core, sent: seq<Frame>, frame: Frame)
    requires Sending(c0, c, sent, false) && WriteOne(c) == Wrote(c', frame)
    ensures Sending(c0, c', sent + [frame], frame.Fin?)
  {
    WriteOneIsFirst(c);
    assert sent + ([frame] + Outgoing(c')) == (sent + [frame]) + Outgoing(c');
    if frame.Fin? { FirstIsFin(c); }
  }

  lemma SendingDone(c0: Core, c: Core, sent: seq<Frame>, fin: bool)
    requires Sending(c0, c, sent, fin) && (fin || !c.HasWork())
    ensures Outgoing(c0) == sent && c == AllSent(c0)
    ensures fin <==> c0.finQueued && !c0.finSent
  {
    assert sent + [] == sent;
  }

  // ---- one end's write loop into the other end's read loop ----

  /** In the protocol `applyData` is two steps, with anything in between; run at once they are what the method does. */
  lemma AppliedIsTakeThenFinish(s: System, x: Side, k: nat, room: nat)
    requires Sized(s) && k < |s.halves.client| && s.halves.At(x)[k].inbox != []
             && s.halves.At(x)[k].inbox[0].frame.Data?
    requires s.halves.At(x)[k].gen.Some? && s.ends.At(x).applying.None?
    requires Accepts(s.ends.At(x).core, s.halves.At(x)[k].gen.value)
    ensures var r := Running(s.ends.At(x), room);
            var p := s.halves.At(x)[k].inbox[0].frame.payload;
            var take := Take(x, k, Accepted(r, p));
            && Enabled(s, take) && Enabled(Next(s, take), Finish(x))
            && Next(Next(s, take), Finish(x)).ends.At(x) == Applied(r, s.halves.At(x)[k].gen.value, p).end
  {
  }

  lemma {:induction false} HandledAllConcat(r: Running, gen: nat, a: seq<Frame>, b: seq<Frame>)
    ensures HandledAll(r, gen, a + b)
            == (var (m, more) := HandledAll(r, gen, a); if more then HandledAll(m, gen, b) else (m, false))
    decreases |a|
  {
    if a == [] {
      assert a + b == b;
    } else {
      assert (a + b)[1..] == a[1..] + b;
      HandledAllConcat(Handled(r, gen, a[0]).0, gen, a[1..], b);
    }
  }

  /** The loop of a replaced generation, or of a closed session, changes nothing. */
  lemma StaleHandles(r: Running, gen: nat, fs: seq<Frame>)
    ensures !Accepts(r.end.core, gen) ==> HandledAll(r, gen, fs).0 == r
  {
  }

  /** The loop of the attached generation stays attached while it goes on, and leaves a closed session when it stops. */
  lemma {:induction false} OwnHandles(r: Running, gen: nat, fs: seq<Frame>)
    ensures r.end.core.gen == gen && r.end.core.stream.Some? && !r.end.core.closed ==>
              var (r', more) := HandledAll(r, gen, fs);
              if more then r'.end.core.gen == gen && r'.end.core.stream.Some? && !r'.end.core.closed
              else r'.end.core.closed && r'.end.core.stream.None?
    decreases |fs|
  {
    if fs == [] {
    } else {
      OwnHandles(Handled(r, gen, fs[0]).0, gen, fs[1..]);
    }
  }

  lemma OneHandled(r: Running, gen: nat, f: Frame)
    ensures HandledAll(r, gen, [f]) == Handled(r, gen, f)
  {
    assert [f][1..] == [];
  }

  /** What `data` taken from the stream does: all of it counts, and the local socket gets what it still accepts. */
  function Delivering(r: Running, data: seq<byte>): Running {
    var wrote := Accepted(r, data);
    var failed := !r.end.core.connDead && wrote < |data|;
    Running(r.end.(core := FinishApply(r.end.core, |data|, failed), written := r.end.written + data[..wrote]),
            if r.end.core.connDead then r.room else if failed then 0 else r.room - |data|)
  }

  lemma DataDelivers(r: Running, gen: nat, data: seq<byte>)
    requires Accepts(r.end.core, gen) && r.end.applying.None?
    ensures Handled(r, gen, Data(data)) == (Delivering(r, data), true)
  {
    assert r.end.written + data[..0] == r.end.written;
  }

  /** The second part gets through if the first did, and as far as the socket accepts. */
  lemma DeliveringTwice(r: Running, data: seq<byte>, n: nat)
    requires n <= |data|
    ensures Delivering(Delivering(r, data[..n]), data[n..]) == Delivering(r, data)
  {
    var first, rest := data[..n], data[n..];
    var m := Delivering(r, first);
    var a, b := Accepted(r, first), Accepted(m, rest);
    assert first[..a] == data[..a];
    assert a == n || b == 0;
    assert first[..a] + rest[..b] == data[..a + b];
    assert (r.end.written + first[..a]) + rest[..b] == r.end.written + (first[..a] + rest[..b]);
  }

  lemma {:induction false} ChunksDeliver(r: Running, gen: nat, data: seq<byte>)
    requires Accepts(r.end.core, gen) && r.end.applying.None?
    ensures HandledAll(r, gen, Chunks(data)) == (Delivering(r, data), true)
    decreases |data|
  {
    if data == [] {
      assert r.end.written + data[..0] == r.end.written;
    } else {
      var n := Min(FRAME_MAX, |data|);
      var head, tail := Data(data[..n]), Chunks(data[n..]);
      DataDelivers(r, gen, data[..n]);
      ChunksDeliver(Delivering(r, data[..n]), gen, data[n..]);
      DeliveringTwice(r, data, n);
      assert Chunks(data) == [head] + tail && ([head] + tail)[1..] == tail;
    }
  }

  /** The receiver is as before, apart from its own buffer. */
  ghost predicate SameReceiver(r: Running, r': Running) {
    var c, c' := r.end.core, r'.end.core;
    && r'.room == r.room && r'.end == r.end.(core := c')
    && c' == c.(sendBuf := c'.sendBuf, sendBase := c'.sendBase)
  }

  lemma AckHandled(r: Running, gen: nat, off: nat)
    requires Accepts(r.end.core, gen)
    ensures var (r', more) := HandledAll(r, gen, [Ack(off)]);
            more && SameReceiver(r, r')
  {
    OneHandled(r, gen, Ack(off));
  }

  /** What the frames of one write loop do to the receiver: `data` are the unsent bytes. */
  ghost predicate Received(r: Running, r': Running, data: seq<byte>, fin: bool) {
    && r'.end.written == r.end.written + data[..Accepted(r, data)]
    && r'.end.core.recv == r.end.core.recv + |data|
    && (r'.end.core.peerFin <==> r.end.core.peerFin || fin)
    && (r'.end.core.connDead <==> r.end.core.connDead || r.room < |data| || fin)
  }

  lemma DataAndFin(r: Running, gen: nat, data: seq<byte>, fin: seq<Frame>)
    requires Accepts(r.end.core, gen) && r.end.applying.None? && (fin == [] || fin == [Fin])
    ensures Received(r, HandledAll(r, gen, Chunks(data) + fin).0, data, fin != [])
  {
    ChunksDeliver(r, gen, data);
    HandledAllConcat(r, gen, Chunks(data), fin);
    if fin != [] { OneHandled(Delivering(r, data), gen, Fin); }
  }

  lemma OutgoingReceived(c: Core, r: Running, gen: nat)
    requires Ready(c) && Accepts(r.end.core, gen) && r.end.applying.None?
    ensures Received(r, HandledAll(r, gen, Outgoing(c)).0, Unsent(c), c.finQueued && !c.finSent)
  {
    var rest := Chunks(Unsent(c)) + FinLeft(c);
    if c.recv > c.ackSent {
      AckHandled(r, gen, c.recv);
      var r1 := HandledAll(r, gen, [Ack(c.recv)]).0;
      HandledAllConcat(r, gen, [Ack(c.recv)], rest);
      assert Outgoing(c) == [Ack(c.recv)] + rest;
      DataAndFin(r1, gen, Unsent(c), FinLeft(c));
    } else {
      OutgoingAfterAck(c);
      DataAndFin(r, gen, Unsent(c), FinLeft(c));
    }
  }

  lemma OutgoingWritable(c: Core)
    requires Ready(c) && c.recv < 0x1_0000_0000_0000_0000
    ensures forall f :: f in Outgoing(c) ==> Writable(f)
  {
    ChunksWritable(Unsent(c));
  }

  lemma {:induction false} ChunksWritable(data: seq<byte>)
    ensures forall f :: f in Chunks(data) ==> Writable(f)
    decreases |data|
  {
    if data == [] {
    } else {
      ChunksWritable(data[Min(FRAME_MAX, |data|)..]);
    }
  }

  /** What one write loop puts on the wire, the other end's read loop turns back into the unsent bytes, each once and
      in order: all of them count, the local socket gets the first of them, as many as it accepts, and a fin, if
      there is one, takes effect only after them. */
  lemma WireDelivers(c: Core, r: Running, gen: nat)
    requires Ready(c) && c.recv < 0x1_0000_0000_0000_0000
    requires Accepts(r.end.core, gen) && r.end.applying.None?
    ensures Received(r, HandledAll(r, gen, ReadAll(EncodeAll(Outgoing(c))).0).0, Unsent(c), c.finQueued && !c.finSent)
  {
    OutgoingWritable(c);
    ReadAllOfAll(Outgoing(c));
    OutgoingReceived(c, r, gen);
  }

  /** The session; `room` stands for the local socket, `read` and `readEnded` are history. */
  class TunnelSession {
    var stream: Option<nat>
    var gen: nat
    var closed: bool
    var sendBuf: seq<byte>
    var sendBase: nat
    var sendSent: nat
    var ackSent: nat
    var recv: nat
    var finQueued: bool
    var finSent: bool
    var peerFin: bool
    var connDead: bool
    var written: seq<byte>
    var room: nat
    ghost var read: seq<byte>
    ghost var readEnded: bool

    function View(): Core
      reads this
    {
      Core(stream, gen, closed, sendBuf, sendBase, sendSent, ackSent, recv, finQueued, finSent, peerFin, connDead)
    }

    ghost function State(): Running
      reads this
    {
      Running(Endpoint(View(), None, read, written, readEnded), room)
    }

    constructor (room: nat)
      ensures State() == Running(START, room)
    {
      stream, gen, closed := None, 0, false;
      sendBuf, sendBase, sendSent, ackSent, recv := [], 0, 0, 0, 0;
      finQueued, finSent, peerFin, connDead := false, false, false, false;
      written, read, readEnded := [], [], false;
      this.room := room;
    }

    method AttachStream(st: nat, peerRecv: nat) returns (ok: bool)
      modifies this
      ensures ok <==> TunnelCore.Attach(old(View()), st, peerRecv).Attached?
      ensures ok ==>
                var core := TunnelCore.Attach(old(View()), st, peerRecv).core;
                State() == old(State()).(end := old(State()).end.(core := core))
      ensures !ok ==> State() == old(State())
      ensures ok <==> !old(closed) && old(sendBase) <= peerRecv <= old(sendBase) + |old(sendBuf)|
      ensures ok ==> View() == Core(Some(st), old(gen) + 1, false, old(sendBuf)[peerRecv - old(sendBase)..],
                                    peerRecv, peerRecv, old(recv), old(recv),
                                    old(finQueued), false, old(peerFin), old(connDead))
    {
      if closed || peerRecv < sendBase || peerRecv > sendBase + |sendBuf| {
        return false;
      }
      Rewind(peerRecv);
      stream, gen := Some(st), gen + 1;
      return true;
    }

    /** Drops what the peer has and sends the rest again. */
    method Rewind(peerRecv: nat)
      requires sendBase <= peerRecv <= sendBase + |sendBuf|
      modifies this`sendBuf, this`sendBase, this`sendSent, this`ackSent, this`finSent
      ensures sendBuf == old(sendBuf)[peerRecv - old(sendBase)..] && sendBase == sendSent == peerRecv
      ensures ackSent == recv && !finSent
    {
      sendBuf := sendBuf[peerRecv - sendBase..];
      sendBase, sendSent, ackSent := peerRecv, peerRecv, recv;
      finSent := false;
    }

    method DetachGeneration(g: nat)
      modifies this`stream, this`gen
      ensures State() == old(State()).(end := old(State()).end.(core := TunnelCore.Detach(old(View()), g)))
      ensures old(closed) || old(gen) != g || old(stream).None? ==> State() == old(State())
      ensures !old(closed) && old(gen) == g && old(stream).Some? ==>
                View() == old(View()).(stream := None, gen := g + 1)
    {
      if closed || gen != g || stream.None? {
        return;
      }
      stream, gen := None, gen + 1;
    }

    method ForceDetach()
      modifies this`stream, this`gen
      ensures State() == old(State()).(end := old(State()).end.(core := TunnelCore.ForceDetach(old(View()))))
      ensures old(closed) || old(stream).None? ==> State() == old(State())
      ensures !old(closed) && old(stream).Some? ==> View() == old(View()).(stream := None, gen := old(gen) + 1)
    {
      if closed || stream.None? {
        return;
      }
      stream, gen := None, gen + 1;
    }

    method Shutdown()
      modifies this`stream, this`closed, this`room
      ensures State() == if old(closed) then old(State())
                         else Running(old(State()).end.(core := TunnelCore.Shutdown(old(View()))), 0)
      ensures !old(closed) ==> View() == old(View()).(closed := true, stream := None) && room == 0
    {
      if closed {
        return;
      }
      closed, stream, room := true, None, 0;
    }

    /** The handler of a resume request, up to and including its attach; what it tells the client is returned. */
    method ResumeSession(st: nat, peerRecv: nat) returns (told: Option<nat>)
      modifies this
      ensures told == if old(closed) then None else Some(old(recv))
      ensures old(closed) ==> State() == old(State())
      ensures !old(closed) ==>
                var c := TunnelCore.ForceDetach(old(View()));
                match TunnelCore.Attach(c, st, peerRecv)
                case Attached(c') => State() == old(State()).(end := old(State()).end.(core := c'))
                case _ => State() == Running(old(State()).end.(core := TunnelCore.Shutdown(c)), 0)
      ensures !old(closed) ==>
                if old(sendBase) <= peerRecv <= old(sendBase) + |old(sendBuf)|
                then stream == Some(st) && sendBase == sendSent == peerRecv && ackSent == recv == old(recv) && !finSent
                     && sendBuf == old(sendBuf)[peerRecv - old(sendBase)..] && !closed && gen > old(gen)
                else stream.None? && closed
    {
      if closed {
        return None;
      }
      ForceDetach();
      told := Some(recv);
      var ok := AttachStream(st, peerRecv);
      if !ok {
        Shutdown();
      }
    }

    /** `inputs` is what the local socket will deliver before its end. The pump stops early only when the session is
        closed or the buffer is full, which is where the real one waits. */
    method PumpLocal(inputs: seq<seq<byte>>) returns (n: nat)
      requires forall r :: r in inputs ==> 0 < |r| <= FRAME_MAX
      requires !readEnded && |sendBuf| < MAX_UNACKED + FRAME_MAX
      modifies this`sendBuf, this`read, this`finQueued, this`readEnded
      ensures n <= |inputs|
      ensures read == old(read) + Flatten(inputs[..n]) && sendBuf == old(sendBuf) + Flatten(inputs[..n])
      ensures |sendBuf| < 1_048_576 + 32_768
      ensures if n < |inputs| then (closed || |sendBuf| >= 1_048_576) && finQueued == old(finQueued) && !readEnded
              else finQueued && readEnded
    {
      n := 0;
      assert Flatten([]) == [] && inputs[..0] == [];
      while n < |inputs|
        invariant n <= |inputs|
        invariant read == old(read) + Flatten(inputs[..n]) && sendBuf == old(sendBuf) + Flatten(inputs[..n])
        invariant |sendBuf| < MAX_UNACKED + FRAME_MAX
        invariant finQueued == old(finQueued) && !readEnded
      {
        if |sendBuf| >= MAX_UNACKED || closed {
          return;
        }
        FlattenSnoc(inputs, n);
        assert inputs[n] in inputs;
        sendBuf := sendBuf + inputs[n];
        read := read + inputs[n];
        n := n + 1;
      }
      assert inputs[..n] == inputs;
      finQueued, readEnded := true, true;
    }

    /** The write loop of the attached generation, until it would wait for more work; `wire` is what it wrote. */
    method WriteLoop() returns (wire: seq<byte>)
      requires Ready(View())
      modifies this`ackSent, this`sendSent, this`finSent, this`stream, this`closed, this`room
      ensures old(closed) ==> wire == [] && State() == old(State())
      ensures !old(closed) ==> wire == EncodeAll(Outgoing(old(View())))
      ensures !old(closed) ==>
                var c := AllSent(old(View()));
                if peerFin && old(finQueued) && !old(finSent)
                then State() == Running(old(State()).end.(core := TunnelCore.Shutdown(c)), 0)
                else State() == old(State()).(end := old(State()).end.(core := c))
      ensures !old(closed) ==>
                && ackSent == recv && sendSent == sendBase + |sendBuf| && finSent == (old(finSent) || old(finQueued))
                && closed == (peerFin && old(finQueued) && !old(finSent))
    {
      if closed {
        return [];
      }
      var fin;
      wire, fin := WriteFrames();
      if fin && peerFin {
        Shutdown();
      }
    }

    method WriteFrames() returns (wire: seq<byte>, fin: bool)
      requires Ready(View())
      modifies this`ackSent, this`sendSent, this`finSent
      ensures wire == EncodeAll(Outgoing(old(View()))) && View() == AllSent(old(View()))
      ensures fin <==> old(finQueued) && !old(finSent)
    {
      ghost var c0 := View();
      ghost var sent: seq<Frame> := [];
      wire, fin := [], false;
      assert [] + Outgoing(c0) == Outgoing(c0);
      while View().HasWork() && !fin
        invariant Sending(c0, View(), sent, fin) && wire == EncodeAll(sent)
        decreases !fin, View().End() - sendSent, recv - ackSent
      {
        ghost var c := View();
        var frame := WriteTurn();
        SendingStep(c0, c, View(), sent, frame);
        EncodeAllSnoc(sent, frame);
        sent := sent + [frame];
        wire := wire + Encode(frame);
        fin := frame.Fin?;
      }
      SendingDone(c0, View(), sent, fin);
    }

    /** The critical section of one turn of the write loop. */
    method WriteTurn() returns (frame: Frame)
      requires Ready(View()) && View().HasWork()
      modifies this`ackSent, this`sendSent, this`finSent
      ensures WriteOne(old(View())) == Wrote(View(), frame)
      ensures !frame.Fin? ==> sendSent > old(sendSent) || (sendSent == old(sendSent) && ackSent > old(ackSent))
    {
      if recv > ackSent {
        frame := Ack(recv);
        ackSent := recv;
      } else if sendSent < sendBase + |sendBuf| {
        var start := sendSent - sendBase;
        var n := Min(FRAME_MAX, |sendBuf| - start);
        frame := Data(sendBuf[start..start + n]);
        sendSent := sendSent + n;
      } else {
        frame := Fin;
        finSent := true;
      }
    }

    method ApplyData(g: nat, p: seq<byte>) returns (more: bool)
      modifies this
      ensures (State(), more) == Handled(old(State()), g, Data(p))
      ensures old(closed) || old(gen) != g ==> !more && State() == old(State())
      ensures !old(closed) && old(gen) == g ==> more && recv == old(recv) + |p|
      ensures !old(closed) && old(gen) == g && !old(connDead) ==>
                && written == old(written) + p[..Min(old(room), |p|)]
                && connDead == (old(room) < |p|) && finQueued == (old(finQueued) || old(room) < |p|)
      ensures !old(closed) && old(gen) == g && old(connDead) ==>
                written == old(written) && connDead && finQueued == old(finQueued)
    {
      if closed || gen != g {
        return false;
      }
      var failed := false;
      if !connDead {
        var wrote := Min(room, |p|);
        written := written + p[..wrote];
        failed := wrote < |p|;
        room := if failed then 0 else room - |p|;
      }
      recv := recv + |p|;
      if failed {
        connDead, finQueued := true, true;
      }
      return true;
    }

    method ApplyAck(g: nat, off: nat) returns (more: bool)
      modifies this`sendBuf, this`sendBase
      ensures (State(), more) == Handled(old(State()), g, Ack(off))
      ensures old(closed) || old(gen) != g ==> !more && State() == old(State())
      ensures !old(closed) && old(gen) == g ==>
                && more
                && sendBase == (if old(sendBase) < off <= old(sendBase) + |old(sendBuf)| then off else old(sendBase))
                && sendBase + |sendBuf| == old(sendBase) + |old(sendBuf)|
                && sendBuf == old(sendBuf)[sendBase - old(sendBase)..]
    {
      if closed || gen != g {
        return false;
      }
      if sendBase < off <= sendBase + |sendBuf| {
        sendBuf := sendBuf[off - sendBase..];
        sendBase := off;
      }
      return true;
    }

    method ApplyFin(g: nat) returns (more: bool)
      modifies this
      ensures (State(), more) == Handled(old(State()), g, Fin)
      ensures old(closed) || old(gen) != g ==> !more && State() == old(State())
      ensures !old(closed) && old(gen) == g ==>
                && more == !old(finSent) && closed == old(finSent) && peerFin && connDead && finQueued
                && (closed ==> stream.None?)
    {
      if closed || gen != g {
        return false;
      }
      peerFin, connDead, finQueued := true, true, true;
      var complete := finSent;
      room := 0;
      if complete {
        Shutdown();
      }
      return !complete;
    }

    /** The read loop of generation `g` on everything its stream delivers: it handles the frames that arrived whole,
        in order, until one ends the loop, and otherwise detaches. */
    method ReadLoop(g: nat, input: seq<byte>)
      modifies this
      ensures var (r, more) := HandledAll(old(State()), g, ReadAll(input).0);
              State() == if more then r.(end := r.end.(core := TunnelCore.Detach(r.end.core, g))) else r
      ensures old(closed) || old(gen) != g ==> State() == old(State())
      ensures old(gen) == g && old(stream).Some? && !old(closed) ==> stream.None?
    {
      StaleHandles(State(), g, ReadAll(input).0);
      OwnHandles(State(), g, ReadAll(input).0);
      var rest := input;
      ghost var s0 := State();
      while true
        invariant HandledAll(s0, g, ReadAll(input).0) == HandledAll(State(), g, ReadAll(rest).0)
        decreases |rest|
      {
        match ReadFrame(rest) {
          case Stopped(_) =>
            DetachGeneration(g);
            return;
          case Got(f, tail) =>
            assert ReadAll(rest).0[1..] == ReadAll(tail).0;
            var more;
            match f {
              case Data(p) => more := ApplyData(g, p);
              case Ack(off) => more := ApplyAck(g, off);
              case Fin => more := ApplyFin(g);
            }
            if !more {
              return;
            }
            rest := tail;
        }
      }
    }
  }

  lemma EncodeAllSnoc(fs: seq<Frame>, f: Frame)
    ensures EncodeAll(fs + [f]) == EncodeAll(fs) + Encode(f)
  {
    EncodeAllConcat(fs, [f]);
    assert [f][1..] == [] && Encode(f) + [] == Encode(f);
  }

  function Flatten(inputs: seq<seq<byte>>): seq<byte> {
    if inputs == [] then [] else inputs[0] + Flatten(inputs[1..])
  }

  lemma {:induction false} FlattenConcat(a: seq<seq<byte>>, b: seq<seq<byte>>)
    ensures Flatten(a + b) == Flatten(a) + Flatten(b)
  {
    if a == [] {
      assert a + b == b;
    } else {
      assert (a + b)[1..] == a[1..] + b;
      FlattenConcat(a[1..], b);
      assert a[0] + (Flatten(a[1..]) + Flatten(b)) == Flatten(a) + Flatten(b);
    }
  }

  lemma FlattenSnoc(inputs: seq<seq<byte>>, n: nat)
    requires n < |inputs|
    ensures Flatten(inputs[..n + 1]) == Flatten(inputs[..n]) + inputs[n]
  {
    assert inputs[..n + 1] == inputs[..n] + [inputs[n]];
    FlattenConcat(inputs[..n], [inputs[n]]);
    assert [inputs[n]][1..] == [] && inputs[n] + [] == inputs[n];
  }
}
