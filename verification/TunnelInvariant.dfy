/**
 The invariant of the tunnel, one direction at a time: bytes go from `p` to `e`, acks come back. `he` are the halves
 holding what is addressed to `e`, `hp` those addressed to `p`.
 */
module TunnelInvariant {
  import opened Basics
  import opened TunnelCore
  import opened TunnelProtocol

  /** The data packets of `q` continue the byte history `read` at offset `off`, and every fin stands where the
      writer's buffer ended when it was written; a fin written after the local read ended stands at the very end. */
  ghost predicate InOrder(q: seq<Packet>, off: nat, read: seq<byte>, ended: bool)
    decreases |q|
  {
    if q == [] then off <= |read|
    else match q[0].frame
      case Data(b) => off + |b| <= |read| && read[off..off + |b|] == b && InOrder(q[1..], off + |b|, read, ended)
      case Ack(_) => InOrder(q[1..], off, read, ended)
      case Fin =>
        && off == q[0].buffered
        && (q[0].readEnded ==> ended && off == |read|)
        && InOrder(q[1..], off, read, ended)
  }

  /** The offset after the data of `q`. */
  function EndOffset(q: seq<Packet>, off: nat): nat
    decreases |q|
  {
    if q == [] then off
    else EndOffset(q[1..], if q[0].frame.Data? then off + |q[0].frame.payload| else off)
  }

  /** The acks of `q` increase strictly from `base`. */
  ghost predicate Rising(q: seq<Packet>, base: nat)
    decreases |q|
  {
    q == [] ||
    if q[0].frame.Ack? then base < q[0].frame.offset && Rising(q[1..], q[0].frame.offset)
    else Rising(q[1..], base)
  }

  /** The last ack of `q`, or `base` when it holds none. */
  function LastAck(q: seq<Packet>, base: nat): nat
    decreases |q|
  {
    if q == [] then base
    else LastAck(q[1..], if q[0].frame.Ack? then q[0].frame.offset else base)
  }

  ghost predicate NoAcks(q: seq<Packet>) { forall i :: 0 <= i < |q| ==> !q[i].frame.Ack? }

  /** The unacked buffer of `p` is the history from `sendBase` on, and only what `e` received has been dropped. */
  ghost predicate Window(e: Endpoint, p: Endpoint) {
    && p.core.End() == |p.read|
    && p.core.sendBuf == p.read[p.core.sendBase..]
    && p.core.sendBase <= e.core.recv
    && e.core.ackSent <= e.core.recv
  }

  /** What `e` wrote locally is a prefix of what `p` read, and all of the bytes taken while the connection lives. */
  ghost predicate Delivered(e: Endpoint, p: Endpoint) {
    && |e.written| <= e.Taken() <= |p.read|
    && e.written == p.read[..|e.written|]
    && (e.ConnAlive() ==> |e.written| == e.Taken())
  }

  /** The generation names the attached stream. */
  ghost predicate Generations(e: Endpoint, he: seq<Half>) {
    && (forall k :: 0 <= k < |he| && he[k].gen.Some? ==>
          he[k].gen.value <= e.core.gen && (he[k].gen.value == e.core.gen && !e.core.closed ==> e.On(k)))
    && (e.core.stream.Some? ==>
          !e.core.closed && e.core.stream.value < |he| && he[e.core.stream.value].gen == Some(e.core.gen))
  }

  /** Where `e` will expect the first byte of half `h`: known while it reads the half or has yet to attach to it. */
  ghost function Expected(e: Endpoint, h: Half, k: nat): Option<nat> {
    if e.On(k) then Some(e.Taken()) else if h.gen.None? then h.told else None
  }

  ghost predicate DataOk(e: Endpoint, p: Endpoint, h: Half, k: nat) {
    var x := Expected(e, h, k);
    x.Some? ==>
      && InOrder(h.inbox, x.value, p.read, p.readEnded)
      && (p.On(k) ==> EndOffset(h.inbox, x.value) <= p.core.sendSent
                      && (!h.cut ==> EndOffset(h.inbox, x.value) == p.core.sendSent))
  }

  /** `p` is attached to `k`; `g` holds the acks on their way to it. */
  ghost predicate AcksOk(e: Endpoint, p: Endpoint, h: Half, g: Half, k: nat) {
    p.On(k) ==>
      && p.core.sendBase <= p.core.sendSent <= |p.read|
      && Rising(g.inbox, p.core.sendBase)
      && LastAck(g.inbox, p.core.sendBase) <= p.core.sendSent
      && LastAck(g.inbox, p.core.sendBase) <= e.core.recv
      && (e.On(k) ==> LastAck(g.inbox, p.core.sendBase) <= e.core.ackSent
                      && (!g.cut ==> LastAck(g.inbox, p.core.sendBase) == e.core.ackSent))
      && (h.gen.None? ==> h.told == Some(p.core.sendBase))
  }

  ghost predicate StreamOk(e: Endpoint, p: Endpoint, h: Half, g: Half, k: nat) {
    && (h.told.Some? ==> h.told.value <= e.core.recv)
    && (g.gen.Some? ==> h.told.Some?)
    && (h.gen.Some? ==> h.told.Some?)
    && (g.gen.None? ==> h.inbox == [] && NoAcks(g.inbox))
    && (h.gen.None? ==> g.inbox == [])
    && DataOk(e, p, h, k)
    && AcksOk(e, p, h, g, k)
    && (e.On(k) && g.gen.None? ==> h.told == Some(e.core.recv) && e.core.recv == e.core.ackSent == e.Taken())
  }

  ghost predicate Direction(e: Endpoint, p: Endpoint, he: seq<Half>, hp: seq<Half>) {
    && |he| == |hp|
    && Window(e, p)
    && Delivered(e, p)
    && Generations(e, he)
    && forall k :: 0 <= k < |he| ==> StreamOk(e, p, he[k], hp[k], k)
  }

  ghost predicate Toward(s: System, x: Side) {
    Direction(s.ends.At(x), s.ends.At(x.Other()), s.halves.At(x), s.halves.At(x.Other()))
  }

  /** The client is on its newest stream or on none. Until both ends have attached to the newest stream, the count in
      its hello is current; until the client has, the service's answer still lies in the client's buffer. */
  ghost predicate Newest(s: System)
    requires Sized(s)
  {
    var n := |s.halves.client|;
    && (s.ends.client.core.stream.Some? ==> n > 0 && s.ends.client.On(n - 1))
    && (forall k :: 0 <= k < n ==> s.halves.client[k].told.Some?)
    && (n > 0 ==>
          var h, g := s.halves.client[n - 1], s.halves.server[n - 1];
          && (h.gen.None? || g.gen.None? ==> h.told == Some(s.ends.client.Taken()))
          && (h.gen.None? && g.told.Some? ==> s.ends.client.core.sendBase <= g.told.value))
  }

  ghost predicate Inv(s: System) {
    Sized(s) && Toward(s, Client) && Toward(s, Server) && Newest(s)
  }

  // ---- queues ----

  lemma {:induction false} InOrderBounds(q: seq<Packet>, off: nat, read: seq<byte>, ended: bool)
    requires InOrder(q, off, read, ended)
    ensures off <= EndOffset(q, off) <= |read|
    decreases |q|
  {
    if q == [] {
    } else {
      InOrderBounds(q[1..], if q[0].frame.Data? then off + |q[0].frame.payload| else off, read, ended);
    }
  }

  lemma {:induction false} InOrderGrow(q: seq<Packet>, off: nat, read: seq<byte>, more: seq<byte>, ended: bool,
                                       ended': bool)
    requires InOrder(q, off, read, ended)
    requires ended ==> more == [] && ended'
    ensures InOrder(q, off, read + more, ended')
    decreases |q|
  {
    if q == [] {
    } else {
      InOrderGrow(q[1..], if q[0].frame.Data? then off + |q[0].frame.payload| else off, read, more, ended, ended');
      if q[0].frame.Data? {
        var b := q[0].frame.payload;
        assert (read + more)[off..off + |b|] == read[off..off + |b|];
      }
    }
  }

  lemma {:induction false} InOrderAppend(q: seq<Packet>, off: nat, read: seq<byte>, ended: bool, p: Packet)
    requires InOrder(q, off, read, ended)
    requires InOrder([p], EndOffset(q, off), read, ended)
    ensures InOrder(q + [p], off, read, ended)
    ensures EndOffset(q + [p], off) == EndOffset([p], EndOffset(q, off))
    decreases |q|
  {
    if q == [] {
      assert q + [p] == [p];
    } else {
      assert (q + [p])[1..] == q[1..] + [p];
      InOrderAppend(q[1..], if q[0].frame.Data? then off + |q[0].frame.payload| else off, read, ended, p);
    }
  }

  lemma {:induction false} InOrderPrefix(q: seq<Packet>, off: nat, read: seq<byte>, ended: bool, n: nat)
    requires n <= |q| && InOrder(q, off, read, ended)
    ensures InOrder(q[..n], off, read, ended)
    ensures EndOffset(q[..n], off) <= EndOffset(q, off)
    decreases |q|
  {
    InOrderBounds(q, off, read, ended);
    if n == 0 {
    } else {
      assert q[..n][1..] == q[1..][..n - 1];
      InOrderPrefix(q[1..], if q[0].frame.Data? then off + |q[0].frame.payload| else off, read, ended, n - 1);
    }
  }

  lemma {:induction false} RisingLast(q: seq<Packet>, base: nat)
    requires Rising(q, base)
    ensures base <= LastAck(q, base)
    ensures q != [] && q[0].frame.Ack? ==> base < q[0].frame.offset <= LastAck(q, base)
    decreases |q|
  {
    if q == [] {
    } else {
      RisingLast(q[1..], if q[0].frame.Ack? then q[0].frame.offset else base);
    }
  }

  lemma {:induction false} RisingAppend(q: seq<Packet>, base: nat, p: Packet)
    requires Rising(q, base)
    requires p.frame.Ack? ==> LastAck(q, base) < p.frame.offset
    ensures Rising(q + [p], base)
    ensures LastAck(q + [p], base) == if p.frame.Ack? then p.frame.offset else LastAck(q, base)
    decreases |q|
  {
    if q == [] {
      assert q + [p] == [p];
    } else {
      assert (q + [p])[1..] == q[1..] + [p];
      RisingAppend(q[1..], if q[0].frame.Ack? then q[0].frame.offset else base, p);
    }
  }

  lemma {:induction false} RisingPrefix(q: seq<Packet>, base: nat, n: nat)
    requires n <= |q| && Rising(q, base)
    ensures Rising(q[..n], base)
    ensures LastAck(q[..n], base) <= LastAck(q, base)
    decreases |q|
  {
    RisingLast(q, base);
    if n == 0 {
    } else {
      assert q[..n][1..] == q[1..][..n - 1];
      RisingPrefix(q[1..], if q[0].frame.Ack? then q[0].frame.offset else base, n - 1);
    }
  }

  lemma {:induction false} NoAcksLast(q: seq<Packet>, base: nat)
    requires NoAcks(q)
    ensures Rising(q, base) && LastAck(q, base) == base
    decreases |q|
  {
    if q == [] {
    } else {
      assert !q[0].frame.Ack?;
      NoAcksLast(q[1..], base);
    }
  }
}
