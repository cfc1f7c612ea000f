/**
 Two session ends and the streams between them, as a state machine. Every step is one region of code that runs under
 `mu` (or one move of the network), so a run is an interleaving of the goroutines of both ends.

 Streams are never reused. Each end of a stream has a `Half`: the offset that end told its peer in the resume handshake
 (the hello of the client, the reply of the service), the packets addressed to it, whether the stream was cut (no later
 packet can arrive), and the generation of the read loop it started.
 */
module TunnelProtocol {
  import opened Basics
  import opened TunnelCore

  datatype Side = Client | Server {
    function Other(): Side { if Client? then Server else Client }
  }

  datatype Pair<T> = Pair(client: T, server: T) {
    function At(side: Side): T { if side.Client? then client else server }
    function With(side: Side, v: T): Pair<T> {
      if side.Client? then Pair(v, server) else Pair(client, v)
    }
  }

  /** A frame on its way, with two history notes: how much its writer had buffered so far, and whether the writer's
      local read had ended. */
  datatype Packet = Packet(frame: Frame, buffered: nat, readEnded: bool)

  datatype Half = Half(told: Option<nat>, inbox: seq<Packet>, cut: bool, gen: Option<nat>)

  /** A payload that `applyData` has handed to the socket but not yet counted in `recv`. */
  datatype Apply = Apply(payload: seq<byte>, failed: bool)

  /** `read` and `written` are the whole history of the local connection; `readEnded` is set when `pumpLocal` stops. */
  datatype Endpoint = Endpoint(core: Core, applying: Option<Apply>, read: seq<byte>, written: seq<byte>,
      readEnded: bool) {
    function InFlight(): nat { if applying.None? then 0 else |applying.value.payload| }
    /** Bytes taken from the stream, counted or not. */
    function Taken(): nat { core.recv + InFlight() }
    predicate On(k: nat) { core.stream == Some(k) }
    predicate ConnAlive() { !core.connDead && (applying.Some? ==> !applying.value.failed) }
  }

  datatype System = System(ends: Pair<Endpoint>, halves: Pair<seq<Half>>)

  const START := Endpoint(FRESH, None, [], [], false)

  function Init(): System { System(Pair(START, START), Pair([], [])) }

  datatype Step =
    | LocalRead(side: Side, data: seq<byte>)
    | LocalEnd(side: Side)
    | Write(side: Side)
    | Take(side: Side, k: nat, wrote: nat)
    | Finish(side: Side)
    | DetachStep(side: Side)
    | Lose(side: Side, k: nat, keep: nat)
    | Hello
    | Reply(k: nat)
    | AttachStep(side: Side, k: nat)
    | Close(side: Side)

  function SetHalf(s: System, side: Side, k: nat, h: Half): System
    requires k < |s.halves.At(side)|
  {
    s.(halves := s.halves.With(side, s.halves.At(side)[k := h]))
  }

  function SetEnd(s: System, side: Side, e: Endpoint): System { s.(ends := s.ends.With(side, e)) }

  /** Both ends know every stream. */
  predicate Sized(s: System) { |s.halves.client| == |s.halves.server| }

  /** The offset `side` receives in the handshake of stream `k`: what the other end told. */
  function PeerRecv(s: System, side: Side, k: nat): Option<nat>
    requires k < |s.halves.At(side.Other())|
  {
    s.halves.At(side.Other())[k].told
  }

  predicate Enabled(s: System, step: Step)
    requires Sized(s)
  {
    match step
    // pumpLocal: one read of at most FRAME_MAX bytes, appended once the buffer is below its bound
    case LocalRead(x, data) =>
      var e := s.ends.At(x); 0 < |data| <= FRAME_MAX && CanBuffer(e.core) && !e.readEnded
    case LocalEnd(x) => !s.ends.At(x).readEnded
    // writeLoop of the current generation
    case Write(x) =>
      var c := s.ends.At(x).core;
      c.stream.Some? && c.stream.value < |s.halves.client| && !c.closed && WriteOne(c).Wrote?
    // a read loop takes the next frame; applyData and applyFin wait for applyMu
    case Take(x, k, wrote) =>
      k < |s.halves.client| && s.halves.At(x)[k].gen.Some? && s.halves.At(x)[k].inbox != [] &&
      (match s.halves.At(x)[k].inbox[0].frame
       case Data(p) => s.ends.At(x).applying.None? && wrote <= |p|
       case Ack(_) => true
       case Fin => s.ends.At(x).applying.None?)
    case Finish(x) => s.ends.At(x).applying.Some?
    case DetachStep(x) => var c := s.ends.At(x).core; c.stream.Some? && !c.closed
    case Lose(x, k, keep) => k < |s.halves.client| && keep <= |s.halves.At(x)[k].inbox|
    // openTunnel: runs after finishDetach, hence with no apply in flight
    case Hello => s.ends.client.core.stream.None? && !s.ends.client.core.closed && s.ends.client.applying.None?
    // the service's handler reads its received count at some moment
    case Reply(k) => k < |s.halves.client| && s.halves.server[k].told.None? && !s.ends.server.core.closed
    case AttachStep(x, k) =>
      k < |s.halves.client| && s.halves.At(x)[k].gen.None? && !s.ends.At(x).core.closed &&
      s.halves.server[k].told.Some? && s.halves.client[k].told.Some? &&
      (x.Client? ==> s.ends.client.core.stream.None? && k == |s.halves.client| - 1)
    case Close(x) => true
  }

  /** Queue a packet for `side` on stream `k`; a cut stream swallows it. */
  function Push(s: System, side: Side, k: nat, p: Packet): System
    requires k < |s.halves.At(side)|
  {
    var h := s.halves.At(side)[k];
    if h.cut then s else SetHalf(s, side, k, h.(inbox := h.inbox + [p]))
  }

  /** The effect of one frame on the end whose read loop has generation `gen`. */
  function Receive(e: Endpoint, gen: nat, f: Frame, wrote: nat): Endpoint
    requires f.Data? ==> wrote <= |f.payload|
  {
    match f
    case Ack(off) => e.(core := ApplyAck(e.core, gen, off))
    case Fin => e.(core := ApplyFin(e.core, gen))
    case Data(p) =>
      if !Accepts(e.core, gen) then e
      else if e.core.connDead then e.(applying := Some(Apply(p, false)))
      else e.(applying := Some(Apply(p, wrote < |p|)), written := e.written + p[..wrote])
  }

  function Next(s: System, step: Step): System
    requires Sized(s) && Enabled(s, step)
  {
    match step
    case LocalRead(x, data) =>
      var e := s.ends.At(x);
      SetEnd(s, x, e.(core := PumpBytes(e.core, data), read := e.read + data))
    case LocalEnd(x) =>
      var e := s.ends.At(x);
      SetEnd(s, x, e.(core := PumpEnd(e.core), readEnded := true))
    case Write(x) =>
      var e := s.ends.At(x);
      var w := WriteOne(e.core);
      Push(SetEnd(s, x, e.(core := w.core)), x.Other(), e.core.stream.value, Packet(w.frame, |e.read|, e.readEnded))
    case Take(x, k, wrote) =>
      var h := s.halves.At(x)[k];
      SetHalf(SetEnd(s, x, Receive(s.ends.At(x), h.gen.value, h.inbox[0].frame, wrote)), x, k,
          h.(inbox := h.inbox[1..]))
    case Finish(x) =>
      var e := s.ends.At(x);
      SetEnd(s, x, e.(core := FinishApply(e.core, |e.applying.value.payload|, e.applying.value.failed),
          applying := None))
    case DetachStep(x) =>
      var e := s.ends.At(x);
      SetEnd(s, x, e.(core := DetachLocked(e.core)))
    case Lose(x, k, keep) =>
      var h := s.halves.At(x)[k];
      SetHalf(s, x, k, h.(inbox := h.inbox[..keep], cut := true))
    case Hello =>
      s.(halves := Pair(s.halves.client + [Half(Some(s.ends.client.core.recv), [], false, None)],
                        s.halves.server + [Half(None, [], false, None)]))
    case Reply(k) =>
      SetHalf(s, Server, k, s.halves.server[k].(told := Some(s.ends.server.core.recv)))
    case AttachStep(x, k) =>
      var e := s.ends.At(x);
      (match Attach(e.core, k, PeerRecv(s, x, k).value)
       case Attached(c) =>
         SetHalf(SetEnd(s, x, e.(core := c)), x, k, s.halves.At(x)[k].(gen := Some(c.gen)))
       case _ => SetEnd(s, x, e.(core := Shutdown(e.core))))
    case Close(x) =>
      var e := s.ends.At(x);
      SetEnd(s, x, e.(core := Shutdown(e.core)))
  }

  /**
   The fence: when a service attaches, the count it told the client is still the number of bytes it has taken from
   streams, so no apply is in flight and no other stream delivered anything since it was read.
   */
  predicate Fenced(s: System, step: Step)
    requires Sized(s) && Enabled(s, step)
  {
    step.AttachStep? && step.side.Server? ==> s.halves.server[step.k].told.value == s.ends.server.Taken()
  }

  /** `t` is reached from `s` by `steps`. */
  ghost predicate Run(s: System, steps: seq<Step>, t: System)
    decreases |steps|
  {
    Sized(s) && if steps == [] then s == t else Enabled(s, steps[0]) && Run(Next(s, steps[0]), steps[1..], t)
  }

  /** A run in which every service attach was fenced. */
  ghost predicate FencedRun(s: System, steps: seq<Step>, t: System)
    decreases |steps|
  {
    Sized(s) &&
    if steps == [] then s == t
    else Enabled(s, steps[0]) && Fenced(s, steps[0]) && FencedRun(Next(s, steps[0]), steps[1..], t)
  }
}
