/**
 One end of a tunnel session (realm/features/services/session.go): the fields guarded by `mu` and, as functions on them,
 the regions of code that run while `mu` is held.
 */
module TunnelCore {
  import opened Basics

  const FRAME_MAX: nat := 32 * 1024
  const MAX_UNACKED: nat := 1024 * 1024

  datatype Frame = Data(payload: seq<byte>) | Ack(offset: nat) | Fin

  /** `stream` is the identity of the attached libp2p stream; `sendBuf` starts at absolute offset `sendBase`. */
  datatype Core = Core(
    stream: Option<nat>, gen: nat, closed: bool,
    sendBuf: seq<byte>, sendBase: nat, sendSent: nat, ackSent: nat, recv: nat,
    finQueued: bool, finSent: bool, peerFin: bool, connDead: bool)
  {
    function End(): nat { sendBase + |sendBuf| }

    predicate HasWork() {
      recv > ackSent || sendSent < End() || (finQueued && !finSent)
    }
  }

  const FRESH := Core(None, 0, false, [], 0, 0, 0, 0, false, false, false, false)

  datatype AttachResult = Attached(core: Core) | SessionClosed | MissingBytes

  function Attach(c: Core, stream: nat, peerRecv: nat): AttachResult {
    if c.closed then SessionClosed
    else if peerRecv < c.sendBase || peerRecv > c.End() then MissingBytes
    else Attached(c.(sendBuf := c.sendBuf[peerRecv - c.sendBase..], sendBase := peerRecv, sendSent := peerRecv,
                     ackSent := c.recv, finSent := false, stream := Some(stream), gen := c.gen + 1))
  }

  function DetachLocked(c: Core): Core {
    c.(stream := None, gen := c.gen + 1)
  }

  /** `detach` acts only for the loops of the generation that is still attached. */
  function Detach(c: Core, gen: nat): Core {
    if c.closed || c.gen != gen || c.stream.None? then c else DetachLocked(c)
  }

  function ForceDetach(c: Core): Core {
    if c.closed || c.stream.None? then c else DetachLocked(c)
  }

  function Shutdown(c: Core): Core {
    if c.closed then c else c.(closed := true, stream := None)
  }

  predicate CanBuffer(c: Core) { !c.closed && |c.sendBuf| < MAX_UNACKED }

  function PumpBytes(c: Core, data: seq<byte>): Core {
    c.(sendBuf := c.sendBuf + data)
  }

  function PumpEnd(c: Core): Core { c.(finQueued := true) }

  /** What one turn of `writeLoop` does; `OutOfRange` is the run-time panic of slicing `sendBuf` below its start. */
  datatype WriteResult = Idle | Wrote(core: Core, frame: Frame) | OutOfRange

  function WriteOne(c: Core): WriteResult {
    if !c.HasWork() then Idle
    else if c.recv > c.ackSent then Wrote(c.(ackSent := c.recv), Ack(c.recv))
    else if c.sendSent < c.End() then
      if c.sendSent < c.sendBase then OutOfRange
      else
        var start := c.sendSent - c.sendBase;
        var n := Min(FRAME_MAX, |c.sendBuf| - start);
        Wrote(c.(sendSent := c.sendSent + n), Data(c.sendBuf[start..start + n]))
    else Wrote(c.(finSent := true), Fin)
  }

  /** The check at the top of the three apply functions. */
  predicate Accepts(c: Core, gen: nat) { !c.closed && c.gen == gen }

  /** The second critical section of `applyData`: note that the generation is not checked again. */
  function FinishApply(c: Core, n: nat, failed: bool): Core {
    if failed then c.(recv := c.recv + n, connDead := true, finQueued := true)
    else c.(recv := c.recv + n)
  }

  function ApplyAck(c: Core, gen: nat, off: nat): Core {
    if Accepts(c, gen) && c.sendBase < off <= c.End()
    then c.(sendBuf := c.sendBuf[off - c.sendBase..], sendBase := off)
    else c
  }

  function ApplyFin(c: Core, gen: nat): Core {
    if !Accepts(c, gen) then c
    else
      var c' := c.(peerFin := true, connDead := true, finQueued := true);
      if c.finSent then Shutdown(c') else c'
  }
}
