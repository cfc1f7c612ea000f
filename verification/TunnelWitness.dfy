/**
 Concrete runs that the code can make: what an attach that is not fenced leads to, a hello handled late, a local read
 that comes too late for the fin, and a loss behind the first close. The state machine allows more runs than the code
 does, which is right for what holds of all of them; here each step must also have a goroutine that can take it, in the
 situation at hand.
 */
module TunnelWitness {
  import opened Basics
  import opened TunnelCore
  import opened TunnelProtocol
  import opened TunnelInvariant
  import opened TunnelTheorems
  import opened TunnelUnfenced

  /** This end has a session: it attached to the opening stream. */
  predicate Started(s: System, x: Side) { 0 < |s.halves.At(x)| && s.halves.At(x)[0].gen.Some? }

  function Last(steps: seq<Step>): Option<Step> { if steps == [] then None else Some(steps[|steps| - 1]) }

  /** The write loop of `x` has just written to a stream that is gone, so the write fails. */
  predicate WriteFails(s: System, before: seq<Step>, x: Side, k: nat)
    requires k < |s.halves.At(x.Other())|
  {
    Last(before) == Some(Write(x)) && s.halves.At(x.Other())[k].cut
  }

  /** The pump of `x` has appended nothing yet. So whatever the first read returned, it may have returned while the
      local connection still worked, and have waited for `mu` since. */
  predicate FirstRead(before: seq<Step>, x: Side) {
    forall step :: step in before && step.LocalRead? ==> step.side != x
  }

  /** The read loop of `x` is not inside `applyData` and finds its stream at an end. */
  predicate ReadFails(s: System, x: Side, k: nat)
    requires k < |s.halves.At(x)|
  {
    s.ends.At(x).applying.None? && s.halves.At(x)[k].cut && s.halves.At(x)[k].inbox == []
  }

  /** A handler has an unanswered resume hello and calls `forceDetach`, which will not have to wait. */
  predicate HandlerDetaches(s: System, x: Side) {
    x.Server? && s.ends.server.applying.None?
    && exists j :: 1 <= j < |s.halves.client| && j < |s.halves.server|
                   && s.halves.client[j].told.Some? && s.halves.server[j].told.None?
  }

  /** The goroutines that take a step; `before` are the steps so far. Not every step of the code is covered. */
  predicate CodeStep(s: System, before: seq<Step>, step: Step)
    requires Sized(s) && Enabled(s, step)
  {
    match step
    // pumpLocal, started with the session
    case LocalRead(x, _) => Started(s, x) && (!s.ends.At(x).core.connDead || FirstRead(before, x))
    case LocalEnd(x) => Started(s, x)
    case Write(_) => true
    // the read loop of the attached stream, one frame at a time
    case Take(x, k, _) => s.ends.At(x).On(k) && s.ends.At(x).applying.None?
    case Finish(_) => true
    case Lose(_, _, _) => true
    case DetachStep(x) =>
      var k := s.ends.At(x).core.stream.value;
      k < |s.halves.client| && (WriteFails(s, before, x, k) || ReadFails(s, x, k) || HandlerDetaches(s, x))
    // forward, and resumeTunnel, which may give up on a hello and send another
    case Hello => |s.halves.client| == 0 || Started(s, Client)
    // the opening handler creates the session; a resume handler needs it, and answers once forceDetach found no stream
    case Reply(k) => if k == 0 then !Started(s, Server) else Started(s, Server) && s.ends.server.core.stream.None?
    // the client has to have the answer
    case AttachStep(x, k) =>
      (x.Client? ==> !s.halves.client[k].cut) && (k > 0 ==> Started(s, x)) && (k == 0 ==> !Started(s, x))
    // the write loop after its fin, if the peer's came before; applyFin closes within its own step
    case Close(x) =>
      var c := s.ends.At(x).core;
      && c.stream.Some? && c.finSent && c.peerFin && !c.closed
      && c.stream.value < |s.halves.client| && !s.halves.At(x.Other())[c.stream.value].cut
  }

  /** `t` is reached from `s` by steps of the code, after the steps `before`. */
  ghost predicate CodeRun(s: System, before: seq<Step>, steps: seq<Step>, t: System)
    decreases |steps|
  {
    Sized(s) &&
    if steps == [] then s == t
    else
      && Enabled(s, steps[0]) && CodeStep(s, before, steps[0])
      && CodeRun(Next(s, steps[0]), before + [steps[0]], steps[1..], t)
  }

  lemma {:induction false} CodeSnoc(s: System, before: seq<Step>, steps: seq<Step>, t: System, step: Step)
    requires CodeRun(s, before, steps, t) && Sized(t) && Enabled(t, step) && Sized(Next(t, step))
    requires CodeStep(t, before + steps, step)
    ensures CodeRun(s, before, steps + [step], Next(t, step))
    decreases |steps|
  {
    if steps == [] {
      assert steps + [step] == [step] && [step][1..] == [] && before + steps == before;
      assert CodeRun(Next(s, step), before + [step], [], Next(s, step));
    } else {
      assert (steps + [step])[1..] == steps[1..] + [step];
      assert before + steps == (before + [steps[0]]) + steps[1..];
      CodeSnoc(Next(s, steps[0]), before + [steps[0]], steps[1..], t, step);
    }
  }

  /** A run of the code from the start. */
  ghost predicate Happens(steps: seq<Step>, t: System) { CodeRun(Init(), [], steps, t) }

  lemma HappensNext(steps: seq<Step>, s: System, step: Step, t: System)
    requires Happens(steps, s) && Sized(s) && Enabled(s, step) && CodeStep(s, steps, step)
    requires t == Next(s, step) && Sized(t)
    ensures Happens(steps + [step], t) && Last(steps + [step]) == Some(step)
  {
    assert [] + steps == steps;
    CodeSnoc(Init(), [], steps, s, step);
  }

  /** Such a run in which every service attach was fenced as well. */
  ghost predicate Witness(steps: seq<Step>, t: System) { Happens(steps, t) && FencedRun(Init(), steps, t) }

  lemma Extend(steps: seq<Step>, s: System, step: Step, t: System)
    requires Witness(steps, s) && Sized(s) && Enabled(s, step) && Fenced(s, step) && CodeStep(s, steps, step)
    requires t == Next(s, step) && Sized(t)
    ensures Witness(steps + [step], t) && Last(steps + [step]) == Some(step)
  {
    HappensNext(steps, s, step, t);
    RunSnoc(Init(), steps, s, step);
  }

  // ---- opening ----

  const HELLO := Half(Some(0), [], false, None)
  const SILENT := Half(None, [], false, None)

  /** Halves of a stream that an end attached to with generation `g`, in use and gone. */
  function Open(g: nat): Half { Half(Some(0), [], false, Some(g)) }
  function Gone(g: nat): Half { Half(Some(0), [], true, Some(g)) }

  /** An end attached to stream `k` with generation `g` that has neither sent nor received anything. */
  function Fresh(k: nat, g: nat): Endpoint { START.(core := FRESH.(stream := Some(k), gen := g)) }
  function Idle(g: nat): Endpoint { START.(core := FRESH.(gen := g)) }

  function Sys(c: Endpoint, v: Endpoint, hc: seq<Half>, hv: seq<Half>): System { System(Pair(c, v), Pair(hc, hv)) }

  lemma AttachFresh(s: System, x: Side, k: nat, g: nat)
    requires Sized(s) && Enabled(s, AttachStep(x, k))
    requires s.ends.At(x) == Idle(g) && PeerRecv(s, x, k) == Some(0)
    ensures Next(s, AttachStep(x, k)).ends == s.ends.With(x, Fresh(k, g + 1))
    ensures Next(s, AttachStep(x, k)).halves
            == s.halves.With(x, s.halves.At(x)[k := s.halves.At(x)[k].(gen := Some(g + 1))])
  {
    assert FRESH.sendBuf[0..] == [];
  }

  /** Both ends have detached or never been attached, and both have told on stream `k`. */
  ghost predicate Meeting(s: System, k: nat, g: nat) {
    && Sized(s) && k == |s.halves.client| - 1 && s.ends == Pair(Idle(g), Idle(g))
    && s.halves.client[k] == s.halves.server[k] == HELLO
    && (if k == 0 then true else Started(s, Client) && Started(s, Server))
  }

  ghost function Met(s: System, k: nat, g: nat): System
    requires Meeting(s, k, g)
  {
    Sys(Fresh(k, g + 1), Fresh(k, g + 1), s.halves.client[k := Open(g + 1)], s.halves.server[k := Open(g + 1)])
  }

  lemma Meet(before: seq<Step>, s: System, k: nat, g: nat) returns (steps: seq<Step>)
    requires Witness(before, s) && Meeting(s, k, g)
    ensures Witness(steps, Met(s, k, g)) && forall step :: step in steps ==> step in before || !step.LocalRead?
  {
    AttachFresh(s, Server, k, g);
    var m := Next(s, AttachStep(Server, k));
    Extend(before, s, AttachStep(Server, k), m);
    AttachFresh(m, Client, k, g);
    assert Next(m, AttachStep(Client, k)) == Met(s, k, g);
    Extend(before + [AttachStep(Server, k)], m, AttachStep(Client, k), Met(s, k, g));
    steps := before + [AttachStep(Server, k)] + [AttachStep(Client, k)];
  }

  ghost function Opened(): System { Sys(Fresh(0, 1), Fresh(0, 1), [Open(1)], [Open(1)]) }

  lemma HelloOnce() returns (steps: seq<Step>)
    ensures Witness(steps, Sys(Idle(0), Idle(0), [HELLO], [HELLO])) && forall step :: step in steps ==> !step.LocalRead?
  {
    var s1, s2 := Sys(START, START, [HELLO], [SILENT]), Sys(Idle(0), Idle(0), [HELLO], [HELLO]);
    assert Next(Init(), Hello) == s1 by {
      assert Next(Init(), Hello).halves.client == [HELLO] && Next(Init(), Hello).halves.server == [SILENT];
    }
    assert Next(s1, Reply(0)) == s2 by { assert [SILENT][0 := HELLO] == [HELLO]; }
    Extend([], Init(), Hello, s1);
    Extend([] + [Hello], s1, Reply(0), s2);
    steps := [] + [Hello] + [Reply(0)];
  }

  lemma OpenSession() returns (steps: seq<Step>)
    ensures Witness(steps, Opened()) && forall step :: step in steps ==> !step.LocalRead?
  {
    var before := HelloOnce();
    var s := Sys(Idle(0), Idle(0), [HELLO], [HELLO]);
    steps := Meet(before, s, 0, 0);
    assert [HELLO][0 := Open(1)] == [Open(1)];
    assert Met(s, 0, 0) == Opened();
  }

  // ---- one byte across ----

  /** Both ends have just joined stream `k`. */
  ghost predicate Quiet(s: System, k: nat, g: nat) {
    && Sized(s) && k < |s.halves.client| && s.ends == Pair(Fresh(k, g), Fresh(k, g))
    && s.halves.client[k] == s.halves.server[k] == Open(g) && Started(s, Client) && Started(s, Server)
  }

  function Sender(k: nat, g: nat, b: byte): Endpoint {
    START.(core := FRESH.(stream := Some(k), gen := g, sendBuf := [b], sendSent := 1), read := [b])
  }

  function Holder(k: nat, g: nat, b: byte): Endpoint {
    START.(core := FRESH.(stream := Some(k), gen := g), applying := Some(Apply([b], false)), written := [b])
  }

  /** `x` has sent one byte, which the other end has written locally but not counted. */
  ghost function Carried(s: System, x: Side, k: nat, g: nat, b: byte): System {
    s.(ends := s.ends.With(x, Sender(k, g, b)).With(x.Other(), Holder(k, g, b)))
  }

  lemma ReadByte(s: System, x: Side, k: nat, g: nat, b: byte)
    requires Quiet(s, k, g)
    ensures Enabled(s, LocalRead(x, [b]))
    ensures Next(s, LocalRead(x, [b]))
            == SetEnd(s, x, Fresh(k, g).(core := Fresh(k, g).core.(sendBuf := [b]), read := [b]))
  {
    assert [] + [b] == [b];
  }

  lemma WriteByte(s: System, x: Side, k: nat, g: nat, b: byte)
    requires Sized(s) && k < |s.halves.client|
    requires s.ends.At(x) == Fresh(k, g).(core := Fresh(k, g).core.(sendBuf := [b]), read := [b])
    ensures Enabled(s, Write(x))
    ensures Next(s, Write(x)) == Push(SetEnd(s, x, Sender(k, g, b)), x.Other(), k, Packet(Data([b]), 1, false))
  {
    assert [b][0..1] == [b];
    assert WriteOne(s.ends.At(x).core) == Wrote(Sender(k, g, b).core, Data([b]));
  }

  lemma TakeByte(s: System, y: Side, k: nat, g: nat, b: byte)
    requires Sized(s) && k < |s.halves.client| && s.ends.At(y) == Fresh(k, g)
    requires s.halves.At(y)[k] == Open(g).(inbox := [Packet(Data([b]), 1, false)])
    ensures Enabled(s, Take(y, k, 1))
    ensures Next(s, Take(y, k, 1)) == SetHalf(SetEnd(s, y, Holder(k, g, b)), y, k, Open(g))
  {
    assert [b][..1] == [b] && [] + [b] == [b];
    assert [Packet(Data([b]), 1, false)][1..] == [];
  }

  ghost function Sent(s: System, x: Side, k: nat, g: nat, b: byte): System
    requires k < |s.halves.At(x.Other())|
  {
    Push(SetEnd(s, x, Sender(k, g, b)), x.Other(), k, Packet(Data([b]), 1, false))
  }

  lemma SendByte(before: seq<Step>, s: System, x: Side, k: nat, g: nat, b: byte) returns (steps: seq<Step>)
    requires Witness(before, s) && Quiet(s, k, g)
    ensures Witness(steps, Sent(s, x, k, g, b))
  {
    ReadByte(s, x, k, g, b);
    var s1 := SetEnd(s, x, Fresh(k, g).(core := Fresh(k, g).core.(sendBuf := [b]), read := [b]));
    Extend(before, s, LocalRead(x, [b]), s1);
    WriteByte(s1, x, k, g, b);
    Extend(before + [LocalRead(x, [b])], s1, Write(x), Sent(s, x, k, g, b));
    steps := before + [LocalRead(x, [b])] + [Write(x)];
  }

  lemma TakeSent(s: System, x: Side, k: nat, g: nat, b: byte)
    requires Quiet(s, k, g)
    ensures var t := Sent(s, x, k, g, b);
            && Sized(t) && Enabled(t, Take(x.Other(), k, 1)) && CodeStep(t, [], Take(x.Other(), k, 1))
            && Next(t, Take(x.Other(), k, 1)) == Carried(s, x, k, g, b)
  {
    var y, t := x.Other(), Sent(s, x, k, g, b);
    assert t.halves.At(y)[k] == Open(g).(inbox := [Packet(Data([b]), 1, false)]);
    TakeByte(t, y, k, g, b);
    assert t.halves.At(y)[k := Open(g)] == s.halves.At(y);
  }

  lemma CarryByte(before: seq<Step>, s: System, x: Side, k: nat, g: nat, b: byte) returns (steps: seq<Step>)
    requires Witness(before, s) && Quiet(s, k, g)
    ensures Witness(steps, Carried(s, x, k, g, b))
  {
    steps := SendByte(before, s, x, k, g, b);
    TakeSent(s, x, k, g, b);
    Extend(steps, Sent(s, x, k, g, b), Take(x.Other(), k, 1), Carried(s, x, k, g, b));
    steps := steps + [Take(x.Other(), k, 1)];
  }

  // ---- a count read while a payload is held ----

  function Detached2(e: Endpoint): Endpoint { e.(core := e.core.(stream := None, gen := 2)) }

  /** The service holds one byte that it has written locally but not counted, and has one byte of its own to send. */
  function Busy(): Endpoint { Holder(0, 1, 7).(core := Holder(0, 1, 7).core.(sendBuf := [9]), read := [9]) }
  function BusySent(): Endpoint { Busy().(core := Busy().core.(sendSent := 1)) }

  lemma BusyRead() returns (steps: seq<Step>)
    ensures Witness(steps, Sys(Sender(0, 1, 7), Busy(), [Open(1)], [Open(1)]))
  {
    var before := OpenSession();
    before := CarryByte(before, Opened(), Client, 0, 1, 7);
    var s := Carried(Opened(), Client, 0, 1, 7);
    assert s == Sys(Sender(0, 1, 7), Holder(0, 1, 7), [Open(1)], [Open(1)]);
    assert [] + [9 as byte] == [9];
    Extend(before, s, LocalRead(Server, [9]), Sys(Sender(0, 1, 7), Busy(), [Open(1)], [Open(1)]));
    steps := before + [LocalRead(Server, [9])];
  }

  /** The connection goes, in both directions. */
  lemma LoseBoth(before: seq<Step>, c: Endpoint, v: Endpoint) returns (steps: seq<Step>)
    requires Witness(before, Sys(c, v, [Open(1)], [Open(1)]))
    ensures Witness(steps, Sys(c, v, [Gone(1)], [Gone(1)]))
  {
    assert [Open(1)][0 := Gone(1)] == [Gone(1)];
    Extend(before, Sys(c, v, [Open(1)], [Open(1)]), Lose(Client, 0, 0), Sys(c, v, [Gone(1)], [Open(1)]));
    Extend(before + [Lose(Client, 0, 0)], Sys(c, v, [Gone(1)], [Open(1)]), Lose(Server, 0, 0),
           Sys(c, v, [Gone(1)], [Gone(1)]));
    steps := before + [Lose(Client, 0, 0)] + [Lose(Server, 0, 0)];
  }

  /** The service's write fails while its reader is held up by the local socket. */
  lemma ServiceWriteFails() returns (steps: seq<Step>)
    ensures Witness(steps, Sys(Sender(0, 1, 7), Detached2(BusySent()), [Gone(1)], [Gone(1)]))
  {
    var before := BusyRead();
    before := LoseBoth(before, Sender(0, 1, 7), Busy());
    var s := Sys(Sender(0, 1, 7), Busy(), [Gone(1)], [Gone(1)]);
    var s1 := Sys(Sender(0, 1, 7), BusySent(), [Gone(1)], [Gone(1)]);
    assert [9 as byte][0..1] == [9];
    assert WriteOne(Busy().core) == Wrote(BusySent().core, Data([9]));
    Extend(before, s, Write(Server), s1);
    assert WriteFails(s1, before + [Write(Server)], Server, 0);
    Extend(before + [Write(Server)], s1, DetachStep(Server),
           Sys(Sender(0, 1, 7), Detached2(BusySent()), [Gone(1)], [Gone(1)]));
    steps := before + [Write(Server)] + [DetachStep(Server)];
  }

  function Left(): Endpoint { Detached2(Sender(0, 1, 7)) }

  /** The service has answered the client's resume hello, still holding the payload. */
  ghost function Unfenced(): System { Sys(Left(), Detached2(BusySent()), [Gone(1), HELLO], [Gone(1), HELLO]) }

  /** The client's read fails and it sends a resume hello; the handler finds no stream and answers at once. */
  lemma AnsweredAtOnce() returns (steps: seq<Step>)
    ensures Witness(steps, Unfenced())
  {
    var before := ServiceWriteFails();
    var v := Detached2(BusySent());
    var s, s1 := Sys(Sender(0, 1, 7), v, [Gone(1)], [Gone(1)]), Sys(Left(), v, [Gone(1)], [Gone(1)]);
    var s2 := Sys(Left(), v, [Gone(1), HELLO], [Gone(1), SILENT]);
    assert ReadFails(s, Client, 0);
    Extend(before, s, DetachStep(Client), s1);
    assert [Gone(1)] + [HELLO] == [Gone(1), HELLO] && [Gone(1)] + [SILENT] == [Gone(1), SILENT];
    Extend(before + [DetachStep(Client)], s1, Hello, s2);
    assert [Gone(1), SILENT][1 := HELLO] == [Gone(1), HELLO];
    Extend(before + [DetachStep(Client)] + [Hello], s2, Reply(1), Unfenced());
    steps := before + [DetachStep(Client)] + [Hello] + [Reply(1)];
  }

  lemma UnfencedFacts()
    requires Inv(Unfenced())
    ensures var t := Unfenced();
            && AboutToAttach(t, 1) && !t.halves.client[1].cut
            && t.ends.server.InFlight() > 0 && !Fenced(t, AttachStep(Server, 1))
  {
  }

  /** The situation arises: a service about to attach to the client's newest stream, with a count that is not
      current. */
  lemma UnfencedIsReachable() returns (steps: seq<Step>, t: System)
    ensures Witness(steps, t) && AboutToAttach(t, 1) && !t.halves.client[1].cut
    ensures t.ends.server.InFlight() > 0 && !Fenced(t, AttachStep(Server, 1))
  {
    steps := AnsweredAtOnce();
    t := Unfenced();
    Reached(steps, t);
    UnfencedFacts();
  }

  // ---- and what comes of it ----

  function AgainServer(): Endpoint {
    BusySent().(core := BusySent().core.(stream := Some(1), gen := 3, sendSent := 0))
  }
  function AgainClient(): Endpoint { Left().(core := Left().core.(stream := Some(1), gen := 3, sendSent := 0)) }
  function Counted(): Endpoint { AgainServer().(core := AgainServer().core.(recv := 1), applying := None) }

  const JOINED: seq<Half> := [Gone(1), Open(3)]

  lemma RejoinServer() returns (steps: seq<Step>)
    ensures Happens(steps, Sys(Left(), AgainServer(), [Gone(1), HELLO], JOINED))
  {
    var before := AnsweredAtOnce();
    assert [9 as byte][0..] == [9];
    assert [Gone(1), HELLO][1 := Open(3)] == JOINED;
    HappensNext(before, Unfenced(), AttachStep(Server, 1), Sys(Left(), AgainServer(), [Gone(1), HELLO], JOINED));
    steps := before + [AttachStep(Server, 1)];
  }

  lemma Rejoin() returns (steps: seq<Step>)
    ensures Happens(steps, Sys(AgainClient(), Counted(), JOINED, JOINED))
  {
    var before := RejoinServer();
    var s := Sys(Left(), AgainServer(), [Gone(1), HELLO], JOINED);
    var s1 := Sys(AgainClient(), AgainServer(), JOINED, JOINED);
    assert [7 as byte][0..] == [7];
    assert [Gone(1), HELLO][1 := Open(3)] == JOINED;
    HappensNext(before, s, AttachStep(Client, 1), s1);
    HappensNext(before + [AttachStep(Client, 1)], s1, Finish(Server), Sys(AgainClient(), Counted(), JOINED, JOINED));
    steps := before + [AttachStep(Client, 1)] + [Finish(Server)];
  }

  function Resent(): Endpoint { AgainClient().(core := AgainClient().core.(sendSent := 1)) }

  const ARRIVING: seq<Half> := [Gone(1), Open(3).(inbox := [Packet(Data([7]), 1, false)])]

  /** The client replays the byte that the service has written. */
  lemma Replayed() returns (steps: seq<Step>)
    ensures Happens(steps, Sys(Resent(), Counted(), JOINED, ARRIVING))
  {
    var before := Rejoin();
    assert [7 as byte][0..1] == [7];
    assert WriteOne(AgainClient().core) == Wrote(Resent().core, Data([7]));
    assert [] + [Packet(Data([7]), 1, false)] == [Packet(Data([7]), 1, false)];
    assert JOINED[1 := ARRIVING[1]] == ARRIVING;
    HappensNext(before, Sys(AgainClient(), Counted(), JOINED, JOINED), Write(Client),
                Sys(Resent(), Counted(), JOINED, ARRIVING));
    steps := before + [Write(Client)];
  }

  /** The client read one byte, and the service has written it twice. */
  lemma DuplicateHappens() returns (steps: seq<Step>, t: System)
    ensures Happens(steps, t) && t.ends.client.read == [7] && t.ends.server.written == [7, 7]
  {
    var before := Replayed();
    var s := Sys(Resent(), Counted(), JOINED, ARRIVING);
    t := Next(s, Take(Server, 1, 1));
    assert [7 as byte][..1] == [7] && [7 as byte] + [7] == [7, 7];
    HappensNext(before, s, Take(Server, 1, 1), t);
    steps := before + [Take(Server, 1, 1)];
  }

  /** The service acks the byte, and the client's next write slices below its buffer. */
  lemma PanicHappens() returns (steps: seq<Step>, t: System)
    ensures Happens(steps, t) && Panics(t)
  {
    var before := Rejoin();
    var s := Sys(AgainClient(), Counted(), JOINED, JOINED);
    var v := Counted().(core := Counted().core.(ackSent := 1));
    assert WriteOne(Counted().core) == Wrote(v.core, Ack(1));
    var full := Open(3).(inbox := [Packet(Ack(1), 1, false)]);
    assert JOINED[1 := full] == [Gone(1), full] && Open(3).inbox + [Packet(Ack(1), 1, false)] == full.inbox;
    var s1 := Sys(AgainClient(), v, [Gone(1), full], JOINED);
    HappensNext(before, s, Write(Server), s1);
    t := Next(s1, Take(Client, 1, 0));
    assert t.ends.client.core == ApplyAck(AgainClient().core, 3, 1);
    HappensNext(before + [Write(Server)], s1, Take(Client, 1, 0), t);
    steps := before + [Write(Server)] + [Take(Client, 1, 0)];
  }

  // ---- a hello handled late ----

  /** The connection of stream 0 is gone, and both read loops have found out. */
  lemma BothRead() returns (steps: seq<Step>)
    ensures Witness(steps, Sys(Idle(2), Idle(2), [Gone(1)], [Gone(1)]))
  {
    var before := OpenSession();
    before := LoseBoth(before, Fresh(0, 1), Fresh(0, 1));
    var s, s1 := Sys(Fresh(0, 1), Fresh(0, 1), [Gone(1)], [Gone(1)]), Sys(Fresh(0, 1), Idle(2), [Gone(1)], [Gone(1)]);
    assert ReadFails(s, Server, 0);
    Extend(before, s, DetachStep(Server), s1);
    assert ReadFails(s1, Client, 0);
    Extend(before + [DetachStep(Server)], s1, DetachStep(Client), Sys(Idle(2), Idle(2), [Gone(1)], [Gone(1)]));
    steps := before + [DetachStep(Server)] + [DetachStep(Client)];
  }

  /** Two resume hellos; the handler of the first has read it but not gone on, the other has answered. */
  ghost function SecondAnswered(): System {
    Sys(Idle(2), Idle(2), [Gone(1), HELLO, HELLO], [Gone(1), SILENT, HELLO])
  }

  lemma HelloAgain() returns (steps: seq<Step>)
    ensures Witness(steps, SecondAnswered())
  {
    var before := BothRead();
    var s := Sys(Idle(2), Idle(2), [Gone(1)], [Gone(1)]);
    var s1 := Sys(Idle(2), Idle(2), [Gone(1), HELLO], [Gone(1), SILENT]);
    var s2 := Sys(Idle(2), Idle(2), [Gone(1), HELLO, HELLO], [Gone(1), SILENT, SILENT]);
    assert [Gone(1)] + [HELLO] == [Gone(1), HELLO] && [Gone(1)] + [SILENT] == [Gone(1), SILENT];
    Extend(before, s, Hello, s1);
    assert [Gone(1), HELLO] + [HELLO] == [Gone(1), HELLO, HELLO];
    assert [Gone(1), SILENT] + [SILENT] == [Gone(1), SILENT, SILENT];
    Extend(before + [Hello], s1, Hello, s2);
    assert [Gone(1), SILENT, SILENT][2 := HELLO] == [Gone(1), SILENT, HELLO];
    Extend(before + [Hello] + [Hello], s2, Reply(2), SecondAnswered());
    steps := before + [Hello] + [Hello] + [Reply(2)];
  }

  const CLIENT_SIDE: seq<Half> := [Gone(1), HELLO, Open(3)]
  const SERVER_SIDE: seq<Half> := [Gone(1), SILENT, Open(3)]

  /** The client, after it has taken and counted the byte, and after it has acked it. */
  function Received(): Endpoint { START.(core := FRESH.(stream := Some(2), gen := 3, recv := 1), written := [7]) }
  function Acked(): Endpoint { Received().(core := Received().core.(ackSent := 1)) }

  /** Both ends go on with stream 2, and the client counts a byte of the service. */
  lemma SecondStream() returns (steps: seq<Step>)
    ensures Witness(steps, Sys(Received(), Sender(2, 3, 7), CLIENT_SIDE, SERVER_SIDE))
  {
    var before := HelloAgain();
    before := Meet(before, SecondAnswered(), 2, 2);
    var s := Met(SecondAnswered(), 2, 2);
    assert s.halves.client == CLIENT_SIDE && s.halves.server == SERVER_SIDE;
    before := CarryByte(before, s, Server, 2, 3, 7);
    Extend(before, Carried(s, Server, 2, 3, 7), Finish(Client),
           Sys(Received(), Sender(2, 3, 7), CLIENT_SIDE, SERVER_SIDE));
    steps := before + [Finish(Client)];
  }

  /** The service, after the ack of its byte. */
  function Trimmed(): Endpoint { Sender(2, 3, 7).(core := Sender(2, 3, 7).core.(sendBuf := [], sendBase := 1)) }

  lemma AckArrives() returns (steps: seq<Step>)
    ensures Witness(steps, Sys(Acked(), Trimmed(), CLIENT_SIDE, SERVER_SIDE))
  {
    var before := SecondStream();
    var full := Open(3).(inbox := [Packet(Ack(1), 0, false)]);
    var s := Sys(Received(), Sender(2, 3, 7), CLIENT_SIDE, SERVER_SIDE);
    var s1 := Sys(Acked(), Sender(2, 3, 7), CLIENT_SIDE, [Gone(1), SILENT, full]);
    assert WriteOne(Received().core) == Wrote(Acked().core, Ack(1));
    assert [] + [Packet(Ack(1), 0, false)] == full.inbox && SERVER_SIDE[2 := full] == [Gone(1), SILENT, full];
    Extend(before, s, Write(Client), s1);
    assert [7 as byte][1..] == [] && full.inbox[1..] == [];
    assert [Gone(1), SILENT, full][2 := Open(3)] == SERVER_SIDE;
    Extend(before + [Write(Client)], s1, Take(Server, 2, 0), Sys(Acked(), Trimmed(), CLIENT_SIDE, SERVER_SIDE));
    steps := before + [Write(Client)] + [Take(Server, 2, 0)];
  }

  /** Two honest ends and a working stream; the handler of an abandoned resume hello goes on only now. It detaches
      that stream, answers, gets the missing-bytes error and so shuts the session down. */
  lemma StaleHelloIsReachable() returns (steps: seq<Step>, t: System)
    ensures Witness(steps, t) && Sized(t) && Enabled(t, AttachStep(Server, 1)) && Fenced(t, AttachStep(Server, 1))
    ensures Attach(t.ends.server.core, 1, PeerRecv(t, Server, 1).value).MissingBytes?
    ensures t.ends.client.On(2) && !t.ends.client.core.closed && |t.halves.client| == 3 && !t.halves.client[2].cut
  {
    var before := AckArrives();
    var s := Sys(Acked(), Trimmed(), CLIENT_SIDE, SERVER_SIDE);
    var v := Trimmed().(core := Trimmed().core.(stream := None, gen := 4));
    var s1 := Sys(Acked(), v, CLIENT_SIDE, SERVER_SIDE);
    assert s.halves.client[1].told.Some? && s.halves.server[1].told.None?;
    Extend(before, s, DetachStep(Server), s1);
    t := Sys(Acked(), v, CLIENT_SIDE, [Gone(1), HELLO, Open(3)]);
    assert SERVER_SIDE[1 := HELLO] == [Gone(1), HELLO, Open(3)];
    Extend(before + [DetachStep(Server)], s1, Reply(1), t);
    steps := before + [DetachStep(Server)] + [Reply(1)];
  }

  // ---- a local read that comes too late ----

  /** An end whose local read has ended, before and after its fin. */
  function Done(): Endpoint { Fresh(0, 1).(core := Fresh(0, 1).core.(finQueued := true), readEnded := true) }
  function DoneSent(): Endpoint { Done().(core := Done().core.(finSent := true)) }

  /** The other end, after it has taken the fin, and after it has sent its own. */
  function Finned(e: Endpoint): Endpoint {
    e.(core := e.core.(peerFin := true, connDead := true, finQueued := true))
  }
  function FinnedSent(e: Endpoint): Endpoint { Finned(e).(core := Finned(e).core.(finSent := true)) }

  /** The fin of the client, on its way. */
  const CLIENT_FIN: Half := Open(1).(inbox := [Packet(Fin, 0, true)])

  /** The client's local read ends, it sends its fin, and the service takes it. */
  lemma ClientFin(before: seq<Step>, v: Endpoint) returns (steps: seq<Step>)
    requires Witness(before, Sys(Fresh(0, 1), v, [Open(1)], [Open(1)]))
    requires v.On(0) && !v.core.closed && v.core.gen == 1 && v.applying.None? && !v.core.finSent
    ensures Witness(steps, Sys(DoneSent(), Finned(v), [Open(1)], [Open(1)]))
    ensures forall step :: step in steps ==> step in before || !step.LocalRead?
  {
    var s, s1 := Sys(Fresh(0, 1), v, [Open(1)], [Open(1)]), Sys(Done(), v, [Open(1)], [Open(1)]);
    var s2 := Sys(DoneSent(), v, [Open(1)], [CLIENT_FIN]);
    Extend(before, s, LocalEnd(Client), s1);
    assert WriteOne(Done().core) == Wrote(DoneSent().core, Fin);
    assert [] + [Packet(Fin, 0, true)] == CLIENT_FIN.inbox && [Open(1)][0 := CLIENT_FIN] == [CLIENT_FIN];
    Extend(before + [LocalEnd(Client)], s1, Write(Client), s2);
    assert CLIENT_FIN.inbox[1..] == [] && [CLIENT_FIN][0 := Open(1)] == [Open(1)];
    Extend(before + [LocalEnd(Client)] + [Write(Client)], s2, Take(Server, 0, 0),
           Sys(DoneSent(), Finned(v), [Open(1)], [Open(1)]));
    steps := before + [LocalEnd(Client)] + [Write(Client)] + [Take(Server, 0, 0)];
  }

  const SERVER_FIN: Half := Open(1).(inbox := [Packet(Fin, 0, false)])

  function LateReader(): Endpoint {
    FinnedSent(Fresh(0, 1)).(core := FinnedSent(Fresh(0, 1)).core.(sendBuf := [9]), read := [9])
  }

  /** The service's own fin is out when the byte that its pump had read is appended. */
  lemma ReadAfterFin() returns (steps: seq<Step>)
    ensures Witness(steps, Sys(DoneSent(), LateReader(), [SERVER_FIN], [Open(1)]))
  {
    var before := OpenSession();
    before := ClientFin(before, Fresh(0, 1));
    var v := Finned(Fresh(0, 1));
    var s := Sys(DoneSent(), v, [Open(1)], [Open(1)]);
    var s1 := Sys(DoneSent(), FinnedSent(Fresh(0, 1)), [SERVER_FIN], [Open(1)]);
    assert WriteOne(v.core) == Wrote(FinnedSent(Fresh(0, 1)).core, Fin);
    assert [] + [Packet(Fin, 0, false)] == SERVER_FIN.inbox && [Open(1)][0 := SERVER_FIN] == [SERVER_FIN];
    Extend(before, s, Write(Server), s1);
    assert [] + [9 as byte] == [9];
    assert FirstRead(before + [Write(Server)], Server);
    Extend(before + [Write(Server)], s1, LocalRead(Server, [9]),
        Sys(DoneSent(), LateReader(), [SERVER_FIN], [Open(1)]));
    steps := before + [Write(Server)] + [LocalRead(Server, [9])];
  }

  /** Both ends close, and the client never gets the byte that the service read. */
  lemma LateReadIsLost() returns (steps: seq<Step>, t: System)
    ensures Witness(steps, t) && t.ends.client.core.closed && t.ends.server.core.closed
    ensures t.ends.server.read == [9] && t.ends.client.written == []
  {
    var before := ReadAfterFin();
    var s := Sys(DoneSent(), LateReader(), [SERVER_FIN], [Open(1)]);
    var v := LateReader().(core := Shutdown(LateReader().core));
    var s1 := Sys(DoneSent(), v, [SERVER_FIN], [Open(1)]);
    Extend(before, s, Close(Server), s1);
    var c := DoneSent().(core := ApplyFin(DoneSent().core, 1));
    t := Sys(c, v, [Open(1)], [Open(1)]);
    assert SERVER_FIN.inbox[1..] == [] && [SERVER_FIN][0 := Open(1)] == [Open(1)];
    Extend(before + [Close(Server)], s1, Take(Client, 0, 0), t);
    steps := before + [Close(Server)] + [Take(Client, 0, 0)];
  }

  // ---- a loss behind the first close ----

  function Reader(): Endpoint { Fresh(0, 1).(core := Fresh(0, 1).core.(sendBuf := [9]), read := [9]) }
  function ReaderSent(): Endpoint { Finned(Reader()).(core := Finned(Reader()).core.(sendSent := 1)) }
  function ReaderDone(): Endpoint { ReaderSent().(core := ReaderSent().core.(finSent := true)) }

  const DATA: Packet := Packet(Data([9]), 1, false)
  const BEHIND: Packet := Packet(Fin, 1, false)

  /** The service reads a byte, takes the client's fin, and sends the byte and its own fin. */
  lemma DataAndFinSent() returns (steps: seq<Step>)
    ensures Witness(steps, Sys(DoneSent(), ReaderDone(), [Open(1).(inbox := [DATA, BEHIND])], [Open(1)]))
  {
    var before := OpenSession();
    assert [] + [9 as byte] == [9];
    Extend(before, Opened(), LocalRead(Server, [9]), Sys(Fresh(0, 1), Reader(), [Open(1)], [Open(1)]));
    before := ClientFin(before + [LocalRead(Server, [9])], Reader());
    var s := Sys(DoneSent(), Finned(Reader()), [Open(1)], [Open(1)]);
    var one, two := Open(1).(inbox := [DATA]), Open(1).(inbox := [DATA, BEHIND]);
    var s1 := Sys(DoneSent(), ReaderSent(), [one], [Open(1)]);
    assert [9 as byte][0..1] == [9];
    assert WriteOne(Finned(Reader()).core) == Wrote(ReaderSent().core, Data([9]));
    assert [] + [DATA] == one.inbox && [Open(1)][0 := one] == [one];
    Extend(before, s, Write(Server), s1);
    assert WriteOne(ReaderSent().core) == Wrote(ReaderDone().core, Fin);
    assert [DATA] + [BEHIND] == two.inbox && [one][0 := two] == [two];
    Extend(before + [Write(Server)], s1, Write(Server), Sys(DoneSent(), ReaderDone(), [two], [Open(1)]));
    steps := before + [Write(Server)] + [Write(Server)];
  }

  /** The service has closed, and the connection goes with the byte and the fin on their way. */
  ghost predicate Cut(s: System) {
    && Sized(s) && 0 < |s.halves.client| && s.ends.server.core.closed
    && s.ends.client.core.stream.None? && s.ends.client.applying.None?
    && s.halves.client[0].gen.Some?
    && (forall k :: 0 <= k < |s.halves.client| ==> s.halves.client[k].inbox == [])
    && (forall k :: 0 < k < |s.halves.server| ==> s.halves.server[k].told.None?)
  }

  lemma CutStep(s: System, step: Step)
    requires Cut(s) && Enabled(s, step)
    ensures Cut(Next(s, step)) && Next(s, step).ends.client.written == s.ends.client.written
  {
    match step {
      case Write(_) =>
      case _ =>
    }
  }

  lemma {:induction false} CutForGood(s: System, steps: seq<Step>, t: System)
    requires Cut(s) && Run(s, steps, t)
    ensures Cut(t) && t.ends.client.written == s.ends.client.written
    decreases |steps|
  {
    if steps == [] {
    } else {
      CutStep(s, steps[0]);
      CutForGood(Next(s, steps[0]), steps[1..], t);
    }
  }

  /** The byte is lost, although the service had read and sent it before its fin; and whatever happens then, the
      client does not get it any more. */
  lemma LossBehindClose() returns (steps: seq<Step>, t: System)
    ensures Witness(steps, t) && t.ends.server.core.closed && t.ends.server.core.recv == |t.ends.client.read|
    ensures t.ends.server.read == [9] && t.ends.client.written == []
    ensures forall more, u :: Run(t, more, u) ==> u.ends.client.written == []
  {
    var before := DataAndFinSent();
    var both := [Open(1).(inbox := [DATA, BEHIND])];
    var s := Sys(DoneSent(), ReaderDone(), both, [Open(1)]);
    var v := ReaderDone().(core := Shutdown(ReaderDone().core));
    Extend(before, s, Close(Server), Sys(DoneSent(), v, both, [Open(1)]));
    var s2 := Sys(DoneSent(), v, [Gone(1)], [Open(1)]);
    assert both[0].inbox[..0] == [] && both[0 := Gone(1)] == [Gone(1)];
    Extend(before + [Close(Server)], Sys(DoneSent(), v, both, [Open(1)]), Lose(Client, 0, 0), s2);
    t := Sys(Detached2(DoneSent()), v, [Gone(1)], [Open(1)]);
    assert ReadFails(s2, Client, 0);
    Extend(before + [Close(Server)] + [Lose(Client, 0, 0)], s2, DetachStep(Client), t);
    steps := before + [Close(Server)] + [Lose(Client, 0, 0)] + [DetachStep(Client)];
    forall more, u | Run(t, more, u)
      ensures u.ends.client.written == []
    {
      CutForGood(t, more, u);
    }
  }
}
