/** The bytes of tunnel frames: what `writeLoop` puts on a stream and how `readLoop` takes it apart. */
module FrameCodec {
  import opened Basics
  import opened TunnelCore

  const DATA: byte := 68
  const ACK: byte := 65
  const FIN: byte := 88
  const NEWLINE: byte := 10

  // ---- big-endian numbers ----

  function Power256(w: nat): nat { if w == 0 then 1 else 256 * Power256(w - 1) }

  function BigEndian(n: nat, w: nat): (r: seq<byte>)
    ensures |r| == w
  {
    if w == 0 then [] else BigEndian(n / 256, w - 1) + [(n % 256) as byte]
  }

  function Number(b: seq<byte>): nat {
    if b == [] then 0 else Number(b[..|b| - 1]) * 256 + b[|b| - 1] as nat
  }

  lemma {:induction false} NumberOfBigEndian(n: nat, w: nat)
    requires n < Power256(w)
    ensures Number(BigEndian(n, w)) == n
  {
    if w == 0 {
    } else {
      NumberOfBigEndian(n / 256, w - 1);
      var b := BigEndian(n, w);
      assert b[..|b| - 1] == BigEndian(n / 256, w - 1);
    }
  }

  lemma Widths()
    ensures Power256(4) == 0x1_0000_0000 && Power256(8) == 0x1_0000_0000_0000_0000
  {
    assert Power256(2) == 65536;
    assert Power256(4) == 256 * (256 * Power256(2));
    assert Power256(6) == 256 * (256 * Power256(4));
    assert Power256(8) == 256 * (256 * Power256(6));
  }

  // ---- frames ----

  /** What a writer produces: payloads of at most FRAME_MAX bytes and 64-bit offsets. */
  predicate Writable(f: Frame) {
    (f.Data? ==> |f.payload| <= FRAME_MAX) && (f.Ack? ==> f.offset < 0x1_0000_0000_0000_0000)
  }

  function Encode(f: Frame): seq<byte> {
    match f
    case Data(p) => [DATA] + BigEndian(|p|, 4) + p
    case Ack(off) => [ACK] + BigEndian(off, 8)
    case Fin => [FIN]
  }

  /** Four bytes, the most significant first. */
  function Four(b0: byte, b1: byte, b2: byte, b3: byte): nat {
    b0 as nat * 0x100_0000 + b1 as nat * 0x1_0000 + b2 as nat * 0x100 + b3 as nat
  }

  /** What each frame looks like on the wire: the letter `D`, `A` or `X`, four bytes of length before a payload, and
      eight bytes of offset. */
  lemma OnTheWire(f: Frame)
    requires Writable(f)
    ensures var w := Encode(f);
            && (f.Data? ==> |w| == 5 + |f.payload| && w[0] as int == 'D' as int && w[5..] == f.payload
                            && |f.payload| == Four(w[1], w[2], w[3], w[4]))
            && (f.Ack? ==> |w| == 9 && w[0] as int == 'A' as int
                           && f.offset == Four(w[1], w[2], w[3], w[4]) * 0x1_0000_0000 + Four(w[5], w[6], w[7], w[8]))
            && (f.Fin? ==> |w| == 1 && w[0] as int == 'X' as int)
  {
    var w := Encode(f);
    Widths();
    if f.Data? {
      NumberOfBigEndian(|f.payload|, 4);
      NumberOfFour(w[1..5]);
      assert w[1..5] == BigEndian(|f.payload|, 4);
    } else if f.Ack? {
      NumberOfBigEndian(f.offset, 8);
      NumberOfEight(w[1..9]);
      assert w[1..9] == BigEndian(f.offset, 8);
    }
  }

  lemma NumberOfFour(b: seq<byte>)
    requires |b| == 4
    ensures Number(b) == Four(b[0], b[1], b[2], b[3])
  {
    assert b[..3][..2] == b[..2] && b[..2][..1] == b[..1] && b[..1][..0] == [];
    assert Number(b[..1]) == b[0] as nat;
    assert Number(b[..2]) == Number(b[..1]) * 256 + b[1] as nat;
    assert Number(b[..3]) == Number(b[..2]) * 256 + b[2] as nat;
  }

  lemma NumberOfEight(b: seq<byte>)
    requires |b| == 8
    ensures Number(b) == Four(b[0], b[1], b[2], b[3]) * 0x1_0000_0000 + Four(b[4], b[5], b[6], b[7])
  {
    NumberOfFour(b[..4]);
    assert b[..5][..4] == b[..4] && b[..6][..5] == b[..5] && b[..7][..6] == b[..6];
    assert Number(b[..5]) == Number(b[..4]) * 256 + b[4] as nat;
    assert Number(b[..6]) == Number(b[..5]) * 256 + b[5] as nat;
    assert Number(b[..7]) == Number(b[..6]) * 256 + b[6] as nat;
  }

  function EncodeAll(fs: seq<Frame>): seq<byte> {
    if fs == [] then [] else Encode(fs[0]) + EncodeAll(fs[1..])
  }

  /** Why a read loop stops. */
  datatype Stop = ReadFailed | LengthFailed | Oversized | DataFailed | AckFailed | UnknownType

  datatype Read = Got(frame: Frame, rest: seq<byte>) | Stopped(why: Stop)

  /** One turn of `readLoop` on what the stream will ever deliver. */
  function ReadFrame(b: seq<byte>): (r: Read)
    ensures r.Got? ==> |r.rest| < |b|
  {
    if b == [] then Stopped(ReadFailed)
    else if b[0] == DATA then
      if |b| < 5 then Stopped(LengthFailed)
      else
        var n := Number(b[1..5]);
        if n > FRAME_MAX then Stopped(Oversized)
        else if |b| < 5 + n then Stopped(DataFailed)
        else Got(Data(b[5..5 + n]), b[5 + n..])
    else if b[0] == ACK then
      if |b| < 9 then Stopped(AckFailed) else Got(Ack(Number(b[1..9])), b[9..])
    else if b[0] == FIN then Got(Fin, b[1..])
    else Stopped(UnknownType)
  }

  function ReadAll(b: seq<byte>): (seq<Frame>, Stop)
    decreases |b|
  {
    match ReadFrame(b)
    case Stopped(why) => ([], why)
    case Got(f, rest) => var (fs, why) := ReadAll(rest); ([f] + fs, why)
  }

  /** What ends the loop: a tag that is none of the three letters, a length above 32768, or too few bytes. */
  lemma StopsWhen(b: seq<byte>)
    ensures ReadFrame(b) == Stopped(UnknownType) <==>
              b != [] && b[0] as int != 'D' as int && b[0] as int != 'A' as int && b[0] as int != 'X' as int
    ensures ReadFrame(b) == Stopped(Oversized) <==>
              |b| >= 5 && b[0] as int == 'D' as int && Four(b[1], b[2], b[3], b[4]) > 32768
    ensures ReadFrame(b) == Stopped(ReadFailed) <==> b == []
  {
    if |b| >= 5 { NumberOfFour(b[1..5]); }
  }

  lemma ReadEncoded(f: Frame, rest: seq<byte>)
    requires Writable(f)
    ensures ReadFrame(Encode(f) + rest) == Got(f, rest)
  {
    var b := Encode(f) + rest;
    Widths();
    match f {
      case Data(p) =>
        NumberOfBigEndian(|p|, 4);
        assert b[1..5] == BigEndian(|p|, 4);
        assert b[5..5 + |p|] == p && b[5 + |p|..] == rest;
      case Ack(off) =>
        NumberOfBigEndian(off, 8);
        assert b[1..9] == BigEndian(off, 8);
        assert b[9..] == rest;
      case Fin =>
        assert b[1..] == rest;
    }
  }

  /** A frame cut short is never taken for another one. */
  lemma ReadCutShort(f: Frame, n: nat)
    requires Writable(f) && n < |Encode(f)|
    ensures ReadFrame(Encode(f)[..n]).Stopped?
  {
    var b := Encode(f)[..n];
    Widths();
    if f.Data? && n >= 5 {
      NumberOfBigEndian(|f.payload|, 4);
      assert b[1..5] == BigEndian(|f.payload|, 4);
    }
  }

  /** `got` are the frames of `fs` that lie wholly within the first `n` bytes. */
  predicate Whole(fs: seq<Frame>, n: nat, got: seq<Frame>) {
    && got <= fs
    && |EncodeAll(got)| <= n
    && (|got| < |fs| ==> n < |EncodeAll(got)| + |Encode(fs[|got|])|)
  }

  lemma WholeCons(fs: seq<Frame>, n: nat, got: seq<Frame>)
    requires fs != [] && |Encode(fs[0])| <= n && Whole(fs[1..], n - |Encode(fs[0])|, got)
    ensures Whole(fs, n, [fs[0]] + got)
  {
    assert ([fs[0]] + got)[1..] == got;
    assert [fs[0]] + got <= [fs[0]] + fs[1..] == fs;
  }

  /** Within the first frame there is nothing whole. */
  lemma WholeNone(fs: seq<Frame>, n: nat)
    requires fs != [] && Writable(fs[0]) && n < |Encode(fs[0])|
    ensures n <= |EncodeAll(fs)| && Whole(fs, n, ReadAll(EncodeAll(fs)[..n]).0)
  {
    assert EncodeAll(fs)[..n] == Encode(fs[0])[..n];
    ReadCutShort(fs[0], n);
  }

  /** The loop reads the first frame, and goes on with what is left. */
  lemma ReadAllCons(f: Frame, rest: seq<byte>)
    requires Writable(f)
    ensures ReadAll(Encode(f) + rest).0 == [f] + ReadAll(rest).0
  {
    ReadEncoded(f, rest);
  }

  lemma CutBehindFirst(fs: seq<Frame>, n: nat)
    requires fs != [] && |Encode(fs[0])| <= n <= |EncodeAll(fs)|
    ensures n - |Encode(fs[0])| <= |EncodeAll(fs[1..])|
    ensures EncodeAll(fs)[..n] == Encode(fs[0]) + EncodeAll(fs[1..])[..n - |Encode(fs[0])|]
  {
  }

  /** The reader recovers the frames written, and exactly those that arrived whole when the stream is cut at any
      byte. */
  lemma {:induction false} ReadAllOfPrefix(fs: seq<Frame>, n: nat)
    requires forall f :: f in fs ==> Writable(f)
    requires n <= |EncodeAll(fs)|
    ensures Whole(fs, n, ReadAll(EncodeAll(fs)[..n]).0)
  {
    if fs == [] {
    } else if n < |Encode(fs[0])| {
      WholeNone(fs, n);
    } else {
      var m := n - |Encode(fs[0])|;
      CutBehindFirst(fs, n);
      ReadAllOfPrefix(fs[1..], m);
      ReadAllCons(fs[0], EncodeAll(fs[1..])[..m]);
      WholeCons(fs, n, ReadAll(EncodeAll(fs[1..])[..m]).0);
    }
  }

  lemma {:induction false} ReadAllOfAll(fs: seq<Frame>)
    requires forall f :: f in fs ==> Writable(f)
    ensures ReadAll(EncodeAll(fs)) == (fs, ReadFailed)
  {
    if fs == [] {
    } else {
      ReadEncoded(fs[0], EncodeAll(fs[1..]));
      ReadAllOfAll(fs[1..]);
      assert EncodeAll(fs) == Encode(fs[0]) + EncodeAll(fs[1..]) && [fs[0]] + fs[1..] == fs;
    }
  }

  lemma {:induction false} EncodeAllConcat(a: seq<Frame>, b: seq<Frame>)
    ensures EncodeAll(a + b) == EncodeAll(a) + EncodeAll(b)
  {
    if a == [] {
      assert a + b == b;
    } else {
      assert (a + b)[1..] == a[1..] + b;
      EncodeAllConcat(a[1..], b);
      assert EncodeAll(a + b) == Encode(a[0]) + EncodeAll(a[1..] + b);
      assert Encode(a[0]) + (EncodeAll(a[1..]) + EncodeAll(b)) == EncodeAll(a) + EncodeAll(b);
    }
  }

  // ---- the end of the handshake ----

  /** `framedReader` drops the newline that `json.Encoder` puts after the handshake. */
  function AfterHandshake(b: seq<byte>): seq<byte> {
    if b != [] && b[0] == NEWLINE then b[1..] else b
  }

  /** With or without the newline the loop sees the same frames; left in place it would end the session at once. */
  lemma HandshakeNewline(fs: seq<Frame>, n: nat)
    requires forall f :: f in fs ==> Writable(f)
    requires n <= |EncodeAll(fs)|
    ensures AfterHandshake([NEWLINE] + EncodeAll(fs)[..n]) == EncodeAll(fs)[..n]
    ensures AfterHandshake(EncodeAll(fs)[..n]) == EncodeAll(fs)[..n]
    ensures ReadAll([NEWLINE] + EncodeAll(fs)[..n]) == ([], UnknownType)
  {
    assert ([NEWLINE] + EncodeAll(fs)[..n])[1..] == EncodeAll(fs)[..n];
  }
}
