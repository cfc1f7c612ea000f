/** The H.264 byte-stream scanner and access-unit grouper of internal/camera/annexb.go. */
module AnnexB {
  import opened Basics

  type Unit = seq<byte>

  // ---- trailing zeros ----

  function TrailingZeros(s: seq<byte>): (n: nat)
    ensures n <= |s|
  {
    if s != [] && s[|s| - 1] == 0 then 1 + TrailingZeros(s[..|s| - 1]) else 0
  }

  /** They are all the zeros at the end. */
  lemma {:induction false} TrailingZerosAre(s: seq<byte>)
    ensures forall i :: |s| - TrailingZeros(s) <= i < |s| ==> s[i] == 0
    ensures TrailingZeros(s) < |s| ==> s[|s| - TrailingZeros(s) - 1] != 0
  {
    if s != [] && s[|s| - 1] == 0 {
      TrailingZerosAre(s[..|s| - 1]);
      assert forall i :: 0 <= i < |s| - 1 ==> s[..|s| - 1][i] == s[i];
    }
  }

  method TrimTrailingZeros(nal: seq<byte>) returns (out: seq<byte>)
    ensures out == nal[..|nal| - TrailingZeros(nal)]
  {
    out := nal;
    while |out| > 0 && out[|out| - 1] == 0
      invariant out <= nal && |nal| - TrailingZeros(nal) == |out| - TrailingZeros(out)
    {
      assert out[..|out| - 1] == nal[..|out| - 1];
      out := out[..|out| - 1];
    }
  }

  function Trim(s: seq<byte>): seq<byte> { s[..|s| - TrailingZeros(s)] }

  // ---- the scanner ----

  /** The bytes of the current unit, whether a start code was seen, and what was emitted. */
  datatype Scanner = Scanner(nal: seq<byte>, started: bool, units: seq<Unit>)

  const START := Scanner([], false, [])

  function Feed(s: Scanner, b: byte): Scanner {
    if b == 1 && TrailingZeros(s.nal) >= 2
    then Scanner([], true, if s.started then s.units + [Trim(s.nal)] else s.units)
    else s.(nal := s.nal + [b])
  }

  function FeedAll(s: Scanner, input: seq<byte>): Scanner {
    if input == [] then s else Feed(FeedAll(s, input[..|input| - 1]), input[|input| - 1])
  }

  lemma CountByte(nal: seq<byte>, b: byte)
    ensures TrailingZeros(nal + [b]) == if b == 0 then TrailingZeros(nal) + 1 else 0
  {
    assert (nal + [b])[..|nal|] == nal;
  }

  /** Once the counted zeros are cut off there is nothing left to trim. */
  lemma TrimIsNoOp(nal: seq<byte>)
    ensures TrailingZeros(Trim(nal)) == 0
  {
    TrailingZerosAre(nal);
  }

  method ScanAnnexBNals(input: seq<byte>) returns (units: seq<Unit>)
    ensures units == FeedAll(START, input).units
  {
    var nal: seq<byte> := [];
    var zeros: nat := 0;
    var started := false;
    units := [];
    for i := 0 to |input|
      invariant Scanner(nal, started, units) == FeedAll(START, input[..i])
      invariant zeros == TrailingZeros(nal)
    {
      var b := input[i];
      assert input[..i + 1][..i] == input[..i];
      assert FeedAll(START, input[..i + 1]) == Feed(Scanner(nal, started, units), b);
      CountByte(nal, b);
      if b == 0 {
        zeros := zeros + 1;
        nal := nal + [b];
        continue;
      }
      if b == 1 && zeros >= 2 {
        TrimIsNoOp(nal);
        var prev := TrimTrailingZeros(nal[..|nal| - zeros]);
        assert prev == Trim(nal);
        if started {
          units := units + [prev];
        }
        nal, zeros, started := [], 0, true;
        continue;
      }
      zeros := 0;
      nal := nal + [b];
    }
    assert input[..|input|] == input;
  }

  // ---- encoding ----

  /** No start code inside, not empty, and no zero byte at the end (sections B.1 and 7.4.1 of ITU-T H.264). */
  ghost predicate IsUnit(u: Unit) {
    u != [] && u[|u| - 1] != 0 && NoStartCode(u)
  }

  ghost predicate NoStartCode(u: seq<byte>) {
    forall i, j, k :: 0 <= i && j == i + 1 && k == i + 2 && k < |u| ==> !(u[i] == 0 && u[j] == 0 && u[k] == 1)
  }

  function Zeros(n: nat): seq<byte> {
    if n == 0 then [] else Zeros(n - 1) + [0]
  }

  /** A unit with the number of zeros in the start code before it. */
  datatype Coded = Coded(zeros: nat, unit: Unit)

  function Encode(cs: seq<Coded>): seq<byte> {
    if cs == [] then []
    else Encode(cs[..|cs| - 1]) + (Zeros(cs[|cs| - 1].zeros) + [1] + cs[|cs| - 1].unit)
  }

  function UnitsOf(cs: seq<Coded>): seq<Unit> {
    if cs == [] then [] else UnitsOf(cs[..|cs| - 1]) + [cs[|cs| - 1].unit]
  }

  lemma {:induction false} FeedConcat(s: Scanner, a: seq<byte>, b: seq<byte>)
    ensures FeedAll(s, a + b) == FeedAll(FeedAll(s, a), b)
    decreases |b|
  {
    if b == [] {
      assert a + b == a;
    } else {
      assert (a + b)[..|a + b| - 1] == a + b[..|b| - 1];
      FeedConcat(s, a, b[..|b| - 1]);
    }
  }

  lemma FeedSnoc(s: Scanner, v: seq<byte>, b: byte)
    ensures FeedAll(s, v + [b]) == Feed(FeedAll(s, v), b)
  {
    assert (v + [b])[..|v + [b]| - 1] == v;
  }

  function WithZeros(nal: seq<byte>, n: nat): seq<byte> {
    if n == 0 then nal else WithZeros(nal, n - 1) + [0]
  }

  lemma {:induction false} WithZerosIs(nal: seq<byte>, n: nat)
    ensures WithZeros(nal, n) == nal + Zeros(n)
  {
    if n == 0 {
      assert nal + [] == nal;
    } else {
      WithZerosIs(nal, n - 1);
      assert (nal + Zeros(n - 1)) + [0] == nal + (Zeros(n - 1) + [0]);
    }
  }

  lemma CountZero(a: seq<byte>, b: seq<byte>)
    requires b == a + [0]
    ensures TrailingZeros(b) == TrailingZeros(a) + 1
  {
    assert b[..|b| - 1] == a;
  }

  lemma {:induction false} CountZeros(nal: seq<byte>, n: nat) returns (w: seq<byte>)
    ensures w == WithZeros(nal, n) && TrailingZeros(w) == TrailingZeros(nal) + n
  {
    if n == 0 {
      w := nal;
    } else {
      var shorter := CountZeros(nal, n - 1);
      w := shorter + [0];
      CountZero(shorter, w);
    }
  }

  lemma CountWithZeros(nal: seq<byte>, n: nat)
    ensures TrailingZeros(WithZeros(nal, n)) == TrailingZeros(nal) + n
  {
    var w := CountZeros(nal, n);
  }

  lemma {:induction false} FeedZeros(s: Scanner, n: nat)
    ensures FeedAll(s, Zeros(n)) == s.(nal := WithZeros(s.nal, n))
  {
    if n == 0 {
    } else {
      FeedZeros(s, n - 1);
      FeedSnoc(s, Zeros(n - 1), 0);
    }
  }

  lemma OneAfterZeros(v: seq<byte>, u: seq<byte>)
    requires v <= u && |v| < |u| && u[|v|] == 1 && NoStartCode(u)
    ensures TrailingZeros(v) < 2
  {
    TrailingZerosAre(v);
    if |v| >= 2 { assert u[|v| - 2] == v[|v| - 2] && u[|v| - 1] == v[|v| - 1]; }
  }

  /** Reading the start of a unit, right after a start code, keeps all of it and emits nothing. */
  lemma {:induction false} FeedUnit(s: Scanner, u: Unit, n: nat)
    requires s.nal == [] && n <= |u| && NoStartCode(u)
    ensures FeedAll(s, u[..n]) == s.(nal := u[..n])
  {
    if n == 0 {
    } else {
      var v, b := u[..n - 1], u[n - 1];
      assert u[..n] == v + [b];
      FeedUnit(s, u, n - 1);
      FeedSnoc(s, v, b);
      if b == 1 { OneAfterZeros(v, u); }
    }
  }

  lemma TrimWithZeros(nal: seq<byte>, n: nat)
    requires TrailingZeros(nal) == 0
    ensures Trim(WithZeros(nal, n)) == nal
  {
    WithZerosIs(nal, n);
    CountWithZeros(nal, n);
    ZerosLength(n);
    assert (nal + Zeros(n))[..|nal|] == nal;
  }

  /** A start code after a unit emits the unit. */
  lemma FeedStartCode(s: Scanner, zeros: nat)
    requires TrailingZeros(s.nal) == 0 && zeros >= 2
    ensures FeedAll(s, Zeros(zeros) + [1]) == Scanner([], true, if s.started then s.units + [s.nal] else s.units)
  {
    FeedZeros(s, zeros);
    FeedSnoc(s, Zeros(zeros), 1);
    FeedOne(s.(nal := WithZeros(s.nal, zeros)), s.nal, zeros);
  }

  lemma FeedOne(s: Scanner, nal: seq<byte>, zeros: nat)
    requires s.nal == WithZeros(nal, zeros) && TrailingZeros(nal) == 0 && zeros >= 2
    ensures Feed(s, 1) == Scanner([], true, if s.started then s.units + [nal] else s.units)
  {
    CountWithZeros(nal, zeros);
    TrimWithZeros(nal, zeros);
  }

  lemma {:induction false} ZerosLength(n: nat)
    ensures |Zeros(n)| == n
  {
    if n == 0 {
    } else {
      ZerosLength(n - 1);
    }
  }

  lemma FeedCoded(s: Scanner, c: Coded)
    requires TrailingZeros(s.nal) == 0 && c.zeros >= 2 && IsUnit(c.unit)
    ensures FeedAll(s, Zeros(c.zeros) + [1] + c.unit)
            == Scanner(c.unit, true, if s.started then s.units + [s.nal] else s.units)
  {
    FeedConcat(s, Zeros(c.zeros) + [1], c.unit);
    FeedStartCode(s, c.zeros);
    FeedUnit(FeedAll(s, Zeros(c.zeros) + [1]), c.unit, |c.unit|);
    assert c.unit[..|c.unit|] == c.unit;
  }

  /** After an encoding the scanner has emitted every unit but the last, which is still in its buffer. */
  lemma {:induction false} ScanState(cs: seq<Coded>)
    requires cs != [] && forall c :: c in cs ==> c.zeros >= 2 && IsUnit(c.unit)
    ensures FeedAll(START, Encode(cs)) == Scanner(cs[|cs| - 1].unit, true, UnitsOf(cs[..|cs| - 1]))
    decreases |cs|
  {
    var init, last := cs[..|cs| - 1], cs[|cs| - 1];
    FeedConcat(START, Encode(init), Zeros(last.zeros) + [1] + last.unit);
    if init == [] {
      FeedCoded(START, last);
    } else {
      ScanState(init);
      FeedCoded(FeedAll(START, Encode(init)), last);
    }
  }

  /** Scanning inverts encoding, for start codes of any length: all units in order, except the last, which no start
      code ends. */
  lemma ScanInvertsEncode(cs: seq<Coded>)
    requires cs != [] && forall c :: c in cs ==> c.zeros >= 2 && IsUnit(c.unit)
    ensures FeedAll(START, Encode(cs)).units == UnitsOf(cs[..|cs| - 1])
  {
    ScanState(cs);
  }

  lemma PrefixIsClean(nal: seq<byte>)
    requires NoStartCode(nal)
    ensures NoStartCode(Trim(nal)) && TrailingZeros(Trim(nal)) == 0
  {
    TrimIsNoOp(nal);
    assert forall i :: 0 <= i < |Trim(nal)| ==> Trim(nal)[i] == nal[i];
  }

  lemma AppendIsClean(nal: seq<byte>, b: byte)
    requires NoStartCode(nal) && !(b == 1 && TrailingZeros(nal) >= 2)
    ensures NoStartCode(nal + [b])
  {
    var w := nal + [b];
    var n := |nal|;
    TrailingZerosAre(nal);
    forall i, j, k | 0 <= i && j == i + 1 && k == i + 2 && k < |w|
      ensures !(w[i] == 0 && w[j] == 0 && w[k] == 1)
    {
      if k < n {
        assert w[i] == nal[i] && w[j] == nal[j] && w[k] == nal[k];
      } else if b == 1 {
        assert w[j] == nal[n - 1] && w[i] == nal[n - 2];
        assert nal[n - 1 - TrailingZeros(nal)] != 0;
      }
    }
  }

  lemma FeedKeepsClean(s: Scanner, b: byte)
    requires NoStartCode(s.nal)
    ensures NoStartCode(Feed(s, b).nal)
    ensures forall u :: u in Feed(s, b).units ==> u in s.units || (NoStartCode(u) && TrailingZeros(u) == 0)
  {
    PrefixIsClean(s.nal);
    if !(b == 1 && TrailingZeros(s.nal) >= 2) { AppendIsClean(s.nal, b); }
  }

  /** On any input at all, what is emitted holds no start code and does not end in a zero. */
  lemma {:induction false} EmittedAreClean(input: seq<byte>)
    ensures NoStartCode(FeedAll(START, input).nal)
    ensures forall u :: u in FeedAll(START, input).units ==> NoStartCode(u) && TrailingZeros(u) == 0
    decreases |input|
  {
    if input == [] {
    } else {
      EmittedAreClean(input[..|input| - 1]);
      FeedKeepsClean(FeedAll(START, input[..|input| - 1]), input[|input| - 1]);
    }
  }

  // ---- access units ----

  /** The low five bits of the first byte. */
  function NalType(u: Unit): bv8 { if u == [] then 0 else u[0] as bv8 & 0x1f }

  predicate IsVcl(u: Unit) { 1 <= NalType(u) <= 5 }

  /** The other three bits, the forbidden bit and the reference count, do not matter. */
  lemma TopBitsDoNotMatter(top: bv8, low: bv8, rest: seq<byte>)
    requires low < 32
    ensures NalType([((top << 5) | low) as byte] + rest) == low
    ensures IsVcl([((top << 5) | low) as byte] + rest) <==> low == 1 || low == 2 || low == 3 || low == 4 || low == 5
  {
    var b := (top << 5) | low;
    assert (b & 0x1f) == low;
    assert (b as byte) as bv8 == b;
  }

  /** The usual stream: a delimiter and two parameter sets are no coded slices; an IDR slice and others are. */
  lemma UsualUnits(rest: seq<byte>)
    ensures !IsVcl([0x09] + rest) && !IsVcl([0x67] + rest) && !IsVcl([0x68] + rest) && !IsVcl([0x06] + rest)
    ensures IsVcl([0x65] + rest) && IsVcl([0x41] + rest) && IsVcl([0x61] + rest) && IsVcl([0x01] + rest)
  {
  }

  ghost predicate NoVcl(us: seq<Unit>) { forall u :: u in us ==> !IsVcl(u) }

  /** The last unit, and only it, is a coded slice. */
  ghost predicate IsAccessUnit(au: seq<Unit>) {
    exists before, last :: au == before + [last] && IsVcl(last) && NoVcl(before)
  }

  function Flatten(aus: seq<seq<Unit>>): seq<Unit> {
    if aus == [] then [] else Flatten(aus[..|aus| - 1]) + aus[|aus| - 1]
  }

  function NonEmpty(us: seq<Unit>): seq<Unit> {
    if us == [] then []
    else NonEmpty(us[..|us| - 1]) + if us[|us| - 1] == [] then [] else [us[|us| - 1]]
  }

  /** `aus` and `pending` cut the non-empty units after every coded slice. */
  ghost predicate Grouped(us: seq<Unit>, aus: seq<seq<Unit>>, pending: seq<Unit>) {
    && Flatten(aus) + pending == NonEmpty(us)
    && (forall au :: au in aus ==> IsAccessUnit(au))
    && NoVcl(pending)
  }

  /** All units but the empty ones, each as often as it came. */
  lemma {:induction false} NonEmptyHolds(us: seq<Unit>)
    ensures multiset(NonEmpty(us)) == multiset(us)[[] := 0]
    ensures forall u :: u in NonEmpty(us) <==> u in us && u != []
    decreases |us|
  {
    if us == [] {
    } else {
      var init, last := us[..|us| - 1], us[|us| - 1];
      assert us == init + [last];
      NonEmptyHolds(init);
    }
  }

  lemma {:induction false} FlattenHolds(aus: seq<seq<Unit>>, au: seq<Unit>, u: Unit)
    requires au in aus && u in au
    ensures u in Flatten(aus)
    decreases |aus|
  {
    var init, last := aus[..|aus| - 1], aus[|aus| - 1];
    assert aus == init + [last];
    if au in init { FlattenHolds(init, au, u); }
  }

  /** The bits of one access unit. */
  lemma UnitBits(us: seq<Unit>, aus: seq<seq<Unit>>, pending: seq<Unit>, au: seq<Unit>)
    requires Grouped(us, aus, pending) && au in aus
    ensures au != []
    ensures forall i :: 0 <= i < |au| ==> au[i] != [] && (1 <= au[i][0] as bv8 & 0x1f <= 5 <==> i == |au| - 1)
  {
    NonEmptyHolds(us);
    var before, last :| au == before + [last] && IsVcl(last) && NoVcl(before);
    forall i | 0 <= i < |au|
      ensures au[i] != [] && (IsVcl(au[i]) <==> i == |au| - 1)
    {
      FlattenHolds(aus, au, au[i]);
      assert au[i] in Flatten(aus) + pending;
      if i < |before| { assert au[i] in before; }
    }
  }

  lemma GroupedBits(us: seq<Unit>, aus: seq<seq<Unit>>, pending: seq<Unit>)
    requires Grouped(us, aus, pending)
    ensures forall au :: au in aus ==> au != []
    ensures forall au, i :: au in aus && 0 <= i < |au| ==>
              au[i] != [] && (1 <= au[i][0] as bv8 & 0x1f <= 5 <==> i == |au| - 1)
    ensures forall u :: u in pending ==> u != [] && !(1 <= u[0] as bv8 & 0x1f <= 5)
  {
    NonEmptyHolds(us);
    forall au | au in aus
      ensures au != []
      ensures forall i :: 0 <= i < |au| ==> au[i] != [] && (1 <= au[i][0] as bv8 & 0x1f <= 5 <==> i == |au| - 1)
    {
      UnitBits(us, aus, pending, au);
    }
    forall u | u in pending
      ensures u != [] && !IsVcl(u)
    {
      assert u in Flatten(aus) + pending;
    }
  }

  lemma NonEmptySnoc(us: seq<Unit>, u: Unit)
    ensures NonEmpty(us + [u]) == NonEmpty(us) + if u == [] then [] else [u]
  {
    assert (us + [u])[..|us|] == us;
  }

  /** What the callback does with one unit. */
  lemma GroupStep(us: seq<Unit>, aus: seq<seq<Unit>>, pending: seq<Unit>, u: Unit)
    requires Grouped(us, aus, pending)
    ensures u == [] ==> Grouped(us + [u], aus, pending)
    ensures u != [] && IsVcl(u) ==> Grouped(us + [u], aus + [pending + [u]], [])
    ensures u != [] && !IsVcl(u) ==> Grouped(us + [u], aus, pending + [u])
  {
    NonEmptySnoc(us, u);
    var before := NonEmpty(us);
    assert before + [] == before;
    assert Flatten(aus) + (pending + [u]) == before + [u];
    var aus' := aus + [pending + [u]];
    assert aus'[..|aus|] == aus && aus'[|aus|] == pending + [u];
    assert Flatten(aus') == Flatten(aus) + (pending + [u]);
    assert Flatten(aus') + [] == Flatten(aus');
  }

  /**
   * `taken` is the number of access units the consumer takes before it fails; the one it fails on has been given to it.
   * `m` units have been grouped, all of them unless the consumer failed.
   */
  method ReadAnnexBUnits(input: seq<byte>, taken: nat)
      returns (aus: seq<seq<Unit>>, pending: seq<Unit>, failed: bool, ghost m: nat)
    ensures m <= |FeedAll(START, input).units| && Grouped(FeedAll(START, input).units[..m], aus, pending)
    ensures forall au :: au in aus ==> au != []
    ensures forall au, i :: au in aus && 0 <= i < |au| ==>
              au[i] != [] && (1 <= au[i][0] as bv8 & 0x1f <= 5 <==> i == |au| - 1)
    ensures forall u :: u in pending ==> u != [] && !(1 <= u[0] as bv8 & 0x1f <= 5)
    ensures failed ==> |aus| == taken + 1 && pending == []
    ensures !failed ==> |aus| <= taken && m == |FeedAll(START, input).units|
  {
    var units := ScanAnnexBNals(input);
    aus, pending, failed, m := [], [], false, 0;
    for i := 0 to |units|
      invariant Grouped(units[..i], aus, pending) && |aus| <= taken
      invariant !failed
    {
      GroupStep(units[..i], aus, pending, units[i]);
      assert units[..i + 1] == units[..i] + [units[i]];
      if |units[i]| == 0 {
        continue;
      }
      pending := pending + [units[i]];
      if IsVcl(units[i]) {
        var au := pending;
        aus, pending := aus + [au], [];
        if |aus| > taken {
          failed, m := true, i + 1;
          GroupedBits(units[..m], aus, pending);
          return;
        }
      }
    }
    m := |units|;
    assert units[..|units|] == units;
    GroupedBits(units, aus, pending);
  }
}
