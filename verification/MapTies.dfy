/** What two writes of one key at one time do: the store takes a tie, so neither flooding nor agreement survives it. */
module MapTies {
  import opened MapReplica
  import opened MapFlood
  import opened MapConverge
  import opened MapAcyclic

  /** Every node is a subscriber of every other. */
  const TRIANGLE: seq<set<nat>> := [{1, 2}, {0, 2}, {0, 1}]

  const X := At("x", 10)
  const Y := At("y", 10)

  function Holds(u: Update): Replica { map["k" := u.entry] }

  function Third(v: nat, w: nat): nat
    requires v < 3 && w < 3 && v != w
    ensures Third(v, w) < 3 && Third(v, w) != v && Third(v, w) != w
  {
    3 - v - w
  }

  lemma ThirdOnly(v: nat, w: nat)
    requires v < 3 && w < 3 && v != w
    ensures TRIANGLE[w] - {v} == {Third(v, w)}
  {
  }

  /** A push of one version to a node that holds the other of the same time: it is taken, and sent on. */
  lemma Chases(rs: seq<Replica>, rest: multiset<Push>, v: nat, w: nat, u: Update, other: Update)
    requires |rs| == 3 && v < 3 && w < 3 && v != w && rs[w] == Holds(other)
    requires (u == X && other == Y) || (u == Y && other == X)
    ensures var net := Net(rs, rest + multiset{Push(v, w, u)});
            Deliver(net, TRIANGLE, Push(v, w, u))
            == Net(rs[w := Holds(u)], rest + multiset{Push(w, Third(v, w), u)})
  {
    var net := Net(rs, rest + multiset{Push(v, w, u)});
    ThirdOnly(v, w);
    RelayToOne(w, Third(v, w), u);
    assert Merge(rs[w], u) == Holds(u) by { assert (map["k" := other.entry])["k" := u.entry] == map["k" := u.entry]; }
    assert Changes(rs[w], u);
    assert net.pushes - multiset{Push(v, w, u)} == rest;
  }

  /** Three replicas, and two pushes on their way besides `rest`. */
  function Tri(a: Update, b: Update, c: Update, rest: multiset<Push>, p: Push, q: Push): Net {
    Net([Holds(a), Holds(b), Holds(c)], rest + multiset{p, q})
  }

  lemma Swapped(rest: multiset<Push>, p: Push, q: Push)
    ensures rest + multiset{p, q} == (rest + multiset{p}) + multiset{q}
    ensures rest + multiset{p, q} == (rest + multiset{q}) + multiset{p}
  {
  }

  /** One delivery: of the two pushes, the first is replaced by the push that it becomes. */
  lemma Turn(a: Update, b: Update, c: Update, rest: multiset<Push>, p: Push, q: Push, a': Update, b': Update,
             c': Update, p': Push)
    requires p.from < 3 && p.to < 3 && p.from != p.to
    requires p' == Push(p.to, Third(p.from, p.to), p.update)
    requires p.update == X || p.update == Y
    requires [a, b, c][p.to] == if p.update == X then Y else X
    requires [a', b', c'] == [a, b, c][p.to := p.update]
    ensures Delivers(Tri(a, b, c, rest, p, q), p, Tri(a', b', c', rest, q, p'))
  {
    var rs := [Holds(a), Holds(b), Holds(c)];
    Swapped(rest, p, q);
    Swapped(rest, q, p');
    Chases(rs, rest + multiset{q}, p.from, p.to, p.update, if p.update == X then Y else X);
    assert [a', b', c'][0] == a' && [a', b', c'][1] == b' && [a', b', c'][2] == c';
    assert rs[p.to := Holds(p.update)] == [Holds(a'), Holds(b'), Holds(c')];
  }

  ghost predicate Delivers(s: Net, p: Push, t: Net) {
    |s.replicas| == 3 && p in s.pushes && p.to < 3 && Deliver(s, TRIANGLE, p) == t
  }

  lemma ThreeDeliveries(s0: Net, p0: Push, s1: Net, p1: Push, s2: Net, p2: Push, s3: Net)
    requires Delivers(s0, p0, s1) && Delivers(s1, p1, s2) && Delivers(s2, p2, s3)
    ensures Flood(s0, TRIANGLE, [p0, p1, p2], s3)
  {
    var ps := [p0, p1, p2];
    assert ps[1..] == [p1, p2] && ps[1..][1..] == [p2] && ps[1..][1..][1..] == [];
    assert Flood(s3, TRIANGLE, [], s3);
    assert Flood(s2, TRIANGLE, [p2], s3);
    assert Flood(s1, TRIANGLE, [p1, p2], s3);
  }

  function Start(rest: multiset<Push>): Net { Tri(X, Y, Y, rest, Push(0, 1, X), Push(2, 0, Y)) }
  function Halfway(rest: multiset<Push>): Net { Tri(Y, X, X, rest, Push(0, 1, Y), Push(2, 0, X)) }

  const FIRST: seq<Push> := [Push(0, 1, X), Push(2, 0, Y), Push(1, 2, X)]
  const SECOND: seq<Push> := [Push(0, 1, Y), Push(2, 0, X), Push(1, 2, Y)]

  lemma FirstHalf(rest: multiset<Push>)
    ensures Flood(Start(rest), TRIANGLE, FIRST, Halfway(rest))
  {
    Turn(X, Y, Y, rest, Push(0, 1, X), Push(2, 0, Y), X, X, Y, Push(1, 2, X));
    Turn(X, X, Y, rest, Push(2, 0, Y), Push(1, 2, X), Y, X, Y, Push(0, 1, Y));
    Turn(Y, X, Y, rest, Push(1, 2, X), Push(0, 1, Y), Y, X, X, Push(2, 0, X));
    ThreeDeliveries(Start(rest), Push(0, 1, X), Tri(X, X, Y, rest, Push(2, 0, Y), Push(1, 2, X)), Push(2, 0, Y),
                    Tri(Y, X, Y, rest, Push(1, 2, X), Push(0, 1, Y)), Push(1, 2, X), Halfway(rest));
  }

  lemma SecondHalf(rest: multiset<Push>)
    ensures Flood(Halfway(rest), TRIANGLE, SECOND, Start(rest))
  {
    Turn(Y, X, X, rest, Push(0, 1, Y), Push(2, 0, X), Y, Y, X, Push(1, 2, Y));
    Turn(Y, Y, X, rest, Push(2, 0, X), Push(1, 2, Y), X, Y, X, Push(0, 1, X));
    Turn(X, Y, X, rest, Push(1, 2, Y), Push(0, 1, X), X, Y, Y, Push(2, 0, Y));
    ThreeDeliveries(Halfway(rest), Push(0, 1, Y), Tri(Y, Y, X, rest, Push(2, 0, X), Push(1, 2, Y)), Push(2, 0, X),
                    Tri(X, Y, X, rest, Push(1, 2, Y), Push(0, 1, X)), Push(1, 2, Y), Start(rest));
  }

  /** Six deliveries, each of them a change, lead back to where they started. */
  lemma OnceRound(rest: multiset<Push>)
    ensures Flood(Start(rest), TRIANGLE, FIRST + SECOND, Start(rest))
  {
    FirstHalf(rest);
    SecondHalf(rest);
    FloodConcat(Start(rest), TRIANGLE, FIRST, Halfway(rest), SECOND, Start(rest));
  }

  lemma {:induction false} RoundAndRound(rest: multiset<Push>, n: nat) returns (ps: seq<Push>)
    ensures |ps| == 6 * n && Flood(Start(rest), TRIANGLE, ps, Start(rest))
  {
    if n == 0 {
      ps := [];
    } else {
      var before := RoundAndRound(rest, n - 1);
      OnceRound(rest);
      FloodConcat(Start(rest), TRIANGLE, before, Start(rest), FIRST + SECOND, Start(rest));
      ps := before + (FIRST + SECOND);
    }
  }

  // ---- how it comes about ----

  const OTHERS: multiset<Push> := multiset{Push(0, 2, X), Push(1, 0, Y)}

  lemma WriteToTwo(rs: seq<Replica>, ps: multiset<Push>, v: nat, a: nat, b: nat, u: Update)
    requires |rs| == 3 && v < 3 && TRIANGLE[v] == {a, b} && a != b && rs[v] == map[] && u.key == "k"
    ensures WriteLocal(Net(rs, ps), TRIANGLE, v, u)
            == Net(rs[v := Holds(u)], ps + multiset{Push(v, a, u), Push(v, b, u)})
  {
    assert (set w | w in {a, b} :: Push(v, w, u)) == {Push(v, a, u), Push(v, b, u)};
    assert Relays(v, {a, b}, u) == multiset{Push(v, a, u), Push(v, b, u)};
  }

  /** Nodes 0 and 1 write at the same time, and node 2 hears of node 1 first. */
  lemma BothWrite() returns (ms: seq<Move>)
    ensures Moves(Empty(3), TRIANGLE, ms, Start(OTHERS)) && |ms| == 3
    ensures forall m :: m in ms && m.Written? ==> m.update == X || m.update == Y
  {
    var n1 := Net([Holds(X), map[], map[]], multiset{Push(0, 1, X), Push(0, 2, X)});
    var n2 := Net([Holds(X), Holds(Y), map[]],
                  multiset{Push(0, 1, X), Push(0, 2, X)} + multiset{Push(1, 0, Y), Push(1, 2, Y)});
    WriteToTwo([map[], map[], map[]], multiset{}, 0, 1, 2, X);
    assert Empty(3).replicas == [map[], map[], map[]];
    assert WriteLocal(Empty(3), TRIANGLE, 0, X) == n1;
    WriteToTwo(n1.replicas, n1.pushes, 1, 0, 2, Y);
    assert WriteLocal(n1, TRIANGLE, 1, Y) == n2;
    HearsFirst(n2);
    ms := [Written(0, X), Written(1, Y), Arrived(Push(1, 2, Y))];
    assert ms[1..] == [Written(1, Y), Arrived(Push(1, 2, Y))] && ms[1..][1..] == [Arrived(Push(1, 2, Y))];
    assert ms[1..][1..][1..] == [];
    assert Moves(Start(OTHERS), TRIANGLE, [], Start(OTHERS));
    assert Moves(n2, TRIANGLE, ms[1..][1..], Start(OTHERS));
    assert Moves(n1, TRIANGLE, ms[1..], Start(OTHERS));
  }

  lemma HearsFirst(net: Net)
    requires net.replicas == [Holds(X), Holds(Y), map[]]
    requires net.pushes == multiset{Push(0, 1, X), Push(0, 2, X)} + multiset{Push(1, 0, Y), Push(1, 2, Y)}
    ensures Deliver(net, TRIANGLE, Push(1, 2, Y)) == Start(OTHERS)
  {
    var t := Deliver(net, TRIANGLE, Push(1, 2, Y));
    assert TRIANGLE[2] - {1} == {0};
    RelayToOne(2, 0, Y);
    assert t.replicas == [Holds(X), Holds(Y), Holds(Y)];
    assert t.pushes == OTHERS + multiset{Push(0, 1, X), Push(2, 0, Y)};
  }

  lemma TriangleIsSymmetric()
    ensures Symmetric(TRIANGLE)
  {
    forall v: nat, w: nat | v < 3 && w in TRIANGLE[v]
      ensures w < 3 && w != v && v in TRIANGLE[w]
    {
    }
  }

  /** Three nodes, two writes, no loss: floods of any length. */
  lemma Endless(n: nat) returns (ms: seq<Move>, net: Net, ps: seq<Push>)
    ensures Symmetric(TRIANGLE) && Moves(Empty(3), TRIANGLE, ms, net)
    ensures forall m :: m in ms && m.Written? ==> m.update == X || m.update == Y
    ensures |net.replicas| == 3 && Flood(net, TRIANGLE, ps, net) && |ps| == 6 * n
  {
    TriangleIsSymmetric();
    ms := BothWrite();
    net := Start(OTHERS);
    ps := RoundAndRound(OTHERS, n);
  }

  lemma TwoSubscribers()
    ensures forall v :: 0 <= v < |TRIANGLE| ==> |TRIANGLE[v]| <= 2
  {
  }

  /** So the triangle has a cycle in the sense in which trees have none. */
  lemma TriangleIsCyclic()
    ensures !Acyclic(TRIANGLE)
  {
    if Acyclic(TRIANGLE) {
      var ps := RoundAndRound(OTHERS, 1);
      TwoSubscribers();
      AcyclicFloodEnds(Start(OTHERS), TRIANGLE, ps, Start(OTHERS), 2);
      assert false;
    }
  }

  // ---- agreement ----

  lemma PairWrites() returns (net: Net)
    ensures net == Net([Holds(X), Holds(Y)], multiset{Push(0, 1, X), Push(1, 0, Y)})
    ensures Moves(Empty(2), PAIR, [Written(0, X), Written(1, Y)], net)
  {
    net := Net([Holds(X), Holds(Y)], multiset{Push(0, 1, X), Push(1, 0, Y)});
    var n1 := Net([Holds(X), map[]], multiset{Push(0, 1, X)});
    FirstWritten(X);
    RelayToOne(1, 0, Y);
    assert WriteLocal(n1, PAIR, 1, Y).replicas == net.replicas;
    assert WriteLocal(n1, PAIR, 1, Y) == net;
    assert [Written(0, X), Written(1, Y)][1..] == [Written(1, Y)] && [Written(1, Y)][1..] == [];
    assert Moves(net, PAIR, [], net);
    assert Moves(n1, PAIR, [Written(1, Y)], net);
  }

  lemma Crossing(net: Net) returns (end: Net)
    requires net == Net([Holds(X), Holds(Y)], multiset{Push(0, 1, X), Push(1, 0, Y)})
    ensures end == Net([Holds(Y), Holds(X)], multiset{})
    ensures Moves(net, PAIR, [Arrived(Push(0, 1, X)), Arrived(Push(1, 0, Y))], end)
  {
    end := Net([Holds(Y), Holds(X)], multiset{});
    var n1 := Net([Holds(X), Holds(X)], multiset{Push(1, 0, Y)});
    RelayToOne(0, 1, X);
    assert PAIR[1] - {0} == {} && PAIR[0] - {1} == {};
    Overwrite(Y.entry, X.entry);
    Overwrite(X.entry, Y.entry);
    assert Deliver(net, PAIR, Push(0, 1, X)).replicas == n1.replicas;
    assert Deliver(net, PAIR, Push(0, 1, X)).pushes == n1.pushes;
    assert Deliver(n1, PAIR, Push(1, 0, Y)).replicas == end.replicas;
    assert Deliver(n1, PAIR, Push(1, 0, Y)).pushes == end.pushes;
    var ms := [Arrived(Push(0, 1, X)), Arrived(Push(1, 0, Y))];
    assert ms[1..] == [Arrived(Push(1, 0, Y))] && ms[1..][1..] == [];
    assert Moves(end, PAIR, [], end);
    assert Moves(n1, PAIR, ms[1..], end);
  }

  /** Two nodes write at the same time and their pushes cross: all is quiet, each has what the other wrote, and no
      timestamp was raised silently. */
  lemma CrossingDiverges() returns (ms: seq<Move>, end: Net)
    ensures Symmetric(PAIR) && Moves(Empty(2), PAIR, ms, end) && end.pushes == multiset{}
    ensures forall m :: m in ms && m.Written? ==> m.update == X || m.update == Y
    ensures VersionsDiffer({X, Y})
    ensures |end.replicas| == 2 && !Agree(end.replicas[0], end.replicas[1])
  {
    var net := PairWrites();
    end := Crossing(net);
    var a, b := [Written(0, X), Written(1, Y)], [Arrived(Push(0, 1, X)), Arrived(Push(1, 0, Y))];
    MovesConcat(Empty(2), PAIR, a, net, b, end);
    ms := a + b;
    assert Holds(Y)["k"] == Y.entry && Holds(X)["k"] == X.entry;
    forall m | m in ms && m.Written?
      ensures m.update == X || m.update == Y
    {
      assert m in a;
    }
  }
}
