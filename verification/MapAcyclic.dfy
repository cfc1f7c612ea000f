/**
 Floods in spite of ties. Where no subscription path comes back to an edge without turning round, every flood dies out,
 whatever the events; trees are such graphs.
 */
module MapAcyclic {
  import opened MapReplica
  import opened MapFlood

  /** A subscription: `to` is a subscriber of `from`. */
  datatype Edge = Edge(from: nat, to: nat)

  ghost function Edges(subs: seq<set<nat>>): set<Edge> {
    set v, w | 0 <= v < |subs| && w in subs[v] :: Edge(v, w)
  }

  /** A push along `e` can be relayed along `f`. */
  predicate Follows(subs: seq<set<nat>>, e: Edge, f: Edge) {
    f.from == e.to < |subs| && f.to in subs[e.to] && f.to != e.from
  }

  ghost predicate Chain(subs: seq<set<nat>>, es: seq<Edge>) {
    forall i, j :: 0 <= i && j == i + 1 && j < |es| ==> Follows(subs, es[i], es[j])
  }

  /** A push along `e` can lead to one along `g`. */
  ghost predicate LeadsTo(subs: seq<set<nat>>, e: Edge, g: Edge) {
    exists es :: |es| > 1 && Chain(subs, es) && es[0] == e && es[|es| - 1] == g
  }

  ghost predicate Acyclic(subs: seq<set<nat>>) { forall e :: !LeadsTo(subs, e, e) }

  ghost function Ahead(subs: seq<set<nat>>, e: Edge): set<Edge> {
    set g | g in Edges(subs) && LeadsTo(subs, e, g)
  }

  lemma FollowsLeads(subs: seq<set<nat>>, e: Edge, f: Edge)
    requires Follows(subs, e, f)
    ensures LeadsTo(subs, e, f) && f in Edges(subs)
  {
    assert Chain(subs, [e, f]) && [e, f][|[e, f]| - 1] == f;
  }

  lemma LeadsOn(subs: seq<set<nat>>, e: Edge, f: Edge, g: Edge)
    requires Follows(subs, e, f) && LeadsTo(subs, f, g)
    ensures LeadsTo(subs, e, g)
  {
    var es :| |es| > 1 && Chain(subs, es) && es[0] == f && es[|es| - 1] == g;
    var longer := [e] + es;
    forall i, j | 0 <= i && j == i + 1 && j < |longer|
      ensures Follows(subs, longer[i], longer[j])
    {
      if i > 0 { assert longer[i] == es[i - 1] && longer[j] == es[j - 1]; }
    }
    assert Chain(subs, longer) && longer[|longer| - 1] == g;
  }

  /** Each relay leaves fewer edges ahead. */
  lemma FewerAhead(subs: seq<set<nat>>, e: Edge, f: Edge)
    requires Acyclic(subs) && Follows(subs, e, f)
    ensures |Ahead(subs, f)| < |Ahead(subs, e)|
  {
    FollowsLeads(subs, e, f);
    forall g | g in Ahead(subs, f)
      ensures g in Ahead(subs, e)
    {
      LeadsOn(subs, e, f, g);
    }
    assert f in Ahead(subs, e) && f !in Ahead(subs, f);
    Subset(Ahead(subs, f), Ahead(subs, e));
  }

  // ---- the load of a network ----

  /** (d + 1) to the power of n. */
  function Power(d: nat, n: nat): (r: nat)
    ensures r > 0
  {
    if n == 0 then 1 else d * Power(d, n - 1) + Power(d, n - 1)
  }

  ghost function PushLoad(subs: seq<set<nat>>, d: nat, p: Push): nat {
    Power(d, |Ahead(subs, Edge(p.from, p.to))|)
  }

  ghost function Load(subs: seq<set<nat>>, d: nat, ps: multiset<Push>): nat
    decreases |ps|
  {
    if ps == multiset{} then 0
    else
      var p :| p in ps;
      PushLoad(subs, d, p) + Load(subs, d, ps - multiset{p})
  }

  /** The load does not depend on the order in which it is summed. */
  lemma {:induction false} LoadTake(subs: seq<set<nat>>, d: nat, ps: multiset<Push>, p: Push)
    requires p in ps
    ensures Load(subs, d, ps) == PushLoad(subs, d, p) + Load(subs, d, ps - multiset{p})
    decreases |ps|
  {
    var q :| q in ps && Load(subs, d, ps) == PushLoad(subs, d, q) + Load(subs, d, ps - multiset{q});
    if q != p {
      var rest := ps - multiset{p} - multiset{q};
      LoadTake(subs, d, ps - multiset{q}, p);
      LoadTake(subs, d, ps - multiset{p}, q);
      assert ps - multiset{q} - multiset{p} == rest;
    }
  }

  /** One relay more. */
  lemma LoadRelay(subs: seq<set<nat>>, d: nat, ps: multiset<Push>, v: nat, to: set<nat>, u: Update, w: nat)
    requires w in to
    ensures Load(subs, d, ps + Relays(v, to, u))
            == PushLoad(subs, d, Push(v, w, u)) + Load(subs, d, ps + Relays(v, to - {w}, u))
  {
    RelaysTake(v, to, u, w);
    var all := ps + Relays(v, to, u);
    assert all - multiset{Push(v, w, u)} == ps + Relays(v, to - {w}, u);
    LoadTake(subs, d, all, Push(v, w, u));
  }

  lemma RelaysTake(v: nat, to: set<nat>, u: Update, w: nat)
    requires w in to
    ensures Relays(v, to, u) == Relays(v, to - {w}, u) + multiset{Push(v, w, u)}
  {
    var a, b := set x | x in to :: Push(v, x, u), set x | x in to - {w} :: Push(v, x, u);
    assert a == b + {Push(v, w, u)} && Push(v, w, u) !in b;
  }

  lemma OneMore(n: nat, x: nat)
    requires n > 0
    ensures n * x == (n - 1) * x + x
  {
  }

  /** Relays to a set of subscribers add at most one load each of the given rank. */
  lemma {:induction false} LoadRelays(subs: seq<set<nat>>, d: nat, ps: multiset<Push>, v: nat, to: set<nat>, u: Update,
                                      rank: nat)
    requires forall w :: w in to ==> |Ahead(subs, Edge(v, w))| <= rank
    ensures Load(subs, d, ps + Relays(v, to, u)) <= Load(subs, d, ps) + |to| * Power(d, rank)
    decreases |to|
  {
    if to == {} {
      assert ps + Relays(v, {}, u) == ps;
    } else {
      var w :| w in to;
      LoadRelays(subs, d, ps, v, to - {w}, u, rank);
      LoadRelay(subs, d, ps, v, to, u, w);
      PowerGrows(d, |Ahead(subs, Edge(v, w))|, rank);
      OneMore(|to|, Power(d, rank));
    }
  }

  lemma {:induction false} PowerGrows(d: nat, m: nat, n: nat)
    requires m <= n
    ensures Power(d, m) <= Power(d, n)
    decreases n - m
  {
    if m == n {
    } else {
      PowerGrows(d, m, n - 1);
    }
  }

  /** Each delivery lightens the load, tied or not. */
  lemma DeliverUnloads(net: Net, subs: seq<set<nat>>, p: Push, d: nat)
    requires |net.replicas| == |subs| && p in net.pushes && p.to < |subs| && Acyclic(subs)
    requires forall v :: 0 <= v < |subs| ==> |subs[v]| <= d
    ensures Load(subs, d, Deliver(net, subs, p).pushes) < Load(subs, d, net.pushes)
  {
    var rest := net.pushes - multiset{p};
    LoadTake(subs, d, net.pushes, p);
    if Changes(net.replicas[p.to], p.update) {
      var to := subs[p.to] - {p.from};
      Subset(to, subs[p.to]);
      RelaysUnload(subs, d, rest, p, to);
    }
  }

  lemma RelaysAreBehind(subs: seq<set<nat>>, p: Push, w: nat)
    requires p.to < |subs| && Acyclic(subs) && w in subs[p.to] - {p.from}
    ensures |Ahead(subs, Edge(p.to, w))| < |Ahead(subs, Edge(p.from, p.to))|
  {
    FewerAhead(subs, Edge(p.from, p.to), Edge(p.to, w));
  }

  lemma Room(d: nat, n: nat, rank: nat)
    requires n <= d
    ensures n * Power(d, rank) < Power(d, rank + 1)
  {
    Scale(Power(d, rank), n, d);
  }

  lemma RelaysUnload(subs: seq<set<nat>>, d: nat, rest: multiset<Push>, p: Push, to: set<nat>)
    requires p.to < |subs| && Acyclic(subs) && to == subs[p.to] - {p.from} && |to| <= d
    ensures Load(subs, d, rest + Relays(p.to, to, p.update)) < Load(subs, d, rest) + PushLoad(subs, d, p)
  {
    var height := |Ahead(subs, Edge(p.from, p.to))|;
    if to == {} {
      assert rest + Relays(p.to, {}, p.update) == rest;
    } else {
      forall w | w in to
        ensures |Ahead(subs, Edge(p.to, w))| <= height - 1
      {
        RelaysAreBehind(subs, p, w);
      }
      var w :| w in to;
      assert height > 0;
      LoadRelays(subs, d, rest, p.to, to, p.update, height - 1);
      Room(d, |to|, height - 1);
    }
  }

  /** Without cycles every flood dies out, whatever ties there are. */
  lemma {:induction false} AcyclicFloodEnds(net: Net, subs: seq<set<nat>>, ps: seq<Push>, end: Net, d: nat)
    requires |net.replicas| == |subs| && Acyclic(subs)
    requires forall v :: 0 <= v < |subs| ==> |subs[v]| <= d
    requires Flood(net, subs, ps, end)
    ensures |ps| + Load(subs, d, end.pushes) <= Load(subs, d, net.pushes)
    decreases |ps|
  {
    if ps == [] {
    } else {
      DeliverUnloads(net, subs, ps[0], d);
      AcyclicFloodEnds(Deliver(net, subs, ps[0]), subs, ps[1..], end, d);
    }
  }

  // ---- trees ----

  /** A forest, numbered so that each node has at most one neighbour before it. */
  ghost predicate Forest(subs: seq<set<nat>>) {
    && Graph(subs)
    && (forall v: nat, w: nat :: v < |subs| && w in subs[v] ==> v in subs[w])
    && (forall v: nat, a: nat, b: nat :: v < |subs| && a in subs[v] && b in subs[v] && a < v && b < v ==> a == b)
  }

  /** Up the tree first, then down. */
  function Height(n: nat, e: Edge): int { if e.to < e.from then n + e.from else n - e.to }

  lemma FollowsFalls(subs: seq<set<nat>>, e: Edge, f: Edge)
    requires Forest(subs) && e in Edges(subs) && Follows(subs, e, f)
    ensures f in Edges(subs) && Height(|subs|, f) < Height(|subs|, e)
  {
  }

  lemma {:induction false} ChainFalls(subs: seq<set<nat>>, es: seq<Edge>)
    requires Forest(subs) && Chain(subs, es) && es != [] && es[0] in Edges(subs)
    ensures Height(|subs|, es[|es| - 1]) <= Height(|subs|, es[0])
    ensures |es| > 1 ==> Height(|subs|, es[|es| - 1]) < Height(|subs|, es[0])
    decreases |es|
  {
    if |es| == 1 {
    } else {
      assert Follows(subs, es[0], es[1]);
      FollowsFalls(subs, es[0], es[1]);
      var rest := es[1..];
      forall i, j | 0 <= i && j == i + 1 && j < |rest|
        ensures Follows(subs, rest[i], rest[j])
      {
        assert rest[i] == es[i + 1] && rest[j] == es[j + 1];
      }
      ChainFalls(subs, rest);
    }
  }

  lemma ForestsAreAcyclic(subs: seq<set<nat>>)
    requires Forest(subs)
    ensures Acyclic(subs)
  {
    forall e
      ensures !LeadsTo(subs, e, e)
    {
      if LeadsTo(subs, e, e) {
        var es :| |es| > 1 && Chain(subs, es) && es[0] == e && es[|es| - 1] == e;
        LastIsEdge(subs, es);
        ChainFalls(subs, es);
        assert false;
      }
    }
  }

  lemma LastIsEdge(subs: seq<set<nat>>, es: seq<Edge>)
    requires Chain(subs, es) && |es| > 1
    ensures es[|es| - 1] in Edges(subs)
  {
    var i := |es| - 2;
    assert Follows(subs, es[i], es[i + 1]);
  }
}
