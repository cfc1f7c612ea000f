/**
 Replication by flooding (realm/features/maps/feature.go): every node pushes an event that changed its map to all its
 subscribers except the one it came from. Nodes are 0..n; `subs[v]` are the subscribers of `v`; pushes are not lost.
 */
module MapFlood {
  import opened MapReplica

  datatype Push = Push(from: nat, to: nat, update: Update)

  datatype Net = Net(replicas: seq<Replica>, pushes: multiset<Push>)

  /** Each node's subscribers are other nodes. */
  ghost predicate Graph(subs: seq<set<nat>>) {
    forall v, w :: 0 <= v < |subs| && w in subs[v] ==> w < |subs| && w != v
  }

  /** `broadcastExcept`: one push for each recipient. */
  function Relays(v: nat, to: set<nat>, u: Update): multiset<Push> {
    multiset(set w | w in to :: Push(v, w, u))
  }

  /** `handlePushStream`: apply the event, and relay it if it changed something. */
  function Deliver(net: Net, subs: seq<set<nat>>, p: Push): Net
    requires p.to < |net.replicas| == |subs|
  {
    var r := net.replicas[p.to];
    var rest := net.pushes - multiset{p};
    Net(net.replicas[p.to := Merge(r, p.update)],
        if Changes(r, p.update) then rest + Relays(p.to, subs[p.to] - {p.from}, p.update) else rest)
  }

  /** `mutate`: a local write, pushed to every subscriber if it changed something. */
  function WriteLocal(net: Net, subs: seq<set<nat>>, v: nat, u: Update): Net
    requires v < |net.replicas| == |subs|
  {
    var r := net.replicas[v];
    Net(net.replicas[v := Merge(r, u)],
        if Changes(r, u) then net.pushes + Relays(v, subs[v], u) else net.pushes)
  }

  // ---- termination ----

  /** Everything stored or on its way comes from the events `all`, where one key at one time has one content. */
  ghost predicate Drawn(net: Net, n: nat, all: set<Update>) {
    && |net.replicas| == n
    && (forall v, k :: 0 <= v < n && k in net.replicas[v] ==> Update(k, net.replicas[v][k]) in all)
    && (forall p :: p in net.pushes ==> p.update in all && p.to < n && p.from < n)
  }

  ghost predicate TiesSameContent(all: set<Update>) {
    forall a, b :: a in all && b in all && a.key == b.key && a.entry.time == b.entry.time
        ==> SameContent(a.entry, b.entry)
  }

  /** The update has the time of what is stored, but other content; the store takes it all the same. */
  predicate Tied(r: Replica, u: Update) {
    u.key in r && r[u.key].time == u.entry.time && !SameContent(r[u.key], u.entry)
  }

  lemma TiesAreNotTied(r: Replica, u: Update, all: set<Update>)
    requires TiesSameContent(all) && u in all && (forall k :: k in r ==> Update(k, r[k]) in all)
    ensures !Tied(r, u)
  {
    if u.key in r { assert Update(u.key, r[u.key]) in all; }
  }

  /** The events of `all` that would still raise a timestamp of `r`. */
  ghost function Ahead(r: Replica, all: set<Update>): set<Update> {
    set u | u in all && (u.key in r ==> r[u.key].time < u.entry.time)
  }

  ghost function TotalAhead(rs: seq<Replica>, all: set<Update>): nat {
    if rs == [] then 0 else |Ahead(rs[0], all)| + TotalAhead(rs[1..], all)
  }

  /** What is left to do when every node has at most `d` subscribers. */
  ghost function Potential(net: Net, d: nat, all: set<Update>): nat {
    d * TotalAhead(net.replicas, all) + |net.pushes|
  }

  lemma Subset<T>(a: set<T>, b: set<T>)
    requires a <= b
    ensures |a| <= |b|
    ensures a != b ==> |a| < |b|
  {
    assert b == a + (b - a);
    assert |b| == |a| + |b - a|;
    if a != b {
      var x :| x in b - a;
    }
  }

  lemma MergeAhead(r: Replica, u: Update, all: set<Update>)
    requires u in all && !Tied(r, u)
    ensures |Ahead(Merge(r, u), all)| <= |Ahead(r, all)|
    ensures Changes(r, u) ==> |Ahead(Merge(r, u), all)| < |Ahead(r, all)|
  {
    Subset(Ahead(Merge(r, u), all), Ahead(r, all));
    if Changes(r, u) {
      assert u in Ahead(r, all) && u !in Ahead(Merge(r, u), all);
    }
  }

  lemma {:induction false} TotalUpdate(rs: seq<Replica>, v: nat, r: Replica, all: set<Update>)
    requires v < |rs|
    ensures TotalAhead(rs[v := r], all) + |Ahead(rs[v], all)| == TotalAhead(rs, all) + |Ahead(r, all)|
  {
    if v == 0 {
      assert rs[0 := r][1..] == rs[1..];
    } else {
      assert rs[v := r][1..] == rs[1..][v - 1 := r];
      TotalUpdate(rs[1..], v - 1, r, all);
    }
  }

  lemma {:induction false} RelaysSize(v: nat, to: set<nat>, u: Update)
    ensures |Relays(v, to, u)| == |to|
    decreases |to|
  {
    var ps := set w | w in to :: Push(v, w, u);
    if to != {} {
      var x :| x in to;
      var rest := set w | w in to - {x} :: Push(v, w, u);
      RelaysSize(v, to - {x}, u);
      assert ps == rest + {Push(v, x, u)};
      assert Push(v, x, u) !in rest;
    }
    assert |multiset(ps)| == |ps|;
  }

  lemma RelaysMembers(v: nat, to: set<nat>, u: Update, p: Push)
    ensures p in Relays(v, to, u) <==> p.from == v && p.to in to && p.update == u
  {
  }

  lemma RelayToOne(v: nat, w: nat, u: Update)
    ensures Relays(v, {w}, u) == multiset{Push(v, w, u)}
    ensures Relays(v, {}, u) == multiset{}
  {
    assert (set x | x in {w} :: Push(v, x, u)) == {Push(v, w, u)};
    assert (set x: nat | x in {} :: Push(v, x, u)) == {};
  }

  lemma DeliverDrawn(net: Net, subs: seq<set<nat>>, p: Push, all: set<Update>)
    requires Drawn(net, |subs|, all) && Graph(subs) && p in net.pushes
    ensures Drawn(Deliver(net, subs, p), |subs|, all)
  {
    var net' := Deliver(net, subs, p);
    forall q | q in net'.pushes
      ensures q.update in all && q.to < |subs| && q.from < |subs|
    {
      RelaysMembers(p.to, subs[p.to] - {p.from}, p.update, q);
      if q !in net.pushes {
        assert q in Relays(p.to, subs[p.to] - {p.from}, p.update);
      }
    }
  }

  lemma {:induction false} Scale(d: nat, a: nat, b: nat)
    requires a <= b
    ensures d * a <= d * b
    ensures a < b ==> d * a + d <= d * b
    decreases b - a
  {
    if a < b {
      Scale(d, a + 1, b);
      assert d * (a + 1) == d * a + d;
    }
  }

  lemma DeliverDescends(net: Net, subs: seq<set<nat>>, p: Push, d: nat, all: set<Update>)
    requires Drawn(net, |subs|, all)
    requires forall v :: 0 <= v < |subs| ==> |subs[v]| <= d
    requires p in net.pushes && !Tied(net.replicas[p.to], p.update)
    ensures Potential(Deliver(net, subs, p), d, all) < Potential(net, d, all)
  {
    var r := net.replicas[p.to];
    var to := subs[p.to] - {p.from};
    MergeAhead(r, p.update, all);
    TotalUpdate(net.replicas, p.to, Merge(r, p.update), all);
    RelaysSize(p.to, to, p.update);
    Subset(to, subs[p.to]);
    var before, after := TotalAhead(net.replicas, all), TotalAhead(net.replicas[p.to := Merge(r, p.update)], all);
    Scale(d, after, before);
    assert |net.pushes - multiset{p}| == |net.pushes| - 1;
  }

  /** Deliveries only, in any order. */
  ghost predicate Flood(net: Net, subs: seq<set<nat>>, ps: seq<Push>, end: Net)
    requires |net.replicas| == |subs|
    decreases |ps|
  {
    if ps == [] then net == end
    else ps[0] in net.pushes && ps[0].to < |subs| && Flood(Deliver(net, subs, ps[0]), subs, ps[1..], end)
  }

  /** The first delivery of a flood, and the rest. */
  lemma FloodHead(net: Net, subs: seq<set<nat>>, ps: seq<Push>, end: Net) returns (next: Net)
    requires |net.replicas| == |subs| && ps != [] && Flood(net, subs, ps, end)
    ensures ps[0] in net.pushes && ps[0].to < |subs| && next == Deliver(net, subs, ps[0])
    ensures |next.replicas| == |subs| && Flood(next, subs, ps[1..], end)
  {
    next := Deliver(net, subs, ps[0]);
  }

  lemma {:induction false} FloodConcat(net: Net, subs: seq<set<nat>>, a: seq<Push>, m: Net, b: seq<Push>, end: Net)
    requires |net.replicas| == |subs| == |m.replicas| && Flood(net, subs, a, m) && Flood(m, subs, b, end)
    ensures Flood(net, subs, a + b, end)
    decreases |a|
  {
    if a == [] {
      assert a + b == b;
    } else {
      var next := FloodHead(net, subs, a, m);
      FloodConcat(next, subs, a[1..], m, b, end);
      FloodCons(net, subs, a[0], a[1..] + b, next, end);
      SplitFirst(a, b);
    }
  }

  lemma SplitFirst<T>(a: seq<T>, b: seq<T>)
    requires a != []
    ensures [a[0]] + (a[1..] + b) == a + b
  {
  }

  lemma FloodCons(net: Net, subs: seq<set<nat>>, p: Push, ps: seq<Push>, next: Net, end: Net)
    requires |net.replicas| == |subs| == |next.replicas| && p in net.pushes && p.to < |subs|
    requires next == Deliver(net, subs, p) && Flood(next, subs, ps, end)
    ensures Flood(net, subs, [p] + ps, end)
  {
    assert ([p] + ps)[0] == p && ([p] + ps)[1..] == ps;
  }

  /** No delivery replaces content at an equal time. */
  ghost predicate NeverTied(net: Net, subs: seq<set<nat>>, ps: seq<Push>)
    requires |net.replicas| == |subs|
    decreases |ps|
  {
    ps == []
    || (ps[0].to < |subs| && !Tied(net.replicas[ps[0].to], ps[0].update)
        && NeverTied(Deliver(net, subs, ps[0]), subs, ps[1..]))
  }

  /** A flood without ties dies out: no sequence of deliveries is longer than the potential of the state it starts
      in. */
  lemma {:induction false} FloodTerminates(net: Net, subs: seq<set<nat>>, ps: seq<Push>, end: Net, d: nat,
                                           all: set<Update>)
    requires Drawn(net, |subs|, all) && Graph(subs)
    requires forall v :: 0 <= v < |subs| ==> |subs[v]| <= d
    requires Flood(net, subs, ps, end) && NeverTied(net, subs, ps)
    ensures |ps| + Potential(end, d, all) <= Potential(net, d, all)
    decreases |ps|
  {
    if ps == [] {
    } else {
      DeliverDrawn(net, subs, ps[0], all);
      DeliverDescends(net, subs, ps[0], d, all);
      FloodTerminates(Deliver(net, subs, ps[0]), subs, ps[1..], end, d, all);
    }
  }

  /** If one key at one time has one content, no flood is ever tied. */
  lemma {:induction false} SameContentNeverTied(net: Net, subs: seq<set<nat>>, ps: seq<Push>, end: Net,
                                                all: set<Update>)
    requires Drawn(net, |subs|, all) && Graph(subs) && TiesSameContent(all) && Flood(net, subs, ps, end)
    ensures NeverTied(net, subs, ps)
    decreases |ps|
  {
    if ps == [] {
    } else {
      assert forall k :: k in net.replicas[ps[0].to] ==> Update(k, net.replicas[ps[0].to][k]) in all;
      TiesAreNotTied(net.replicas[ps[0].to], ps[0].update, all);
      DeliverDrawn(net, subs, ps[0], all);
      SameContentNeverTied(Deliver(net, subs, ps[0]), subs, ps[1..], end, all);
    }
  }
}
