/** When the flood has died out, all nodes agree: on which hypotheses, and what happens without them. */
module MapConverge {
  import opened MapReplica
  import opened MapFlood

  /** Different versions of a key differ in content, so that no accepted update goes unnoticed. */
  ghost predicate VersionsDiffer(all: set<Update>) {
    forall a, b :: a in all && b in all && a.key == b.key && SameContent(a.entry, b.entry)
        ==> a.entry.time == b.entry.time
  }

  /** `new_` is newer than `old_`, or the same version. */
  predicate Tops(new_: Entry, old_: Entry) {
    new_.time > old_.time || (new_.time == old_.time && SameContent(new_, old_))
  }

  predicate Knows(r: Replica, k: string, e: Entry) { k in r && Tops(r[k], e) }

  /** A push on its way from `v` to `w` brings this version of the key, or a newer one. */
  ghost predicate Coming(pushes: multiset<Push>, v: nat, w: nat, k: string, e: Entry) {
    exists p :: p in pushes && p.from == v && p.to == w && p.update.key == k && Tops(p.update.entry, e)
  }

  /** Whatever `v` holds, its subscriber `w` knows too or is about to receive. */
  ghost predicate Covers(net: Net, v: nat, w: nat, k: string)
    requires v < |net.replicas| && w < |net.replicas|
  {
    k in net.replicas[v] ==>
      Knows(net.replicas[w], k, net.replicas[v][k]) || Coming(net.pushes, v, w, k, net.replicas[v][k])
  }

  ghost predicate Covered(net: Net, subs: seq<set<nat>>)
    requires |net.replicas| == |subs| && Graph(subs)
  {
    forall v: nat, w: nat, k :: v < |subs| && w in subs[v] ==> Covers(net, v, w, k)
  }

  /** A node knows what it has pushed. */
  ghost predicate SendersKnow(net: Net) {
    forall p :: p in net.pushes ==>
      p.from != p.to && p.from < |net.replicas| && Knows(net.replicas[p.from], p.update.key, p.update.entry)
  }

  ghost predicate Synced(net: Net, subs: seq<set<nat>>, all: set<Update>) {
    Graph(subs) && Drawn(net, |subs|, all) && Covered(net, subs) && SendersKnow(net)
  }

  /** The update is reported as a change exactly when it raises a timestamp: it raises none silently, and does not
      replace content at an equal time. */
  predicate Plain(r: Replica, u: Update) {
    && !Tied(r, u)
    && (Changes(r, u) || Rejects(r, u) || (u.key in r && r[u.key].time == u.entry.time))
  }

  lemma VersionsArePlain(r: Replica, u: Update, all: set<Update>)
    requires VersionsDiffer(all) && TiesSameContent(all) && u in all && (forall k :: k in r ==> Update(k, r[k]) in all)
    ensures Plain(r, u)
  {
    if u.key in r { assert Update(u.key, r[u.key]) in all; }
  }

  lemma MergeKnows(r: Replica, u: Update, k: string, e: Entry)
    requires Plain(r, u)
    ensures Knows(r, k, e) ==> Knows(Merge(r, u), k, e)
    ensures Knows(Merge(r, u), u.key, u.entry)
  {
  }

  /** An update that is not reported as a change leaves every version as it is. */
  lemma UnchangedKeepsVersions(r: Replica, u: Update)
    requires Plain(r, u) && !Changes(r, u)
    ensures Merge(r, u).Keys == r.Keys
    ensures forall k :: k in r ==> Merge(r, u)[k].time == r[k].time && SameContent(Merge(r, u)[k], r[k])
  {
  }

  /** An update at `x`, pushed to `to` if it changed something, keeps an edge covered. `gone` was delivered to `x`. */
  lemma UpdateCovers(net: Net, net': Net, subs: seq<set<nat>>, all: set<Update>, x: nat, u: Update, v: nat, w: nat,
                     k: string)
    requires Synced(net, subs, all) && u in all
    requires x < |subs| && Plain(net.replicas[x], u) && v < |subs| && w in subs[v]
    requires net'.replicas == net.replicas[x := Merge(net.replicas[x], u)]
    requires forall p :: p in net.pushes && p !in net'.pushes ==> p.to == x && p.from != x && p.update == u
    requires v == x && Changes(net.replicas[x], u) ==>
               Push(x, w, u) in net'.pushes || Knows(net.replicas[w], u.key, u.entry)
    ensures Covers(net', v, w, k)
  {
    var r, r' := net.replicas[v], net'.replicas[v];
    if k in r' {
      if v == x && Changes(net.replicas[x], u) && k == u.key {
        assert w != v && r'[k] == u.entry;
        if Push(x, w, u) in net'.pushes { assert Coming(net'.pushes, v, w, k, u.entry); }
      } else {
        if v == x && !Changes(r, u) { UnchangedKeepsVersions(r, u); }
        assert k in r && r'[k].time == r[k].time && SameContent(r'[k], r[k]);
        assert Covers(net, v, w, k);
        StillCovers(net, net', x, u, v, w, k, r[k]);
        SameVersion(net', v, w, k, r[k], r'[k]);
      }
    }
  }

  /** The subscriber still knows the version, or is still about to receive it. */
  lemma StillCovers(net: Net, net': Net, x: nat, u: Update, v: nat, w: nat, k: string, e: Entry)
    requires x < |net.replicas| && w < |net.replicas| && Plain(net.replicas[x], u)
    requires net'.replicas == net.replicas[x := Merge(net.replicas[x], u)]
    requires forall p :: p in net.pushes && p !in net'.pushes ==> p.to == x && p.from != x && p.update == u
    requires Knows(net.replicas[w], k, e) || Coming(net.pushes, v, w, k, e)
    ensures Knows(net'.replicas[w], k, e) || Coming(net'.pushes, v, w, k, e)
  {
    if Knows(net.replicas[w], k, e) {
      if w == x { MergeKnows(net.replicas[w], u, k, e); }
    } else {
      var p :| p in net.pushes && p.from == v && p.to == w && p.update.key == k && Tops(p.update.entry, e);
      if p !in net'.pushes { MergeKnows(net.replicas[w], u, k, e); }
    }
  }

  lemma SameVersion(net: Net, v: nat, w: nat, k: string, e: Entry, e': Entry)
    requires w < |net.replicas| && e'.time == e.time && SameContent(e', e)
    requires Knows(net.replicas[w], k, e) || Coming(net.pushes, v, w, k, e)
    ensures Knows(net.replicas[w], k, e') || Coming(net.pushes, v, w, k, e')
  {
    if !Knows(net.replicas[w], k, e) {
      var p :| p in net.pushes && p.from == v && p.to == w && p.update.key == k && Tops(p.update.entry, e);
      assert Tops(p.update.entry, e');
    }
  }

  lemma DeliverCovers(net: Net, subs: seq<set<nat>>, p: Push, all: set<Update>, v: nat, w: nat, k: string)
    requires Synced(net, subs, all) && p in net.pushes && Plain(net.replicas[p.to], p.update) && v < |subs|
             && w in subs[v]
    ensures Covers(Deliver(net, subs, p), v, w, k)
  {
    RelaysMembers(p.to, subs[p.to] - {p.from}, p.update, Push(p.to, w, p.update));
    UpdateCovers(net, Deliver(net, subs, p), subs, all, p.to, p.update, v, w, k);
  }

  lemma DeliverSenderKnows(net: Net, subs: seq<set<nat>>, p: Push, q: Push)
    requires Graph(subs) && |net.replicas| == |subs| && SendersKnow(net) && p in net.pushes && p.to < |subs|
    requires Plain(net.replicas[p.to], p.update) && q in Deliver(net, subs, p).pushes
    ensures q.from != q.to && q.from < |subs|
    ensures Knows(Deliver(net, subs, p).replicas[q.from], q.update.key, q.update.entry)
  {
    RelaysMembers(p.to, subs[p.to] - {p.from}, p.update, q);
    MergeKnows(net.replicas[p.to], p.update, q.update.key, q.update.entry);
    if q !in net.pushes { assert q in Relays(p.to, subs[p.to] - {p.from}, p.update); }
  }

  lemma DeliverSynced(net: Net, subs: seq<set<nat>>, p: Push, all: set<Update>)
    requires Synced(net, subs, all) && p in net.pushes && Plain(net.replicas[p.to], p.update)
    ensures Synced(Deliver(net, subs, p), subs, all)
  {
    var net' := Deliver(net, subs, p);
    DeliverDrawn(net, subs, p, all);
    forall v: nat, w: nat, k | v < |subs| && w in subs[v] ensures Covers(net', v, w, k) {
      DeliverCovers(net, subs, p, all, v, w, k);
    }
    assert SendersKnow(net') by {
      forall q | q in net'.pushes
        ensures q.from != q.to && q.from < |net'.replicas|
                && Knows(net'.replicas[q.from], q.update.key, q.update.entry)
      {
        DeliverSenderKnows(net, subs, p, q);
      }
    }
  }

  lemma WriteCovers(net: Net, subs: seq<set<nat>>, x: nat, u: Update, all: set<Update>, v: nat, w: nat, k: string)
    requires Synced(net, subs, all) && x < |subs| && Plain(net.replicas[x], u) && u in all && v < |subs| && w in subs[v]
    ensures Covers(WriteLocal(net, subs, x, u), v, w, k)
  {
    RelaysMembers(x, subs[x], u, Push(x, w, u));
    UpdateCovers(net, WriteLocal(net, subs, x, u), subs, all, x, u, v, w, k);
  }

  lemma WritePush(net: Net, subs: seq<set<nat>>, x: nat, u: Update, all: set<Update>, q: Push)
    requires Graph(subs) && Drawn(net, |subs|, all) && SendersKnow(net) && x < |subs| && u in all
    requires Plain(net.replicas[x], u) && q in WriteLocal(net, subs, x, u).pushes
    ensures q.update in all && q.to < |subs| && q.from < |subs| && q.from != q.to
    ensures Knows(WriteLocal(net, subs, x, u).replicas[q.from], q.update.key, q.update.entry)
  {
    RelaysMembers(x, subs[x], u, q);
    MergeKnows(net.replicas[x], u, q.update.key, q.update.entry);
    if q !in net.pushes { assert q in Relays(x, subs[x], u); }
  }

  lemma WriteSynced(net: Net, subs: seq<set<nat>>, x: nat, u: Update, all: set<Update>)
    requires Synced(net, subs, all) && x < |subs| && Plain(net.replicas[x], u) && u in all
    ensures Synced(WriteLocal(net, subs, x, u), subs, all)
  {
    var net' := WriteLocal(net, subs, x, u);
    forall q | q in net'.pushes
      ensures q.update in all && q.to < |subs| && q.from < |subs|
      ensures q.from != q.to && Knows(net'.replicas[q.from], q.update.key, q.update.entry)
    {
      WritePush(net, subs, x, u, all, q);
    }
    forall v: nat, w: nat, k | v < |subs| && w in subs[v] ensures Covers(net', v, w, k) {
      WriteCovers(net, subs, x, u, all, v, w, k);
    }
  }

  // ---- runs ----

  datatype Move = Written(node: nat, update: Update) | Arrived(push: Push)

  predicate CanMove(net: Net, subs: seq<set<nat>>, m: Move) {
    |net.replicas| == |subs| &&
    match m
    case Written(v, _) => v < |subs|
    case Arrived(p) => p in net.pushes && p.to < |subs|
  }

  function Moved(net: Net, subs: seq<set<nat>>, m: Move): (net': Net)
    requires CanMove(net, subs, m)
    ensures |net'.replicas| == |subs|
  {
    match m
    case Written(v, u) => WriteLocal(net, subs, v, u)
    case Arrived(p) => Deliver(net, subs, p)
  }

  predicate PlainMove(net: Net, subs: seq<set<nat>>, m: Move)
    requires CanMove(net, subs, m)
  {
    match m
    case Written(v, u) => Plain(net.replicas[v], u)
    case Arrived(p) => Plain(net.replicas[p.to], p.update)
  }

  ghost predicate Moves(net: Net, subs: seq<set<nat>>, ms: seq<Move>, end: Net)
    decreases |ms|
  {
    if ms == [] then net == end
    else CanMove(net, subs, ms[0]) && Moves(Moved(net, subs, ms[0]), subs, ms[1..], end)
  }

  lemma MovesCons(net: Net, subs: seq<set<nat>>, m: Move, ms: seq<Move>, next: Net, end: Net)
    requires CanMove(net, subs, m) && next == Moved(net, subs, m) && Moves(next, subs, ms, end)
    ensures Moves(net, subs, [m] + ms, end)
  {
    assert ([m] + ms)[0] == m && ([m] + ms)[1..] == ms;
  }

  lemma MovesHead(net: Net, subs: seq<set<nat>>, ms: seq<Move>, end: Net) returns (next: Net)
    requires ms != [] && Moves(net, subs, ms, end)
    ensures CanMove(net, subs, ms[0]) && next == Moved(net, subs, ms[0]) && Moves(next, subs, ms[1..], end)
  {
    next := Moved(net, subs, ms[0]);
  }

  lemma {:induction false} MovesConcat(net: Net, subs: seq<set<nat>>, a: seq<Move>, m: Net, b: seq<Move>, end: Net)
    requires Moves(net, subs, a, m) && Moves(m, subs, b, end)
    ensures Moves(net, subs, a + b, end)
    decreases |a|
  {
    if a == [] {
      assert a + b == b;
    } else {
      var next := MovesHead(net, subs, a, m);
      MovesConcat(next, subs, a[1..], m, b, end);
      MovesCons(net, subs, a[0], a[1..] + b, next, end);
      SplitFirst(a, b);
    }
  }

  /** In the whole run no timestamp is raised silently, and no content replaced at an equal time. */
  ghost predicate AllPlain(net: Net, subs: seq<set<nat>>, ms: seq<Move>)
    decreases |ms|
  {
    ms == []
    || (CanMove(net, subs, ms[0]) && PlainMove(net, subs, ms[0]) && AllPlain(Moved(net, subs, ms[0]), subs, ms[1..]))
  }

  lemma MoveSynced(net: Net, subs: seq<set<nat>>, m: Move, all: set<Update>)
    requires Synced(net, subs, all) && CanMove(net, subs, m) && PlainMove(net, subs, m)
             && (m.Written? ==> m.update in all)
    ensures Synced(Moved(net, subs, m), subs, all)
  {
    match m {
      case Written(v, u) => WriteSynced(net, subs, v, u, all);
      case Arrived(p) => DeliverSynced(net, subs, p, all);
    }
  }

  lemma {:induction false} MovesSynced(net: Net, subs: seq<set<nat>>, ms: seq<Move>, end: Net, all: set<Update>)
    requires Synced(net, subs, all) && Moves(net, subs, ms, end) && AllPlain(net, subs, ms)
    requires forall m :: m in ms && m.Written? ==> m.update in all
    ensures Synced(end, subs, all)
    decreases |ms|
  {
    if ms == [] {
    } else {
      assert ms[0] in ms;
      MoveSynced(net, subs, ms[0], all);
      MovesSynced(Moved(net, subs, ms[0]), subs, ms[1..], end, all);
    }
  }

  lemma MoveIsPlain(net: Net, subs: seq<set<nat>>, m: Move, all: set<Update>)
    requires Synced(net, subs, all) && VersionsDiffer(all) && TiesSameContent(all)
    requires CanMove(net, subs, m) && (m.Written? ==> m.update in all)
    ensures PlainMove(net, subs, m)
  {
    match m {
      case Written(v, u) => VersionsArePlain(net.replicas[v], u, all);
      case Arrived(p) => VersionsArePlain(net.replicas[p.to], p.update, all);
    }
  }

  /** If versions of a key differ in content, and one time has one content, every run is plain. */
  lemma {:induction false} VersionsStayPlain(net: Net, subs: seq<set<nat>>, ms: seq<Move>, end: Net, all: set<Update>)
    requires Synced(net, subs, all) && VersionsDiffer(all) && TiesSameContent(all) && Moves(net, subs, ms, end)
    requires forall m :: m in ms && m.Written? ==> m.update in all
    ensures AllPlain(net, subs, ms)
    decreases |ms|
  {
    if ms == [] {
    } else {
      assert ms[0] in ms;
      MoveIsPlain(net, subs, ms[0], all);
      MoveSynced(net, subs, ms[0], all);
      VersionsStayPlain(Moved(net, subs, ms[0]), subs, ms[1..], end, all);
    }
  }

  // ---- agreement ----

  ghost predicate Agree(a: Replica, b: Replica) {
    a.Keys == b.Keys && forall k :: k in a ==> a[k].time == b[k].time && SameContent(a[k], b[k])
  }

  ghost predicate Symmetric(subs: seq<set<nat>>) {
    Graph(subs) && forall v: nat, w: nat :: v < |subs| && w in subs[v] ==> v in subs[w]
  }

  /** `path` leads along subscriptions. */
  ghost predicate Path(subs: seq<set<nat>>, path: seq<nat>) {
    && path != [] && path[0] < |subs|
    && (|path| > 1 ==> path[1] in subs[path[0]] && Path(subs, path[1..]))
  }

  ghost predicate Reaches(subs: seq<set<nat>>, v: nat, w: nat) {
    exists path :: Path(subs, path) && path[0] == v && path[|path| - 1] == w
  }

  ghost predicate Connected(subs: seq<set<nat>>) {
    forall v: nat, w: nat :: v < |subs| && w < |subs| ==> Reaches(subs, v, w)
  }

  lemma NeighboursAgree(net: Net, subs: seq<set<nat>>, all: set<Update>, v: nat, w: nat)
    requires Synced(net, subs, all) && Symmetric(subs) && net.pushes == multiset{}
    requires v < |subs| && w in subs[v]
    ensures Agree(net.replicas[v], net.replicas[w])
  {
    var a, b := net.replicas[v], net.replicas[w];
    assert forall k :: Covers(net, v, w, k) && Covers(net, w, v, k);
    forall k | k in a || k in b
      ensures k in a && k in b && a[k].time == b[k].time && SameContent(a[k], b[k])
    {
      assert Covers(net, v, w, k) && Covers(net, w, v, k);
    }
  }

  lemma {:induction false} PathAgrees(net: Net, subs: seq<set<nat>>, all: set<Update>, path: seq<nat>)
    requires Synced(net, subs, all) && Symmetric(subs) && net.pushes == multiset{}
    requires Path(subs, path)
    ensures path[|path| - 1] < |subs| && Agree(net.replicas[path[0]], net.replicas[path[|path| - 1]])
    decreases |path|
  {
    if |path| <= 1 {
    } else {
      NeighboursAgree(net, subs, all, path[0], path[1]);
      PathAgrees(net, subs, all, path[1..]);
    }
  }

  lemma AllAgree(net: Net, subs: seq<set<nat>>, all: set<Update>, v: nat, w: nat)
    requires Synced(net, subs, all) && Symmetric(subs) && net.pushes == multiset{}
    requires Connected(subs) && v < |subs| && w < |subs|
    ensures |net.replicas| == |subs| && Agree(net.replicas[v], net.replicas[w])
  {
    assert Reaches(subs, v, w);
    var path :| Path(subs, path) && path[0] == v && path[|path| - 1] == w;
    PathAgrees(net, subs, all, path);
  }

  ghost function Empty(n: nat): Net { Net(seq(n, i => map[]), multiset{}) }

  lemma EmptySynced(subs: seq<set<nat>>, all: set<Update>)
    requires Graph(subs)
    ensures Synced(Empty(|subs|), subs, all)
  {
  }

  /** Strong convergence: on a symmetric, connected graph, whatever the nodes wrote and in whatever order the pushes
      arrived, if no timestamp was raised silently and no content replaced at an equal time, then all nodes hold the
      same versions once no push is left. */
  lemma PlainRunsConverge(subs: seq<set<nat>>, ms: seq<Move>, end: Net, v: nat, w: nat)
    requires Symmetric(subs) && Connected(subs)
    requires Moves(Empty(|subs|), subs, ms, end) && AllPlain(Empty(|subs|), subs, ms)
    requires end.pushes == multiset{} && v < |subs| && w < |subs|
    ensures |end.replicas| == |subs| && Agree(end.replicas[v], end.replicas[w])
  {
    var all := set m | m in ms && m.Written? :: m.update;
    EmptySynced(subs, all);
    MovesSynced(Empty(|subs|), subs, ms, end, all);
    AllAgree(end, subs, all, v, w);
  }

  /** In particular if different versions of a key always differ in content, and one time has one content. */
  lemma Converges(subs: seq<set<nat>>, ms: seq<Move>, end: Net, all: set<Update>, v: nat, w: nat)
    requires Symmetric(subs) && Connected(subs)
    requires TiesSameContent(all) && VersionsDiffer(all)
    requires Moves(Empty(|subs|), subs, ms, end) && (forall m :: m in ms && m.Written? ==> m.update in all)
    requires end.pushes == multiset{} && v < |subs| && w < |subs|
    ensures |end.replicas| == |subs| && Agree(end.replicas[v], end.replicas[w])
  {
    EmptySynced(subs, all);
    VersionsStayPlain(Empty(|subs|), subs, ms, end, all);
    PlainRunsConverge(subs, ms, end, v, w);
  }

  // ---- silent runs ----

  /** On a settled edge, a local write leaves the edge settled or covered exactly when it is rejected, or relayed, or
      no newer than what the subscriber has: a re-post of the same value with a newer time is lost on the others. */
  lemma SilentRepost(net: Net, subs: seq<set<nat>>, v: nat, w: nat, u: Update)
    requires |net.replicas| == |subs| && Graph(subs) && net.pushes == multiset{}
    requires v < |subs| && w in subs[v] && Covers(net, v, w, u.key)
    ensures Covers(WriteLocal(net, subs, v, u), v, w, u.key) <==>
              Rejects(net.replicas[v], u) || Changes(net.replicas[v], u)
                  || Knows(net.replicas[w], u.key, u.entry)
  {
    RelaysMembers(v, subs[v], u, Push(v, w, u));
    var net' := WriteLocal(net, subs, v, u);
    if Changes(net.replicas[v], u) {
      assert Push(v, w, u) in net'.pushes;
    }
  }

  function At(value: string, time: int): Update { Update("k", Entry(value, false, time, "", "", "")) }

  const PAIR: seq<set<nat>> := [{1}, {0}]

  lemma Overwrite(a: Entry, b: Entry)
    ensures (map["k" := a])["k" := b] == map["k" := b]
  {
  }

  /** Node 0 re-posts "x" at time 30, which is silent; node 1 writes "y" at time 20, which node 0 rejects. */
  lemma RepostThenWrite(net: Net) returns (end: Net)
    requires net == Net([map["k" := At("x", 10).entry], map["k" := At("x", 10).entry]], multiset{})
    ensures end == Net([map["k" := At("x", 30).entry], map["k" := At("y", 20).entry]], multiset{})
    ensures Moves(net, PAIR, [Written(0, At("x", 30)), Written(1, At("y", 20)), Arrived(Push(1, 0, At("y", 20)))], end)
  {
    var x, y := At("x", 30), At("y", 20);
    var n1 := WriteLocal(net, PAIR, 0, x);
    Overwrite(At("x", 10).entry, x.entry);
    Overwrite(At("x", 10).entry, y.entry);
    assert !Changes(net.replicas[0], x) && Changes(net.replicas[1], y) && Rejects(map["k" := x.entry], y);
    assert n1.replicas == [map["k" := x.entry], map["k" := At("x", 10).entry]] && n1.pushes == multiset{};
    var n2 := WriteLocal(n1, PAIR, 1, y);
    RelayToOne(1, 0, y);
    assert PAIR[1] == {0};
    assert n2.replicas == [map["k" := x.entry], map["k" := y.entry]];
    assert n2.pushes == multiset{Push(1, 0, y)};
    var n3 := Deliver(n2, PAIR, Push(1, 0, y));
    end := Net([map["k" := x.entry], map["k" := y.entry]], multiset{});
    assert n3.replicas == end.replicas && n3.pushes == end.pushes;
    var ms := [Written(0, x), Written(1, y), Arrived(Push(1, 0, y))];
    assert ms[1..] == [Written(1, y), Arrived(Push(1, 0, y))] && ms[1..][1..] == [Arrived(Push(1, 0, y))]
        && ms[1..][1..][1..] == [];
    assert Moves(n3, PAIR, [], end);
    assert Moves(n2, PAIR, ms[1..][1..], end);
    assert Moves(n1, PAIR, ms[1..], end);
  }

  lemma Disagree(a: Entry, b: Entry)
    requires a.time != b.time
    ensures !Agree(map["k" := a], map["k" := b])
  {
    assert (map["k" := a])["k"] == a && (map["k" := b])["k"] == b;
  }

  /** Node 0 writes "x", node 1 receives it, and `ms` goes on from there. */
  lemma PostFirst(net: Net, ms: seq<Move>, end: Net)
    requires net == Net([map["k" := At("x", 10).entry], map["k" := At("x", 10).entry]], multiset{})
    requires Moves(net, PAIR, ms, end)
    ensures Moves(Empty(2), PAIR, [Written(0, At("x", 10))] + ([Arrived(Push(0, 1, At("x", 10)))] + ms), end)
  {
    var u := At("x", 10);
    var m1, m2 := Written(0, u), Arrived(Push(0, 1, u));
    var n1 := Net([map["k" := u.entry], map[]], multiset{Push(0, 1, u)});
    FirstWritten(u);
    FirstArrives(u);
    assert ([m2] + ms)[0] == m2 && ([m2] + ms)[1..] == ms;
    assert Moves(n1, PAIR, [m2] + ms, end);
    assert ([m1] + ([m2] + ms))[0] == m1 && ([m1] + ([m2] + ms))[1..] == [m2] + ms;
  }

  lemma FirstWritten(u: Update)
    requires u.key == "k"
    ensures WriteLocal(Empty(2), PAIR, 0, u) == Net([map["k" := u.entry], map[]], multiset{Push(0, 1, u)})
  {
    RelayToOne(0, 1, u);
    assert PAIR[0] == {1};
    assert WriteLocal(Empty(2), PAIR, 0, u).replicas == [map["k" := u.entry], map[]];
  }

  lemma FirstArrives(u: Update)
    requires u.key == "k"
    ensures Deliver(Net([map["k" := u.entry], map[]], multiset{Push(0, 1, u)}), PAIR, Push(0, 1, u))
            == Net([map["k" := u.entry], map["k" := u.entry]], multiset{})
  {
    RelayToOne(1, 0, u);
    assert PAIR[1] - {0} == {};
    var n1 := Net([map["k" := u.entry], map[]], multiset{Push(0, 1, u)});
    var n2 := Deliver(n1, PAIR, Push(0, 1, u));
    assert n2.replicas == [map["k" := u.entry], map["k" := u.entry]] && n2.pushes == multiset{};
  }

  lemma ThreeVersions(ms: seq<Move>)
    requires ms == [Written(0, At("x", 10))] + ([Arrived(Push(0, 1, At("x", 10)))]
                   + [Written(0, At("x", 30)), Written(1, At("y", 20)), Arrived(Push(1, 0, At("y", 20)))])
    ensures Symmetric(PAIR)
    ensures TiesSameContent({At("x", 10), At("x", 30), At("y", 20)})
    ensures forall m :: m in ms && m.Written? ==> m.update in {At("x", 10), At("x", 30), At("y", 20)}
  {
    assert |ms| == 5 && ms[0].Written? && ms[1].Arrived? && ms[2].Written? && ms[3].Written? && ms[4].Arrived?;
    forall i | 0 <= i < |ms| && ms[i].Written?
      ensures ms[i].update in {At("x", 10), At("x", 30), At("y", 20)}
    {
    }
  }

  /** Two nodes, three writes of three different times, no push lost; and the nodes are quiet, and disagree. */
  lemma RepostDiverges() returns (ms: seq<Move>, end: Net)
    ensures Symmetric(PAIR) && Moves(Empty(2), PAIR, ms, end) && end.pushes == multiset{}
    ensures forall m :: m in ms && m.Written? ==> m.update in {At("x", 10), At("x", 30), At("y", 20)}
    ensures TiesSameContent({At("x", 10), At("x", 30), At("y", 20)})
    ensures |end.replicas| == 2 && !Agree(end.replicas[0], end.replicas[1])
  {
    var net := Net([map["k" := At("x", 10).entry], map["k" := At("x", 10).entry]], multiset{});
    end := RepostThenWrite(net);
    var rest := [Written(0, At("x", 30)), Written(1, At("y", 20)), Arrived(Push(1, 0, At("y", 20)))];
    PostFirst(net, rest, end);
    ms := [Written(0, At("x", 10))] + ([Arrived(Push(0, 1, At("x", 10)))] + rest);
    Disagree(At("x", 30).entry, At("y", 20).entry);
    ThreeVersions(ms);
  }
}
