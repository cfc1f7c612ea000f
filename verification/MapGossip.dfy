/**
 Pushes and exchanges in one network, in which pushes get lost and subscriptions come and go: once writing has stopped,
 exchanges alone make all nodes agree, if they are in time and pass everyone's news on to everyone.
 */
module MapGossip {
  import opened MapReplica
  import opened MapFlood
  import opened MapStore
  import opened MapCatchUp

  /** `cursors[(w, v)]` is how far `w` has followed `v`. */
  datatype Mesh = Mesh(net: Net, subs: seq<set<nat>>, cursors: map<(nat, nat), int>) {
    function Cursor(w: nat, v: nat): int { if (w, v) in cursors then cursors[(w, v)] else 0 }
    predicate Sized() { |net.replicas| == |subs| }
  }

  datatype Event =
    | Write(node: nat, update: Update)
    | Arrive(push: Push)
    | Lose(push: Push)
    | Leave(node: nat, subscriber: nat)
    | Subscribe(node: nat, peer: nat, cursor: int)

  /** `subscribeToPeer` at `node`, with a peer that answers; the new cursor is the newest time received, if that is
      newer. */
  ghost predicate Possible(m: Mesh, e: Event)
    requires m.Sized()
  {
    match e
    case Write(v, _) => v < |m.subs|
    case Arrive(p) => p in m.net.pushes && p.to < |m.subs|
    case Lose(p) => p in m.net.pushes
    case Leave(v, _) => v < |m.subs|
    case Subscribe(w, v, c) =>
      w < |m.subs| && v < |m.subs| && w != v && CursorFollows(c, m.Cursor(w, v), m.net.replicas[v])
  }

  /** The events of a response that changed something, to everyone subscribed but the peer they came from. */
  ghost function PassOn(w: nat, to: set<nat>, mine: Replica, offered: Replica): multiset<Push> {
    multiset(set k, x | k in offered && Changes(mine, Update(k, offered[k])) && x in to ::
               Push(w, x, Update(k, offered[k])))
  }

  ghost function After(m: Mesh, e: Event): (m': Mesh)
    requires m.Sized() && Possible(m, e)
    ensures m'.Sized() && |m'.subs| == |m.subs|
  {
    match e
    case Write(v, u) => m.(net := WriteLocal(m.net, m.subs, v, u))
    case Arrive(p) => m.(net := Deliver(m.net, m.subs, p))
    case Lose(p) => m.(net := m.net.(pushes := m.net.pushes - multiset{p}))
    case Leave(v, w) => m.(subs := m.subs[v := m.subs[v] - {w}])
    case Subscribe(w, v, c) =>
      var mine, offered := m.net.replicas[w], Newer(m.net.replicas[v], m.Cursor(w, v));
      Mesh(Net(m.net.replicas[w := Join(mine, offered)], m.net.pushes + PassOn(w, m.subs[w] - {v}, mine, offered)),
           m.subs[v := m.subs[v] + {w}], m.cursors[(w, v) := c])
  }

  ghost predicate Run(m: Mesh, es: seq<Event>, end: Mesh)
    decreases |es|
  {
    m.Sized() && if es == [] then m == end else Possible(m, es[0]) && Run(After(m, es[0]), es[1..], end)
  }

  function Empty(n: nat): Mesh { Mesh(Net(seq(n, i => map[]), multiset{}), seq(n, i => {}), map[]) }

  // ---- what a run leaves of subscriptions, cursors and pushes ----

  /** The event starts or ends the subscription of `w` to `v`. */
  predicate Concerns(e: Event, w: nat, v: nat) {
    (e.Subscribe? && e.node == w && e.peer == v) || (e.Leave? && e.node == v && e.subscriber == w)
  }

  lemma {:induction false} SubscriptionStays(m: Mesh, es: seq<Event>, end: Mesh, w: nat, v: nat)
    requires Run(m, es, end) && v < |m.subs| && forall e :: e in es ==> !Concerns(e, w, v)
    ensures |end.subs| == |m.subs| && (w in end.subs[v] <==> w in m.subs[v]) && end.Cursor(w, v) == m.Cursor(w, v)
    decreases |es|
  {
    if es == [] {
    } else {
      assert es[0] in es;
      SubscriptionStays(After(m, es[0]), es[1..], end, w, v);
    }
  }

  /** The last event about a subscription decides whether it stands, and a subscription leaves its cursor. */
  lemma {:induction false} LastDecides(m: Mesh, es: seq<Event>, end: Mesh, w: nat, v: nat, i: nat)
    requires Run(m, es, end) && v < |m.subs| && i < |es| && Concerns(es[i], w, v)
    requires forall e :: e in es[i + 1..] ==> !Concerns(e, w, v)
    ensures |end.subs| == |m.subs| && (w in end.subs[v] <==> es[i].Subscribe?)
    ensures es[i].Subscribe? ==> end.Cursor(w, v) == es[i].cursor
    decreases |es|
  {
    var next := After(m, es[0]);
    if i == 0 {
      SubscriptionStays(next, es[1..], end, w, v);
    } else {
      assert es[1..][i..] == es[i + 1..] && es[1..][i - 1] == es[i];
      LastDecides(next, es[1..], end, w, v, i - 1);
    }
  }

  /** A lost push is gone, once, and nothing else happened. */
  lemma LossTakesOne(m: Mesh, p: Push, q: Push)
    requires m.Sized() && Possible(m, Lose(p))
    ensures var m' := After(m, Lose(p));
            && m' == m.(net := m.net.(pushes := m'.net.pushes))
            && m.net.pushes[q] == m'.net.pushes[q] + if q == p then 1 else 0
  {
  }

  // ---- nothing is ever lost again ----

  /** The replica has every key at least as new as `other`. */
  predicate Dominates(r: Replica, other: Replica) { forall k :: k in other ==> HasAtLeast(r, k, other[k].time) }

  lemma AfterRaises(m: Mesh, e: Event, v: nat)
    requires m.Sized() && Possible(m, e) && v < |m.subs|
    ensures Dominates(After(m, e).net.replicas[v], m.net.replicas[v])
  {
  }

  lemma DominatesOn(a: Replica, b: Replica, c: Replica)
    requires Dominates(a, b) && Dominates(b, c)
    ensures Dominates(a, c)
  {
  }

  /** An exchange whose requester has no gap below its cursor brings everything the peer has. */
  ghost predicate InTimeAt(m: Mesh, w: nat, v: nat)
    requires m.Sized()
  {
    w < |m.subs| && v < |m.subs| && CaughtUp(m.net.replicas[w], m.net.replicas[v], m.Cursor(w, v))
  }

  lemma SubscribeDominates(m: Mesh, w: nat, v: nat, c: int)
    requires m.Sized() && Possible(m, Subscribe(w, v, c)) && InTimeAt(m, w, v)
    ensures Dominates(After(m, Subscribe(w, v, c)).net.replicas[w], m.net.replicas[v])
  {
    var mine, theirs, cursor := m.net.replicas[w], m.net.replicas[v], m.Cursor(w, v);
    forall k | k in theirs
      ensures HasAtLeast(Join(mine, Newer(theirs, cursor)), k, theirs[k].time)
    {
    }
  }

  // ---- nothing comes from nowhere ----

  /** Some node of the snapshot had the key at least this new. */
  ghost predicate Known(once: seq<Replica>, k: string, time: int) {
    exists v :: 0 <= v < |once| && HasAtLeast(once[v], k, time)
  }

  /** No node and no push has anything newer than the snapshot. */
  ghost predicate Topped(m: Mesh, once: seq<Replica>) {
    && (forall v, k :: 0 <= v < |m.net.replicas| && k in m.net.replicas[v]
         ==> Known(once, k, m.net.replicas[v][k].time))
    && (forall p :: p in m.net.pushes ==> Known(once, p.update.key, p.update.entry.time))
  }

  lemma PassedOn(w: nat, to: set<nat>, mine: Replica, offered: Replica, q: Push)
    requires q in PassOn(w, to, mine, offered)
    ensures q.update.key in offered && offered[q.update.key] == q.update.entry
  {
  }

  lemma PassedOnce(w: nat, to: set<nat>, mine: Replica, offered: Replica, q: Push)
    ensures PassOn(w, to, mine, offered)[q] ==
              if q.from == w && q.to in to && Changes(mine, q.update) && q.update.key in offered
                 && offered[q.update.key] == q.update.entry
              then 1 else 0
  {
    assert q.update == Update(q.update.key, q.update.entry);
    assert q == Push(q.from, q.to, q.update);
  }

  /** The relay of an exchange: one push for every key whose event was accepted and changed the content here, to every
      subscriber but the peer, and nothing else. */
  lemma SubscribeRelays(m: Mesh, w: nat, v: nat, c: int, x: nat, u: Update)
    requires m.Sized() && Possible(m, Subscribe(w, v, c))
    ensures After(m, Subscribe(w, v, c)).net.pushes[Push(w, x, u)] == m.net.pushes[Push(w, x, u)] +
              if x in m.subs[w] && x != v && Changes(m.net.replicas[w], u)
                 && u.key in m.net.replicas[v] && m.net.replicas[v][u.key] == u.entry
                 && u.entry.time > m.Cursor(w, v)
              then 1 else 0
  {
    PassedOnce(w, m.subs[w] - {v}, m.net.replicas[w], Newer(m.net.replicas[v], m.Cursor(w, v)), Push(w, x, u));
  }

  /** A push after a step was there before, or carries what the step brought. */
  lemma PushesAfter(m: Mesh, e: Event, q: Push)
    requires m.Sized() && Possible(m, e) && q in After(m, e).net.pushes
    ensures q in m.net.pushes
            || (e.Write? && q.update == e.update)
            || (e.Arrive? && q.update == e.push.update)
            || (e.Subscribe? && q.update.key in m.net.replicas[e.peer]
                && m.net.replicas[e.peer][q.update.key] == q.update.entry)
  {
    match e {
      case Write(v, u) => RelaysMembers(v, m.subs[v], u, q);
      case Arrive(p) => RelaysMembers(p.to, m.subs[p.to] - {p.from}, p.update, q);
      case Lose(_) =>
      case Leave(_, _) =>
      case Subscribe(w, v, _) =>
        if q !in m.net.pushes {
          PassedOn(w, m.subs[w] - {v}, m.net.replicas[w], Newer(m.net.replicas[v], m.Cursor(w, v)), q);
        }
    }
  }

  /** So does an entry. */
  lemma EntriesAfter(m: Mesh, e: Event, v: nat, k: string)
    requires m.Sized() && Possible(m, e) && v < |m.subs| && k in After(m, e).net.replicas[v]
    ensures var entry := After(m, e).net.replicas[v][k];
            || (k in m.net.replicas[v] && m.net.replicas[v][k] == entry)
            || (e.Write? && Update(k, entry) == e.update)
            || (e.Arrive? && Update(k, entry) == e.push.update)
            || (e.Subscribe? && k in m.net.replicas[e.peer] && m.net.replicas[e.peer][k] == entry)
  {
  }

  lemma StepTopped(m: Mesh, e: Event, once: seq<Replica>)
    requires m.Sized() && Possible(m, e) && !e.Write? && Topped(m, once)
    ensures Topped(After(m, e), once)
  {
    var m' := After(m, e);
    forall v, k | 0 <= v < |m'.net.replicas| && k in m'.net.replicas[v]
      ensures Known(once, k, m'.net.replicas[v][k].time)
    {
      EntriesAfter(m, e, v, k);
    }
    forall q | q in m'.net.pushes
      ensures Known(once, q.update.key, q.update.entry.time)
    {
      PushesAfter(m, e, q);
    }
  }

  lemma KnownRaises(m: Mesh, e: Event, k: string, time: int)
    requires m.Sized() && Possible(m, e) && Known(m.net.replicas, k, time)
    ensures Known(After(m, e).net.replicas, k, time)
  {
    var v :| 0 <= v < |m.net.replicas| && HasAtLeast(m.net.replicas[v], k, time);
    AfterRaises(m, e, v);
    assert HasAtLeast(After(m, e).net.replicas[v], k, time);
  }

  /** Nothing on its way is newer than what some node has. */
  lemma PushesKnown(m: Mesh, e: Event)
    requires m.Sized() && Possible(m, e) && Topped(m, m.net.replicas)
    ensures Topped(After(m, e), After(m, e).net.replicas)
  {
    var m' := After(m, e);
    forall v, k | 0 <= v < |m'.net.replicas| && k in m'.net.replicas[v]
      ensures Known(m'.net.replicas, k, m'.net.replicas[v][k].time)
    {
      assert HasAtLeast(m'.net.replicas[v], k, m'.net.replicas[v][k].time);
    }
    forall q | q in m'.net.pushes
      ensures Known(m'.net.replicas, q.update.key, q.update.entry.time)
    {
      PushesAfter(m, e, q);
      if e.Write? && q.update == e.update {
        assert HasAtLeast(m'.net.replicas[e.node], q.update.key, q.update.entry.time);
      } else if e.Subscribe? && q !in m.net.pushes {
        assert HasAtLeast(m.net.replicas[e.peer], q.update.key, q.update.entry.time);
        KnownRaises(m, e, q.update.key, q.update.entry.time);
      } else {
        KnownRaises(m, e, q.update.key, q.update.entry.time);
      }
    }
  }

  // ---- where everything comes from ----

  ghost predicate DrawnFrom(m: Mesh, all: set<Update>) {
    && (forall v, k :: 0 <= v < |m.net.replicas| && k in m.net.replicas[v] ==> Update(k, m.net.replicas[v][k]) in all)
    && (forall p :: p in m.net.pushes ==> p.update in all)
  }

  lemma StepDrawn(m: Mesh, e: Event, all: set<Update>)
    requires m.Sized() && Possible(m, e) && DrawnFrom(m, all) && (e.Write? ==> e.update in all)
    ensures DrawnFrom(After(m, e), all)
  {
    var m' := After(m, e);
    forall v, k | 0 <= v < |m'.net.replicas| && k in m'.net.replicas[v]
      ensures Update(k, m'.net.replicas[v][k]) in all
    {
      EntriesAfter(m, e, v, k);
    }
    forall q | q in m'.net.pushes
      ensures q.update in all
    {
      PushesAfter(m, e, q);
    }
  }

  ghost predicate Writes(es: seq<Event>, all: set<Update>) { forall e :: e in es && e.Write? ==> e.update in all }

  lemma {:induction false} RunKeeps(m: Mesh, es: seq<Event>, end: Mesh, all: set<Update>)
    requires Run(m, es, end) && Topped(m, m.net.replicas) && DrawnFrom(m, all) && Writes(es, all)
    ensures end.Sized() && |end.subs| == |m.subs| && Topped(end, end.net.replicas) && DrawnFrom(end, all)
    decreases |es|
  {
    if es == [] {
    } else {
      assert es[0] in es;
      PushesKnown(m, es[0]);
      StepDrawn(m, es[0], all);
      RunKeeps(After(m, es[0]), es[1..], end, all);
    }
  }

  // ---- hearsay ----

  /** `heard[w]` are the nodes whose news of the snapshot have come to `w`: an exchange passes on what the peer has
      heard. */
  function Hear(heard: seq<set<nat>>, w: nat, v: nat): seq<set<nat>>
    requires w < |heard| && v < |heard|
  {
    heard[w := heard[w] + heard[v]]
  }

  /** What everyone has heard after a run: only exchanges in time count. */
  ghost function Hearsay(m: Mesh, es: seq<Event>, heard: seq<set<nat>>): (h: seq<set<nat>>)
    requires m.Sized() && |heard| == |m.subs|
    ensures |h| == |heard|
    decreases |es|
  {
    if es == [] || !Possible(m, es[0]) then heard
    else Hearsay(After(m, es[0]), es[1..], HearStep(m, es[0], heard))
  }

  ghost function HearStep(m: Mesh, e: Event, heard: seq<set<nat>>): (h: seq<set<nat>>)
    requires m.Sized() && Possible(m, e) && |heard| == |m.subs|
    ensures |h| == |heard|
  {
    if e.Subscribe? && InTimeAt(m, e.node, e.peer) then Hear(heard, e.node, e.peer) else heard
  }

  /** Each node has at least what those it has heard of had. */
  ghost predicate Informed(m: Mesh, heard: seq<set<nat>>, once: seq<Replica>) {
    && |heard| == |m.net.replicas|
    && forall w: nat, v: nat :: w < |heard| && v in heard[w] ==> HasNews(m, once, w, v)
  }

  /** Node `w` has what `v` had in the snapshot. */
  ghost predicate HasNews(m: Mesh, once: seq<Replica>, w: nat, v: nat) {
    w < |m.net.replicas| && v < |once| && Dominates(m.net.replicas[w], once[v])
  }

  lemma NodeInformed(m: Mesh, e: Event, heard: seq<set<nat>>, once: seq<Replica>, w: nat, v: nat)
    requires m.Sized() && Possible(m, e) && Informed(m, heard, once)
    requires w < |heard| && v in HearStep(m, e, heard)[w]
    ensures HasNews(After(m, e), once, w, v)
  {
    AfterRaises(m, e, w);
    if v in heard[w] {
      assert HasNews(m, once, w, v);
      DominatesOn(After(m, e).net.replicas[w], m.net.replicas[w], once[v]);
    } else {
      assert HasNews(m, once, e.peer, v);
      SubscribeDominates(m, e.node, e.peer, e.cursor);
      DominatesOn(After(m, e).net.replicas[w], m.net.replicas[e.peer], once[v]);
    }
  }

  lemma StepInformed(m: Mesh, e: Event, heard: seq<set<nat>>, once: seq<Replica>)
    requires m.Sized() && Possible(m, e) && Informed(m, heard, once)
    ensures Informed(After(m, e), HearStep(m, e, heard), once)
  {
    var m', heard' := After(m, e), HearStep(m, e, heard);
    forall w: nat, v: nat | w < |heard'| && v in heard'[w]
      ensures HasNews(m', once, w, v)
    {
      NodeInformed(m, e, heard, once, w, v);
    }
  }

  lemma {:induction false} RunInformed(m: Mesh, es: seq<Event>, end: Mesh, heard: seq<set<nat>>, once: seq<Replica>)
    requires Run(m, es, end) && Informed(m, heard, once) && Topped(m, once) && forall e :: e in es ==> !e.Write?
    ensures end.Sized() && |end.subs| == |m.subs|
    ensures Informed(end, Hearsay(m, es, heard), once) && Topped(end, once)
    decreases |es|
  {
    if es == [] {
    } else {
      assert es[0] in es;
      StepInformed(m, es[0], heard, once);
      StepTopped(m, es[0], once);
      RunInformed(After(m, es[0]), es[1..], end, HearStep(m, es[0], heard), once);
    }
  }

  // ---- agreement ----

  ghost predicate SameTimes(a: Replica, b: Replica) { Dominates(a, b) && Dominates(b, a) }

  function Selves(n: nat): seq<set<nat>> { seq(n, i => {i}) }

  lemma SelvesInformed(m: Mesh)
    requires m.Sized()
    ensures Informed(m, Selves(|m.subs|), m.net.replicas)
  {
  }

  /** Having heard of everyone, a node has every key at least as new as any node or push. */
  lemma HasAll(m: Mesh, heard: seq<set<nat>>, once: seq<Replica>, w: nat, v: nat)
    requires m.Sized() && w < |m.subs| && v < |m.subs| && Informed(m, heard, once) && Topped(m, once)
    requires |once| == |m.subs| && forall x: nat :: x < |m.subs| ==> x in heard[w]
    ensures Dominates(m.net.replicas[w], m.net.replicas[v])
  {
    forall k | k in m.net.replicas[v]
      ensures HasAtLeast(m.net.replicas[w], k, m.net.replicas[v][k].time)
    {
      var x :| 0 <= x < |once| && HasAtLeast(once[x], k, m.net.replicas[v][k].time);
      assert x in heard[w] && HasNews(m, once, w, x);
    }
  }

  /**
   * Nodes write, pushes arrive or get lost, subscribers come and go; then writing stops. Once the exchanges in time
   * have passed everyone's news on to everyone, all nodes have the same times, whatever else was lost; and the same
   * versions, if one key at one time has one content.
   */
  lemma GossipAgrees(n: nat, before: seq<Event>, m: Mesh, after: seq<Event>, end: Mesh, all: set<Update>, v: nat,
                     w: nat)
    requires Run(Empty(n), before, m) && Run(m, after, end) && v < n && w < n
    requires Writes(before, all) && forall e :: e in after ==> !e.Write?
    requires |m.subs| == n && m.Sized()
    requires forall x: nat, y: nat :: x < n && y < n ==> y in Hearsay(m, after, Selves(n))[x]
    ensures |end.net.replicas| == n && SameTimes(end.net.replicas[v], end.net.replicas[w])
    ensures TiesSameContent(all) ==>
              forall k :: k in end.net.replicas[v] ==>
                k in end.net.replicas[w] && SameContent(end.net.replicas[v][k], end.net.replicas[w][k])
  {
    RunKeeps(Empty(n), before, m, all);
    SelvesInformed(m);
    RunInformed(m, after, end, Selves(n), m.net.replicas);
    var heard := Hearsay(m, after, Selves(n));
    HasAll(end, heard, m.net.replicas, v, w);
    HasAll(end, heard, m.net.replicas, w, v);
    RunKeeps(m, after, end, all);
    if TiesSameContent(all) { SameTimesSameContent(end, all, v, w); }
  }

  lemma SameTimesSameContent(m: Mesh, all: set<Update>, v: nat, w: nat)
    requires v < |m.net.replicas| && w < |m.net.replicas| && DrawnFrom(m, all) && TiesSameContent(all)
    requires SameTimes(m.net.replicas[v], m.net.replicas[w])
    ensures forall k :: k in m.net.replicas[v] ==>
              k in m.net.replicas[w] && SameContent(m.net.replicas[v][k], m.net.replicas[w][k])
  {
    var a, b := m.net.replicas[v], m.net.replicas[w];
    forall k | k in a
      ensures k in b && SameContent(a[k], b[k])
    {
      assert HasAtLeast(b, k, a[k].time);
      assert HasAtLeast(a, k, b[k].time);
      assert Update(k, a[k]) in all && Update(k, b[k]) in all;
    }
  }

  // ---- a path there and back ----

  /** Exchanges in this order, requester first. */
  function HearAll(heard: seq<set<nat>>, xs: seq<(nat, nat)>): (h: seq<set<nat>>)
    ensures |h| == |heard|
    decreases |xs|
  {
    if xs == [] then heard
    else if xs[0].0 < |heard| && xs[0].1 < |heard| then HearAll(Hear(heard, xs[0].0, xs[0].1), xs[1..])
    else HearAll(heard, xs[1..])
  }

  /** The exchanges of a run that are in time. */
  ghost function InTimeExchanges(m: Mesh, es: seq<Event>): seq<(nat, nat)>
    requires m.Sized()
    decreases |es|
  {
    if es == [] || !Possible(m, es[0]) then []
    else
      var rest := InTimeExchanges(After(m, es[0]), es[1..]);
      if es[0].Subscribe? && InTimeAt(m, es[0].node, es[0].peer) then [(es[0].node, es[0].peer)] + rest else rest
  }

  lemma {:induction false} HearsayIsExchanges(m: Mesh, es: seq<Event>, heard: seq<set<nat>>)
    requires m.Sized() && |heard| == |m.subs|
    ensures Hearsay(m, es, heard) == HearAll(heard, InTimeExchanges(m, es))
    decreases |es|
  {
    if es == [] || !Possible(m, es[0]) {
    } else {
      HearsayIsExchanges(After(m, es[0]), es[1..], HearStep(m, es[0], heard));
      var rest := InTimeExchanges(After(m, es[0]), es[1..]);
      if es[0].Subscribe? && InTimeAt(m, es[0].node, es[0].peer) {
        assert ([(es[0].node, es[0].peer)] + rest)[1..] == rest;
      }
    }
  }

  /** Each node asks the one before it on the path; then each asks the one after it, from the end. */
  function Forth(path: seq<nat>): seq<(nat, nat)> {
    if |path| < 2 then [] else [(path[1], path[0])] + Forth(path[1..])
  }

  function Back(path: seq<nat>): seq<(nat, nat)> {
    if |path| < 2 then [] else Back(path[1..]) + [(path[0], path[1])]
  }

  lemma {:induction false} HearAllConcat(heard: seq<set<nat>>, a: seq<(nat, nat)>, b: seq<(nat, nat)>)
    ensures HearAll(heard, a + b) == HearAll(HearAll(heard, a), b)
    decreases |a|
  {
    if a == [] {
      assert a + b == b;
    } else {
      assert (a + b)[1..] == a[1..] + b;
      HearAllConcat(if a[0].0 < |heard| && a[0].1 < |heard| then Hear(heard, a[0].0, a[0].1) else heard, a[1..], b);
    }
  }

  lemma {:induction false} HearAllGrows(heard: seq<set<nat>>, xs: seq<(nat, nat)>, w: nat)
    requires w < |heard|
    ensures heard[w] <= HearAll(heard, xs)[w]
    decreases |xs|
  {
    if xs == [] {
    } else {
      HearAllGrows(if xs[0].0 < |heard| && xs[0].1 < |heard| then Hear(heard, xs[0].0, xs[0].1) else heard, xs[1..], w);
    }
  }

  /** At the end of the path all news have arrived. */
  lemma {:induction false} ForthGathers(heard: seq<set<nat>>, path: seq<nat>, x: nat)
    requires path != [] && forall i :: 0 <= i < |path| ==> path[i] < |heard|
    requires x in heard[path[0]] || (x in path && x in heard[x])
    ensures x in HearAll(heard, Forth(path))[path[|path| - 1]]
    decreases |path|
  {
    if |path| == 1 {
    } else {
      var rest := path[1..];
      var next := Hear(heard, path[1], path[0]);
      assert ([(path[1], path[0])] + Forth(rest))[1..] == Forth(rest);
      assert path == [path[0]] + rest;
      assert x < |heard| ==> heard[x] <= next[x];
      ForthGathers(next, rest, x);
    }
  }

  /** On the way back they come to every node. */
  lemma {:induction false} BackSpreads(heard: seq<set<nat>>, path: seq<nat>, x: nat)
    requires path != [] && forall i :: 0 <= i < |path| ==> path[i] < |heard|
    requires x in heard[path[|path| - 1]]
    ensures forall i :: 0 <= i < |path| ==> x in HearAll(heard, Back(path))[path[i]]
    decreases |path|
  {
    if |path| == 1 {
    } else {
      var rest := path[1..];
      BackSpreads(heard, rest, x);
      var h := HearAll(heard, Back(rest));
      HearAllConcat(heard, Back(rest), [(path[0], path[1])]);
      assert [(path[0], path[1])][1..] == [];
      forall i | 0 <= i < |path|
        ensures x in HearAll(heard, Back(path))[path[i]]
      {
        assert x in h[rest[0]];
        if i > 0 { assert x in h[rest[i - 1]]; }
      }
    }
  }

  /** A path through all nodes, there and back, informs everyone of everyone. */
  lemma ThereAndBack(n: nat, path: seq<nat>, x: nat, y: nat)
    requires (forall i :: 0 <= i < |path| ==> path[i] < n) && x in path && y in path
    ensures y in HearAll(Selves(n), Forth(path) + Back(path))[x]
  {
    var once := HearAll(Selves(n), Forth(path));
    ForthGathers(Selves(n), path, y);
    BackSpreads(once, path, y);
    HearAllConcat(Selves(n), Forth(path), Back(path));
  }

  /** In particular: the exchanges in time go once along a path through all nodes and back. */
  lemma PathGossipAgrees(n: nat, before: seq<Event>, m: Mesh, after: seq<Event>, end: Mesh, all: set<Update>,
                         path: seq<nat>, v: nat, w: nat)
    requires Run(Empty(n), before, m) && Run(m, after, end) && v < n && w < n
    requires Writes(before, all) && forall e :: e in after ==> !e.Write?
    requires |m.subs| == n && m.Sized()
    requires (forall i :: 0 <= i < |path| ==> path[i] < n) && forall x: nat :: x < n ==> x in path
    requires InTimeExchanges(m, after) == Forth(path) + Back(path)
    ensures |end.net.replicas| == n && SameTimes(end.net.replicas[v], end.net.replicas[w])
  {
    HearsayIsExchanges(m, after, Selves(n));
    forall x: nat, y: nat | x < n && y < n
      ensures y in Hearsay(m, after, Selves(n))[x]
    {
      ThereAndBack(n, path, x, y);
    }
    GossipAgrees(n, before, m, after, end, all, v, w);
  }
}
