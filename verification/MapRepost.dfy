/**
 A silent re-post (MapConverge.SilentRepost) and the subscribe exchange: the gap it leaves closes with the next exchange
 exactly when the subscriber's cursor is below the silent time, and otherwise stays.
 */
module MapRepost {
  import opened MapReplica
  import opened MapFlood
  import MapConverge
  import opened MapStore
  import opened MapCatchUp

  /** A version of the responder that the requester lacks comes with the next exchange exactly when it is above the
      cursor. */
  lemma ExchangeCloses(p: Peering, k: string, cursor': int)
    requires k in p.theirs && !HasAtLeast(p.mine, k, p.theirs[k].time)
    ensures HasAtLeast(Happen(p, Exchange(cursor')).mine, k, p.theirs[k].time) <==> p.theirs[k].time > p.cursor
  {
  }

  /** A silent re-post at `v` leaves its subscriber `w` behind; the next exchange brings the version exactly when it
      is above the cursor, and below it the subscriber has a gap that stays (MapCatchUp.MissedForGood). */
  lemma SilentGap(net: Net, subs: seq<set<nat>>, v: nat, w: nat, u: Update, cursor: int, cursor': int)
    requires |net.replicas| == |subs| && Graph(subs) && net.pushes == multiset{}
    requires v < |subs| && w in subs[v] && MapConverge.Covers(net, v, w, u.key)
    requires !Rejects(net.replicas[v], u) && !Changes(net.replicas[v], u)
    requires !MapConverge.Knows(net.replicas[w], u.key, u.entry)
    ensures var net' := WriteLocal(net, subs, v, u);
            var p := Peering(net'.replicas[w], net'.replicas[v], cursor);
            && !MapConverge.Covers(net', v, w, u.key)
            && (MapConverge.Knows(Happen(p, Exchange(cursor')).mine, u.key, u.entry) <==> u.entry.time > cursor)
            && (u.entry.time <= cursor && !HasAtLeast(net.replicas[w], u.key, u.entry.time) ==> Lacks(p, u.key))
  {
    MapConverge.SilentRepost(net, subs, v, w, u);
    assert WriteLocal(net, subs, v, u).replicas[w] == net.replicas[w];
  }

  // ---- two stores ----

  function X(time: int): Entry { Entry("x", false, time, "", "", "") }
  function Y(time: int): Entry { Entry("y", false, time, "", "", "") }
  function Z(time: int): Entry { Entry("z", false, time, "", "", "") }

  /** Store `b` re-posts "x", silently; `a` writes "y" in between, and its push is rejected by `b`. */
  method RepostAndWrite(a: Store, b: Store)
    requires a != b && a.Valid() && b.Valid()
    requires "k" in a.Table(ID) && a.Table(ID)["k"] == X(10) && "k" in b.Table(ID) && b.Table(ID)["k"] == X(10)
    modifies a, b
    ensures a.Valid() && b.Valid() && a.LastFromPeer(ID, "b") == old(a.LastFromPeer(ID, "b"))
    ensures a.Table(ID) == old(a.Table(ID))["k" := Y(20)] && b.Table(ID) == old(b.Table(ID))["k" := X(30)]
  {
    var reposted := b.ApplyEvent(ID, "k", X(30));
    assert !reposted;
    var written := a.ApplyEvent(ID, "k", Y(20));
    assert written;
    var taken := b.ApplyEvent(ID, "k", Y(20));
    assert !taken;
  }

  lemma FromEmpty(r: Replica, valid: MapEvent -> bool)
    requires (forall ev :: valid(ev)) && forall k :: k in r ==> r[k].time > 0
    ensures Join(map[], Offered(r, ID, 0, valid)) == r
  {
    AllOffered(r, 0, valid);
  }

  const PLAIN: Replica := map["k" := X(10)]
  const MARKED: Replica := map["k" := X(10), "j" := Z(40)]

  /** `a` has caught up with `b` from nothing. */
  method Subscribed(b: Store, top: string, valid: MapEvent -> bool) returns (a: Store)
    requires forall ev :: valid(ev)
    requires b.Valid() && top in b.Table(ID) && forall k :: k in b.Table(ID) ==> 0 < b.Table(ID)[k].time
    requires forall k :: k in b.Table(ID) ==> b.Table(ID)[k].time <= b.Table(ID)[top].time
    ensures fresh(a) && a.Valid() && a.Table(ID) == b.Table(ID)
    ensures a.LastFromPeer(ID, "b") == b.Table(ID)[top].time
  {
    a := new Store();
    FromEmpty(b.Table(ID), valid);
    var relay := SubscribeToPeer(a, b, ID, "b", valid);
    CursorAt(a.LastFromPeer(ID, "b"), 0, b.Table(ID), top);
  }

  lemma MendedJoin(valid: MapEvent -> bool)
    requires forall ev :: valid(ev)
    ensures Offered(PLAIN["k" := X(30)], ID, 10, valid) == map["k" := X(30)]
    ensures Join(PLAIN["k" := Y(20)], map["k" := X(30)]) == PLAIN["k" := X(30)]
  {
  }

  /** `b` holds these entries, and `a` has caught up with it. */
  method Prepared(r: Replica, top: string, valid: MapEvent -> bool) returns (a: Store, b: Store)
    requires forall ev :: valid(ev)
    requires (r == PLAIN && top == "k") || (r == MARKED && top == "j")
    ensures fresh(a) && fresh(b) && a != b && a.Valid() && b.Valid()
    ensures a.Table(ID) == r && b.Table(ID) == r && a.LastFromPeer(ID, "b") == r[top].time
  {
    b := new Store();
    var changed := b.ApplyEvent(ID, "k", X(10));
    if top == "j" { changed := b.ApplyEvent(ID, "j", Z(40)); }
    assert b.Table(ID) == r;
    a := Subscribed(b, top, valid);
  }

  /** After the re-post. */
  method Reposted(r: Replica, top: string, valid: MapEvent -> bool) returns (a: Store, b: Store)
    requires forall ev :: valid(ev)
    requires (r == PLAIN && top == "k") || (r == MARKED && top == "j")
    ensures fresh(a) && fresh(b) && a != b && a.Valid() && b.Valid()
    ensures a.Table(ID) == r["k" := Y(20)] && b.Table(ID) == r["k" := X(30)]
    ensures a.LastFromPeer(ID, "b") == r[top].time
  {
    a, b := Prepared(r, top, valid);
    RepostAndWrite(a, b);
  }

  /** One more exchange. */
  method Again(a: Store, b: Store, theirs: Replica, since: int, valid: MapEvent -> bool)
    requires a != b && a.Valid() && b.Valid() && b.Table(ID) == theirs && a.LastFromPeer(ID, "b") == since
    modifies a
    ensures a.Valid() && a.Table(ID) == Join(old(a.Table(ID)), Offered(theirs, ID, since, valid))
    ensures CursorFollows(a.LastFromPeer(ID, "b"), since, theirs)
  {
    var relay := SubscribeToPeer(a, b, ID, "b", valid);
  }

  /** The next exchange mends it: the cursor of `a` is 10. */
  method RepostIsMended(valid: MapEvent -> bool) returns (a: Store, b: Store)
    requires forall ev :: valid(ev)
    ensures a.Valid() && b.Valid() && a.Table(ID) == b.Table(ID) == map["k" := X(30)]
  {
    a, b := Reposted(PLAIN, "k", valid);
    Mend(a, b, valid);
  }

  method Mend(a: Store, b: Store, valid: MapEvent -> bool)
    requires forall ev :: valid(ev)
    requires a != b && a.Valid() && b.Valid() && a.LastFromPeer(ID, "b") == 10
    requires a.Table(ID) == PLAIN["k" := Y(20)] && b.Table(ID) == PLAIN["k" := X(30)]
    modifies a
    ensures a.Valid() && a.Table(ID) == map["k" := X(30)] == b.Table(ID)
  {
    MendedJoin(valid);
    assert PLAIN["k" := X(30)] == map["k" := X(30)];
    Again(a, b, PLAIN["k" := X(30)], 10, valid);
  }

  lemma StaysJoin(valid: MapEvent -> bool)
    ensures Offered(MARKED["k" := X(30)], ID, 40, valid) == map[]
    ensures forall r: Replica :: Join(r, map[]) == r
    ensures Lacks(Peering(MARKED["k" := Y(20)], MARKED["k" := X(30)], 40), "k")
  {
    assert (MARKED["k" := X(30)])["k"] == X(30) && (MARKED["k" := X(30)])["j"] == Z(40);
    assert (MARKED["k" := Y(20)])["k"] == Y(20);
  }

  /** It stays if the cursor is already past the silent time, here by another key of a node whose clock is ahead. */
  method RepostStays(valid: MapEvent -> bool) returns (a: Store, b: Store)
    requires forall ev :: valid(ev)
    ensures a.Valid() && b.Valid() && a.Table(ID)["k" := X(30)] == b.Table(ID)
    ensures Lacks(Peering(a.Table(ID), b.Table(ID), a.LastFromPeer(ID, "b")), "k")
  {
    a, b := Reposted(MARKED, "j", valid);
    StaysJoin(valid);
    Again(a, b, MARKED["k" := X(30)], 40, valid);
    CursorAt(a.LastFromPeer(ID, "b"), 40, MARKED["k" := X(30)], "j");
  }
}
