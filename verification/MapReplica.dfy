/** One replicated map as a value: the last-write-wins rule of realm/features/maps/store.go and what it yields. */
module MapReplica {
  import opened Basics

  datatype Entry = Entry(value: string, deleted: bool, time: int, origin: string, nonce: string, signature: string)

  /** An entry addressed to a key. */
  datatype Update = Update(key: string, entry: Entry)

  type Replica = map<string, Entry>

  predicate SameContent(a: Entry, b: Entry) { a.value == b.value && a.deleted == b.deleted }

  /** Only strictly older entries are rejected. */
  predicate Rejects(r: Replica, u: Update) { u.key in r && r[u.key].time > u.entry.time }

  predicate HasAtLeast(r: Replica, k: string, time: int) { k in r && r[k].time >= time }

  function Merge(r: Replica, u: Update): Replica {
    if Rejects(r, u) then r else r[u.key := u.entry]
  }

  /** What `ApplyEvent` reports, and what decides whether an event is relayed: timestamps do not count. */
  predicate Changes(r: Replica, u: Update) {
    !Rejects(r, u) && (u.key !in r || !SameContent(r[u.key], u.entry))
  }

  /** A re-post of what a key holds, dead or alive, is no change: time, origin, nonce and signature do not count. */
  lemma RepostIsNoChange(r: Replica, k: string, time: int, origin: string, nonce: string, signature: string)
    requires k in r
    ensures !Changes(r, Update(k, r[k].(time := time, origin := origin, nonce := nonce, signature := signature)))
  {
  }

  /** And only such a re-post is none: an accepted update that is no change leaves value and deletion of its key. */
  lemma NoChangeKeepsContent(r: Replica, u: Update)
    requires !Rejects(r, u) && !Changes(r, u)
    ensures u.key in r && Merge(r, u)[u.key].time >= r[u.key].time
    ensures Merge(r, u)[u.key].value == r[u.key].value && Merge(r, u)[u.key].deleted == r[u.key].deleted
  {
  }

  /** What is reported as a change has changed the value or the deletion of its key. */
  lemma ChangeChangesContent(r: Replica, u: Update)
    requires Changes(r, u)
    ensures Merge(r, u)[u.key] == u.entry
    ensures u.key in r ==> r[u.key].value != u.entry.value || r[u.key].deleted != u.entry.deleted
  {
  }

  function MergeAll(r: Replica, us: seq<Update>): Replica
    decreases |us|
  {
    if us == [] then r else MergeAll(Merge(r, us[0]), us[1..])
  }

  lemma {:induction false} MergeAllSnoc(r: Replica, us: seq<Update>, u: Update)
    ensures MergeAll(r, us + [u]) == Merge(MergeAll(r, us), u)
    decreases |us|
  {
    if us == [] {
      assert us + [u] == [u];
      assert [u][1..] == [];
    } else {
      assert (us + [u])[1..] == us[1..] + [u];
      MergeAllSnoc(Merge(r, us[0]), us[1..], u);
    }
  }

  // ---- last write wins ----

  /** `us[i]` has the greatest time of its key, and no later update of that key has the same. */
  ghost predicate LastOfNewest(us: seq<Update>, i: nat) {
    && i < |us|
    && (forall j :: 0 <= j < |us| && us[j].key == us[i].key ==> us[j].entry.time <= us[i].entry.time)
    && (forall j :: i < j < |us| && us[j].key == us[i].key ==> us[j].entry.time < us[i].entry.time)
  }

  ghost predicate Wins(us: seq<Update>, k: string, e: Entry) {
    exists i: nat :: LastOfNewest(us, i) && us[i].key == k && us[i].entry == e
  }

  ghost predicate Written(us: seq<Update>, k: string) { exists i :: 0 <= i < |us| && us[i].key == k }

  lemma WinsStays(us: seq<Update>, u: Update, k: string, e: Entry)
    requires Wins(us, k, e) && (u.key != k || u.entry.time < e.time)
    ensures Wins(us + [u], k, e)
  {
    var i: nat :| LastOfNewest(us, i) && us[i].key == k && us[i].entry == e;
    assert LastOfNewest(us + [u], i);
  }

  lemma WinsNow(us: seq<Update>, u: Update, old_: Entry)
    requires Written(us, u.key) ==> Wins(us, u.key, old_) && old_.time <= u.entry.time
    ensures Wins(us + [u], u.key, u.entry)
  {
    if Written(us, u.key) {
      var i: nat :| LastOfNewest(us, i) && us[i].key == u.key && us[i].entry == old_;
      assert forall j :: 0 <= j < |us| && us[j].key == u.key ==> us[j].entry.time <= us[i].entry.time;
    }
    assert LastOfNewest(us + [u], |us|);
  }

  /** The keys of the map are those ever written, and each holds the last of its newest updates. */
  lemma {:induction false} LastWriteWins(us: seq<Update>)
    ensures forall k :: k in MergeAll(map[], us) <==> Written(us, k)
    ensures forall k :: k in MergeAll(map[], us) ==> Wins(us, k, MergeAll(map[], us)[k])
    decreases |us|
  {
    if us == [] {
    } else {
      var init, u := us[..|us| - 1], us[|us| - 1];
      assert us == init + [u];
      MergeAllSnoc(map[], init, u);
      LastWriteWins(init);
      var r := MergeAll(map[], init);
      forall k
        ensures k in Merge(r, u) <==> Written(us, k)
        ensures k in Merge(r, u) ==> Wins(us, k, Merge(r, u)[k])
      {
        WrittenSnoc(init, u, k);
        if k == u.key && !Rejects(r, u) {
          WinsNow(init, u, if k in r then r[k] else u.entry);
        } else if k in r {
          WinsStays(init, u, k, r[k]);
        }
      }
    }
  }

  lemma WrittenSnoc(us: seq<Update>, u: Update, k: string)
    ensures Written(us + [u], k) <==> Written(us, k) || u.key == k
  {
    if Written(us, k) {
      var i :| 0 <= i < |us| && us[i].key == k;
      assert (us + [u])[i].key == k;
    }
    if u.key == k { assert (us + [u])[|us|].key == k; }
  }

  /** Only one entry can win a key, so the two facts above determine the map. */
  lemma OneWinner(us: seq<Update>, k: string, d: Entry, e: Entry)
    requires Wins(us, k, d) && Wins(us, k, e)
    ensures d == e
  {
  }

  // ---- order and duplication do not matter once ties agree ----

  /** Updates of one key at one time carry the same entry. */
  ghost predicate TiesAgree(s: set<Update>) {
    forall a, b :: a in s && b in s && a.key == b.key && a.entry.time == b.entry.time ==> a == b
  }

  ghost function Elements(us: seq<Update>): set<Update> { set u | u in us }

  lemma WinnerMoves(a: seq<Update>, b: seq<Update>, k: string, d: Entry, e: Entry)
    requires Elements(a) == Elements(b) && TiesAgree(Elements(a))
    requires Wins(a, k, d) && Wins(b, k, e)
    ensures d == e
  {
    var i: nat :| LastOfNewest(a, i) && a[i].key == k && a[i].entry == d;
    var j: nat :| LastOfNewest(b, j) && b[j].key == k && b[j].entry == e;
    assert a[i] in Elements(b) && b[j] in Elements(a);
    assert a[i] in b && b[j] in a;
    assert a[i].entry.time == b[j].entry.time;
  }

  lemma WrittenMoves(a: seq<Update>, b: seq<Update>, k: string)
    requires Elements(a) == Elements(b) && Written(a, k)
    ensures Written(b, k)
  {
    var i :| 0 <= i < |a| && a[i].key == k;
    assert a[i] in Elements(b);
    assert a[i] in b;
  }

  lemma SameAt(a: seq<Update>, b: seq<Update>, k: string)
    requires Elements(a) == Elements(b) && TiesAgree(Elements(a))
    requires k in MergeAll(map[], a)
    ensures k in MergeAll(map[], b) && MergeAll(map[], a)[k] == MergeAll(map[], b)[k]
  {
    LastWriteWins(a);
    LastWriteWins(b);
    WrittenMoves(a, b, k);
    WinnerMoves(a, b, k, MergeAll(map[], a)[k], MergeAll(map[], b)[k]);
  }

  /** Two logs with the same updates, in whatever order and however often, merge to the same map. */
  lemma MergeIgnoresOrder(a: seq<Update>, b: seq<Update>)
    requires Elements(a) == Elements(b) && TiesAgree(Elements(a))
    ensures MergeAll(map[], a) == MergeAll(map[], b)
  {
    var ra, rb := MergeAll(map[], a), MergeAll(map[], b);
    forall k | k in ra ensures k in rb && ra[k] == rb[k] { SameAt(a, b, k); }
    forall k | k in rb ensures k in ra { SameAt(b, a, k); }
  }

  /** The newer entry of each key; a tie goes to `b`, as for an event applied later. */
  function Join(a: Replica, b: Replica): Replica {
    map k | k in a.Keys + b.Keys ::
      if k !in b || (k in a && a[k].time > b[k].time) then a[k] else b[k]
  }

  /** Merging logs is joining their maps, so replicas that exchange logs compute a join. */
  lemma {:induction false} MergeIsJoin(a: seq<Update>, b: seq<Update>)
    ensures MergeAll(map[], a + b) == Join(MergeAll(map[], a), MergeAll(map[], b))
    decreases |b|
  {
    if b == [] {
      assert a + b == a;
    } else {
      var n := |b| - 1;
      assert b == b[..n] + [b[n]];
      assert a + b == (a + b[..n]) + [b[n]];
      MergeAllSnoc(map[], a + b[..n], b[n]);
      MergeAllSnoc(map[], b[..n], b[n]);
      MergeIsJoin(a, b[..n]);
      JoinMerge(MergeAll(map[], a), MergeAll(map[], b[..n]), b[n]);
    }
  }

  lemma JoinMerge(a: Replica, b: Replica, u: Update)
    ensures Merge(Join(a, b), u) == Join(a, Merge(b, u))
  {
    forall k | k in a.Keys + b.Keys + {u.key}
      ensures k in Merge(Join(a, b), u) && k in Join(a, Merge(b, u))
              && Merge(Join(a, b), u)[k] == Join(a, Merge(b, u))[k]
    {
    }
    assert Merge(Join(a, b), u).Keys == Join(a, Merge(b, u)).Keys;
  }

  /** Entries of one key and time are equal. */
  ghost predicate Compatible(a: Replica, b: Replica) {
    forall k :: k in a && k in b && a[k].time == b[k].time ==> a[k] == b[k]
  }

  lemma JoinAssociates(a: Replica, b: Replica, c: Replica)
    ensures Join(a, Join(b, c)) == Join(Join(a, b), c)
  {
    assert Join(a, Join(b, c)).Keys == Join(Join(a, b), c).Keys;
  }

  /** Joining is idempotent always, and commutative exactly when ties agree. */
  lemma JoinCommutes(a: Replica, b: Replica)
    ensures Join(a, a) == a
    ensures Join(a, b) == Join(b, a) <==> Compatible(a, b)
  {
    assert Join(a, b).Keys == Join(b, a).Keys;
    if Join(a, b) == Join(b, a) {
      forall k | k in a && k in b && a[k].time == b[k].time
        ensures a[k] == b[k]
      {
        assert Join(a, b)[k] == b[k] && Join(b, a)[k] == a[k];
      }
    }
  }

  // ---- change events ----

  datatype Change =
    | Added(key: string, new_: Entry)
    | Updated(key: string, old_: Entry, new_: Entry)
    | Deleted(key: string, old_: Entry)

  /** The notification for an update, if listeners get one. */
  function ChangeOf(r: Replica, u: Update): Option<Change> {
    var wasLive := u.key in r && !r[u.key].deleted;
    var isLive := !u.entry.deleted;
    if !Changes(r, u) || !(wasLive || isLive) then None
    else if wasLive && !isLive then Some(Deleted(u.key, r[u.key]))
    else if !wasLive then Some(Added(u.key, u.entry))
    else Some(Updated(u.key, r[u.key], u.entry))
  }

  /** The live keys and their values, as `GetMap` shows them. */
  function Live(r: Replica): map<string, string> {
    map k | k in r && !r[k].deleted :: r[k].value
  }

  /** A listener's own copy of the map after a notification. */
  function Follow(view: map<string, string>, c: Change): map<string, string> {
    match c
    case Added(k, e) => view[k := e.value]
    case Updated(k, _, e) => view[k := e.value]
    case Deleted(k, _) => view - {k}
  }

  /** A notification tells the truth about the copy it is applied to. */
  predicate Fits(view: map<string, string>, c: Change) {
    match c
    case Added(k, e) => k !in view && !e.deleted
    case Updated(k, o, e) => k in view && view[k] == o.value && !e.deleted && e.value != o.value
    case Deleted(k, o) => k in view && view[k] == o.value
  }

  /** Following the notifications reproduces the live map, through tombstones, re-creation and silent re-posts. */
  lemma ChangeMirrors(r: Replica, u: Update)
    ensures match ChangeOf(r, u)
            case None => Live(Merge(r, u)) == Live(r)
            case Some(c) => Fits(Live(r), c) && Live(Merge(r, u)) == Follow(Live(r), c)
  {
  }

  function FollowAll(view: map<string, string>, cs: seq<Change>): map<string, string>
    decreases |cs|
  {
    if cs == [] then view else FollowAll(Follow(view, cs[0]), cs[1..])
  }

  function ChangesOf(r: Replica, us: seq<Update>): seq<Change>
    decreases |us|
  {
    if us == [] then []
    else (match ChangeOf(r, us[0]) case None => [] case Some(c) => [c]) + ChangesOf(Merge(r, us[0]), us[1..])
  }

  lemma {:induction false} ChangesMirror(r: Replica, us: seq<Update>)
    ensures FollowAll(Live(r), ChangesOf(r, us)) == Live(MergeAll(r, us))
    decreases |us|
  {
    if us == [] {
    } else {
      ChangeMirrors(r, us[0]);
      ChangesMirror(Merge(r, us[0]), us[1..]);
      match ChangeOf(r, us[0]) {
        case None => assert [] + ChangesOf(Merge(r, us[0]), us[1..]) == ChangesOf(Merge(r, us[0]), us[1..]);
        case Some(c) => assert ([c] + ChangesOf(Merge(r, us[0]), us[1..]))[1..] == ChangesOf(Merge(r, us[0]), us[1..]);
      }
    }
  }
}
