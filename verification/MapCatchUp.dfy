/**
 Catching up with a peer: the subscribe exchange of realm/features/maps/feature.go and its cursor. `valid` tells which
 events of a response pass verification and are stored without an error of the database; for an honest responder only
 the latter can fail.
 */
module MapCatchUp {
  import opened MapReplica
  import opened MapStore

  /** The entries of `r` newer than the cursor whose event is valid. */
  function Offered(r: Replica, id: MapId, since: int, valid: MapEvent -> bool): Replica {
    map k | k in r && r[k].time > since && valid(MapEvent(id, k, r[k])) :: r[k]
  }

  function Verified(evs: seq<MapEvent>, valid: MapEvent -> bool): seq<Update>
    decreases |evs|
  {
    if evs == [] then []
    else
      var ev := evs[|evs| - 1];
      Verified(evs[..|evs| - 1], valid) + if valid(ev) then [Update(ev.key, ev.entry)] else []
  }

  lemma {:induction false} VerifiedMembers(evs: seq<MapEvent>, valid: MapEvent -> bool, u: Update)
    ensures u in Verified(evs, valid) <==> exists ev :: ev in evs && valid(ev) && u == Update(ev.key, ev.entry)
    decreases |evs|
  {
    if evs == [] {
    } else {
      var init, ev := evs[..|evs| - 1], evs[|evs| - 1];
      assert evs == init + [ev];
      VerifiedMembers(init, valid, u);
      assert ev in evs;
    }
  }

  /** Merging a log into a map is joining with what the log holds. */
  lemma {:induction false} MergeAllIsJoin(r: Replica, us: seq<Update>)
    ensures MergeAll(r, us) == Join(r, MergeAll(map[], us))
    decreases |us|
  {
    if us == [] {
    } else {
      var init, u := us[..|us| - 1], us[|us| - 1];
      assert us == init + [u];
      MergeAllSnoc(r, init, u);
      MergeAllSnoc(map[], init, u);
      MergeAllIsJoin(r, init);
      JoinMerge(r, MergeAll(map[], init), u);
    }
  }

  lemma VerifiedHolds(evs: seq<MapEvent>, id: MapId, r: Replica, since: int, valid: MapEvent -> bool)
    requires EventsOf(evs, id, r, since)
    ensures MergeAll(map[], Verified(evs, valid)) == Offered(r, id, since, valid)
  {
    var us := Verified(evs, valid);
    var m := MergeAll(map[], us);
    EventsOfMembers(evs, id, r, since);
    LastWriteWins(us);
    forall k | k in m
      ensures k in Offered(r, id, since, valid) && m[k] == r[k]
    {
      var i: nat :| LastOfNewest(us, i) && us[i].key == k && us[i].entry == m[k];
      VerifiedMembers(evs, valid, us[i]);
      var ev :| ev in evs && valid(ev) && us[i] == Update(ev.key, ev.entry);
      assert ev in Logged(id, r, since);
    }
    forall k | k in Offered(r, id, since, valid)
      ensures k in m
    {
      var ev := MapEvent(id, k, r[k]);
      assert ev in Logged(id, r, since);
      VerifiedMembers(evs, valid, Update(k, r[k]));
      var i :| 0 <= i < |us| && us[i] == Update(k, r[k]);
      assert Written(us, k);
    }
  }

  /** The newest time among `evs`, but at least `time`. */
  function Latest(evs: seq<MapEvent>, time: int): (t: int)
    ensures t >= time && (t == time || exists i :: 0 <= i < |evs| && evs[i].entry.time == t)
    ensures forall i :: 0 <= i < |evs| ==> evs[i].entry.time <= t
    decreases |evs|
  {
    if evs == [] then time
    else
      var n := |evs| - 1;
      var t := Latest(evs[..n], time);
      if evs[n].entry.time > t then evs[n].entry.time else t
  }

  /** The cursor moved past everything the responder had logged after it, and no further. */
  ghost predicate CursorFollows(cursor: int, before: int, r: Replica) {
    && cursor >= before
    && (forall k :: k in r && r[k].time > before ==> r[k].time <= cursor)
    && (cursor > before ==> exists k :: k in r && r[k].time == cursor)
  }

  /** Pushed on are exactly the events that verify and change the map. */
  ghost predicate RelaysChanges(relay: seq<MapEvent>, table: Replica, id: MapId, r: Replica, since: int,
                                valid: MapEvent -> bool) {
    forall ev :: ev in relay <==> ev in Logged(id, r, since) && valid(ev) && Changes(table, Update(ev.key, ev.entry))
  }

  /** No other map was touched. */
  ghost predicate SameElsewhere(now: map<MapId, Replica>, before: map<MapId, Replica>, id: MapId) {
    forall other :: other != id ==> Get(now, other) == Get(before, other)
  }

  /** `subscribeToPeer` for one store, with the responder's handler: `relay` are the events pushed on to subscribers.
      The cursor moves past every event received, verified or not. */
  method SubscribeToPeer(mine: Store, theirs: Store, id: MapId, peer: string, valid: MapEvent -> bool)
      returns (relay: seq<MapEvent>)
    requires mine != theirs && mine.Valid() && theirs.Valid()
    modifies mine
    ensures mine.Valid()
    ensures mine.Table(id)
            == Join(old(mine.Table(id)), Offered(theirs.Table(id), id, old(mine.LastFromPeer(id, peer)), valid))
    ensures CursorFollows(mine.LastFromPeer(id, peer), old(mine.LastFromPeer(id, peer)), theirs.Table(id))
    ensures RelaysChanges(relay, old(mine.Table(id)), id, theirs.Table(id), old(mine.LastFromPeer(id, peer)), valid)
    ensures SameElsewhere(mine.state, old(mine.state), id)
  {
    var since := mine.LastFromPeer(id, peer);
    var evs := theirs.EventsSince(id, since);
    ResponseYields(mine.Table(id), evs, id, theirs.Table(id), since, valid);
    CursorCovers(evs, id, theirs.Table(id), since);
    var newest;
    newest, relay := ApplyAll(mine, id, evs, valid);
    mine.RecordFromPeer(id, peer, newest);
  }

  /** What applying a whole response does to the map, and what it relays. */
  lemma ResponseYields(table: Replica, evs: seq<MapEvent>, id: MapId, r: Replica, since: int, valid: MapEvent -> bool)
    requires EventsOf(evs, id, r, since)
    ensures MergeAll(table, Verified(evs, valid)) == Join(table, Offered(r, id, since, valid))
    ensures RelaysChanges(Relayed(table, evs, valid), table, id, r, since, valid)
  {
    VerifiedHolds(evs, id, r, since, valid);
    MergeAllIsJoin(table, Verified(evs, valid));
    EventsOfMembers(evs, id, r, since);
    KeysDistinct(evs, id, r, since);
    RelayedHolds(table, evs, valid);
  }

  /** The events of a response that changed something when they were applied, in this order. */
  function Relayed(r: Replica, evs: seq<MapEvent>, valid: MapEvent -> bool): seq<MapEvent>
    decreases |evs|
  {
    if evs == [] then []
    else
      var init, ev := evs[..|evs| - 1], evs[|evs| - 1];
      Relayed(r, init, valid)
      + if valid(ev) && Changes(MergeAll(r, Verified(init, valid)), Update(ev.key, ev.entry)) then [ev] else []
  }

  lemma {:induction false} Untouched(r: Replica, us: seq<Update>, k: string)
    requires forall u :: u in us ==> u.key != k
    ensures k in MergeAll(r, us) <==> k in r
    ensures k in r ==> MergeAll(r, us)[k] == r[k]
    decreases |us|
  {
    if us == [] {
    } else {
      Untouched(Merge(r, us[0]), us[1..], k);
    }
  }

  predicate DistinctKeys(evs: seq<MapEvent>) {
    forall i, j :: 0 <= i < j < |evs| ==> evs[i].key != evs[j].key
  }

  /** With one event for each key, what is relayed depends on the map before the exchange only. */
  lemma {:induction false} RelayedHolds(r: Replica, evs: seq<MapEvent>, valid: MapEvent -> bool)
    requires DistinctKeys(evs)
    ensures forall ev :: ev in Relayed(r, evs, valid) <==>
              ev in evs && valid(ev) && Changes(r, Update(ev.key, ev.entry))
    decreases |evs|
  {
    if evs == [] {
    } else {
      var init, ev := evs[..|evs| - 1], evs[|evs| - 1];
      assert evs == init + [ev];
      RelayedHolds(r, init, valid);
      forall u | u in Verified(init, valid)
        ensures u.key != ev.key
      {
        VerifiedMembers(init, valid, u);
      }
      Untouched(r, Verified(init, valid), ev.key);
    }
  }

  lemma KeysDistinct(evs: seq<MapEvent>, id: MapId, r: Replica, since: int)
    requires EventsOf(evs, id, r, since)
    ensures DistinctKeys(evs)
  {
    EventsOfMembers(evs, id, r, since);
    forall i, j | 0 <= i < j < |evs|
      ensures evs[i].key != evs[j].key
    {
      var e := evs[j];
      assert evs == evs[..j] + ([e] + evs[j + 1..]);
      assert multiset(evs) == multiset(evs[..j]) + (multiset{e} + multiset(evs[j + 1..]));
      assert evs[i] in Logged(id, r, since) && e in Logged(id, r, since);
      assert evs[i] in multiset(evs[..j]) by { assert evs[..j][i] == evs[i]; }
      assert multiset(evs)[e] == 1;
    }
  }

  /** The loop over the events of a response. */
  method ApplyAll(mine: Store, id: MapId, evs: seq<MapEvent>, valid: MapEvent -> bool)
      returns (newest: int, relay: seq<MapEvent>)
    requires mine.Valid()
    modifies mine`known, mine`state, mine`log, mine`notified
    ensures mine.Valid() && mine.Table(id) == MergeAll(old(mine.Table(id)), Verified(evs, valid))
    ensures newest == Latest(evs, 0)
    ensures relay == Relayed(old(mine.Table(id)), evs, valid)
    ensures SameElsewhere(mine.state, old(mine.state), id)
  {
    newest, relay := 0, [];
    for i := 0 to |evs|
      invariant mine.Valid()
      invariant mine.Table(id) == MergeAll(old(mine.Table(id)), Verified(evs[..i], valid))
      invariant newest == Latest(evs[..i], 0)
      invariant relay == Relayed(old(mine.Table(id)), evs[..i], valid)
      invariant SameElsewhere(mine.state, old(mine.state), id)
    {
      var ev := evs[i];
      assert evs[..i + 1][..i] == evs[..i];
      MergeAllSnoc(old(mine.Table(id)), Verified(evs[..i], valid), Update(ev.key, ev.entry));
      var changed := ApplyVerified(mine, id, ev, valid);
      if changed {
        relay := relay + [ev];
      }
      if ev.entry.time > newest {
        newest := ev.entry.time;
      }
      assert Verified(evs[..i + 1], valid)
          == Verified(evs[..i], valid) + if valid(ev) then [Update(ev.key, ev.entry)] else [];
      assert Verified(evs[..i], valid) + [] == Verified(evs[..i], valid);
    }
    assert evs[..|evs|] == evs;
  }

  method ApplyVerified(mine: Store, id: MapId, ev: MapEvent, valid: MapEvent -> bool) returns (changed: bool)
    requires mine.Valid()
    modifies mine`known, mine`state, mine`log, mine`notified
    ensures mine.Valid()
    ensures mine.Table(id)
            == if valid(ev) then Merge(old(mine.Table(id)), Update(ev.key, ev.entry)) else old(mine.Table(id))
    ensures changed <==> valid(ev) && Changes(old(mine.Table(id)), Update(ev.key, ev.entry))
    ensures SameElsewhere(mine.state, old(mine.state), id)
  {
    if !valid(ev) {
      return false;
    }
    changed := mine.ApplyEvent(id, ev.key, ev.entry);
    forall other | other != id
      ensures Get(mine.state, other) == Get(old(mine.state), other)
    {
      assert mine.Table(other) == old(mine.Table(other));
    }
  }

  lemma CursorCovers(evs: seq<MapEvent>, id: MapId, r: Replica, since: int)
    requires EventsOf(evs, id, r, since) && since >= 0
    ensures CursorFollows(if Latest(evs, 0) <= since then since else Latest(evs, 0), since, r)
  {
    EventsOfMembers(evs, id, r, since);
    var newest := Latest(evs, 0);
    forall k | k in r && r[k].time > since
      ensures r[k].time <= newest
    {
      assert MapEvent(id, k, r[k]) in evs;
    }
    if newest > since {
      var i :| 0 <= i < |evs| && evs[i].entry.time == newest;
      assert evs[i] in Logged(id, r, since);
    }
  }

  // ---- what the requester has after an exchange ----

  /** Of what the responder logged after the cursor, the requester now has every version that is valid, and no other
      that it lacked; and it loses nothing. */
  lemma ExchangeDominates(mine: Replica, theirs: Replica, id: MapId, since: int, valid: MapEvent -> bool, k: string)
    requires k in theirs && theirs[k].time > since
    ensures HasAtLeast(Join(mine, Offered(theirs, id, since, valid)), k, theirs[k].time)
            <==> valid(MapEvent(id, k, theirs[k])) || HasAtLeast(mine, k, theirs[k].time)
  {
  }

  /** The requester has everything the responder logged up to the cursor. */
  ghost predicate CaughtUp(mine: Replica, theirs: Replica, cursor: int) {
    forall k :: k in theirs && theirs[k].time <= cursor ==> HasAtLeast(mine, k, theirs[k].time)
  }

  /** A new event at the responder leaves a gap below the cursor exactly when it is accepted there, no newer than the
      cursor, and newer than what the requester has. */
  lemma LateEventIsMissed(mine: Replica, theirs: Replica, cursor: int, u: Update)
    requires CaughtUp(mine, theirs, cursor)
    ensures CaughtUp(mine, Merge(theirs, u), cursor) <==>
              Rejects(theirs, u) || u.entry.time > cursor || HasAtLeast(mine, u.key, u.entry.time)
  {
    if !Rejects(theirs, u) && u.entry.time <= cursor && !HasAtLeast(mine, u.key, u.entry.time) {
      assert Merge(theirs, u)[u.key] == u.entry;
    }
  }

  datatype Happening = Mine(update: Update) | Theirs(update: Update) | Exchange(cursor: int)

  datatype Peering = Peering(mine: Replica, theirs: Replica, cursor: int)

  /** Every new event of the responder is either rejected there, newer than the cursor, or known to the requester; an
      exchange, of valid events, leaves a cursor no event is above. */
  ghost predicate InTime(p: Peering, h: Happening) {
    match h
    case Mine(_) => true
    case Theirs(u) => Rejects(p.theirs, u) || u.entry.time > p.cursor || HasAtLeast(p.mine, u.key, u.entry.time)
    case Exchange(c) => c >= p.cursor && forall k :: k in p.theirs ==> p.theirs[k].time <= c
  }

  ghost function Happen(p: Peering, h: Happening): Peering {
    match h
    case Mine(u) => p.(mine := Merge(p.mine, u))
    case Theirs(u) => p.(theirs := Merge(p.theirs, u))
    case Exchange(c) => Peering(Join(p.mine, Newer(p.theirs, p.cursor)), p.theirs, c)
  }

  ghost predicate AllInTime(p: Peering, hs: seq<Happening>)
    decreases |hs|
  {
    hs == [] || (InTime(p, hs[0]) && AllInTime(Happen(p, hs[0]), hs[1..]))
  }

  ghost function HappenAll(p: Peering, hs: seq<Happening>): Peering
    decreases |hs|
  {
    if hs == [] then p else HappenAll(Happen(p, hs[0]), hs[1..])
  }

  /** The events new at the peer. */
  function NewAtPeer(hs: seq<Happening>): seq<Update> {
    if hs == [] then []
    else (if hs[0].Theirs? then [hs[0].update] else []) + NewAtPeer(hs[1..])
  }

  /** Over a history the peer merges its own events and no others. */
  lemma {:induction false} PeerMergesItsOwn(p: Peering, hs: seq<Happening>)
    ensures HappenAll(p, hs).theirs == MergeAll(p.theirs, NewAtPeer(hs))
    decreases |hs|
  {
    if hs == [] {
    } else {
      PeerMergesItsOwn(Happen(p, hs[0]), hs[1..]);
      var rest := NewAtPeer(hs[1..]);
      if hs[0].Theirs? {
        assert ([hs[0].update] + rest)[1..] == rest;
      } else {
        assert [] + rest == rest;
      }
    }
  }

  lemma HappenKeeps(p: Peering, h: Happening)
    requires CaughtUp(p.mine, p.theirs, p.cursor) && InTime(p, h)
    ensures CaughtUp(Happen(p, h).mine, Happen(p, h).theirs, Happen(p, h).cursor)
    ensures h.Exchange? ==> forall k :: k in p.theirs ==> HasAtLeast(Happen(p, h).mine, k, p.theirs[k].time)
  {
    match h {
      case Mine(u) =>
      case Theirs(u) => LateEventIsMissed(p.mine, p.theirs, p.cursor, u);
      case Exchange(c) =>
        forall k | k in p.theirs
          ensures HasAtLeast(Happen(p, h).mine, k, p.theirs[k].time)
        {
        }
    }
  }

  /** Over any such history that ends with an exchange, the requester has every key at least as new as the responder. */
  lemma {:induction false} CatchesUp(p: Peering, hs: seq<Happening>, c: int)
    requires CaughtUp(p.mine, p.theirs, p.cursor) && AllInTime(p, hs + [Exchange(c)])
    ensures var q := HappenAll(p, hs + [Exchange(c)]);
            forall k :: k in q.theirs ==> HasAtLeast(q.mine, k, q.theirs[k].time)
    decreases |hs|
  {
    if hs == [] {
      assert hs + [Exchange(c)] == [Exchange(c)] && [Exchange(c)][1..] == [];
      HappenKeeps(p, Exchange(c));
      assert HappenAll(p, [Exchange(c)]) == HappenAll(Happen(p, Exchange(c)), [Exchange(c)][1..])
          == Happen(p, Exchange(c));
    } else {
      assert (hs + [Exchange(c)])[1..] == hs[1..] + [Exchange(c)];
      HappenKeeps(p, hs[0]);
      assert HappenAll(p, hs + [Exchange(c)]) == HappenAll(Happen(p, hs[0]), hs[1..] + [Exchange(c)]);
      CatchesUp(Happen(p, hs[0]), hs[1..], c);
    }
  }

  // ---- the exchange of the code is one of these happenings ----

  /** What the contract of SubscribeToPeer says, when every event is valid, is an exchange in time. */
  lemma SubscribeIsExchange(before: Peering, id: MapId, valid: MapEvent -> bool, mine': Replica, cursor': int)
    requires forall ev :: valid(ev)
    requires mine' == Join(before.mine, Offered(before.theirs, id, before.cursor, valid))
    requires CursorFollows(cursor', before.cursor, before.theirs)
    ensures InTime(before, Exchange(cursor'))
    ensures Happen(before, Exchange(cursor')) == Peering(mine', before.theirs, cursor')
  {
    assert Offered(before.theirs, id, before.cursor, valid) == Newer(before.theirs, before.cursor);
  }

  /** A new requester, whose cursor is zero, has no gap exactly when all of the responder's times are positive. */
  lemma NewIsCaughtUp(theirs: Replica)
    ensures CaughtUp(map[], theirs, 0) <==> forall k :: k in theirs ==> theirs[k].time > 0
  {
    if CaughtUp(map[], theirs, 0) {
      forall k | k in theirs
        ensures theirs[k].time > 0
      {
        assert !HasAtLeast(map[], k, theirs[k].time);
      }
    }
  }

  // ---- a gap below the cursor stays ----

  /** The requester lacks the responder's version of a key, and its cursor is past it. */
  ghost predicate Lacks(p: Peering, k: string) {
    k in p.theirs && p.theirs[k].time <= p.cursor && !HasAtLeast(p.mine, k, p.theirs[k].time)
  }

  /** Cursors never move back, and the responder's version of `k` stays the same. */
  ghost predicate Settled(p: Peering, hs: seq<Happening>, k: string)
    decreases |hs|
  {
    hs == [] || (
      && (hs[0].Exchange? ==> hs[0].cursor >= p.cursor)
      && (hs[0].Theirs? ==> hs[0].update.key != k || Rejects(p.theirs, hs[0].update))
      && Settled(Happen(p, hs[0]), hs[1..], k))
  }

  /** The requester gets the version, or a newer one, from somewhere else: by a push, from another peer, or by its
      own write. */
  ghost predicate Brought(hs: seq<Happening>, k: string, time: int) {
    exists h :: h in hs && h.Mine? && h.update.key == k && h.update.entry.time >= time
  }

  lemma LackStep(p: Peering, h: Happening, k: string)
    requires k in p.theirs && p.theirs[k].time <= p.cursor && Settled(p, [h], k)
    ensures var q := Happen(p, h);
            && k in q.theirs && q.theirs[k] == p.theirs[k] && q.theirs[k].time <= q.cursor
            && (HasAtLeast(q.mine, k, p.theirs[k].time)
                <==> HasAtLeast(p.mine, k, p.theirs[k].time)
                     || (h.Mine? && h.update.key == k && h.update.entry.time >= p.theirs[k].time))
  {
    assert [h][0] == h;
  }

  lemma {:induction false} LackRun(p: Peering, hs: seq<Happening>, k: string)
    requires k in p.theirs && p.theirs[k].time <= p.cursor && Settled(p, hs, k)
    ensures var q := HappenAll(p, hs);
            && k in q.theirs && q.theirs[k] == p.theirs[k] && q.theirs[k].time <= q.cursor
            && (HasAtLeast(q.mine, k, p.theirs[k].time)
                <==> HasAtLeast(p.mine, k, p.theirs[k].time) || Brought(hs, k, p.theirs[k].time))
    decreases |hs|
  {
    if hs == [] {
    } else {
      assert Settled(p, [hs[0]], k) by { assert [hs[0]][1..] == []; }
      LackStep(p, hs[0], k);
      LackRun(Happen(p, hs[0]), hs[1..], k);
      assert hs == [hs[0]] + hs[1..];
      BroughtCons(hs, k, p.theirs[k].time);
    }
  }

  lemma BroughtCons(hs: seq<Happening>, k: string, time: int)
    requires hs != []
    ensures Brought(hs, k, time)
            <==> (hs[0].Mine? && hs[0].update.key == k && hs[0].update.entry.time >= time) || Brought(hs[1..], k, time)
  {
    assert hs == [hs[0]] + hs[1..];
    if Brought(hs[1..], k, time) {
      var h :| h in hs[1..] && h.Mine? && h.update.key == k && h.update.entry.time >= time;
      assert h in hs;
    }
    if hs[0].Mine? && hs[0].update.key == k && hs[0].update.entry.time >= time { assert hs[0] in hs; }
  }

  /** Missed for good: over any number of later exchanges with that peer, as long as the responder keeps this
      version, a version below the cursor that the requester lacks stays lacking exactly when nobody else brings it. */
  lemma MissedForGood(p: Peering, hs: seq<Happening>, k: string)
    requires Lacks(p, k) && Settled(p, hs, k)
    ensures Lacks(HappenAll(p, hs), k) <==> !Brought(hs, k, p.theirs[k].time)
  {
    LackRun(p, hs, k);
  }

  /** An event of a response that is not valid leaves such a gap, unless the requester had its version already. */
  lemma DroppedIsLacking(p: Peering, id: MapId, valid: MapEvent -> bool, mine': Replica, cursor': int, k: string)
    requires mine' == Join(p.mine, Offered(p.theirs, id, p.cursor, valid)) && CursorFollows(cursor', p.cursor, p.theirs)
    requires k in p.theirs && p.theirs[k].time > p.cursor
    ensures Lacks(Peering(mine', p.theirs, cursor'), k)
            <==> !valid(MapEvent(id, k, p.theirs[k])) && !HasAtLeast(p.mine, k, p.theirs[k].time)
  {
    ExchangeDominates(p.mine, p.theirs, id, p.cursor, valid, k);
  }

  // ---- a run of three nodes ----

  const ID := MapId("group", "store")

  function EntryAt(time: int): Entry { Entry("v", false, time, "", "", "") }

  const NEW: Replica := map["new" := EntryAt(10)]
  const OLD: Replica := map["old" := EntryAt(5)]
  const BOTH: Replica := map["new" := EntryAt(10), "old" := EntryAt(5)]

  lemma AllOffered(r: Replica, since: int, valid: MapEvent -> bool)
    requires forall ev :: valid(ev)
    requires forall k :: k in r ==> r[k].time > since
    ensures Offered(r, ID, since, valid) == r
  {
  }

  lemma CursorAt(cursor: int, before: int, r: Replica, k: string)
    requires CursorFollows(cursor, before, r) && k in r && r[k].time >= before
    requires forall j :: j in r ==> r[j].time <= r[k].time
    ensures cursor == r[k].time || (cursor == before == r[k].time)
  {
  }

  lemma OldNotOffered(valid: MapEvent -> bool)
    ensures Offered(BOTH, ID, 10, valid) == map[] && Join(NEW, map[]) == NEW && Join(map[], NEW) == NEW
    ensures Join(NEW, OLD) == BOTH && Lacks(Peering(NEW, BOTH, 10), "old")
  {
    assert Join(NEW, OLD).Keys == BOTH.Keys;
  }

  /** `a` and `b` after the first exchange. */
  method NewArrives(valid: MapEvent -> bool) returns (a: Store, b: Store)
    requires forall ev :: valid(ev)
    ensures fresh(a) && fresh(b) && a != b && a.Valid() && b.Valid()
    ensures a.Table(ID) == NEW && b.Table(ID) == NEW && a.LastFromPeer(ID, "b") == 10 && b.LastFromPeer(ID, "c") == 0
  {
    a := new Store();
    b := new Store();
    var changed := b.ApplyEvent(ID, "new", EntryAt(10));
    assert b.Table(ID) == NEW;
    AllOffered(NEW, 0, valid);
    OldNotOffered(valid);
    var relay := SubscribeToPeer(a, b, ID, "b", valid);
    CursorAt(a.LastFromPeer(ID, "b"), 0, NEW, "new");
  }

  /** `b` subscribes to a third node, which holds an older event. */
  method OldArrives(b: Store, valid: MapEvent -> bool)
    requires b.Valid() && b.Table(ID) == NEW && b.LastFromPeer(ID, "c") == 0
    requires forall ev :: valid(ev)
    modifies b
    ensures b.Valid() && b.Table(ID) == BOTH
  {
    var c := new Store();
    var changed := c.ApplyEvent(ID, "old", EntryAt(5));
    assert c.Table(ID) == OLD;
    AllOffered(OLD, 0, valid);
    OldNotOffered(valid);
    var relay := SubscribeToPeer(b, c, ID, "c", valid);
  }

  /**
   * Node `a` subscribes to `b`, which holds an event of time 10; then `b` gets an older event, of time 5, from a third
   * node, and its push to `a` is lost; `a` subscribes to `b` again and still lacks it. Every event is valid.
   */
  method OlderEventIsLost(valid: MapEvent -> bool) returns (a: Store, b: Store)
    requires forall ev :: valid(ev)
    ensures a.Valid() && b.Valid() && "old" in b.Table(ID) && "old" !in a.Table(ID)
    ensures Lacks(Peering(a.Table(ID), b.Table(ID), a.LastFromPeer(ID, "b")), "old")
  {
    a, b := NewArrives(valid);
    OldArrives(b, valid);
    OldNotOffered(valid);
    var relay := SubscribeToPeer(a, b, ID, "b", valid);
    CursorAt(a.LastFromPeer(ID, "b"), 10, BOTH, "new");
  }
}
