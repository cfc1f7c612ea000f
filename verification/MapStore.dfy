/** The store of realm/features/maps/store.go: state and event tables per map, peer cursors, and notifications. */
module MapStore {
  import opened Basics
  import opened MapReplica

  /** `mapID`: a map is named by its group and its store name. */
  datatype MapId = MapId(group: string, store: string)

  datatype MapEvent = MapEvent(id: MapId, key: string, entry: Entry)

  datatype CursorKey = CursorKey(id: MapId, peer: string)

  function Updates(evs: seq<MapEvent>): (us: seq<Update>)
    ensures |us| == |evs|
    ensures forall i :: 0 <= i < |evs| ==> us[i] == Update(evs[i].key, evs[i].entry)
  {
    seq(|evs|, i requires 0 <= i < |evs| => Update(evs[i].key, evs[i].entry))
  }

  predicate SortedByTime(evs: seq<MapEvent>) {
    forall i, j :: 0 <= i < j < |evs| ==> evs[i].entry.time <= evs[j].entry.time
  }

  /** The events of the entries of `r` newer than `since`. */
  ghost function Logged(id: MapId, r: Replica, since: int): set<MapEvent> {
    set k | k in r && r[k].time > since :: MapEvent(id, k, r[k])
  }

  /** `evs` holds those events, each once, oldest first. */
  ghost predicate EventsOf(evs: seq<MapEvent>, id: MapId, r: Replica, since: int) {
    SortedByTime(evs) && multiset(evs) == multiset(Logged(id, r, since))
  }

  lemma EventsOfMembers(evs: seq<MapEvent>, id: MapId, r: Replica, since: int)
    requires EventsOf(evs, id, r, since)
    ensures forall ev :: ev in evs <==> ev in Logged(id, r, since)
  {
    assert forall ev :: ev in evs <==> ev in multiset(evs);
  }

  function Newer(r: Replica, since: int): Replica {
    map k | k in r && r[k].time > since :: r[k]
  }

  /** Replaying a compacted log into an empty map gives back the entries it was taken from. */
  lemma ReplayRebuilds(evs: seq<MapEvent>, id: MapId, r: Replica, since: int)
    requires EventsOf(evs, id, r, since)
    ensures MergeAll(map[], Updates(evs)) == Newer(r, since)
  {
    var us := Updates(evs);
    var m := MergeAll(map[], us);
    EventsOfMembers(evs, id, r, since);
    LastWriteWins(us);
    forall k | k in m
      ensures k in Newer(r, since) && m[k] == r[k]
    {
      var i: nat :| LastOfNewest(us, i) && us[i].key == k && us[i].entry == m[k];
      assert evs[i] in Logged(id, r, since);
    }
    forall k | k in Newer(r, since)
      ensures k in m
    {
      assert MapEvent(id, k, r[k]) in evs;
      var i :| 0 <= i < |evs| && evs[i] == MapEvent(id, k, r[k]);
      assert us[i].key == k;
    }
  }

  /** The same keys, with the same fields. */
  ghost predicate Agree(id: MapId, table: Replica, events: map<string, MapEvent>) {
    events.Keys == table.Keys && forall k :: k in events ==> events[k] == MapEvent(id, k, table[k])
  }

  function Get<V>(tables: map<MapId, map<string, V>>, id: MapId): map<string, V> {
    if id in tables then tables[id] else map[]
  }

  /** The event tables are the state tables in another form, and both exist only for known maps. */
  ghost predicate TablesAgree(known: set<MapId>, state: map<MapId, Replica>, log: map<MapId, map<string, MapEvent>>) {
    state.Keys == log.Keys && state.Keys <= known && forall id :: id in state ==> Agree(id, state[id], log[id])
  }

  lemma WriteKeepsAgreement(known: set<MapId>, state: map<MapId, Replica>, log: map<MapId, map<string, MapEvent>>,
                            id: MapId, key: string, entry: Entry)
    requires TablesAgree(known, state, log) && id in known
    ensures TablesAgree(known, state[id := Get(state, id)[key := entry]],
                        log[id := Get(log, id)[key := MapEvent(id, key, entry)]])
  {
  }

  class Store {
    var known: set<MapId>
    var state: map<MapId, Replica>
    var log: map<MapId, map<string, MapEvent>>
    var cursors: map<CursorKey, int>
    /** Every notification sent to the listeners so far. */
    var notified: seq<(MapId, Change)>

    function Table(id: MapId): Replica
      reads this
    {
      Get(state, id)
    }

    function LogOf(id: MapId): map<string, MapEvent>
      reads this
    {
      Get(log, id)
    }

    ghost predicate Valid()
      reads this
    {
      TablesAgree(known, state, log) && forall c :: c in cursors ==> cursors[c] > 0
    }

    constructor ()
      ensures Valid() && notified == [] && cursors == map[] && forall id :: Table(id) == map[]
    {
      known, state, log, cursors, notified := {}, map[], map[], map[], [];
    }

    method CreateMap(id: MapId)
      requires Valid()
      modifies this`known
      ensures Valid() && known == old(known) + {id} && id in known
    {
      known := known + {id};
    }

    method DeleteMap(id: MapId)
      requires Valid()
      modifies this`known, this`state, this`log
      ensures Valid() && known == old(known) - {id} && Table(id) == map[]
      ensures forall other :: other != id ==> Table(other) == old(Table(other))
    {
      known := known - {id};
      state := state - {id};
      log := log - {id};
    }

    method ApplyEvent(id: MapId, key: string, entry: Entry) returns (changed: bool)
      requires Valid()
      modifies this`known, this`state, this`log, this`notified
      ensures Valid() && known == old(known) + {id}
      ensures Table(id) == Merge(old(Table(id)), Update(key, entry))
      ensures forall other :: other != id ==> Table(other) == old(Table(other))
      ensures changed <==> Changes(old(Table(id)), Update(key, entry))
      ensures changed <==>
                && (key in old(Table(id)) ==> old(Table(id))[key].time <= entry.time)
                && (key in old(Table(id)) ==>
                      old(Table(id))[key].value != entry.value || old(Table(id))[key].deleted != entry.deleted)
      ensures notified == old(notified) + (match ChangeOf(old(Table(id)), Update(key, entry))
                                           case None => []
                                           case Some(c) => [(id, c)])
    {
      var table := Table(id);
      changed := false;
      CreateMap(id);
      if key !in table || table[key].time <= entry.time {
        changed := key !in table || table[key].value != entry.value || table[key].deleted != entry.deleted;
        Write(id, key, entry);
      }
      if changed {
        Notify(id, table, key, entry);
      }
    }

    /** Tells the listeners, unless the key is as dead as before. */
    method Notify(id: MapId, table: Replica, key: string, entry: Entry)
      requires Changes(table, Update(key, entry))
      modifies this`notified
      ensures notified == old(notified)
              + (match ChangeOf(table, Update(key, entry)) case None => [] case Some(c) => [(id, c)])
    {
      var wasLive, isLive := key in table && !table[key].deleted, !entry.deleted;
      if wasLive || isLive {
        var change :=
          if wasLive && !isLive then Deleted(key, table[key])
          else if !wasLive && isLive then Added(key, entry)
          else Updated(key, table[key], entry);
        notified := notified + [(id, change)];
      }
    }

    /** The batched write of both tables. */
    method Write(id: MapId, key: string, entry: Entry)
      requires Valid() && id in known
      modifies this`state, this`log
      ensures Valid() && Table(id) == old(Table(id))[key := entry]
      ensures forall other :: other != id ==> Table(other) == old(Table(other))
    {
      WriteKeepsAgreement(known, state, log, id, key, entry);
      state := state[id := Table(id)[key := entry]];
      log := log[id := LogOf(id)[key := MapEvent(id, key, entry)]];
    }

    method GetMap(id: MapId) returns (live: map<string, Entry>)
      ensures live == map k | k in Table(id) && !Table(id)[k].deleted :: Table(id)[k]
    {
      var table := Table(id);
      var rest := table.Keys;
      live := map[];
      while rest != {}
        invariant rest <= table.Keys
        invariant live == map k | k in table && k !in rest && !table[k].deleted :: table[k]
        decreases |rest|
      {
        var k :| k in rest;
        rest := rest - {k};
        if !table[k].deleted {
          live := live[k := table[k]];
        }
      }
    }

    method EventsSince(id: MapId, since: int) returns (evs: seq<MapEvent>)
      requires Valid()
      ensures EventsOf(evs, id, Table(id), since)
    {
      var events := LogOf(id);
      ghost var table := Table(id);
      assert events.Keys == table.Keys && forall k :: k in events ==> events[k] == MapEvent(id, k, table[k]);
      var rest := events.Keys;
      evs := [];
      ghost var done: Replica := map[];
      assert Logged(id, done, since) == {};
      while rest != {}
        invariant rest <= events.Keys && done == table - rest
        invariant EventsOf(evs, id, done, since)
        decreases |rest|
      {
        var k :| k in rest;
        ghost var evs0 := evs;
        if events[k].entry.time > since {
          evs := InsertByTime(evs, events[k]);
        }
        EventsStep(evs0, evs, id, done, k, table[k], since);
        rest := rest - {k};
        done := done[k := table[k]];
      }
      assert done == table;
    }

    function LastFromPeer(id: MapId, peer: string): int
      reads this
    {
      if CursorKey(id, peer) in cursors then cursors[CursorKey(id, peer)] else 0
    }

    method RecordFromPeer(id: MapId, peer: string, time: int)
      requires Valid()
      modifies this`cursors
      ensures Valid()
      ensures LastFromPeer(id, peer)
              == if time <= old(LastFromPeer(id, peer)) then old(LastFromPeer(id, peer)) else time
      ensures forall c :: c != CursorKey(id, peer) ==>
                (c in cursors <==> c in old(cursors)) && (c in cursors ==> cursors[c] == old(cursors)[c])
    {
      if time <= LastFromPeer(id, peer) {
        return;
      }
      cursors := cursors[CursorKey(id, peer) := time];
    }
  }

  lemma LoggedGrows(id: MapId, r: Replica, k: string, e: Entry, since: int)
    requires k !in r
    ensures Logged(id, r[k := e], since) == Logged(id, r, since) + if e.time > since then {MapEvent(id, k, e)} else {}
    ensures MapEvent(id, k, e) !in Logged(id, r, since)
  {
    var r' := r[k := e];
    forall ev | ev in Logged(id, r, since) ensures ev in Logged(id, r', since) {
      assert r'[ev.key] == ev.entry;
    }
    if e.time > since { assert r'[k] == e; }
  }

  lemma EventsStep(evs: seq<MapEvent>, evs': seq<MapEvent>, id: MapId, r: Replica, k: string, e: Entry, since: int)
    requires EventsOf(evs, id, r, since) && k !in r && SortedByTime(evs')
    requires if e.time > since then multiset(evs') == multiset(evs) + multiset{MapEvent(id, k, e)} else evs' == evs
    ensures EventsOf(evs', id, r[k := e], since)
  {
    LoggedGrows(id, r, k, e, since);
    if e.time > since {
      assert multiset(Logged(id, r, since) + {MapEvent(id, k, e)})
          == multiset(Logged(id, r, since)) + multiset{MapEvent(id, k, e)};
    }
  }

  /** One step of sorting by time. */
  method InsertByTime(evs: seq<MapEvent>, ev: MapEvent) returns (out: seq<MapEvent>)
    requires SortedByTime(evs)
    ensures SortedByTime(out) && multiset(out) == multiset(evs) + multiset{ev}
  {
    var i := 0;
    while i < |evs| && evs[i].entry.time <= ev.entry.time
      invariant 0 <= i <= |evs|
      invariant forall j :: 0 <= j < i ==> evs[j].entry.time <= ev.entry.time
    {
      i := i + 1;
    }
    out := evs[..i] + [ev] + evs[i..];
    assert evs == evs[..i] + evs[i..];
  }
}
