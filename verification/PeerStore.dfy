/** The known peers and their merged address lists (realm/peers/store.go). */
module PeerStore {
  import opened Ordering

  /** `lastSeen` is a time; a peer that was never stored has no sources and no addresses. */
  datatype Peer = Peer(id: string, hostname: string, description: string, relayServiceEnabled: bool, version: string,
                       connected: bool, lastSeen: int, groupNames: seq<string>,
                       bySource: map<string, seq<string>>, addresses: seq<string>)

  const ADDRESS_SOURCE_PRIORITY: seq<string> := ["broadcast", "announce", "dht"]
  const DISCOVERED_SOURCES: seq<string> := ["broadcast", "dht"]

  type Sources = map<string, seq<string>>

  // ---- what the merged list is ----

  function Listed(bySource: Sources, source: string): seq<string> {
    if source in bySource then bySource[source] else []
  }

  /** All the lists, one after the other. */
  function Joined(order: seq<string>, bySource: Sources): seq<string> {
    if order == [] then [] else Joined(order[..|order| - 1], bySource) + Listed(bySource, order[|order| - 1])
  }

  /** The first occurrences only. */
  function FirstOnly(s: seq<string>): seq<string> {
    if s == [] then []
    else if s[|s| - 1] in s[..|s| - 1] then FirstOnly(s[..|s| - 1])
    else FirstOnly(s[..|s| - 1]) + [s[|s| - 1]]
  }

  /** The three known sources by priority, then all others by name. */
  ghost predicate SourceOrder(order: seq<string>, bySource: Sources) {
    && |order| >= 3 && order[..3] == ADDRESS_SOURCE_PRIORITY
    && Increasing(order[3..])
    && forall s :: s in order[3..] <==> s in bySource && s !in ADDRESS_SOURCE_PRIORITY
  }

  ghost predicate IsMerged(addresses: seq<string>, bySource: Sources) {
    exists order :: SourceOrder(order, bySource) && addresses == FirstOnly(Joined(order, bySource))
  }

  lemma OneOrder(a: seq<string>, b: seq<string>, bySource: Sources)
    requires SourceOrder(a, bySource) && SourceOrder(b, bySource)
    ensures a == b
  {
    var s, t := a[3..], b[3..];
    assert forall x :: x in s <==> x in t;
    IncreasingIsUnique(s, t);
    assert a == a[..3] + s && b == b[..3] + t;
  }

  /** There is one source order, so one merged list. */
  lemma MergedIsDetermined(a: seq<string>, b: seq<string>, bySource: Sources)
    requires IsMerged(a, bySource) && IsMerged(b, bySource)
    ensures a == b
  {
    var order :| SourceOrder(order, bySource) && a == FirstOnly(Joined(order, bySource));
    var other :| SourceOrder(other, bySource) && b == FirstOnly(Joined(other, bySource));
    OneOrder(order, other, bySource);
  }

  predicate NoDuplicates(s: seq<string>) {
    forall i, j :: 0 <= i < j < |s| ==> s[i] != s[j]
  }

  /** Where a string first occurs. */
  function FirstIndex(s: seq<string>, x: string): (n: nat)
    requires x in s
    ensures n < |s| && s[n] == x && x !in s[..n]
  {
    if s[0] == x then 0
    else
      assert s == [s[0]] + s[1..];
      var n := 1 + FirstIndex(s[1..], x);
      assert s[..n] == [s[0]] + s[1..][..n - 1];
      n
  }

  lemma FirstIndexOfPrefix(s: seq<string>, t: seq<string>, x: string)
    requires x in s
    ensures x in s + t && FirstIndex(s + t, x) == FirstIndex(s, x)
  {
    var n, m := FirstIndex(s, x), FirstIndex(s + t, x);
    assert (s + t)[n] == x;
    assert forall k :: 0 <= k < m ==> (s + t)[..m][k] == (s + t)[k];
    assert forall k :: 0 <= k < n ==> s[..n][k] == s[k] == (s + t)[k];
  }

  lemma {:induction false} FirstOnlyHolds(s: seq<string>)
    ensures forall x :: x in FirstOnly(s) <==> x in s
    ensures NoDuplicates(FirstOnly(s))
    decreases |s|
  {
    if s == [] {
    } else {
      FirstOnlyHolds(s[..|s| - 1]);
      assert s == s[..|s| - 1] + [s[|s| - 1]];
    }
  }

  /** First occurrences keep their order. */
  lemma {:induction false} FirstOnlyIsOrdered(s: seq<string>, i: nat, j: nat)
    requires i < j < |FirstOnly(s)|
    ensures FirstOnly(s)[i] in s && FirstOnly(s)[j] in s
    ensures FirstIndex(s, FirstOnly(s)[i]) < FirstIndex(s, FirstOnly(s)[j])
    decreases |s|
  {
    var init, last := s[..|s| - 1], s[|s| - 1];
    assert s == init + [last];
    FirstOnlyHolds(s);
    FirstOnlyHolds(init);
    FirstIndexOfPrefix(init, [last], FirstOnly(s)[i]);
    if j < |FirstOnly(init)| {
      FirstOnlyIsOrdered(init, i, j);
      FirstIndexOfPrefix(init, [last], FirstOnly(s)[j]);
    }
  }

  lemma {:induction false} JoinedHolds(order: seq<string>, bySource: Sources, x: string)
    ensures x in Joined(order, bySource) <==> exists s :: s in order && x in Listed(bySource, s)
    decreases |order|
  {
    if order == [] {
    } else {
      var init, last := order[..|order| - 1], order[|order| - 1];
      assert order == init + [last];
      JoinedHolds(init, bySource, x);
      assert last in order;
    }
  }

  lemma {:induction false} JoinedSplits(order: seq<string>, k: nat, bySource: Sources)
    requires k <= |order|
    ensures Joined(order[..k], bySource) <= Joined(order, bySource)
    decreases |order|
  {
    if k < |order| {
      assert order[..|order| - 1][..k] == order[..k];
      JoinedSplits(order[..|order| - 1], k, bySource);
    } else {
      assert order[..k] == order;
    }
  }

  /** The merged list has no duplicates, and holds the addresses of all sources together. */
  lemma MergedIsUnion(addresses: seq<string>, bySource: Sources)
    requires IsMerged(addresses, bySource)
    ensures NoDuplicates(addresses)
    ensures forall x :: x in addresses <==> exists s :: s in bySource && x in bySource[s]
  {
    var order :| SourceOrder(order, bySource) && addresses == FirstOnly(Joined(order, bySource));
    FirstOnlyHolds(Joined(order, bySource));
    forall x
      ensures x in addresses <==> exists s :: s in bySource && x in bySource[s]
    {
      JoinedHolds(order, bySource, x);
      assert order == order[..3] + order[3..];
      forall s | s in bySource && x in bySource[s]
        ensures x in addresses
      {
        assert s in order && x in Listed(bySource, s);
      }
    }
  }

  /** An address that only later sources know comes after one that an earlier source knows. */
  lemma MergedFollowsPriority(addresses: seq<string>, bySource: Sources, order: seq<string>, k: nat, i: nat, j: nat)
    requires IsMerged(addresses, bySource) && SourceOrder(order, bySource) && k < |order|
    requires i < |addresses| && j < |addresses|
    requires addresses[i] in Listed(bySource, order[k])
    requires forall l :: 0 <= l <= k ==> addresses[j] !in Listed(bySource, order[l])
    ensures i < j
  {
    var all := Joined(order, bySource);
    assert addresses == FirstOnly(all) by {
      assert IsMerged(FirstOnly(all), bySource);
      MergedIsDetermined(addresses, FirstOnly(all), bySource);
    }
    FirstOnlyHolds(all);
    var x, y := addresses[i], addresses[j];
    assert x in all && y in all;
    KnownEarlier(order, k, bySource, x, y);
    if j < i { FirstOnlyIsOrdered(all, j, i); }
  }

  /** Broadcast comes before announce, announce before dht, dht before all others, and those by name. */
  predicate Before(s: string, t: string) {
    || (s == "broadcast" && t != "broadcast")
    || (s == "announce" && t !in {"broadcast", "announce"})
    || (s == "dht" && t !in {"broadcast", "announce", "dht"})
    || (s !in {"broadcast", "announce", "dht"} && t !in {"broadcast", "announce", "dht"} && StrLess(s, t))
  }

  /** An address of a source comes before any that is known only to sources after that one. */
  lemma SourcesByName(addresses: seq<string>, bySource: Sources, source: string, i: nat, j: nat)
    requires IsMerged(addresses, bySource)
    requires i < |addresses| && j < |addresses|
    requires source in bySource && addresses[i] in bySource[source]
    requires forall t :: t in bySource && addresses[j] in bySource[t] ==> Before(source, t)
    ensures i < j
  {
    var order :| SourceOrder(order, bySource) && addresses == FirstOnly(Joined(order, bySource));
    var k := PlaceOf(order, bySource, source);
    forall l | 0 <= l <= k
      ensures addresses[j] !in Listed(bySource, order[l])
    {
      EarlierInOrder(order, bySource, l, k);
    }
    MergedFollowsPriority(addresses, bySource, order, k, i, j);
  }

  /** Within what one source adds, its addresses keep their order. */
  lemma SourceKeepsOrder(addresses: seq<string>, bySource: Sources, source: string, i: nat, j: nat)
    requires IsMerged(addresses, bySource)
    requires i < |addresses| && j < |addresses| && source in bySource
    requires addresses[i] in bySource[source] && addresses[j] in bySource[source]
    requires FirstIndex(bySource[source], addresses[i]) < FirstIndex(bySource[source], addresses[j])
    requires forall t :: t in bySource && addresses[j] in bySource[t] ==> t == source || Before(source, t)
    ensures i < j
  {
    var order :| SourceOrder(order, bySource) && addresses == FirstOnly(Joined(order, bySource));
    var all := Joined(order, bySource);
    FirstOnlyHolds(all);
    assert addresses[i] in all && addresses[j] in all;
    FirstFromSource(order, bySource, source, addresses[i], addresses[j]);
    if j < i { FirstOnlyIsOrdered(all, j, i); }
  }

  lemma FirstFromSource(order: seq<string>, bySource: Sources, source: string, x: string, y: string)
    requires SourceOrder(order, bySource) && source in bySource
    requires x in bySource[source] && y in bySource[source]
    requires FirstIndex(bySource[source], x) < FirstIndex(bySource[source], y)
    requires forall t :: t in bySource && y in bySource[t] ==> t == source || Before(source, t)
    requires x in Joined(order, bySource) && y in Joined(order, bySource)
    ensures FirstIndex(Joined(order, bySource), x) < FirstIndex(Joined(order, bySource), y)
  {
    var k := PlaceOf(order, bySource, source);
    var front := order[..k];
    assert order[..k + 1] == front + [source];
    JoinedSnoc(front, source, bySource);
    JoinedSplits(order, k + 1, bySource);
    NotEarlier(order, bySource, k, y);
    FirstInMiddle(Joined(front, bySource), bySource[source], Joined(order, bySource), x, y);
  }

  lemma NotEarlier(order: seq<string>, bySource: Sources, k: nat, y: string)
    requires SourceOrder(order, bySource) && k < |order|
    requires forall t :: t in bySource && y in bySource[t] ==> t == order[k] || Before(order[k], t)
    ensures y !in Joined(order[..k], bySource)
  {
    JoinedHolds(order[..k], bySource, y);
    forall l | 0 <= l < k
      ensures y !in Listed(bySource, order[l])
    {
      EarlierInOrder(order, bySource, l, k);
      SourcesDiffer(order, bySource, l, k);
    }
  }

  lemma SourcesDiffer(order: seq<string>, bySource: Sources, l: nat, k: nat)
    requires SourceOrder(order, bySource) && l < k < |order|
    ensures order[l] != order[k]
  {
    assert order[0] == order[..3][0] && order[1] == order[..3][1] && order[2] == order[..3][2];
    if k >= 3 {
      assert order[k] == order[3..][k - 3] && order[k] in order[3..];
      if 3 <= l {
        assert order[l] == order[3..][l - 3];
        StrTrichotomy(order[l], order[k]);
      }
    }
  }

  /** What is not in the first part is first found where the second part first has it. */
  lemma FirstInMiddle(front: seq<string>, list: seq<string>, all: seq<string>, x: string, y: string)
    requires front + list <= all && x in list && y in list && x in all && y in all && y !in front
    requires FirstIndex(list, x) < FirstIndex(list, y)
    ensures FirstIndex(all, x) < FirstIndex(all, y)
  {
    var head := front + list;
    assert all == head + all[|head|..];
    FirstIndexOfPrefix(head, all[|head|..], x);
    FirstIndexOfPrefix(head, all[|head|..], y);
    FirstBehind(front, list, y);
    if x in front {
      FirstIndexOfPrefix(front, list, x);
    } else {
      FirstBehind(front, list, x);
    }
  }

  lemma FirstBehind(front: seq<string>, list: seq<string>, x: string)
    requires x in list && x !in front
    ensures x in front + list && FirstIndex(front + list, x) == |front| + FirstIndex(list, x)
  {
    var n, m := FirstIndex(list, x), FirstIndex(front + list, x);
    assert (front + list)[|front| + n] == x;
    assert forall q :: 0 <= q < |front| ==> (front + list)[q] == front[q];
    assert forall q :: 0 <= q < m ==> (front + list)[..m][q] == (front + list)[q];
    assert forall q :: 0 <= q < n ==> list[..n][q] == list[q];
    assert list[m - |front|] == x;
  }

  lemma PlaceOf(order: seq<string>, bySource: Sources, source: string) returns (k: nat)
    requires SourceOrder(order, bySource) && source in bySource
    ensures k < |order| && order[k] == source
  {
    assert order == order[..3] + order[3..];
    assert source in order;
    k :| 0 <= k < |order| && order[k] == source;
  }

  lemma EarlierInOrder(order: seq<string>, bySource: Sources, l: nat, k: nat)
    requires SourceOrder(order, bySource) && l <= k < |order|
    ensures !Before(order[k], order[l])
  {
    assert order[0] == order[..3][0] && order[1] == order[..3][1] && order[2] == order[..3][2];
    if k >= 3 {
      assert order[k] == order[3..][k - 3] && order[k] in order[3..];
      if 3 <= l {
        assert order[l] == order[3..][l - 3];
        StrTrichotomy(order[l], order[k]);
      }
    }
  }

  lemma KnownEarlier(order: seq<string>, k: nat, bySource: Sources, x: string, y: string)
    requires k < |order| && x in Listed(bySource, order[k])
    requires forall l :: 0 <= l <= k ==> y !in Listed(bySource, order[l])
    requires x in Joined(order, bySource) && y in Joined(order, bySource)
    ensures FirstIndex(Joined(order, bySource), x) < FirstIndex(Joined(order, bySource), y)
  {
    var front := order[..k + 1];
    JoinedSplits(order, k + 1, bySource);
    assert front[k] == order[k];
    JoinedHolds(front, bySource, x);
    JoinedHolds(front, bySource, y);
    FirstInHead(Joined(front, bySource), Joined(order, bySource), x, y);
  }

  lemma FirstInHead(head: seq<string>, all: seq<string>, x: string, y: string)
    requires head <= all && x in head && x in all && y in all && y !in head
    ensures FirstIndex(all, x) < FirstIndex(all, y)
  {
    assert all == head + all[|head|..];
    FirstIndexOfPrefix(head, all[|head|..], x);
    assert forall q :: 0 <= q < |head| ==> all[q] == head[q] && head[q] in head;
  }

  // ---- how it is computed ----

  method AppendFrom(source: string, bySource: Sources, seenBefore: set<string>, before: seq<string>,
                    ghost joined: seq<string>)
    returns (seen: set<string>, merged: seq<string>)
    requires before == FirstOnly(joined) && forall x :: x in seenBefore <==> x in joined
    ensures merged == FirstOnly(joined + Listed(bySource, source))
    ensures forall x :: x in seen <==> x in joined + Listed(bySource, source)
  {
    var list := Listed(bySource, source);
    seen, merged := seenBefore, before;
    assert joined + list[..0] == joined;
    for i := 0 to |list|
      invariant merged == FirstOnly(joined + list[..i])
      invariant forall x :: x in seen <==> x in joined + list[..i]
    {
      var address := list[i];
      assert joined + list[..i + 1] == (joined + list[..i]) + [address];
      assert (joined + list[..i + 1])[..|joined| + i] == joined + list[..i];
      if address in seen {
        continue;
      }
      seen := seen + {address};
      merged := merged + [address];
    }
    assert list[..|list|] == list;
  }

  /** The loop that both groups of sources go through, one after the other. */
  method AppendAll(sources: seq<string>, bySource: Sources, seenBefore: set<string>, before: seq<string>,
                   ghost done: seq<string>)
    returns (seen: set<string>, merged: seq<string>)
    requires before == FirstOnly(Joined(done, bySource)) && forall x :: x in seenBefore <==> x in Joined(done, bySource)
    ensures merged == FirstOnly(Joined(done + sources, bySource))
    ensures forall x :: x in seen <==> x in Joined(done + sources, bySource)
  {
    seen, merged := seenBefore, before;
    assert done + sources[..0] == done;
    for i := 0 to |sources|
      invariant merged == FirstOnly(Joined(done + sources[..i], bySource))
      invariant forall x :: x in seen <==> x in Joined(done + sources[..i], bySource)
    {
      OneMoreSource(done, sources, i, bySource);
      seen, merged := AppendFrom(sources[i], bySource, seen, merged, Joined(done + sources[..i], bySource));
    }
    assert sources[..|sources|] == sources;
  }

  lemma OneMoreSource(done: seq<string>, sources: seq<string>, i: nat, bySource: Sources)
    requires i < |sources|
    ensures Joined(done + sources[..i + 1], bySource)
            == Joined(done + sources[..i], bySource) + Listed(bySource, sources[i])
  {
    assert done + sources[..i + 1] == (done + sources[..i]) + [sources[i]];
    JoinedSnoc(done + sources[..i], sources[i], bySource);
  }

  lemma JoinedSnoc(order: seq<string>, source: string, bySource: Sources)
    ensures Joined(order + [source], bySource) == Joined(order, bySource) + Listed(bySource, source)
  {
    assert (order + [source])[..|order|] == order;
  }

  method MergeAddresses(bySource: Sources) returns (merged: seq<string>)
    ensures IsMerged(merged, bySource)
  {
    var seen: set<string>;
    seen, merged := AppendAll(ADDRESS_SOURCE_PRIORITY, bySource, {}, [], []);
    var others := OtherSources(bySource);
    others := SortStrings(others);
    assert [] + ADDRESS_SOURCE_PRIORITY == ADDRESS_SOURCE_PRIORITY;
    seen, merged := AppendAll(others, bySource, seen, merged, ADDRESS_SOURCE_PRIORITY);
    ghost var order := ADDRESS_SOURCE_PRIORITY + others;
    assert order[..3] == ADDRESS_SOURCE_PRIORITY && order[3..] == others;
    assert SourceOrder(order, bySource);
  }

  /** The sources without a fixed priority, in no particular order. */
  method OtherSources(bySource: Sources) returns (others: seq<string>)
    ensures NoDuplicates(others)
    ensures forall s :: s in others <==> s in bySource && s !in ADDRESS_SOURCE_PRIORITY
  {
    others := [];
    var keys := bySource.Keys;
    while keys != {}
      invariant keys <= bySource.Keys && NoDuplicates(others)
      invariant forall s :: s in others <==> s in bySource.Keys - keys && s !in ADDRESS_SOURCE_PRIORITY
      decreases keys
    {
      var source :| source in keys;
      keys := keys - {source};
      if source !in ADDRESS_SOURCE_PRIORITY {
        others := others + [source];
      }
    }
  }

  // ---- the store ----

  function Discovered(): set<string> { set s | s in DISCOVERED_SOURCES }

  /** The peer after the discovered sources were dropped; everything but the sources and the merged list stays. */
  ghost predicate IsCleared(now: Peer, before: Peer) {
    && now == before.(bySource := before.bySource - Discovered(), addresses := now.addresses)
    && IsMerged(now.addresses, now.bySource)
  }

  /** All but the peers still to do are cleared. */
  ghost predicate SomeCleared(now: map<string, Peer>, before: map<string, Peer>, todo: set<string>) {
    && now.Keys == before.Keys && todo <= now.Keys
    && forall id :: id in now ==> if id in todo then now[id] == before[id] else IsCleared(now[id], before[id])
  }

  lemma OneMoreCleared(now: map<string, Peer>, before: map<string, Peer>, todo: set<string>, id: string, p: Peer)
    requires SomeCleared(now, before, todo) && id in todo && IsCleared(p, before[id])
    ensures SomeCleared(now[id := p], before, todo - {id})
  {
    var next := now[id := p];
    assert next.Keys == now.Keys;
    forall k | k in next
      ensures if k in todo - {id} then next[k] == before[k] else IsCleared(next[k], before[k])
    {
    }
  }

  class Store {
    var peers: map<string, Peer>

    /** Every cached list is the merge of its peer's sources, and peers are stored under their own ids. */
    ghost predicate Valid()
      reads this
    {
      forall id :: id in peers ==> peers[id].id == id && IsMerged(peers[id].addresses, peers[id].bySource)
    }

    constructor ()
      ensures Valid() && peers == map[]
    {
      peers := map[];
    }

    /** Without a source the addresses of the peer stay; with one, that source's list is replaced and the others
        stay. */
    method Upsert(info: Peer, source: string)
      requires Valid()
      modifies this
      ensures Valid() && info.id in peers && peers == old(peers)[info.id := peers[info.id]]
      ensures peers[info.id] == info.(bySource := peers[info.id].bySource, addresses := peers[info.id].addresses)
      ensures peers[info.id].bySource
              == (if info.id in old(peers) then old(peers)[info.id].bySource else map[])
                 + (if source == "" then map[] else map[source := info.addresses])
    {
      var bySource: Sources := map[];
      var addresses: seq<string> := [];
      if info.id in peers {
        bySource, addresses := peers[info.id].bySource, peers[info.id].addresses;
      } else {
        NothingMerged();
      }
      bySource, addresses := WithSource(bySource, addresses, source, info.addresses);
      var now := info.(bySource := bySource, addresses := addresses);
      peers := peers[info.id := now];
    }

    method SetConnected(id: string, connected: bool, now: int)
      requires Valid()
      modifies this
      ensures Valid()
      ensures peers == if id !in old(peers) then old(peers)
                       else old(peers)[id := old(peers)[id].(connected := connected,
                                                             lastSeen := if connected then now
                                                                         else old(peers)[id].lastSeen)]
    {
      if id !in peers {
        return;
      }
      var p := peers[id].(connected := connected);
      if connected {
        p := p.(lastSeen := now);
      }
      peers := peers[id := p];
    }

    method SetHostnameDescription(id: string, hostname: string, description: string, relayServiceEnabled: bool,
                                  version: string)
      requires Valid()
      modifies this
      ensures Valid()
      ensures peers == if id !in old(peers) then old(peers)
                       else old(peers)[id := old(peers)[id].(hostname := hostname, description := description,
                                                             relayServiceEnabled := relayServiceEnabled,
                                                             version := version)]
    {
      if id !in peers {
        return;
      }
      peers := peers[id := peers[id].(hostname := hostname, description := description,
                                      relayServiceEnabled := relayServiceEnabled, version := version)];
    }

    method SetAnnouncedAddresses(id: string, addresses: seq<string>)
      requires Valid()
      modifies this
      ensures Valid()
      ensures id !in old(peers) ==> peers == old(peers)
      ensures id in old(peers) ==>
                && id in peers && peers == old(peers)[id := peers[id]]
                && peers[id] == old(peers)[id].(bySource := old(peers)[id].bySource["announce" := addresses],
                                                addresses := peers[id].addresses)
    {
      if id !in peers {
        return;
      }
      var bySource := peers[id].bySource["announce" := addresses];
      var merged := MergeAddresses(bySource);
      peers := peers[id := peers[id].(bySource := bySource, addresses := merged)];
    }

    method ClearDiscoveredAddresses(id: string) returns (found: bool)
      requires Valid()
      modifies this
      ensures Valid() && found == (id in old(peers))
      ensures !found ==> peers == old(peers)
      ensures found ==> id in peers && peers == old(peers)[id := peers[id]] && IsCleared(peers[id], old(peers)[id])
    {
      found := false;
      if id !in peers {
        return;
      }
      found := true;
      var p := ClearPeer(peers[id]);
      peers := peers[id := p];
    }

    method ClearAllDiscoveredAddresses()
      requires Valid()
      modifies this
      ensures Valid() && peers.Keys == old(peers.Keys)
      ensures forall id :: id in peers ==> IsCleared(peers[id], old(peers)[id])
    {
      ghost var before := peers;
      var todo := peers.Keys;
      while todo != {}
        invariant SomeCleared(peers, before, todo)
        decreases todo
      {
        var id :| id in todo;
        var p := ClearPeer(peers[id]);
        OneMoreCleared(peers, before, todo, id, p);
        peers, todo := peers[id := p], todo - {id};
      }
    }

    method AddGroupName(id: string, groupName: string)
      requires Valid()
      modifies this
      ensures Valid()
      ensures peers == if id !in old(peers) || groupName in old(peers)[id].groupNames then old(peers)
                       else old(peers)[id := old(peers)[id].(groupNames := old(peers)[id].groupNames + [groupName])]
    {
      if id !in peers || groupName in peers[id].groupNames {
        return;
      }
      peers := peers[id := peers[id].(groupNames := peers[id].groupNames + [groupName])];
    }

    method RemoveGroupName(groupName: string)
      requires Valid()
      modifies this
      ensures Valid()
      ensures peers == map id | id in old(peers) ::
                old(peers)[id].(groupNames := Without(old(peers)[id].groupNames, groupName))
      ensures forall id :: id in peers ==> IsFiltered(peers[id].groupNames, old(peers)[id].groupNames, groupName)
      ensures forall id, g :: id in peers ==>
                (g in peers[id].groupNames <==> g in old(peers)[id].groupNames && g != groupName)
    {
      forall id | id in peers
        ensures IsFiltered(Without(peers[id].groupNames, groupName), peers[id].groupNames, groupName)
      {
        WithoutFilters(peers[id].groupNames, groupName);
      }
      peers := WithoutGroup(peers, groupName);
    }

    /** Removes exactly the peers that are not connected and were last seen before the cutoff. */
    method PruneStale(cutoff: int) returns (removed: seq<Peer>)
      requires Valid()
      modifies this
      ensures Valid()
      ensures peers == map id | id in old(peers) && !IsStale(old(peers)[id], cutoff) :: old(peers)[id]
      ensures forall id :: id in peers <==>
                id in old(peers) && (old(peers)[id].connected || old(peers)[id].lastSeen >= cutoff)
      ensures AreRemoved(removed, old(peers), {}, cutoff)
    {
      peers, removed := Pruned(peers, cutoff);
    }

    method Remove(id: string) returns (removed: bool)
      requires Valid()
      modifies this
      ensures Valid() && removed == (id in old(peers) && !old(peers)[id].connected)
      ensures peers == if removed then old(peers) - {id} else old(peers)
    {
      removed := false;
      if id !in peers || peers[id].connected {
        return;
      }
      peers := peers - {id};
      removed := true;
    }

    method ResetAllConnected()
      requires Valid()
      modifies this
      ensures Valid() && peers == map id | id in old(peers) :: old(peers)[id].(connected := false)
    {
      peers := AllDisconnected(peers);
    }
  }

  predicate IsStale(p: Peer, cutoff: int) { !p.connected && p.lastSeen < cutoff }

  /** The stale peers of `before`, apart from those still to do, each once. */
  ghost predicate AreRemoved(removed: seq<Peer>, before: map<string, Peer>, todo: set<string>, cutoff: int) {
    && (forall i, j :: 0 <= i < j < |removed| ==> removed[i] != removed[j])
    && forall p :: p in removed <==> p.id in before && p.id !in todo && before[p.id] == p && IsStale(p, cutoff)
  }

  /** `now` consists of the elements of `before` at increasing places. */
  ghost predicate Keeps(now: seq<string>, before: seq<string>, at: seq<nat>) {
    && |at| == |now|
    && (forall i :: 0 <= i < |now| ==> at[i] < |before| && now[i] == before[at[i]])
    && forall i, j :: 0 <= i < j < |at| ==> at[i] < at[j]
  }

  /** Only the name is gone; the others are as many as before and in their order. */
  ghost predicate IsFiltered(now: seq<string>, before: seq<string>, name: string) {
    && (forall g :: g in now <==> g in before && g != name)
    && multiset(now) == multiset(before)[name := 0]
    && (exists at :: Keeps(now, before, at))
    && (name !in before ==> now == before)
  }

  lemma {:induction false} WithoutCounts(names: seq<string>, name: string)
    ensures multiset(Without(names, name)) == multiset(names)[name := 0]
    ensures name !in names ==> Without(names, name) == names
    decreases |names|
  {
    if names == [] {
    } else {
      assert names == names[..|names| - 1] + [names[|names| - 1]];
      WithoutCounts(names[..|names| - 1], name);
    }
  }

  lemma {:induction false} WithoutKeeps(names: seq<string>, name: string) returns (at: seq<nat>)
    ensures Keeps(Without(names, name), names, at)
    decreases |names|
  {
    if names == [] {
      at := [];
    } else {
      var place: nat := |names| - 1;
      at := WithoutKeeps(names[..place], name);
      if names[place] != name { at := at + [place]; }
    }
  }

  lemma WithoutFilters(names: seq<string>, name: string)
    ensures IsFiltered(Without(names, name), names, name)
  {
    WithoutCounts(names, name);
    var now := Without(names, name);
    var at := WithoutKeeps(names, name);
    assert Keeps(now, names, at);
    forall g
      ensures g in now <==> g in names && g != name
    {
      assert g in now <==> g in multiset(now);
      assert g in names <==> g in multiset(names);
    }
  }

  function Without(names: seq<string>, name: string): seq<string> {
    if names == [] then []
    else Without(names[..|names| - 1], name) + (if names[|names| - 1] == name then [] else [names[|names| - 1]])
  }

  method WithoutGroup(before: map<string, Peer>, groupName: string) returns (now: map<string, Peer>)
    ensures now == map id | id in before :: before[id].(groupNames := Without(before[id].groupNames, groupName))
  {
    now := before;
    var todo := before.Keys;
    while todo != {}
      invariant todo <= before.Keys == now.Keys
      invariant forall id :: id in todo ==> now[id] == before[id]
      invariant forall id :: id in before && id !in todo
                  ==> now[id] == before[id].(groupNames := Without(before[id].groupNames, groupName))
      decreases todo
    {
      var id :| id in todo;
      var filtered := FilterNames(now[id].groupNames, groupName);
      now, todo := now[id := now[id].(groupNames := filtered)], todo - {id};
    }
  }

  method AllDisconnected(before: map<string, Peer>) returns (now: map<string, Peer>)
    ensures now == map id | id in before :: before[id].(connected := false)
  {
    now := before;
    var todo := before.Keys;
    while todo != {}
      invariant todo <= before.Keys == now.Keys
      invariant forall id :: id in todo ==> now[id] == before[id]
      invariant forall id :: id in before && id !in todo ==> now[id] == before[id].(connected := false)
      decreases todo
    {
      var id :| id in todo;
      now, todo := now[id := now[id].(connected := false)], todo - {id};
    }
  }

  method Pruned(before: map<string, Peer>, cutoff: int) returns (now: map<string, Peer>, removed: seq<Peer>)
    requires forall id :: id in before ==> before[id].id == id
    ensures now == map id | id in before && !IsStale(before[id], cutoff) :: before[id]
    ensures AreRemoved(removed, before, {}, cutoff)
  {
    now, removed := before, [];
    var todo := before.Keys;
    while todo != {}
      invariant todo <= before.Keys
      invariant forall id :: id in now <==> id in before && (id in todo || !IsStale(before[id], cutoff))
      invariant forall id :: id in now ==> now[id] == before[id]
      invariant AreRemoved(removed, before, todo, cutoff)
      decreases todo
    {
      var id :| id in todo;
      var p := now[id];
      RemoveOne(removed, before, todo, cutoff, id);
      todo := todo - {id};
      if p.connected || !(p.lastSeen < cutoff) {
        continue;
      }
      now := now - {id};
      removed := removed + [p];
    }
  }

  lemma RemoveOne(removed: seq<Peer>, before: map<string, Peer>, todo: set<string>, cutoff: int, id: string)
    requires AreRemoved(removed, before, todo, cutoff) && id in todo && todo <= before.Keys && before[id].id == id
    ensures AreRemoved(if IsStale(before[id], cutoff) then removed + [before[id]] else removed,
                       before, todo - {id}, cutoff)
  {
    assert before[id] !in removed;
    forall p
      ensures p in (if IsStale(before[id], cutoff) then removed + [before[id]] else removed)
              <==> p.id in before && p.id !in todo - {id} && before[p.id] == p && IsStale(p, cutoff)
    {
    }
  }

  method FilterNames(names: seq<string>, name: string) returns (filtered: seq<string>)
    ensures filtered == Without(names, name) && IsFiltered(filtered, names, name)
  {
    WithoutFilters(names, name);
    filtered := [];
    for i := 0 to |names|
      invariant filtered == Without(names[..i], name)
    {
      assert names[..i + 1][..i] == names[..i];
      if names[i] != name {
        filtered := filtered + [names[i]];
      }
    }
    assert names[..|names|] == names;
  }

  lemma NothingMerged()
    ensures IsMerged([], map[])
  {
    var order := ADDRESS_SOURCE_PRIORITY;
    assert order[3..] == [] && order[..3] == order;
    JoinedIsEmpty(order);
    assert SourceOrder(order, map[]);
  }

  lemma {:induction false} JoinedIsEmpty(order: seq<string>)
    ensures Joined(order, map[]) == []
    decreases |order|
  {
    if order == [] {
    } else {
      JoinedIsEmpty(order[..|order| - 1]);
    }
  }

  method WithSource(before: Sources, cached: seq<string>, source: string, list: seq<string>)
    returns (bySource: Sources, addresses: seq<string>)
    requires IsMerged(cached, before)
    ensures bySource == before + (if source == "" then map[] else map[source := list])
    ensures IsMerged(addresses, bySource)
  {
    bySource, addresses := before, cached;
    if source == "" {
      assert before == before + map[];
      return;
    }
    bySource := bySource[source := list];
    assert bySource == before + map[source := list];
    addresses := MergeAddresses(bySource);
  }

  method ClearPeer(before: Peer) returns (now: Peer)
    ensures IsCleared(now, before)
  {
    var bySource := before.bySource;
    for i := 0 to |DISCOVERED_SOURCES|
      invariant bySource == before.bySource - set s | s in DISCOVERED_SOURCES[..i]
    {
      assert DISCOVERED_SOURCES[..i + 1] == DISCOVERED_SOURCES[..i] + [DISCOVERED_SOURCES[i]];
      bySource := bySource - {DISCOVERED_SOURCES[i]};
    }
    assert DISCOVERED_SOURCES[..|DISCOVERED_SOURCES|] == DISCOVERED_SOURCES;
    var merged := MergeAddresses(bySource);
    now := before.(bySource := bySource, addresses := merged);
  }

  /** Clearing keeps exactly the addresses that some source other than broadcast and dht also knows. */
  lemma ClearKeepsKnown(now: Peer, before: Peer, x: string)
    requires IsCleared(now, before) && IsMerged(before.addresses, before.bySource)
    ensures x in now.addresses <==>
              exists s :: s in before.bySource && s != "broadcast" && s != "dht" && x in before.bySource[s]
    ensures x in now.addresses ==> x in before.addresses
    ensures now == before.(bySource := now.bySource, addresses := now.addresses)
    ensures forall s :: s in now.bySource <==> s in before.bySource && s != "broadcast" && s != "dht"
    ensures forall s :: s in now.bySource ==> now.bySource[s] == before.bySource[s]
  {
    MergedIsUnion(now.addresses, now.bySource);
    MergedIsUnion(before.addresses, before.bySource);
    assert DISCOVERED_SOURCES[0] == "broadcast" && DISCOVERED_SOURCES[1] == "dht";
    forall s
      ensures s in now.bySource <==> s in before.bySource && s != "broadcast" && s != "dht"
    {
      assert s in DISCOVERED_SOURCES <==> s == "broadcast" || s == "dht";
    }
  }
}
