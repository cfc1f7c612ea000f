/**
 The connection ring of realm/connection_ring.go. Peer ids matter only through their order, so they are integers here;
 `online` are the members that are connected or answer a dial.
 */
module Ring {

  type Id = int

  const NEIGHBOR_COUNT: nat := 2

  datatype PeerInfo = PeerInfo(id: Id, groups: seq<string>)

  datatype Direction = Backward | Forward

  // ---- members ----

  predicate Sorted(s: seq<Id>) { forall i, j :: 0 <= i < j < |s| ==> s[i] <= s[j] }

  predicate Distinct(s: seq<Id>) { forall i, j :: 0 <= i < j < |s| ==> s[i] != s[j] }

  function InGroup(known: seq<PeerInfo>, group: string): seq<Id> {
    if known == [] then []
    else InGroup(known[..|known| - 1], group)
         + if group in known[|known| - 1].groups then [known[|known| - 1].id] else []
  }

  lemma InGroupSnoc(known: seq<PeerInfo>, i: nat, group: string)
    requires i < |known|
    ensures InGroup(known[..i + 1], group)
            == InGroup(known[..i], group) + if group in known[i].groups then [known[i].id] else []
  {
    assert known[..i + 1][..i] == known[..i];
  }

  method RingMemberIds(known: seq<PeerInfo>, group: string, self: Id) returns (ids: seq<Id>)
    ensures Sorted(ids) && multiset(ids) == multiset{self} + multiset(InGroup(known, group))
  {
    ids := [self];
    for i := 0 to |known|
      invariant multiset(ids) == multiset{self} + multiset(InGroup(known[..i], group))
    {
      InGroupSnoc(known, i, group);
      if group in known[i].groups {
        ids := ids + [known[i].id];
      }
    }
    assert known[..|known|] == known;
    ids := Sort(ids);
  }

  predicate DistinctIds(known: seq<PeerInfo>) { forall i, j :: 0 <= i < j < |known| ==> known[i].id != known[j].id }

  lemma {:induction false} InGroupHolds(known: seq<PeerInfo>, group: string)
    ensures forall id :: id in InGroup(known, group) <==> exists p :: p in known && p.id == id && group in p.groups
    decreases |known|
  {
    if known == [] {
    } else {
      var init, last := known[..|known| - 1], known[|known| - 1];
      assert known == init + [last];
      InGroupHolds(init, group);
      assert last in known;
    }
  }

  lemma {:induction false} InGroupDistinct(known: seq<PeerInfo>, group: string)
    requires DistinctIds(known)
    ensures Distinct(InGroup(known, group))
    decreases |known|
  {
    if known == [] {
    } else {
      var init, last := known[..|known| - 1], known[|known| - 1];
      InGroupHolds(init, group);
      InGroupDistinct(init, group);
      assert forall p :: p in init ==> p.id != last.id;
      assert last.id !in InGroup(init, group);
    }
  }

  /** The same peers, of which none has the group any longer; every other group is as it was. */
  ghost predicate GroupRemoved(now: seq<PeerInfo>, before: seq<PeerInfo>, group: string) {
    && |now| == |before|
    && (forall i :: 0 <= i < |now| ==> now[i].id == before[i].id)
    && forall i, g :: 0 <= i < |now| ==> (g in now[i].groups <==> g in before[i].groups && g != group)
  }

  /** Leaving a group empties its ring and leaves every other ring as it is. */
  lemma {:induction false} RemovedFromRing(now: seq<PeerInfo>, before: seq<PeerInfo>, group: string, other: string)
    requires GroupRemoved(now, before, group)
    ensures InGroup(now, group) == []
    ensures other != group ==> InGroup(now, other) == InGroup(before, other)
    decreases |now|
  {
    if now == [] {
    } else {
      RemovedFromRing(now[..|now| - 1], before[..|before| - 1], group, other);
    }
  }

  /** The ids of a ring are distinct if the known peers have distinct ids, none of them this peer's own. */
  lemma MembersDistinct(ids: seq<Id>, known: seq<PeerInfo>, group: string, self: Id)
    requires multiset(ids) == multiset{self} + multiset(InGroup(known, group))
    requires DistinctIds(known) && forall p :: p in known ==> p.id != self
    ensures Distinct(ids)
  {
    InGroupHolds(known, group);
    InGroupDistinct(known, group);
    var all := [self] + InGroup(known, group);
    assert self !in InGroup(known, group);
    assert multiset(all) == multiset(ids);
    DistinctMoves(all, ids);
  }

  /** Whether the members of a list are distinct depends only on how often each occurs. */
  lemma DistinctMoves(a: seq<Id>, b: seq<Id>)
    requires Distinct(a) && multiset(a) == multiset(b)
    ensures Distinct(b)
  {
    forall i, j | 0 <= i < j < |b|
      ensures b[i] != b[j]
    {
      if b[i] == b[j] {
        assert b == b[..j] + b[j..];
        assert b[i] in b[..j] by { assert b[..j][i] == b[i]; }
        assert b[j] in b[j..];
        assert multiset(b)[b[i]] >= 2;
        OccursOnce(a, b[i]);
      }
    }
  }

  lemma {:induction false} OccursOnce(a: seq<Id>, x: Id)
    requires Distinct(a)
    ensures multiset(a)[x] <= 1
  {
    if a == [] {
    } else {
      OccursOnce(a[1..], x);
      assert a == [a[0]] + a[1..];
      if a[0] == x {
        assert x !in a[1..];
        assert multiset(a[1..])[x] == 0;
      }
    }
  }

  method Insert(sorted: seq<Id>, x: Id) returns (out: seq<Id>)
    requires Sorted(sorted)
    ensures Sorted(out) && multiset(out) == multiset(sorted) + multiset{x}
  {
    var j := 0;
    while j < |sorted| && sorted[j] <= x
      invariant 0 <= j <= |sorted|
      invariant forall k :: 0 <= k < j ==> sorted[k] <= x
    {
      j := j + 1;
    }
    assert sorted == sorted[..j] + sorted[j..];
    out := sorted[..j] + [x] + sorted[j..];
  }

  method Sort(s: seq<Id>) returns (out: seq<Id>)
    ensures Sorted(out) && multiset(out) == multiset(s)
  {
    out := [];
    for i := 0 to |s|
      invariant Sorted(out) && multiset(out) == multiset(s[..i])
    {
      assert s[..i + 1] == s[..i] + [s[i]];
      out := Insert(out, s[i]);
    }
    assert s[..|s|] == s;
  }

  lemma SameLeast(a: seq<Id>, b: seq<Id>)
    requires Sorted(a) && Sorted(b) && multiset(a) == multiset(b) && a != [] && b != []
    ensures a[0] == b[0]
  {
    assert a[0] in multiset(b) && b[0] in multiset(a);
    var i :| 0 <= i < |b| && b[i] == a[0];
    var j :| 0 <= j < |a| && a[j] == b[0];
  }

  /** Every member computes the same ring, whatever order it knows the others in. */
  lemma {:induction false} SortedIsUnique(a: seq<Id>, b: seq<Id>)
    requires Sorted(a) && Sorted(b) && multiset(a) == multiset(b)
    ensures a == b
    decreases |a|
  {
    assert |multiset(a)| == |a| && |multiset(b)| == |b|;
    if a == [] {
    } else {
      SameLeast(a, b);
      assert a == [a[0]] + a[1..] && b == [b[0]] + b[1..];
      assert multiset(a[1..]) == multiset(a) - multiset{a[0]} && multiset(b[1..]) == multiset(b) - multiset{b[0]};
      SortedIsUnique(a[1..], b[1..]);
    }
  }

  // ---- candidates ----

  function Reverse(s: seq<Id>): seq<Id> { if s == [] then [] else Reverse(s[1..]) + [s[0]] }

  lemma {:induction false} ReverseAt(s: seq<Id>, k: nat)
    requires k < |s|
    ensures |Reverse(s)| == |s| && Reverse(s)[k] == s[|s| - 1 - k]
  {
    if |s| <= 1 {
    } else {
      ReverseAt(s[1..], if k < |s| - 1 then k else 0);
    }
  }

  /** The other members, nearest first, going once around the ring. */
  function Around(members: seq<Id>, self: nat, dir: Direction): seq<Id>
    requires self < |members|
  {
    if dir.Forward? then members[self + 1..] + members[..self]
    else Reverse(members[..self]) + Reverse(members[self + 1..])
  }

  lemma AroundForward(members: seq<Id>, self: nat, i: nat)
    requires self < |members| && i < |members| - 1
    ensures |Around(members, self, Forward)| == |members| - 1
    ensures Around(members, self, Forward)[i] == members[Turn(self, Forward, i + 1, |members|)]
  {
  }

  lemma {:induction false} ReverseLength(s: seq<Id>)
    ensures |Reverse(s)| == |s|
  {
    if s == [] {
    } else {
      ReverseLength(s[1..]);
    }
  }

  lemma AroundBackward(members: seq<Id>, self: nat, i: nat)
    requires self < |members| && i < |members| - 1
    ensures |Around(members, self, Backward)| == |members| - 1
    ensures Around(members, self, Backward)[i] == members[Turn(self, Backward, i + 1, |members|)]
  {
    ReverseLength(members[..self]);
    ReverseLength(members[self + 1..]);
    if i < self {
      ReverseAt(members[..self], i);
    } else {
      ReverseAt(members[self + 1..], i - self);
    }
  }

  lemma AroundAt(members: seq<Id>, self: nat, dir: Direction, i: nat)
    requires self < |members| && i < |members| - 1
    ensures |Around(members, self, dir)| == |members| - 1
    ensures Around(members, self, dir)[i] == members[Turn(self, dir, i + 1, |members|)]
  {
    if dir.Forward? {
      AroundForward(members, self, i);
    } else {
      AroundBackward(members, self, i);
    }
  }

  /** The index reached from `i` after `steps` <= n steps around a ring of `n`. */
  function Turn(i: nat, dir: Direction, steps: nat, n: nat): (r: nat)
    requires i < n && steps < n
    ensures r < n
  {
    if dir.Forward? then (if i + steps < n then i + steps else i + steps - n)
    else (if steps <= i then i - steps else i + n - steps)
  }

  /** One step of the loop: `idx = (idx + dir + n) % n`. */
  lemma TurnStep(i: nat, dir: Direction, steps: nat, n: nat)
    requires i < n && steps + 1 < n
    ensures (Turn(i, dir, steps, n) + (if dir.Forward? then 1 else -1) + n) % n == Turn(i, dir, steps + 1, n)
  {
    var x := Turn(i, dir, steps, n) + (if dir.Forward? then 1 else -1) + n;
    ModIs(x, if x >= 2 * n then 2 else if x >= n then 1 else 0, n);
  }

  lemma {:induction false} Multiple(d: int, n: nat)
    ensures d >= 1 ==> d * n >= n
    ensures d <= -1 ==> d * n + n <= 0
    decreases if d < 0 then -d else d
  {
    if d > 1 {
      Multiple(d - 1, n);
      assert d * n == (d - 1) * n + n;
    } else if d < -1 {
      Multiple(d + 1, n);
      assert d * n == (d + 1) * n - n;
    }
  }

  lemma ModIs(x: int, q: nat, n: nat)
    requires n > 0 && q * n <= x < q * n + n
    ensures x % n == x - q * n
  {
    var d := x / n - q;
    Multiple(d, n);
    assert x == (x / n) * n + x % n;
    assert (x / n) * n == q * n + d * n;
  }

  method RingCandidateOrder(members: seq<Id>, self: nat, dir: Direction) returns (order: seq<Id>)
    requires self < |members|
    ensures order == Around(members, self, dir)
  {
    var n := |members|;
    var step := if dir.Forward? then 1 else -1;
    var idx: int := self;
    order := [];
    for i := 0 to n - 1
      invariant idx == Turn(self, dir, i, n) && |order| == i
      invariant forall j :: 0 <= j < i ==> order[j] == members[Turn(self, dir, j + 1, n)]
    {
      TurnStep(self, dir, i, n);
      idx := (idx + step + n) % n;
      order := order + [members[idx]];
    }
    if n == 1 {
      assert members[..0] == [] && members[1..] == [] && self == 0;
    } else {
      AroundAt(members, self, dir, 0);
    }
    forall j | 0 <= j < n - 1 ensures order[j] == Around(members, self, dir)[j] {
      AroundAt(members, self, dir, j);
    }
  }

  // ---- connecting ----

  function Online(ids: seq<Id>, online: set<Id>): seq<Id> {
    if ids == [] then []
    else Online(ids[..|ids| - 1], online) + if ids[|ids| - 1] in online then [ids[|ids| - 1]] else []
  }

  function Take(s: seq<Id>, n: nat): seq<Id> { if |s| <= n then s else s[..n] }

  /** Dials the candidates in order until `want` of them are connected. */
  method ConnectRingCandidates(candidates: seq<Id>, want: nat, online: set<Id>) returns (found: seq<Id>)
    ensures found == Take(Online(candidates, online), want)
  {
    found := [];
    for i := 0 to |candidates|
      invariant found == Online(candidates[..i], online) && |found| <= want
    {
      if |found| >= want {
        OnlinePrefix(candidates, i, online);
        return;
      }
      assert candidates[..i + 1][..i] == candidates[..i];
      if candidates[i] in online {
        found := found + [candidates[i]];
      }
    }
    assert candidates[..|candidates|] == candidates;
  }

  lemma {:induction false} OnlineConcat(a: seq<Id>, b: seq<Id>, online: set<Id>)
    ensures Online(a + b, online) == Online(a, online) + Online(b, online)
    decreases |b|
  {
    if b == [] {
      assert a + b == a;
    } else {
      assert (a + b)[..|a + b| - 1] == a + b[..|b| - 1];
      OnlineConcat(a, b[..|b| - 1], online);
    }
  }

  lemma OnlinePrefix(s: seq<Id>, i: nat, online: set<Id>)
    requires i <= |s|
    ensures Online(s[..i], online) <= Online(s, online)
  {
    assert s == s[..i] + s[i..];
    OnlineConcat(s[..i], s[i..], online);
  }

  lemma {:induction false} OnlineReverse(s: seq<Id>, online: set<Id>)
    ensures Online(Reverse(s), online) == Reverse(Online(s, online))
  {
    if s == [] {
    } else {
      OnlineConcat(Reverse(s[1..]), [s[0]], online);
      assert s == [s[0]] + s[1..];
      OnlineConcat([s[0]], s[1..], online);
      OnlineReverse(s[1..], online);
      assert Online([s[0]], online) == if s[0] in online then [s[0]] else [] by { assert [s[0]][..0] == []; }
      if s[0] in online {
        assert ([s[0]] + Online(s[1..], online))[1..] == Online(s[1..], online);
      } else {
        assert [] + Online(s[1..], online) == Online(s[1..], online);
        assert Reverse(Online(s[1..], online)) + [] == Reverse(Online(s[1..], online));
      }
    }
  }

  /** The online candidates of a member are the online members around it: offline ones leave no trace. */
  lemma AroundOnline(members: seq<Id>, self: nat, dir: Direction, online: set<Id>)
    requires self < |members| && members[self] in online
    ensures var ring, at := Online(members, online), |Online(members[..self], online)|;
            && at < |ring| && ring[at] == members[self]
            && Online(Around(members, self, dir), online) == Around(ring, at, dir)
  {
    var before, after := members[..self], members[self + 1..];
    assert members == (before + [members[self]]) + after;
    OnlineConcat(before, [members[self]], online);
    OnlineConcat(before + [members[self]], after, online);
    assert [members[self]][..0] == [];
    assert Online([members[self]], online) == [members[self]];
    var ring, at := Online(members, online), |Online(before, online)|;
    assert ring == (Online(before, online) + [members[self]]) + Online(after, online);
    assert ring[..at] == Online(before, online) && ring[at + 1..] == Online(after, online);
    if dir.Forward? {
      OnlineConcat(after, before, online);
    } else {
      OnlineConcat(Reverse(before), Reverse(after), online);
      OnlineReverse(before, online);
      OnlineReverse(after, online);
    }
  }

  // ---- the links a member requires ----

  /** The members that `maintainGroupRings` keeps a link to, in both directions. */
  function Required(members: seq<Id>, self: nat, online: set<Id>): set<Id>
    requires self < |members|
  {
    var back := Take(Online(Around(members, self, Backward), online), NEIGHBOR_COUNT);
    var forth := Take(Online(Around(members, self, Forward), online), NEIGHBOR_COUNT);
    (set id | id in back) + (set id | id in forth)
  }

  method RequiredPeers(members: seq<Id>, self: nat, online: set<Id>) returns (required: set<Id>)
    requires self < |members|
    ensures required == Required(members, self, online)
  {
    var back := RingCandidateOrder(members, self, Backward);
    var forth := RingCandidateOrder(members, self, Forward);
    back := ConnectRingCandidates(back, NEIGHBOR_COUNT, online);
    forth := ConnectRingCandidates(forth, NEIGHBOR_COUNT, online);
    required := (set id | id in back) + (set id | id in forth);
  }

  /** At distance one or two on a ring of `m`, either way. */
  predicate Near(p: nat, q: nat, m: nat)
    requires p < m && q < m
  {
    exists dir, steps | 1 <= steps <= NEIGHBOR_COUNT && steps < m :: q == Turn(p, dir, steps, m)
  }

  lemma TurnBack(p: nat, dir: Direction, steps: nat, m: nat)
    requires p < m && steps < m
    ensures Turn(Turn(p, dir, steps, m), if dir.Forward? then Backward else Forward, steps, m) == p
  {
  }

  lemma NearIsSymmetric(p: nat, q: nat, m: nat)
    requires p < m && q < m && Near(p, q, m)
    ensures Near(q, p, m)
  {
    var dir, steps: nat :| 1 <= steps <= NEIGHBOR_COUNT && steps < m && q == Turn(p, dir, steps, m);
    TurnBack(p, dir, steps, m);
  }

  lemma TakenAt(ring: seq<Id>, at: nat, dir: Direction, id: Id)
    requires at < |ring|
    ensures id in Take(Around(ring, at, dir), NEIGHBOR_COUNT) <==>
              exists steps | 1 <= steps <= NEIGHBOR_COUNT && steps < |ring| :: ring[Turn(at, dir, steps, |ring|)] == id
  {
    var around := Around(ring, at, dir);
    var taken := Take(around, NEIGHBOR_COUNT);
    forall i: nat | i < |ring| - 1 ensures |around| == |ring| - 1 && around[i] == ring[Turn(at, dir, i + 1, |ring|)] {
      AroundAt(ring, at, dir, i);
    }
    if |ring| == 1 {
      assert ring[..0] == [] && ring[1..] == [] && at == 0;
      assert around == [];
    } else {
      AroundAt(ring, at, dir, 0);
      if id in taken {
        var i :| 0 <= i < |taken| && taken[i] == id;
        assert ring[Turn(at, dir, i + 1, |ring|)] == id;
      }
      if exists steps | 1 <= steps <= NEIGHBOR_COUNT && steps < |ring| :: ring[Turn(at, dir, steps, |ring|)] == id {
        var steps: nat :| 1 <= steps <= NEIGHBOR_COUNT && steps < |ring| && ring[Turn(at, dir, steps, |ring|)] == id;
        assert taken[steps - 1] == id;
      }
    }
  }

  ghost function Position(members: seq<Id>, self: nat, online: set<Id>): nat
    requires self < |members|
  {
    |Online(members[..self], online)|
  }

  lemma {:induction false} OnlineMembers(s: seq<Id>, online: set<Id>)
    ensures forall id :: id in Online(s, online) <==> id in s && id in online
    ensures Distinct(s) ==> Distinct(Online(s, online))
  {
    if s == [] {
    } else {
      var init := s[..|s| - 1];
      assert s == init + [s[|s| - 1]];
      OnlineMembers(init, online);
    }
  }

  /** Offline members do not matter: the required links are found on the ring of online members. */
  lemma RequiredOnline(members: seq<Id>, self: nat, online: set<Id>, id: Id)
    requires self < |members| && members[self] in online
    ensures var ring, at := Online(members, online), Position(members, self, online);
            && at < |ring|
            && (id in Required(members, self, online)
                <==> id in Take(Around(ring, at, Forward), NEIGHBOR_COUNT)
                     || id in Take(Around(ring, at, Backward), NEIGHBOR_COUNT))
  {
    AroundOnline(members, self, Forward, online);
    AroundOnline(members, self, Backward, online);
  }

  lemma TakenIsNear(ring: seq<Id>, at: nat, q: nat)
    requires at < |ring| && q < |ring| && Distinct(ring)
    ensures Near(at, q, |ring|)
            <==> ring[q] in Take(Around(ring, at, Forward), NEIGHBOR_COUNT)
                 || ring[q] in Take(Around(ring, at, Backward), NEIGHBOR_COUNT)
  {
    TakenAt(ring, at, Forward, ring[q]);
    TakenAt(ring, at, Backward, ring[q]);
    if Near(at, q, |ring|) {
      var dir, steps: nat :| 1 <= steps <= NEIGHBOR_COUNT && steps < |ring| && q == Turn(at, dir, steps, |ring|);
      assert ring[Turn(at, dir, steps, |ring|)] == ring[q];
    }
  }

  /** The links a member requires are those to the online members near it on the ring of online members. */
  lemma RequiredIsNear(members: seq<Id>, self: nat, online: set<Id>, q: nat)
    requires self < |members| && members[self] in online && Distinct(members)
    requires q < |Online(members, online)|
    ensures Position(members, self, online) < |Online(members, online)|
    ensures Online(members, online)[q] in Required(members, self, online)
            <==> Near(Position(members, self, online), q, |Online(members, online)|)
  {
    var ring := Online(members, online);
    RequiredOnline(members, self, online, ring[q]);
    OnlineMembers(members, online);
    TakenIsNear(ring, Position(members, self, online), q);
  }

  /** Whatever one end requires, the other end requires too. */
  lemma RequiredIsMutual(members: seq<Id>, a: nat, b: nat, online: set<Id>)
    requires a < |members| && b < |members| && members[a] in online && members[b] in online && Distinct(members)
    ensures members[b] in Required(members, a, online) <==> members[a] in Required(members, b, online)
  {
    var ring := Online(members, online);
    var p, q := Position(members, a, online), Position(members, b, online);
    AroundOnline(members, a, Forward, online);
    AroundOnline(members, b, Forward, online);
    RequiredIsNear(members, a, online, q);
    RequiredIsNear(members, b, online, p);
    if Near(p, q, |ring|) { NearIsSymmetric(p, q, |ring|); }
    if Near(q, p, |ring|) { NearIsSymmetric(q, p, |ring|); }
  }

  /** The members near a position are those within two places, of which there are four on a ring of five or more. */
  lemma NearCount(p: nat, m: nat, near: set<nat>)
    requires p < m && forall q: nat :: q in near <==> q < m && Near(p, q, m)
    ensures |near| == if m <= 4 then m - 1 else 4
  {
    NearPlaces(p, m);
    if m == 1 {
      assert near == {};
    } else if m == 2 {
      assert near == {Turn(p, Forward, 1, m)};
    } else if m == 3 {
      assert near == {Turn(p, Forward, 1, m), Turn(p, Backward, 1, m)};
    } else if m == 4 {
      assert near == {Turn(p, Forward, 1, m), Turn(p, Backward, 1, m), Turn(p, Forward, 2, m)};
    } else {
      assert near == {Turn(p, Forward, 1, m), Turn(p, Backward, 1, m), Turn(p, Forward, 2, m),
                      Turn(p, Backward, 2, m)};
    }
  }

  lemma NearPlaces(p: nat, m: nat)
    requires p < m
    ensures forall q: nat :: q < m ==>
              (Near(p, q, m) <==>
                 || (m > 1 && (q == Turn(p, Forward, 1, m) || q == Turn(p, Backward, 1, m)))
                 || (m > 2 && (q == Turn(p, Forward, 2, m) || q == Turn(p, Backward, 2, m))))
  {
  }

  lemma CountMapped(ring: seq<Id>, near: set<nat>, ids: set<Id>)
    requires Distinct(ring) && forall q :: q in near ==> q < |ring|
    requires forall id :: id in ids <==> exists q :: q in near && ring[q] == id
    ensures |ids| == |near|
  {
    if near == {} {
      assert forall id :: id !in ids;
      assert |ids| == 0;
    } else {
      var q :| q in near;
      var rest, others := near - {q}, ids - {ring[q]};
      forall id
        ensures id in others <==> exists r :: r in rest && ring[r] == id
      {
      }
      CountMapped(ring, rest, others);
      assert ring[q] in ids;
    }
  }

  lemma RequiredPlaces(members: seq<Id>, self: nat, online: set<Id>, near: set<nat>, id: Id)
    requires self < |members| && members[self] in online && Distinct(members)
    requires Position(members, self, online) < |Online(members, online)|
    requires forall q: nat :: q in near <==> q < |Online(members, online)|
                                             && Near(Position(members, self, online), q, |Online(members, online)|)
    ensures id in Required(members, self, online) <==> exists q :: q in near && Online(members, online)[q] == id
  {
    var ring := Online(members, online);
    if id in Required(members, self, online) {
      RequiredAreOnline(members, self, online, id);
      var q: nat :| q < |ring| && ring[q] == id;
      RequiredIsNear(members, self, online, q);
      assert q in near;
    }
    if q :| q in near && ring[q] == id {
      RequiredIsNear(members, self, online, q);
    }
  }

  /** Every online member of a ring of `n` online members requires four links, or all the others if they are fewer. */
  lemma RequiredCount(members: seq<Id>, self: nat, online: set<Id>)
    requires self < |members| && members[self] in online && Distinct(members)
    ensures var n := |set id | id in members && id in online|;
            |Required(members, self, online)| == if n <= 4 then n - 1 else 4
  {
    var ring, at := Online(members, online), Position(members, self, online);
    AroundOnline(members, self, Forward, online);
    OnlineMembers(members, online);
    var near := set q: nat | q < |ring| && Near(at, q, |ring|);
    NearCount(at, |ring|, near);
    forall id
      ensures id in Required(members, self, online) <==> exists q :: q in near && ring[q] == id
    {
      RequiredPlaces(members, self, online, near, id);
    }
    CountMapped(ring, near, Required(members, self, online));
    OnlineCount(members, online);
  }

  lemma OnlineCount(members: seq<Id>, online: set<Id>)
    requires Distinct(members)
    ensures |set id | id in members && id in online| == |Online(members, online)|
  {
    var ring := Online(members, online);
    OnlineMembers(members, online);
    CountDistinct(ring);
    assert (set id | id in members && id in online) == set id | id in ring;
  }

  lemma RequiredAreOnline(members: seq<Id>, self: nat, online: set<Id>, id: Id)
    requires self < |members| && members[self] in online && id in Required(members, self, online)
    ensures id in Online(members, online)
  {
    var ring, at := Online(members, online), Position(members, self, online);
    RequiredOnline(members, self, online, id);
    TakenAt(ring, at, Forward, id);
    TakenAt(ring, at, Backward, id);
  }

  lemma {:induction false} CountDistinct(s: seq<Id>)
    requires Distinct(s)
    ensures |set id | id in s| == |s|
  {
    if s == [] {
    } else {
      var init, last := s[..|s| - 1], s[|s| - 1];
      assert s == init + [last];
      CountDistinct(init);
      assert (set id | id in s) == (set id | id in init) + {last};
    }
  }

  // ---- trimming ----

  /** Closes the links to group peers that are neither required nor in use. */
  method DisconnectExtraPeers(connected: seq<Id>, required: set<Id>, grouped: set<Id>, inUse: set<Id>)
      returns (closed: seq<Id>)
    ensures forall id :: id in closed <==> id in connected && id !in required && id in grouped && id !in inUse
  {
    closed := [];
    for i := 0 to |connected|
      invariant forall id :: id in closed <==> id in connected[..i] && id !in required && id in grouped && id !in inUse
    {
      if connected[i] in required || connected[i] !in grouped || connected[i] in inUse {
        continue;
      }
      closed := closed + [connected[i]];
    }
    assert connected[..|connected|] == connected;
  }

  /** A member that trims to what it requires, in this group and perhaps others, never closes a link the other end
      requires. */
  lemma TrimmingIsMutual(members: seq<Id>, a: nat, b: nat, online: set<Id>, required: set<Id>)
    requires a < |members| && b < |members| && members[a] in online && members[b] in online && Distinct(members)
    requires Required(members, a, online) <= required
    requires members[b] !in required
    ensures members[a] !in Required(members, b, online)
  {
    RequiredIsMutual(members, a, b, online);
  }

  // ---- resilience ----

  /** `x` and `y` keep a link. */
  ghost predicate Linked(members: seq<Id>, online: set<Id>, x: Id, y: Id) {
    exists a: nat :: a < |members| && members[a] == x && x in online && y in Required(members, a, online)
  }

  /** A walk along kept links that avoids one member. */
  ghost predicate Walk(members: seq<Id>, online: set<Id>, gone: Id, path: seq<Id>)
    decreases |path|
  {
    path != [] && path[0] != gone && path[0] in members && path[0] in online
    && (|path| > 1 ==> Linked(members, online, path[0], path[1]) && Walk(members, online, gone, path[1..]))
  }

  lemma {:induction false} FindOnline(members: seq<Id>, online: set<Id>, p: nat) returns (a: nat)
    requires p < |Online(members, online)|
    ensures a < |members| && members[a] == Online(members, online)[p] && members[a] in online
    ensures Position(members, a, online) == p
  {
    var init := members[..|members| - 1];
    assert members == init + [members[|members| - 1]];
    if p < |Online(init, online)| {
      a := FindOnline(init, online, p);
      assert members[..a] == init[..a];
    } else {
      a := |members| - 1;
    }
  }

  lemma NearLinked(members: seq<Id>, online: set<Id>, p: nat, q: nat)
    requires Distinct(members) && p < |Online(members, online)| && q < |Online(members, online)|
    requires Near(p, q, |Online(members, online)|)
    ensures Linked(members, online, Online(members, online)[p], Online(members, online)[q])
  {
    var a := FindOnline(members, online, p);
    RequiredIsNear(members, a, online, q);
  }

  lemma {:induction false} WalkUp(members: seq<Id>, online: set<Id>, gone: Id, p: nat, q: nat) returns (path: seq<Id>)
    requires Distinct(members) && p <= q < |Online(members, online)|
    requires Online(members, online)[p] != gone && Online(members, online)[q] != gone
    ensures Walk(members, online, gone, path)
    ensures path[0] == Online(members, online)[p] && path[|path| - 1] == Online(members, online)[q]
    decreases q - p
  {
    var ring := Online(members, online);
    OnlineMembers(members, online);
    if p == q {
      path := [ring[p]];
    } else {
      var next := if ring[p + 1] == gone then p + 2 else p + 1;
      assert next == Turn(p, Forward, next - p, |ring|);
      NearLinked(members, online, p, next);
      var rest := WalkUp(members, online, gone, next, q);
      path := [ring[p]] + rest;
      assert path[1..] == rest;
    }
  }

  lemma {:induction false} WalkDown(members: seq<Id>, online: set<Id>, gone: Id, p: nat, q: nat) returns (path: seq<Id>)
    requires Distinct(members) && q <= p < |Online(members, online)|
    requires Online(members, online)[p] != gone && Online(members, online)[q] != gone
    ensures Walk(members, online, gone, path)
    ensures path[0] == Online(members, online)[p] && path[|path| - 1] == Online(members, online)[q]
    decreases p - q
  {
    var ring := Online(members, online);
    OnlineMembers(members, online);
    if p == q {
      path := [ring[p]];
    } else {
      var next := if ring[p - 1] == gone then p - 2 else p - 1;
      assert next == Turn(p, Backward, p - next, |ring|);
      NearLinked(members, online, p, next);
      var rest := WalkDown(members, online, gone, next, q);
      path := [ring[p]] + rest;
      assert path[1..] == rest;
    }
  }

  /** Whoever is online, the kept links connect them all, and still do when any one of them disappears. */
  lemma Resilient(members: seq<Id>, online: set<Id>, x: Id, y: Id, gone: Id) returns (path: seq<Id>)
    requires Distinct(members) && x in members && y in members
    requires x in online && y in online && x != gone && y != gone
    ensures Walk(members, online, gone, path) && path[0] == x && path[|path| - 1] == y
  {
    OnlineMembers(members, online);
    var ring := Online(members, online);
    var p :| 0 <= p < |ring| && ring[p] == x;
    var q :| 0 <= q < |ring| && ring[q] == y;
    if p <= q {
      path := WalkUp(members, online, gone, p, q);
    } else {
      path := WalkDown(members, online, gone, p, q);
    }
  }
}
