/** The DNS crawl of internal/troubleshooting/dns/dns.go and the record order of model/model.go. */
module DnsCrawl {
  import opened Basics
  import opened Ordering

  // ---- records and their order ----

  datatype Entry = Entry(name: string, kind: string, details: string,
                         priority: Option<int>, weight: Option<int>, port: Option<int>, ttl: nat)

  function IntOrZero(v: Option<int>): int { if v.Some? then v.value else 0 }

  predicate Less(e: Entry, o: Entry) {
    if e.name != o.name then StrLess(e.name, o.name)
    else if e.kind != o.kind then StrLess(e.kind, o.kind)
    else if e.details != o.details then StrLess(e.details, o.details)
    else if IntOrZero(e.priority) != IntOrZero(o.priority) then IntOrZero(e.priority) < IntOrZero(o.priority)
    else if IntOrZero(e.weight) != IntOrZero(o.weight) then IntOrZero(e.weight) < IntOrZero(o.weight)
    else IntOrZero(e.port) < IntOrZero(o.port)
  }

  /** The time to live is not compared, and an absent number is zero. */
  predicate Equal(e: Entry, o: Entry) {
    && e.name == o.name && e.kind == o.kind && e.details == o.details
    && IntOrZero(e.priority) == IntOrZero(o.priority)
    && IntOrZero(e.weight) == IntOrZero(o.weight)
    && IntOrZero(e.port) == IntOrZero(o.port)
  }

  /** Exactly one of less, equal and greater holds. */
  lemma LessTrichotomy(a: Entry, b: Entry)
    ensures Less(a, b) || Equal(a, b) || Less(b, a)
    ensures !(Less(a, b) && Less(b, a))
    ensures Equal(a, b) ==> !Less(a, b) && !Less(b, a)
  {
    StrTrichotomy(a.name, b.name);
    StrTrichotomy(a.kind, b.kind);
    StrTrichotomy(a.details, b.details);
  }

  lemma LessTransitive(a: Entry, b: Entry, c: Entry)
    requires Less(a, b) && Less(b, c)
    ensures Less(a, c)
  {
    StrTrichotomy(a.name, b.name);
    StrTrichotomy(a.kind, b.kind);
    StrTrichotomy(a.details, b.details);
    if StrLess(a.name, b.name) && StrLess(b.name, c.name) { StrTransitive(a.name, b.name, c.name); }
    if StrLess(a.kind, b.kind) && StrLess(b.kind, c.kind) { StrTransitive(a.kind, b.kind, c.kind); }
    if StrLess(a.details, b.details) && StrLess(b.details, c.details) {
      StrTransitive(a.details, b.details, c.details);
    }
    StrTrichotomy(a.name, c.name);
    StrTrichotomy(a.kind, c.kind);
    StrTrichotomy(a.details, c.details);
  }

  /** Equal records are interchangeable in the order. */
  lemma LessRespectsEqual(a: Entry, b: Entry, c: Entry)
    requires Equal(a, b)
    ensures Less(a, c) <==> Less(b, c)
    ensures Less(c, a) <==> Less(c, b)
  {
  }

  /**
   * The fields in the order in which they decide: each one whatever those after it are, and an absent number like zero.
   * The time to live decides nothing.
   */
  lemma FieldsDecide(e: Entry, o: Entry, x: string, y: string, m: int, n: int)
    requires StrLess(x, y) && m < n
    ensures Less(e.(name := x), o.(name := y))
    ensures e.name == o.name ==> Less(e.(kind := x), o.(kind := y))
    ensures e.name == o.name && e.kind == o.kind ==> Less(e.(details := x), o.(details := y))
    ensures e.name == o.name && e.kind == o.kind && e.details == o.details
            ==> Less(e.(priority := Some(m)), o.(priority := Some(n)))
    ensures Less(e.(weight := Some(m)), e.(weight := Some(n), port := o.port, ttl := o.ttl))
    ensures Less(e.(port := Some(m)), e.(port := Some(n), ttl := o.ttl))
    ensures Equal(e.(priority := None, weight := None, port := None),
                  e.(priority := Some(0), weight := Some(0), port := Some(0), ttl := o.ttl))
  {
    StrTrichotomy(x, y);
  }

  // ---- sorting and removing duplicates ----

  predicate Sorted(s: seq<Entry>) {
    forall i, j :: 0 <= i < j < |s| ==> !Less(s[j], s[i])
  }

  predicate Strict(s: seq<Entry>) {
    forall i, j :: 0 <= i < j < |s| ==> Less(s[i], s[j])
  }

  /** Any order of equal records will do: the source's sort is not stable. */
  method InsertSorted(sorted: seq<Entry>, e: Entry) returns (out: seq<Entry>)
    requires Sorted(sorted)
    ensures Sorted(out) && multiset(out) == multiset(sorted) + multiset{e}
  {
    var k := 0;
    while k < |sorted| && Less(sorted[k], e)
      invariant k <= |sorted|
      invariant forall i :: 0 <= i < k ==> Less(sorted[i], e)
    {
      k := k + 1;
    }
    out := sorted[..k] + [e] + sorted[k..];
    assert sorted == sorted[..k] + sorted[k..];
    forall i | 0 <= i < |sorted|
      ensures if i < k then !Less(e, sorted[i]) else !Less(sorted[i], e)
    {
      LessTrichotomy(sorted[i], e);
      if i > k && Less(sorted[i], e) {
        LessTrichotomy(sorted[k], sorted[i]);
        if Less(sorted[k], sorted[i]) {
          LessTransitive(sorted[k], sorted[i], e);
        } else {
          LessRespectsEqual(sorted[k], sorted[i], e);
        }
      }
    }
  }

  method SortEntries(entries: seq<Entry>) returns (out: seq<Entry>)
    ensures Sorted(out) && multiset(out) == multiset(entries)
  {
    out := [];
    for i := 0 to |entries|
      invariant Sorted(out) && multiset(out) == multiset(entries[..i])
    {
      assert entries[..i + 1] == entries[..i] + [entries[i]];
      out := InsertSorted(out, entries[i]);
    }
    assert entries[..|entries|] == entries;
  }

  /** Some record of `result` equals `e`. */
  ghost predicate Represented(result: seq<Entry>, e: Entry) {
    exists r :: r in result && Equal(r, e)
  }

  /** The records of `result` are some of `entries`, and represent all of them. */
  ghost predicate SameClasses(result: seq<Entry>, entries: seq<Entry>) {
    && (forall r :: r in result ==> r in entries)
    && (forall e :: e in entries ==> Represented(result, e))
  }

  /** The list built from the first `i` records, ending with one like the last of them. */
  ghost predicate Deduped(result: seq<Entry>, sorted: seq<Entry>, i: nat) {
    && i <= |sorted| && Strict(result) && SameClasses(result, sorted[..i])
    && if i == 0 then result == [] else result != [] && Equal(result[|result| - 1], sorted[i - 1])
  }

  method DedupSorted(entries: seq<Entry>) returns (result: seq<Entry>)
    ensures Strict(result) && SameClasses(result, entries)
  {
    var sorted := SortEntries(entries);
    result := [];
    for i := 0 to |sorted|
      invariant Deduped(result, sorted, i)
    {
      var e := sorted[i];
      if i > 0 && Equal(e, sorted[i - 1]) {
        DedupSkip(result, sorted, i);
        continue;
      }
      DedupAdd(result, sorted, i);
      result := result + [e];
    }
    assert sorted[..|sorted|] == sorted;
    ClassesOfPermutation(result, sorted, entries);
  }

  /** A record like the one before it adds nothing. */
  lemma DedupSkip(result: seq<Entry>, sorted: seq<Entry>, i: nat)
    requires 0 < i < |sorted| && Deduped(result, sorted, i) && Equal(sorted[i], sorted[i - 1])
    ensures Deduped(result, sorted, i + 1)
  {
    assert sorted[..i + 1] == sorted[..i] + [sorted[i]];
    ClassesSame(result, sorted[..i], sorted[i]);
  }

  /** Any other comes behind all those listed so far. */
  lemma DedupAdd(result: seq<Entry>, sorted: seq<Entry>, i: nat)
    requires i < |sorted| && Sorted(sorted) && Deduped(result, sorted, i)
    requires i > 0 ==> !Equal(sorted[i], sorted[i - 1])
    ensures Deduped(result + [sorted[i]], sorted, i + 1)
  {
    var e := sorted[i];
    assert sorted[..i + 1] == sorted[..i] + [e];
    ClassesSnoc(result, sorted[..i], e);
    if i > 0 {
      LastIsLess(result[|result| - 1], sorted[i - 1], e);
      StrictSnoc(result, e);
    }
  }

  lemma LastIsLess(last: Entry, before: Entry, e: Entry)
    requires Equal(last, before) && !Less(e, before) && !Equal(e, before)
    ensures Less(last, e)
  {
    LessTrichotomy(before, e);
    LessRespectsEqual(last, before, e);
  }

  lemma ClassesSame(result: seq<Entry>, entries: seq<Entry>, e: Entry)
    requires SameClasses(result, entries) && result != [] && Equal(result[|result| - 1], e)
    ensures SameClasses(result, entries + [e])
  {
    assert result[|result| - 1] in result;
    assert Represented(result, e);
  }

  lemma RepresentedSnoc(result: seq<Entry>, e: Entry, x: Entry)
    requires Represented(result, x) || x == e
    ensures Represented(result + [e], x)
  {
    if Represented(result, x) {
      var r :| r in result && Equal(r, x);
      assert r in result + [e];
    } else {
      assert e in result + [e] && Equal(e, x);
    }
  }

  lemma ClassesSnoc(result: seq<Entry>, entries: seq<Entry>, e: Entry)
    requires SameClasses(result, entries)
    ensures SameClasses(result + [e], entries + [e])
  {
    forall x | x in entries + [e]
      ensures Represented(result + [e], x)
    {
      RepresentedSnoc(result, e, x);
    }
  }

  lemma StrictSnoc(result: seq<Entry>, e: Entry)
    requires Strict(result) && result != [] && Less(result[|result| - 1], e)
    ensures Strict(result + [e])
  {
    forall i | 0 <= i < |result|
      ensures Less(result[i], e)
    {
      if i < |result| - 1 { LessTransitive(result[i], result[|result| - 1], e); }
    }
  }

  lemma ClassesOfPermutation(result: seq<Entry>, a: seq<Entry>, b: seq<Entry>)
    requires multiset(a) == multiset(b) && SameClasses(result, a)
    ensures SameClasses(result, b)
  {
    forall e
      ensures e in a <==> e in b
    {
      assert e in multiset(a) <==> e in multiset(b);
    }
  }

  /** The list is determined up to equal records, whatever the sort did with them. */
  lemma {:induction false} DedupIsDetermined(a: seq<Entry>, b: seq<Entry>)
    requires Strict(a) && Strict(b)
    requires forall e :: e in a ==> Represented(b, e)
    requires forall e :: e in b ==> Represented(a, e)
    ensures |a| == |b| && forall i :: 0 <= i < |a| ==> Equal(a[i], b[i])
    decreases |a|
  {
    assert b != [] ==> Represented(a, b[0]);
    if a == [] {
    } else {
      assert Represented(b, a[0]);
      FirstIsLeast(a, b);
      FirstIsLeast(b, a);
      LessTrichotomy(a[0], b[0]);
      TailsRepresent(a, b);
      TailsRepresent(b, a);
      DedupIsDetermined(a[1..], b[1..]);
    }
  }

  lemma FirstIsLeast(a: seq<Entry>, b: seq<Entry>)
    requires Strict(a) && a != [] && b != [] && Represented(a, b[0])
    ensures !Less(b[0], a[0])
  {
    var r :| r in a && Equal(r, b[0]);
    var i :| 0 <= i < |a| && a[i] == r;
    LessTrichotomy(a[0], r);
    LessRespectsEqual(r, b[0], a[0]);
  }

  lemma TailsRepresent(a: seq<Entry>, b: seq<Entry>)
    requires Strict(a) && Strict(b) && a != [] && b != [] && Equal(a[0], b[0])
    requires forall e :: e in a ==> Represented(b, e)
    ensures forall e :: e in a[1..] ==> Represented(b[1..], e)
  {
    forall e | e in a[1..]
      ensures Represented(b[1..], e)
    {
      var i :| 0 <= i < |a[1..]| && a[1..][i] == e;
      assert a[i + 1] == e && Less(a[0], e) && Represented(b, e);
      var r :| r in b && Equal(r, e);
      var j :| 0 <= j < |b| && b[j] == r;
      LessTrichotomy(a[0], e);
      assert j > 0 by { assert Equal(a[0], e) == Equal(b[0], e); }
      assert b[1..][j - 1] == r;
    }
  }

  // ---- one query ----

  datatype QueryType = TypeA | TypeAAAA | TypeCNAME | TypeMX | TypeNS | TypeTXT | TypeSRV

  const QUERY_TYPES: seq<QueryType> := [TypeA, TypeAAAA, TypeCNAME, TypeMX, TypeNS, TypeTXT, TypeSRV]

  /** An answer record as the DNS library parses it; `Other` stands for the kinds the switch ignores. */
  datatype Record =
    | A(ttl: nat, address: string)
    | AAAA(ttl: nat, address: string)
    | CNAME(ttl: nat, target: string)
    | NS(ttl: nat, target: string)
    | MX(ttl: nat, target: string, preference: nat)
    | TXT(ttl: nat, texts: seq<string>)
    | SRV(ttl: nat, target: string, preference: nat, weight: nat, port: nat)
    | Other(ttl: nat)

  /** What the name server answers: nothing when the exchange fails. */
  type Server = (string, QueryType) -> Option<seq<Record>>

  /** The name without its final dot, if it has one. */
  function TrimDot(name: string): (r: string)
    ensures name == r + "." || (name == r && (name == [] || name[|name| - 1] != '.'))
  {
    if name != [] && name[|name| - 1] == '.' then name[..|name| - 1] else name
  }

  predicate EndsWith(name: string, suffix: string) {
    |suffix| <= |name| && name[|name| - |suffix|..] == suffix
  }

  lemma EndsWithIs(name: string, suffix: string)
    ensures EndsWith(name, suffix) <==> exists front :: name == front + suffix
  {
    if EndsWith(name, suffix) {
      assert name == name[..|name| - |suffix|] + suffix;
    }
  }

  function Plain(host: string, kind: string, details: string, ttl: nat): Entry {
    Entry(host, kind, details, None, None, None, ttl)
  }

  function TextEntries(host: string, ttl: nat, texts: seq<string>): seq<Entry> {
    if texts == [] then []
    else TextEntries(host, ttl, texts[..|texts| - 1]) + [Plain(host, "TXT", texts[|texts| - 1], ttl)]
  }

  function EntriesOf(host: string, rr: Record): seq<Entry> {
    match rr
    case A(ttl, address) => [Plain(host, "A", address, ttl)]
    case AAAA(ttl, address) => [Plain(host, "AAAA", address, ttl)]
    case CNAME(ttl, target) => [Plain(host, "CNAME", TrimDot(target), ttl)]
    case NS(ttl, target) => [Plain(host, "NS", TrimDot(target), ttl)]
    case MX(ttl, target, preference) => [Entry(host, "MX", TrimDot(target), Some(preference), None, None, ttl)]
    case TXT(ttl, texts) => TextEntries(host, ttl, texts)
    case SRV(ttl, target, preference, weight, port) =>
      [Entry(host, "SRV", TrimDot(target), Some(preference), Some(weight), Some(port), ttl)]
    case Other(_) => []
  }

  /** Aliases, mail exchangers and services lead to more names, as long as they end with the root; name servers do
      not. */
  function HostsOf(root: string, rr: Record): seq<string> {
    if (rr.CNAME? || rr.MX? || rr.SRV?) && EndsWith(TrimDot(rr.target), root) then [TrimDot(rr.target)] else []
  }

  /** The kind under which a record is listed. */
  function KindName(rr: Record): string {
    match rr
    case A(_, _) => "A"
    case AAAA(_, _) => "AAAA"
    case CNAME(_, _) => "CNAME"
    case NS(_, _) => "NS"
    case MX(_, _, _) => "MX"
    case TXT(_, _) => "TXT"
    case SRV(_, _, _, _, _) => "SRV"
    case Other(_) => ""
  }

  /** Field by field: the entry lists the record, or one of its texts, at this host. */
  predicate Describes(e: Entry, host: string, rr: Record) {
    && !rr.Other? && e.name == host && e.kind == KindName(rr) && e.ttl == rr.ttl
    && (rr.A? || rr.AAAA? ==> e.details == rr.address)
    && (rr.CNAME? || rr.NS? || rr.MX? || rr.SRV? ==> e.details == TrimDot(rr.target))
    && (rr.TXT? ==> e.details in rr.texts)
    && e.priority == (if rr.MX? || rr.SRV? then Some(rr.preference) else None)
    && e.weight == (if rr.SRV? then Some(rr.weight) else None)
    && e.port == (if rr.SRV? then Some(rr.port) else None)
  }

  /** The mail exchangers and the services of an answer, as they are listed. */
  lemma NumbersInTheirPlaces(host: string, ttl: nat, target: string, a: nat, b: nat, c: nat, e: Entry)
    ensures e in EntriesOf(host, MX(ttl, target + ".", a)) <==>
              e == Entry(host, "MX", target, Some(a), None, None, ttl)
    ensures e in EntriesOf(host, SRV(ttl, target + ".", a, b, c)) <==>
              e == Entry(host, "SRV", target, Some(a), Some(b), Some(c), ttl)
  {
    assert (target + ".")[..|target|] == target;
  }

  lemma {:induction false} TextEntriesHold(host: string, ttl: nat, texts: seq<string>, e: Entry)
    ensures e in TextEntries(host, ttl, texts) <==>
              e.details in texts && e == Entry(host, "TXT", e.details, None, None, None, ttl)
    decreases |texts|
  {
    if texts == [] {
    } else {
      TextEntriesHold(host, ttl, texts[..|texts| - 1], e);
      assert texts == texts[..|texts| - 1] + [texts[|texts| - 1]];
    }
  }

  lemma TextsHold(host: string, rr: Record, e: Entry)
    requires rr.TXT?
    ensures e in EntriesOf(host, rr) <==> Describes(e, host, rr)
  {
    TextEntriesHold(host, rr.ttl, rr.texts, e);
    assert KindName(rr) == "TXT";
    assert e == Entry(e.name, e.kind, e.details, e.priority, e.weight, e.port, e.ttl);
  }

  lemma EntriesOfHold(host: string, rr: Record, e: Entry)
    ensures e in EntriesOf(host, rr) <==> Describes(e, host, rr)
  {
    if rr.TXT? {
      TextsHold(host, rr, e);
    } else if !rr.Other? {
      var only := EntriesOf(host, rr)[0];
      assert EntriesOf(host, rr) == [only] && Describes(only, host, rr);
      assert Describes(e, host, rr) ==> e == only;
    }
  }

  function AllEntries(host: string, rrs: seq<Record>): seq<Entry> {
    if rrs == [] then [] else AllEntries(host, rrs[..|rrs| - 1]) + EntriesOf(host, rrs[|rrs| - 1])
  }

  function AllHosts(root: string, rrs: seq<Record>): seq<string> {
    if rrs == [] then [] else AllHosts(root, rrs[..|rrs| - 1]) + HostsOf(root, rrs[|rrs| - 1])
  }

  function Found(server: Server, host: string, q: QueryType): seq<Entry> {
    if server(host, q).None? then [] else AllEntries(host, server(host, q).value)
  }

  function Leads(server: Server, root: string, host: string, q: QueryType): seq<string> {
    if server(host, q).None? then [] else AllHosts(root, server(host, q).value)
  }

  lemma {:induction false} AllEntriesHold(host: string, rrs: seq<Record>, e: Entry)
    ensures e in AllEntries(host, rrs) <==> exists rr :: rr in rrs && Describes(e, host, rr)
    decreases |rrs|
  {
    if rrs == [] {
    } else {
      var init, last := rrs[..|rrs| - 1], rrs[|rrs| - 1];
      assert rrs == init + [last];
      AllEntriesHold(host, init, e);
      EntriesOfHold(host, last, e);
      assert last in rrs;
    }
  }

  /** The record names another host below the root, to go on with. */
  predicate Names(h: string, root: string, rr: Record) {
    (rr.CNAME? || rr.MX? || rr.SRV?) && h == TrimDot(rr.target) && EndsWith(h, root)
  }

  lemma {:induction false} AllHostsHold(root: string, rrs: seq<Record>, h: string)
    ensures h in AllHosts(root, rrs) <==> exists rr :: rr in rrs && Names(h, root, rr)
    decreases |rrs|
  {
    if rrs == [] {
    } else {
      var init, last := rrs[..|rrs| - 1], rrs[|rrs| - 1];
      assert rrs == init + [last];
      AllHostsHold(root, init, h);
      assert last in rrs;
    }
  }

  /** A record of the answer for a name and a type. */
  predicate Answered(server: Server, host: string, q: QueryType, rr: Record) {
    server(host, q).Some? && rr in server(host, q).value
  }

  lemma FoundHolds(server: Server, host: string, q: QueryType, e: Entry)
    ensures e in Found(server, host, q) <==> exists rr :: Answered(server, host, q, rr) && Describes(e, host, rr)
  {
    if server(host, q).Some? {
      AllEntriesHold(host, server(host, q).value, e);
      assert forall rr :: rr in server(host, q).value <==> Answered(server, host, q, rr);
    }
  }

  lemma LeadsHold(server: Server, root: string, host: string, q: QueryType, h: string)
    ensures h in Leads(server, root, host, q) <==> exists rr :: Answered(server, host, q, rr) && Names(h, root, rr)
  {
    if server(host, q).Some? {
      AllHostsHold(root, server(host, q).value, h);
      assert forall rr :: rr in server(host, q).value <==> Answered(server, host, q, rr);
    }
  }

  /** The entries that list a record of the answer, and no others; and the names to go on with. */
  method QueryOne(server: Server, host: string, q: QueryType, root: string)
    returns (entries: seq<Entry>, discovered: seq<string>)
    ensures entries == Found(server, host, q) && discovered == Leads(server, root, host, q)
    ensures forall e :: e in entries <==> exists rr :: Answered(server, host, q, rr) && Describes(e, host, rr)
    ensures forall h :: h in discovered <==> exists rr :: Answered(server, host, q, rr) && Names(h, root, rr)
  {
    forall e
      ensures e in Found(server, host, q) <==> exists rr :: Answered(server, host, q, rr) && Describes(e, host, rr)
    {
      FoundHolds(server, host, q, e);
    }
    forall h
      ensures h in Leads(server, root, host, q) <==> exists rr :: Answered(server, host, q, rr) && Names(h, root, rr)
    {
      LeadsHold(server, root, host, q, h);
    }
    entries, discovered := ReadAnswer(server, host, q, root);
  }

  lemma OneMoreRecord(host: string, root: string, answer: seq<Record>, i: nat)
    requires i < |answer|
    ensures AllEntries(host, answer[..i + 1]) == AllEntries(host, answer[..i]) + EntriesOf(host, answer[i])
    ensures AllHosts(root, answer[..i + 1]) == AllHosts(root, answer[..i]) + HostsOf(root, answer[i])
  {
    assert answer[..i + 1][..i] == answer[..i];
  }

  /** One entry for each string of a text record. */
  method ReadTexts(host: string, ttl: nat, texts: seq<string>, before: seq<Entry>) returns (entries: seq<Entry>)
    ensures entries == before + TextEntries(host, ttl, texts)
  {
    entries := before;
    for j := 0 to |texts|
      invariant entries == before + TextEntries(host, ttl, texts[..j])
    {
      assert texts[..j + 1][..j] == texts[..j];
      entries := entries + [Plain(host, "TXT", texts[j], ttl)];
    }
    assert texts[..|texts|] == texts;
  }

  /** The loop over the records of the response. */
  method ReadAnswer(server: Server, host: string, q: QueryType, root: string)
    returns (entries: seq<Entry>, discovered: seq<string>)
    ensures entries == Found(server, host, q) && discovered == Leads(server, root, host, q)
  {
    var response := server(host, q);
    if response.None? {
      return [], [];
    }
    var answer := response.value;
    entries, discovered := [], [];
    for i := 0 to |answer|
      invariant entries == AllEntries(host, answer[..i]) && discovered == AllHosts(root, answer[..i])
    {
      var rr := answer[i];
      OneMoreRecord(host, root, answer, i);
      if rr.TXT? {
        entries := ReadTexts(host, rr.ttl, rr.texts, entries);
      } else {
        entries := entries + EntriesOf(host, rr);
        if rr.CNAME? || rr.MX? || rr.SRV? {
          var target := TrimDot(rr.target);
          if EndsWith(target, root) {
            discovered := discovered + [target];
          }
        }
      }
    }
    assert answer[..|answer|] == answer;
  }

  lemma {:induction false} HostsEndWithRoot(root: string, rrs: seq<Record>)
    ensures forall h :: h in AllHosts(root, rrs) ==> EndsWith(h, root)
    decreases |rrs|
  {
    if rrs == [] {
    } else {
      HostsEndWithRoot(root, rrs[..|rrs| - 1]);
    }
  }

  // ---- the crawl ----

  const COMMON_SUBDOMAIN_PREFIXES: seq<string> := [
    "ns1", "ns2", "ns3", "ns4", "beta", "dev", "pre", "www", "w3",
    "_dmarc", "_imap._tcp", "_imaps._tcp", "_submission._tcp", "_pop._tcp", "_pop3._tcp",
    "autodiscover", "email", "imap", "mail", "mx", "pop", "pop3", "smtp",
    "default._domainkey", "_amazonses", "k2._domainkey", "k3._domainkey",
    "mandrill._domainkey", "s1._domainkey", "s2._domainkey", "selector1._domainkey", "selector2._domainkey",
    "_caldavs._tcp", "cpanel", "whm", "_sip._tls", "_sipfederationtls._tcp", "sip",
    "_jabber._tcp", "_ldap._tcp", "_xmpp-client._tcp",
    "enterpriseenrollment", "enterpriseregistration", "ftp", "login",
    "lyncdiscover", "lyncdiscoverinternal", "gitlab", "phpmyadmin",
    "sso", "shop", "unifi", "unms", "webdisk", "webmail", "_acme-challenge", "asuid"]

  type Query = (string, QueryType)

  predicate IsSeed(domain: string, host: string) {
    host == domain || exists sub :: sub in COMMON_SUBDOMAIN_PREFIXES && host == sub + "." + domain
  }

  /** The seeds are in `s`, and so is every name that a name in `s` leads to. */
  ghost predicate Closed(server: Server, domain: string, s: set<string>) {
    && (forall h :: IsSeed(domain, h) ==> h in s)
    && (forall h, q, d :: h in s && d in Leads(server, domain, h, q) ==> d in s)
  }

  ghost predicate LeastClosed(server: Server, domain: string, s: set<string>) {
    && Closed(server, domain, s)
    && forall t: set<string> :: Closed(server, domain, t) ==> s <= t
  }

  /** The records found by these queries, in this order. */
  function Answers(server: Server, asked: seq<Query>): seq<Entry> {
    if asked == [] then []
    else Answers(server, asked[..|asked| - 1]) + Found(server, asked[|asked| - 1].0, asked[|asked| - 1].1)
  }

  ghost predicate Distinct(asked: seq<Query>) {
    forall i, j :: 0 <= i < j < |asked| ==> asked[i] != asked[j]
  }

  ghost predicate Within(server: Server, domain: string, visited: set<string>, queue: seq<string>) {
    forall t: set<string> :: Closed(server, domain, t) ==> visited <= t && forall h :: h in queue ==> h in t
  }

  /** What holds whenever a name is taken from the queue or a reply comes in: `pending` are the queries under way. */
  ghost predicate Progress(server: Server, domain: string, visited: set<string>, queue: seq<string>,
                           pending: set<Query>, asked: seq<Query>, results: seq<Entry>) {
    && Within(server, domain, visited, queue)
    && (forall h :: IsSeed(domain, h) ==> h in visited || h in queue)
    && (forall h, q, d :: h in visited && d in Leads(server, domain, h, q)
          ==> (h, q) in pending || d in visited || d in queue)
    && (forall p: Query :: p.0 in visited <==> p in pending || p in asked)
    && (forall p :: p in pending ==> p !in asked)
    && Distinct(asked)
    && results == Answers(server, asked)
  }

  function HostQueries(host: string): set<Query> {
    set q | q in QUERY_TYPES :: (host, q)
  }

  lemma AllTypes(q: QueryType)
    ensures q in QUERY_TYPES
  {
    assert QUERY_TYPES[0] == TypeA && QUERY_TYPES[1] == TypeAAAA && QUERY_TYPES[2] == TypeCNAME
        && QUERY_TYPES[3] == TypeMX && QUERY_TYPES[4] == TypeNS && QUERY_TYPES[5] == TypeTXT
        && QUERY_TYPES[6] == TypeSRV;
  }

  /** Taking a name from the queue: one that was seen is dropped, any other is asked about. */
  lemma VisitKeeps(server: Server, domain: string, visited: set<string>, queue: seq<string>,
                   pending: set<Query>, asked: seq<Query>, results: seq<Entry>)
    requires queue != [] && Progress(server, domain, visited, queue, pending, asked, results)
    ensures queue[0] in visited ==> Progress(server, domain, visited, queue[1..], pending, asked, results)
    ensures queue[0] !in visited
            ==> Progress(server, domain, visited + {queue[0]}, queue[1..], pending + HostQueries(queue[0]),
                         asked, results)
  {
    var host := queue[0];
    assert queue == [host] + queue[1..];
    assert forall h :: h in queue <==> h == host || h in queue[1..];
    if host !in visited {
      forall p: Query
        ensures p.0 in visited + {host} <==> p in pending + HostQueries(host) || p in asked
      {
        AllTypes(p.1);
        assert p == (p.0, p.1);
      }
      forall h, q, d | h in visited + {host} && d in Leads(server, domain, h, q)
        ensures (h, q) in pending + HostQueries(host) || d in visited + {host} || d in queue[1..]
      {
        AllTypes(q);
      }
    }
  }

  /** Taking in the reply to a query. */
  lemma ReplyKeeps(server: Server, domain: string, visited: set<string>, queue: seq<string>,
                   pending: set<Query>, asked: seq<Query>, results: seq<Entry>, p: Query)
    requires p in pending && Progress(server, domain, visited, queue, pending, asked, results)
    ensures Progress(server, domain, visited, queue + Leads(server, domain, p.0, p.1), pending - {p},
                     asked + [p], results + Found(server, p.0, p.1))
  {
    assert (asked + [p])[..|asked|] == asked;
    var more := Leads(server, domain, p.0, p.1);
    assert p.0 in visited;
    forall t: set<string> | Closed(server, domain, t)
      ensures visited <= t && forall h :: h in queue + more ==> h in t
    {
    }
    forall h, q, d | h in visited && d in Leads(server, domain, h, q)
      ensures (h, q) in pending - {p} || d in visited || d in queue + more
    {
      if (h, q) == p { assert d in more; }
    }
  }

  /** The names to start from. */
  method SeedNames(domain: string) returns (queue: seq<string>)
    ensures forall h :: h in queue <==> IsSeed(domain, h)
  {
    queue := [domain];
    for i := 0 to |COMMON_SUBDOMAIN_PREFIXES|
      invariant forall h :: h in queue <==>
                  h == domain || exists sub :: sub in COMMON_SUBDOMAIN_PREFIXES[..i] && h == sub + "." + domain
    {
      ghost var before := COMMON_SUBDOMAIN_PREFIXES[..i];
      assert COMMON_SUBDOMAIN_PREFIXES[..i + 1] == before + [COMMON_SUBDOMAIN_PREFIXES[i]];
      queue := queue + [COMMON_SUBDOMAIN_PREFIXES[i] + "." + domain];
    }
    assert COMMON_SUBDOMAIN_PREFIXES[..|COMMON_SUBDOMAIN_PREFIXES|] == COMMON_SUBDOMAIN_PREFIXES;
  }

  /** The queries of one name are started. */
  method StartQueries(host: string, pending: set<Query>) returns (out: set<Query>)
    ensures out == pending + HostQueries(host)
  {
    out := pending;
    for j := 0 to |QUERY_TYPES|
      invariant out == pending + set q | q in QUERY_TYPES[..j] :: (host, q)
    {
      assert QUERY_TYPES[..j + 1] == QUERY_TYPES[..j] + [QUERY_TYPES[j]];
      out := out + {(host, QUERY_TYPES[j])};
    }
    assert QUERY_TYPES[..|QUERY_TYPES|] == QUERY_TYPES;
  }

  /** A new name brings the crawl nearer to the end. */
  lemma FewerLeft(server: Server, domain: string, visited: set<string>, queue: seq<string>, universe: set<string>)
    requires Within(server, domain, visited, queue) && Closed(server, domain, universe)
    requires queue != [] && queue[0] !in visited
    ensures |universe - (visited + {queue[0]})| < |universe - visited|
  {
    assert queue[0] in queue;
    assert queue[0] in universe - visited;
    assert universe - (visited + {queue[0]}) == (universe - visited) - {queue[0]};
  }

  /** One turn of the loop over a wave. */
  method VisitName(server: Server, domain: string, ghost toVisit: seq<string>, host: string, seen: set<string>,
                   started: set<Query>, ghost asked: seq<Query>, ghost results: seq<Entry>, ghost universe: set<string>)
    returns (visited: set<string>, pending: set<Query>)
    requires toVisit != [] && host == toVisit[0]
    requires Progress(server, domain, seen, toVisit, started, asked, results)
    requires Closed(server, domain, universe)
    ensures Progress(server, domain, visited, toVisit[1..], pending, asked, results)
    ensures (visited == seen && pending == started) || |universe - visited| < |universe - seen|
  {
    VisitKeeps(server, domain, seen, toVisit, started, asked, results);
    var already := host in seen;
    visited, pending := seen + {host}, started;
    if already {
      assert visited == seen;
      return;
    }
    FewerLeft(server, domain, seen, toVisit, universe);
    pending := StartQueries(host, started);
  }

  /** The names of one wave that were not seen before are marked, and their queries are started. */
  method StartWave(server: Server, domain: string, toVisit: seq<string>, seen: set<string>,
                   ghost asked: seq<Query>, ghost results: seq<Entry>, ghost universe: set<string>)
    returns (visited: set<string>, pending: set<Query>)
    requires Progress(server, domain, seen, toVisit, {}, asked, results)
    requires Closed(server, domain, universe)
    ensures Progress(server, domain, visited, [], pending, asked, results)
    ensures (visited == seen && pending == {}) || |universe - visited| < |universe - seen|
  {
    visited, pending := seen, {};
    assert toVisit[0..] == toVisit;
    for i := 0 to |toVisit|
      invariant Progress(server, domain, visited, toVisit[i..], pending, asked, results)
      invariant (visited == seen && pending == {}) || |universe - visited| < |universe - seen|
    {
      assert toVisit[i..][1..] == toVisit[i + 1..];
      visited, pending := VisitName(server, domain, toVisit[i..], toVisit[i], visited, pending, asked, results,
          universe);
    }
    assert toVisit[|toVisit|..] == [];
  }

  /** The replies of a wave, in any order. */
  method TakeReplies(server: Server, domain: string, visited: set<string>, started: set<Query>,
                     before: seq<Query>, found: seq<Entry>)
    returns (discovered: seq<string>, asked: seq<Query>, results: seq<Entry>)
    requires Progress(server, domain, visited, [], started, before, found)
    ensures Progress(server, domain, visited, discovered, {}, asked, results)
    ensures started == {} ==> discovered == []
  {
    var pending := started;
    discovered, asked, results := [], before, found;
    while pending != {}
      invariant Progress(server, domain, visited, discovered, pending, asked, results)
      invariant pending <= started && (started == {} ==> discovered == [])
      decreases pending
    {
      var p :| p in pending;
      ReplyKeeps(server, domain, visited, discovered, pending, asked, results, p);
      var entries, hosts := QueryOne(server, p.0, p.1, domain);
      asked, pending := asked + [p], pending - {p};
      results, discovered := results + entries, discovered + hosts;
    }
  }

  lemma ProgressAtStart(server: Server, domain: string, queue: seq<string>)
    requires forall h :: h in queue <==> IsSeed(domain, h)
    ensures Progress(server, domain, {}, queue, {}, [], [])
  {
  }

  lemma ProgressAtEnd(server: Server, domain: string, visited: set<string>, asked: seq<Query>, results: seq<Entry>)
    requires Progress(server, domain, visited, [], {}, asked, results)
    ensures LeastClosed(server, domain, visited)
  {
  }

  /**
   * The waves. For a server that leads only to the names of a finite closed set the crawl ends, and the names visited
   * are the least closed set; each of them is asked about once for each type.
   */
  method Crawl(server: Server, domain: string, ghost universe: set<string>)
    returns (visited: set<string>, asked: seq<Query>, results: seq<Entry>)
    requires Closed(server, domain, universe)
    ensures LeastClosed(server, domain, visited)
    ensures Distinct(asked) && forall p: Query :: p in asked <==> p.0 in visited
    ensures results == Answers(server, asked)
  {
    var queue := SeedNames(domain);
    visited, asked, results := {}, [], [];
    ProgressAtStart(server, domain, queue);
    while |queue| > 0
      invariant Progress(server, domain, visited, queue, {}, asked, results)
      decreases |universe - visited|, |queue|
    {
      var pending: set<Query>;
      visited, pending := StartWave(server, domain, queue, visited, asked, results, universe);
      queue, asked, results := TakeReplies(server, domain, visited, pending, asked, results);
    }
    assert queue == [];
    ProgressAtEnd(server, domain, visited, asked, results);
  }

  /** A record is among the answers exactly when it was found for a name and type that were asked. */
  lemma {:induction false} AnswersHold(server: Server, asked: seq<Query>, e: Entry)
    ensures e in Answers(server, asked) <==> exists p :: p in asked && e in Found(server, p.0, p.1)
    decreases |asked|
  {
    if asked == [] {
    } else {
      var n := |asked| - 1;
      AnswersHold(server, asked[..n], e);
      assert asked == asked[..n] + [asked[n]];
      if e in Found(server, asked[n].0, asked[n].1) {
        assert asked[n] in asked;
      }
    }
  }

  /** The entry lists a record of the answer for some visited name, field by field. */
  ghost predicate Listed(server: Server, visited: set<string>, e: Entry) {
    exists h, q, rr :: h in visited && Answered(server, h, q, rr) && Describes(e, h, rr)
  }

  lemma ResultsAreListed(server: Server, visited: set<string>, asked: seq<Query>, e: Entry)
    requires forall p: Query :: p in asked <==> p.0 in visited
    ensures e in Answers(server, asked) <==> Listed(server, visited, e)
  {
    AnswersHold(server, asked, e);
    if e in Answers(server, asked) {
      var p: Query :| p in asked && e in Found(server, p.0, p.1);
      FoundHolds(server, p.0, p.1, e);
    }
    if Listed(server, visited, e) {
      var h, q, rr :| h in visited && Answered(server, h, q, rr) && Describes(e, h, rr);
      FoundHolds(server, h, q, e);
      assert (h, q) in asked;
    }
  }

  /**
   * The whole query: a strictly increasing list, in which every record of an answer for a name of the least closed set
   * is represented, and nothing else.
   */
  method QueryUsingServer(server: Server, domain: string, ghost universe: set<string>)
    returns (list: seq<Entry>, ghost visited: set<string>)
    requires Closed(server, domain, universe)
    ensures Strict(list) && LeastClosed(server, domain, visited)
    ensures forall e :: e in list ==> Listed(server, visited, e)
    ensures forall e :: Listed(server, visited, e) ==> Represented(list, e)
  {
    var asked, results;
    visited, asked, results := Crawl(server, domain, universe);
    list := DedupSorted(results);
    forall e
      ensures e in results <==> Listed(server, visited, e)
    {
      ResultsAreListed(server, visited, asked, e);
    }
  }

  /** Every name visited ends with the domain asked about. */
  lemma CrawlStaysInside(server: Server, domain: string, universe: set<string>, visited: set<string>)
    requires Closed(server, domain, universe) && LeastClosed(server, domain, visited)
    ensures forall h :: h in visited ==> EndsWith(h, domain)
  {
    var inside := set h | h in universe && EndsWith(h, domain);
    forall h, q, d | h in inside && d in Leads(server, domain, h, q)
      ensures d in inside
    {
      if server(h, q).Some? { HostsEndWithRoot(domain, server(h, q).value); }
    }
    forall h | IsSeed(domain, h)
      ensures h in inside
    {
    }
    assert Closed(server, domain, inside);
  }
}
