/** The keyed reconciliation of a list of page elements (syncList of internal/webserver/web/js/util.js). */
module SyncList {
  import opened Basics

  /** The identity of a page element. */
  type Element = nat

  function Elements(s: seq<Element>): set<Element> { set e | e in s }

  predicate NoDuplicates(s: seq<Element>) {
    forall i, j :: 0 <= i < j < |s| ==> s[i] != s[j]
  }

  /** `s` without the elements of `gone`. */
  function Minus(s: seq<Element>, gone: set<Element>): seq<Element> {
    if s == [] then []
    else Minus(s[..|s| - 1], gone) + (if s[|s| - 1] in gone then [] else [s[|s| - 1]])
  }

  lemma {:induction false} MinusHolds(s: seq<Element>, gone: set<Element>)
    ensures forall e :: e in Minus(s, gone) <==> e in s && e !in gone
    ensures NoDuplicates(s) ==> NoDuplicates(Minus(s, gone))
    decreases |s|
  {
    if s == [] {
    } else {
      MinusHolds(s[..|s| - 1], gone);
      assert s == s[..|s| - 1] + [s[|s| - 1]];
    }
  }

  lemma {:induction false} MinusTwice(s: seq<Element>, a: set<Element>, b: set<Element>)
    ensures Minus(Minus(s, a), b) == Minus(s, a + b)
    decreases |s|
  {
    if s == [] {
    } else {
      MinusTwice(s[..|s| - 1], a, b);
      MinusSnoc(Minus(s[..|s| - 1], a), s[|s| - 1], b);
      assert Minus(s[..|s| - 1], a) + [] == Minus(s[..|s| - 1], a);
    }
  }

  lemma MinusSnoc(s: seq<Element>, e: Element, gone: set<Element>)
    ensures Minus(s + [e], gone) == Minus(s, gone) + (if e in gone then [] else [e])
  {
    assert (s + [e])[..|s|] == s;
  }

  lemma {:induction false} MinusConcat(s: seq<Element>, t: seq<Element>, gone: set<Element>)
    ensures Minus(s + t, gone) == Minus(s, gone) + Minus(t, gone)
    decreases |t|
  {
    if t == [] {
      assert s + t == s;
    } else {
      MinusConcat(s, t[..|t| - 1], gone);
      assert s + t == (s + t[..|t| - 1]) + [t[|t| - 1]];
      MinusSnoc(s + t[..|t| - 1], t[|t| - 1], gone);
    }
  }

  lemma {:induction false} MinusNone(s: seq<Element>, gone: set<Element>)
    requires forall e :: e in s ==> e !in gone
    ensures Minus(s, gone) == s
    decreases |s|
  {
    if s == [] {
    } else {
      assert s == s[..|s| - 1] + [s[|s| - 1]];
      MinusNone(s[..|s| - 1], gone);
    }
  }

  // ---- the page operations ----

  function Head(s: seq<Element>): Option<Element> { if s == [] then None else Some(s[0]) }

  function NextSibling(s: seq<Element>, e: Element): Option<Element> {
    if s == [] then None else if s[0] == e then Head(s[1..]) else NextSibling(s[1..], e)
  }

  function Splice(s: seq<Element>, anchor: Element, e: Element): seq<Element> {
    if s == [] then [e] else if s[0] == anchor then [e] + s else [s[0]] + Splice(s[1..], anchor, e)
  }

  /** Inserting an element takes it out of where it was; without an anchor it goes to the end. */
  function InsertBefore(s: seq<Element>, e: Element, anchor: Option<Element>): seq<Element> {
    if anchor.None? then Minus(s, {e}) + [e] else Splice(Minus(s, {e}), anchor.value, e)
  }

  lemma {:induction false} NextAfter(placed: seq<Element>, rest: seq<Element>)
    requires rest != [] && rest[0] !in placed
    ensures NextSibling(placed + rest, rest[0]) == Head(rest[1..])
    decreases |placed|
  {
    if placed == [] {
      assert placed + rest == rest;
    } else {
      assert (placed + rest)[1..] == placed[1..] + rest;
      NextAfter(placed[1..], rest);
    }
  }

  lemma {:induction false} SpliceAt(placed: seq<Element>, rest: seq<Element>, e: Element)
    requires rest != [] && rest[0] !in placed
    ensures Splice(placed + rest, rest[0], e) == placed + [e] + rest
    decreases |placed|
  {
    if placed == [] {
      assert placed + rest == rest;
    } else {
      assert (placed + rest)[1..] == placed[1..] + rest;
      SpliceAt(placed[1..], rest, e);
    }
  }

  lemma MinusBehind(placed: seq<Element>, rest: seq<Element>, e: Element)
    requires e !in placed
    ensures Minus(placed + rest, {e}) == placed + Minus(rest, {e})
  {
    MinusConcat(placed, rest, {e});
    MinusNone(placed, {e});
  }

  lemma HeadNotPlaced(placed: seq<Element>, rest: seq<Element>)
    requires NoDuplicates(placed + rest) && rest != []
    ensures rest[0] !in placed
  {
    assert (placed + rest)[|placed|] == rest[0];
    assert forall i :: 0 <= i < |placed| ==> (placed + rest)[i] == placed[i];
  }

  /** The anchor separates the placed elements from the others, so an insertion before it ends the placed ones. */
  lemma InsertAtAnchor(placed: seq<Element>, rest: seq<Element>, e: Element)
    requires NoDuplicates(placed + rest) && e !in placed && Head(rest) != Some(e)
    ensures InsertBefore(placed + rest, e, Head(rest)) == placed + [e] + Minus(rest, {e})
  {
    MinusBehind(placed, rest, e);
    if rest != [] {
      HeadStays(rest, e);
      HeadNotPlaced(placed, rest);
      SpliceAt(placed, Minus(rest, {e}), e);
    }
  }

  lemma HeadStays(rest: seq<Element>, e: Element)
    requires rest != [] && rest[0] != e
    ensures Minus(rest, {e}) != [] && Minus(rest, {e})[0] == rest[0]
  {
    assert rest == rest[..1] + rest[1..];
    MinusConcat(rest[..1], rest[1..], {e});
    MinusNone(rest[..1], {e});
  }

  lemma DropHead(rest: seq<Element>)
    requires rest != [] && NoDuplicates(rest)
    ensures Minus(rest, {rest[0]}) == rest[1..]
  {
    assert rest == rest[..1] + rest[1..];
    MinusConcat(rest[..1], rest[1..], {rest[0]});
    assert rest[..1][..0] == [];
    assert Minus(rest[..1], {rest[0]}) == [];
    MinusNone(rest[1..], {rest[0]});
  }

  // ---- what the result is ----

  type Keys = map<Element, string>

  /** An element that was never given a key has none. */
  function KeyOf(keys: Keys, e: Element): Option<string> { if e in keys then Some(keys[e]) else None }

  /** The last child with a key: the one that a table filled in document order ends up with. */
  function LastOf(children: seq<Element>, keys: Keys, k: Option<string>): Option<Element> {
    if children == [] then None
    else if KeyOf(keys, children[|children| - 1]) == k then Some(children[|children| - 1])
    else LastOf(children[..|children| - 1], keys, k)
  }

  lemma {:induction false} LastOfHolds(children: seq<Element>, keys: Keys, k: Option<string>)
    ensures LastOf(children, keys, k).Some? <==> exists c :: c in children && KeyOf(keys, c) == k
    ensures LastOf(children, keys, k).Some?
            ==> LastOf(children, keys, k).value in children && KeyOf(keys, LastOf(children, keys, k).value) == k
    decreases |children|
  {
    if children == [] {
    } else {
      LastOfHolds(children[..|children| - 1], keys, k);
      assert children == children[..|children| - 1] + [children[|children| - 1]];
    }
  }

  function ItemKeys<Item>(items: seq<Item>, keyOf: Item -> string): seq<string> {
    if items == [] then [] else ItemKeys(items[..|items| - 1], keyOf) + [keyOf(items[|items| - 1])]
  }

  /** The first item with a key takes the child that has it; any other item gets the element made for it. */
  function Chosen<Item>(children: seq<Element>, keys: Keys, earlier: seq<Item>, keyOf: Item -> string,
                        item: Item, made: Element): Element {
    if keyOf(item) in ItemKeys(earlier, keyOf) then made
    else if LastOf(children, keys, Some(keyOf(item))).Some? then LastOf(children, keys, Some(keyOf(item))).value
    else made
  }

  function Placed<Item>(children: seq<Element>, keys: Keys, items: seq<Item>, keyOf: Item -> string, made: seq<Element>)
    : (placed: seq<Element>)
    requires |items| <= |made|
    ensures |placed| == |items|
    decreases |items|
  {
    if items == [] then []
    else
      var n := |items| - 1;
      Placed(children, keys, items[..n], keyOf, made) + [Chosen(children, keys, items[..n], keyOf, items[n], made[n])]
  }

  /** The children that a later sibling with the same key hides from the table. */
  function Hidden(children: seq<Element>, keys: Keys): seq<Element> {
    Minus(children, Winners(children, keys))
  }

  function Winners(children: seq<Element>, keys: Keys): set<Element> {
    set c | c in children && LastOf(children, keys, KeyOf(keys, c)) == Some(c)
  }

  /** The elements that would be created: all different, and none on the page yet. */
  predicate AreNew(made: seq<Element>, children: seq<Element>) {
    NoDuplicates(made) && forall e :: e in made ==> e !in children
  }

  /** A placed element is new, or the surviving child of one of the keys. */
  ghost predicate FromItems<Item>(e: Element, children: seq<Element>, keys: Keys, items: seq<Item>,
                                  keyOf: Item -> string, made: seq<Element>)
    requires |items| <= |made|
  {
    || e in made[..|items|]
    || (e in children && e in keys && keys[e] in ItemKeys(items, keyOf)
         && LastOf(children, keys, Some(keys[e])) == Some(e))
  }

  lemma {:induction false} PlacedHolds<Item>(children: seq<Element>, keys: Keys, items: seq<Item>,
                                             keyOf: Item -> string, made: seq<Element>)
    requires |items| <= |made| && AreNew(made, children)
    ensures NoDuplicates(Placed(children, keys, items, keyOf, made))
    ensures forall e :: e in Placed(children, keys, items, keyOf, made) ==>
              FromItems(e, children, keys, items, keyOf, made)
    decreases |items|
  {
    if items == [] {
    } else {
      var n := |items| - 1;
      PlacedHolds(children, keys, items[..n], keyOf, made);
      ChosenIsNew(children, keys, items[..n], keyOf, made, items[n]);
      ChosenHolds(children, keys, items, keyOf, made);
      assert made[..n + 1] == made[..n] + [made[n]];
      assert forall e :: FromItems(e, children, keys, items[..n], keyOf, made) ==>
                           FromItems(e, children, keys, items, keyOf, made);
    }
  }

  lemma ChosenHolds<Item>(children: seq<Element>, keys: Keys, items: seq<Item>, keyOf: Item -> string,
                          made: seq<Element>)
    requires 0 < |items| <= |made|
    ensures FromItems(Chosen(children, keys, items[..|items| - 1], keyOf, items[|items| - 1], made[|items| - 1]),
                      children, keys, items, keyOf, made)
  {
    var n := |items| - 1;
    LastOfHolds(children, keys, Some(keyOf(items[n])));
    assert made[..n + 1][n] == made[n];
    assert ItemKeys(items, keyOf)[|ItemKeys(items, keyOf)| - 1] == keyOf(items[n]);
  }

  lemma ChosenIsNew<Item>(children: seq<Element>, keys: Keys, items: seq<Item>, keyOf: Item -> string,
                          made: seq<Element>, item: Item)
    requires |items| < |made| && AreNew(made, children)
    requires forall e :: e in Placed(children, keys, items, keyOf, made) ==>
               FromItems(e, children, keys, items, keyOf, made)
    ensures Chosen(children, keys, items, keyOf, item, made[|items|]) !in Placed(children, keys, items, keyOf, made)
  {
    var el := Chosen(children, keys, items, keyOf, item, made[|items|]);
    LastOfHolds(children, keys, Some(keyOf(item)));
    assert made[|items|] !in made[..|items|];
    assert el in children ==> el !in made;
    assert forall e :: e in made[..|items|] ==> e in made;
    assert !FromItems(el, children, keys, items, keyOf, made);
  }

  /** Each key that is asked for keeps its child. */
  lemma {:induction false} KeepsChild<Item>(children: seq<Element>, keys: Keys, items: seq<Item>, keyOf: Item -> string,
                                            made: seq<Element>, k: string)
    requires |items| <= |made| && k in ItemKeys(items, keyOf) && LastOf(children, keys, Some(k)).Some?
    ensures LastOf(children, keys, Some(k)).value in Placed(children, keys, items, keyOf, made)
    decreases |items|
  {
    var n := |items| - 1;
    if k in ItemKeys(items[..n], keyOf) { KeepsChild(children, keys, items[..n], keyOf, made, k); }
  }

  /** The lookup table: the children not taken yet, by key. */
  ghost predicate IsTable<Item>(remaining: map<Option<string>, Element>, children: seq<Element>, keys: Keys,
                                done: seq<Item>, keyOf: Item -> string) {
    && (forall k :: k in remaining
         <==> LastOf(children, keys, k).Some? && !(k.Some? && k.value in ItemKeys(done, keyOf)))
    && (forall k :: k in remaining ==> LastOf(children, keys, k) == Some(remaining[k]))
  }

  /** What the loop over the items has put in place so far. */
  ghost predicate Split(now: seq<Element>, anchor: Option<Element>, children: seq<Element>, placed: seq<Element>) {
    && now == placed + Minus(children, Elements(placed))
    && anchor == Head(Minus(children, Elements(placed)))
  }

  lemma SplitHolds(children: seq<Element>, placed: seq<Element>)
    requires NoDuplicates(children) && NoDuplicates(placed)
    ensures NoDuplicates(placed + Minus(children, Elements(placed)))
  {
    var rest := Minus(children, Elements(placed));
    MinusHolds(children, Elements(placed));
    forall i, j | 0 <= i < |placed| && 0 <= j < |rest|
      ensures placed[i] != rest[j]
    {
      assert placed[i] in placed && rest[j] in rest;
    }
  }

  lemma RestShrinks(children: seq<Element>, placed: seq<Element>, el: Element)
    ensures Minus(children, Elements(placed + [el])) == Minus(Minus(children, Elements(placed)), {el})
  {
    MinusTwice(children, Elements(placed), {el});
    forall e
      ensures e in Elements(placed + [el]) <==> e in Elements(placed) + {el}
    {
    }
    assert Elements(placed + [el]) == Elements(placed) + {el};
  }

  lemma PlaceAnchor(now: seq<Element>, children: seq<Element>, placed: seq<Element>, el: Element)
    requires NoDuplicates(children) && NoDuplicates(placed) && el !in placed
    requires Split(now, Some(el), children, placed)
    ensures Split(now, NextSibling(now, el), children, placed + [el])
  {
    var rest := Minus(children, Elements(placed));
    MinusHolds(children, Elements(placed));
    RestShrinks(children, placed, el);
    DropHead(rest);
    NextAfter(placed, rest);
    assert placed + rest == placed + [el] + rest[1..];
  }

  lemma PlaceOther(now: seq<Element>, anchor: Option<Element>, children: seq<Element>, placed: seq<Element>,
                   el: Element)
    requires NoDuplicates(children) && NoDuplicates(placed) && el !in placed
    requires Split(now, anchor, children, placed) && anchor != Some(el)
    ensures Split(InsertBefore(now, el, anchor), anchor, children, placed + [el])
  {
    var rest := Minus(children, Elements(placed));
    SplitHolds(children, placed);
    RestShrinks(children, placed, el);
    InsertAtAnchor(placed, rest, el);
    if rest != [] {
      HeadStays(rest, el);
    }
  }

  /** One item: its element is at the anchor already, or is inserted before it. */
  lemma PlaceOne(now: seq<Element>, anchor: Option<Element>, children: seq<Element>, placed: seq<Element>, el: Element)
    requires NoDuplicates(children) && NoDuplicates(placed) && el !in placed
    requires Split(now, anchor, children, placed)
    ensures anchor == Some(el) ==> Split(now, NextSibling(now, el), children, placed + [el])
    ensures anchor != Some(el) ==> Split(InsertBefore(now, el, anchor), anchor, children, placed + [el])
  {
    if anchor == Some(el) {
      PlaceAnchor(now, children, placed, el);
    } else {
      PlaceOther(now, anchor, children, placed, el);
    }
  }

  lemma {:induction false} MinusAgrees(s: seq<Element>, a: set<Element>, b: set<Element>)
    requires forall e :: e in s ==> (e in a <==> e in b)
    ensures Minus(s, a) == Minus(s, b)
    decreases |s|
  {
    if s == [] {
    } else {
      assert s == s[..|s| - 1] + [s[|s| - 1]];
      MinusAgrees(s[..|s| - 1], a, b);
    }
  }

  /** Removing what is left in the table leaves the placed elements and the hidden children. */
  lemma RemoveRemaining<Item>(remaining: map<Option<string>, Element>, children: seq<Element>, keys: Keys,
                              items: seq<Item>, keyOf: Item -> string, made: seq<Element>)
    requires |items| <= |made| && AreNew(made, children)
    requires IsTable(remaining, children, keys, items, keyOf)
    ensures var placed := Placed(children, keys, items, keyOf, made);
            Minus(placed + Minus(children, Elements(placed)), remaining.Values) == placed + Hidden(children, keys)
  {
    var placed := Placed(children, keys, items, keyOf, made);
    PlacedHolds(children, keys, items, keyOf, made);
    forall e | e in placed
      ensures e !in remaining.Values
    {
      PlacedIsTaken(remaining, children, keys, items, keyOf, made, e);
    }
    MinusConcat(placed, Minus(children, Elements(placed)), remaining.Values);
    MinusNone(placed, remaining.Values);
    MinusTwice(children, Elements(placed), remaining.Values);
    forall c | c in children
      ensures c in Elements(placed) + remaining.Values <==> c in Winners(children, keys)
    {
      WinnerIsPlacedOrLeft(remaining, children, keys, items, keyOf, made, c);
    }
    MinusAgrees(children, Elements(placed) + remaining.Values, Winners(children, keys));
  }

  lemma PlacedIsTaken<Item>(remaining: map<Option<string>, Element>, children: seq<Element>, keys: Keys,
                            items: seq<Item>, keyOf: Item -> string, made: seq<Element>, e: Element)
    requires |items| <= |made| && AreNew(made, children)
    requires IsTable(remaining, children, keys, items, keyOf)
    requires FromItems(e, children, keys, items, keyOf, made)
    ensures e !in remaining.Values
  {
    forall k | k in remaining
      ensures remaining[k] != e
    {
      LastOfHolds(children, keys, k);
      assert forall x :: x in made[..|items|] ==> x in made;
    }
  }

  lemma WinnerIsPlacedOrLeft<Item>(remaining: map<Option<string>, Element>, children: seq<Element>, keys: Keys,
                                   items: seq<Item>, keyOf: Item -> string, made: seq<Element>, c: Element)
    requires |items| <= |made| && AreNew(made, children) && c in children
    requires IsTable(remaining, children, keys, items, keyOf)
    ensures c in Winners(children, keys)
            <==> c in Placed(children, keys, items, keyOf, made) || c in remaining.Values
  {
    var k := KeyOf(keys, c);
    LastOfHolds(children, keys, k);
    if c in Winners(children, keys) {
      if k in remaining {
        assert remaining[k] == c;
      } else {
        KeepsChild(children, keys, items, keyOf, made, k.value);
      }
    }
    PlacedHolds(children, keys, items, keyOf, made);
    assert forall x :: x in made[..|items|] ==> x in made;
    forall j | j in remaining && remaining[j] == c
      ensures c in Winners(children, keys)
    {
      LastOfHolds(children, keys, j);
    }
  }

  /** The key and the item shown of each placed element are its item's; the other elements were not touched. */
  ghost predicate Labelled<Item>(keys: Keys, shown: map<Element, Item>, before: Keys, shownBefore: map<Element, Item>,
                                 placed: seq<Element>, items: seq<Item>, keyOf: Item -> string)
    requires |placed| == |items|
  {
    && (forall i :: 0 <= i < |placed| ==> placed[i] in keys && keys[placed[i]] == keyOf(items[i]))
    && (forall i :: 0 <= i < |placed| ==> placed[i] in shown && shown[placed[i]] == items[i])
    && (forall e :: e !in placed ==> KeyOf(keys, e) == KeyOf(before, e))
    && (forall e :: e !in placed ==> (e in shown <==> e in shownBefore) && (e in shown ==> shown[e] == shownBefore[e]))
  }

  lemma PlacedShow<Item>(children: seq<Element>, keys: Keys, shown: map<Element, Item>, before: Keys,
                         shownBefore: map<Element, Item>, placed: seq<Element>, hidden: seq<Element>, items: seq<Item>,
                         keyOf: Item -> string)
    requires |placed| == |items| && Labelled(keys, shown, before, shownBefore, placed, items, keyOf)
    requires children == placed + hidden
    ensures ShowsItems(children, keys, shown, items, keyOf)
  {
  }

  /** The first elements are those of the items, in order, each with the key of its item and showing it. */
  ghost predicate ShowsItems<Item>(children: seq<Element>, keys: Keys, shown: map<Element, Item>, items: seq<Item>,
                                   keyOf: Item -> string) {
    && |items| <= |children|
    && forall i :: 0 <= i < |items| ==>
         && KeyOf(keys, children[i]) == Some(keyOf(items[i]))
         && children[i] in shown && shown[children[i]] == items[i]
  }

  lemma LabelOne<Item>(keys: Keys, shown: map<Element, Item>, before: Keys, shownBefore: map<Element, Item>,
                       placed: seq<Element>, items: seq<Item>, keyOf: Item -> string, el: Element, item: Item)
    requires |placed| == |items| && el !in placed
    requires Labelled(keys, shown, before, shownBefore, placed, items, keyOf)
    ensures Labelled(keys[el := keyOf(item)], shown[el := item], before, shownBefore, placed + [el], items + [item],
            keyOf)
  {
    forall i | 0 <= i < |placed|
      ensures placed[i] != el
    {
    }
  }

  lemma SplitAtStart(children: seq<Element>)
    ensures Split(children, Head(children), children, [])
  {
    MinusNone(children, {});
    assert Elements([]) == {};
  }

  lemma NextPlaced<Item>(children: seq<Element>, keys: Keys, items: seq<Item>, keyOf: Item -> string,
                         made: seq<Element>, i: nat)
    requires i < |items| <= |made| && AreNew(made, children)
    ensures items[..i + 1] == items[..i] + [items[i]]
    ensures NoDuplicates(Placed(children, keys, items[..i], keyOf, made))
    ensures var el := Chosen(children, keys, items[..i], keyOf, items[i], made[i]);
            && el !in Placed(children, keys, items[..i], keyOf, made)
            && Placed(children, keys, items[..i + 1], keyOf, made)
                 == Placed(children, keys, items[..i], keyOf, made) + [el]
  {
    PlacedHolds(children, keys, items[..i], keyOf, made);
    ChosenIsNew(children, keys, items[..i], keyOf, made, items[i]);
    assert items[..i + 1][..i] == items[..i];
  }

  /** How many of the placed elements were not at the anchor when their turn came. */
  function Insertions(children: seq<Element>, placed: seq<Element>): nat {
    if placed == [] then 0
    else
      var n := |placed| - 1;
      Insertions(children, placed[..n])
      + if Head(Minus(children, Elements(placed[..n]))) == Some(placed[n]) then 0 else 1
  }

  lemma InsertionsSnoc(children: seq<Element>, placed: seq<Element>, el: Element)
    ensures Insertions(children, placed + [el])
            == Insertions(children, placed) + if Head(Minus(children, Elements(placed))) == Some(el) then 0 else 1
  {
    assert (placed + [el])[..|placed|] == placed;
  }

  lemma RestIsApart(children: seq<Element>, n: nat)
    requires NoDuplicates(children) && n <= |children|
    ensures forall e :: e in children[n..] ==> e !in Elements(children[..n])
  {
  }

  lemma RestOfPrefix(children: seq<Element>, n: nat)
    requires NoDuplicates(children) && n <= |children|
    ensures Minus(children, Elements(children[..n])) == children[n..]
  {
    var front, rest := children[..n], children[n..];
    assert children == front + rest;
    MinusConcat(front, rest, Elements(front));
    MinusAll(front, Elements(front));
    RestIsApart(children, n);
    MinusNone(rest, Elements(front));
  }

  lemma {:induction false} MinusAll(s: seq<Element>, gone: set<Element>)
    requires forall e :: e in s ==> e in gone
    ensures Minus(s, gone) == []
    decreases |s|
  {
    if s == [] {
    } else {
      assert s == s[..|s| - 1] + [s[|s| - 1]];
      MinusAll(s[..|s| - 1], gone);
    }
  }

  /** Elements that are in place already are never inserted. */
  lemma {:induction false} InPlaceIsNotInserted(children: seq<Element>, n: nat)
    requires NoDuplicates(children) && n <= |children|
    ensures Insertions(children, children[..n]) == 0
  {
    if n == 0 {
    } else {
      InPlaceIsNotInserted(children, n - 1);
      RestOfPrefix(children, n - 1);
      assert children[..n][..n - 1] == children[..n - 1];
    }
  }

  class Container<Item> {
    var children: seq<Element>
    var keys: Keys
    var shown: map<Element, Item>
    /** How often an element was inserted so far. */
    ghost var inserts: nat

    constructor (children: seq<Element>, keys: Keys, shown: map<Element, Item>)
      ensures this.children == children && this.keys == keys && this.shown == shown && inserts == 0
    {
      this.children, this.keys, this.shown, inserts := children, keys, shown, 0;
    }

    method FillTable() returns (remaining: map<Option<string>, Element>)
      ensures forall keyOf: Item -> string :: IsTable(remaining, children, keys, [], keyOf)
    {
      remaining := map[];
      for i := 0 to |children|
        invariant forall k :: k in remaining <==> LastOf(children[..i], keys, k).Some?
        invariant forall k :: k in remaining ==> LastOf(children[..i], keys, k) == Some(remaining[k])
      {
        assert children[..i + 1][..i] == children[..i];
        remaining := remaining[KeyOf(keys, children[i]) := children[i]];
      }
      assert children[..|children|] == children;
    }

    /** The element for one item, taken from the table or created, now showing the item. */
    method ElementFor(item: Item, keyOf: Item -> string, made: Element, remaining: map<Option<string>, Element>,
                      ghost was: seq<Element>, ghost before: Keys, ghost done: seq<Item>)
      returns (el: Element, left: map<Option<string>, Element>)
      requires IsTable(remaining, was, before, done, keyOf)
      requires keyOf(item) !in ItemKeys(done, keyOf) ==>
                 forall e :: e in was && Some(e) == LastOf(was, before, Some(keyOf(item))) ==>
                   KeyOf(keys, e) == KeyOf(before, e)
      modifies this`keys, this`shown
      ensures el == Chosen(was, before, done, keyOf, item, made)
      ensures IsTable(left, was, before, done + [item], keyOf)
      ensures keys == old(keys)[el := keyOf(item)] && shown == old(shown)[el := item]
    {
      var key := keyOf(item);
      left := remaining;
      assert (done + [item])[..|done|] == done;
      LastOfHolds(was, before, Some(key));
      if Some(key) in remaining {
        el := remaining[Some(key)];
        left := remaining - {Some(key)};
        shown := shown[el := item];
        assert KeyOf(keys, el) == Some(key);
        assert keys == keys[el := key];
      } else {
        el := made;
        shown := shown[el := item];
        keys := keys[el := key];
      }
    }

    /** One turn of the loop over the items. */
    method PlaceItem(item: Item, keyOf: Item -> string, made: Element, anchor: Option<Element>,
                     remaining: map<Option<string>, Element>, ghost was: seq<Element>, ghost before: Keys,
                     ghost shownBefore: map<Element, Item>, ghost placed: seq<Element>, ghost done: seq<Item>)
      returns (el: Element, next: Option<Element>, left: map<Option<string>, Element>)
      requires |placed| == |done| && NoDuplicates(was) && NoDuplicates(placed)
      requires Chosen(was, before, done, keyOf, item, made) !in placed
      requires Split(children, anchor, was, placed) && IsTable(remaining, was, before, done, keyOf)
      requires Labelled(keys, shown, before, shownBefore, placed, done, keyOf)
      modifies this
      ensures inserts == old(inserts) + (if anchor == Some(el) then 0 else 1)
      ensures el == Chosen(was, before, done, keyOf, item, made)
      ensures Split(children, next, was, placed + [el]) && IsTable(left, was, before, done + [item], keyOf)
      ensures Labelled(keys, shown, before, shownBefore, placed + [el], done + [item], keyOf)
    {
      LabelOne(keys, shown, before, shownBefore, placed, done, keyOf, Chosen(was, before, done, keyOf, item, made),
          item);
      el, left := ElementFor(item, keyOf, made, remaining, was, before, done);
      PlaceOne(children, anchor, was, placed, el);
      if anchor == Some(el) {
        next := NextSibling(children, el);
      } else {
        next := anchor;
        children := InsertBefore(children, el, anchor);
        inserts := inserts + 1;
      }
    }

    /**
     * One element for each item, in order, then the hidden children. `made` are the elements that would be created for
     * the items, should they need one.
     */
    method SyncList(items: seq<Item>, keyOf: Item -> string, made: seq<Element>)
      requires NoDuplicates(children)
      requires |made| == |items| && AreNew(made, children)
      modifies this
      ensures var placed := Placed(old(children), old(keys), items, keyOf, made);
              && children == placed + Hidden(old(children), old(keys))
              && inserts == old(inserts) + Insertions(old(children), placed)
              && Labelled(keys, shown, old(keys), old(shown), placed, items, keyOf)
      ensures ShowsItems(children, keys, shown, items, keyOf)
    {
      ghost var was, before, shownBefore := children, keys, shown;
      var remaining := FillTable();
      var anchor := Head(children);
      ghost var placed: seq<Element> := [];
      SplitAtStart(was);
      for i := 0 to |items|
        invariant placed == Placed(was, before, items[..i], keyOf, made)
        invariant Split(children, anchor, was, placed)
        invariant IsTable(remaining, was, before, items[..i], keyOf)
        invariant Labelled(keys, shown, before, shownBefore, placed, items[..i], keyOf)
        invariant inserts == old(inserts) + Insertions(was, placed)
      {
        ghost var done := items[..i];
        NextPlaced(was, before, items, keyOf, made, i);
        var el;
        el, anchor, remaining := PlaceItem(items[i], keyOf, made[i], anchor, remaining, was, before, shownBefore,
            placed, done);
        InsertionsSnoc(was, placed, el);
        placed := placed + [el];
      }
      assert items[..|items|] == items;
      RemoveRemaining(remaining, was, before, items, keyOf, made);
      RemoveAll(remaining.Values);
      PlacedShow(children, keys, shown, before, shownBefore, placed, Hidden(was, before), items, keyOf);
    }

    method RemoveAll(elements: set<Element>)
      modifies this`children
      ensures children == Minus(old(children), elements)
    {
      var todo := elements;
      MinusNone(children, {});
      assert elements - todo == {};
      while todo != {}
        invariant todo <= elements && children == Minus(old(children), elements - todo)
        decreases todo
      {
        var el :| el in todo;
        MinusTwice(old(children), elements - todo, {el});
        assert elements - (todo - {el}) == elements - todo + {el};
        children, todo := Minus(children, {el}), todo - {el};
      }
      assert elements - {} == elements;
    }
  }

  // ---- what that means ----

  lemma {:induction false} PlacedAt<Item>(children: seq<Element>, keys: Keys, items: seq<Item>, keyOf: Item -> string,
                                          made: seq<Element>, i: nat)
    requires i < |items| <= |made|
    ensures Placed(children, keys, items, keyOf, made)[i]
            == Chosen(children, keys, items[..i], keyOf, items[i], made[i])
    decreases |items|
  {
    if i < |items| - 1 {
      assert items[..|items| - 1][..i] == items[..i];
      PlacedAt(children, keys, items[..|items| - 1], keyOf, made, i);
    }
  }

  ghost predicate DistinctKeys(children: seq<Element>, keys: Keys) {
    forall c, d :: c in children && d in children && KeyOf(keys, c) == KeyOf(keys, d) ==> c == d
  }

  /** The list ends up with one element for each item exactly when no two children had the same key. */
  lemma OnePerItem(children: seq<Element>, keys: Keys)
    ensures Hidden(children, keys) == [] <==> DistinctKeys(children, keys)
  {
    MinusHolds(children, Winners(children, keys));
    assert Hidden(children, keys) != [] ==> Hidden(children, keys)[0] in Hidden(children, keys);
    if DistinctKeys(children, keys) {
      forall c | c in children
        ensures c in Winners(children, keys)
      {
        LastOfHolds(children, keys, KeyOf(keys, c));
      }
    }
    if Hidden(children, keys) == [] {
      forall c, d | c in children && d in children && KeyOf(keys, c) == KeyOf(keys, d)
        ensures c == d
      {
        assert c !in Hidden(children, keys) && d !in Hidden(children, keys);
      }
    }
  }

  ghost predicate DistinctItems<Item>(items: seq<Item>, keyOf: Item -> string) {
    forall i, j :: 0 <= i < j < |items| ==> keyOf(items[i]) != keyOf(items[j])
  }

  lemma {:induction false} EarlierKeys<Item>(items: seq<Item>, keyOf: Item -> string, k: string)
    ensures k in ItemKeys(items, keyOf) <==> exists i :: 0 <= i < |items| && keyOf(items[i]) == k
    decreases |items|
  {
    if items == [] {
    } else {
      var n := |items| - 1;
      EarlierKeys(items[..n], keyOf, k);
      assert forall i :: 0 <= i < n ==> items[..n][i] == items[i];
    }
  }

  /** With distinct keys on both sides, an item that has a child keeps it, and any other gets its new element. */
  lemma ReusesChild<Item>(children: seq<Element>, keys: Keys, items: seq<Item>, keyOf: Item -> string,
                          made: seq<Element>, i: nat)
    requires i < |items| <= |made|
    requires DistinctKeys(children, keys) && DistinctItems(items, keyOf)
    ensures forall c :: c in children && KeyOf(keys, c) == Some(keyOf(items[i]))
              ==> Placed(children, keys, items, keyOf, made)[i] == c
    ensures (forall c :: c in children ==> KeyOf(keys, c) != Some(keyOf(items[i])))
              ==> Placed(children, keys, items, keyOf, made)[i] == made[i]
  {
    PlacedAt(children, keys, items, keyOf, made, i);
    EarlierKeys(items[..i], keyOf, keyOf(items[i]));
    LastOfHolds(children, keys, Some(keyOf(items[i])));
  }

  /** A child stays exactly when some item has its key. */
  lemma SurvivorsStay<Item>(children: seq<Element>, keys: Keys, items: seq<Item>, keyOf: Item -> string,
                            made: seq<Element>, c: Element)
    requires |items| <= |made| && AreNew(made, children) && c in children
    requires DistinctKeys(children, keys) && DistinctItems(items, keyOf)
    ensures c in Placed(children, keys, items, keyOf, made)
            <==> exists i :: 0 <= i < |items| && KeyOf(keys, c) == Some(keyOf(items[i]))
  {
    var placed := Placed(children, keys, items, keyOf, made);
    if c in placed {
      PlacedHolds(children, keys, items, keyOf, made);
      assert forall e :: e in made[..|items|] ==> e in made;
      EarlierKeys(items, keyOf, keys[c]);
    }
    if i :| 0 <= i < |items| && KeyOf(keys, c) == Some(keyOf(items[i])) {
      ReusesChild(children, keys, items, keyOf, made, i);
      assert placed[i] == c;
    }
  }

  /** Showing the same items again creates nothing, removes nothing and keeps every element where it is. */
  lemma SyncAgainIsStill<Item>(children: seq<Element>, keys: Keys, items: seq<Item>, keyOf: Item -> string,
                               made: seq<Element>)
    requires |children| == |items| <= |made| && NoDuplicates(children) && AreNew(made, children)
    requires DistinctItems(items, keyOf)
    requires forall i :: 0 <= i < |items| ==> KeyOf(keys, children[i]) == Some(keyOf(items[i]))
    ensures Placed(children, keys, items, keyOf, made) == children && Hidden(children, keys) == []
    ensures Insertions(children, Placed(children, keys, items, keyOf, made)) == 0
  {
    forall c, d | c in children && d in children && KeyOf(keys, c) == KeyOf(keys, d)
      ensures c == d
    {
      var i :| 0 <= i < |children| && children[i] == c;
      var j :| 0 <= j < |children| && children[j] == d;
      assert keyOf(items[i]) == keyOf(items[j]);
      assert i == j;
    }
    OnePerItem(children, keys);
    forall i | 0 <= i < |items|
      ensures Placed(children, keys, items, keyOf, made)[i] == children[i]
    {
      ReusesChild(children, keys, items, keyOf, made, i);
      assert children[i] in children;
    }
    InPlaceIsNotInserted(children, |children|);
    assert children[..|children|] == children;
  }

  function SameKey(item: int): string { "k" }

  /** Two items with one key leave two elements with it, and the next call leaves one of those behind its own. */
  lemma RepeatedKeyLeavesElement()
    ensures var once := Placed([], map[], [0, 1], SameKey, [0, 1]);
            var keys := map[0 := "k", 1 := "k"];
            && once == [0, 1] && Placed(once, keys, [0], SameKey, [2]) + Hidden(once, keys) == [1, 0]
  {
    var items, keys := [0, 1], map[0 := "k", 1 := "k"];
    assert items[..1] == [0] && items[..0] == [] && items[..1][..0] == [];
    var once := Placed([], map[], items, SameKey, [0, 1]);
    assert ItemKeys(items[..1], SameKey) == ["k"];
    assert Placed([], map[], items[..1], SameKey, [0, 1]) == [0];
    assert once == [0, 1];
    assert once[..1] == [0] && once[..1][..0] == [];
    assert LastOf(once, keys, Some("k")) == Some(1);
    assert Minus([0], {1}) == [0];
    assert Winners(once, keys) == {1};
  }
}
