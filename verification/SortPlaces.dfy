/** The sort of the sections told by places: where each entry of the result stood before. internal/mods/cfg.go:149-157. */
module SortPlaces {
  import opened NaturalOrder
  import opened SectionSort

  /** An element and where it stood. */
  datatype Card<T> = Card(place: nat, e: T)

  /** Smaller names come first, and of two that tie the one that stood first. */
  predicate Precedes<T>(x: Card<T>, y: Card<T>, name: Card<T> -> string) {
    || NaturalBefore(name(x), name(y))
    || (!NaturalBefore(name(y), name(x)) && x.place < y.place)
  }

  ghost predicate Ordered<T>(cards: seq<Card<T>>, name: Card<T> -> string) {
    forall i, j | 0 <= i < j < |cards| :: Precedes(cards[i], cards[j], name)
  }

  ghost predicate AllBefore<T>(cards: seq<Card<T>>, y: Card<T>, name: Card<T> -> string) {
    forall i | 0 <= i < |cards| :: Precedes(cards[i], y, name)
  }

  lemma OrderedSnoc<T>(cards: seq<Card<T>>, e: Card<T>, name: Card<T> -> string)
    requires Ordered(cards, name) && AllBefore(cards, e, name)
    ensures Ordered(cards + [e], name)
  {
  }

  lemma PrecedesTransitive<T>(x: Card<T>, y: Card<T>, z: Card<T>, name: Card<T> -> string)
    requires Precedes(x, y, name) && Precedes(y, z, name)
    ensures Precedes(x, z, name)
  {
    StrictWeak(name(x), name(y), name(z));
    StrictWeak(name(y), name(z), name(x));
    StrictWeak(name(z), name(x), name(y));
    StrictWeak(name(x), name(z), name(y));
  }

  /** Inserting from the end keeps what comes before the place and after it. */
  lemma {:induction false} InsertBefore<T>(cards: seq<Card<T>>, e: Card<T>, y: Card<T>, name: Card<T> -> string)
    requires AllBefore(cards, y, name) && Precedes(e, y, name)
    ensures AllBefore(InsertLast(cards, e, name), y, name)
  {
    if cards != [] && NaturalBefore(name(e), name(cards[|cards| - 1])) {
      InsertBefore(cards[..|cards| - 1], e, y, name);
    }
  }

  lemma {:induction false} InsertOrdered<T>(cards: seq<Card<T>>, e: Card<T>, name: Card<T> -> string)
    requires Ordered(cards, name) && forall i | 0 <= i < |cards| :: cards[i].place < e.place
    ensures Ordered(InsertLast(cards, e, name), name)
  {
    if cards != [] && NaturalBefore(name(e), name(cards[|cards| - 1])) {
      var front, last := cards[..|cards| - 1], cards[|cards| - 1];
      InsertOrdered(front, e, name);
      InsertBefore(front, e, last, name);
      OrderedSnoc(InsertLast(front, e, name), last, name);
    } else {
      LastBeforeNew(cards, e, name);
      OrderedSnoc(cards, e, name);
    }
  }

  lemma LastBeforeNew<T>(cards: seq<Card<T>>, e: Card<T>, name: Card<T> -> string)
    requires Ordered(cards, name) && forall i | 0 <= i < |cards| :: cards[i].place < e.place
    requires cards != [] ==> !NaturalBefore(name(e), name(cards[|cards| - 1]))
    ensures AllBefore(cards, e, name)
  {
    forall i | 0 <= i < |cards| ensures Precedes(cards[i], e, name) {
      var last := cards[|cards| - 1];
      assert Precedes(last, e, name);
      if i < |cards| - 1 {
        PrecedesTransitive(cards[i], last, e, name);
      }
    }
  }

  lemma {:induction false} InsertLength<T>(s: seq<T>, e: T, name: T -> string)
    ensures |InsertLast(s, e, name)| == |s| + 1
  {
    if s != [] {
      InsertLength(s[..|s| - 1], e, name);
    }
  }

  function Cards<T>(s: seq<T>): (r: seq<Card<T>>)
    ensures |r| == |s|
  {
    seq(|s|, k requires 0 <= k < |s| => Card(k, s[k]))
  }

  /** The card is one of those. */
  predicate IsOf<T(==)>(c: Card<T>, s: seq<T>) {
    c.place < |s| && s[c.place] == c.e
  }

  lemma {:induction false} CardsSorted<T>(s: seq<T>, name: Card<T> -> string)
    ensures Ordered(StableSorted(Cards(s), name), name) && |StableSorted(Cards(s), name)| == |s|
    ensures forall c | c in StableSorted(Cards(s), name) :: IsOf(c, s)
  {
    if s != [] {
      var n := |s| - 1;
      var front := StableSorted(Cards(s[..n]), name);
      CardsSorted(s[..n], name);
      assert Cards(s)[..n] == Cards(s[..n]);
      CardInserted(s, front, name);
    }
  }

  lemma CardInserted<T>(s: seq<T>, front: seq<Card<T>>, name: Card<T> -> string)
    requires s != [] && Ordered(front, name) && |front| == |s| - 1
    requires forall c | c in front :: IsOf(c, s[..|s| - 1])
    ensures var cards := InsertLast(front, Card(|s| - 1, s[|s| - 1]), name);
      Ordered(cards, name) && |cards| == |s| && forall c | c in cards :: IsOf(c, s)
  {
    var last := Card(|s| - 1, s[|s| - 1]);
    forall i | 0 <= i < |front| ensures front[i].place < last.place {
      assert front[i] in front;
    }
    InsertOrdered(front, last, name);
    InsertLength(front, last, name);
    InsertMembers(front, last, name);
    forall c | c in front ensures IsOf(c, s) {
      assert IsOf(c, s[..|s| - 1]);
    }
  }

  /** The result is the entries at these places: each once, smaller names first, and ties in the order they had. */
  ghost predicate IsStableSort<T>(s: seq<T>, r: seq<T>, places: seq<nat>, name: T -> string) {
    && |places| == |r| == |s|
    && (forall i | 0 <= i < |r| :: places[i] < |s| && r[i] == s[places[i]])
    && (forall i, j | 0 <= i < j < |r| :: places[i] != places[j])
    && (forall i, j | 0 <= i < j < |r| ::
          NaturalBefore(name(r[i]), name(r[j])) || (!NaturalBefore(name(r[j]), name(r[i])) && places[i] < places[j]))
  }

  function PlacesOf<T>(cards: seq<Card<T>>): (r: seq<nat>)
    ensures |r| == |cards| && forall i | 0 <= i < |r| :: r[i] == cards[i].place
  {
    seq(|cards|, i requires 0 <= i < |cards| => cards[i].place)
  }

  lemma SortedByPlaces<T>(s: seq<T>, name: T -> string) returns (places: seq<nat>)
    ensures IsStableSort(s, StableSorted(s, name), places, name)
  {
    var nameOf := (c: Card<T>) => name(c.e);
    var element := (c: Card<T>) => c.e;
    var cards := StableSorted(Cards(s), nameOf);
    CardsSorted(s, nameOf);
    SortMapped(Cards(s), nameOf, element, name);
    assert Mapped(Cards(s), element) == s;
    places := PlacesOf(cards);
    CardsSayPlaces(s, Mapped(cards, element), cards, name, nameOf);
  }

  lemma CardsSayPlaces<T>(s: seq<T>, r: seq<T>, cards: seq<Card<T>>, name: T -> string, nameOf: Card<T> -> string)
    requires Ordered(cards, nameOf) && |cards| == |s| == |r| && forall c | c in cards :: IsOf(c, s)
    requires forall c :: nameOf(c) == name(c.e)
    requires forall i | 0 <= i < |r| :: r[i] == cards[i].e
    ensures IsStableSort(s, r, PlacesOf(cards), name)
  {
    var places := PlacesOf(cards);
    forall i | 0 <= i < |r| ensures places[i] < |s| && r[i] == s[places[i]] {
      assert IsOf(cards[i], s);
    }
    forall i, j | 0 <= i < j < |r|
      ensures places[i] != places[j]
      ensures NaturalBefore(name(r[i]), name(r[j])) || (!NaturalBefore(name(r[j]), name(r[i])) && places[i] < places[j])
    {
      assert Precedes(cards[i], cards[j], nameOf);
      assert IsOf(cards[i], s) && IsOf(cards[j], s);
      StrictWeak(name(r[i]), name(r[i]), name(r[i]));
    }
  }
}
