/**
 Stable sorting by natural order of names, as sortSectionsNaturally asks of sort.SliceStable.

 The order is a strict weak one, so several names can tie; stability says that tied elements stay in the order they came
 in. That fixes the result: any sorted list with the same elements of each name in the same order is this one, whatever
 algorithm made it.
 */
module SectionSort {
  import opened NaturalOrder

  function InsertLast<T>(s: seq<T>, e: T, name: T -> string): seq<T> {
    if s == [] || !NaturalBefore(name(e), name(s[|s| - 1])) then s + [e]
    else InsertLast(s[..|s| - 1], e, name) + [s[|s| - 1]]
  }

  /** cfg.go:153-157 */
  function StableSorted<T>(s: seq<T>, name: T -> string): seq<T> {
    if s == [] then [] else InsertLast(StableSorted(s[..|s| - 1], name), s[|s| - 1], name)
  }

  ghost predicate IsSorted<T>(s: seq<T>, name: T -> string) {
    forall i, j | 0 <= i < j < |s| :: !NaturalBefore(name(s[j]), name(s[i]))
  }

  /** The elements that tie with key, in the order they have. */
  function OfKey<T>(s: seq<T>, key: seq<Chunk>, name: T -> string): seq<T> {
    if s == [] then []
    else
      var front, last := OfKey(s[..|s| - 1], key, name), s[|s| - 1];
      if Keys(name(last)) == key then front + [last] else front
  }

  /** The elements of one section, in the order they have. */
  function OfSection<T>(s: seq<T>, section: string, name: T -> string): seq<T> {
    if s == [] then []
    else
      var front, last := OfSection(s[..|s| - 1], section, name), s[|s| - 1];
      if name(last) == section then front + [last] else front
  }

  // ------------------------------------------------------------ one-step facts

  lemma OfKeySnoc<T>(s: seq<T>, e: T, key: seq<Chunk>, name: T -> string)
    ensures OfKey(s + [e], key, name) == OfKey(s, key, name) + (if Keys(name(e)) == key then [e] else [])
  {
    assert (s + [e])[..|s|] == s;
  }

  lemma {:induction false} InsertKeepsKeys<T>(s: seq<T>, e: T, key: seq<Chunk>, name: T -> string)
    ensures OfKey(InsertLast(s, e, name), key, name) == OfKey(s + [e], key, name)
  {
    OfKeySnoc(s, e, key, name);
    if s != [] && NaturalBefore(name(e), name(s[|s| - 1])) {
      var front, last := s[..|s| - 1], s[|s| - 1];
      InsertKeepsKeys(front, e, key, name);
      OfKeySnoc(front, e, key, name);
      OfKeySnoc(InsertLast(front, e, name), last, key, name);
      StrictWeak(name(e), name(last), name(e));
    }
  }

  lemma {:induction false} InsertMembers<T>(s: seq<T>, e: T, name: T -> string)
    ensures forall x | x in InsertLast(s, e, name) :: x in s || x == e
  {
    if s != [] && NaturalBefore(name(e), name(s[|s| - 1])) {
      InsertMembers(s[..|s| - 1], e, name);
    }
  }

  lemma NotBeforeTransitive(a: string, b: string, c: string)
    requires !NaturalBefore(b, a) && !NaturalBefore(c, b)
    ensures !NaturalBefore(c, a)
  {
    ChunkOrder();
    BeforeTrichotomy(Keys(a), Keys(b), 0, ChunkLess);
    BeforeTrichotomy(Keys(b), Keys(c), 0, ChunkLess);
    StrictWeak(a, b, c);
    StrictWeak(c, a, b);
    StrictWeak(b, c, a);
  }

  lemma SortedSnoc<T>(s: seq<T>, e: T, name: T -> string)
    requires IsSorted(s, name) && forall x | x in s :: !NaturalBefore(name(e), name(x))
    ensures IsSorted(s + [e], name)
  {
  }

  lemma LastIsGreatest<T>(s: seq<T>, e: T, name: T -> string)
    requires IsSorted(s, name) && s != [] && !NaturalBefore(name(e), name(s[|s| - 1]))
    ensures forall x | x in s :: !NaturalBefore(name(e), name(x))
  {
    forall x | x in s ensures !NaturalBefore(name(e), name(x)) {
      var k :| 0 <= k < |s| && s[k] == x;
      if k < |s| - 1 {
        NotBeforeTransitive(name(x), name(s[|s| - 1]), name(e));
      }
    }
  }

  lemma {:induction false} InsertSorts<T>(s: seq<T>, e: T, name: T -> string)
    requires IsSorted(s, name)
    ensures IsSorted(InsertLast(s, e, name), name)
  {
    if s == [] || !NaturalBefore(name(e), name(s[|s| - 1])) {
      if s != [] {
        LastIsGreatest(s, e, name);
      }
      SortedSnoc(s, e, name);
    } else {
      var front, last := s[..|s| - 1], s[|s| - 1];
      InsertSorts(front, e, name);
      InsertMembers(front, e, name);
      StrictWeak(name(e), name(last), name(e));
      forall x | x in InsertLast(front, e, name) ensures !NaturalBefore(name(last), name(x)) {
        if x in front {
          var k :| 0 <= k < |front| && front[k] == x;
          assert s[k] == x;
        }
      }
      SortedSnoc(InsertLast(front, e, name), last, name);
    }
  }

  // ------------------------------------------------------------ laws

  /** The result is in order, and elements that tie keep the order they had. */
  lemma {:induction false} SortIsStable<T>(s: seq<T>, key: seq<Chunk>, name: T -> string)
    ensures IsSorted(StableSorted(s, name), name)
    ensures OfKey(StableSorted(s, name), key, name) == OfKey(s, key, name)
  {
    if s != [] {
      var front, last := s[..|s| - 1], s[|s| - 1];
      SortIsStable(front, key, name);
      InsertSorts(StableSorted(front, name), last, name);
      InsertKeepsKeys(StableSorted(front, name), last, key, name);
      OfKeySnoc(StableSorted(front, name), last, key, name);
      OfKeySnoc(front, last, key, name);
      assert front + [last] == s;
    }
  }

  lemma {:induction false} SectionOfKey<T>(s: seq<T>, section: string, name: T -> string)
    ensures OfSection(s, section, name) == OfSection(OfKey(s, Keys(section), name), section, name)
  {
    if s != [] {
      var front, last := s[..|s| - 1], s[|s| - 1];
      SectionOfKey(front, section, name);
      var kept := OfKey(front, Keys(section), name);
      if Keys(name(last)) == Keys(section) {
        assert (kept + [last])[..|kept|] == kept;
      }
    }
  }

  /** Every section keeps its entries in file order. */
  lemma SectionsKeepFileOrder<T>(s: seq<T>, section: string, name: T -> string)
    ensures OfSection(StableSorted(s, name), section, name) == OfSection(s, section, name)
  {
    SortIsStable(s, Keys(section), name);
    SectionOfKey(s, section, name);
    SectionOfKey(StableSorted(s, name), section, name);
  }

  lemma {:induction false} OfKeyMembers<T>(s: seq<T>, key: seq<Chunk>, name: T -> string)
    ensures forall x | x in OfKey(s, key, name) :: x in s && Keys(name(x)) == key
    ensures forall x | x in s && Keys(name(x)) == key :: x in OfKey(s, key, name)
  {
    if s != [] {
      OfKeyMembers(s[..|s| - 1], key, name);
      assert s == s[..|s| - 1] + [s[|s| - 1]];
    }
  }

  /** Order and stability leave no choice: at most one arrangement has both. */
  lemma {:induction false} StableOrderIsUnique<T(!new)>(a: seq<T>, b: seq<T>, name: T -> string)
    requires IsSorted(a, name) && IsSorted(b, name)
    requires forall key {:trigger OfKey(a, key, name)} :: OfKey(a, key, name) == OfKey(b, key, name)
    ensures a == b
    decreases |a|
  {
    if a == [] {
      if b != [] {
        SameLast(b, a, name);
      }
    } else {
      SameLast(a, b, name);
      var x := a[|a| - 1];
      var fa, fb := a[..|a| - 1], b[..|b| - 1];
      assert a == fa + [x] && b == fb + [x];
      forall key ensures OfKey(fa, key, name) == OfKey(fb, key, name) {
        assert OfKey(a, key, name) == OfKey(b, key, name);
        OfKeySnoc(fa, x, key, name);
        OfKeySnoc(fb, x, key, name);
        CutLast(OfKey(fa, key, name), OfKey(fb, key, name), if Keys(name(x)) == key then [x] else []);
      }
      StableOrderIsUnique(fa, fb, name);
    }
  }

  lemma CutLast<T>(a: seq<T>, b: seq<T>, c: seq<T>)
    requires a + c == b + c
    ensures a == b
  {
    assert |a + c| == |a| + |c| && |b + c| == |b| + |c|;
    assert (a + c)[..|a|] == a && (b + c)[..|b|] == b;
  }

  lemma SameLast<T(!new)>(a: seq<T>, b: seq<T>, name: T -> string)
    requires IsSorted(a, name) && IsSorted(b, name) && a != []
    requires forall key {:trigger OfKey(a, key, name)} :: OfKey(a, key, name) == OfKey(b, key, name)
    ensures b != [] && a[|a| - 1] == b[|b| - 1]
  {
    var x := a[|a| - 1];
    SameMembers(a, b, name, x);
    var y := b[|b| - 1];
    SameMembers(b, a, name, y);
    NothingAfterLast(a, y, name);
    NothingAfterLast(b, x, name);
    StrictWeak(name(x), name(y), name(x));
    assert OfKey(a, Keys(name(x)), name) == OfKey(b, Keys(name(x)), name);
    LastOfKey(a, name);
    LastOfKey(b, name);
  }

  lemma SameMembers<T(!new)>(a: seq<T>, b: seq<T>, name: T -> string, x: T)
    requires x in a && OfKey(a, Keys(name(x)), name) == OfKey(b, Keys(name(x)), name)
    ensures x in b
  {
    OfKeyMembers(a, Keys(name(x)), name);
    OfKeyMembers(b, Keys(name(x)), name);
  }

  lemma LastOfKey<T>(s: seq<T>, name: T -> string)
    requires s != []
    ensures var x, ofKey := s[|s| - 1], OfKey(s, Keys(name(s[|s| - 1])), name); ofKey != [] && ofKey[|ofKey| - 1] == x
  {
  }

  lemma NothingAfterLast<T>(s: seq<T>, x: T, name: T -> string)
    requires IsSorted(s, name) && x in s
    ensures !NaturalBefore(name(s[|s| - 1]), name(x))
  {
    var k :| 0 <= k < |s| && s[k] == x;
    StrictWeak(name(x), name(x), name(x));
  }

  /** Whatever arrangement a stable sort returns, it is this one. */
  lemma AnyStableSort<T(!new)>(s: seq<T>, r: seq<T>, name: T -> string)
    requires IsSorted(r, name)
    requires forall key {:trigger OfKey(r, key, name)} :: OfKey(r, key, name) == OfKey(s, key, name)
    ensures r == StableSorted(s, name)
  {
    SortIsStable(s, [], name);
    forall key ensures OfKey(r, key, name) == OfKey(StableSorted(s, name), key, name) {
      SortIsStable(s, key, name);
    }
    StableOrderIsUnique(r, StableSorted(s, name), name);
  }

  // ------------------------------------------------------------ changing elements in place

  function Mapped<T, U>(s: seq<T>, f: T -> U): seq<U> {
    seq(|s|, k requires 0 <= k < |s| => f(s[k]))
  }

  lemma SortMembers<T>(s: seq<T>, name: T -> string)
    ensures forall x | x in s :: x in StableSorted(s, name)
    ensures forall x | x in StableSorted(s, name) :: x in s
  {
    forall x | x in s ensures x in StableSorted(s, name) {
      SortIsStable(s, Keys(name(x)), name);
      OfKeyMembers(s, Keys(name(x)), name);
      OfKeyMembers(StableSorted(s, name), Keys(name(x)), name);
    }
    forall x | x in StableSorted(s, name) ensures x in s {
      SortIsStable(s, Keys(name(x)), name);
      OfKeyMembers(s, Keys(name(x)), name);
      OfKeyMembers(StableSorted(s, name), Keys(name(x)), name);
    }
  }

  lemma {:induction false} InsertMapped<T, U>(s: seq<T>, e: T, name: T -> string, f: T -> U, name2: U -> string)
    requires name2(f(e)) == name(e) && forall x | x in s :: name2(f(x)) == name(x)
    ensures InsertLast(Mapped(s, f), f(e), name2) == Mapped(InsertLast(s, e, name), f)
  {
    if s != [] {
      InsertMapped(s[..|s| - 1], e, name, f, name2);
      assert Mapped(s, f)[..|s| - 1] == Mapped(s[..|s| - 1], f);
    }
  }

  /** A change that keeps names commutes with the sort. */
  lemma {:induction false} SortMapped<T, U>(s: seq<T>, name: T -> string, f: T -> U, name2: U -> string)
    requires forall x | x in s :: name2(f(x)) == name(x)
    ensures StableSorted(Mapped(s, f), name2) == Mapped(StableSorted(s, name), f)
  {
    if s != [] {
      var front := s[..|s| - 1];
      SortMapped(front, name, f, name2);
      SortMembers(front, name);
      InsertMapped(StableSorted(front, name), s[|s| - 1], name, f, name2);
      assert Mapped(s, f)[..|s| - 1] == Mapped(front, f);
    }
  }

  function Zipped<T>(a: seq<T>, b: seq<T>): seq<(T, T)>
    requires |a| == |b|
  {
    seq(|a|, k requires 0 <= k < |a| => (a[k], b[k]))
  }

  /** Sequences with the same names that sort alike are alike. */
  lemma SortInjective<T(!new)>(a: seq<T>, b: seq<T>, name: T -> string)
    requires |a| == |b| && forall k | 0 <= k < |a| :: name(a[k]) == name(b[k])
    requires StableSorted(a, name) == StableSorted(b, name)
    ensures a == b
  {
    var z := Zipped(a, b);
    var nameOfPair := (p: (T, T)) => name(p.0);
    var left := (p: (T, T)) => p.0;
    var right := (p: (T, T)) => p.1;
    SortMapped(z, nameOfPair, left, name);
    SortMapped(z, nameOfPair, right, name);
    assert Mapped(z, left) == a && Mapped(z, right) == b;
    var s := StableSorted(z, nameOfPair);
    SortMembers(z, nameOfPair);
    forall k | 0 <= k < |a| ensures a[k] == b[k] {
      assert z[k] in s;
      var i :| 0 <= i < |s| && s[i] == z[k];
      assert Mapped(s, left)[i] == a[k] && Mapped(s, right)[i] == b[k];
    }
  }
}
