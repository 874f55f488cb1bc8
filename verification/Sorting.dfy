/** Sorting by insertion, stable: the one sort behind every sorted list of the model. */
module Sorting {

  /** x goes behind everything that it is not less than. */
  function InsertBy<T>(s: seq<T>, x: T, less: (T, T) -> bool): seq<T>
  {
    if s == [] || !less(x, s[|s| - 1]) then s + [x] else InsertBy(s[..|s| - 1], x, less) + [s[|s| - 1]]
  }

  function SortBy<T>(s: seq<T>, less: (T, T) -> bool): seq<T>
  {
    if s == [] then [] else InsertBy(SortBy(s[..|s| - 1], less), s[|s| - 1], less)
  }

  ghost predicate InOrder<T>(s: seq<T>, before: (T, T) -> bool)
  {
    forall i, j | 0 <= i < j < |s| :: before(s[i], s[j])
  }

  ghost predicate Transitive<T(!new)>(before: (T, T) -> bool)
  {
    forall a, b, c | before(a, b) && before(b, c) :: before(a, c)
  }

  /** Being less, or coming first, decides which of the two is before the other. */
  predicate Decides<T>(less: (T, T) -> bool, before: (T, T) -> bool, first: T, second: T)
  {
    if less(second, first) then before(second, first) else before(first, second)
  }

  lemma {:induction false} InsertByKeeps<T>(s: seq<T>, x: T, less: (T, T) -> bool)
    ensures multiset(InsertBy(s, x, less)) == multiset(s) + multiset{x}
  {
    if s != [] && less(x, s[|s| - 1]) {
      var front, last := s[..|s| - 1], s[|s| - 1];
      InsertByKeeps(front, x, less);
      assert s == front + [last];
      assert multiset(s) == multiset(front) + multiset{last};
      assert multiset(InsertBy(s, x, less)) == multiset(InsertBy(front, x, less)) + multiset{last};
    }
  }

  lemma InOrderAppend<T>(s: seq<T>, last: T, before: (T, T) -> bool)
    requires InOrder(s, before) && forall y <- s :: before(y, last)
    ensures InOrder(s + [last], before)
  {
  }

  lemma {:induction false} InsertBySorts<T(!new)>(s: seq<T>, x: T, less: (T, T) -> bool, before: (T, T) -> bool)
    requires InOrder(s, before) && Transitive(before) && forall y <- s :: Decides(less, before, y, x)
    ensures InOrder(InsertBy(s, x, less), before)
  {
    if s != [] {
      var front, last := s[..|s| - 1], s[|s| - 1];
      assert forall i | 0 <= i < |front| :: before(front[i], last);
      assert Decides(less, before, last, x);
      if less(x, last) {
        InsertBySorts(front, x, less, before);
        var inserted := InsertBy(front, x, less);
        forall y <- inserted ensures before(y, last) { Inserted(front, x, less, y); }
        InOrderAppend(inserted, last, before);
      } else {
        forall y <- s ensures before(y, x) {
          if y != last { assert y in front; }
        }
        InOrderAppend(s, x, before);
      }
    }
  }

  lemma Inserted<T>(s: seq<T>, x: T, less: (T, T) -> bool, y: T)
    ensures y in InsertBy(s, x, less) <==> y in s || y == x
  {
    InsertByKeeps(s, x, less);
    assert y in InsertBy(s, x, less) <==> y in multiset(InsertBy(s, x, less));
    assert y in s <==> y in multiset(s);
  }

  lemma {:induction false} SortByKeeps<T>(s: seq<T>, less: (T, T) -> bool)
    ensures multiset(SortBy(s, less)) == multiset(s) && |SortBy(s, less)| == |s|
  {
    if s != [] {
      var front, last := s[..|s| - 1], s[|s| - 1];
      SortByKeeps(front, less);
      InsertByKeeps(SortBy(front, less), last, less);
      assert s == front + [last];
      assert multiset(s) == multiset(front) + multiset{last};
      assert |multiset(SortBy(s, less))| == |multiset(s)|;
    }
  }

  lemma SortedHas<T>(s: seq<T>, less: (T, T) -> bool, y: T)
    ensures y in SortBy(s, less) <==> y in s
  {
    SortByKeeps(s, less);
    assert y in SortBy(s, less) <==> y in multiset(SortBy(s, less));
    assert y in s <==> y in multiset(s);
  }

  lemma {:induction false} SortBySorts<T(!new)>(s: seq<T>, less: (T, T) -> bool, before: (T, T) -> bool)
    requires Transitive(before) && forall i, j | 0 <= i < j < |s| :: Decides(less, before, s[i], s[j])
    ensures InOrder(SortBy(s, less), before)
  {
    if s != [] {
      hide Transitive, Decides, InOrder;
      var front, last := s[..|s| - 1], s[|s| - 1];
      SortBySorts(front, less, before);
      forall y <- SortBy(front, less) ensures Decides(less, before, y, last) {
        SortedHas(front, less, y);
        var i :| 0 <= i < |front| && front[i] == y;
        assert s[i] == y;
      }
      InsertBySorts(SortBy(front, less), last, less, before);
    } else {
      assert InOrder<T>([], before);
    }
  }
}
