/** Stable sorting by a strict weak order, and how it commutes with selection. */
module Sorting {
  import opened Sequences

  /** Puts x after every element that is not above it. */
  function Inserted<T>(s: seq<T>, x: T, less: (T, T) -> bool): seq<T> {
    if s == [] || !less(x, s[|s| - 1]) then s + [x]
    else Inserted(s[..|s| - 1], x, less) + [s[|s| - 1]]
  }

  function Sorted<T>(s: seq<T>, less: (T, T) -> bool): seq<T> {
    if s == [] then [] else Inserted(Sorted(s[..|s| - 1], less), s[|s| - 1], less)
  }

  ghost predicate InOrder<T>(s: seq<T>, less: (T, T) -> bool) {
    forall i, j :: 0 <= i < j < |s| ==> !less(s[j], s[i])
  }

  lemma {:induction false} InsertedKeepsOrder<T(!new)>(s: seq<T>, x: T, less: (T, T) -> bool)
    requires StrictWeakOrder(less) && InOrder(s, less)
    ensures InOrder(Inserted(s, x, less), less)
    ensures multiset(Inserted(s, x, less)) == multiset(s) + multiset{x}
  {
    if s == [] || !less(x, s[|s| - 1]) {
      forall i | 0 <= i < |s| ensures !less(x, s[i]) {
        assert i == |s| - 1 || !less(s[|s| - 1], s[i]);
      }
    } else {
      var front, last := s[..|s| - 1], s[|s| - 1];
      InsertedKeepsOrder(front, x, less);
      var inner := Inserted(front, x, less);
      assert s == front + [last];
      forall i | 0 <= i < |inner| ensures !less(last, inner[i]) {
        assert inner[i] in multiset(inner);
        assert inner[i] == x || inner[i] in front;
      }
    }
  }

  lemma {:induction false} SortedIsInOrder<T(!new)>(s: seq<T>, less: (T, T) -> bool)
    requires StrictWeakOrder(less)
    ensures InOrder(Sorted(s, less), less)
    ensures multiset(Sorted(s, less)) == multiset(s)
    ensures |Sorted(s, less)| == |s|
  {
    if s != [] {
      var front := s[..|s| - 1];
      SortedIsInOrder(front, less);
      InsertedKeepsOrder(Sorted(front, less), s[|s| - 1], less);
      assert s == front + [s[|s| - 1]];
    }
    assert |multiset(Sorted(s, less))| == |multiset(s)|;
  }

  lemma {:induction false} FilterInserted<T(!new)>(s: seq<T>, x: T, less: (T, T) -> bool, keep: T -> bool)
    requires StrictWeakOrder(less) && InOrder(s, less)
    ensures Filter(Inserted(s, x, less), keep) ==
            if keep(x) then Inserted(Filter(s, keep), x, less) else Filter(s, keep)
  {
    if s == [] || !less(x, s[|s| - 1]) {
      assert (s + [x])[..|s|] == s;
      var kept := Filter(s, keep);
      if kept != [] {
        assert kept[|kept| - 1] in kept;
        var at :| 0 <= at < |s| && s[at] == kept[|kept| - 1];
        assert at == |s| - 1 || !less(s[|s| - 1], s[at]);
      }
    } else {
      var front, last := s[..|s| - 1], s[|s| - 1];
      FilterInserted(front, x, less, keep);
      var inner := Inserted(front, x, less);
      assert (inner + [last])[..|inner|] == inner;
      if keep(last) && keep(x) {
        assert (Filter(front, keep) + [last])[..|Filter(front, keep)|] == Filter(front, keep);
      }
    }
  }

  /** Selecting and sorting commute: a stable sort never reorders what a selection keeps. */
  lemma {:induction false} FilterSorted<T(!new)>(s: seq<T>, less: (T, T) -> bool, keep: T -> bool)
    requires StrictWeakOrder(less)
    ensures Filter(Sorted(s, less), keep) == Sorted(Filter(s, keep), less)
  {
    if s != [] {
      var front, last := s[..|s| - 1], s[|s| - 1];
      FilterSorted(front, less, keep);
      SortedIsInOrder(front, less);
      FilterInserted(Sorted(front, less), last, less, keep);
      if keep(last) {
        assert (Filter(front, keep) + [last])[..|Filter(front, keep)|] == Filter(front, keep);
      }
    }
  }

  lemma {:induction false} SortingTheSorted<T(!new)>(s: seq<T>, less: (T, T) -> bool)
    requires InOrder(s, less)
    ensures Sorted(s, less) == s
  {
    if s != [] {
      var front, last := s[..|s| - 1], s[|s| - 1];
      assert InOrder(front, less) && (front != [] ==> !less(last, front[|front| - 1]));
      hide InOrder;
      SortingTheSorted(front, less);
      assert s == front + [last];
    }
  }

  /** The last of the greatest: what `ORDER BY key DESC, id DESC LIMIT 1` picks from rows in id order. */
  function LastMax<T>(s: seq<T>, less: (T, T) -> bool): (best: T)
    requires s != []
    ensures best in s
  {
    if |s| == 1 then s[0] else
    var champion := LastMax(s[..|s| - 1], less);
    if less(s[|s| - 1], champion) then champion else s[|s| - 1]
  }

  lemma {:induction false} LastOfSorted<T(!new)>(s: seq<T>, less: (T, T) -> bool)
    requires s != []
    ensures Sorted(s, less) != [] && Sorted(s, less)[|Sorted(s, less)| - 1] == LastMax(s, less)
  {
    if |s| > 1 {
      LastOfSorted(s[..|s| - 1], less);
    } else {
      assert s[..0] == [];
    }
  }

  lemma {:induction false} LastMaxIsGreatest<T(!new)>(s: seq<T>, less: (T, T) -> bool)
    requires StrictWeakOrder(less) && s != []
    ensures forall x :: x in s ==> !less(LastMax(s, less), x)
  {
    if |s| > 1 {
      var front, last := s[..|s| - 1], s[|s| - 1];
      LastMaxIsGreatest(front, less);
      forall x | x in s ensures !less(LastMax(s, less), x) {
        assert s == front + [last];
        assert x in front || x == last;
      }
    }
  }

  lemma {:induction false} LastMaxOfTwo<T(!new)>(a: seq<T>, b: seq<T>, less: (T, T) -> bool)
    requires StrictWeakOrder(less) && a != [] && b != []
    ensures LastMax(a + b, less) ==
            if less(LastMax(b, less), LastMax(a, less)) then LastMax(a, less) else LastMax(b, less)
  {
    var front := b[..|b| - 1];
    assert (a + b)[..|a + b| - 1] == a + front;
    if |b| == 1 {
      assert a + front == a;
    } else {
      LastMaxOfTwo(a, front, less);
    }
  }

  lemma {:induction false} LastMaxMapped<S(!new), T(!new)>(s: seq<S>, f: S -> T, less: (S, S) -> bool, lessImage: (T, T) -> bool)
    requires s != [] && forall x, y :: less(x, y) == lessImage(f(x), f(y))
    ensures LastMax(Mapped(s, f), lessImage) == f(LastMax(s, less))
  {
    if |s| > 1 {
      LastMaxMapped(s[..|s| - 1], f, less, lessImage);
      assert Mapped(s, f)[..|s| - 1] == Mapped(s[..|s| - 1], f);
    }
  }

  /** Sorting first changes nothing about the last of the greatest. */
  lemma LastMaxOfSorted<T(!new)>(s: seq<T>, less: (T, T) -> bool)
    requires StrictWeakOrder(less) && s != []
    ensures Sorted(s, less) != [] && LastMax(Sorted(s, less), less) == LastMax(s, less)
  {
    LastOfSorted(s, less);
    LastOfSorted(Sorted(s, less), less);
    SortedIsInOrder(s, less);
    SortingTheSorted(Sorted(s, less), less);
  }

  /** When the selection keeps everything as great as something it keeps, the greatest survives it. */
  lemma LastMaxSurvives<T(!new)>(s: seq<T>, less: (T, T) -> bool, keep: T -> bool)
    requires StrictWeakOrder(less) && Filter(s, keep) != []
    requires forall x, y :: keep(x) && !less(y, x) ==> keep(y)
    ensures s != [] && LastMax(s, less) == LastMax(Filter(s, keep), less)
  {
    var kept := Filter(s, keep);
    assert kept[0] in s;
    LastMaxIsGreatest(s, less);
    LastOfSorted(s, less);
    LastOfSorted(kept, less);
    FilterSorted(s, less, keep);
    var all := Sorted(s, less);
    assert keep(all[|all| - 1]);
  }
}
