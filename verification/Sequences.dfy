/** Order-preserving selection, first maximum and stable sorting over sequences. */
module Sequences {

  /** The elements that satisfy `keep`, in their original order. */
  function Filter<T(!new)>(s: seq<T>, keep: T -> bool): (r: seq<T>)
    ensures |r| <= |s|
    ensures forall x :: x in r <==> x in s && keep(x)
  {
    if s == [] then [] else
    var front := Filter(s[..|s| - 1], keep);
    if keep(s[|s| - 1]) then front + [s[|s| - 1]] else front
  }

  lemma {:induction false} FilterAppend<T(!new)>(a: seq<T>, b: seq<T>, keep: T -> bool)
    ensures Filter(a + b, keep) == Filter(a, keep) + Filter(b, keep)
  {
    if b == [] {
      assert a + b == a;
    } else {
      var front := b[..|b| - 1];
      assert (a + b)[..|a + b| - 1] == a + front;
      FilterAppend(a, front, keep);
    }
  }

  lemma {:induction false} FilterCongruence<T(!new)>(s: seq<T>, p: T -> bool, q: T -> bool)
    requires forall x :: x in s ==> p(x) == q(x)
    ensures Filter(s, p) == Filter(s, q)
  {
    if s != [] {
      FilterCongruence(s[..|s| - 1], p, q);
    }
  }

  ghost predicate NoRepeats<T(!new)>(s: seq<T>) {
    forall i, j :: 0 <= i < j < |s| ==> s[i] != s[j]
  }

  lemma NonemptyHasElement<T(!new)>(s: seq<T>)
    ensures s == [] || exists x :: x in s
  {
    if s != [] {
      assert s[0] in s;
    }
  }

  lemma {:induction false} FilterAll<T(!new)>(s: seq<T>, keep: T -> bool)
    requires forall x :: x in s ==> keep(x)
    ensures Filter(s, keep) == s
  {
    if s != [] {
      FilterAll(s[..|s| - 1], keep);
    }
  }

  /** Left-to-right maximum: a later element replaces the champion only by outranking it. */
  function FirstMax<T>(s: seq<T>, outranks: (T, T) -> bool): (best: T)
    requires s != []
    ensures best in s
  {
    if |s| == 1 then s[0] else
    var champion := FirstMax(s[..|s| - 1], outranks);
    if outranks(s[|s| - 1], champion) then s[|s| - 1] else champion
  }

  ghost predicate StrictWeakOrder<T(!new)>(less: (T, T) -> bool) {
    && (forall a, b :: less(a, b) ==> !less(b, a))
    && (forall a, b, c :: less(a, b) && less(b, c) ==> less(a, c))
    && (forall a, b, c :: !less(a, b) && !less(b, c) ==> !less(a, c))
  }

  /** The first maximum is unbeaten, and every element before it is beaten by it. */
  lemma {:induction false} FirstMaxIsFirst<T(!new)>(s: seq<T>, outranks: (T, T) -> bool) returns (at: nat)
    requires s != [] && StrictWeakOrder(outranks)
    ensures at < |s| && s[at] == FirstMax(s, outranks)
    ensures forall i :: 0 <= i < at ==> outranks(s[at], s[i])
    ensures forall i :: 0 <= i < |s| ==> !outranks(s[i], s[at])
  {
    if |s| == 1 {
      at := 0;
    } else {
      var front := s[..|s| - 1];
      var earlier := FirstMaxIsFirst(front, outranks);
      var last := s[|s| - 1];
      if outranks(last, front[earlier]) {
        at := |s| - 1;
        forall i | 0 <= i < at ensures outranks(s[at], s[i]) {
          assert !outranks(front[i], front[earlier]);
        }
      } else {
        at := earlier;
      }
    }
  }

  lemma {:induction false} FilterTwice<T(!new)>(s: seq<T>, p: T -> bool, q: T -> bool, both: T -> bool)
    requires forall x :: both(x) == (p(x) && q(x))
    ensures Filter(Filter(s, p), q) == Filter(s, both)
  {
    if s != [] {
      var front := s[..|s| - 1];
      FilterTwice(front, p, q, both);
      assert (Filter(front, p) + [s[|s| - 1]])[..|Filter(front, p)|] == Filter(front, p);
    }
  }

  function Mapped<S, T>(s: seq<S>, f: S -> T): (r: seq<T>)
    ensures |r| == |s|
    ensures forall i :: 0 <= i < |s| ==> r[i] == f(s[i])
  {
    if s == [] then [] else Mapped(s[..|s| - 1], f) + [f(s[|s| - 1])]
  }

  lemma {:induction false} FilterMapped<S(!new), T(!new)>(s: seq<S>, f: S -> T, keep: T -> bool, keepSource: S -> bool)
    requires forall x :: keepSource(x) == keep(f(x))
    ensures Filter(Mapped(s, f), keep) == Mapped(Filter(s, keepSource), f)
  {
    if s != [] {
      var front, last := s[..|s| - 1], s[|s| - 1];
      FilterMapped(front, f, keep, keepSource);
      assert Mapped(s, f)[..|s| - 1] == Mapped(front, f);
      if keepSource(last) {
        assert (Filter(front, keepSource) + [last])[..|Filter(front, keepSource)|] == Filter(front, keepSource);
      }
    }
  }

  lemma MappedAppend<S, T>(a: seq<S>, b: seq<S>, f: S -> T)
    ensures Mapped(a + b, f) == Mapped(a, f) + Mapped(b, f)
  {
  }

  lemma MappedCongruence<S(!new), T>(s: seq<S>, f: S -> T, g: S -> T)
    requires forall x :: x in s ==> f(x) == g(x)
    ensures Mapped(s, f) == Mapped(s, g)
  {
  }

  lemma FilterNext<T(!new)>(s: seq<T>, i: nat, keep: T -> bool)
    requires i < |s|
    ensures Filter(s[..i + 1], keep) == if keep(s[i]) then Filter(s[..i], keep) + [s[i]] else Filter(s[..i], keep)
  {
    assert s[..i + 1][..i] == s[..i];
  }

  function Reversed<T>(s: seq<T>): (r: seq<T>)
    ensures |r| == |s|
    ensures forall i :: 0 <= i < |s| ==> r[i] == s[|s| - 1 - i]
  {
    if s == [] then [] else [s[|s| - 1]] + Reversed(s[..|s| - 1])
  }
}
