/** How far one spelling is from another (frontend/src/canonicalHints.ts: editDistance). */
module EditDistance {

  function Least(a: nat, b: nat, c: nat): nat {
    if a <= b && a <= c then a else if b <= c then b else c
  }

  function Cost(a: char, b: char): nat {
    if a == b then 0 else 1
  }

  /** The fewest insertions, deletions and substitutions that turn one string into the other. */
  function Distance(a: string, b: string): nat
    decreases |a| + |b|
  {
    if a == "" then |b|
    else if b == "" then |a|
    else
      var i, j := |a| - 1, |b| - 1;
      Least(Distance(a[..i], b) + 1, Distance(a, b[..j]) + 1, Distance(a[..i], b[..j]) + Cost(a[i], b[j]))
  }

  /** One row of the table: the distances of a prefix of one string to every prefix of the other. */
  ghost predicate IsRow(left: string, row: nat, right: string, distances: seq<nat>)
    requires row <= |left|
  {
    |distances| <= |right| + 1 && forall j :: 0 <= j < |distances| ==> distances[j] == Distance(left[..row], right[..j])
  }

  lemma NextCell(left: string, right: string, row: nat, column: nat)
    requires 1 <= row <= |left| && 1 <= column <= |right|
    ensures Distance(left[..row], right[..column])
            == Least(Distance(left[..row - 1], right[..column]) + 1,
                     Distance(left[..row], right[..column - 1]) + 1,
                     Distance(left[..row - 1], right[..column - 1]) + Cost(left[row - 1], right[column - 1]))
  {
    assert left[..row][..row - 1] == left[..row - 1] && right[..column][..column - 1] == right[..column - 1];
  }

  lemma FirstRow(left: string, right: string, distances: seq<nat>)
    requires |distances| == |right| + 1 && forall j :: 0 <= j < |distances| ==> distances[j] == j
    ensures IsRow(left, 0, right, distances)
  {
    assert left[..0] == "";
  }

  lemma FirstCell(left: string, right: string, row: nat)
    requires row <= |left|
    ensures IsRow(left, row, right, [row])
  {
    assert right[..0] == "" && |left[..row]| == row;
  }

  lemma RowGrows(left: string, right: string, row: nat, current: seq<nat>, cell: nat)
    requires row <= |left| && IsRow(left, row, right, current) && |current| <= |right|
    requires cell == Distance(left[..row], right[..|current|])
    ensures IsRow(left, row, right, current + [cell])
  {
    hide Distance;
  }

  /** The row after another, cell by cell. */
  method NextRow(left: string, right: string, row: nat, previous: seq<nat>) returns (current: seq<nat>)
    requires 1 <= row <= |left| && |previous| == |right| + 1 && IsRow(left, row - 1, right, previous)
    ensures |current| == |right| + 1 && IsRow(left, row, right, current)
  {
    hide Distance, Least, Cost;
    current := [row];
    FirstCell(left, right, row);
    for column := 1 to |right| + 1
      invariant |current| == column && IsRow(left, row, right, current)
    {
      NextCell(left, right, row, column);
      var cell := Least(previous[column] + 1, current[column - 1] + 1,
                        previous[column - 1] + Cost(left[row - 1], right[column - 1]));
      RowGrows(left, right, row, current, cell);
      current := current + [cell];
    }
  }

  /** Two rows at a time. */
  method ComputeDistance(left: string, right: string) returns (distance: nat)
    ensures distance == Distance(left, right)
  {
    hide Distance;
    var previous: seq<nat> := seq(|right| + 1, (i: nat) => i);
    FirstRow(left, right, previous);
    for row := 1 to |left| + 1
      invariant |previous| == |right| + 1 && IsRow(left, row - 1, right, previous)
    {
      previous := NextRow(left, right, row, previous);
    }
    assert left[..|left|] == left && right[..|right|] == right;
    distance := previous[|right|];
  }

  lemma {:induction false} DistanceIsSymmetric(a: string, b: string)
    ensures Distance(a, b) == Distance(b, a)
    decreases |a| + |b|
  {
    if a != "" && b != "" {
      DistanceIsSymmetric(a[..|a| - 1], b);
      DistanceIsSymmetric(a, b[..|b| - 1]);
      DistanceIsSymmetric(a[..|a| - 1], b[..|b| - 1]);
    }
  }

  /** Each edit changes the length by at most one, and replacing everything is always possible. */
  lemma {:induction false} DistanceBounds(a: string, b: string)
    ensures |a| <= |b| + Distance(a, b) && |b| <= |a| + Distance(a, b) && Distance(a, b) <= |a| + |b|
    decreases |a| + |b|
  {
    if a != "" && b != "" {
      DistanceBounds(a[..|a| - 1], b);
      DistanceBounds(a, b[..|b| - 1]);
      DistanceBounds(a[..|a| - 1], b[..|b| - 1]);
    }
  }

  lemma {:induction false} DistanceIsZeroIffEqual(a: string, b: string)
    ensures Distance(a, b) == 0 <==> a == b
    decreases |a| + |b|
  {
    if a != "" && b != "" {
      DistanceIsZeroIffEqual(a[..|a| - 1], b[..|b| - 1]);
      assert a == a[..|a| - 1] + [a[|a| - 1]] && b == b[..|b| - 1] + [b[|b| - 1]];
    }
  }

  /** What the last edit of a shortest way can be, and what every last edit costs at most. */
  lemma LastEdit(a: string, b: string)
    requires a != "" && b != ""
    ensures var i, j := |a| - 1, |b| - 1;
      && Distance(a, b) <= Distance(a[..i], b) + 1
      && Distance(a, b) <= Distance(a, b[..j]) + 1
      && Distance(a, b) <= Distance(a[..i], b[..j]) + Cost(a[i], b[j])
      && (Distance(a, b) == Distance(a[..i], b) + 1 || Distance(a, b) == Distance(a, b[..j]) + 1
          || Distance(a, b) == Distance(a[..i], b[..j]) + Cost(a[i], b[j]))
  {
  }

  lemma {:induction false} TriangleInequality(a: string, b: string, c: string)
    ensures Distance(a, c) <= Distance(a, b) + Distance(b, c)
    decreases |a| + |b| + |c|
  {
    DistanceBounds(a, c);
    DistanceBounds(a, b);
    DistanceBounds(b, c);
    if a != "" && b != "" && c != "" {
      var i, j, k := |a| - 1, |b| - 1, |c| - 1;
      LastEdit(a, b);
      LastEdit(b, c);
      LastEdit(a, c);
      TriangleInequality(a[..i], b, c);
      TriangleInequality(a, b, c[..k]);
      TriangleInequality(a, b[..j], c);
      TriangleInequality(a, b[..j], c[..k]);
      TriangleInequality(a[..i], b[..j], c);
      TriangleInequality(a[..i], b[..j], c[..k]);
      hide Distance;
    }
  }

  // Edit scripts: the distance is the length of a shortest one.

  /** One character is put in, taken out, or replaced. */
  ghost predicate IsEdit(a: string, b: string) {
    || (exists i :: 0 <= i < |b| && a == b[..i] + b[i + 1..])
    || (exists i :: 0 <= i < |a| && b == a[..i] + a[i + 1..])
    || (exists i :: 0 <= i < |a| && |a| == |b| && b == a[..i] + [b[i]] + a[i + 1..])
  }

  /** Each text of a script is one edit away from the text before it. */
  ghost predicate IsScript(script: seq<string>, a: string, b: string) {
    && script != [] && script[0] == a && script[|script| - 1] == b
    && forall k :: 0 < k < |script| ==> IsEdit(script[k - 1], script[k])
  }

  lemma {:induction false} SameEndCostsNothing(a: string, b: string, tail: string)
    ensures Distance(a + tail, b + tail) <= Distance(a, b)
    decreases |tail|
  {
    if tail == "" {
      assert a + tail == a && b + tail == b;
    } else {
      var front, last := tail[..|tail| - 1], tail[|tail| - 1];
      SameEndCostsNothing(a, b, front);
      assert a + tail == (a + front) + [last] && b + tail == (b + front) + [last];
      LastEdit(a + tail, b + tail);
      assert (a + tail)[..|a + tail| - 1] == a + front && (b + tail)[..|b + tail| - 1] == b + front;
    }
  }

  lemma {:induction false} SelfDistance(a: string)
    ensures Distance(a, a) == 0
  {
    DistanceIsZeroIffEqual(a, a);
  }

  /** Putting in a character is one edit. */
  lemma InsertionCostsOne(a: string, c: char, tail: string)
    ensures Distance(a + tail, a + [c] + tail) <= 1
    ensures Distance(a + [c] + tail, a + tail) <= 1
  {
    SelfDistance(a);
    assert (a + [c])[..|a|] == a;
    assert Distance(a, a + [c]) <= 1 by {
      if a != "" {
        LastEdit(a, a + [c]);
      }
    }
    SameEndCostsNothing(a, a + [c], tail);
    DistanceIsSymmetric(a + tail, a + [c] + tail);
  }

  /** Replacing one is one edit too. */
  lemma SubstitutionCostsOne(a: string, c: char, d: char, tail: string)
    ensures Distance(a + [c] + tail, a + [d] + tail) <= 1
  {
    SelfDistance(a);
    LastEdit(a + [c], a + [d]);
    assert (a + [c])[..|a|] == a && (a + [d])[..|a|] == a;
    SameEndCostsNothing(a + [c], a + [d], tail);
  }

  lemma OneMissingCostsOne(short: string, long: string, i: nat)
    requires i < |long| && short == long[..i] + long[i + 1..]
    ensures Distance(short, long) <= 1 && Distance(long, short) <= 1
  {
    hide *;
    InsertionCostsOne(long[..i], long[i], long[i + 1..]);
    assert long == long[..i] + [long[i]] + long[i + 1..];
  }

  lemma OneReplacedCostsOne(a: string, b: string, i: nat)
    requires i < |a| == |b| && b == a[..i] + [b[i]] + a[i + 1..]
    ensures Distance(a, b) <= 1
  {
    hide *;
    SubstitutionCostsOne(a[..i], a[i], b[i], a[i + 1..]);
    assert a == a[..i] + [a[i]] + a[i + 1..];
  }

  lemma EditCostsOne(a: string, b: string)
    requires IsEdit(a, b)
    ensures Distance(a, b) <= 1
  {
    hide Distance;
    if i :| 0 <= i < |b| && a == b[..i] + b[i + 1..] {
      OneMissingCostsOne(a, b, i);
    } else if i :| 0 <= i < |a| && b == a[..i] + a[i + 1..] {
      OneMissingCostsOne(b, a, i);
    } else {
      var i :| 0 <= i < |a| && |a| == |b| && b == a[..i] + [b[i]] + a[i + 1..];
      OneReplacedCostsOne(a, b, i);
    }
  }

  /** No script is shorter than the distance. */
  lemma {:induction false} ScriptsAreNoShorter(script: seq<string>, a: string, b: string)
    requires IsScript(script, a, b)
    ensures Distance(a, b) <= |script| - 1
  {
    hide Distance, IsEdit;
    if |script| == 1 {
      SelfDistance(a);
    } else {
      var n := |script| - 1;
      var front := script[..n];
      ScriptsAreNoShorter(front, a, front[n - 1]);
      assert IsEdit(script[n - 1], script[n]);
      EditCostsOne(script[n - 1], b);
      TriangleInequality(a, script[n - 1], b);
    }
  }

  lemma ScriptNext(script: seq<string>, a: string, b: string, c: string)
    requires IsScript(script, a, b) && IsEdit(b, c)
    ensures IsScript(script + [c], a, c)
  {
    hide IsEdit;
  }

  lemma AppendingIsEdit(a: string, c: char)
    ensures IsEdit(a, a + [c]) && IsEdit(a + [c], a)
  {
    assert (a + [c])[..|a|] + (a + [c])[|a| + 1..] == a;
  }

  lemma ReplacingLastIsEdit(a: string, c: char, d: char)
    ensures IsEdit(a + [c], a + [d])
  {
    var s, t := a + [c], a + [d];
    assert t == s[..|a|] + [t[|a|]] + s[|a| + 1..];
  }

  lemma EditUnderTail(a: string, b: string, c: char)
    requires IsEdit(a, b)
    ensures IsEdit(a + [c], b + [c])
  {
    var s, t := a + [c], b + [c];
    if i :| 0 <= i < |b| && a == b[..i] + b[i + 1..] {
      assert s == t[..i] + t[i + 1..];
    } else if i :| 0 <= i < |a| && b == a[..i] + a[i + 1..] {
      assert t == s[..i] + s[i + 1..];
    } else {
      var i :| 0 <= i < |a| && |a| == |b| && b == a[..i] + [b[i]] + a[i + 1..];
      assert t == s[..i] + [t[i]] + s[i + 1..];
    }
  }

  function UnderTail(script: seq<string>, c: char): (r: seq<string>)
    ensures |r| == |script| && forall k :: 0 <= k < |script| ==> r[k] == script[k] + [c]
  {
    seq(|script|, k requires 0 <= k < |script| => script[k] + [c])
  }

  lemma ScriptUnderTail(script: seq<string>, a: string, b: string, c: char)
    requires IsScript(script, a, b)
    ensures IsScript(UnderTail(script, c), a + [c], b + [c])
  {
    hide IsEdit;
    forall k | 0 < k < |script| ensures IsEdit(UnderTail(script, c)[k - 1], UnderTail(script, c)[k]) {
      EditUnderTail(script[k - 1], script[k], c);
    }
  }

  /** And one script is exactly as long. */
  lemma {:induction false} ShortestScript(a: string, b: string) returns (script: seq<string>)
    ensures IsScript(script, a, b) && |script| - 1 == Distance(a, b)
    decreases |a| + |b|, 1
  {
    if a == "" && b == "" {
      script := [""];
    } else if a == "" || (b != "" && Distance(a, b) == Distance(a, b[..|b| - 1]) + 1) {
      var front, last := b[..|b| - 1], b[|b| - 1];
      assert b == front + [last];
      script := ShortestScript(a, front);
      AppendingIsEdit(front, last);
      ScriptNext(script, a, front, b);
      script := script + [b];
    } else if b == "" || Distance(a, b) == Distance(a[..|a| - 1], b) + 1 {
      var front, last := a[..|a| - 1], a[|a| - 1];
      assert a == front + [last];
      script := ShortestScript(front, b);
      AppendingIsEdit(front, last);
      ScriptBefore(script, a, front, b);
      script := [a] + script;
    } else {
      script := ShortestScriptByLast(a, b);
    }
  }

  lemma ScriptBefore(script: seq<string>, a: string, b: string, c: string)
    requires IsScript(script, b, c) && IsEdit(a, b)
    ensures IsScript([a] + script, a, c)
  {
    hide IsEdit;
    forall k | 0 < k < |[a] + script| ensures IsEdit(([a] + script)[k - 1], ([a] + script)[k]) {
      assert k > 1 ==> IsEdit(script[k - 2], script[k - 1]);
    }
  }

  /** The last characters are the same, or one replaces the other. */
  lemma {:induction false} ShortestScriptByLast(a: string, b: string) returns (script: seq<string>)
    requires a != "" && b != ""
    requires Distance(a, b) == Distance(a[..|a| - 1], b[..|b| - 1]) + Cost(a[|a| - 1], b[|b| - 1])
    ensures IsScript(script, a, b) && |script| - 1 == Distance(a, b)
    decreases |a| + |b|, 0
  {
    var i, j := |a| - 1, |b| - 1;
    assert a == a[..i] + [a[i]] && b == b[..j] + [b[j]];
    var inner := ShortestScript(a[..i], b[..j]);
    ScriptUnderTail(inner, a[..i], b[..j], a[i]);
    script := UnderTail(inner, a[i]);
    if a[i] != b[j] {
      ReplacingLastIsEdit(b[..j], a[i], b[j]);
      ScriptNext(script, a, b[..j] + [a[i]], b);
      script := script + [b];
    }
  }
}
