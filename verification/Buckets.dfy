/** The time grid of a history table: equal buckets from `start`, the last one cut at `end`. */
module Buckets {
  import opened Numbers
  import opened Registry

  datatype Window = Window(start: Instant, end: Instant, step: Duration) {
    /** The table endpoint only asks for a later end and a positive step. */
    ghost predicate Valid() {
      start < end && step > 0
    }

    function Count(): int
      requires step != 0
    {
      Max(1, (end - start + step - 1) / step)
    }

    function Tick(k: int): Instant {
      start + step * k
    }

    function BucketEnd(bucket: int): Instant {
      Min(end, Tick(bucket + 1))
    }

    function Slot(at: Instant): int
      requires step != 0
    {
      (at - start) / step
    }

    function IndexOf(at: Instant): int
      requires step != 0
    {
      Min(Count() - 1, Max(0, Slot(at)))
    }
  }

  lemma {:induction false} MultiplesAreSpaced(step: int, i: int, j: int)
    requires step > 0 && i < j
    ensures step * i + step <= step * j
    decreases j - i
  {
    assert step * j == step * (j - 1) + step;
    if i < j - 1 {
      MultiplesAreSpaced(step, i, j - 1);
    }
  }

  lemma TicksAreSpaced(w: Window, i: int, j: int)
    requires w.Valid()
    ensures i < j ==> w.Tick(i) + w.step <= w.Tick(j)
    ensures j < i ==> w.Tick(j) + w.step <= w.Tick(i)
  {
    if i < j { MultiplesAreSpaced(w.step, i, j); }
    if j < i { MultiplesAreSpaced(w.step, j, i); }
  }

  lemma SlotBounds(w: Window, at: Instant)
    requires w.Valid()
    ensures w.Tick(w.Slot(at)) <= at < w.Tick(w.Slot(at) + 1)
  {
    var q := w.Slot(at);
    assert at - w.start == w.step * q + (at - w.start) % w.step;
    assert w.step * (q + 1) == w.step * q + w.step;
  }

  /** The last bucket is the one `end` falls in or closes. */
  lemma CountBounds(w: Window)
    requires w.Valid()
    ensures w.Count() >= 1
    ensures w.Tick(w.Count() - 1) < w.end <= w.Tick(w.Count())
  {
    var padded := w.end - w.start + w.step - 1;
    var q := padded / w.step;
    assert padded == w.step * q + padded % w.step;
    assert w.step * (q - 1) == w.step * q - w.step;
    MultipleIsPositive(w.step, q);
  }

  lemma MultipleIsPositive(step: int, q: int)
    requires step > 0
    ensures q < 1 ==> step * q <= 0
  {
  }

  /** Every bucket but the last ends on its tick, before the window does. */
  lemma InteriorEnd(w: Window, b: int)
    requires w.Valid() && b < w.Count() - 1
    ensures w.BucketEnd(b) == w.Tick(b + 1) < w.end
  {
    CountBounds(w);
    TicksAreSpaced(w, b + 1, w.Count() - 1);
  }

  lemma LastEnd(w: Window)
    requires w.Valid()
    ensures w.BucketEnd(w.Count() - 1) == w.end
  {
    CountBounds(w);
  }

  lemma EndsAscend(w: Window, i: int, j: int)
    requires w.Valid() && i <= j < w.Count()
    ensures w.BucketEnd(i) <= w.BucketEnd(j)
    ensures i < j ==> w.BucketEnd(i) < w.BucketEnd(j)
  {
    if i < j {
      InteriorEnd(w, i);
      TicksAreSpaced(w, i + 1, j + 1);
    }
  }

  /** Where the grid puts an instant that lies after one bucket's end and no later than another's. */
  lemma IndexBetween(w: Window, at: Instant, after: int, upto: int)
    requires w.Valid() && -1 <= after < upto < w.Count()
    requires w.Tick(after + 1) <= at <= w.BucketEnd(upto)
    ensures after + 1 <= w.IndexOf(at) <= upto || (at == w.Tick(upto + 1) && upto + 1 < w.Count())
  {
    CountBounds(w);
    SlotBounds(w, at);
    var k := w.Slot(at);
    TicksAreSpaced(w, k + 1, after + 1);
    TicksAreSpaced(w, upto + 1, k);
  }
}
