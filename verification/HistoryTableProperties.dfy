/** What the history table promises, and exactly when the sparse sweep loses nothing. */
module HistoryTableProperties {
  import opened Options
  import opened Registry
  import opened Sequences
  import opened Resolution
  import opened ResolutionProperties
  import opened Timeline
  import opened Buckets
  import opened HistoryTable

  /** One snapshot per bucket: every row repeated as often as it collapsed. */
  function Expanded(rows: seq<Row>): (snapshots: seq<Snapshot>)
    ensures |snapshots| == Total(rows)
  {
    if rows == [] then []
    else Expanded(rows[..|rows| - 1]) + seq(rows[|rows| - 1].collapsed, _ => rows[|rows| - 1].snapshot)
  }

  lemma {:induction false} ExpandedShowsSweep(w: Window, initial: CandidateState, events: seq<Event>, rows: seq<Row>, upto: nat, b: nat)
    requires w.Valid() && Covers(w, initial, events, rows, upto) && b < upto
    ensures Expanded(rows)[b] == DenseAt(w, initial, events, LastVisited(w, events, b))
  {
    hide DenseAt, LastVisited, Reports, Until;
    var n := |rows| - 1;
    var front := rows[..n];
    assert RowFits(w, initial, events, rows, n);
    assert rows[..n + 1] == rows;
    if b < Total(front) {
      forall i | 0 <= i < n ensures RowFits(w, initial, events, front, i) {
        assert RowFits(w, initial, events, rows, i);
        RowsBeforeStillFit(w, initial, events, rows, front, i);
      }
      ExpandedShowsSweep(w, initial, events, front, Total(front), b);
    }
  }

  lemma RowIsProper(w: Window, initial: CandidateState, events: seq<Event>, rows: seq<Row>, i: nat)
    requires w.Valid() && IsTable(w, initial, events, rows) && i < |rows|
    ensures rows[i].bucketStart < rows[i].bucketEnd && rows[i].collapsed > 0
    ensures i > 0 ==> rows[i - 1].bucketEnd == rows[i].bucketStart
  {
    hide DenseAt, Reports, LastVisited, Until;
    CountBounds(w);
    assert RowFits(w, initial, events, rows, i);
    var from, to := Total(rows[..i]), Total(rows[..i + 1]);
    TotalIsMonotone(rows, i + 1);
    TicksAreSpaced(w, from, to);
    TicksAreSpaced(w, from, w.Count() - 1);
    if i > 0 {
      assert RowFits(w, initial, events, rows, i - 1);
    }
  }

  /**
   * The rows tile the window: they start at its start, abut, end at its end, never repeat a state,
   * account for every bucket once and for every agent report in the window once.
   */
  lemma RowsTileTheWindow(w: Window, initial: CandidateState, events: seq<Event>, rows: seq<Row>)
    requires w.Valid() && Chronological(w, events) && IsTable(w, initial, events, rows)
    ensures rows != [] && rows[0].bucketStart == w.start && rows[|rows| - 1].bucketEnd == w.end
    ensures forall i :: 0 < i < |rows| ==> rows[i - 1].bucketEnd == rows[i].bucketStart
    ensures forall i :: 0 < i < |rows| ==> rows[i - 1].snapshot != rows[i].snapshot
    ensures forall i :: 0 <= i < |rows| ==> rows[i].bucketStart < rows[i].bucketEnd && rows[i].collapsed > 0
    ensures Total(rows) == w.Count()
    ensures TotalReports(rows) == Reports(events)
  {
    hide *;
    TableEnds(w, initial, events, rows);
    TableCountsReports(w, initial, events, rows);
    TableNeverRepeats(w, initial, events, rows);
    forall i | 0 <= i < |rows|
      ensures rows[i].bucketStart < rows[i].bucketEnd && rows[i].collapsed > 0
      ensures i > 0 ==> rows[i - 1].bucketEnd == rows[i].bucketStart
    {
      RowIsProper(w, initial, events, rows, i);
    }
  }

  lemma TableNeverRepeats(w: Window, initial: CandidateState, events: seq<Event>, rows: seq<Row>)
    requires w.Valid() && IsTable(w, initial, events, rows)
    ensures Total(rows) == w.Count()
    ensures forall i :: 0 < i < |rows| ==> rows[i - 1].snapshot != rows[i].snapshot
  {
    CountBounds(w);
    hide RowFits, Total;
  }

  lemma RowOfTable(w: Window, initial: CandidateState, events: seq<Event>, rows: seq<Row>, i: nat)
    requires w.Valid() && IsTable(w, initial, events, rows) && i < |rows|
    ensures RowFits(w, initial, events, rows, i)
  {
    hide RowFits, Total;
  }

  lemma TableEnds(w: Window, initial: CandidateState, events: seq<Event>, rows: seq<Row>)
    requires w.Valid() && IsTable(w, initial, events, rows)
    ensures rows != [] && rows[0].bucketStart == w.start && rows[|rows| - 1].bucketEnd == w.end
  {
    CountBounds(w);
    TableNeverRepeats(w, initial, events, rows);
    assert Total([]) == 0;
    var n := |rows| - 1;
    RowOfTable(w, initial, events, rows, 0);
    RowOfTable(w, initial, events, rows, n);
    assert rows[..0] == [] && rows[..n + 1] == rows;
    hide IsTable, DenseAt, Reports, Until, LastVisited, TotalReports, Total;
  }

  lemma TableCountsReports(w: Window, initial: CandidateState, events: seq<Event>, rows: seq<Row>)
    requires w.Valid() && Chronological(w, events) && IsTable(w, initial, events, rows)
    ensures TotalReports(rows) == Reports(events)
  {
    hide *;
    StepIsPositive(w);
    TableEnds(w, initial, events, rows);
    TableNeverRepeats(w, initial, events, rows);
    RowOfTable(w, initial, events, rows, |rows| - 1);
    LastRowCountsReports(w, initial, events, rows);
    LastBucketIsVisited(w, events);
    LastEnd(w);
    AllIsUntilEnd(w, events);
  }

  lemma LastRowCountsReports(w: Window, initial: CandidateState, events: seq<Event>, rows: seq<Row>)
    requires w.step != 0 && rows != [] && RowFits(w, initial, events, rows, |rows| - 1)
    ensures Total(rows) > 0
    ensures TotalReports(rows) == Reports(Until(events, w.BucketEnd(LastVisited(w, events, Total(rows) - 1))))
  {
    assert rows[..|rows| - 1 + 1] == rows;
    hide DenseAt, Reports, Until, LastVisited, Total, TotalReports;
  }

  lemma AllIsUntilEnd(w: Window, events: seq<Event>)
    requires Chronological(w, events)
    ensures Until(events, w.end) == events
  {
    FilterAll(events, (e: Event) => e.At() <= w.end);
  }

  lemma LastBucketIsVisited(w: Window, events: seq<Event>)
    requires w.Valid()
    ensures w.Count() >= 1 && LastVisited(w, events, w.Count() - 1) == w.Count() - 1
  {
    CountBounds(w);
  }

  lemma {:induction false} TotalIsMonotone(rows: seq<Row>, k: nat)
    requires k <= |rows|
    ensures Total(rows[..k]) <= Total(rows)
    decreases |rows| - k
  {
    if k == |rows| {
      assert rows[..k] == rows;
    } else {
      TotalIsMonotone(rows, k + 1);
      assert rows[..k + 1][..k] == rows[..k];
    }
  }

  /** The sweep has seen, at the bucket a row stands for, exactly the events up to each bucket's end. */
  ghost predicate SeesEveryEvent(w: Window, events: seq<Event>)
    requires w.step != 0
  {
    forall b: nat :: b < w.Count() ==>
      Until(events, w.BucketEnd(LastVisited(w, events, b))) == Until(events, w.BucketEnd(b))
  }

  /** An event on the tick between two buckets is filed under the later; the earlier must be visited anyway. */
  ghost predicate BoundaryEventsAreVisited(w: Window, events: seq<Event>)
    requires w.step != 0
  {
    forall e, k: int :: e in events && 0 < k < w.Count() && e.At() == w.Tick(k) ==> Visited(w, events, k - 1)
  }

  lemma EventBetweenVisitsIsOnBoundary(w: Window, events: seq<Event>, b: nat, e: Event)
    requires w.Valid() && Chronological(w, events) && b < w.Count() && e in events
    requires w.BucketEnd(LastVisited(w, events, b)) < e.At() <= w.BucketEnd(b)
    ensures e.At() == w.Tick(b + 1) && b + 1 < w.Count()
  {
    var v := LastVisited(w, events, b);
    EndsAscend(w, v, b);
    InteriorEnd(w, v);
    IndexBetween(w, e.At(), v, b);
    if v + 1 <= w.IndexOf(e.At()) <= b {
      assert MarksBucket(w, e, w.IndexOf(e.At()));
      assert Visited(w, events, w.IndexOf(e.At()));
    }
  }

  /** No event is missed anywhere exactly when every boundary event has its earlier bucket visited. */
  lemma SeesEveryEventIff(w: Window, events: seq<Event>)
    requires w.Valid() && Chronological(w, events)
    ensures SeesEveryEvent(w, events) <==> BoundaryEventsAreVisited(w, events)
  {
    hide Visited;
    if BoundaryEventsAreVisited(w, events) {
      forall b: nat | b < w.Count()
        ensures Until(events, w.BucketEnd(LastVisited(w, events, b))) == Until(events, w.BucketEnd(b))
      {
        var v := LastVisited(w, events, b);
        EndsAscend(w, v, b);
        forall e | e in events ensures e.At() <= w.BucketEnd(v) <==> e.At() <= w.BucketEnd(b) {
          if w.BucketEnd(v) < e.At() <= w.BucketEnd(b) {
            EventBetweenVisitsIsOnBoundary(w, events, b, e);
          }
        }
        FilterCongruence(events, (e: Event) => e.At() <= w.BucketEnd(v), (e: Event) => e.At() <= w.BucketEnd(b));
      }
    }
    if SeesEveryEvent(w, events) {
      forall e, k: int | e in events && 0 < k < w.Count() && e.At() == w.Tick(k)
        ensures Visited(w, events, k - 1)
      {
        var b: nat := k - 1;
        var v := LastVisited(w, events, b);
        InteriorEnd(w, b);
        assert e in Until(events, w.BucketEnd(b));
        assert e in Until(events, w.BucketEnd(v));
        if v < b { EndsAscend(w, v, b); }
      }
    }
  }

  /** Every candidate the sweep holds is as fresh at the visited bucket's end as at each bucket it stands for. */
  ghost predicate SeesEveryExpiry(w: Window, initial: CandidateState, events: seq<Event>)
    requires w.step != 0
  {
    forall b: nat :: b < w.Count() ==>
      var state, seen, now := StateAt(initial, events, w.BucketEnd(b)), w.BucketEnd(LastVisited(w, events, b)), w.BucketEnd(b);
      && SameFreshness(state.metrics, seen, now)
      && forall p :: p in state.positions ==> PositionIsFresh(p, seen) == PositionIsFresh(p, now)
  }

  /**
   * A candidate carried in at `start` that expires inside a bucket, and has not been replaced by
   * that bucket's end, needs the bucket to be visited: the sweep only notes the expiries of events.
   */
  ghost predicate CarriedExpiriesAreVisited(w: Window, initial: CandidateState, events: seq<Event>)
    requires w.step != 0
  {
    && (forall c, k: nat ::
          c in initial.metrics && 0 < k < w.Count() && w.Tick(k) <= Expiry(c.key, c.origin) < w.BucketEnd(k)
          && c in StateAt(initial, events, w.BucketEnd(k)).metrics
          ==> Visited(w, events, k))
    && (forall p, k: nat ::
          p in initial.positions && 0 < k < w.Count() && w.Tick(k) <= Expiry(VehicleSpeed, p.origin) < w.BucketEnd(k)
          && p in StateAt(initial, events, w.BucketEnd(k)).positions
          ==> Visited(w, events, k))
  }

  /** The bucket, among those standing behind visited bucket v, in which an expiry falls. */
  lemma ExpiryFallsInBucket(w: Window, v: int, b: int, expiry: Instant) returns (k: nat)
    requires w.Valid() && 0 <= v < b < w.Count()
    requires w.BucketEnd(v) <= expiry < w.BucketEnd(b)
    ensures v < k <= b && w.Tick(k) <= expiry < w.BucketEnd(k) && w.IndexOf(expiry) == k
    ensures w.start < expiry < w.end
  {
    CountBounds(w);
    InteriorEnd(w, v);
    SlotBounds(w, expiry);
    var slot := w.Slot(expiry);
    TicksAreSpaced(w, slot + 1, v + 1);
    TicksAreSpaced(w, b + 1, slot);
    TicksAreSpaced(w, 0, v + 1);
    k := slot;
  }

  /** No expiry of an event is missed: the sweep visits the bucket it falls in. */
  lemma EventExpiryIsVisited(w: Window, events: seq<Event>, e: Event, k: int)
    requires w.Valid() && e in events && EventExpiry(e).Some?
    requires w.start < EventExpiry(e).value < w.end && w.IndexOf(EventExpiry(e).value) == k
    ensures Visited(w, events, k)
  {
    assert MarksBucket(w, e, k);
  }

  lemma MetricFreshnessIsSeen(w: Window, initial: CandidateState, events: seq<Event>, b: nat, c: Candidate)
    requires w.Valid() && Chronological(w, events) && CarriedExpiriesAreVisited(w, initial, events)
    requires b < w.Count() && c in StateAt(initial, events, w.BucketEnd(b)).metrics
    ensures IsFresh(c, w.BucketEnd(LastVisited(w, events, b))) == IsFresh(c, w.BucketEnd(b))
  {
    hide Visited, ObservationIsFresh, FreshnessOf;
    var v := LastVisited(w, events, b);
    var expiry := Expiry(c.key, c.origin);
    EndsAscend(w, v, b);
    ExpiryIsLastFreshInstant(c.key, c.origin, w.BucketEnd(v));
    ExpiryIsLastFreshInstant(c.key, c.origin, w.BucketEnd(b));
    if w.BucketEnd(v) <= expiry < w.BucketEnd(b) {
      var k := ExpiryFallsInBucket(w, v, b, expiry);
      MetricExpiryIsVisited(w, initial, events, b, c, k);
      assert false;
    }
  }

  lemma MetricExpiryIsVisited(w: Window, initial: CandidateState, events: seq<Event>, b: nat, c: Candidate, k: nat)
    requires w.Valid() && Chronological(w, events) && CarriedExpiriesAreVisited(w, initial, events)
    requires 0 < k <= b < w.Count() && c in StateAt(initial, events, w.BucketEnd(b)).metrics
    requires w.Tick(k) <= Expiry(c.key, c.origin) < w.BucketEnd(k) && w.start < Expiry(c.key, c.origin) < w.end
    requires w.IndexOf(Expiry(c.key, c.origin)) == k
    ensures Visited(w, events, k)
  {
    hide Visited, ObservationIsFresh, FreshnessOf;
    var seen := Until(events, w.BucketEnd(b));
    HeldMetricHasAnOrigin(initial, seen, c);
    if e :| e in seen && CarriesMetric(e, c) {
      assert EventExpiry(e) == Some(Expiry(c.key, c.origin)) by { MirroredSpeedExpiresWithItsFix(e, c); }
      EventExpiryIsVisited(w, events, e, k);
    } else {
      EndsAscend(w, k, b);
      var shorter := UntilIsPrefix(w, events, w.BucketEnd(k), w.BucketEnd(b));
      HeldMetricWasHeldBefore(initial, seen, shorter, c);
    }
  }

  lemma MirroredSpeedExpiresWithItsFix(e: Event, c: Candidate)
    requires CarriesMetric(e, c)
    ensures EventExpiry(e) == Some(Expiry(c.key, c.origin))
  {
  }

  /** Of chronological events, those up to an earlier instant are the first of those up to a later one. */
  lemma UntilIsPrefix(w: Window, events: seq<Event>, earlier: Instant, later: Instant) returns (shorter: nat)
    requires Chronological(w, events) && earlier <= later
    ensures shorter <= |Until(events, later)| && Until(events, later)[..shorter] == Until(events, earlier)
  {
    shorter := PrefixLength(events, earlier);
    var longer := PrefixLength(events, later);
    PrefixIsUntil(w, events, shorter, earlier);
    PrefixIsUntil(w, events, longer, later);
    assert shorter <= longer;
  }

  ghost function PrefixLength(events: seq<Event>, at: Instant): (k: nat)
    requires forall i, j :: 0 <= i < j < |events| ==> events[i].At() <= events[j].At()
    ensures k <= |events|
    ensures forall i :: 0 <= i < k ==> events[i].At() <= at
    ensures k < |events| ==> events[k].At() > at
  {
    if events == [] || events[0].At() > at then 0 else 1 + PrefixLength(events[1..], at)
  }

  lemma PositionFreshnessIsSeen(w: Window, initial: CandidateState, events: seq<Event>, b: nat, p: PositionCandidate)
    requires w.Valid() && Chronological(w, events) && CarriedExpiriesAreVisited(w, initial, events)
    requires b < w.Count() && p in StateAt(initial, events, w.BucketEnd(b)).positions
    ensures PositionIsFresh(p, w.BucketEnd(LastVisited(w, events, b))) == PositionIsFresh(p, w.BucketEnd(b))
  {
    hide Visited, ObservationIsFresh, FreshnessOf;
    var v := LastVisited(w, events, b);
    var expiry := Expiry(VehicleSpeed, p.origin);
    EndsAscend(w, v, b);
    ExpiryIsLastFreshInstant(VehicleSpeed, p.origin, w.BucketEnd(v));
    ExpiryIsLastFreshInstant(VehicleSpeed, p.origin, w.BucketEnd(b));
    if w.BucketEnd(v) <= expiry < w.BucketEnd(b) {
      var k := ExpiryFallsInBucket(w, v, b, expiry);
      PositionExpiryIsVisited(w, initial, events, b, p, k);
      assert false;
    }
  }

  lemma PositionExpiryIsVisited(w: Window, initial: CandidateState, events: seq<Event>, b: nat, p: PositionCandidate, k: nat)
    requires w.Valid() && Chronological(w, events) && CarriedExpiriesAreVisited(w, initial, events)
    requires 0 < k <= b < w.Count() && p in StateAt(initial, events, w.BucketEnd(b)).positions
    requires w.Tick(k) <= Expiry(VehicleSpeed, p.origin) < w.BucketEnd(k) && w.start < Expiry(VehicleSpeed, p.origin) < w.end
    requires w.IndexOf(Expiry(VehicleSpeed, p.origin)) == k
    ensures Visited(w, events, k)
  {
    hide Visited, ObservationIsFresh, FreshnessOf;
    var seen := Until(events, w.BucketEnd(b));
    HeldPositionHasAnOrigin(initial, seen, p);
    if e :| e in seen && CarriesPosition(e, p) {
      EventExpiryIsVisited(w, events, e, k);
    } else {
      EndsAscend(w, k, b);
      var shorter := UntilIsPrefix(w, events, w.BucketEnd(k), w.BucketEnd(b));
      HeldPositionWasHeldBefore(initial, seen, shorter, p);
    }
  }

  lemma UnvisitedExpiryIsUnseen(w: Window, events: seq<Event>, key: Key, origin: Provenance, k: nat)
    requires w.Valid() && 0 < k < w.Count() && w.Tick(k) <= Expiry(key, origin) < w.BucketEnd(k) && !Visited(w, events, k)
    ensures ObservationIsFresh(key, origin, w.BucketEnd(LastVisited(w, events, k)))
    ensures !ObservationIsFresh(key, origin, w.BucketEnd(k))
  {
    hide Visited, ObservationIsFresh, FreshnessOf, Expiry;
    var v := LastVisited(w, events, k);
    InteriorEnd(w, v);
    TicksAreSpaced(w, v + 1, k);
    ExpiryIsLastFreshInstant(key, origin, w.BucketEnd(v));
    ExpiryIsLastFreshInstant(key, origin, w.BucketEnd(k));
  }

  /** No expiry is missed anywhere exactly when every candidate carried in has its expiry bucket visited. */
  lemma SeesEveryExpiryIff(w: Window, initial: CandidateState, events: seq<Event>)
    requires w.Valid() && Chronological(w, events)
    ensures SeesEveryExpiry(w, initial, events) <==> CarriedExpiriesAreVisited(w, initial, events)
  {
    hide Visited, ObservationIsFresh, Expiry, StateAt;
    if CarriedExpiriesAreVisited(w, initial, events) {
      hide CarriedExpiriesAreVisited, IsFresh, PositionIsFresh;
      forall b: nat | b < w.Count()
        ensures var state, seen, now := StateAt(initial, events, w.BucketEnd(b)), w.BucketEnd(LastVisited(w, events, b)), w.BucketEnd(b);
          SameFreshness(state.metrics, seen, now) && forall p :: p in state.positions ==> PositionIsFresh(p, seen) == PositionIsFresh(p, now)
      {
        var state := StateAt(initial, events, w.BucketEnd(b));
        forall c | c in state.metrics { MetricFreshnessIsSeen(w, initial, events, b, c); }
        forall p | p in state.positions { PositionFreshnessIsSeen(w, initial, events, b, p); }
      }
    }
    if SeesEveryExpiry(w, initial, events) {
      forall c, k: nat |
        c in initial.metrics && 0 < k < w.Count() && w.Tick(k) <= Expiry(c.key, c.origin) < w.BucketEnd(k)
        && c in StateAt(initial, events, w.BucketEnd(k)).metrics
        ensures Visited(w, events, k)
      {
        assert IsFresh(c, w.BucketEnd(LastVisited(w, events, k))) == IsFresh(c, w.BucketEnd(k));
        if !Visited(w, events, k) {
          UnvisitedExpiryIsUnseen(w, events, c.key, c.origin, k);
        }
      }
      forall p, k: nat |
        p in initial.positions && 0 < k < w.Count() && w.Tick(k) <= Expiry(VehicleSpeed, p.origin) < w.BucketEnd(k)
        && p in StateAt(initial, events, w.BucketEnd(k)).positions
        ensures Visited(w, events, k)
      {
        assert PositionIsFresh(p, w.BucketEnd(LastVisited(w, events, k))) == PositionIsFresh(p, w.BucketEnd(k));
        if !Visited(w, events, k) {
          UnvisitedExpiryIsUnseen(w, events, VehicleSpeed, p.origin, k);
        }
      }
    }
  }

  /**
   * The sparse sweep refines the dense evaluation: expanded back to one entry per bucket, the table
   * shows at every bucket exactly the vehicle resolved at that bucket's end from all events up to it.
   */
  lemma SparseSweepIsDense(w: Window, initial: CandidateState, events: seq<Event>, rows: seq<Row>)
    requires w.Valid() && Chronological(w, events) && IsTable(w, initial, events, rows)
    requires BoundaryEventsAreVisited(w, events) && CarriedExpiriesAreVisited(w, initial, events)
    ensures |Expanded(rows)| == w.Count()
    ensures forall b :: 0 <= b < w.Count() ==> Expanded(rows)[b] == DenseAt(w, initial, events, b)
  {
    CountBounds(w);
    assert |Expanded(rows)| == w.Count();
    SeesEveryEventIff(w, events);
    SeesEveryExpiryIff(w, initial, events);
    hide BoundaryEventsAreVisited, CarriedExpiriesAreVisited, IsFresh, PositionIsFresh, Readings, ResolvePosition, LastVisited, Covers;
    forall b | 0 <= b < w.Count() ensures Expanded(rows)[b] == DenseAt(w, initial, events, b) {
      ExpandedShowsSweep(w, initial, events, rows, w.Count(), b);
      var v := LastVisited(w, events, b);
      var state := StateAt(initial, events, w.BucketEnd(b));
      assert state == StateAt(initial, events, w.BucketEnd(v));
      ResolutionSeesClockThroughFreshness(state.metrics, state.positions, w.BucketEnd(v), w.BucketEnd(b));
    }
  }

  /** The plain reading of the two conditions: nothing on an interior tick, nothing carried in runs out inside. */
  lemma UndisturbedSweepIsDense(w: Window, initial: CandidateState, events: seq<Event>, rows: seq<Row>)
    requires w.Valid() && Chronological(w, events) && IsTable(w, initial, events, rows)
    requires forall e, k: int :: e in events && 0 < k < w.Count() ==> e.At() != w.Tick(k)
    requires forall c :: c in initial.metrics ==> !(w.start < Expiry(c.key, c.origin) < w.end)
    requires forall p :: p in initial.positions ==> !(w.start < Expiry(VehicleSpeed, p.origin) < w.end)
    ensures |Expanded(rows)| == w.Count()
    ensures forall b :: 0 <= b < w.Count() ==> Expanded(rows)[b] == DenseAt(w, initial, events, b)
  {
    hide Visited, Expiry, StateAt, Expanded, DenseAt;
    forall k: int | 0 < k < w.Count() ensures w.start < w.Tick(k) {
      TicksAreSpaced(w, 0, k);
    }
    SparseSweepIsDense(w, initial, events, rows);
  }

  const MINUTE: Duration := 60 * SECOND

  function TenMinutes(): Window {
    Window(0, 10 * MINUTE, MINUTE)
  }

  lemma TenMinutesGrid()
    ensures TenMinutes().Valid() && TenMinutes().Count() == 10
    ensures forall k :: TenMinutes().Tick(k) == MINUTE * k
  {
  }

  lemma UnvisitedMinuteShowsTheFirst(c: Candidate)
    requires c == Stated(VehicleSpeed, Number(50.0), 0)
    ensures var w, initial := TenMinutes(), CandidateState([c], [], map[]);
      && LastVisited(w, [], 3) == 0
      && VehicleSpeed in DenseAt(w, initial, [], 0).readings && VehicleSpeed !in DenseAt(w, initial, [], 3).readings
  {
    var w, initial := TenMinutes(), CandidateState([c], [], map[]);
    TenMinutesGrid();
    assert LastVisited(w, [], 3) == 0;
    assert StateAt(initial, [], w.BucketEnd(0)) == initial && StateAt(initial, [], w.BucketEnd(3)) == initial;
    hide LastVisited, StateAt, ReadingFor;
    SpeedRunsOut(c, initial.metrics);
  }

  /** Whatever the sweep returns, it shows bucket `b` otherwise than the dense evaluation does. */
  ghost predicate Misses(w: Window, initial: CandidateState, events: seq<Event>, b: nat)
    requires w.Valid()
  {
    && Chronological(w, events) && b < w.Count()
    && forall rows :: IsTable(w, initial, events, rows) ==>
         |Expanded(rows)| == w.Count() && Expanded(rows)[b] != DenseAt(w, initial, events, b)
  }

  lemma UnvisitedChangeIsMissed(w: Window, initial: CandidateState, events: seq<Event>, b: nat)
    requires w.Valid() && Chronological(w, events) && b < w.Count()
    requires DenseAt(w, initial, events, LastVisited(w, events, b)) != DenseAt(w, initial, events, b)
    ensures Misses(w, initial, events, b)
  {
    hide Expanded, DenseAt, LastVisited, IsTable, Chronological;
    forall rows | IsTable(w, initial, events, rows)
      ensures |Expanded(rows)| == w.Count() && Expanded(rows)[b] != DenseAt(w, initial, events, b)
    {
      ShowsSweepAt(w, initial, events, rows, b);
    }
  }

  /** A CAN speed carried in runs out in the fourth minute of a quiet window, and the table still shows it there. */
  lemma CarriedExpiryCanBeMissed()
    ensures TenMinutes().Valid()
    ensures exists initial: CandidateState, b: nat :: Misses(TenMinutes(), initial, [], b)
  {
    hide DenseAt, LastVisited, Misses, Chronological, Stated;
    var c := Stated(VehicleSpeed, Number(50.0), 0);
    var initial := CandidateState([c], [], map[]);
    TenMinutesGrid();
    QuietWindow(TenMinutes());
    UnvisitedMinuteShowsTheFirst(c);
    UnvisitedChangeIsMissed(TenMinutes(), initial, [], 3);
  }

  lemma ShowsSweepAt(w: Window, initial: CandidateState, events: seq<Event>, rows: seq<Row>, b: nat)
    requires w.Valid() && IsTable(w, initial, events, rows) && b < w.Count()
    ensures |Expanded(rows)| == w.Count()
    ensures Expanded(rows)[b] == DenseAt(w, initial, events, LastVisited(w, events, b))
  {
    ExpandedShowsSweep(w, initial, events, rows, w.Count(), b);
  }

  lemma QuietWindow(w: Window)
    requires w == TenMinutes()
    ensures w.Valid() && Chronological(w, []) && w.Count() == 10
  {
  }

  lemma SpeedRunsOut(c: Candidate, metrics: seq<Candidate>)
    requires c == Stated(VehicleSpeed, Number(50.0), 0) && metrics == [c]
    ensures ReadingFor(VehicleSpeed, metrics, MINUTE).Some?
    ensures ReadingFor(VehicleSpeed, metrics, 4 * MINUTE).None?
  {
    hide Selected;
    SoleCandidateIsSelected(VehicleSpeed, metrics, c, MINUTE);
    SoleCandidateIsSelected(VehicleSpeed, metrics, c, 4 * MINUTE);
  }

  lemma TickReportIsUnseen(event: Event)
    requires event == AgentEvent(2 * MINUTE, map["queue_depth" := Number(1.0)])
    ensures var w, initial := TenMinutes(), CandidateState([], [], map[]);
      && w.Valid() && Chronological(w, [event]) && w.Count() == 10
      && LastVisited(w, [event], 1) == 0
      && "queue_depth" in DenseAt(w, initial, [event], 1).agent && "queue_depth" !in DenseAt(w, initial, [event], 0).agent
  {
    var w := TenMinutes();
    TenMinutesGrid();
    assert w.IndexOf(event.At()) == 2;
    assert !MarksBucket(w, event, 1);
    assert LastVisited(w, [event], 1) == 0;
    hide LastVisited, Readings, ResolvePosition;
    assert Until([event], w.BucketEnd(1)) == [event] && Until([event], w.BucketEnd(0)) == [];
  }

  /** A report on the tick between two minutes is missing from the minute it closes. */
  lemma BoundaryEventCanBeMissed()
    ensures TenMinutes().Valid()
    ensures exists initial: CandidateState, event: Event, b: nat :: Misses(TenMinutes(), initial, [event], b)
  {
    hide DenseAt, LastVisited, Misses, Chronological;
    var event := AgentEvent(2 * MINUTE, map["queue_depth" := Number(1.0)]);
    TenMinutesGrid();
    TickReportIsUnseen(event);
    UnvisitedChangeIsMissed(TenMinutes(), CandidateState([], [], map[]), [event], 1);
  }

  lemma RunsDoNotEndEarly(w: Window, initial: CandidateState, events: seq<Event>, a: seq<Row>, b: seq<Row>, i: nat)
    requires w.Valid() && IsTable(w, initial, events, a) && IsTable(w, initial, events, b)
    requires i < |a| && i < |b| && a[..i] == b[..i]
    ensures Total(a[..i + 1]) >= Total(b[..i + 1])
  {
    hide DenseAt, Reports, Until, LastVisited;
    var from, to := Total(a[..i]), Total(a[..i + 1]);
    assert RowFits(w, initial, events, a, i) && RowFits(w, initial, events, b, i);
    TotalIsMonotone(b, i + 1);
    assert a[..|a|] == a;
    if i + 1 < |a| {
      assert RowFits(w, initial, events, a, i + 1);
    }
    if to < Total(b[..i + 1]) {
      assert false;
    }
  }

  lemma {:induction false} TablesAgree(w: Window, initial: CandidateState, events: seq<Event>, a: seq<Row>, b: seq<Row>, i: nat)
    requires w.Valid() && IsTable(w, initial, events, a) && IsTable(w, initial, events, b)
    requires i <= |a|
    ensures i <= |b| && a[..i] == b[..i]
  {
    hide DenseAt, Reports, Until, LastVisited;
    if i > 0 {
      var j: nat := i - 1;
      TablesAgree(w, initial, events, a, b, j);
      assert RowFits(w, initial, events, a, j);
      TotalIsMonotone(a, i);
      assert j < |b| by { assert b[..|b|] == b; }
      RunsDoNotEndEarly(w, initial, events, a, b, j);
      RunsDoNotEndEarly(w, initial, events, b, a, j);
      assert RowFits(w, initial, events, b, j);
      assert a[..i][..j] == a[..j] && b[..i][..j] == b[..j];
      assert a[j] == b[j];
    }
  }

  /** The contract of the sweep leaves no choice: window, carried state and events determine every row. */
  lemma TableIsUnique(w: Window, initial: CandidateState, events: seq<Event>, a: seq<Row>, b: seq<Row>)
    requires w.Valid() && IsTable(w, initial, events, a) && IsTable(w, initial, events, b)
    ensures a == b
  {
    hide Covers, IsTable;
    TablesAgree(w, initial, events, a, b, |a|);
    TablesAgree(w, initial, events, b, a, |b|);
  }

  lemma InteriorIndex(w: Window, at: Instant, b: int)
    requires w.Valid() && 0 < b < w.Count() - 1
    ensures w.IndexOf(at) == b <==> w.start + w.step * b <= at < w.start + w.step * b + w.step
  {
    SlotBounds(w, at);
    TicksAreSpaced(w, w.Slot(at), b);
    TicksAreSpaced(w, b, w.Slot(at));
    assert w.Tick(w.Slot(at) + 1) == w.Tick(w.Slot(at)) + w.step;
    assert w.Tick(b) == w.start + w.step * b;
  }

  /**
   * The buckets visited, in instants: the first and the last, and of the others those in which an event
   * happens or a candidate brought by one expires.
   */
  lemma VisitedIff(w: Window, events: seq<Event>, b: int)
    requires w.Valid() && 0 <= b < w.Count()
    ensures Visited(w, events, b) <==>
      || b == 0 || b == w.Count() - 1
      || exists e :: e in events &&
           (|| w.start + w.step * b <= e.At() < w.start + w.step * b + w.step
            || (EventExpiry(e).Some? && w.start + w.step * b <= EventExpiry(e).value < w.start + w.step * b + w.step))
  {
    if 0 < b < w.Count() - 1 {
      InteriorEnd(w, b);
      MultipleIsPositive(w.step, b);
      assert w.start < w.start + w.step * b && w.start + w.step * b + w.step == w.Tick(b + 1) < w.end;
      forall e ensures MarksBucket(w, e, b) <==>
        (|| w.start + w.step * b <= e.At() < w.start + w.step * b + w.step
         || (EventExpiry(e).Some? && w.start + w.step * b <= EventExpiry(e).value < w.start + w.step * b + w.step))
      {
        InteriorIndex(w, e.At(), b);
        if EventExpiry(e).Some? {
          InteriorIndex(w, EventExpiry(e).value, b);
        }
      }
      hide MarksBucket;
    }
  }
}
