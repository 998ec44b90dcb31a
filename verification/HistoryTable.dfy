/**
 * The history table: a sweep that visits only the buckets where an event lands or a candidate
 * expires, and merges neighbouring rows that show the same state
 * (backend/app/history/reconstruction.py: table_rows).
 */
module HistoryTable {
  import opened Options
  import opened Numbers
  import opened Registry
  import opened Sequences
  import opened Resolution
  import opened Timeline
  import opened Buckets

  datatype Snapshot = Snapshot(
    readings: map<Key, Reading>,
    position: Option<ResolvedPosition>,
    agent: map<string, Value>)

  datatype Row = Row(bucketStart: Instant, bucketEnd: Instant, collapsed: nat, reports: nat, snapshot: Snapshot)

  /** What the event query returns: everything in (start, end], oldest first. */
  ghost predicate Chronological(w: Window, events: seq<Event>) {
    && (forall i, j :: 0 <= i < j < |events| ==> events[i].At() <= events[j].At())
    && (forall e :: e in events ==> w.start < e.At() <= w.end)
  }

  /** Everything observed up to an instant, whatever bucket it was filed under. */
  function Until(events: seq<Event>, at: Instant): seq<Event> {
    Filter(events, (e: Event) => e.At() <= at)
  }

  function StateAt(initial: CandidateState, events: seq<Event>, at: Instant): CandidateState {
    Fold(initial, Until(events, at))
  }

  function Resolved(state: CandidateState, at: Instant): Snapshot {
    Snapshot(Readings(state.metrics, at), ResolvePosition(state.positions, at), state.agent)
  }

  /** The dense evaluation: the vehicle resolved at the end of one bucket from all events up to it. */
  function DenseAt(w: Window, initial: CandidateState, events: seq<Event>, b: int): Snapshot {
    Resolved(StateAt(initial, events, w.BucketEnd(b)), w.BucketEnd(b))
  }

  function Reports(events: seq<Event>): nat {
    |Filter(events, (e: Event) => e.AgentEvent?)|
  }

  /** When the candidate an event brings stops being fresh; an agent report brings none. */
  function EventExpiry(e: Event): Option<Instant> {
    match e
    case MetricEvent(metric) => Some(Expiry(metric.key, metric.origin))
    case PositionEvent(position) => Some(Expiry(VehicleSpeed, position.origin))
    case AgentEvent(_, _) => None
  }

  predicate ExpiresInside(w: Window, e: Event) {
    EventExpiry(e).Some? && w.start < EventExpiry(e).value < w.end
  }

  predicate MarksBucket(w: Window, e: Event, b: int)
    requires w.step != 0
  {
    w.IndexOf(e.At()) == b || (ExpiresInside(w, e) && w.IndexOf(EventExpiry(e).value) == b)
  }

  /** The buckets the sweep stops at. */
  ghost predicate Visited(w: Window, events: seq<Event>, b: int)
    requires w.step != 0
  {
    b == 0 || b == w.Count() - 1 || exists e :: e in events && MarksBucket(w, e, b)
  }

  ghost function LastVisited(w: Window, events: seq<Event>, b: nat): (v: nat)
    requires w.step != 0
    ensures v <= b && Visited(w, events, v)
    ensures forall k :: v < k <= b ==> !Visited(w, events, k)
  {
    if Visited(w, events, b) then b else LastVisited(w, events, b - 1)
  }

  function Total(rows: seq<Row>): nat {
    if rows == [] then 0 else Total(rows[..|rows| - 1]) + rows[|rows| - 1].collapsed
  }

  function TotalReports(rows: seq<Row>): nat {
    if rows == [] then 0 else TotalReports(rows[..|rows| - 1]) + rows[|rows| - 1].reports
  }

  /**
   * Row `i` spans whole buckets, from where the rows before it end, shows what the dense
   * evaluation shows at the last visited bucket of each of them, and the reports counted so far
   * are those up to the last bucket visited in it.
   */
  ghost predicate RowFits(w: Window, initial: CandidateState, events: seq<Event>, rows: seq<Row>, i: nat)
    requires w.step != 0 && i < |rows|
  {
    var from, to := Total(rows[..i]), Total(rows[..i + 1]);
    && from < to
    && rows[i].collapsed == to - from
    && rows[i].bucketStart == w.Tick(from)
    && rows[i].bucketEnd == Min(w.end, w.Tick(to))
    && (forall b :: from <= b < to ==> rows[i].snapshot == DenseAt(w, initial, events, LastVisited(w, events, b)))
    && TotalReports(rows[..i + 1]) == Reports(Until(events, w.BucketEnd(LastVisited(w, events, to - 1))))
  }

  ghost predicate Covers(w: Window, initial: CandidateState, events: seq<Event>, rows: seq<Row>, upto: nat)
    requires w.step != 0
  {
    && Total(rows) == upto
    && (forall i :: 0 <= i < |rows| ==> RowFits(w, initial, events, rows, i))
    && (forall i :: 0 < i < |rows| ==> rows[i - 1].snapshot != rows[i].snapshot)
  }

  /** The sweep's result in chronological order. */
  ghost predicate IsTable(w: Window, initial: CandidateState, events: seq<Event>, rows: seq<Row>)
    requires w.step != 0
  {
    Covers(w, initial, events, rows, Max(0, w.Count()))
  }

  lemma PrefixIsUntil(w: Window, events: seq<Event>, k: nat, at: Instant)
    requires Chronological(w, events) && k <= |events|
    requires forall i :: 0 <= i < k ==> events[i].At() <= at
    requires k < |events| ==> events[k].At() > at
    ensures Until(events, at) == events[..k]
  {
    assert events == events[..k] + events[k..];
    var early := (e: Event) => e.At() <= at;
    FilterAppend(events[..k], events[k..], early);
    FilterAll(events[..k], early);
    NonemptyHasElement(Filter(events[k..], early));
    assert forall e :: e in events[k..] ==> !early(e);
  }

  /** The indices below `n` that are in the set, ascending: Python's sorted(). */
  function Ascending(s: set<int>, n: nat): (r: seq<int>)
    ensures forall x :: x in r <==> x in s && 0 <= x < n
    ensures forall i :: 0 <= i < |r| ==> r[i] < n
    ensures forall i, j :: 0 <= i < j < |r| ==> r[i] < r[j]
  {
    if n == 0 then []
    else if n - 1 in s then Ascending(s, n - 1) + [n - 1]
    else Ascending(s, n - 1)
  }

  method RelevantBuckets(w: Window, events: seq<Event>) returns (relevant: set<int>)
    requires w.Valid()
    ensures forall b :: b in relevant <==> 0 <= b < w.Count() && Visited(w, events, b)
  {
    CountBounds(w);
    relevant := {0, w.Count() - 1};
    for i := 0 to |events|
      invariant forall b :: b in relevant <==> 0 <= b < w.Count() && Visited(w, events[..i], b)
    {
      var event := events[i];
      assert events[..i + 1] == events[..i] + [event];
      assert forall e :: e in events[..i + 1] <==> e in events[..i] || e == event;
      assert forall b :: Visited(w, events[..i + 1], b) <==> Visited(w, events[..i], b) || MarksBucket(w, event, b);
      hide Visited;
      relevant := relevant + {w.IndexOf(event.At())};
      if EventExpiry(event).Some? {
        var expiry := EventExpiry(event).value;
        if w.start < expiry < w.end {
          relevant := relevant + {w.IndexOf(expiry)};
        }
      }
    }
    assert events[..|events|] == events;
  }

  lemma TotalAppend(rows: seq<Row>, row: Row)
    ensures Total(rows + [row]) == Total(rows) + row.collapsed
    ensures TotalReports(rows + [row]) == TotalReports(rows) + row.reports
  {
    assert (rows + [row])[..|rows|] == rows;
  }

  lemma RowsBeforeStillFit(w: Window, initial: CandidateState, events: seq<Event>, rows: seq<Row>, longer: seq<Row>, i: nat)
    requires w.step != 0 && i < |rows| && RowFits(w, initial, events, rows, i)
    requires rows[..i + 1] <= longer
    ensures RowFits(w, initial, events, longer, i)
  {
    hide DenseAt, LastVisited, Reports, Until;
    assert longer[..i] == rows[..i] && longer[..i + 1] == rows[..i + 1];
    assert longer[i] == rows[i];
  }

  /** One visited bucket and the unvisited ones after it join the table, as a new row or into the last. */
  function Extended(rows: seq<Row>, bucketStart: Instant, spanEnd: Instant, span: nat, reports: nat, snapshot: Snapshot): seq<Row> {
    if rows != [] && rows[|rows| - 1].snapshot == snapshot then
      var last := rows[|rows| - 1];
      rows[..|rows| - 1] + [last.(bucketEnd := spanEnd, collapsed := last.collapsed + span, reports := last.reports + reports)]
    else
      rows + [Row(bucketStart, spanEnd, span, reports, snapshot)]
  }

  lemma NewRowFits(w: Window, initial: CandidateState, events: seq<Event>, rows: seq<Row>, row: Row, index: nat, next: nat)
    requires w.step != 0 && Total(rows) == index < next
    requires row.collapsed == next - index && row.bucketStart == w.Tick(index) && row.bucketEnd == Min(w.end, w.Tick(next))
    requires row.snapshot == DenseAt(w, initial, events, index)
    requires forall b :: index <= b < next ==> LastVisited(w, events, b) == index
    requires TotalReports(rows) + row.reports == Reports(Until(events, w.BucketEnd(index)))
    ensures RowFits(w, initial, events, rows + [row], |rows|) && Total(rows + [row]) == next
  {
    hide DenseAt, LastVisited, Reports, Until, Window.BucketEnd, Window.Tick, Min, Total, TotalReports;
    TotalAppend(rows, row);
    assert (rows + [row])[..|rows|] == rows && (rows + [row])[..|rows| + 1] == rows + [row];
  }

  lemma GrownRowFits(w: Window, initial: CandidateState, events: seq<Event>, front: seq<Row>, last: Row, grown: Row, index: nat, next: nat)
    requires w.step != 0 && RowFits(w, initial, events, front + [last], |front|) && Total(front + [last]) == index < next
    requires last.snapshot == DenseAt(w, initial, events, index)
    requires grown == last.(bucketEnd := Min(w.end, w.Tick(next)), collapsed := last.collapsed + (next - index), reports := grown.reports)
    requires forall b :: index <= b < next ==> LastVisited(w, events, b) == index
    requires TotalReports(front + [last]) - last.reports + grown.reports == Reports(Until(events, w.BucketEnd(index)))
    ensures RowFits(w, initial, events, front + [grown], |front|) && Total(front + [grown]) == next
  {
    hide DenseAt, LastVisited, Reports, Until, Window.BucketEnd, Window.Tick, Min, Total, TotalReports;
    TotalAppend(front, last);
    TotalAppend(front, grown);
    assert (front + [last])[..|front|] == front && (front + [last])[..|front| + 1] == front + [last];
    assert (front + [grown])[..|front|] == front && (front + [grown])[..|front| + 1] == front + [grown];
  }

  /** The new last row, or the last row grown. */
  lemma ExtendedRowFits(w: Window, initial: CandidateState, events: seq<Event>, rows: seq<Row>, index: nat, next: nat, reports: nat)
    requires w.Valid() && Covers(w, initial, events, rows, index) && index < next <= w.Count()
    requires forall b :: index <= b < next ==> LastVisited(w, events, b) == index
    requires TotalReports(rows) + reports == Reports(Until(events, w.BucketEnd(index)))
    ensures var longer := Extended(rows, w.Tick(index), Min(w.end, w.Tick(next)), next - index, reports, DenseAt(w, initial, events, index));
      && RowFits(w, initial, events, longer, |longer| - 1)
      && Total(longer) == next
  {
    hide DenseAt, LastVisited, Reports, Until, Window.BucketEnd, Window.Tick, Min, RowFits, Total, TotalReports;
    var snapshot := DenseAt(w, initial, events, index);
    if rows != [] && rows[|rows| - 1].snapshot == snapshot {
      var front, last := rows[..|rows| - 1], rows[|rows| - 1];
      assert rows == front + [last];
      var grown := last.(bucketEnd := Min(w.end, w.Tick(next)), collapsed := last.collapsed + (next - index), reports := last.reports + reports);
      assert RowFits(w, initial, events, rows, |front|);
      GrownRowFits(w, initial, events, front, last, grown, index, next);
    } else {
      NewRowFits(w, initial, events, rows, Row(w.Tick(index), Min(w.end, w.Tick(next)), next - index, reports, snapshot), index, next);
    }
  }

  lemma ExtendedCovers(w: Window, initial: CandidateState, events: seq<Event>, rows: seq<Row>, index: nat, next: nat, reports: nat)
    requires w.Valid() && Covers(w, initial, events, rows, index) && index < next <= w.Count()
    requires forall b :: index <= b < next ==> LastVisited(w, events, b) == index
    requires TotalReports(rows) + reports == Reports(Until(events, w.BucketEnd(index)))
    ensures Covers(w, initial, events,
                   Extended(rows, w.Tick(index), Min(w.end, w.Tick(next)), next - index, reports, DenseAt(w, initial, events, index)), next)
  {
    hide DenseAt, LastVisited, Reports, Until, RowFits, Total, TotalReports, Window.BucketEnd, Window.Tick, Min;
    ExtendedRowFits(w, initial, events, rows, index, next, reports);
    var longer := Extended(rows, w.Tick(index), Min(w.end, w.Tick(next)), next - index, reports, DenseAt(w, initial, events, index));
    var n := |longer| - 1;
    forall i | 0 <= i < n ensures RowFits(w, initial, events, longer, i) {
      assert RowFits(w, initial, events, rows, i);
      RowsBeforeStillFit(w, initial, events, rows, longer, i);
    }
    forall i | 0 < i <= n ensures longer[i - 1].snapshot != longer[i].snapshot {
      assert longer[i - 1] == rows[i - 1];
    }
  }

  method ResolvedState(state: CandidateState, at: Instant) returns (snapshot: Snapshot)
    ensures snapshot == Resolved(state, at)
  {
    var readings := ResolveReadings(state.metrics, at);
    snapshot := Snapshot(readings, ResolvePosition(state.positions, at), state.agent);
  }

  /** The visited bucket after the one at `offset`, or the end of the grid. */
  function NextIndex(w: Window, ordered: seq<int>, offset: nat): int
    requires w.step != 0
  {
    if offset + 1 < |ordered| then ordered[offset + 1] else w.Count()
  }

  ghost predicate VisitsInOrder(w: Window, events: seq<Event>, ordered: seq<int>)
    requires w.step != 0
  {
    && (forall b :: b in ordered <==> 0 <= b < w.Count() && Visited(w, events, b))
    && (forall i, j :: 0 <= i < j < |ordered| ==> ordered[i] < ordered[j])
  }

  lemma SpanHasOneVisit(w: Window, events: seq<Event>, ordered: seq<int>, offset: nat)
    requires w.Valid() && VisitsInOrder(w, events, ordered) && offset < |ordered|
    ensures 0 <= ordered[offset] < NextIndex(w, ordered, offset) <= w.Count()
    ensures forall b :: ordered[offset] <= b < NextIndex(w, ordered, offset) ==> LastVisited(w, events, b) == ordered[offset]
  {
    hide Visited;
    var index, next := ordered[offset], NextIndex(w, ordered, offset);
    assert index in ordered;
    if offset + 1 < |ordered| { assert next in ordered; }
    assert forall at :: 0 <= at < |ordered| ==> ordered[at] <= index || next <= ordered[at];
    assert forall b :: b in ordered ==> b <= index || next <= b;
  }

  lemma SweepStartsAtZero(w: Window, events: seq<Event>, ordered: seq<int>)
    requires w.Valid() && VisitsInOrder(w, events, ordered)
    ensures ordered != [] && ordered[0] == 0
  {
    CountBounds(w);
    assert 0 in ordered;
    assert ordered[0] in ordered;
  }

  lemma EventConsumed(initial: CandidateState, events: seq<Event>, k: nat)
    requires k < |events|
    ensures Reports(events[..k + 1]) == Reports(events[..k]) + (if events[k].AgentEvent? then 1 else 0)
    ensures Fold(initial, events[..k + 1]) == Apply(Fold(initial, events[..k]), events[k])
  {
    assert events[..k + 1][..k] == events[..k];
  }

  lemma NothingYet(w: Window, initial: CandidateState, events: seq<Event>)
    requires w.step != 0
    ensures Covers(w, initial, events, [], 0)
    ensures Fold(initial, events[..0]) == initial && Reports(events[..0]) == 0
  {
  }

  lemma ReversedTwice<T>(s: seq<T>)
    ensures Reversed(Reversed(s)) == s
  {
  }

  /** The events consumed so far: a prefix, applied to the state, its agent reports counted. */
  ghost predicate Consumed(initial: CandidateState, events: seq<Event>, k: int, state: CandidateState, reports: nat) {
    0 <= k <= |events| && state == Fold(initial, events[..k]) && reports == Reports(events[..k])
  }

  ghost predicate UpTo(events: seq<Event>, k: int, at: Instant) {
    0 <= k <= |events| && forall i :: 0 <= i < k ==> events[i].At() <= at
  }

  /** The inner loop: applies what has happened by the end of the bucket and counts its agent reports. */
  method ConsumeEvents(initial: CandidateState, events: seq<Event>, from: nat, before: CandidateState, bucketEnd: Instant, ghost counted: nat)
    returns (state: CandidateState, eventIndex: nat, reports: nat)
    requires Consumed(initial, events, from, before, counted) && UpTo(events, from, bucketEnd)
    ensures Consumed(initial, events, eventIndex, state, counted + reports)
    ensures from <= eventIndex && UpTo(events, eventIndex, bucketEnd)
    ensures eventIndex < |events| ==> events[eventIndex].At() > bucketEnd
  {
    hide Apply, Fold, Reports;
    state, eventIndex, reports := before, from, 0;
    while eventIndex < |events| && events[eventIndex].At() <= bucketEnd
      invariant Consumed(initial, events, eventIndex, state, counted + reports)
      invariant from <= eventIndex && UpTo(events, eventIndex, bucketEnd)
    {
      var event := events[eventIndex];
      EventConsumed(initial, events, eventIndex);
      state := Apply(state, event);
      if event.AgentEvent? {
        reports := reports + 1;
      }
      eventIndex := eventIndex + 1;
    }
  }

  lemma UpToLater(events: seq<Event>, k: int, at: Instant, later: Instant)
    requires UpTo(events, k, at) && at <= later
    ensures UpTo(events, k, later)
  {
  }

  lemma NothingConsumed(initial: CandidateState, events: seq<Event>, at: Instant)
    ensures Consumed(initial, events, 0, initial, 0) && UpTo(events, 0, at)
  {
  }

  lemma ConsumedIsUntil(w: Window, initial: CandidateState, events: seq<Event>, k: nat, state: CandidateState, reports: nat, at: Instant)
    requires Chronological(w, events) && Consumed(initial, events, k, state, reports) && UpTo(events, k, at)
    requires k < |events| ==> events[k].At() > at
    ensures state == StateAt(initial, events, at) && reports == Reports(Until(events, at))
  {
    hide Fold, Reports, Until;
    PrefixIsUntil(w, events, k, at);
  }

  /** One visited bucket's row joins the output. */
  method Extend(output: seq<Row>, bucketStart: Instant, spanEnd: Instant, span: nat, reports: nat, snapshot: Snapshot) returns (rows: seq<Row>)
    ensures rows == Extended(output, bucketStart, spanEnd, span, reports, snapshot)
    ensures TotalReports(rows) == TotalReports(output) + reports
  {
    if output != [] && output[|output| - 1].snapshot == snapshot {
      var last := output[|output| - 1];
      rows := output[..|output| - 1] + [last.(bucketEnd := spanEnd, collapsed := last.collapsed + span, reports := last.reports + reports)];
      assert output == output[..|output| - 1] + [last];
      TotalAppend(output[..|output| - 1], last);
    } else {
      rows := output + [Row(bucketStart, spanEnd, span, reports, snapshot)];
    }
    TotalAppend(rows[..|rows| - 1], rows[|rows| - 1]);
    assert rows == rows[..|rows| - 1] + [rows[|rows| - 1]];
  }

  method VisitedBuckets(w: Window, events: seq<Event>) returns (ordered: seq<int>)
    requires w.Valid()
    ensures VisitsInOrder(w, events, ordered)
  {
    var relevant := RelevantBuckets(w, events);
    ordered := Ascending(relevant, w.Count());
  }

  /** Where the sweep stands at the visited bucket `offset`: the bucket it starts from and the one whose end it has reached. */
  function Position(w: Window, ordered: seq<int>, offset: nat): int
    requires w.step != 0 && offset <= |ordered|
  {
    if offset < |ordered| then ordered[offset] else w.Count()
  }

  function Reached(w: Window, ordered: seq<int>, offset: nat): Instant
    requires w.step != 0 && offset <= |ordered|
  {
    if offset == 0 then w.BucketEnd(0) else w.BucketEnd(ordered[offset - 1])
  }

  ghost predicate Swept(w: Window, initial: CandidateState, events: seq<Event>, ordered: seq<int>, offset: nat,
                        state: CandidateState, eventIndex: nat, output: seq<Row>)
    requires w.step != 0 && offset <= |ordered|
  {
    && Consumed(initial, events, eventIndex, state, TotalReports(output))
    && UpTo(events, eventIndex, Reached(w, ordered, offset))
    && Covers(w, initial, events, output, Max(0, Position(w, ordered, offset)))
  }

  lemma SweepBegins(w: Window, initial: CandidateState, events: seq<Event>, ordered: seq<int>)
    requires w.Valid() && VisitsInOrder(w, events, ordered)
    ensures Swept(w, initial, events, ordered, 0, initial, 0, [])
  {
    SweepStartsAtZero(w, events, ordered);
    hide Covers, Consumed, UpTo, VisitsInOrder;
    NothingYet(w, initial, events);
    NothingConsumed(initial, events, w.BucketEnd(0));
  }

  lemma SweepEnds(w: Window, initial: CandidateState, events: seq<Event>, ordered: seq<int>,
                  state: CandidateState, eventIndex: nat, output: seq<Row>)
    requires w.Valid() && Swept(w, initial, events, ordered, |ordered|, state, eventIndex, output)
    ensures IsTable(w, initial, events, output)
  {
    hide Covers, Consumed, UpTo;
  }

  /** The next visited bucket's events may be consumed from here. */
  lemma SweepReaches(w: Window, initial: CandidateState, events: seq<Event>, ordered: seq<int>, offset: nat,
                     state: CandidateState, eventIndex: nat, output: seq<Row>)
    requires w.Valid() && VisitsInOrder(w, events, ordered) && offset < |ordered|
    requires Swept(w, initial, events, ordered, offset, state, eventIndex, output)
    ensures Consumed(initial, events, eventIndex, state, TotalReports(output))
    ensures UpTo(events, eventIndex, w.BucketEnd(ordered[offset]))
  {
    VisitsAscend(w, events, ordered, offset);
    UpToLater(events, eventIndex, Reached(w, ordered, offset), w.BucketEnd(ordered[offset]));
    hide Covers, Consumed, UpTo, VisitsInOrder;
  }

  /** And once they are, the bucket's row extends the table to the next visited one. */
  lemma SweepAdvances(w: Window, initial: CandidateState, events: seq<Event>, ordered: seq<int>, offset: nat,
                      state: CandidateState, eventIndex: nat, before: seq<Row>, reports: nat, output: seq<Row>)
    requires w.Valid() && Chronological(w, events) && VisitsInOrder(w, events, ordered) && offset < |ordered|
    requires Covers(w, initial, events, before, Max(0, Position(w, ordered, offset)))
    requires Consumed(initial, events, eventIndex, state, TotalReports(before) + reports)
    requires UpTo(events, eventIndex, w.BucketEnd(ordered[offset]))
    requires eventIndex < |events| ==> events[eventIndex].At() > w.BucketEnd(ordered[offset])
    requires var index, next := ordered[offset], NextIndex(w, ordered, offset);
      index < next
      && output == Extended(before, w.Tick(index), Min(w.end, w.Tick(next)), next - index, reports, Resolved(state, w.BucketEnd(index)))
    requires TotalReports(output) == TotalReports(before) + reports
    ensures Swept(w, initial, events, ordered, offset + 1, state, eventIndex, output)
  {
    hide Covers, Consumed, UpTo, VisitsInOrder, Chronological, LastVisited, Resolved, StateAt, Extended, Until, Reports, DenseAt,
         NextIndex, Position, Reached, Window.BucketEnd, Window.Tick, Window.Count, Min;
    var index, next := ordered[offset], NextIndex(w, ordered, offset);
    SpanHasOneVisit(w, events, ordered, offset);
    PositionNext(w, ordered, offset);
    DenseIsResolved(w, initial, events, index);
    ConsumedIsUntil(w, initial, events, eventIndex, state, TotalReports(before) + reports, w.BucketEnd(index));
    ExtendedCovers(w, initial, events, before, index, next, reports);
  }

  lemma PositionNext(w: Window, ordered: seq<int>, offset: nat)
    requires w.step != 0 && offset < |ordered|
    ensures Position(w, ordered, offset) == ordered[offset] && Position(w, ordered, offset + 1) == NextIndex(w, ordered, offset)
    ensures Reached(w, ordered, offset + 1) == w.BucketEnd(ordered[offset])
  {
  }

  lemma DenseIsResolved(w: Window, initial: CandidateState, events: seq<Event>, b: int)
    ensures DenseAt(w, initial, events, b) == Resolved(StateAt(initial, events, w.BucketEnd(b)), w.BucketEnd(b))
  {
    hide Resolved, StateAt;
  }

  lemma SweptCovers(w: Window, initial: CandidateState, events: seq<Event>, ordered: seq<int>, offset: nat,
                    state: CandidateState, eventIndex: nat, output: seq<Row>)
    requires w.step != 0 && offset <= |ordered| && Swept(w, initial, events, ordered, offset, state, eventIndex, output)
    ensures Covers(w, initial, events, output, Max(0, Position(w, ordered, offset)))
  {
    hide Covers, Consumed, UpTo;
  }

  lemma StepIsPositive(w: Window)
    requires w.Valid()
    ensures w.step > 0
  {
  }

  method TableRows(w: Window, initial: CandidateState, events: seq<Event>) returns (rows: seq<Row>)
    requires w.Valid() && Chronological(w, events)
    ensures IsTable(w, initial, events, Reversed(rows))
  {
    hide *;
    StepIsPositive(w);
    var ordered := VisitedBuckets(w, events);
    var state, output, eventIndex: nat := initial, [], 0;
    SweepBegins(w, initial, events, ordered);
    for offset := 0 to |ordered|
      invariant Swept(w, initial, events, ordered, offset, state, eventIndex, output)
    {
      var index := ordered[offset];
      var bucketEnd := w.BucketEnd(index);
      SweepReaches(w, initial, events, ordered, offset, state, eventIndex, output);
      SweptCovers(w, initial, events, ordered, offset, state, eventIndex, output);
      SpanHasOneVisit(w, events, ordered, offset);
      var reports: nat;
      state, eventIndex, reports := ConsumeEvents(initial, events, eventIndex, state, bucketEnd, TotalReports(output));
      var nextIndex := NextIndex(w, ordered, offset);
      var spanEnd := Min(w.end, w.Tick(nextIndex));
      var snapshot := ResolvedState(state, bucketEnd);
      ghost var before := output;
      output := Extend(output, w.Tick(index), spanEnd, nextIndex - index, reports, snapshot);
      SweepAdvances(w, initial, events, ordered, offset, state, eventIndex, before, reports, output);
    }
    SweepEnds(w, initial, events, ordered, state, eventIndex, output);
    rows := Reversed(output);
    ReversedTwice(output);
  }

  lemma VisitsAscend(w: Window, events: seq<Event>, ordered: seq<int>, offset: nat)
    requires w.Valid() && VisitsInOrder(w, events, ordered) && offset < |ordered|
    ensures offset == 0 ==> w.BucketEnd(0) <= w.BucketEnd(ordered[offset])
    ensures offset > 0 ==> w.BucketEnd(ordered[offset - 1]) <= w.BucketEnd(ordered[offset])
  {
    assert ordered[offset] in ordered;
    hide Visited;
    EndsAscend(w, 0, ordered[offset]);
    if offset > 0 {
      assert ordered[offset - 1] in ordered;
      EndsAscend(w, ordered[offset - 1], ordered[offset]);
    }
  }
}
