/** Drives and charges cut out of a vehicle's rows (backend/app/history/segments.py). */
module Segments {
  import opened Options
  import opened Registry
  import opened Resolution
  import Text

  const JOIN_GAP: Duration := 180 * SECOND

  datatype Place = Place(latitude: real, longitude: real)

  /** Great-circle distance in kilometres; only its sign matters here. */
  type Distance = (Place, Place) -> real

  /** `agentInUse` is the agent's own report of use, Null when it made none. */
  datatype Row = Row(
    recordedAt: Instant,
    metrics: map<Key, Value>,
    agentInUse: Value,
    gpsSpeed: Option<real>,
    place: Option<Place>,
    reportingInterval: Option<int>)

  function Metric(row: Row, key: Key): Value {
    if key in row.metrics then row.metrics[key] else Null
  }

  function AsFlag(value: Value): Option<bool> {
    if value.Boolean? then Some(value.flag) else None
  }

  function ChargeSignal(row: Row): Option<bool> {
    var active := AsFlag(Metric(row, ChargingActive));
    if active.Some? then active
    else
      var power := FiniteNumber(Metric(row, ChargingPower));
      if power.Some? then Some(power.value >= CHARGING_POWER_FLOOR_KW) else None
  }

  /** A charge is never a drive; then the vehicle's word, the agent's and readiness, in that order. */
  function DriveSignal(row: Row): Option<bool> {
    if ChargeSignal(row) == Some(true) then Some(false)
    else
      var inUse := AsFlag(Metric(row, VehicleInUse));
      if inUse.Some? then inUse
      else
        var agent := AsFlag(row.agentInUse);
        if agent.Some? then agent else AsFlag(Metric(row, VehicleReady))
  }

  const DRIVING_STATES := {"drive", "driving", "moving", "ready", "in_use"}

  predicate IsDrivingState(value: Value) {
    value.Text? && Text.Lowercase(Text.Stripped(value.text)) in DRIVING_STATES
  }

  predicate Moves(row: Row) {
    var speed := FiniteNumber(Metric(row, VehicleSpeed));
    (speed.Some? && speed.value > 1.0) || (row.gpsSpeed.Some? && row.gpsSpeed.value > 1.0)
  }

  /** Without a signal: a driving state, a speed, or, when charging is ruled out, a changed position. */
  predicate DriveEvidence(row: Row, previous: Option<Row>, distance: Distance) {
    var signal := DriveSignal(row);
    if signal.Some? then signal.value
    else
      || IsDrivingState(Metric(row, VehicleState))
      || Moves(row)
      || (Metric(row, ChargingActive) == Boolean(false) && row.place.Some? && previous.Some? && previous.value.place.Some?
          && distance(previous.value.place.value, row.place.value) > 0.0)
  }

  // Groups are stretches of rows.

  datatype Span = Span(lo: nat, hi: nat)

  function RowBefore(rows: seq<Row>, k: nat): Option<Row>
    requires k < |rows|
  {
    if k == 0 then None else Some(rows[k - 1])
  }

  predicate Active(rows: seq<Row>, distance: Distance, k: int) {
    0 <= k < |rows| && DriveEvidence(rows[k], RowBefore(rows, k), distance)
  }

  predicate Parked(rows: seq<Row>, k: int) {
    0 <= k < |rows| && DriveSignal(rows[k]) == Some(false)
  }

  predicate Signals(rows: seq<Row>, k: int) {
    0 <= k < |rows| && DriveSignal(rows[k]) == Some(true)
  }

  /** Some row of the stretch says outright that the vehicle is in use. */
  ghost predicate Signalled(rows: seq<Row>, lo: int, hi: int) {
    exists k :: lo <= k < hi && Signals(rows, k)
  }

  predicate Inside(span: Span, k: int) {
    span.lo <= k < span.hi
  }

  ghost predicate Ordered(spans: seq<Span>, size: nat) {
    && (forall i :: 0 <= i < |spans| ==> spans[i].lo < spans[i].hi <= size)
    && (forall i, j :: 0 <= i < j < |spans| ==> spans[i].hi <= spans[j].lo)
  }

  ghost predicate Contained(spans: seq<Span>, k: int) {
    exists i :: 0 <= i < |spans| && Inside(spans[i], k)
  }

  /** Two active rows with none between them. */
  ghost predicate Consecutive(rows: seq<Row>, distance: Distance, j: int, k: int) {
    j < k && Active(rows, distance, j) && Active(rows, distance, k) && forall i :: j < i < k ==> !Active(rows, distance, i)
  }

  predicate Close(rows: seq<Row>, j: int, k: int)
    requires 0 <= j < |rows| && 0 <= k < |rows|
  {
    rows[k].recordedAt - rows[j].recordedAt < JOIN_GAP
  }

  /** Until a row says outright that the vehicle is in use, its active rows follow each other closely. */
  ghost predicate HoldsTogether(rows: seq<Row>, distance: Distance, lo: int, hi: int) {
    forall j, k :: lo <= j && k < hi && Consecutive(rows, distance, j, k) && !Signalled(rows, lo, k) ==> Close(rows, j, k)
  }

  /** A drive starts at an active row, runs through no parked one, and ends at its last active row or at the parked row that closed it. */
  ghost predicate IsDrive(rows: seq<Row>, distance: Distance, s: Span) {
    && s.lo < s.hi <= |rows|
    && Active(rows, distance, s.lo)
    && (forall k :: s.lo <= k < s.hi - 1 ==> !Parked(rows, k))
    && (Active(rows, distance, s.hi - 1) || (Parked(rows, s.hi - 1) && Signalled(rows, s.lo, s.hi - 1)))
    && HoldsTogether(rows, distance, s.lo, s.hi)
  }

  /** What ends a drive before the next begins: a parked row, or, with no outright signal, a gap. */
  ghost predicate Separated(rows: seq<Row>, s: Span, next: int) {
    || (exists f :: s.hi - 1 <= f < next && Parked(rows, f))
    || (0 < s.hi <= |rows| && 0 <= next < |rows| && !Signalled(rows, s.lo, s.hi) && !Close(rows, s.hi - 1, next))
  }

  ghost predicate ClosedBySignal(rows: seq<Row>, s: Span) {
    Signalled(rows, s.lo, s.hi) ==> Parked(rows, s.hi - 1)
  }

  ghost predicate Quiet(rows: seq<Row>, distance: Distance, from: int) {
    forall k :: from <= k < |rows| ==> !Active(rows, distance, k) && !Parked(rows, k)
  }

  /** Drives in order, each properly ended before the next. */
  ghost predicate AreDrives(rows: seq<Row>, distance: Distance, spans: seq<Span>) {
    && Ordered(spans, |rows|)
    && (forall i :: 0 <= i < |spans| ==> IsDrive(rows, distance, spans[i]))
    && (forall i :: 0 < i < |spans| ==> Separated(rows, spans[i - 1], spans[i].lo))
  }

  ghost predicate CoversActivity(rows: seq<Row>, distance: Distance, spans: seq<Span>) {
    forall k :: Active(rows, distance, k) ==> Contained(spans, k)
  }

  /** An outright signal holds a drive open until the next parked row; only at the end may there be none. */
  ghost predicate SignalsHoldOpen(rows: seq<Row>, distance: Distance, spans: seq<Span>) {
    forall i :: 0 <= i < |spans| ==>
      ClosedBySignal(rows, spans[i]) || (i == |spans| - 1 && Quiet(rows, distance, spans[i].hi))
  }

  ghost predicate IsDriveGrouping(rows: seq<Row>, distance: Distance, spans: seq<Span>) {
    AreDrives(rows, distance, spans) && CoversActivity(rows, distance, spans) && SignalsHoldOpen(rows, distance, spans)
  }

  ghost predicate AreSlices(rows: seq<Row>, spans: seq<Span>, groups: seq<seq<Row>>) {
    |groups| == |spans| && forall i :: 0 <= i < |spans| ==> spans[i].lo <= spans[i].hi <= |rows| && groups[i] == rows[spans[i].lo..spans[i].hi]
  }

  /** The groups closed so far, up to row n. */
  ghost predicate ClosedGroups(rows: seq<Row>, distance: Distance, spans: seq<Span>, n: nat) {
    && AreDrives(rows, distance, spans)
    && (forall i :: 0 <= i < |spans| ==> spans[i].hi <= n && ClosedBySignal(rows, spans[i]))
  }

  /** The group being built: from `start` to the last active row before n. */
  ghost predicate OpenGroup(rows: seq<Row>, distance: Distance, spans: seq<Span>, n: nat, start: nat, last: nat, bounded: bool) {
    && start <= last < n <= |rows|
    && Active(rows, distance, start) && Active(rows, distance, last)
    && (forall k :: last < k < n ==> !Active(rows, distance, k))
    && (forall k :: start <= k < n ==> !Parked(rows, k))
    && (bounded <==> Signalled(rows, start, n))
    && HoldsTogether(rows, distance, start, last + 1)
    && (spans != [] ==> spans[|spans| - 1].hi <= start && Separated(rows, spans[|spans| - 1], start))
  }

  ghost predicate NoGroup(rows: seq<Row>, spans: seq<Span>, n: nat) {
    spans != [] ==> exists f :: spans[|spans| - 1].hi - 1 <= f < n && Parked(rows, f)
  }

  ghost predicate SeenSoFar(rows: seq<Row>, distance: Distance, spans: seq<Span>, n: nat, start: Option<nat>) {
    forall k :: k < n && Active(rows, distance, k) ==> Contained(spans, k) || (start.Some? && start.value <= k)
  }

  lemma ParkedIsInactive(rows: seq<Row>, distance: Distance, k: int)
    ensures Parked(rows, k) ==> !Active(rows, distance, k)
    ensures Signals(rows, k) ==> Active(rows, distance, k) && !Parked(rows, k)
  {
  }

  lemma SignalledNext(rows: seq<Row>, lo: nat, n: nat)
    requires lo <= n
    ensures Signalled(rows, lo, n + 1) <==> Signalled(rows, lo, n) || Signals(rows, n)
    ensures !Signalled(rows, n, n)
  {
    if Signalled(rows, lo, n + 1) {
      var k :| lo <= k < n + 1 && Signals(rows, k);
      assert k == n || k < n;
    }
    if Signals(rows, n) {
      assert lo <= n < n + 1 && Signals(rows, n);
    }
    hide Signals;
  }

  /** Signals are active rows, so none lies after the last active one. */
  lemma SignalsAreActive(rows: seq<Row>, distance: Distance, lo: nat, last: nat, n: nat)
    requires lo <= last < n && forall k :: last < k < n ==> !Active(rows, distance, k)
    ensures Signalled(rows, lo, n) <==> Signalled(rows, lo, last + 1)
  {
    forall k | last < k < n ensures !Signals(rows, k) {
      ParkedIsInactive(rows, distance, k);
    }
  }

  lemma AreDrivesNext(rows: seq<Row>, distance: Distance, spans: seq<Span>, s: Span)
    requires AreDrives(rows, distance, spans) && IsDrive(rows, distance, s)
    requires spans != [] ==> spans[|spans| - 1].hi <= s.lo && Separated(rows, spans[|spans| - 1], s.lo)
    ensures AreDrives(rows, distance, spans + [s])
  {
    var longer := spans + [s];
    assert Ordered(longer, |rows|);
    hide IsDrive, Separated, Ordered;
    forall i | 0 < i < |longer| ensures Separated(rows, longer[i - 1], longer[i].lo) {
      assert longer[i - 1] == spans[i - 1];
    }
  }

  lemma ClosingKeepsGroups(rows: seq<Row>, distance: Distance, spans: seq<Span>, n: nat, upto: nat, s: Span)
    requires ClosedGroups(rows, distance, spans, n) && n <= upto
    requires IsDrive(rows, distance, s) && ClosedBySignal(rows, s) && s.hi <= upto
    requires spans != [] ==> spans[|spans| - 1].hi <= s.lo && Separated(rows, spans[|spans| - 1], s.lo)
    ensures ClosedGroups(rows, distance, spans + [s], upto)
  {
    AreDrivesNext(rows, distance, spans, s);
    hide IsDrive, ClosedBySignal, Separated, AreDrives;
  }

  lemma ContainedLonger(spans: seq<Span>, s: Span, k: int)
    ensures Contained(spans + [s], k) <==> Contained(spans, k) || Inside(s, k)
  {
    if Contained(spans, k) {
      var i :| 0 <= i < |spans| && Inside(spans[i], k);
      assert (spans + [s])[i] == spans[i];
    }
    if Inside(s, k) {
      assert (spans + [s])[|spans|] == s;
    }
    if Contained(spans + [s], k) {
      var i :| 0 <= i < |spans + [s]| && Inside((spans + [s])[i], k);
      assert i < |spans| ==> spans[i] == (spans + [s])[i];
    }
  }

  /** A closed span takes over the active rows of the group it closes. */
  lemma ClosingKeepsSeen(rows: seq<Row>, distance: Distance, spans: seq<Span>, n: nat, start: nat, s: Span)
    requires SeenSoFar(rows, distance, spans, n, Some(start)) && s.lo == start
    requires forall k :: s.hi <= k < n ==> !Active(rows, distance, k)
    ensures SeenSoFar(rows, distance, spans + [s], n, None)
  {
    forall k | k < n && Active(rows, distance, k) ensures Contained(spans + [s], k) {
      ContainedLonger(spans, s, k);
    }
  }

  /** The group ended by its last evidence. */
  lemma EvidenceEndsDrive(rows: seq<Row>, distance: Distance, spans: seq<Span>, n: nat, start: nat, last: nat, bounded: bool)
    requires OpenGroup(rows, distance, spans, n, start, last, bounded)
    ensures IsDrive(rows, distance, Span(start, last + 1))
    ensures bounded <==> Signalled(rows, start, last + 1)
  {
    SignalsAreActive(rows, distance, start, last, n);
    hide HoldsTogether, Active, Parked, Signals;
  }

  /** The group ended by a parked row, after an outright signal. */
  lemma ParkingEndsDrive(rows: seq<Row>, distance: Distance, spans: seq<Span>, n: nat, start: nat, last: nat)
    requires OpenGroup(rows, distance, spans, n, start, last, true) && Parked(rows, n)
    ensures IsDrive(rows, distance, Span(start, n + 1)) && ClosedBySignal(rows, Span(start, n + 1))
  {
    ParkedIsInactive(rows, distance, n);
    forall j, k | start <= j && k < n + 1 && Consecutive(rows, distance, j, k) && !Signalled(rows, start, k) ensures Close(rows, j, k) {
      assert k <= last;
    }
    hide Active, Parked, Signals;
  }

  /** One more active row joins the group. */
  lemma GroupGrows(rows: seq<Row>, distance: Distance, spans: seq<Span>, n: nat, start: nat, last: nat, bounded: bool)
    requires OpenGroup(rows, distance, spans, n, start, last, bounded) && Active(rows, distance, n) && !Parked(rows, n)
    requires bounded || Close(rows, last, n)
    ensures OpenGroup(rows, distance, spans, n + 1, start, n, bounded || Signals(rows, n))
  {
    SignalledNext(rows, start, n);
    hide Active, Parked, Signals;
    forall j, k | start <= j && k < n + 1 && Consecutive(rows, distance, j, k) && !Signalled(rows, start, k) ensures Close(rows, j, k) {
      if k == n {
        assert j == last;
      }
    }
    hide Signalled, Close;
  }

  lemma GroupIdles(rows: seq<Row>, distance: Distance, spans: seq<Span>, n: nat, start: nat, last: nat, bounded: bool)
    requires OpenGroup(rows, distance, spans, n, start, last, bounded) && n < |rows| && !Active(rows, distance, n) && !Parked(rows, n)
    ensures OpenGroup(rows, distance, spans, n + 1, start, last, bounded)
  {
    SignalledNext(rows, start, n);
    ParkedIsInactive(rows, distance, n);
    hide HoldsTogether, Active, Parked, Signals, Signalled;
  }

  lemma GroupOpens(rows: seq<Row>, distance: Distance, spans: seq<Span>, n: nat)
    requires Active(rows, distance, n) && !Parked(rows, n)
    requires spans != [] ==> spans[|spans| - 1].hi <= n && Separated(rows, spans[|spans| - 1], n)
    ensures OpenGroup(rows, distance, spans, n + 1, n, n, Signals(rows, n))
  {
    SignalledNext(rows, n, n);
    hide Active, Parked, Signals, Signalled;
  }

  lemma DriveGroupsComplete(rows: seq<Row>, distance: Distance, spans: seq<Span>)
    requires ClosedGroups(rows, distance, spans, |rows|) && SeenSoFar(rows, distance, spans, |rows|, None)
    ensures IsDriveGrouping(rows, distance, spans)
  {
    assert forall k :: Active(rows, distance, k) ==> k < |rows|;
    hide AreDrives, ClosedBySignal, Contained, Active;
  }

  lemma OpenGroupEnds(rows: seq<Row>, distance: Distance, spans: seq<Span>, start: nat, last: nat, bounded: bool)
    requires OpenGroup(rows, distance, spans, |rows|, start, last, bounded)
    ensures Quiet(rows, distance, last + 1)
    ensures spans != [] ==> spans[|spans| - 1].hi <= start && Separated(rows, spans[|spans| - 1], start)
  {
  }

  lemma LastGroupIsDrive(rows: seq<Row>, distance: Distance, spans: seq<Span>, start: nat, last: nat, bounded: bool)
    requires AreDrives(rows, distance, spans) && OpenGroup(rows, distance, spans, |rows|, start, last, bounded)
    ensures AreDrives(rows, distance, spans + [Span(start, last + 1)])
  {
    hide Active, AreDrives, IsDrive, Separated, OpenGroup;
    OpenGroupEnds(rows, distance, spans, start, last, bounded);
    EvidenceEndsDrive(rows, distance, spans, |rows|, start, last, bounded);
    AreDrivesNext(rows, distance, spans, Span(start, last + 1));
  }

  lemma LastGroupCovers(rows: seq<Row>, distance: Distance, spans: seq<Span>, start: nat, last: nat)
    requires SeenSoFar(rows, distance, spans, |rows|, Some(start)) && Quiet(rows, distance, last + 1)
    ensures CoversActivity(rows, distance, spans + [Span(start, last + 1)])
  {
    assert forall k :: Active(rows, distance, k) ==> k < |rows|;
    hide Active;
    ClosingKeepsSeen(rows, distance, spans, |rows|, start, Span(start, last + 1));
    hide Contained;
  }

  lemma LastGroupHoldsOpen(rows: seq<Row>, distance: Distance, spans: seq<Span>, s: Span)
    requires ClosedGroups(rows, distance, spans, |rows|) && Quiet(rows, distance, s.hi)
    ensures SignalsHoldOpen(rows, distance, spans + [s])
  {
    hide AreDrives, ClosedBySignal, Quiet;
  }

  lemma LastGroupCompletes(rows: seq<Row>, distance: Distance, spans: seq<Span>, start: nat, last: nat, bounded: bool)
    requires ClosedGroups(rows, distance, spans, |rows|) && SeenSoFar(rows, distance, spans, |rows|, Some(start))
    requires OpenGroup(rows, distance, spans, |rows|, start, last, bounded)
    ensures IsDriveGrouping(rows, distance, spans + [Span(start, last + 1)])
  {
    hide AreDrives, OpenGroup, SeenSoFar, CoversActivity, SignalsHoldOpen, Quiet, ClosedBySignal;
    OpenGroupEnds(rows, distance, spans, start, last, bounded);
    LastGroupIsDrive(rows, distance, spans, start, last, bounded);
    LastGroupCovers(rows, distance, spans, start, last);
    LastGroupHoldsOpen(rows, distance, spans, Span(start, last + 1));
  }

  lemma SlicesNext(rows: seq<Row>, spans: seq<Span>, groups: seq<seq<Row>>, s: Span)
    requires AreSlices(rows, spans, groups) && s.lo <= s.hi <= |rows|
    ensures AreSlices(rows, spans + [s], groups + [rows[s.lo..s.hi]])
  {
  }

  lemma NothingSeen(rows: seq<Row>, distance: Distance)
    ensures ClosedGroups(rows, distance, [], 0) && SeenSoFar(rows, distance, [], 0, None) && AreSlices(rows, [], []) && NoGroup(rows, [], 0)
  {
  }

  /** Where the loop stands before row n. */
  ghost predicate Standing(rows: seq<Row>, distance: Distance, spans: seq<Span>, n: nat, start: Option<nat>, last: Option<nat>, bounded: bool) {
    && ClosedGroups(rows, distance, spans, n)
    && SeenSoFar(rows, distance, spans, n, start)
    && match start
       case None => last.None? && !bounded && NoGroup(rows, spans, n)
       case Some(from) => last.Some? && OpenGroup(rows, distance, spans, n, from, last.value, bounded)
  }

  /** The span a parked row at n makes of an open group. */
  function ClosingSpan(n: nat, start: nat, last: nat, bounded: bool): Span {
    Span(start, if bounded then n + 1 else last + 1)
  }

  lemma ParkedRowCloses(rows: seq<Row>, distance: Distance, spans: seq<Span>, n: nat, start: nat, last: nat, bounded: bool)
    requires Standing(rows, distance, spans, n, Some(start), Some(last), bounded) && Parked(rows, n)
    ensures Standing(rows, distance, spans + [ClosingSpan(n, start, last, bounded)], n + 1, None, None, false)
  {
    hide Active, Parked, IsDrive, Separated, ClosedBySignal, AreDrives, Contained, HoldsTogether, Signalled;
    var s := ClosingSpan(n, start, last, bounded);
    ParkedIsInactive(rows, distance, n);
    ClosingSpanIsDrive(rows, distance, spans, n, start, last, bounded);
    SeenNext(rows, distance, spans, n, Some(start));
    ClosingKeepsGroups(rows, distance, spans, n, n + 1, s);
    ClosingKeepsSeen(rows, distance, spans, n + 1, start, s);
    hide ClosedGroups, SeenSoFar, OpenGroup;
    assert s.hi - 1 <= n < n + 1 && Parked(rows, n);
  }

  lemma SeenNext(rows: seq<Row>, distance: Distance, spans: seq<Span>, n: nat, start: Option<nat>)
    requires SeenSoFar(rows, distance, spans, n, start) && (!Active(rows, distance, n) || (start.Some? && start.value <= n))
    ensures SeenSoFar(rows, distance, spans, n + 1, start)
  {
    hide Active, Contained;
  }

  lemma ClosingSpanIsDrive(rows: seq<Row>, distance: Distance, spans: seq<Span>, n: nat, start: nat, last: nat, bounded: bool)
    requires OpenGroup(rows, distance, spans, n, start, last, bounded) && Parked(rows, n)
    ensures var s := ClosingSpan(n, start, last, bounded);
      IsDrive(rows, distance, s) && ClosedBySignal(rows, s) && s.hi <= n + 1
  {
    hide Active, IsDrive, HoldsTogether;
    if bounded {
      ParkingEndsDrive(rows, distance, spans, n, start, last);
    } else {
      EvidenceEndsDrive(rows, distance, spans, n, start, last, false);
    }
  }

  lemma ParkedRowPasses(rows: seq<Row>, distance: Distance, spans: seq<Span>, n: nat)
    requires Standing(rows, distance, spans, n, None, None, false) && Parked(rows, n)
    ensures Standing(rows, distance, spans, n + 1, None, None, false)
  {
    ParkedIsInactive(rows, distance, n);
    SeenNext(rows, distance, spans, n, None);
    hide Active, Parked, AreDrives, ClosedBySignal, SeenSoFar;
  }

  lemma IdleRowPasses(rows: seq<Row>, distance: Distance, spans: seq<Span>, n: nat, start: Option<nat>, last: Option<nat>, bounded: bool)
    requires Standing(rows, distance, spans, n, start, last, bounded) && n < |rows| && !Active(rows, distance, n) && !Parked(rows, n)
    ensures Standing(rows, distance, spans, n + 1, start, last, bounded)
  {
    SeenNext(rows, distance, spans, n, start);
    hide Active, Parked, AreDrives, ClosedBySignal, SeenSoFar, OpenGroup;
    if start.Some? {
      GroupIdles(rows, distance, spans, n, start.value, last.value, bounded);
    }
  }

  lemma ActiveRowOpens(rows: seq<Row>, distance: Distance, spans: seq<Span>, n: nat)
    requires Standing(rows, distance, spans, n, None, None, false) && Active(rows, distance, n) && !Parked(rows, n)
    ensures Standing(rows, distance, spans, n + 1, Some(n), Some(n), Signals(rows, n))
  {
    NoGroupSeparates(rows, distance, spans, n);
    GroupOpens(rows, distance, spans, n);
    SeenStarts(rows, distance, spans, n);
    hide Active, Parked, Signals, AreDrives, ClosedBySignal, SeenSoFar, OpenGroup, Separated;
  }

  lemma SeenStarts(rows: seq<Row>, distance: Distance, spans: seq<Span>, n: nat)
    requires SeenSoFar(rows, distance, spans, n, None)
    ensures SeenSoFar(rows, distance, spans, n + 1, Some(n))
  {
    hide Active, Contained;
  }

  lemma NoGroupSeparates(rows: seq<Row>, distance: Distance, spans: seq<Span>, n: nat)
    requires ClosedGroups(rows, distance, spans, n) && NoGroup(rows, spans, n)
    ensures spans != [] ==> spans[|spans| - 1].hi <= n && Separated(rows, spans[|spans| - 1], n)
  {
    hide AreDrives, ClosedBySignal, Parked;
  }

  lemma ActiveRowJoins(rows: seq<Row>, distance: Distance, spans: seq<Span>, n: nat, start: nat, last: nat, bounded: bool)
    requires Standing(rows, distance, spans, n, Some(start), Some(last), bounded) && Active(rows, distance, n) && !Parked(rows, n)
    requires bounded || Close(rows, last, n)
    ensures Standing(rows, distance, spans, n + 1, Some(start), Some(n), bounded || Signals(rows, n))
  {
    GroupGrows(rows, distance, spans, n, start, last, bounded);
    SeenNext(rows, distance, spans, n, Some(start));
    hide Active, Parked, Signals, AreDrives, ClosedBySignal, SeenSoFar, OpenGroup;
  }

  /** A gap ends a drive nobody vouched for at its last evidence. */
  lemma GapEndsDrive(rows: seq<Row>, distance: Distance, spans: seq<Span>, n: nat, start: nat, last: nat)
    requires OpenGroup(rows, distance, spans, n, start, last, false) && n < |rows| && !Close(rows, last, n)
    ensures var s := Span(start, last + 1);
      && IsDrive(rows, distance, s) && ClosedBySignal(rows, s) && Separated(rows, s, n)
      && s.hi <= n && (forall k :: s.hi <= k < n ==> !Active(rows, distance, k))
      && (spans != [] ==> spans[|spans| - 1].hi <= s.lo && Separated(rows, spans[|spans| - 1], s.lo))
  {
    hide Active, Parked, IsDrive, Close, HoldsTogether, Signalled;
    EvidenceEndsDrive(rows, distance, spans, n, start, last, false);
  }

  lemma GapSplits(rows: seq<Row>, distance: Distance, spans: seq<Span>, n: nat, start: nat, last: nat)
    requires Standing(rows, distance, spans, n, Some(start), Some(last), false) && Active(rows, distance, n) && !Parked(rows, n)
    requires n < |rows| && last < |rows| && !Close(rows, last, n)
    ensures Standing(rows, distance, spans + [Span(start, last + 1)], n + 1, Some(n), Some(n), Signals(rows, n))
  {
    hide Active, Parked, Signals, AreDrives, IsDrive, Close, Separated, ClosedBySignal, SeenSoFar, OpenGroup;
    var s := Span(start, last + 1);
    GapEndsDrive(rows, distance, spans, n, start, last);
    ClosingKeepsGroups(rows, distance, spans, n, n, s);
    ClosingKeepsSeen(rows, distance, spans, n, start, s);
    GroupOpens(rows, distance, spans + [s], n);
    SeenStarts(rows, distance, spans + [s], n);
  }

  /** The groups are the rows of the drives, in order. */
  ghost predicate AreDriveGroups(rows: seq<Row>, distance: Distance, groups: seq<seq<Row>>) {
    exists spans :: IsDriveGrouping(rows, distance, spans) && AreSlices(rows, spans, groups)
  }

  method DriveGroups(rows: seq<Row>, distance: Distance) returns (groups: seq<seq<Row>>)
    ensures AreDriveGroups(rows, distance, groups)
  {
    groups := [];
    ghost var spans: seq<Span> := [];
    var start: Option<nat>, lastEvidence: Option<nat>, signalBounded := None, None, false;
    NothingSeen(rows, distance);
    hide Standing, AreSlices, IsDriveGrouping, DriveSignal;
    StandsAtFirst(rows, distance);
    for index := 0 to |rows|
      invariant start.Some? == lastEvidence.Some?
      invariant start.Some? ==> start.value <= lastEvidence.value < index
      invariant start.None? ==> !signalBounded
      invariant Standing(rows, distance, spans, index, start, lastEvidence, signalBounded)
      invariant AreSlices(rows, spans, groups)
    {
      var row := rows[index];
      var signal := DriveSignal(row);
      if signal == Some(false) {
        if start.Some? && lastEvidence.Some? {
          ParkedRowCloses(rows, distance, spans, index, start.value, lastEvidence.value, signalBounded);
          var end := if signalBounded then index else lastEvidence.value;
          SlicesNext(rows, spans, groups, Span(start.value, end + 1));
          groups := groups + [rows[start.value..end + 1]];
          spans := spans + [Span(start.value, end + 1)];
        } else {
          ParkedRowPasses(rows, distance, spans, index);
        }
        start, lastEvidence, signalBounded := None, None, false;
        continue;
      }
      var active := signal == Some(true) || DriveEvidence(row, RowBefore(rows, index), distance);
      if !active {
        IdleRowPasses(rows, distance, spans, index, start, lastEvidence, signalBounded);
        continue;
      }
      SignalIsEvidence(rows, distance, index);
      if start.None? {
        ActiveRowOpens(rows, distance, spans, index);
        start := Some(index);
      } else if !signalBounded && rows[index].recordedAt - rows[lastEvidence.value].recordedAt >= JOIN_GAP {
        GapSplits(rows, distance, spans, index, start.value, lastEvidence.value);
        SlicesNext(rows, spans, groups, Span(start.value, lastEvidence.value + 1));
        groups := groups + [rows[start.value..lastEvidence.value + 1]];
        spans := spans + [Span(start.value, lastEvidence.value + 1)];
        start := Some(index);
      } else {
        ActiveRowJoins(rows, distance, spans, index, start.value, lastEvidence.value, signalBounded);
      }
      lastEvidence := Some(index);
      signalBounded := signalBounded || signal == Some(true);
    }
    if start.Some? && lastEvidence.Some? {
      OpenGroupAtEnd(rows, distance, spans, start.value, lastEvidence.value, signalBounded);
      SlicesNext(rows, spans, groups, Span(start.value, lastEvidence.value + 1));
      groups := groups + [rows[start.value..lastEvidence.value + 1]];
      spans := spans + [Span(start.value, lastEvidence.value + 1)];
    } else {
      NoGroupAtEnd(rows, distance, spans);
    }
  }

  lemma StandsAtFirst(rows: seq<Row>, distance: Distance)
    ensures Standing(rows, distance, [], 0, None, None, false)
  {
    NothingSeen(rows, distance);
    hide ClosedGroups, SeenSoFar, NoGroup;
  }

  lemma SignalIsEvidence(rows: seq<Row>, distance: Distance, k: nat)
    requires k < |rows|
    ensures DriveSignal(rows[k]) == Some(true) ==> DriveEvidence(rows[k], RowBefore(rows, k), distance)
  {
  }

  lemma OpenGroupAtEnd(rows: seq<Row>, distance: Distance, spans: seq<Span>, start: nat, last: nat, bounded: bool)
    requires Standing(rows, distance, spans, |rows|, Some(start), Some(last), bounded)
    ensures IsDriveGrouping(rows, distance, spans + [Span(start, last + 1)])
  {
    hide ClosedGroups, SeenSoFar, OpenGroup, IsDriveGrouping;
    LastGroupCompletes(rows, distance, spans, start, last, bounded);
  }

  lemma NoGroupAtEnd(rows: seq<Row>, distance: Distance, spans: seq<Span>)
    requires Standing(rows, distance, spans, |rows|, None, None, false)
    ensures IsDriveGrouping(rows, distance, spans)
  {
    hide ClosedGroups, SeenSoFar, IsDriveGrouping;
    DriveGroupsComplete(rows, distance, spans);
  }
}
