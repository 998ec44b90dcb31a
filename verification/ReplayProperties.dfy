/** Replaying the log from one instant to another against reconstructing it at the second. */
module ReplayProperties {
  import opened Options
  import opened Registry
  import opened Sequences
  import opened Sorting
  import opened Resolution
  import opened Timeline
  import opened Replay

  lemma ReplayOrders()
    ensures StrictWeakOrder(Older) && StrictWeakOrder(OlderPosition) && StrictWeakOrder(Sooner)
  {
  }

  predicate Touches(e: Event, id: Identity) {
    (e.MetricEvent? && IdentityOf(e.metric) == id) || (e.PositionEvent? && IdentityOf(MirroredSpeed(e.position)) == id)
  }

  function Brought(e: Event): Option<Candidate> {
    match e
    case MetricEvent(metric) => Some(metric)
    case PositionEvent(position) => Some(MirroredSpeed(position))
    case AgentEvent(_, _) => None
  }

  lemma {:induction false} LookupPut(metrics: seq<Candidate>, c: Candidate, id: Identity)
    ensures Lookup(PutMetric(metrics, c), id) == if IdentityOf(c) == id then Some(c) else Lookup(metrics, id)
  {
    if metrics != [] && IdentityOf(metrics[0]) != IdentityOf(c) {
      LookupPut(metrics[1..], c, id);
      assert PutMetric(metrics, c)[1..] == PutMetric(metrics[1..], c);
    }
  }

  /** After a replay an identity holds what the last event that touches it brought. */
  lemma {:induction false} ReplayKeepsLastTouch(state: CandidateState, events: seq<Event>, id: Identity)
    ensures var touching := Filter(events, (e: Event) => Touches(e, id));
      Lookup(Fold(state, events).metrics, id) ==
      if touching == [] then Lookup(state.metrics, id) else Brought(touching[|touching| - 1])
  {
    if events != [] {
      var front, last := events[..|events| - 1], events[|events| - 1];
      ReplayKeepsLastTouch(state, front, id);
      var before := Fold(state, front).metrics;
      match last
      case MetricEvent(metric) => LookupPut(before, metric, id);
      case PositionEvent(position) => LookupPut(before, MirroredSpeed(position), id);
      case AgentEvent(_, _) =>
    }
  }

  /** The rows of one identity that fall in the window, and the fixes whose speed is mirrored into it. */
  function TouchingRows(h: History, start: Instant, end: Instant, id: Identity): seq<ObservationRow> {
    Filter(WindowRows(h, start, end), (row: ObservationRow) => RowIdentity(row) == id)
  }

  predicate MirrorsInto(row: PositionRow, id: Identity) {
    id == Identity(row.sourceId, Gnss, VehicleSpeed)
  }

  function TouchingFixes(h: History, start: Instant, end: Instant, id: Identity): seq<PositionRow> {
    Filter(WindowPositions(h, start, end), (row: PositionRow) => MirrorsInto(row, id))
  }

  lemma TouchingMetricEvents(h: History, contacts: Contacts, start: Instant, end: Instant, id: Identity)
    ensures var toEvent := (row: ObservationRow) => MetricEvent(MetricOf(h, contacts, row));
      Filter(Mapped(Sorted(WindowRows(h, start, end), Older), toEvent), (e: Event) => Touches(e, id))
      == Mapped(Sorted(TouchingRows(h, start, end, id), Older), toEvent)
  {
    ReplayOrders();
    var toEvent := (row: ObservationRow) => MetricEvent(MetricOf(h, contacts, row));
    var rows := WindowRows(h, start, end);
    FilterMapped(Sorted(rows, Older), toEvent, (e: Event) => Touches(e, id), (row: ObservationRow) => RowIdentity(row) == id);
    FilterSorted(rows, Older, (row: ObservationRow) => RowIdentity(row) == id);
  }

  lemma TouchingPositionEvents(h: History, contacts: Contacts, start: Instant, end: Instant, id: Identity)
    ensures var toEvent := (row: PositionRow) => PositionEvent(PositionOf(h, contacts, row));
      Filter(Mapped(Sorted(WindowPositions(h, start, end), OlderPosition), toEvent), (e: Event) => Touches(e, id))
      == Mapped(Sorted(TouchingFixes(h, start, end, id), OlderPosition), toEvent)
  {
    ReplayOrders();
    var toEvent := (row: PositionRow) => PositionEvent(PositionOf(h, contacts, row));
    var rows := WindowPositions(h, start, end);
    FilterMapped(Sorted(rows, OlderPosition), toEvent, (e: Event) => Touches(e, id), (row: PositionRow) => MirrorsInto(row, id));
    FilterSorted(rows, OlderPosition, (row: PositionRow) => MirrorsInto(row, id));
  }

  /** What the touching events of an identity come to: the newest row, unless a fix as new or newer mirrors over it. */
  function ReplayedMetric(h: History, contacts: Contacts, start: Instant, end: Instant, id: Identity): Option<Candidate> {
    var rows, fixes := TouchingRows(h, start, end, id), TouchingFixes(h, start, end, id);
    if rows == [] && fixes == [] then None
    else if fixes == [] || (rows != [] && LastMax(fixes, OlderPosition).observedAt < LastMax(rows, Older).observedAt)
    then Some(MetricOf(h, contacts, LastMax(rows, Older)))
    else Some(MirroredSpeed(PositionOf(h, contacts, LastMax(fixes, OlderPosition))))
  }

  function TouchingMetrics(h: History, contacts: Contacts, start: Instant, end: Instant, id: Identity): seq<Event> {
    Mapped(Sorted(TouchingRows(h, start, end, id), Older), (row: ObservationRow) => MetricEvent(MetricOf(h, contacts, row)))
  }

  function TouchingPositions(h: History, contacts: Contacts, start: Instant, end: Instant, id: Identity): seq<Event> {
    Mapped(Sorted(TouchingFixes(h, start, end, id), OlderPosition), (row: PositionRow) => PositionEvent(PositionOf(h, contacts, row)))
  }

  lemma TouchingEventsAreSorted(h: History, contacts: Contacts, start: Instant, end: Instant, id: Identity)
    ensures Filter(Events(h, contacts, start, end), (e: Event) => Touches(e, id))
            == Sorted(TouchingMetrics(h, contacts, start, end, id) + TouchingPositions(h, contacts, start, end, id), Sooner)
  {
    ReplayOrders();
    TouchingMetricEvents(h, contacts, start, end, id);
    TouchingPositionEvents(h, contacts, start, end, id);
    hide MetricOf, PositionOf, Touches, Sooner, Older, OlderPosition, OlderReport, WindowRows, WindowPositions, WindowReports, Filter, Sorted;
    var touches := (e: Event) => Touches(e, id);
    var metrics := Mapped(Sorted(WindowRows(h, start, end), Older), (row: ObservationRow) => MetricEvent(MetricOf(h, contacts, row)));
    var positions := Mapped(Sorted(WindowPositions(h, start, end), OlderPosition), (row: PositionRow) => PositionEvent(PositionOf(h, contacts, row)));
    var reports := Mapped(Sorted(WindowReports(h, start, end), OlderReport), (row: ReportRow) => AgentEvent(row.recordedAt, row.data));
    FilterSorted(metrics + positions + reports, Sooner, touches);
    FilterAppend(metrics + positions, reports, touches);
    FilterAppend(metrics, positions, touches);
    ReportsTouchNothing(reports, id);
    var m, p := TouchingMetrics(h, contacts, start, end, id), TouchingPositions(h, contacts, start, end, id);
    assert Filter(metrics + positions + reports, touches) == m + p + [] == m + p;
  }

  lemma NewestTouchingMetric(h: History, contacts: Contacts, start: Instant, end: Instant, id: Identity)
    requires TouchingRows(h, start, end, id) != []
    ensures TouchingMetrics(h, contacts, start, end, id) != []
    ensures LastMax(TouchingMetrics(h, contacts, start, end, id), Sooner)
            == MetricEvent(MetricOf(h, contacts, LastMax(TouchingRows(h, start, end, id), Older)))
  {
    ReplayOrders();
    MetricEventOrder(h, contacts);
    hide MetricOf, Older, Sooner, TouchingRows;
    var rows := TouchingRows(h, start, end, id);
    LastMaxOfSorted(rows, Older);
    LastMaxMapped(Sorted(rows, Older), (row: ObservationRow) => MetricEvent(MetricOf(h, contacts, row)), Older, Sooner);
  }

  lemma NewestTouchingPosition(h: History, contacts: Contacts, start: Instant, end: Instant, id: Identity)
    requires TouchingFixes(h, start, end, id) != []
    ensures TouchingPositions(h, contacts, start, end, id) != []
    ensures LastMax(TouchingPositions(h, contacts, start, end, id), Sooner)
            == PositionEvent(PositionOf(h, contacts, LastMax(TouchingFixes(h, start, end, id), OlderPosition)))
  {
    ReplayOrders();
    PositionEventOrder(h, contacts);
    hide PositionOf, OlderPosition, Sooner, TouchingFixes;
    var fixes := TouchingFixes(h, start, end, id);
    LastMaxOfSorted(fixes, OlderPosition);
    LastMaxMapped(Sorted(fixes, OlderPosition), (row: PositionRow) => PositionEvent(PositionOf(h, contacts, row)), OlderPosition, Sooner);
  }

  lemma LastTouchIsReplayed(h: History, contacts: Contacts, start: Instant, end: Instant, id: Identity)
    ensures var touching := Filter(Events(h, contacts, start, end), (e: Event) => Touches(e, id));
      (if touching == [] then None else Brought(touching[|touching| - 1])) == ReplayedMetric(h, contacts, start, end, id)
  {
    hide TouchingRows, TouchingFixes, TouchingMetrics, TouchingPositions, Events, Touches, Sorted, Filter, LastMax, Sooner, MetricOf, PositionOf;
    var m, p := TouchingMetrics(h, contacts, start, end, id), TouchingPositions(h, contacts, start, end, id);
    TouchingEventsAreSorted(h, contacts, start, end, id);
    NoneTouching(h, contacts, start, end, id);
    if TouchingRows(h, start, end, id) != [] { NewestTouchingMetric(h, contacts, start, end, id); }
    if TouchingFixes(h, start, end, id) != [] { NewestTouchingPosition(h, contacts, start, end, id); }
    LastOfBoth(m, p);
    LastMetricIsOlder(h, contacts);
  }

  lemma NoneTouching(h: History, contacts: Contacts, start: Instant, end: Instant, id: Identity)
    ensures TouchingRows(h, start, end, id) == [] ==> TouchingMetrics(h, contacts, start, end, id) == []
    ensures TouchingFixes(h, start, end, id) == [] ==> TouchingPositions(h, contacts, start, end, id) == []
  {
    hide TouchingRows, TouchingFixes;
  }

  lemma LastMetricIsOlder(h: History, contacts: Contacts)
    ensures forall x: PositionRow, y: ObservationRow ::
      Sooner(PositionEvent(PositionOf(h, contacts, x)), MetricEvent(MetricOf(h, contacts, y))) <==> x.observedAt < y.observedAt
  {
  }

  /** The last event of two sorted together: the first list's only if the second's last is sooner. */
  lemma LastOfBoth(m: seq<Event>, p: seq<Event>)
    ensures Sorted(m + p, Sooner) == [] <==> m == [] && p == []
    ensures m + p != [] ==>
      Sorted(m + p, Sooner)[|Sorted(m + p, Sooner)| - 1]
      == if p == [] then LastMax(m, Sooner)
         else if m == [] then LastMax(p, Sooner)
         else if Sooner(LastMax(p, Sooner), LastMax(m, Sooner)) then LastMax(m, Sooner)
         else LastMax(p, Sooner)
  {
    hide Sorted, LastMax;
    ReplayOrders();
    SortedIsInOrder(m + p, Sooner);
    if m != [] && p != [] { LastMaxOfTwo(m, p, Sooner); }
    if m == [] { assert m + p == p; }
    if p == [] { assert m + p == m; }
    if m + p != [] { LastOfSorted(m + p, Sooner); }
  }

  lemma ReportsTouchNothing(reports: seq<Event>, id: Identity)
    requires forall e :: e in reports ==> e.AgentEvent?
    ensures Filter(reports, (e: Event) => Touches(e, id)) == []
  {
    NonemptyHasElement(Filter(reports, (e: Event) => Touches(e, id)));
  }

  lemma MetricEventOrder(h: History, contacts: Contacts)
    ensures forall x: ObservationRow, y: ObservationRow ::
              Older(x, y) == Sooner(MetricEvent(MetricOf(h, contacts, x)), MetricEvent(MetricOf(h, contacts, y)))
  {
  }

  lemma PositionEventOrder(h: History, contacts: Contacts)
    ensures forall x: PositionRow, y: PositionRow ::
              OlderPosition(x, y) == Sooner(PositionEvent(PositionOf(h, contacts, x)), PositionEvent(PositionOf(h, contacts, y)))
  {
  }

  /** A candidate without what was known of its source's contacts when it was queried. */
  function Bare(c: Option<Candidate>): Option<Candidate> {
    match c
    case None => None
    case Some(candidate) => Some(candidate.(origin := candidate.origin.(lastContactAt := None, livenessWindowSeconds := None)))
  }

  /** The newest row up to the end is the newest row of the window, or, with none there, the newest up to its start. */
  lemma LatestRowSplits(h: History, start: Instant, end: Instant, id: Identity)
    requires start <= end
    ensures LatestRow(h, id, end) ==
            if TouchingRows(h, start, end, id) == [] then LatestRow(h, id, start)
            else Some(LastMax(TouchingRows(h, start, end, id), Older))
  {
    ReplayOrders();
    var all := RowsUpTo(h, id, end);
    var inside := TouchingRows(h, start, end, id);
    var since := (row: ObservationRow) => row.observedAt > start;
    assert Filter(all, since) == inside by {
      var both := (row: ObservationRow) => RowIdentity(row) == id && start < row.observedAt <= end;
      FilterTwice(h.observations, (row: ObservationRow) => RowIdentity(row) == id && row.observedAt <= end, since, both);
      FilterTwice(h.observations, (row: ObservationRow) => start < row.observedAt <= end, (row: ObservationRow) => RowIdentity(row) == id, both);
    }
    if inside != [] {
      LastMaxSurvives(all, Older, since);
    } else {
      FilterCongruence(h.observations, (row: ObservationRow) => RowIdentity(row) == id && row.observedAt <= end,
                       (row: ObservationRow) => RowIdentity(row) == id && row.observedAt <= start) by {
        forall row | row in h.observations && RowIdentity(row) == id && row.observedAt <= end ensures row.observedAt <= start {
          assert row in all;
          assert row !in inside;
        }
      }
    }
  }

  /** What replay leaves in an identity, for any order the database listed the starting state in. */
  lemma ReplayResult(h: History, before: Contacts, within: Contacts, start: Instant, end: Instant, state: CandidateState, id: Identity)
    requires start <= end && ReconstructsMetrics(h, before, start, state.metrics)
    ensures Lookup(Fold(state, Events(h, within, start, end)).metrics, id) ==
            if ReplayedMetric(h, within, start, end, id).Some? then ReplayedMetric(h, within, start, end, id)
            else ReconstructedMetric(h, before, id, start)
  {
    hide ReplayedMetric, Events, ReconstructedMetric;
    ReplayKeepsLastTouch(state, Events(h, within, start, end), id);
    LastTouchIsReplayed(h, within, start, end, id);
    var touching := Filter(Events(h, within, start, end), (e: Event) => Touches(e, id));
    if touching != [] {
      assert touching[|touching| - 1] in touching;
    }
  }

  /**
   * Replay equals reconstruction, ties on the observation time included: folding the events of
   * (start, end] over the state at `start` gives, up to contact data, the metric candidates of the
   * state at `end`, for every identity no fix in the window mirrors its speed into.
   */
  lemma ReplayIsReconstruction(h: History, before: Contacts, within: Contacts, after: Contacts,
                               start: Instant, end: Instant, state: CandidateState, id: Identity)
    requires start <= end && ReconstructsMetrics(h, before, start, state.metrics)
    requires TouchingFixes(h, start, end, id) == []
    ensures Bare(Lookup(Fold(state, Events(h, within, start, end)).metrics, id)) == Bare(ReconstructedMetric(h, after, id, end))
  {
    hide TouchingRows, TouchingFixes, Events, LatestRow;
    ReplayResult(h, before, within, start, end, state, id);
    LatestRowSplits(h, start, end, id);
  }

  /** Only the satellite speed of a source with a fix in the window is touched by fixes. */
  lemma OnlySatelliteSpeedIsMirrored(h: History, start: Instant, end: Instant, id: Identity)
    requires id.channel != Gnss || id.key != VehicleSpeed || forall row :: row in WindowPositions(h, start, end) ==> row.sourceId != id.sourceId
    ensures TouchingFixes(h, start, end, id) == []
  {
    NonemptyHasElement(TouchingFixes(h, start, end, id));
  }

  /**
   * The satellite speed is where replay and reconstruction part: with fixes in the window they agree
   * exactly when a recorded satellite speed is newer than every one of them, or says the same.
   */
  lemma MirroredReplayAgreesIff(h: History, before: Contacts, within: Contacts, after: Contacts,
                                start: Instant, end: Instant, state: CandidateState, id: Identity)
    requires start <= end && ReconstructsMetrics(h, before, start, state.metrics)
    requires TouchingFixes(h, start, end, id) != []
    ensures var fix := LastMax(TouchingFixes(h, start, end, id), OlderPosition);
      var recorded := LatestRow(h, id, end);
      Bare(Lookup(Fold(state, Events(h, within, start, end)).metrics, id)) == Bare(ReconstructedMetric(h, after, id, end))
      <==> recorded.Some? && (fix.observedAt < recorded.value.observedAt
                              || Bare(Some(MetricOf(h, after, recorded.value))) == Bare(Some(MirroredSpeed(PositionOf(h, after, fix)))))
  {
    hide TouchingRows, TouchingFixes, Events, LatestRow, ReconstructsMetrics;
    FixIsLater(h, start, end, id);
    ReplayResult(h, before, within, start, end, state, id);
    LatestRowSplits(h, start, end, id);
    if TouchingRows(h, start, end, id) == [] && LatestRow(h, id, start).Some? {
      LatestRowIsNotLater(h, id, start);
    }
  }

  lemma FixIsLater(h: History, start: Instant, end: Instant, id: Identity)
    requires TouchingFixes(h, start, end, id) != []
    ensures LastMax(TouchingFixes(h, start, end, id), OlderPosition).observedAt > start
  {
  }

  lemma LatestRowIsNotLater(h: History, id: Identity, at: Instant)
    requires LatestRow(h, id, at).Some?
    ensures LatestRow(h, id, at).value.observedAt <= at
  {
  }
}
