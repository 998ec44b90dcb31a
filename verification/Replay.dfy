/**
 * Reconstruction from the log and replay of its events: the candidate state at a later instant is
 * the one at an earlier instant with the events in between folded in
 * (backend/app/history/reconstruction.py: candidate_state_at, _events).
 */
module Replay {
  import opened Options
  import opened Registry
  import opened Sequences
  import opened Sorting
  import opened Resolution
  import opened Timeline

  /** A stored observation joined with its sample; its id is its place in the log. */
  datatype ObservationRow = ObservationRow(
    key: Key, value: Value, observedAt: Instant, sourceId: string, channel: Channel, technique: Method,
    reportingInterval: Option<int>, eventDriven: bool)

  datatype PositionRow = PositionRow(
    value: Fix, observedAt: Instant, sourceId: string, channel: Channel, technique: Method,
    reportingInterval: Option<int>, eventDriven: bool)

  datatype ReportRow = ReportRow(recordedAt: Instant, sequence: int, data: map<string, Value>)

  /** Everything stored for one vehicle, each table in the order of its ids, and which sources are connectors. */
  datatype History = History(
    observations: seq<ObservationRow>,
    positions: seq<PositionRow>,
    reports: seq<ReportRow>,
    connectors: set<string>)

  /** What is known of a source's contacts at the instant a query asks about. */
  type Contacts = map<string, (Instant, int)>

  function ProvenanceOf(h: History, contacts: Contacts, observedAt: Instant, sourceId: string, channel: Channel,
                        technique: Method, reportingInterval: Option<int>, eventDriven: bool): Provenance {
    Provenance(observedAt, sourceId, if sourceId in h.connectors then ConnectorSource else AgentSource, channel, technique,
               reportingInterval, eventDriven,
               if sourceId in contacts then Some(contacts[sourceId].0) else None,
               if sourceId in contacts then Some(contacts[sourceId].1) else None)
  }

  function MetricOf(h: History, contacts: Contacts, row: ObservationRow): Candidate {
    Candidate(row.key, row.value,
              ProvenanceOf(h, contacts, row.observedAt, row.sourceId, row.channel, row.technique, row.reportingInterval, row.eventDriven))
  }

  function PositionOf(h: History, contacts: Contacts, row: PositionRow): PositionCandidate {
    PositionCandidate(row.value,
                      ProvenanceOf(h, contacts, row.observedAt, row.sourceId, row.channel, row.technique, row.reportingInterval, row.eventDriven))
  }

  function RowIdentity(row: ObservationRow): Identity {
    Identity(row.sourceId, row.channel, row.key)
  }

  predicate Older(a: ObservationRow, b: ObservationRow) {
    a.observedAt < b.observedAt
  }

  predicate OlderPosition(a: PositionRow, b: PositionRow) {
    a.observedAt < b.observedAt
  }

  predicate OlderReport(a: ReportRow, b: ReportRow) {
    a.recordedAt < b.recordedAt || (a.recordedAt == b.recordedAt && a.sequence < b.sequence)
  }

  predicate Sooner(a: Event, b: Event) {
    a.At() < b.At()
  }

  /** The observations of one identity up to an instant. */
  function RowsUpTo(h: History, id: Identity, at: Instant): seq<ObservationRow> {
    Filter(h.observations, (row: ObservationRow) => RowIdentity(row) == id && row.observedAt <= at)
  }

  /** The rank-1 row of the history query: the newest, and of equally new ones the highest id. */
  function LatestRow(h: History, id: Identity, at: Instant): Option<ObservationRow> {
    var rows := RowsUpTo(h, id, at);
    if rows == [] then None else Some(LastMax(rows, Older))
  }

  function ReconstructedMetric(h: History, contacts: Contacts, id: Identity, at: Instant): Option<Candidate> {
    var row := LatestRow(h, id, at);
    if row.Some? then Some(MetricOf(h, contacts, row.value)) else None
  }

  function Lookup(metrics: seq<Candidate>, id: Identity): Option<Candidate> {
    if metrics == [] then None
    else if IdentityOf(metrics[0]) == id then Some(metrics[0])
    else Lookup(metrics[1..], id)
  }

  /** The metric dictionary of `candidate_state_at`, in whatever order the database lists it. */
  ghost predicate ReconstructsMetrics(h: History, contacts: Contacts, at: Instant, metrics: seq<Candidate>) {
    forall id :: Lookup(metrics, id) == ReconstructedMetric(h, contacts, id, at)
  }

  function WindowRows(h: History, start: Instant, end: Instant): seq<ObservationRow> {
    Filter(h.observations, (row: ObservationRow) => start < row.observedAt <= end)
  }

  function WindowPositions(h: History, start: Instant, end: Instant): seq<PositionRow> {
    Filter(h.positions, (row: PositionRow) => start < row.observedAt <= end)
  }

  function WindowReports(h: History, start: Instant, end: Instant): seq<ReportRow> {
    Filter(h.reports, (row: ReportRow) => start < row.recordedAt <= end)
  }

  /** The events of (start, end]: each table in its own order, then all of them by time, stably. */
  function Events(h: History, contacts: Contacts, start: Instant, end: Instant): seq<Event> {
    var metrics := Mapped(Sorted(WindowRows(h, start, end), Older), (row: ObservationRow) => MetricEvent(MetricOf(h, contacts, row)));
    var positions := Mapped(Sorted(WindowPositions(h, start, end), OlderPosition), (row: PositionRow) => PositionEvent(PositionOf(h, contacts, row)));
    var reports := Mapped(Sorted(WindowReports(h, start, end), OlderReport), (row: ReportRow) => AgentEvent(row.recordedAt, row.data));
    Sorted(metrics + positions + reports, Sooner)
  }
}
