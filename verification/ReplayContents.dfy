/**
 * What else a replay carries along: the positions, where it agrees with reconstruction, and the
 * agents' own data, where it keeps fields that reconstruction drops.
 */
module ReplayContents {
  import opened Options
  import opened Registry
  import opened Sequences
  import opened Sorting
  import opened Resolution
  import opened Timeline
  import opened Replay
  import opened ReplayProperties

  // Positions: one to a source and channel.

  predicate IsAt(p: PositionCandidate, sourceId: string, channel: Channel) {
    p.origin.sourceId == sourceId && p.origin.channel == channel
  }

  function PositionFor(positions: seq<PositionCandidate>, sourceId: string, channel: Channel): Option<PositionCandidate> {
    if positions == [] then None
    else if IsAt(positions[0], sourceId, channel) then Some(positions[0])
    else PositionFor(positions[1..], sourceId, channel)
  }

  /** A position replaces the one of its own source and channel, and no other. */
  lemma {:induction false} PositionForPut(positions: seq<PositionCandidate>, p: PositionCandidate, sourceId: string, channel: Channel)
    ensures PositionFor(PutPosition(positions, p), sourceId, channel)
            == if IsAt(p, sourceId, channel) then Some(p) else PositionFor(positions, sourceId, channel)
  {
    if positions != [] && !SamePlace(positions[0], p) {
      PositionForPut(positions[1..], p, sourceId, channel);
      assert PutPosition(positions, p)[1..] == PutPosition(positions[1..], p);
    }
  }

  predicate BringsPosition(e: Event, sourceId: string, channel: Channel) {
    e.PositionEvent? && IsAt(e.position, sourceId, channel)
  }

  /** After a replay a source and channel have the position that came last for them. */
  lemma {:induction false} ReplayKeepsLastPosition(state: CandidateState, events: seq<Event>, sourceId: string, channel: Channel)
    ensures var brought := Filter(events, (e: Event) => BringsPosition(e, sourceId, channel));
      if brought == [] then PositionFor(Fold(state, events).positions, sourceId, channel) == PositionFor(state.positions, sourceId, channel)
      else
        var last := brought[|brought| - 1];
        last.PositionEvent? && PositionFor(Fold(state, events).positions, sourceId, channel) == Some(last.position)
  {
    if events != [] {
      var front, last := events[..|events| - 1], events[|events| - 1];
      ReplayKeepsLastPosition(state, front, sourceId, channel);
      if last.PositionEvent? {
        PositionForPut(Fold(state, front).positions, last.position, sourceId, channel);
      }
    }
  }

  predicate IsRowAt(row: PositionRow, sourceId: string, channel: Channel) {
    row.sourceId == sourceId && row.channel == channel
  }

  /** A recorded position of the source and channel, no later than the instant, and none of them newer. */
  ghost predicate IsNewestRow(h: History, sourceId: string, channel: Channel, at: Instant, row: PositionRow) {
    && row in h.positions && IsRowAt(row, sourceId, channel) && row.observedAt <= at
    && forall other :: other in h.positions && IsRowAt(other, sourceId, channel) && other.observedAt <= at ==> other.observedAt <= row.observedAt
  }

  /** What a reconstruction may show of a source and channel: a newest recorded position, whichever the query picks. */
  ghost predicate ReconstructsPosition(h: History, contacts: Contacts, sourceId: string, channel: Channel, at: Instant, held: Option<PositionCandidate>) {
    match held
    case None => forall row :: row in h.positions && IsRowAt(row, sourceId, channel) ==> row.observedAt > at
    case Some(p) => exists row :: IsNewestRow(h, sourceId, channel, at, row) && p == PositionOf(h, contacts, row)
  }

  function WindowRowsAt(h: History, start: Instant, end: Instant, sourceId: string, channel: Channel): seq<PositionRow> {
    Filter(WindowPositions(h, start, end), (row: PositionRow) => IsRowAt(row, sourceId, channel))
  }

  function ToEvent(h: History, contacts: Contacts): PositionRow -> Event {
    (row: PositionRow) => PositionEvent(PositionOf(h, contacts, row))
  }

  lemma PositionEventsAt(h: History, contacts: Contacts, start: Instant, end: Instant, sourceId: string, channel: Channel)
    ensures Filter(Mapped(Sorted(WindowPositions(h, start, end), OlderPosition), ToEvent(h, contacts)), (e: Event) => BringsPosition(e, sourceId, channel))
            == Mapped(Sorted(WindowRowsAt(h, start, end, sourceId, channel), OlderPosition), ToEvent(h, contacts))
  {
    ReplayOrders();
    var at := (row: PositionRow) => IsRowAt(row, sourceId, channel);
    FilterMapped(Sorted(WindowPositions(h, start, end), OlderPosition), ToEvent(h, contacts), (e: Event) => BringsPosition(e, sourceId, channel), at);
    FilterSorted(WindowPositions(h, start, end), OlderPosition, at);
  }

  lemma NothingBrought(events: seq<Event>, sourceId: string, channel: Channel)
    requires forall e :: e in events ==> !e.PositionEvent?
    ensures Filter(events, (e: Event) => BringsPosition(e, sourceId, channel)) == []
  {
    NonemptyHasElement(Filter(events, (e: Event) => BringsPosition(e, sourceId, channel)));
  }

  lemma BroughtAreTheRows(h: History, contacts: Contacts, start: Instant, end: Instant, sourceId: string, channel: Channel)
    ensures Filter(Events(h, contacts, start, end), (e: Event) => BringsPosition(e, sourceId, channel))
            == Sorted(Mapped(Sorted(WindowRowsAt(h, start, end, sourceId, channel), OlderPosition), ToEvent(h, contacts)), Sooner)
  {
    ReplayOrders();
    PositionEventsAt(h, contacts, start, end, sourceId, channel);
    hide MetricOf, PositionOf, BringsPosition, Sooner, Older, OlderPosition, OlderReport, WindowRows, WindowPositions, WindowReports, WindowRowsAt, Filter, Sorted;
    var brings := (e: Event) => BringsPosition(e, sourceId, channel);
    var metrics := Mapped(Sorted(WindowRows(h, start, end), Older), (row: ObservationRow) => MetricEvent(MetricOf(h, contacts, row)));
    var positions := Mapped(Sorted(WindowPositions(h, start, end), OlderPosition), ToEvent(h, contacts));
    var reports := Mapped(Sorted(WindowReports(h, start, end), OlderReport), (row: ReportRow) => AgentEvent(row.recordedAt, row.data));
    FilterSorted(metrics + positions + reports, Sooner, brings);
    FilterAppend(metrics + positions, reports, brings);
    FilterAppend(metrics, positions, brings);
    NothingBrought(metrics, sourceId, channel);
    NothingBrought(reports, sourceId, channel);
    var mine := Mapped(Sorted(WindowRowsAt(h, start, end, sourceId, channel), OlderPosition), ToEvent(h, contacts));
    assert Filter(metrics + positions + reports, brings) == [] + mine + [] == mine;
  }

  lemma LastBroughtIsNewest(h: History, contacts: Contacts, start: Instant, end: Instant, sourceId: string, channel: Channel)
    ensures var brought := Filter(Events(h, contacts, start, end), (e: Event) => BringsPosition(e, sourceId, channel));
      var rows := WindowRowsAt(h, start, end, sourceId, channel);
      && (brought == [] <==> rows == [])
      && (rows != [] ==> brought[|brought| - 1] == PositionEvent(PositionOf(h, contacts, LastMax(rows, OlderPosition))))
  {
    ReplayOrders();
    BroughtAreTheRows(h, contacts, start, end, sourceId, channel);
    PositionEventOrder(h, contacts);
    var rows := WindowRowsAt(h, start, end, sourceId, channel);
    var mine := Mapped(Sorted(rows, OlderPosition), ToEvent(h, contacts));
    hide Filter, Events, BringsPosition, WindowRowsAt, PositionOf, OlderPosition, Sooner, Sorted, LastMax, Mapped;
    SortedIsInOrder(rows, OlderPosition);
    SortedIsInOrder(mine, Sooner);
    if rows != [] {
      LastMaxOfSorted(rows, OlderPosition);
      LastMaxMapped(Sorted(rows, OlderPosition), ToEvent(h, contacts), OlderPosition, Sooner);
      LastOfSorted(mine, Sooner);
    }
  }

  /** The newest of the window is newest up to its end; with none there, what was newest before still is. */
  lemma NewestRowSplits(h: History, start: Instant, end: Instant, sourceId: string, channel: Channel)
    requires start <= end
    ensures var rows := WindowRowsAt(h, start, end, sourceId, channel);
      && (rows != [] ==> IsNewestRow(h, sourceId, channel, end, LastMax(rows, OlderPosition)))
      && (rows == [] ==> forall row :: row in h.positions && IsRowAt(row, sourceId, channel) && row.observedAt <= end ==> row.observedAt <= start)
  {
    ReplayOrders();
    var rows := WindowRowsAt(h, start, end, sourceId, channel);
    assert forall row :: row in rows <==> row in h.positions && IsRowAt(row, sourceId, channel) && start < row.observedAt <= end;
    if rows != [] {
      LastMaxIsGreatest(rows, OlderPosition);
      hide LastMax, WindowRowsAt;
      var newest := LastMax(rows, OlderPosition);
      forall other | other in h.positions && IsRowAt(other, sourceId, channel) && other.observedAt <= end ensures other.observedAt <= newest.observedAt {
        assert newest.observedAt > start;
        if other.observedAt > start {
          assert other in rows;
        }
      }
    }
  }

  /**
   * Replay keeps positions as reconstruction has them: if the state at the start holds a newest position
   * of a source and channel, the state after the window's events holds one of those at its end.
   */
  lemma PositionReplayIsReconstruction(h: History, before: Contacts, within: Contacts, start: Instant, end: Instant,
                                       state: CandidateState, sourceId: string, channel: Channel)
    requires start <= end && ReconstructsPosition(h, before, sourceId, channel, start, PositionFor(state.positions, sourceId, channel))
    ensures var after := PositionFor(Fold(state, Events(h, within, start, end)).positions, sourceId, channel);
      || ReconstructsPosition(h, within, sourceId, channel, end, after)
      || (after == PositionFor(state.positions, sourceId, channel) && ReconstructsPosition(h, before, sourceId, channel, end, after))
  {
    ReplayKeepsLastPosition(state, Events(h, within, start, end), sourceId, channel);
    LastBroughtIsNewest(h, within, start, end, sourceId, channel);
    NewestRowSplits(h, start, end, sourceId, channel);
    hide Fold, Events, WindowRowsAt, PositionFor, PositionOf, LastMax, Filter, BringsPosition;
    var rows := WindowRowsAt(h, start, end, sourceId, channel);
    var held := PositionFor(state.positions, sourceId, channel);
    if rows == [] && held.Some? {
      var row :| IsNewestRow(h, sourceId, channel, start, row) && held.value == PositionOf(h, before, row);
      assert IsNewestRow(h, sourceId, channel, end, row);
    }
  }

  // What a reconstructed candidate is made of.

  /** Where it comes from: its source's kind, and the latest contact and window known of that source, if any. */
  predicate ComesFrom(origin: Provenance, h: History, contacts: Contacts, observedAt: Instant, sourceId: string, channel: Channel,
                      technique: Method, reportingInterval: Option<int>, eventDriven: bool) {
    && origin.observedAt == observedAt && origin.sourceId == sourceId && origin.channel == channel && origin.technique == technique
    && origin.reportingInterval == reportingInterval && origin.eventDriven == eventDriven
    && (origin.sourceKind == ConnectorSource <==> sourceId in h.connectors)
    && (sourceId in contacts ==> (origin.lastContactAt, origin.livenessWindowSeconds) == (Some(contacts[sourceId].0), Some(contacts[sourceId].1)))
    && (sourceId !in contacts ==> origin.lastContactAt.None? && origin.livenessWindowSeconds.None?)
  }

  predicate QuotesRow(c: Candidate, h: History, contacts: Contacts, row: ObservationRow) {
    && c.key == row.key && c.value == row.value
    && ComesFrom(c.origin, h, contacts, row.observedAt, row.sourceId, row.channel, row.technique, row.reportingInterval, row.eventDriven)
  }

  predicate OfIdentity(row: ObservationRow, id: Identity) {
    row.sourceId == id.sourceId && row.channel == id.channel && row.key == id.key
  }

  /** A candidate is reconstructed exactly when something is logged of its identity by then; it quotes a newest such row in full. */
  lemma ReconstructionQuotesTheLog(h: History, contacts: Contacts, id: Identity, at: Instant)
    ensures ReconstructedMetric(h, contacts, id, at).Some? <==> exists row :: row in h.observations && OfIdentity(row, id) && row.observedAt <= at
    ensures ReconstructedMetric(h, contacts, id, at).Some? ==>
              exists row :: row in h.observations && OfIdentity(row, id) && row.observedAt <= at
                && QuotesRow(ReconstructedMetric(h, contacts, id, at).value, h, contacts, row)
                && forall other :: other in h.observations && OfIdentity(other, id) && other.observedAt <= at ==> other.observedAt <= row.observedAt
  {
    hide MetricOf, ReconstructedMetric, QuotesRow, RowsUpTo;
    var rows := RowsUpTo(h, id, at);
    RowsAreOfIdentity(h, id, at);
    if rows != [] {
      LatestIsQuoted(h, contacts, id, at);
      assert rows[0] in rows;
    } else {
      NothingIsReconstructed(h, contacts, id, at);
    }
  }

  lemma RowsAreOfIdentity(h: History, id: Identity, at: Instant)
    ensures forall row :: row in RowsUpTo(h, id, at) <==> row in h.observations && OfIdentity(row, id) && row.observedAt <= at
  {
  }

  lemma NothingIsReconstructed(h: History, contacts: Contacts, id: Identity, at: Instant)
    requires RowsUpTo(h, id, at) == []
    ensures ReconstructedMetric(h, contacts, id, at) == None
  {
  }

  lemma LatestIsQuoted(h: History, contacts: Contacts, id: Identity, at: Instant)
    requires RowsUpTo(h, id, at) != []
    ensures var rows := RowsUpTo(h, id, at);
      ReconstructedMetric(h, contacts, id, at).Some?
      && exists row :: row in rows && QuotesRow(ReconstructedMetric(h, contacts, id, at).value, h, contacts, row)
                       && forall other :: other in rows ==> other.observedAt <= row.observedAt
  {
    ReplayOrders();
    var rows := RowsUpTo(h, id, at);
    LastMaxIsGreatest(rows, Older);
    var row := LastMax(rows, Older);
    hide LastMax, RowsUpTo, StrictWeakOrder;
    assert row in rows && QuotesRow(ReconstructedMetric(h, contacts, id, at).value, h, contacts, row);
  }

  /** And so does a reconstructed position, which is there exactly when one of its source and channel is logged by then. */
  lemma ReconstructedPositionQuotesTheLog(h: History, contacts: Contacts, sourceId: string, channel: Channel, at: Instant, held: Option<PositionCandidate>)
    requires ReconstructsPosition(h, contacts, sourceId, channel, at, held)
    ensures held.Some? <==> exists row :: row in h.positions && IsRowAt(row, sourceId, channel) && row.observedAt <= at
    ensures held.Some? ==>
              exists row :: IsNewestRow(h, sourceId, channel, at, row) && held.value.value == row.value
                && ComesFrom(held.value.origin, h, contacts, row.observedAt, sourceId, channel, row.technique, row.reportingInterval, row.eventDriven)
  {
    if held.Some? {
      var row :| IsNewestRow(h, sourceId, channel, at, row) && held.value == PositionOf(h, contacts, row);
      assert IsRowAt(row, sourceId, channel) && held.value.value == row.value;
    }
  }

  // The agents' own data.

  function Merged(data: map<string, Value>, reports: seq<ReportRow>): map<string, Value> {
    if reports == [] then data else Merged(data, reports[..|reports| - 1]) + reports[|reports| - 1].data
  }

  function ToAgentEvent(): ReportRow -> Event {
    (row: ReportRow) => AgentEvent(row.recordedAt, row.data)
  }

  lemma {:induction false} AgentDataFolds(state: CandidateState, events: seq<Event>, reports: seq<ReportRow>)
    requires Filter(events, (e: Event) => e.AgentEvent?) == Mapped(reports, ToAgentEvent())
    ensures Fold(state, events).agent == Merged(state.agent, reports)
  {
    var ours := (e: Event) => e.AgentEvent?;
    if events == [] {
      assert |Mapped(reports, ToAgentEvent())| == 0;
    } else {
      var front, last := events[..|events| - 1], events[|events| - 1];
      var kept := Filter(front, ours);
      if last.AgentEvent? {
        assert Mapped(reports, ToAgentEvent()) == kept + [last];
        var n := |reports| - 1;
        assert Mapped(reports, ToAgentEvent())[n] == last;
        assert Mapped(reports[..n], ToAgentEvent()) == Mapped(reports, ToAgentEvent())[..n] == kept;
        AgentDataFolds(state, front, reports[..n]);
      } else {
        AgentDataFolds(state, front, reports);
      }
    }
  }

  lemma NoAgentEvents(events: seq<Event>)
    requires forall e :: e in events ==> !e.AgentEvent?
    ensures Filter(events, (e: Event) => e.AgentEvent?) == []
  {
    NonemptyHasElement(Filter(events, (e: Event) => e.AgentEvent?));
  }

  lemma ReportOrder()
    ensures StrictWeakOrder(OlderReport)
  {
  }

  /** Newer is recorded later, or at one instant under a higher number. */
  predicate NoNewer(a: ReportRow, b: ReportRow) {
    a.recordedAt < b.recordedAt || (a.recordedAt == b.recordedAt && a.sequence <= b.sequence)
  }

  /** The data reconstructed is that of a newest report. */
  lemma ReconstructedAgentIsNewest(h: History, at: Instant)
    ensures (exists r :: r in h.reports && r.recordedAt <= at) ==>
              exists r :: r in h.reports && r.recordedAt <= at && ReconstructedAgent(h, at) == r.data
                && forall other :: other in h.reports && other.recordedAt <= at ==> NoNewer(other, r)
    ensures (forall r :: r in h.reports ==> r.recordedAt > at) ==> ReconstructedAgent(h, at) == map[]
  {
    var reports := ReportsUpTo(h, at);
    assert forall r :: r in reports <==> r in h.reports && r.recordedAt <= at;
    if reports != [] {
      ReportOrder();
      LastMaxIsGreatest(reports, OlderReport);
      hide LastMax, ReportsUpTo;
      assert LastMax(reports, OlderReport) in reports;
    }
  }

  /** And a replay lays the window's reports over each other from the oldest to the newest. */
  lemma ReportsAreLaidInOrder(h: History, start: Instant, end: Instant)
    ensures var reports := Sorted(WindowReports(h, start, end), OlderReport);
      && (forall r :: r in reports <==> r in h.reports && start < r.recordedAt <= end)
      && forall i, j :: 0 <= i < j < |reports| ==> NoNewer(reports[i], reports[j])
  {
    ReportOrder();
    var inside := WindowReports(h, start, end);
    assert forall r :: r in inside <==> r in h.reports && start < r.recordedAt <= end;
    hide Sorted, WindowReports;
    SortedIsInOrder(inside, OlderReport);
    var reports := Sorted(inside, OlderReport);
    assert forall r :: r in reports <==> r in multiset(reports);
    assert forall r :: r in inside <==> r in multiset(inside);
    forall i, j | 0 <= i < j < |reports| ensures NoNewer(reports[i], reports[j]) {
      assert !OlderReport(reports[j], reports[i]);
    }
  }

  lemma ReportEventsAreInOrder(rows: seq<ReportRow>)
    requires InOrder(rows, OlderReport)
    ensures InOrder(Mapped(rows, ToAgentEvent()), Sooner)
  {
    var events := Mapped(rows, ToAgentEvent());
    forall i, j | 0 <= i < j < |events| ensures !Sooner(events[j], events[i]) {
      assert !OlderReport(rows[j], rows[i]);
    }
  }

  lemma ReportEventsAreSorted(h: History, start: Instant, end: Instant)
    ensures var reports := Mapped(Sorted(WindowReports(h, start, end), OlderReport), ToAgentEvent());
      Sorted(reports, Sooner) == reports && Filter(reports, (e: Event) => e.AgentEvent?) == reports
  {
    ReportOrder();
    var rows := Sorted(WindowReports(h, start, end), OlderReport);
    var reports := Mapped(rows, ToAgentEvent());
    assert forall e :: e in reports ==> e.AgentEvent?;
    hide *;
    SortedIsInOrder(WindowReports(h, start, end), OlderReport);
    ReportEventsAreInOrder(rows);
    SortingTheSorted(reports, Sooner);
    FilterAll(reports, (e: Event) => e.AgentEvent?);
  }

  lemma OthersAreNoAgentEvents(h: History, contacts: Contacts, rows: seq<ObservationRow>, fixes: seq<PositionRow>)
    ensures var metrics := Mapped(rows, (row: ObservationRow) => MetricEvent(MetricOf(h, contacts, row)));
      var positions := Mapped(fixes, (row: PositionRow) => PositionEvent(PositionOf(h, contacts, row)));
      Filter(metrics + positions, (e: Event) => e.AgentEvent?) == []
  {
    hide MetricOf, PositionOf, Filter;
    NoAgentEvents(Mapped(rows, (row: ObservationRow) => MetricEvent(MetricOf(h, contacts, row)))
                  + Mapped(fixes, (row: PositionRow) => PositionEvent(PositionOf(h, contacts, row))));
  }

  lemma AgentEventsAreTheReports(h: History, contacts: Contacts, start: Instant, end: Instant)
    ensures Filter(Events(h, contacts, start, end), (e: Event) => e.AgentEvent?)
            == Mapped(Sorted(WindowReports(h, start, end), OlderReport), ToAgentEvent())
  {
    hide MetricOf, PositionOf, Sooner, Older, OlderPosition, OlderReport, WindowRows, WindowPositions, WindowReports, Filter, Sorted,
         InOrder, StrictWeakOrder, Mapped;
    ReplayOrders();
    ReportEventsAreSorted(h, start, end);
    OthersAreNoAgentEvents(h, contacts, Sorted(WindowRows(h, start, end), Older), Sorted(WindowPositions(h, start, end), OlderPosition));
    var rows := Sorted(WindowReports(h, start, end), OlderReport);
    var ours := (e: Event) => e.AgentEvent?;
    var metrics := Mapped(Sorted(WindowRows(h, start, end), Older), (row: ObservationRow) => MetricEvent(MetricOf(h, contacts, row)));
    var positions := Mapped(Sorted(WindowPositions(h, start, end), OlderPosition), (row: PositionRow) => PositionEvent(PositionOf(h, contacts, row)));
    var reports := Mapped(rows, ToAgentEvent());
    FilterSorted(metrics + positions + reports, Sooner, ours);
    FilterAppend(metrics + positions, reports, ours);
    assert Filter(metrics + positions + reports, ours) == [] + reports == reports;
  }

  /** The agent data after a replay: the reports of the window laid over what was there, oldest first. */
  lemma ReplayedAgentData(h: History, contacts: Contacts, start: Instant, end: Instant, state: CandidateState)
    ensures Fold(state, Events(h, contacts, start, end)).agent == Merged(state.agent, Sorted(WindowReports(h, start, end), OlderReport))
  {
    AgentEventsAreTheReports(h, contacts, start, end);
    hide *;
    AgentDataFolds(state, Events(h, contacts, start, end), Sorted(WindowReports(h, start, end), OlderReport));
  }

  /** A field has the value of the last report that has the field, or the one it had before. */
  lemma {:induction false} MergedField(data: map<string, Value>, reports: seq<ReportRow>, field: string)
    ensures field in Merged(data, reports) <==> field in data || exists r :: r in reports && field in r.data
    ensures field in Merged(data, reports) && (forall r :: r in reports ==> field !in r.data) ==> Merged(data, reports)[field] == data[field]
    ensures forall k :: 0 <= k < |reports| && field in reports[k].data && (forall i :: k < i < |reports| ==> field !in reports[i].data)
                        ==> Merged(data, reports)[field] == reports[k].data[field]
  {
    if reports != [] {
      var front, last := reports[..|reports| - 1], reports[|reports| - 1];
      MergedField(data, front, field);
      assert reports == front + [last];
      forall k | 0 <= k < |reports| && field in reports[k].data && (forall i :: k < i < |reports| ==> field !in reports[i].data)
        ensures Merged(data, reports)[field] == reports[k].data[field]
      {
        if k < |front| {
          assert reports[|front|] == last && front[k] == reports[k];
          assert forall i :: k < i < |front| ==> front[i] == reports[i];
        }
      }
    }
  }

  function ReportsUpTo(h: History, at: Instant): seq<ReportRow> {
    Filter(h.reports, (row: ReportRow) => row.recordedAt <= at)
  }

  /** `candidate_state_at` takes the data of the newest report alone. */
  function ReconstructedAgent(h: History, at: Instant): map<string, Value> {
    var reports := ReportsUpTo(h, at);
    if reports == [] then map[] else LastMax(reports, OlderReport).data
  }

  lemma NewestReportSplits(h: History, start: Instant, end: Instant)
    requires start <= end
    ensures var reports := WindowReports(h, start, end);
      ReconstructedAgent(h, end) == if reports == [] then ReconstructedAgent(h, start) else LastMax(reports, OlderReport).data
  {
    ReportOrder();
    var all, inside := ReportsUpTo(h, end), WindowReports(h, start, end);
    var since := (row: ReportRow) => row.recordedAt > start;
    FilterTwice(h.reports, (row: ReportRow) => row.recordedAt <= end, since, (row: ReportRow) => start < row.recordedAt <= end);
    assert Filter(all, since) == inside;
    if inside != [] {
      LastMaxSurvives(all, OlderReport, since);
    } else {
      assert forall row :: row in h.reports && row.recordedAt <= end ==> row in all && row !in inside;
      FilterCongruence(h.reports, (row: ReportRow) => row.recordedAt <= end, (row: ReportRow) => row.recordedAt <= start);
    }
  }

  function Field(data: map<string, Value>, field: string): Option<Value> {
    if field in data then Some(data[field]) else None
  }

  /**
   * Replay lays reports over each other, reconstruction takes the newest alone. From the state of the
   * start they show the same of a field at the end exactly when the window has no report, or its newest
   * report has the field, or none of them has it and neither had the state.
   */
  lemma AgentFieldAgreesIff(h: History, contacts: Contacts, start: Instant, end: Instant, state: CandidateState, field: string)
    requires start <= end && state.agent == ReconstructedAgent(h, start)
    ensures var reports := WindowReports(h, start, end);
      Field(Fold(state, Events(h, contacts, start, end)).agent, field) == Field(ReconstructedAgent(h, end), field)
      <==> || reports == []
           || field in LastMax(reports, OlderReport).data
           || (field !in state.agent && forall r :: r in reports ==> field !in r.data)
  {
    ReportOrder();
    ReplayedAgentData(h, contacts, start, end, state);
    NewestReportSplits(h, start, end);
    var reports := WindowReports(h, start, end);
    var ordered := Sorted(reports, OlderReport);
    SortedIsInOrder(reports, OlderReport);
    if reports != [] {
      LastOfSorted(reports, OlderReport);
    }
    hide Fold, Events, WindowReports, Sorted, LastMax, OlderReport, ReconstructedAgent, Merged, InOrder;
    forall r ensures r in ordered <==> r in reports {
      assert r in ordered <==> r in multiset(ordered);
      assert r in reports <==> r in multiset(reports);
    }
    MergedField(state.agent, ordered, field);
    NoReportsNoChange(state.agent);
  }

  lemma NoReportsNoChange(data: map<string, Value>)
    ensures Merged(data, []) == data
  {
  }

  /** Two reports, of which only the first says that an event set it off: the replay says so of the second too. */
  lemma DroppedFieldLingers(contacts: Contacts)
    ensures var h := History([], [], [ReportRow(1, 1, map["sample_trigger" := Text("moved")]), ReportRow(2, 2, map[])], {});
      var state := CandidateState([], [], map[]);
      && Field(ReconstructedAgent(h, 0), "sample_trigger") == None
      && Field(Fold(state, Events(h, contacts, 0, 2)).agent, "sample_trigger") != Field(ReconstructedAgent(h, 2), "sample_trigger")
  {
    var first, second := ReportRow(1, 1, map["sample_trigger" := Text("moved")]), ReportRow(2, 2, map[]);
    var h := History([], [], [first, second], {});
    var state := CandidateState([], [], map[]);
    assert h.reports == [first] + [second] && [first, second][..1] == [first] && [first][..0] == [];
    var inside := (row: ReportRow) => 0 < row.recordedAt <= 2;
    FilterAll(h.reports, inside);
    NonemptyHasElement(ReportsUpTo(h, 0));
    assert LastMax([first, second], OlderReport) == second;
    hide Fold, Events, LastMax, Filter, OlderReport;
    AgentFieldAgreesIff(h, contacts, 0, 2, state, "sample_trigger");
    assert first in WindowReports(h, 0, 2);
  }
}
