/** What ingestion keeps over whole runs, in whatever order and however often samples are delivered. */
module IngestionProperties {
  import opened Options
  import opened Numbers
  import opened Registry
  import opened Sequences
  import opened Sorting
  import opened Timeline
  import opened Replay
  import opened Contacts
  import opened Ingestion
  import opened Server

  datatype Batch = Batch(source: Source, samples: seq<Sample>, hooks: seq<Hook>, now: Instant)

  function AfterReport(t: Tables, b: Batch): Tables {
    if b.source.retired then t else AfterBatch(t, b.source, b.samples, b.hooks, b.now)
  }

  function AfterRun(batches: seq<Batch>): Tables {
    if batches == [] then EmptyTables() else AfterReport(AfterRun(batches[..|batches| - 1]), batches[|batches| - 1])
  }

  /** The batch schema refuses repeated ids; nothing else is asked of a run. */
  ghost predicate Admissible(batches: seq<Batch>) {
    forall b :: b in batches ==> DistinctIds(b.samples)
  }

  lemma {:induction false} EveryRunIsConsistent(batches: seq<Batch>)
    requires Admissible(batches)
    ensures Consistent(AfterRun(batches))
  {
    hide Consistent, AfterBatch;
    if batches == [] {
      EmptyTablesAreConsistent();
    } else {
      var front, last := batches[..|batches| - 1], batches[|batches| - 1];
      EveryRunIsConsistent(front);
      if !last.source.retired {
        IngestionKeepsConsistency(AfterRun(front), last.source, last.samples, last.hooks, last.now);
      }
    }
  }

  // The answer of one ingestion.

  lemma IdsNext(samples: seq<Sample>, i: nat)
    requires i < |samples|
    ensures IdsOf(samples[..i + 1]) == IdsOf(samples[..i]) + [samples[i].id]
  {
    MappedAppend(samples[..i], [samples[i]], (s: Sample) => s.id);
    assert samples[..i + 1] == samples[..i] + [samples[i]];
  }

  lemma {:induction false} AnswerSplitsTheBatch(log: seq<Stored>, source: Source, samples: seq<Sample>, upto: nat)
    requires upto <= |samples|
    ensures multiset(IdsOf(FreshSamples(log, samples[..upto]))) + multiset(IdsOf(KnownSamples(log, samples[..upto])))
            == multiset(IdsOf(samples[..upto]))
    decreases upto
  {
    hide *;
    if upto == 0 {
      SortedOutNothing(log, source);
      assert |IdsOf(samples[..0])| == 0;
    } else {
      AnswerSplitsTheBatch(log, source, samples, upto - 1);
      SortedOutNext(log, source, samples, upto - 1);
      IdsNext(samples, upto - 1);
    }
  }

  lemma AnsweredAsLogged(log: seq<Stored>, samples: seq<Sample>)
    ensures forall id :: id in IdsOf(FreshSamples(log, samples)) ==> id !in StoredIds(log)
    ensures forall id :: id in IdsOf(KnownSamples(log, samples)) ==> id in StoredIds(log)
  {
    var unknown, known := FreshSamples(log, samples), KnownSamples(log, samples);
    assert forall s :: s in unknown ==> s.id !in StoredIds(log);
    assert forall s :: s in known ==> s.id in StoredIds(log);
    assert forall i :: 0 <= i < |unknown| ==> unknown[i] in unknown;
    assert forall i :: 0 <= i < |known| ==> known[i] in known;
    hide FreshSamples, KnownSamples, StoredIds;
  }

  /** Every id of the batch is answered once, as accepted exactly when the log did not hold it. */
  lemma AnswerListsEachIdOnce(log: seq<Stored>, samples: seq<Sample>)
    requires DistinctIds(samples)
    ensures var accepted, duplicates := IdsOf(FreshSamples(log, samples)), IdsOf(KnownSamples(log, samples));
      && multiset(accepted) + multiset(duplicates) == multiset(IdsOf(samples))
      && NoRepeats(IdsOf(samples))
      && (forall id :: id in accepted ==> id !in StoredIds(log))
      && (forall id :: id in duplicates ==> id in StoredIds(log))
  {
    AnsweredAsLogged(log, samples);
    AnswerSplitsTheBatch(log, Source("", "", false), samples, |samples|);
    assert samples[..|samples|] == samples;
    assert forall i :: 0 <= i < |samples| ==> IdsOf(samples)[i] == samples[i].id;
    hide FreshSamples, KnownSamples, StoredIds, IdsOf;
  }

  /** After the batch every one of its samples is in the log, and nothing that was there has gone. */
  lemma BatchIsStored(t: Tables, source: Source, samples: seq<Sample>, hooks: seq<Hook>, now: Instant)
    ensures var after := AfterBatch(t, source, samples, hooks, now);
      && t.log <= after.log
      && StoredIds(after.log) == StoredIds(t.log) + (set s | s in samples :: s.id)
  {
    var rows := NewRows(t.log, source, samples);
    NewRowIds(t.log, source, samples);
    hide NewRows;
    forall id ensures id in StoredIds(t.log + rows) <==> id in StoredIds(t.log) || id in StoredIds(rows) {
      if id in StoredIds(t.log + rows) {
        var row :| row in t.log + rows && row.sample.id == id;
        assert row in t.log || row in rows;
      }
      if id in StoredIds(t.log) {
        var row :| row in t.log && row.sample.id == id;
        assert row in t.log + rows;
      }
      if id in StoredIds(rows) {
        var row :| row in rows && row.sample.id == id;
        assert row in t.log + rows;
      }
    }
  }

  lemma NewRowIds(log: seq<Stored>, source: Source, samples: seq<Sample>)
    ensures StoredIds(NewRows(log, source, samples)) == (set s | s in samples :: s.id) - StoredIds(log)
  {
    var rows := NewRows(log, source, samples);
    var kept := FreshSamples(log, samples);
    StoredOfKeepsId(source);
    assert forall i :: 0 <= i < |kept| ==> rows[i].sample.id == kept[i].id;
    assert forall s :: s in kept <==> s in samples && s.id !in StoredIds(log);
    hide FreshSamples, NewRows, StoredOf;
    forall id ensures id in StoredIds(rows) <==> exists s :: s in kept && s.id == id {
      if id in StoredIds(rows) {
        var row :| row in rows && row.sample.id == id;
        var i :| 0 <= i < |rows| && rows[i] == row;
        assert kept[i] in kept;
      }
      if s :| s in kept && s.id == id {
        var i :| 0 <= i < |kept| && kept[i] == s;
        assert rows[i] in rows;
      }
    }
  }

  lemma StoredOfKeepsId(source: Source)
    ensures forall s :: StoredOf(source, s).sample.id == s.id
  {
  }

  /** A batch of samples the log already holds changes nothing but the source's contact. */
  lemma RedeliveryOnlyTouchesContact(t: Tables, source: Source, samples: seq<Sample>, hooks: seq<Hook>, now: Instant)
    requires forall s :: s in samples ==> s.id in StoredIds(t.log)
    ensures AfterBatch(t, source, samples, hooks, now)
            == t.(periods := t.periods[source.id := Touched(PeriodsOf(t.periods, source.id), now, Liveness(samples))])
    ensures IdsOf(FreshSamples(t.log, samples)) == [] && IdsOf(KnownSamples(t.log, samples)) == IdsOf(samples)
  {
    NonemptyHasElement(FreshSamples(t.log, samples));
    FilterAll(samples, (s: Sample) => s.id in StoredIds(t.log));
    hide Touched, Liveness;
  }

  // The candidate table as a cache over the log.

  predicate Newer(a: Arrival, b: Arrival) {
    a.row.observedAt > b.row.observedAt
  }

  function ArrivalsFor(arrivals: seq<Arrival>, id: CandidateId): seq<Arrival> {
    Filter(arrivals, (a: Arrival) => ArrivalId(a) == id)
  }

  /** One arrival more: the identity's own arrivals grow by it, or do not change. */
  lemma ArrivalsForNext(arrivals: seq<Arrival>, id: CandidateId)
    requires arrivals != []
    ensures var front, last := arrivals[..|arrivals| - 1], arrivals[|arrivals| - 1];
      ArrivalsFor(arrivals, id) == if ArrivalId(last) == id then ArrivalsFor(front, id) + [last] else ArrivalsFor(front, id)
  {
  }

  lemma ArrivalsForHoldsThem(arrivals: seq<Arrival>, id: CandidateId)
    ensures forall i :: 0 <= i < |arrivals| && ArrivalId(arrivals[i]) == id ==> arrivals[i] in ArrivalsFor(arrivals, id)
  {
  }

  lemma FirstMaxNext<T>(s: seq<T>, x: T, outranks: (T, T) -> bool)
    ensures FirstMax(s + [x], outranks) == if s == [] || outranks(x, FirstMax(s, outranks)) then x else FirstMax(s, outranks)
  {
    assert (s + [x])[..|s|] == s;
  }

  lemma LastMaxNext<T>(s: seq<T>, x: T, less: (T, T) -> bool)
    ensures LastMax(s + [x], less) == if s != [] && less(x, LastMax(s, less)) then LastMax(s, less) else x
  {
    assert (s + [x])[..|s|] == s;
  }

  /** One update after another leaves, for each identity, the first of the newest arrivals. */
  lemma {:induction false} TableHoldsFirstNewest(arrivals: seq<Arrival>, id: CandidateId)
    ensures id in AppliedAll(map[], arrivals) <==> ArrivalsFor(arrivals, id) != []
    ensures id in AppliedAll(map[], arrivals) ==> AppliedAll(map[], arrivals)[id] == FirstMax(ArrivalsFor(arrivals, id), Newer)
  {
    if arrivals != [] {
      var front, last := arrivals[..|arrivals| - 1], arrivals[|arrivals| - 1];
      TableHoldsFirstNewest(front, id);
      if ArrivalId(last) == id {
        var earlier := ArrivalsFor(front, id);
        assert ArrivalsFor(arrivals, id) == earlier + [last];
        assert (earlier + [last])[..|earlier|] == earlier;
      }
    }
  }

  /**
   * After any run, a metric candidate is the newest value logged for its vehicle, source, channel
   * and key, and of equally new ones the first to have arrived.
   */
  lemma CacheAgreesWithLog(batches: seq<Batch>, id: CandidateId) returns (at: nat)
    requires Admissible(batches) && id in AfterRun(batches).candidates
    ensures var arrivals := Arrivals(AfterRun(batches).log);
      && at < |arrivals| && arrivals[at] == AfterRun(batches).candidates[id] && ArrivalId(arrivals[at]) == id
      && (forall i :: 0 <= i < |arrivals| && ArrivalId(arrivals[i]) == id ==> arrivals[i].row.observedAt <= arrivals[at].row.observedAt)
      && (forall i :: 0 <= i < at && ArrivalId(arrivals[i]) == id ==> arrivals[i].row.observedAt < arrivals[at].row.observedAt)
  {
    EveryRunIsConsistent(batches);
    var arrivals := Arrivals(AfterRun(batches).log);
    assert AfterRun(batches).candidates == AppliedAll(map[], arrivals);
    hide AfterRun, Consistent, Arrivals, AppliedAll;
    TableHoldsFirstNewest(arrivals, id);
    at := FirstNewestAt(arrivals, id);
  }

  lemma NotEmptyFor(arrivals: seq<Arrival>, id: CandidateId)
    requires ArrivalsFor(arrivals, id) != []
    ensures arrivals != []
  {
  }

  lemma {:induction false} FirstNewestAt(arrivals: seq<Arrival>, id: CandidateId) returns (at: nat)
    requires ArrivalsFor(arrivals, id) != []
    ensures at < |arrivals| && arrivals[at] == FirstMax(ArrivalsFor(arrivals, id), Newer) && ArrivalId(arrivals[at]) == id
    ensures forall i :: 0 <= i < |arrivals| && ArrivalId(arrivals[i]) == id ==> arrivals[i].row.observedAt <= arrivals[at].row.observedAt
    ensures forall i :: 0 <= i < at && ArrivalId(arrivals[i]) == id ==> arrivals[i].row.observedAt < arrivals[at].row.observedAt
  {
    hide ArrivalsFor, FirstMax, ArrivalId;
    NotEmptyFor(arrivals, id);
    var front, last := arrivals[..|arrivals| - 1], arrivals[|arrivals| - 1];
    var earlier := ArrivalsFor(front, id);
    ArrivalsForNext(arrivals, id);
    FirstMaxNext(earlier, last, Newer);
    if ArrivalId(last) != id {
      at := FirstNewestAt(front, id);
    } else if earlier == [] {
      ArrivalsForHoldsThem(front, id);
      at := |front|;
    } else {
      at := FirstNewestAt(front, id);
      if Newer(last, arrivals[at]) {
        at := |front|;
      }
    }
  }

  /** Row i of the log reports a position for this vehicle, source and channel. */
  predicate ReportsFor(t: Stored, id: PositionId) {
    t.sample.position.Some? && PositionIdOf(t, t.sample.position.value) == id
  }

  lemma {:induction false} PositionIsFirstNewest(log: seq<Stored>, id: PositionId) returns (at: nat)
    requires id in PositionsAfter(map[], log)
    ensures at < |log| && ReportsFor(log[at], id) && PositionsAfter(map[], log)[id] == HeldPositionOf(log[at], log[at].sample.position.value)
    ensures forall i :: 0 <= i < |log| && ReportsFor(log[i], id)
                        ==> log[i].sample.position.value.observedAt <= log[at].sample.position.value.observedAt
    ensures forall i :: 0 <= i < at && ReportsFor(log[i], id)
                        ==> log[i].sample.position.value.observedAt < log[at].sample.position.value.observedAt
  {
    var front, last := log[..|log| - 1], log[|log| - 1];
    var before := PositionsAfter(map[], front);
    if id in before {
      at := PositionIsFirstNewest(front, id);
      if PositionsAfter(map[], log)[id] != before[id] {
        at := |front|;
      }
    } else {
      NoPositionYet(front, id);
      at := |front|;
    }
  }

  lemma {:induction false} NoPositionYet(log: seq<Stored>, id: PositionId)
    ensures id !in PositionsAfter(map[], log) ==> forall i :: 0 <= i < |log| ==> !ReportsFor(log[i], id)
  {
    if log != [] {
      NoPositionYet(log[..|log| - 1], id);
    }
  }

  /** After any run, a position candidate is the newest position logged for its vehicle, source and channel, and of equally new ones the first. */
  lemma PositionAgreesWithLog(batches: seq<Batch>, id: PositionId) returns (at: nat)
    requires Admissible(batches) && id in AfterRun(batches).positions
    ensures var log := AfterRun(batches).log;
      && at < |log| && ReportsFor(log[at], id)
      && (var row, s, p := AfterRun(batches).positions[id], log[at].sample, log[at].sample.position.value;
          && row.telemetryId == s.id && row.report == p && row.reportingInterval == s.reportingInterval && row.eventDriven == s.eventDriven
          && id.vehicleId == log[at].vehicleId && id.sourceId == log[at].sourceId && id.channel == p.channel)
      && (forall i :: 0 <= i < |log| && ReportsFor(log[i], id)
                      ==> log[i].sample.position.value.observedAt <= log[at].sample.position.value.observedAt)
      && (forall i :: 0 <= i < at && ReportsFor(log[i], id)
                      ==> log[i].sample.position.value.observedAt < log[at].sample.position.value.observedAt)
  {
    EveryRunIsConsistent(batches);
    assert AfterRun(batches).positions == PositionsAfter(map[], AfterRun(batches).log);
    hide AfterRun, Consistent, PositionsAfter;
    at := PositionIsFirstNewest(AfterRun(batches).log, id);
  }

  ghost predicate DistinctInstants(arrivals: seq<Arrival>) {
    forall a, b :: a in arrivals && b in arrivals && ArrivalId(a) == ArrivalId(b) && a.row.observedAt == b.row.observedAt ==> a == b
  }

  /** With distinct instants per identity, the table does not depend on the order of arrival. */
  lemma ArrivalOrderDoesNotMatter(some: seq<Arrival>, other: seq<Arrival>)
    requires DistinctInstants(some) && forall a :: a in some <==> a in other
    ensures AppliedAll(map[], some) == AppliedAll(map[], other)
  {
    forall id ensures id in AppliedAll(map[], some) <==> id in AppliedAll(map[], other) {
      TableHoldsFirstNewest(some, id);
      TableHoldsFirstNewest(other, id);
      NonemptyHasElement(ArrivalsFor(some, id));
      NonemptyHasElement(ArrivalsFor(other, id));
      assert forall a :: a in ArrivalsFor(some, id) <==> a in ArrivalsFor(other, id);
    }
    forall id | id in AppliedAll(map[], some)
      ensures AppliedAll(map[], some)[id] == AppliedAll(map[], other)[id]
    {
      TableHoldsFirstNewest(some, id);
      TableHoldsFirstNewest(other, id);
      var a := FirstNewestAt(some, id);
      var b := FirstNewestAt(other, id);
      assert some[a] in some && some[a] in other && other[b] in other && other[b] in some;
    }
  }

  // The cache beside the history query.

  /** The observation rows logged for one vehicle, in the order of their ids. */
  function LoggedRows(arrivals: seq<Arrival>, vehicleId: string): seq<ObservationRow> {
    Mapped(Filter(arrivals, (a: Arrival) => a.vehicleId == vehicleId && !a.mirrored), (a: Arrival) => a.row)
  }

  function HistoryOf(arrivals: seq<Arrival>, vehicleId: string, connectors: set<string>): History {
    History(LoggedRows(arrivals, vehicleId), [], [], connectors)
  }

  /** Nothing a position mirrors lands on this identity. */
  ghost predicate NeverMirrored(arrivals: seq<Arrival>, id: CandidateId) {
    forall a :: a in arrivals && ArrivalId(a) == id ==> !a.mirrored
  }

  predicate OlderArrival(a: Arrival, b: Arrival) {
    a.row.observedAt < b.row.observedAt
  }

  /** Logged, and not after an instant: what the history query can see then. */
  predicate Visible(a: Arrival, at: Instant) {
    !a.mirrored && a.row.observedAt <= at
  }

  function VisibleFor(arrivals: seq<Arrival>, id: CandidateId, at: Instant): seq<Arrival> {
    Filter(ArrivalsFor(arrivals, id), (a: Arrival) => Visible(a, at))
  }

  lemma QueryRowsAreVisible(arrivals: seq<Arrival>, id: CandidateId, at: Instant, connectors: set<string>)
    ensures RowsUpTo(HistoryOf(arrivals, id.vehicleId, connectors), id.identity, at) == Mapped(VisibleFor(arrivals, id, at), (a: Arrival) => a.row)
  {
    hide Filter, Mapped;
    var logged := (a: Arrival) => a.vehicleId == id.vehicleId && !a.mirrored;
    var ofId := (row: ObservationRow) => RowIdentity(row) == id.identity && row.observedAt <= at;
    var sourceOfId := (a: Arrival) => ofId(a.row);
    var both := (a: Arrival) => logged(a) && sourceOfId(a);
    FilterMapped(Filter(arrivals, logged), (a: Arrival) => a.row, ofId, sourceOfId);
    FilterTwice(arrivals, logged, sourceOfId, both);
    FilterTwice(arrivals, (a: Arrival) => ArrivalId(a) == id, (a: Arrival) => Visible(a, at), both);
  }

  /** The query's row is the last of the newest values of an identity that it can see. */
  lemma HistoryRowIsLastVisible(arrivals: seq<Arrival>, id: CandidateId, at: Instant, connectors: set<string>)
    ensures var latest := LatestRow(HistoryOf(arrivals, id.vehicleId, connectors), id.identity, at);
      if VisibleFor(arrivals, id, at) == [] then latest == None
      else latest == Some(LastMax(VisibleFor(arrivals, id, at), OlderArrival).row)
  {
    hide Filter, Mapped, VisibleFor, HistoryOf, RowsUpTo, LastMax;
    QueryRowsAreVisible(arrivals, id, at, connectors);
    if VisibleFor(arrivals, id, at) != [] {
      LastMaxMapped(VisibleFor(arrivals, id, at), (a: Arrival) => a.row, OlderArrival, Older);
    }
  }

  /** The newest arrivals of an identity, in order of arrival. */
  function Newest(arrivals: seq<Arrival>, id: CandidateId): seq<Arrival>
    requires ArrivalsFor(arrivals, id) != []
  {
    TiesAt(ArrivalsFor(arrivals, id), FirstMax(ArrivalsFor(arrivals, id), Newer).row.observedAt)
  }

  function TiesAt(s: seq<Arrival>, at: Instant): seq<Arrival> {
    Filter(s, (a: Arrival) => a.row.observedAt == at)
  }

  lemma TiesNext(s: seq<Arrival>, x: Arrival, at: Instant)
    ensures TiesAt(s + [x], at) == if x.row.observedAt == at then TiesAt(s, at) + [x] else TiesAt(s, at)
  {
    assert (s + [x])[..|s|] == s;
  }

  lemma NoTies(s: seq<Arrival>, at: Instant)
    requires forall a :: a in s ==> a.row.observedAt < at
    ensures TiesAt(s, at) == []
  {
    NonemptyHasElement(TiesAt(s, at));
  }

  /** First and last of the newest: what keeping the incumbent and what preferring the latest id come to. */
  lemma {:induction false} FirstAndLastOfNewest(s: seq<Arrival>)
    requires s != []
    ensures forall a :: a in s ==> a.row.observedAt <= FirstMax(s, Newer).row.observedAt
    ensures LastMax(s, OlderArrival).row.observedAt == FirstMax(s, Newer).row.observedAt
    ensures var ties := TiesAt(s, FirstMax(s, Newer).row.observedAt);
      ties != [] && ties[0] == FirstMax(s, Newer) && ties[|ties| - 1] == LastMax(s, OlderArrival)
  {
    hide FirstMax, LastMax, TiesAt;
    var front, last := s[..|s| - 1], s[|s| - 1];
    assert s == front + [last];
    FirstMaxNext(front, last, Newer);
    LastMaxNext(front, last, OlderArrival);
    TiesNext(front, last, FirstMax(s, Newer).row.observedAt);
    if front == [] {
      NoTies(front, last.row.observedAt);
    } else {
      FirstAndLastOfNewest(front);
      if Newer(last, FirstMax(front, Newer)) {
        NoTies(front, last.row.observedAt);
      }
    }
  }

  function LoggedOf(s: seq<Arrival>): seq<Arrival> {
    Filter(s, (a: Arrival) => !a.mirrored)
  }

  /** The ties of what can be seen at an instant are the logged ones among all ties. */
  lemma VisibleTies(s: seq<Arrival>, top: Instant, at: Instant)
    requires top <= at
    ensures TiesAt(Filter(s, (a: Arrival) => Visible(a, at)), top) == LoggedOf(TiesAt(s, top))
  {
    var both := (a: Arrival) => !a.mirrored && a.row.observedAt == top;
    FilterTwice(s, (a: Arrival) => Visible(a, at), (a: Arrival) => a.row.observedAt == top, both);
    FilterTwice(s, (a: Arrival) => a.row.observedAt == top, (a: Arrival) => !a.mirrored, both);
  }

  /** Whether the last of the newest visible is a given row of the newest instant of all. */
  lemma LastVisibleIs(visible: seq<Arrival>, row: ObservationRow)
    requires visible != [] && forall a :: a in visible ==> a.row.observedAt <= row.observedAt
    ensures LastMax(visible, OlderArrival).row == row
            <==> var ties := TiesAt(visible, row.observedAt); ties != [] && ties[|ties| - 1].row == row
  {
    FirstAndLastOfNewest(visible);
    var top := FirstMax(visible, Newer).row.observedAt;
    assert FirstMax(visible, Newer) in visible;
    hide FirstMax, LastMax;
    if top < row.observedAt {
      NoTies(visible, row.observedAt);
    }
  }

  lemma NewestIsBound(arrivals: seq<Arrival>, id: CandidateId)
    requires ArrivalsFor(arrivals, id) != []
    ensures Newest(arrivals, id) != [] && Newest(arrivals, id)[0] == FirstMax(ArrivalsFor(arrivals, id), Newer)
    ensures Newest(arrivals, id) == TiesAt(ArrivalsFor(arrivals, id), Newest(arrivals, id)[0].row.observedAt)
    ensures forall a :: a in ArrivalsFor(arrivals, id) ==> a.row.observedAt <= Newest(arrivals, id)[0].row.observedAt
  {
    hide ArrivalsFor, FirstMax, TiesAt;
    FirstAndLastOfNewest(ArrivalsFor(arrivals, id));
  }

  lemma VisibleRowIff(own: seq<Arrival>, row: ObservationRow, at: Instant)
    requires forall a :: a in own ==> a.row.observedAt <= row.observedAt
    ensures var visible, logged := Filter(own, (a: Arrival) => Visible(a, at)), LoggedOf(TiesAt(own, row.observedAt));
      visible != [] && LastMax(visible, OlderArrival).row == row
      <==> row.observedAt <= at && logged != [] && logged[|logged| - 1].row == row
  {
    var visible := Filter(own, (a: Arrival) => Visible(a, at));
    assert forall a :: a in visible ==> a in own && a.row.observedAt <= at;
    hide *;
    if row.observedAt <= at {
      VisibleTies(own, row.observedAt, at);
    } else {
      NoTies(visible, row.observedAt);
    }
    if visible == [] {
      NoTies(visible, row.observedAt);
    } else {
      LastVisibleIs(visible, row);
    }
  }

  /**
   * The candidate is the row the history query ranks first at an instant exactly when its own instant
   * has come by then and, of the values of that instant, the last one logged carries the row of the
   * first one to arrive: the cache keeps the first, the query takes the last and sees no mirrored speed.
   */
  lemma CacheIsHistoryRowIff(arrivals: seq<Arrival>, id: CandidateId, at: Instant, connectors: set<string>)
    requires ArrivalsFor(arrivals, id) != []
    ensures var newest := Newest(arrivals, id);
      && newest != []
      && id in AppliedAll(map[], arrivals)
      && (LatestRow(HistoryOf(arrivals, id.vehicleId, connectors), id.identity, at) == Some(AppliedAll(map[], arrivals)[id].row)
          <==> (var logged := LoggedOf(newest);
                newest[0].row.observedAt <= at && logged != [] && logged[|logged| - 1].row == newest[0].row))
  {
    var own := ArrivalsFor(arrivals, id);
    assert VisibleFor(arrivals, id, at) == Filter(own, (a: Arrival) => Visible(a, at));
    hide *;
    TableHoldsFirstNewest(arrivals, id);
    NewestIsBound(arrivals, id);
    HistoryRowIsLastVisible(arrivals, id, at, connectors);
    VisibleRowIff(own, Newest(arrivals, id)[0].row, at);
  }

  /** In particular for an identity with distinct instants that nothing mirrors: live candidate and reconstruction are the same row. */
  lemma DistinctInstantsAgree(arrivals: seq<Arrival>, id: CandidateId, at: Instant, connectors: set<string>)
    requires NeverMirrored(arrivals, id) && DistinctInstants(ArrivalsFor(arrivals, id))
    requires id in AppliedAll(map[], arrivals) && AppliedAll(map[], arrivals)[id].row.observedAt <= at
    ensures LatestRow(HistoryOf(arrivals, id.vehicleId, connectors), id.identity, at) == Some(AppliedAll(map[], arrivals)[id].row)
  {
    TableHoldsFirstNewest(arrivals, id);
    var own := ArrivalsFor(arrivals, id);
    assert forall a :: a in own ==> a in arrivals && ArrivalId(a) == id;
    hide LatestRow, HistoryOf, AppliedAll, ArrivalsFor, FirstMax;
    CacheIsHistoryRowIff(arrivals, id, at, connectors);
    NewestIsBound(arrivals, id);
    var newest := Newest(arrivals, id);
    assert forall a :: a in newest ==> a in own && a.row.observedAt == newest[0].row.observedAt;
    hide Newest, TiesAt;
    FilterAll(newest, (a: Arrival) => !a.mirrored);
    assert newest[0] in newest && newest[|newest| - 1] in newest;
  }

  lemma {:induction false} OnlySatelliteSpeedIsMirrored(log: seq<Stored>, id: CandidateId)
    requires id.identity.channel != Gnss || id.identity.key != VehicleSpeed
    ensures NeverMirrored(Arrivals(log), id)
  {
    if log != [] {
      var front, last := log[..|log| - 1], log[|log| - 1];
      OnlySatelliteSpeedIsMirrored(front, id);
      forall a | a in ArrivalsOf(last) && ArrivalId(a) == id ensures !a.mirrored {
        var i :| 0 <= i < |ArrivalsOf(last)| && ArrivalsOf(last)[i] == a;
      }
    }
  }

  /** After any run, each candidate but a satellite speed is the row the reconstruction would take, where its own instants differ. */
  lemma CandidatesMatchHistory(batches: seq<Batch>, id: CandidateId, at: Instant, connectors: set<string>)
    requires Admissible(batches) && id in AfterRun(batches).candidates
    requires id.identity.channel != Gnss || id.identity.key != VehicleSpeed
    requires DistinctInstants(ArrivalsFor(Arrivals(AfterRun(batches).log), id))
    requires AfterRun(batches).candidates[id].row.observedAt <= at
    ensures LatestRow(HistoryOf(Arrivals(AfterRun(batches).log), id.vehicleId, connectors), id.identity, at)
            == Some(AfterRun(batches).candidates[id].row)
  {
    EveryRunIsConsistent(batches);
    var after := AfterRun(batches);
    assert after.candidates == AppliedAll(map[], Arrivals(after.log));
    hide AfterRun, Consistent, Arrivals, AppliedAll;
    OnlySatelliteSpeedIsMirrored(after.log, id);
    DistinctInstantsAgree(Arrivals(after.log), id, at, connectors);
  }

  lemma PairIsForId(early: Arrival, late: Arrival, id: CandidateId)
    requires ArrivalId(early) == ArrivalId(late) == id
    ensures ArrivalsFor([early, late], id) == [early, late]
  {
    hide ArrivalId;
    FilterAll([early, late], (a: Arrival) => ArrivalId(a) == id);
    hide Filter;
  }

  lemma PairTies(early: Arrival, late: Arrival)
    requires early.row.observedAt == late.row.observedAt
    ensures TiesAt([early, late], early.row.observedAt) == [early, late]
  {
    FilterAll([early, late], (a: Arrival) => a.row.observedAt == early.row.observedAt);
    hide Filter;
  }

  lemma FirstOfPair(early: Arrival, late: Arrival)
    requires early.row.observedAt == late.row.observedAt
    ensures FirstMax([early, late], Newer) == early
  {
    assert [early] + [late] == [early, late];
    FirstMaxNext([early], late, Newer);
  }

  lemma TiedPair(early: Arrival, late: Arrival, id: CandidateId)
    requires ArrivalId(early) == ArrivalId(late) == id && early.row.observedAt == late.row.observedAt
    ensures ArrivalsFor([early, late], id) == [early, late] == Newest([early, late], id)
  {
    hide ArrivalsFor, FirstMax, TiesAt, ArrivalId;
    PairIsForId(early, late, id);
    FirstOfPair(early, late);
    PairTies(early, late);
  }

  lemma LoggedPair(early: Arrival, late: Arrival)
    requires !early.mirrored && !late.mirrored
    ensures LoggedOf([early, late]) == [early, late]
  {
    FilterAll([early, late], (a: Arrival) => !a.mirrored);
  }

  lemma TiedPairDiffers(early: Arrival, late: Arrival, id: CandidateId)
    requires ArrivalId(early) == ArrivalId(late) == id && early.row.observedAt == late.row.observedAt
    requires !early.mirrored && !late.mirrored && early.row != late.row
    ensures id in AppliedAll(map[], [early, late])
    ensures LatestRow(HistoryOf([early, late], id.vehicleId, {}), id.identity, early.row.observedAt) != Some(AppliedAll(map[], [early, late])[id].row)
  {
    hide *;
    TiedPair(early, late, id);
    LoggedPair(early, late);
    CacheIsHistoryRowIff([early, late], id, early.row.observedAt, {});
  }

  lemma TiedPairExists() returns (early: Arrival, late: Arrival, id: CandidateId)
    ensures ArrivalId(early) == ArrivalId(late) == id && early.row.observedAt == late.row.observedAt == 0
    ensures !early.mirrored && !late.mirrored && early.row != late.row
    ensures NeverMirrored([early, late], id)
  {
    id := CandidateId("v", Identity("s", Can, VehicleState));
    early := Arrival("v", 1, false, ObservationRow(VehicleState, Text("on"), 0, "s", Can, DirectMethod, None, false));
    late := Arrival("v", 2, false, ObservationRow(VehicleState, Text("off"), 0, "s", Can, DirectMethod, None, false));
  }

  /** Two values reported for one instant: the live candidate keeps the first, the history shows the second. */
  lemma TiedInstantsCanDiffer()
    ensures exists arrivals: seq<Arrival>, id: CandidateId ::
      && |arrivals| == 2 && NeverMirrored(arrivals, id) && id in AppliedAll(map[], arrivals)
      && LatestRow(HistoryOf(arrivals, id.vehicleId, {}), id.identity, 0) != Some(AppliedAll(map[], arrivals)[id].row)
  {
    hide *;
    var early, late, id := TiedPairExists();
    TiedPairDiffers(early, late, id);
    assert |[early, late]| == 2;
  }

  // Hook work.

  function WorkOn(hooks: seq<Hook>, k: nat): seq<Execution> {
    Mapped(hooks, (h: Hook) => Execution(h.id, k))
  }

  function WorkFor(executions: seq<Execution>, k: nat): seq<Execution> {
    Filter(executions, (e: Execution) => e.trigger == k)
  }

  lemma WorkOnIsForItsTrigger(hooks: seq<Hook>, made: nat, k: nat)
    ensures WorkFor(WorkOn(hooks, made), k) == if made == k then WorkOn(hooks, k) else []
  {
    var work, mine := WorkOn(hooks, made), (e: Execution) => e.trigger == k;
    assert forall e :: e in work ==> e.trigger == made;
    hide WorkOn;
    if made == k {
      FilterAll(work, mine);
    } else {
      NonemptyHasElement(Filter(work, mine));
    }
  }

  lemma WorkForAppend(a: seq<Execution>, b: seq<Execution>, k: nat)
    ensures WorkFor(a + b, k) == WorkFor(a, k) + WorkFor(b, k)
  {
    FilterAppend(a, b, (e: Execution) => e.trigger == k);
  }

  lemma {:induction false} ExecutionsOfTrigger(hooks: seq<Hook>, first: nat, count: nat, k: nat)
    ensures WorkFor(ExecutionsOf(hooks, first, count), k)
            == if first <= k < first + count then WorkOn(hooks, k) else []
  {
    hide *;
    if count == 0 {
      NoExecutions(hooks, first);
      NoWork(k);
    } else {
      var before, made := ExecutionsOf(hooks, first, count - 1), first + (count - 1);
      ExecutionsOfTrigger(hooks, first, count - 1, k);
      OneTriggerMore(hooks, first, count - 1);
      WorkForAppend(before, WorkOn(hooks, made), k);
      WorkOnIsForItsTrigger(hooks, made, k);
    }
  }

  lemma NoWork(k: nat)
    ensures WorkFor([], k) == []
  {
  }

  lemma OneTriggerMore(hooks: seq<Hook>, first: nat, count: nat)
    ensures ExecutionsOf(hooks, first, count + 1) == ExecutionsOf(hooks, first, count) + WorkOn(hooks, first + count)
  {
    hide ExecutionsOf, Mapped;
    ExecutionsStep(hooks, first, count);
  }

  /**
   * Each new trigger gets one execution per hook that is enabled, waits for telemetry and is for any
   * vehicle or this one, in their order, and no other; what earlier triggers caused is left alone.
   */
  lemma HookWorkIsExact(t: Tables, source: Source, samples: seq<Sample>, hooks: seq<Hook>, now: Instant, k: nat)
    requires Consistent(t) && DistinctIds(samples)
    ensures var after := AfterBatch(t, source, samples, hooks, now);
      && (k < |t.triggers| ==> WorkFor(after.executions, k) == WorkFor(t.executions, k))
      && (|t.triggers| <= k < |after.triggers| ==>
            WorkFor(after.executions, k)
            == Mapped(Filter(hooks, (h: Hook) => h.enabled && h.onTelemetry && (h.vehicleId == None || h.vehicleId == Some(source.vehicleId))),
                      (h: Hook) => Execution(h.id, k)))
  {
    hide *;
    ListeningHooks(hooks, source.vehicleId, k);
    var ordered := Sorted(NewRows(t.log, source, samples), RecordedBefore);
    var added := NewExecutions(hooks, ordered, |t.triggers|);
    ExecutionsAfter(t, source, samples, hooks, now);
    EarlierWorkIsEarlier(t, k);
    NewWork(t.log, source, samples, hooks, |t.triggers|, k);
    WorkForAppend(t.executions, added, k);
  }

  lemma ListeningHooks(hooks: seq<Hook>, vehicleId: string, k: nat)
    ensures WorkOn(Filter(hooks, (h: Hook) => Listens(h, vehicleId)), k)
            == Mapped(Filter(hooks, (h: Hook) => h.enabled && h.onTelemetry && (h.vehicleId == None || h.vehicleId == Some(vehicleId))),
                      (h: Hook) => Execution(h.id, k))
  {
    FilterCongruence(hooks, (h: Hook) => Listens(h, vehicleId),
                     (h: Hook) => h.enabled && h.onTelemetry && (h.vehicleId == None || h.vehicleId == Some(vehicleId)));
  }

  lemma ExecutionsAfter(t: Tables, source: Source, samples: seq<Sample>, hooks: seq<Hook>, now: Instant)
    ensures var after := AfterBatch(t, source, samples, hooks, now); var ordered := Sorted(NewRows(t.log, source, samples), RecordedBefore);
      && after.executions == t.executions + NewExecutions(hooks, ordered, |t.triggers|)
      && after.triggers == t.triggers + TriggersOf(ordered)
  {
    hide NewExecutions, TriggersOf, Sorted, NewRows, Touched, StatesAfter, AppliedAll;
  }

  lemma EarlierWorkIsEarlier(t: Tables, k: nat)
    requires Consistent(t)
    ensures k >= |t.triggers| ==> WorkFor(t.executions, k) == []
  {
    assert TriggersExist(t.executions, |t.triggers|);
    hide Consistent;
    NonemptyHasElement(WorkFor(t.executions, k));
  }

  lemma NewWork(log: seq<Stored>, source: Source, samples: seq<Sample>, hooks: seq<Hook>, first: nat, k: nat)
    requires DistinctIds(samples)
    ensures var ordered := Sorted(NewRows(log, source, samples), RecordedBefore);
      WorkFor(NewExecutions(hooks, ordered, first), k)
      == if first <= k < first + |TriggersOf(ordered)| then WorkOn(Filter(hooks, (h: Hook) => Listens(h, source.vehicleId)), k) else []
  {
    var rows := NewRows(log, source, samples);
    var ordered := Sorted(rows, RecordedBefore);
    NoTriggers();
    hide NewRows, Sorted, TriggersOf, Listens, ExecutionsOf, WorkOn;
    NewRowsAreNew(log, source, samples);
    SortedRowsAreSameRows(rows);
    if ordered != [] {
      var last := ordered[|ordered| - 1];
      assert last in ordered;
      FilterCongruence(hooks, (h: Hook) => Listens(h, source.vehicleId), (h: Hook) => Listens(h, last.vehicleId));
      ExecutionsOfTrigger(Filter(hooks, (h: Hook) => Listens(h, last.vehicleId)), first, |TriggersOf(ordered)|, k);
    }
  }

  /** The new triggers list the new samples by recording time, then sequence, then id. */
  lemma NewTriggersAreChronological(t: Tables, source: Source, samples: seq<Sample>, hooks: seq<Hook>, now: Instant) returns (ordered: seq<Stored>)
    requires DistinctIds(samples)
    ensures var after := AfterBatch(t, source, samples, hooks, now);
      && after.triggers == t.triggers + TriggersOf(ordered)
      && Triggered(TriggersOf(ordered)) == Mapped(ordered, (s: Stored) => s.sample.id)
      && (forall i, j :: 0 <= i < j < |ordered| ==> RecordedBefore(ordered[i], ordered[j]))
      && multiset(ordered) == multiset(NewRows(t.log, source, samples))
  {
    var rows := NewRows(t.log, source, samples);
    ordered := Sorted(rows, RecordedBefore);
    assert AfterBatch(t, source, samples, hooks, now).triggers == t.triggers + TriggersOf(ordered);
    NewRowsAreNew(t.log, source, samples);
    hide AfterBatch, NewRows;
    RecordedOrders();
    SortedIsInOrder(rows, RecordedBefore);
    SortedRowsAreSameRows(rows);
    TriggersNameTheSamples(ordered);
  }

  // The current state.

  /** Whatever order batches come in, the current state of a vehicle never goes back in time. */
  lemma CurrentStateNeverGoesBack(t: Tables, b: Batch, vehicleId: string)
    requires Consistent(t) && DistinctIds(b.samples) && vehicleId in t.states
    ensures vehicleId in AfterReport(t, b).states
    ensures t.states[vehicleId].updatedAt <= AfterReport(t, b).states[vehicleId].updatedAt
  {
    var after := AfterReport(t, b);
    if !b.source.retired {
      IngestionKeepsConsistency(t, b.source, b.samples, b.hooks, b.now);
      BatchIsStored(t, b.source, b.samples, b.hooks, b.now);
      hide AfterBatch;
      assert IsCurrent(t.log, vehicleId, t.states[vehicleId]);
      var named :| Contains(t.log, vehicleId, named) && named.sample.recordedAt == t.states[vehicleId].updatedAt;
      assert named in after.log;
      assert IsCurrent(after.log, vehicleId, after.states[vehicleId]);
      assert Contains(after.log, vehicleId, named);
    }
  }

  /** The agent's own data: the newest sample's win over those before, unless it is older than the state itself. */
  lemma AgentStateFollowsNewest(state: CurrentState, rows: seq<Stored>, newest: Stored, field: string)
    requires newest in rows && forall t :: t in rows && t != newest ==> RecordedBefore(t, newest)
    ensures UpdatedState(Some(state), rows).Some?
    ensures var after := UpdatedState(Some(state), rows).value;
      if newest.sample.recordedAt < state.updatedAt then after.agentState == state.agentState && after.telemetryId == state.telemetryId
      else
        && after.telemetryId == newest.sample.id && after.updatedAt == newest.sample.recordedAt
        && (field in after.agentState <==> field in state.agentState || field in newest.sample.agent)
        && (field in newest.sample.agent ==> after.agentState[field] == newest.sample.agent[field])
        && (field in after.agentState && field !in newest.sample.agent ==> after.agentState[field] == state.agentState[field])
  {
    NewestIsFirstMax(rows, newest);
    hide FirstMax;
  }

  /** The first state of a vehicle is the newest sample's. */
  lemma FirstStateIsNewest(rows: seq<Stored>, newest: Stored)
    requires newest in rows && forall t :: t in rows && t != newest ==> RecordedBefore(t, newest)
    ensures UpdatedState(None, rows) == Some(CurrentState(newest.sample.id, newest.sample.recordedAt, newest.sample.agent))
  {
    NewestIsFirstMax(rows, newest);
    assert map[] + newest.sample.agent == newest.sample.agent;
    hide FirstMax;
  }

  lemma NewestIsFirstMax(rows: seq<Stored>, newest: Stored)
    requires newest in rows && forall t :: t in rows && t != newest ==> RecordedBefore(t, newest)
    ensures FirstMax(rows, RecordedAfter) == newest
  {
    RecordedOrders();
    var at := FirstMaxIsFirst(rows, RecordedAfter);
    var k :| 0 <= k < |rows| && rows[k] == newest;
    assert !RecordedAfter(rows[k], rows[at]);
    assert rows[at] in rows;
    hide FirstMax;
  }

  /** Recorded before means at an earlier instant, or of one instant with a lower sequence number, or of both with a lower id. */
  lemma RecordingOrder(a: Stored, b: Stored)
    ensures a.sample.recordedAt < b.sample.recordedAt ==> RecordedBefore(a, b) && !RecordedBefore(b, a)
    ensures a.sample.recordedAt == b.sample.recordedAt && a.sample.sequence < b.sample.sequence ==> RecordedBefore(a, b) && !RecordedBefore(b, a)
    ensures a.sample.recordedAt == b.sample.recordedAt && a.sample.sequence == b.sample.sequence ==> (RecordedBefore(a, b) <==> a.sample.id < b.sample.id)
  {
  }

  /** A contact's window is the longest interval the batch promises, and at least fifteen seconds. */
  lemma {:induction false} WindowIsLongestPromise(samples: seq<Sample>)
    ensures Liveness(samples) >= 15
    ensures forall s :: s in samples && s.reportingInterval.Some? ==> Liveness(samples) >= s.reportingInterval.value
    ensures Liveness(samples) == 15 || exists s :: s in samples && s.reportingInterval == Some(Liveness(samples))
  {
    if samples != [] {
      var front, last := samples[..|samples| - 1], samples[|samples| - 1];
      WindowIsLongestPromise(front);
      assert samples == front + [last];
    }
  }

  /** The samples of trigger k: ten of them, or what is left. */
  function Chunk(samples: seq<Stored>, k: nat): seq<Stored>
    requires 10 * k < |samples|
  {
    samples[10 * k..Min(10 * k + 10, |samples|)]
  }

  /** A trigger names its samples, and is dated and placed by the last of them. */
  predicate IsTriggerOf(trigger: Trigger, chunk: seq<Stored>) {
    chunk != []
    && var last := chunk[|chunk| - 1];
       && trigger.telemetryIds == Mapped(chunk, (t: Stored) => t.sample.id)
       && trigger.vehicleId == last.vehicleId && trigger.sourceId == last.sourceId && trigger.occurredAt == last.sample.recordedAt
  }

  lemma FirstTrigger(samples: seq<Stored>)
    requires samples != []
    ensures TriggersOf(samples) != [] && IsTriggerOf(TriggersOf(samples)[0], Chunk(samples, 0))
    ensures TriggersOf(samples)[1..] == if |samples| <= 10 then [] else TriggersOf(samples[10..])
  {
    var chunk := Chunk(samples, 0);
    assert if |samples| <= 10 then chunk == samples else chunk == samples[..10];
    assert TriggersOf(samples) == [TriggerOf(chunk)] + if |samples| <= 10 then [] else TriggersOf(samples[10..]);
    TriggerNames(chunk);
    hide *;
  }

  lemma TriggerNames(chunk: seq<Stored>)
    requires chunk != []
    ensures IsTriggerOf(TriggerOf(chunk), chunk)
  {
    hide Mapped;
  }

  lemma LaterChunk(samples: seq<Stored>, k: nat)
    requires k > 0 && 10 * k < |samples|
    ensures Chunk(samples, k) == Chunk(samples[10..], k - 1)
  {
    var end := Min(10 * k + 10, |samples|);
    assert 10 * (k - 1) == 10 * k - 10 && Min(10 * (k - 1) + 10, |samples[10..]|) == end - 10;
    assert samples[10..][10 * k - 10..end - 10] == samples[10 * k..end];
  }

  /** The samples of a batch go to triggers of ten, the last with what is left; each trigger is that of its chunk. */
  lemma {:induction false} TriggersAreFull(samples: seq<Stored>, k: nat)
    ensures |TriggersOf(samples)| == (|samples| + 9) / 10
    ensures k < |TriggersOf(samples)| ==> 10 * k < |samples| && IsTriggerOf(TriggersOf(samples)[k], Chunk(samples, k))
    decreases |samples|
  {
    hide *;
    if samples == [] {
      NoTriggers();
    } else {
      var triggers := TriggersOf(samples);
      FirstTrigger(samples);
      assert triggers == [triggers[0]] + triggers[1..];
      if |samples| > 10 {
        TriggersAreFull(samples[10..], if k == 0 then 0 else k - 1);
        if 0 < k < |triggers| {
          assert triggers[k] == triggers[1..][k - 1];
          LaterChunk(samples, k);
        }
      }
    }
  }

  // Contact periods.

  /** The contacts a run makes with one source: one to each batch it delivers, unless it is retired. */
  function ContactsWith(batches: seq<Batch>, sourceId: string): seq<(Instant, int)> {
    if batches == [] then [] else
    var b := batches[|batches| - 1];
    ContactsWith(batches[..|batches| - 1], sourceId)
    + if b.source.id == sourceId && !b.source.retired then [(b.now, Liveness(b.samples))] else []
  }

  /** Over any run, a source's periods are those of its own contacts and nobody else's. */
  lemma {:induction false} SourcePeriodsAreItsContacts(batches: seq<Batch>, sourceId: string)
    ensures PeriodsOf(AfterRun(batches).periods, sourceId) == TouchedAll([], ContactsWith(batches, sourceId))
  {
    if batches != [] {
      var front, last := batches[..|batches| - 1], batches[|batches| - 1];
      assert AfterRun(batches) == AfterReport(AfterRun(front), last);
      var contacts, contact := ContactsWith(front, sourceId), (last.now, Liveness(last.samples));
      assert ContactsWith(batches, sourceId) == contacts + if last.source.id == sourceId && !last.source.retired then [contact] else [];
      hide AfterRun, AfterReport, ContactsWith, Touched, Liveness;
      SourcePeriodsAreItsContacts(front, sourceId);
      PeriodsAfterReport(AfterRun(front), last, sourceId);
      assert (contacts + [contact])[..|contacts|] == contacts && contacts + [] == contacts;
    }
  }

  lemma PeriodsAfterReport(t: Tables, b: Batch, sourceId: string)
    ensures PeriodsOf(AfterReport(t, b).periods, sourceId)
            == if b.source.id == sourceId && !b.source.retired then Touched(PeriodsOf(t.periods, sourceId), b.now, Liveness(b.samples))
               else PeriodsOf(t.periods, sourceId)
  {
    hide Touched, Liveness;
  }
}
