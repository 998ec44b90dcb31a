/** The telemetry server: what each ingestion does to every table, and what every table keeps. */
module Server {
  import opened Options
  import opened Numbers
  import opened Registry
  import opened Sequences
  import opened Sorting
  import opened Contacts
  import opened Ingestion

  ghost predicate Contains(log: seq<Stored>, vehicleId: string, t: Stored) {
    t in log && t.vehicleId == vehicleId
  }

  /** The row is at the newest instant ever recorded for the vehicle and names a sample recorded then. */
  ghost predicate IsCurrent(log: seq<Stored>, vehicleId: string, state: CurrentState) {
    && (forall t :: Contains(log, vehicleId, t) ==> t.sample.recordedAt <= state.updatedAt)
    && (exists t :: Contains(log, vehicleId, t) && t.sample.id == state.telemetryId && t.sample.recordedAt == state.updatedAt)
  }

  ghost predicate StatesAreCurrent(log: seq<Stored>, states: map<string, CurrentState>) {
    && (forall t :: t in log ==> t.vehicleId in states)
    && (forall v :: v in states ==> IsCurrent(log, v, states[v]))
  }

  /** Every stored sample belongs to exactly one trigger, and no trigger has more than ten. */
  ghost predicate TriggersPartition(log: seq<Stored>, triggers: seq<Trigger>) {
    && NoRepeats(Triggered(triggers))
    && (forall id :: id in Triggered(triggers) <==> id in StoredIds(log))
    && (forall i :: 0 <= i < |triggers| ==> 1 <= |triggers[i].telemetryIds| <= HOOK_TRIGGER_SAMPLE_LIMIT)
  }

  ghost predicate DistinctRows(log: seq<Stored>) {
    forall i, j :: 0 <= i < j < |log| ==> log[i].sample.id != log[j].sample.id
  }

  function StateOf(states: map<string, CurrentState>, vehicleId: string): Option<CurrentState> {
    if vehicleId in states then Some(states[vehicleId]) else None
  }

  function PeriodsOf(periods: map<string, seq<Period>>, sourceId: string): seq<Period> {
    if sourceId in periods then periods[sourceId] else []
  }

  /** The next chunk becomes the next trigger. */
  lemma TriggersStep(samples: seq<Stored>, chunk: seq<Stored>, rest: seq<Stored>)
    requires samples == chunk + rest && chunk != []
    requires if |samples| <= HOOK_TRIGGER_SAMPLE_LIMIT then rest == [] else |chunk| == HOOK_TRIGGER_SAMPLE_LIMIT
    ensures TriggersOf(samples) == [TriggerOf(chunk)] + TriggersOf(rest)
  {
    if rest == [] {
      assert samples == chunk;
    } else {
      assert samples[..HOOK_TRIGGER_SAMPLE_LIMIT] == chunk && samples[HOOK_TRIGGER_SAMPLE_LIMIT..] == rest;
    }
  }

  function ChunkLength(samples: seq<Stored>): (n: nat)
    ensures n <= |samples| && (samples != [] ==> 1 <= n <= HOOK_TRIGGER_SAMPLE_LIMIT)
  {
    if |samples| <= HOOK_TRIGGER_SAMPLE_LIMIT then |samples| else HOOK_TRIGGER_SAMPLE_LIMIT
  }

  /** The triggers of a batch name its samples, every one once and in order. */
  lemma {:induction false} TriggersNameTheSamples(samples: seq<Stored>)
    ensures Triggered(TriggersOf(samples)) == Mapped(samples, (t: Stored) => t.sample.id)
    decreases |samples|
  {
    if samples != [] {
      var n := ChunkLength(samples);
      var chunk, rest := samples[..n], samples[n..];
      assert samples == chunk + rest;
      TriggersStep(samples, chunk, rest);
      TriggersNameTheSamples(rest);
      hide TriggersOf;
      MappedAppend(chunk, rest, (t: Stored) => t.sample.id);
      TriggeredAppend([TriggerOf(chunk)], TriggersOf(rest));
      TriggeredOne(TriggerOf(chunk));
      hide Mapped, Triggered;
    }
  }

  lemma TriggeredOne(trigger: Trigger)
    ensures Triggered([trigger]) == trigger.telemetryIds
  {
    assert [trigger][..0] == [];
    assert Triggered([trigger]) == Triggered([]) + trigger.telemetryIds;
  }

  lemma NoTriggers()
    ensures TriggersOf([]) == []
  {
  }

  lemma {:induction false} TriggersAreShort(samples: seq<Stored>)
    ensures forall i :: 0 <= i < |TriggersOf(samples)| ==> 1 <= |TriggersOf(samples)[i].telemetryIds| <= HOOK_TRIGGER_SAMPLE_LIMIT
    decreases |samples|
  {
    if samples != [] {
      var n := ChunkLength(samples);
      TriggersStep(samples, samples[..n], samples[n..]);
      TriggersAreShort(samples[n..]);
      hide TriggersOf;
    }
  }

  lemma {:induction false} TriggeredAppend(a: seq<Trigger>, b: seq<Trigger>)
    ensures Triggered(a + b) == Triggered(a) + Triggered(b)
  {
    if b == [] {
      assert a + b == a;
    } else {
      var front := b[..|b| - 1];
      assert (a + b)[..|a + b| - 1] == a + front;
      TriggeredAppend(a, front);
    }
  }

  lemma {:induction false} ArrivalsAppend(a: seq<Stored>, b: seq<Stored>)
    ensures Arrivals(a + b) == Arrivals(a) + Arrivals(b)
  {
    hide ArrivalsOf;
    if b == [] {
      assert a + b == a;
    } else {
      var front := b[..|b| - 1];
      assert (a + b)[..|a + b| - 1] == a + front;
      ArrivalsAppend(a, front);
    }
  }

  lemma {:induction false} AppliedAllAppend(candidates: CandidateTable, a: seq<Arrival>, b: seq<Arrival>)
    ensures AppliedAll(candidates, a + b) == AppliedAll(AppliedAll(candidates, a), b)
  {
    if b == [] {
      assert a + b == a;
    } else {
      var front := b[..|b| - 1];
      assert (a + b)[..|a + b| - 1] == a + front;
      AppliedAllAppend(candidates, a, front);
    }
  }

  /** The executions a batch adds: one for each of its triggers and each hook that listens to its vehicle. */
  function NewExecutions(hooks: seq<Hook>, samples: seq<Stored>, first: nat): seq<Execution> {
    if samples == [] then []
    else ExecutionsOf(Filter(hooks, (h: Hook) => Listens(h, samples[|samples| - 1].vehicleId)), first, |TriggersOf(samples)|)
  }

  lemma UpdatedStateIsCurrent(log: seq<Stored>, rows: seq<Stored>, vehicleId: string, state: Option<CurrentState>)
    requires rows != [] && forall t :: t in rows ==> t.vehicleId == vehicleId
    requires state.Some? ==> IsCurrent(log, vehicleId, state.value)
    requires state.None? ==> forall t :: t in log ==> t.vehicleId != vehicleId
    ensures UpdatedState(state, rows).Some? && IsCurrent(log + rows, vehicleId, UpdatedState(state, rows).value)
  {
    var newest := NewestIsNewest(rows);
    var after := UpdatedState(state, rows).value;
    assert forall t :: t in log + rows <==> t in log || t in rows;
    if after.telemetryId == newest.sample.id && after.updatedAt == newest.sample.recordedAt {
      assert Contains(log + rows, vehicleId, newest);
    } else {
      var named :| Contains(log, vehicleId, named) && named.sample.id == state.value.telemetryId && named.sample.recordedAt == state.value.updatedAt;
      assert Contains(log + rows, vehicleId, named);
    }
    forall t | Contains(log + rows, vehicleId, t) ensures t.sample.recordedAt <= after.updatedAt {
      if t in log { assert Contains(log, vehicleId, t); }
    }
  }

  lemma NewestIsNewest(rows: seq<Stored>) returns (newest: Stored)
    requires rows != []
    ensures newest == FirstMax(rows, RecordedAfter) && newest in rows
    ensures forall t :: t in rows ==> t.sample.recordedAt <= newest.sample.recordedAt
  {
    RecordedOrders();
    var at := FirstMaxIsFirst(rows, RecordedAfter);
    newest := rows[at];
  }

  lemma RecordedOrders()
    ensures StrictWeakOrder(RecordedBefore) && StrictWeakOrder(RecordedAfter)
  {
  }

  lemma IsCurrentIgnoresOthers(log: seq<Stored>, rows: seq<Stored>, vehicleId: string, state: CurrentState)
    requires IsCurrent(log, vehicleId, state) && forall t :: t in rows ==> t.vehicleId != vehicleId
    ensures IsCurrent(log + rows, vehicleId, state)
  {
    var named :| Contains(log, vehicleId, named) && named.sample.id == state.telemetryId && named.sample.recordedAt == state.updatedAt;
    assert Contains(log + rows, vehicleId, named);
    forall t | Contains(log + rows, vehicleId, t) ensures t.sample.recordedAt <= state.updatedAt {
      assert Contains(log, vehicleId, t);
    }
  }

  lemma {:induction false} PositionsAfterAppend(positions: PositionTable, a: seq<Stored>, b: seq<Stored>)
    ensures PositionsAfter(positions, a + b) == PositionsAfter(PositionsAfter(positions, a), b)
  {
    hide PositionApplied;
    if b == [] {
      assert a + b == a;
    } else {
      var front := b[..|b| - 1];
      assert (a + b)[..|a + b| - 1] == a + front;
      PositionsAfterAppend(positions, a, front);
    }
  }

  lemma PositionsNext(positions: PositionTable, rows: seq<Stored>, t: Stored)
    ensures PositionsAfter(positions, rows + [t]) == PositionApplied(PositionsAfter(positions, rows), t)
  {
    assert (rows + [t])[..|rows|] == rows;
    hide PositionApplied;
  }

  lemma NothingApplied(candidates: CandidateTable, positions: PositionTable)
    ensures AppliedAll(candidates, Arrivals([])) == candidates && PositionsAfter(positions, []) == positions
  {
  }

  lemma SortedOutNothing(log: seq<Stored>, source: Source)
    ensures NewRows(log, source, []) == []
    ensures IdsOf(FreshSamples(log, [])) == IdsOf(KnownSamples(log, [])) == []
  {
  }

  /** A batch one sample longer has one more duplicate or one more new row. */
  lemma SortedOutNext(log: seq<Stored>, source: Source, samples: seq<Sample>, i: nat)
    requires i < |samples|
    ensures var known := samples[i].id in StoredIds(log);
      && NewRows(log, source, samples[..i + 1]) == NewRows(log, source, samples[..i]) + (if known then [] else [StoredOf(source, samples[i])])
      && IdsOf(FreshSamples(log, samples[..i + 1])) == IdsOf(FreshSamples(log, samples[..i])) + (if known then [] else [samples[i].id])
      && IdsOf(KnownSamples(log, samples[..i + 1])) == IdsOf(KnownSamples(log, samples[..i])) + (if known then [samples[i].id] else [])
  {
    hide StoredOf, StoredIds;
    FilterNext(samples, i, (s: Sample) => s.id !in StoredIds(log));
    FilterNext(samples, i, (s: Sample) => s.id in StoredIds(log));
  }

  lemma ArrivalsNext(candidates: CandidateTable, rows: seq<Stored>, t: Stored)
    ensures AppliedAll(candidates, Arrivals(rows + [t])) == AppliedAll(AppliedAll(candidates, Arrivals(rows)), ArrivalsOf(t))
  {
    assert (rows + [t])[..|rows|] == rows;
    AppliedAllAppend(candidates, Arrivals(rows), ArrivalsOf(t));
  }

  lemma NoExecutions(listening: seq<Hook>, first: nat)
    ensures ExecutionsOf(listening, first, 0) == []
  {
  }

  lemma ExecutionsStep(listening: seq<Hook>, first: nat, count: nat)
    ensures ExecutionsOf(listening, first, count + 1)
            == ExecutionsOf(listening, first, count) + Mapped(listening, (h: Hook) => Execution(h.id, first + count))
  {
    assert first + (count + 1) - 1 == first + count;
    var a, b := (h: Hook) => Execution(h.id, first + (count + 1) - 1), (h: Hook) => Execution(h.id, first + count);
    MappedCongruence(listening, a, b);
  }

  ghost predicate AllWellSpaced(periods: map<string, seq<Period>>) {
    forall s :: s in periods ==> WellSpaced(periods[s])
  }

  ghost predicate TriggersExist(executions: seq<Execution>, triggers: nat) {
    forall i :: 0 <= i < |executions| ==> executions[i].trigger < triggers
  }

  lemma {:induction false} FilterKeepsDistinct(samples: seq<Sample>, keep: Sample -> bool)
    requires DistinctIds(samples)
    ensures DistinctIds(Filter(samples, keep))
  {
    if samples != [] {
      var front, last := samples[..|samples| - 1], samples[|samples| - 1];
      FilterKeepsDistinct(front, keep);
      var kept := Filter(front, keep);
      forall i | 0 <= i < |kept| ensures kept[i].id != last.id {
        assert kept[i] in kept;
        var j :| 0 <= j < |front| && front[j] == kept[i];
      }
    }
  }

  /** The rows a batch adds: distinct, new to the log, and all of the reporting source's vehicle. */
  lemma NewRowsAreNew(log: seq<Stored>, source: Source, samples: seq<Sample>)
    requires DistinctIds(samples)
    ensures var rows := NewRows(log, source, samples);
      && DistinctRows(rows)
      && forall t :: t in rows ==> t.vehicleId == source.vehicleId && t.sample.id !in StoredIds(log)
  {
    hide AcceptedObservations, StoredIds;
    var isNew := (s: Sample) => s.id !in StoredIds(log);
    FilterKeepsDistinct(samples, isNew);
    var kept := FreshSamples(log, samples);
    var rows := NewRows(log, source, samples);
    forall i | 0 <= i < |rows| ensures rows[i].vehicleId == source.vehicleId && rows[i].sample.id == kept[i].id && kept[i] in kept {
    }
  }

  lemma LogStaysDistinct(log: seq<Stored>, rows: seq<Stored>)
    requires DistinctRows(log) && DistinctRows(rows) && forall t :: t in rows ==> t.sample.id !in StoredIds(log)
    ensures DistinctRows(log + rows)
  {
    forall i, j | 0 <= i < |log| && 0 <= j < |rows| ensures log[i].sample.id != rows[j].sample.id {
      assert log[i].sample.id in StoredIds(log);
      assert rows[j] in rows;
    }
  }

  lemma StatesStayCurrent(log: seq<Stored>, rows: seq<Stored>, vehicleId: string, states: map<string, CurrentState>)
    requires StatesAreCurrent(log, states) && rows != [] && forall t :: t in rows ==> t.vehicleId == vehicleId
    ensures UpdatedState(StateOf(states, vehicleId), rows).Some?
    ensures StatesAreCurrent(log + rows, states[vehicleId := UpdatedState(StateOf(states, vehicleId), rows).value])
  {
    hide UpdatedState, IsCurrent;
    UpdatedStateIsCurrent(log, rows, vehicleId, StateOf(states, vehicleId));
    forall v | v in states && v != vehicleId ensures IsCurrent(log + rows, v, states[v]) {
      IsCurrentIgnoresOthers(log, rows, v, states[v]);
    }
    assert rows[0] in rows;
  }

  /** Which rows a state is current for does not depend on their order in the log. */
  lemma IsCurrentIgnoresOrder(log: seq<Stored>, other: seq<Stored>, states: map<string, CurrentState>)
    requires StatesAreCurrent(log, states) && forall t :: t in log <==> t in other
    ensures StatesAreCurrent(other, states)
  {
    forall v | v in states ensures IsCurrent(other, v, states[v]) {
      var named :| Contains(log, v, named) && named.sample.id == states[v].telemetryId && named.sample.recordedAt == states[v].updatedAt;
      assert Contains(other, v, named);
      forall t | Contains(other, v, t) ensures t.sample.recordedAt <= states[v].updatedAt {
        assert Contains(log, v, t);
      }
    }
  }

  lemma TriggersStayPartition(log: seq<Stored>, rows: seq<Stored>, triggers: seq<Trigger>)
    requires TriggersPartition(log, triggers)
    requires DistinctRows(rows) && forall t :: t in rows ==> t.sample.id !in StoredIds(log)
    ensures TriggersPartition(log + rows, triggers + TriggersOf(rows))
  {
    TriggersNameTheSamples(rows);
    TriggersAreShort(rows);
    TriggeredAppend(triggers, TriggersOf(rows));
    hide TriggersOf, Triggered;
    var before, added := Triggered(triggers), Mapped(rows, (t: Stored) => t.sample.id);
    assert Triggered(triggers + TriggersOf(rows)) == before + added;
    forall i, j | 0 <= i < |before| && 0 <= j < |added| ensures before[i] != added[j] {
      assert before[i] in before && rows[j] in rows;
    }
    forall id ensures id in before + added <==> id in StoredIds(log + rows) {
      if id in added {
        var j :| 0 <= j < |added| && added[j] == id;
        assert rows[j] in log + rows;
      }
      if id in StoredIds(log) {
        var t :| t in log && t.sample.id == id;
        assert t in log + rows;
      }
      if id in StoredIds(log + rows) {
        var t :| t in log + rows && t.sample.id == id;
        if t in rows {
          var j :| 0 <= j < |rows| && rows[j] == t;
          assert added[j] == id;
        }
      }
    }
  }

  lemma {:induction false} ExecutionsNameTriggers(listening: seq<Hook>, first: nat, count: nat)
    ensures TriggersExist(ExecutionsOf(listening, first, count), first + count)
  {
    if count > 0 {
      ExecutionsNameTriggers(listening, first, count - 1);
    }
  }

  lemma {:induction false} LivenessIsPositive(samples: seq<Sample>)
    ensures Liveness(samples) >= MINIMUM_LIVENESS_SECONDS
  {
    if samples != [] {
      LivenessIsPositive(samples[..|samples| - 1]);
    }
  }

  /** Sorting the new rows changes neither which they are nor their distinctness. */
  lemma SortedRowsAreSameRows(rows: seq<Stored>)
    requires DistinctRows(rows)
    ensures var ordered := Sorted(rows, RecordedBefore);
      && DistinctRows(ordered) && |ordered| == |rows|
      && forall t :: t in ordered <==> t in rows
  {
    RecordedOrders();
    SortedIsInOrder(rows, RecordedBefore);
    var ordered := Sorted(rows, RecordedBefore);
    hide Sorted, RecordedBefore;
    forall t ensures t in ordered <==> t in rows {
      assert t in ordered <==> t in multiset(ordered);
      assert t in rows <==> t in multiset(rows);
    }
    forall i, j | 0 <= i < j < |ordered| ensures ordered[i].sample.id != ordered[j].sample.id {
      DistinctRowsAreSingle(rows, ordered[i]);
      if ordered[i].sample.id == ordered[j].sample.id {
        assert ordered[i] in rows && ordered[j] in rows;
        assert ordered[i] == ordered[j];
        TwicePresent(ordered, i, j);
      }
    }
  }

  lemma {:induction false} DistinctRowsAreSingle(rows: seq<Stored>, t: Stored)
    requires DistinctRows(rows)
    ensures multiset(rows)[t] <= 1
    ensures forall u :: t in rows && u in rows && u.sample.id == t.sample.id ==> u == t
  {
    if rows != [] {
      var front, last := rows[..|rows| - 1], rows[|rows| - 1];
      assert rows == front + [last];
      DistinctRowsAreSingle(front, t);
    }
  }

  lemma TwicePresent<T>(s: seq<T>, i: nat, j: nat)
    requires i < j < |s| && s[i] == s[j]
    ensures multiset(s)[s[i]] >= 2
  {
    assert s == s[..j] + [s[j]] + s[j + 1..];
    assert s[i] in s[..j];
  }

  /** Job i runs execution i, and there is one for each. */
  ghost predicate OneJobEach(jobs: seq<nat>, executions: nat) {
    |jobs| == executions && forall i :: 0 <= i < |jobs| ==> jobs[i] == i
  }

  datatype Tables = Tables(
    log: seq<Stored>,
    candidates: CandidateTable,
    positions: PositionTable,
    states: map<string, CurrentState>,
    periods: map<string, seq<Period>>,
    triggers: seq<Trigger>,
    executions: seq<Execution>,
    jobs: seq<nat>)

  /** What every table keeps of the log, and of each other. */
  ghost predicate Consistent(t: Tables) {
    && DistinctRows(t.log)
    && t.candidates == AppliedAll(map[], Arrivals(t.log))
    && t.positions == PositionsAfter(map[], t.log)
    && StatesAreCurrent(t.log, t.states)
    && AllWellSpaced(t.periods)
    && TriggersPartition(t.log, t.triggers)
    && OneJobEach(t.jobs, |t.executions|)
    && TriggersExist(t.executions, |t.triggers|)
  }

  function EmptyTables(): Tables {
    Tables([], map[], map[], map[], map[], [], [], [])
  }

  function JobsFrom(first: nat, count: nat): (jobs: seq<nat>)
    ensures |jobs| == count && forall i :: 0 <= i < count ==> jobs[i] == first + i
  {
    seq(count, i requires 0 <= i < count => first + i)
  }

  /** What one batch from a source in service does to every table. */
  function AfterBatch(t: Tables, source: Source, samples: seq<Sample>, hooks: seq<Hook>, now: Instant): Tables {
    var rows := NewRows(t.log, source, samples);
    var ordered := Sorted(rows, RecordedBefore);
    var added := NewExecutions(hooks, ordered, |t.triggers|);
    Tables(t.log + rows,
           AppliedAll(t.candidates, Arrivals(rows)),
           PositionsAfter(t.positions, rows),
           StatesAfter(t.states, source.vehicleId, ordered),
           t.periods[source.id := Touched(PeriodsOf(t.periods, source.id), now, Liveness(samples))],
           t.triggers + TriggersOf(ordered),
           t.executions + added,
           t.jobs + JobsFrom(|t.executions|, |added|))
  }

  function StatesAfter(states: map<string, CurrentState>, vehicleId: string, ordered: seq<Stored>): map<string, CurrentState> {
    var state := UpdatedState(StateOf(states, vehicleId), ordered);
    if ordered == [] || state.None? then states else states[vehicleId := state.value]
  }

  lemma StatesAfterAreCurrent(log: seq<Stored>, rows: seq<Stored>, vehicleId: string, states: map<string, CurrentState>)
    requires StatesAreCurrent(log, states) && DistinctRows(rows) && forall t :: t in rows ==> t.vehicleId == vehicleId
    ensures StatesAreCurrent(log + rows, StatesAfter(states, vehicleId, Sorted(rows, RecordedBefore)))
  {
    SortedRowsAreSameRows(rows);
    var ordered := Sorted(rows, RecordedBefore);
    hide Sorted, StatesAreCurrent, UpdatedState;
    if ordered == [] {
      assert log + rows == log;
    } else {
      StatesStayCurrent(log, ordered, vehicleId, states);
      assert forall t :: t in log + ordered <==> t in log + rows;
      IsCurrentIgnoresOrder(log + ordered, log + rows, StatesAfter(states, vehicleId, ordered));
    }
  }

  lemma TriggersAfterPartition(log: seq<Stored>, rows: seq<Stored>, triggers: seq<Trigger>)
    requires TriggersPartition(log, triggers)
    requires DistinctRows(rows) && forall t :: t in rows ==> t.sample.id !in StoredIds(log)
    ensures TriggersPartition(log + rows, triggers + TriggersOf(Sorted(rows, RecordedBefore)))
  {
    SortedRowsAreSameRows(rows);
    var ordered := Sorted(rows, RecordedBefore);
    hide Sorted, TriggersOf, Triggered;
    TriggersStayPartition(log, ordered, triggers);
    assert forall t :: t in log + ordered <==> t in log + rows;
    assert StoredIds(log + ordered) == StoredIds(log + rows);
  }

  lemma NewExecutionsNameTriggers(hooks: seq<Hook>, samples: seq<Stored>, executions: seq<Execution>, triggers: nat)
    requires TriggersExist(executions, triggers)
    ensures TriggersExist(executions + NewExecutions(hooks, samples, triggers), triggers + |TriggersOf(samples)|)
  {
    if samples != [] {
      var listening := Filter(hooks, (h: Hook) => Listens(h, samples[|samples| - 1].vehicleId));
      ExecutionsNameTriggers(listening, triggers, |TriggersOf(samples)|);
    }
    hide ExecutionsOf, TriggersOf;
  }

  lemma CandidatesAfter(log: seq<Stored>, rows: seq<Stored>)
    ensures AppliedAll(AppliedAll(map[], Arrivals(log)), Arrivals(rows)) == AppliedAll(map[], Arrivals(log + rows))
  {
    ArrivalsAppend(log, rows);
    AppliedAllAppend(map[], Arrivals(log), Arrivals(rows));
  }

  lemma NoPeriodsAreSpaced()
    ensures WellSpaced([])
  {
  }

  lemma EmptyTablesAreConsistent()
    ensures Consistent(EmptyTables())
  {
    assert Triggered([]) == [] && StoredIds([]) == {};
  }

  /** An ingestion takes consistent tables to consistent tables. */
  lemma IngestionKeepsConsistency(t: Tables, source: Source, samples: seq<Sample>, hooks: seq<Hook>, now: Instant)
    requires Consistent(t) && DistinctIds(samples)
    ensures Consistent(AfterBatch(t, source, samples, hooks, now))
  {
    var rows := NewRows(t.log, source, samples);
    var ordered := Sorted(rows, RecordedBefore);
    hide NewRows, Sorted, Arrivals, AppliedAll, PositionsAfter, StatesAfter, Touched, TriggersOf, NewExecutions, StatesAreCurrent, Liveness;
    NewRowsAreNew(t.log, source, samples);
    LogStaysDistinct(t.log, rows);
    CandidatesAfter(t.log, rows);
    PositionsAfterAppend(map[], t.log, rows);
    StatesAfterAreCurrent(t.log, rows, source.vehicleId, t.states);
    TriggersAfterPartition(t.log, rows, t.triggers);
    NewExecutionsNameTriggers(hooks, ordered, t.executions, |t.triggers|);
    LivenessIsPositive(samples);
    NoPeriodsAreSpaced();
    hide TriggersPartition, TriggersExist, DistinctRows, OneJobEach, WellSpaced;
    TouchKeepsSpacing(PeriodsOf(t.periods, source.id), now, Liveness(samples));
  }

  class TelemetryServer {
    var log: seq<Stored>
    var candidates: CandidateTable
    var positions: PositionTable
    var states: map<string, CurrentState>
    var periods: map<string, seq<Period>>
    var triggers: seq<Trigger>
    var executions: seq<Execution>
    var jobs: seq<nat>

    ghost function Contents(): Tables
      reads this
    {
      Tables(log, candidates, positions, states, periods, triggers, executions, jobs)
    }

    ghost predicate Valid()
      reads this
    {
      Consistent(Contents())
    }

    constructor ()
      ensures Valid() && Contents() == EmptyTables()
    {
      log, candidates, positions, states, periods, triggers, executions, jobs := [], map[], map[], map[], map[], [], [], [];
      new;
      EmptyTablesAreConsistent();
    }

    method ApplyMetricCandidate(a: Arrival)
      modifies this`candidates
      ensures candidates == Applied(old(candidates), a)
    {
      if ArrivalId(a) in candidates && candidates[ArrivalId(a)].row.observedAt >= a.row.observedAt {
        return;
      }
      candidates := candidates[ArrivalId(a) := a];
    }

    /** The position's own candidate, and the speed it mirrors whether or not it replaced that. */
    method ApplyPositionCandidate(t: Stored)
      modifies this`candidates, this`positions
      ensures positions == PositionApplied(old(positions), t)
      ensures candidates == if t.sample.position.Some? then Applied(old(candidates), SpeedArrival(t, t.sample.position.value)) else old(candidates)
    {
      if t.sample.position.None? {
        return;
      }
      var p := t.sample.position.value;
      var id := PositionIdOf(t, p);
      if id !in positions || positions[id].report.observedAt < p.observedAt {
        positions := positions[id := HeldPosition(t.sample.id, p, t.sample.reportingInterval, t.sample.eventDriven)];
      }
      ApplyMetricCandidate(SpeedArrival(t, p));
    }

    method StoreSample(t: Stored)
      modifies this`log, this`candidates, this`positions
      ensures log == old(log) + [t]
      ensures positions == PositionApplied(old(positions), t)
      ensures candidates == AppliedAll(old(candidates), ArrivalsOf(t))
    {
      log := log + [t];
      var observations := t.sample.observations;
      ghost var arrivals := ArrivalsOf(t);
      for i := 0 to |observations|
        invariant log == old(log) + [t] && positions == old(positions)
        invariant candidates == AppliedAll(old(candidates), arrivals[..i])
      {
        assert arrivals[..i + 1][..i] == arrivals[..i];
        ApplyMetricCandidate(ObservationArrival(t, observations[i]));
      }
      if t.sample.position.Some? {
        assert arrivals[..|observations| + 1][..|observations|] == arrivals[..|observations|];
      }
      ApplyPositionCandidate(t);
      assert arrivals[..|arrivals|] == arrivals;
    }

    method UpdateCurrentState(vehicleId: string, accepted: seq<Stored>)
      modifies this`states
      ensures states == StatesAfter(old(states), vehicleId, accepted)
    {
      if accepted == [] {
        return;
      }
      var newest := FirstMax(accepted, RecordedAfter);
      var at := newest.sample.recordedAt;
      var updatedAt, agentState, telemetryId := at, map[], newest.sample.id;
      if vehicleId in states {
        var state := states[vehicleId];
        updatedAt := Max(at, state.updatedAt);
        agentState := state.agentState;
        if updatedAt != at {
          telemetryId := state.telemetryId;
        }
      }
      if vehicleId !in states || at >= states[vehicleId].updatedAt {
        agentState := agentState + newest.sample.agent;
      }
      states := states[vehicleId := CurrentState(telemetryId, updatedAt, agentState)];
    }

    method AddExecutions(listening: seq<Hook>, trigger: nat)
      modifies this`executions, this`jobs
      ensures executions == old(executions) + Mapped(listening, (h: Hook) => Execution(h.id, trigger))
      ensures jobs == old(jobs) + JobsFrom(|old(executions)|, |listening|)
    {
      ghost var added := Mapped(listening, (h: Hook) => Execution(h.id, trigger));
      for k := 0 to |listening|
        invariant executions == old(executions) + added[..k]
        invariant jobs == old(jobs) + JobsFrom(|old(executions)|, k)
      {
        executions := executions + [Execution(listening[k].id, trigger)];
        jobs := jobs + [|executions| - 1];
      }
      assert added[..|listening|] == added;
    }

    /** The chunk loop: ten samples a trigger, each trigger with its executions and their jobs. */
    method EnqueueTriggers(listening: seq<Hook>, samples: seq<Stored>)
      modifies this`triggers, this`executions, this`jobs
      ensures triggers == old(triggers) + TriggersOf(samples)
      ensures executions == old(executions) + ExecutionsOf(listening, |old(triggers)|, |TriggersOf(samples)|)
      ensures jobs == old(jobs) + JobsFrom(|old(executions)|, |executions| - |old(executions)|)
    {
      hide Listens, TriggersOf, TriggerOf, Mapped, Filter, ExecutionsOf, JobsFrom;
      var offset := 0;
      ghost var first := |triggers|;
      assert samples[0..] == samples;
      NoExecutions(listening, first);
      while offset < |samples|
        invariant 0 <= offset <= |samples|
        invariant first <= |triggers|
        invariant triggers + TriggersOf(samples[offset..]) == old(triggers) + TriggersOf(samples)
        invariant executions == old(executions) + ExecutionsOf(listening, first, |triggers| - first)
        invariant jobs == old(jobs) + JobsFrom(|old(executions)|, |executions| - |old(executions)|)
      {
        var upto := Min(offset + HOOK_TRIGGER_SAMPLE_LIMIT, |samples|);
        var chunk := samples[offset..upto];
        assert samples[offset..] == chunk + samples[upto..];
        TriggersStep(samples[offset..], chunk, samples[upto..]);
        ExecutionsStep(listening, first, |triggers| - first);
        triggers := triggers + [TriggerOf(chunk)];
        AddExecutions(listening, |triggers| - 1);
        offset := upto;
      }
      assert samples[offset..] == [];
      NoTriggers();
    }

    method EnqueueHooks(hooks: seq<Hook>, samples: seq<Stored>)
      modifies this`triggers, this`executions, this`jobs
      ensures triggers == old(triggers) + TriggersOf(samples)
      ensures executions == old(executions) + NewExecutions(hooks, samples, |old(triggers)|)
      ensures jobs == old(jobs) + JobsFrom(|old(executions)|, |NewExecutions(hooks, samples, |old(triggers)|)|)
    {
      if samples == [] {
        return;
      }
      var listening := Filter(hooks, (h: Hook) => Listens(h, samples[|samples| - 1].vehicleId));
      EnqueueTriggers(listening, samples);
    }

    method TouchSourceContact(sourceId: string, at: Instant, windowSeconds: int)
      modifies this`periods
      ensures periods == old(periods)[sourceId := Touched(PeriodsOf(old(periods), sourceId), at, windowSeconds)]
    {
      var known := PeriodsOf(periods, sourceId);
      var latest := LatestPeriod(known);
      if latest.Some? && latest.value.lastContactAt > at {
        return;
      }
      if latest.None? || at > SilentAfter(latest.value) {
        periods := periods[sourceId := known + [Period(at, at, windowSeconds)]];
      } else {
        var extended := latest.value.(lastContactAt := at, windowSeconds := windowSeconds);
        periods := periods[sourceId := known[LatestIndex(known) := extended]];
      }
    }

    /** The batch loop: each sample is a duplicate of the log or joins it. */
    method StoreBatch(source: Source, samples: seq<Sample>)
      returns (accepted: seq<nat>, duplicates: seq<nat>, stored: seq<Stored>)
      modifies this`log, this`candidates, this`positions
      ensures accepted == IdsOf(FreshSamples(old(log), samples))
      ensures duplicates == IdsOf(KnownSamples(old(log), samples))
      ensures stored == NewRows(old(log), source, samples)
      ensures log == old(log) + stored
      ensures candidates == AppliedAll(old(candidates), Arrivals(stored))
      ensures positions == PositionsAfter(old(positions), stored)
    {
      accepted, duplicates, stored := [], [], [];
      var existing := StoredIds(log);
      SortedOutNothing(log, source);
      NothingApplied(candidates, positions);
      hide StoredOf, AppliedAll, PositionsAfter, PositionApplied, ArrivalsOf, StoredIds, Arrivals, FreshSamples, KnownSamples, NewRows, IdsOf;
      for i := 0 to |samples|
        invariant stored == NewRows(old(log), source, samples[..i])
        invariant accepted == IdsOf(FreshSamples(old(log), samples[..i]))
        invariant duplicates == IdsOf(KnownSamples(old(log), samples[..i]))
        invariant log == old(log) + stored
        invariant candidates == AppliedAll(old(candidates), Arrivals(stored))
        invariant positions == PositionsAfter(old(positions), stored)
      {
        var sample := samples[i];
        SortedOutNext(old(log), source, samples, i);
        if sample.id in existing {
          duplicates := duplicates + [sample.id];
        } else {
          var t := StoredOf(source, sample);
          StoreSample(t);
          ArrivalsNext(old(candidates), stored, t);
          PositionsNext(old(positions), stored, t);
          stored := stored + [t];
          accepted := accepted + [sample.id];
        }
      }
      assert samples[..|samples|] == samples;
    }

    method IngestBatch(source: Source, samples: seq<Sample>, hooks: seq<Hook>, now: Instant) returns (outcome: Outcome)
      requires Valid() && DistinctIds(samples)
      modifies this
      ensures Valid()
      ensures source.retired ==> outcome == RetiredSource && unchanged(this)
      ensures !source.retired ==> outcome == Ingested(IdsOf(FreshSamples(old(log), samples)), IdsOf(KnownSamples(old(log), samples)))
      ensures !source.retired ==> Contents() == AfterBatch(old(Contents()), source, samples, hooks, now)
    {
      hide Consistent, NewRows, Sorted, Arrivals, AppliedAll, PositionsAfter, StatesAfter, Touched, TriggersOf, NewExecutions, FreshSamples,
           KnownSamples, IdsOf, Liveness, RecordedBefore, JobsFrom, PeriodsOf;
      if source.retired {
        return RetiredSource;
      }
      var accepted, duplicates, stored := StoreBatch(source, samples);
      var ordered := Sorted(stored, RecordedBefore);
      UpdateCurrentState(source.vehicleId, ordered);
      EnqueueHooks(hooks, ordered);
      TouchSourceContact(source.id, now, Liveness(samples));
      outcome := Ingested(accepted, duplicates);
      IngestionKeepsConsistency(old(Contents()), source, samples, hooks, now);
    }
  }
}
