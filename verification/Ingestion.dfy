/**
 * Ingestion: an append-only log of samples, with the candidate rows, current states, contact
 * periods and hook work kept up to date beside it (backend/app/telemetry/services.py).
 */
module Ingestion {
  import opened Options
  import opened Numbers
  import opened Registry
  import opened Sequences
  import opened Resolution
  import opened Timeline
  import opened Replay

  const HOOK_TRIGGER_SAMPLE_LIMIT := 10
  const MINIMUM_LIVENESS_SECONDS := 15

  datatype Observation = Observation(key: Key, value: Value, observedAt: Instant, channel: Channel, technique: Method)
  datatype PositionReport = PositionReport(value: Fix, observedAt: Instant, channel: Channel, technique: Method)

  /** A sample id is a UUID, taken as the number whose order its canonical spelling has. */
  datatype Sample = Sample(
    id: nat,
    sequence: int,
    recordedAt: Instant,
    position: Option<PositionReport>,
    observations: seq<Observation>,
    agent: map<string, Value>,
    reportingInterval: Option<int>,
    eventDriven: bool)

  datatype Source = Source(id: string, vehicleId: string, retired: bool)

  /** A telemetry row with its observation rows and its position row. */
  datatype Stored = Stored(vehicleId: string, sourceId: string, sample: Sample)

  /** The observations whose value the registry accepts, carrying the normalized value. */
  function AcceptedObservations(observations: seq<Observation>): seq<Observation> {
    if observations == [] then [] else
    var front, last := AcceptedObservations(observations[..|observations| - 1]), observations[|observations| - 1];
    var value := NormalizeValue(last.key, last.value);
    if value.Some? then front + [last.(value := value.value)] else front
  }

  function StoredOf(source: Source, sample: Sample): Stored {
    Stored(source.vehicleId, source.id, sample.(observations := AcceptedObservations(sample.observations)))
  }

  function IdsOf(samples: seq<Sample>): (ids: seq<nat>)
    ensures |ids| == |samples|
  {
    Mapped(samples, (s: Sample) => s.id)
  }

  function StoredIds(log: seq<Stored>): set<nat> {
    set t | t in log :: t.sample.id
  }

  ghost predicate DistinctIds(samples: seq<Sample>) {
    forall i, j :: 0 <= i < j < |samples| ==> samples[i].id != samples[j].id
  }

  /** The samples of a batch the log does not hold yet, in batch order. */
  function FreshSamples(log: seq<Stored>, samples: seq<Sample>): seq<Sample> {
    Filter(samples, (s: Sample) => s.id !in StoredIds(log))
  }

  function KnownSamples(log: seq<Stored>, samples: seq<Sample>): seq<Sample> {
    Filter(samples, (s: Sample) => s.id in StoredIds(log))
  }

  function NewRows(log: seq<Stored>, source: Source, samples: seq<Sample>): seq<Stored> {
    Mapped(FreshSamples(log, samples), (s: Sample) => StoredOf(source, s))
  }

  datatype CandidateId = CandidateId(vehicleId: string, identity: Identity)

  /** A metric value on its way to its candidate row; `mirrored` ones come from a position and are not logged. */
  datatype Arrival = Arrival(vehicleId: string, telemetryId: nat, mirrored: bool, row: ObservationRow)

  function ArrivalId(a: Arrival): CandidateId {
    CandidateId(a.vehicleId, RowIdentity(a.row))
  }

  function ObservationArrival(t: Stored, o: Observation): Arrival {
    Arrival(t.vehicleId, t.sample.id, false,
            ObservationRow(o.key, o.value, o.observedAt, t.sourceId, o.channel, o.technique, t.sample.reportingInterval, t.sample.eventDriven))
  }

  function SpeedArrival(t: Stored, p: PositionReport): Arrival {
    Arrival(t.vehicleId, t.sample.id, true,
            ObservationRow(VehicleSpeed, SpeedOf(p.value), p.observedAt, t.sourceId, Gnss, p.technique, t.sample.reportingInterval, t.sample.eventDriven))
  }

  function ArrivalsOf(t: Stored): seq<Arrival> {
    Mapped(t.sample.observations, (o: Observation) => ObservationArrival(t, o))
    + (if t.sample.position.Some? then [SpeedArrival(t, t.sample.position.value)] else [])
  }

  /** Every metric value that ever arrived, in order of arrival. */
  function Arrivals(log: seq<Stored>): seq<Arrival> {
    if log == [] then [] else Arrivals(log[..|log| - 1]) + ArrivalsOf(log[|log| - 1])
  }

  type CandidateTable = map<CandidateId, Arrival>

  /** A candidate row yields only to a strictly newer observation. */
  function Applied(candidates: CandidateTable, a: Arrival): CandidateTable {
    if ArrivalId(a) in candidates && candidates[ArrivalId(a)].row.observedAt >= a.row.observedAt then candidates
    else candidates[ArrivalId(a) := a]
  }

  function AppliedAll(candidates: CandidateTable, arrivals: seq<Arrival>): CandidateTable {
    if arrivals == [] then candidates
    else Applied(AppliedAll(candidates, arrivals[..|arrivals| - 1]), arrivals[|arrivals| - 1])
  }

  /** What a position candidate's row holds, and which vehicle, source and channel it is for. */
  datatype PositionId = PositionId(vehicleId: string, sourceId: string, channel: Channel)
  datatype HeldPosition = HeldPosition(telemetryId: nat, report: PositionReport, reportingInterval: Option<int>, eventDriven: bool)
  type PositionTable = map<PositionId, HeldPosition>

  function PositionIdOf(t: Stored, p: PositionReport): PositionId {
    PositionId(t.vehicleId, t.sourceId, p.channel)
  }

  function HeldPositionOf(t: Stored, p: PositionReport): HeldPosition {
    HeldPosition(t.sample.id, p, t.sample.reportingInterval, t.sample.eventDriven)
  }

  function PositionApplied(positions: PositionTable, t: Stored): PositionTable {
    if t.sample.position.None? then positions
    else
      var p := t.sample.position.value;
      var id := PositionIdOf(t, p);
      if id in positions && positions[id].report.observedAt >= p.observedAt then positions else positions[id := HeldPositionOf(t, p)]
  }

  function PositionsAfter(positions: PositionTable, rows: seq<Stored>): PositionTable {
    if rows == [] then positions else PositionApplied(PositionsAfter(positions, rows[..|rows| - 1]), rows[|rows| - 1])
  }

  datatype CurrentState = CurrentState(telemetryId: nat, updatedAt: Instant, agentState: map<string, Value>)

  predicate RecordedBefore(a: Stored, b: Stored) {
    || a.sample.recordedAt < b.sample.recordedAt
    || (a.sample.recordedAt == b.sample.recordedAt && a.sample.sequence < b.sample.sequence)
    || (a.sample.recordedAt == b.sample.recordedAt && a.sample.sequence == b.sample.sequence && a.sample.id < b.sample.id)
  }

  predicate RecordedAfter(a: Stored, b: Stored) {
    RecordedBefore(b, a)
  }

  /** The current-state row after a batch that stored `accepted`. */
  function UpdatedState(state: Option<CurrentState>, accepted: seq<Stored>): Option<CurrentState> {
    if accepted == [] then state else
    var newest := FirstMax(accepted, RecordedAfter);
    var at := newest.sample.recordedAt;
    var updatedAt := if state.Some? then Max(at, state.value.updatedAt) else at;
    var previousAgent := if state.Some? then state.value.agentState else map[];
    var agentState := if state.None? || at >= state.value.updatedAt then previousAgent + newest.sample.agent else previousAgent;
    var telemetryId := if state.Some? && updatedAt != at then state.value.telemetryId else newest.sample.id;
    Some(CurrentState(telemetryId, updatedAt, agentState))
  }

  datatype Hook = Hook(id: string, enabled: bool, onTelemetry: bool, vehicleId: Option<string>)
  datatype Trigger = Trigger(vehicleId: string, sourceId: string, occurredAt: Instant, telemetryIds: seq<nat>)

  /** An execution names its trigger by its place in the trigger table; job i runs execution i. */
  datatype Execution = Execution(hookId: string, trigger: nat)

  predicate Listens(hook: Hook, vehicleId: string) {
    hook.enabled && hook.onTelemetry && (hook.vehicleId.None? || hook.vehicleId.value == vehicleId)
  }

  function TriggerOf(samples: seq<Stored>): Trigger
    requires samples != []
  {
    var latest := samples[|samples| - 1];
    Trigger(latest.vehicleId, latest.sourceId, latest.sample.recordedAt, Mapped(samples, (t: Stored) => t.sample.id))
  }

  /** At most ten samples to a trigger, in order. */
  function TriggersOf(samples: seq<Stored>): seq<Trigger> {
    if samples == [] then []
    else if |samples| <= HOOK_TRIGGER_SAMPLE_LIMIT then [TriggerOf(samples)]
    else [TriggerOf(samples[..HOOK_TRIGGER_SAMPLE_LIMIT])] + TriggersOf(samples[HOOK_TRIGGER_SAMPLE_LIMIT..])
  }

  /** One execution for every trigger from `first` on and every listening hook. */
  function ExecutionsOf(hooks: seq<Hook>, first: nat, count: nat): seq<Execution> {
    if count == 0 then []
    else ExecutionsOf(hooks, first, count - 1) + Mapped(hooks, (h: Hook) => Execution(h.id, first + count - 1))
  }

  function Triggered(triggers: seq<Trigger>): seq<nat> {
    if triggers == [] then [] else Triggered(triggers[..|triggers| - 1]) + triggers[|triggers| - 1].telemetryIds
  }

  function Liveness(samples: seq<Sample>): int {
    if samples == [] then MINIMUM_LIVENESS_SECONDS else
    var last := samples[|samples| - 1];
    Max(if last.reportingInterval.Some? then last.reportingInterval.value else 0, Liveness(samples[..|samples| - 1]))
  }

  datatype Outcome = Ingested(accepted: seq<nat>, duplicates: seq<nat>) | RetiredSource
}
