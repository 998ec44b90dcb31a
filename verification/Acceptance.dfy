/**
 * Which observations of a sample are stored, in the numbers of the registry, and what of a stored
 * sample reaches the candidate rows (backend/app/telemetry/services.py, backend/app/telemetry/registry.py).
 */
module Acceptance {
  import opened Options
  import opened Registry
  import opened Sequences
  import opened Timeline
  import opened Replay
  import opened Ingestion
  import opened Server

  predicate IsFlagKey(key: Key) {
    key in {VehicleReady, VehicleInUse, ChargingActive, VehicleDoorOpen, VehicleHighBeam, VehicleHandbrake, TyreWarning}
  }

  predicate IsTextKey(key: Key) {
    key == VehicleState || key == VehicleLights
  }

  predicate IsPercentage(key: Key) {
    key in {BatterySoc, EngineLoad, EngineThrottle, FuelLevel}
  }

  predicate IsTemperature(key: Key) {
    key == EngineIntakeTemperature || key == EngineCoolantTemperature || key.TyreTemperature?
  }

  /** The range of a registered number. */
  predicate IsInRange(key: Key, n: real) {
    if IsPercentage(key) then 0.0 <= n <= 100.0
    else if IsTemperature(key) then -100.0 <= n <= 300.0
    else if key == VehicleSpeed || key == EngineMaf || key.TyrePressure? then 0.0 <= n <= 1000.0
    else if key == BatteryAuxVoltage then 0.0 <= n <= 30.0
    else key == BatteryCurrent || key == BatteryPower || 0.0 <= n
  }

  /** No value at all, any value of a key the registry does not know, or one of the key's type and range. */
  predicate IsStorable(o: Observation) {
    match o.value
    case Null => true
    case Boolean(_) => o.key.Unregistered? || IsFlagKey(o.key)
    case Text(_) => o.key.Unregistered? || IsTextKey(o.key)
    case Number(n) => o.key.Unregistered? || (!IsFlagKey(o.key) && !IsTextKey(o.key) && IsInRange(o.key, n))
  }

  lemma NormalizedIffStorable(o: Observation)
    ensures NormalizeValue(o.key, o.value) == if IsStorable(o) then Some(o.value) else None
  {
  }

  /** The storable observations are kept as they came and in their order; the others are dropped. */
  lemma {:induction false} AcceptedAreTheStorable(observations: seq<Observation>)
    ensures AcceptedObservations(observations) == Filter(observations, IsStorable)
  {
    hide IsStorable, NormalizeValue;
    if observations != [] {
      AcceptedAreTheStorable(observations[..|observations| - 1]);
      NormalizedIffStorable(observations[|observations| - 1]);
    }
  }

  /** A sample as the log holds it: whole, but for the observations that cannot be stored. */
  function Kept(s: Sample): Sample {
    s.(observations := Filter(s.observations, IsStorable))
  }

  lemma StoredKeepsTheStorable(source: Source, s: Sample)
    ensures StoredOf(source, s) == Stored(source.vehicleId, source.id, Kept(s))
  {
    AcceptedAreTheStorable(s.observations);
    hide IsStorable, AcceptedObservations;
  }

  // What of a stored sample arrives at the candidates.

  /** A candidate row's data are an observation's of a stored sample. */
  predicate Holds(row: ObservationRow, t: Stored, o: Observation) {
    && row.key == o.key && row.value == o.value && row.observedAt == o.observedAt && row.channel == o.channel && row.technique == o.technique
    && row.sourceId == t.sourceId && row.reportingInterval == t.sample.reportingInterval && row.eventDriven == t.sample.eventDriven
  }

  /** Or they are the speed of its position: the receiver's, whatever channel the position came by. */
  predicate HoldsSpeed(row: ObservationRow, t: Stored) {
    t.sample.position.Some?
    && var p := t.sample.position.value;
       && row.key == VehicleSpeed && row.value == (if "speed" in p.value then p.value["speed"] else Null)
       && row.observedAt == p.observedAt && row.channel == Gnss && row.technique == p.technique
       && row.sourceId == t.sourceId && row.reportingInterval == t.sample.reportingInterval && row.eventDriven == t.sample.eventDriven
  }

  /** What a sample brings: each of its observations, and after them its position's speed; nothing else. */
  lemma ArrivalsAreTheSample(t: Stored)
    ensures var arrivals, n := ArrivalsOf(t), |t.sample.observations|;
      && |arrivals| == n + (if t.sample.position.Some? then 1 else 0)
      && (forall i :: 0 <= i < |arrivals| ==> arrivals[i].vehicleId == t.vehicleId && arrivals[i].telemetryId == t.sample.id)
      && (forall i :: 0 <= i < n ==> Holds(arrivals[i].row, t, t.sample.observations[i]) && !arrivals[i].mirrored)
      && (t.sample.position.Some? ==> HoldsSpeed(arrivals[n].row, t) && arrivals[n].mirrored)
  {
  }

  ghost predicate ComesFrom(a: Arrival, t: Stored) {
    && a.vehicleId == t.vehicleId && a.telemetryId == t.sample.id
    && (HoldsSpeed(a.row, t) || exists o :: o in t.sample.observations && Holds(a.row, t, o))
  }

  lemma ArrivalComesFromSample(t: Stored, a: Arrival)
    requires a in ArrivalsOf(t)
    ensures ComesFrom(a, t)
  {
    ArrivalsAreTheSample(t);
    hide ArrivalsOf, Holds, HoldsSpeed;
    var i :| 0 <= i < |ArrivalsOf(t)| && ArrivalsOf(t)[i] == a;
    if i < |t.sample.observations| {
      assert t.sample.observations[i] in t.sample.observations;
    }
  }

  lemma {:induction false} EveryArrivalIsLogged(log: seq<Stored>, a: Arrival)
    requires a in Arrivals(log)
    ensures exists t :: t in log && ComesFrom(a, t)
  {
    hide ComesFrom, ArrivalsOf;
    var front, last := log[..|log| - 1], log[|log| - 1];
    if a in Arrivals(front) {
      EveryArrivalIsLogged(front, a);
    } else {
      ArrivalComesFromSample(last, a);
    }
  }

  lemma {:induction false} EverySampleArrives(log: seq<Stored>, t: Stored, a: Arrival)
    requires t in log && a in ArrivalsOf(t)
    ensures a in Arrivals(log)
  {
    hide ArrivalsOf;
    var front, last := log[..|log| - 1], log[|log| - 1];
    if t in front {
      EverySampleArrives(front, t, a);
    }
  }

  lemma {:induction false} ArrivedIsCandidate(arrivals: seq<Arrival>, a: Arrival)
    requires a in arrivals
    ensures var table := AppliedAll(map[], arrivals);
      ArrivalId(a) in table && table[ArrivalId(a)].row.observedAt >= a.row.observedAt
  {
    hide ArrivalId;
    var front, last := arrivals[..|arrivals| - 1], arrivals[|arrivals| - 1];
    if a in front {
      ArrivedIsCandidate(front, a);
    }
  }

  lemma {:induction false} CandidateArrived(arrivals: seq<Arrival>, id: CandidateId)
    requires id in AppliedAll(map[], arrivals)
    ensures AppliedAll(map[], arrivals)[id] in arrivals && ArrivalId(AppliedAll(map[], arrivals)[id]) == id
  {
    if arrivals != [] {
      var front := arrivals[..|arrivals| - 1];
      if id in AppliedAll(map[], front) {
        CandidateArrived(front, id);
      }
    }
  }

  function IdFor(t: Stored, key: Key, channel: Channel): CandidateId {
    CandidateId(t.vehicleId, Identity(t.sourceId, channel, key))
  }

  /** Every candidate row is a value of a stored sample: an observation of it or its position's speed. */
  lemma CandidateQuotesTheLog(t: Tables, id: CandidateId)
    requires Consistent(t) && id in t.candidates
    ensures exists s :: s in t.log && ComesFrom(t.candidates[id], s)
    ensures var c := t.candidates[id]; id == CandidateId(c.vehicleId, Identity(c.row.sourceId, c.row.channel, c.row.key))
  {
    assert t.candidates == AppliedAll(map[], Arrivals(t.log));
    CandidateArrived(Arrivals(t.log), id);
    hide Consistent, ComesFrom;
    EveryArrivalIsLogged(t.log, t.candidates[id]);
  }

  /** Every stored observation has a candidate row for its source, channel and key, at least as new. */
  lemma StoredObservationHasCandidate(t: Tables, s: Stored, o: Observation)
    requires Consistent(t) && s in t.log && o in s.sample.observations
    ensures var id := IdFor(s, o.key, o.channel); id in t.candidates && t.candidates[id].row.observedAt >= o.observedAt
  {
    assert t.candidates == AppliedAll(map[], Arrivals(t.log));
    hide Consistent;
    ArrivalsAreTheSample(s);
    hide ArrivalsOf;
    var i :| 0 <= i < |s.sample.observations| && s.sample.observations[i] == o;
    var a := ArrivalsOf(s)[i];
    assert ArrivalId(a) == IdFor(s, o.key, o.channel);
    EverySampleArrives(t.log, s, a);
    ArrivedIsCandidate(Arrivals(t.log), a);
  }

  /** And so has the speed of every stored position, under the satellite channel. */
  lemma StoredSpeedHasCandidate(t: Tables, s: Stored)
    requires Consistent(t) && s in t.log && s.sample.position.Some?
    ensures var id := IdFor(s, VehicleSpeed, Gnss); id in t.candidates && t.candidates[id].row.observedAt >= s.sample.position.value.observedAt
  {
    assert t.candidates == AppliedAll(map[], Arrivals(t.log));
    hide Consistent;
    ArrivalsAreTheSample(s);
    hide ArrivalsOf;
    var a := ArrivalsOf(s)[|s.sample.observations|];
    assert ArrivalId(a) == IdFor(s, VehicleSpeed, Gnss);
    EverySampleArrives(t.log, s, a);
    ArrivedIsCandidate(Arrivals(t.log), a);
  }
}
