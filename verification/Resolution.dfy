/**
 * Resolution: which of the competing candidates speaks for the vehicle at an instant, and the
 * charging readings derived when no candidate states them (backend/app/telemetry/resolution.py).
 */
module Resolution {
  import opened Options
  import opened Registry
  import opened Sequences

  datatype Candidate = Candidate(key: Key, value: Value, origin: Provenance)

  /** A fix is a dictionary of fields that are only true together. */
  type Fix = map<string, Value>
  datatype PositionCandidate = PositionCandidate(value: Fix, origin: Provenance)

  datatype Reading = Reading(
    value: Value,
    observedAt: Instant,
    sourceId: string,
    sourceKind: SourceKind,
    channel: Channel,
    technique: Method,
    isFresh: bool)

  datatype ResolvedPosition = ResolvedPosition(
    value: Fix,
    observedAt: Instant,
    sourceId: string,
    sourceKind: SourceKind,
    channel: Channel,
    technique: Method,
    isFresh: bool)

  predicate IsFresh(c: Candidate, now: Instant) {
    ObservationIsFresh(c.key, c.origin, now)
  }

  predicate PositionIsFresh(p: PositionCandidate, now: Instant) {
    ObservationIsFresh(VehicleSpeed, p.origin, now)
  }

  function ReadingOf(c: Candidate, isFresh: bool): Reading {
    Reading(c.value, c.origin.observedAt, c.origin.sourceId, c.origin.sourceKind, c.origin.channel, c.origin.technique, isFresh)
  }

  function ChannelRank(channel: Channel): int {
    match channel
    case Can => 5
    case Obd => 4
    case Gnss => 3
    case Mqtt => 2
    case Derived => 1
  }

  function Directness(technique: Method): int {
    if technique.DirectMethod? then 1 else 0
  }

  /** Direct before derived, then the better channel, then the newer observation. */
  predicate Outranks(a: Candidate, b: Candidate) {
    var da, db := Directness(a.origin.technique), Directness(b.origin.technique);
    var ca, cb := ChannelRank(a.origin.channel), ChannelRank(b.origin.channel);
    da > db || (da == db && (ca > cb || (ca == cb && a.origin.observedAt > b.origin.observedAt)))
  }

  predicate PositionOutranks(a: PositionCandidate, b: PositionCandidate) {
    var da, db := Directness(a.origin.technique), Directness(b.origin.technique);
    da > db || (da == db && a.origin.observedAt > b.origin.observedAt)
  }

  predicate IsUsable(c: Candidate) {
    !c.value.Null?
  }

  predicate IsRoad(c: Candidate) {
    c.origin.channel.Can? || c.origin.channel.Obd?
  }

  function FreshUsable(cs: seq<Candidate>, now: Instant): seq<Candidate> {
    Filter(Filter(cs, IsUsable), c => IsFresh(c, now))
  }

  /** The fresh candidates that compete: a road speed shuts a satellite speed out. */
  function Contenders(key: Key, cs: seq<Candidate>, now: Instant): seq<Candidate> {
    var current := FreshUsable(cs, now);
    var road := Filter(current, IsRoad);
    if key == VehicleSpeed && road != [] then road else current
  }

  function Choose(key: Key, cs: seq<Candidate>, now: Instant): (chosen: Option<Candidate>)
    ensures chosen.Some? ==> chosen.value in cs && IsUsable(chosen.value)
  {
    var contenders := Contenders(key, cs, now);
    if contenders != [] then Some(FirstMax(contenders, Outranks))
    else
      var usable := Filter(cs, IsUsable);
      if usable != [] && RetainsStale(key) then Some(FirstMax(usable, Outranks)) else None
  }

  function OfKey(cs: seq<Candidate>, key: Key): seq<Candidate> {
    Filter(cs, (c: Candidate) => c.key == key)
  }

  function Selected(key: Key, cs: seq<Candidate>, now: Instant): (chosen: Option<Candidate>)
    ensures chosen.Some? ==> chosen.value in cs && chosen.value.key == key && IsUsable(chosen.value)
  {
    Choose(key, OfKey(cs, key), now)
  }

  function DerivedFrom(origin: Candidate, key: Key, value: Value): Candidate {
    Candidate(key, value, origin.origin.(channel := Derived, technique := DerivedMethod))
  }

  function FiniteNumber(value: Value): Option<real> {
    if value.Number? then Some(value.n) else None
  }

  function NumberOf(c: Option<Candidate>): Option<real> {
    if c.Some? then FiniteNumber(c.value.value) else None
  }

  /** Charger power at the floor, or a battery taking at least that much, means charging. */
  predicate LooksCharging(power: Option<real>, batteryPower: Option<real>) {
    || (power.Some? && power.value >= CHARGING_POWER_FLOOR_KW)
    || (batteryPower.Some? && batteryPower.value <= -CHARGING_POWER_FLOOR_KW)
  }

  datatype Charging = Charging(active: Option<bool>, reading: Option<Reading>)

  function ResolveCharging(cs: seq<Candidate>, now: Instant): Charging {
    var explicit := Selected(ChargingActive, cs, now);
    if explicit.Some? && IsFresh(explicit.value, now) then
      Charging(Some(explicit.value.value == Boolean(true)), Some(ReadingOf(explicit.value, true)))
    else
      var evidence := Selected(ChargingPower, cs, now);
      var battery := Selected(BatteryPower, cs, now);
      var origin := if evidence.Some? then evidence else battery;
      if origin.Some? && IsFresh(origin.value, now) then
        var active := LooksCharging(NumberOf(evidence), NumberOf(battery));
        Charging(Some(active), Some(ReadingOf(DerivedFrom(origin.value, ChargingActive, Boolean(active)), true)))
      else
        Charging(None, None)
  }

  function ResolveChargingPower(cs: seq<Candidate>, active: Option<bool>, now: Instant): Option<Reading> {
    var stated := Selected(ChargingPower, cs, now);
    if stated.Some? then Some(ReadingOf(stated.value, IsFresh(stated.value, now)))
    else if active == Some(true) then
      var battery := Selected(BatteryPower, cs, now);
      var power := NumberOf(battery);
      if power.Some? && power.value < 0.0
      then Some(ReadingOf(DerivedFrom(battery.value, ChargingPower, Number(-power.value)), true))
      else None
    else None
  }

  function KeysOf(cs: seq<Candidate>): set<Key> {
    set c | c in cs :: c.key
  }

  predicate IsChargingKey(key: Key) {
    key == ChargingActive || key == ChargingPower
  }

  /** What one key reads, without looking at any other: the specification of the resolver. */
  function ReadingFor(key: Key, cs: seq<Candidate>, now: Instant): Option<Reading> {
    if key == ChargingActive then ResolveCharging(cs, now).reading
    else if key == ChargingPower then ResolveChargingPower(cs, ResolveCharging(cs, now).active, now)
    else
      var selected := Selected(key, cs, now);
      if selected.Some? then Some(ReadingOf(selected.value, IsFresh(selected.value, now))) else None
  }

  function Readings(cs: seq<Candidate>, now: Instant): (readings: map<Key, Reading>)
    ensures forall key :: key in readings <==> ReadingFor(key, cs, now).Some?
    ensures forall key :: key in readings ==> readings[key] == ReadingFor(key, cs, now).value
  {
    var keys := KeysOf(cs) + {ChargingActive, ChargingPower};
    map key | key in keys && ReadingFor(key, cs, now).Some? :: ReadingFor(key, cs, now).value
  }

  function ResolvePosition(ps: seq<PositionCandidate>, now: Instant): Option<ResolvedPosition> {
    if ps == [] then None else
    var current := Filter(ps, p => PositionIsFresh(p, now));
    var selected := FirstMax(if current != [] then current else ps, PositionOutranks);
    Some(ResolvedPosition(selected.value, selected.origin.observedAt, selected.origin.sourceId,
                          selected.origin.sourceKind, selected.origin.channel, selected.origin.technique,
                          PositionIsFresh(selected, now)))
  }

  function Group(byKey: map<Key, seq<Candidate>>, key: Key): seq<Candidate> {
    if key in byKey then byKey[key] else []
  }

  lemma OfKeyExtends(front: seq<Candidate>, c: Candidate, key: Key)
    ensures OfKey(front + [c], key) == if c.key == key then OfKey(front, key) + [c] else OfKey(front, key)
  {
    assert (front + [c])[..|front|] == front;
  }

  method GroupByKey(cs: seq<Candidate>) returns (byKey: map<Key, seq<Candidate>>)
    ensures forall key :: Group(byKey, key) == OfKey(cs, key)
  {
    byKey := map[];
    for i := 0 to |cs|
      invariant forall key :: Group(byKey, key) == OfKey(cs[..i], key)
    {
      var c := cs[i];
      ghost var before := byKey;
      byKey := byKey[c.key := Group(byKey, c.key) + [c]];
      forall key ensures Group(byKey, key) == OfKey(cs[..i + 1], key) {
        assert cs[..i + 1] == cs[..i] + [c];
        OfKeyExtends(cs[..i], c, key);
        assert Group(before, key) == OfKey(cs[..i], key);
      }
    }
    assert cs[..|cs|] == cs;
  }

  lemma AbsentKeyIsUnselected(key: Key, cs: seq<Candidate>, now: Instant)
    requires OfKey(cs, key) == []
    ensures Selected(key, cs, now) == None
  {
  }

  ghost predicate Holds(readings: map<Key, Reading>, key: Key, expected: Option<Reading>) {
    if expected.Some? then key in readings && readings[key] == expected.value else key !in readings
  }

  method ResolvePlainReadings(cs: seq<Candidate>, byKey: map<Key, seq<Candidate>>, now: Instant) returns (readings: map<Key, Reading>)
    requires forall key :: Group(byKey, key) == OfKey(cs, key)
    ensures forall key :: Holds(readings, key, if IsChargingKey(key) then None else ReadingFor(key, cs, now))
  {
    hide IsFresh, Choose;
    readings := map[];
    var remaining := byKey.Keys - {ChargingActive, ChargingPower};
    forall key | key !in byKey ensures Selected(key, cs, now) == None {
      AbsentKeyIsUnselected(key, cs, now);
    }
    while remaining != {}
      invariant remaining <= byKey.Keys - {ChargingActive, ChargingPower}
      invariant forall key ::
        Holds(readings, key, if IsChargingKey(key) || key in remaining then None else ReadingFor(key, cs, now))
      decreases remaining
    {
      var key :| key in remaining;
      remaining := remaining - {key};
      var selected := Choose(key, Group(byKey, key), now);
      assert selected == Selected(key, cs, now);
      if selected.Some? {
        readings := readings[key := ReadingOf(selected.value, IsFresh(selected.value, now))];
      }
    }
  }

  ghost predicate Grouped(byKey: map<Key, seq<Candidate>>, cs: seq<Candidate>) {
    forall key :: Group(byKey, key) == OfKey(cs, key)
  }

  lemma ChosenIsSelected(byKey: map<Key, seq<Candidate>>, cs: seq<Candidate>, key: Key, now: Instant)
    requires Grouped(byKey, cs)
    ensures Choose(key, Group(byKey, key), now) == Selected(key, cs, now)
  {
    hide Choose, Group, OfKey;
  }

  /** Whether the vehicle is charging, and what says so. */
  method ResolveChargingState(cs: seq<Candidate>, byKey: map<Key, seq<Candidate>>, now: Instant) returns (charging: Charging)
    requires Grouped(byKey, cs)
    ensures charging == ResolveCharging(cs, now)
  {
    hide IsFresh, Choose, LooksCharging, OfKey, Group, Grouped, Selected;
    ChosenIsSelected(byKey, cs, ChargingActive, now);
    ChosenIsSelected(byKey, cs, ChargingPower, now);
    ChosenIsSelected(byKey, cs, BatteryPower, now);
    charging := Charging(None, None);
    var explicit := Choose(ChargingActive, Group(byKey, ChargingActive), now);
    if explicit.Some? && IsFresh(explicit.value, now) {
      charging := Charging(Some(explicit.value.value == Boolean(true)), Some(ReadingOf(explicit.value, IsFresh(explicit.value, now))));
    } else {
      var evidence := Choose(ChargingPower, Group(byKey, ChargingPower), now);
      var battery := Choose(BatteryPower, Group(byKey, BatteryPower), now);
      var origin := if evidence.Some? then evidence else battery;
      if origin.Some? && IsFresh(origin.value, now) {
        var active := LooksCharging(NumberOf(evidence), NumberOf(battery));
        charging := Charging(Some(active), Some(ReadingOf(DerivedFrom(origin.value, ChargingActive, Boolean(active)), true)));
      }
    }
  }

  method ResolvePower(cs: seq<Candidate>, byKey: map<Key, seq<Candidate>>, active: Option<bool>, now: Instant) returns (power: Option<Reading>)
    requires Grouped(byKey, cs)
    ensures power == ResolveChargingPower(cs, active, now)
  {
    hide IsFresh, Choose, OfKey, Group, Grouped, Selected;
    ChosenIsSelected(byKey, cs, ChargingPower, now);
    ChosenIsSelected(byKey, cs, BatteryPower, now);
    power := None;
    var direct := Choose(ChargingPower, Group(byKey, ChargingPower), now);
    if direct.Some? {
      power := Some(ReadingOf(direct.value, IsFresh(direct.value, now)));
    } else if active == Some(true) {
      var battery := Choose(BatteryPower, Group(byKey, BatteryPower), now);
      var drawn := NumberOf(battery);
      if drawn.Some? && drawn.value < 0.0 {
        power := Some(ReadingOf(DerivedFrom(battery.value, ChargingPower, Number(-drawn.value)), true));
      }
    }
  }

  function With(readings: map<Key, Reading>, key: Key, reading: Option<Reading>): map<Key, Reading> {
    if reading.Some? then readings[key := reading.value] else readings
  }

  lemma ChargingCompletes(plain: map<Key, Reading>, cs: seq<Candidate>, now: Instant)
    requires forall key :: Holds(plain, key, if IsChargingKey(key) then None else ReadingFor(key, cs, now))
    ensures var charging := ResolveCharging(cs, now);
      With(With(plain, ChargingActive, charging.reading), ChargingPower, ResolveChargingPower(cs, charging.active, now)) == Readings(cs, now)
  {
    hide ResolveCharging, ResolveChargingPower, Selected;
    var charging := ResolveCharging(cs, now);
    var readings := With(With(plain, ChargingActive, charging.reading), ChargingPower, ResolveChargingPower(cs, charging.active, now));
    assert forall key :: Holds(readings, key, ReadingFor(key, cs, now));
    hide ReadingFor;
    assert readings.Keys == Readings(cs, now).Keys;
  }

  method ResolveReadings(cs: seq<Candidate>, now: Instant) returns (readings: map<Key, Reading>)
    ensures readings == Readings(cs, now)
  {
    hide Group, OfKey, Holds, ResolveCharging, ResolveChargingPower, Readings, ReadingFor;
    var byKey := GroupByKey(cs);
    readings := ResolvePlainReadings(cs, byKey, now);
    ChargingCompletes(readings, cs, now);
    var charging := ResolveChargingState(cs, byKey, now);
    if charging.reading.Some? {
      readings := readings[ChargingActive := charging.reading.value];
    }
    var power := ResolvePower(cs, byKey, charging.active, now);
    if power.Some? {
      readings := readings[ChargingPower := power.value];
    }
  }
}
