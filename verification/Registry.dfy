/**
 * The canonical metrics: what each may hold, how long a reading of it stays fresh, and whether
 * the last one is kept after it has gone stale (backend/app/telemetry/registry.py).
 */
module Registry {
  import opened Options
  import opened Numbers

  /** Instants and durations in microseconds, the resolution of a Python datetime. */
  type Instant = int
  type Duration = int

  const SECOND: Duration := 1_000_000
  const FAST_FRESHNESS: Duration := 180 * SECOND
  const SLOW_FRESHNESS: Duration := 900 * SECOND
  const FRESHNESS_INTERVAL_MULTIPLIER := 3
  const CHARGING_POWER_FLOOR_KW := 0.5

  datatype Value = Null | Boolean(flag: bool) | Number(n: real) | Text(text: string)

  datatype Corner = FrontLeft | FrontRight | RearLeft | RearRight

  datatype Key =
    | VehicleSpeed | VehicleOdometer | VehicleRange | VehicleState | VehicleReady | VehicleInUse
    | BatterySoc | BatteryCurrent | BatteryPackVoltage | BatteryAuxVoltage | BatteryPower
    | ChargingActive | ChargingPower | ChargingEnergyAdded | ChargingVoltage | ChargingCurrent
    | EngineRpm | EngineLoad | EngineThrottle | EngineMaf | EngineIntakeTemperature
    | FuelLevel | EngineCoolantTemperature
    | VehicleDoorOpen | VehicleLights | VehicleHighBeam | VehicleHandbrake
    | TyreWarning | TyrePressure(corner: Corner) | TyreTemperature(corner: Corner)
    | Unregistered(name: string)

  datatype ValueType = NumberType | BooleanType | StringType

  datatype MetricDefinition = MetricDefinition(
    valueType: ValueType,
    freshness: Duration,
    retainStale: bool,
    minimum: Option<real>,
    maximum: Option<real>)

  function Quantity(freshness: Duration, retainStale: bool, minimum: Option<real>, maximum: Option<real>): MetricDefinition {
    MetricDefinition(NumberType, freshness, retainStale, minimum, maximum)
  }

  function Condition(valueType: ValueType, freshness: Duration, retainStale: bool): MetricDefinition {
    MetricDefinition(valueType, freshness, retainStale, None, None)
  }

  function DefinitionFor(key: Key): Option<MetricDefinition> {
    match key
    case VehicleSpeed => Some(Quantity(FAST_FRESHNESS, false, Some(0.0), Some(1000.0)))
    case VehicleOdometer => Some(Quantity(SLOW_FRESHNESS, true, Some(0.0), None))
    case VehicleRange => Some(Quantity(SLOW_FRESHNESS, true, Some(0.0), None))
    case VehicleState => Some(Condition(StringType, SLOW_FRESHNESS, true))
    case VehicleReady => Some(Condition(BooleanType, FAST_FRESHNESS, false))
    case VehicleInUse => Some(Condition(BooleanType, FAST_FRESHNESS, false))
    case BatterySoc => Some(Quantity(SLOW_FRESHNESS, true, Some(0.0), Some(100.0)))
    case BatteryCurrent => Some(Quantity(FAST_FRESHNESS, false, None, None))
    case BatteryPackVoltage => Some(Quantity(FAST_FRESHNESS, false, Some(0.0), None))
    case BatteryAuxVoltage => Some(Quantity(SLOW_FRESHNESS, true, Some(0.0), Some(30.0)))
    case BatteryPower => Some(Quantity(FAST_FRESHNESS, false, None, None))
    case ChargingActive => Some(Condition(BooleanType, FAST_FRESHNESS, false))
    case ChargingPower => Some(Quantity(FAST_FRESHNESS, false, Some(0.0), None))
    case ChargingEnergyAdded => Some(Quantity(SLOW_FRESHNESS, true, Some(0.0), None))
    case ChargingVoltage => Some(Quantity(FAST_FRESHNESS, false, Some(0.0), None))
    case ChargingCurrent => Some(Quantity(FAST_FRESHNESS, false, Some(0.0), None))
    case EngineRpm => Some(Quantity(FAST_FRESHNESS, false, Some(0.0), None))
    case EngineLoad => Some(Quantity(FAST_FRESHNESS, false, Some(0.0), Some(100.0)))
    case EngineThrottle => Some(Quantity(FAST_FRESHNESS, false, Some(0.0), Some(100.0)))
    case EngineMaf => Some(Quantity(FAST_FRESHNESS, false, Some(0.0), Some(1000.0)))
    case EngineIntakeTemperature => Some(Quantity(FAST_FRESHNESS, false, Some(-100.0), Some(300.0)))
    case FuelLevel => Some(Quantity(SLOW_FRESHNESS, true, Some(0.0), Some(100.0)))
    case EngineCoolantTemperature => Some(Quantity(FAST_FRESHNESS, false, Some(-100.0), Some(300.0)))
    case VehicleDoorOpen => Some(Condition(BooleanType, FAST_FRESHNESS, true))
    case VehicleLights => Some(Condition(StringType, FAST_FRESHNESS, true))
    case VehicleHighBeam => Some(Condition(BooleanType, FAST_FRESHNESS, true))
    case VehicleHandbrake => Some(Condition(BooleanType, FAST_FRESHNESS, true))
    case TyreWarning => Some(Condition(BooleanType, SLOW_FRESHNESS, true))
    case TyrePressure(_) => Some(Quantity(SLOW_FRESHNESS, true, Some(0.0), Some(1000.0)))
    case TyreTemperature(_) => Some(Quantity(SLOW_FRESHNESS, true, Some(-100.0), Some(300.0)))
    case Unregistered(_) => None
  }

  function FreshnessOf(key: Key): Duration {
    match DefinitionFor(key)
    case Some(definition) => definition.freshness
    case None => SLOW_FRESHNESS
  }

  /** Whether a key keeps its last reading once nothing fresh supports it. */
  predicate RetainsStale(key: Key) {
    match DefinitionFor(key)
    case Some(definition) => definition.retainStale
    case None => true
  }

  datatype SourceKind = AgentSource | ConnectorSource
  datatype Channel = Can | Obd | Gnss | Mqtt | Derived
  datatype Method = DirectMethod | DerivedMethod

  /** Where an observation comes from and everything its freshness depends on. */
  datatype Provenance = Provenance(
    observedAt: Instant,
    sourceId: string,
    sourceKind: SourceKind,
    channel: Channel,
    technique: Method,
    reportingInterval: Option<int>,
    eventDriven: bool,
    lastContactAt: Option<Instant>,
    livenessWindowSeconds: Option<int>)

  predicate ObservationIsFresh(key: Key, p: Provenance, now: Instant) {
    var freshness := FreshnessOf(key);
    if p.eventDriven && p.lastContactAt.Some? then
      var liveness := (if p.livenessWindowSeconds.Some? then p.livenessWindowSeconds.value else 0) * SECOND;
      p.lastContactAt.value >= now - Max(freshness, liveness)
    else
      var stretched := if p.reportingInterval.Some?
        then Max(freshness, FRESHNESS_INTERVAL_MULTIPLIER * p.reportingInterval.value * SECOND)
        else freshness;
      p.observedAt >= now - stretched
  }

  /** The instant `_expiry` computes for the table sweep (backend/app/history/reconstruction.py). */
  function Expiry(key: Key, p: Provenance): Instant {
    var freshness := FreshnessOf(key);
    if p.eventDriven && p.lastContactAt.Some? then
      p.lastContactAt.value
        + Max(freshness, (if p.livenessWindowSeconds.Some? then p.livenessWindowSeconds.value else 0) * SECOND)
    else
      p.observedAt + (if p.reportingInterval.Some?
        then Max(freshness, FRESHNESS_INTERVAL_MULTIPLIER * p.reportingInterval.value * SECOND)
        else freshness)
  }

  /** The sweep and the resolver agree to the microsecond: expiry is the last fresh instant. */
  lemma ExpiryIsLastFreshInstant(key: Key, p: Provenance, now: Instant)
    ensures ObservationIsFresh(key, p, now) <==> now <= Expiry(key, p)
  {
    hide DefinitionFor;
  }

  predicate InBounds(definition: MetricDefinition, n: real) {
    && (definition.minimum.Some? ==> n >= definition.minimum.value)
    && (definition.maximum.Some? ==> n <= definition.maximum.value)
  }

  function Validate(definition: MetricDefinition, value: Value): Option<Value> {
    match definition.valueType
    case BooleanType => if value.Boolean? then Some(value) else None
    case StringType => if value.Text? then Some(value) else None
    case NumberType => if value.Number? && InBounds(definition, value.n) then Some(value) else None
  }

  /** None rejects the observation; Some carries the value to store. */
  function NormalizeValue(key: Key, value: Value): Option<Value> {
    if value.Null? then Some(Null)
    else match DefinitionFor(key)
      case None => Some(value)
      case Some(definition) => Validate(definition, value)
  }
}
