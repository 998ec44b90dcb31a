/**
 * What a reading says, in the candidates' own values: whose value it is, how the charging readings
 * come out of the numbers, and which candidate is preferred, channel by channel.
 */
module ReadingProperties {
  import opened Options
  import opened Registry
  import opened Sequences
  import opened Resolution
  import opened ResolutionProperties

  // Which keys outlive their freshness, and how long that lasts.

  /** The keys that fall silent once nothing fresh backs them; every other key keeps its last reading. */
  lemma SilentWhenStale(key: Key)
    ensures !RetainsStale(key) <==>
            key in {VehicleSpeed, VehicleReady, VehicleInUse, BatteryCurrent, BatteryPackVoltage, BatteryPower,
                    ChargingActive, ChargingPower, ChargingVoltage, ChargingCurrent,
                    EngineRpm, EngineLoad, EngineThrottle, EngineMaf, EngineIntakeTemperature, EngineCoolantTemperature}
  {
  }

  /** A plain observation stays fresh for three minutes if its key is a fast one, and else for fifteen. */
  lemma PlainFreshness(c: Candidate, now: Instant)
    requires !c.origin.eventDriven && c.origin.reportingInterval.None?
    ensures IsFresh(c, now) <==>
            now - c.origin.observedAt <=
              (if !RetainsStale(c.key) || c.key in {VehicleDoorOpen, VehicleLights, VehicleHighBeam, VehicleHandbrake}
               then 180 else 900) * 1_000_000
  {
  }

  /** A promised interval stretches that to three times the interval, never shortens it. */
  lemma PromisedFreshness(c: Candidate, now: Instant)
    requires !c.origin.eventDriven && c.origin.reportingInterval.Some?
    ensures IsFresh(c, now) <==>
            IsFresh(c.(origin := c.origin.(reportingInterval := None)), now)
            || now - c.origin.observedAt <= 3 * c.origin.reportingInterval.value * 1_000_000
  {
  }

  /**
   * What a source reports only when it changes is as fresh as the last contact with that source, for
   * its key's own time or the source's liveness window, whichever is longer.
   */
  lemma EventDrivenFreshness(c: Candidate, now: Instant)
    requires c.origin.eventDriven && c.origin.lastContactAt.Some?
    ensures var contacted := Provenance(c.origin.lastContactAt.value, c.origin.sourceId, c.origin.sourceKind, c.origin.channel,
                                        c.origin.technique, None, false, None, None);
      IsFresh(c, now) <==>
      || IsFresh(c.(origin := contacted), now)
      || (c.origin.livenessWindowSeconds.Some? && now - c.origin.lastContactAt.value <= c.origin.livenessWindowSeconds.value * 1_000_000)
  {
    LeastFreshness(c.key);
    hide DefinitionFor;
  }

  lemma LeastFreshness(key: Key)
    ensures FreshnessOf(key) >= 180 * SECOND
  {
  }

  /** What an event-driven source without any contact reports ages like anything else. */
  lemma UncontactedFreshness(c: Candidate, now: Instant)
    requires c.origin.eventDriven && c.origin.lastContactAt.None?
    ensures IsFresh(c, now) <==> IsFresh(c.(origin := c.origin.(eventDriven := false)), now)
  {
    hide DefinitionFor;
  }

  // Whose value a reading is.

  /** The reading is a candidate's own: its value, its instant, and where it comes from. */
  predicate Quotes(r: Reading, c: Candidate) {
    && r.value == c.value && r.observedAt == c.origin.observedAt
    && r.sourceId == c.origin.sourceId && r.sourceKind == c.origin.sourceKind
    && r.channel == c.origin.channel && r.technique == c.origin.technique
  }

  /** The reading is worked out from a candidate: its instant and source, but no value or channel of it. */
  predicate DerivesFrom(r: Reading, c: Candidate) {
    && r.observedAt == c.origin.observedAt && r.sourceId == c.origin.sourceId && r.sourceKind == c.origin.sourceKind
    && r.channel == Derived && r.technique == DerivedMethod && r.isFresh
  }

  /**
   * A plain key reads what one of its usable candidates states, and reads fresh exactly when that
   * candidate is. It reads something exactly when a fresh candidate backs it, or any and it is retained.
   */
  lemma PlainReadingQuotesACandidate(key: Key, cs: seq<Candidate>, now: Instant)
    requires key != ChargingActive && key != ChargingPower
    ensures ReadingFor(key, cs, now).Some?
            <==> FreshSupport(key, cs, now) || (RetainsStale(key) && exists c :: Backs(c, key, cs))
    ensures ReadingFor(key, cs, now).Some? ==>
              exists c :: Backs(c, key, cs) && Quotes(ReadingFor(key, cs, now).value, c) && (ReadingFor(key, cs, now).value.isFresh <==> IsFresh(c, now))
  {
    hide IsFresh, RetainsStale, Selected;
    if FreshSupport(key, cs, now) {
      FreshSelectionIsBest(key, cs, now);
    } else {
      StaleSelectionIsRetained(key, cs, now);
    }
    if Selected(key, cs, now).Some? {
      assert Backs(Selected(key, cs, now).value, key, cs);
    }
  }

  /** How good a channel is: the vehicle's own bus first, what the server derives last. */
  predicate NoWorseChannel(a: Channel, b: Channel) {
    match b
    case Can => a.Can?
    case Obd => a.Can? || a.Obd?
    case Gnss => a.Can? || a.Obd? || a.Gnss?
    case Mqtt => !a.Derived?
    case Derived => true
  }

  /** Direct before derived; of one technique the better channel; of one channel the newer. */
  predicate NoWorse(a: Candidate, b: Candidate) {
    && (b.origin.technique.DirectMethod? ==> a.origin.technique.DirectMethod?)
    && (a.origin.technique == b.origin.technique ==>
          && NoWorseChannel(a.origin.channel, b.origin.channel)
          && (a.origin.channel == b.origin.channel ==> a.origin.observedAt >= b.origin.observedAt))
  }

  lemma NotOutrankedIsNoWorse(a: Candidate, b: Candidate)
    ensures !Outranks(b, a) <==> NoWorse(a, b)
  {
  }

  /**
   * The candidate a key speaks through is no worse than any other in play: among the fresh ones while
   * there are any, or else among all; but a fresh speed from the road shuts out every other.
   */
  lemma SelectedIsNoWorse(key: Key, cs: seq<Candidate>, now: Instant, c: Candidate)
    requires Backs(c, key, cs) && (FreshSupport(key, cs, now) ==> IsFresh(c, now)) && Selected(key, cs, now).Some?
    ensures var selected := Selected(key, cs, now).value;
      || NoWorse(selected, c)
      || (key == VehicleSpeed && selected.origin.channel in {Can, Obd} && c.origin.channel !in {Can, Obd})
    ensures key == VehicleSpeed && IsFresh(c, now) && c.origin.channel in {Can, Obd} ==> Selected(key, cs, now).value.origin.channel in {Can, Obd}
  {
    hide IsFresh, RetainsStale, Selected, Outranks, NoWorse;
    NotOutrankedIsNoWorse(Selected(key, cs, now).value, c);
    assert IsFresh(c, now) ==> FreshSupport(key, cs, now);
    if FreshSupport(key, cs, now) {
      FreshSelectionIsBest(key, cs, now);
    } else {
      StaleSelectionIsRetained(key, cs, now);
    }
  }

  // The charging readings in numbers.

  predicate AtLeast(value: Value, bound: real) {
    value.Number? && value.n >= bound
  }

  predicate AtMost(value: Value, bound: real) {
    value.Number? && value.n <= bound
  }

  /** The charging inputs are not retained, so each speaks exactly while something fresh backs it. */
  lemma ChargingInputsSpeakFresh(key: Key, cs: seq<Candidate>, now: Instant)
    requires key == ChargingActive || key == ChargingPower || key == BatteryPower
    ensures Selected(key, cs, now).Some? <==> FreshSupport(key, cs, now)
    ensures Selected(key, cs, now).Some? ==> IsFresh(Selected(key, cs, now).value, now)
  {
    SilentWhenStale(key);
    hide IsFresh, Selected, RetainsStale;
    SelectedIsFreshIffSupported(key, cs, now);
  }

  /** A fresh statement of the charging state is what is read. */
  lemma StatedChargingIsQuoted(cs: seq<Candidate>, now: Instant)
    requires FreshSupport(ChargingActive, cs, now)
    ensures ReadingFor(ChargingActive, cs, now).Some? && Selected(ChargingActive, cs, now).Some?
    ensures Quotes(ReadingFor(ChargingActive, cs, now).value, Selected(ChargingActive, cs, now).value)
  {
    hide IsFresh, Selected, RetainsStale;
    ChargingInputsSpeakFresh(ChargingActive, cs, now);
  }

  /**
   * Without one, a fresh charger power of at least half a kilowatt, or a battery taking as much, reads
   * as charging; any other as not charging.
   */
  lemma ChargerPowerTellsCharging(cs: seq<Candidate>, now: Instant)
    requires !FreshSupport(ChargingActive, cs, now) && FreshSupport(ChargingPower, cs, now)
    ensures Selected(ChargingPower, cs, now).Some? && ReadingFor(ChargingActive, cs, now).Some?
    ensures var charger, battery := Selected(ChargingPower, cs, now).value, Selected(BatteryPower, cs, now);
      var r := ReadingFor(ChargingActive, cs, now).value;
      && DerivesFrom(r, charger)
      && (r.value == Boolean(true) <==> AtLeast(charger.value, 0.5) || (battery.Some? && AtMost(battery.value.value, -0.5)))
      && (r.value == Boolean(true) || r.value == Boolean(false))
  {
    hide IsFresh, Selected, RetainsStale;
    ChargingInputsSpeakFresh(ChargingActive, cs, now);
    ChargingInputsSpeakFresh(ChargingPower, cs, now);
  }

  /** With only the battery speaking, charging is a battery that takes at least half a kilowatt. */
  lemma BatteryTellsCharging(cs: seq<Candidate>, now: Instant)
    requires !FreshSupport(ChargingActive, cs, now) && !FreshSupport(ChargingPower, cs, now) && FreshSupport(BatteryPower, cs, now)
    ensures Selected(BatteryPower, cs, now).Some? && ReadingFor(ChargingActive, cs, now).Some?
    ensures var battery, r := Selected(BatteryPower, cs, now).value, ReadingFor(ChargingActive, cs, now).value;
      && DerivesFrom(r, battery)
      && (r.value == Boolean(true) <==> AtMost(battery.value, -0.5))
      && (r.value == Boolean(true) || r.value == Boolean(false))
  {
    hide IsFresh, Selected, RetainsStale;
    ChargingInputsSpeakFresh(ChargingActive, cs, now);
    ChargingInputsSpeakFresh(ChargingPower, cs, now);
    ChargingInputsSpeakFresh(BatteryPower, cs, now);
  }

  /** A stated charging power is read as stated. */
  lemma StatedPowerIsQuoted(cs: seq<Candidate>, now: Instant)
    requires FreshSupport(ChargingPower, cs, now)
    ensures ReadingFor(ChargingPower, cs, now).Some? && Selected(ChargingPower, cs, now).Some?
    ensures Quotes(ReadingFor(ChargingPower, cs, now).value, Selected(ChargingPower, cs, now).value) && ReadingFor(ChargingPower, cs, now).value.isFresh
  {
    hide IsFresh, Selected, RetainsStale;
    ChargingInputsSpeakFresh(ChargingPower, cs, now);
  }

  /**
   * A power nobody states is read exactly when the vehicle reads as charging and the battery states a
   * negative power; and then it is that power turned round, so positive.
   */
  lemma DerivedPowerIsBatteryPower(cs: seq<Candidate>, now: Instant)
    requires !FreshSupport(ChargingPower, cs, now)
    ensures var battery, charging := Selected(BatteryPower, cs, now), ReadingFor(ChargingActive, cs, now);
      ReadingFor(ChargingPower, cs, now).Some?
      <==> charging.Some? && charging.value.value == Boolean(true) && battery.Some? && battery.value.value.Number? && battery.value.value.n < 0.0
    ensures ReadingFor(ChargingPower, cs, now).Some? ==>
      var battery, r := Selected(BatteryPower, cs, now).value, ReadingFor(ChargingPower, cs, now).value;
      DerivesFrom(r, battery) && battery.value.Number? && r.value == Number(-battery.value.n) && r.value.n > 0.0
  {
    hide IsFresh, Selected, RetainsStale, LooksCharging;
    ChargingInputsSpeakFresh(ChargingActive, cs, now);
    ChargingInputsSpeakFresh(ChargingPower, cs, now);
  }

  // The position.

  /** Of the position candidates the fresh ones are in play, or all when there is none. */
  predicate InPlay(p: PositionCandidate, ps: seq<PositionCandidate>, now: Instant) {
    p in ps && ((exists q :: q in ps && PositionIsFresh(q, now)) ==> PositionIsFresh(p, now))
  }

  /** Direct before derived, then the newer. */
  predicate NoWorsePosition(a: PositionCandidate, b: PositionCandidate) {
    && (b.origin.technique.DirectMethod? ==> a.origin.technique.DirectMethod?)
    && (a.origin.technique == b.origin.technique ==> a.origin.observedAt >= b.origin.observedAt)
  }

  predicate QuotesPosition(r: ResolvedPosition, p: PositionCandidate) {
    && r.value == p.value && r.observedAt == p.origin.observedAt
    && r.sourceId == p.origin.sourceId && r.sourceKind == p.origin.sourceKind
    && r.channel == p.origin.channel && r.technique == p.origin.technique
  }

  /** The position is a candidate's whole fix: one in play, no worse than any other in play. */
  lemma PositionQuotesTheBest(ps: seq<PositionCandidate>, now: Instant)
    ensures ResolvePosition(ps, now).Some? <==> ps != []
    ensures ps != [] ==> exists p ::
      && InPlay(p, ps, now)
      && QuotesPosition(ResolvePosition(ps, now).value, p)
      && (ResolvePosition(ps, now).value.isFresh <==> PositionIsFresh(p, now))
      && forall q :: InPlay(q, ps, now) ==> NoWorsePosition(p, q)
  {
    if ps != [] {
      var current := Filter(ps, p => PositionIsFresh(p, now));
      var contenders := if current != [] then current else ps;
      OutranksIsOrder();
      var at := FirstMaxIsFirst(contenders, PositionOutranks);
      var selected := contenders[at];
      hide PositionIsFresh, Filter, FirstMax;
      NonemptyHasElement(current);
      assert forall p :: InPlay(p, ps, now) <==> p in contenders;
      assert InPlay(selected, ps, now);
      forall q | InPlay(q, ps, now) ensures NoWorsePosition(selected, q) {
        assert q in contenders;
        var i :| 0 <= i < |contenders| && contenders[i] == q;
        assert !PositionOutranks(contenders[i], contenders[at]);
      }
    }
  }

  /** A position is fresh for three minutes, like a speed. */
  lemma PositionFreshness(p: PositionCandidate, now: Instant)
    ensures PositionIsFresh(p, now) <==> IsFresh(Candidate(VehicleSpeed, Null, p.origin), now)
  {
  }
}
