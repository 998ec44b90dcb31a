/** What resolution promises: how it ranks, how it sees the clock, and the loop that fills the readings. */
module ResolutionProperties {
  import opened Options
  import opened Registry
  import opened Sequences
  import opened Resolution

  lemma OutranksIsOrder()
    ensures StrictWeakOrder(Outranks)
    ensures StrictWeakOrder(PositionOutranks)
  {
  }

  predicate Backs(c: Candidate, key: Key, cs: seq<Candidate>) {
    c in cs && c.key == key && IsUsable(c)
  }

  ghost predicate FreshSupport(key: Key, cs: seq<Candidate>, now: Instant) {
    exists c :: Backs(c, key, cs) && IsFresh(c, now)
  }

  lemma BestIsUnbeaten(s: seq<Candidate>)
    requires s != []
    ensures forall c :: c in s ==> !Outranks(c, FirstMax(s, Outranks))
  {
    OutranksIsOrder();
    var at := FirstMaxIsFirst(s, Outranks);
  }

  /**
   * While anything fresh backs a key, the chosen candidate is fresh and only a road speed may
   * stand above a candidate that outranks it.
   */
  lemma FreshSelectionIsBest(key: Key, cs: seq<Candidate>, now: Instant)
    requires FreshSupport(key, cs, now)
    ensures Selected(key, cs, now).Some? && IsFresh(Selected(key, cs, now).value, now)
    ensures forall c ::
              Backs(c, key, cs) && IsFresh(c, now) && Outranks(c, Selected(key, cs, now).value)
              ==> key == VehicleSpeed && IsRoad(Selected(key, cs, now).value) && !IsRoad(c)
    ensures key == VehicleSpeed && (exists c :: Backs(c, key, cs) && IsFresh(c, now) && IsRoad(c))
      ==> IsRoad(Selected(key, cs, now).value)
  {
    hide IsFresh, RetainsStale, Outranks, IsRoad;
    var current := FreshUsable(OfKey(cs, key), now);
    var road := Filter(current, IsRoad);
    var backing :| Backs(backing, key, cs) && IsFresh(backing, now);
    assert backing in current;
    var contenders := Contenders(key, OfKey(cs, key), now);
    assert contenders == current || contenders == road;
    BestIsUnbeaten(contenders);
    forall c | Backs(c, key, cs) && IsFresh(c, now) ensures c in current && (IsRoad(c) ==> c in road) {
    }
  }

  /** With nothing fresh, only a retained key speaks, and it speaks through its best stale candidate. */
  lemma StaleSelectionIsRetained(key: Key, cs: seq<Candidate>, now: Instant)
    requires !FreshSupport(key, cs, now)
    ensures Selected(key, cs, now).Some? <==> RetainsStale(key) && exists c :: Backs(c, key, cs)
    ensures Selected(key, cs, now).Some? ==> !IsFresh(Selected(key, cs, now).value, now)
    ensures Selected(key, cs, now).Some? ==>
              forall c :: Backs(c, key, cs) ==> !Outranks(c, Selected(key, cs, now).value)
  {
    hide IsFresh, RetainsStale, Outranks, IsRoad;
    NothingFreshContends(key, cs, now);
    var usable := Filter(OfKey(cs, key), IsUsable);
    assert forall c :: Backs(c, key, cs) <==> c in usable;
    hide Contenders, Filter, OfKey, Backs, IsUsable;
    if usable != [] {
      assert usable[0] in usable;
      BestIsUnbeaten(usable);
    }
  }

  lemma NothingFreshContends(key: Key, cs: seq<Candidate>, now: Instant)
    requires !FreshSupport(key, cs, now)
    ensures Contenders(key, OfKey(cs, key), now) == []
    ensures forall c :: Backs(c, key, cs) ==> !IsFresh(c, now)
  {
    hide IsFresh, IsRoad;
    var current := FreshUsable(OfKey(cs, key), now);
    assert forall c :: c in current ==> Backs(c, key, cs) && IsFresh(c, now);
    NonemptyHasElement(current);
  }

  /** Every candidate is as fresh at one instant as at the other. */
  ghost predicate SameFreshness(cs: seq<Candidate>, t: Instant, u: Instant) {
    forall c :: c in cs ==> IsFresh(c, t) == IsFresh(c, u)
  }

  lemma SelectionSeesFreshnessOnly(key: Key, cs: seq<Candidate>, t: Instant, u: Instant)
    requires SameFreshness(cs, t, u)
    ensures Selected(key, cs, t) == Selected(key, cs, u)
  {
    hide IsFresh, RetainsStale;
    var usable := Filter(OfKey(cs, key), IsUsable);
    FilterCongruence(usable, c => IsFresh(c, t), c => IsFresh(c, u));
  }

  lemma ReadingSeesFreshnessOnly(key: Key, cs: seq<Candidate>, t: Instant, u: Instant)
    requires SameFreshness(cs, t, u)
    ensures ReadingFor(key, cs, t) == ReadingFor(key, cs, u)
  {
    hide IsFresh, Selected;
    SelectionSeesFreshnessOnly(key, cs, t, u);
    SelectionSeesFreshnessOnly(ChargingActive, cs, t, u);
    SelectionSeesFreshnessOnly(ChargingPower, cs, t, u);
    SelectionSeesFreshnessOnly(BatteryPower, cs, t, u);
  }

  /** Two instants at which every candidate is equally fresh resolve to the same readings and position. */
  lemma ResolutionSeesClockThroughFreshness(cs: seq<Candidate>, ps: seq<PositionCandidate>, t: Instant, u: Instant)
    requires SameFreshness(cs, t, u)
    requires forall p :: p in ps ==> PositionIsFresh(p, t) == PositionIsFresh(p, u)
    ensures Readings(cs, t) == Readings(cs, u)
    ensures ResolvePosition(ps, t) == ResolvePosition(ps, u)
  {
    hide IsFresh, PositionIsFresh, PositionOutranks, ReadingFor;
    forall key ensures ReadingFor(key, cs, t) == ReadingFor(key, cs, u) {
      ReadingSeesFreshnessOnly(key, cs, t, u);
    }
    FilterCongruence(ps, p => PositionIsFresh(p, t), p => PositionIsFresh(p, u));
  }

  predicate ReadsFresh(key: Key, cs: seq<Candidate>, now: Instant) {
    var reading := ReadingFor(key, cs, now);
    reading.Some? && reading.value.isFresh
  }

  lemma FreshSupportStartsEarlier(key: Key, cs: seq<Candidate>, earlier: Instant, later: Instant)
    requires earlier <= later && FreshSupport(key, cs, later)
    ensures FreshSupport(key, cs, earlier)
  {
    var c :| Backs(c, key, cs) && IsFresh(c, later);
    ExpiryIsLastFreshInstant(c.key, c.origin, later);
    ExpiryIsLastFreshInstant(c.key, c.origin, earlier);
    assert Backs(c, key, cs) && IsFresh(c, earlier);
  }

  lemma SelectedIsFreshIffSupported(key: Key, cs: seq<Candidate>, now: Instant)
    ensures (Selected(key, cs, now).Some? && IsFresh(Selected(key, cs, now).value, now)) <==> FreshSupport(key, cs, now)
    ensures !RetainsStale(key) ==> (Selected(key, cs, now).Some? <==> FreshSupport(key, cs, now))
  {
    hide IsFresh, Selected, RetainsStale;
    if FreshSupport(key, cs, now) {
      FreshSelectionIsBest(key, cs, now);
    } else {
      StaleSelectionIsRetained(key, cs, now);
    }
  }

  /**
   * What a fresh reading rests on: its own fresh candidate, or, for the charging state, a fresh
   * candidate of any of the three charging inputs.
   */
  lemma FreshReadingIffSupported(key: Key, cs: seq<Candidate>, now: Instant)
    requires key != ChargingPower
    ensures ReadsFresh(key, cs, now) <==>
            FreshSupport(key, cs, now)
            || (key == ChargingActive && (FreshSupport(ChargingPower, cs, now) || FreshSupport(BatteryPower, cs, now)))
  {
    hide IsFresh, Selected, LooksCharging;
    SelectedIsFreshIffSupported(key, cs, now);
    SelectedIsFreshIffSupported(ChargingActive, cs, now);
    SelectedIsFreshIffSupported(ChargingPower, cs, now);
    SelectedIsFreshIffSupported(BatteryPower, cs, now);
  }

  /** The charging state is never shown stale: it is fresh or it is not shown. */
  lemma ChargingStateIsNeverStale(cs: seq<Candidate>, now: Instant)
    ensures ReadingFor(ChargingActive, cs, now).Some? ==> ReadsFresh(ChargingActive, cs, now)
  {
  }

  /** For a fixed set of candidates freshness only ever runs out, except for the charging power. */
  lemma FreshnessOnlyRunsOut(key: Key, cs: seq<Candidate>, earlier: Instant, later: Instant)
    requires key != ChargingPower && earlier <= later && ReadsFresh(key, cs, later)
    ensures ReadsFresh(key, cs, earlier)
  {
    hide ReadsFresh, FreshSupport;
    FreshReadingIffSupported(key, cs, later);
    FreshReadingIffSupported(key, cs, earlier);
    if FreshSupport(key, cs, later) { FreshSupportStartsEarlier(key, cs, earlier, later); }
    if FreshSupport(ChargingPower, cs, later) { FreshSupportStartsEarlier(ChargingPower, cs, earlier, later); }
    if FreshSupport(BatteryPower, cs, later) { FreshSupportStartsEarlier(BatteryPower, cs, earlier, later); }
  }

  /** A fresh statement that the vehicle is not charging, or a battery that is not being filled. */
  ghost predicate WithholdsPower(cs: seq<Candidate>, now: Instant) {
    var explicit := Selected(ChargingActive, cs, now);
    var battery := NumberOf(Selected(BatteryPower, cs, now));
    if FreshSupport(ChargingActive, cs, now) && explicit.Some?
    then explicit.value.value != Boolean(true) || battery.None? || battery.value >= 0.0
    else battery.None? || battery.value > -CHARGING_POWER_FLOOR_KW
  }

  /**
   * Charging power is the exception: it reads fresh exactly when a fresh candidate states it or
   * nothing withholds the derived one, so it can appear later than it was last absent.
   */
  lemma ChargingPowerReadsFreshIff(cs: seq<Candidate>, now: Instant)
    ensures ReadsFresh(ChargingPower, cs, now) <==>
            FreshSupport(ChargingPower, cs, now) || !WithholdsPower(cs, now)
  {
    hide IsFresh, Selected;
    SelectedIsFreshIffSupported(ChargingActive, cs, now);
    SelectedIsFreshIffSupported(ChargingPower, cs, now);
    SelectedIsFreshIffSupported(BatteryPower, cs, now);
  }

  /**
   * The exact condition under which the power a fixed set of candidates shows at a later instant
   * was already shown at an earlier one.
   */
  lemma ChargingPowerWasShownEarlierIff(cs: seq<Candidate>, earlier: Instant, later: Instant)
    requires earlier <= later && ReadsFresh(ChargingPower, cs, later)
    ensures ReadsFresh(ChargingPower, cs, earlier) <==>
            FreshSupport(ChargingPower, cs, later) || FreshSupport(ChargingPower, cs, earlier) || !WithholdsPower(cs, earlier)
  {
    hide ReadsFresh, FreshSupport, WithholdsPower;
    ChargingPowerReadsFreshIff(cs, earlier);
    if FreshSupport(ChargingPower, cs, later) {
      FreshSupportStartsEarlier(ChargingPower, cs, earlier, later);
    }
  }

  function Stated(key: Key, value: Value, at: Instant): Candidate {
    Candidate(key, value, Provenance(at, "car", AgentSource, Can, DirectMethod, None, false, None, None))
  }

  lemma SoleCandidateIsSelected(key: Key, cs: seq<Candidate>, c: Candidate, now: Instant)
    requires Backs(c, key, cs) && forall d :: Backs(d, key, cs) ==> d == c
    ensures IsFresh(c, now) ==> Selected(key, cs, now) == Some(c)
    ensures !IsFresh(c, now) && !RetainsStale(key) ==> Selected(key, cs, now) == None
  {
    hide IsFresh, RetainsStale;
    SelectedIsFreshIffSupported(key, cs, now);
    if Selected(key, cs, now).Some? {
      assert Backs(Selected(key, cs, now).value, key, cs);
    }
  }

  lemma StatedIsFresh(key: Key, value: Value, at: Instant, now: Instant)
    requires key == ChargingActive || key == BatteryPower
    ensures IsFresh(Stated(key, value, at), now) <==> now <= at + FAST_FRESHNESS
  {
  }

  function StatedIdleThenDrawing(): seq<Candidate> {
    [Stated(ChargingActive, Boolean(false), 0), Stated(BatteryPower, Number(-5.0), SECOND)]
  }

  lemma DrawingShowsOnceIdleExpires(now: Instant)
    requires now == FAST_FRESHNESS || now == FAST_FRESHNESS + 1
    ensures ReadsFresh(ChargingPower, StatedIdleThenDrawing(), now) <==> now == FAST_FRESHNESS + 1
  {
    hide Selected, IsFresh, RetainsStale, ReadsFresh;
    var cs := StatedIdleThenDrawing();
    StatedIsFresh(ChargingActive, Boolean(false), 0, now);
    StatedIsFresh(BatteryPower, Number(-5.0), SECOND, now);
    SoleCandidateIsSelected(ChargingActive, cs, cs[0], now);
    SoleCandidateIsSelected(BatteryPower, cs, cs[1], now);
    SelectedIsFreshIffSupported(ChargingActive, cs, now);
    assert !FreshSupport(ChargingPower, cs, now);
    ChargingPowerReadsFreshIff(cs, now);
  }

  /** No new data, yet a charging power appears: the statement that hid it has expired. */
  lemma ChargingPowerCanAppearLater()
    ensures exists cs: seq<Candidate>, earlier: Instant, later: Instant ::
              earlier <= later && ReadsFresh(ChargingPower, cs, later) && !ReadsFresh(ChargingPower, cs, earlier)
  {
    hide ReadsFresh, StatedIdleThenDrawing;
    DrawingShowsOnceIdleExpires(FAST_FRESHNESS);
    DrawingShowsOnceIdleExpires(FAST_FRESHNESS + 1);
    assert ReadsFresh(ChargingPower, StatedIdleThenDrawing(), FAST_FRESHNESS + 1);
  }
}
