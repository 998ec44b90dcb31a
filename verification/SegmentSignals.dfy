/**
 * The groups in terms of what the rows themselves state: which rows begin, continue and end drives
 * and charges, and what the energy and the silence of a charge come to in numbers.
 */
module SegmentSignals {
  import opened Options
  import opened Registry
  import opened Segments
  import opened SegmentProperties
  import opened Charges
  import Text

  predicate States(row: Row, key: Key, flag: bool) {
    key in row.metrics && row.metrics[key] == Boolean(flag)
  }

  predicate StatesNoFlag(row: Row, key: Key) {
    key !in row.metrics || !row.metrics[key].Boolean?
  }

  predicate StatesPowerFrom(row: Row, bound: real) {
    ChargingPower in row.metrics && row.metrics[ChargingPower].Number? && row.metrics[ChargingPower].n >= bound
  }

  predicate StatesPowerBelow(row: Row, bound: real) {
    ChargingPower in row.metrics && row.metrics[ChargingPower].Number? && row.metrics[ChargingPower].n < bound
  }

  /** The stated charging flag, or, without one, a charging power of at least half a kilowatt. */
  predicate SaysCharging(row: Row) {
    States(row, ChargingActive, true) || (StatesNoFlag(row, ChargingActive) && StatesPowerFrom(row, 0.5))
  }

  predicate SaysNotCharging(row: Row) {
    States(row, ChargingActive, false) || (StatesNoFlag(row, ChargingActive) && StatesPowerBelow(row, 0.5))
  }

  /** In use by the vehicle's word, or without one by the agent's, or without either by readiness; but never while charging. */
  predicate SaysInUse(row: Row) {
    !SaysCharging(row)
    && (|| States(row, VehicleInUse, true)
        || (StatesNoFlag(row, VehicleInUse) && row.agentInUse == Boolean(true))
        || (StatesNoFlag(row, VehicleInUse) && !row.agentInUse.Boolean? && States(row, VehicleReady, true)))
  }

  predicate SaysIdle(row: Row) {
    || SaysCharging(row)
    || States(row, VehicleInUse, false)
    || (StatesNoFlag(row, VehicleInUse) && row.agentInUse == Boolean(false))
    || (StatesNoFlag(row, VehicleInUse) && !row.agentInUse.Boolean? && States(row, VehicleReady, false))
  }

  /** A driving state, a speed above one, or, with charging stated to be off, a position other than the row's before. */
  predicate SuggestsDriving(rows: seq<Row>, k: nat, distance: Distance)
    requires k < |rows|
  {
    var row := rows[k];
    || (VehicleState in row.metrics && row.metrics[VehicleState].Text?
        && Text.Lowercase(Text.Stripped(row.metrics[VehicleState].text)) in {"drive", "driving", "moving", "ready", "in_use"})
    || (VehicleSpeed in row.metrics && row.metrics[VehicleSpeed].Number? && row.metrics[VehicleSpeed].n > 1.0)
    || (row.gpsSpeed.Some? && row.gpsSpeed.value > 1.0)
    || (States(row, ChargingActive, false) && k > 0 && rows[k - 1].place.Some? && row.place.Some?
        && distance(rows[k - 1].place.value, row.place.value) > 0.0)
  }

  lemma SignalsSay(row: Row)
    ensures ChargeSignal(row) == if SaysCharging(row) then Some(true) else if SaysNotCharging(row) then Some(false) else None
    ensures DriveSignal(row) == if SaysInUse(row) then Some(true) else if SaysIdle(row) then Some(false) else None
  {
  }

  lemma RowsSay(rows: seq<Row>, distance: Distance, k: nat)
    requires k < |rows|
    ensures Charging(rows, k) <==> SaysCharging(rows[k])
    ensures Unplugged(rows, k) <==> SaysNotCharging(rows[k])
    ensures Signals(rows, k) <==> SaysInUse(rows[k])
    ensures Parked(rows, k) <==> SaysIdle(rows[k])
    ensures Active(rows, distance, k) <==> SaysInUse(rows[k]) || (!SaysIdle(rows[k]) && SuggestsDriving(rows, k, distance))
  {
    SignalsSay(rows[k]);
    hide DriveSignal, ChargeSignal, SaysCharging, SaysNotCharging, SaysInUse, SaysIdle;
  }

  ghost predicate InExactlyOne(spans: seq<Span>, k: int) {
    exists i :: 0 <= i < |spans| && Inside(spans[i], k) && forall j :: 0 <= j < |spans| && Inside(spans[j], k) ==> j == i
  }

  /** A row that says it is charging lies in exactly one charge, and in a drive at most as the last row. */
  lemma ChargingRowLies(rows: seq<Row>, distance: Distance, drives: seq<Span>, charges: seq<Span>, k: nat)
    requires IsDriveGrouping(rows, distance, drives) && IsChargeGrouping(rows, charges) && k < |rows| && SaysCharging(rows[k])
    ensures InExactlyOne(charges, k)
    ensures forall i :: 0 <= i < |drives| && Inside(drives[i], k) ==> drives[i].lo < k == drives[i].hi - 1
  {
    RowsSay(rows, distance, k);
    assert SaysIdle(rows[k]);
    hide SaysCharging, SaysIdle, SaysInUse, SaysNotCharging, Charging, Parked, Active, IsChargeGrouping, IsDriveGrouping;
    var i := ChargingRowInOneCharge(rows, charges, k);
    IdleRowEndsDrives(rows, distance, drives, k);
  }

  /** A row that states neither flag nor power begins and ends no charge. */
  lemma SilentRowBoundsNoCharge(rows: seq<Row>, charges: seq<Span>, distance: Distance, k: nat)
    requires IsChargeGrouping(rows, charges) && k < |rows| && !SaysCharging(rows[k]) && !SaysNotCharging(rows[k])
    ensures forall i :: 0 <= i < |charges| ==> charges[i].lo != k && charges[i].hi - 1 != k
  {
    RowsSay(rows, distance, k);
    hide SaysCharging, SaysNotCharging, Charging, Unplugged;
    forall i | 0 <= i < |charges| ensures charges[i].lo != k && charges[i].hi - 1 != k {
      assert IsCharge(rows, charges[i]);
    }
  }

  /** A row that says charging is off begins no charge, and in one it is the last row. */
  lemma StoppingRowEndsCharges(rows: seq<Row>, charges: seq<Span>, distance: Distance, k: nat)
    requires IsChargeGrouping(rows, charges) && k < |rows| && SaysNotCharging(rows[k])
    ensures forall i :: 0 <= i < |charges| && Inside(charges[i], k) ==> charges[i].lo < k == charges[i].hi - 1
  {
    RowsSay(rows, distance, k);
    assert !SaysCharging(rows[k]);
    hide SaysCharging, SaysNotCharging, Charging, Unplugged;
    forall i | 0 <= i < |charges| && Inside(charges[i], k) ensures charges[i].lo < k == charges[i].hi - 1 {
      assert IsCharge(rows, charges[i]);
    }
  }

  /** A row that says the vehicle is in use lies in exactly one drive, whatever else it states. */
  lemma InUseRowInOneDrive(rows: seq<Row>, distance: Distance, drives: seq<Span>, k: nat)
    requires IsDriveGrouping(rows, distance, drives) && k < |rows| && SaysInUse(rows[k])
    ensures InExactlyOne(drives, k)
  {
    RowsSay(rows, distance, k);
    hide SaysInUse, Active, IsDriveGrouping;
    var i := ActiveRowInOneDrive(rows, distance, drives, k);
  }

  /** A row that says it is not begins no drive, and in one it is the last row. */
  lemma IdleRowEndsDrives(rows: seq<Row>, distance: Distance, drives: seq<Span>, k: nat)
    requires IsDriveGrouping(rows, distance, drives) && k < |rows| && SaysIdle(rows[k])
    ensures forall i :: 0 <= i < |drives| && Inside(drives[i], k) ==> drives[i].lo < k == drives[i].hi - 1
  {
    RowsSay(rows, distance, k);
    assert !SaysInUse(rows[k]);
    hide SaysIdle, SaysInUse, Active, Parked;
    forall i | 0 <= i < |drives| && Inside(drives[i], k) ensures drives[i].lo < k == drives[i].hi - 1 {
      DrivesBeginActive(rows, distance, drives, i);
      assert IsDrive(rows, distance, drives[i]);
    }
  }

  /**
   * A row that says neither lies in exactly one drive if it suggests driving. If it does not, it lies
   * in a drive only strictly between the drive's first row and its last.
   */
  lemma UnsignalledRowLies(rows: seq<Row>, distance: Distance, drives: seq<Span>, k: nat)
    requires IsDriveGrouping(rows, distance, drives) && k < |rows| && !SaysInUse(rows[k]) && !SaysIdle(rows[k])
    ensures SuggestsDriving(rows, k, distance) ==> InExactlyOne(drives, k)
    ensures !SuggestsDriving(rows, k, distance) ==>
              forall i :: 0 <= i < |drives| && Inside(drives[i], k) ==> drives[i].lo < k < drives[i].hi - 1
  {
    RowsSay(rows, distance, k);
    hide SaysIdle, SaysInUse, SuggestsDriving, Active, Parked;
    if Active(rows, distance, k) {
      var i := ActiveRowInOneDrive(rows, distance, drives, k);
    } else {
      forall i | 0 <= i < |drives| && Inside(drives[i], k) ensures drives[i].lo < k < drives[i].hi - 1 {
        DrivesBeginActive(rows, distance, drives, i);
        assert IsDrive(rows, distance, drives[i]);
      }
    }
  }

  /** In use, or suggesting it without being idle. */
  predicate Drives(rows: seq<Row>, k: nat, distance: Distance)
    requires k < |rows|
  {
    SaysInUse(rows[k]) || (!SaysIdle(rows[k]) && SuggestsDriving(rows, k, distance))
  }

  /** Some row said the vehicle is in use, none since has said it is idle, and one still to come says or suggests something. */
  ghost predicate HeldOpen(rows: seq<Row>, distance: Distance, k: nat)
    requires k < |rows|
  {
    && (exists i :: 0 <= i < k && SaysInUse(rows[i]) && forall f :: i < f < k ==> !SaysIdle(rows[f]))
    && (exists n :: k < n < |rows| && (SaysIdle(rows[n]) || Drives(rows, n, distance)))
  }

  /** It lies between two rows of driving under three minutes apart, with no idle one between them. */
  ghost predicate Bridged(rows: seq<Row>, distance: Distance, k: nat)
    requires k < |rows|
  {
    exists j, m :: 0 <= j < k < m < |rows| && Drives(rows, j, distance) && Drives(rows, m, distance)
      && (forall f :: j < f < m ==> !Drives(rows, f, distance) && !SaysIdle(rows[f]))
      && rows[m].recordedAt - rows[j].recordedAt < 180 * 1_000_000
  }

  lemma AllRowsSay(rows: seq<Row>, distance: Distance)
    ensures forall k :: 0 <= k < |rows| ==> (Signals(rows, k) <==> SaysInUse(rows[k]))
    ensures forall k :: 0 <= k < |rows| ==> (Parked(rows, k) <==> SaysIdle(rows[k]))
    ensures forall k :: 0 <= k < |rows| ==> (Active(rows, distance, k) <==> Drives(rows, k, distance))
  {
    forall k | 0 <= k < |rows|
      ensures Signals(rows, k) <==> SaysInUse(rows[k])
      ensures Parked(rows, k) <==> SaysIdle(rows[k])
      ensures Active(rows, distance, k) <==> Drives(rows, k, distance)
    {
      RowsSay(rows, distance, k);
    }
  }

  lemma HeldOpenLies(rows: seq<Row>, distance: Distance, drives: seq<Span>, k: nat)
    requires IsDriveGrouping(rows, distance, drives) && k < |rows| && !SaysIdle(rows[k]) && HeldOpen(rows, distance, k)
    ensures Contained(drives, k)
  {
    AllRowsSay(rows, distance);
    hide SaysInUse, SaysIdle, Drives, Active, Parked, Signals, AreDrives;
    var i :| 0 <= i < k && SaysInUse(rows[i]) && forall f :: i < f < k ==> !SaysIdle(rows[f]);
    var n :| k < n < |rows| && (SaysIdle(rows[n]) || Drives(rows, n, distance));
    ParkedIsInactive(rows, distance, i);
    var s := ActiveRowInOneDrive(rows, distance, drives, i);
    assert Signalled(rows, drives[s].lo, drives[s].hi);
    assert ClosedBySignal(rows, drives[s]) || Quiet(rows, distance, drives[s].hi);
    assert Inside(drives[s], k);
  }

  lemma BridgedLies(rows: seq<Row>, distance: Distance, drives: seq<Span>, k: nat)
    requires IsDriveGrouping(rows, distance, drives) && k < |rows| && Bridged(rows, distance, k)
    ensures Contained(drives, k)
  {
    AllRowsSay(rows, distance);
    hide SaysInUse, SaysIdle, Drives, Active, Parked, Signals, IsDriveGrouping;
    var j, m :| 0 <= j < k < m < |rows| && Drives(rows, j, distance) && Drives(rows, m, distance)
      && (forall f :: j < f < m ==> !Drives(rows, f, distance) && !SaysIdle(rows[f]))
      && rows[m].recordedAt - rows[j].recordedAt < 180 * 1_000_000;
    var s := ActiveRowInOneDrive(rows, distance, drives, j);
    SameDriveIff(rows, distance, drives, s, j, m);
    assert Inside(drives[s], k);
  }

  /** In a drive nobody vouched for before it, a row without evidence lies between two close rows that have it. */
  lemma UnvouchedRowIsBridged(rows: seq<Row>, distance: Distance, s: Span, k: nat) returns (j: nat, m: nat)
    requires IsDrive(rows, distance, s) && s.lo < k < s.hi - 1 && !Active(rows, distance, k) && !Signalled(rows, s.lo, k)
    ensures s.lo <= j < k < m < s.hi && m < |rows| && Consecutive(rows, distance, j, m) && Close(rows, j, m)
  {
    hide Active, Parked, Signals;
    j := LastActiveBefore(rows, distance, s.lo, k);
    if later: int :| k < later < s.hi && Active(rows, distance, later) {
      m := FirstActiveAfter(rows, distance, j, later);
      assert !Signalled(rows, s.lo, m) by {
        SignalsAreActive(rows, distance, s.lo, j, m);
      }
    } else {
      SignalsAreActive(rows, distance, s.lo, j, s.hi - 1);
      assert false;
    }
  }

  lemma LastActiveBefore(rows: seq<Row>, distance: Distance, lo: nat, k: nat) returns (j: nat)
    requires lo < k && Active(rows, distance, lo)
    ensures lo <= j < k && Active(rows, distance, j) && forall i :: j < i < k ==> !Active(rows, distance, i)
  {
    hide Active;
    if Active(rows, distance, k - 1) || k - 1 == lo {
      j := k - 1;
    } else {
      j := LastActiveBefore(rows, distance, lo, k - 1);
    }
  }

  /** When exactly a row without signal or evidence lies in a drive. */
  lemma SilentRowLiesIff(rows: seq<Row>, distance: Distance, drives: seq<Span>, k: nat)
    requires IsDriveGrouping(rows, distance, drives) && k < |rows|
    requires !SaysInUse(rows[k]) && !SaysIdle(rows[k]) && !SuggestsDriving(rows, k, distance)
    ensures Contained(drives, k) <==> HeldOpen(rows, distance, k) || Bridged(rows, distance, k)
  {
    hide *;
    RowsSay(rows, distance, k);
    UnsignalledRowLies(rows, distance, drives, k);
    if HeldOpen(rows, distance, k) {
      HeldOpenLies(rows, distance, drives, k);
    } else if Bridged(rows, distance, k) {
      BridgedLies(rows, distance, drives, k);
    } else if Contained(drives, k) {
      var i := SpanAround(drives, k);
      DrivesBeginActive(rows, distance, drives, i);
      LyingRowIsHeld(rows, distance, drives[i], k);
    }
  }

  lemma VouchedRowIsHeldOpen(rows: seq<Row>, distance: Distance, s: Span, k: nat)
    requires IsDrive(rows, distance, s) && s.lo < k < s.hi - 1 && Signalled(rows, s.lo, k)
    ensures k < |rows| && HeldOpen(rows, distance, k)
  {
    AllRowsSay(rows, distance);
    hide SaysInUse, SaysIdle, Drives, Active, Parked, Signals, HoldsTogether;
    var i :| s.lo <= i < k && Signals(rows, i);
    assert SaysInUse(rows[i]) && forall f :: i < f < k ==> !SaysIdle(rows[f]);
    var n := s.hi - 1;
    assert SaysIdle(rows[n]) || Drives(rows, n, distance);
  }

  lemma CloseRowsBridge(rows: seq<Row>, distance: Distance, s: Span, j: int, k: nat, m: int)
    requires IsDrive(rows, distance, s) && s.lo <= j < k < m < s.hi && Consecutive(rows, distance, j, m) && Close(rows, j, m)
    ensures k < |rows| && Bridged(rows, distance, k)
  {
    AllRowsSay(rows, distance);
    hide SaysInUse, SaysIdle, Drives, Active, Parked, Signals, HoldsTogether;
    assert forall f :: j < f < m ==> !Drives(rows, f, distance) && !SaysIdle(rows[f]);
  }

  lemma LyingRowIsHeld(rows: seq<Row>, distance: Distance, s: Span, k: nat)
    requires IsDrive(rows, distance, s) && k < |rows| && s.lo < k < s.hi - 1 && !Active(rows, distance, k)
    ensures HeldOpen(rows, distance, k) || Bridged(rows, distance, k)
  {
    hide *;
    if Signalled(rows, s.lo, k) {
      VouchedRowIsHeldOpen(rows, distance, s, k);
    } else {
      var j, m := UnvouchedRowIsBridged(rows, distance, s, k);
      CloseRowsBridge(rows, distance, s, j, k, m);
    }
  }

  lemma SpanAround(spans: seq<Span>, k: int) returns (i: nat)
    requires Contained(spans, k)
    ensures i < |spans| && Inside(spans[i], k)
  {
    i :| 0 <= i < |spans| && Inside(spans[i], k);
  }

  function Saying(inUse: Option<bool>, at: Instant): Row {
    Row(at, if inUse.Some? then map[VehicleInUse := Boolean(inUse.value)] else map[], Null, None, None, None)
  }

  /** And there it can lie: between two rows that say the vehicle is in use, a row that suggests nothing is part of their drive. */
  lemma SilentRowCanLieInDrive(distance: Distance)
    ensures var rows := [Saying(Some(true), 0), Saying(None, 1), Saying(Some(true), 2)];
      && !SaysInUse(rows[1]) && !SaysIdle(rows[1]) && !SuggestsDriving(rows, 1, distance)
      && IsDriveGrouping(rows, distance, [Span(0, 3)])
  {
    var rows := [Saying(Some(true), 0), Saying(None, 1), Saying(Some(true), 2)];
    forall k | 0 <= k < 3 ensures (Active(rows, distance, k) <==> k != 1) && !Parked(rows, k) {
      RowsSay(rows, distance, k);
    }
    assert Contained([Span(0, 3)], 0) by { assert Inside([Span(0, 3)][0], 0); }
    assert Contained([Span(0, 3)], 2) by { assert Inside([Span(0, 3)][0], 2); }
    hide DriveSignal, DriveEvidence, SaysInUse, SaysIdle, SuggestsDriving, Parked, Active;
    assert IsDrive(rows, distance, Span(0, 3));
    assert Quiet(rows, distance, 3);
  }

  // Energy.

  predicate StatesPower(row: Row, power: real) {
    ChargingPower in row.metrics && row.metrics[ChargingPower] == Number(power)
  }

  predicate StatesNoPower(row: Row) {
    ChargingPower !in row.metrics || !row.metrics[ChargingPower].Number?
  }

  /**
   * At one power, stated at first and never contradicted, n rows in time order measure all the time
   * between the first and the last, and an energy of that power times the hours.
   */
  lemma {:induction false} SteadyChargeAddsUp(rows: seq<Row>, n: nat, power: real)
    requires 1 <= n <= |rows| && InTimeOrder(rows) && StatesPower(rows[0], power)
    requires forall row :: row in rows ==> StatesPower(row, power) || StatesNoPower(row)
    ensures var e := EnergyUpTo(rows, n);
      && e.duration == rows[n - 1].recordedAt - rows[0].recordedAt
      && e.kwh == power * (e.duration as real) / 3600_000_000.0
      && (n > 1 ==> e.power == Some(power))
  {
    hide *;
    if n > 1 {
      SteadyChargeAddsUp(rows, n - 1, power);
      EnergyNext(rows, n - 1);
      Ascending(rows, n - 1);
      assert rows[n - 2] in rows;
      SteadyStep(EnergyUpTo(rows, n - 1), rows[n - 2], rows[n - 1], power);
    } else {
      NoEnergyYet(rows);
    }
  }

  lemma NoEnergyYet(rows: seq<Row>)
    requires 1 <= |rows|
    ensures EnergyUpTo(rows, 1) == Energy(0.0, 0, None)
  {
  }

  lemma Ascending(rows: seq<Row>, i: nat)
    requires InTimeOrder(rows) && 0 < i < |rows|
    ensures rows[i - 1].recordedAt <= rows[i].recordedAt
  {
  }

  lemma SteadyStep(e: Energy, left: Row, right: Row, power: real)
    requires StatesPower(left, power) || (StatesNoPower(left) && e.power == Some(power))
    requires left.recordedAt <= right.recordedAt && e.kwh == power * (e.duration as real) / 3600_000_000.0
    ensures var after := EnergyStep(e, left, right);
      && after.duration == e.duration + (right.recordedAt - left.recordedAt)
      && after.kwh == power * (after.duration as real) / 3600_000_000.0 && after.power == Some(power)
  {
    AddHours(power, e.duration, right.recordedAt - left.recordedAt);
  }

  lemma AddHours(power: real, duration: Duration, more: Duration)
    ensures power * ((duration + more) as real) / 3600_000_000.0
            == power * (duration as real) / 3600_000_000.0 + power * (more as real) / 3600_000_000.0
  {
    assert (duration + more) as real == duration as real + more as real;
  }

  /** So twelve kilowatts for half an hour are six kilowatt-hours. */
  lemma HalfAnHour(rows: seq<Row>)
    requires |rows| == 2 && StatesPower(rows[0], 12.0) && StatesNoPower(rows[1]) && rows[1].recordedAt == rows[0].recordedAt + 1800 * SECOND
    ensures EnergyUpTo(rows, 2).kwh == 6.0
  {
    SteadyChargeAddsUp(rows, 2, 12.0);
  }

  // Silence.

  /** A row promises its own interval, or three minutes; a gap over three times that counts whole, any other not at all. */
  lemma GapCountsWhole(left: Row, right: Row)
    ensures var promised := if left.reportingInterval == None || left.reportingInterval == Some(0) then 180 else left.reportingInterval.value;
      var gap := right.recordedAt - left.recordedAt;
      UnreportedUpTo([left, right], 2) == if gap > 3 * promised * 1_000_000 then gap else 0
  {
    assert UnreportedUpTo([left, right], 2) == UnreportedUpTo([left, right], 1) + UnreportedIn(left, right);
  }

  /** Cut at any row, the silence is that of both parts. */
  lemma {:induction false} SilenceIsAdditive(rows: seq<Row>, cut: nat, n: nat)
    requires cut < n <= |rows|
    ensures UnreportedUpTo(rows, n) == UnreportedUpTo(rows, cut + 1) + UnreportedUpTo(rows[cut..], n - cut)
  {
    if n > cut + 1 {
      SilenceIsAdditive(rows, cut, n - 1);
      assert rows[cut..][n - cut - 2] == rows[n - 2] && rows[cut..][n - cut - 1] == rows[n - 1];
    }
  }
}
