/** Charges cut out of a vehicle's rows, and the energy and silence in them (backend/app/history/segments.py). */
module Charges {
  import opened Options
  import opened Registry
  import opened Resolution
  import opened Segments
  import opened SegmentProperties

  predicate Charging(rows: seq<Row>, k: int) {
    0 <= k < |rows| && ChargeSignal(rows[k]) == Some(true)
  }

  predicate Unplugged(rows: seq<Row>, k: int) {
    0 <= k < |rows| && ChargeSignal(rows[k]) == Some(false)
  }

  /** A charge starts at a charging row and ends at the reading that stops it, or at its last charging row. */
  ghost predicate IsCharge(rows: seq<Row>, s: Span) {
    && s.lo < s.hi <= |rows|
    && Charging(rows, s.lo)
    && (forall k :: s.lo <= k < s.hi - 1 ==> !Unplugged(rows, k))
    && (Charging(rows, s.hi - 1) || Unplugged(rows, s.hi - 1))
  }

  ghost predicate NothingMore(rows: seq<Row>, from: int) {
    forall k :: from <= k < |rows| ==> !Charging(rows, k) && !Unplugged(rows, k)
  }

  ghost predicate AreCharges(rows: seq<Row>, spans: seq<Span>) {
    Ordered(spans, |rows|) && forall i :: 0 <= i < |spans| ==> IsCharge(rows, spans[i])
  }

  /** Every charge but the last ends where it was unplugged; the last may still be on. */
  ghost predicate EndUnplugged(rows: seq<Row>, spans: seq<Span>) {
    forall i :: 0 <= i < |spans| ==> Unplugged(rows, spans[i].hi - 1) || (i == |spans| - 1 && NothingMore(rows, spans[i].hi))
  }

  ghost predicate IsChargeGrouping(rows: seq<Row>, spans: seq<Span>) {
    && AreCharges(rows, spans)
    && (forall k :: Charging(rows, k) ==> Contained(spans, k))
    && EndUnplugged(rows, spans)
  }

  ghost predicate Closed(rows: seq<Row>, spans: seq<Span>, n: nat) {
    && n <= |rows| && AreCharges(rows, spans)
    && forall i :: 0 <= i < |spans| ==> spans[i].hi <= n && Unplugged(rows, spans[i].hi - 1)
  }

  ghost predicate Seen(rows: seq<Row>, spans: seq<Span>, n: nat, start: Option<nat>) {
    forall k :: k < n && Charging(rows, k) ==> Contained(spans, k) || (start.Some? && start.value <= k)
  }

  /** The charge being built, with its last charging row. */
  ghost predicate Open(rows: seq<Row>, spans: seq<Span>, n: nat, from: nat, last: nat) {
    && from <= last < n <= |rows| && Charging(rows, from) && Charging(rows, last)
    && (spans != [] ==> spans[|spans| - 1].hi <= from)
    && (forall k :: from <= k < n ==> !Unplugged(rows, k))
    && (forall k :: last < k < n ==> !Charging(rows, k))
  }

  /** Where the loop stands before row n. */
  ghost predicate Standing(rows: seq<Row>, spans: seq<Span>, n: nat, start: Option<nat>, last: Option<nat>) {
    && Closed(rows, spans, n) && Seen(rows, spans, n, start)
    && (if start.None? then last.None? else last.Some? && Open(rows, spans, n, start.value, last.value))
  }

  lemma NeverBoth(rows: seq<Row>, k: int)
    ensures !(Charging(rows, k) && Unplugged(rows, k))
    ensures Charging(rows, k) || Unplugged(rows, k) ==> 0 <= k < |rows|
  {
  }

  lemma AreChargesNext(rows: seq<Row>, spans: seq<Span>, s: Span)
    requires AreCharges(rows, spans) && IsCharge(rows, s) && (spans != [] ==> spans[|spans| - 1].hi <= s.lo)
    ensures AreCharges(rows, spans + [s])
  {
    hide Charging, Unplugged;
  }

  lemma SeenInside(rows: seq<Row>, spans: seq<Span>, n: nat, s: Span)
    requires Seen(rows, spans, n, Some(s.lo)) && forall k :: s.hi <= k < n ==> !Charging(rows, k)
    ensures Seen(rows, spans + [s], n, None)
  {
    hide Charging, Contained;
    forall k | k < n && Charging(rows, k) ensures Contained(spans + [s], k) {
      ContainedLonger(spans, s, k);
    }
  }

  lemma SeenNext(rows: seq<Row>, spans: seq<Span>, n: nat, start: Option<nat>)
    requires Seen(rows, spans, n, start) && (!Charging(rows, n) || (start.Some? && start.value <= n))
    ensures Seen(rows, spans, n + 1, start)
  {
    hide Charging, Contained;
  }

  lemma StoppedIsCharge(rows: seq<Row>, spans: seq<Span>, n: nat, start: nat, last: nat)
    requires Open(rows, spans, n, start, last) && Unplugged(rows, n)
    ensures IsCharge(rows, Span(start, n + 1))
  {
    NeverBoth(rows, n);
    hide Charging, Unplugged;
  }

  lemma ClosedNext(rows: seq<Row>, spans: seq<Span>, n: nat, s: Span)
    requires Closed(rows, spans, n) && IsCharge(rows, s) && (spans != [] ==> spans[|spans| - 1].hi <= s.lo)
    requires s.hi == n + 1 && Unplugged(rows, n)
    ensures Closed(rows, spans + [s], n + 1)
  {
    NeverBoth(rows, n);
    AreChargesNext(rows, spans, s);
    hide AreCharges, Charging, Unplugged, IsCharge;
  }

  /** The row that stops a charge closes its group and belongs to it. */
  lemma UnpluggingCloses(rows: seq<Row>, spans: seq<Span>, n: nat, start: nat, last: nat)
    requires Standing(rows, spans, n, Some(start), Some(last)) && Unplugged(rows, n)
    ensures Standing(rows, spans + [Span(start, n + 1)], n + 1, None, None)
  {
    var s := Span(start, n + 1);
    NeverBoth(rows, n);
    hide Charging, Unplugged, Closed, Seen, IsCharge;
    StoppedIsCharge(rows, spans, n, start, last);
    ClosedNext(rows, spans, n, s);
    hide Open;
    SeenNext(rows, spans, n, Some(start));
    SeenInside(rows, spans, n + 1, s);
  }

  lemma RowPasses(rows: seq<Row>, spans: seq<Span>, n: nat, start: Option<nat>, last: Option<nat>)
    requires Standing(rows, spans, n, start, last) && n < |rows| && !Charging(rows, n) && (start.None? || !Unplugged(rows, n))
    ensures Standing(rows, spans, n + 1, start, last)
  {
    hide AreCharges, Charging, Unplugged, Contained;
    SeenNext(rows, spans, n, start);
    hide Seen;
  }

  lemma ChargingRowJoins(rows: seq<Row>, spans: seq<Span>, n: nat, start: Option<nat>, last: Option<nat>)
    requires Standing(rows, spans, n, start, last) && Charging(rows, n)
    ensures Standing(rows, spans, n + 1, if start.Some? then start else Some(n), Some(n))
  {
    NeverBoth(rows, n);
    hide AreCharges, Charging, Unplugged, Contained;
    var from := if start.Some? then start else Some(n);
    assert Seen(rows, spans, n, from);
    SeenNext(rows, spans, n, from);
    hide Seen;
  }

  lemma LastChargeCompletes(rows: seq<Row>, spans: seq<Span>, start: nat, last: nat)
    requires Standing(rows, spans, |rows|, Some(start), Some(last))
    ensures IsChargeGrouping(rows, spans + [Span(start, last + 1)])
  {
    var s := Span(start, last + 1);
    hide Charging, Unplugged, Seen, IsCharge, AreCharges, NothingMore, EndUnplugged;
    OpenIsCharge(rows, spans, start, last);
    SeenInside(rows, spans, |rows|, s);
    AreChargesNext(rows, spans, s);
    EndsUnpluggedNext(rows, spans, s);
    AllSeen(rows, spans + [s]);
  }

  lemma AllSeen(rows: seq<Row>, spans: seq<Span>)
    requires Seen(rows, spans, |rows|, None)
    ensures forall k :: Charging(rows, k) ==> Contained(spans, k)
  {
    assert forall k :: Charging(rows, k) ==> k < |rows|;
    hide Charging, Contained;
  }

  lemma OpenIsCharge(rows: seq<Row>, spans: seq<Span>, start: nat, last: nat)
    requires Open(rows, spans, |rows|, start, last)
    ensures IsCharge(rows, Span(start, last + 1)) && NothingMore(rows, last + 1)
    ensures forall k :: last + 1 <= k < |rows| ==> !Charging(rows, k)
  {
    hide Charging, Unplugged;
  }

  lemma EndsUnpluggedNext(rows: seq<Row>, spans: seq<Span>, s: Span)
    requires Closed(rows, spans, |rows|) && NothingMore(rows, s.hi)
    ensures EndUnplugged(rows, spans + [s])
  {
    hide AreCharges, Unplugged, NothingMore;
  }

  lemma NoChargeAtEnd(rows: seq<Row>, spans: seq<Span>)
    requires Standing(rows, spans, |rows|, None, None)
    ensures IsChargeGrouping(rows, spans)
  {
    assert forall k :: Charging(rows, k) ==> k < |rows|;
    hide Charging, Unplugged, Contained, AreCharges;
  }

  lemma NothingYet(rows: seq<Row>)
    ensures Standing(rows, [], 0, None, None) && AreSlices(rows, [], [])
  {
  }

  /** The groups are the rows of the charges, in order. */
  ghost predicate AreChargeGroups(rows: seq<Row>, groups: seq<seq<Row>>) {
    exists spans :: IsChargeGrouping(rows, spans) && AreSlices(rows, spans, groups)
  }

  method ChargeGroups(rows: seq<Row>) returns (groups: seq<seq<Row>>)
    ensures AreChargeGroups(rows, groups)
  {
    groups := [];
    ghost var spans: seq<Span> := [];
    var start: Option<nat>, lastCharging: Option<nat> := None, None;
    NothingYet(rows);
    hide Standing, AreSlices, IsChargeGrouping;
    for index := 0 to |rows|
      invariant start.Some? == lastCharging.Some?
      invariant start.Some? ==> start.value <= lastCharging.value < index
      invariant Standing(rows, spans, index, start, lastCharging)
      invariant AreSlices(rows, spans, groups)
    {
      var signal := ChargeSignal(rows[index]);
      if signal == Some(true) {
        ChargingRowJoins(rows, spans, index, start, lastCharging);
        if start.None? {
          start := Some(index);
        }
        lastCharging := Some(index);
      } else if signal == Some(false) && start.Some? && lastCharging.Some? {
        UnpluggingCloses(rows, spans, index, start.value, lastCharging.value);
        SlicesNext(rows, spans, groups, Span(start.value, index + 1));
        groups := groups + [rows[start.value..index + 1]];
        spans := spans + [Span(start.value, index + 1)];
        start, lastCharging := None, None;
      } else {
        RowPasses(rows, spans, index, start, lastCharging);
      }
    }
    if start.Some? && lastCharging.Some? {
      LastChargeCompletes(rows, spans, start.value, lastCharging.value);
      SlicesNext(rows, spans, groups, Span(start.value, lastCharging.value + 1));
      groups := groups + [rows[start.value..lastCharging.value + 1]];
      spans := spans + [Span(start.value, lastCharging.value + 1)];
    } else {
      NoChargeAtEnd(rows, spans);
    }
  }

  /** Every charging row lies in exactly one charge. */
  lemma ChargingRowInOneCharge(rows: seq<Row>, spans: seq<Span>, k: int) returns (i: nat)
    requires IsChargeGrouping(rows, spans) && Charging(rows, k)
    ensures i < |spans| && Inside(spans[i], k) && forall j :: 0 <= j < |spans| && Inside(spans[j], k) ==> j == i
  {
    hide Charging, IsCharge, EndUnplugged;
    assert Contained(spans, k);
    i := OnlyGroupOf(spans, |rows|, k);
  }

  /** Two charging rows belong to one charge exactly when nothing between them says it stopped. */
  lemma SameChargeIff(rows: seq<Row>, spans: seq<Span>, i: nat, j: int, k: int)
    requires IsChargeGrouping(rows, spans) && i < |spans| && Inside(spans[i], j) && Charging(rows, j) && Charging(rows, k) && j < k
    ensures Inside(spans[i], k) <==> forall f :: j < f < k ==> !Unplugged(rows, f)
  {
    hide *;
    var m := ChargingRowInOneCharge(rows, spans, k);
    NeverBoth(rows, j);
    ChargesAreCharges(rows, spans, i);
    if m == i {
      UninterruptedInside(rows, spans[i], j, k);
    } else {
      LaterRowLaterGroup(spans, |rows|, i, m, j, k);
      StoppedBefore(rows, spans, i);
      StoppedApart(rows, spans[i], j, k);
    }
  }

  lemma StoppedApart(rows: seq<Row>, s: Span, j: int, k: int)
    requires Inside(s, j) && s.hi <= k && Unplugged(rows, s.hi - 1) && !Unplugged(rows, j)
    ensures !Inside(s, k) && exists f :: j < f < k && Unplugged(rows, f)
  {
    hide Unplugged;
    assert j < s.hi - 1 < k;
  }

  lemma ChargesAreCharges(rows: seq<Row>, spans: seq<Span>, i: nat)
    requires IsChargeGrouping(rows, spans) && i < |spans|
    ensures IsCharge(rows, spans[i]) && Ordered(spans, |rows|) && EndUnplugged(rows, spans)
  {
    hide Charging, Unplugged, NothingMore, Contained;
  }

  lemma UninterruptedInside(rows: seq<Row>, s: Span, j: int, k: int)
    requires IsCharge(rows, s) && Inside(s, j) && Inside(s, k)
    ensures forall f :: j < f < k ==> !Unplugged(rows, f)
  {
    hide Charging, Unplugged;
  }

  /** A charge with another after it was stopped at its last row. */
  lemma StoppedBefore(rows: seq<Row>, spans: seq<Span>, i: nat)
    requires EndUnplugged(rows, spans) && i + 1 < |spans|
    ensures Unplugged(rows, spans[i].hi - 1)
  {
    hide Unplugged, NothingMore;
  }

  lemma ChargeBeginsNoLater(rows: seq<Row>, a: seq<Span>, b: seq<Span>, i: nat)
    requires IsChargeGrouping(rows, a) && IsChargeGrouping(rows, b)
    requires i < |a| && i <= |b| && a[..i] == b[..i]
    ensures i < |b| && b[i].lo <= a[i].lo
  {
    hide *;
    ChargesAreCharges(rows, a, i);
    ChargeBeginsCharging(rows, a[i]);
    var m := ChargingRowInOneCharge(rows, b, a[i].lo);
    ChargesAreCharges(rows, b, m);
    EarlierSpansEndBefore(a, b, |rows|, i, m);
    if i < m {
      OrderedEnds(b, |rows|, i, m);
    }
    InsideStartsAfter(b[m], a[i].lo);
  }

  lemma ChargeBeginsCharging(rows: seq<Row>, s: Span)
    requires IsCharge(rows, s)
    ensures Charging(rows, s.lo)
  {
    hide Charging, Unplugged;
  }

  lemma OrderedEnds(spans: seq<Span>, size: nat, i: nat, m: nat)
    requires Ordered(spans, size) && i < m < |spans|
    ensures spans[i].lo < spans[m].lo
  {
  }

  lemma InsideStartsAfter(s: Span, k: int)
    requires Inside(s, k)
    ensures s.lo <= k
  {
  }

  lemma ChargeEndsNoEarlier(rows: seq<Row>, a: seq<Span>, b: seq<Span>, i: nat)
    requires IsChargeGrouping(rows, a) && IsChargeGrouping(rows, b) && i < |a| && i < |b| && a[i].lo == b[i].lo
    ensures b[i].hi <= a[i].hi
  {
    hide *;
    ChargesAreCharges(rows, a, i);
    ChargesAreCharges(rows, b, i);
    if a[i].hi < b[i].hi {
      OutlastedStaysOn(rows, a[i], b[i], a[i].hi - 1);
      OpenChargeIsLast(rows, a, i, b[i].hi - 1);
    }
  }

  /** A charge that another outlasts has not been stopped; the other's last row goes on with it or stops it. */
  lemma OutlastedStaysOn(rows: seq<Row>, s: Span, t: Span, last: int)
    requires IsCharge(rows, s) && IsCharge(rows, t) && s.lo == t.lo && s.hi < t.hi && last == s.hi - 1
    ensures !Unplugged(rows, last) && t.hi <= |rows|
    ensures Charging(rows, t.hi - 1) || Unplugged(rows, t.hi - 1)
  {
    hide Charging, Unplugged;
    assert t.lo <= last < t.hi - 1;
  }

  lemma OpenChargeIsLast(rows: seq<Row>, spans: seq<Span>, i: nat, k: int)
    requires EndUnplugged(rows, spans) && i < |spans| && !Unplugged(rows, spans[i].hi - 1) && spans[i].hi <= k < |rows|
    ensures !Charging(rows, k) && !Unplugged(rows, k)
  {
    hide Charging, Unplugged;
    assert NothingMore(rows, spans[i].hi);
  }

  lemma NextChargeAgrees(rows: seq<Row>, a: seq<Span>, b: seq<Span>, i: nat)
    requires IsChargeGrouping(rows, a) && IsChargeGrouping(rows, b) && i < |a| && i <= |b| && a[..i] == b[..i]
    ensures i < |b| && a[i] == b[i]
  {
    hide *;
    ChargeBeginsNoLater(rows, a, b, i);
    ChargeBeginsNoLater(rows, b, a, i);
    ChargeEndsNoEarlier(rows, a, b, i);
    ChargeEndsNoEarlier(rows, b, a, i);
  }

  lemma {:induction false} ChargeGroupingsAgree(rows: seq<Row>, a: seq<Span>, b: seq<Span>, i: nat)
    requires IsChargeGrouping(rows, a) && IsChargeGrouping(rows, b) && i <= |a|
    ensures i <= |b| && a[..i] == b[..i]
  {
    hide *;
    if i > 0 {
      ChargeGroupingsAgree(rows, a, b, i - 1);
      NextChargeAgrees(rows, a, b, i - 1);
      PrefixNext(a, b, i - 1);
    }
  }

  /** Whatever groups rows into charges as described groups them as the loop does. */
  lemma ChargeGroupsAreUnique(rows: seq<Row>, one: seq<seq<Row>>, other: seq<seq<Row>>)
    requires AreChargeGroups(rows, one) && AreChargeGroups(rows, other)
    ensures one == other
  {
    hide IsChargeGrouping;
    var a :| IsChargeGrouping(rows, a) && AreSlices(rows, a, one);
    var b :| IsChargeGrouping(rows, b) && AreSlices(rows, b, other);
    ChargeGroupingsAgree(rows, a, b, |a|);
    ChargeGroupingsAgree(rows, b, a, |b|);
    assert a[..|a|] == a && b[..|b|] == b;
  }

  // Energy and silence.

  const MICROSECONDS_PER_HOUR := 3600.0 * 1000000.0

  /** A power kept up for a while. */
  function KilowattHours(power: real, duration: Duration): real {
    power * (duration as real) / MICROSECONDS_PER_HOUR
  }

  datatype Energy = Energy(kwh: real, duration: Duration, power: Option<real>)

  /** One interval at the last stated power. */
  function EnergyStep(e: Energy, left: Row, right: Row): Energy {
    var current := FiniteNumber(Metric(left, ChargingPower));
    var power := if current.Some? then current else e.power;
    var interval := right.recordedAt - left.recordedAt;
    if power.None? || interval <= 0 then e.(power := power)
    else Energy(e.kwh + KilowattHours(power.value, interval), e.duration + interval, power)
  }

  function EnergyUpTo(rows: seq<Row>, n: nat): Energy
    requires n <= |rows|
  {
    if n <= 1 then Energy(0.0, 0, None) else EnergyStep(EnergyUpTo(rows, n - 1), rows[n - 2], rows[n - 1])
  }

  /** The energy taken in and its mean power; nothing when no stretch of known power was measured. */
  method PowerIntegral(rows: seq<Row>) returns (energy: Option<real>, average: Option<real>)
    ensures var e := EnergyUpTo(rows, |rows|);
      if e.duration == 0 then energy == None && average == None
      else energy == Some(e.kwh) && average == Some(e.kwh / ((e.duration as real) / MICROSECONDS_PER_HOUR))
  {
    var kwh, duration, power := 0.0, 0, None;
    var i := 0;
    while i + 1 < |rows|
      invariant 0 <= i && (i < |rows| || rows == [])
      invariant rows != [] ==> Energy(kwh, duration, power) == EnergyUpTo(rows, i + 1)
      invariant rows == [] ==> duration == 0
    {
      var left, right := rows[i], rows[i + 1];
      EnergyNext(rows, i + 1);
      hide EnergyUpTo, FiniteNumber, Metric;
      var current := FiniteNumber(Metric(left, ChargingPower));
      if current.Some? {
        power := current;
      }
      if power.Some? {
        var interval := right.recordedAt - left.recordedAt;
        if interval > 0 {
          kwh := kwh + KilowattHours(power.value, interval);
          duration := duration + interval;
        }
      }
      i := i + 1;
    }
    if duration == 0 {
      return None, None;
    }
    return Some(kwh), Some(kwh / ((duration as real) / MICROSECONDS_PER_HOUR));
  }

  lemma EnergyNext(rows: seq<Row>, n: nat)
    requires 1 <= n < |rows|
    ensures EnergyUpTo(rows, n + 1) == EnergyStep(EnergyUpTo(rows, n), rows[n - 1], rows[n])
  {
  }

  ghost predicate PowersWithin(rows: seq<Row>, low: real, high: real) {
    forall row :: row in rows && FiniteNumber(Metric(row, ChargingPower)).Some? ==>
      low <= FiniteNumber(Metric(row, ChargingPower)).value <= high
  }

  lemma MoreOfEither(power: real, more: real, duration: Duration, longer: Duration)
    requires power <= more && longer >= 0
    ensures KilowattHours(power, longer) <= KilowattHours(more, longer)
    ensures KilowattHours(power, duration + longer) == KilowattHours(power, duration) + KilowattHours(power, longer)
    ensures KilowattHours(power, 0) == 0.0
  {
    assert (duration + longer) as real == duration as real + longer as real;
    assert power * (longer as real) <= more * (longer as real);
  }

  /** The integral lies between the lowest and the highest stated power over the measured time. */
  lemma {:induction false} EnergyIsBounded(rows: seq<Row>, n: nat, low: real, high: real)
    requires n <= |rows| && PowersWithin(rows, low, high)
    ensures var e := EnergyUpTo(rows, n);
      && e.duration >= 0
      && (e.power.Some? ==> low <= e.power.value <= high)
      && KilowattHours(low, e.duration) <= e.kwh <= KilowattHours(high, e.duration)
  {
    if n > 1 {
      EnergyIsBounded(rows, n - 1, low, high);
      EnergyNext(rows, n - 1);
      assert rows[n - 2] in rows;
      hide EnergyUpTo, EnergyStep, FiniteNumber, Metric, KilowattHours;
      EnergyStepIsBounded(EnergyUpTo(rows, n - 1), rows[n - 2], rows[n - 1], low, high);
    } else {
      assert EnergyUpTo(rows, n) == Energy(0.0, 0, None);
    }
  }

  lemma EnergyStepIsBounded(e: Energy, left: Row, right: Row, low: real, high: real)
    requires e.duration >= 0 && (e.power.Some? ==> low <= e.power.value <= high)
    requires KilowattHours(low, e.duration) <= e.kwh <= KilowattHours(high, e.duration)
    requires FiniteNumber(Metric(left, ChargingPower)).Some? ==> low <= FiniteNumber(Metric(left, ChargingPower)).value <= high
    ensures var after := EnergyStep(e, left, right);
      && after.duration >= 0
      && (after.power.Some? ==> low <= after.power.value <= high)
      && KilowattHours(low, after.duration) <= after.kwh <= KilowattHours(high, after.duration)
  {
    hide FiniteNumber, Metric, KilowattHours;
    var interval := right.recordedAt - left.recordedAt;
    var after := EnergyStep(e, left, right);
    if after.power.Some? && interval > 0 {
      MoreOfEither(low, after.power.value, e.duration, interval);
      MoreOfEither(after.power.value, high, e.duration, interval);
      MoreOfEither(high, high, e.duration, interval);
    }
  }

  /** So the reported average is a power the charge could have had throughout. */
  lemma AverageIsWithinBounds(rows: seq<Row>, low: real, high: real)
    requires PowersWithin(rows, low, high) && EnergyUpTo(rows, |rows|).duration != 0
    ensures var e := EnergyUpTo(rows, |rows|); low <= e.kwh / ((e.duration as real) / MICROSECONDS_PER_HOUR) <= high
  {
    hide EnergyUpTo, PowersWithin;
    EnergyIsBounded(rows, |rows|, low, high);
    var e := EnergyUpTo(rows, |rows|);
    QuotientBounds(e.kwh, e.duration as real, low, high);
  }

  lemma QuotientBounds(kwh: real, duration: real, low: real, high: real)
    requires duration > 0.0 && low * duration / MICROSECONDS_PER_HOUR <= kwh <= high * duration / MICROSECONDS_PER_HOUR
    ensures low <= kwh / (duration / MICROSECONDS_PER_HOUR) <= high
  {
    var hours := duration / MICROSECONDS_PER_HOUR;
    var average := kwh / hours;
    assert average * hours == kwh;
    assert low * hours <= kwh <= high * hours;
    SignOfFactor(average - low, hours);
    SignOfFactor(high - average, hours);
  }

  lemma SignOfFactor(factor: real, scale: real)
    requires scale > 0.0 && factor * scale >= 0.0
    ensures factor >= 0.0
  {
  }

  /** Cut at a row that states its power, the integral is the sum of its halves. */
  lemma {:induction false} EnergyIsAdditive(rows: seq<Row>, cut: nat, n: nat)
    requires cut < n <= |rows| && FiniteNumber(Metric(rows[cut], ChargingPower)).Some?
    ensures var whole, front, back := EnergyUpTo(rows, n), EnergyUpTo(rows, cut + 1), EnergyUpTo(rows[cut..], n - cut);
      && whole.kwh == front.kwh + back.kwh
      && whole.duration == front.duration + back.duration
      && (n > cut + 1 ==> whole.power == back.power)
    decreases n
  {
    if n > cut + 1 {
      EnergyIsAdditive(rows, cut, n - 1);
      EnergyNext(rows, n - 1);
      EnergyNext(rows[cut..], n - cut - 1);
      assert rows[cut..][n - cut - 2] == rows[n - 2] && rows[cut..][n - cut - 1] == rows[n - 1];
      hide EnergyUpTo, FiniteNumber, Metric, KilowattHours;
    }
  }

  function ExpectedSeconds(row: Row): int {
    if row.reportingInterval.Some? && row.reportingInterval.value != 0 then row.reportingInterval.value else 180
  }

  /** A gap counts whole once it is over three times what the row before it promised. */
  function UnreportedIn(left: Row, right: Row): Duration {
    var gap := right.recordedAt - left.recordedAt;
    if gap > 3 * ExpectedSeconds(left) * SECOND then gap else 0
  }

  function UnreportedUpTo(rows: seq<Row>, n: nat): Duration
    requires n <= |rows|
  {
    if n <= 1 then 0 else UnreportedUpTo(rows, n - 1) + UnreportedIn(rows[n - 2], rows[n - 1])
  }

  method UnreportedTime(rows: seq<Row>) returns (unreported: Duration)
    ensures unreported == UnreportedUpTo(rows, |rows|)
  {
    unreported := 0;
    var i := 0;
    while i + 1 < |rows|
      invariant 0 <= i && (i < |rows| || rows == [])
      invariant unreported == if rows == [] then 0 else UnreportedUpTo(rows, i + 1)
    {
      var gap := rows[i + 1].recordedAt - rows[i].recordedAt;
      if gap > 3 * ExpectedSeconds(rows[i]) * SECOND {
        unreported := unreported + gap;
      }
      i := i + 1;
    }
  }

  ghost predicate InTimeOrder(rows: seq<Row>) {
    forall i, j :: 0 <= i < j < |rows| ==> rows[i].recordedAt <= rows[j].recordedAt
  }

  /** Silence never exceeds the stretch it is found in, and there is none exactly when every row kept its promise. */
  lemma {:induction false} UnreportedIsBounded(rows: seq<Row>, n: nat)
    requires 1 <= n <= |rows| && InTimeOrder(rows) && forall row :: row in rows ==> ExpectedSeconds(row) > 0
    ensures 0 <= UnreportedUpTo(rows, n) <= rows[n - 1].recordedAt - rows[0].recordedAt
    ensures UnreportedUpTo(rows, n) == 0
            <==> forall i :: 0 < i < n ==> rows[i].recordedAt - rows[i - 1].recordedAt <= 3 * ExpectedSeconds(rows[i - 1]) * SECOND
  {
    if n > 1 {
      UnreportedIsBounded(rows, n - 1);
      assert rows[n - 2].recordedAt <= rows[n - 1].recordedAt;
      assert rows[n - 2] in rows;
    }
  }
}
