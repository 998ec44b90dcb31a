/** What the drive grouping means for single rows. */
module SegmentProperties {
  import opened Options
  import opened Segments

  /** No row lies in two groups. */
  lemma GroupsAreDisjoint(spans: seq<Span>, size: nat, i: nat, j: nat, k: int)
    requires Ordered(spans, size) && i < |spans| && j < |spans| && Inside(spans[i], k) && Inside(spans[j], k)
    ensures i == j
  {
  }

  /** Every active row lies in exactly one drive. */
  lemma ActiveRowInOneDrive(rows: seq<Row>, distance: Distance, spans: seq<Span>, k: int) returns (i: nat)
    requires IsDriveGrouping(rows, distance, spans) && Active(rows, distance, k)
    ensures i < |spans| && Inside(spans[i], k) && forall j :: 0 <= j < |spans| && Inside(spans[j], k) ==> j == i
  {
    hide Active, IsDrive, Separated, SignalsHoldOpen;
    assert Contained(spans, k);
    i := OnlyGroupOf(spans, |rows|, k);
  }

  lemma OnlyGroupOf(spans: seq<Span>, size: nat, k: int) returns (i: nat)
    requires Ordered(spans, size) && Contained(spans, k)
    ensures i < |spans| && Inside(spans[i], k) && forall j :: 0 <= j < |spans| && Inside(spans[j], k) ==> j == i
  {
    i :| 0 <= i < |spans| && Inside(spans[i], k);
    hide Ordered;
    forall j | 0 <= j < |spans| && Inside(spans[j], k) ensures j == i {
      GroupsAreDisjoint(spans, size, j, i, k);
    }
  }

  /** A row whose charge signal is true can only be the last of a drive. */
  lemma ChargingRowEndsDrive(rows: seq<Row>, distance: Distance, spans: seq<Span>, i: nat, k: nat)
    requires IsDriveGrouping(rows, distance, spans) && i < |spans| && Inside(spans[i], k) && k < |rows|
    requires ChargeSignal(rows[k]) == Some(true)
    ensures k == spans[i].hi - 1
  {
    assert IsDrive(rows, distance, spans[i]) && Parked(rows, k);
  }

  /** In a drive no row vouched for outright, active rows follow each other in under 180 seconds. */
  lemma FallbackDriveHasNoGap(rows: seq<Row>, distance: Distance, spans: seq<Span>, i: nat, j: int, k: int)
    requires IsDriveGrouping(rows, distance, spans) && i < |spans| && !Signalled(rows, spans[i].lo, spans[i].hi)
    requires Inside(spans[i], j) && Inside(spans[i], k) && Consecutive(rows, distance, j, k)
    ensures rows[k].recordedAt - rows[j].recordedAt < 180 * 1_000_000
  {
    assert IsDrive(rows, distance, spans[i]) && HoldsTogether(rows, distance, spans[i].lo, spans[i].hi);
    hide Active, Signals, IsDriveGrouping;
    assert !Signalled(rows, spans[i].lo, k);
  }

  /** A later row of another group lies in a later group, beyond the start of the next. */
  lemma LaterRowLaterGroup(spans: seq<Span>, size: nat, i: nat, m: nat, j: int, k: int)
    requires Ordered(spans, size) && i < |spans| && m < |spans| && Inside(spans[i], j) && Inside(spans[m], k) && j < k && i != m
    ensures i < m && spans[i].hi <= spans[i + 1].lo <= k
  {
    if i + 1 < m {
      assert spans[i + 1].hi <= spans[m].lo;
    }
  }

  lemma DrivesBeginActive(rows: seq<Row>, distance: Distance, spans: seq<Span>, i: nat)
    requires IsDriveGrouping(rows, distance, spans) && i < |spans|
    ensures Active(rows, distance, spans[i].lo) && IsDrive(rows, distance, spans[i])
    ensures i > 0 ==> Separated(rows, spans[i - 1], spans[i].lo)
  {
    hide Active, Separated;
  }

  /** The next drive begins at the next active row. */
  lemma NextDriveBeginsNext(rows: seq<Row>, distance: Distance, spans: seq<Span>, i: nat, j: int, k: int)
    requires IsDriveGrouping(rows, distance, spans) && i < |spans| && Inside(spans[i], j) && !Inside(spans[i], k)
    requires Consecutive(rows, distance, j, k)
    ensures i + 1 < |spans| && spans[i + 1].lo == k && spans[i].hi <= k
  {
    hide Active, IsDrive, Separated, SignalsHoldOpen;
    assert Contained(spans, k);
    var m :| 0 <= m < |spans| && Inside(spans[m], k);
    LaterRowLaterGroup(spans, |rows|, i, m, j, k);
    hide Ordered;
    DrivesBeginActive(rows, distance, spans, i + 1);
  }

  lemma DriveEndsAtEvidence(rows: seq<Row>, distance: Distance, s: Span, j: int, k: int)
    requires IsDrive(rows, distance, s) && Inside(s, j) && s.hi <= k && Consecutive(rows, distance, j, k)
    requires forall f :: j < f < k ==> !Parked(rows, f)
    ensures j == s.hi - 1
  {
    ParkedIsInactive(rows, distance, s.hi - 1);
    hide Active, Parked, HoldsTogether, Signalled;
  }

  /**
   * Exactly when two successive active rows belong to one drive: no parked row lies between them,
   * and they are under 180 seconds apart or the drive has been vouched for before the second.
   */
  lemma SameDriveIff(rows: seq<Row>, distance: Distance, spans: seq<Span>, i: nat, j: int, k: int)
    requires IsDriveGrouping(rows, distance, spans) && i < |spans| && Inside(spans[i], j) && Consecutive(rows, distance, j, k)
    ensures 0 <= j < |rows| && 0 <= k < |rows|
    ensures Inside(spans[i], k)
            <==> (forall f :: j < f < k ==> !Parked(rows, f)) && (Close(rows, j, k) || Signalled(rows, spans[i].lo, k))
  {
    assert j < |rows| && k < |rows| && 0 <= j;
    hide *;
    if Inside(spans[i], k) {
      DrivesBeginActive(rows, distance, spans, i);
      NoneParkedInside(rows, distance, spans[i], j, k);
    } else {
      OtherDriveIsApart(rows, distance, spans, i, j, k);
    }
  }

  lemma OtherDriveIsApart(rows: seq<Row>, distance: Distance, spans: seq<Span>, i: nat, j: int, k: int)
    requires IsDriveGrouping(rows, distance, spans) && i < |spans| && Inside(spans[i], j) && Consecutive(rows, distance, j, k)
    requires !Inside(spans[i], k)
    ensures 0 <= j < |rows| && 0 <= k < |rows|
    ensures (exists f :: j < f < k && Parked(rows, f)) || (!Close(rows, j, k) && !Signalled(rows, spans[i].lo, k))
  {
    hide IsDriveGrouping, Signals, Signalled, Close, HoldsTogether;
    NextDriveBeginsNext(rows, distance, spans, i, j, k);
    DrivesBeginActive(rows, distance, spans, i);
    DrivesBeginActive(rows, distance, spans, i + 1);
    assert j < |rows| && k < |rows|;
    if forall f :: j < f < k ==> !Parked(rows, f) {
      DriveEndsAtEvidence(rows, distance, spans[i], j, k);
      ParkedIsInactive(rows, distance, j);
      SignalsAreActive(rows, distance, spans[i].lo, j, k);
      hide Active, Parked, IsDrive;
    }
  }

  lemma NoneParkedInside(rows: seq<Row>, distance: Distance, s: Span, j: int, k: int)
    requires IsDrive(rows, distance, s) && Inside(s, j) && Inside(s, k) && Consecutive(rows, distance, j, k)
    ensures forall f :: j < f < k ==> !Parked(rows, f)
    ensures Close(rows, j, k) || Signalled(rows, s.lo, k)
  {
    hide Active, Parked, Signalled, Close;
    assert HoldsTogether(rows, distance, s.lo, s.hi);
  }

  // There is only one grouping.

  /** With the drives before it the same, a drive begins no later in one grouping than in the other. */
  lemma BeginsNoLater(rows: seq<Row>, distance: Distance, a: seq<Span>, b: seq<Span>, i: nat)
    requires IsDriveGrouping(rows, distance, a) && IsDriveGrouping(rows, distance, b)
    requires i < |a| && i <= |b| && a[..i] == b[..i]
    ensures i < |b| && b[i].lo <= a[i].lo
  {
    hide Active, IsDrive, Separated, SignalsHoldOpen;
    DrivesBeginActive(rows, distance, a, i);
    var m := ActiveRowInOneDrive(rows, distance, b, a[i].lo);
    EarlierSpansEndBefore(a, b, |rows|, i, m);
    if i < m {
      assert b[i].hi <= b[m].lo;
    }
  }

  lemma EarlierSpansEndBefore(a: seq<Span>, b: seq<Span>, size: nat, i: nat, m: nat)
    requires Ordered(a, size) && Ordered(b, size) && i < |a| && i <= |b| && a[..i] == b[..i]
    requires m < |b| && Inside(b[m], a[i].lo)
    ensures i <= m
  {
    forall n | 0 <= n < i ensures b[n].hi <= a[i].lo {
      assert a[..i][n] == b[..i][n];
    }
  }

  /** A drive that begins where another does ends no earlier. */
  lemma EndsNoEarlier(rows: seq<Row>, distance: Distance, a: seq<Span>, b: seq<Span>, i: nat)
    requires IsDriveGrouping(rows, distance, a) && IsDriveGrouping(rows, distance, b)
    requires i < |a| && i < |b| && a[i].lo == b[i].lo
    ensures b[i].hi <= a[i].hi
  {
    hide *;
    DrivesBeginActive(rows, distance, a, i);
    DrivesBeginActive(rows, distance, b, i);
    if a[i].hi < b[i].hi {
      var last := a[i].hi - 1;
      LongerDriveEndsAlike(rows, distance, a[i], b[i], last);
      if k: int :| last < k < b[i].hi && Active(rows, distance, k) {
        var next := FirstActiveAfter(rows, distance, last, k);
        SpanHolds(a[i], b[i], last, next);
        SameDriveIff(rows, distance, a, i, last, next);
        SameDriveIff(rows, distance, b, i, last, next);
      } else {
        NothingFollows(rows, distance, a[i], b[i], last);
        OpenEndIsQuiet(rows, distance, a, i, b[i].hi - 1);
      }
    }
  }

  /** A drive that another outlasts ends at evidence. */
  lemma LongerDriveEndsAlike(rows: seq<Row>, distance: Distance, s: Span, t: Span, last: int)
    requires IsDrive(rows, distance, s) && IsDrive(rows, distance, t) && s.lo == t.lo && s.hi < t.hi && last == s.hi - 1
    ensures s.lo <= last && t.hi <= |rows| && Active(rows, distance, last) && !Parked(rows, last)
  {
    hide Active, Parked, HoldsTogether, Signalled;
  }

  lemma SpanHolds(s: Span, t: Span, j: int, k: int)
    requires s.lo == t.lo <= j == s.hi - 1 && s.hi <= k < t.hi
    ensures Inside(s, j) && Inside(t, j) && Inside(t, k) && !Inside(s, k)
  {
  }

  lemma FirstActiveAfter(rows: seq<Row>, distance: Distance, j: int, k: int) returns (first: int)
    requires j < k && Active(rows, distance, j) && Active(rows, distance, k)
    ensures j < first <= k && Consecutive(rows, distance, j, first)
    decreases k - j
  {
    hide Active;
    if i: int :| j < i < k && Active(rows, distance, i) {
      first := FirstActiveAfter(rows, distance, j, i);
    } else {
      first := k;
    }
  }

  /** With no further evidence, the longer drive ends at a parked row, and was vouched for within the shorter. */
  lemma NothingFollows(rows: seq<Row>, distance: Distance, s: Span, t: Span, last: int)
    requires IsDrive(rows, distance, t) && s.lo == t.lo <= last == s.hi - 1 && s.hi < t.hi
    requires forall k :: last < k < t.hi ==> !Active(rows, distance, k)
    ensures Parked(rows, t.hi - 1) && Signalled(rows, s.lo, s.hi)
  {
    hide Active, Parked, HoldsTogether, Signalled;
    SignalsAreActive(rows, distance, s.lo, last, t.hi - 1);
  }

  /** A vouched drive that does not end at a parked row is the last, with no parked row after it. */
  lemma OpenEndIsQuiet(rows: seq<Row>, distance: Distance, spans: seq<Span>, i: nat, f: int)
    requires IsDriveGrouping(rows, distance, spans) && i < |spans|
    requires Signalled(rows, spans[i].lo, spans[i].hi) && !Parked(rows, spans[i].hi - 1) && spans[i].hi <= f < |rows|
    ensures !Parked(rows, f)
  {
    hide AreDrives, CoversActivity, Active, Parked, Signalled;
    assert ClosedBySignal(rows, spans[i]) || Quiet(rows, distance, spans[i].hi);
  }

  lemma PrefixNext<T>(a: seq<T>, b: seq<T>, i: nat)
    requires i < |a| && i < |b| && a[..i] == b[..i] && a[i] == b[i]
    ensures a[..i + 1] == b[..i + 1]
  {
    assert a[..i + 1] == a[..i] + [a[i]] && b[..i + 1] == b[..i] + [b[i]];
  }

  lemma NextDriveAgrees(rows: seq<Row>, distance: Distance, a: seq<Span>, b: seq<Span>, i: nat)
    requires IsDriveGrouping(rows, distance, a) && IsDriveGrouping(rows, distance, b)
    requires i < |a| && i <= |b| && a[..i] == b[..i]
    ensures i < |b| && a[i] == b[i]
  {
    hide *;
    BeginsNoLater(rows, distance, a, b, i);
    BeginsNoLater(rows, distance, b, a, i);
    EndsNoEarlier(rows, distance, a, b, i);
    EndsNoEarlier(rows, distance, b, a, i);
  }

  /** The grouping is determined by the rows. */
  lemma {:induction false} GroupingsAgree(rows: seq<Row>, distance: Distance, a: seq<Span>, b: seq<Span>, i: nat)
    requires IsDriveGrouping(rows, distance, a) && IsDriveGrouping(rows, distance, b) && i <= |a|
    ensures i <= |b| && a[..i] == b[..i]
  {
    hide *;
    if i > 0 {
      GroupingsAgree(rows, distance, a, b, i - 1);
      NextDriveAgrees(rows, distance, a, b, i - 1);
      PrefixNext(a, b, i - 1);
    }
  }

  /** Whatever groups rows into drives as described groups them as the loop does. */
  lemma DriveGroupsAreUnique(rows: seq<Row>, distance: Distance, one: seq<seq<Row>>, other: seq<seq<Row>>)
    requires AreDriveGroups(rows, distance, one) && AreDriveGroups(rows, distance, other)
    ensures one == other
  {
    hide IsDriveGrouping;
    var a :| IsDriveGrouping(rows, distance, a) && AreSlices(rows, a, one);
    var b :| IsDriveGrouping(rows, distance, b) && AreSlices(rows, b, other);
    GroupingsAgree(rows, distance, a, b, |a|);
    GroupingsAgree(rows, distance, b, a, |b|);
    assert a[..|a|] == a && b[..|b|] == b;
  }
}
