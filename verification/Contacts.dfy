/**
 * Contact periods: stretches during which a source kept in touch
 * (backend/app/telemetry/services.py: touch_source_contact, backend/app/telemetry/contacts.py).
 */
module Contacts {
  import opened Options
  import opened Registry
  import opened Sequences
  import opened Sorting

  datatype Period = Period(startedAt: Instant, lastContactAt: Instant, windowSeconds: int)

  predicate StartsEarlier(a: Period, b: Period) {
    a.startedAt < b.startedAt
  }

  /** The rank-1 period among those started by an instant: latest start, then highest id. */
  function PeriodAt(periods: seq<Period>, at: Instant): Option<Period> {
    var started := Filter(periods, (p: Period) => p.startedAt <= at);
    if started == [] then None else Some(LastMax(started, StartsEarlier))
  }

  /** The row the latest-period query returns: latest start, then highest id. */
  function LatestIndex(periods: seq<Period>): (k: nat)
    requires periods != []
    ensures k < |periods| && periods[k] == LastMax(periods, StartsEarlier)
  {
    if |periods| == 1 then 0 else
    var earlier := LatestIndex(periods[..|periods| - 1]);
    if StartsEarlier(periods[|periods| - 1], periods[earlier]) then earlier else |periods| - 1
  }

  function LatestPeriod(periods: seq<Period>): Option<Period> {
    if periods == [] then None else Some(periods[LatestIndex(periods)])
  }

  /** When the period stops vouching for its source. */
  function SilentAfter(p: Period): Instant {
    p.lastContactAt + p.windowSeconds * SECOND
  }

  /** Ordered and disjoint: each period starts strictly after its predecessor has fallen silent. */
  ghost predicate WellSpaced(periods: seq<Period>) {
    && (forall i :: 0 <= i < |periods| ==> periods[i].startedAt <= periods[i].lastContactAt && periods[i].windowSeconds >= 0)
    && (forall i, j :: 0 <= i < j < |periods| ==> SilentAfter(periods[i]) < periods[j].startedAt)
  }

  predicate Spans(p: Period, at: Instant) {
    p.startedAt <= at <= p.lastContactAt
  }

  lemma {:induction false} LatestIsLast(periods: seq<Period>)
    requires WellSpaced(periods) && periods != []
    ensures LatestIndex(periods) == |periods| - 1
    ensures LastMax(periods, StartsEarlier) == periods[|periods| - 1]
  {
    var front := periods[..|periods| - 1];
    if front != [] {
      LatestIsLast(front);
    }
  }

  /** The period selected by its start is also the one with the latest contact. */
  lemma LatestStartHasLatestContact(periods: seq<Period>)
    requires WellSpaced(periods) && periods != []
    ensures forall p :: p in periods ==> p.lastContactAt <= LatestPeriod(periods).value.lastContactAt
  {
    LatestIsLast(periods);
  }

  /** An instant inside a period is answered by that period, whatever came later. */
  lemma {:induction false} SpanningPeriodAnswers(periods: seq<Period>, i: nat, at: Instant)
    requires WellSpaced(periods) && i < |periods| && Spans(periods[i], at)
    ensures PeriodAt(periods, at) == Some(periods[i])
  {
    var n := |periods| - 1;
    if i < n {
      LaterPeriodStartsAfter(periods, i, at);
      SpanningPeriodAnswers(periods[..n], i, at);
      PeriodAtNext(periods, at);
    } else {
      LastPeriodAnswers(periods, at);
    }
  }

  lemma LaterPeriodStartsAfter(periods: seq<Period>, i: nat, at: Instant)
    requires WellSpaced(periods) && i < |periods| - 1 && Spans(periods[i], at)
    ensures periods[|periods| - 1].startedAt > at && WellSpaced(periods[..|periods| - 1])
  {
    assert SilentAfter(periods[i]) < periods[|periods| - 1].startedAt;
  }

  lemma PeriodAtNext(periods: seq<Period>, at: Instant)
    requires periods != [] && periods[|periods| - 1].startedAt > at
    ensures PeriodAt(periods, at) == PeriodAt(periods[..|periods| - 1], at)
  {
    hide LastMax;
  }

  lemma LastPeriodAnswers(periods: seq<Period>, at: Instant)
    requires WellSpaced(periods) && periods != [] && periods[|periods| - 1].startedAt <= at
    ensures PeriodAt(periods, at) == Some(periods[|periods| - 1])
  {
    var n := |periods| - 1;
    forall p | p in periods ensures p.startedAt <= at {
      var j :| 0 <= j < |periods| && periods[j] == p;
      assert j == n || SilentAfter(periods[j]) < periods[n].startedAt;
    }
    hide Filter, LastMax;
    FilterAll(periods, (p: Period) => p.startedAt <= at);
    LatestIsLast(periods);
  }

  /** One contact: ignored if older than the last, extending the latest period, or opening a new one. */
  function Touched(periods: seq<Period>, at: Instant, windowSeconds: int): seq<Period> {
    var latest := LatestPeriod(periods);
    if latest.Some? && latest.value.lastContactAt > at then periods
    else if latest.None? || at > SilentAfter(latest.value) then periods + [Period(at, at, windowSeconds)]
    else periods[LatestIndex(periods) := latest.value.(lastContactAt := at, windowSeconds := windowSeconds)]
  }

  /** What a contact does to well-spaced periods: it is ignored, opens a period, or extends the last. */
  lemma TouchedCases(periods: seq<Period>, at: Instant, windowSeconds: int)
    requires WellSpaced(periods)
    ensures Touched(periods, at, windowSeconds) ==
            if periods != [] && at < periods[|periods| - 1].lastContactAt then periods
            else if periods == [] || at > SilentAfter(periods[|periods| - 1]) then periods + [Period(at, at, windowSeconds)]
            else periods[..|periods| - 1] + [Period(periods[|periods| - 1].startedAt, at, windowSeconds)]
  {
    if periods != [] {
      LatestIsLast(periods);
    }
  }

  lemma TouchKeepsSpacing(periods: seq<Period>, at: Instant, windowSeconds: int)
    requires WellSpaced(periods) && windowSeconds >= 0
    ensures WellSpaced(Touched(periods, at, windowSeconds))
  {
    TouchedCases(periods, at, windowSeconds);
    hide Touched;
    var n := |periods| - 1;
    forall i | 0 <= i < n ensures SilentAfter(periods[i]) < periods[n].startedAt <= SilentAfter(periods[n]) {
    }
  }

  /** A contact no older than the latest lies in exactly one period afterwards, the last one, which it ends. */
  lemma ContactLiesInOnePeriod(periods: seq<Period>, at: Instant, windowSeconds: int)
    requires WellSpaced(periods) && windowSeconds >= 0
    requires periods == [] || at >= periods[|periods| - 1].lastContactAt
    ensures var after := Touched(periods, at, windowSeconds);
      && after != []
      && after[|after| - 1].lastContactAt == at && after[|after| - 1].windowSeconds == windowSeconds
      && Spans(after[|after| - 1], at)
      && forall i :: 0 <= i < |after| - 1 ==> !Spans(after[i], at)
  {
    TouchedCases(periods, at, windowSeconds);
    hide Touched;
    var n := |periods| - 1;
    forall i | 0 <= i < n ensures periods[i].lastContactAt < periods[n].startedAt {
      assert SilentAfter(periods[i]) < periods[n].startedAt;
    }
  }

  function TouchedAll(periods: seq<Period>, contacts: seq<(Instant, int)>): seq<Period> {
    if contacts == [] then periods
    else
      var n := |contacts| - 1;
      Touched(TouchedAll(periods, contacts[..n]), contacts[n].0, contacts[n].1)
  }

  /** Over any sequence of contacts, however disordered, the periods stay ordered and disjoint. */
  lemma {:induction false} AnyContactsKeepSpacing(contacts: seq<(Instant, int)>)
    requires forall c :: c in contacts ==> c.1 >= 0
    ensures WellSpaced(TouchedAll([], contacts))
  {
    if contacts != [] {
      var n := |contacts| - 1;
      AnyContactsKeepSpacing(contacts[..n]);
      TouchKeepsSpacing(TouchedAll([], contacts[..n]), contacts[n].0, contacts[n].1);
    }
  }

  ghost predicate BeginsAtOne(p: Period, contacts: seq<(Instant, int)>) {
    exists i :: 0 <= i < |contacts| && contacts[i].0 == p.startedAt
  }

  ghost predicate EndsAtOne(p: Period, contacts: seq<(Instant, int)>) {
    exists i :: 0 <= i < |contacts| && contacts[i] == (p.lastContactAt, p.windowSeconds)
  }

  lemma OneMoreContact(p: Period, contacts: seq<(Instant, int)>, c: (Instant, int))
    ensures BeginsAtOne(p, contacts) || p.startedAt == c.0 ==> BeginsAtOne(p, contacts + [c])
    ensures EndsAtOne(p, contacts) || (p.lastContactAt, p.windowSeconds) == c ==> EndsAtOne(p, contacts + [c])
  {
    var more := contacts + [c];
    assert more[|contacts|] == c && forall i :: 0 <= i < |contacts| ==> more[i] == contacts[i];
  }

  /** A contact leaves a period alone, or ends it without moving its begin, or is all there is to it. */
  lemma TouchedAt(periods: seq<Period>, at: Instant, windowSeconds: int, j: nat)
    requires WellSpaced(periods) && j < |Touched(periods, at, windowSeconds)|
    ensures var p := Touched(periods, at, windowSeconds)[j];
      || (j < |periods| && p == periods[j])
      || (p.lastContactAt == at && p.windowSeconds == windowSeconds && (p.startedAt == at || (j < |periods| && p.startedAt == periods[j].startedAt)))
  {
    TouchedCases(periods, at, windowSeconds);
    hide Touched;
  }

  /** And they are made of nothing but the contacts: each begins at one, and ends at one with its window. */
  lemma {:induction false} PeriodsAreOfTheContacts(contacts: seq<(Instant, int)>, j: nat)
    requires (forall c :: c in contacts ==> c.1 >= 0) && j < |TouchedAll([], contacts)|
    ensures BeginsAtOne(TouchedAll([], contacts)[j], contacts) && EndsAtOne(TouchedAll([], contacts)[j], contacts)
  {
    var n := |contacts| - 1;
    var front, last := contacts[..n], contacts[n];
    var before := TouchedAll([], front);
    assert contacts == front + [last];
    AnyContactsKeepSpacing(front);
    TouchedAt(before, last.0, last.1, j);
    if j < |before| {
      PeriodsAreOfTheContacts(front, j);
      hide *;
      OneMoreContact(before[j], front, last);
      OneMoreContact(Touched(before, last.0, last.1)[j], front, last);
    } else {
      OneMoreContact(Touched(before, last.0, last.1)[j], front, last);
    }
  }

  lemma TouchedStillSpans(periods: seq<Period>, at: Instant, windowSeconds: int, j: nat, instant: Instant)
    requires WellSpaced(periods) && j < |periods| && Spans(periods[j], instant)
    ensures var after := Touched(periods, at, windowSeconds); j < |after| && Spans(after[j], instant)
  {
    TouchedCases(periods, at, windowSeconds);
    hide Touched;
  }

  /** A contact no older than all before it lies in the last period. */
  lemma NewestContactIsSpanned(contacts: seq<(Instant, int)>, c: (Instant, int)) returns (j: nat)
    requires (forall d :: d in contacts + [c] ==> d.1 >= 0) && forall i :: 0 <= i < |contacts| ==> contacts[i].0 <= c.0
    ensures var after := Touched(TouchedAll([], contacts), c.0, c.1); j < |after| && Spans(after[j], c.0)
  {
    hide *;
    var before := TouchedAll([], contacts);
    AllNonnegative(contacts, c);
    AnyContactsKeepSpacing(contacts);
    if before != [] {
      PeriodsAreOfTheContacts(contacts, |before| - 1);
      EndsByThen(before[|before| - 1], contacts, c.0);
    }
    ContactLiesInOnePeriod(before, c.0, c.1);
    j := |Touched(before, c.0, c.1)| - 1;
  }

  lemma AllNonnegative(contacts: seq<(Instant, int)>, c: (Instant, int))
    requires forall d :: d in contacts + [c] ==> d.1 >= 0
    ensures (forall d :: d in contacts ==> d.1 >= 0) && c.1 >= 0
  {
    assert c in contacts + [c];
  }

  lemma EndsByThen(p: Period, contacts: seq<(Instant, int)>, at: Instant)
    requires EndsAtOne(p, contacts) && forall i :: 0 <= i < |contacts| ==> contacts[i].0 <= at
    ensures p.lastContactAt <= at
  {
  }

  /** A contact that came in order, none before it being later, lies in a period for good. */
  lemma {:induction false} OrderlyContactIsSpanned(contacts: seq<(Instant, int)>, k: nat) returns (j: nat)
    requires (forall c :: c in contacts ==> c.1 >= 0) && k < |contacts| && forall i :: 0 <= i < k ==> contacts[i].0 <= contacts[k].0
    ensures j < |TouchedAll([], contacts)| && Spans(TouchedAll([], contacts)[j], contacts[k].0)
  {
    var n := |contacts| - 1;
    var front, last := contacts[..n], contacts[n];
    assert contacts == front + [last];
    assert TouchedAll([], contacts) == Touched(TouchedAll([], front), last.0, last.1);
    hide *;
    AllNonnegative(front, last);
    if k < n {
      AnyContactsKeepSpacing(front);
      j := OrderlyContactIsSpanned(front, k);
      TouchedStillSpans(TouchedAll([], front), last.0, last.1, j, contacts[k].0);
    } else {
      j := NewestContactIsSpanned(front, last);
    }
  }

  /** A contact opens a period exactly when there is none yet, or the last one's window has passed since its last contact. */
  lemma ContactOpensIff(periods: seq<Period>, at: Instant, windowSeconds: int)
    requires WellSpaced(periods)
    ensures var after := Touched(periods, at, windowSeconds);
      if periods == [] then after == [Period(at, at, windowSeconds)]
      else
        var last := periods[|periods| - 1];
        && (|after| > |periods| <==> at >= last.lastContactAt && at - last.lastContactAt > last.windowSeconds * 1_000_000)
        && (|after| > |periods| ==> after == periods + [Period(at, at, windowSeconds)])
        && (|after| == |periods| || |after| == |periods| + 1)
        && (|after| == |periods| && at >= last.lastContactAt ==> after == periods[..|periods| - 1] + [Period(last.startedAt, at, windowSeconds)])
        && (at < last.lastContactAt ==> after == periods)
  {
    TouchedCases(periods, at, windowSeconds);
    hide Touched;
  }

  lemma LastStartsAfter(periods: seq<Period>, i: nat, at: Instant)
    requires WellSpaced(periods) && i + 1 < |periods| && at < periods[i + 1].startedAt
    ensures at < periods[|periods| - 1].startedAt && WellSpaced(periods[..|periods| - 1])
  {
    if i + 1 < |periods| - 1 {
      assert SilentAfter(periods[i + 1]) < periods[|periods| - 1].startedAt;
    }
  }

  /** The period that answers for an instant is the last of those begun by then; before the first, none does. */
  lemma {:induction false} LastBegunAnswers(periods: seq<Period>, i: nat, at: Instant)
    requires WellSpaced(periods) && i < |periods| && periods[i].startedAt <= at && (i + 1 < |periods| ==> at < periods[i + 1].startedAt)
    ensures PeriodAt(periods, at) == Some(periods[i])
    decreases |periods|
  {
    hide *;
    var n := |periods| - 1;
    if i < n {
      LastStartsAfter(periods, i, at);
      LastBegunAnswers(periods[..n], i, at);
      PeriodAtNext(periods, at);
    } else {
      LastPeriodAnswers(periods, at);
    }
  }

  lemma NoneBegunAnswersNot(periods: seq<Period>, at: Instant)
    requires forall p :: p in periods ==> p.startedAt > at
    ensures PeriodAt(periods, at) == None
  {
    NonemptyHasElement(Filter(periods, (p: Period) => p.startedAt <= at));
  }
}
