/** The agent's durable queue of samples (agent/internal/store/queue.go). */
module SampleQueue {
  import opened Numbers
  import opened Registry
  import opened Sequences
  import opened Sorting
  import opened Ingestion

  /** `queuedAt` is the database's own clock when the row was inserted. */
  datatype Entry = Entry(sample: Sample, queuedAt: Instant)

  predicate SentBefore(a: Entry, b: Entry) {
    a.sample.sequence < b.sample.sequence || (a.sample.sequence == b.sample.sequence && a.queuedAt < b.queuedAt)
  }

  ghost predicate DistinctEntries(rows: seq<Entry>) {
    forall i, j :: 0 <= i < j < |rows| ==> rows[i].sample.id != rows[j].sample.id
  }

  function SamplesOf(rows: seq<Entry>): seq<Sample> {
    Mapped(rows, (e: Entry) => e.sample)
  }

  function Taken<T>(s: seq<T>, limit: nat): seq<T> {
    if limit <= |s| then s[..limit] else s
  }

  /** The oldest samples by sequence, and of one sequence by the time they were queued. */
  function PendingOf(rows: seq<Entry>, limit: nat): seq<Sample> {
    SamplesOf(Taken(Sorted(rows, SentBefore), limit))
  }

  predicate HasId(rows: seq<Entry>, id: nat) {
    exists e :: e in rows && e.sample.id == id
  }

  function Unacknowledged(rows: seq<Entry>, ids: set<nat>): seq<Entry> {
    Filter(rows, (e: Entry) => e.sample.id !in ids)
  }

  /** COALESCE(MAX(sequence), 0). */
  function LastSequenceOf(rows: seq<Entry>): int {
    if rows == [] then 0
    else if |rows| == 1 then rows[0].sample.sequence
    else Max(LastSequenceOf(rows[..|rows| - 1]), rows[|rows| - 1].sample.sequence)
  }

  lemma SentBeforeIsOrder()
    ensures StrictWeakOrder(SentBefore)
  {
  }

  lemma {:induction false} UnacknowledgedKeepsDistinct(rows: seq<Entry>, ids: set<nat>)
    requires DistinctEntries(rows)
    ensures DistinctEntries(Unacknowledged(rows, ids))
  {
    if rows != [] {
      var front, last := rows[..|rows| - 1], rows[|rows| - 1];
      UnacknowledgedKeepsDistinct(front, ids);
      var kept := Unacknowledged(front, ids);
      forall i | 0 <= i < |kept| ensures kept[i].sample.id != last.sample.id {
        assert kept[i] in kept;
        var j :| 0 <= j < |front| && front[j] == kept[i];
      }
    }
  }

  /** Removing one more id removes at most one more row, and exactly one if the id is still there. */
  lemma AcknowledgedAgain(rows: seq<Entry>, ids: set<nat>, more: set<nat>)
    ensures Unacknowledged(Unacknowledged(rows, ids), more) == Unacknowledged(rows, ids + more)
  {
    FilterTwice(rows, (e: Entry) => e.sample.id !in ids, (e: Entry) => e.sample.id !in more, (e: Entry) => e.sample.id !in ids + more);
  }

  lemma HasIdGrows(front: seq<Entry>, last: Entry, id: nat)
    ensures HasId(front + [last], id) <==> HasId(front, id) || last.sample.id == id
  {
    assert forall e :: e in front + [last] <==> e in front || e == last;
  }

  lemma DistinctFront(rows: seq<Entry>)
    requires rows != [] && DistinctEntries(rows)
    ensures DistinctEntries(rows[..|rows| - 1]) && !HasId(rows[..|rows| - 1], rows[|rows| - 1].sample.id)
  {
  }

  lemma {:induction false} OneMoreAcknowledged(rows: seq<Entry>, ids: set<nat>, id: nat)
    requires DistinctEntries(rows)
    ensures |Unacknowledged(rows, ids + {id})|
            == |Unacknowledged(rows, ids)| - (if HasId(rows, id) && id !in ids then 1 else 0)
  {
    if rows == [] {
      assert !HasId(rows, id);
    } else {
      hide *;
      var front, last := rows[..|rows| - 1], rows[|rows| - 1];
      assert rows == front + [last];
      DistinctFront(rows);
      OneMoreAcknowledged(front, ids, id);
      HasIdGrows(front, last, id);
      UnacknowledgedNext(front, last, ids);
      UnacknowledgedNext(front, last, ids + {id});
    }
  }

  lemma UnacknowledgedNext(front: seq<Entry>, last: Entry, ids: set<nat>)
    ensures Unacknowledged(front + [last], ids)
            == if last.sample.id in ids then Unacknowledged(front, ids) else Unacknowledged(front, ids) + [last]
  {
    assert (front + [last])[..|front|] == front;
  }

  lemma NothingAcknowledged(rows: seq<Entry>)
    ensures Unacknowledged(rows, {}) == rows
  {
    var none: set<nat> := {};
    FilterAll(rows, (e: Entry) => e.sample.id !in none);
  }

  function IdSet(ids: seq<nat>): set<nat> {
    set id | id in ids
  }

  class Queue {
    var rows: seq<Entry>

    /** The primary key. */
    ghost predicate Valid()
      reads this
    {
      DistinctEntries(rows)
    }

    constructor ()
      ensures Valid() && rows == []
    {
      rows := [];
    }

    /** INSERT OR IGNORE. */
    method Enqueue(sample: Sample, now: Instant)
      requires Valid()
      modifies this
      ensures Valid()
      ensures rows == if HasId(old(rows), sample.id) then old(rows) else old(rows) + [Entry(sample, now)]
    {
      if HasId(rows, sample.id) {
        return;
      }
      rows := rows + [Entry(sample, now)];
    }

    method Pending(limit: nat) returns (samples: seq<Sample>)
      ensures samples == PendingOf(rows, limit)
    {
      samples := PendingOf(rows, limit);
    }

    /** Deletes id by id and counts the rows that went. */
    method Acknowledge(ids: seq<nat>) returns (deleted: nat)
      requires Valid()
      modifies this
      ensures Valid()
      ensures rows == Unacknowledged(old(rows), IdSet(ids))
      ensures deleted == |old(rows)| - |rows|
    {
      deleted := 0;
      NothingAcknowledged(rows);
      assert IdSet(ids[..0]) == {};
      for i := 0 to |ids|
        invariant rows == Unacknowledged(old(rows), IdSet(ids[..i]))
        invariant deleted == |old(rows)| - |rows|
      {
        var before := |rows|;
        AcknowledgedAgain(old(rows), IdSet(ids[..i]), {ids[i]});
        assert IdSet(ids[..i + 1]) == IdSet(ids[..i]) + {ids[i]};
        hide HasId, DistinctEntries, Unacknowledged, IdSet;
        rows := Unacknowledged(rows, {ids[i]});
        deleted := deleted + (before - |rows|);
      }
      assert ids[..|ids|] == ids;
      UnacknowledgedKeepsDistinct(old(rows), IdSet(ids));
    }

    method Depth() returns (count: nat)
      ensures count == |rows|
    {
      count := |rows|;
    }

    method LastSequence() returns (sequence: int)
      ensures sequence == LastSequenceOf(rows)
    {
      sequence := LastSequenceOf(rows);
    }
  }

  // What a pending batch is.

  lemma PendingIsDistinct(rows: seq<Entry>, limit: nat)
    requires DistinctEntries(rows)
    ensures DistinctIds(PendingOf(rows, limit))
    ensures |PendingOf(rows, limit)| == Min(limit, |rows|)
    ensures forall s :: s in PendingOf(rows, limit) ==> exists e :: e in rows && e.sample == s
  {
    SentBeforeIsOrder();
    SortedIsInOrder(rows, SentBefore);
    var ordered := Sorted(rows, SentBefore);
    hide Sorted, SentBefore, InOrder, StrictWeakOrder;
    SortedEntriesStayDistinct(rows, ordered);
    var batch := PendingOf(rows, limit);
    forall s | s in batch ensures exists e :: e in rows && e.sample == s {
      var i :| 0 <= i < |batch| && batch[i] == s;
      assert ordered[i] in multiset(ordered);
      assert ordered[i] in rows;
    }
  }

  lemma SortedEntriesStayDistinct(rows: seq<Entry>, ordered: seq<Entry>)
    requires DistinctEntries(rows) && multiset(rows) == multiset(ordered)
    ensures DistinctEntries(ordered)
  {
    forall i, j | 0 <= i < j < |ordered| ensures ordered[i].sample.id != ordered[j].sample.id {
      assert ordered[i] in multiset(rows) && ordered[j] in multiset(rows);
      if ordered[i].sample.id == ordered[j].sample.id {
        var k :| 0 <= k < |rows| && rows[k] == ordered[i];
        var l :| 0 <= l < |rows| && rows[l] == ordered[j];
        assert k == l;
        assert ordered == ordered[..j] + [ordered[j]] + ordered[j + 1..];
        assert ordered[i] in ordered[..j];
        assert multiset(ordered)[ordered[i]] >= 2;
        EntryOccursOnce(rows, ordered[i]);
      }
    }
  }

  lemma {:induction false} EntryOccursOnce(rows: seq<Entry>, e: Entry)
    requires DistinctEntries(rows)
    ensures multiset(rows)[e] <= 1
  {
    if rows != [] {
      var front, last := rows[..|rows| - 1], rows[|rows| - 1];
      assert rows == front + [last];
      EntryOccursOnce(front, e);
    }
  }

  ghost predicate SequencesAscend(rows: seq<Entry>) {
    forall i, j :: 0 <= i < j < |rows| ==> rows[i].sample.sequence < rows[j].sample.sequence
  }

  /** While sequences ascend in the order of insertion, the queue is first in, first out. */
  lemma AscendingQueueIsFifo(rows: seq<Entry>, limit: nat)
    requires SequencesAscend(rows)
    ensures PendingOf(rows, limit) == SamplesOf(Taken(rows, limit))
  {
    SortingTheSorted(rows, SentBefore);
  }

  /** Rows with distinct ids that hold the same samples in the same places, and the same rows somewhere, are the same. */
  lemma SameSamplesSameRows(rows: seq<Entry>, ordered: seq<Entry>)
    requires DistinctEntries(rows) && multiset(ordered) == multiset(rows) && SamplesOf(ordered) == SamplesOf(rows)
    ensures ordered == rows
  {
    assert |ordered| == |SamplesOf(ordered)| && |rows| == |SamplesOf(rows)|;
    forall i | 0 <= i < |rows| ensures ordered[i] == rows[i] {
      assert SamplesOf(ordered)[i] == SamplesOf(rows)[i];
      assert ordered[i] in multiset(ordered);
      var j :| 0 <= j < |rows| && rows[j] == ordered[i];
    }
  }

  lemma PendingIsAll(rows: seq<Entry>)
    requires |Sorted(rows, SentBefore)| == |rows|
    ensures PendingOf(rows, |rows|) == SamplesOf(Sorted(rows, SentBefore))
  {
    hide Sorted, SamplesOf;
    var ordered := Sorted(rows, SentBefore);
    assert ordered[..|rows|] == ordered;
  }

  /** Samples leave in the order they were queued exactly when no later row sorts before an earlier one. */
  lemma QueueIsFifoIff(rows: seq<Entry>)
    requires DistinctEntries(rows)
    ensures PendingOf(rows, |rows|) == SamplesOf(rows) <==> InOrder(rows, SentBefore)
  {
    hide *;
    SentBeforeIsOrder();
    SortedIsInOrder(rows, SentBefore);
    PendingIsAll(rows);
    if InOrder(rows, SentBefore) {
      SortingTheSorted(rows, SentBefore);
    }
    if SamplesOf(Sorted(rows, SentBefore)) == SamplesOf(rows) {
      SameSamplesSameRows(rows, Sorted(rows, SentBefore));
    }
  }

  /** One more row keeps the queue in sending order exactly when it does not sort before the last. */
  lemma AppendedInOrderIff(rows: seq<Entry>, e: Entry)
    requires InOrder(rows, SentBefore)
    ensures InOrder(rows + [e], SentBefore) <==> rows == [] || !SentBefore(e, rows[|rows| - 1])
  {
    SentBeforeIsOrder();
    var longer := rows + [e];
    if rows != [] {
      var last := rows[|rows| - 1];
      assert longer[|rows| - 1] == last && longer[|rows|] == e;
      if !SentBefore(e, last) {
        forall i | 0 <= i < |rows| ensures !SentBefore(e, rows[i]) {
          assert i == |rows| - 1 || !SentBefore(last, rows[i]);
        }
      }
    }
  }

  lemma FrontInOrder(front: seq<Entry>, last: Entry)
    requires InOrder(front + [last], SentBefore)
    ensures InOrder(front, SentBefore) && forall e :: e in front ==> !SentBefore(last, e)
  {
    var rows := front + [last];
    assert rows[|front|] == last && forall i :: 0 <= i < |front| ==> rows[i] == front[i];
    hide SentBefore;
  }

  lemma LastInOrder(front: seq<Entry>, last: Entry)
    requires InOrder(front, SentBefore) && forall e :: e in front ==> !SentBefore(last, e)
    ensures InOrder(front + [last], SentBefore)
  {
    hide SentBefore;
  }

  lemma {:induction false} RemovalKeepsSendingOrder(rows: seq<Entry>, ids: set<nat>)
    requires InOrder(rows, SentBefore)
    ensures InOrder(Unacknowledged(rows, ids), SentBefore)
  {
    if rows != [] {
      var front, last := rows[..|rows| - 1], rows[|rows| - 1];
      assert rows == front + [last];
      assert forall e :: e in Unacknowledged(front, ids) ==> e in front;
      hide *;
      FrontInOrder(front, last);
      RemovalKeepsSendingOrder(front, ids);
      UnacknowledgedNext(front, last, ids);
      if last.sample.id !in ids {
        LastInOrder(Unacknowledged(front, ids), last);
      }
    }
  }

  /** The greatest number queued, and none at all in an empty queue: there counting starts at one. */
  lemma {:induction false} LastSequenceIsGreatest(rows: seq<Entry>)
    ensures rows == [] ==> LastSequenceOf(rows) == 0
    ensures forall e :: e in rows ==> e.sample.sequence <= LastSequenceOf(rows)
    ensures rows != [] ==> exists e :: e in rows && e.sample.sequence == LastSequenceOf(rows)
  {
    if rows != [] {
      var front, last := rows[..|rows| - 1], rows[|rows| - 1];
      assert rows == front + [last] && last in rows;
      LastSequenceIsGreatest(front);
    }
  }

  /** A batch is the oldest part of the queue: nothing that stays behind has a lower sequence number than anything sent. */
  lemma PendingAreTheOldest(rows: seq<Entry>, limit: nat)
    ensures var ordered := Sorted(rows, SentBefore); var n := Min(limit, |rows|);
      && |ordered| == |rows| && multiset(ordered) == multiset(rows)
      && PendingOf(rows, limit) == SamplesOf(ordered[..n])
      && (forall i, j :: 0 <= i < j < |ordered| ==>
            || ordered[i].sample.sequence < ordered[j].sample.sequence
            || (ordered[i].sample.sequence == ordered[j].sample.sequence && ordered[i].queuedAt <= ordered[j].queuedAt))
  {
    SentBeforeIsOrder();
    SortedIsInOrder(rows, SentBefore);
    var ordered := Sorted(rows, SentBefore);
    hide Sorted, SamplesOf;
    assert limit > |rows| ==> ordered[..|rows|] == ordered;
    forall i, j | 0 <= i < j < |ordered|
      ensures || ordered[i].sample.sequence < ordered[j].sample.sequence
              || (ordered[i].sample.sequence == ordered[j].sample.sequence && ordered[i].queuedAt <= ordered[j].queuedAt)
    {
      assert !SentBefore(ordered[j], ordered[i]);
    }
  }
}
