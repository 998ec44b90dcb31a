/**
 * The agent's two duties: collecting a sample into the queue and draining the queue into the server
 * (agent/internal/runtime/runtime.go: Collect, Upload).
 */
module Runtime {
  import opened Options
  import opened Numbers
  import opened Registry
  import opened Sequences
  import opened Resolution
  import opened Ingestion
  import opened Server
  import opened IngestionProperties
  import opened SampleQueue
  import opened Delivery
  import opened Collection

  /** What may go wrong with one attempt at uploading a batch, and when. */
  datatype Fate = QueueUnreadable | RequestLost | ResponseLost | QueueUnwritable | Fair

  datatype Attempt = Attempt(fate: Fate, hooks: seq<Hook>, now: Instant)

  function BatchIds(samples: seq<Sample>): set<nat> {
    set s | s in samples :: s.id
  }

  lemma BatchIdsNext(samples: seq<Sample>, k: nat)
    requires k < |samples|
    ensures BatchIds(samples[..k + 1]) == BatchIds(samples[..k]) + {samples[k].id}
  {
    assert forall s :: s in samples[..k + 1] <==> s in samples[..k] || s == samples[k];
  }

  /** Acknowledging a batch of queued samples removes as many rows as it has samples. */
  lemma {:induction false} BatchLeavesTheQueue(rows: seq<Entry>, samples: seq<Sample>, k: nat)
    requires DistinctEntries(rows) && DistinctIds(samples) && k <= |samples|
    requires forall s :: s in samples ==> HasId(rows, s.id)
    ensures |Unacknowledged(rows, BatchIds(samples[..k]))| == |rows| - k
  {
    if k == 0 {
      NothingAcknowledged(rows);
      assert BatchIds(samples[..0]) == {};
    } else {
      var known, s := BatchIds(samples[..k - 1]), samples[k - 1];
      FreshInBatch(samples, k - 1);
      assert s in samples;
      hide *;
      BatchLeavesTheQueue(rows, samples, k - 1);
      BatchIdsNext(samples, k - 1);
      OneMoreAcknowledged(rows, known, s.id);
    }
  }

  lemma FreshInBatch(samples: seq<Sample>, k: nat)
    requires DistinctIds(samples) && k < |samples|
    ensures samples[k].id !in BatchIds(samples[..k])
  {
  }

  lemma PendingIsQueued(rows: seq<Entry>, limit: nat)
    requires DistinctEntries(rows)
    ensures DistinctIds(PendingOf(rows, limit))
    ensures forall s :: s in PendingOf(rows, limit) ==> HasId(rows, s.id)
    ensures |PendingOf(rows, limit)| == Min(limit, |rows|)
  {
    PendingIsDistinct(rows, limit);
  }

  /** What the answer to a pending batch does to the queue. */
  lemma AnsweredBatchLeaves(rows: seq<Entry>, log: seq<Stored>, limit: nat)
    requires DistinctEntries(rows)
    ensures var samples := PendingOf(rows, limit); var left := Unacknowledged(rows, IdSet(AnswerTo(log, samples)));
      |left| == |rows| - |samples| && IdSet(AnswerTo(log, samples)) == BatchIds(samples)
  {
    var samples := PendingOf(rows, limit);
    PendingIsQueued(rows, limit);
    AnswerNamesTheBatch(log, samples);
    BatchLeavesTheQueue(rows, samples, |samples|);
    assert samples[..|samples|] == samples;
    hide PendingOf, AnswerTo, DistinctIds, DistinctEntries;
  }

  /** What has left the queue is in the log; what has not is queued as before, in its order. */
  ghost predicate OnlyStoredLeft(before: seq<Entry>, rows: seq<Entry>, removed: set<nat>, log: seq<Stored>) {
    rows == Unacknowledged(before, removed) && removed <= StoredIds(log)
  }

  lemma NothingLeft(before: seq<Entry>, log: seq<Stored>)
    ensures OnlyStoredLeft(before, before, {}, log)
  {
    NothingAcknowledged(before);
  }

  lemma OnlyStoredLeavesNext(before: seq<Entry>, rows: seq<Entry>, removed: set<nat>, log: seq<Stored>, longer: seq<Stored>, ids: set<nat>)
    requires OnlyStoredLeft(before, rows, removed, log) && StoredIds(longer) == StoredIds(log) + ids
    ensures OnlyStoredLeft(before, Unacknowledged(rows, ids), removed + ids, longer)
    ensures OnlyStoredLeft(before, rows, removed, longer)
  {
    hide StoredIds, Filter;
    FilterTwice(before, (e: Entry) => e.sample.id !in removed, (e: Entry) => e.sample.id !in ids, (e: Entry) => e.sample.id !in removed + ids);
  }

  ghost predicate Lists(published: Readout, observations: seq<Observation>) {
    && |observations| == |published|
    && (forall i :: 0 <= i < |observations| ==> IsListed(published, observations[i]))
    && (forall i, j :: 0 <= i < j < |observations| ==> observations[i].key != observations[j].key)
  }

  ghost predicate IsListed(published: Readout, o: Observation) {
    o.key in published && published[o.key] == Observed(o.value, o.observedAt, o.channel, o.technique)
  }

  /** The readout as a list; the order, by name of key, is left open. */
  method List(published: Readout) returns (observations: seq<Observation>)
    ensures Lists(published, observations)
  {
    observations := [];
    var remaining := published.Keys;
    while remaining != {}
      invariant remaining <= published.Keys
      invariant |observations| + |remaining| == |published.Keys|
      invariant forall i :: 0 <= i < |observations| ==> IsListed(published, observations[i]) && observations[i].key !in remaining
      invariant forall i, j :: 0 <= i < j < |observations| ==> observations[i].key != observations[j].key
      decreases remaining
    {
      var key :| key in remaining;
      remaining := remaining - {key};
      var o := published[key];
      observations := observations + [Observation(key, o.value, o.observedAt, o.channel, o.technique)];
    }
  }

  datatype Reading = Reading(fix: Fix, technique: Method, fixed: Fixed)

  ghost predicate PublishesFix(last: Option<Instant>, reading: Option<Reading>, now: Instant, position: Option<PositionReport>) {
    if reading.Some? && IsNewFix(last, FixedAt(reading.value.fixed, now))
    then position == Some(PositionReport(reading.value.fix, FixedAt(reading.value.fixed, now), Gnss, DirectMethod))
    else position == None
  }

  class Agent {
    const queue: Queue
    var sequence: int
    var vehicleKeys: Memory
    var positionObservedAt: Option<Instant>

    /** A restarted agent numbers on from the last queued sample and remembers nothing it published. */
    constructor (queue: Queue)
      ensures this.queue == queue && sequence == LastSequenceOf(queue.rows)
      ensures vehicleKeys == map[] && positionObservedAt == None
    {
      this.queue := queue;
      sequence, vehicleKeys, positionObservedAt := LastSequenceOf(queue.rows), map[], None;
    }

    method PublishVehicle(dead: bool, readout: Readout, now: Instant) returns (published: Readout)
      modifies this`vehicleKeys
      ensures if dead then vehicleKeys == map[] && IsRetraction(old(vehicleKeys), now, published)
              else RemembersReadout(old(vehicleKeys), readout, vehicleKeys) && published == Advanced(old(vehicleKeys), readout)
    {
      if dead {
        published := RetractRemembered(vehicleKeys, now);
        vehicleKeys := map[];
      } else {
        published, vehicleKeys := AdvanceReadout(vehicleKeys, readout);
      }
    }

    method PublishPosition(reading: Option<Reading>, now: Instant) returns (position: Option<PositionReport>)
      modifies this`positionObservedAt
      ensures PublishesFix(old(positionObservedAt), reading, now, position)
      ensures positionObservedAt == if position.Some? then Some(position.value.observedAt) else old(positionObservedAt)
    {
      position := None;
      if reading.Some? {
        var observedAt := FixedAt(reading.value.fixed, now);
        if positionObservedAt.None? || observedAt > positionObservedAt.value {
          position := Some(PositionReport(reading.value.fix, observedAt, Gnss, DirectMethod));
          positionObservedAt := Some(observedAt);
        }
      }
    }

    /** The sequence advances even when the sample cannot be queued. */
    method Collect(id: nat, now: Instant, dead: bool, readout: Readout, reading: Option<Reading>, health: map<string, Value>,
                   interval: Option<int>, writable: bool) returns (sample: Sample, ghost published: Readout)
      requires queue.Valid()
      modifies this, queue
      ensures queue.Valid()
      ensures sample.id == id && sample.recordedAt == now && sample.agent == health && sample.reportingInterval == interval
      ensures sequence == old(sequence) + 1 == sample.sequence
      ensures queue.rows == if writable && !HasId(old(queue.rows), id) then old(queue.rows) + [Entry(sample, now)] else old(queue.rows)
      ensures if dead then vehicleKeys == map[] && IsRetraction(old(vehicleKeys), now, published)
              else RemembersReadout(old(vehicleKeys), readout, vehicleKeys) && published == Advanced(old(vehicleKeys), readout)
      ensures Lists(published, sample.observations)
      ensures PublishesFix(old(positionObservedAt), reading, now, sample.position)
      ensures positionObservedAt == if sample.position.Some? then Some(sample.position.value.observedAt) else old(positionObservedAt)
    {
      hide HasId, DistinctEntries, RemembersReadout, IsRetraction, Advanced, Lists, PublishesFix;
      var readings := PublishVehicle(dead, readout, now);
      published := readings;
      var position := PublishPosition(reading, now);
      var observations := List(readings);
      sample := Sample(id, sequence + 1, now, position, observations, health, interval, false);
      sequence := sequence + 1;
      if writable {
        queue.Enqueue(sample, now);
      }
    }

    /**
     * Drains the queue batch by batch. It stops for one of two reasons: the queue is empty, or the
     * last attempt failed. Every sample that left the queue is in the server's log.
     */
    method Upload(server: TelemetryServer, source: Source, attempts: nat -> Attempt)
      returns (uploaded: nat, failed: bool, tries: nat, ghost removed: set<nat>)
      requires queue.Valid() && server.Valid()
      modifies queue, server
      ensures queue.Valid() && server.Valid()
      ensures uploaded == |old(queue.rows)| - |queue.rows|
      ensures OnlyStoredLeft(old(queue.rows), queue.rows, removed, server.log) && old(server.log) <= server.log
      ensures !failed ==> queue.rows == [] && forall i :: 0 <= i < tries ==> attempts(i).fate.Fair?
      ensures failed ==> tries > 0 && (source.retired || !attempts(tries - 1).fate.Fair?)
    {
      hide DistinctEntries, Consistent, AfterBatch, Unacknowledged, PendingOf, StoredIds, DistinctIds, OnlyStoredLeft,
           FreshSamples, KnownSamples, IdsOf, IdSet, HasId;
      uploaded, tries, removed := 0, 0, {};
      NothingLeft(queue.rows, server.log);
      while true
        invariant queue.Valid() && server.Valid()
        invariant uploaded == |old(queue.rows)| - |queue.rows|
        invariant OnlyStoredLeft(old(queue.rows), queue.rows, removed, server.log) && old(server.log) <= server.log
        invariant forall i :: 0 <= i < tries ==> attempts(i).fate.Fair?
        decreases |queue.rows|
      {
        ghost var rows := queue.rows;
        PendingIsQueued(rows, MAX_TELEMETRY_BATCH_SIZE);
        AnsweredBatchLeaves(rows, server.log, MAX_TELEMETRY_BATCH_SIZE);
        var attempt := attempts(tries);
        if attempt.fate.QueueUnreadable? {
          return uploaded, true, tries + 1, removed;
        }
        var samples := queue.Pending(MAX_TELEMETRY_BATCH_SIZE);
        if samples == [] {
          return uploaded, false, tries, removed;
        }
        if attempt.fate.RequestLost? {
          return uploaded, true, tries + 1, removed;
        }
        ghost var log := server.log;
        ghost var tables := server.Contents();
        var outcome := server.IngestBatch(source, samples, attempt.hooks, attempt.now);
        if outcome.RetiredSource? {
          return uploaded, true, tries + 1, removed;
        }
        BatchIsStored(tables, source, samples, attempt.hooks, attempt.now);
        OnlyStoredLeavesNext(old(queue.rows), rows, removed, log, server.log, BatchIds(samples));
        if attempt.fate.ResponseLost? || attempt.fate.QueueUnwritable? {
          return uploaded, true, tries + 1, removed;
        }
        var deleted := queue.Acknowledge(outcome.accepted + outcome.duplicates);
        removed := removed + BatchIds(samples);
        uploaded := uploaded + deleted;
        tries := tries + 1;
        var incomplete := deleted != |samples|;
        if incomplete || |samples| < MAX_TELEMETRY_BATCH_SIZE {
          return uploaded, incomplete, tries, removed;
        }
      }
    }
  }
}
