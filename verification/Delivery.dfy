/**
 * Delivery from queue to server over a network that loses, repeats and delays, with an agent that
 * crashes: every interleaving of its steps (agent/internal/runtime/runtime.go: Collect, Upload;
 * agent/internal/store/queue.go; backend/app/telemetry/services.py: ingest_batch).
 */
module Delivery {
  import opened Options
  import opened Registry
  import opened Sequences
  import opened Sorting
  import opened Ingestion
  import opened Timeline
  import opened Acceptance
  import opened Server
  import opened IngestionProperties
  import opened SampleQueue

  const MAX_TELEMETRY_BATCH_SIZE := 200

  /**
   * `requests` and `answers` are everything ever put on the network. `blind` records that a restart
   * could not read the queue's last sequence, and `enqueued` and `acknowledged` what happened so far.
   */
  datatype World = World(
    queue: seq<Entry>,
    sequence: int,
    blind: bool,
    requests: seq<seq<Sample>>,
    answers: seq<seq<nat>>,
    tables: Tables,
    enqueued: seq<Entry>,
    acknowledged: set<nat>)

  /** A request or an answer may arrive any number of times, in any order, or never. */
  datatype Action =
    | Collect(sample: Sample, now: Instant)
    | CollectFails
    | Send
    | Deliver(request: nat, retired: bool, hooks: seq<Hook>, now: Instant)
    | Learn(answer: nat)
    | Restart
    | RestartBlind
    | OtherReport(batch: Batch)

  function Start(): World {
    World([], 0, false, [], [], EmptyTables(), [], {})
  }

  /** A new sample's UUID has not been used before. */
  predicate IsUnused(w: World, id: nat) {
    !HasId(w.enqueued, id) && id !in StoredIds(w.tables.log)
  }

  /** Another source's samples have UUIDs of their own. */
  ghost predicate IsForeign(w: World, batch: Batch) {
    DistinctIds(batch.samples) && forall s :: s in batch.samples ==> !HasId(w.enqueued, s.id)
  }

  function AnswerTo(log: seq<Stored>, samples: seq<Sample>): seq<nat> {
    IdsOf(FreshSamples(log, samples)) + IdsOf(KnownSamples(log, samples))
  }

  function AfterCollect(w: World, sample: Sample, now: Instant): World {
    var e := Entry(sample.(sequence := w.sequence + 1), now);
    w.(sequence := w.sequence + 1, enqueued := w.enqueued + [e],
       queue := if HasId(w.queue, e.sample.id) then w.queue else w.queue + [e])
  }

  function AfterDelivery(source: Source, w: World, samples: seq<Sample>, hooks: seq<Hook>, now: Instant): World {
    w.(tables := AfterBatch(w.tables, source, samples, hooks, now), answers := w.answers + [AnswerTo(w.tables.log, samples)])
  }

  function AfterLearning(w: World, ids: seq<nat>): World {
    w.(queue := Unacknowledged(w.queue, IdSet(ids)), acknowledged := w.acknowledged + IdSet(ids))
  }

  /** What an action does; one that cannot happen in this world does nothing. */
  ghost function Stepped(source: Source, w: World, a: Action): World {
    match a
    case Collect(sample, now) => if IsUnused(w, sample.id) then AfterCollect(w, sample, now) else w
    case CollectFails => w.(sequence := w.sequence + 1)
    case Send => w.(requests := w.requests + [PendingOf(w.queue, MAX_TELEMETRY_BATCH_SIZE)])
    case Deliver(request, retired, hooks, now) =>
      if request < |w.requests| && !retired then AfterDelivery(source, w, w.requests[request], hooks, now) else w
    case Learn(answer) => if answer < |w.answers| then AfterLearning(w, w.answers[answer]) else w
    case Restart => w.(sequence := LastSequenceOf(w.queue))
    case RestartBlind => w.(sequence := 0, blind := true)
    case OtherReport(batch) => if IsForeign(w, batch) then w.(tables := AfterReport(w.tables, batch)) else w
  }

  ghost function WorldAfter(source: Source, run: seq<Action>): World {
    if run == [] then Start() else Stepped(source, WorldAfter(source, run[..|run| - 1]), run[|run| - 1])
  }

  ghost predicate WasEnqueued(enqueued: seq<Entry>, s: Sample) {
    exists e :: e in enqueued && e.sample == s
  }

  /** A stored row with the id of a sample of ours is that sample. */
  ghost predicate IsGenuine(source: Source, enqueued: seq<Entry>, row: Stored) {
    HasId(enqueued, row.sample.id) ==> exists e :: e in enqueued && row == StoredOf(source, e.sample)
  }

  ghost predicate QueueIsWhatRemains(queue: seq<Entry>, enqueued: seq<Entry>, acknowledged: set<nat>) {
    DistinctEntries(enqueued) && queue == Unacknowledged(enqueued, acknowledged)
  }

  ghost predicate AcknowledgedIsStored(log: seq<Stored>, acknowledged: set<nat>, answers: seq<seq<nat>>) {
    && acknowledged <= StoredIds(log)
    && forall i :: 0 <= i < |answers| ==> IdSet(answers[i]) <= StoredIds(log)
  }

  ghost predicate RequestsAreOurs(requests: seq<seq<Sample>>, enqueued: seq<Entry>) {
    forall i :: 0 <= i < |requests| ==> DistinctIds(requests[i]) && forall s :: s in requests[i] ==> WasEnqueued(enqueued, s)
  }

  ghost predicate StoredIsGenuine(source: Source, log: seq<Stored>, enqueued: seq<Entry>) {
    forall row :: row in log ==> IsGenuine(source, enqueued, row)
  }

  ghost predicate InOrderOfCollection(queue: seq<Entry>, sequence: int) {
    SequencesAscend(queue) && forall e :: e in queue ==> e.sample.sequence <= sequence
  }

  ghost predicate Sound(source: Source, w: World) {
    && QueueIsWhatRemains(w.queue, w.enqueued, w.acknowledged)
    && AcknowledgedIsStored(w.tables.log, w.acknowledged, w.answers)
    && RequestsAreOurs(w.requests, w.enqueued)
    && StoredIsGenuine(source, w.tables.log, w.enqueued)
    && (!w.blind ==> InOrderOfCollection(w.queue, w.sequence))
    && Consistent(w.tables)
  }

  lemma HasIdNext(rows: seq<Entry>, e: Entry, id: nat)
    ensures HasId(rows + [e], id) <==> HasId(rows, id) || e.sample.id == id
  {
    assert forall x :: x in rows + [e] <==> x in rows || x == e;
  }

  lemma OneMoreIsQueued(queue: seq<Entry>, enqueued: seq<Entry>, acknowledged: set<nat>, e: Entry)
    requires QueueIsWhatRemains(queue, enqueued, acknowledged)
    requires !HasId(enqueued, e.sample.id) && e.sample.id !in acknowledged
    ensures !HasId(queue, e.sample.id) && QueueIsWhatRemains(queue + [e], enqueued + [e], acknowledged)
  {
    assert forall x :: x in queue ==> x in enqueued;
    UnacknowledgedNext(enqueued, e, acknowledged);
    hide Unacknowledged;
    forall i | 0 <= i < |enqueued| ensures enqueued[i].sample.id != e.sample.id {
      assert enqueued[i] in enqueued;
    }
  }

  lemma RequestsStayOurs(requests: seq<seq<Sample>>, enqueued: seq<Entry>, e: Entry)
    requires RequestsAreOurs(requests, enqueued)
    ensures RequestsAreOurs(requests, enqueued + [e])
  {
    forall i, s | 0 <= i < |requests| && s in requests[i] ensures WasEnqueued(enqueued + [e], s) {
      var known :| known in enqueued && known.sample == s;
      assert known in enqueued + [e];
    }
  }

  lemma StoredStaysGenuine(source: Source, log: seq<Stored>, enqueued: seq<Entry>, e: Entry)
    requires StoredIsGenuine(source, log, enqueued) && e.sample.id !in StoredIds(log)
    ensures StoredIsGenuine(source, log, enqueued + [e])
  {
    hide StoredOf;
    forall row | row in log ensures IsGenuine(source, enqueued + [e], row) {
      assert IsGenuine(source, enqueued, row);
      assert row.sample.id in StoredIds(log);
      HasIdNext(enqueued, e, row.sample.id);
      if HasId(enqueued, row.sample.id) {
        var known :| known in enqueued && row == StoredOf(source, known.sample);
        assert known in enqueued + [e];
      }
    }
  }

  lemma NextIsLast(queue: seq<Entry>, sequence: int, e: Entry)
    requires InOrderOfCollection(queue, sequence) && e.sample.sequence == sequence + 1
    ensures InOrderOfCollection(queue + [e], sequence + 1)
  {
    forall i | 0 <= i < |queue| ensures queue[i].sample.sequence <= sequence {
      assert queue[i] in queue;
    }
  }

  lemma OneMoreIsSound(source: Source, w: World, e: Entry)
    requires Sound(source, w) && e.sample.sequence == w.sequence + 1
    requires !HasId(w.enqueued, e.sample.id) && e.sample.id !in StoredIds(w.tables.log) && e.sample.id !in w.acknowledged
    ensures !HasId(w.queue, e.sample.id)
    ensures Sound(source, w.(sequence := w.sequence + 1, enqueued := w.enqueued + [e], queue := w.queue + [e]))
  {
    hide QueueIsWhatRemains, AcknowledgedIsStored, RequestsAreOurs, StoredIsGenuine, InOrderOfCollection, Consistent, HasId, StoredIds;
    OneMoreIsQueued(w.queue, w.enqueued, w.acknowledged, e);
    RequestsStayOurs(w.requests, w.enqueued, e);
    StoredStaysGenuine(source, w.tables.log, w.enqueued, e);
    if !w.blind {
      NextIsLast(w.queue, w.sequence, e);
    }
  }

  lemma CollectIsSound(source: Source, w: World, sample: Sample, now: Instant)
    requires Sound(source, w) && IsUnused(w, sample.id)
    ensures Sound(source, AfterCollect(w, sample, now))
  {
    hide *;
    SoundAcknowledgesOnlyStored(source, w);
    AcknowledgedIsNotUnused(w, sample.id);
    UnusedIsUnused(w, sample.id);
    AfterCollectIs(w, sample, now);
    OneMoreIsSound(source, w, Entry(sample.(sequence := w.sequence + 1), now));
  }

  lemma SoundAcknowledgesOnlyStored(source: Source, w: World)
    requires Sound(source, w)
    ensures AcknowledgedIsStored(w.tables.log, w.acknowledged, w.answers)
  {
    hide QueueIsWhatRemains, AcknowledgedIsStored, RequestsAreOurs, StoredIsGenuine, InOrderOfCollection, Consistent;
  }

  lemma UnusedIsUnused(w: World, id: nat)
    requires IsUnused(w, id)
    ensures !HasId(w.enqueued, id) && id !in StoredIds(w.tables.log)
  {
    hide HasId, StoredIds;
  }

  lemma AfterCollectIs(w: World, sample: Sample, now: Instant)
    ensures !HasId(w.queue, sample.id) ==>
      var e := Entry(sample.(sequence := w.sequence + 1), now);
      AfterCollect(w, sample, now) == w.(sequence := w.sequence + 1, enqueued := w.enqueued + [e], queue := w.queue + [e])
  {
    hide HasId;
  }

  lemma AcknowledgedIsNotUnused(w: World, id: nat)
    requires AcknowledgedIsStored(w.tables.log, w.acknowledged, w.answers) && IsUnused(w, id)
    ensures id !in w.acknowledged
  {
  }

  lemma PendingIsOurs(queue: seq<Entry>, enqueued: seq<Entry>, acknowledged: set<nat>, requests: seq<seq<Sample>>, limit: nat)
    requires QueueIsWhatRemains(queue, enqueued, acknowledged) && RequestsAreOurs(requests, enqueued)
    ensures RequestsAreOurs(requests + [PendingOf(queue, limit)], enqueued)
  {
    UnacknowledgedKeepsDistinct(enqueued, acknowledged);
    PendingIsDistinct(queue, limit);
    assert forall e :: e in queue ==> e in enqueued;
    hide PendingOf, Unacknowledged;
    forall s | s in PendingOf(queue, limit) ensures WasEnqueued(enqueued, s) {
      var e :| e in queue && e.sample == s;
      assert e in enqueued;
    }
  }

  lemma SendIsSound(source: Source, w: World)
    requires Sound(source, w)
    ensures Sound(source, w.(requests := w.requests + [PendingOf(w.queue, MAX_TELEMETRY_BATCH_SIZE)]))
  {
    hide QueueIsWhatRemains, AcknowledgedIsStored, RequestsAreOurs, StoredIsGenuine, InOrderOfCollection, Consistent;
    PendingIsOurs(w.queue, w.enqueued, w.acknowledged, w.requests, MAX_TELEMETRY_BATCH_SIZE);
  }

  lemma AnsweredIsInBatch(accepted: seq<nat>, duplicates: seq<nat>, ids: seq<nat>)
    requires multiset(accepted) + multiset(duplicates) == multiset(ids)
    ensures forall id :: id in accepted + duplicates <==> id in ids
  {
    forall id ensures id in accepted + duplicates <==> id in ids {
      assert id in accepted + duplicates <==> id in multiset(accepted) + multiset(duplicates);
      assert id in ids <==> id in multiset(ids);
    }
  }

  lemma IdsAreTheSamples(samples: seq<Sample>)
    ensures IdSet(IdsOf(samples)) == set s | s in samples :: s.id
  {
    var ids := IdsOf(samples);
    assert forall i :: 0 <= i < |samples| ==> ids[i] == samples[i].id;
    hide IdsOf;
    forall id ensures id in ids <==> exists s :: s in samples && s.id == id {
      if s :| s in samples && s.id == id {
        var i :| 0 <= i < |samples| && samples[i] == s;
        assert ids[i] == id;
      }
      if id in ids {
        var i :| 0 <= i < |samples| && ids[i] == id;
        assert samples[i] in samples;
      }
    }
  }

  lemma AnswerNamesTheBatch(log: seq<Stored>, samples: seq<Sample>)
    requires DistinctIds(samples)
    ensures IdSet(AnswerTo(log, samples)) == set s | s in samples :: s.id
  {
    hide FreshSamples, KnownSamples, StoredIds, IdsOf, DistinctIds;
    AnswerListsEachIdOnce(log, samples);
    AnsweredIsInBatch(IdsOf(FreshSamples(log, samples)), IdsOf(KnownSamples(log, samples)), IdsOf(samples));
    IdsAreTheSamples(samples);
  }

  lemma NewRowsAreGenuine(source: Source, log: seq<Stored>, samples: seq<Sample>)
    ensures forall row :: row in NewRows(log, source, samples) ==> exists s :: s in samples && row == StoredOf(source, s)
  {
    var rows, kept := NewRows(log, source, samples), FreshSamples(log, samples);
    assert forall s :: s in kept ==> s in samples;
    forall row | row in rows ensures exists s :: s in samples && row == StoredOf(source, s) {
      var i :| 0 <= i < |rows| && rows[i] == row;
      assert kept[i] in kept && row == StoredOf(source, kept[i]);
    }
  }

  lemma AnswersStayStored(log: seq<Stored>, longer: seq<Stored>, acknowledged: set<nat>, answers: seq<seq<nat>>)
    requires AcknowledgedIsStored(log, acknowledged, answers) && StoredIds(log) <= StoredIds(longer)
    ensures AcknowledgedIsStored(longer, acknowledged, answers)
  {
  }

  lemma OurRowsAreGenuine(source: Source, log: seq<Stored>, rows: seq<Stored>, enqueued: seq<Entry>, samples: seq<Sample>)
    requires StoredIsGenuine(source, log, enqueued)
    requires forall s :: s in samples ==> WasEnqueued(enqueued, s)
    requires forall row :: row in rows ==> exists s :: s in samples && row == StoredOf(source, s)
    ensures StoredIsGenuine(source, log + rows, enqueued)
  {
    hide StoredOf, HasId;
    forall row | row in log + rows ensures IsGenuine(source, enqueued, row) {
      if row in log {
        assert IsGenuine(source, enqueued, row);
      } else {
        var s :| s in samples && row == StoredOf(source, s);
        assert WasEnqueued(enqueued, s);
      }
    }
  }

  lemma DeliveryIsSound(source: Source, w: World, request: nat, hooks: seq<Hook>, now: Instant)
    requires Sound(source, w) && request < |w.requests|
    ensures Sound(source, AfterDelivery(source, w, w.requests[request], hooks, now))
  {
    var samples := w.requests[request];
    var rows := NewRows(w.tables.log, source, samples);
    assert DistinctIds(samples) && forall s :: s in samples ==> WasEnqueued(w.enqueued, s);
    assert AfterBatch(w.tables, source, samples, hooks, now).log == w.tables.log + rows;
    hide QueueIsWhatRemains, RequestsAreOurs, StoredIsGenuine, InOrderOfCollection, Consistent, AfterBatch,
         NewRows, StoredIds, AnswerTo, StoredOf, DistinctIds, WasEnqueued;
    IngestionKeepsConsistency(w.tables, source, samples, hooks, now);
    BatchIsStored(w.tables, source, samples, hooks, now);
    AnswerNamesTheBatch(w.tables.log, samples);
    NewRowsAreGenuine(source, w.tables.log, samples);
    OurRowsAreGenuine(source, w.tables.log, rows, w.enqueued, samples);
  }

  lemma LearningKeepsQueue(queue: seq<Entry>, enqueued: seq<Entry>, acknowledged: set<nat>, ids: set<nat>)
    requires QueueIsWhatRemains(queue, enqueued, acknowledged)
    ensures QueueIsWhatRemains(Unacknowledged(queue, ids), enqueued, acknowledged + ids)
  {
    FilterTwice(enqueued, (e: Entry) => e.sample.id !in acknowledged, (e: Entry) => e.sample.id !in ids,
                (e: Entry) => e.sample.id !in acknowledged + ids);
    hide Filter, DistinctEntries;
  }

  lemma LearningKeepsOrder(queue: seq<Entry>, ids: set<nat>, sequence: int)
    requires InOrderOfCollection(queue, sequence)
    ensures InOrderOfCollection(Unacknowledged(queue, ids), sequence)
  {
    RemovalKeepsAscent(queue, ids);
    assert forall e :: e in Unacknowledged(queue, ids) ==> e in queue;
    hide Unacknowledged, SequencesAscend;
  }

  lemma LearningIsSound(source: Source, w: World, answer: nat)
    requires Sound(source, w) && answer < |w.answers|
    ensures Sound(source, AfterLearning(w, w.answers[answer]))
  {
    var ids := IdSet(w.answers[answer]);
    hide QueueIsWhatRemains, RequestsAreOurs, StoredIsGenuine, InOrderOfCollection, Consistent, Unacknowledged, StoredIds, IdSet;
    LearningKeepsQueue(w.queue, w.enqueued, w.acknowledged, ids);
    if !w.blind {
      LearningKeepsOrder(w.queue, ids, w.sequence);
    }
  }

  lemma AscentNext(front: seq<Entry>, last: Entry)
    ensures SequencesAscend(front + [last])
            <==> SequencesAscend(front) && forall e :: e in front ==> e.sample.sequence < last.sample.sequence
  {
    var rows := front + [last];
    if SequencesAscend(rows) {
      forall e | e in front ensures e.sample.sequence < last.sample.sequence {
        var i :| 0 <= i < |front| && front[i] == e;
        assert rows[i] == e && rows[|front|] == last;
      }
      forall i, j | 0 <= i < j < |front| ensures front[i].sample.sequence < front[j].sample.sequence {
        assert rows[i] == front[i] && rows[j] == front[j];
      }
    }
  }

  lemma {:induction false} RemovalKeepsAscent(rows: seq<Entry>, ids: set<nat>)
    ensures SequencesAscend(rows) ==> SequencesAscend(Unacknowledged(rows, ids))
  {
    if rows == [] {
      assert Unacknowledged(rows, ids) == [];
    } else {
      var front, last := rows[..|rows| - 1], rows[|rows| - 1];
      assert rows == front + [last];
      assert forall e :: e in Unacknowledged(front, ids) ==> e in front;
      hide *;
      RemovalKeepsAscent(front, ids);
      UnacknowledgedNext(front, last, ids);
      AscentNext(front, last);
      AscentNext(Unacknowledged(front, ids), last);
    }
  }

  lemma RestartKeepsOrder(queue: seq<Entry>, sequence: int)
    requires InOrderOfCollection(queue, sequence)
    ensures InOrderOfCollection(queue, LastSequenceOf(queue))
  {
    if queue != [] {
      LastSequenceIsGreatest(queue);
    }
    hide LastSequenceOf;
  }

  lemma RestartIsSound(source: Source, w: World)
    requires Sound(source, w)
    ensures Sound(source, w.(sequence := LastSequenceOf(w.queue)))
  {
    hide QueueIsWhatRemains, AcknowledgedIsStored, RequestsAreOurs, StoredIsGenuine, InOrderOfCollection, Consistent;
    if !w.blind {
      RestartKeepsOrder(w.queue, w.sequence);
    }
  }

  lemma ForeignRowsAreNotOurs(source: Source, log: seq<Stored>, rows: seq<Stored>, enqueued: seq<Entry>)
    requires StoredIsGenuine(source, log, enqueued) && forall row :: row in rows ==> !HasId(enqueued, row.sample.id)
    ensures StoredIsGenuine(source, log + rows, enqueued)
  {
    forall row | row in log + rows ensures IsGenuine(source, enqueued, row) {
      assert row in log ==> IsGenuine(source, enqueued, row);
    }
  }

  lemma OtherReportIsSound(source: Source, w: World, batch: Batch)
    requires Sound(source, w) && IsForeign(w, batch)
    ensures Sound(source, w.(tables := AfterReport(w.tables, batch)))
  {
    if !batch.source.retired {
      var rows := NewRows(w.tables.log, batch.source, batch.samples);
      assert AfterBatch(w.tables, batch.source, batch.samples, batch.hooks, batch.now).log == w.tables.log + rows;
      StoredOfKeepsId(batch.source);
      hide QueueIsWhatRemains, AcknowledgedIsStored, RequestsAreOurs, StoredIsGenuine, InOrderOfCollection, Consistent,
           AfterBatch, NewRows, StoredIds, StoredOf, HasId;
      IngestionKeepsConsistency(w.tables, batch.source, batch.samples, batch.hooks, batch.now);
      BatchIsStored(w.tables, batch.source, batch.samples, batch.hooks, batch.now);
      NewRowsAreGenuine(batch.source, w.tables.log, batch.samples);
      ForeignRowsAreNotOurs(source, w.tables.log, rows, w.enqueued);
      AnswersStayStored(w.tables.log, w.tables.log + rows, w.acknowledged, w.answers);
    }
  }

  lemma StartIsSound(source: Source)
    ensures Sound(source, Start())
  {
    EmptyTablesAreConsistent();
    NothingAcknowledged([]);
  }

  /** Every step of every interleaving keeps the world sound. */
  lemma {:induction false} EveryRunIsSound(source: Source, run: seq<Action>)
    ensures Sound(source, WorldAfter(source, run))
  {
    hide Sound, AfterCollect, AfterDelivery, AfterLearning, IsForeign;
    if run == [] {
      StartIsSound(source);
    } else {
      var w, a := WorldAfter(source, run[..|run| - 1]), run[|run| - 1];
      EveryRunIsSound(source, run[..|run| - 1]);
      match a
      case Collect(sample, now) => if IsUnused(w, sample.id) { CollectIsSound(source, w, sample, now); }
      case CollectFails => SequenceMayGrow(source, w);
      case Send => SendIsSound(source, w);
      case Deliver(request, retired, hooks, now) =>
        if request < |w.requests| && !retired { DeliveryIsSound(source, w, request, hooks, now); }
      case Learn(answer) => if answer < |w.answers| { LearningIsSound(source, w, answer); }
      case Restart => RestartIsSound(source, w);
      case RestartBlind => BlindRestartIsSound(source, w);
      case OtherReport(batch) => if IsForeign(w, batch) { OtherReportIsSound(source, w, batch); }
    }
  }

  lemma SequenceMayGrow(source: Source, w: World)
    requires Sound(source, w)
    ensures Sound(source, w.(sequence := w.sequence + 1))
  {
    hide QueueIsWhatRemains, AcknowledgedIsStored, RequestsAreOurs, StoredIsGenuine, Consistent, SequencesAscend;
  }

  lemma BlindRestartIsSound(source: Source, w: World)
    requires Sound(source, w)
    ensures Sound(source, w.(sequence := 0, blind := true))
  {
  }

  /** The log holds the sample under its source and vehicle, whole but for the observations that cannot be stored. */
  ghost predicate IsStored(source: Source, log: seq<Stored>, s: Sample) {
    Stored(source.vehicleId, source.id, Kept(s)) in log
  }

  /**
   * No loss and no double storage: whatever was enqueued is still queued or stored as it was sent,
   * and no two rows of the log carry its id.
   */
  lemma NothingLostNothingTwice(source: Source, run: seq<Action>, e: Entry)
    requires e in WorldAfter(source, run).enqueued
    ensures var w := WorldAfter(source, run);
      && (e in w.queue || IsStored(source, w.tables.log, e.sample))
      && (e !in w.queue <==> e.sample.id in w.acknowledged)
      && (forall i, j :: 0 <= i < j < |w.tables.log| ==> !(w.tables.log[i].sample.id == w.tables.log[j].sample.id == e.sample.id))
  {
    hide *;
    EveryRunIsSound(source, run);
    var w := WorldAfter(source, run);
    QueuedUnlessAcknowledged(source, w, e);
    AcknowledgedIsInLog(source, w, e);
    LogIsDistinct(source, w, e.sample.id);
  }

  lemma QueuedUnlessAcknowledged(source: Source, w: World, e: Entry)
    requires Sound(source, w) && e in w.enqueued
    ensures e !in w.queue <==> e.sample.id in w.acknowledged
  {
    hide AcknowledgedIsStored, RequestsAreOurs, StoredIsGenuine, InOrderOfCollection, Consistent, DistinctEntries;
  }

  lemma LogIsDistinct(source: Source, w: World, id: nat)
    requires Sound(source, w)
    ensures forall i, j :: 0 <= i < j < |w.tables.log| ==> !(w.tables.log[i].sample.id == w.tables.log[j].sample.id == id)
  {
    assert DistinctRows(w.tables.log);
    hide Sound, Consistent;
  }

  lemma AcknowledgedIsInLog(source: Source, w: World, e: Entry)
    requires Sound(source, w) && e in w.enqueued
    ensures e.sample.id in w.acknowledged ==> IsStored(source, w.tables.log, e.sample)
  {
    hide Consistent, StoredOf, Unacknowledged, RequestsAreOurs, InOrderOfCollection;
    if e.sample.id in w.acknowledged {
      assert e.sample.id in StoredIds(w.tables.log);
      var row :| row in w.tables.log && row.sample.id == e.sample.id;
      assert IsGenuine(source, w.enqueued, row);
      assert HasId(w.enqueued, row.sample.id);
      var twin :| twin in w.enqueued && row == StoredOf(source, twin.sample);
      StoredOfKeepsId(source);
      SameIdSameEntry(w.enqueued, e, twin);
      StoredKeepsTheStorable(source, e.sample);
    }
  }

  /**
   * From the agent's queue to the live state: every storable observation of an acknowledged sample has
   * a candidate row of its source, channel and key that is at least as new.
   */
  lemma AcknowledgedReachesCandidates(source: Source, run: seq<Action>, e: Entry, o: Observation)
    requires e in WorldAfter(source, run).enqueued && e.sample.id in WorldAfter(source, run).acknowledged
    requires o in e.sample.observations && IsStorable(o)
    ensures var candidates := WorldAfter(source, run).tables.candidates;
      var id := CandidateId(source.vehicleId, Identity(source.id, o.channel, o.key));
      id in candidates && candidates[id].row.observedAt >= o.observedAt
  {
    EveryRunIsSound(source, run);
    var w := WorldAfter(source, run);
    assert Consistent(w.tables);
    hide WorldAfter, Consistent, IsStorable;
    AcknowledgedIsInLog(source, w, e);
    StoredObservationHasCandidate(w.tables, Stored(source.vehicleId, source.id, Kept(e.sample)), o);
  }

  lemma SameIdSameEntry(rows: seq<Entry>, a: Entry, b: Entry)
    requires DistinctEntries(rows) && a in rows && b in rows && a.sample.id == b.sample.id
    ensures a == b
  {
    var i :| 0 <= i < |rows| && rows[i] == a;
    var j :| 0 <= j < |rows| && rows[j] == b;
    assert i == j;
  }

  lemma QueueIsDistinct(source: Source, w: World)
    requires Sound(source, w)
    ensures DistinctEntries(w.queue) && w.queue == Unacknowledged(w.enqueued, w.acknowledged)
    ensures !w.blind ==> SequencesAscend(w.queue)
  {
    UnacknowledgedKeepsDistinct(w.enqueued, w.acknowledged);
    hide Consistent, Unacknowledged, DistinctEntries, SequencesAscend;
  }

  /**
   * The queue holds exactly what was enqueued and not acknowledged, in the order of collection, and is
   * sent in that order exactly while it is in sending order; which only a restart that lost count ends.
   */
  lemma QueueKeepsItsOrder(source: Source, run: seq<Action>, limit: nat)
    ensures var w := WorldAfter(source, run);
      && w.queue == Unacknowledged(w.enqueued, w.acknowledged)
      && (PendingOf(w.queue, |w.queue|) == SamplesOf(Unacknowledged(w.enqueued, w.acknowledged)) <==> InOrder(w.queue, SentBefore))
      && (!w.blind ==> PendingOf(w.queue, limit) == SamplesOf(Taken(Unacknowledged(w.enqueued, w.acknowledged), limit)))
  {
    hide *;
    EveryRunIsSound(source, run);
    var w := WorldAfter(source, run);
    QueueIsDistinct(source, w);
    QueueIsFifoIff(w.queue);
    if !w.blind {
      AscendingQueueIsFifo(w.queue, limit);
    }
  }

  /** What the next collection has to meet to stay behind everything queued. */
  predicate FollowsQueue(queue: seq<Entry>, sequence: int, now: Instant) {
    queue == []
    || (var last := queue[|queue| - 1];
        last.sample.sequence < sequence || (last.sample.sequence == sequence && last.queuedAt <= now))
  }

  lemma CollectedInOrderIff(w: World, sample: Sample, now: Instant)
    requires InOrder(w.queue, SentBefore) && !HasId(w.queue, sample.id)
    ensures InOrder(AfterCollect(w, sample, now).queue, SentBefore) <==> FollowsQueue(w.queue, w.sequence + 1, now)
  {
    AppendedInOrderIff(w.queue, Entry(sample.(sequence := w.sequence + 1), now));
    hide InOrder, HasId;
  }

  lemma OnlyCollectionReorders(source: Source, w: World, a: Action)
    requires InOrder(w.queue, SentBefore) && !(a.Collect? && IsUnused(w, a.sample.id))
    ensures InOrder(Stepped(source, w, a).queue, SentBefore)
  {
    if a.Learn? && a.answer < |w.answers| {
      RemovalKeepsSendingOrder(w.queue, IdSet(w.answers[a.answer]));
    }
    hide InOrder, HasId, AfterBatch, AfterReport, IsForeign, PendingOf, Unacknowledged, AnswerTo, StoredIds;
  }

  /**
   * A queue in sending order leaves it at no step but a collection, and there exactly when the last
   * row of the queue has a higher sequence number than the new sample gets, or the same and a later time.
   */
  lemma StepKeepsSendingOrderIff(source: Source, run: seq<Action>, a: Action)
    requires InOrder(WorldAfter(source, run).queue, SentBefore)
    ensures var w := WorldAfter(source, run);
      InOrder(WorldAfter(source, run + [a]).queue, SentBefore)
      <==> (a.Collect? && IsUnused(w, a.sample.id) ==> FollowsQueue(w.queue, w.sequence + 1, a.now))
  {
    WorldNext(source, run, a);
    EveryRunIsSound(source, run);
    var w := WorldAfter(source, run);
    hide WorldAfter, InOrder, Sound, FollowsQueue;
    if a.Collect? && IsUnused(w, a.sample.id) {
      UnusedIsNotQueued(source, w, a.sample.id);
      CollectedInOrderIff(w, a.sample, a.now);
    } else {
      OnlyCollectionReorders(source, w, a);
    }
  }

  lemma UnusedIsNotQueued(source: Source, w: World, id: nat)
    requires Sound(source, w) && IsUnused(w, id)
    ensures !HasId(w.queue, id)
  {
    assert forall e :: e in w.queue ==> e in w.enqueued;
    hide Consistent, Unacknowledged;
  }

  /** After a blind restart the next sample is number one: it goes ahead of the queue unless that is empty or ends with another number one, not later. */
  lemma BlindRestartReordersIff(source: Source, run: seq<Action>, sample: Sample, now: Instant)
    requires InOrder(WorldAfter(source, run).queue, SentBefore) && IsUnused(WorldAfter(source, run), sample.id)
    ensures var queue := WorldAfter(source, run).queue;
      InOrder(WorldAfter(source, run + [RestartBlind] + [Collect(sample, now)]).queue, SentBefore)
      <==> queue == [] || (queue[|queue| - 1].sample.sequence <= 1 && (queue[|queue| - 1].sample.sequence == 1 ==> queue[|queue| - 1].queuedAt <= now))
  {
    WorldNext(source, run, RestartBlind);
    RestartsBlind(source, WorldAfter(source, run));
    hide WorldAfter, InOrder, Stepped, HasId, StoredIds;
    StepKeepsSendingOrderIff(source, run + [RestartBlind], Collect(sample, now));
  }

  lemma OnlyBlindRestartBlinds(source: Source, w: World, a: Action)
    ensures Stepped(source, w, a).blind == (w.blind || a.RestartBlind?)
  {
    hide AfterBatch, AfterReport, IsForeign, IsUnused, HasId, PendingOf, Unacknowledged, AnswerTo;
  }

  lemma {:induction false} BlindnessHasACause(source: Source, run: seq<Action>)
    ensures WorldAfter(source, run).blind <==> RestartBlind in run
  {
    hide Stepped;
    if run != [] {
      var front, last := run[..|run| - 1], run[|run| - 1];
      BlindnessHasACause(source, front);
      assert run == front + [last];
      OnlyBlindRestartBlinds(source, WorldAfter(source, front), last);
    }
  }

  lemma WorldNext(source: Source, run: seq<Action>, a: Action)
    ensures WorldAfter(source, run + [a]) == Stepped(source, WorldAfter(source, run), a)
  {
    assert (run + [a])[..|run|] == run;
    hide Stepped;
  }

  lemma OutOfSequenceIsReordered(first: Entry, second: Entry)
    requires first.sample.id != second.sample.id && second.sample.sequence < first.sample.sequence
    ensures PendingOf([first, second], 2) != SamplesOf([first, second])
  {
    var rows := [first, second];
    assert SentBefore(rows[1], rows[0]);
    QueueIsFifoIff(rows);
  }

  function Plain(id: nat): Sample {
    Sample(id, 0, 0, None, [], map[], None, false)
  }

  lemma SampleOneIsQueued(source: Source)
    ensures WorldAfter(source, [CollectFails, Collect(Plain(1), 0)])
            == Start().(sequence := 2, enqueued := [Entry(Plain(1).(sequence := 2), 0)], queue := [Entry(Plain(1).(sequence := 2), 0)])
  {
    WorldNext(source, [], CollectFails);
    assert [] + [CollectFails] == [CollectFails];
    WorldNext(source, [CollectFails], Collect(Plain(1), 0));
    assert [CollectFails] + [Collect(Plain(1), 0)] == [CollectFails, Collect(Plain(1), 0)];
  }

  /** A restart that cannot read the queue starts counting from one again, ahead of what waits there. */
  lemma BlindRestartCanReorder(source: Source)
    ensures var w := WorldAfter(source, [CollectFails, Collect(Plain(1), 0)] + [RestartBlind] + [Collect(Plain(2), 0)]);
      |w.queue| == 2 && PendingOf(w.queue, 2) != SamplesOf(w.queue)
  {
    var first, second := Entry(Plain(1).(sequence := 2), 0), Entry(Plain(2).(sequence := 1), 0);
    var run := [CollectFails, Collect(Plain(1), 0)];
    var before := Start().(sequence := 2, enqueued := [first], queue := [first]);
    var blind := before.(sequence := 0, blind := true);
    SecondIsCollected(source, blind, first, second);
    hide *;
    OutOfSequenceIsReordered(first, second);
    SampleOneIsQueued(source);
    WorldNext(source, run, RestartBlind);
    RestartsBlind(source, before);
    WorldNext(source, run + [RestartBlind], Collect(Plain(2), 0));
  }

  lemma RestartsBlind(source: Source, w: World)
    ensures Stepped(source, w, RestartBlind) == w.(sequence := 0, blind := true)
  {
  }

  lemma SecondIsCollected(source: Source, w: World, first: Entry, second: Entry)
    requires first == Entry(Plain(1).(sequence := 2), 0) && second == Entry(Plain(2).(sequence := 1), 0)
    requires w.queue == w.enqueued == [first] && w.sequence == 0 && w.tables.log == []
    ensures Stepped(source, w, Collect(Plain(2), 0)).queue == [first, second]
  {
    assert !HasId([first], 2) && 2 !in StoredIds([]);
    hide HasId, StoredIds;
  }

  // A round that goes through.

  lemma SentAndDelivered(source: Source, w: World, hooks: seq<Hook>, now: Instant)
    ensures var sent := Stepped(source, w, Send);
      var batch := PendingOf(w.queue, 200);
      var delivered := Stepped(source, sent, Deliver(|w.requests|, false, hooks, now));
      && sent.queue == w.queue && sent.requests == w.requests + [batch]
      && delivered.queue == w.queue && delivered.answers == w.answers + [AnswerTo(w.tables.log, batch)]
      && delivered.acknowledged == w.acknowledged
  {
    hide PendingOf, AfterBatch, AnswerTo;
  }

  lemma AnswerIsLearned(source: Source, w: World, answer: nat)
    requires answer < |w.answers|
    ensures var learned := Stepped(source, w, Learn(answer));
      && learned.queue == Unacknowledged(w.queue, IdSet(w.answers[answer]))
      && learned.acknowledged == w.acknowledged + IdSet(w.answers[answer])
  {
    hide Unacknowledged;
  }

  /**
   * A batch sent, delivered and answered leaves the queue: exactly its samples go, which are the oldest,
   * up to two hundred of them, and all of them count as acknowledged.
   */
  lemma RoundEmptiesTheBatch(source: Source, run: seq<Action>, hooks: seq<Hook>, now: Instant)
    ensures var w := WorldAfter(source, run);
      var batch := PendingOf(w.queue, 200);
      var after := WorldAfter(source, run + [Send] + [Deliver(|w.requests|, false, hooks, now)] + [Learn(|w.answers|)]);
      && after.queue == Unacknowledged(w.queue, set s | s in batch :: s.id)
      && after.acknowledged == w.acknowledged + set s | s in batch :: s.id
  {
    var w := WorldAfter(source, run);
    var deliver, learn := Deliver(|w.requests|, false, hooks, now), Learn(|w.answers|);
    hide *;
    EveryRunIsSound(source, run);
    QueueIsDistinct(source, w);
    PendingIsDistinct(w.queue, 200);
    AnswerNamesTheBatch(w.tables.log, PendingOf(w.queue, 200));
    WorldNext(source, run, Send);
    WorldNext(source, run + [Send], deliver);
    WorldNext(source, run + [Send] + [deliver], learn);
    SentAndDelivered(source, w, hooks, now);
    AnswerIsLearned(source, WorldAfter(source, run + [Send] + [deliver]), |w.answers|);
  }
}
