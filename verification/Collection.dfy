/**
 * What one collection publishes: only readings newer than the last published one, and, when the
 * vehicle's channel has died, a retraction of everything remembered of it
 * (agent/internal/runtime/runtime.go: Collect).
 */
module Collection {
  import opened Options
  import opened Numbers
  import opened Registry

  datatype Observed = Observed(value: Value, observedAt: Instant, channel: Channel, technique: Method)
  type Readout = map<Key, Observed>

  datatype Remembered = Remembered(technique: Method, observedAt: Instant)
  type Memory = map<Channel, map<Key, Remembered>>

  function Recall(memory: Memory, channel: Channel, key: Key): Option<Remembered> {
    if channel in memory && key in memory[channel] then Some(memory[channel][key]) else None
  }

  ghost predicate IsRemembered(memory: Memory, key: Key) {
    exists channel :: Recall(memory, channel, key).Some?
  }

  /** The reading is the first of its channel and key, or newer than the remembered one. */
  predicate Advances(memory: Memory, key: Key, o: Observed) {
    var known := Recall(memory, o.channel, key);
    known.None? || o.observedAt > known.value.observedAt
  }

  function Advanced(memory: Memory, readout: Readout): Readout {
    map key | key in readout && Advances(memory, key, readout[key]) :: readout[key]
  }

  /** What is recalled of a channel and key once a live readout has been taken. */
  function RecallAfter(memory: Memory, readout: Readout, channel: Channel, key: Key): Option<Remembered> {
    if key in readout && readout[key].channel == channel then
      var o, known := readout[key], Recall(memory, channel, key);
      Some(Remembered(o.technique, if known.None? then o.observedAt else Max(known.value.observedAt, o.observedAt)))
    else Recall(memory, channel, key)
  }

  ghost predicate RemembersReadout(before: Memory, readout: Readout, after: Memory) {
    forall channel, key :: Recall(after, channel, key) == RecallAfter(before, readout, channel, key)
  }

  /** One null for every remembered key, on a channel that remembers it. */
  ghost predicate IsRetraction(memory: Memory, now: Instant, published: Readout) {
    && (forall key :: key in published <==> IsRemembered(memory, key))
    && (forall key :: key in published ==> Retracts(memory, now, key, published[key]))
  }

  ghost predicate Retracts(memory: Memory, now: Instant, key: Key, o: Observed) {
    && o.value == Null && o.observedAt == now
    && Recall(memory, o.channel, key).Some? && o.technique == Recall(memory, o.channel, key).value.technique
  }

  method AdvanceReadout(memory: Memory, readout: Readout) returns (advanced: Readout, after: Memory)
    ensures advanced == Advanced(memory, readout)
    ensures RemembersReadout(memory, readout, after)
  {
    advanced, after := map[], memory;
    var remaining := readout.Keys;
    while remaining != {}
      invariant remaining <= readout.Keys
      invariant forall key :: key in advanced <==> key in readout && key !in remaining && Advances(memory, key, readout[key])
      invariant forall key :: key in advanced ==> advanced[key] == readout[key]
      invariant forall channel, key ::
          Recall(after, channel, key) == if key in remaining then Recall(memory, channel, key) else RecallAfter(memory, readout, channel, key)
      decreases remaining
    {
      var key :| key in remaining;
      remaining := remaining - {key};
      var o := readout[key];
      var keys := if o.channel in after then after[o.channel] else map[];
      var known := Recall(after, o.channel, key);
      assert known == Recall(memory, o.channel, key);
      var observedAt := if known.Some? then known.value.observedAt else o.observedAt;
      if known.None? || o.observedAt > known.value.observedAt {
        advanced := advanced[key := o];
        observedAt := o.observedAt;
      }
      ghost var before := after;
      after := after[o.channel := keys[key := Remembered(o.technique, observedAt)]];
      assert forall c, k ::
          Recall(after, c, k) == if c == o.channel && k == key then Some(Remembered(o.technique, observedAt)) else Recall(before, c, k);
    }
  }

  /** Which channel speaks for a key several of them remember depends on the map's iteration order. */
  method RetractRemembered(memory: Memory, now: Instant) returns (published: Readout)
    ensures IsRetraction(memory, now, published)
  {
    published := map[];
    var channels := memory.Keys;
    while channels != {}
      invariant channels <= memory.Keys
      invariant forall key :: key in published <==> exists channel :: channel !in channels && Recall(memory, channel, key).Some?
      invariant forall key :: key in published ==> Retracts(memory, now, key, published[key])
      decreases channels
    {
      var channel :| channel in channels;
      ghost var before, unseen := published, channels;
      var keys := memory[channel].Keys;
      while keys != {}
        invariant keys <= memory[channel].Keys
        invariant forall key :: key in published <==> key in before || (key in memory[channel] && key !in keys)
        invariant forall key :: key in published ==> Retracts(memory, now, key, published[key])
        decreases keys
      {
        var key :| key in keys;
        keys := keys - {key};
        published := published[key := Observed(Null, now, channel, memory[channel][key].technique)];
        assert Recall(memory, channel, key) == Some(memory[channel][key]);
      }
      channels := channels - {channel};
      forall key ensures key in published <==> exists c :: c !in channels && Recall(memory, c, key).Some? {
        if key in memory[channel] {
          assert Recall(memory, channel, key).Some?;
        } else if c :| c !in channels && Recall(memory, c, key).Some? {
          assert c !in unseen;
        }
      }
    }
  }

  datatype Fixed = Fixed(recordedAt: Option<Instant>, age: Option<Duration>)

  /** The fix's own time, or the present less its age. */
  function FixedAt(fix: Fixed, now: Instant): Instant {
    if fix.recordedAt.Some? then fix.recordedAt.value
    else if fix.age.Some? then now - fix.age.value
    else now
  }

  function IsNewFix(last: Option<Instant>, at: Instant): bool {
    last.None? || at > last.value
  }

  // Whole runs of collections.

  datatype Round = Round(dead: bool, readout: Readout)

  /** The memory a run leaves: a dead round forgets everything, a live one adds its readout. */
  ghost predicate Leaves(rounds: seq<Round>, memory: Memory)
    decreases |rounds|
  {
    if rounds == [] then memory == map[]
    else
      var last := rounds[|rounds| - 1];
      exists before :: Leaves(rounds[..|rounds| - 1], before)
                       && if last.dead then memory == map[] else RemembersReadout(before, last.readout, memory)
  }

  /** Round k belongs to the stretch of live rounds that ends the run. */
  predicate InLastStretch(rounds: seq<Round>, k: int) {
    0 <= k < |rounds| && forall i :: k <= i < |rounds| ==> !rounds[i].dead
  }

  /** Round k reads the key over the channel, observed at the instant. */
  predicate Reads(round: Round, channel: Channel, key: Key, at: Instant) {
    key in round.readout && round.readout[key].channel == channel && round.readout[key].observedAt == at
  }

  predicate ReadIn(rounds: seq<Round>, k: int, channel: Channel, key: Key, at: Instant) {
    InLastStretch(rounds, k) && Reads(rounds[k], channel, key, at)
  }

  /** Some round of the last live stretch read it. */
  ghost predicate WasRead(rounds: seq<Round>, channel: Channel, key: Key, at: Instant) {
    exists k :: ReadIn(rounds, k, channel, key, at)
  }

  /** What is remembered of a channel and key is the newest instant it was read at since the channel came up. */
  ghost predicate RecallsNewest(rounds: seq<Round>, known: Option<Remembered>, channel: Channel, key: Key) {
    match known
    case None => forall at :: !WasRead(rounds, channel, key, at)
    case Some(remembered) =>
      && WasRead(rounds, channel, key, remembered.observedAt)
      && forall at :: WasRead(rounds, channel, key, at) ==> at <= remembered.observedAt
  }

  lemma {:induction false} MemoryIsOfLastStretch(rounds: seq<Round>, memory: Memory, channel: Channel, key: Key)
    requires Leaves(rounds, memory)
    ensures RecallsNewest(rounds, Recall(memory, channel, key), channel, key)
    decreases |rounds|
  {
    if rounds != [] {
      var n := |rounds| - 1;
      var front, last := rounds[..n], rounds[n];
      var before :| Leaves(front, before) && if last.dead then memory == map[] else RemembersReadout(before, last.readout, memory);
      MemoryIsOfLastStretch(front, before, channel, key);
      hide RecallsNewest;
      if last.dead {
        NothingRecalled(rounds, channel, key);
      } else {
        StretchGrows(rounds, before, memory, channel, key);
      }
    }
  }

  lemma NothingRecalled(rounds: seq<Round>, channel: Channel, key: Key)
    requires rounds != [] && rounds[|rounds| - 1].dead
    ensures RecallsNewest(rounds, None, channel, key)
  {
    assert forall k :: !InLastStretch(rounds, k);
  }

  lemma ReadInNext(rounds: seq<Round>, k: int, channel: Channel, key: Key, at: Instant)
    requires rounds != [] && !rounds[|rounds| - 1].dead
    ensures var n := |rounds| - 1;
      ReadIn(rounds, k, channel, key, at)
      <==> if k == n then Reads(rounds[n], channel, key, at) else ReadIn(rounds[..n], k, channel, key, at)
  {
  }

  lemma WasReadNext(rounds: seq<Round>, channel: Channel, key: Key, at: Instant)
    requires rounds != [] && !rounds[|rounds| - 1].dead
    ensures WasRead(rounds, channel, key, at)
            <==> WasRead(rounds[..|rounds| - 1], channel, key, at) || Reads(rounds[|rounds| - 1], channel, key, at)
  {
    hide ReadIn, Reads;
    var n := |rounds| - 1;
    var front := rounds[..n];
    ReadInNext(rounds, n, channel, key, at);
    if WasRead(front, channel, key, at) {
      var k :| ReadIn(front, k, channel, key, at);
      ReadInNext(rounds, k, channel, key, at);
      ReadInIsInside(front, k, channel, key, at);
    }
    if WasRead(rounds, channel, key, at) {
      var k :| ReadIn(rounds, k, channel, key, at);
      ReadInNext(rounds, k, channel, key, at);
    }
  }

  lemma ReadInIsInside(rounds: seq<Round>, k: int, channel: Channel, key: Key, at: Instant)
    requires ReadIn(rounds, k, channel, key, at)
    ensures 0 <= k < |rounds|
  {
  }

  lemma StretchGrows(rounds: seq<Round>, before: Memory, memory: Memory, channel: Channel, key: Key)
    requires rounds != [] && !rounds[|rounds| - 1].dead
    requires RecallsNewest(rounds[..|rounds| - 1], Recall(before, channel, key), channel, key)
    requires RemembersReadout(before, rounds[|rounds| - 1].readout, memory)
    ensures RecallsNewest(rounds, Recall(memory, channel, key), channel, key)
  {
    hide WasRead, Recall, InLastStretch, ReadIn, Reads;
    var front, last := rounds[..|rounds| - 1], rounds[|rounds| - 1];
    forall at ensures WasRead(rounds, channel, key, at) <==> WasRead(front, channel, key, at) || Reads(last, channel, key, at) {
      WasReadNext(rounds, channel, key, at);
    }
    assert Recall(memory, channel, key) == RecallAfter(before, last.readout, channel, key);
    ReadsOnce(last, channel, key);
  }

  lemma ReadsOnce(round: Round, channel: Channel, key: Key)
    ensures forall at :: Reads(round, channel, key, at) <==>
      (key in round.readout && round.readout[key].channel == channel && at == round.readout[key].observedAt)
  {
  }

  /** What round `n` publishes, given the memory the rounds before it left. */
  ghost predicate PublishesLive(rounds: seq<Round>, n: nat, published: Readout)
    requires n < |rounds|
  {
    !rounds[n].dead && exists before :: Leaves(rounds[..n], before) && published == Advanced(before, rounds[n].readout)
  }

  /**
   * Within one live stretch, whatever a channel publishes of a key is strictly newer than everything
   * it read of that key before, published or not; and every such reading is published.
   */
  lemma PublishedIffNewest(rounds: seq<Round>, n: nat, published: Readout, key: Key)
    requires n < |rounds| && PublishesLive(rounds, n, published) && key in rounds[n].readout
    ensures var o := rounds[n].readout[key];
      key in published <==> forall at :: WasRead(rounds[..n], o.channel, key, at) ==> at < o.observedAt
    ensures key in published ==> published[key] == rounds[n].readout[key]
  {
    var front := rounds[..n];
    var before :| Leaves(front, before) && published == Advanced(before, rounds[n].readout);
    MemoryIsOfLastStretch(front, before, rounds[n].readout[key].channel, key);
    hide Leaves, WasRead;
  }

  /** So two publications of one key over one channel, with no death in between, are in order of time. */
  lemma PublishedReadingsAdvance(rounds: seq<Round>, k: nat, n: nat, earlier: Readout, later: Readout, key: Key)
    requires k < n < |rounds| && (forall i :: k <= i < n ==> !rounds[i].dead)
    requires PublishesLive(rounds, k, earlier) && PublishesLive(rounds, n, later)
    requires key in earlier && key in later && earlier[key].channel == later[key].channel
    ensures earlier[key].observedAt < later[key].observedAt
  {
    PublishedIffNewest(rounds, k, earlier, key);
    PublishedIffNewest(rounds, n, later, key);
    hide PublishesLive;
    assert ReadIn(rounds[..n], k, earlier[key].channel, key, earlier[key].observedAt);
    assert WasRead(rounds[..n], later[key].channel, key, earlier[key].observedAt);
  }

  ghost predicate WasReadAtAll(rounds: seq<Round>, key: Key) {
    exists k :: InLastStretch(rounds, k) && key in rounds[k].readout
  }

  lemma ReadSomehow(rounds: seq<Round>, key: Key)
    ensures WasReadAtAll(rounds, key) <==> exists channel, at :: WasRead(rounds, channel, key, at)
  {
    if WasReadAtAll(rounds, key) {
      var k :| InLastStretch(rounds, k) && key in rounds[k].readout;
      var o := rounds[k].readout[key];
      assert ReadIn(rounds, k, o.channel, key, o.observedAt);
      assert WasRead(rounds, o.channel, key, o.observedAt);
    }
    if channel, at :| WasRead(rounds, channel, key, at) {
      var k :| ReadIn(rounds, k, channel, key, at);
      assert InLastStretch(rounds, k) && key in rounds[k].readout;
    }
  }

  lemma RememberedIffRead(rounds: seq<Round>, memory: Memory, key: Key)
    requires Leaves(rounds, memory)
    ensures IsRemembered(memory, key) <==> WasReadAtAll(rounds, key)
  {
    hide Leaves, WasRead, WasReadAtAll, Recall;
    ReadSomehow(rounds, key);
    forall channel ensures RecallsNewest(rounds, Recall(memory, channel, key), channel, key) {
      MemoryIsOfLastStretch(rounds, memory, channel, key);
    }
    if IsRemembered(memory, key) {
      var channel :| Recall(memory, channel, key).Some?;
      assert RecallsNewest(rounds, Recall(memory, channel, key), channel, key);
    }
    if channel, at :| WasRead(rounds, channel, key, at) {
      assert RecallsNewest(rounds, Recall(memory, channel, key), channel, key);
    }
  }

  /** The first dead round retracts exactly the keys read in the stretch before it; the next one retracts nothing. */
  lemma DeathRetractsOnce(rounds: seq<Round>, memory: Memory, now: Instant, published: Readout)
    requires Leaves(rounds, memory) && IsRetraction(memory, now, published)
    ensures forall key :: key in published <==> WasReadAtAll(rounds, key)
    ensures rounds != [] && rounds[|rounds| - 1].dead ==> published == map[]
  {
    forall key ensures IsRemembered(memory, key) <==> WasReadAtAll(rounds, key) {
      RememberedIffRead(rounds, memory, key);
    }
    hide IsRemembered;
    if rounds != [] && rounds[|rounds| - 1].dead {
      assert forall k :: !InLastStretch(rounds, k);
      assert published.Keys == {};
    }
  }

  /** The instants of the positions a run publishes, oldest round first. */
  function PublishedFixes(instants: seq<Instant>): seq<Instant> {
    if instants == [] then [] else
    var published := PublishedFixes(instants[..|instants| - 1]);
    var last := if published == [] then None else Some(published[|published| - 1]);
    if IsNewFix(last, instants[|instants| - 1]) then published + [instants[|instants| - 1]] else published
  }

  /** Published fixes strictly advance over the whole run, and end at the newest ever seen. */
  lemma {:induction false} PublishedFixesAdvance(instants: seq<Instant>)
    ensures var published := PublishedFixes(instants);
      && (forall i, j :: 0 <= i < j < |published| ==> published[i] < published[j])
      && (instants != [] ==> published != [])
      && (forall at :: at in instants ==> at <= published[|published| - 1])
      && (forall at :: at in published ==> at in instants)
  {
    if instants != [] {
      var front := instants[..|instants| - 1];
      PublishedFixesAdvance(front);
      assert instants == front + [instants[|instants| - 1]];
    }
  }

  // What is published, in its own terms.

  /** A fix is dated by its own clock, or by how old the receiver says it is, or by the present. */
  lemma FixIsDated(own: Instant, age: Duration, now: Instant)
    ensures FixedAt(Fixed(Some(own), Some(age)), now) == own && FixedAt(Fixed(Some(own), None), now) == own
    ensures FixedAt(Fixed(None, Some(age)), now) + age == now
    ensures FixedAt(Fixed(None, None), now) == now
  {
  }

  /** Of all readings of a channel and key in the run, round k has the last. */
  predicate ReadsLast(rounds: seq<Round>, k: int, channel: Channel, key: Key) {
    && InLastStretch(rounds, k) && key in rounds[k].readout && rounds[k].readout[key].channel == channel
    && forall i :: k < i < |rounds| ==> !(key in rounds[i].readout && rounds[i].readout[key].channel == channel)
  }

  ghost predicate RecallsTechnique(rounds: seq<Round>, known: Option<Remembered>, channel: Channel, key: Key) {
    known.Some? ==> exists k :: ReadsLast(rounds, k, channel, key) && rounds[k].readout[key].technique == known.value.technique
  }

  lemma LastReadingStands(rounds: seq<Round>, known: Option<Remembered>, channel: Channel, key: Key)
    requires rounds != [] && !rounds[|rounds| - 1].dead
    requires RecallsTechnique(rounds[..|rounds| - 1], known, channel, key)
    requires !(key in rounds[|rounds| - 1].readout && rounds[|rounds| - 1].readout[key].channel == channel)
    ensures RecallsTechnique(rounds, known, channel, key)
  {
    var n := |rounds| - 1;
    if known.Some? {
      var k :| ReadsLast(rounds[..n], k, channel, key) && rounds[..n][k].readout[key].technique == known.value.technique;
      assert rounds[..n][k] == rounds[k] && forall i :: 0 <= i < n ==> rounds[..n][i] == rounds[i];
      assert ReadsLast(rounds, k, channel, key);
    }
  }

  lemma NewReadingIsLast(rounds: seq<Round>, known: Option<Remembered>, channel: Channel, key: Key)
    requires rounds != [] && !rounds[|rounds| - 1].dead
    requires var last := rounds[|rounds| - 1].readout;
      key in last && last[key].channel == channel && known.Some? && known.value.technique == last[key].technique
    ensures RecallsTechnique(rounds, known, channel, key)
  {
    assert ReadsLast(rounds, |rounds| - 1, channel, key);
  }

  /** The method remembered, and given in a retraction, is that of the last reading taken, published or not. */
  lemma {:induction false} MemoryHasLastTechnique(rounds: seq<Round>, memory: Memory, channel: Channel, key: Key)
    requires Leaves(rounds, memory)
    ensures RecallsTechnique(rounds, Recall(memory, channel, key), channel, key)
    decreases |rounds|
  {
    if rounds != [] {
      var n := |rounds| - 1;
      var front, last := rounds[..n], rounds[n];
      var before :| Leaves(front, before) && if last.dead then memory == map[] else RemembersReadout(before, last.readout, memory);
      MemoryHasLastTechnique(front, before, channel, key);
      hide RecallsTechnique;
      if last.dead {
        NothingToRecall(rounds, channel, key);
      } else {
        StretchKeepsTechnique(rounds, before, memory, channel, key);
      }
    } else {
      NothingToRecall(rounds, channel, key);
    }
  }

  lemma StretchKeepsTechnique(rounds: seq<Round>, before: Memory, memory: Memory, channel: Channel, key: Key)
    requires rounds != [] && !rounds[|rounds| - 1].dead
    requires RecallsTechnique(rounds[..|rounds| - 1], Recall(before, channel, key), channel, key)
    requires RemembersReadout(before, rounds[|rounds| - 1].readout, memory)
    ensures RecallsTechnique(rounds, Recall(memory, channel, key), channel, key)
  {
    hide RecallsTechnique, Recall;
    var last := rounds[|rounds| - 1].readout;
    assert Recall(memory, channel, key) == RecallAfter(before, last, channel, key);
    if key in last && last[key].channel == channel {
      NewReadingIsLast(rounds, Recall(memory, channel, key), channel, key);
    } else {
      LastReadingStands(rounds, Recall(memory, channel, key), channel, key);
    }
  }

  lemma NothingToRecall(rounds: seq<Round>, channel: Channel, key: Key)
    ensures RecallsTechnique(rounds, None, channel, key)
  {
  }

  // There is always a memory to speak of.

  ghost function MemoryAfter(memory: Memory, readout: Readout): Memory {
    map channel | channel in memory.Keys + (set key | key in readout :: readout[key].channel) ::
      map key | key in (if channel in memory then memory[channel].Keys else {}) + readout.Keys
                && RecallAfter(memory, readout, channel, key).Some?
             :: RecallAfter(memory, readout, channel, key).value
  }

  lemma ReadoutIsRemembered(memory: Memory, readout: Readout)
    ensures RemembersReadout(memory, readout, MemoryAfter(memory, readout))
  {
    forall channel, key ensures Recall(MemoryAfter(memory, readout), channel, key) == RecallAfter(memory, readout, channel, key) {
      if key in readout && readout[key].channel == channel {
        assert channel in MemoryAfter(memory, readout);
      }
    }
  }

  /** Every run of rounds leaves a memory. */
  lemma {:induction false} EveryRunLeavesAMemory(rounds: seq<Round>) returns (memory: Memory)
    ensures Leaves(rounds, memory)
    decreases |rounds|
  {
    memory := map[];
    if rounds != [] {
      var n := |rounds| - 1;
      var before := EveryRunLeavesAMemory(rounds[..n]);
      if !rounds[n].dead {
        ReadoutIsRemembered(before, rounds[n].readout);
        memory := MemoryAfter(before, rounds[n].readout);
      }
      RoundLeaves(rounds, before, memory);
    }
  }

  lemma RoundLeaves(rounds: seq<Round>, before: Memory, memory: Memory)
    requires rounds != [] && Leaves(rounds[..|rounds| - 1], before)
    requires if rounds[|rounds| - 1].dead then memory == map[] else RemembersReadout(before, rounds[|rounds| - 1].readout, memory)
    ensures Leaves(rounds, memory)
    decreases |rounds|
  {
    var last := rounds[|rounds| - 1];
    var remembers := RemembersReadout(before, last.readout, memory);
    assert Leaves(rounds[..|rounds| - 1], before) && if last.dead then memory == map[] else remembers;
  }
}
