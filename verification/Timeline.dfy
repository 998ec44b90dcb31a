/**
 * The candidate state of a vehicle and the events that change it
 * (backend/app/history/reconstruction.py: CandidateState, TimedEvent, the body of the replay loop).
 */
module Timeline {
  import opened Registry
  import opened Resolution

  datatype Identity = Identity(sourceId: string, channel: Channel, key: Key)

  function IdentityOf(c: Candidate): Identity {
    Identity(c.origin.sourceId, c.origin.channel, c.key)
  }

  /**
   * The metric and position dictionaries, as the values of a Python dictionary keyed by identity:
   * in insertion order, which is the order the resolver breaks ties in.
   */
  datatype CandidateState = CandidateState(
    metrics: seq<Candidate>,
    positions: seq<PositionCandidate>,
    agent: map<string, Value>)

  datatype Event =
    | MetricEvent(metric: Candidate)
    | PositionEvent(position: PositionCandidate)
    | AgentEvent(at: Instant, data: map<string, Value>)
  {
    function At(): Instant {
      match this
      case MetricEvent(metric) => metric.origin.observedAt
      case PositionEvent(position) => position.origin.observedAt
      case AgentEvent(at, _) => at
    }
  }

  /** Dictionary assignment: an existing identity keeps its place, a new one goes last. */
  function PutMetric(metrics: seq<Candidate>, c: Candidate): seq<Candidate> {
    if metrics == [] then [c]
    else if IdentityOf(metrics[0]) == IdentityOf(c) then [c] + metrics[1..]
    else [metrics[0]] + PutMetric(metrics[1..], c)
  }

  predicate SamePlace(a: PositionCandidate, b: PositionCandidate) {
    a.origin.sourceId == b.origin.sourceId && a.origin.channel == b.origin.channel
  }

  function PutPosition(positions: seq<PositionCandidate>, p: PositionCandidate): seq<PositionCandidate> {
    if positions == [] then [p]
    else if SamePlace(positions[0], p) then [p] + positions[1..]
    else [positions[0]] + PutPosition(positions[1..], p)
  }

  function SpeedOf(fix: Fix): Value {
    if "speed" in fix then fix["speed"] else Null
  }

  /** A position carries its receiver's speed into the metric candidates. */
  function MirroredSpeed(p: PositionCandidate): Candidate {
    Candidate(VehicleSpeed, SpeedOf(p.value), p.origin.(channel := Gnss))
  }

  function Apply(state: CandidateState, event: Event): CandidateState {
    match event
    case MetricEvent(metric) => state.(metrics := PutMetric(state.metrics, metric))
    case PositionEvent(position) =>
      state.(positions := PutPosition(state.positions, position),
             metrics := PutMetric(state.metrics, MirroredSpeed(position)))
    case AgentEvent(_, data) => state.(agent := state.agent + data)
  }

  function Fold(initial: CandidateState, events: seq<Event>): CandidateState {
    if events == [] then initial
    else Apply(Fold(initial, events[..|events| - 1]), events[|events| - 1])
  }

  /** The event that put a candidate into the state. */
  predicate CarriesMetric(event: Event, c: Candidate) {
    event == MetricEvent(c) || (event.PositionEvent? && MirroredSpeed(event.position) == c)
  }

  predicate CarriesPosition(event: Event, p: PositionCandidate) {
    event == PositionEvent(p)
  }

  lemma {:induction false} PutMetricHolds(metrics: seq<Candidate>, c: Candidate)
    ensures c in PutMetric(metrics, c)
    ensures forall d :: d in PutMetric(metrics, c) ==> d == c || d in metrics
  {
    if metrics != [] && IdentityOf(metrics[0]) != IdentityOf(c) {
      PutMetricHolds(metrics[1..], c);
      assert c in PutMetric(metrics[1..], c);
    }
  }

  lemma {:induction false} PutPositionHolds(positions: seq<PositionCandidate>, p: PositionCandidate)
    ensures p in PutPosition(positions, p)
    ensures forall q :: q in PutPosition(positions, p) ==> q == p || q in positions
  {
    if positions != [] && !SamePlace(positions[0], p) {
      PutPositionHolds(positions[1..], p);
      assert p in PutPosition(positions[1..], p);
    }
  }

  /** Nothing enters the state but through an event, and nothing that left comes back on its own. */
  lemma ApplyBringsOnlyWhatItCarries(state: CandidateState, event: Event)
    ensures forall c :: c in Apply(state, event).metrics ==> c in state.metrics || CarriesMetric(event, c)
    ensures forall p :: p in Apply(state, event).positions ==> p in state.positions || CarriesPosition(event, p)
  {
    match event
    case MetricEvent(metric) => PutMetricHolds(state.metrics, metric);
    case PositionEvent(position) =>
      PutMetricHolds(state.metrics, MirroredSpeed(position));
      PutPositionHolds(state.positions, position);
    case AgentEvent(_, _) =>
  }

  lemma {:induction false} HeldMetricHasAnOrigin(initial: CandidateState, events: seq<Event>, c: Candidate)
    requires c in Fold(initial, events).metrics
    ensures c in initial.metrics || exists e :: e in events && CarriesMetric(e, c)
  {
    if events != [] {
      var front, last := events[..|events| - 1], events[|events| - 1];
      ApplyBringsOnlyWhatItCarries(Fold(initial, front), last);
      if c in Fold(initial, front).metrics {
        HeldMetricHasAnOrigin(initial, front, c);
      }
    }
  }

  lemma {:induction false} HeldPositionHasAnOrigin(initial: CandidateState, events: seq<Event>, p: PositionCandidate)
    requires p in Fold(initial, events).positions
    ensures p in initial.positions || exists e :: e in events && CarriesPosition(e, p)
  {
    if events != [] {
      var front, last := events[..|events| - 1], events[|events| - 1];
      ApplyBringsOnlyWhatItCarries(Fold(initial, front), last);
      if p in Fold(initial, front).positions {
        HeldPositionHasAnOrigin(initial, front, p);
      }
    }
  }

  /** A candidate no event carries was there all along. */
  lemma {:induction false} HeldMetricWasHeldBefore(initial: CandidateState, events: seq<Event>, shorter: nat, c: Candidate)
    requires shorter <= |events| && c in Fold(initial, events).metrics
    requires forall e :: e in events ==> !CarriesMetric(e, c)
    ensures c in Fold(initial, events[..shorter]).metrics
  {
    if shorter == |events| {
      assert events[..shorter] == events;
    } else {
      var front, last := events[..|events| - 1], events[|events| - 1];
      ApplyBringsOnlyWhatItCarries(Fold(initial, front), last);
      HeldMetricWasHeldBefore(initial, front, shorter, c);
      assert front[..shorter] == events[..shorter];
    }
  }

  lemma {:induction false} HeldPositionWasHeldBefore(initial: CandidateState, events: seq<Event>, shorter: nat, p: PositionCandidate)
    requires shorter <= |events| && p in Fold(initial, events).positions
    requires forall e :: e in events ==> !CarriesPosition(e, p)
    ensures p in Fold(initial, events[..shorter]).positions
  {
    if shorter == |events| {
      assert events[..shorter] == events;
    } else {
      var front, last := events[..|events| - 1], events[|events| - 1];
      ApplyBringsOnlyWhatItCarries(Fold(initial, front), last);
      HeldPositionWasHeldBefore(initial, front, shorter, p);
      assert front[..shorter] == events[..shorter];
    }
  }
}
