/**
 * The retrying owner under every interleaving of its loop, readers, Reset, Close and a slow
 * acquisition. Each region held under the mutex is one step; so is each choice of a select.
 */
module RetryingOwnerProperties {
  import opened Options
  import opened Numbers
  import opened RetryingOwner
  import opened Sequences

  datatype Wait = NoWait | Full(seconds: nat) | CutShort(seconds: nat)

  /** Where the loop is; a provider in hand is open and not yet installed. */
  datatype Phase =
    | NotLaunched
    | Launching
    | Top
    | WatchingHealth(watched: Provider)
    | HealthDue(watched: Provider)
    | WaitingRetry(seconds: nat)
    | Attempting(wait: Wait)
    | Acquiring
    | Acquired(inHand: Provider)
    | Rejecting(inHand: Provider, status: string)
    | Failing(reason: string)
    | Installing(inHand: Provider)
    | Discarding(inHand: Provider)
    | Leaving
    | Finished

  /** Where the first call of Close is. */
  datatype Closer = NotClosing | Signalling(wait: bool) | Awaiting(wait: bool) | Closed

  /** `acquired` is how many providers were ever acquired, `failures` how many failed in a row. */
  datatype Owner = Owner(g: Guarded, loop: Phase, closer: Closer, owedSignals: nat, acquired: nat, failures: nat)

  datatype Action =
    | Start
    | Launch
    | Snapshot
    | TimerFires
    | TakeWake
    | SeeStop
    | CheckHealth(status: string)
    | Enter
    | AcquireFails(reason: string)
    | AcquireSucceeds
    | CheckAcquired(status: string)
    | CloseRejected
    | RecordFailure
    | Install
    | CloseDiscarded
    | Leave
    | ReadFails(reason: string)
    | Reset
    | SignalReset
    | BeginClose
    | SignalClose
    | SeeLoopOut
    | CloseCurrent

  function Begin(): Owner {
    Owner(Fresh(), NotLaunched, NotClosing, 0, 0, 0)
  }

  /** The wait group counts nothing before the loop is launched and nothing after it has ended. */
  predicate LoopIsOut(o: Owner) {
    o.loop.NotLaunched? || o.loop.Launching? || o.loop.Finished?
  }

  predicate Enabled(kind: Kind, o: Owner, a: Action) {
    match a
    case Start => !o.g.started && !o.g.closed
    case Launch => o.loop.Launching?
    case Snapshot => o.loop.Top?
    case TimerFires => o.loop.WatchingHealth? || o.loop.WaitingRetry?
    case TakeWake => (o.loop.WatchingHealth? || o.loop.WaitingRetry?) && o.g.wake
    case SeeStop => (o.loop.WatchingHealth? || o.loop.WaitingRetry?) && o.g.closed
    case CheckHealth(_) => o.loop.HealthDue?
    case Enter => o.loop.Attempting?
    case AcquireFails(_) => o.loop.Acquiring?
    case AcquireSucceeds => o.loop.Acquiring?
    case CheckAcquired(_) => o.loop.Acquired?
    case CloseRejected => o.loop.Rejecting?
    case RecordFailure => o.loop.Failing?
    case Install => o.loop.Installing?
    case CloseDiscarded => o.loop.Discarding?
    case Leave => o.loop.Leaving?
    case ReadFails(_) => o.g.current.Some?
    case Reset => kind.Vehicle?
    case SignalReset => o.owedSignals > 0
    case BeginClose => !o.g.closed
    case SignalClose => o.closer.Signalling?
    case SeeLoopOut => o.closer.Awaiting? && (o.closer.wait ==> LoopIsOut(o))
    case CloseCurrent => o.closer.Awaiting? && !o.closer.wait
  }

  function AfterSnapshot(o: Owner): Phase {
    if o.g.closed then Finished
    else if o.g.current.Some? then WatchingHealth(o.g.current.value)
    else if o.g.retryDelay > 0 then WaitingRetry(o.g.retryDelay)
    else Attempting(NoWait)
  }

  /** A wake-up restarts the vehicle's retry delay; it ends the position's, and its health wait. */
  function AfterWake(kind: Kind, loop: Phase): Phase
    requires loop.WatchingHealth? || loop.WaitingRetry?
  {
    match kind
    case Vehicle => Top
    case Position => if loop.WatchingHealth? then HealthDue(loop.watched) else Attempting(CutShort(loop.seconds))
  }

  function WithFailure(o: Owner, g: Guarded): Owner {
    o.(g := g, failures := o.failures + 1)
  }

  function Next(kind: Kind, o: Owner, a: Action): Owner
    requires Enabled(kind, o, a)
  {
    match a
    case Start => o.(g := o.g.(started := true), loop := Launching)
    case Launch => o.(loop := Top)
    case Snapshot => o.(loop := AfterSnapshot(o))
    case TimerFires =>
      o.(loop := if o.loop.WatchingHealth? then HealthDue(o.loop.watched) else Attempting(Full(o.loop.seconds)))
    case TakeWake => o.(g := o.g.(wake := false), loop := AfterWake(kind, o.loop))
    case SeeStop => o.(loop := Finished)
    case CheckHealth(status) =>
      if o.g.current == Some(o.loop.watched) && status != ""
      then WithFailure(o, Failed(o.g, status)).(loop := Top) else o.(loop := Top)
    case Enter => if o.g.closed then o.(loop := Top) else o.(g := o.g.(acquiring := true), loop := Acquiring)
    case AcquireFails(reason) => o.(loop := Failing(reason))
    case AcquireSucceeds => o.(loop := Acquired(o.acquired), acquired := o.acquired + 1)
    case CheckAcquired(status) =>
      o.(loop := if status != "" then Rejecting(o.loop.inHand, status) else Installing(o.loop.inHand))
    case CloseRejected => o.(g := o.g.(closes := o.g.closes + [o.loop.inHand]), loop := Failing(o.loop.status))
    case RecordFailure => WithFailure(o, FailureRecorded(o.g, o.loop.reason)).(loop := Leaving)
    case Install =>
      if MayInstall(o.g) then o.(g := Installed(o.g, o.loop.inHand), loop := Leaving, failures := 0)
      else o.(loop := Discarding(o.loop.inHand))
    case CloseDiscarded => o.(g := o.g.(closes := o.g.closes + [o.loop.inHand]), loop := Leaving)
    case Leave => o.(g := o.g.(acquiring := false), loop := Top)
    case ReadFails(reason) => WithFailure(o, Signalled(Failed(o.g, reason)))
    case Reset => o.(g := ResetTo(o.g), failures := 0, owedSignals := o.owedSignals + (if o.g.started then 1 else 0))
    case SignalReset => o.(g := Signalled(o.g), owedSignals := o.owedSignals - 1)
    case BeginClose => o.(g := o.g.(closed := true), closer := Signalling(o.g.started && !o.g.acquiring))
    case SignalClose => o.(g := Signalled(o.g), closer := Awaiting(o.closer.wait))
    case SeeLoopOut => o.(closer := Awaiting(false))
    case CloseCurrent => o.(g := CurrentClosed(o.g), closer := Closed)
  }

  function Stepped(kind: Kind, o: Owner, a: Action): Owner {
    if Enabled(kind, o, a) then Next(kind, o, a) else o
  }

  function After(kind: Kind, run: seq<Action>): Owner {
    if run == [] then Begin() else Stepped(kind, After(kind, run[..|run| - 1]), run[|run| - 1])
  }

  // What every step keeps.

  function InHand(loop: Phase): Option<Provider> {
    if loop.Acquired? || loop.Rejecting? || loop.Installing? || loop.Discarding? then Some(loop.inHand) else None
  }

  /** Every provider ever acquired is in the loop's hand, or current, or closed: one of these, and closed once. */
  ghost predicate Accounted(closes: seq<Provider>, current: Option<Provider>, inHand: Option<Provider>, acquired: nat) {
    && NoRepeats(closes)
    && (forall p :: p in closes ==> p < acquired && Some(p) != current && Some(p) != inHand)
    && (forall p: Provider :: p < acquired ==> p in closes || Some(p) == current || Some(p) == inHand)
    && (current.Some? ==> current.value < acquired && inHand != current)
    && (inHand.Some? ==> inHand.value < acquired)
  }

  ghost predicate ProvidersAreAccountedFor(o: Owner) {
    Accounted(o.g.closes, o.g.current, InHand(o.loop), o.acquired)
  }

  lemma ClosingKeepsAccounts(closes: seq<Provider>, p: Provider, other: Option<Provider>, acquired: nat)
    ensures Accounted(closes, Some(p), other, acquired) ==> Accounted(closes + [p], None, other, acquired)
    ensures Accounted(closes, other, Some(p), acquired) ==> Accounted(closes + [p], other, None, acquired)
  {
  }

  lemma AcquiringKeepsAccounts(closes: seq<Provider>, current: Option<Provider>, acquired: nat)
    requires Accounted(closes, current, None, acquired)
    ensures Accounted(closes, current, Some(acquired), acquired + 1)
  {
  }

  lemma InstallingKeepsAccounts(closes: seq<Provider>, p: Provider, acquired: nat)
    requires Accounted(closes, None, Some(p), acquired)
    ensures Accounted(closes, Some(p), None, acquired)
  {
  }

  /** The loop attempts an acquisition only when nothing is installed, and only the loop installs. */
  predicate BetweenProviders(loop: Phase) {
    || loop.NotLaunched? || loop.Launching? || loop.WaitingRetry? || loop.Attempting? || loop.Acquiring? || loop.Acquired?
    || loop.Rejecting? || loop.Failing? || loop.Installing? || loop.Discarding?
  }

  predicate PhaseFits(o: Owner) {
    && (BetweenProviders(o.loop) ==> o.g.current.None?)
    && (o.g.failure != "" ==> o.g.current.None?)
    && (o.loop.NotLaunched? <==> !o.g.started)
    && (o.loop.Finished? ==> o.g.closed)
  }

  predicate ClosingFits(o: Owner) {
    && (o.g.closed <==> !o.closer.NotClosing?)
    && (o.closer.Closed? ==> o.g.current.None?)
  }

  function Doubled(k: nat): nat {
    if k == 0 then INITIAL_RETRY else 2 * Doubled(k - 1)
  }

  /** The delay after the k-th failure in a row: the initial one doubled k - 1 times, up to the maximum. */
  function Delay(k: nat): nat {
    if k == 0 then 0 else Min(Doubled(k - 1), MAXIMUM_RETRY)
  }

  predicate BackoffFits(o: Owner) {
    && o.g.retryDelay == Delay(o.failures)
    && o.g.backoff == Min(Doubled(o.failures), MAXIMUM_RETRY)
    && (o.g.current.Some? ==> o.failures == 0)
    && (o.failures == 0 ==> o.g.failure == "")
  }

  /** What the loop waits, or has waited, is the delay of the failures counted, unless a Reset cleared them. */
  predicate WaitFits(kind: Kind, o: Owner) {
    match o.loop
    case WaitingRetry(seconds) => seconds > 0 && (seconds == o.g.retryDelay || o.failures == 0)
    case Attempting(NoWait) => o.failures == 0
    case Attempting(Full(seconds)) => seconds == o.g.retryDelay || o.failures == 0
    case Attempting(CutShort(seconds)) => kind.Position? && (seconds == o.g.retryDelay || o.failures == 0)
    case _ => true
  }

  ghost predicate Sound(kind: Kind, o: Owner) {
    && ProvidersAreAccountedFor(o)
    && PhaseFits(o)
    && ClosingFits(o)
    && BackoffFits(o)
    && WaitFits(kind, o)
  }

  lemma StepKeepsAccounts(kind: Kind, o: Owner, a: Action)
    requires ProvidersAreAccountedFor(o) && PhaseFits(o) && Enabled(kind, o, a)
    ensures ProvidersAreAccountedFor(Next(kind, o, a))
  {
    hide Accounted;
    if o.g.current.Some? {
      ClosingKeepsAccounts(o.g.closes, o.g.current.value, InHand(o.loop), o.acquired);
    }
    match a
    case AcquireSucceeds => AcquiringKeepsAccounts(o.g.closes, o.g.current, o.acquired);
    case CloseRejected => ClosingKeepsAccounts(o.g.closes, o.loop.inHand, o.g.current, o.acquired);
    case CloseDiscarded => ClosingKeepsAccounts(o.g.closes, o.loop.inHand, o.g.current, o.acquired);
    case Install => InstallingKeepsAccounts(o.g.closes, o.loop.inHand, o.acquired);
    case _ =>
  }

  lemma StepKeepsPhase(kind: Kind, o: Owner, a: Action)
    requires PhaseFits(o) && ClosingFits(o) && Enabled(kind, o, a)
    ensures PhaseFits(Next(kind, o, a)) && ClosingFits(Next(kind, o, a))
  {
  }

  lemma {:induction false} DoubledGrows(k: nat)
    ensures Doubled(k) >= INITIAL_RETRY
    ensures Min(Min(Doubled(k), MAXIMUM_RETRY) * 2, MAXIMUM_RETRY) == Min(Doubled(k + 1), MAXIMUM_RETRY)
  {
    if k > 0 {
      DoubledGrows(k - 1);
    }
  }

  lemma StepKeepsBackoff(kind: Kind, o: Owner, a: Action)
    requires BackoffFits(o) && PhaseFits(o) && WaitFits(kind, o) && Enabled(kind, o, a)
    ensures BackoffFits(Next(kind, o, a)) && WaitFits(kind, Next(kind, o, a))
  {
    DoubledGrows(o.failures);
    assert Doubled(0) == INITIAL_RETRY;
    hide Doubled;
  }

  lemma {:induction false} EveryRunIsSound(kind: Kind, run: seq<Action>)
    ensures Sound(kind, After(kind, run))
  {
    if run != [] {
      var o := After(kind, run[..|run| - 1]);
      EveryRunIsSound(kind, run[..|run| - 1]);
      if Enabled(kind, o, run[|run| - 1]) {
        StepKeepsAccounts(kind, o, run[|run| - 1]);
        StepKeepsPhase(kind, o, run[|run| - 1]);
        StepKeepsBackoff(kind, o, run[|run| - 1]);
      }
      hide ProvidersAreAccountedFor, PhaseFits, ClosingFits, BackoffFits, WaitFits, Next, Enabled;
    }
  }

  // What follows of it.

  /** No provider is closed twice; and a recorded failure means that none is current. */
  lemma ClosedAtMostOnce(kind: Kind, run: seq<Action>, i: nat, j: nat)
    requires i < j < |After(kind, run).g.closes|
    ensures After(kind, run).g.closes[i] != After(kind, run).g.closes[j]
    ensures After(kind, run).g.failure != "" ==> After(kind, run).g.current == None
  {
    EveryRunIsSound(kind, run);
    hide After;
  }

  /** Once Close and the loop have finished, every provider ever opened has been closed. */
  lemma NoneStaysOpen(kind: Kind, run: seq<Action>, p: Provider)
    requires var o := After(kind, run); o.closer.Closed? && LoopIsOut(o) && p < o.acquired
    ensures p in After(kind, run).g.closes
  {
    EveryRunIsSound(kind, run);
    hide After;
  }

  /** After Close has begun, no step makes a provider current. */
  lemma NoneInstalledAfterClose(kind: Kind, run: seq<Action>, a: Action)
    requires After(kind, run).g.closed
    ensures After(kind, run + [a]).g.current == After(kind, run).g.current || After(kind, run + [a]).g.current == None
  {
    assert (run + [a])[..|run|] == run;
    hide After;
  }

  /** And whatever the state, no step puts one provider in another's place. */
  lemma CurrentIsNotReplaced(kind: Kind, o: Owner, a: Action)
    ensures var after := Stepped(kind, o, a).g.current;
      o.g.current.Some? && after.Some? ==> after == o.g.current
  {
  }

  /** However it came about, the k-th failure in a row sets the delay to the initial one times 2^(k-1), at most the maximum. */
  lemma BackoffDoubles(kind: Kind, run: seq<Action>)
    ensures After(kind, run).g.retryDelay == Delay(After(kind, run).failures)
  {
    EveryRunIsSound(kind, run);
    hide After;
  }

  /** In seconds: five, ten, twenty, forty, and then always sixty. */
  lemma {:induction false} DelaysInSeconds(k: nat)
    ensures Delay(0) == 0 && Delay(1) == 5 && Delay(2) == 10 && Delay(3) == 20 && Delay(4) == 40
    ensures k >= 5 ==> Delay(k) == 60
  {
    assert Doubled(0) == 5 && Doubled(1) == 10 && Doubled(2) == 20 && Doubled(3) == 40 && Doubled(4) == 80;
    if k > 5 {
      DelaysInSeconds(k - 1);
    }
  }

  /** With nothing failed since the last success or reset, the owner reports no failure and waits for nothing. */
  lemma NothingFailedNothingReported(kind: Kind, run: seq<Action>)
    ensures var o := After(kind, run); o.failures == 0 ==> o.g.failure == "" && o.g.retryDelay == 0 && o.g.backoff == 5
  {
    EveryRunIsSound(kind, run);
    assert Doubled(0) == 5;
    hide After, Doubled;
  }

  /**
   * The loop is never left to sleep for something that is over: a wait whose failures a reset has
   * cleared, and a health wait on a source no longer current, have a wake-up buffered or owed, or the
   * owner is closed.
   */
  predicate SleepsInVain(o: Owner) {
    || (o.loop.WaitingRetry? && o.failures == 0)
    || (o.loop.WatchingHealth? && o.g.current != Some(o.loop.watched))
  }

  predicate WakesInTime(o: Owner) {
    SleepsInVain(o) ==> o.g.wake || o.owedSignals > 0 || o.g.closed
  }

  lemma StepWakesInTime(kind: Kind, o: Owner, a: Action)
    requires WakesInTime(o) && PhaseFits(o) && BackoffFits(o) && ClosingFits(o) && Enabled(kind, o, a)
    ensures WakesInTime(Next(kind, o, a))
  {
    DoubledGrows(o.failures);
    hide Doubled;
  }

  lemma {:induction false} NoSleepInVain(kind: Kind, run: seq<Action>)
    ensures WakesInTime(After(kind, run))
  {
    if run != [] {
      var o, a := After(kind, run[..|run| - 1]), run[|run| - 1];
      NoSleepInVain(kind, run[..|run| - 1]);
      EveryRunIsSound(kind, run[..|run| - 1]);
      hide ProvidersAreAccountedFor, PhaseFits, ClosingFits, BackoffFits, WaitFits, Next, Enabled, WakesInTime;
      if Enabled(kind, o, a) {
        StepWakesInTime(kind, o, a);
      }
    }
  }

  /** The vehicle's owner never attempts again before the whole delay is over; only a Reset spares it. */
  lemma VehicleWaitsItsDelay(run: seq<Action>)
    requires After(Vehicle, run).loop.Attempting?
    ensures var o := After(Vehicle, run);
      o.failures == 0 || o.loop.wait == Full(Delay(o.failures))
  {
    EveryRunIsSound(Vehicle, run);
    hide After;
  }

  /** Without a Reset nothing touches the delay that is waited for, and nobody but a failed read or Close signals. */
  predicate PositionFits(o: Owner) {
    && o.owedSignals == 0
    && match o.loop
       case WaitingRetry(seconds) => seconds == o.g.retryDelay
       case Attempting(NoWait) => o.g.retryDelay == 0
       case Attempting(Full(seconds)) => seconds == o.g.retryDelay > 0
       case Attempting(CutShort(seconds)) => seconds == o.g.retryDelay > 0
       case _ => true
  }

  lemma StepKeepsPositionFits(o: Owner, a: Action)
    requires PositionFits(o) && PhaseFits(o) && WaitFits(Position, o) && Enabled(Position, o, a)
    ensures PositionFits(Next(Position, o, a))
  {
  }

  lemma {:induction false} PositionAlwaysFits(run: seq<Action>)
    ensures PositionFits(After(Position, run))
  {
    if run != [] {
      var o, a := After(Position, run[..|run| - 1]), run[|run| - 1];
      PositionAlwaysFits(run[..|run| - 1]);
      EveryRunIsSound(Position, run[..|run| - 1]);
      if Enabled(Position, o, a) {
        StepKeepsPositionFits(o, a);
      }
      hide PositionFits, ProvidersAreAccountedFor, PhaseFits, ClosingFits, BackoffFits, WaitFits, Next, Enabled;
    }
  }

  lemma DelayIsPositive(k: nat)
    ensures Delay(k) == 0 <==> k == 0
  {
    if k > 0 {
      DoubledGrows(k - 1);
      hide Doubled;
    }
  }

  /**
   * The position's owner attempts without a wait exactly when nothing has failed; otherwise it has
   * waited the delay of the failures counted, in full or cut short. `PositionWaitIsWholeIff` says when.
   */
  lemma PositionWaitsUnlessWoken(run: seq<Action>)
    requires After(Position, run).loop.Attempting?
    ensures var o := After(Position, run);
      if o.failures == 0 then o.loop.wait == NoWait
      else o.loop.wait == Full(Delay(o.failures)) || o.loop.wait == CutShort(Delay(o.failures))
    ensures var o := After(Position, run);
      o.loop.wait.CutShort? ==> TakeWake in run
  {
    EveryRunIsSound(Position, run);
    PositionAlwaysFits(run);
    DelayIsPositive(After(Position, run).failures);
    CutShortWasWoken(Position, run);
    hide After, Delay;
  }

  lemma {:induction false} CutShortWasWoken(kind: Kind, run: seq<Action>)
    ensures After(kind, run).loop.Attempting? && After(kind, run).loop.wait.CutShort? ==> TakeWake in run
  {
    if run != [] {
      CutShortWasWoken(kind, run[..|run| - 1]);
      assert run == run[..|run| - 1] + [run[|run| - 1]];
    }
  }

  // When exactly a wait lasts its whole delay: over everything that can happen next.

  /** The run goes on from a state. */
  function From(kind: Kind, o: Owner, run: seq<Action>): Owner {
    if run == [] then o else Stepped(kind, From(kind, o, run[..|run| - 1]), run[|run| - 1])
  }

  /** Nobody resets or closes the owner: reads, checks, acquisitions and timers only. */
  predicate Undisturbed(run: seq<Action>) {
    forall a :: a in run ==> !a.Reset? && !a.BeginClose?
  }

  /** All along the run the loop has not left the wait it is in. */
  ghost predicate StillWaits(kind: Kind, o: Owner, run: seq<Action>) {
    forall i :: 0 <= i <= |run| ==> From(kind, o, run[..i]).loop == o.loop
  }

  /** However a run goes on from this wait, what ends it is an attempt after the whole of it. */
  ghost predicate LastsWhole(kind: Kind, o: Owner) {
    o.loop.WaitingRetry? && forall run: seq<Action>, a: Action ::
      Undisturbed(run + [a]) && StillWaits(kind, o, run) && From(kind, o, run + [a]).loop != o.loop
      ==> From(kind, o, run + [a]).loop == Attempting(Full(o.loop.seconds))
  }

  lemma FromNext(kind: Kind, o: Owner, run: seq<Action>, a: Action)
    ensures From(kind, o, run + [a]) == Stepped(kind, From(kind, o, run), a)
  {
    assert (run + [a])[..|run|] == run;
  }

  /** A wait with no wake-up buffered or owed. */
  predicate Quiet(o: Owner) {
    o.loop.WaitingRetry? && o.g.started && o.g.current.None? && !o.g.closed && !o.g.wake && o.owedSignals == 0 && o.closer.NotClosing?
  }

  lemma QuietStep(kind: Kind, o: Owner, a: Action)
    requires Quiet(o) && Enabled(kind, o, a) && !a.Reset? && !a.BeginClose?
    ensures var next := Next(kind, o, a);
      if next.loop == o.loop then Quiet(next) else next.loop == Attempting(Full(o.loop.seconds))
  {
  }

  lemma {:induction false} QuietStays(kind: Kind, o: Owner, run: seq<Action>)
    requires Quiet(o) && Undisturbed(run) && StillWaits(kind, o, run)
    ensures Quiet(From(kind, o, run)) && From(kind, o, run).loop == o.loop
  {
    assert run[..|run|] == run;
    if run != [] {
      var front, a := run[..|run| - 1], run[|run| - 1];
      forall i | 0 <= i <= |front| ensures From(kind, o, front[..i]).loop == o.loop {
        assert front[..i] == run[..i];
      }
      QuietStays(kind, o, front);
      var before := From(kind, o, front);
      if Enabled(kind, before, a) {
        QuietStep(kind, before, a);
      }
      hide Enabled, Next, Quiet;
    }
  }

  lemma QuietLastsWhole(kind: Kind, o: Owner)
    requires Quiet(o)
    ensures LastsWhole(kind, o)
  {
    hide From, Enabled, Next, StillWaits;
    forall run: seq<Action>, a: Action |
      Undisturbed(run + [a]) && StillWaits(kind, o, run) && From(kind, o, run + [a]).loop != o.loop
      ensures From(kind, o, run + [a]).loop == Attempting(Full(o.loop.seconds))
    {
      assert a in run + [a] && forall b :: b in run ==> b in run + [a];
      QuietStays(kind, o, run);
      FromNext(kind, o, run, a);
      if Enabled(kind, From(kind, o, run), a) {
        QuietStep(kind, From(kind, o, run), a);
      }
    }
  }

  /** One way of ending it otherwise is enough. */
  lemma EndsOtherwise(kind: Kind, o: Owner, run: seq<Action>, a: Action)
    requires Undisturbed(run + [a]) && StillWaits(kind, o, run)
    requires o.loop.WaitingRetry?
    requires From(kind, o, run + [a]).loop != o.loop && From(kind, o, run + [a]).loop != Attempting(Full(o.loop.seconds))
    ensures !LastsWhole(kind, o)
  {
    hide From, Undisturbed, StillWaits;
  }

  lemma StillWaitsAtOnce(kind: Kind, o: Owner)
    ensures StillWaits(kind, o, []) && From(kind, o, []) == o
  {
  }

  lemma StillWaitsAfterSignal(kind: Kind, o: Owner)
    requires o.loop.WaitingRetry? && o.owedSignals > 0
    ensures var next := From(kind, o, [SignalReset]);
      StillWaits(kind, o, [SignalReset]) && next.loop == o.loop && next.g.wake
  {
    var run := [SignalReset];
    assert run[..0] == [] && run[..1] == run;
  }

  /** A wake-up that is buffered, or owed, can end the wait. */
  lemma WakeEndsTheWait(kind: Kind, o: Owner)
    requires o.loop.WaitingRetry? && (o.g.wake || o.owedSignals > 0)
    ensures !LastsWhole(kind, o)
  {
    hide From, StillWaits, LastsWhole;
    StillWaitsAtOnce(kind, o);
    var run := if o.g.wake then [] else [SignalReset];
    if !o.g.wake {
      StillWaitsAfterSignal(kind, o);
    }
    FromNext(kind, o, run, TakeWake);
    EndsOtherwise(kind, o, run, TakeWake);
  }

  /** Before Close, a wait is bound to last its whole delay exactly when no wake-up is buffered and none is owed. */
  lemma WaitLastsWholeIff(kind: Kind, o: Owner)
    requires PhaseFits(o) && ClosingFits(o) && o.loop.WaitingRetry? && !o.g.closed
    ensures LastsWhole(kind, o) <==> !o.g.wake && o.owedSignals == 0
  {
    hide LastsWhole;
    if !o.g.wake && o.owedSignals == 0 {
      QuietLastsWhole(kind, o);
    } else {
      WakeEndsTheWait(kind, o);
    }
  }

  /**
   * For the position's owner: the wait that a Snapshot begins is the delay of the failures counted, and
   * it is bound to last exactly when no wake-up is buffered then.
   */
  lemma PositionWaitIsWholeIff(run: seq<Action>)
    requires var o := After(Position, run); o.loop.WaitingRetry? && !o.g.closed
    ensures var o := After(Position, run);
      && o.failures > 0 && o.loop == WaitingRetry(Delay(o.failures))
      && (LastsWhole(Position, o) <==> !o.g.wake)
  {
    EveryRunIsSound(Position, run);
    PositionAlwaysFits(run);
    hide After, LastsWhole, Delay;
    var o := After(Position, run);
    DelayIsPositive(o.failures);
    WaitLastsWholeIff(Position, o);
  }

  /** For the vehicle's owner a wake-up does not end the delay but starts it over, and then it lasts. */
  lemma VehicleWakeStartsDelayOver(o: Owner)
    requires PhaseFits(o) && ClosingFits(o) && o.loop.WaitingRetry? && !o.g.closed
    requires o.g.wake && o.owedSignals == 0 && o.g.retryDelay > 0
    ensures var again := From(Vehicle, o, [TakeWake, Snapshot]);
      again.loop == WaitingRetry(o.g.retryDelay) && LastsWhole(Vehicle, again)
  {
    FromNext(Vehicle, o, [], TakeWake);
    FromNext(Vehicle, o, [] + [TakeWake], Snapshot);
    assert [] + [TakeWake] + [Snapshot] == [TakeWake, Snapshot];
    hide LastsWhole, From;
    QuietLastsWhole(Vehicle, From(Vehicle, o, [TakeWake, Snapshot]));
  }

  // From which failures the wake-up is still buffered when the wait begins.

  /** The run ends where the loop first waits again. */
  ghost predicate ReachesWait(kind: Kind, o: Owner, run: seq<Action>) {
    && Undisturbed(run)
    && From(kind, o, run).loop.WaitingRetry?
    && forall i :: 0 <= i < |run| ==> !From(kind, o, run[..i]).loop.WaitingRetry?
  }

  /** A wait comes, and whatever happens on the way, it is bound to last; or it is not. */
  ghost predicate NextWaitLasts(kind: Kind, o: Owner) {
    && (exists run :: ReachesWait(kind, o, run))
    && (forall run :: ReachesWait(kind, o, run) ==> LastsWhole(kind, From(kind, o, run)))
  }

  ghost predicate NextWaitIsCut(kind: Kind, o: Owner) {
    && (exists run :: ReachesWait(kind, o, run))
    && (forall run :: ReachesWait(kind, o, run) ==> !LastsWhole(kind, From(kind, o, run)))
  }

  /** Nothing is current, a delay is due, and the loop is on its way to waiting for it. */
  predicate OnTheWay(o: Owner) {
    && o.g.started && o.g.current.None? && !o.g.closed && o.closer.NotClosing? && o.owedSignals == 0 && o.g.retryDelay > 0
    && (o.loop.HealthDue? || o.loop.Top? || o.loop.Leaving? || o.loop.WaitingRetry?)
  }

  lemma OnTheWayStep(kind: Kind, o: Owner, a: Action)
    requires OnTheWay(o) && !o.loop.WaitingRetry? && Enabled(kind, o, a) && !a.Reset? && !a.BeginClose?
    ensures OnTheWay(Next(kind, o, a)) && Next(kind, o, a).g.wake == o.g.wake
  {
  }

  lemma {:induction false} WakeKeepsOnTheWay(kind: Kind, o: Owner, run: seq<Action>, upto: nat)
    requires OnTheWay(o) && ReachesWait(kind, o, run) && upto <= |run|
    ensures var there := From(kind, o, run[..upto]);
      OnTheWay(there) && there.g.wake == o.g.wake
  {
    if upto > 0 {
      WakeKeepsOnTheWay(kind, o, run, upto - 1);
      var before, a := From(kind, o, run[..upto - 1]), run[upto - 1];
      assert run[..upto] == run[..upto - 1] + [a];
      FromNext(kind, o, run[..upto - 1], a);
      hide From, Enabled, Next, OnTheWay;
      if Enabled(kind, before, a) {
        OnTheWayStep(kind, before, a);
      }
    }
  }

  lemma NextWaitComes(kind: Kind, o: Owner)
    requires OnTheWay(o)
    ensures exists run :: ReachesWait(kind, o, run)
  {
    if o.loop.WaitingRetry? {
      assert ReachesWait(kind, o, []);
    } else if o.loop.Top? {
      FromNext(kind, o, [], Snapshot);
      var run := [] + [Snapshot];
      assert run[..0] == [];
      assert ReachesWait(kind, o, run);
    } else {
      var first := if o.loop.Leaving? then Leave else CheckHealth("");
      FromNext(kind, o, [], first);
      FromNext(kind, o, [] + [first], Snapshot);
      var run := [] + [first] + [Snapshot];
      assert run[..0] == [] && run[..1] == [] + [first];
      assert ReachesWait(kind, o, run);
    }
  }

  /** Wherever the next wait begins, a wake-up is buffered then exactly when one is now. */
  lemma NextWaitFollowsWake(kind: Kind, o: Owner)
    requires OnTheWay(o)
    ensures if o.g.wake then NextWaitIsCut(kind, o) else NextWaitLasts(kind, o)
  {
    NextWaitComes(kind, o);
    hide From, LastsWhole, ReachesWait;
    forall run | ReachesWait(kind, o, run)
      ensures if o.g.wake then !LastsWhole(kind, From(kind, o, run)) else LastsWhole(kind, From(kind, o, run))
    {
      WakeKeepsOnTheWay(kind, o, run, |run|);
      assert run[..|run|] == run;
      EndsWaiting(kind, o, run);
      if o.g.wake {
        WakeEndsTheWait(kind, From(kind, o, run));
      } else {
        QuietLastsWhole(kind, From(kind, o, run));
      }
    }
  }

  lemma EndsWaiting(kind: Kind, o: Owner, run: seq<Action>)
    requires ReachesWait(kind, o, run)
    ensures From(kind, o, run).loop.WaitingRetry?
  {
  }

  /** No wake-up is buffered or owed and nobody closes. */
  ghost predicate Calm(kind: Kind, o: Owner) {
    Sound(kind, o) && !o.g.closed && !o.g.wake && o.owedSignals == 0
  }

  /**
   * A failed read signals at once. The loop takes that wake-up only if it is at its health wait then;
   * from anywhere else it reaches the next wait with the wake-up still buffered.
   */
  lemma ReadFailureCutsNextWaitIff(kind: Kind, o: Owner, reason: string)
    requires Calm(kind, o) && Enabled(kind, o, ReadFails(reason))
    ensures NextWaitIsCut(kind, Next(kind, o, ReadFails(reason))) <==> !o.loop.WatchingHealth?
  {
    var failed := Next(kind, o, ReadFails(reason));
    DoubledGrows(o.failures);
    hide NextWaitIsCut, Doubled, ProvidersAreAccountedFor;
    if o.loop.WatchingHealth? {
      WakeTakenAtHealthWait(kind, failed);
    } else {
      hide LastsWhole;
      NextWaitFollowsWake(kind, failed);
    }
  }

  /** From its health wait the loop can take the wake-up and then wait the whole delay. */
  lemma WakeTakenAtHealthWait(kind: Kind, o: Owner)
    requires o.loop.WatchingHealth? && o.g.wake && o.g.current.None? && o.g.started && !o.g.closed && o.closer.NotClosing?
    requires o.owedSignals == 0 && o.g.retryDelay > 0
    ensures !NextWaitIsCut(kind, o)
  {
    var taken := Next(kind, o, TakeWake);
    var run := if kind.Vehicle? then [TakeWake, Snapshot] else [TakeWake, CheckHealth(""), Snapshot];
    WakeTakenRun(kind, o, run);
    hide *;
    QuietLastsWhole(kind, From(kind, o, run));
    CutContradicted(kind, o, run);
  }

  lemma WakeTakenRun(kind: Kind, o: Owner, run: seq<Action>)
    requires o.loop.WatchingHealth? && o.g.wake && o.g.current.None? && o.g.started && !o.g.closed && o.closer.NotClosing?
    requires o.owedSignals == 0 && o.g.retryDelay > 0
    requires run == if kind.Vehicle? then [TakeWake, Snapshot] else [TakeWake, CheckHealth(""), Snapshot]
    ensures ReachesWait(kind, o, run) && Quiet(From(kind, o, run))
  {
    assert run[..0] == [] && run[..1] == [] + [TakeWake];
    FromNext(kind, o, [], TakeWake);
    FromNext(kind, o, run[..1], run[1]);
    assert run[..2] == run[..1] + [run[1]];
    if kind.Vehicle? {
      assert run == run[..2];
    } else {
      FromNext(kind, o, run[..2], run[2]);
      assert run == run[..2] + [run[2]];
    }
    hide From;
  }

  lemma CutContradicted(kind: Kind, o: Owner, run: seq<Action>)
    requires ReachesWait(kind, o, run) && LastsWhole(kind, From(kind, o, run))
    ensures !NextWaitIsCut(kind, o)
  {
    hide ReachesWait, LastsWhole, From;
  }

  /** A failed health check and a failed acquisition signal nothing: the next wait lasts. */
  lemma OtherFailuresLeaveNextWaitWhole(kind: Kind, o: Owner, a: Action)
    requires Calm(kind, o) && Enabled(kind, o, a)
    requires a == RecordFailure || (a.CheckHealth? && a.status != "" && o.g.current == Some(o.loop.watched))
    ensures NextWaitLasts(kind, Next(kind, o, a))
  {
    DoubledGrows(o.failures);
    hide LastsWhole, NextWaitLasts, From, Doubled, ProvidersAreAccountedFor;
    NextWaitFollowsWake(kind, Next(kind, o, a));
  }

  // Shutting down.

  predicate IsLoopAction(a: Action) {
    || a.Launch? || a.Snapshot? || a.TimerFires? || a.TakeWake? || a.SeeStop? || a.CheckHealth? || a.Enter?
    || a.AcquireFails? || a.AcquireSucceeds? || a.CheckAcquired? || a.CloseRejected? || a.RecordFailure?
    || a.Install? || a.CloseDiscarded? || a.Leave?
  }

  function StepsLeft(loop: Phase): nat {
    match loop
    case Finished => 0
    case NotLaunched => 0
    case Top => 1
    case Launching => 2
    case Leaving => 2
    case Attempting(_) => 2
    case HealthDue(_) => 2
    case WatchingHealth(_) => 3
    case WaitingRetry(_) => 3
    case Failing(_) => 3
    case Discarding(_) => 3
    case Installing(_) => 4
    case Rejecting(_, _) => 4
    case Acquired(_) => 5
    case Acquiring => 6
  }

  /** The loop's step that needs nobody else: none while the acquirer has the floor. */
  function OwnStep(loop: Phase): Option<Action> {
    match loop
    case Launching => Some(Launch)
    case Top => Some(Snapshot)
    case WatchingHealth(_) => Some(SeeStop)
    case WaitingRetry(_) => Some(SeeStop)
    case HealthDue(_) => Some(CheckHealth(""))
    case Attempting(_) => Some(Enter)
    case Acquired(_) => Some(CheckAcquired(""))
    case Rejecting(_, _) => Some(CloseRejected)
    case Failing(_) => Some(RecordFailure)
    case Installing(_) => Some(Install)
    case Discarding(_) => Some(CloseDiscarded)
    case Leaving => Some(Leave)
    case _ => None
  }

  /** Once closed, every step of the loop brings it nearer its end, and only a slow acquisition can hold it up. */
  lemma ClosedLoopWindsDown(kind: Kind, o: Owner, a: Action)
    requires o.g.closed
    ensures IsLoopAction(a) && Enabled(kind, o, a) ==> StepsLeft(Next(kind, o, a).loop) < StepsLeft(o.loop)
    ensures !o.loop.Finished? && !o.loop.NotLaunched? && !o.loop.Acquiring?
            ==> OwnStep(o.loop).Some? && IsLoopAction(OwnStep(o.loop).value) && Enabled(kind, o, OwnStep(o.loop).value)
  {
  }

  /** Close waits for the loop only if it was not acquiring then, so it never waits for the acquirer. */
  predicate AwaitsNoAcquirer(o: Owner) {
    (o.closer.Signalling? || o.closer.Awaiting?) && o.closer.wait ==>
      !o.loop.Acquiring? && !o.loop.Acquired? && !o.loop.Rejecting? && !o.loop.Failing? && !o.loop.Installing? && !o.loop.Discarding?
  }

  /** The flag the closer reads is up from entering an acquisition until leaving it. */
  predicate AcquiringFits(o: Owner) {
    o.g.acquiring <==> o.loop.Acquiring? || o.loop.Acquired? || o.loop.Rejecting? || o.loop.Failing? || o.loop.Installing?
                       || o.loop.Discarding? || o.loop.Leaving?
  }

  lemma StepKeepsAcquiring(kind: Kind, o: Owner, a: Action)
    requires AcquiringFits(o) && AwaitsNoAcquirer(o) && PhaseFits(o) && ClosingFits(o) && Enabled(kind, o, a)
    ensures AcquiringFits(Next(kind, o, a)) && AwaitsNoAcquirer(Next(kind, o, a))
  {
  }

  lemma {:induction false} CloseNeverAwaitsAcquisition(kind: Kind, run: seq<Action>)
    ensures AcquiringFits(After(kind, run)) && AwaitsNoAcquirer(After(kind, run))
  {
    if run != [] {
      var o, a := After(kind, run[..|run| - 1]), run[|run| - 1];
      CloseNeverAwaitsAcquisition(kind, run[..|run| - 1]);
      EveryRunIsSound(kind, run[..|run| - 1]);
      hide ProvidersAreAccountedFor, PhaseFits, ClosingFits, BackoffFits, WaitFits, Next, Enabled, AcquiringFits, AwaitsNoAcquirer;
      if Enabled(kind, o, a) {
        StepKeepsAcquiring(kind, o, a);
      }
    }
  }

  /** Not launched, launching, about to look around, or finished: at no device. */
  predicate IsIdle(loop: Phase) {
    loop.NotLaunched? || loop.Launching? || loop.Top? || loop.Finished?
  }

  predicate HasWaited(o: Owner) {
    o.g.closed && (o.closer == Signalling(true) || o.closer == Awaiting(true)
                   || ((o.closer == Awaiting(false) || o.closer == Closed) && IsIdle(o.loop)))
  }

  lemma StepKeepsWaiting(kind: Kind, o: Owner, a: Action)
    requires HasWaited(o)
    ensures HasWaited(Stepped(kind, o, a))
  {
  }

  /** A Close that waits for the loop goes on only when the loop is at no device, and it comes to none after. */
  lemma {:induction false} WaitingCloseOutlastsTheLoop(kind: Kind, o: Owner, run: seq<Action>)
    requires o.g.closed && (o.closer == Signalling(true) || o.closer == Awaiting(true))
    ensures var later := From(kind, o, run);
      HasWaited(later) && (later.closer == Awaiting(false) || later.closer == Closed ==> IsIdle(later.loop))
  {
    if run != [] {
      var front, last := run[..|run| - 1], run[|run| - 1];
      WaitingCloseOutlastsTheLoop(kind, o, front);
      StepKeepsWaiting(kind, From(kind, o, front), last);
      hide Stepped;
    }
  }

  /** A closer that waits can go on exactly when the loop was never launched, is not yet counted, or has ended; and then it closes. */
  lemma WaitingCloseEndsIff(kind: Kind, o: Owner)
    requires o.closer == Awaiting(true)
    ensures var seen := Stepped(kind, o, SeeLoopOut);
      var closed := Stepped(kind, seen, CloseCurrent);
      && (closed.closer == Closed <==> o.loop.NotLaunched? || o.loop.Launching? || o.loop.Finished?)
      && (closed.closer == Closed ==> closed.g.current == None && closed.loop == o.loop)
  {
  }

  /** A health check fails the source it watched if that is still the current one and reports anything, and does nothing else. */
  lemma CheckFailsIff(kind: Kind, o: Owner, status: string)
    requires o.loop.HealthDue?
    ensures var next := Stepped(kind, o, CheckHealth(status));
      if o.g.current == Some(o.loop.watched) && status != ""
      then next.failures == o.failures + 1 && next.g.current == None && next.g.failure == status && next.loop == Top
      else next == o.(loop := Top)
  {
  }

  // A run of the position's owner that attempts early.

  lemma RunNext(kind: Kind, run: seq<Action>, a: Action)
    ensures After(kind, run + [a]) == Stepped(kind, After(kind, run), a)
  {
    assert (run + [a])[..|run|] == run;
  }

  /** One step of a run, from a state known in full. */
  lemma StepTo(kind: Kind, run: seq<Action>, a: Action, from: Owner, to: Owner)
    requires After(kind, run) == from && Enabled(kind, from, a) && Next(kind, from, a) == to
    ensures After(kind, run + [a]) == to
  {
    hide After, Enabled, Next;
    RunNext(kind, run, a);
  }

  function StartedState(): Guarded {
    Fresh().(started := true)
  }

  lemma RunsToAttempt(kind: Kind) returns (run: seq<Action>)
    ensures After(kind, run) == Owner(StartedState(), Attempting(NoWait), NotClosing, 0, 0, 0)
  {
    var o := Begin();
    var o1 := o.(g := StartedState(), loop := Launching);
    StepTo(kind, [], Start, o, o1);
    hide After;
    StepTo(kind, [] + [Start], Launch, o1, o1.(loop := Top));
    StepTo(kind, [] + [Start] + [Launch], Snapshot, o1.(loop := Top), o1.(loop := Attempting(NoWait)));
    run := [] + [Start] + [Launch] + [Snapshot];
  }

  lemma RunsToInstalled(kind: Kind) returns (run: seq<Action>)
    ensures After(kind, run)
            == Owner(Guarded(Some(0), "", INITIAL_RETRY, 0, true, true, false, false, []), Leaving, NotClosing, 0, 1, 0)
  {
    run := RunsToAttempt(kind);
    hide After;
    var o := Owner(StartedState(), Attempting(NoWait), NotClosing, 0, 0, 0);
    var busy := o.(g := StartedState().(acquiring := true), loop := Acquiring);
    StepTo(kind, run, Enter, o, busy);
    run := run + [Enter];
    StepTo(kind, run, AcquireSucceeds, busy, busy.(loop := Acquired(0), acquired := 1));
    run := run + [AcquireSucceeds];
    StepTo(kind, run, CheckAcquired(""), busy.(loop := Acquired(0), acquired := 1), busy.(loop := Installing(0), acquired := 1));
    run := run + [CheckAcquired("")];
    StepTo(kind, run, Install, busy.(loop := Installing(0), acquired := 1),
           Owner(Guarded(Some(0), "", INITIAL_RETRY, 0, true, true, false, false, []), Leaving, NotClosing, 0, 1, 0));
    run := run + [Install];
  }

  lemma RunsToBufferedWake(kind: Kind, before: seq<Action>) returns (run: seq<Action>)
    requires After(kind, before)
             == Owner(Guarded(Some(0), "", INITIAL_RETRY, 0, true, true, false, false, []), Leaving, NotClosing, 0, 1, 0)
    ensures var o := After(kind, run);
      o.failures == 1 && o.g.retryDelay == INITIAL_RETRY && o.g.wake && o.loop == WaitingRetry(INITIAL_RETRY)
  {
    hide After;
    var g := Guarded(Some(0), "", INITIAL_RETRY, 0, true, true, false, false, []);
    var o := Owner(g, Leaving, NotClosing, 0, 1, 0);
    var idle := o.(g := g.(acquiring := false));
    StepTo(kind, before, Leave, o, idle.(loop := Top));
    run := before + [Leave];
    StepTo(kind, run, Snapshot, idle.(loop := Top), idle.(loop := WatchingHealth(0)));
    run := run + [Snapshot];
    StepTo(kind, run, TimerFires, idle.(loop := WatchingHealth(0)), idle.(loop := HealthDue(0)));
    run := run + [TimerFires];
    run := RunsPastFailure(kind, run, idle.(loop := HealthDue(0)));
  }

  lemma RunsPastFailure(kind: Kind, before: seq<Action>, due: Owner) returns (run: seq<Action>)
    requires After(kind, before) == due
    requires due == Owner(Guarded(Some(0), "", INITIAL_RETRY, 0, true, false, false, false, []), HealthDue(0), NotClosing, 0, 1, 0)
    ensures var o := After(kind, run);
      o.failures == 1 && o.g.retryDelay == INITIAL_RETRY && o.g.wake && o.loop == WaitingRetry(INITIAL_RETRY)
  {
    hide After;
    var failed := Owner(Guarded(None, "gone", 2 * INITIAL_RETRY, INITIAL_RETRY, true, false, false, true, [0]), HealthDue(0), NotClosing, 0, 1, 1);
    StepTo(kind, before, ReadFails("gone"), due, failed);
    run := before + [ReadFails("gone")];
    StepTo(kind, run, CheckHealth(""), failed, failed.(loop := Top));
    run := run + [CheckHealth("")];
    StepTo(kind, run, Snapshot, failed.(loop := Top), failed.(loop := WaitingRetry(INITIAL_RETRY)));
    run := run + [Snapshot];
  }

  /**
   * The health wait ends by its timer just as a read fails: the read's wake-up stays buffered. The
   * position's owner then attempts at once; the vehicle's starts its delay over.
   */
  lemma BufferedWakeCutsPositionDelayShort(kind: Kind)
    ensures exists run :: var o := After(kind, run);
      && o.failures == 1 && o.g.retryDelay == INITIAL_RETRY && TakeWake in run
      && o.loop == if kind.Position? then Attempting(CutShort(INITIAL_RETRY)) else Top
  {
    var before := RunsToInstalled(kind);
    var run := RunsToBufferedWake(kind, before);
    RunNext(kind, run, TakeWake);
    hide After;
    assert After(kind, run + [TakeWake]).failures == 1 && TakeWake in run + [TakeWake];
  }
}
