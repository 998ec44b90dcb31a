/**
 * The handshake between samples that want a listen burst and the session that runs them
 * (agent/internal/providers/profile.go: requestBurst, runSession, runBurstCycle, runBurstWithRecovery).
 */
module BurstHandshake {
  import opened Options

  /** Cycles are numbered in the order they are made. */
  type Cycle = nat

  /** What the mutex guards of the handshake, the request channel's one place, and every done channel closed so far. */
  datatype Board = Board(pending: Option<Cycle>, made: nat, stopped: bool, token: bool, closed: seq<Cycle>)

  function Made(b: Board): Board {
    b.(pending := Some(b.made), made := b.made + 1)
  }

  /** A sample joins the pending cycle or makes one; without a session there is none to join. */
  function Requested(b: Board): Board {
    if b.stopped || b.pending.Some? then b else Made(b)
  }

  function Ensured(b: Board): Board {
    if b.pending.Some? then b else Made(b)
  }

  function CycleClosed(b: Board, cycle: Cycle): Board {
    b.(pending := if b.pending == Some(cycle) then None else b.pending, closed := b.closed + [cycle])
  }

  class ProfileSession {
    var pending: Option<Cycle>
    var made: nat
    var stopped: bool
    var token: bool
    ghost var closed: seq<Cycle>

    ghost function State(): Board
      reads this
    {
      Board(pending, made, stopped, token, closed)
    }

    constructor ()
      ensures State() == Board(None, 0, false, false, [])
    {
      pending, made, stopped, token, closed := None, 0, false, false, [];
    }

    method MakeCycle() returns (cycle: Cycle)
      modifies this`pending, this`made
      ensures State() == Made(old(State())) && pending == Some(cycle)
    {
      cycle := made;
      made := made + 1;
      pending := Some(cycle);
    }

    /** `created` obliges the caller to send a token once it has let go of the mutex. */
    method RequestBurst() returns (cycle: Option<Cycle>, created: bool)
      modifies this`pending, this`made
      ensures State() == Requested(old(State()))
      ensures cycle == if stopped then None else pending
      ensures created <==> !stopped && old(pending).None?
    {
      if stopped {
        return None, false;
      }
      created := pending.None?;
      if created {
        var _ := MakeCycle();
      }
      cycle := pending;
    }

    method SendToken()
      modifies this`token
      ensures State() == old(State()).(token := true)
    {
      token := true;
    }

    method EnsureBurstCycle() returns (cycle: Cycle)
      modifies this`pending, this`made
      ensures State() == Ensured(old(State())) && pending == Some(cycle)
    {
      if pending.None? {
        cycle := MakeCycle();
      } else {
        cycle := pending.value;
      }
    }

    method FinishCycle(cycle: Cycle)
      modifies this`pending, this`closed
      ensures State() == CycleClosed(old(State()), cycle)
      ensures pending == if old(pending) == Some(cycle) then None else old(pending)
      ensures closed == old(closed) + [cycle]
    {
      if pending == Some(cycle) {
        pending := None;
      }
      closed := closed + [cycle];
    }
  }

  // Every interleaving of requesters, the wake poll and the session.

  datatype Session = Selecting | TokenTaken | PollDue | Running(cycle: Cycle) | Ended

  /** `owing` counts the requesters that made a cycle and have yet to send its token. */
  datatype Handshake = Handshake(board: Board, owing: nat, stop: bool, session: Session)

  datatype Action =
    | Request
    | Send
    | TakeToken
    | LookUp
    | WakePoll
    | EnsureAndRun
    | Audit
    | FinishBurst(failed: bool)
    | BeginClose
    | CloseStop
    | SeeStop

  function Begin(): Handshake {
    Handshake(Board(None, 0, false, false, []), 0, false, Selecting)
  }

  predicate Enabled(h: Handshake, a: Action) {
    match a
    case Request => true
    case Send => h.owing > 0
    case TakeToken => h.session.Selecting? && h.board.token
    case LookUp => h.session.TokenTaken?
    case WakePoll => h.session.Selecting?
    case EnsureAndRun => h.session.PollDue?
    case Audit => h.session.Selecting?
    case FinishBurst(_) => h.session.Running?
    case BeginClose => !h.board.stopped
    case CloseStop => h.board.stopped
    case SeeStop => h.session.Selecting? && h.stop
  }

  function Next(h: Handshake, a: Action): Handshake
    requires Enabled(h, a)
  {
    match a
    case Request =>
      h.(board := Requested(h.board), owing := h.owing + if !h.board.stopped && h.board.pending.None? then 1 else 0)
    case Send => h.(board := h.board.(token := true), owing := h.owing - 1)
    case TakeToken => h.(board := h.board.(token := false), session := TokenTaken)
    case LookUp => h.(session := if h.board.pending.Some? then Running(h.board.pending.value) else Selecting)
    case WakePoll => h.(session := PollDue)
    case EnsureAndRun => var board := Ensured(h.board); h.(board := board, session := Running(board.pending.value))
    case Audit => h
    case FinishBurst(failed) =>
      h.(board := CycleClosed(h.board, h.session.cycle), session := if failed then Ended else Selecting)
    case BeginClose => h.(board := h.board.(stopped := true))
    case CloseStop => h.(stop := true)
    case SeeStop => h.(session := Ended)
  }

  function Stepped(h: Handshake, a: Action): Handshake {
    if Enabled(h, a) then Next(h, a) else h
  }

  function After(run: seq<Action>): Handshake {
    if run == [] then Begin() else Stepped(After(run[..|run| - 1]), run[|run| - 1])
  }

  /** Cycles finish in the order they were made, and at most one is unfinished: the pending one. */
  predicate CyclesAreInOrder(b: Board) {
    && (forall i :: 0 <= i < |b.closed| ==> b.closed[i] == i)
    && match b.pending
       case None => b.made == |b.closed|
       case Some(cycle) => cycle == |b.closed| && b.made == |b.closed| + 1
  }

  predicate RunsThePending(h: Handshake) {
    h.session.Running? ==> h.board.pending == Some(h.session.cycle)
  }

  /** A pending cycle nobody is running has a token buffered, taken or owed, or a wake poll about to find it. */
  predicate NoWakeUpIsLost(h: Handshake) {
    h.board.pending.Some? && !h.session.Running? ==>
      h.board.token || h.session.TokenTaken? || h.owing > 0 || h.session.PollDue?
  }

  predicate HandshakeHolds(h: Handshake) {
    CyclesAreInOrder(h.board) && RunsThePending(h) && NoWakeUpIsLost(h)
  }

  lemma StepKeepsTheHandshake(h: Handshake, a: Action)
    requires HandshakeHolds(h) && Enabled(h, a)
    ensures HandshakeHolds(Next(h, a))
  {
  }

  lemma {:induction false} EveryRunKeepsTheHandshake(run: seq<Action>)
    ensures HandshakeHolds(After(run))
  {
    if run != [] {
      hide HandshakeHolds, Next, Enabled;
      EveryRunKeepsTheHandshake(run[..|run| - 1]);
      if Enabled(After(run[..|run| - 1]), run[|run| - 1]) {
        StepKeepsTheHandshake(After(run[..|run| - 1]), run[|run| - 1]);
      }
    }
  }

  /** No done channel is closed twice, and every finished cycle was finished before a later one was made. */
  lemma NoDoneIsClosedTwice(run: seq<Action>, i: nat, j: nat)
    requires i < j < |After(run).board.closed|
    ensures After(run).board.closed[i] != After(run).board.closed[j]
  {
    EveryRunKeepsTheHandshake(run);
    hide After;
  }

  /** The request channel has one place, and its tokens come from senders: no more are taken, or in it, than were sent. */
  function Sent(run: seq<Action>): nat {
    if run == [] then 0
    else Sent(run[..|run| - 1]) + if run[|run| - 1].Send? && Enabled(After(run[..|run| - 1]), run[|run| - 1]) then 1 else 0
  }

  function Taken(run: seq<Action>): nat {
    if run == [] then 0
    else Taken(run[..|run| - 1]) + if run[|run| - 1].TakeToken? && Enabled(After(run[..|run| - 1]), run[|run| - 1]) then 1 else 0
  }

  lemma TokenStep(h: Handshake, a: Action)
    requires Enabled(h, a)
    ensures var next := Next(h, a);
      (if next.board.token then 1 else 0)
      <= (if h.board.token then 1 else 0) + (if a.Send? then 1 else 0) - (if a.TakeToken? then 1 else 0)
  {
  }

  lemma {:induction false} TokensAreConserved(run: seq<Action>)
    ensures Taken(run) + (if After(run).board.token then 1 else 0) <= Sent(run)
  {
    if run != [] {
      var h, a := After(run[..|run| - 1]), run[|run| - 1];
      TokensAreConserved(run[..|run| - 1]);
      if Enabled(h, a) {
        TokenStep(h, a);
      }
      hide Next, Enabled;
    }
  }

  /** Senders owe tokens only for cycles made, and the stop channel is closed only once the session is marked stopped. */
  predicate OwesForCycles(h: Handshake) {
    h.owing <= h.board.made && (h.stop ==> h.board.stopped)
  }

  lemma {:induction false} EveryRunOwesForCycles(run: seq<Action>)
    ensures OwesForCycles(After(run))
  {
    if run != [] {
      EveryRunOwesForCycles(run[..|run| - 1]);
    }
  }

  // How a session ends.

  /** Close has begun, and its stop has been sent after that. */
  ghost predicate Closing(run: seq<Action>) {
    exists j, k :: 0 <= j < k < |run| && run[j] == BeginClose && run[k] == CloseStop
  }

  lemma StopNext(h: Handshake, a: Action)
    ensures Stepped(h, a).board.stopped <==> h.board.stopped || a == BeginClose
    ensures Stepped(h, a).stop <==> h.stop || (a == CloseStop && h.board.stopped)
  {
  }

  lemma {:induction false} StopIsOfAClose(run: seq<Action>)
    ensures After(run).board.stopped <==> BeginClose in run
    ensures After(run).stop <==> Closing(run)
  {
    hide Stepped, Closing;
    if run != [] {
      var front, last := run[..|run| - 1], run[|run| - 1];
      StopIsOfAClose(front);
      StopNext(After(front), last);
      assert run == front + [last];
      ClosingNext(front, last);
    } else {
      NothingCloses();
    }
  }

  lemma NothingCloses()
    ensures !Closing([])
  {
  }

  lemma ClosingNext(front: seq<Action>, a: Action)
    ensures Closing(front + [a]) <==> Closing(front) || (a == CloseStop && BeginClose in front)
  {
    var run := front + [a];
    if Closing(front) {
      var j, k :| 0 <= j < k < |front| && front[j] == BeginClose && front[k] == CloseStop;
      assert run[j] == BeginClose && run[k] == CloseStop;
    }
    if a == CloseStop && BeginClose in front {
      var j :| 0 <= j < |front| && front[j] == BeginClose;
      assert run[j] == BeginClose && run[|front|] == CloseStop;
    }
    if Closing(run) {
      var j, k :| 0 <= j < k < |run| && run[j] == BeginClose && run[k] == CloseStop;
      assert front[j] == BeginClose;
      assert k < |front| ==> front[k] == CloseStop;
    }
  }

  /** A session ends by an error of a burst or by the stop of a close, and a selecting one does end by a stop. */
  lemma {:induction false} SessionEndsFor(run: seq<Action>)
    ensures After(run).session.Ended? ==> FinishBurst(true) in run || Closing(run)
    ensures Closing(run) && After(run).session.Selecting? ==> After(run + [SeeStop]).session.Ended?
  {
    assert (run + [SeeStop])[..|run|] == run && After(run + [SeeStop]) == Stepped(After(run), SeeStop);
    hide Stepped, Closing;
    StopIsOfAClose(run);
    StopIsSeen(After(run));
    if run != [] {
      var front, last := run[..|run| - 1], run[|run| - 1];
      assert run == front + [last] && After(run) == Stepped(After(front), last);
      hide After;
      SessionEndsFor(front);
      StopIsOfAClose(front);
      EndsNext(After(front), last);
      ClosingNext(front, last);
    }
  }

  lemma StopIsSeen(h: Handshake)
    ensures h.stop && h.session.Selecting? ==> Stepped(h, SeeStop).session.Ended?
  {
  }

  lemma EndsNext(h: Handshake, a: Action)
    ensures Stepped(h, a).session.Ended? ==> h.session.Ended? || a == FinishBurst(true) || h.stop
  {
  }

  // Which cycles are served.

  /** A run goes on from here. */
  function From(h: Handshake, more: seq<Action>): Handshake
    decreases |more|
  {
    if more == [] then h else From(Stepped(h, more[0]), more[1..])
  }

  /** Neither another sample nor the wake poll comes to help. */
  predicate Unaided(more: seq<Action>) {
    forall a :: a in more ==> !a.Request? && !a.WakePoll?
  }

  /** What has already been set going can end the cycle. */
  ghost predicate ServedUnaided(h: Handshake, cycle: Cycle) {
    exists more :: Unaided(more) && cycle in From(h, more).board.closed
  }

  ghost predicate NeverServed(h: Handshake, cycle: Cycle) {
    forall more :: cycle !in From(h, more).board.closed
  }

  lemma ServedAlready(h: Handshake, cycle: Cycle)
    requires cycle in h.board.closed
    ensures ServedUnaided(h, cycle)
  {
    assert From(h, []) == h && Unaided([]);
  }

  lemma ServedNext(h: Handshake, a: Action, cycle: Cycle)
    requires Unaided([a]) && ServedUnaided(Stepped(h, a), cycle)
    ensures ServedUnaided(h, cycle)
  {
    hide Stepped;
    var rest :| Unaided(rest) && cycle in From(Stepped(h, a), rest).board.closed;
    var more := [a] + rest;
    assert more[1..] == rest;
    assert forall x :: x in more ==> x in [a] || x in rest;
    assert Unaided(more) && From(h, more) == From(Stepped(h, a), rest);
  }

  lemma RunningIsServed(h: Handshake)
    requires h.session.Running?
    ensures ServedUnaided(h, h.session.cycle)
  {
    ServedAlready(Stepped(h, FinishBurst(false)), h.session.cycle);
    hide ServedUnaided;
    ServedNext(h, FinishBurst(false), h.session.cycle);
  }

  /** A buffered token always leads the session to the pending cycle. */
  lemma TokenLeadsToTheCycle(h: Handshake)
    requires h.session.Selecting? && h.board.token && h.board.pending.Some?
    ensures ServedUnaided(h, h.board.pending.value)
  {
    var taken := Stepped(h, TakeToken);
    RunningIsServed(Stepped(taken, LookUp));
    hide ServedUnaided;
    ServedNext(taken, LookUp, h.board.pending.value);
    ServedNext(h, TakeToken, h.board.pending.value);
  }

  lemma PendingIsServed(h: Handshake)
    requires HandshakeHolds(h) && h.board.pending.Some? && !h.session.Ended?
    ensures ServedUnaided(h, h.board.pending.value)
  {
    var cycle := h.board.pending.value;
    hide ServedUnaided, CyclesAreInOrder;
    match h.session
    case Running(_) => RunningIsServed(h);
    case PollDue =>
      RunningIsServed(Stepped(h, EnsureAndRun));
      ServedNext(h, EnsureAndRun, cycle);
    case TokenTaken =>
      RunningIsServed(Stepped(h, LookUp));
      ServedNext(h, LookUp, cycle);
    case Selecting =>
      if h.board.token {
        TokenLeadsToTheCycle(h);
      } else {
        TokenLeadsToTheCycle(Stepped(h, Send));
        ServedNext(h, Send, cycle);
      }
  }

  lemma {:induction false} EndedServesNothing(h: Handshake, more: seq<Action>, cycle: Cycle)
    requires h.session.Ended? && cycle !in h.board.closed
    ensures cycle !in From(h, more).board.closed
    decreases |more|
  {
    if more != [] {
      EndedServesNothing(Stepped(h, more[0]), more[1..], cycle);
    }
  }

  /**
   * Every cycle ever made is done, or is the pending one; and that one is ended by what is already on
   * the way exactly while the session lives. Once the session has ended nothing ever ends it.
   */
  lemma EveryCycleIsServed(run: seq<Action>, cycle: Cycle)
    requires cycle < After(run).board.made
    ensures var h := After(run);
      || cycle in h.board.closed
      || (h.board.pending == Some(cycle) && if h.session.Ended? then NeverServed(h, cycle) else ServedUnaided(h, cycle))
  {
    EveryRunKeepsTheHandshake(run);
    var h := After(run);
    hide After, ServedUnaided, From;
    if cycle < |h.board.closed| {
      assert h.board.closed[cycle] in h.board.closed;
    } else if h.session.Ended? {
      forall more ensures cycle !in From(h, more).board.closed {
        EndedServesNothing(h, more, cycle);
      }
    } else {
      PendingIsServed(h);
    }
  }

  lemma RunNext(run: seq<Action>, a: Action)
    ensures After(run + [a]) == Stepped(After(run), a)
  {
    assert (run + [a])[..|run|] == run;
  }

  /** A session that ends on an error does not stop requests: the next one makes a cycle that nobody will run. */
  lemma EndedSessionStrandsACycle()
    ensures var h := After([WakePoll, EnsureAndRun, FinishBurst(true), Request]);
      h.session.Ended? && !h.board.stopped && h.board.pending == Some(1) && NeverServed(h, 1)
  {
    RunNext([], WakePoll);
    RunNext([] + [WakePoll], EnsureAndRun);
    RunNext([] + [WakePoll] + [EnsureAndRun], FinishBurst(true));
    RunNext([] + [WakePoll] + [EnsureAndRun] + [FinishBurst(true)], Request);
    var run := [WakePoll, EnsureAndRun, FinishBurst(true), Request];
    assert [] + [WakePoll] + [EnsureAndRun] + [FinishBurst(true)] + [Request] == run;
    var h := After(run);
    assert h.board == Board(Some(1), 2, false, false, [0]) && h.session == Ended;
    hide After, From;
    EveryCycleIsServed(run, 1);
  }

  // The recovery ladder.

  const CONSECUTIVE_EXIT_TIMEOUT_LIMIT := 3

  datatype Burst = Heard | ExitTimedOut | Broken

  datatype Noted = Noted(exitTimeouts: nat, ladder: bool)

  /** How a burst changes the count of exits that timed out in a row, and whether recovery starts. */
  function NoteBurst(exitTimeouts: nat, burst: Burst): Noted {
    match burst
    case Heard => Noted(0, false)
    case ExitTimedOut =>
      if exitTimeouts + 1 < CONSECUTIVE_EXIT_TIMEOUT_LIMIT then Noted(exitTimeouts + 1, false) else Noted(0, true)
    case Broken => Noted(0, true)
  }

  function CountAfter(bursts: seq<Burst>): nat {
    if bursts == [] then 0 else NoteBurst(CountAfter(bursts[..|bursts| - 1]), bursts[|bursts| - 1]).exitTimeouts
  }

  /** Whether the last of the bursts sends the session up the ladder. */
  predicate EntersLadder(bursts: seq<Burst>)
    requires bursts != []
  {
    NoteBurst(CountAfter(bursts[..|bursts| - 1]), bursts[|bursts| - 1]).ladder
  }

  /** How many exits in a row, up to the last burst, timed out. */
  function TrailingTimeouts(bursts: seq<Burst>): nat {
    if bursts == [] || !bursts[|bursts| - 1].ExitTimedOut? then 0 else TrailingTimeouts(bursts[..|bursts| - 1]) + 1
  }

  lemma OneMoreOfThree(n: nat)
    ensures (n + 1) % CONSECUTIVE_EXIT_TIMEOUT_LIMIT
            == if n % CONSECUTIVE_EXIT_TIMEOUT_LIMIT + 1 < CONSECUTIVE_EXIT_TIMEOUT_LIMIT then n % CONSECUTIVE_EXIT_TIMEOUT_LIMIT + 1 else 0
  {
  }

  lemma {:induction false} CountIsTrailingTimeouts(bursts: seq<Burst>)
    ensures CountAfter(bursts) == TrailingTimeouts(bursts) % CONSECUTIVE_EXIT_TIMEOUT_LIMIT
  {
    if bursts != [] {
      CountIsTrailingTimeouts(bursts[..|bursts| - 1]);
      OneMoreOfThree(TrailingTimeouts(bursts[..|bursts| - 1]));
    }
  }

  /** The ladder is for an error other than a late prompt, and for every third late prompt in a row. */
  lemma LadderIff(bursts: seq<Burst>)
    requires bursts != []
    ensures EntersLadder(bursts) <==>
      var last := bursts[|bursts| - 1];
      last.Broken? || (last.ExitTimedOut? && TrailingTimeouts(bursts) % 3 == 0)
  {
    var front, last := bursts[..|bursts| - 1], bursts[|bursts| - 1];
    assert TrailingTimeouts(bursts) == if last.ExitTimedOut? then TrailingTimeouts(front) + 1 else 0;
    hide CountAfter, TrailingTimeouts;
    CountIsTrailingTimeouts(front);
    OneMoreOfThree(TrailingTimeouts(front));
  }

  /** A USB reset that ran without helping, one refused so soon after another, and one that failed. */
  datatype UsbReset = Performed | CoolingDown | Impossible

  /** What each rung of the ladder would meet, and at which check, if any, the session is seen to be stopped. */
  datatype Rungs = Rungs(
    resets: bool, preparesAfterReset: bool, reopens: bool, preparesAfterReopen: bool, usb: UsbReset, stopSeenAt: Option<nat>)

  datatype Recovery = Recovered | SessionClosed | Unavailable(usb: UsbReset)

  predicate StoppedBy(rungs: Rungs, check: nat) {
    rungs.stopSeenAt.Some? && rungs.stopSeenAt.value <= check
  }

  class Recoverer {
    var exitTimeouts: nat
    var adapterOpen: bool
    var usbResets: nat

    constructor ()
      ensures exitTimeouts == 0 && adapterOpen && usbResets == 0
    {
      exitTimeouts, adapterOpen, usbResets := 0, true, 0;
    }

    method NoteStreamExit(timedOut: bool) returns (count: nat)
      modifies this`exitTimeouts
      ensures exitTimeouts == count == if timedOut then old(exitTimeouts) + 1 else 0
    {
      exitTimeouts := if timedOut then exitTimeouts + 1 else 0;
      count := exitTimeouts;
    }

    /**
     * Runs after each burst. The adapter is physically reset only when resetting and reopening both
     * failed, and is left open unless the ladder was climbed past the reset in vain.
     */
    method RunBurstWithRecovery(burst: Burst, rungs: Rungs) returns (result: Recovery)
      requires adapterOpen
      modifies this
      ensures exitTimeouts == NoteBurst(old(exitTimeouts), burst).exitTimeouts
      ensures !NoteBurst(old(exitTimeouts), burst).ladder ==> result == Recovered && adapterOpen && usbResets == old(usbResets)
      ensures NoteBurst(old(exitTimeouts), burst).ladder ==>
        (result == Recovered
         <==> !StoppedBy(rungs, 0)
              && ((rungs.resets && !StoppedBy(rungs, 1) && rungs.preparesAfterReset)
                  || (!(rungs.resets && rungs.preparesAfterReset) && rungs.reopens && rungs.preparesAfterReopen && !StoppedBy(rungs, 4))))
      ensures result == Recovered ==> adapterOpen
      ensures usbResets == old(usbResets) + if result == Unavailable(Performed) then 1 else 0
      ensures result.Unavailable? ==> result.usb == rungs.usb && !StoppedBy(rungs, 5) && !adapterOpen
      ensures result.Unavailable? ==> !(rungs.resets && rungs.preparesAfterReset) && !(rungs.reopens && rungs.preparesAfterReopen)
      ensures NoteBurst(old(exitTimeouts), burst).ladder && rungs.stopSeenAt == Some(0) ==> result == SessionClosed && adapterOpen
      ensures NoteBurst(old(exitTimeouts), burst).ladder ==>
        (result == SessionClosed
         <==> rungs.stopSeenAt.Some?
              && rungs.stopSeenAt.value <= (if rungs.resets && rungs.preparesAfterReset then 1
                                            else if rungs.reopens && rungs.preparesAfterReopen then 4 else 5))
      ensures NoteBurst(old(exitTimeouts), burst).ladder && result != SessionClosed ==>
        (result == Recovered <==> (rungs.resets && rungs.preparesAfterReset) || (rungs.reopens && rungs.preparesAfterReopen))
    {
      if burst.Heard? {
        var _ := NoteStreamExit(false);
        return Recovered;
      }
      if burst.ExitTimedOut? {
        var count := NoteStreamExit(true);
        if count < CONSECUTIVE_EXIT_TIMEOUT_LIMIT {
          return Recovered;
        }
      }
      var _ := NoteStreamExit(false);
      if StoppedBy(rungs, 0) { return SessionClosed; }
      if rungs.resets {
        if StoppedBy(rungs, 1) { return SessionClosed; }
        if rungs.preparesAfterReset { return Recovered; }
      }
      if StoppedBy(rungs, 2) { return SessionClosed; }
      adapterOpen := false;
      if StoppedBy(rungs, 3) { return SessionClosed; }
      if rungs.reopens {
        adapterOpen := true;
        if StoppedBy(rungs, 4) {
          adapterOpen := false;
          return SessionClosed;
        }
        if rungs.preparesAfterReopen { return Recovered; }
      }
      adapterOpen := false;
      if StoppedBy(rungs, 5) { return SessionClosed; }
      if rungs.usb.Performed? {
        usbResets := usbResets + 1;
      }
      result := Unavailable(rungs.usb);
    }
  }
}
