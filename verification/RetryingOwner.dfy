/**
 * The owner of a replaceable device: every region it runs under its mutex
 * (agent/internal/runtime/vehicle_source.go and its twin position_source.go).
 */
module RetryingOwner {
  import opened Options
  import opened Numbers

  /** The vehicle's owner and the position's differ in how a wake-up ends a retry delay, in Reset and in Read. */
  datatype Kind = Vehicle | Position

  /** Seconds. */
  const INITIAL_RETRY: nat := 5
  const MAXIMUM_RETRY: nat := 60

  type Provider = nat

  /** What reading a source gives: an error, or values and the source's status after it. */
  datatype Answer<T> = ReadError(text: string) | Answered(values: T, status: string)

  function ReadFault<T>(kind: Kind, answer: Answer<T>): (fault: string) {
    match answer
    case ReadError(text) => (if kind.Vehicle? then "vehicle" else "position") + " source read failed: " + text
    case Answered(_, status) => status
  }

  /** A failed read is reported with the source it failed on, a fault of status as it is, and a clean answer is no fault. */
  lemma ReadFaultsAreNamed<T>(text: string, values: T, status: string)
    ensures ReadFault<T>(Vehicle, ReadError(text)) == "vehicle source read failed: " + text
    ensures ReadFault<T>(Position, ReadError(text)) == "position source read failed: " + text
    ensures ReadFault(Vehicle, Answered(values, status)) == ReadFault(Position, Answered(values, status)) == status
  {
    assert "vehicle" + " source read failed: " == "vehicle source read failed: ";
    assert "position" + " source read failed: " == "position source read failed: ";
  }

  /** What the mutex guards, the retry signal's one-place buffer, and every Close called so far. */
  datatype Guarded = Guarded(
    current: Option<Provider>,
    failure: string,
    backoff: nat,
    retryDelay: nat,
    started: bool,
    acquiring: bool,
    closed: bool,
    wake: bool,
    closes: seq<Provider>)

  function Fresh(): Guarded {
    Guarded(None, "", INITIAL_RETRY, 0, false, false, false, false, [])
  }

  function Signalled(g: Guarded): Guarded {
    g.(wake := true)
  }

  function CurrentClosed(g: Guarded): Guarded {
    match g.current
    case None => g
    case Some(p) => g.(current := None, closes := g.closes + [p])
  }

  function FailureRecorded(g: Guarded, reason: string): Guarded {
    g.(failure := reason, retryDelay := g.backoff, backoff := Min(g.backoff * 2, MAXIMUM_RETRY))
  }

  function Failed(g: Guarded, reason: string): Guarded {
    FailureRecorded(CurrentClosed(g), reason)
  }

  function ResetTo(g: Guarded): Guarded {
    CurrentClosed(g).(failure := "", retryDelay := 0, backoff := INITIAL_RETRY)
  }

  predicate MayInstall(g: Guarded) {
    !g.closed && g.current.None?
  }

  function Installed(g: Guarded, p: Provider): Guarded {
    g.(current := Some(p), failure := "", retryDelay := 0, backoff := INITIAL_RETRY)
  }

  class RetryingProvider {
    const kind: Kind
    var current: Option<Provider>
    var failure: string
    var backoff: nat
    var retryDelay: nat
    var started: bool
    var acquiring: bool
    var closed: bool
    var wake: bool
    ghost var closes: seq<Provider>

    ghost function State(): Guarded
      reads this
    {
      Guarded(current, failure, backoff, retryDelay, started, acquiring, closed, wake, closes)
    }

    constructor (kind: Kind)
      ensures this.kind == kind && State() == Fresh()
    {
      this.kind := kind;
      current, failure, backoff, retryDelay := None, "", INITIAL_RETRY, 0;
      started, acquiring, closed, wake, closes := false, false, false, false, [];
    }

    /** True when the caller has to launch the loop. */
    method Start() returns (launch: bool)
      modifies this`started
      ensures launch <==> !old(started) && !closed
      ensures State() == old(State()).(started := old(started) || launch)
    {
      if started || closed {
        return false;
      }
      started := true;
      launch := true;
    }

    method SignalRetry()
      modifies this`wake
      ensures State() == Signalled(old(State()))
    {
      wake := true;
    }

    method CloseCurrentLocked()
      modifies this`current, this`closes
      ensures State() == CurrentClosed(old(State()))
    {
      if current.Some? {
        closes := closes + [current.value];
        current := None;
      }
    }

    method FailLockedWithoutClosing(reason: string)
      modifies this`failure, this`retryDelay, this`backoff
      ensures State() == FailureRecorded(old(State()), reason)
    {
      failure := reason;
      retryDelay := backoff;
      backoff := Min(backoff * 2, MAXIMUM_RETRY);
    }

    method FailLocked(reason: string)
      modifies this
      ensures State() == Failed(old(State()), reason)
    {
      CloseCurrentLocked();
      FailLockedWithoutClosing(reason);
    }

    /**
     * A read that fails, or after which the source reports a fault, costs the source its place. The
     * vehicle's owner still passes on what was read before the fault; the position's does not.
     */
    method Read<T>(answer: Answer<T>) returns (passed: Option<T>)
      modifies this
      ensures var fault := ReadFault(kind, answer);
        State() == if old(current).Some? && fault != "" then Signalled(Failed(old(State()), fault)) else old(State())
      ensures passed == if old(current).Some? && answer.Answered? && (answer.status == "" || kind.Vehicle?)
                        then Some(answer.values) else None
    {
      if current.None? {
        return None;
      }
      match answer
      case ReadError(_) =>
        FailLocked(ReadFault(kind, answer));
        SignalRetry();
        return None;
      case Answered(values, status) =>
        if status != "" {
          FailLocked(status);
          SignalRetry();
          if kind.Position? {
            return None;
          }
        }
        return Some(values);
    }

    /** True when the loop has to be woken. */
    method Reset() returns (signal: bool)
      modifies this
      ensures State() == ResetTo(old(State())) && signal == started
    {
      CloseCurrentLocked();
      failure := "";
      retryDelay := 0;
      backoff := INITIAL_RETRY;
      signal := started;
    }

    /** `wait` is whether this Close has to see the loop out; only the first does anything. */
    method BeginClose() returns (first: bool, wait: bool)
      modifies this`closed
      ensures first <==> !old(closed)
      ensures wait <==> first && started && !acquiring
      ensures State() == old(State()).(closed := true)
    {
      if closed {
        return false, false;
      }
      closed := true;
      return true, started && !acquiring;
    }

    /** The loop's health check: it fails the source it watched, unless that one is gone already. */
    method CheckHealth(watched: Provider, status: string)
      modifies this
      ensures State() == if old(current) == Some(watched) && status != "" then Failed(old(State()), status) else old(State())
    {
      if current == Some(watched) && status != "" {
        FailLocked(status);
      }
    }

    method BeginAcquire() returns (go: bool)
      modifies this`acquiring
      ensures go <==> !closed
      ensures State() == old(State()).(acquiring := old(acquiring) || go)
    {
      if closed {
        return false;
      }
      acquiring := true;
      go := true;
    }

    /** False when the provider cannot be taken any more and has to be given back. */
    method Install(p: Provider) returns (installed: bool)
      modifies this
      ensures installed <==> MayInstall(old(State()))
      ensures State() == if installed then Installed(old(State()), p) else old(State())
    {
      if closed || current.Some? {
        return false;
      }
      current := Some(p);
      failure := "";
      retryDelay := 0;
      backoff := INITIAL_RETRY;
      installed := true;
    }
  }
}
