/** core/circuit_breaker.py: the three-state breaker and what its state says about the history of calls. */
module CircuitBreaker {

  datatype State = CLOSED | OPEN | HALF_OPEN

  datatype Settings = Settings(failureThreshold: int, recoveryTimeout: real, halfOpenMaxCalls: int)

  datatype Breaker = Breaker(state: State, failures: nat, lastFailure: real, halfOpenCalls: nat)

  const FRESH := Breaker(CLOSED, 0, 0.0, 0)

  /** The state property: an OPEN breaker reads as HALF_OPEN once the recovery timeout has passed. */
  function Seen(cfg: Settings, b: Breaker, now: real): State {
    if b.state == OPEN && now - b.lastFailure >= cfg.recoveryTimeout then HALF_OPEN else b.state
  }

  /** allow_request: the breaker afterwards, and the answer. */
  function AllowSpec(cfg: Settings, b: Breaker, now: real): (Breaker, bool) {
    match Seen(cfg, b, now)
    case CLOSED => (b, true)
    case OPEN => (b, false)
    case HALF_OPEN =>
      var probing := if b.state == OPEN then b.(state := HALF_OPEN, halfOpenCalls := 0) else b;
      if probing.halfOpenCalls < cfg.halfOpenMaxCalls then
        (probing.(halfOpenCalls := probing.halfOpenCalls + 1), true)
      else (probing, false)
  }

  function SuccessSpec(b: Breaker): Breaker {
    b.(state := CLOSED, failures := 0, halfOpenCalls := 0)
  }

  function FailureSpec(cfg: Settings, b: Breaker, now: real): Breaker {
    var counted := b.(failures := b.failures + 1, lastFailure := now);
    if b.state == HALF_OPEN then counted.(state := OPEN, halfOpenCalls := 0)
    else if counted.failures >= cfg.failureThreshold then counted.(state := OPEN)
    else counted
  }

  class CircuitBreaker {
    const settings: Settings
    var state: State
    var failureCount: nat
    var lastFailureTime: real
    var halfOpenCalls: nat

    function View(): Breaker
      reads this
    {
      Breaker(state, failureCount, lastFailureTime, halfOpenCalls)
    }

    constructor (settings: Settings)
      ensures this.settings == settings && View() == FRESH
    {
      this.settings := settings;
      state, failureCount, lastFailureTime, halfOpenCalls := CLOSED, 0, 0.0, 0;
    }

    method AllowRequest(now: real) returns (allowed: bool)
      modifies this
      ensures (View(), allowed) == AllowSpec(settings, old(View()), now)
    {
      var current := Seen(settings, View(), now);
      if current == CLOSED {
        return true;
      }
      if current == OPEN {
        return false;
      }
      if state == OPEN {
        state, halfOpenCalls := HALF_OPEN, 0;
      }
      if state == HALF_OPEN {
        if halfOpenCalls < settings.halfOpenMaxCalls {
          halfOpenCalls := halfOpenCalls + 1;
          return true;
        }
        return false;
      }
      return false;
    }

    method RecordSuccess()
      modifies this
      ensures View() == SuccessSpec(old(View()))
    {
      var previous := state;
      failureCount, halfOpenCalls := 0, 0;
      if state == HALF_OPEN {
        state := CLOSED;
      } else if previous != CLOSED {
        state := CLOSED;
      }
    }

    method RecordFailure(now: real)
      modifies this
      ensures View() == FailureSpec(settings, old(View()), now)
    {
      failureCount, lastFailureTime := failureCount + 1, now;
      if state == HALF_OPEN {
        state, halfOpenCalls := OPEN, 0;
      } else if failureCount >= settings.failureThreshold {
        state := OPEN;
      }
    }

    method Reset()
      modifies this
      ensures View() == FRESH
    {
      state, failureCount, lastFailureTime, halfOpenCalls := CLOSED, 0, 0.0, 0;
    }
  }

  // ---------------------------------------------------------------- histories

  datatype Event = Allow(now: real) | Success(now: real) | Failure(now: real) | Reset(now: real)

  function Step(cfg: Settings, b: Breaker, e: Event): Breaker {
    match e
    case Allow(now) => AllowSpec(cfg, b, now).0
    case Success(_) => SuccessSpec(b)
    case Failure(now) => FailureSpec(cfg, b, now)
    case Reset(_) => FRESH
  }

  function After(cfg: Settings, es: seq<Event>): Breaker {
    if es == [] then FRESH else Step(cfg, After(cfg, es[..|es| - 1]), es[|es| - 1])
  }

  /** Length of the all-failure suffix of the recorded outcomes since the last reset. */
  function Trailing(es: seq<Event>): nat {
    if es == [] then 0 else
      match es[|es| - 1]
      case Allow(_) => Trailing(es[..|es| - 1])
      case Failure(_) => Trailing(es[..|es| - 1]) + 1
      case _ => 0
  }

  /** The time of the latest failure. */
  function LatestFailure(es: seq<Event>): real {
    if es == [] then 0.0
    else if es[|es| - 1].Failure? then es[|es| - 1].now
    else LatestFailure(es[..|es| - 1])
  }

  /** The streak that trips the breaker: it is compared only after a failure, so a setting below 1 acts as 1. */
  function TripsAt(cfg: Settings): nat {
    if cfg.failureThreshold >= 1 then cfg.failureThreshold else 1
  }

  /** Requests admitted while tripped, since the latest recorded outcome. */
  function Probes(cfg: Settings, es: seq<Event>): nat {
    if es == [] then 0 else
      var front := es[..|es| - 1];
      match es[|es| - 1]
      case Allow(now) =>
        Probes(cfg, front) +
        if Trailing(front) >= TripsAt(cfg) && AllowSpec(cfg, After(cfg, front), now).1 then 1 else 0
      case _ => 0
  }

  ghost predicate Chronological(es: seq<Event>) {
    forall i, j | 0 <= i <= j < |es| :: es[i].now <= es[j].now
  }

  /** What the stored fields say about the history, up to a time now no earlier than its last event. */
  ghost predicate Reflects(cfg: Settings, es: seq<Event>, now: real) {
    var b := After(cfg, es);
    && b.failures == Trailing(es)
    && (b.state == CLOSED <==> Trailing(es) < TripsAt(cfg))
    && (Trailing(es) > 0 ==> b.lastFailure == LatestFailure(es))
    && b.halfOpenCalls == Probes(cfg, es)
    && (b.state != HALF_OPEN ==> b.halfOpenCalls == 0)
    && (b.state == HALF_OPEN ==> now - b.lastFailure >= cfg.recoveryTimeout)
  }

  /**
   In every run failure_count is the length of the current streak of failures, the breaker is stored CLOSED exactly
   when that streak is below the threshold (a setting below 1 acting as 1), and half_open_calls counts the probes since
   it tripped.
   */
  lemma {:induction false} HistoryReflected(cfg: Settings, es: seq<Event>, now: real)
    requires Chronological(es) && (es == [] || es[|es| - 1].now <= now)
    ensures Reflects(cfg, es, now)
  {
    if es != [] {
      var front := es[..|es| - 1];
      HistoryReflected(cfg, front, es[|es| - 1].now);
    }
  }

  /**
   Admission, exactly: a request is admitted if and only if the failure streak is below the threshold, or the recovery
   timeout has passed since the latest failure and fewer than half_open_max_calls probes are out.
   */
  lemma AdmissionExactly(cfg: Settings, es: seq<Event>, now: real)
    requires Chronological(es + [Allow(now)])
    ensures AllowSpec(cfg, After(cfg, es), now).1 <==>
      Trailing(es) < TripsAt(cfg) ||
      (now - LatestFailure(es) >= cfg.recoveryTimeout && Probes(cfg, es) < cfg.halfOpenMaxCalls)
  {
    var all := es + [Allow(now)];
    forall i | 0 <= i < |es| ensures es[i] == all[i] && all[i].now <= all[|es|].now {}
    assert Chronological(es);
    HistoryReflected(cfg, es, now);
  }

  /** record_success closes the breaker from OPEN directly: one late success cancels a streak of any length. */
  lemma LateSuccessCloses(cfg: Settings, es: seq<Event>, now: real)
    ensures After(cfg, es + [Success(now)]).state == CLOSED && Trailing(es + [Success(now)]) == 0
  {
    assert (es + [Success(now)])[..|es|] == es;
  }

  /** With no probe allowed at all the breaker gets stuck: tripped once, it refuses every later request, at any time. */
  lemma ZeroProbesExample(later: real)
    ensures var cfg, es := Settings(1, 0.0, 0), [Failure(0.0), Allow(1.0)];
      After(cfg, es).state == HALF_OPEN && AllowSpec(cfg, After(cfg, es), later) == (After(cfg, es), false)
  {
    var cfg, es := Settings(1, 0.0, 0), [Failure(0.0), Allow(1.0)];
    assert es[..1] == [Failure(0.0)] && es[..1][..0] == [];
    assert After(cfg, es[..1]) == Breaker(OPEN, 1, 0.0, 0);
  }
}
