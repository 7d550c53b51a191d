/** The per-provider circuit breaker (brain/llm/circuit_breaker.py). */
module CircuitBreaker {

  datatype CircuitState = Closed | Open | HalfOpen

  datatype Time = Never | At(t: real)

  datatype Config = Config(failureThreshold: int, resetTimeout: real)

  /** The three mutable fields of a breaker. */
  datatype Fields = Fields(failures: nat, openedAt: Time, state: CircuitState)

  const FRESH := Fields(0, Never, Closed)

  predicate CooldownElapsed(c: Config, f: Fields, now: real) {
    f.openedAt.At? && now - f.openedAt.t >= c.resetTimeout
  }

  /** Reading the state turns an open circuit half-open once it has cooled down. */
  function Observed(c: Config, f: Fields, now: real): Fields {
    if f.state.Open? && CooldownElapsed(c, f, now) then f.(state := HalfOpen) else f
  }

  predicate Allows(c: Config, f: Fields, now: real) {
    !Observed(c, f, now).state.Open?
  }

  function AfterFailure(c: Config, f: Fields, now: real): Fields {
    if f.state.HalfOpen? || f.failures + 1 >= c.failureThreshold then Fields(f.failures + 1, At(now), Open)
    else f.(failures := f.failures + 1)
  }

  class CircuitBreaker {
    const config: Config
    var failures: nat
    var openedAt: Time
    var state: CircuitState

    constructor (config: Config)
      ensures this.config == config && Now() == FRESH
    {
      this.config := config;
      failures, openedAt, state := 0, Never, Closed;
    }

    function Now(): Fields
      reads this
    {
      Fields(failures, openedAt, state)
    }

    method State(now: real) returns (s: CircuitState)
      modifies this
      ensures Now() == Observed(config, old(Now()), now) && s == state
    {
      if state.Open? && openedAt.At? && now - openedAt.t >= config.resetTimeout {
        state := HalfOpen;
      }
      s := state;
    }

    method Allow(now: real) returns (ok: bool)
      modifies this
      ensures Now() == Observed(config, old(Now()), now)
      ensures ok == Allows(config, old(Now()), now)
    {
      var s := State(now);
      ok := s.Closed? || s.HalfOpen?;
    }

    method RecordSuccess()
      modifies this
      ensures Now() == FRESH
    {
      failures, openedAt, state := 0, Never, Closed;
    }

    method RecordFailure(now: real)
      modifies this
      ensures Now() == AfterFailure(config, old(Now()), now)
    {
      failures := failures + 1;
      if state.HalfOpen? || failures >= config.failureThreshold {
        state := Open;
        openedAt := At(now);
      }
    }
  }

  // ---- The history a breaker has lived through ----

  datatype Event = Polled(at: real) | Failed(at: real) | Succeeded

  function Step(c: Config, f: Fields, e: Event): Fields {
    match e
    case Polled(at) => Observed(c, f, at)
    case Failed(at) => AfterFailure(c, f, at)
    case Succeeded => FRESH
  }

  function Replay(c: Config, h: seq<Event>): Fields {
    if h == [] then FRESH else Step(c, Replay(c, h[..|h| - 1]), h[|h| - 1])
  }

  function FailuresSinceSuccess(h: seq<Event>): nat {
    if h == [] then 0
    else match h[|h| - 1]
      case Succeeded => 0
      case Failed(_) => FailuresSinceSuccess(h[..|h| - 1]) + 1
      case Polled(_) => FailuresSinceSuccess(h[..|h| - 1])
  }

  function LastFailure(h: seq<Event>): real
    requires FailuresSinceSuccess(h) > 0
  {
    match h[|h| - 1]
    case Failed(at) => at
    case Polled(_) => LastFailure(h[..|h| - 1])
  }

  /** A clock that never runs backwards, up to `now`. */
  ghost predicate Ticking(h: seq<Event>, now: real) {
    h == [] || match h[|h| - 1]
      case Succeeded => Ticking(h[..|h| - 1], now)
      case e => e.at <= now && Ticking(h[..|h| - 1], e.at)
  }

  function Limit(c: Config): int {
    if c.failureThreshold < 1 then 1 else c.failureThreshold
  }

  /** What allow means in terms of the history alone. */
  predicate HistoryAllows(c: Config, h: seq<Event>, now: real) {
    FailuresSinceSuccess(h) < Limit(c) || now - LastFailure(h) >= c.resetTimeout
  }

  lemma {:induction false} FieldsFollowHistory(c: Config, h: seq<Event>, now: real)
    requires Ticking(h, now)
    ensures Replay(c, h).failures == FailuresSinceSuccess(h)
    ensures Replay(c, h).state.Closed? <==> FailuresSinceSuccess(h) < Limit(c)
    ensures !Replay(c, h).state.Closed? ==> Replay(c, h).openedAt == At(LastFailure(h))
    ensures Replay(c, h).state.HalfOpen? ==> now - LastFailure(h) >= c.resetTimeout
  {
    if h != [] && !h[|h| - 1].Succeeded? {
      FieldsFollowHistory(c, h[..|h| - 1], h[|h| - 1].at);
    }
  }

  /** The lazy three-state machine and the history agree, for every threshold: one below 1 acts
      like 1. */
  lemma AllowsIffHistoryAllows(c: Config, h: seq<Event>, now: real)
    requires Ticking(h, now)
    ensures Allows(c, Replay(c, h), now) <==> HistoryAllows(c, h, now)
  {
    FieldsFollowHistory(c, h, now);
  }

  /** A half-open circuit is not limited to a single trial: allowing a call leaves the answer to
      the next question as it was, until a result is recorded. */
  lemma AllowingDoesNotUseUpTheTrial(c: Config, h: seq<Event>, at: real, now: real)
    requires Ticking(h + [Polled(at)], now)
    ensures Allows(c, Replay(c, h + [Polled(at)]), now) <==> HistoryAllows(c, h, now)
  {
    assert (h + [Polled(at)])[..|h|] == h;
    AllowsIffHistoryAllows(c, h + [Polled(at)], now);
  }
}
