/** The connectors' circuit breaker (internal/connector/circuit_breaker.go). */
module CircuitBreaker {

  datatype Phase = Closed | Open | HalfOpen

  datatype Config = Config(threshold: int, resetTimeout: int, halfOpenMax: int) {
    predicate Valid() { threshold > 0 && resetTimeout > 0 && halfOpenMax > 0 }
  }

  /** NewCircuitBreaker's defaults; times are nanoseconds. */
  function NewConfig(threshold: int, resetTimeout: int, halfOpenMax: int): (cfg: Config)
    ensures cfg.Valid()
    ensures threshold > 0 ==> cfg.threshold == threshold
    ensures resetTimeout > 0 ==> cfg.resetTimeout == resetTimeout
    ensures halfOpenMax > 0 ==> cfg.halfOpenMax == halfOpenMax
    ensures threshold <= 0 ==> cfg.threshold == 5
    ensures resetTimeout <= 0 ==> cfg.resetTimeout == 30_000_000_000
    ensures halfOpenMax <= 0 ==> cfg.halfOpenMax == 2
  {
    Config(if threshold <= 0 then 5 else threshold,
           if resetTimeout <= 0 then 30_000_000_000 else resetTimeout,
           if halfOpenMax <= 0 then 2 else halfOpenMax)
  }

  datatype Breaker = Breaker(phase: Phase, failCount: int, successCount: int, lastFailTime: int)

  /** A breaker starts closed, with the zero time. */
  function Fresh(zeroTime: int): Breaker { Breaker(Closed, 0, 0, zeroTime) }

  datatype Event = Asked(now: int) | Succeeded | Failed(now: int) | WasReset

  predicate Refuses(cfg: Config, b: Breaker, now: int) {
    b.phase == Open && now - b.lastFailTime < cfg.resetTimeout
  }

  function Step(cfg: Config, b: Breaker, ev: Event): Breaker {
    match ev
    case Asked(now) =>
      if b.phase == Open && !Refuses(cfg, b, now) then b.(phase := HalfOpen, successCount := 0) else b
    case Succeeded =>
      (match b.phase
       case HalfOpen =>
         if b.successCount + 1 >= cfg.halfOpenMax then Breaker(Closed, 0, 0, b.lastFailTime)
         else b.(successCount := b.successCount + 1)
       case Closed => b.(failCount := 0)
       case Open => b)
    case Failed(now) =>
      var f := b.(lastFailTime := now);
      (match b.phase
       case Closed =>
         if b.failCount + 1 >= cfg.threshold then f.(phase := Open, failCount := b.failCount + 1)
         else f.(failCount := b.failCount + 1)
       case HalfOpen => f.(phase := Open, successCount := 0)
       case Open => f)
    case WasReset => Breaker(Closed, 0, 0, b.lastFailTime)
  }

  class Guard {
    const cfg: Config
    var b: Breaker

    constructor (threshold: int, resetTimeout: int, halfOpenMax: int, zeroTime: int)
      ensures cfg == NewConfig(threshold, resetTimeout, halfOpenMax) && b == Fresh(zeroTime)
    {
      cfg := NewConfig(threshold, resetTimeout, halfOpenMax);
      b := Fresh(zeroTime);
    }

    /** State reports open exactly when Allow would refuse at that instant, and changes nothing. */
    method State(now: int) returns (phase: Phase)
      ensures phase == Open <==> Refuses(cfg, b, now)
      ensures phase == Step(cfg, b, Asked(now)).phase
    {
      if b.phase == Open && now - b.lastFailTime >= cfg.resetTimeout {
        return HalfOpen;
      }
      return b.phase;
    }

    method Allow(now: int) returns (allowed: bool)
      modifies this
      ensures allowed == !Refuses(cfg, old(b), now)
      ensures b == Step(cfg, old(b), Asked(now))
    {
      match b.phase {
        case Closed => return true;
        case HalfOpen => return true;
        case Open =>
          if now - b.lastFailTime >= cfg.resetTimeout {
            b := b.(phase := HalfOpen, successCount := 0);
            return true;
          }
          return false;
      }
    }

    method RecordSuccess()
      modifies this
      ensures b == Step(cfg, old(b), Succeeded)
    {
      match b.phase {
        case HalfOpen =>
          b := b.(successCount := b.successCount + 1);
          if b.successCount >= cfg.halfOpenMax {
            b := b.(phase := Closed, failCount := 0, successCount := 0);
          }
        case Closed => b := b.(failCount := 0);
        case Open =>
      }
    }

    method RecordFailure(now: int)
      modifies this
      ensures b == Step(cfg, old(b), Failed(now))
    {
      b := b.(lastFailTime := now);
      match b.phase {
        case Closed =>
          b := b.(failCount := b.failCount + 1);
          if b.failCount >= cfg.threshold {
            b := b.(phase := Open);
          }
        case HalfOpen => b := b.(phase := Open, successCount := 0);
        case Open =>
      }
    }

    method Reset()
      modifies this
      ensures b == Step(cfg, old(b), WasReset)
    {
      b := b.(phase := Closed, failCount := 0, successCount := 0);
    }
  }

  // -------------------------------------------------------------------------
  // Every sequence of events
  // -------------------------------------------------------------------------

  function After(cfg: Config, zeroTime: int, h: seq<Event>): Breaker {
    if h == [] then Fresh(zeroTime) else Step(cfg, After(cfg, zeroTime, h[..|h| - 1]), h[|h| - 1])
  }

  /** Failures in a row at the end of h; questions in between do not count. */
  function FailureStreak(h: seq<Event>): nat {
    if h == [] then 0
    else match h[|h| - 1]
      case Asked(_) => FailureStreak(h[..|h| - 1])
      case Failed(_) => FailureStreak(h[..|h| - 1]) + 1
      case _ => 0
  }

  function SuccessStreak(h: seq<Event>): nat {
    if h == [] then 0
    else match h[|h| - 1]
      case Asked(_) => SuccessStreak(h[..|h| - 1])
      case Succeeded => SuccessStreak(h[..|h| - 1]) + 1
      case _ => 0
  }

  function LastFailure(h: seq<Event>, zeroTime: int): int {
    if h == [] then zeroTime
    else if h[|h| - 1].Failed? then h[|h| - 1].now
    else LastFailure(h[..|h| - 1], zeroTime)
  }

  /** Successes in a row since the circuit last went from open to half-open. */
  function TrialSuccesses(cfg: Config, zeroTime: int, h: seq<Event>): nat {
    if h == [] then 0
    else match h[|h| - 1]
      case Succeeded => TrialSuccesses(cfg, zeroTime, h[..|h| - 1]) + 1
      case Asked(_) =>
        if After(cfg, zeroTime, h[..|h| - 1]).phase == Open then 0 else TrialSuccesses(cfg, zeroTime, h[..|h| - 1])
      case _ => 0
  }

  /** What the fields mean in terms of the events so far. */
  ghost predicate Explained(cfg: Config, b: Breaker, h: seq<Event>, zeroTime: int) {
    && b.lastFailTime == LastFailure(h, zeroTime)
    && (b.phase == Closed ==> b.failCount == FailureStreak(h) < cfg.threshold)
    && (b.phase == HalfOpen ==> b.successCount == TrialSuccesses(cfg, zeroTime, h) < cfg.halfOpenMax)
    && TrialSuccesses(cfg, zeroTime, h) <= SuccessStreak(h)
  }

  lemma {:induction false} AlwaysExplained(cfg: Config, zeroTime: int, h: seq<Event>)
    requires cfg.Valid()
    ensures Explained(cfg, After(cfg, zeroTime, h), h, zeroTime)
  {
    if h != [] {
      AlwaysExplained(cfg, zeroTime, h[..|h| - 1]);
    }
  }

  lemma {:induction false} Extended(cfg: Config, zeroTime: int, h: seq<Event>, ev: Event)
    ensures (h + [ev])[..|h|] == h
    ensures After(cfg, zeroTime, h + [ev]) == Step(cfg, After(cfg, zeroTime, h), ev)
  {
    assert (h + [ev])[..|h|] == h;
  }

  /** From closed, an event opens the circuit exactly when it completes a streak of `threshold` failures. */
  lemma {:induction false} OpensOnStreak(cfg: Config, zeroTime: int, h: seq<Event>, ev: Event)
    requires cfg.Valid() && After(cfg, zeroTime, h).phase == Closed
    ensures After(cfg, zeroTime, h + [ev]).phase == Open <==> ev.Failed? && FailureStreak(h + [ev]) == cfg.threshold
  {
    AlwaysExplained(cfg, zeroTime, h);
    Extended(cfg, zeroTime, h, ev);
  }

  /**
   Without a reset, a circuit that is not closed closes exactly on the success that
   completes `halfOpenMax` of them in a row since it was half-opened.
   */
  lemma {:induction false} ClosesOnStreak(cfg: Config, zeroTime: int, h: seq<Event>, ev: Event)
    requires cfg.Valid() && After(cfg, zeroTime, h).phase != Closed && !ev.WasReset?
    ensures After(cfg, zeroTime, h + [ev]).phase == Closed <==>
      && After(cfg, zeroTime, h).phase == HalfOpen && ev.Succeeded?
      && TrialSuccesses(cfg, zeroTime, h + [ev]) == cfg.halfOpenMax
    ensures After(cfg, zeroTime, h + [ev]).phase == Closed ==> SuccessStreak(h + [ev]) >= cfg.halfOpenMax
  {
    AlwaysExplained(cfg, zeroTime, h);
    AlwaysExplained(cfg, zeroTime, h + [ev]);
    Extended(cfg, zeroTime, h, ev);
  }

  /** Requests are refused exactly while open within `resetTimeout` of the latest failure. */
  lemma {:induction false} RefusesWhileRecent(cfg: Config, zeroTime: int, h: seq<Event>, now: int)
    requires cfg.Valid()
    ensures Refuses(cfg, After(cfg, zeroTime, h), now)
        <==> After(cfg, zeroTime, h).phase == Open && now - LastFailure(h, zeroTime) < cfg.resetTimeout
  {
    AlwaysExplained(cfg, zeroTime, h);
  }

  /**
   Every move between the phases, in terms of the events: a failure in half-open reopens
   the circuit, a question past the timeout half-opens it, and nothing else but what
   OpensOnStreak, ClosesOnStreak and a reset do changes the phase.
   */
  lemma {:induction false} PhaseMoves(cfg: Config, zeroTime: int, h: seq<Event>, ev: Event)
    requires cfg.Valid()
    ensures var was, becomes := After(cfg, zeroTime, h).phase, After(cfg, zeroTime, h + [ev]).phase;
      var overdue := ev.Asked? && ev.now - LastFailure(h, zeroTime) >= cfg.resetTimeout;
      && (becomes == Open <==>
            || (was == Closed && ev.Failed? && FailureStreak(h + [ev]) == cfg.threshold)
            || (was == HalfOpen && ev.Failed?)
            || (was == Open && !ev.WasReset? && !overdue))
      && (becomes == HalfOpen <==>
            || (was == Open && overdue)
            || (was == HalfOpen && !ev.Failed? && !ev.WasReset?
                  && !(ev.Succeeded? && TrialSuccesses(cfg, zeroTime, h + [ev]) == cfg.halfOpenMax)))
      && (becomes == Closed <==>
            || ev.WasReset?
            || (was == Closed && !(ev.Failed? && FailureStreak(h + [ev]) == cfg.threshold))
            || (was == HalfOpen && ev.Succeeded? && TrialSuccesses(cfg, zeroTime, h + [ev]) == cfg.halfOpenMax))
  {
    AlwaysExplained(cfg, zeroTime, h);
    AlwaysExplained(cfg, zeroTime, h + [ev]);
    Extended(cfg, zeroTime, h, ev);
  }
}
