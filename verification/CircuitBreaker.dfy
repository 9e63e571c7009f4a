/** The circuit breaker: consecutive failures open it, and while open it lets one request through per timeout. */
module CircuitBreaker {
  import opened Collections

  const DEFAULT_THRESHOLD: int := 5
  const DEFAULT_TIMEOUT: int := 60_000_000_000

  datatype State = Closed | Open | HalfOpen

  /** The fields; `openedAt` is None for the zero time, which the clock never reads. */
  datatype Fields = Fields(threshold: int, timeout: int, failureCount: int, openedAt: Option<int>)

  /** One call, with the clock readings it makes. AllowRequest reads the clock a second time if it admits. */
  datatype Call =
    | RecordFailure(now: int)
    | RecordSuccess
    | AllowRequest(now: int, later: int)
    | ForceOpen(now: int)

  function New(threshold: int, timeout: int): Fields {
    Fields(if threshold <= 0 then DEFAULT_THRESHOLD else threshold,
           if timeout <= 0 then DEFAULT_TIMEOUT else timeout, 0, None)
  }

  predicate Admits(f: Fields, now: int) { f.openedAt.None? || now - f.openedAt.value >= f.timeout }

  function After(f: Fields, c: Call): Fields {
    match c
    case RecordFailure(now) =>
      var count := f.failureCount + 1;
      f.(failureCount := count, openedAt := if count >= f.threshold then Some(now) else f.openedAt)
    case RecordSuccess => f.(failureCount := 0, openedAt := None)
    case AllowRequest(now, later) => if f.openedAt.Some? && Admits(f, now) then f.(openedAt := Some(later)) else f
    case ForceOpen(now) => f.(failureCount := f.threshold, openedAt := Some(now))
  }

  class Breaker {
    var failureCount: int
    const threshold: int
    const timeout: int
    var openedAt: Option<int>

    ghost function Value(): Fields
      reads this
    {
      Fields(threshold, timeout, failureCount, openedAt)
    }

    constructor (threshold: int, timeout: int)
      ensures Value() == New(threshold, timeout)
    {
      this.threshold := if threshold <= 0 then DEFAULT_THRESHOLD else threshold;
      this.timeout := if timeout <= 0 then DEFAULT_TIMEOUT else timeout;
      failureCount, openedAt := 0, None;
    }

    method RecordFailure(now: int)
      modifies this
      ensures Value() == After(old(Value()), Call.RecordFailure(now))
      ensures failureCount == old(failureCount) + 1
      ensures openedAt == if failureCount >= threshold then Some(now) else old(openedAt)
    {
      failureCount := failureCount + 1;
      if failureCount >= threshold {
        openedAt := Some(now);
      }
    }

    method RecordSuccess()
      modifies this
      ensures Value() == After(old(Value()), Call.RecordSuccess)
      ensures failureCount == 0 && openedAt == None
    {
      failureCount, openedAt := 0, None;
    }

    method AllowRequest(now: int, later: int) returns (admitted: bool)
      modifies this
      ensures admitted <==> old(openedAt) == None || now - old(openedAt).value >= timeout
      ensures openedAt == if old(openedAt).Some? && admitted then Some(later) else old(openedAt)
      ensures Value() == After(old(Value()), Call.AllowRequest(now, later)) && failureCount == old(failureCount)
    {
      if openedAt.None? {
        return true;
      }
      if now - openedAt.value >= timeout {
        openedAt := Some(later);
        return true;
      }
      return false;
    }

    method ForceOpen(now: int)
      modifies this
      ensures Value() == After(old(Value()), Call.ForceOpen(now))
    {
      failureCount := threshold;
      openedAt := Some(now);
    }

    /** State: half-open exactly when the next request would be admitted although the circuit is open. */
    method GetState(now: int) returns (s: State)
      ensures s.Closed? <==> openedAt.None?
      ensures s.HalfOpen? <==> openedAt.Some? && now - openedAt.value >= timeout
    {
      if openedAt.None? {
        return Closed;
      }
      if now - openedAt.value >= timeout {
        return HalfOpen;
      }
      return Open;
    }
  }

  // ---------------------------------------------------------------- every run under a monotone clock

  datatype Run = Fresh(threshold: int, timeout: int) | Then(past: Run, call: Call)

  function Now(run: Run): Fields {
    if run.Fresh? then New(run.threshold, run.timeout) else After(Now(run.past), run.call)
  }

  /** No clock reading of the run is later than `t`, and none is earlier than one before it. */
  predicate Monotone(run: Run, t: int) {
    run.Then? ==>
      match run.call
      case RecordFailure(now) => now <= t && Monotone(run.past, now)
      case ForceOpen(now) => now <= t && Monotone(run.past, now)
      case AllowRequest(now, later) => now <= later <= t && Monotone(run.past, now)
      case RecordSuccess => Monotone(run.past, t)
  }

  /** The breaker is open exactly when the failures reach the threshold, and never in the future. */
  lemma {:induction false} OpenIffThresholdReached(run: Run, t: int)
    requires Monotone(run, t)
    ensures var f := Now(run);
      && 0 < f.threshold && 0 < f.timeout && 0 <= f.failureCount
      && (f.openedAt.Some? <==> f.failureCount >= f.threshold)
      && (f.openedAt.Some? ==> f.openedAt.value <= t)
  {
    if run.Then? {
      var before := match run.call
        case RecordFailure(now) => now
        case ForceOpen(now) => now
        case AllowRequest(now, _) => now
        case RecordSuccess => t;
      OpenIffThresholdReached(run.past, before);
    }
  }

  /** The failures recorded since the last success. */
  function Failures(run: Run): nat {
    if run.Fresh? || run.call.RecordSuccess? then 0 else Failures(run.past) + (if run.call.RecordFailure? then 1 else 0)
  }

  /** The breaker was forced open since the last success. */
  predicate Forced(run: Run) { run.Then? && !run.call.RecordSuccess? && (run.call.ForceOpen? || Forced(run.past)) }

  function First(run: Run): Run { if run.Fresh? then run else First(run.past) }

  /** It is open exactly if it was forced open, or as many failures as its threshold came, since the last success. */
  lemma {:induction false} OpenIffFailed(run: Run)
    ensures First(run).Fresh?
    ensures var f, limit, timeout := Now(run), First(run).threshold, First(run).timeout;
      && f.threshold == (if limit <= 0 then 5 else limit) && f.timeout == (if timeout <= 0 then 60_000_000_000 else timeout)
      && (f.openedAt.Some? <==> Forced(run) || Failures(run) >= f.threshold)
      && if Forced(run) then f.failureCount >= f.threshold else f.failureCount == Failures(run)
  {
    if run.Then? {
      OpenIffFailed(run.past);
    }
  }

  /** `more` continues `run` without a success in between. */
  predicate NoSuccessSince(more: Run, run: Run) {
    more == run || (more.Then? && !more.call.RecordSuccess? && NoSuccessSince(more.past, run))
  }

  /** The requests admitted while open after `run`. */
  function Trials(more: Run, run: Run): nat {
    if more == run || more.Fresh? then 0 else
      Trials(more.past, run) +
      (if more.call.AllowRequest? && Now(more.past).openedAt.Some? && Admits(Now(more.past), more.call.now) then 1 else 0)
  }

  /**
   From a moment the breaker is open and until the next success, each admitted request moves openedAt
   forward by at least the timeout; so in any stretch of length T at most T / timeout are admitted.
   */
  lemma {:induction false} TrialsAreSpaced(run: Run, more: Run, t: int)
    requires NoSuccessSince(more, run) && Monotone(more, t) && Now(run).openedAt.Some?
    ensures Now(more).openedAt.Some? && Now(more).timeout == Now(run).timeout
    ensures Trials(more, run) * Now(run).timeout <= Now(more).openedAt.value - Now(run).openedAt.value
    ensures Now(more).openedAt.value <= t
  {
    OpenIffThresholdReached(more, t);
    if more != run {
      var before := match more.call
        case RecordFailure(now) => now
        case ForceOpen(now) => now
        case AllowRequest(now, _) => now
        case RecordSuccess => t;
      TrialsAreSpaced(run, more.past, before);
      OpenIffThresholdReached(more.past, before);
      var n, timeout := Trials(more.past, run), Now(run).timeout;
      assert (n + 1) * timeout == n * timeout + timeout;
    }
  }

  /** Two requests admitted while open, with no success between them, are at least the timeout apart. */
  lemma AdmissionsAreApart(run: Run, more: Run, a: Call, b: Call, t: int)
    requires a.AllowRequest? && b.AllowRequest? && Monotone(Then(more, b), t)
    requires Now(run).openedAt.Some? && Admits(Now(run), a.now)
    requires NoSuccessSince(more, Then(run, a)) && Admits(Now(more), b.now)
    ensures b.now - a.later >= Now(run).timeout
  {
    TrialsAreSpaced(Then(run, a), more, b.now);
    var timeout := Now(run).timeout;
    assert Now(Then(run, a)).openedAt == Some(a.later) && Now(Then(run, a)).timeout == timeout;
    OpenIffThresholdReached(more, b.now);
    ProductIsNatural(Trials(more, Then(run, a)), timeout);
  }

  lemma ProductIsNatural(n: nat, d: nat)
    ensures n * d >= 0
  {}

  /** At most T / timeout requests are admitted in the T units after the breaker opened. */
  lemma AdmissionsAreFew(run: Run, more: Run, t: int)
    requires NoSuccessSince(more, run) && Monotone(more, t) && Now(run).openedAt.Some?
    ensures Now(run).timeout > 0 && Trials(more, run) <= (t - Now(run).openedAt.value) / Now(run).timeout
  {
    TrialsAreSpaced(run, more, t);
    OpenIffThresholdReached(more, t);
    AtMostQuotient(Trials(more, run), Now(run).timeout, t - Now(run).openedAt.value);
  }

  predicate NotBefore(c: Call, s: int) {
    match c
    case RecordFailure(now) => s <= now
    case ForceOpen(now) => s <= now
    case AllowRequest(now, _) => s <= now
    case RecordSuccess => true
  }

  /** The calls after `run` read the clock at `s` or later. */
  predicate Since(more: Run, run: Run, s: int) {
    more == run || (more.Then? && NotBefore(more.call, s) && Since(more.past, run, s))
  }

  lemma {:induction false} TrialsInWindow(run: Run, more: Run, s: int, t: int)
    requires NoSuccessSince(more, run) && Monotone(more, t) && Since(more, run, s)
    ensures Now(more).timeout == Now(run).timeout > 0
    ensures Trials(more, run) > 0 ==>
      && Now(more).openedAt.Some? && Now(more).openedAt.value <= t
      && (Trials(more, run) - 1) * Now(run).timeout <= Now(more).openedAt.value - s
  {
    OpenIffThresholdReached(more, t);
    if more != run {
      var before := match more.call
        case RecordFailure(now) => now
        case ForceOpen(now) => now
        case AllowRequest(now, _) => now
        case RecordSuccess => t;
      TrialsInWindow(run, more.past, s, before);
      OpenIffThresholdReached(more.past, before);
      var n, timeout := Trials(more.past, run), Now(run).timeout;
      assert n * timeout == (n - 1) * timeout + timeout;
    }
  }

  /** In any window of length T without a success, at most T / timeout + 1 requests are admitted while open. */
  lemma AdmissionsInAnyWindow(run: Run, more: Run, s: int, t: int)
    requires NoSuccessSince(more, run) && Monotone(more, t) && Since(more, run, s) && s <= t
    ensures Now(run).timeout > 0 && Trials(more, run) <= (t - s) / Now(run).timeout + 1
  {
    TrialsInWindow(run, more, s, t);
    var n, timeout := Trials(more, run), Now(run).timeout;
    if n > 0 {
      AtMostQuotient(n - 1, timeout, t - s);
    } else {
      AtMostQuotient(0, timeout, t - s);
    }
  }

  lemma AtMostQuotient(n: nat, d: int, x: int)
    requires d > 0 && n * d <= x
    ensures n <= x / d
  {
    var k := x / d - n + 1;
    assert x == x / d * d + x % d;
    assert k * d == x / d * d - n * d + d;
    FactorIsPositive(k, d);
  }

  lemma FactorIsPositive(k: int, d: int)
    requires d > 0 && k * d > 0
    ensures k > 0
  {
    assert k <= 0 ==> k * d <= 0;
  }
}
