/** circuit_breaker.py: the breaker around an awaited call, split at the await so that calls may overlap. */
module CircuitBreakers {

  datatype CircuitState = Closed | Open | HalfOpen

  /** One atomic piece of a call: its check on entry; or its end, by success, by an expected exception recorded at
      a time, or by an exception the breaker does not expect and lets through. */
  datatype Event = Begin(now: real) | Succeed | Fail(now: real) | Escape

  /** Everything that happened, latest last; the pieces of overlapping calls in any interleaving. */
  datatype Trace = Start | Then(before: Trace, last: Event)

  datatype Settings = Settings(threshold: int, timeout: real)

  /** The fields of the breaker. */
  datatype Fields = Fields(state: CircuitState, failureCount: nat, lastFailureTime: real)

  function Initial(): Fields {
    Fields(Closed, 0, 0.0)
  }

  /** Whether a call that begins now runs the function. */
  predicate Enters(f: Fields, now: real, c: Settings) {
    f.state != Open || now - f.lastFailureTime > c.timeout
  }

  function Step(f: Fields, e: Event, c: Settings): Fields {
    match e
    case Begin(now) => if f.state == Open && Enters(f, now, c) then f.(state := HalfOpen) else f
    case Succeed => if f.state == HalfOpen then Initial() else f
    case Fail(now) =>
      var count := f.failureCount + 1;
      Fields(if count >= c.threshold && f.state != Open then Open else f.state, count, now)
    case Escape => f
  }

  function After(t: Trace, c: Settings): Fields {
    match t
    case Start => Initial()
    case Then(before, e) => Step(After(before, c), e, c)
  }

  class CircuitBreaker {
    const settings: Settings
    var state: CircuitState
    var failureCount: nat
    var lastFailureTime: real
    ghost var trace: Trace

    ghost predicate Valid()
      reads this
    {
      Fields(state, failureCount, lastFailureTime) == After(trace, settings)
    }

    constructor (threshold: int, timeout: real)
      ensures Valid() && trace == Start && settings == Settings(threshold, timeout)
    {
      settings := Settings(threshold, timeout);
      state, failureCount, lastFailureTime := Closed, 0, 0.0;
      trace := Start;
    }

    /** The check before the await. */
    method BeginCall(now: real) returns (enters: bool)
      requires Valid()
      modifies this
      ensures Valid() && trace == Then(old(trace), Begin(now))
      ensures enters == Enters(After(old(trace), settings), now, settings)
    {
      trace := Then(trace, Begin(now));
      enters := true;
      if state == Open {
        if now - lastFailureTime > settings.timeout {
          state := HalfOpen;
        } else {
          enters := false;
        }
      }
    }

    /** After the await: the function returned. */
    method EndWithSuccess()
      requires Valid()
      modifies this
      ensures Valid() && trace == Then(old(trace), Succeed)
    {
      trace := Then(trace, Succeed);
      if state == HalfOpen {
        Reset();
      }
    }

    /** After the await: the function raised an expected exception. */
    method HandleFailure(now: real)
      requires Valid()
      modifies this
      ensures Valid() && trace == Then(old(trace), Fail(now))
    {
      trace := Then(trace, Fail(now));
      failureCount := failureCount + 1;
      lastFailureTime := now;
      if failureCount >= settings.threshold && state != Open {
        state := Open;
      }
    }

    method Reset()
      modifies this`state, this`failureCount, this`lastFailureTime
      ensures Fields(state, failureCount, lastFailureTime) == Initial()
    {
      state, failureCount, lastFailureTime := Closed, 0, 0.0;
    }
  }

  // ---------- The state, told from the trace alone ----------

  /** What an observer would note: failures since the last recovery, the time of the latest one, and whether a call
      has been let through for probing since. */
  datatype Account = Account(failures: nat, latest: real, probed: bool)

  /** Enough failures and a probe: the next success is a recovery. */
  predicate Recovering(a: Account, c: Settings) {
    a.failures >= c.threshold && a.probed
  }

  function AccountOf(t: Trace, c: Settings): Account {
    match t
    case Start => Account(0, 0.0, false)
    case Then(before, e) =>
      var a := AccountOf(before, c);
      match e
      case Begin(now) => if a.failures >= c.threshold && now - a.latest > c.timeout then a.(probed := true) else a
      case Succeed => if Recovering(a, c) then Account(0, 0.0, false) else a
      case Fail(now) => Account(a.failures + 1, now, false)
      case Escape => a
  }

  function StateOf(a: Account, c: Settings): CircuitState {
    if a.failures < c.threshold then Closed else if a.probed then HalfOpen else Open
  }

  /** For every interleaving: the count is the failures since the last recovery, the breaker is closed exactly below
      the threshold, half-open exactly after a probe, and open otherwise. */
  lemma {:induction false} StateFollowsTrace(t: Trace, c: Settings)
    requires c.threshold >= 1
    ensures var f, a := After(t, c), AccountOf(t, c);
            && f.failureCount == a.failures
            && f.state == StateOf(a, c)
            && (f.state == Closed <==> f.failureCount < c.threshold)
            && f.lastFailureTime == a.latest
  {
    if t.Then? {
      StateFollowsTrace(t.before, c);
    }
  }

  /** The invariant needs a positive threshold: at zero or below it fails before the first call. */
  lemma ClosedBelowThresholdIff(c: Settings)
    ensures (forall t :: After(t, c).state == Closed <==> After(t, c).failureCount < c.threshold) <==> c.threshold >= 1
  {
    if c.threshold >= 1 {
      forall t ensures After(t, c).state == Closed <==> After(t, c).failureCount < c.threshold {
        StateFollowsTrace(t, c);
      }
    } else {
      assert After(Start, c) == Initial();
    }
  }

  /** Which calls run the function, told by the trace: those begun below the threshold, after a probe, or later than the
      timeout after the latest failure. */
  lemma EntersIff(t: Trace, now: real, c: Settings)
    requires c.threshold >= 1
    ensures var a := AccountOf(t, c);
            Enters(After(t, c), now, c) <==> a.failures < c.threshold || a.probed || now - a.latest > c.timeout
  {
    StateFollowsTrace(t, c);
  }

  // ---------- Transitions ----------

  /** Which events change the state: only a failure opens, only a late enough call half-opens, and only a success
      observed while half-open closes; any failure while half-open reopens. */
  lemma Transitions(t: Trace, e: Event, c: Settings)
    requires c.threshold >= 1
    ensures var s, s' := After(t, c).state, After(Then(t, e), c).state;
            && (s == Open && s' != Open <==> s == Open && e.Begin? && e.now - AccountOf(t, c).latest > c.timeout)
            && (s == Open && s' != Open ==> s' == HalfOpen)
            && (s == HalfOpen && s' == Closed <==> s == HalfOpen && e.Succeed?)
            && (s == HalfOpen && s' == Open <==> s == HalfOpen && e.Fail?)
            && (s == Closed && s' != Closed <==> s == Closed && e.Fail? && AccountOf(t, c).failures + 1 == c.threshold)
            && (s == Closed && s' != Closed ==> s' == Open)
  {
    StateFollowsTrace(t, c);
    StateFollowsTrace(Then(t, e), c);
  }

  // ---------- The quiet period ----------

  function Concat(t: Trace, more: Trace): Trace {
    if more.Start? then t else Then(Concat(t, more.before), more.last)
  }

  /** Calls begin no later than the deadline, and failures are recorded no earlier than the given time. */
  predicate Within(more: Trace, since: real, deadline: real) {
    more.Then? ==>
      && Within(more.before, since, deadline)
      && (more.last.Begin? ==> more.last.now <= deadline)
      && (more.last.Fail? ==> more.last.now >= since)
  }

  /** No call of this stretch, begun after the trace t, runs the function. */
  predicate NoneEnters(t: Trace, more: Trace, c: Settings) {
    more.Then? ==>
      && NoneEnters(t, more.before, c)
      && (more.last.Begin? ==> !Enters(After(Concat(t, more.before), c), more.last.now, c))
  }

  /** From a failure that leaves the breaker open until the recovery timeout has passed, no call runs the function,
      whatever the calls still in flight do: succeed, fail again, or escape. */
  lemma {:induction false} QuietPeriod(t: Trace, at: real, more: Trace, c: Settings)
    requires After(Then(t, Fail(at)), c).state == Open
    requires Within(more, at, at + c.timeout)
    ensures After(Concat(Then(t, Fail(at)), more), c).state == Open
    ensures After(Concat(Then(t, Fail(at)), more), c).lastFailureTime >= at
    ensures NoneEnters(Then(t, Fail(at)), more, c)
  {
    if more.Then? {
      QuietPeriod(t, at, more.before, c);
    }
  }

  // ---------- The count is not of consecutive failures ----------

  /** n failures, each followed by a success. */
  function Alternating(n: nat): Trace {
    if n == 0 then Start
    else Then(Then(Then(Then(Alternating(n - 1), Begin(0.0)), Fail(0.0)), Begin(0.0)), Succeed)
  }

  lemma {:induction false} SuccessesDoNotReset(n: nat, c: Settings)
    requires n < c.threshold
    ensures After(Alternating(n), c) == Fields(Closed, n, 0.0)
  {
    if n > 0 {
      SuccessesDoNotReset(n - 1, c);
      var failed := Then(Then(Alternating(n - 1), Begin(0.0)), Fail(0.0));
      assert After(failed, c) == Fields(Closed, n, 0.0);
      assert Alternating(n) == Then(Then(failed, Begin(0.0)), Succeed);
    }
  }

  /** Failures of which no two follow each other open the breaker just the same. */
  lemma OpensWithoutConsecutiveFailures(c: Settings)
    requires c.threshold >= 1
    ensures After(Then(Then(Alternating(c.threshold - 1), Begin(0.0)), Fail(0.0)), c).state == Open
  {
    SuccessesDoNotReset(c.threshold - 1, c);
  }

  /** The number of failures since the latest success or the start. */
  function ConsecutiveFailures(t: Trace): nat {
    match t
    case Start => 0
    case Then(before, e) =>
      if e.Fail? then ConsecutiveFailures(before) + 1 else if e.Succeed? then 0 else ConsecutiveFailures(before)
  }

  /** The count is the number of consecutive failures exactly when the latest success, if any, found no failure on
      the count or was a recovery. */
  predicate LatestSuccessClean(t: Trace, c: Settings) {
    match t
    case Start => true
    case Then(before, e) =>
      if e.Succeed? then AccountOf(before, c).failures == 0 || Recovering(AccountOf(before, c), c)
      else LatestSuccessClean(before, c)
  }

  lemma {:induction false} CountIsConsecutiveIff(t: Trace, c: Settings)
    requires c.threshold >= 1
    ensures After(t, c).failureCount == ConsecutiveFailures(t) <==> LatestSuccessClean(t, c)
    ensures After(t, c).failureCount >= ConsecutiveFailures(t)
  {
    StateFollowsTrace(t, c);
    if t.Then? {
      CountIsConsecutiveIff(t.before, c);
      StateFollowsTrace(t.before, c);
    }
  }
}
