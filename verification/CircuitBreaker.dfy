/** The per-upstream circuit breaker. Every method runs under the breaker's lock, so any number of
    concurrent callers produce some sequence of calls; the results below hold for every sequence.
    Time is a real number read under the lock. */
module CircuitBreaker {

  datatype Mode = Closed | Open | HalfOpen

  datatype Breaker = Breaker(threshold: int, reset: real, failures: int, mode: Mode, openedAt: real)

  datatype Op = Allow | Success | Failure

  datatype Call = Call(op: Op, at: real)

  function New(threshold: int, reset: real): Breaker {
    Breaker(threshold, reset, 0, Closed, 0.0)
  }

  predicate Admits(b: Breaker, c: Call) {
    c.op.Allow? && (b.mode.Closed? || (b.mode.Open? && c.at - b.openedAt >= b.reset))
  }

  function Apply(b: Breaker, c: Call): Breaker {
    match c.op
    case Allow => if b.mode.Open? && Admits(b, c) then b.(mode := HalfOpen) else b
    case Success => b.(failures := 0, mode := if b.mode.HalfOpen? then Closed else b.mode)
    case Failure =>
      if b.mode.HalfOpen? || b.failures + 1 >= b.threshold then
        b.(failures := b.failures + 1, mode := Open, openedAt := c.at)
      else b.(failures := b.failures + 1)
  }

  function After(b: Breaker, calls: seq<Call>): Breaker
    decreases |calls|
  {
    if calls == [] then b else Apply(After(b, calls[..|calls| - 1]), calls[|calls| - 1])
  }

  /** How many of the calls were admitted. */
  function Admissions(b: Breaker, calls: seq<Call>): nat
    decreases |calls|
  {
    if calls == [] then 0
    else
      var init := calls[..|calls| - 1];
      Admissions(b, init) + if Admits(After(b, init), calls[|calls| - 1]) then 1 else 0
  }

  // ---------- the object ----------

  class CircuitBreakerObject {
    const threshold: int
    const reset: real
    var failures: int
    var mode: Mode
    var openedAt: real

    constructor (threshold: int, reset: real)
      ensures View() == New(threshold, reset)
    {
      this.threshold, this.reset := threshold, reset;
      failures, mode, openedAt := 0, Closed, 0.0;
    }

    function View(): Breaker
      reads this
    {
      Breaker(threshold, reset, failures, mode, openedAt)
    }

    method AllowRequest(now: real) returns (ok: bool)
      modifies this
      ensures ok == old(Admits(View(), Call(Allow, now)))
      ensures View() == Apply(old(View()), Call(Allow, now))
    {
      if mode.Closed? {
        return true;
      }
      if mode.Open? {
        if now - openedAt >= reset {
          mode := HalfOpen;
          return true;
        }
        return false;
      }
      return false;
    }

    method RecordSuccess(now: real)
      modifies this
      ensures View() == Apply(old(View()), Call(Success, now))
    {
      failures := 0;
      if mode.HalfOpen? {
        mode := Closed;
      }
    }

    method RecordFailure(now: real)
      modifies this
      ensures View() == Apply(old(View()), Call(Failure, now))
    {
      failures := failures + 1;
      if mode.HalfOpen? {
        mode := Open;
        openedAt := now;
      } else if failures >= threshold {
        mode := Open;
        openedAt := now;
      }
    }

    /** Calls by other threads, in the order in which they got the lock. */
    method Interleave(calls: seq<Call>)
      modifies this
      ensures View() == After(old(View()), calls)
    {
      ghost var b := View();
      for i := 0 to |calls|
        invariant View() == After(b, calls[..i])
      {
        assert calls[..i + 1][..i] == calls[..i];
        match calls[i].op
        case Allow => var _ := AllowRequest(calls[i].at);
        case Success => RecordSuccess(calls[i].at);
        case Failure => RecordFailure(calls[i].at);
      }
      assert calls[..|calls|] == calls;
    }
  }

  // ---------- results over all runs ----------

  lemma {:induction false} AfterAppend(b: Breaker, x: seq<Call>, y: seq<Call>)
    ensures After(b, x + y) == After(After(b, x), y)
    decreases |y|
  {
    if y == [] {
      assert x + y == x;
    } else {
      var all := x + y;
      assert all[..|all| - 1] == x + y[..|y| - 1];
      AfterAppend(b, x, y[..|y| - 1]);
    }
  }

  lemma {:induction false} ClosedIsBelowThreshold(b: Breaker, calls: seq<Call>)
    requires b.threshold >= 1 && (b.mode.Closed? ==> b.failures < b.threshold)
    ensures After(b, calls).threshold == b.threshold
    ensures After(b, calls).mode.Closed? ==> After(b, calls).failures < b.threshold
    decreases |calls|
  {
    if calls != [] {
      ClosedIsBelowThreshold(b, calls[..|calls| - 1]);
    }
  }

  ghost predicate ClosedBelow(b: Breaker, calls: seq<Call>) {
    After(b, calls).mode.Closed? ==> After(b, calls).failures < b.threshold
  }

  /** A new breaker keeps "closed means fewer failures than the threshold" in every run exactly
      when its threshold is positive. */
  lemma ClosedInvariant(threshold: int, reset: real)
    ensures (forall calls :: ClosedBelow(New(threshold, reset), calls)) <==> threshold >= 1
  {
    var b := New(threshold, reset);
    if threshold >= 1 {
      forall calls
        ensures ClosedBelow(b, calls)
      {
        ClosedIsBelowThreshold(b, calls);
      }
    } else {
      assert !ClosedBelow(b, []);
    }
  }

  // ---------- when the breaker opens and closes, read off the calls alone ----------

  /** The failures since the last success, where `n` is the number before the calls. */
  function StreakFrom(n: int, calls: seq<Call>): int
    decreases |calls|
  {
    if calls == [] then n
    else
      var before := StreakFrom(n, calls[..|calls| - 1]);
      match calls[|calls| - 1].op
      case Allow => before
      case Success => 0
      case Failure => before + 1
  }

  function Streak(calls: seq<Call>): int {
    StreakFrom(0, calls)
  }

  /** At no moment of the run have there been `threshold` failures since the last success. */
  ghost predicate StaysBelow(calls: seq<Call>, threshold: int) {
    forall k :: 0 <= k <= |calls| ==> Streak(calls[..k]) < threshold
  }

  /** Closed without failures, as a new breaker is, and one whose probe succeeded. */
  predicate Rested(b: Breaker) {
    b.mode.Closed? && b.failures == 0 && b.threshold >= 1
  }

  function Questions(calls: seq<Call>): nat
    decreases |calls|
  {
    if calls == [] then 0
    else Questions(calls[..|calls| - 1]) + if calls[|calls| - 1].op.Allow? then 1 else 0
  }

  lemma StaysBelowInit(calls: seq<Call>, threshold: int)
    requires StaysBelow(calls, threshold) && calls != []
    ensures StaysBelow(calls[..|calls| - 1], threshold) && Streak(calls) < threshold
  {
    var n := |calls| - 1;
    assert calls[..n + 1] == calls;
    forall k | 0 <= k <= n
      ensures Streak(calls[..n][..k]) < threshold
    {
      assert calls[..n][..k] == calls[..k];
    }
  }

  /** As long as the failures in a row stay below the threshold the breaker stays closed, counts them, and
      admits every question. */
  lemma {:induction false} ClosedWhileBelowThreshold(b: Breaker, calls: seq<Call>)
    requires Rested(b) && StaysBelow(calls, b.threshold)
    ensures After(b, calls) == b.(failures := Streak(calls))
    ensures Admissions(b, calls) == Questions(calls)
    decreases |calls|
  {
    if calls != [] {
      StaysBelowInit(calls, b.threshold);
      ClosedWhileBelowThreshold(b, calls[..|calls| - 1]);
    }
  }

  /** The call that brings them to the threshold is a failure and opens the breaker at its time. */
  lemma OpensAtThreshold(b: Breaker, calls: seq<Call>, c: Call)
    requires Rested(b) && StaysBelow(calls, b.threshold) && Streak(calls + [c]) >= b.threshold
    ensures c.op.Failure? && After(b, calls + [c]) == b.(failures := b.threshold, mode := Open, openedAt := c.at)
  {
    ClosedWhileBelowThreshold(b, calls);
    assert calls[..|calls|] == calls;
    assert (calls + [c])[..|calls|] == calls;
  }

  /** The time of the last failure that found the threshold reached, or `first`. */
  function LastOpening(n: int, threshold: int, first: real, calls: seq<Call>): real
    decreases |calls|
  {
    if calls == [] then first
    else if calls[|calls| - 1].op.Failure? && StreakFrom(n, calls) >= threshold then calls[|calls| - 1].at
    else LastOpening(n, threshold, first, calls[..|calls| - 1])
  }

  /** Every question comes before the timeout of the opening has passed. */
  ghost predicate Early(b: Breaker, calls: seq<Call>) {
    forall k :: 0 <= k < |calls| && calls[k].op.Allow? ==>
      calls[k].at - LastOpening(b.failures, b.threshold, b.openedAt, calls[..k]) < b.reset
  }

  lemma EarlyInit(b: Breaker, calls: seq<Call>)
    requires Early(b, calls) && calls != []
    ensures Early(b, calls[..|calls| - 1])
  {
    var n := |calls| - 1;
    forall k | 0 <= k < n && calls[k].op.Allow?
      ensures calls[..n][k].at - LastOpening(b.failures, b.threshold, b.openedAt, calls[..n][..k]) < b.reset
    {
      assert calls[..n][..k] == calls[..k];
    }
  }

  /** An open breaker stays open and refuses while questions come too early, whatever outcomes of old
      requests are recorded; a failure with the threshold reached starts the timeout again. */
  lemma {:induction false} OpenUntilTimeout(b: Breaker, calls: seq<Call>)
    requires b.mode.Open? && Early(b, calls)
    ensures After(b, calls) == b.(failures := StreakFrom(b.failures, calls),
                                  openedAt := LastOpening(b.failures, b.threshold, b.openedAt, calls))
    ensures Admissions(b, calls) == 0
    decreases |calls|
  {
    if calls != [] {
      EarlyInit(b, calls);
      OpenUntilTimeout(b, calls[..|calls| - 1]);
      hide Early, Admissions;
      AdmissionsSnoc(b, calls);
      EarlyLast(b, calls);
    }
  }

  lemma AdmissionsSnoc(b: Breaker, calls: seq<Call>)
    requires calls != []
    ensures var init := calls[..|calls| - 1];
            Admissions(b, calls) == Admissions(b, init) + if Admits(After(b, init), calls[|calls| - 1]) then 1 else 0
  {
  }

  lemma EarlyLast(b: Breaker, calls: seq<Call>)
    requires Early(b, calls) && calls != []
    ensures var n := |calls| - 1;
            calls[n].op.Allow? ==> calls[n].at - LastOpening(b.failures, b.threshold, b.openedAt, calls[..n]) < b.reset
  {
  }

  /** The first question after the timeout is the probe, and the probe's outcome decides: a success leaves
      the breaker rested, a failure opens it again at its time. */
  lemma ProbeDecides(b: Breaker, at: real, outcome: Call)
    requires b.mode.Open? && at - b.openedAt >= b.reset && b.threshold >= 1 && !outcome.op.Allow?
    ensures Admits(b, Call(Allow, at))
    ensures var r := After(b, [Call(Allow, at), outcome]);
            if outcome.op.Success? then Rested(r)
            else r == b.(failures := b.failures + 1, openedAt := outcome.at)
  {
    var probe := Call(Allow, at);
    assert [probe, outcome][..1] == [probe] && [probe][..0] == [];
    assert After(b, [probe]) == Apply(b, probe);
  }

  // ---------- half-open ----------

  /** A stretch of a run in which the breaker is half-open throughout: it begins with one admission
      and holds no other, and the next call is refused too. The stretch may begin anywhere. */
  lemma {:induction false} HalfOpenEpisodeAdmitsOne(b: Breaker, calls: seq<Call>, next: Call)
    requires !b.mode.HalfOpen? && calls != []
    requires forall k :: 1 <= k <= |calls| ==> After(b, calls[..k]).mode.HalfOpen?
    ensures Admits(b, calls[0]) && Admissions(b, calls) == 1
    ensures !Admits(After(b, calls), next)
    decreases |calls|
  {
    var n := |calls| - 1;
    assert calls[..n + 1] == calls;
    if n == 0 {
      assert calls[..0] == [];
      assert After(b, calls[..1]) == Apply(b, calls[0]);
    } else {
      forall k | 1 <= k <= n
        ensures After(b, calls[..n][..k]).mode.HalfOpen?
      {
        assert calls[..n][..k] == calls[..k];
      }
      HalfOpenEpisodeAdmitsOne(b, calls[..n], calls[n]);
    }
  }

  /** Half-open ends only by an outcome being recorded; asking again never ends it. So a probe that
      records none (a non-retryable error) leaves the breaker refusing until another request's
      outcome arrives. */
  lemma {:induction false} HalfOpenLastsUntilAnOutcome(b: Breaker, calls: seq<Call>)
    requires b.mode.HalfOpen?
    ensures (forall k :: 0 <= k <= |calls| ==> After(b, calls[..k]).mode.HalfOpen?) <==>
            (forall k :: 0 <= k < |calls| ==> calls[k].op.Allow?)
    ensures (forall k :: 0 <= k < |calls| ==> calls[k].op.Allow?) ==>
            Admissions(b, calls) == 0 && After(b, calls) == b
    decreases |calls|
  {
    if calls != [] {
      var n := |calls| - 1;
      var init := calls[..n];
      HalfOpenLastsUntilAnOutcome(b, init);
      assert calls[..n + 1] == calls;
      assert forall k :: 0 <= k <= n ==> init[..k] == calls[..k];
      if forall k :: 0 <= k <= n ==> After(b, calls[..k]).mode.HalfOpen? {
        forall k | 0 <= k <= n
          ensures After(b, init[..k]).mode.HalfOpen?
        {
          assert After(b, calls[..k]).mode.HalfOpen?;
        }
        assert After(b, calls[..n + 1]) == Apply(After(b, init), calls[n]);
      } else {
        var k :| 0 <= k <= n && !After(b, calls[..k]).mode.HalfOpen?;
        assert !After(b, init[..k]).mode.HalfOpen?;
        var j :| 0 <= j < n && !init[j].op.Allow?;
        assert !calls[j].op.Allow?;
      }
    } else {
      assert calls[..0] == [];
    }
  }

  ghost predicate InOrder(from: real, calls: seq<Call>) {
    && (forall k :: 0 <= k < |calls| ==> from <= calls[k].at)
    && (forall j, k :: 0 <= j < k < |calls| ==> calls[j].at <= calls[k].at)
  }

  function LastTime(from: real, calls: seq<Call>): real {
    if calls == [] then from else calls[|calls| - 1].at
  }

  /** At time `now`, `m` admissions after an opening at `start`. */
  ghost predicate Paced(start: real, reset: real, a: Breaker, m: nat, now: real) {
    && a.reset == reset && a.openedAt <= now
    && now - start >= m as real * reset
    && (a.mode.Open? ==> a.openedAt - start >= m as real * reset)
  }

  lemma PacedStep(start: real, reset: real, a: Breaker, m: nat, now: real, c: Call)
    requires Paced(start, reset, a, m, now) && !a.mode.Closed? && now <= c.at
    requires !Apply(a, c).mode.Closed?
    ensures Paced(start, reset, Apply(a, c), m + (if Admits(a, c) then 1 else 0), c.at)
  {
    assert (m + 1) as real * reset == m as real * reset + reset;
  }

  ghost predicate NeverClosed(b: Breaker, calls: seq<Call>) {
    forall k :: 0 <= k <= |calls| ==> !After(b, calls[..k]).mode.Closed?
  }

  lemma NeverClosedInit(b: Breaker, calls: seq<Call>)
    requires NeverClosed(b, calls) && calls != []
    ensures var init := calls[..|calls| - 1];
            NeverClosed(b, init) && !After(b, init).mode.Closed? && !After(b, calls).mode.Closed?
  {
    var n := |calls| - 1;
    assert calls[..n + 1] == calls;
    forall k | 0 <= k <= n
      ensures !After(b, calls[..n][..k]).mode.Closed?
    {
      assert calls[..n][..k] == calls[..k];
    }
  }

  lemma {:induction false} PacedRun(b: Breaker, calls: seq<Call>)
    requires Paced(b.openedAt, b.reset, b, 0, b.openedAt)
    requires InOrder(b.openedAt, calls) && NeverClosed(b, calls)
    ensures Paced(b.openedAt, b.reset, After(b, calls), Admissions(b, calls), LastTime(b.openedAt, calls))
    decreases |calls|
  {
    hide Paced, NeverClosed, Apply, Admits;
    if calls != [] {
      var n := |calls| - 1;
      NeverClosedInit(b, calls);
      PacedRun(b, calls[..n]);
      PacedStep(b.openedAt, b.reset, After(b, calls[..n]), Admissions(b, calls[..n]), LastTime(b.openedAt, calls[..n]), calls[n]);
    }
  }

  /** The rate limit of an open breaker: n admissions after it opened, without returning to closed,
      take at least n reset timeouts, whatever the callers do in between. */
  lemma AdmissionsTakeTime(b: Breaker, calls: seq<Call>)
    requires b.mode.Open? && InOrder(b.openedAt, calls) && NeverClosed(b, calls)
    ensures LastTime(b.openedAt, calls) - b.openedAt >= Admissions(b, calls) as real * b.reset
  {
    hide NeverClosed, InOrder, After, Admissions, LastTime;
    PacedRun(b, calls);
  }

  // ---------- the retrying caller ----------

  /** How a request ends; any exception that is neither an HTTP nor a URL error is an `OtherError`. */
  datatype Outcome = Responded | RetryableHttp | FatalHttp | ConnectionError | OtherError

  /** One attempt as the world plays it: what other threads do before the caller asks and while its
      request is out, when the caller asks and records, and how the request ends. */
  datatype Attempt = Attempt(before: seq<Call>, askedAt: real, during: seq<Call>, outcome: Outcome, recordedAt: real)

  datatype RetryResult = Response | CircuitOpen | HttpError | UrlError | Escaped | NoAttempt

  /** What the caller records for an outcome: nothing for a non-retryable or unforeseen error. */
  function Recorded(a: Attempt): seq<Call> {
    match a.outcome
    case Responded => [Call(Success, a.recordedAt)]
    case FatalHttp => []
    case OtherError => []
    case _ => [Call(Failure, a.recordedAt)]
  }

  function Asked(a: Attempt): seq<Call> {
    a.before + [Call(Allow, a.askedAt)]
  }

  function Played(a: Attempt): seq<Call> {
    Asked(a) + a.during + Recorded(a)
  }

  function PlayedAll(attempts: seq<Attempt>): seq<Call>
    decreases |attempts|
  {
    if attempts == [] then [] else PlayedAll(attempts[..|attempts| - 1]) + Played(attempts[|attempts| - 1])
  }

  predicate Retries(a: Attempt) {
    a.outcome.RetryableHttp? || a.outcome.ConnectionError?
  }

  function ResultOf(o: Outcome): RetryResult {
    match o
    case Responded => Response
    case ConnectionError => UrlError
    case OtherError => Escaped
    case _ => HttpError
  }

  /** The breaker after `n` attempts of the caller and, if it was then refused, its last question. */
  function AfterAttempts(b: Breaker, attempts: seq<Attempt>, n: nat, refused: bool): Breaker
    requires if refused then n < |attempts| else n <= |attempts|
  {
    After(b, PlayedAll(attempts[..n]) + if refused then Asked(attempts[n]) else [])
  }

  /** The caller's question in attempt `k` is admitted. */
  predicate AdmittedAt(b: Breaker, attempts: seq<Attempt>, k: nat)
    requires k < |attempts|
  {
    Admits(After(b, PlayedAll(attempts[..k]) + attempts[k].before), Call(Allow, attempts[k].askedAt))
  }

  /** A run that blocks for ever: one failure opens the breaker, the probe is answered with a non-retryable
      error, and all later questions, whenever they come, are refused. */
  lemma {:induction false} SilentProbeBlocksForEver(reset: real, calls: seq<Call>)
    requires forall k :: 0 <= k < |calls| ==> calls[k].op.Allow?
    ensures var probe := Attempt([Call(Failure, 0.0)], reset, [], FatalHttp, reset);
            && AdmittedAt(New(1, reset), [probe], 0)
            && Admissions(After(New(1, reset), Played(probe)), calls) == 0
            && After(New(1, reset), Played(probe) + calls).mode.HalfOpen?
  {
    var b, failure := New(1, reset), Call(Failure, 0.0);
    var probe := Attempt([failure], reset, [], FatalHttp, reset);
    assert PlayedAll([probe][..0]) + probe.before == [failure] && [failure][..0] == [];
    assert After(b, [failure]) == Apply(b, failure);
    assert Played(probe) == [failure] + [Call(Allow, reset)];
    AfterAppend(b, [failure], [Call(Allow, reset)]);
    assert [Call(Allow, reset)][..0] == [];
    var half := After(b, Played(probe));
    assert half.mode.HalfOpen?;
    HalfOpenLastsUntilAnOutcome(half, calls);
    AfterAppend(b, Played(probe), calls);
  }

  /** `_urlopen_with_retry` among other threads. It sends one request per admission and no other,
      goes on exactly after retryable outcomes, and its calls and theirs together move the breaker. */
  method UrlopenWithRetry(cb: CircuitBreakerObject, attempts: seq<Attempt>) returns (r: RetryResult, sent: nat)
    modifies cb
    ensures sent <= |attempts| && (r.NoAttempt? <==> attempts == [])
    ensures sent == 0 ==> r.CircuitOpen? || r.NoAttempt?
    ensures forall k :: 0 <= k < sent ==> AdmittedAt(old(cb.View()), attempts, k)
    ensures forall k :: 0 <= k < sent - 1 ==> Retries(attempts[k])
    ensures r.CircuitOpen? ==> sent < |attempts| && !AdmittedAt(old(cb.View()), attempts, sent)
    ensures r.CircuitOpen? && sent > 0 ==> Retries(attempts[sent - 1])
    ensures !r.CircuitOpen? && sent > 0 ==>
      r == ResultOf(attempts[sent - 1].outcome) && (sent == |attempts| || !Retries(attempts[sent - 1]))
    ensures cb.View() == AfterAttempts(old(cb.View()), attempts, sent, r.CircuitOpen?)
  {
    hide After, Admits, Played, PlayedAll, Asked;
    ghost var b := cb.View();
    r, sent := NoAttempt, 0;
    NothingPlayed(b, attempts);
    while sent < |attempts|
      invariant sent <= |attempts|
      invariant forall k :: 0 <= k < sent ==> AdmittedAt(b, attempts, k) && Retries(attempts[k])
      invariant if sent == 0 then r.NoAttempt? else r == ResultOf(attempts[sent - 1].outcome)
      invariant cb.View() == After(b, PlayedAll(attempts[..sent]))
    {
      var a := attempts[sent];
      ghost var past := PlayedAll(attempts[..sent]);
      var ok := Ask(cb, a, b, past);
      if !ok {
        r := CircuitOpen;
        return;
      }
      Finish(cb, a, b, past);
      PlayedSnoc(attempts, sent);
      sent := sent + 1;
      r := ResultOf(a.outcome);
      if !Retries(a) {
        break;
      }
    }
    assert PlayedAll(attempts[..sent]) + [] == PlayedAll(attempts[..sent]);
  }

  lemma StreakSnoc(calls: seq<Call>, c: Call)
    ensures Streak(calls + [c]) == if c.op.Allow? then Streak(calls) else if c.op.Success? then 0 else Streak(calls) + 1
  {
    assert (calls + [c])[..|calls|] == calls;
  }

  lemma PlayedAlone(a: Attempt)
    requires a.before == [] && a.during == []
    ensures var ask := Call(Allow, a.askedAt);
            Played(a) == if a.outcome.Responded? then [ask, Call(Success, a.recordedAt)]
                         else if Retries(a) then [ask, Call(Failure, a.recordedAt)] else [ask]
  {
  }

  /** What an attempt that no other thread interferes with adds to the failures in a row: a response ends
      the row, a retryable outcome extends it, other errors leave it. */
  lemma AttemptCounts(past: seq<Call>, a: Attempt)
    requires a.before == [] && a.during == []
    ensures Streak(past + Played(a)) ==
            if a.outcome.Responded? then 0 else if Retries(a) then Streak(past) + 1 else Streak(past)
  {
    hide Streak;
    var ask := Call(Allow, a.askedAt);
    PlayedAlone(a);
    StreakSnoc(past, ask);
    if Retries(a) || a.outcome.Responded? {
      var rec := Call(if Retries(a) then Failure else Success, a.recordedAt);
      assert past + [ask, rec] == past + [ask] + [rec];
      StreakSnoc(past + [ask], rec);
    }
  }

  lemma NothingPlayed(b: Breaker, attempts: seq<Attempt>)
    ensures After(b, PlayedAll(attempts[..0])) == b
  {
  }

  lemma PlayedSnoc(attempts: seq<Attempt>, k: nat)
    requires k < |attempts|
    ensures PlayedAll(attempts[..k + 1]) == PlayedAll(attempts[..k]) + Played(attempts[k])
  {
    assert attempts[..k + 1][..k] == attempts[..k];
  }

  method Ask(cb: CircuitBreakerObject, a: Attempt, ghost b: Breaker, ghost past: seq<Call>) returns (ok: bool)
    requires cb.View() == After(b, past)
    modifies cb
    ensures ok == Admits(After(b, past + a.before), Call(Allow, a.askedAt))
    ensures cb.View() == After(b, past + Asked(a))
  {
    AfterAppend(b, past, a.before);
    cb.Interleave(a.before);
    ok := cb.AllowRequest(a.askedAt);
    var all := past + Asked(a);
    assert all[..|all| - 1] == past + a.before;
  }

  method Finish(cb: CircuitBreakerObject, a: Attempt, ghost b: Breaker, ghost past: seq<Call>)
    requires cb.View() == After(b, past + Asked(a))
    modifies cb
    ensures cb.View() == After(b, past + Played(a))
  {
    var asked := past + Asked(a);
    AfterAppend(b, asked, a.during);
    cb.Interleave(a.during);
    var all := past + Played(a);
    match a.outcome
    case Responded =>
      cb.RecordSuccess(a.recordedAt);
      assert all[..|all| - 1] == asked + a.during;
    case FatalHttp =>
      assert all == asked + a.during;
    case OtherError =>
      assert all == asked + a.during;
    case RetryableHttp =>
      cb.RecordFailure(a.recordedAt);
      assert all[..|all| - 1] == asked + a.during;
    case ConnectionError =>
      cb.RecordFailure(a.recordedAt);
      assert all[..|all| - 1] == asked + a.during;
  }
}
