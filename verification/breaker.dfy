/**
 The circuit breaker of one RPC provider, and its meaning in terms of the history of
 recorded calls.
 */
module Breakers {

  datatype Health = Healthy | Unhealthy | HalfOpen

  datatype Thresholds = Thresholds(failures: int, successes: int, timeout: int) {
    predicate Valid() {
      failures >= 1 && successes >= 1
    }
  }

  datatype Breaker = Breaker(
    health: Health, failureCount: nat, successCount: nat,
    lastFailure: int, lastSuccess: int, halfOpenCalls: nat)

  function New(): Breaker {
    Breaker(Healthy, 0, 0, 0, 0, 0)
  }

  predicate TimedOut(c: Thresholds, b: Breaker, now: int) {
    now - b.lastFailure > c.timeout
  }

  /** The part of IsHealthy under the write lock. */
  function Recheck(c: Thresholds, b: Breaker, now: int): Breaker {
    if b.health == Unhealthy && TimedOut(c, b, now) then b.(health := HalfOpen, halfOpenCalls := 0) else b
  }

  function OnSuccess(c: Thresholds, b: Breaker, now: int): Breaker {
    var counted := b.(lastSuccess := now, successCount := b.successCount + 1, failureCount := 0);
    match b.health
    case HalfOpen =>
      if counted.successCount >= c.successes
      then counted.(health := Healthy, halfOpenCalls := 0, successCount := 0)
      else counted.(halfOpenCalls := b.halfOpenCalls + 1)
    case Unhealthy => counted.(health := HalfOpen)
    case Healthy => counted
  }

  function OnFailure(c: Thresholds, b: Breaker, now: int): Breaker {
    var counted := b.(lastFailure := now, failureCount := b.failureCount + 1, successCount := 0);
    if b.health == HalfOpen then counted.(health := Unhealthy, halfOpenCalls := 0)
    else if counted.failureCount >= c.failures then counted.(health := Unhealthy)
    else counted
  }

  // ----------------------------------------------------------------- history

  datatype Event = Succeeded(at: int) | Failed(at: int) | Rechecked(at: int)

  function Handle(c: Thresholds, b: Breaker, e: Event): Breaker {
    match e
    case Succeeded(at) => OnSuccess(c, b, at)
    case Failed(at) => OnFailure(c, b, at)
    case Rechecked(at) => Recheck(c, b, at)
  }

  function Replay(c: Thresholds, h: seq<Event>): Breaker {
    if h == [] then New() else Handle(c, Replay(c, h[..|h| - 1]), h[|h| - 1])
  }

  /** The breaker after more events. */
  function ReplayFrom(c: Thresholds, b: Breaker, h: seq<Event>): Breaker {
    if h == [] then b else Handle(c, ReplayFrom(c, b, h[..|h| - 1]), h[|h| - 1])
  }

  lemma ReplayOne(c: Thresholds, b: Breaker, e: Event)
    ensures ReplayFrom(c, b, [e]) == Handle(c, b, e)
  {
    assert [e][..0] == [];
  }

  lemma ReplayTwo(c: Thresholds, b: Breaker, e: Event, f: Event)
    ensures ReplayFrom(c, b, [e] + [f]) == Handle(c, Handle(c, b, e), f)
  {
    assert ([e] + [f])[..1] == [e];
    ReplayOne(c, b, e);
  }

  lemma {:induction false} ReplayJoins(c: Thresholds, b: Breaker, h: seq<Event>, more: seq<Event>)
    ensures ReplayFrom(c, b, h + more) == ReplayFrom(c, ReplayFrom(c, b, h), more)
    decreases |more|
  {
    if more == [] {
      assert h + more == h;
    } else {
      ReplayJoins(c, b, h, more[..|more| - 1]);
      assert (h + more)[..|h + more| - 1] == h + more[..|more| - 1];
    }
  }

  lemma {:induction false} ReplayContinues(c: Thresholds, h: seq<Event>, more: seq<Event>)
    ensures Replay(c, h + more) == ReplayFrom(c, Replay(c, h), more)
    decreases |more|
  {
    if more == [] {
      assert h + more == h;
    } else {
      ReplayContinues(c, h, more[..|more| - 1]);
      assert (h + more)[..|h + more| - 1] == h + more[..|more| - 1];
    }
  }

  /** The failures since the last success. */
  function TrailingFailures(h: seq<Event>): nat {
    if h == [] then 0
    else
      var n := |h| - 1;
      match h[n]
      case Succeeded(_) => 0
      case Failed(_) => TrailingFailures(h[..n]) + 1
      case Rechecked(_) => TrailingFailures(h[..n])
  }

  /** The successes since the last failure. */
  function SuccessesSinceFailure(h: seq<Event>): nat {
    if h == [] then 0
    else
      var n := |h| - 1;
      match h[n]
      case Succeeded(_) => SuccessesSinceFailure(h[..n]) + 1
      case Failed(_) => 0
      case Rechecked(_) => SuccessesSinceFailure(h[..n])
  }

  /** The time of the last failure, 0 if there is none. */
  function LastFailureTime(h: seq<Event>): int {
    if h == [] then 0
    else if h[|h| - 1].Failed? then h[|h| - 1].at
    else LastFailureTime(h[..|h| - 1])
  }

  /** A recheck after the last failure found the timeout over. */
  predicate TimeoutSeen(c: Thresholds, h: seq<Event>) {
    h != [] &&
    var n := |h| - 1;
    match h[n]
    case Succeeded(_) => TimeoutSeen(c, h[..n])
    case Failed(_) => false
    case Rechecked(at) => TimeoutSeen(c, h[..n]) || at - LastFailureTime(h[..n]) > c.timeout
  }

  /** The i-th event completed a run of failures as long as the threshold, and since
      then the threshold of successes without a failure has never been reached. */
  ghost predicate TrippedAt(c: Thresholds, h: seq<Event>, i: nat) {
    && i < |h| && h[i].Failed? && TrailingFailures(h[..i + 1]) >= c.failures
    && forall j :: i < j <= |h| ==> SuccessesSinceFailure(h[..j]) < c.successes
  }

  ghost predicate Tripped(c: Thresholds, h: seq<Event>) {
    exists i: nat :: TrippedAt(c, h, i)
  }

  /** The successes since the later of the last failure and the last close. */
  ghost function SuccessesSinceReset(c: Thresholds, h: seq<Event>): nat {
    if h == [] then 0
    else
      var n := |h| - 1;
      match h[n]
      case Succeeded(_) => if Tripped(c, h[..n]) && !Tripped(c, h) then 0 else SuccessesSinceReset(c, h[..n]) + 1
      case Failed(_) => 0
      case Rechecked(_) => SuccessesSinceReset(c, h[..n])
  }

  /** What the breaker's fields mean. */
  ghost predicate Means(c: Thresholds, h: seq<Event>, b: Breaker) {
    && b.failureCount == TrailingFailures(h)
    && b.lastFailure == LastFailureTime(h)
    && (b.health != Healthy <==> Tripped(c, h))
    && (b.health == Healthy ==> TrailingFailures(h) < c.failures)
    && (b.health != Healthy ==> b.successCount == SuccessesSinceFailure(h))
    && (b.health == HalfOpen <==> Tripped(c, h) && (SuccessesSinceFailure(h) > 0 || TimeoutSeen(c, h)))
    && b.successCount == SuccessesSinceReset(c, h)
  }

  lemma TripRemembered(c: Thresholds, h: seq<Event>, e: Event, i: nat)
    requires TrippedAt(c, h + [e], i) && i < |h|
    ensures TrippedAt(c, h, i)
  {
    var g := h + [e];
    assert g[..i + 1] == h[..i + 1];
    forall j | i < j <= |h|
      ensures SuccessesSinceFailure(h[..j]) < c.successes
    {
      assert g[..j] == h[..j];
    }
  }

  lemma TripPersists(c: Thresholds, h: seq<Event>, e: Event, i: nat)
    requires TrippedAt(c, h, i) && SuccessesSinceFailure(h + [e]) < c.successes
    ensures TrippedAt(c, h + [e], i)
  {
    var g := h + [e];
    assert g[..i + 1] == h[..i + 1];
    forall j | i < j <= |g|
      ensures SuccessesSinceFailure(g[..j]) < c.successes
    {
      if j <= |h| {
        assert g[..j] == h[..j];
      } else {
        assert g[..j] == g;
      }
    }
  }

  /** How one more event changes whether the breaker is tripped. */
  lemma TrippedExtends(c: Thresholds, h: seq<Event>, e: Event)
    requires c.Valid()
    ensures Tripped(c, h + [e]) <==>
              || (Tripped(c, h) && SuccessesSinceFailure(h + [e]) < c.successes)
              || (e.Failed? && TrailingFailures(h + [e]) >= c.failures)
  {
    var g := h + [e];
    assert g[..|g|] == g;
    if Tripped(c, g) {
      TrippedNeverEnough(c, g);
      var i: nat :| TrippedAt(c, g, i);
      if i < |h| {
        TripRemembered(c, h, e, i);
      }
    }
    if Tripped(c, h) && SuccessesSinceFailure(g) < c.successes {
      var i: nat :| TrippedAt(c, h, i);
      TripPersists(c, h, e, i);
    }
    if e.Failed? && TrailingFailures(g) >= c.failures {
      assert TrippedAt(c, g, |h|);
    }
  }

  lemma TrippedNeverEnough(c: Thresholds, h: seq<Event>)
    requires Tripped(c, h)
    ensures SuccessesSinceFailure(h) < c.successes
  {
    var i: nat :| TrippedAt(c, h, i);
    assert h[..|h|] == h;
  }

  lemma SuccessMeans(c: Thresholds, h: seq<Event>, b: Breaker, at: int)
    requires c.Valid() && c.successes >= 2 && Means(c, h, b)
    ensures Means(c, h + [Succeeded(at)], OnSuccess(c, b, at))
  {
    var g := h + [Succeeded(at)];
    assert g[..|h|] == h;
    TrippedExtends(c, h, Succeeded(at));
    if Tripped(c, h) {
      TrippedNeverEnough(c, h);
    }
  }

  lemma FailureMeans(c: Thresholds, h: seq<Event>, b: Breaker, at: int)
    requires c.Valid() && Means(c, h, b)
    ensures Means(c, h + [Failed(at)], OnFailure(c, b, at))
  {
    var g := h + [Failed(at)];
    assert g[..|h|] == h;
    TrippedExtends(c, h, Failed(at));
  }

  lemma RecheckMeans(c: Thresholds, h: seq<Event>, b: Breaker, at: int)
    requires c.Valid() && Means(c, h, b)
    ensures Means(c, h + [Rechecked(at)], Recheck(c, b, at))
  {
    var g := h + [Rechecked(at)];
    assert g[..|h|] == h;
    TrippedExtends(c, h, Rechecked(at));
    if Tripped(c, h) {
      TrippedNeverEnough(c, h);
    }
  }

  /** The breaker refines its history: after any sequence of recorded calls and
      rechecks its counters and its state mean what the history says. */
  lemma {:induction false} RefinesHistory(c: Thresholds, h: seq<Event>)
    requires c.Valid() && c.successes >= 2
    ensures Means(c, h, Replay(c, h))
  {
    if h == [] {
      assert !Tripped(c, h);
    } else {
      var n := |h| - 1;
      RefinesHistory(c, h[..n]);
      assert h == h[..n] + [h[n]];
      match h[n]
      case Succeeded(at) => SuccessMeans(c, h[..n], Replay(c, h[..n]), at);
      case Failed(at) => FailureMeans(c, h[..n], Replay(c, h[..n]), at);
      case Rechecked(at) => RecheckMeans(c, h[..n], Replay(c, h[..n]), at);
    }
  }

  /** The time of the last success, 0 if there is none. */
  function LastSuccessTime(h: seq<Event>): int {
    if h == [] then 0
    else if h[|h| - 1].Succeeded? then h[|h| - 1].at
    else LastSuccessTime(h[..|h| - 1])
  }

  /** The remaining fields: the half-open counter follows the successes, one behind if
      the first of them was the late one that half-opened the breaker. */
  lemma {:induction false} HalfOpenCallsFollow(c: Thresholds, h: seq<Event>)
    ensures var b := Replay(c, h);
            && b.lastSuccess == LastSuccessTime(h)
            && (b.health == Unhealthy ==> b.successCount == 0)
            && (if b.health == HalfOpen then b.successCount - 1 <= b.halfOpenCalls <= b.successCount
                else b.halfOpenCalls == 0)
  {
    if h != [] {
      HalfOpenCallsFollow(c, h[..|h| - 1]);
    }
  }

  /** What holds for every threshold: the failure count is the trailing run, and while
      the breaker is not healthy the success count is exact. */
  lemma {:induction false} CountsAreExact(c: Thresholds, h: seq<Event>)
    requires c.Valid()
    ensures var b := Replay(c, h);
            && b.failureCount == TrailingFailures(h) && b.lastFailure == LastFailureTime(h)
            && (b.health == Healthy ==> TrailingFailures(h) < c.failures)
            && (b.health != Healthy ==> b.successCount == SuccessesSinceFailure(h))
  {
    if h != [] {
      CountsAreExact(c, h[..|h| - 1]);
    }
  }

  /** A healthy breaker opens at a failure exactly when it is the threshold-th in a row. */
  lemma OpensExactly(c: Thresholds, h: seq<Event>, at: int)
    requires c.Valid() && Replay(c, h).health == Healthy
    ensures Replay(c, h + [Failed(at)]).health == Unhealthy <==> TrailingFailures(h + [Failed(at)]) == c.failures
    ensures Replay(c, h + [Failed(at)]).health != Unhealthy ==> Replay(c, h + [Failed(at)]).health == Healthy
  {
    CountsAreExact(c, h);
    assert (h + [Failed(at)])[..|h|] == h;
  }

  /** A half-open breaker closes at a success exactly when it is the threshold-th since
      the last failure. */
  ghost predicate ClosesAtThreshold(c: Thresholds, h: seq<Event>, at: int) {
    Replay(c, h).health == HalfOpen ==>
      (Replay(c, h + [Succeeded(at)]).health == Healthy
       <==> SuccessesSinceFailure(h + [Succeeded(at)]) == c.successes)
  }

  lemma ClosesExactly(c: Thresholds, h: seq<Event>, at: int)
    requires c.Valid() && c.successes >= 2
    ensures ClosesAtThreshold(c, h, at)
  {
    RefinesHistory(c, h);
    assert (h + [Succeeded(at)])[..|h|] == h;
    if Tripped(c, h) {
      TrippedNeverEnough(c, h);
    }
  }

  lemma {:induction false} FailuresOpen(c: Thresholds, n: nat)
    requires c.Valid() && n >= 1
    ensures var b := Replay(c, seq(n, _ => Failed(0)));
            b.failureCount == n && b.successCount == 0 && b.health == if n >= c.failures then Unhealthy else Healthy
    ensures SuccessesSinceFailure(seq(n, _ => Failed(0))) == 0
  {
    var h := seq(n, _ => Failed(0));
    assert h[..n - 1] == seq(n - 1, _ => Failed(0));
    if n == 1 {
      assert h[..0] == [];
    } else {
      FailuresOpen(c, n - 1);
    }
  }

  /** The success threshold is exact for every history if and only if it is at least
      two: with one, a success that arrives late, while the breaker is open, is counted
      and half-opens it without closing it, and the next success is the second. */
  lemma CloseExactIff(c: Thresholds)
    requires c.Valid()
    ensures (forall h, at :: ClosesAtThreshold(c, h, at)) <==> c.successes >= 2
  {
    if c.successes >= 2 {
      forall h, at
        ensures ClosesAtThreshold(c, h, at)
      {
        ClosesExactly(c, h, at);
      }
    } else {
      var open := seq(c.failures, _ => Failed(0));
      FailuresOpen(c, c.failures);
      var late := open + [Succeeded(1)];
      assert late[..|open|] == open;
      assert Replay(c, late).health == HalfOpen;
      assert SuccessesSinceFailure(late) == 1;
      var closed := late + [Succeeded(2)];
      assert closed[..|late|] == late;
      assert Replay(c, closed).health == Healthy && SuccessesSinceFailure(closed) == 2;
      assert !ClosesAtThreshold(c, late, 2);
    }
  }

  // ---------------------------------------------------------------- provider

  /** A provider's fixed settings. */
  datatype Node = Node(name: string, maxRange: nat, thresholds: Thresholds)

  class Provider {
    const name: string
    const maxRange: nat
    const thresholds: Thresholds
    var health: Health
    var failureCount: nat
    var successCount: nat
    var lastFailureTime: int
    var lastSuccessTime: int
    var halfOpenCalls: nat

    constructor (name: string, maxRange: nat, thresholds: Thresholds)
      ensures this.name == name && this.maxRange == maxRange && this.thresholds == thresholds && View() == New()
    {
      this.name, this.maxRange, this.thresholds := name, maxRange, thresholds;
      health := Healthy;
      failureCount, successCount, halfOpenCalls := 0, 0, 0;
      lastFailureTime, lastSuccessTime := 0, 0;
    }

    function Config(): Node {
      Node(name, maxRange, thresholds)
    }

    ghost function View(): Breaker
      reads this
    {
      Breaker(health, failureCount, successCount, lastFailureTime, lastSuccessTime, halfOpenCalls)
    }

    method IsHealthy(now: int) returns (healthy: bool)
      modifies this
      ensures View() == Recheck(thresholds, old(View()), now)
      ensures healthy <==> View().health != Unhealthy
    {
      if health == Healthy {
        return true;
      }
      if health == Unhealthy {
        if now - lastFailureTime > thresholds.timeout {
          health := HalfOpen;
          halfOpenCalls := 0;
          return health == HalfOpen;
        }
        return false;
      }
      healthy := health == HalfOpen;
    }

    method RecordSuccess(now: int)
      modifies this
      ensures View() == OnSuccess(thresholds, old(View()), now)
    {
      lastSuccessTime := now;
      successCount := successCount + 1;
      failureCount := 0;
      if health == HalfOpen {
        halfOpenCalls := halfOpenCalls + 1;
        if successCount >= thresholds.successes {
          health := Healthy;
          halfOpenCalls := 0;
          successCount := 0;
        }
      } else if health == Unhealthy {
        health := HalfOpen;
      }
    }

    method RecordFailure(now: int)
      modifies this
      ensures View() == OnFailure(thresholds, old(View()), now)
    {
      lastFailureTime := now;
      failureCount := failureCount + 1;
      successCount := 0;
      if health == HalfOpen {
        health := Unhealthy;
        halfOpenCalls := 0;
      } else if failureCount >= thresholds.failures {
        health := Unhealthy;
      }
    }
  }
}
