/**
 The breaker under concurrency. IsHealthy gives up its read lock before it takes the
 write lock and again before it re-reads, so other threads run in between. Each
 locked section is one step.
 */
module BreakerThreads {
  import opened Breakers

  /** Where a thread is in IsHealthy: outside it, with the answer of its last call,
      between the read lock and the write lock, or between the write lock and the
      second read lock. */
  datatype Thread = Outside(answer: bool) | Upgrading | Rereading

  /** `history` lists the write-locked sections, in order. */
  datatype System = System(breaker: Breaker, now: int, threads: map<nat, Thread>, history: seq<Event>)

  datatype Step =
    | Elapse(ticks: nat)
    | Read(id: nat)
    | Upgrade(id: nat)
    | Reread(id: nat)
    | Success
    | Failure

  function Start(ids: set<nat>): System {
    System(New(), 0, map id | id in ids :: Outside(true), [])
  }

  predicate Enabled(s: System, step: Step) {
    match step
    case Elapse(_) => true
    case Read(id) => id in s.threads && s.threads[id].Outside?
    case Upgrade(id) => id in s.threads && s.threads[id].Upgrading?
    case Reread(id) => id in s.threads && s.threads[id].Rereading?
    case Success => true
    case Failure => true
  }

  function Locked(c: Thresholds, s: System, e: Event): System {
    s.(breaker := Handle(c, s.breaker, e), history := s.history + [e])
  }

  function Apply(c: Thresholds, s: System, step: Step): System
    requires Enabled(s, step)
  {
    match step
    case Elapse(ticks) => s.(now := s.now + ticks)
    case Read(id) =>
      s.(threads := s.threads[id :=
        match s.breaker.health
        case Healthy => Outside(true)
        case Unhealthy => if TimedOut(c, s.breaker, s.now) then Upgrading else Outside(false)
        case HalfOpen => Outside(true)])
    case Upgrade(id) => Locked(c, s, Rechecked(s.now)).(threads := s.threads[id := Rereading])
    case Reread(id) => s.(threads := s.threads[id := Outside(s.breaker.health == HalfOpen)])
    case Success => Locked(c, s, Succeeded(s.now))
    case Failure => Locked(c, s, Failed(s.now))
  }

  predicate CanRun(c: Thresholds, s: System, steps: seq<Step>)
    decreases |steps|, 0
  {
    steps == [] ||
    var n := |steps| - 1;
    CanRun(c, s, steps[..n]) && Enabled(Exec(c, s, steps[..n]), steps[n])
  }

  function Exec(c: Thresholds, s: System, steps: seq<Step>): System
    requires CanRun(c, s, steps)
    decreases |steps|, 1
  {
    if steps == [] then s
    else
      var n := |steps| - 1;
      Apply(c, Exec(c, s, steps[..n]), steps[n])
  }

  /** Under any interleaving of any number of threads the shared breaker is the replay
      of the write-locked sections in their order, so all that is proved of histories
      holds of it. */
  lemma {:induction false} InterleavingReplays(c: Thresholds, ids: set<nat>, steps: seq<Step>)
    requires CanRun(c, Start(ids), steps)
    ensures var s := Exec(c, Start(ids), steps); s.breaker == Replay(c, s.history)
  {
    if steps != [] {
      var n := |steps| - 1;
      InterleavingReplays(c, ids, steps[..n]);
      var before := Exec(c, Start(ids), steps[..n]);
      var after := Apply(c, before, steps[n]);
      if after.history != before.history {
        assert after.history[..|after.history| - 1] == before.history;
      }
    }
  }

  /** What may change the state, and when. `history` is the one before the step. */
  predicate LegalEdge(c: Thresholds, from: Health, to: Health, step: Step, now: int, history: seq<Event>) {
    match (from, to)
    case (Healthy, Unhealthy) => step == Failure && TrailingFailures(history + [Failed(now)]) == c.failures
    case (Unhealthy, HalfOpen) => step == Success || (step.Upgrade? && now - LastFailureTime(history) > c.timeout)
    case (HalfOpen, Unhealthy) => step == Failure
    case (HalfOpen, Healthy) =>
      && step == Success && SuccessesSinceFailure(history + [Succeeded(now)]) >= c.successes
      && (c.successes >= 2 ==> SuccessesSinceFailure(history + [Succeeded(now)]) == c.successes)
    case (_, _) => from == to
  }

  /** Over every interleaved run only the four edges of the automaton occur: the breaker
      opens at the threshold-th consecutive failure, half-opens on a late success or
      once more than the timeout has passed since the latest failure of any thread,
      and closes when the successes since that failure have reached the threshold, at
      the threshold-th exactly if that is at least two. */
  lemma OnlyLegalEdges(c: Thresholds, ids: set<nat>, steps: seq<Step>, step: Step)
    requires c.Valid()
    requires CanRun(c, Start(ids), steps) && Enabled(Exec(c, Start(ids), steps), step)
    ensures var s := Exec(c, Start(ids), steps);
            LegalEdge(c, s.breaker.health, Apply(c, s, step).breaker.health, step, s.now, s.history)
  {
    var s := Exec(c, Start(ids), steps);
    InterleavingReplays(c, ids, steps);
    CountsAreExact(c, s.history);
    OpensAndCloses(c, s.history, s.now);
  }

  lemma OpensAndCloses(c: Thresholds, h: seq<Event>, now: int)
    requires c.Valid()
    ensures var b := Replay(c, h);
            && (b.health == Healthy ==>
                  (OnFailure(c, b, now).health == Unhealthy <==> TrailingFailures(h + [Failed(now)]) == c.failures))
            && (b.health == HalfOpen && OnSuccess(c, b, now).health == Healthy ==>
                  && SuccessesSinceFailure(h + [Succeeded(now)]) >= c.successes
                  && (c.successes >= 2 ==> SuccessesSinceFailure(h + [Succeeded(now)]) == c.successes))
  {
    assert (h + [Failed(now)])[..|h|] == h && (h + [Succeeded(now)])[..|h|] == h;
    CountsAreExact(c, h);
    if Replay(c, h).health == Healthy {
      OpensExactly(c, h, now);
    }
    if c.successes >= 2 {
      ClosesExactly(c, h, now);
    }
  }

  // ------------------------------------------------- what IsHealthy's answer means

  /** An open breaker whose timeout is over: what sends IsHealthy into its lock upgrade. */
  predicate Due(c: Thresholds, s: System) {
    s.breaker.health == Unhealthy && TimedOut(c, s.breaker, s.now)
  }

  predicate AsideFrom(id: nat, steps: seq<Step>) {
    forall i :: 1 <= i < |steps| ==> steps[i] != Read(id)
  }

  /** One call of IsHealthy by a thread, with whatever the others do in between: it
      begins with the thread's read and ends with the step that gives its answer. */
  predicate IsCall(c: Thresholds, s: System, id: nat, call: seq<Step>) {
    && CanRun(c, s, call) && call != [] && call[0] == Read(id) && AsideFrom(id, call)
    && (call[|call| - 1] == Read(id) || call[|call| - 1] == Reread(id))
    && id in Exec(c, s, call).threads && Exec(c, s, call).threads[id].Outside?
  }

  predicate AnswersRight(c: Thresholds, s: System, id: nat, call: seq<Step>)
    requires IsCall(c, s, id, call)
  {
    var after := Exec(c, s, call);
    after.threads[id].answer <==> after.breaker.health != Unhealthy
  }

  /** Whatever the other threads do, the answer is right when it is given. */
  ghost predicate Trustworthy(c: Thresholds, s: System, id: nat) {
    forall call :: IsCall(c, s, id, call) ==> AnswersRight(c, s, id, call)
  }

  lemma ExecOne(c: Thresholds, s: System, step: Step)
    ensures CanRun(c, s, [step]) <==> Enabled(s, step)
    ensures Enabled(s, step) ==> Exec(c, s, [step]) == Apply(c, s, step)
  {
    assert [step][..0] == [];
  }

  /** A thread that is outside stays there until it reads again. */
  lemma {:induction false} StaysOutside(c: Thresholds, s: System, id: nat, steps: seq<Step>)
    requires CanRun(c, s, steps) && steps != [] && steps[0] == Read(id) && AsideFrom(id, steps)
    requires id in s.threads && !Due(c, s)
    ensures id in Exec(c, s, steps).threads && Exec(c, s, steps).threads[id].Outside?
    ensures |steps| > 1 ==> steps[|steps| - 1] != Reread(id)
    decreases |steps|
  {
    var n := |steps| - 1;
    if n == 0 {
      ExecOne(c, s, Read(id));
      assert steps == [Read(id)];
    } else {
      StaysOutside(c, s, id, steps[..n]);
    }
  }

  /** A call that does not read a due breaker is a single step. */
  lemma DirectAnswer(c: Thresholds, s: System, id: nat, call: seq<Step>)
    requires IsCall(c, s, id, call) && id in s.threads && !Due(c, s)
    ensures call == [Read(id)] && AnswersRight(c, s, id, call)
  {
    StaysOutside(c, s, id, call);
    assert |call| == 1;
    ExecOne(c, s, Read(id));
  }

  /** An affirmative answer is always right. */
  lemma YesIsRight(c: Thresholds, s: System, id: nat, call: seq<Step>)
    requires IsCall(c, s, id, call)
    ensures Exec(c, s, call).threads[id].answer ==> Exec(c, s, call).breaker.health != Unhealthy
  {
  }

  function Successes(n: nat): seq<Step> {
    if n == 0 then [] else Successes(n - 1) + [Success]
  }

  lemma Longer(c: Thresholds, s: System, steps: seq<Step>, step: Step)
    requires CanRun(c, s, steps) && Enabled(Exec(c, s, steps), step)
    ensures CanRun(c, s, steps + [step]) && Exec(c, s, steps + [step]) == Apply(c, Exec(c, s, steps), step)
  {
    assert (steps + [step])[..|steps|] == steps;
  }

  lemma {:induction false} SuccessesCounted(c: Thresholds, s: System, steps: seq<Step>, n: nat)
    requires c.Valid() && CanRun(c, s, steps) && n <= c.successes
    requires Exec(c, s, steps).breaker.health == HalfOpen && Exec(c, s, steps).breaker.successCount == 0
    ensures CanRun(c, s, steps + Successes(n))
    ensures var before, after := Exec(c, s, steps), Exec(c, s, steps + Successes(n));
            && after.threads == before.threads && after.now == before.now
            && (if n < c.successes then after.breaker.health == HalfOpen && after.breaker.successCount == n
                else after.breaker.health == Healthy)
  {
    hide CanRun, Exec, Apply, Enabled;
    if n == 0 {
      assert steps + Successes(0) == steps;
    } else {
      SuccessesCounted(c, s, steps, n - 1);
      OneSuccess(c, Exec(c, s, steps + Successes(n - 1)));
      Longer(c, s, steps + Successes(n - 1), Success);
      assert steps + Successes(n) == steps + Successes(n - 1) + [Success];
    }
  }

  lemma {:induction false} SuccessesOnly(n: nat)
    ensures |Successes(n)| == n && forall i :: 0 <= i < n ==> Successes(n)[i] == Success
  {
    if n > 0 {
      SuccessesOnly(n - 1);
    }
  }

  /** From a due breaker: while the thread is between its two locks the others record
      enough successes to close the breaker, and it answers that a healthy provider is
      not healthy. */
  lemma WrongAnswer(c: Thresholds, s: System, id: nat) returns (call: seq<Step>)
    requires c.Valid() && id in s.threads && s.threads[id].Outside? && Due(c, s) && s.breaker.successCount == 0
    ensures IsCall(c, s, id, call)
    ensures !Exec(c, s, call).threads[id].answer && Exec(c, s, call).breaker.health == Healthy
  {
    hide CanRun, Exec;
    var upgraded := [Read(id), Upgrade(id)];
    ExecOne(c, s, Read(id));
    Longer(c, s, [Read(id)], Upgrade(id));
    assert [Read(id)] + [Upgrade(id)] == upgraded;
    SuccessesCounted(c, s, upgraded, c.successes);
    SuccessesOnly(c.successes);
    var closed := upgraded + Successes(c.successes);
    Longer(c, s, closed, Reread(id));
    call := closed + [Reread(id)];
  }

  /** When IsHealthy can be trusted, exactly. In every reachable state, a call that is
      about to begin gives the right answer whatever the other threads do, if and only
      if it does not find an open breaker whose timeout is over. A wrong answer is always
      a no about a healthy provider. */
  lemma TrustworthyIff(c: Thresholds, ids: set<nat>, steps: seq<Step>, id: nat)
    requires c.Valid() && CanRun(c, Start(ids), steps)
    requires var s := Exec(c, Start(ids), steps); id in s.threads && s.threads[id].Outside?
    ensures var s := Exec(c, Start(ids), steps); Trustworthy(c, s, id) <==> !Due(c, s)
    ensures var s := Exec(c, Start(ids), steps);
            forall call :: IsCall(c, s, id, call) && !AnswersRight(c, s, id, call) ==>
              !Exec(c, s, call).threads[id].answer && Exec(c, s, call).breaker.health == Healthy
  {
    var s := Exec(c, Start(ids), steps);
    InterleavingReplays(c, ids, steps);
    HalfOpenCallsFollow(c, s.history);
    if Due(c, s) {
      var call := WrongAnswer(c, s, id);
      assert !AnswersRight(c, s, id, call);
    } else {
      forall call | IsCall(c, s, id, call)
        ensures AnswersRight(c, s, id, call)
      {
        DirectAnswer(c, s, id, call);
      }
    }
    forall call | IsCall(c, s, id, call) && !AnswersRight(c, s, id, call)
      ensures !Exec(c, s, call).threads[id].answer && Exec(c, s, call).breaker.health == Healthy
    {
      WrongIsNo(c, s, id, call);
    }
  }

  lemma WrongIsNo(c: Thresholds, s: System, id: nat, call: seq<Step>)
    requires IsCall(c, s, id, call) && !AnswersRight(c, s, id, call)
    ensures !Exec(c, s, call).threads[id].answer && Exec(c, s, call).breaker.health == Healthy
  {
    YesIsRight(c, s, id, call);
  }

  function Failures(n: nat): seq<Step> {
    if n == 0 then [] else Failures(n - 1) + [Failure]
  }

  lemma NoStepYet(c: Thresholds, s: System)
    ensures CanRun(c, s, []) && Exec(c, s, []) == s
  {
  }

  lemma OneFailure(c: Thresholds, s: System)
    ensures Enabled(s, Failure)
    ensures var after := Apply(c, s, Failure);
            && after.threads == s.threads && after.now == s.now && after.breaker == OnFailure(c, s.breaker, s.now)
  {
  }

  lemma OneSuccess(c: Thresholds, s: System)
    ensures Enabled(s, Success)
    ensures var after := Apply(c, s, Success);
            && after.threads == s.threads && after.now == s.now && after.breaker == OnSuccess(c, s.breaker, s.now)
  {
  }

  lemma {:induction false} FailuresOpenIt(c: Thresholds, ids: set<nat>, n: nat)
    requires c.Valid()
    ensures CanRun(c, Start(ids), Failures(n))
    ensures var s := Exec(c, Start(ids), Failures(n));
            && s.threads == Start(ids).threads && s.now == 0 && s.breaker.failureCount == n
            && s.breaker.lastFailure == 0 && s.breaker.successCount == 0
            && s.breaker.health == if n >= c.failures then Unhealthy else Healthy
  {
    hide CanRun, Exec, Apply, Enabled;
    if n == 0 {
      NoStepYet(c, Start(ids));
    } else {
      FailuresOpenIt(c, ids, n - 1);
      OneFailure(c, Exec(c, Start(ids), Failures(n - 1)));
      Longer(c, Start(ids), Failures(n - 1), Failure);
    }
  }

  /** So for every setting of the thresholds and any threads there is a run after which a
      call answers false about a healthy provider. */
  lemma HealthyReportedUnhealthy(c: Thresholds, ids: set<nat>, id: nat) returns (steps: seq<Step>, call: seq<Step>)
    requires c.Valid() && id in ids
    ensures CanRun(c, Start(ids), steps) && IsCall(c, Exec(c, Start(ids), steps), id, call)
    ensures var after := Exec(c, Exec(c, Start(ids), steps), call);
            !after.threads[id].answer && after.breaker.health == Healthy
  {
    FailuresOpenIt(c, ids, c.failures);
    var wait := if c.timeout < 0 then 0 else c.timeout + 1;
    steps := Failures(c.failures) + [Elapse(wait)];
    Longer(c, Start(ids), Failures(c.failures), Elapse(wait));
    call := WrongAnswer(c, Exec(c, Start(ids), steps), id);
  }
}
