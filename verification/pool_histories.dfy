/**
 What a call does to the breakers: each is the replay of its own events over its breaker
 before the call, so what is proved of breaker histories holds across calls.
 */
module PoolHistories {
  import opened Wrappers
  import opened Breakers
  import opened Pools
  import opened PoolTheorems

  /** What the n-th attempt means for provider i: a recheck at the selection, and the
      result of the call if it was the one that was called. */
  function EventsAt(now: Moment, made: Attempt, i: nat): seq<Event> {
    [Rechecked(now.selectAt)] +
    if made.pick == i && made.action.Called?
    then [if made.action.answered then Succeeded(now.recordAt) else Failed(now.recordAt)] else []
  }

  /** The events of provider i in these attempts. */
  function EventsOf(env: seq<Moment>, attempts: seq<Attempt>, i: nat): seq<Event>
    requires |attempts| <= |env|
    decreases |attempts|
  {
    if attempts == [] then []
    else
      var n := |attempts| - 1;
      EventsOf(env, attempts[..n], i) + EventsAt(env[n], attempts[n], i)
  }

  /** A selection that finds nobody has rechecked everyone once more. */
  function LastRecheck(env: seq<Moment>, s: Progress): seq<Event> {
    if s.outcome == Some(NoHealthyProvider) && |s.attempts| < |env| then [Rechecked(env[|s.attempts|].selectAt)] else []
  }

  function AllEvents(env: seq<Moment>, s: Progress, i: nat): seq<Event>
    requires |s.attempts| <= |env|
  {
    EventsOf(env, s.attempts, i) + LastRecheck(env, s)
  }

  ghost predicate Replays(p: Pool, env: seq<Moment>, s: Progress, i: nat)
    requires p.Valid() && i < |p.nodes|
  {
    && |s.attempts| <= |env| && s.pool.Valid() && s.pool.nodes == p.nodes
    && s.pool.breakers[i] == ReplayFrom(p.nodes[i].thresholds, p.breakers[i], AllEvents(env, s, i))
  }

  /** What one attempt does to a breaker. */
  lemma TryBreaker(s: Progress, range: nat, now: Moment, firstPass: bool, i: nat)
    requires s.pool.Valid() && |now.answers| == |s.pool.nodes| && i < |s.pool.nodes|
    ensures var s' := Try(s, range, now, firstPass);
            var c, b := s.pool.nodes[i].thresholds, s.pool.breakers[i];
            if Select(s.pool, now.selectAt).1.Chosen? then
              && s'.outcome != Some(NoHealthyProvider)
              && |s'.attempts| == |s.attempts| + 1 && s'.attempts[..|s.attempts|] == s.attempts
              && s'.pool.breakers[i] == ReplayFrom(c, b, EventsAt(now, s'.attempts[|s.attempts|], i))
            else
              && s'.outcome == Some(NoHealthyProvider) && s'.attempts == s.attempts
              && s'.pool.breakers[i] == ReplayFrom(c, b, [Rechecked(now.selectAt)])
  {
    var c, b := s.pool.nodes[i].thresholds, s.pool.breakers[i];
    ReplayOne(c, b, Rechecked(now.selectAt));
    ReplayTwo(c, b, Rechecked(now.selectAt), Succeeded(now.recordAt));
    ReplayTwo(c, b, Rechecked(now.selectAt), Failed(now.recordAt));
  }

  lemma {:induction false} LoopReplays(p: Pool, range: nat, env: seq<Moment>, n: nat, i: nat)
    requires Fitting(p, env) && n <= |env| && i < |p.nodes|
    ensures Replays(p, env, Loop(p, range, env, n), i)
  {
    hide Try, Reads;
    var s := Loop(p, range, env, n);
    if n == 0 {
      assert AllEvents(env, s, i) == [];
    } else {
      var before := Loop(p, range, env, n - 1);
      LoopReplays(p, range, env, n - 1, i);
      LoopReads(p, range, env, n - 1);
      if before.outcome.None? {
        RunningReads(p, range, env, before, n - 1);
        TryReplays(p, range, env, before, n - 1, i, s);
      }
    }
  }

  lemma TryReplays(p: Pool, range: nat, env: seq<Moment>, s: Progress, n: nat, i: nat, s': Progress)
    requires Fitting(p, env) && n < |env| && i < |p.nodes| && Replays(p, env, s, i) && s.outcome.None?
    requires |s.attempts| == n && s' == Try(s, range, env[n], n < |p.nodes|)
    ensures Replays(p, env, s', i)
  {
    hide Try, Select;
    var c, b := p.nodes[i].thresholds, p.breakers[i];
    TryBreaker(s, range, env[n], n < |p.nodes|, i);
    assert AllEvents(env, s, i) == EventsOf(env, s.attempts, i);
    var more := if s'.outcome == Some(NoHealthyProvider) then [Rechecked(env[n].selectAt)]
                else EventsAt(env[n], s'.attempts[n], i);
    ReplayJoins(c, b, EventsOf(env, s.attempts, i), more);
    assert AllEvents(env, s', i) == EventsOf(env, s.attempts, i) + more;
  }

  /** Every call: after it each breaker is the replay of its own events, a recheck at each
      selection and a success or failure at each of its calls, over its breaker before. */
  lemma CallReplays(p: Pool, range: nat, env: seq<Moment>, i: nat)
    requires Fitting(p, env) && i < |p.nodes|
    ensures var done := Call(p, range, env);
            && |done.attempts| <= |env| && done.pool.Valid() && done.pool.nodes == p.nodes
            && done.pool.breakers[i] == ReplayFrom(p.nodes[i].thresholds, p.breakers[i], AllEvents(env, done, i))
  {
    LoopReplays(p, range, env, |env|, i);
    CallReads(p, range, env);
  }

  /** So a call extends the histories of the breakers by its events. */
  lemma CallExtendsHistory(p: Pool, range: nat, env: seq<Moment>, i: nat, h: seq<Event>)
    requires Fitting(p, env) && i < |p.nodes| && p.breakers[i] == Replay(p.nodes[i].thresholds, h)
    ensures var done := Call(p, range, env);
            && |done.attempts| <= |env| && done.pool.Valid() && done.pool.nodes == p.nodes
            && done.pool.breakers[i] == Replay(p.nodes[i].thresholds, h + AllEvents(env, done, i))
  {
    CallReplays(p, range, env, i);
    ReplayContinues(p.nodes[i].thresholds, h, AllEvents(env, Call(p, range, env), i));
  }

  /** What a successful call leaves on the breaker that answered. */
  lemma SuccessIsRecorded(p: Pool, range: nat, env: seq<Moment>)
    requires Fitting(p, env) && Succeeds(Call(p, range, env))
    ensures var done := Call(p, range, env);
            && 0 < |done.attempts| <= |env| && done.pool.Valid() && done.pool.nodes == p.nodes
            && var i, last := done.outcome.value.provider, |done.attempts| - 1;
               && i < |p.nodes| && done.attempts[last].pick == i && done.attempts[last].action == Called(true)
               && done.pool.breakers[i].failureCount == 0
               && done.pool.breakers[i].lastSuccess == env[last].recordAt
               && done.pool.breakers[i].health != Unhealthy
               && TrailingFailures(EventsOf(env, done.attempts, i)) == 0
  {
    CallReads(p, range, env);
    var done := Call(p, range, env);
    var i, last := done.outcome.value.provider, |done.attempts| - 1;
    assert ReadsAt(p, range, env, done.attempts, last);
    CallReplays(p, range, env, i);
    var before := EventsOf(env, done.attempts[..last], i) + [Rechecked(env[last].selectAt)];
    var es := before + [Succeeded(env[last].recordAt)];
    assert AllEvents(env, done, i) == es && EventsOf(env, done.attempts, i) == es;
    assert es[..|es| - 1] == before;
    var c, b := p.nodes[i].thresholds, p.breakers[i];
    assert ReplayFrom(c, b, es) == OnSuccess(c, ReplayFrom(c, b, before), env[last].recordAt);
  }
}
