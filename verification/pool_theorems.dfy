/**
 What the failover loop guarantees: complete sweeps, how many attempts are enough, and
 what happens when every provider is open.
 */
module PoolTheorems {
  import opened Arithmetic
  import opened Wrappers
  import opened Breakers
  import opened Pools
  import opened RoundRobin

  function Lists(attempts: seq<Attempt>): (lists: seq<seq<nat>>)
    ensures |lists| == |attempts| && forall k :: 0 <= k < |attempts| ==> lists[k] == attempts[k].healthy
  {
    seq(|attempts|, k requires 0 <= k < |attempts| => attempts[k].healthy)
  }

  // ------------------------------------------------------ reading a call

  /** What an attempt shows: round-robin over the list of the moment, and why the pick
      led to a call or not. */
  ghost predicate ReadsAt(p: Pool, range: nat, env: seq<Moment>, attempts: seq<Attempt>, k: nat)
    requires Fitting(p, env) && |attempts| <= |env|
  {
    k < |attempts| ==>
      var made := attempts[k];
      && made.healthy != [] && |made.healthy| <= |p.nodes| && made.pick < |p.nodes|
      && made.pick == Pick(made.healthy, p.current + k)
      && match made.action
         case OverRange => range > p.nodes[made.pick].maxRange
         case Repeated =>
           && range <= p.nodes[made.pick].maxRange && k < |p.nodes|
           && NamePicked(p, attempts, p.nodes[made.pick].name, k)
         case Called(ok) =>
           && range <= p.nodes[made.pick].maxRange && ok == env[k].answers[made.pick]
           && (k < |p.nodes| ==> !NamePicked(p, attempts, p.nodes[made.pick].name, k))
  }

  /** One of the first k picks has this name. */
  ghost predicate NamePicked(p: Pool, attempts: seq<Attempt>, name: string, k: nat)
    requires k <= |attempts|
  {
    exists j :: 0 <= j < k && attempts[j].pick < |p.nodes| && p.nodes[attempts[j].pick].name == name
  }

  /** A call that failed when the context was already cancelled. */
  predicate FailsCancelled(env: seq<Moment>, attempts: seq<Attempt>, k: nat) {
    k < |attempts| && k < |env| && attempts[k].action == Called(false) && env[k].cancelled
  }

  /** Why the attempts end: an answer ends the call at once with the provider that gave it,
      a failure with a cancelled context ends it at once as cancelled, and nothing else
      gives these outcomes. */
  ghost predicate EndsRight(env: seq<Moment>, attempts: seq<Attempt>, outcome: Option<Outcome>) {
    && (forall k :: 0 <= k < |attempts| && attempts[k].action == Called(true) ==>
          k == |attempts| - 1 && outcome == Some(Success(attempts[k].pick)))
    && (forall k :: 0 <= k < |attempts| && FailsCancelled(env, attempts, k) ==>
          k == |attempts| - 1 && outcome == Some(Cancelled))
    && (outcome.Some? && outcome.value.Success? ==>
          attempts != [] && attempts[|attempts| - 1].action == Called(true))
    && (outcome == Some(Cancelled) ==> attempts != [] && FailsCancelled(env, attempts, |attempts| - 1))
  }

  ghost predicate Reads(p: Pool, range: nat, env: seq<Moment>, s: Progress, n: nat)
    requires Fitting(p, env)
  {
    && |s.attempts| <= n <= |env| && s.pool.current == p.current + |s.attempts|
    && (s.outcome.None? ==> |s.attempts| == n)
    && (forall k: nat :: ReadsAt(p, range, env, s.attempts, k))
    && EndsRight(env, s.attempts, s.outcome)
    && (forall name :: name in s.tried ==> NamePicked(p, s.attempts, name, |s.attempts|))
    && (s.outcome.None? ==> forall name :: NamePicked(p, s.attempts, name, |s.attempts|) ==> name in s.tried)
    && s.outcome != Some(AllFailed)
  }

  lemma AppendReads(p: Pool, range: nat, env: seq<Moment>, attempts: seq<Attempt>, made: Attempt)
    requires Fitting(p, env) && |attempts| < |env|
    requires forall k: nat :: ReadsAt(p, range, env, attempts, k)
    requires ReadsAt(p, range, env, attempts + [made], |attempts|)
    ensures forall k: nat :: ReadsAt(p, range, env, attempts + [made], k)
  {
    forall k: nat
      ensures ReadsAt(p, range, env, attempts + [made], k)
    {
      if k < |attempts| {
        assert ReadsAt(p, range, env, attempts, k);
        PickedRemains(p, attempts, made, p.nodes[attempts[k].pick].name, k);
      }
    }
  }

  lemma PickedRemains(p: Pool, attempts: seq<Attempt>, made: Attempt, name: string, k: nat)
    requires k <= |attempts|
    ensures NamePicked(p, attempts, name, k) <==> NamePicked(p, attempts + [made], name, k)
    ensures NamePicked(p, attempts, name, k) ==> NamePicked(p, attempts + [made], name, |attempts| + 1)
    ensures NamePicked(p, attempts + [made], name, |attempts| + 1) ==>
              NamePicked(p, attempts, name, |attempts|) || (made.pick < |p.nodes| && p.nodes[made.pick].name == name)
  {
    if j :| 0 <= j < k && attempts[j].pick < |p.nodes| && p.nodes[attempts[j].pick].name == name {
      assert (attempts + [made])[j] == attempts[j];
    }
  }

  /** The attempt that Try makes. */
  lemma TryMakes(p: Pool, range: nat, env: seq<Moment>, s: Progress, n: nat) returns (made: Attempt)
    requires Fitting(p, env) && n < |env| && s.outcome.None? && s.pool.Valid() && s.pool.nodes == p.nodes
    requires Reads(p, range, env, s, n)
    requires Select(s.pool, env[n].selectAt).1.Chosen?
    ensures Try(s, range, env[n], n < |p.nodes|).attempts == s.attempts + [made]
    ensures made.pick < |p.nodes| && ReadsAt(p, range, env, s.attempts + [made], n)
    ensures made.action == ActionOf(s.pool, made.pick, range, env[n], n < |p.nodes|, s.tried)
    ensures var s' := Try(s, range, env[n], n < |p.nodes|);
            && s'.pool.current == s.pool.current + 1
            && (made.action == Called(true) <==> s'.outcome.Some? && s'.outcome.value.Success?)
            && (made.action == Called(true) ==> s'.outcome == Some(Success(made.pick)))
            && (s'.outcome.Some? && !s'.outcome.value.Success? ==>
                  s'.outcome.value == Cancelled && made.action == Called(false) && env[n].cancelled)
            && (made.action == Called(false) && env[n].cancelled ==> s'.outcome == Some(Cancelled))
            && s'.tried <= s.tried + {p.nodes[made.pick].name}
            && (s'.outcome.None? ==> s'.tried == s.tried + {p.nodes[made.pick].name})
  {
    hide ReadsAt, NamePicked, Recorded, Reads;
    var (q, selection) := Select(s.pool, env[n].selectAt);
    var action := ActionOf(s.pool, selection.index, range, env[n], n < |p.nodes|, s.tried);
    made := Attempt(HealthyList(q.breakers), selection.index, action);
    HealthyAmongContents(q.breakers, |q.breakers|);
    RunningReads(p, range, env, s, n);
    MadeReads(p, range, env, s, n, made);
  }

  lemma RunningReads(p: Pool, range: nat, env: seq<Moment>, s: Progress, n: nat)
    requires Fitting(p, env) && n < |env| && s.outcome.None? && Reads(p, range, env, s, n)
    ensures |s.attempts| == n && s.pool.current == p.current + n
  {
  }

  lemma MadeReads(p: Pool, range: nat, env: seq<Moment>, s: Progress, n: nat, made: Attempt)
    requires Fitting(p, env) && n < |env| && s.outcome.None? && s.pool.Valid() && s.pool.nodes == p.nodes
    requires Reads(p, range, env, s, n)
    requires made.healthy != [] && |made.healthy| <= |p.nodes| && made.pick < |p.nodes|
    requires made.pick == Pick(made.healthy, p.current + n)
    requires made.action == ActionOf(s.pool, made.pick, range, env[n], n < |p.nodes|, s.tried)
    ensures ReadsAt(p, range, env, s.attempts + [made], n)
  {
    PickedRemains(p, s.attempts, made, p.nodes[made.pick].name, n);
  }

  lemma {:induction false} LoopReads(p: Pool, range: nat, env: seq<Moment>, n: nat)
    requires Fitting(p, env) && n <= |env|
    ensures Reads(p, range, env, Loop(p, range, env, n), n)
  {
    hide Try, Reads;
    if n == 0 {
      ReadsStart(p, range, env);
    } else {
      LoopReads(p, range, env, n - 1);
      var s := Loop(p, range, env, n - 1);
      if s.outcome.None? {
        TryReads(p, range, env, s, n - 1);
      } else {
        EndedReads(p, range, env, s, n - 1);
      }
    }
  }

  lemma ReadsStart(p: Pool, range: nat, env: seq<Moment>)
    requires Fitting(p, env)
    ensures Reads(p, range, env, Loop(p, range, env, 0), 0)
  {
  }

  lemma EndedReads(p: Pool, range: nat, env: seq<Moment>, s: Progress, n: nat)
    requires Fitting(p, env) && n < |env| && Reads(p, range, env, s, n) && s.outcome.Some?
    ensures Reads(p, range, env, s, n + 1)
  {
  }

  lemma TryNobody(s: Progress, range: nat, now: Moment, firstPass: bool)
    requires s.pool.Valid() && |now.answers| == |s.pool.nodes| && !Select(s.pool, now.selectAt).1.Chosen?
    ensures var s' := Try(s, range, now, firstPass);
            && s'.attempts == s.attempts && s'.tried == s.tried && s'.outcome == Some(NoHealthyProvider)
            && s'.pool.current == s.pool.current
  {
  }

  lemma TryReads(p: Pool, range: nat, env: seq<Moment>, s: Progress, n: nat)
    requires Fitting(p, env) && n < |env| && s.outcome.None? && s.pool.Valid() && s.pool.nodes == p.nodes
    requires Reads(p, range, env, s, n)
    ensures Reads(p, range, env, Try(s, range, env[n], n < |p.nodes|), n + 1)
  {
    hide Try, Select, ReadsAt, ActionOf;
    var s' := Try(s, range, env[n], n < |p.nodes|);
    if !Select(s.pool, env[n].selectAt).1.Chosen? {
      TryNobody(s, range, env[n], n < |p.nodes|);
    } else {
      var made := TryMakes(p, range, env, s, n);
      AppendReads(p, range, env, s.attempts, made);
      forall name | name in s'.tried
        ensures NamePicked(p, s'.attempts, name, |s'.attempts|)
      {
        if name in s.tried {
          PickedRemains(p, s.attempts, made, name, n);
        } else {
          assert s'.attempts[n] == made;
        }
      }
      forall name | s'.outcome.None? && NamePicked(p, s'.attempts, name, n + 1)
        ensures name in s'.tried
      {
        PickedRemains(p, s.attempts, made, name, n);
      }
      EndsAppend(env, s.attempts, made, s'.outcome);
    }
  }

  lemma EndsAppend(env: seq<Moment>, attempts: seq<Attempt>, made: Attempt, outcome: Option<Outcome>)
    requires EndsRight(env, attempts, None) && |attempts| < |env|
    requires made.action == Called(true) <==> outcome.Some? && outcome.value.Success?
    requires made.action == Called(true) ==> outcome == Some(Success(made.pick))
    requires made.action == Called(false) && env[|attempts|].cancelled <==> outcome == Some(Cancelled)
    ensures EndsRight(env, attempts + [made], outcome)
  {
    var after := attempts + [made];
    assert forall k :: 0 <= k < |attempts| ==> FailsCancelled(env, after, k) == FailsCancelled(env, attempts, k);
  }

  /** A call reads like its loop. */
  lemma CallReads(p: Pool, range: nat, env: seq<Moment>)
    requires Fitting(p, env)
    ensures var s := Call(p, range, env);
            && s.outcome.Some? && |s.attempts| <= |env|
            && (s.outcome == Some(AllFailed) ==> |s.attempts| == |env|)
            && (forall k: nat :: ReadsAt(p, range, env, s.attempts, k))
            && EndsRight(env, s.attempts, s.outcome) && s.pool.current == p.current + |s.attempts|
  {
    LoopReads(p, range, env, |env|);
  }

  /** During the first pass nobody is called twice. */
  lemma FirstPassCallsOnce(p: Pool, range: nat, env: seq<Moment>, j: nat, k: nat)
    requires Fitting(p, env) && j < k < |p.nodes|
    ensures var attempts := Call(p, range, env).attempts;
            k < |attempts| && attempts[j].action.Called? && attempts[k].action.Called? ==>
              attempts[j].pick != attempts[k].pick
  {
    CallReads(p, range, env);
    var attempts := Call(p, range, env).attempts;
    assert ReadsAt(p, range, env, attempts, j);
    assert ReadsAt(p, range, env, attempts, k);
  }

  // ------------------------------------------------------- complete sweep

  /** The first pick of a provider in range is a call. */
  lemma {:induction false} FirstPickCalls(p: Pool, range: nat, env: seq<Moment>, attempts: seq<Attempt>, k: nat)
    returns (first: nat)
    requires Fitting(p, env) && p.DistinctNames() && k < |attempts| <= |env|
    requires forall j: nat :: ReadsAt(p, range, env, attempts, j)
    requires attempts[k].pick < |p.nodes| ==> range <= p.nodes[attempts[k].pick].maxRange
    ensures first <= k && attempts[first].pick == attempts[k].pick < |p.nodes|
    ensures attempts[first].action == Called(env[first].answers[attempts[k].pick])
    decreases k
  {
    assert ReadsAt(p, range, env, attempts, k);
    if attempts[k].action == Repeated {
      var name := p.nodes[attempts[k].pick].name;
      assert NamePicked(p, attempts, name, k);
      var j :| 0 <= j < k && attempts[j].pick < |p.nodes| && p.nodes[attempts[j].pick].name == name;
      assert attempts[j].pick == attempts[k].pick;
      first := FirstPickCalls(p, range, env, attempts, j);
    } else {
      first := k;
    }
  }

  /** The healthy list is the same at every selection of the call. */
  predicate Steady(s: Progress, healthy: seq<nat>) {
    s.outcome != Some(NoHealthyProvider) && forall k :: 0 <= k < |s.attempts| ==> s.attempts[k].healthy == healthy
  }

  predicate CalledInVain(s: Progress, env: seq<Moment>, i: nat, k: nat) {
    && k < |s.attempts| && k < |env| && i < |env[k].answers|
    && s.attempts[k].pick == i && s.attempts[k].action == Called(false) && !env[k].answers[i]
  }

  /** Complete sweep: if the healthy list does not change during the call, every
      provider on it that is in range has been called, and has failed, before "all
      providers failed" is returned, however many providers there are. */
  lemma SweepIsComplete(p: Pool, range: nat, env: seq<Moment>, healthy: seq<nat>, i: nat)
    requires Fitting(p, env) && p.DistinctNames() && Steady(Call(p, range, env), healthy)
    requires Call(p, range, env).outcome == Some(AllFailed)
    requires i in healthy && i < |p.nodes| && range <= p.nodes[i].maxRange
    ensures exists k: nat :: CalledInVain(Call(p, range, env), env, i, k)
  {
    CallReads(p, range, env);
    SweepOf(p, range, env, Call(p, range, env), healthy, i);
  }

  lemma SweepOf(p: Pool, range: nat, env: seq<Moment>, s: Progress, healthy: seq<nat>, i: nat)
    requires Fitting(p, env) && p.DistinctNames() && Steady(s, healthy) && |s.attempts| == |env|
    requires forall k: nat :: ReadsAt(p, range, env, s.attempts, k)
    requires forall k :: 0 <= k < |s.attempts| ==> s.attempts[k].action != Called(true)
    requires i in healthy && i < |p.nodes| && range <= p.nodes[i].maxRange
    ensures exists k: nat :: CalledInVain(s, env, i, k)
  {
    var j :| 0 <= j < |healthy| && healthy[j] == i;
    var k := HitWithinRound(p.current, |healthy|, j);
    assert ReadsAt(p, range, env, s.attempts, 0);
    assert ReadsAt(p, range, env, s.attempts, k);
    var first := FirstPickCalls(p, range, env, s.attempts, k);
    assert CalledInVain(s, env, i, first);
  }

  predicate Uncancelled(env: seq<Moment>) {
    forall a :: 0 <= a < |env| ==> !env[a].cancelled
  }

  predicate AlwaysAnswers(env: seq<Moment>, i: nat) {
    forall a :: 0 <= a < |env| ==> i < |env[a].answers| && env[a].answers[i]
  }

  predicate Succeeds(s: Progress) {
    s.outcome.Some? && s.outcome.value.Success?
  }

  /** So the call succeeds whenever one of them would answer. */
  lemma SweepSucceeds(p: Pool, range: nat, env: seq<Moment>, healthy: seq<nat>, i: nat)
    requires Fitting(p, env) && p.DistinctNames() && Uncancelled(env) && Steady(Call(p, range, env), healthy)
    requires i in healthy && i < |p.nodes| && range <= p.nodes[i].maxRange && AlwaysAnswers(env, i)
    ensures Succeeds(Call(p, range, env))
  {
    CallReads(p, range, env);
    if Call(p, range, env).outcome == Some(AllFailed) {
      SweepIsComplete(p, range, env, healthy, i);
    }
  }

  // ------------------------------------------- how many attempts are enough

  /** No open provider becomes due for a retry while the call lasts: neither one that is
      open now nor one that opens during the call. */
  predicate NoRecovery(p: Pool, env: seq<Moment>, from: nat)
    requires Fitting(p, env)
  {
    && (forall i, a :: 0 <= i < |p.nodes| && from <= a < |env| && p.breakers[i].health == Unhealthy ==>
          !TimedOut(p.nodes[i].thresholds, p.breakers[i], env[a].selectAt))
    && (forall i, a, b :: 0 <= i < |p.nodes| && from <= a < |env| && from <= b < |env| ==>
          env[b].selectAt - env[a].recordAt <= p.nodes[i].thresholds.timeout)
  }

  lemma {:induction false} HealthySame(a: seq<Breaker>, b: seq<Breaker>, n: nat)
    requires n <= |a| && n <= |b|
    requires forall i :: 0 <= i < n ==> (a[i].health == Unhealthy <==> b[i].health == Unhealthy)
    ensures HealthyAmong(a, n) == HealthyAmong(b, n)
  {
    if n > 0 {
      HealthySame(a, b, n - 1);
    }
  }

  lemma {:induction false} HealthyDrops(bs: seq<Breaker>, i: nat, b: Breaker, n: nat)
    requires i < n <= |bs| && bs[i].health != Unhealthy && b.health == Unhealthy
    ensures |HealthyAmong(bs[i := b], n)| == |HealthyAmong(bs, n)| - 1
  {
    if i == n - 1 {
      HealthySame(bs, bs[i := b], n - 1);
    } else {
      HealthyDrops(bs, i, b, n - 1);
    }
  }

  /** A recorded failure leaves the healthy list as it is or takes the provider off it. */
  lemma FailureShrinksList(p: Pool, i: nat, at: int)
    requires p.Valid() && i < |p.nodes| && p.breakers[i].health != Unhealthy
    ensures var after := HealthyList(Recorded(p, i, false, at).breakers);
            after == HealthyList(p.breakers) || |after| < |HealthyList(p.breakers)|
  {
    var b := OnFailure(p.nodes[i].thresholds, p.breakers[i], at);
    if b.health == Unhealthy {
      HealthyDrops(p.breakers, i, b, |p.breakers|);
    } else {
      HealthySame(p.breakers, p.breakers[i := b], |p.breakers|);
    }
  }

  lemma RecheckChangesNothing(p: Pool, env: seq<Moment>, from: nat)
    requires Fitting(p, env) && from < |env| && NoRecovery(p, env, from)
    ensures RecheckAll(p, env[from].selectAt).breakers == p.breakers
  {
  }

  lemma NoRecoveryKept(p: Pool, env: seq<Moment>, from: nat, i: nat)
    requires Fitting(p, env) && from < |env| && NoRecovery(p, env, from) && i < |p.nodes|
    ensures NoRecovery(Recorded(p, i, false, env[from].recordAt), env, from + 1)
  {
  }

  /** The lists so far have only got shorter, the answering provider was always on them
      and still is, and nobody is about to recover. */
  ghost predicate Dwindling(env: seq<Moment>, t: nat, s: Progress, n: nat)
    requires n <= |env|
  {
    && Fitting(s.pool, env) && t < |s.pool.nodes|
    && (s.outcome.None? ==> NoRecovery(s.pool, env, n) && s.pool.breakers[t].health != Unhealthy)
    && s.outcome != Some(NoHealthyProvider)
    && Shrinking(Lists(s.attempts)) && AlwaysListed(Lists(s.attempts), t)
    && (s.outcome.None? && s.attempts != [] ==>
          ListAfter(HealthyList(s.pool.breakers), s.attempts[|s.attempts| - 1].healthy))
  }

  predicate ListAfter(after: seq<nat>, before: seq<nat>) {
    after == before || |after| < |before|
  }

  lemma TryHealthy(s: Progress, range: nat, now: Moment, firstPass: bool)
    requires s.pool.Valid() && |now.answers| == |s.pool.nodes| && Select(s.pool, now.selectAt).1.Chosen?
    ensures var s' := Try(s, range, now, firstPass);
            && |s'.attempts| == |s.attempts| + 1 && s'.attempts[..|s.attempts|] == s.attempts
            && s'.attempts[|s.attempts|].healthy == HealthyList(RecheckAll(s.pool, now.selectAt).breakers)
  {
  }

  lemma ListsGrow(attempts: seq<Attempt>, made: Attempt, t: nat)
    requires Shrinking(Lists(attempts)) && AlwaysListed(Lists(attempts), t) && t in made.healthy
    requires attempts != [] ==> ListAfter(made.healthy, attempts[|attempts| - 1].healthy)
    ensures Shrinking(Lists(attempts + [made])) && AlwaysListed(Lists(attempts + [made]), t)
  {
    assert Lists(attempts + [made]) == Lists(attempts) + [made.healthy];
  }

  /** While nobody recovers, what an attempt does to the pool: nothing, or one more
      recorded failure of somebody else. */
  lemma TryPool(range: nat, env: seq<Moment>, t: nat, s: Progress, n: nat, firstPass: bool)
    requires n < |env| && Fitting(s.pool, env) && NoRecovery(s.pool, env, n) && s.outcome.None?
    requires t < |s.pool.nodes| && s.pool.breakers[t].health != Unhealthy && env[n].answers[t]
    ensures var s' := Try(s, range, env[n], firstPass);
            && Select(s.pool, env[n].selectAt).1.Chosen?
            && s'.outcome != Some(NoHealthyProvider)
            && (s'.outcome.None? ==>
                  || s'.pool.breakers == s.pool.breakers
                  || exists i: nat :: i < |s.pool.nodes| && i != t && s.pool.breakers[i].health != Unhealthy
                                      && s'.pool.breakers == Recorded(s.pool, i, false, env[n].recordAt).breakers)
  {
    RecheckChangesNothing(s.pool, env, n);
    HealthyAmongContents(s.pool.breakers, |s.pool.breakers|);
    assert t in HealthyList(s.pool.breakers);
    var i := Select(s.pool, env[n].selectAt).1.index;
    var s' := Try(s, range, env[n], firstPass);
    if s'.outcome.None? && s'.pool.breakers != s.pool.breakers {
      assert i != t && s'.pool.breakers == Recorded(s.pool, i, false, env[n].recordAt).breakers;
    }
  }

  /** The same in terms of the lists. */
  lemma TryLists(range: nat, env: seq<Moment>, t: nat, s: Progress, n: nat, firstPass: bool, s': Progress)
    returns (made: Attempt)
    requires n < |env| && Fitting(s.pool, env) && NoRecovery(s.pool, env, n) && s.outcome.None?
    requires t < |s.pool.nodes| && s.pool.breakers[t].health != Unhealthy && env[n].answers[t]
    requires s' == Try(s, range, env[n], firstPass)
    ensures s'.attempts == s.attempts + [made] && made.healthy == HealthyList(s.pool.breakers) && t in made.healthy
  {
    TryPool(range, env, t, s, n, firstPass);
    TryHealthy(s, range, env[n], firstPass);
    RecheckChangesNothing(s.pool, env, n);
    HealthyAmongContents(s.pool.breakers, |s.pool.breakers|);
    made := s'.attempts[|s.attempts|];
    assert s'.attempts == s.attempts + [made];
  }

  lemma PoolAfter(p: Pool, env: seq<Moment>, t: nat, n: nat, after: Pool)
    requires n < |env| && Fitting(p, env) && NoRecovery(p, env, n)
    requires t < |p.nodes| && p.breakers[t].health != Unhealthy
    requires after.nodes == p.nodes && after.Valid()
    requires || after.breakers == p.breakers
             || exists i: nat :: i < |p.nodes| && i != t && p.breakers[i].health != Unhealthy
                                 && after.breakers == Recorded(p, i, false, env[n].recordAt).breakers
    ensures NoRecovery(after, env, n + 1) && after.breakers[t].health != Unhealthy
    ensures ListAfter(HealthyList(after.breakers), HealthyList(p.breakers))
  {
    if after.breakers != p.breakers {
      var i: nat :| i < |p.nodes| && i != t && p.breakers[i].health != Unhealthy
                    && after.breakers == Recorded(p, i, false, env[n].recordAt).breakers;
      FailureShrinksList(p, i, env[n].recordAt);
      NoRecoveryKept(p, env, n, i);
    }
  }

  lemma DwindleOn(env: seq<Moment>, t: nat, s: Progress, n: nat, s': Progress, made: Attempt)
    requires n < |env| && Dwindling(env, t, s, n) && s.outcome.None?
    requires s'.pool.Valid() && s'.pool.nodes == s.pool.nodes && s'.outcome != Some(NoHealthyProvider)
    requires s'.attempts == s.attempts + [made] && made.healthy == HealthyList(s.pool.breakers) && t in made.healthy
    requires s'.outcome.None? ==>
               && NoRecovery(s'.pool, env, n + 1) && s'.pool.breakers[t].health != Unhealthy
               && ListAfter(HealthyList(s'.pool.breakers), made.healthy)
    ensures Dwindling(env, t, s', n + 1)
  {
    ListsGrow(s.attempts, made, t);
  }

  lemma TryDwindles(range: nat, env: seq<Moment>, t: nat, s: Progress, n: nat, firstPass: bool, s': Progress)
    requires n < |env| && Dwindling(env, t, s, n) && s.outcome.None? && env[n].answers[t]
    requires s' == Try(s, range, env[n], firstPass)
    ensures Dwindling(env, t, s', n + 1)
  {
    TryPool(range, env, t, s, n, firstPass);
    var made := TryLists(range, env, t, s, n, firstPass, s');
    if s'.outcome.None? {
      PoolAfter(s.pool, env, t, n, s'.pool);
    }
    DwindleOn(env, t, s, n, s', made);
  }

  lemma DwindlingStart(p: Pool, range: nat, env: seq<Moment>, t: nat)
    requires Fitting(p, env) && NoRecovery(p, env, 0) && t < |p.nodes| && p.breakers[t].health != Unhealthy
    ensures Dwindling(env, t, Loop(p, range, env, 0), 0)
  {
  }

  lemma {:induction false} LoopDwindles(p: Pool, range: nat, env: seq<Moment>, t: nat, n: nat)
    requires Fitting(p, env) && n <= |env| && NoRecovery(p, env, 0)
    requires t < |p.nodes| && p.breakers[t].health != Unhealthy && AlwaysAnswers(env, t)
    ensures Dwindling(env, t, Loop(p, range, env, n), n)
  {
    hide Try, Dwindling;
    if n == 0 {
      DwindlingStart(p, range, env, t);
    } else {
      LoopDwindles(p, range, env, t, n - 1);
      var s, s' := Loop(p, range, env, n - 1), Loop(p, range, env, n);
      LoopContinues(p, range, env, n);
      if s.outcome.None? {
        TryDwindles(range, env, t, s, n - 1, n - 1 < |p.nodes|, s');
      } else {
        DwindledStays(env, t, s, n - 1);
      }
    }
  }

  lemma DwindledStays(env: seq<Moment>, t: nat, s: Progress, n: nat)
    requires n < |env| && Dwindling(env, t, s, n) && s.outcome.Some?
    ensures Dwindling(env, t, s, n + 1)
  {
  }

  /** What a caller can check before a call: the provider is not open, its range limit
      admits the request and it answers; nobody recovers during the call and the
      context is not cancelled. */
  predicate Reachable(p: Pool, range: nat, env: seq<Moment>, t: nat) {
    && Fitting(p, env) && p.DistinctNames() && Uncancelled(env) && NoRecovery(p, env, 0)
    && t < |p.nodes| && p.breakers[t].health != Unhealthy && range <= p.nodes[t].maxRange && AlwaysAnswers(env, t)
  }

  /** In a failed call the answering provider never has its turn. */
  lemma NeverPicked(p: Pool, range: nat, env: seq<Moment>, attempts: seq<Attempt>, t: nat)
    requires Fitting(p, env) && p.DistinctNames() && |attempts| <= |env|
    requires t < |p.nodes| && range <= p.nodes[t].maxRange && AlwaysAnswers(env, t)
    requires forall k: nat :: ReadsAt(p, range, env, attempts, k)
    requires forall k :: 0 <= k < |attempts| ==> attempts[k].action != Called(true)
    requires AlwaysListed(Lists(attempts), t)
    ensures PassedOver(Lists(attempts), p.current, t)
  {
    var lists := Lists(attempts);
    forall k: nat | k < |lists|
      ensures PickAt(lists, p.current, k) != t
    {
      assert ReadsAt(p, range, env, attempts, k);
      if attempts[k].pick == t {
        var first := FirstPickCalls(p, range, env, attempts, k);
      }
    }
  }

  lemma AllFailedBypasses(p: Pool, range: nat, env: seq<Moment>, s: Progress, t: nat)
    requires Fitting(p, env) && p.DistinctNames() && |s.attempts| == |env| && p.nodes != []
    requires t < |p.nodes| && range <= p.nodes[t].maxRange && AlwaysAnswers(env, t)
    requires forall k: nat :: ReadsAt(p, range, env, s.attempts, k)
    requires forall k :: 0 <= k < |s.attempts| ==> s.attempts[k].action != Called(true)
    requires Shrinking(Lists(s.attempts)) && AlwaysListed(Lists(s.attempts), t)
    ensures |p.nodes| > 4
  {
    NeverPicked(p, range, env, s.attempts, t);
    ListBypass(Lists(s.attempts), p.current, t);
    assert ReadsAt(p, range, env, s.attempts, 0);
    TooManyPasses(|p.nodes|, |s.attempts[0].healthy|);
  }

  /** With at most four providers two attempts per provider are enough: a provider that
      answers is reached although others drop out and the indices shift. */
  lemma FourProvidersSuffice(p: Pool, range: nat, env: seq<Moment>, t: nat)
    requires Reachable(p, range, env, t) && |p.nodes| <= 4
    ensures Succeeds(Call(p, range, env))
  {
    CallReads(p, range, env);
    LoopDwindles(p, range, env, t, |env|);
    if Call(p, range, env).outcome == Some(AllFailed) {
      AllFailedBypasses(p, range, env, Call(p, range, env), t);
    }
  }

  lemma TooManyPasses(n: nat, h: nat)
    requires h <= n && 4 * n <= h * (h - 1) && n >= 1
    ensures n > 4
  {
    MulMonotone(h, h - 1, n - 1);
    MulMonotone(n - 1, h, n);
    MulMonotone(n, 4, n - 1);
    assert n * (n - 1) == (n - 1) * n;
  }

  // ------------------------------------------------------- nobody is healthy

  /** Every provider is open and not yet due for a retry. */
  predicate AllShut(p: Pool, now: int)
    requires p.Valid()
  {
    forall i :: 0 <= i < |p.nodes| ==>
      p.breakers[i].health == Unhealthy && !TimedOut(p.nodes[i].thresholds, p.breakers[i], now)
  }

  lemma EmptyOrMember(s: seq<nat>)
    ensures s == [] || s[0] in s
  {
  }

  /** Selection falls back exactly when everyone is shut. */
  lemma FallbackIff(p: Pool, now: int)
    requires p.Valid() && p.nodes != []
    ensures if AllShut(p, now) then Select(p, now).1 == Fallback else Select(p, now).1.Chosen?
  {
    var q := RecheckAll(p, now);
    HealthyAmongContents(q.breakers, |q.breakers|);
    EmptyOrMember(HealthyList(q.breakers));
    if !AllShut(p, now) {
      var i :| 0 <= i < |p.nodes| && !(p.breakers[i].health == Unhealthy
                                       && !TimedOut(p.nodes[i].thresholds, p.breakers[i], now));
      assert i in HealthyList(q.breakers);
    }
  }

  lemma {:induction false} AttemptsOnlyGrow(p: Pool, range: nat, env: seq<Moment>, n: nat, m: nat)
    requires Fitting(p, env) && n <= m <= |env|
    ensures |Loop(p, range, env, n).attempts| <= |Loop(p, range, env, m).attempts|
  {
    hide Try;
    if n < m {
      AttemptsOnlyGrow(p, range, env, n, m - 1);
      TryGrows(Loop(p, range, env, m - 1), range, env[m - 1], m - 1 < |p.nodes|);
    }
  }

  lemma TryGrows(s: Progress, range: nat, now: Moment, firstPass: bool)
    requires s.pool.Valid() && |now.answers| == |s.pool.nodes|
    ensures |s.attempts| <= |Try(s, range, now, firstPass).attempts|
  {
  }

  /** A call that has come to its n-th attempt makes no further selection of a provider
      exactly when everyone is shut by then, and then it fails; the fallback that
      SelectProvider names is discarded with its error. */
  lemma AllShutEndsCall(p: Pool, range: nat, env: seq<Moment>, n: nat)
    requires Fitting(p, env) && n < |env| && Loop(p, range, env, n).outcome.None?
    ensures var s, done := Loop(p, range, env, n), Call(p, range, env);
            && (done.attempts == s.attempts <==> AllShut(s.pool, env[n].selectAt))
            && (AllShut(s.pool, env[n].selectAt) ==>
                  done.outcome == Some(NoHealthyProvider) && Select(s.pool, env[n].selectAt).1 == Fallback)
  {
    hide Try, Select, AllShut;
    var s, next := Loop(p, range, env, n), Loop(p, range, env, n + 1);
    FallbackIff(s.pool, env[n].selectAt);
    LoopContinues(p, range, env, n + 1);
    if AllShut(s.pool, env[n].selectAt) {
      TryNobody(s, range, env[n], n < |p.nodes|);
      EndedStays(p, range, env, n + 1, |env|);
    } else {
      TryHealthy(s, range, env[n], n < |p.nodes|);
      AttemptsOnlyGrow(p, range, env, n + 1, |env|);
    }
  }

  /** In particular a call selects nobody at all exactly when everyone is shut at its
      first selection. */
  lemma AllOpenCallsNobody(p: Pool, range: nat, env: seq<Moment>)
    requires Fitting(p, env) && p.nodes != []
    ensures Call(p, range, env).attempts == [] <==> AllShut(p, env[0].selectAt)
    ensures AllShut(p, env[0].selectAt) ==> Call(p, range, env).outcome == Some(NoHealthyProvider)
  {
    AllShutEndsCall(p, range, env, 0);
  }

  // --------------------------------------------- everyone healthy and answering

  predicate AllHealthy(p: Pool) {
    p.Valid() && forall i :: 0 <= i < |p.breakers| ==> p.breakers[i].health == Healthy
  }

  predicate AnswersInRange(p: Pool, range: nat, env: seq<Moment>)
    requires Fitting(p, env)
  {
    forall a, i :: 0 <= a < |env| && 0 <= i < |p.nodes| && range <= p.nodes[i].maxRange ==> env[a].answers[i]
  }

  predicate SomeoneInRange(p: Pool, range: nat) {
    exists i :: 0 <= i < |p.nodes| && range <= p.nodes[i].maxRange
  }

  lemma SuccessKeepsHealthy(p: Pool, i: nat, at: int)
    requires AllHealthy(p) && i < |p.nodes|
    ensures AllHealthy(Recorded(p, i, true, at))
  {
  }

  lemma NothingToRecheck(p: Pool, now: int)
    requires AllHealthy(p)
    ensures RecheckAll(p, now).breakers == p.breakers
  {
  }

  lemma HealthyListed(p: Pool, i: nat)
    requires AllHealthy(p) && i < |p.breakers|
    ensures i in HealthyList(p.breakers)
  {
    HealthyAmongContents(p.breakers, |p.breakers|);
  }

  ghost predicate Flourishing(p: Pool, s: Progress) {
    && s.pool.nodes == p.nodes && AllHealthy(s.pool) && AllHealthy(p)
    && s.outcome != Some(NoHealthyProvider)
    && forall k :: 0 <= k < |s.attempts| ==> s.attempts[k].healthy == HealthyList(p.breakers)
  }

  lemma AllHealthyListed(p: Pool, q: Pool)
    requires AllHealthy(p) && AllHealthy(q) && |p.nodes| == |q.nodes|
    ensures HealthyList(p.breakers) == HealthyList(q.breakers)
  {
    HealthySame(p.breakers, q.breakers, |p.breakers|);
  }

  lemma TryFlourishes(p: Pool, range: nat, env: seq<Moment>, s: Progress, n: nat)
    requires Fitting(p, env) && n < |env| && p.nodes != [] && AnswersInRange(p, range, env)
    requires Flourishing(p, s) && s.outcome.None?
    ensures Flourishing(p, Try(s, range, env[n], n < |p.nodes|))
  {
    NothingToRecheck(s.pool, env[n].selectAt);
    HealthyListed(s.pool, 0);
    AllHealthyListed(p, s.pool);
    TryHealthy(s, range, env[n], n < |p.nodes|);
    var (q, selection) := Select(s.pool, env[n].selectAt);
    SuccessKeepsHealthy(q, selection.index, env[n].recordAt);
  }

  lemma FlourishingStart(p: Pool, range: nat, env: seq<Moment>)
    requires Fitting(p, env) && AllHealthy(p)
    ensures Flourishing(p, Loop(p, range, env, 0))
  {
  }

  lemma {:induction false} LoopFlourishes(p: Pool, range: nat, env: seq<Moment>, n: nat)
    requires Fitting(p, env) && n <= |env| && p.nodes != [] && AllHealthy(p) && AnswersInRange(p, range, env)
    ensures Flourishing(p, Loop(p, range, env, n))
  {
    hide Try, Flourishing, AnswersInRange, AllHealthy;
    if n == 0 {
      FlourishingStart(p, range, env);
    } else {
      LoopFlourishes(p, range, env, n - 1);
      var s := Loop(p, range, env, n - 1);
      if s.outcome.None? {
        TryFlourishes(p, range, env, s, n - 1);
      }
    }
  }

  /** With every provider healthy and answering what its range limit admits, a request
      succeeds exactly when some limit admits it, and everyone is still healthy. */
  lemma HealthyPoolAnswers(p: Pool, range: nat, env: seq<Moment>)
    requires Fitting(p, env) && p.nodes != [] && p.DistinctNames() && Uncancelled(env)
    requires AllHealthy(p) && AnswersInRange(p, range, env)
    ensures Succeeds(Call(p, range, env)) <==> SomeoneInRange(p, range)
    ensures AllHealthy(Call(p, range, env).pool) && Call(p, range, env).pool.nodes == p.nodes
  {
    LoopFlourishes(p, range, env, |env|);
    CallReads(p, range, env);
    var s := Call(p, range, env);
    if i :| 0 <= i < |p.nodes| && range <= p.nodes[i].maxRange {
      HealthyListed(p, i);
      SweepSucceeds(p, range, env, HealthyList(p.breakers), i);
    }
    if Succeeds(s) {
      assert ReadsAt(p, range, env, s.attempts, |s.attempts| - 1);
    }
  }
}
