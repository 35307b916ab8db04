/**
 For how many providers two attempts each are enough: exactly for up to four. For every
 larger number there is a call that fails although one provider, healthy throughout and
 in range, would answer at every attempt.
 */
module ProviderBound {
  import opened Arithmetic
  import opened Wrappers
  import opened Breakers
  import opened Pools
  import opened PoolTheorems

  // ------------------------------------------------------------------ scenarios

  /** Providers whose consecutive failures are these, a failure threshold, the counter of
      the pool, and the one provider that answers. */
  datatype Scenario = Scenario(counts: seq<nat>, limit: nat, current: nat, target: nat) {
    predicate Valid() {
      target < |counts| && counts[target] < limit
    }
  }

  /** Distinct names. */
  function NameOf(i: nat): (s: string)
    ensures |s| == i
  {
    if i == 0 then "" else NameOf(i - 1) + "x"
  }

  function NodeOf(i: nat, limit: nat): Node {
    Node(NameOf(i), 1, Thresholds(limit, 2, 0))
  }

  function NodesOf(n: nat, limit: nat): (r: seq<Node>)
    ensures |r| == n && forall i :: 0 <= i < n ==> r[i] == NodeOf(i, limit)
  {
    if n == 0 then [] else NodesOf(n - 1, limit) + [NodeOf(n - 1, limit)]
  }

  function BreakerOf(count: nat, limit: nat): Breaker {
    Breaker(if count >= limit then Unhealthy else Healthy, count, 0, 0, 0, 0)
  }

  function BreakersOf(c: seq<nat>, limit: nat): (r: seq<Breaker>)
    ensures |r| == |c| && forall i :: 0 <= i < |c| ==> r[i] == BreakerOf(c[i], limit)
  {
    if c == [] then [] else BreakersOf(c[..|c| - 1], limit) + [BreakerOf(c[|c| - 1], limit)]
  }

  function PoolOf(c: seq<nat>, limit: nat, current: nat): (p: Pool)
    ensures p.Valid() && |p.nodes| == |c| && p.current == current
  {
    Pool(NodesOf(|c|, limit), BreakersOf(c, limit), current)
  }

  function Answers(n: nat, target: nat): (r: seq<bool>)
    ensures |r| == n && forall i :: 0 <= i < n ==> r[i] == (i == target)
  {
    if n == 0 then [] else Answers(n - 1, target) + [n - 1 == target]
  }

  function Now(n: nat, target: nat): Moment {
    Moment(0, 0, Answers(n, target), false)
  }

  function Env(n: nat, target: nat, k: nat): (r: seq<Moment>)
    ensures |r| == k && forall a :: 0 <= a < k ==> r[a] == Now(n, target)
  {
    if k == 0 then [] else Env(n, target, k - 1) + [Now(n, target)]
  }

  function Start(x: Scenario): Pool {
    PoolOf(x.counts, x.limit, x.current)
  }

  function World(x: Scenario): seq<Moment> {
    Env(|x.counts|, x.target, 2 * |x.counts|)
  }

  lemma StartReachable(x: Scenario)
    requires x.Valid()
    ensures Reachable(Start(x), 1, World(x), x.target)
  {
    var p, env := Start(x), World(x);
    forall i, j | 0 <= i < j < |p.nodes|
      ensures p.nodes[i].name != p.nodes[j].name
    {
      assert |NameOf(i)| == i && |NameOf(j)| == j;
    }
  }

  // ----------------------------------------------------------------- simulation

  /** The healthy indices among the first k. */
  function UpAmong(c: seq<nat>, limit: nat, k: nat): seq<nat>
    requires k <= |c|
  {
    if k == 0 then [] else UpAmong(c, limit, k - 1) + if c[k - 1] < limit then [k - 1] else []
  }

  lemma {:induction false} UpIsHealthy(c: seq<nat>, limit: nat, bs: seq<Breaker>, k: nat)
    requires bs == BreakersOf(c, limit) && k <= |c|
    ensures HealthyAmong(bs, k) == UpAmong(c, limit, k)
  {
    if k > 0 {
      UpIsHealthy(c, limit, bs, k - 1);
    }
  }

  function UpCount(c: seq<nat>, limit: nat, k: nat): nat
    requires k <= |c|
  {
    if k == 0 then 0 else UpCount(c, limit, k - 1) + if c[k - 1] < limit then 1 else 0
  }

  lemma {:induction false} UpAt(c: seq<nat>, limit: nat, k: nat, i: nat)
    requires i < k <= |c| && c[i] < limit
    ensures |UpAmong(c, limit, k)| == UpCount(c, limit, k)
    ensures UpCount(c, limit, i) < UpCount(c, limit, k) && UpAmong(c, limit, k)[UpCount(c, limit, i)] == i
  {
    UpLength(c, limit, k);
    if i < k - 1 {
      UpAt(c, limit, k - 1, i);
    } else {
      UpLength(c, limit, i);
    }
  }

  lemma {:induction false} UpLength(c: seq<nat>, limit: nat, k: nat)
    requires k <= |c|
    ensures |UpAmong(c, limit, k)| == UpCount(c, limit, k)
  {
    if k > 0 {
      UpLength(c, limit, k - 1);
    }
  }

  /** The failures so far, and who has been tried. */
  datatype Sim = Sim(counts: seq<nat>, tried: set<nat>)

  /** The pick of attempt a is i, which is not the target: as many healthy providers come
      before it as the counter leaves modulo all of them. */
  predicate Misses(x: Scenario, s: Sim, a: nat, i: nat) {
    && |s.counts| == |x.counts| && i < |s.counts| && i != x.target && s.counts[i] < x.limit
    && UpCount(s.counts, x.limit, |s.counts|) > 0
    && UpCount(s.counts, x.limit, i) == (x.current + a) % UpCount(s.counts, x.limit, |s.counts|)
  }

  function Missed(x: Scenario, s: Sim, a: nat, i: nat): Sim
    requires i < |s.counts|
  {
    if a < |x.counts| && i in s.tried then s else Sim(s.counts[i := s.counts[i] + 1], s.tried + {i})
  }

  ghost predicate Follows(x: Scenario, s: Progress, sim: Sim, a: nat) {
    && |sim.counts| == |x.counts|
    && s.pool == PoolOf(sim.counts, x.limit, x.current + a) && s.outcome.None?
    && forall i: nat :: i < |x.counts| ==> (NameOf(i) in s.tried <==> i in sim.tried)
  }

  lemma SelectsPick(x: Scenario, p: Pool, sim: Sim, a: nat, i: nat)
    requires Misses(x, sim, a, i) && p == PoolOf(sim.counts, x.limit, x.current + a)
    ensures Select(p, 0) == (p.(current := x.current + a + 1), Chosen(i))
  {
    UpIsHealthy(sim.counts, x.limit, p.breakers, |sim.counts|);
    UpAt(sim.counts, x.limit, |sim.counts|, i);
    assert RecheckAll(p, 0).breakers == p.breakers;
  }

  lemma RecordsFailure(c: seq<nat>, limit: nat, current: nat, i: nat)
    requires i < |c| && c[i] < limit
    ensures Recorded(PoolOf(c, limit, current), i, false, 0) == PoolOf(c[i := c[i] + 1], limit, current)
  {
    assert Recorded(PoolOf(c, limit, current), i, false, 0).breakers == BreakersOf(c[i := c[i] + 1], limit);
  }

  lemma NamesApart(i: nat, j: nat)
    ensures NameOf(i) == NameOf(j) <==> i == j
  {
    assert |NameOf(i)| == i && |NameOf(j)| == j;
  }

  lemma NowAnswers(x: Scenario, i: nat)
    requires i < |x.counts| && i != x.target
    ensures var now := Now(|x.counts|, x.target);
            |now.answers| == |x.counts| && !now.answers[i] && now.selectAt == now.recordAt == 0 && !now.cancelled
    ensures PoolOf(x.counts, x.limit, x.current).nodes[i] == NodeOf(i, x.limit)
  {
  }

  lemma TryFollows(x: Scenario, s: Progress, sim: Sim, a: nat, i: nat)
    requires Follows(x, s, sim, a) && Misses(x, sim, a, i) && a < 2 * |x.counts|
    ensures Follows(x, Try(s, 1, Now(|x.counts|, x.target), a < |x.counts|), Missed(x, sim, a, i), a + 1)
  {
    hide Select, Recorded, UpCount, Now;
    var now := Now(|x.counts|, x.target);
    NowAnswers(x, i);
    SelectsPick(x, s.pool, sim, a, i);
    RecordsFailure(sim.counts, x.limit, x.current + a + 1, i);
    var s' := Try(s, 1, now, a < |x.counts|);
    forall j: nat | j < |x.counts|
      ensures NameOf(j) in s'.tried <==> j in Missed(x, sim, a, i).tried
    {
      NamesApart(i, j);
    }
  }

  /** What the call has come to after a attempts. */
  ghost predicate Reached(x: Scenario, sim: Sim, a: nat) {
    && x.Valid() && Fitting(Start(x), World(x)) && a <= 2 * |x.counts|
    && Follows(x, Loop(Start(x), 1, World(x), a), sim, a)
  }

  lemma ReachedStart(x: Scenario)
    requires x.Valid()
    ensures Reached(x, Sim(x.counts, {}), 0)
  {
    StartReachable(x);
  }

  lemma ReachedNext(x: Scenario, sim: Sim, a: nat, i: nat) returns (after: Sim)
    requires Reached(x, sim, a) && a < 2 * |x.counts| && Misses(x, sim, a, i)
    ensures after == Missed(x, sim, a, i) && Reached(x, after, a + 1)
  {
    hide Try;
    after := Missed(x, sim, a, i);
    TryFollows(x, Loop(Start(x), 1, World(x), a), sim, a, i);
    LoopContinues(Start(x), 1, World(x), a + 1);
  }

  ghost predicate Fails(x: Scenario) {
    x.Valid() && Reachable(Start(x), 1, World(x), x.target) && Call(Start(x), 1, World(x)).outcome == Some(AllFailed)
  }

  lemma ReachedEnd(x: Scenario, sim: Sim)
    requires Reached(x, sim, 2 * |x.counts|)
    ensures Fails(x)
  {
    StartReachable(x);
  }

  // -------------------------------------------------------- five and six providers

  function Bit(c: seq<nat>, limit: nat, i: nat, k: nat): nat {
    if i < k && i < |c| && c[i] < limit then 1 else 0
  }

  function CountOfSix(c: seq<nat>, limit: nat, k: nat): nat {
    Bit(c, limit, 0, k) + Bit(c, limit, 1, k) + Bit(c, limit, 2, k)
    + Bit(c, limit, 3, k) + Bit(c, limit, 4, k) + Bit(c, limit, 5, k)
  }

  lemma {:induction false} CountsAgree(c: seq<nat>, limit: nat, k: nat)
    requires k <= |c| <= 6
    ensures UpCount(c, limit, k) == CountOfSix(c, limit, k)
  {
    if k > 0 {
      CountsAgree(c, limit, k - 1);
    }
  }

  /** One attempt, spelled out: the failures after it. */
  lemma Attempted(x: Scenario, a: nat, c: seq<nat>, tried: set<nat>, i: nat, c': seq<nat>)
    requires Reached(x, Sim(c, tried), a) && |x.counts| == |c| <= 6 && a < 2 * |c|
    requires i < |c| && i != x.target && c[i] < x.limit
    requires CountOfSix(c, x.limit, |c|) > 0
    requires CountOfSix(c, x.limit, i) == (x.current + a) % CountOfSix(c, x.limit, |c|)
    requires c' == if a < |c| && i in tried then c else c[i := c[i] + 1]
    ensures Reached(x, Sim(c', tried + {i}), a + 1)
  {
    hide Reached, CountOfSix;
    CountsAgree(c, x.limit, i);
    CountsAgree(c, x.limit, |c|);
    var after := ReachedNext(x, Sim(c, tried), a, i);
    assert i in tried ==> tried + {i} == tried;
  }

  lemma FiveFirst(x: Scenario)
    requires x == Scenario([8, 9, 0, 0, 7], 10, 18, 2)
    ensures Reached(x, Sim([9, 10, 0, 1, 8], {} + {3} + {4} + {0} + {1} + {3}), 5)
  {
    hide Reached;
    ReachedStart(x);
    Attempted(x, 0, [8, 9, 0, 0, 7], {}, 3, [8, 9, 0, 1, 7]);
    Attempted(x, 1, [8, 9, 0, 1, 7], {} + {3}, 4, [8, 9, 0, 1, 8]);
    Attempted(x, 2, [8, 9, 0, 1, 8], {} + {3} + {4}, 0, [9, 9, 0, 1, 8]);
    Attempted(x, 3, [9, 9, 0, 1, 8], {} + {3} + {4} + {0}, 1, [9, 10, 0, 1, 8]);
    Attempted(x, 4, [9, 10, 0, 1, 8], {} + {3} + {4} + {0} + {1}, 3, [9, 10, 0, 1, 8]);
  }

  lemma FiveSecond(x: Scenario, t: set<nat>)
    requires x == Scenario([8, 9, 0, 0, 7], 10, 18, 2) && Reached(x, Sim([9, 10, 0, 1, 8], t), 5)
    ensures Reached(x, Sim([10, 10, 0, 3, 10], t + {4} + {0} + {3} + {4} + {3}), 10)
  {
    hide Reached;
    Attempted(x, 5, [9, 10, 0, 1, 8], t, 4, [9, 10, 0, 1, 9]);
    Attempted(x, 6, [9, 10, 0, 1, 9], t + {4}, 0, [10, 10, 0, 1, 9]);
    Attempted(x, 7, [10, 10, 0, 1, 9], t + {4} + {0}, 3, [10, 10, 0, 2, 9]);
    Attempted(x, 8, [10, 10, 0, 2, 9], t + {4} + {0} + {3}, 4, [10, 10, 0, 2, 10]);
    Attempted(x, 9, [10, 10, 0, 2, 10], t + {4} + {0} + {3} + {4}, 3, [10, 10, 0, 3, 10]);
  }

  /** Three providers drop out at the worst moments. */
  lemma FiveFail(x: Scenario)
    requires x == Scenario([8, 9, 0, 0, 7], 10, 18, 2)
    ensures Fails(x)
  {
    hide Reached, Fails;
    FiveFirst(x);
    FiveSecond(x, {} + {3} + {4} + {0} + {1} + {3});
    ReachedEnd(x, Sim([10, 10, 0, 3, 10], {} + {3} + {4} + {0} + {1} + {3} + {4} + {0} + {3} + {4} + {3}));
  }

  lemma SixFirst(x: Scenario)
    requires x == Scenario([9, 0, 0, 0, 0, 8], 10, 56, 1)
    ensures Reached(x, Sim([10, 0, 1, 1, 1, 9], {} + {2} + {3} + {4} + {5} + {0} + {2}), 6)
  {
    hide Reached;
    ReachedStart(x);
    Attempted(x, 0, [9, 0, 0, 0, 0, 8], {}, 2, [9, 0, 1, 0, 0, 8]);
    Attempted(x, 1, [9, 0, 1, 0, 0, 8], {} + {2}, 3, [9, 0, 1, 1, 0, 8]);
    Attempted(x, 2, [9, 0, 1, 1, 0, 8], {} + {2} + {3}, 4, [9, 0, 1, 1, 1, 8]);
    Attempted(x, 3, [9, 0, 1, 1, 1, 8], {} + {2} + {3} + {4}, 5, [9, 0, 1, 1, 1, 9]);
    Attempted(x, 4, [9, 0, 1, 1, 1, 9], {} + {2} + {3} + {4} + {5}, 0, [10, 0, 1, 1, 1, 9]);
    Attempted(x, 5, [10, 0, 1, 1, 1, 9], {} + {2} + {3} + {4} + {5} + {0}, 2, [10, 0, 1, 1, 1, 9]);
  }

  lemma SixSecond(x: Scenario, t: set<nat>)
    requires x == Scenario([9, 0, 0, 0, 0, 8], 10, 56, 1) && Reached(x, Sim([10, 0, 1, 1, 1, 9], t), 6)
    ensures Reached(x, Sim([10, 0, 1, 2, 2, 10], t + {3} + {4} + {5}), 9)
  {
    hide Reached;
    Attempted(x, 6, [10, 0, 1, 1, 1, 9], t, 3, [10, 0, 1, 2, 1, 9]);
    Attempted(x, 7, [10, 0, 1, 2, 1, 9], t + {3}, 4, [10, 0, 1, 2, 2, 9]);
    Attempted(x, 8, [10, 0, 1, 2, 2, 9], t + {3} + {4}, 5, [10, 0, 1, 2, 2, 10]);
  }

  lemma SixThird(x: Scenario, t: set<nat>)
    requires x == Scenario([9, 0, 0, 0, 0, 8], 10, 56, 1) && Reached(x, Sim([10, 0, 1, 2, 2, 10], t), 9)
    ensures Reached(x, Sim([10, 0, 2, 3, 3, 10], t + {2} + {3} + {4}), 12)
  {
    hide Reached;
    Attempted(x, 9, [10, 0, 1, 2, 2, 10], t, 2, [10, 0, 2, 2, 2, 10]);
    Attempted(x, 10, [10, 0, 2, 2, 2, 10], t + {2}, 3, [10, 0, 2, 3, 2, 10]);
    Attempted(x, 11, [10, 0, 2, 3, 2, 10], t + {2} + {3}, 4, [10, 0, 2, 3, 3, 10]);
  }

  /** Here two drop out, and the third round finds the counter past the target again. */
  lemma SixFail(x: Scenario)
    requires x == Scenario([9, 0, 0, 0, 0, 8], 10, 56, 1)
    ensures Fails(x)
  {
    hide Reached, Fails;
    SixFirst(x);
    SixSecond(x, {} + {2} + {3} + {4} + {5} + {0} + {2});
    SixThird(x, {} + {2} + {3} + {4} + {5} + {0} + {2} + {3} + {4} + {5});
    ReachedEnd(x, Sim([10, 0, 2, 3, 3, 10],
                      {} + {2} + {3} + {4} + {5} + {0} + {2} + {3} + {4} + {5} + {2} + {3} + {4}));
  }

  // ------------------------------------------------------ seven providers or more

  function Zeros(n: nat): (r: seq<nat>)
    ensures |r| == n && forall i :: 0 <= i < n ==> r[i] == 0
  {
    if n == 0 then [] else Zeros(n - 1) + [0]
  }

  /** The last provider is one failure from its threshold and the one before it two. */
  function Large(n: nat): (x: Scenario)
    requires n >= 7
    ensures x.Valid() && |x.counts| == n
  {
    Scenario(Zeros(n - 2) + [2 * n + 8, 2 * n + 9], 2 * n + 10, 1, 0)
  }

  /** How many providers are up at attempt a, and which of them is picked. */
  function UpTo(n: nat, a: nat): int {
    if a + 2 <= n then n else if a + 4 <= 2 * n then n - 1 else n - 2
  }

  function PickOf(n: nat, a: nat): int {
    if a + 2 <= n then a + 1 else if a + 1 == n then 1 else if a + 4 <= 2 * n then a + 2 - n else a + 5 - 2 * n
  }

  ghost predicate Phase(n: nat, sim: Sim, a: nat) {
    && n >= 7 && |sim.counts| == n
    && (forall i :: 0 <= i < n - 2 ==> sim.counts[i] <= a)
    && sim.counts[n - 2] == 2 * n + (if a + 3 <= n then 8 else if a + 4 <= 2 * n then 9 else 10)
    && sim.counts[n - 1] == 2 * n + (if a + 2 <= n then 9 else 10)
    && (forall i: nat :: i in sim.tried <==> 1 <= i <= Min(a, n - 1))
  }

  lemma {:induction false} UpPrefix(c: seq<nat>, limit: nat, m: nat, k: nat)
    requires m <= |c| && k <= |c|
    requires forall i :: 0 <= i < |c| ==> (c[i] < limit <==> i < m)
    ensures UpCount(c, limit, k) == Min(k, m)
  {
    if k > 0 {
      UpPrefix(c, limit, m, k - 1);
    }
  }

  lemma PickTurns(n: nat, a: nat)
    requires n >= 7 && a < 2 * n
    ensures 1 <= PickOf(n, a) < UpTo(n, a) <= n
    ensures (1 + a) % UpTo(n, a) == PickOf(n, a)
  {
    if a + 2 <= n {
      QuotientUnique(1 + a, n, 0, a + 1);
    } else if a + 4 <= 2 * n {
      QuotientUnique(1 + a, n - 1, 1, PickOf(n, a));
    } else {
      QuotientUnique(1 + a, n - 2, 2, PickOf(n, a));
    }
  }

  lemma PhaseUp(n: nat, sim: Sim, a: nat)
    requires Phase(n, sim, a) && a < 2 * n
    ensures forall i :: 0 <= i < n ==> (sim.counts[i] < 2 * n + 10 <==> i < UpTo(n, a))
  {
  }

  lemma PhaseMisses(n: nat, sim: Sim, a: nat)
    requires Phase(n, sim, a) && a < 2 * n
    ensures PickOf(n, a) >= 0 && Misses(Large(n), sim, a, PickOf(n, a))
  {
    PickTurns(n, a);
    PhaseUp(n, sim, a);
    UpPrefix(sim.counts, 2 * n + 10, UpTo(n, a), PickOf(n, a));
    UpPrefix(sim.counts, 2 * n + 10, UpTo(n, a), n);
  }

  lemma PhaseNext(n: nat, sim: Sim, a: nat, i: nat)
    requires Phase(n, sim, a) && a < 2 * n && i == PickOf(n, a) && i < n
    ensures Phase(n, Missed(Large(n), sim, a, i), a + 1)
  {
  }

  lemma {:induction false} LargeReached(n: nat, a: nat) returns (sim: Sim)
    requires n >= 7 && a <= 2 * n
    ensures Reached(Large(n), sim, a) && Phase(n, sim, a)
  {
    hide Reached, Phase;
    if a == 0 {
      sim := Sim(Large(n).counts, {});
      ReachedStart(Large(n));
      PhaseStart(n);
    } else {
      var before := LargeReached(n, a - 1);
      PhaseMisses(n, before, a - 1);
      sim := ReachedNext(Large(n), before, a - 1, PickOf(n, a - 1));
      PhaseNext(n, before, a - 1, PickOf(n, a - 1));
    }
  }

  lemma PhaseStart(n: nat)
    requires n >= 7
    ensures Phase(n, Sim(Large(n).counts, {}), 0)
  {
  }

  lemma LargeFail(n: nat)
    requires n >= 7
    ensures Fails(Large(n))
  {
    hide Reached, Fails;
    var sim := LargeReached(n, 2 * n);
    ReachedEnd(Large(n), sim);
  }

  // --------------------------------------------------------------------- theorem

  ghost predicate AlwaysReached(n: nat) {
    forall p: Pool, range: nat, env: seq<Moment>, t: nat ::
      |p.nodes| == n && Reachable(p, range, env, t) ==> Succeeds(Call(p, range, env))
  }

  /** Two attempts per provider are enough, whatever the breakers, the counter and the
      other providers do, if and only if there are at most four providers. */
  lemma TwoAttemptsSufficeIff(n: nat)
    ensures AlwaysReached(n) <==> n <= 4
  {
    if n <= 4 {
      forall p: Pool, range: nat, env: seq<Moment>, t: nat | |p.nodes| == n && Reachable(p, range, env, t)
        ensures Succeeds(Call(p, range, env))
      {
        FourProvidersSuffice(p, range, env, t);
      }
    } else {
      var x := SomeFails(n);
      assert Reachable(Start(x), 1, World(x), x.target);
    }
  }

  lemma SomeFails(n: nat) returns (x: Scenario)
    requires n >= 5
    ensures |x.counts| == n && Fails(x)
  {
    if n == 5 {
      x := Scenario([8, 9, 0, 0, 7], 10, 18, 2);
      FiveFail(x);
    } else if n == 6 {
      x := Scenario([9, 0, 0, 0, 0, 8], 10, 56, 1);
      SixFail(x);
    } else {
      x := Large(n);
      LargeFail(n);
    }
  }
}
