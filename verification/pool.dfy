/**
 The provider pool: round-robin selection among the providers that are not open, and
 the failover loop of the RPC calls.
 */
module Pools {
  import opened Wrappers
  import opened Breakers

  datatype Pool = Pool(nodes: seq<Node>, breakers: seq<Breaker>, current: nat) {
    predicate Valid() {
      |nodes| == |breakers|
    }

    predicate DistinctNames() {
      forall i, j :: 0 <= i < j < |nodes| ==> nodes[i].name != nodes[j].name
    }
  }

  // --------------------------------------------------------------- selection

  /** IsHealthy on the first n providers. */
  function RecheckFirst(nodes: seq<Node>, bs: seq<Breaker>, now: int, n: nat): (r: seq<Breaker>)
    requires n <= |bs| == |nodes|
    ensures |r| == n && forall i :: 0 <= i < n ==> r[i] == Recheck(nodes[i].thresholds, bs[i], now)
  {
    if n == 0 then []
    else RecheckFirst(nodes, bs, now, n - 1) + [Recheck(nodes[n - 1].thresholds, bs[n - 1], now)]
  }

  function RecheckAll(p: Pool, now: int): (q: Pool)
    requires p.Valid()
    ensures q.Valid() && q.nodes == p.nodes && q.current == p.current
    ensures forall i :: 0 <= i < |p.breakers| ==> q.breakers[i] == Recheck(p.nodes[i].thresholds, p.breakers[i], now)
  {
    p.(breakers := RecheckFirst(p.nodes, p.breakers, now, |p.breakers|))
  }

  /** The indices among the first n providers that are not open, in list order. */
  function HealthyAmong(bs: seq<Breaker>, n: nat): seq<nat>
    requires n <= |bs|
  {
    if n == 0 then []
    else HealthyAmong(bs, n - 1) + if bs[n - 1].health != Unhealthy then [n - 1] else []
  }

  function HealthyList(bs: seq<Breaker>): seq<nat> {
    HealthyAmong(bs, |bs|)
  }

  lemma {:induction false} HealthyAmongContents(bs: seq<Breaker>, n: nat)
    requires n <= |bs|
    ensures |HealthyAmong(bs, n)| <= n
    ensures forall i :: i in HealthyAmong(bs, n) <==> 0 <= i < n && bs[i].health != Unhealthy
  {
    if n > 0 {
      HealthyAmongContents(bs, n - 1);
    }
  }

  /** Round-robin: the counter modulo the length of the list as it is now. */
  function Pick(healthy: seq<nat>, counter: nat): (i: nat)
    requires |healthy| > 0
    ensures i in healthy
  {
    var k := counter % |healthy|;
    assert healthy[k] in healthy;
    healthy[k]
  }

  datatype Selection = Chosen(index: nat) | Fallback | Nobody

  function Select(p: Pool, now: int): (r: (Pool, Selection))
    requires p.Valid()
    ensures r.0.Valid() && r.0.nodes == p.nodes && r.0.breakers == RecheckAll(p, now).breakers
    ensures r.1.Chosen? ==> r.1.index < |p.nodes|
  {
    var q := RecheckAll(p, now);
    var healthy := HealthyList(q.breakers);
    HealthyAmongContents(q.breakers, |q.breakers|);
    if |healthy| > 0 then (q.(current := p.current + 1), Chosen(Pick(healthy, p.current)))
    else (q, if |p.nodes| > 0 then Fallback else Nobody)
  }

  // ---------------------------------------------------------------- failover

  /** What the world does at one attempt: the clock when a provider is selected and
      when the call is recorded, each provider's answer should it be called, and
      whether the caller's context is cancelled by then. */
  datatype Moment = Moment(selectAt: int, recordAt: int, answers: seq<bool>, cancelled: bool)

  datatype Outcome = Success(provider: nat) | NoHealthyProvider | Cancelled | AllFailed

  datatype Action = OverRange | Repeated | Called(answered: bool)

  datatype Attempt = Attempt(healthy: seq<nat>, pick: nat, action: Action)

  /** How far a call has come: the pool, the names of the providers that failed or were
      passed over for their range, what was selected and why, and the outcome once the
      call has ended. */
  datatype Progress = Progress(pool: Pool, tried: set<string>, attempts: seq<Attempt>, outcome: Option<Outcome>)

  predicate Fitting(p: Pool, env: seq<Moment>) {
    p.Valid() && |env| == 2 * |p.nodes| && forall a :: 0 <= a < |env| ==> |env[a].answers| == |p.nodes|
  }

  function Recorded(p: Pool, i: nat, ok: bool, at: int): (q: Pool)
    requires p.Valid() && i < |p.nodes|
    ensures q.Valid() && q.nodes == p.nodes && q.current == p.current
    ensures forall j :: 0 <= j < |p.breakers| && j != i ==> q.breakers[j] == p.breakers[j]
  {
    var c := p.nodes[i].thresholds;
    p.(breakers := p.breakers[i := if ok then OnSuccess(c, p.breakers[i], at) else OnFailure(c, p.breakers[i], at)])
  }

  /** What one attempt does with the provider it selects. */
  function ActionOf(p: Pool, i: nat, range: nat, now: Moment, firstPass: bool, tried: set<string>): Action
    requires i < |p.nodes| == |now.answers|
  {
    if range > p.nodes[i].maxRange then OverRange
    else if p.nodes[i].name in tried && firstPass then Repeated
    else Called(now.answers[i])
  }

  /** One attempt. */
  function Try(s: Progress, range: nat, now: Moment, firstPass: bool): (s': Progress)
    requires s.pool.Valid() && |now.answers| == |s.pool.nodes|
    ensures s'.pool.Valid() && s'.pool.nodes == s.pool.nodes
  {
    var (q, selection) := Select(s.pool, now.selectAt);
    if !selection.Chosen? then s.(pool := q, outcome := Some(NoHealthyProvider))
    else
      var i := selection.index;
      var name := s.pool.nodes[i].name;
      var action := ActionOf(s.pool, i, range, now, firstPass, s.tried);
      var attempts := s.attempts + [Attempt(HealthyList(q.breakers), i, action)];
      match action
      case OverRange => Progress(q, s.tried + {name}, attempts, None)
      case Repeated => Progress(q, s.tried, attempts, None)
      case Called(true) => Progress(Recorded(q, i, true, now.recordAt), s.tried, attempts, Some(Success(i)))
      case Called(false) =>
        Progress(Recorded(q, i, false, now.recordAt), s.tried + {name}, attempts,
                 if now.cancelled then Some(Cancelled) else None)
  }

  /** The loop after n attempts; a request without a block range has range 0. */
  function Loop(p: Pool, range: nat, env: seq<Moment>, n: nat): (s: Progress)
    requires Fitting(p, env) && n <= |env|
    ensures s.pool.Valid() && s.pool.nodes == p.nodes
  {
    if n == 0 then Progress(p, {}, [], None)
    else
      var s := Loop(p, range, env, n - 1);
      if s.outcome.Some? then s else Try(s, range, env[n - 1], n - 1 < |p.nodes|)
  }

  function Call(p: Pool, range: nat, env: seq<Moment>): Progress
    requires Fitting(p, env)
  {
    var s := Loop(p, range, env, |env|);
    if s.outcome.Some? then s else s.(outcome := Some(AllFailed))
  }

  lemma LoopContinues(p: Pool, range: nat, env: seq<Moment>, n: nat)
    requires Fitting(p, env) && 0 < n <= |env|
    ensures var s := Loop(p, range, env, n - 1);
            Loop(p, range, env, n) == if s.outcome.Some? then s else Try(s, range, env[n - 1], n - 1 < |p.nodes|)
  {
  }

  /** Once a call has ended the remaining attempts do not happen. */
  lemma {:induction false} EndedStays(p: Pool, range: nat, env: seq<Moment>, n: nat, m: nat)
    requires Fitting(p, env) && n <= m <= |env| && Loop(p, range, env, n).outcome.Some?
    ensures Loop(p, range, env, m) == Loop(p, range, env, n)
  {
    hide Try;
    if n < m {
      EndedStays(p, range, env, n, m - 1);
    }
  }

  // ----------------------------------------------------------------- objects

  function Nodes(ps: seq<Provider>): (nodes: seq<Node>)
    ensures |nodes| == |ps| && forall i :: 0 <= i < |ps| ==> nodes[i] == ps[i].Config()
  {
    seq(|ps|, i requires 0 <= i < |ps| => ps[i].Config())
  }

  ghost function States(ps: seq<Provider>): (bs: seq<Breaker>)
    reads ps
    ensures |bs| == |ps| && forall i :: 0 <= i < |ps| ==> bs[i] == ps[i].View()
  {
    seq(|ps|, i requires 0 <= i < |ps| reads ps => ps[i].View())
  }

  predicate Distinct(ps: seq<Provider>) {
    forall i, j :: 0 <= i < j < |ps| ==> ps[i] != ps[j]
  }

  class ProviderPool {
    const providers: seq<Provider>
    var current: nat

    constructor (providers: seq<Provider>)
      ensures this.providers == providers && current == 0
    {
      this.providers := providers;
      current := 0;
    }

    ghost function View(): (p: Pool)
      reads this, providers
      ensures p.Valid() && |p.nodes| == |providers|
    {
      Pool(Nodes(providers), States(providers), current)
    }

    method CheckHealth(i: nat, now: int) returns (ok: bool)
      requires Distinct(providers) && i < |providers|
      modifies providers[i]
      ensures providers[i].View() == Recheck(providers[i].thresholds, old(providers[i].View()), now)
      ensures forall j :: 0 <= j < |providers| && j != i ==> providers[j].View() == old(providers[j].View())
      ensures ok <==> providers[i].View().health != Unhealthy
    {
      ok := providers[i].IsHealthy(now);
    }

    method GetHealthyProviders(now: int) returns (healthy: seq<nat>)
      requires Distinct(providers)
      modifies providers
      ensures States(providers) == RecheckAll(old(View()), now).breakers
      ensures healthy == HealthyList(States(providers))
    {
      healthy := [];
      ghost var target := RecheckAll(View(), now).breakers;
      for i := 0 to |providers|
        invariant forall j :: 0 <= j < i ==> providers[j].View() == target[j]
        invariant forall j :: i <= j < |providers| ==>
                    Recheck(providers[j].thresholds, providers[j].View(), now) == target[j]
        invariant healthy == HealthyAmong(target, i)
      {
        var ok := CheckHealth(i, now);
        if ok {
          healthy := healthy + [i];
        }
      }
      assert States(providers) == target;
    }

    method SelectProvider(now: int) returns (selection: Selection)
      requires Distinct(providers)
      modifies this`current, providers
      ensures (View(), selection) == Select(old(View()), now)
      ensures selection.Chosen? ==> selection.index < |providers|
    {
      var healthy := GetHealthyProviders(now);
      if |healthy| > 0 {
        selection := Chosen(Pick(healthy, current));
        current := current + 1;
      } else if |providers| > 0 {
        selection := Fallback;
      } else {
        selection := Nobody;
      }
    }

    method Record(i: nat, ok: bool, at: int)
      requires Distinct(providers) && i < |providers|
      modifies providers[i]
      ensures View() == Recorded(old(View()), i, ok, at)
    {
      if ok {
        providers[i].RecordSuccess(at);
      } else {
        providers[i].RecordFailure(at);
      }
      assert States(providers) == Recorded(old(View()), i, ok, at).breakers;
    }

    /** One attempt of the loop: Some outcome ends the call. */
    method TryOnce(range: nat, now: Moment, firstPass: bool, tried: set<string>, ghost attempts: seq<Attempt>)
      returns (outcome: Option<Outcome>, tried': set<string>, ghost attempts': seq<Attempt>)
      requires Distinct(providers) && |now.answers| == |providers|
      modifies this`current, providers
      ensures Progress(View(), tried', attempts', outcome)
           == Try(Progress(old(View()), tried, attempts, None), range, now, firstPass)
    {
      ghost var s' := Try(Progress(View(), tried, attempts, None), range, now, firstPass);
      tried', attempts' := tried, s'.attempts;
      var selection := SelectProvider(now.selectAt);
      if !selection.Chosen? {
        outcome := Some(NoHealthyProvider);
        return;
      }
      var provider := providers[selection.index];
      if range > provider.maxRange {
        outcome, tried' := None, tried + {provider.name};
        return;
      }
      if provider.name in tried && firstPass {
        outcome := None;
        return;
      }
      if now.answers[selection.index] {
        Record(selection.index, true, now.recordAt);
        outcome := Some(Success(selection.index));
      } else {
        Record(selection.index, false, now.recordAt);
        tried' := tried + {provider.name};
        outcome := if now.cancelled then Some(Cancelled) else None;
      }
    }

    /** FilterLogs, and with range 0 the loop of BlockByNumber and HeaderByNumber. */
    method Request(range: nat, env: seq<Moment>) returns (outcome: Outcome)
      requires Distinct(providers) && Fitting(View(), env)
      modifies this`current, providers
      ensures View() == Call(old(View()), range, env).pool
      ensures Some(outcome) == Call(old(View()), range, env).outcome
    {
      hide Try;
      var tried: set<string> := {};
      ghost var attempts := [];
      ghost var start := View();
      for attempt := 0 to |env|
        invariant Fitting(start, env) && |start.nodes| == |providers|
        invariant Progress(View(), tried, attempts, None) == Loop(start, range, env, attempt)
      {
        LoopContinues(start, range, env, attempt + 1);
        var result;
        result, tried, attempts := TryOnce(range, env[attempt], attempt < |providers|, tried, attempts);
        assert Progress(View(), tried, attempts, result) == Loop(start, range, env, attempt + 1);
        if result.Some? {
          EndedStays(start, range, env, attempt + 1, |env|);
          return result.value;
        }
      }
      outcome := AllFailed;
    }
  }
}
