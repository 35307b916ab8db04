/**
 Catching up with a head that stands still, when storage works and every provider is
 healthy and answers what its range limit admits: when it happens, and how soon.
 */
module CatchUps {
  import opened Arithmetic
  import opened Wrappers
  import opened Parser
  import opened Chains
  import opened Repository
  import opened BatchController
  import opened Ingestion
  import opened IngestionServices
  import opened Breakers
  import opened Pools
  import opened PoolTheorems

  // ----------------------------------------------------- what a fetch answers

  datatype PoolCall = PoolCall(pool: Pool, env: seq<Moment>)

  /** A call on a pool of these providers, all healthy and answering. */
  ghost predicate AllUp(nodes: seq<Node>, call: PoolCall, range: nat) {
    && nodes != [] && call.pool.nodes == nodes && call.pool.DistinctNames()
    && Fitting(call.pool, call.env) && Uncancelled(call.env)
    && AllHealthy(call.pool) && AnswersInRange(call.pool, range, call.env)
  }

  /** A fetch asks the pool for the logs and then for the header of each block it does
      not have; it fails if one of these calls fails. */
  ghost predicate FetchedBy(nodes: seq<Node>, feed: LawfulFeed, first: nat, last: nat, answer: Option<seq<Transfer>>,
                            logs: PoolCall, headers: seq<PoolCall>)
  {
    && first <= last && AllUp(nodes, logs, last + 1 - first)
    && (forall h :: 0 <= h < |headers| ==> AllUp(nodes, headers[h], 0))
    && answer ==
         if Succeeds(Call(logs.pool, last + 1 - first, logs.env))
            && (forall h :: 0 <= h < |headers| ==> Succeeds(Call(headers[h].pool, 0, headers[h].env)))
         then Some(feed.range(first, last + 1)) else None
  }

  ghost predicate Fetched(nodes: seq<Node>, feed: LawfulFeed, first: nat, last: nat, answer: Option<seq<Transfer>>) {
    exists logs: PoolCall, headers: seq<PoolCall> :: FetchedBy(nodes, feed, first, last, answer, logs, headers)
  }

  ghost predicate Served(nodes: seq<Node>, feed: LawfulFeed, fetch: (nat, nat) -> Option<seq<Transfer>>) {
    forall first: nat, last: nat :: first <= last ==> Fetched(nodes, feed, first, last, fetch(first, last))
  }

  /** Some provider's limit admits a range of this many blocks. */
  predicate Admits(nodes: seq<Node>, range: nat) {
    exists i :: 0 <= i < |nodes| && range <= nodes[i].maxRange
  }

  lemma FetchedInRange(nodes: seq<Node>, feed: LawfulFeed, first: nat, last: nat,
        answer: Option<seq<Transfer>>, logs: PoolCall, headers: seq<PoolCall>)
    requires FetchedBy(nodes, feed, first, last, answer, logs, headers)
    ensures answer == if Admits(nodes, last + 1 - first) then Some(feed.range(first, last + 1)) else None
  {
    hide Call, Uncancelled, AllHealthy, AnswersInRange, Succeeds;
    HealthyPoolAnswers(logs.pool, last + 1 - first, logs.env);
    forall h | 0 <= h < |headers|
      ensures Succeeds(Call(headers[h].pool, 0, headers[h].env))
    {
      HealthyPoolAnswers(headers[h].pool, 0, headers[h].env);
      assert 0 <= headers[h].pool.nodes[0].maxRange;
    }
  }

  lemma FetchSucceedsInRange(nodes: seq<Node>, feed: LawfulFeed, fetch: (nat, nat) -> Option<seq<Transfer>>,
        first: nat, last: nat)
    requires Served(nodes, feed, fetch) && first <= last
    ensures fetch(first, last) == if Admits(nodes, last + 1 - first) then Some(feed.range(first, last + 1)) else None
  {
    assert Fetched(nodes, feed, first, last, fetch(first, last));
    var logs: PoolCall, headers: seq<PoolCall> :|
      FetchedBy(nodes, feed, first, last, fetch(first, last), logs, headers);
    FetchedInRange(nodes, feed, first, last, fetch(first, last), logs, headers);
  }

  // ------------------------------------------------------ the cursor and size

  /** A tick with this head, all providers up and the database working: a bulk write is
      answered without errors, or with duplicates when blocks are ingested again. */
  ghost predicate Calm(nodes: seq<Node>, feed: LawfulFeed, head: nat, tick: Tick) {
    && tick.head == Some(head) && Served(nodes, feed, tick.fetch) && tick.write.Done?
    && tick.bulk.Replied? && OtherError !in tick.bulk.results
  }

  datatype Pace = Pace(controller: Controller, cursor: nat)

  /** What a calm tick does to the cursor and the batch size. */
  function Advance(cfg: Config, nodes: seq<Node>, head: nat, at: Pace): Pace
    requires cfg.batch.Valid()
  {
    if at.cursor > head then at
    else
      var range := Min(BatchSize(cfg, at.controller), head + 1 - at.cursor);
      if Admits(nodes, range) then Pace(Adapt(cfg, at.controller, true), at.cursor + range)
      else Pace(Adapt(cfg, at.controller, false), at.cursor)
  }

  /** Sizes are positive and can be doubled. Nothing is asked of their order: the starting
      size may lie outside the limits, and the minimum above the maximum. */
  predicate Sensible(cfg: Config) {
    cfg.batch.Valid() && 1 <= cfg.batch.minSize && 1 <= cfg.batch.maxSize && cfg.InitialSize() < WORD / 2
  }

  predicate Sized(cfg: Config, c: Controller) {
    1 <= c.size <= cfg.SizeBound()
  }

  lemma AskedRange(cfg: Config, s: Service, first: nat, head: nat, tick: Tick)
    requires Sized(cfg, s.controller) && tick.head == Some(head) && first <= head && cfg.SizeBound() + head < WORD
    ensures Asked(cfg, s, first, tick) == Some(Span(first, first + Min(s.controller.size, head + 1 - first) - 1))
  {
    ToBlockInRange(first, s.controller.size, head);
    var last := first + s.controller.size - 1;
    assert last % WORD == last;
  }

  lemma CalmTick(cfg: Config, nodes: seq<Node>, feed: LawfulFeed, head: nat, s: Service, first: nat, tick: Tick)
    requires Sensible(cfg) && Sized(cfg, s.controller) && cfg.SizeBound() + head < WORD
    requires Calm(nodes, feed, head, tick) && Possible(cfg, s, first, tick)
    ensures var done := Pass(cfg, s, first, tick);
            Pace(done.service.controller, done.next) == Advance(cfg, nodes, head, Pace(s.controller, first))
  {
    hide Served, ReportsSuccess, ApplyBulk, Record, Admissible;
    SuccessExactly(tick.bulk);
    if first <= head {
      AskedRange(cfg, s, first, head, tick);
      var span := Asked(cfg, s, first, tick).value;
      FetchSucceedsInRange(nodes, feed, tick.fetch, span.first, span.last);
    }
  }

  lemma AdaptSized(cfg: Config, c: Controller, success: bool)
    requires Sensible(cfg) && Sized(cfg, c)
    ensures Sized(cfg, Adapt(cfg, c, success))
  {
    if success {
      assert c.size * 2 % WORD == c.size * 2;
    } else {
      QuotientShrinks(c.size, cfg.batch.Divisor());
    }
  }

  /** Failures cut a refused batch down to one that is admitted: the divisor is at least
      2, and some limit admits the minimum size. */
  predicate Recovers(cfg: Config, nodes: seq<Node>)
    requires cfg.batch.Valid()
  {
    cfg.adaptive && cfg.batch.Divisor() >= 2 && Admits(nodes, cfg.batch.minSize)
  }

  /** A failure above the minimum shrinks the batch when the divisor is at least 2. */
  lemma FailureShrinks(cfg: Config, c: Controller)
    requires Sensible(cfg) && Sized(cfg, c) && cfg.adaptive && cfg.batch.Divisor() >= 2
    ensures c.size > cfg.batch.minSize ==> Adapt(cfg, c, false).size < c.size
  {
    QuotientShrinks(c.size, cfg.batch.Divisor());
  }

  lemma AdmitsDown(nodes: seq<Node>, a: nat, b: nat)
    ensures Admits(nodes, b) && a <= b ==> Admits(nodes, a)
  {
  }

  lemma AdmitsLess(nodes: seq<Node>, a: nat, b: nat)
    requires Admits(nodes, b) && a <= b
    ensures Admits(nodes, a)
  {
  }

  /** The blocks still to do, and the batch size. */
  predicate Closer(cfg: Config, head: nat, after: Pace, before: Pace) {
    || head + 1 - after.cursor < head + 1 - before.cursor
    || (after.cursor == before.cursor && after.controller.size < before.controller.size)
  }

  ghost predicate OnTheWay(cfg: Config, head: nat, at: Pace) {
    Sized(cfg, at.controller) && at.cursor <= head + 1
  }

  /** The termination measure: with a divisor of at least 2 and a minimum that some limit
      admits, the pair (blocks left, batch size) decreases lexicographically on every
      tick, from any size. */
  lemma TickGetsCloser(cfg: Config, nodes: seq<Node>, head: nat, at: Pace)
    requires Sensible(cfg) && Recovers(cfg, nodes) && OnTheWay(cfg, head, at) && at.cursor <= head
    ensures OnTheWay(cfg, head, Advance(cfg, nodes, head, at))
    ensures Closer(cfg, head, Advance(cfg, nodes, head, at), at)
  {
    AdvanceSized(cfg, nodes, head, at);
    if !Admits(nodes, Min(BatchSize(cfg, at.controller), head + 1 - at.cursor)) {
      AdmitsDown(nodes, Min(at.controller.size, head + 1 - at.cursor), cfg.batch.minSize);
      FailureShrinks(cfg, at.controller);
    }
  }

  // ---------------------------------------------------------------- the loop

  function Measure(cfg: Config, head: nat, at: Pace): int {
    (head + 1 - at.cursor) * (cfg.SizeBound() + 1) + at.controller.size
  }

  lemma CloserMeasures(cfg: Config, head: nat, after: Pace, before: Pace)
    requires after.cursor <= head + 1 && before.cursor <= head + 1
    requires after.controller.size <= cfg.SizeBound() && before.controller.size <= cfg.SizeBound()
    requires Closer(cfg, head, after, before)
    ensures Measure(cfg, head, after) < Measure(cfg, head, before)
  {
    var a, b, w := head + 1 - after.cursor, head + 1 - before.cursor, cfg.SizeBound() + 1;
    if a < b {
      MulMonotone(w, a + 1, b);
      MulAdd(w, a, 1);
      assert w * a == a * w && w * b == b * w;
    }
  }

  ghost predicate CalmLoop(cfg: Config, nodes: seq<Node>, feed: LawfulFeed, head: nat, s: Service, first: nat,
        ticks: seq<Tick>) {
    && Sensible(cfg) && Sized(cfg, s.controller) && cfg.SizeBound() + head < WORD
    && AllPossible(cfg, s, first, ticks) && forall tick :: tick in ticks ==> Calm(nodes, feed, head, tick)
  }

  function PaceOf(done: Ticked): Pace {
    Pace(done.service.controller, done.next)
  }

  lemma AdvanceSized(cfg: Config, nodes: seq<Node>, head: nat, at: Pace)
    requires Sensible(cfg) && Sized(cfg, at.controller)
    ensures Sized(cfg, Advance(cfg, nodes, head, at).controller)
  {
    AdaptSized(cfg, at.controller, true);
    AdaptSized(cfg, at.controller, false);
  }

  lemma CalmPrefix(cfg: Config, nodes: seq<Node>, feed: LawfulFeed, head: nat, s: Service, first: nat, ticks: seq<Tick>)
    requires CalmLoop(cfg, nodes, feed, head, s, first, ticks) && ticks != []
    ensures CalmLoop(cfg, nodes, feed, head, s, first, ticks[..|ticks| - 1])
    ensures Calm(nodes, feed, head, ticks[|ticks| - 1])
  {
    assert ticks[|ticks| - 1] in ticks;
  }

  lemma {:induction false} LoopSized(cfg: Config, nodes: seq<Node>, feed: LawfulFeed, head: nat, s: Service,
        first: nat, ticks: seq<Tick>)
    requires CalmLoop(cfg, nodes, feed, head, s, first, ticks)
    ensures Sized(cfg, Polled(cfg, s, first, ticks).service.controller)
    decreases |ticks|
  {
    hide Pass, Calm, Advance;
    if ticks != [] {
      CalmPrefix(cfg, nodes, feed, head, s, first, ticks);
      LoopSized(cfg, nodes, feed, head, s, first, ticks[..|ticks| - 1]);
      var before := Polled(cfg, s, first, ticks[..|ticks| - 1]);
      CalmTick(cfg, nodes, feed, head, before.service, before.next, ticks[|ticks| - 1]);
      AdvanceSized(cfg, nodes, head, PaceOf(before));
    }
  }

  lemma CalmStep(cfg: Config, nodes: seq<Node>, feed: LawfulFeed, head: nat, s: Service, first: nat, ticks: seq<Tick>)
    requires CalmLoop(cfg, nodes, feed, head, s, first, ticks) && ticks != []
    ensures CalmLoop(cfg, nodes, feed, head, s, first, ticks[..|ticks| - 1])
    ensures PaceOf(Polled(cfg, s, first, ticks))
         == Advance(cfg, nodes, head, PaceOf(Polled(cfg, s, first, ticks[..|ticks| - 1])))
  {
    hide Pass, Calm, Advance, Sized;
    CalmPrefix(cfg, nodes, feed, head, s, first, ticks);
    LoopSized(cfg, nodes, feed, head, s, first, ticks[..|ticks| - 1]);
    var before := Polled(cfg, s, first, ticks[..|ticks| - 1]);
    CalmTick(cfg, nodes, feed, head, before.service, before.next, ticks[|ticks| - 1]);
  }

  lemma {:induction false} LoopGetsCloser(cfg: Config, nodes: seq<Node>, feed: LawfulFeed, head: nat,
        s: Service, first: nat, ticks: seq<Tick>)
    requires CalmLoop(cfg, nodes, feed, head, s, first, ticks) && Recovers(cfg, nodes)
    requires OnTheWay(cfg, head, Pace(s.controller, first))
    ensures var at := PaceOf(Polled(cfg, s, first, ticks));
            && OnTheWay(cfg, head, at)
            && (at.cursor <= head ==> Measure(cfg, head, at) <= Measure(cfg, head, Pace(s.controller, first)) - |ticks|)
    decreases |ticks|
  {
    hide Calm, Pass, Advance, Measure, Possible, Closer, OnTheWay;
    if ticks != [] {
      CalmStep(cfg, nodes, feed, head, s, first, ticks);
      LoopGetsCloser(cfg, nodes, feed, head, s, first, ticks[..|ticks| - 1]);
      var before := PaceOf(Polled(cfg, s, first, ticks[..|ticks| - 1]));
      LoopStep(cfg, nodes, head, before);
    }
  }

  lemma LoopStep(cfg: Config, nodes: seq<Node>, head: nat, at: Pace)
    requires Sensible(cfg) && Recovers(cfg, nodes) && OnTheWay(cfg, head, at)
    ensures var after := Advance(cfg, nodes, head, at);
            && OnTheWay(cfg, head, after)
            && (at.cursor > head ==> after == at)
            && (at.cursor <= head ==> Measure(cfg, head, after) < Measure(cfg, head, at))
  {
    if at.cursor <= head {
      TickGetsCloser(cfg, nodes, head, at);
      CloserMeasures(cfg, head, Advance(cfg, nodes, head, at), at);
    }
  }

  lemma MeasurePositive(cfg: Config, head: nat, at: Pace)
    requires at.cursor <= head
    ensures Measure(cfg, head, at) > 0
  {
    MulMonotone(cfg.SizeBound() + 1, 1, head + 1 - at.cursor);
    assert (cfg.SizeBound() + 1) * (head + 1 - at.cursor) == (head + 1 - at.cursor) * (cfg.SizeBound() + 1);
  }

  /** So the cursor arrives one past the head within the bound. */
  lemma RecoveringArrives(cfg: Config, nodes: seq<Node>, feed: LawfulFeed, head: nat, s: Service, first: nat,
        ticks: seq<Tick>)
    requires CalmLoop(cfg, nodes, feed, head, s, first, ticks) && first <= head && Recovers(cfg, nodes)
    requires |ticks| >= Measure(cfg, head, Pace(s.controller, first))
    ensures Polled(cfg, s, first, ticks).next == head + 1
  {
    LoopGetsCloser(cfg, nodes, feed, head, s, first, ticks);
    var at := PaceOf(Polled(cfg, s, first, ticks));
    if at.cursor <= head {
      MeasurePositive(cfg, head, at);
    }
  }
}
