/**
 Catch-up, exactly: for all settings and any size, when the cursor reaches a head that
 stands still, and where it stops for good otherwise.
 */
module CatchUpTheorems {
  import opened Arithmetic
  import opened Numerals
  import opened Chains
  import opened BatchController
  import opened Ingestion
  import opened IngestionServices
  import opened Breakers
  import opened CatchUps

  /** The controller after n successes in a row. */
  function Grown(cfg: Config, c: Controller, n: nat): Controller
    requires cfg.batch.Valid()
  {
    if n == 0 then c else Adapt(cfg, Grown(cfg, c, n - 1), true)
  }

  function SizeAfter(cfg: Config, c: Controller, n: nat): nat
    requires cfg.batch.Valid()
  {
    Grown(cfg, c, n).size
  }

  /** The blocks of the first n batches. */
  function Covered(cfg: Config, c: Controller, n: nat): nat
    requires cfg.batch.Valid()
  {
    if n == 0 then 0 else Covered(cfg, c, n - 1) + SizeAfter(cfg, c, n - 1)
  }

  /** The first batch that no provider's limit admits is the one after n successes. */
  ghost predicate Outgrows(cfg: Config, nodes: seq<Node>, c: Controller, n: nat)
    requires cfg.batch.Valid()
  {
    !Admits(nodes, SizeAfter(cfg, c, n)) && forall k: nat :: k < n ==> Admits(nodes, SizeAfter(cfg, c, k))
  }

  /** If any batch of a run of successes is refused, one is the first. */
  lemma FirstRefusal(cfg: Config, nodes: seq<Node>, c: Controller, k: nat) returns (n: nat)
    requires cfg.batch.Valid() && !Admits(nodes, SizeAfter(cfg, c, k))
    ensures n <= k && Outgrows(cfg, nodes, c, n)
  {
    hide Admits, SizeAfter;
    n := 0;
    while Admits(nodes, SizeAfter(cfg, c, n))
      invariant n <= k && forall i: nat :: i < n ==> Admits(nodes, SizeAfter(cfg, c, i))
      decreases k - n
    {
      n := n + 1;
    }
  }

  lemma {:induction false} GrownSized(cfg: Config, c: Controller, n: nat)
    requires Sensible(cfg) && Sized(cfg, c)
    ensures Sized(cfg, Grown(cfg, c, n))
  {
    if n > 0 {
      GrownSized(cfg, c, n - 1);
      AdaptSized(cfg, Grown(cfg, c, n - 1), true);
    }
  }

  /** Where the cursor is after n admitted batches. */
  ghost predicate Free(cfg: Config, head: nat, c: Controller, first: nat, n: nat, at: Pace)
    requires cfg.batch.Valid()
  {
    if Covered(cfg, c, n) < head + 1 - first
    then at == Pace(Grown(cfg, c, n), first + Covered(cfg, c, n))
    else at.cursor == head + 1
  }

  lemma FreeStep(cfg: Config, nodes: seq<Node>, head: nat, c: Controller, first: nat, n: nat, at: Pace)
    requires Sensible(cfg) && Sized(cfg, c) && first <= head
    requires Free(cfg, head, c, first, n, at) && Admits(nodes, SizeAfter(cfg, c, n))
    ensures Free(cfg, head, c, first, n + 1, Advance(cfg, nodes, head, at))
  {
    GrownSized(cfg, c, n);
    if Covered(cfg, c, n) < head + 1 - first {
      AdmitsLess(nodes, Min(SizeAfter(cfg, c, n), head + 1 - at.cursor), SizeAfter(cfg, c, n));
    }
  }

  lemma {:induction false} GrowsFreely(cfg: Config, nodes: seq<Node>, feed: LawfulFeed, head: nat, s: Service,
        first: nat, ticks: seq<Tick>)
    requires CalmLoop(cfg, nodes, feed, head, s, first, ticks) && first <= head
    requires forall k: nat :: k < |ticks| ==> Admits(nodes, SizeAfter(cfg, s.controller, k))
    ensures Free(cfg, head, s.controller, first, |ticks|, PaceOf(Polled(cfg, s, first, ticks)))
    decreases |ticks|
  {
    hide Pass, Possible, Calm, Advance, Admits;
    if ticks != [] {
      var n := |ticks| - 1;
      CalmStep(cfg, nodes, feed, head, s, first, ticks);
      GrowsFreely(cfg, nodes, feed, head, s, first, ticks[..n]);
      FreeStep(cfg, nodes, head, s.controller, first, n, PaceOf(Polled(cfg, s, first, ticks[..n])));
    }
  }

  lemma {:induction false} CoveredGrows(cfg: Config, c: Controller, n: nat)
    requires Sensible(cfg) && Sized(cfg, c)
    ensures Covered(cfg, c, n) >= n
  {
    if n > 0 {
      CoveredGrows(cfg, c, n - 1);
      GrownSized(cfg, c, n - 1);
    }
  }

  // ------------------------------------------------------------ refused for ever

  /** Nothing but what is left to do is small enough for a limit, and that is not either. */
  ghost predicate Refused(cfg: Config, nodes: seq<Node>, head: nat, at: Pace) {
    && Sized(cfg, at.controller) && at.cursor <= head
    && !Admits(nodes, at.controller.size) && !Admits(nodes, head + 1 - at.cursor)
  }

  /** Unless failures cut it down to an admitted one, the next batch is refused too. */
  lemma StillRefused(cfg: Config, nodes: seq<Node>, c: Controller)
    requires Sensible(cfg) && Sized(cfg, c) && !Recovers(cfg, nodes) && !Admits(nodes, c.size)
    ensures !Admits(nodes, Adapt(cfg, c, false).size)
  {
    if cfg.adaptive {
      hide Admits, Adapt;
      var size := Adapt(cfg, c, false).size;
      FailedSize(cfg, c);
      if cfg.batch.Divisor() == 1 {
        assert c.size / 1 == c.size;
        AdmitsDown(nodes, c.size, size);
      } else {
        AdmitsDown(nodes, cfg.batch.minSize, size);
      }
    }
  }

  lemma FailedSize(cfg: Config, c: Controller)
    requires cfg.batch.Valid() && cfg.adaptive
    ensures Adapt(cfg, c, false).size == Max(cfg.batch.minSize, c.size / cfg.batch.Divisor())
  {
    FailureSize(cfg.batch, c);
  }

  lemma RefusedStays(cfg: Config, nodes: seq<Node>, head: nat, at: Pace)
    requires Sensible(cfg) && !Recovers(cfg, nodes) && Refused(cfg, nodes, head, at)
    ensures Refused(cfg, nodes, head, Advance(cfg, nodes, head, at))
    ensures Advance(cfg, nodes, head, at).cursor == at.cursor
  {
    hide Adapt, Admits, Recovers;
    AdaptSized(cfg, at.controller, false);
    StillRefused(cfg, nodes, at.controller);
  }

  /** A cursor that has stopped, or arrived. */
  ghost predicate StoppedOrArrived(cfg: Config, nodes: seq<Node>, head: nat, c: Controller, first: nat, n: nat,
        at: Pace)
    requires cfg.batch.Valid()
  {
    var left, covered := head + 1 - first, Covered(cfg, c, n);
    if left <= covered || Admits(nodes, left - covered) then at.cursor == head + 1
    else at.cursor == first + covered && Refused(cfg, nodes, head, at)
  }

  lemma Outgrown(cfg: Config, nodes: seq<Node>, head: nat, c: Controller, first: nat, n: nat, at: Pace)
    requires Sensible(cfg) && Sized(cfg, c) && !Recovers(cfg, nodes) && first <= head && Outgrows(cfg, nodes, c, n)
    requires Free(cfg, head, c, first, n, at) || StoppedOrArrived(cfg, nodes, head, c, first, n, at)
    ensures StoppedOrArrived(cfg, nodes, head, c, first, n, Advance(cfg, nodes, head, at))
  {
    hide Covered, Admits;
    GrownSized(cfg, c, n);
    if at.cursor <= head {
      var size, left := at.controller.size, head + 1 - at.cursor;
      AdmitsDown(nodes, size, left);
      if !Admits(nodes, left) {
        RefusedStays(cfg, nodes, head, at);
      }
    }
  }

  lemma {:induction false} StopsOrArrives(cfg: Config, nodes: seq<Node>, feed: LawfulFeed, head: nat, s: Service,
        first: nat, ticks: seq<Tick>, n: nat)
    requires CalmLoop(cfg, nodes, feed, head, s, first, ticks) && first <= head && !Recovers(cfg, nodes)
    requires Outgrows(cfg, nodes, s.controller, n) && |ticks| > n
    ensures StoppedOrArrived(cfg, nodes, head, s.controller, first, n, PaceOf(Polled(cfg, s, first, ticks)))
    decreases |ticks|
  {
    hide Pass, Possible, Calm, Advance, Admits, Recovers;
    var before := ticks[..|ticks| - 1];
    CalmStep(cfg, nodes, feed, head, s, first, ticks);
    if |before| > n {
      StopsOrArrives(cfg, nodes, feed, head, s, first, before, n);
    } else {
      GrowsFreely(cfg, nodes, feed, head, s, first, before);
    }
    Outgrown(cfg, nodes, head, s.controller, first, n, PaceOf(Polled(cfg, s, first, before)));
  }

  // ----------------------------------------------------------------- the theorem

  /** The ticks that are enough when every batch is admitted or failures recover. */
  function Enough(cfg: Config, head: nat, s: Service, first: nat): int {
    Measure(cfg, head, Pace(s.controller, first))
  }

  /** Catch-up, exactly, for adaptive and fixed sizes, any divisor, and minimum, maximum
      and starting size in any order. Where failures cut a refused batch down to an
      admitted one, and where no batch on the way is refused, the cursor arrives one past
      the head. Otherwise, if the batch after n successes is the first that is refused, it
      arrives just when the batches before it cover the distance, or leave a rest that is
      admitted; if not it stops after them for ever. */
  lemma CatchUpExactly(cfg: Config, nodes: seq<Node>, feed: LawfulFeed, head: nat, s: Service, first: nat,
        ticks: seq<Tick>, n: nat)
    requires CalmLoop(cfg, nodes, feed, head, s, first, ticks) && first <= head
    ensures Recovers(cfg, nodes) && |ticks| >= Enough(cfg, head, s, first) ==>
              Polled(cfg, s, first, ticks).next == head + 1
    ensures (forall k: nat :: Admits(nodes, SizeAfter(cfg, s.controller, k))) && |ticks| >= head + 1 - first ==>
              Polled(cfg, s, first, ticks).next == head + 1
    ensures !Recovers(cfg, nodes) && Outgrows(cfg, nodes, s.controller, n) && |ticks| > n ==>
              var left, covered := head + 1 - first, Covered(cfg, s.controller, n);
              Polled(cfg, s, first, ticks).next
              == if left <= covered || Admits(nodes, left - covered) then head + 1 else first + covered
  {
    hide Polled, SizeAfter, Admits, Recovers, Measure;
    if Recovers(cfg, nodes) && |ticks| >= Enough(cfg, head, s, first) {
      RecoveringArrives(cfg, nodes, feed, head, s, first, ticks);
    }
    if (forall k: nat :: Admits(nodes, SizeAfter(cfg, s.controller, k))) && |ticks| >= head + 1 - first {
      GrowsFreely(cfg, nodes, feed, head, s, first, ticks);
      CoveredGrows(cfg, s.controller, |ticks|);
    }
    if !Recovers(cfg, nodes) && Outgrows(cfg, nodes, s.controller, n) && |ticks| > n {
      StopsOrArrives(cfg, nodes, feed, head, s, first, ticks, n);
    }
  }

  // -------------------------------------------------------------- closed forms

  /** A controller whose streak has not been used up while the size can still grow. */
  predicate Fresh(cfg: Config, c: Controller) {
    && Sensible(cfg) && Sized(cfg, c)
    && (Grows(cfg, c) ==> c.successes < cfg.batch.EffectiveStreak())
  }

  /** Successes can make the batch larger. */
  predicate Grows(cfg: Config, c: Controller) {
    cfg.adaptive && c.size < cfg.batch.maxSize
  }

  /** The largest batch that a run of successes asks for. */
  function Ceiling(cfg: Config, c: Controller): nat {
    if Grows(cfg, c) then cfg.batch.maxSize else c.size
  }

  /** The size after j doublings; a size that is fixed, or not below the maximum, is not
      doubled. */
  function Level(cfg: Config, c: Controller, j: nat): nat {
    if Grows(cfg, c) then Min(cfg.batch.maxSize, c.size * Pow(2, j)) else c.size
  }

  lemma {:induction false} GrownIsAfter(cfg: Config, c: Controller, n: nat)
    requires cfg.batch.Valid() && cfg.adaptive
    ensures Grown(cfg, c, n) == After(cfg.batch, c, Repeat(true, n))
  {
    if n == 0 {
      assert Repeat(true, 0) == [];
    } else {
      GrownIsAfter(cfg, c, n - 1);
      RepeatStep(true, n);
    }
  }

  lemma SizeByLevel(cfg: Config, c: Controller, n: nat)
    requires Fresh(cfg, c) && Grows(cfg, c)
    ensures SizeAfter(cfg, c, n) == Level(cfg, c, (c.successes + n) / cfg.batch.EffectiveStreak())
  {
    GrownIsAfter(cfg, c, n);
    SuccessesClosedForm(cfg.batch, c, n);
  }

  lemma {:induction false} UnderCeiling(cfg: Config, c: Controller, n: nat)
    requires cfg.batch.Valid()
    ensures SizeAfter(cfg, c, n) <= Ceiling(cfg, c)
  {
    if n > 0 {
      UnderCeiling(cfg, c, n - 1);
    }
  }

  lemma {:induction false} PowExceeds(j: nat)
    ensures Pow(2, j) > j
  {
    if j > 0 {
      PowExceeds(j - 1);
    }
  }

  lemma EnoughDoublings(size: nat, max: nat, j: nat)
    requires size >= 1 && j >= max
    ensures Min(max, size * Pow(2, j)) == max
  {
    hide Pow;
    PowExceeds(j);
    var p := Pow(2, j);
    MulMonotone(p, 1, size);
    assert size * p == p * size;
  }

  lemma LevelAfter(u: nat, max: nat, successes: nat)
    requires u >= 1
    ensures (successes + u * max) / u >= max
  {
    QuotientUnique(u * max, u, max, 0);
    QuotientOrder(u * max, successes + u * max, u);
  }

  /** The ceiling is reached. */
  lemma ReachesCeiling(cfg: Config, c: Controller) returns (n: nat)
    requires Fresh(cfg, c)
    ensures SizeAfter(cfg, c, n) == Ceiling(cfg, c)
  {
    if !Grows(cfg, c) {
      n := 0;
    } else {
      hide Pow, SizeAfter;
      var u, max := cfg.batch.EffectiveStreak(), cfg.batch.maxSize;
      n := u * max;
      SizeByLevel(cfg, c, n);
      LevelAfter(u, max, c.successes);
      EnoughDoublings(c.size, max, (c.successes + n) / u);
    }
  }

  /** So every batch is admitted if and only if the largest one is. */
  lemma EveryBatchAdmittedIff(cfg: Config, nodes: seq<Node>, c: Controller)
    requires Fresh(cfg, c)
    ensures (forall k: nat :: Admits(nodes, SizeAfter(cfg, c, k))) <==> Admits(nodes, Ceiling(cfg, c))
  {
    var n := ReachesCeiling(cfg, c);
    if Admits(nodes, Ceiling(cfg, c)) {
      forall k: nat
        ensures Admits(nodes, SizeAfter(cfg, c, k))
      {
        UnderCeiling(cfg, c, k);
        AdmitsDown(nodes, SizeAfter(cfg, c, k), Ceiling(cfg, c));
      }
    }
  }

  /** The sum of 2^(i/u) over i < t. */
  function Growth(u: nat, t: nat): nat
    requires u >= 1
  {
    if t == 0 then 0 else Growth(u, t - 1) + Pow(2, (t - 1) / u)
  }

  lemma GrowthStep(u: nat, t: nat, j: nat, r: nat)
    requires u >= 1 && t == u * j + r && r < u
    ensures Growth(u, t + 1) == Growth(u, t) + Pow(2, j)
  {
    QuotientUnique(t, u, j, r);
  }

  lemma {:induction false} GrowthWithin(u: nat, j: nat, r: nat)
    requires u >= 1 && r <= u
    ensures Growth(u, u * j + r) == Growth(u, u * j) + Pow(2, j) * r
  {
    hide Pow, Growth;
    if r > 0 {
      GrowthWithin(u, j, r - 1);
      var start, p := u * j, Pow(2, j);
      var t := start + (r - 1);
      GrowthStep(u, t, j, r - 1);
      assert p * r == p * (r - 1) + p by {
        MulAdd(p, r - 1, 1);
      }
      assert Growth(u, start + r) == Growth(u, t + 1) == Growth(u, t) + p;
    }
  }

  lemma PowStep(j: nat)
    requires j > 0
    ensures Pow(2, j) == Pow(2, j - 1) + Pow(2, j - 1)
  {
  }

  lemma {:induction false} GrowthClosedForm(u: nat, j: nat)
    requires u >= 1
    ensures Growth(u, u * j) + u == u * Pow(2, j)
  {
    if j > 0 {
      hide Pow, Growth;
      GrowthClosedForm(u, j - 1);
      GrowthWithin(u, j - 1, u);
      MulAdd(u, j - 1, 1);
      var p := Pow(2, j - 1);
      PowStep(j);
      MulAdd(u, p, p);
      assert p * u == u * p;
    }
  }

  /** The j-th doubling is the first that no limit admits. */
  ghost predicate FirstRefused(cfg: Config, nodes: seq<Node>, c: Controller, j: nat)
    requires Fresh(cfg, c)
  {
    !Admits(nodes, Level(cfg, c, j)) && (j > 0 ==> Admits(nodes, Level(cfg, c, j - 1)))
  }

  lemma {:induction false} PowMonotone(i: nat, j: nat)
    requires i <= j
    ensures Pow(2, i) <= Pow(2, j)
  {
    if i < j {
      PowMonotone(i, j - 1);
    }
  }

  lemma LevelMonotone(cfg: Config, c: Controller, i: nat, j: nat)
    requires i <= j
    ensures Level(cfg, c, i) <= Level(cfg, c, j)
  {
    hide Pow;
    PowMonotone(i, j);
    MulMonotone(c.size, Pow(2, i), Pow(2, j));
  }

  lemma LevelBefore(u: nat, j: nat, t: nat)
    requires u >= 1 && t < u * j
    ensures t / u < j
  {
    if t / u >= j {
      MulMonotone(u, j, t / u);
    }
  }

  lemma AdmittedBefore(cfg: Config, nodes: seq<Node>, c: Controller, j: nat, k: nat)
    requires Fresh(cfg, c) && Grows(cfg, c) && j > 0 && Admits(nodes, Level(cfg, c, j - 1))
    requires c.successes + k < cfg.batch.EffectiveStreak() * j
    ensures Admits(nodes, SizeAfter(cfg, c, k))
  {
    hide Pow, SizeAfter, Admits, Level;
    SizeByLevel(cfg, c, k);
    LevelBefore(cfg.batch.EffectiveStreak(), j, c.successes + k);
    LevelMonotone(cfg, c, (c.successes + k) / cfg.batch.EffectiveStreak(), j - 1);
    AdmitsDown(nodes, SizeAfter(cfg, c, k), Level(cfg, c, j - 1));
  }

  lemma SizeAtLevel(cfg: Config, c: Controller, j: nat, n: nat)
    requires Fresh(cfg, c) && Grows(cfg, c) && c.successes + n == cfg.batch.EffectiveStreak() * j
    ensures SizeAfter(cfg, c, n) == Level(cfg, c, j)
  {
    hide Pow, SizeAfter, Level;
    SizeByLevel(cfg, c, n);
    QuotientUnique(c.successes + n, cfg.batch.EffectiveStreak(), j, 0);
  }

  /** The j-th doubling comes after streak * j successes, counted from the last one. */
  lemma RefusedAfterStreaks(cfg: Config, nodes: seq<Node>, c: Controller, j: nat)
    requires Fresh(cfg, c) && FirstRefused(cfg, nodes, c, j) && j > 0
    ensures Grows(cfg, c) && c.size * Pow(2, j - 1) < cfg.batch.maxSize
    ensures c.successes < cfg.batch.EffectiveStreak() * j
    ensures Outgrows(cfg, nodes, c, cfg.batch.EffectiveStreak() * j - c.successes)
  {
    hide Pow, SizeAfter, Admits, Level;
    AdmitsDown(nodes, Level(cfg, c, j), Level(cfg, c, j - 1));
    StillBelow(cfg, c, j);
    MulMonotone(cfg.batch.EffectiveStreak(), 1, j);
    var n := cfg.batch.EffectiveStreak() * j - c.successes;
    SizeAtLevel(cfg, c, j, n);
    forall k: nat | k < n
      ensures Admits(nodes, SizeAfter(cfg, c, k))
    {
      AdmittedBefore(cfg, nodes, c, j, k);
    }
  }

  lemma StillBelow(cfg: Config, c: Controller, j: nat)
    requires Fresh(cfg, c) && j > 0 && Level(cfg, c, j) > Level(cfg, c, j - 1)
    ensures Grows(cfg, c) && c.size * Pow(2, j - 1) < cfg.batch.maxSize
  {
    hide Pow;
  }

  predicate Uncapped(cfg: Config, c: Controller, j: nat, n: nat) {
    && Grows(cfg, c) && j > 0 && c.size * Pow(2, j - 1) < cfg.batch.maxSize
    && c.successes + n <= cfg.batch.EffectiveStreak() * j
  }

  lemma SizeUncapped(cfg: Config, c: Controller, j: nat, n: nat)
    requires Fresh(cfg, c) && Uncapped(cfg, c, j, n + 1)
    ensures SizeAfter(cfg, c, n) == c.size * Pow(2, (c.successes + n) / cfg.batch.EffectiveStreak())
  {
    hide Pow, SizeAfter;
    var u := cfg.batch.EffectiveStreak();
    var level := (c.successes + n) / u;
    SizeByLevel(cfg, c, n);
    LevelBefore(u, j, c.successes + n);
    PowMonotone(level, j - 1);
    MulMonotone(c.size, Pow(2, level), Pow(2, j - 1));
  }

  lemma NextTerms(cfg: Config, c: Controller, u: nat, n: nat, t: nat)
    requires cfg.batch.Valid() && u >= 1
    ensures Covered(cfg, c, n + 1) == Covered(cfg, c, n) + SizeAfter(cfg, c, n)
    ensures Growth(u, t + 1) == Growth(u, t) + Pow(2, t / u)
  {
  }

  lemma AddTerm(size: nat, covered: nat, g0: nat, g: nat, p: nat)
    requires covered + size * g0 == size * g
    ensures covered + size * p + size * g0 == size * (g + p)
  {
    MulAdd(size, g, p);
  }

  /** The blocks of the first n batches as a multiple of the size. */
  ghost predicate Multiplies(cfg: Config, c: Controller, n: nat)
    requires cfg.batch.Valid()
  {
    var u := cfg.batch.EffectiveStreak();
    Covered(cfg, c, n) + c.size * Growth(u, c.successes) == c.size * Growth(u, c.successes + n)
  }

  lemma MultipliesStep(cfg: Config, c: Controller, j: nat, n: nat)
    requires Fresh(cfg, c) && Uncapped(cfg, c, j, n + 1) && Multiplies(cfg, c, n)
    ensures Multiplies(cfg, c, n + 1)
  {
    hide Pow, SizeAfter, Growth, Covered, Uncapped;
    var u, t := cfg.batch.EffectiveStreak(), c.successes + n;
    SizeUncapped(cfg, c, j, n);
    NextTerms(cfg, c, u, n, t);
    AddTerm(c.size, Covered(cfg, c, n), Growth(u, c.successes), Growth(u, t), Pow(2, t / u));
    assert Growth(u, c.successes + (n + 1)) == Growth(u, t) + Pow(2, t / u);
  }

  lemma FewerUncapped(cfg: Config, c: Controller, j: nat, n: nat)
    requires Uncapped(cfg, c, j, n + 1)
    ensures Uncapped(cfg, c, j, n)
  {
  }

  lemma {:induction false} CoveredByGrowth(cfg: Config, c: Controller, j: nat, n: nat)
    requires Fresh(cfg, c) && Uncapped(cfg, c, j, n)
    ensures Multiplies(cfg, c, n)
  {
    if n == 0 {
      assert Covered(cfg, c, 0) == 0;
    } else {
      hide Uncapped, Multiplies, Fresh;
      FewerUncapped(cfg, c, j, n - 1);
      CoveredByGrowth(cfg, c, j, n - 1);
      MultipliesStep(cfg, c, j, n - 1);
    }
  }

  /** The blocks they cover: size * (streak * (2^j - 1) - successes). */
  lemma CoveredClosedForm(cfg: Config, c: Controller, j: nat)
    requires Fresh(cfg, c) && Grows(cfg, c) && j > 0 && c.size * Pow(2, j - 1) < cfg.batch.maxSize
    ensures var u := cfg.batch.EffectiveStreak();
            && c.successes <= u * j
            && Covered(cfg, c, u * j - c.successes) + c.size * (u + c.successes) == c.size * (u * Pow(2, j))
  {
    hide Pow, Growth, Covered;
    var u := cfg.batch.EffectiveStreak();
    MulMonotone(u, 1, j);
    CoveredByGrowth(cfg, c, j, u * j - c.successes);
    GrowthClosedForm(u, j);
    GrowthFirst(u, c.successes);
    MulAdd(c.size, Growth(u, u * j), u);
    MulAdd(c.size, u, c.successes);
  }

  lemma GrowthFirst(u: nat, r: nat)
    requires u >= 1 && r <= u
    ensures Growth(u, r) == r
  {
    GrowthWithin(u, 0, r);
    assert Pow(2, 0) == 1;
  }

  /** What the settings and the limits say before the loop begins: how many blocks the
      admitted batches cover until the first refused doubling. */
  function CoveredBefore(cfg: Config, c: Controller, j: nat): int {
    var u := cfg.batch.EffectiveStreak();
    if j == 0 then 0 else c.size * (u * Pow(2, j)) - c.size * (u + c.successes)
  }

  /** Catch-up in closed form, computed before the loop begins. Where failures do not
      recover: every head is reached if some limit admits the ceiling. Otherwise, with the
      j-th doubling the first that is refused, a head is reached exactly when the blocks
      covered before it are enough, or leave a rest that some limit admits. */
  lemma CatchUpClosedForm(cfg: Config, nodes: seq<Node>, feed: LawfulFeed, head: nat, s: Service, first: nat,
        ticks: seq<Tick>, j: nat)
    requires CalmLoop(cfg, nodes, feed, head, s, first, ticks) && first <= head
    requires Fresh(cfg, s.controller) && !Recovers(cfg, nodes)
    ensures Admits(nodes, Ceiling(cfg, s.controller)) && |ticks| >= head + 1 - first ==>
              Polled(cfg, s, first, ticks).next == head + 1
    ensures FirstRefused(cfg, nodes, s.controller, j) && |ticks| > cfg.batch.EffectiveStreak() * j ==>
              var left, covered := head + 1 - first, CoveredBefore(cfg, s.controller, j);
              Polled(cfg, s, first, ticks).next
              == if left <= covered || Admits(nodes, left - covered) then head + 1 else first + covered
  {
    hide CalmLoop, Polled, Admits, Level, Outgrows, Covered, Pow, Recovers, Ceiling, SizeAfter, FirstRefused;
    EveryBatchAdmittedIff(cfg, nodes, s.controller);
    CatchUpExactly(cfg, nodes, feed, head, s, first, ticks, 0);
    if FirstRefused(cfg, nodes, s.controller, j) {
      var n := RefusedFirst(cfg, nodes, s.controller, j);
      CatchUpExactly(cfg, nodes, feed, head, s, first, ticks, n);
    }
  }

  lemma RefusedFirst(cfg: Config, nodes: seq<Node>, c: Controller, j: nat) returns (n: nat)
    requires Fresh(cfg, c) && FirstRefused(cfg, nodes, c, j)
    ensures n <= cfg.batch.EffectiveStreak() * j && Outgrows(cfg, nodes, c, n)
    ensures Covered(cfg, c, n) == CoveredBefore(cfg, c, j)
  {
    if j == 0 {
      n := 0;
      assert Pow(2, 0) == 1;
    } else {
      hide Pow, Covered, Outgrows, FirstRefused;
      RefusedAfterStreaks(cfg, nodes, c, j);
      n := cfg.batch.EffectiveStreak() * j - c.successes;
      CoveredClosedForm(cfg, c, j);
    }
  }

  /** Such a doubling exists whenever no limit admits the ceiling. */
  lemma SomeRefused(cfg: Config, nodes: seq<Node>, c: Controller) returns (j: nat)
    requires Fresh(cfg, c) && !Admits(nodes, Ceiling(cfg, c))
    ensures FirstRefused(cfg, nodes, c, j)
  {
    hide Pow, Admits;
    if !Grows(cfg, c) {
      j := 0;
    } else {
      EnoughDoublings(c.size, cfg.batch.maxSize, cfg.batch.maxSize);
      j := cfg.batch.maxSize;
      while j > 0 && !Admits(nodes, Level(cfg, c, j - 1))
        invariant 0 <= j && !Admits(nodes, Level(cfg, c, j))
      {
        j := j - 1;
      }
    }
  }
}
