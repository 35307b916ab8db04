/**
 The program refines the protocol: whatever the world answers, every tick of the
 service is a run of the transition system, so what is proved of all runs holds of the
 objects.
 */
module IngestionRefinement {
  import opened Parser
  import opened Chains
  import opened Repository
  import opened BatchController
  import opened Ingestion
  import opened IngestionSafety
  import opened IngestionTheorems
  import opened IngestionServices

  /** The node reports heads the chain has reached, and a fetch that succeeds returns
      the chain's transfers of the range. */
  ghost predicate Honest(feed: LawfulFeed, tick: Tick) {
    && (tick.head.Some? ==> tick.head.value < feed.height)
    && forall a: nat, b: nat :: tick.fetch(a, b).Some? ==> tick.fetch(a, b).value == feed.range(a, b + 1)
  }

  /** The protocol state shows what the service holds; `earlier` is what processes before
      this one have published. */
  ghost predicate Shows(cfg: Usable, earlier: set<Transfer>, s: Service, at: State) {
    && at.cfg == cfg && at.repo == s.repo && at.life.controller == s.controller
    && forall t :: t in at.published <==> t in earlier || t in s.published
  }

  /** A run that ends with the service here and the process in this state. */
  ghost predicate LeadsTo(d: Deployment, cfg: Usable, feed: LawfulFeed, steps: seq<Step>, earlier: set<Transfer>,
        s: Service, p: Process) {
    && CanRun(d, feed, Initial(), steps)
    && Shows(cfg, earlier, s, Exec(d, feed, Initial(), steps))
    && Exec(d, feed, Initial(), steps).process == p
  }

  lemma Take(d: Deployment, cfg: Usable, feed: LawfulFeed, steps: seq<Step>, earlier: set<Transfer>, s: Service,
        p: Process, step: Step, s': Service, p': Process)
    requires LeadsTo(d, cfg, feed, steps, earlier, s, p)
    requires forall at: State :: Shows(cfg, earlier, s, at) && at.process == p ==>
               && Enabled(d, feed, at, step)
               && Shows(cfg, earlier, s', Apply(d, feed, at, step)) && Apply(d, feed, at, step).process == p'
    ensures LeadsTo(d, cfg, feed, steps + [step], earlier, s', p')
  {
    var longer := Extended(d, feed, steps, step);
  }

  /** Reading a head that is past the cursor. */
  lemma Asks(d: Deployment, cfg: Usable, feed: LawfulFeed, steps: seq<Step>, earlier: set<Transfer>,
        s: Service, first: nat, tick: Tick)
    returns (longer: seq<Step>)
    requires LeadsTo(d, cfg, feed, steps, earlier, s, Idle(first)) && Honest(feed, tick)
    requires Asked(cfg, s, first, tick).Some?
    ensures longer == steps + [HeadRead(tick.head.value)]
    ensures LeadsTo(d, cfg, feed, longer, earlier, s, Ranged(Asked(cfg, s, first, tick).value))
  {
    hide LeadsTo;
    longer := steps + [HeadRead(tick.head.value)];
    Take(d, cfg, feed, steps, earlier, s, Idle(first), HeadRead(tick.head.value),
         s, Ranged(Asked(cfg, s, first, tick).value));
  }

  function Publications(n: nat): seq<Step> {
    if n == 0 then [] else Publications(n - 1) + [PublishNext]
  }

  lemma {:induction false} Publishes(d: Deployment, cfg: Usable, feed: LawfulFeed, steps: seq<Step>,
        earlier: set<Transfer>, s: Service, span: Span, batch: seq<Transfer>, n: nat)
    requires LeadsTo(d, cfg, feed, steps, earlier, s, Stored(span, batch, 0)) && cfg.streaming && n <= |batch|
    ensures LeadsTo(d, cfg, feed, steps + Publications(n), earlier,
                   s.(published := s.published + batch[..n]), Stored(span, batch, n))
  {
    hide LeadsTo;
    if n == 0 {
      assert steps + Publications(0) == steps && s.published + batch[..0] == s.published;
    } else {
      Publishes(d, cfg, feed, steps, earlier, s, span, batch, n - 1);
      var before := s.(published := s.published + batch[..n - 1]);
      Take(d, cfg, feed, steps + Publications(n - 1), earlier, before, Stored(span, batch, n - 1), PublishNext,
           s.(published := s.published + batch[..n]), Stored(span, batch, n));
      assert steps + Publications(n - 1) + [PublishNext] == steps + Publications(n);
    }
  }

  predicate NoBulk(steps: seq<Step>, from: nat) {
    forall i :: from <= i < |steps| ==> !steps[i].BulkDone?
  }

  /** The checkpoint write, successful or not. */
  lemma RecordTaken(d: Deployment, cfg: Usable, feed: LawfulFeed, steps: seq<Step>, earlier: set<Transfer>, s: Service,
        p: Process, w: WriteOutcome)
    requires LeadsTo(d, cfg, feed, steps, earlier, s, p)
    requires (p.Fetched? && p.batch == []) || (p.Stored? && (cfg.streaming ==> p.sent == |p.batch|))
    ensures LeadsTo(d, cfg, feed, steps + [Checkpoint(w)], earlier, s.(repo := RecordBlock(s.repo, p.span.last, w)),
                   if w.Done? then Recorded(p.span) else Idle(p.span.first))
  {
    hide LeadsTo;
    Take(d, cfg, feed, steps, earlier, s, p, Checkpoint(w), s.(repo := RecordBlock(s.repo, p.span.last, w)),
         if w.Done? then Recorded(p.span) else Idle(p.span.first));
  }

  lemma FinishTaken(d: Deployment, cfg: Usable, feed: LawfulFeed, steps: seq<Step>, earlier: set<Transfer>, s: Service,
        span: Span, cacheApplied: bool)
    requires LeadsTo(d, cfg, feed, steps, earlier, s, Recorded(span))
    ensures LeadsTo(d, cfg, feed, steps + [Finish(cacheApplied)], earlier,
                   s.(repo := WriteCell(s.repo, span.last, cfg.hasCache && cacheApplied),
                      controller := Adapt(cfg, s.controller, true)),
                   Idle(span.last + 1))
  {
    hide LeadsTo, Record, WriteCell;
    Take(d, cfg, feed, steps, earlier, s, Recorded(span), Finish(cacheApplied),
         s.(repo := WriteCell(s.repo, span.last, cfg.hasCache && cacheApplied),
            controller := Adapt(cfg, s.controller, true)),
         Idle(span.last + 1));
  }

  lemma Checkpoints(d: Deployment, cfg: Usable, feed: LawfulFeed, steps: seq<Step>, earlier: set<Transfer>, s: Service,
        p: Process, tick: Tick)
    returns (longer: seq<Step>)
    requires LeadsTo(d, cfg, feed, steps, earlier, s, p)
    requires (p.Fetched? && p.batch == []) || (p.Stored? && (cfg.streaming ==> p.sent == |p.batch|))
    ensures var done := Checkpointed(cfg, s, p.span, tick);
            LeadsTo(d, cfg, feed, longer, earlier, done.service, Idle(done.next))
    ensures steps <= longer && NoBulk(longer, |steps|)
  {
    hide LeadsTo, Adapt, WriteCell;
    RecordTaken(d, cfg, feed, steps, earlier, s, p, tick.write);
    longer := steps + [Checkpoint(tick.write)];
    if tick.write.Done? {
      var recorded := s.(repo := RecordBlock(s.repo, p.span.last, tick.write));
      FinishTaken(d, cfg, feed, longer, earlier, recorded, p.span, tick.cacheApplied);
      longer := longer + [Finish(tick.cacheApplied)];
    }
  }

  /** From the fetched batch to the end of the tick. */
  lemma Stores(d: Deployment, cfg: Usable, feed: LawfulFeed, steps: seq<Step>, earlier: set<Transfer>,
        s: Service, span: Span, tick: Tick, batch: seq<Transfer>)
    returns (longer: seq<Step>)
    requires LeadsTo(d, cfg, feed, steps, earlier, s, Fetched(span, batch))
    requires batch != [] && Admissible(s.repo.transfers, batch, tick.bulk)
    ensures steps <= longer && |steps| < |longer| && longer[|steps|] == BulkDone(tick.bulk)
    ensures NoBulk(longer, |steps| + 1)
    ensures var repo := s.repo.(transfers := ApplyBulk(s.repo.transfers, batch, tick.bulk, |batch|));
            if ReportsSuccess(tick.bulk) then
              var published := if cfg.streaming then s.published + batch else s.published;
              var done := Checkpointed(cfg, s.(repo := repo, published := published), span, tick);
              LeadsTo(d, cfg, feed, longer, earlier, done.service, Idle(done.next))
            else
              LeadsTo(d, cfg, feed, longer, earlier,
                     s.(repo := repo, controller := Adapt(cfg, s.controller, false)), Idle(span.first))
  {
    hide LeadsTo, ApplyBulk, Checkpointed, ReportsSuccess;
    var repo := s.repo.(transfers := ApplyBulk(s.repo.transfers, batch, tick.bulk, |batch|));
    longer := steps + [BulkDone(tick.bulk)];
    if ReportsSuccess(tick.bulk) {
      var stored := s.(repo := repo);
      Take(d, cfg, feed, steps, earlier, s, Fetched(span, batch), BulkDone(tick.bulk), stored, Stored(span, batch, 0));
      var sent := if cfg.streaming then |batch| else 0;
      if cfg.streaming {
        Publishes(d, cfg, feed, longer, earlier, stored, span, batch, |batch|);
        PublicationsOnly(|batch|);
        longer := longer + Publications(|batch|);
        assert batch[..|batch|] == batch;
        stored := stored.(published := s.published + batch);
      }
      longer := Checkpoints(d, cfg, feed, longer, earlier, stored, Stored(span, batch, sent), tick);
    } else {
      Take(d, cfg, feed, steps, earlier, s, Fetched(span, batch), BulkDone(tick.bulk),
           s.(repo := repo, controller := Adapt(cfg, s.controller, false)), Idle(span.first));
    }
  }

  lemma {:induction false} PublicationsOnly(n: nat)
    ensures forall i :: 0 <= i < |Publications(n)| ==> Publications(n)[i] == PublishNext
  {
    if n > 0 {
      PublicationsOnly(n - 1);
    }
  }

  /** Every tick is a run: from wherever a run has brought an idle process, the service's
      tick leads where a longer run does, and it has no mixed bulk error if the tick has
      none. */
  lemma TickIsRun(d: Deployment, cfg: Usable, feed: LawfulFeed, steps: seq<Step>, earlier: set<Transfer>, s: Service,
        first: nat, tick: Tick)
    returns (longer: seq<Step>)
    requires LeadsTo(d, cfg, feed, steps, earlier, s, Idle(first))
    requires Honest(feed, tick) && Possible(cfg, s, first, tick)
    ensures var done := Pass(cfg, s, first, tick);
            LeadsTo(d, cfg, feed, longer, earlier, done.service, Idle(done.next))
    ensures steps <= longer && (Unmixed(steps) && !Mixed(tick.bulk) ==> Unmixed(longer))
  {
    hide LeadsTo, Checkpointed, Record, ApplyBulk, Admissible;
    var asked := Asked(cfg, s, first, tick);
    if asked.None? {
      var step := if tick.head.None? then HeadFails else HeadRead(tick.head.value);
      Take(d, cfg, feed, steps, earlier, s, Idle(first), step, s, Idle(first));
      longer := steps + [step];
    } else {
      longer := Asks(d, cfg, feed, steps, earlier, s, first, tick);
      var span := asked.value;
      match tick.fetch(span.first, span.last) {
        case None =>
          Take(d, cfg, feed, longer, earlier, s, Ranged(span), FetchFails,
               s.(controller := Adapt(cfg, s.controller, false)), Idle(first));
          longer := longer + [FetchFails];
        case Some(batch) =>
          Take(d, cfg, feed, longer, earlier, s, Ranged(span), FetchDone, s, Fetched(span, batch));
          longer := longer + [FetchDone];
          if batch == [] {
            longer := Checkpoints(d, cfg, feed, longer, earlier, s, Fetched(span, batch), tick);
          } else {
            longer := Stores(d, cfg, feed, longer, earlier, s, span, tick, batch);
          }
      }
    }
  }

  /** So is the whole polling loop. */
  lemma {:induction false} PollIsRun(d: Deployment, cfg: Usable, feed: LawfulFeed, steps: seq<Step>,
        earlier: set<Transfer>, s: Service, first: nat, ticks: seq<Tick>)
    returns (longer: seq<Step>)
    requires LeadsTo(d, cfg, feed, steps, earlier, s, Idle(first))
    requires AllPossible(cfg, s, first, ticks) && forall tick :: tick in ticks ==> Honest(feed, tick)
    ensures var done := Polled(cfg, s, first, ticks);
            LeadsTo(d, cfg, feed, longer, earlier, done.service, Idle(done.next))
    ensures steps <= longer
    ensures Unmixed(steps) && (forall tick :: tick in ticks ==> !Mixed(tick.bulk)) ==> Unmixed(longer)
    decreases |ticks|
  {
    hide LeadsTo, Honest, Pass, Possible;
    if ticks == [] {
      longer := steps;
    } else {
      var n := |ticks| - 1;
      var before := Polled(cfg, s, first, ticks[..n]);
      longer := PollIsRun(d, cfg, feed, steps, earlier, s, first, ticks[..n]);
      longer := TickIsRun(d, cfg, feed, longer, earlier, before.service, before.next, ticks[n]);
    }
  }

  /** A start of the service over whatever earlier processes, failures and crashes have
      left: None from Started is a process that never ran. */
  lemma StartIsRun(d: Deployment, cfg: Usable, feed: LawfulFeed, steps: seq<Step>, repo: Repo, env: ReadEnv,
        ticks: seq<Tick>)
    returns (longer: seq<Step>)
    requires CanRun(d, feed, Initial(), steps)
    requires d.Allows(cfg, feed)
    requires Exec(d, feed, Initial(), steps).process.Down? && Exec(d, feed, Initial(), steps).repo == repo
    requires var (s, first) := Started(cfg, Service(Controller(cfg.InitialSize(), 0, 0), repo, []), env);
             first.Some? && AllPossible(cfg, s, first.value, ticks)
    requires forall tick :: tick in ticks ==> Honest(feed, tick)
    ensures steps <= longer
    ensures var (s, first) := Started(cfg, Service(Controller(cfg.InitialSize(), 0, 0), repo, []), env);
            var done := Polled(cfg, s, first.value, ticks);
            LeadsTo(d, cfg, feed, longer, Exec(d, feed, Initial(), steps).published, done.service, Idle(done.next))
    ensures Unmixed(steps) && (forall tick :: tick in ticks ==> !Mixed(tick.bulk)) ==> Unmixed(longer)
  {
    hide Polled, AllPossible;
    var (s, first) := Started(cfg, Service(Controller(cfg.InitialSize(), 0, 0), repo, []), env);
    longer := Extended(d, feed, steps, Boot(cfg, env));
    longer := PollIsRun(d, cfg, feed, longer, Exec(d, feed, Initial(), steps).published, s, first.value, ticks);
  }

  /** Below each checkpoint and the cursor a run's store is one clean pass. */
  lemma CleanAtEnd(d: Deployment, feed: LawfulFeed, steps: seq<Step>)
    requires CanRun(d, feed, Initial(), steps) && Unmixed(steps)
    ensures var s := Exec(d, feed, Initial(), steps);
            && (Cursor(s.process).Some? && Cursor(s.process).value <= feed.height ==>
                  Below(s.repo.transfers, Cursor(s.process).value) == CleanPass(d, feed, Cursor(s.process).value))
            && (forall b :: b in s.repo.processed ==>
                  Below(s.repo.transfers, b + 1) == CleanPass(d, feed, b + 1))
  {
    hide CanRun, Exec, Unmixed, Below, CleanPass;
    var s := Exec(d, feed, Initial(), steps);
    if Cursor(s.process).Some? && Cursor(s.process).value <= feed.height {
      RunIsCleanPass(d, feed, steps, Cursor(s.process).value);
    }
    forall b | b in s.repo.processed
      ensures Below(s.repo.transfers, b + 1) == CleanPass(d, feed, b + 1)
    {
      RecordedBelowHeight(d, feed, steps, b);
      RunIsCleanPass(d, feed, steps, b + 1);
    }
  }

  lemma RecordedBelowHeight(d: Deployment, feed: LawfulFeed, steps: seq<Step>, b: nat)
    requires CanRun(d, feed, Initial(), steps) && b in Exec(d, feed, Initial(), steps).repo.processed
    ensures b < feed.height
  {
    hide CanRun, Exec;
    RunKeepsInvariant(d, feed, steps);
  }

  /** No-gap safety of the program: however it was started and whatever has happened
      before and during its ticks, every transfer from the start block up to any recorded
      checkpoint, and below the block it would ask for next, is in the collection, and what
      the collection holds there is exactly one clean pass. */
  lemma ServiceLeavesNoGap(d: Deployment, cfg: Usable, feed: LawfulFeed, steps: seq<Step>, repo: Repo,
        env: ReadEnv, ticks: seq<Tick>)
    requires CanRun(d, feed, Initial(), steps) && Unmixed(steps)
    requires d.Allows(cfg, feed)
    requires Exec(d, feed, Initial(), steps).process.Down? && Exec(d, feed, Initial(), steps).repo == repo
    requires var (s, first) := Started(cfg, Service(Controller(cfg.InitialSize(), 0, 0), repo, []), env);
             first.Some? && AllPossible(cfg, s, first.value, ticks)
    requires forall tick :: tick in ticks ==> Honest(feed, tick) && !Mixed(tick.bulk)
    ensures var (s, first) := Started(cfg, Service(Controller(cfg.InitialSize(), 0, 0), repo, []), env);
            var done := Polled(cfg, s, first.value, ticks);
            && StoredBelow(d, feed, done.service.repo.transfers, done.next)
            && (forall b :: b in done.service.repo.processed ==>
                  StoredBelow(d, feed, done.service.repo.transfers, b + 1))
            && (done.next <= feed.height ==>
                  Below(done.service.repo.transfers, done.next) == CleanPass(d, feed, done.next))
            && (forall b :: b in done.service.repo.processed ==>
                  Below(done.service.repo.transfers, b + 1) == CleanPass(d, feed, b + 1))
            && (d.alwaysStreams ==> forall t :: t in feed.range(d.startBlock, done.next) ==>
                  t in done.service.published || t in Exec(d, feed, Initial(), steps).published)
  {
    var longer := StartIsRun(d, cfg, feed, steps, repo, env, ticks);
    RunKeepsInvariant(d, feed, longer);
    RunKeepsNoGap(d, feed, longer);
    CleanAtEnd(d, feed, longer);
  }
}
