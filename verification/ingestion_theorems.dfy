/**
 Consequences of the ingestion invariants, stated over runs and over chains.
 */
module IngestionTheorems {
  import opened Arithmetic
  import opened Wrappers
  import opened Numerals
  import opened Parser
  import opened Chains
  import opened Repository
  import opened Ingestion
  import opened IngestionSafety

  // ------------------------------------------------------ checkpoint cache

  /** In every state a run reaches, the next start is told 0 or a recorded block that
      is not above the largest one, and no step lowers the largest one. Mixed bulk
      errors do not matter here. */
  lemma RestartPointRecorded(d: Deployment, feed: LawfulFeed, steps: seq<Step>, hasCache: bool,
        env: ReadEnv)
    requires CanRun(d, feed, Initial(), steps)
    ensures var s := Exec(d, feed, Initial(), steps);
            var answer := GetLast(s.repo, hasCache, env).1;
            && Coherent(s.repo)
            && (answer.Some? && answer.value > 0 ==> answer.value in s.repo.processed)
            && (answer.Some? ==> answer.value <= MaxProcessed(s.repo.processed))
  {
    RunKeepsInvariant(d, feed, steps);
    LastBlockRecorded(Exec(d, feed, Initial(), steps).repo, hasCache, env);
  }

  /** Where a start begins. A cache that answers decides alone, and a lost key sends the
      start back to the start block whatever the database has recorded. Only a cache that
      does not answer, or whose value cannot be read, lets the database decide; without
      either the process does not begin. */
  lemma WhereAStartBegins(cfg: Usable, s: State, env: ReadEnv)
    requires s.process.Down?
    ensures var at := Boots(cfg, s, env).process;
            var hit := CachedBlock(s.repo, cfg.hasCache, env);
            var last := if hit.Some? then hit.value else MaxProcessed(s.repo.processed);
            at == if cfg.resetStartBlock then Idle(cfg.startBlock)
                  else if hit.None? && !env.mongoAnswers then Down
                  else Idle(if last > 0 then last + 1 else cfg.startBlock)
    ensures var hit := CachedBlock(s.repo, cfg.hasCache, env);
            && (hit.Some? ==> cfg.hasCache && env.cacheAnswers)
            && (cfg.hasCache && env.cacheAnswers && s.repo.cell == None ==> hit == Some(0))
            && (forall b: nat :: cfg.hasCache && env.cacheAnswers && s.repo.cell == Some(Decimal(b)) ==>
                  hit == if b < WORD then Some(b) else None)
            && (forall v :: s.repo.cell == Some(v) && (v == [] || exists i :: 0 <= i < |v| && !IsDigit(v[i])) ==>
                  hit == None)
  {
    forall b: nat | s.repo.cell == Some(Decimal(b))
      ensures ReadCell(s.repo.cell) == if b < WORD then Some(b) else None
    {
      CellRoundTrip(b);
    }
  }

  /** Steps that leave the cache cell alone. */
  predicate LeavesCell(step: Step) {
    !step.Finish? && !step.FillLands? && !step.CacheLost?
  }

  lemma {:induction false} CellStays(d: Deployment, feed: LawfulFeed, steps: seq<Step>, n: nat)
    requires CanRun(d, feed, Initial(), steps) && n <= |steps|
    requires forall i :: n <= i < |steps| ==> LeavesCell(steps[i])
    ensures CanRun(d, feed, Initial(), steps[..n])
    ensures Exec(d, feed, Initial(), steps).repo.cell == Exec(d, feed, Initial(), steps[..n]).repo.cell
    decreases |steps|
  {
    hide Apply, Enabled;
    if n == |steps| {
      assert steps[..n] == steps;
    } else {
      var m := |steps| - 1;
      CellStays(d, feed, steps[..m], n);
      assert steps[..m][..n] == steps[..n];
      StepLeavesCell(d, feed, Exec(d, feed, Initial(), steps[..m]), steps[m]);
    }
  }

  lemma StepLeavesCell(d: Deployment, feed: LawfulFeed, s: State, step: Step)
    requires Enabled(d, feed, s, step) && LeavesCell(step)
    ensures Apply(d, feed, s, step).repo.cell == s.repo.cell
  {
  }

  /** Where a start with an answering cache resumes when the cell holds this block. */
  predicate ResumesAfter(at: Process, cfg: Config, block: nat) {
    at == Idle(if cfg.resetStartBlock || block == 0 then cfg.startBlock else block + 1)
  }

  /** Once a process with a cache has finished a range and the cache write has arrived, any
      later start whose cache answers resumes right after that range, until the cell is
      written again or lost. */
  lemma FinishIsResumed(d: Deployment, feed: LawfulFeed, steps: seq<Step>, n: nat, cfg: Usable, env: ReadEnv)
    requires CanRun(d, feed, Initial(), steps) && n < |steps| && steps[n] == Finish(true)
    requires forall i :: n < i < |steps| ==> LeavesCell(steps[i])
    requires d.Allows(cfg, feed) && cfg.hasCache && env.cacheAnswers
    ensures CanRun(d, feed, Initial(), steps[..n]) && Exec(d, feed, Initial(), steps[..n]).process.Recorded?
    ensures var before := Exec(d, feed, Initial(), steps[..n]);
            before.cfg.hasCache ==>
              ResumesAfter(Boots(cfg, Exec(d, feed, Initial(), steps), env).process, cfg, before.process.span.last)
  {
    CellStays(d, feed, steps, n + 1);
    LastStep(d, feed, steps, n);
    var before := Exec(d, feed, Initial(), steps[..n]);
    RunKeepsInvariant(d, feed, steps[..n]);
    CellRoundTrip(before.process.span.last);
  }

  /** So does the fill that a read of the database has started, once it lands. */
  lemma FillIsResumed(d: Deployment, feed: LawfulFeed, steps: seq<Step>, n: nat, b: nat, cfg: Usable, env: ReadEnv)
    requires CanRun(d, feed, Initial(), steps) && n < |steps| && steps[n] == FillLands(b)
    requires forall i :: n < i < |steps| ==> LeavesCell(steps[i])
    requires d.Allows(cfg, feed) && cfg.hasCache && env.cacheAnswers
    ensures ResumesAfter(Boots(cfg, Exec(d, feed, Initial(), steps), env).process, cfg, b)
  {
    CellStays(d, feed, steps, n + 1);
    LastStep(d, feed, steps, n);
    RunKeepsInvariant(d, feed, steps[..n]);
    CellRoundTrip(b);
  }

  lemma LastStep(d: Deployment, feed: LawfulFeed, steps: seq<Step>, n: nat)
    requires n < |steps| && CanRun(d, feed, Initial(), steps[..n + 1])
    ensures CanRun(d, feed, Initial(), steps[..n]) && Enabled(d, feed, Exec(d, feed, Initial(), steps[..n]), steps[n])
    ensures Exec(d, feed, Initial(), steps[..n + 1]) == Apply(d, feed, Exec(d, feed, Initial(), steps[..n]), steps[n])
  {
    assert steps[..n + 1][..n] == steps[..n];
  }

  /** Along a run nothing is taken back: no record disappears, the largest one never
      gets smaller, and a stored document stays as it is. */
  lemma {:induction false} NothingTakenBack(d: Deployment, feed: LawfulFeed, steps: seq<Step>, n: nat)
    requires CanRun(d, feed, Initial(), steps) && n <= |steps|
    ensures CanRun(d, feed, Initial(), steps[..n])
    ensures var before, after := Exec(d, feed, Initial(), steps[..n]).repo, Exec(d, feed, Initial(), steps).repo;
            && before.processed <= after.processed
            && MaxProcessed(before.processed) <= MaxProcessed(after.processed)
            && forall k :: k in before.transfers ==> k in after.transfers && after.transfers[k] == before.transfers[k]
    decreases |steps|
  {
    hide Apply, Enabled;
    if n == |steps| {
      assert steps[..n] == steps;
    } else {
      var m := |steps| - 1;
      NothingTakenBack(d, feed, steps[..m], n);
      assert steps[..m][..n] == steps[..n];
      StepTakesNothingBack(d, feed, Exec(d, feed, Initial(), steps[..m]), steps[m]);
      MaxNeverDecreases(Exec(d, feed, Initial(), steps[..n]).repo.processed,
                        Exec(d, feed, Initial(), steps).repo.processed);
    }
  }

  lemma StepTakesNothingBack(d: Deployment, feed: LawfulFeed, s: State, step: Step)
    requires Enabled(d, feed, s, step)
    ensures var after := Apply(d, feed, s, step).repo;
            && s.repo.processed <= after.processed
            && forall k :: k in s.repo.transfers ==> k in after.transfers && after.transfers[k] == s.repo.transfers[k]
  {
    if step.BulkDone? {
      BulkContents(s.repo.transfers, s.process.batch, step.outcome, |s.process.batch|);
    }
  }

  // ---------------------------------------------------- range conservation

  function BlocksIn(spans: seq<Span>): int {
    if spans == [] then 0
    else BlocksIn(spans[..|spans| - 1]) + (spans[|spans| - 1].last + 1 - spans[|spans| - 1].first)
  }

  lemma {:induction false} TilesConserve(start: nat, spans: seq<Span>, cursor: nat)
    requires Tiles(start, spans, cursor)
    ensures BlocksIn(spans) == cursor - start
    ensures forall i :: 0 <= i < |spans| ==> start <= spans[i].first <= spans[i].last < cursor
    ensures forall i, j :: 0 <= i < j < |spans| ==> spans[i].last < spans[j].first
    ensures forall i :: 0 <= i < |spans| - 1 ==> spans[i].last + 1 == spans[i + 1].first
    ensures spans != [] ==> spans[0].first == start && spans[|spans| - 1].last + 1 == cursor
    decreases |spans|
  {
    if spans != [] {
      var n := |spans| - 1;
      TilesConserve(start, spans[..n], spans[n].first);
      TilesGrow(start, spans[..n], spans[n].first);
      assert forall i :: 0 <= i < n ==> spans[..n][i] == spans[i];
    }
  }

  /** Within one process the finished batches are non-empty, adjacent and disjoint,
      their sizes and the blocks counter add up to the distance the cursor moved, and
      the cursor stays within one of the largest head seen, or where it started. */
  lemma RangesConserved(d: Deployment, feed: LawfulFeed, steps: seq<Step>)
    requires CanRun(d, feed, Initial(), steps)
    requires Cursor(Exec(d, feed, Initial(), steps).process).Some?
    ensures var s := Exec(d, feed, Initial(), steps);
            var cursor, spans := Cursor(s.process).value, s.life.spans;
            && BlocksIn(spans) == s.life.blocksProcessed == cursor - s.life.start
            && (forall i :: 0 <= i < |spans| ==> spans[i].first <= spans[i].last)
            && (forall i :: 0 <= i < |spans| - 1 ==> spans[i].last + 1 == spans[i + 1].first)
            && (forall i, j :: 0 <= i < j < |spans| ==> spans[i].last < spans[j].first)
            && (spans != [] ==> spans[0].first == s.life.start && spans[|spans| - 1].last + 1 == cursor)
            && (spans != [] ==> cursor <= s.life.headBound)
            && cursor <= Max(s.life.start, s.life.headBound)
  {
    RunKeepsInvariant(d, feed, steps);
    var s := Exec(d, feed, Initial(), steps);
    TilesConserve(s.life.start, s.life.spans, Cursor(s.process).value);
  }

  // ------------------------------------------------------------ publication

  /** With streaming on, every transfer from the start block up to any recorded
      checkpoint has been handed to Publish, in this process or an earlier one. */
  lemma PublishedBeforeCheckpoint(d: Deployment, feed: LawfulFeed, steps: seq<Step>, b: nat)
    requires CanRun(d, feed, Initial(), steps) && d.alwaysStreams
    requires b in Exec(d, feed, Initial(), steps).repo.processed
    ensures forall t :: t in feed.range(d.startBlock, b + 1) ==> t in Exec(d, feed, Initial(), steps).published
  {
    RunKeepsInvariant(d, feed, steps);
  }

  /** Whatever other processes did, a process that streams has handed over a batch's own
      transfers before it can record the batch's checkpoint. */
  lemma BatchPublishedFirst(d: Deployment, feed: LawfulFeed, steps: seq<Step>, w: WriteOutcome, t: Transfer)
    requires CanRun(d, feed, Initial(), steps) && Exec(d, feed, Initial(), steps).cfg.streaming
    requires Enabled(d, feed, Exec(d, feed, Initial(), steps), Checkpoint(w))
    requires var span := Exec(d, feed, Initial(), steps).process.span; t in feed.range(span.first, span.last + 1)
    ensures t in Exec(d, feed, Initial(), steps).published
  {
    RunKeepsInvariant(d, feed, steps);
  }

  // ------------------------------------------------------- over real chains

  lemma ParsedInFeed(chain: GoodChain, lo: nat, hi: nat, h: int, i: int)
    requires HasLog(chain, h, i) && lo <= h < hi && Parseable(chain[h].logs[i])
    ensures ParseTransferLog(chain[h].logs[i], chain[h].timestamp).value in FeedOf(chain).range(lo, hi)
  {
    DenotedIncluded(chain, lo, Reach(chain, hi), h, i, ParseTransferLog(chain[h].logs[i], chain[h].timestamp).value);
  }

  /** No-gap safety in terms of logs: after any run over a chain, the document of every
      parseable log from the start block up to a checkpoint is stored, with the
      timestamp of its own block. */
  lemma NoLogIsMissing(d: Deployment, chain: GoodChain, steps: seq<Step>, b: nat, h: int, i: int)
    requires CanRun(d, FeedOf(chain), Initial(), steps) && Unmixed(steps)
    requires b in Exec(d, FeedOf(chain), Initial(), steps).repo.processed
    requires HasLog(chain, h, i) && d.startBlock <= h <= b && Parseable(chain[h].logs[i])
    ensures HasDocument(Exec(d, FeedOf(chain), Initial(), steps).repo.transfers,
                        ParseTransferLog(chain[h].logs[i], chain[h].timestamp).value)
  {
    ParsedInFeed(chain, d.startBlock, b + 1, h, i);
    CheckpointComplete(d, FeedOf(chain), steps, b, ParseTransferLog(chain[h].logs[i], chain[h].timestamp).value);
  }

  ghost predicate HasDocument(store: Store, t: Transfer) {
    KeyOf(t) in store && store[KeyOf(t)] == t
  }

  lemma CheckpointComplete(d: Deployment, feed: LawfulFeed, steps: seq<Step>, b: nat, t: Transfer)
    requires CanRun(d, feed, Initial(), steps) && Unmixed(steps)
    requires b in Exec(d, feed, Initial(), steps).repo.processed && t in feed.range(d.startBlock, b + 1)
    ensures HasDocument(Exec(d, feed, Initial(), steps).repo.transfers, t)
  {
    hide Exec, CanRun;
    NoGap(d, feed, steps);
  }

  // -------------------------------------------------- the run that loses logs

  lemma Extended(d: Deployment, feed: LawfulFeed, steps: seq<Step>, step: Step) returns (longer: seq<Step>)
    requires CanRun(d, feed, Initial(), steps)
    requires Enabled(d, feed, Exec(d, feed, Initial(), steps), step)
    ensures longer == steps + [step] && CanRun(d, feed, Initial(), longer)
    ensures Exec(d, feed, Initial(), longer) == Apply(d, feed, Exec(d, feed, Initial(), steps), step)
  {
    longer := steps + [step];
    assert longer[..|longer| - 1] == steps;
  }

  /** A run of one process with these settings. */
  ghost predicate RunsTo(d: Deployment, cfg: Usable, feed: LawfulFeed, steps: seq<Step>, at: State) {
    CanRun(d, feed, Initial(), steps) && Exec(d, feed, Initial(), steps) == at && at.cfg == cfg && d.Allows(cfg, feed)
  }

  lemma OneMore(d: Deployment, cfg: Usable, feed: LawfulFeed, steps: seq<Step>, at: State, step: Step)
    returns (longer: seq<Step>, after: State)
    requires RunsTo(d, cfg, feed, steps, at) && Enabled(d, feed, at, step) && !step.Boot?
    ensures longer == steps + [step] && after == Apply(d, feed, at, step) && RunsTo(d, cfg, feed, longer, after)
  {
    longer := Extended(d, feed, steps, step);
    after := Apply(d, feed, at, step);
  }

  function FirstBatch(d: Deployment, feed: LawfulFeed): seq<Transfer> {
    feed.range(d.startBlock, d.startBlock + 1)
  }

  /** From an idle process at the start block to its first block fetched. */
  lemma FetchFirstBlock(d: Deployment, cfg: Usable, feed: LawfulFeed, steps: seq<Step>, at: State)
    returns (longer: seq<Step>, after: State)
    requires RunsTo(d, cfg, feed, steps, at) && d.startBlock < feed.height
    requires at.process == Idle(d.startBlock) && at.life.controller.size <= cfg.SizeBound()
    ensures RunsTo(d, cfg, feed, longer, after) && steps <= longer
    ensures after.repo == at.repo && after.life.controller == at.life.controller
    ensures after.process == Fetched(Span(d.startBlock, d.startBlock), FirstBatch(d, feed))
  {
    hide RunsTo;
    AllowedRun(d, cfg, feed, steps, at);
    ToBlockInRange(d.startBlock, BatchSize(cfg, at.life.controller), d.startBlock);
    longer, after := OneMore(d, cfg, feed, steps, at, HeadRead(d.startBlock));
    longer, after := OneMore(d, cfg, feed, longer, after, FetchDone);
  }

  lemma AllowedRun(d: Deployment, cfg: Usable, feed: LawfulFeed, steps: seq<Step>, at: State)
    requires RunsTo(d, cfg, feed, steps, at)
    ensures d.Allows(cfg, feed) && at.cfg == cfg
  {
  }

  function FirstOnly(n: nat): BulkOutcome {
    Lost(seq(n, i => i == 0))
  }

  lemma {:induction false} FirstOnlyStores(store: Store, ts: seq<Transfer>, n: nat)
    requires 1 <= n <= |ts| && store == map[]
    ensures ApplyBulk(store, ts, FirstOnly(|ts|), n) == map[KeyOf(ts[0]) := ts[0]]
  {
    if n == 1 {
      assert ApplyBulk(store, ts, FirstOnly(|ts|), 0) == store;
    } else {
      FirstOnlyStores(store, ts, n - 1);
    }
  }

  lemma BootsAtStart(d: Deployment, cfg: Usable, feed: LawfulFeed) returns (steps: seq<Step>, at: State)
    requires d.Allows(cfg, feed)
    ensures RunsTo(d, cfg, feed, steps, at) && at.process == Idle(d.startBlock) && at.repo.transfers == map[]
    ensures at.life.controller.size <= cfg.SizeBound()
  {
    steps := Extended(d, feed, [], Boot(cfg, ReadEnv(true, true)));
    at := Exec(d, feed, Initial(), steps);
  }

  /** Boot, fetch the first block and lose the connection after its first document. */
  lemma PartialInsert(d: Deployment, cfg: Usable, feed: LawfulFeed) returns (steps: seq<Step>, at: State)
    requires d.Allows(cfg, feed) && d.startBlock < feed.height && |FirstBatch(d, feed)| >= 2
    ensures RunsTo(d, cfg, feed, steps, at) && at.process == Idle(d.startBlock)
    ensures at.repo.transfers == map[KeyOf(FirstBatch(d, feed)[0]) := FirstBatch(d, feed)[0]]
    ensures at.life.controller.size <= cfg.SizeBound()
  {
    hide RunsTo;
    var batch := FirstBatch(d, feed);
    steps, at := BootsAtStart(d, cfg, feed);
    steps, at := FetchFirstBlock(d, cfg, feed, steps, at);
    AllowedRun(d, cfg, feed, steps, at);
    FirstOnlyStores(map[], batch, |batch|);
    SizeStaysBounded(cfg, at.life, false);
    steps, at := OneMore(d, cfg, feed, steps, at, BulkDone(FirstOnly(|batch|)));
  }

  /** What a process that streams does next: it hands over the whole batch. */
  lemma {:induction false} HandsOver(d: Deployment, cfg: Usable, feed: LawfulFeed, steps: seq<Step>, at: State, n: nat)
    returns (longer: seq<Step>, after: State)
    requires RunsTo(d, cfg, feed, steps, at) && at.process.Stored? && at.process.sent == 0
    requires n <= |at.process.batch| && (cfg.streaming || n == 0)
    ensures RunsTo(d, cfg, feed, longer, after) && steps <= longer
    ensures after.repo == at.repo && after.process == at.process.(sent := n)
  {
    hide RunsTo;
    AllowedRun(d, cfg, feed, steps, at);
    if n == 0 {
      longer, after := steps, at;
    } else {
      longer, after := HandsOver(d, cfg, feed, steps, at, n - 1);
      AllowedRun(d, cfg, feed, longer, after);
      longer, after := OneMore(d, cfg, feed, longer, after, PublishNext);
    }
  }

  /** Where a mixed bulk error leads: whatever the settings, over any chain whose first
      block holds two transfers, a run checkpoints that block although one of them is
      not stored. */
  lemma MixedErrorLosesLogs(d: Deployment, cfg: Usable, feed: LawfulFeed) returns (steps: seq<Step>)
    requires d.Allows(cfg, feed) && d.startBlock < feed.height && |FirstBatch(d, feed)| >= 2
    ensures CanRun(d, feed, Initial(), steps) && !Unmixed(steps)
    ensures var s := Exec(d, feed, Initial(), steps);
            && s.cfg == cfg && d.startBlock in s.repo.processed
            && !StoredBelow(d, feed, s.repo.transfers, d.startBlock + 1)
  {
    var at: State;
    steps, at := PartialInsert(d, cfg, feed);
    steps, at := FetchFirstBlock(d, cfg, feed, steps, at);
    steps, at := LosesOne(d, cfg, feed, steps, at);
  }

  lemma LosesOne(d: Deployment, cfg: Usable, feed: LawfulFeed, steps: seq<Step>, at: State)
    returns (longer: seq<Step>, after: State)
    requires RunsTo(d, cfg, feed, steps, at) && |FirstBatch(d, feed)| >= 2
    requires at.process == Fetched(Span(d.startBlock, d.startBlock), FirstBatch(d, feed))
    requires at.repo.transfers == map[KeyOf(FirstBatch(d, feed)[0]) := FirstBatch(d, feed)[0]]
    ensures RunsTo(d, cfg, feed, longer, after) && !Unmixed(longer)
    ensures d.startBlock in after.repo.processed && !StoredBelow(d, feed, after.repo.transfers, d.startBlock + 1)
  {
    hide RunsTo;
    AllowedRun(d, cfg, feed, steps, at);
    var batch, store := FirstBatch(d, feed), at.repo.transfers;
    RangeKeysDistinct(feed, d.startBlock, d.startBlock + 1);
    assert KeyOf(batch[0]) in store && KeyOf(batch[1]) !in store;
    var o := HiddenFailure(store, batch);
    longer, after := OneMore(d, cfg, feed, steps, at, BulkDone(o));
    ghost var mixedAt := |longer| - 1;
    longer, after := HandsOver(d, cfg, feed, longer, after, if cfg.streaming then |batch| else 0);
    AllowedRun(d, cfg, feed, longer, after);
    longer, after := OneMore(d, cfg, feed, longer, after, Checkpoint(Done));
    assert longer[mixedAt] == BulkDone(o);
    assert batch[1] in feed.range(d.startBlock, d.startBlock + 1);
  }
}
