/**
 What every run of the ingestion protocol keeps: coherence of the checkpoint cache,
 tiling of the processed ranges, publication before the checkpoint, and no gap below
 the checkpoint.
 */
module IngestionSafety {
  import opened Arithmetic
  import opened Wrappers
  import opened Parser
  import opened Chains
  import opened Repository
  import opened BatchController
  import opened Ingestion

  // ------------------------------------------------------------ the invariant

  /** Every stored document is the chain's document for its key. */
  ghost predicate Genuine(d: Deployment, feed: LawfulFeed, store: Store) {
    forall k :: k in store ==> KeyOf(store[k]) == k && store[k] in feed.range(d.startBlock, feed.height)
  }

  ghost predicate PublishedBelow(d: Deployment, feed: LawfulFeed, published: set<Transfer>, hi: nat) {
    d.alwaysStreams ==> forall t :: t in feed.range(d.startBlock, hi) ==> t in published
  }

  ghost predicate StoredBelow(d: Deployment, feed: LawfulFeed, store: Store, hi: nat) {
    forall t :: t in feed.range(d.startBlock, hi) ==> KeyOf(t) in store
  }

  /** The cursor a process works from: Idle's, or the first block of its range. */
  function Cursor(p: Process): Option<nat> {
    match p
    case Down => None
    case Idle(cursor) => Some(cursor)
    case Ranged(span) => Some(span.first)
    case Fetched(span, _) => Some(span.first)
    case Stored(span, _, _) => Some(span.first)
    case Recorded(span) => Some(span.first)
  }

  function Working(p: Process): Option<Span> {
    match p
    case Down => None
    case Idle(_) => None
    case Ranged(span) => Some(span)
    case Fetched(span, _) => Some(span)
    case Stored(span, _, _) => Some(span)
    case Recorded(span) => Some(span)
  }

  /** The finished ranges, in order: non-empty, adjacent, from start up to the cursor. */
  ghost predicate Tiles(start: nat, spans: seq<Span>, cursor: nat)
    decreases |spans|
  {
    if spans == [] then cursor == start
    else
      var n := |spans| - 1;
      spans[n].first <= spans[n].last && spans[n].last + 1 == cursor && Tiles(start, spans[..n], spans[n].first)
  }

  ghost predicate RecordsInvariant(d: Deployment, feed: LawfulFeed, s: State) {
    && Coherent(s.repo)
    && forall b :: b in s.repo.processed ==>
         d.startBlock <= b < feed.height && PublishedBelow(d, feed, s.published, b + 1)
  }

  ghost predicate LifeInvariant(d: Deployment, feed: LawfulFeed, s: State) {
    Cursor(s.process).Some? ==>
      var cursor := Cursor(s.process).value;
      && d.startBlock <= s.life.start
      && s.life.headBound <= feed.height
      && Tiles(s.life.start, s.life.spans, cursor)
      && s.life.blocksProcessed == cursor - s.life.start
      && cursor <= Max(s.life.start, s.life.headBound)
      && d.Allows(s.cfg, feed) && s.life.controller.size <= s.cfg.SizeBound()
      && PublishedBelow(d, feed, s.published, cursor)
      && (Working(s.process).Some? ==> cursor <= Working(s.process).value.last < s.life.headBound)
  }

  ghost predicate BatchInvariant(d: Deployment, feed: LawfulFeed, s: State) {
    match s.process
    case Fetched(span, batch) => batch == feed.range(span.first, span.last + 1)
    case Stored(span, batch, sent) =>
      && batch == feed.range(span.first, span.last + 1)
      && sent <= |batch|
      && forall i :: 0 <= i < sent ==> batch[i] in s.published
    case Recorded(span) =>
      && span.last in s.repo.processed
      && PublishedBelow(d, feed, s.published, span.last + 1)
    case _ => true
  }

  ghost predicate Invariant(d: Deployment, feed: LawfulFeed, s: State) {
    && RecordsInvariant(d, feed, s)
    && LifeInvariant(d, feed, s)
    && BatchInvariant(d, feed, s)
    && Genuine(d, feed, s.repo.transfers)
  }

  /** No gap: whatever lies below a checkpoint or below the cursor is stored, and so is
      the range of a process that has passed its insert. */
  ghost predicate NoGapInvariant(d: Deployment, feed: LawfulFeed, s: State) {
    && (forall b :: b in s.repo.processed ==> StoredBelow(d, feed, s.repo.transfers, b + 1))
    && (Cursor(s.process).Some? ==> StoredBelow(d, feed, s.repo.transfers, Cursor(s.process).value))
    && (s.process.Stored? || s.process.Recorded? ==>
          StoredBelow(d, feed, s.repo.transfers, s.process.span.last + 1))
  }

  // ----------------------------------------------------- single-step lemmas

  lemma Extend(d: Deployment, feed: LawfulFeed, first: nat, last: nat, t: Transfer)
    requires d.startBlock <= first <= last
    requires t in feed.range(d.startBlock, last + 1)
    ensures t in feed.range(d.startBlock, first) || t in feed.range(first, last + 1)
  {
    InSubrange(feed, d.startBlock, last + 1, d.startBlock, last + 1, t);
    InSubrange(feed, d.startBlock, last + 1, d.startBlock, first, t);
    InSubrange(feed, d.startBlock, last + 1, first, last + 1, t);
  }

  lemma PublishedExtends(d: Deployment, feed: LawfulFeed, s: State)
    requires Invariant(d, feed, s)
    requires s.process.Stored? || s.process.Fetched?
    requires s.process.Fetched? ==> s.process.batch == []
    requires s.process.Stored? && s.cfg.streaming ==> s.process.sent == |s.process.batch|
    ensures PublishedBelow(d, feed, s.published, s.process.span.last + 1)
  {
    var span := s.process.span;
    if d.alwaysStreams {
      forall t | t in feed.range(d.startBlock, span.last + 1)
        ensures t in s.published
      {
        TilesGrow(s.life.start, s.life.spans, span.first);
        Extend(d, feed, span.first, span.last, t);
      }
    }
  }

  lemma {:induction false} TilesGrow(start: nat, spans: seq<Span>, cursor: nat)
    requires Tiles(start, spans, cursor)
    ensures start <= cursor
    decreases |spans|
  {
    if spans != [] {
      var n := |spans| - 1;
      TilesGrow(start, spans[..n], spans[n].first);
    }
  }

  /** A process that starts at a cursor has everything below it published. */
  lemma StartKeepsInvariant(d: Deployment, cfg: Usable, feed: LawfulFeed, s: State, repo: Repo, cursor: nat)
    requires Invariant(d, feed, s) && d.Allows(cfg, feed)
    requires Coherent(repo) && repo.processed == s.repo.processed && repo.transfers == s.repo.transfers
    requires cursor == d.startBlock || (cursor > 0 && cursor - 1 in s.repo.processed)
    ensures Invariant(d, feed, State(repo, s.published, Idle(cursor),
                                       Life(cursor, 0, [], 0, Controller(cfg.InitialSize(), 0, 0)), cfg))
  {
    EmptyRange(feed, d.startBlock, d.startBlock);
    assert PublishedBelow(d, feed, s.published, cursor);
  }

  lemma BootKeepsInvariant(d: Deployment, cfg: Usable, feed: LawfulFeed, s: State, env: ReadEnv)
    requires Invariant(d, feed, s) && s.process.Down? && d.Allows(cfg, feed)
    ensures Invariant(d, feed, Boots(cfg, s, env))
  {
    if cfg.resetStartBlock {
      StartKeepsInvariant(d, cfg, feed, s, s.repo, d.startBlock);
    } else {
      LastBlockRecorded(s.repo, cfg.hasCache, env);
      var (repo, answer) := GetLast(s.repo, cfg.hasCache, env);
      if answer.Some? {
        var cursor := if answer.value > 0 then answer.value + 1 else d.startBlock;
        StartKeepsInvariant(d, cfg, feed, s, repo, cursor);
      }
    }
  }

  lemma HeadKeepsInvariant(d: Deployment, feed: LawfulFeed, s: State, head: nat)
    requires Invariant(d, feed, s) && s.process.Idle? && head < feed.height
    ensures Invariant(d, feed, ReadsHead(s.cfg, s, head))
  {
    if s.process.cursor <= head {
      ToBlockInRange(s.process.cursor, BatchSize(s.cfg, s.life.controller), head);
    }
  }

  lemma SizeStaysBounded(cfg: Config, life: Life, success: bool)
    requires cfg.batch.Valid() && life.controller.size <= cfg.SizeBound() < WORD
    ensures Adjusted(cfg, life, success).controller.size <= cfg.SizeBound()
    ensures Adjusted(cfg, life, success) == life.(controller := Adjusted(cfg, life, success).controller)
  {
    QuotientShrinks(life.controller.size, cfg.batch.Divisor());
  }

  lemma WorkingRange(d: Deployment, feed: LawfulFeed, s: State)
    requires Invariant(d, feed, s) && Working(s.process).Some?
    ensures d.startBlock <= s.process.span.first <= s.process.span.last < feed.height
  {
    TilesGrow(s.life.start, s.life.spans, s.process.span.first);
  }

  lemma BulkKeepsGenuine(d: Deployment, feed: LawfulFeed, store: Store, span: Span, o: BulkOutcome)
    requires Genuine(d, feed, store) && d.startBlock <= span.first && span.last < feed.height
    requires Size(o) == |feed.range(span.first, span.last + 1)|
    ensures var batch := feed.range(span.first, span.last + 1);
            Genuine(d, feed, ApplyBulk(store, batch, o, |batch|))
  {
    var batch := feed.range(span.first, span.last + 1);
    var after := ApplyBulk(store, batch, o, |batch|);
    BulkContents(store, batch, o, |batch|);
    forall k | k in after
      ensures KeyOf(after[k]) == k && after[k] in feed.range(d.startBlock, feed.height)
    {
      if k !in store {
        InSubrange(feed, d.startBlock, feed.height, span.first, span.last + 1, after[k]);
      }
    }
  }

  lemma InsertKeepsInvariant(d: Deployment, feed: LawfulFeed, s: State, o: BulkOutcome)
    requires Invariant(d, feed, s) && Enabled(d, feed, s, BulkDone(o))
    ensures Invariant(d, feed, Inserts(s.cfg, s, o))
  {
    WorkingRange(d, feed, s);
    BulkKeepsGenuine(d, feed, s.repo.transfers, s.process.span, o);
    SizeStaysBounded(s.cfg, s.life, false);
  }

  lemma CheckpointKeepsInvariant(d: Deployment, feed: LawfulFeed, s: State, w: WriteOutcome)
    requires Invariant(d, feed, s) && Enabled(d, feed, s, Checkpoint(w))
    ensures Invariant(d, feed, Records(s, w))
  {
    PublishedExtends(d, feed, s);
    TilesGrow(s.life.start, s.life.spans, s.process.span.first);
  }

  lemma FinishKeepsInvariant(d: Deployment, feed: LawfulFeed, s: State, cacheApplied: bool)
    requires Invariant(d, feed, s) && s.process.Recorded?
    ensures Invariant(d, feed, Finishes(s.cfg, s, cacheApplied))
  {
    var after := Finishes(s.cfg, s, cacheApplied);
    var n := |s.life.spans|;
    assert after.life.spans[..n] == s.life.spans && after.life.spans[n] == s.process.span;
    SizeStaysBounded(s.cfg, s.life.(spans := after.life.spans, blocksProcessed := after.life.blocksProcessed), true);
  }

  lemma PublishKeepsInvariant(d: Deployment, feed: LawfulFeed, s: State)
    requires Invariant(d, feed, s) && Enabled(d, feed, s, PublishNext)
    ensures Invariant(d, feed, Apply(d, feed, s, PublishNext))
  {
  }

  lemma StepKeepsInvariant(d: Deployment, feed: LawfulFeed, s: State, step: Step)
    requires Invariant(d, feed, s) && Enabled(d, feed, s, step)
    ensures Invariant(d, feed, Apply(d, feed, s, step))
  {
    match step
    case Boot(cfg, env) => BootKeepsInvariant(d, cfg, feed, s, env);
    case HeadRead(head) => HeadKeepsInvariant(d, feed, s, head);
    case FetchFails => SizeStaysBounded(s.cfg, s.life, false);
    case BulkDone(o) => InsertKeepsInvariant(d, feed, s, o);
    case PublishNext => PublishKeepsInvariant(d, feed, s);
    case Checkpoint(w) => CheckpointKeepsInvariant(d, feed, s, w);
    case Finish(applied) => FinishKeepsInvariant(d, feed, s, applied);
    case _ =>
  }

  lemma {:induction false} RunKeepsInvariant(d: Deployment, feed: LawfulFeed, steps: seq<Step>)
    requires CanRun(d, feed, Initial(), steps)
    ensures Invariant(d, feed, Exec(d, feed, Initial(), steps))
    decreases |steps|
  {
    if steps != [] {
      var n := |steps| - 1;
      RunKeepsInvariant(d, feed, steps[..n]);
      StepKeepsInvariant(d, feed, Exec(d, feed, Initial(), steps[..n]), steps[n]);
    }
  }

  // ------------------------------------------------------- safety of all runs

  /** Storing the transfers of a range on top of what lies below it. */
  lemma RangeCompletes(d: Deployment, feed: LawfulFeed, store: Store, after: Store, span: Span)
    requires d.startBlock <= span.first <= span.last && StoredBelow(d, feed, store, span.first)
    requires forall k :: k in store ==> k in after
    requires AllStored(after, feed.range(span.first, span.last + 1))
    ensures StoredBelow(d, feed, after, span.last + 1)
  {
    forall t | t in feed.range(d.startBlock, span.last + 1)
      ensures KeyOf(t) in after
    {
      Extend(d, feed, span.first, span.last, t);
    }
  }

  lemma InsertKeepsNoGap(d: Deployment, feed: LawfulFeed, s: State, o: BulkOutcome)
    requires NoGapInvariant(d, feed, s)
    requires s.process.Fetched? && Size(o) == |s.process.batch|
    requires var after := ApplyBulk(s.repo.transfers, s.process.batch, o, |s.process.batch|);
             && (forall k :: k in s.repo.transfers ==> k in after)
             && (ReportsSuccess(o) ==> StoredBelow(d, feed, after, s.process.span.last + 1))
    ensures NoGapInvariant(d, feed, Inserts(s.cfg, s, o))
  {
  }

  /** A checkpoint over a stored range leaves no gap, applied or not. */
  lemma CheckpointKeepsNoGap(d: Deployment, feed: LawfulFeed, s: State, w: WriteOutcome)
    requires NoGapInvariant(d, feed, s)
    requires s.process.Stored? || s.process.Fetched?
    requires StoredBelow(d, feed, s.repo.transfers, s.process.span.last + 1)
    ensures NoGapInvariant(d, feed, Records(s, w))
  {
    var after := Records(s, w);
    assert after.repo.transfers == s.repo.transfers;
    assert Cursor(s.process) == Cursor(after.process) == Some(s.process.span.first);
    forall b | b in after.repo.processed
      ensures StoredBelow(d, feed, after.repo.transfers, b + 1)
    {
      assert b in s.repo.processed || b == s.process.span.last;
    }
  }

  lemma StartKeepsNoGap(d: Deployment, cfg: Usable, feed: LawfulFeed, s: State, env: ReadEnv)
    requires NoGapInvariant(d, feed, s) && s.process.Down? && d.Allows(cfg, feed)
    requires var (repo, answer) := GetLast(s.repo, cfg.hasCache, env);
             && repo.processed == s.repo.processed && repo.transfers == s.repo.transfers
             && (answer.Some? ==> answer.value == 0 || answer.value in s.repo.processed)
    ensures NoGapInvariant(d, feed, Boots(cfg, s, env))
  {
    EmptyRange(feed, d.startBlock, d.startBlock);
  }

  predicate MovesData(step: Step) {
    step.Boot? || step.BulkDone? || step.Checkpoint?
  }

  lemma OtherStepKeepsNoGap(d: Deployment, feed: LawfulFeed, s: State, step: Step)
    requires NoGapInvariant(d, feed, s)
    requires Enabled(d, feed, s, step) && !MovesData(step)
    ensures NoGapInvariant(d, feed, Apply(d, feed, s, step))
  {
  }

  lemma BulkStepKeepsNoGap(d: Deployment, feed: LawfulFeed, s: State, o: BulkOutcome)
    requires Invariant(d, feed, s) && NoGapInvariant(d, feed, s) && s.process.Fetched?
    requires Admissible(s.repo.transfers, s.process.batch, o) && !Mixed(o)
    ensures NoGapInvariant(d, feed, Inserts(s.cfg, s, o))
  {
    hide Admissible, Mixed, ReportsSuccess, StoredBelow, ApplyBulk, LifeInvariant, RecordsInvariant, Genuine;
    var store, batch := s.repo.transfers, s.process.batch;
    WorkingRange(d, feed, s);
    AnswerFits(store, batch, o);
    BulkContents(store, batch, o, |batch|);
    if ReportsSuccess(o) {
      UnmixedSuccessStores(store, batch, o);
      RangeCompletes(d, feed, store, ApplyBulk(store, batch, o, |batch|), s.process.span);
    }
    InsertKeepsNoGap(d, feed, s, o);
  }

  lemma AnswerFits(store: Store, ts: seq<Transfer>, o: BulkOutcome)
    requires Admissible(store, ts, o)
    ensures Size(o) == |ts|
  {
  }

  lemma CheckpointStepKeepsNoGap(d: Deployment, feed: LawfulFeed, s: State, w: WriteOutcome)
    requires Invariant(d, feed, s) && NoGapInvariant(d, feed, s)
    requires s.process.Stored? || (s.process.Fetched? && s.process.batch == [])
    ensures NoGapInvariant(d, feed, Records(s, w))
  {
    hide StoredBelow, LifeInvariant, RecordsInvariant, Genuine;
    if s.process.Fetched? {
      WorkingRange(d, feed, s);
      RangeCompletes(d, feed, s.repo.transfers, s.repo.transfers, s.process.span);
    }
    CheckpointKeepsNoGap(d, feed, s, w);
  }

  lemma BootKeepsNoGap(d: Deployment, cfg: Usable, feed: LawfulFeed, s: State, env: ReadEnv)
    requires RecordsInvariant(d, feed, s) && NoGapInvariant(d, feed, s) && s.process.Down? && d.Allows(cfg, feed)
    ensures NoGapInvariant(d, feed, Boots(cfg, s, env))
  {
    hide StoredBelow, PublishedBelow;
    LastBlockRecorded(s.repo, cfg.hasCache, env);
    StartKeepsNoGap(d, cfg, feed, s, env);
  }

  lemma StepKeepsNoGap(d: Deployment, feed: LawfulFeed, s: State, step: Step)
    requires Invariant(d, feed, s) && NoGapInvariant(d, feed, s)
    requires Enabled(d, feed, s, step) && (step.BulkDone? ==> !Mixed(step.outcome))
    ensures NoGapInvariant(d, feed, Apply(d, feed, s, step))
  {
    hide NoGapInvariant, LifeInvariant, RecordsInvariant, BatchInvariant, Genuine;
    hide Boots, Inserts, Records, Finishes, ReadsHead, Mixed, Admissible;
    match step
    case Boot(cfg, env) => BootKeepsNoGap(d, cfg, feed, s, env);
    case BulkDone(o) => BulkStepKeepsNoGap(d, feed, s, o);
    case Checkpoint(w) => CheckpointStepKeepsNoGap(d, feed, s, w);
    case _ => OtherStepKeepsNoGap(d, feed, s, step);
  }

  lemma {:induction false} RunKeepsNoGap(d: Deployment, feed: LawfulFeed, steps: seq<Step>)
    requires CanRun(d, feed, Initial(), steps) && Unmixed(steps)
    ensures NoGapInvariant(d, feed, Exec(d, feed, Initial(), steps))
    decreases |steps|
  {
    if steps != [] {
      var n := |steps| - 1;
      RunKeepsNoGap(d, feed, steps[..n]);
      RunKeepsInvariant(d, feed, steps[..n]);
      StepKeepsNoGap(d, feed, Exec(d, feed, Initial(), steps[..n]), steps[n]);
    }
  }

  /** Whatever the chain has below `hi` from the start block on is stored as it is. */
  ghost predicate Complete(d: Deployment, feed: LawfulFeed, store: Store, hi: nat) {
    forall t :: t in feed.range(d.startBlock, hi) ==> KeyOf(t) in store && store[KeyOf(t)] == t
  }

  lemma StoredIsComplete(d: Deployment, feed: LawfulFeed, store: Store, hi: nat)
    requires Genuine(d, feed, store) && StoredBelow(d, feed, store, hi)
    ensures Complete(d, feed, store, hi)
  {
    forall t | t in feed.range(d.startBlock, hi)
      ensures store[KeyOf(t)] == t
    {
      var top := if hi <= feed.height then feed.height else hi;
      InSubrange(feed, d.startBlock, top, d.startBlock, hi, t);
      InSubrange(feed, d.startBlock, top, d.startBlock, feed.height, store[KeyOf(t)]);
      SameKeySameTransfer(feed, d.startBlock, top, t, store[KeyOf(t)]);
    }
  }

  /** No-gap safety. After any run, with failures, crashes, restarts and cache loss
      anywhere, every parseable log from the start block up to any checkpoint, and
      below the live cursor, is stored. */
  lemma NoGap(d: Deployment, feed: LawfulFeed, steps: seq<Step>)
    requires CanRun(d, feed, Initial(), steps) && Unmixed(steps)
    ensures var s := Exec(d, feed, Initial(), steps);
            && (forall b :: b in s.repo.processed ==> Complete(d, feed, s.repo.transfers, b + 1))
            && (Cursor(s.process).Some? ==> Complete(d, feed, s.repo.transfers, Cursor(s.process).value))
  {
    RunKeepsInvariant(d, feed, steps);
    RunKeepsNoGap(d, feed, steps);
    var s := Exec(d, feed, Initial(), steps);
    forall b | b in s.repo.processed
      ensures Complete(d, feed, s.repo.transfers, b + 1)
    {
      StoredIsComplete(d, feed, s.repo.transfers, b + 1);
    }
    if Cursor(s.process).Some? {
      StoredIsComplete(d, feed, s.repo.transfers, Cursor(s.process).value);
    }
  }

  // ------------------------------------------------------- run independence

  /** The stored documents of blocks below `hi`. */
  function Below(store: Store, hi: nat): Store {
    map k | k in store && store[k].blockNumber < hi :: store[k]
  }

  function PutAll(store: Store, ts: seq<Transfer>): Store {
    if ts == [] then store else Put(PutAll(store, ts[..|ts| - 1]), ts[|ts| - 1])
  }

  /** One clean pass, block by block, over the blocks from the start block below `hi`. */
  ghost function CleanPass(d: Deployment, feed: LawfulFeed, hi: nat): Store
    decreases hi
  {
    if hi <= d.startBlock then map[]
    else PutAll(CleanPass(d, feed, hi - 1), feed.range(hi - 1, hi))
  }

  lemma {:induction false} PutAllContents(store: Store, ts: seq<Transfer>)
    ensures forall k :: k in store ==> k in PutAll(store, ts) && PutAll(store, ts)[k] == store[k]
    ensures forall t :: t in ts ==> KeyOf(t) in PutAll(store, ts)
    ensures forall k :: k in PutAll(store, ts) && k !in store ==>
              PutAll(store, ts)[k] in ts && KeyOf(PutAll(store, ts)[k]) == k
  {
    if ts != [] {
      var n := |ts| - 1;
      PutAllContents(store, ts[..n]);
      assert ts == ts[..n] + [ts[n]];
    }
  }

  ghost predicate OnlyBelow(d: Deployment, feed: LawfulFeed, store: Store, hi: nat) {
    forall k :: k in store ==> KeyOf(store[k]) == k && store[k] in feed.range(d.startBlock, hi)
  }

  lemma CleanBlock(d: Deployment, feed: LawfulFeed, store: Store, b: nat)
    requires d.startBlock <= b
    requires StoredBelow(d, feed, store, b) && OnlyBelow(d, feed, store, b)
    ensures var after := PutAll(store, feed.range(b, b + 1));
            StoredBelow(d, feed, after, b + 1) && OnlyBelow(d, feed, after, b + 1)
  {
    var block := feed.range(b, b + 1);
    var after := PutAll(store, block);
    PutAllContents(store, block);
    forall t | t in feed.range(d.startBlock, b + 1)
      ensures KeyOf(t) in after
    {
      Extend(d, feed, b, b, t);
    }
    forall k | k in after
      ensures KeyOf(after[k]) == k && after[k] in feed.range(d.startBlock, b + 1)
    {
      InSubrange(feed, d.startBlock, b + 1, d.startBlock, b, after[k]);
      InSubrange(feed, d.startBlock, b + 1, b, b + 1, after[k]);
    }
  }

  lemma {:induction false} CleanPassContents(d: Deployment, feed: LawfulFeed, hi: nat)
    ensures StoredBelow(d, feed, CleanPass(d, feed, hi), hi)
    ensures OnlyBelow(d, feed, CleanPass(d, feed, hi), hi)
    decreases hi
  {
    if hi <= d.startBlock {
      EmptyRange(feed, d.startBlock, hi);
    } else {
      CleanPassContents(d, feed, hi - 1);
      CleanBlock(d, feed, CleanPass(d, feed, hi - 1), hi - 1);
    }
  }

  lemma CompleteIsClean(d: Deployment, feed: LawfulFeed, store: Store, hi: nat)
    requires Genuine(d, feed, store) && Complete(d, feed, store, hi) && hi <= feed.height
    ensures Below(store, hi) == CleanPass(d, feed, hi)
  {
    var clean := CleanPass(d, feed, hi);
    CleanPassContents(d, feed, hi);
    forall k
      ensures k in Below(store, hi) <==> k in clean
      ensures k in clean ==> k in store && store[k] == clean[k]
    {
      if k in clean {
        InSubrange(feed, d.startBlock, hi, d.startBlock, hi, clean[k]);
      }
      if k in Below(store, hi) {
        InSubrange(feed, d.startBlock, feed.height, d.startBlock, feed.height, store[k]);
        InSubrange(feed, d.startBlock, feed.height, d.startBlock, hi, store[k]);
      }
    }
  }

  /** Run independence. Whatever batch sizes, retries, crashes and re-ingestion led
      there, the store below a checkpoint or the cursor is the clean single-block pass. */
  lemma RunIsCleanPass(d: Deployment, feed: LawfulFeed, steps: seq<Step>, hi: nat)
    requires CanRun(d, feed, Initial(), steps) && Unmixed(steps)
    requires var s := Exec(d, feed, Initial(), steps);
             Cursor(s.process) == Some(hi) || (hi > 0 && hi - 1 in s.repo.processed)
    requires hi <= feed.height
    ensures Below(Exec(d, feed, Initial(), steps).repo.transfers, hi) == CleanPass(d, feed, hi)
  {
    RunKeepsInvariant(d, feed, steps);
    NoGap(d, feed, steps);
    CompleteIsClean(d, feed, Exec(d, feed, Initial(), steps).repo.transfers, hi);
  }

  /** Two runs with the same start block, whatever the settings of each of their
      processes, agree below a common cursor. */
  lemma RunsAgree(d: Deployment, other: Deployment, feed: LawfulFeed, steps: seq<Step>, steps': seq<Step>, hi: nat)
    requires CanRun(d, feed, Initial(), steps) && Unmixed(steps)
    requires CanRun(other, feed, Initial(), steps') && Unmixed(steps')
    requires d.startBlock == other.startBlock && hi <= feed.height
    requires Cursor(Exec(d, feed, Initial(), steps).process) == Some(hi)
    requires Cursor(Exec(other, feed, Initial(), steps').process) == Some(hi)
    ensures Below(Exec(d, feed, Initial(), steps).repo.transfers, hi)
         == Below(Exec(other, feed, Initial(), steps').repo.transfers, hi)
  {
    RunIsCleanPass(d, feed, steps, hi);
    RunIsCleanPass(other, feed, steps', hi);
    CleanPassSameStart(d, other, feed, hi);
  }

  lemma {:induction false} CleanPassSameStart(d: Deployment, other: Deployment, feed: LawfulFeed, hi: nat)
    requires d.startBlock == other.startBlock
    ensures CleanPass(d, feed, hi) == CleanPass(other, feed, hi)
    decreases hi
  {
    if hi > d.startBlock {
      CleanPassSameStart(d, other, feed, hi - 1);
    }
  }
}
