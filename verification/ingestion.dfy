/**
 The ingestion protocol as a transition system: one indexer process that reads the
 head, fetches, bulk-inserts, publishes and checkpoints, in front of a database and
 a cache that outlive it. Every failure, a crash at any point, a restart and the
 loss of the cache are steps.
 */
module Ingestion {
  import opened Arithmetic
  import opened Wrappers
  import opened Parser
  import opened Chains
  import opened Repository
  import opened BatchController

  datatype Config = Config(
    startBlock: nat, resetStartBlock: bool, blockBatchSize: nat,
    adaptive: bool, batch: Settings, streaming: bool, hasCache: bool)
  {
    function InitialSize(): nat {
      if blockBatchSize == 0 then 10 else blockBatchSize
    }

    /** No batch size the process can use is larger. */
    function SizeBound(): nat {
      Max(InitialSize(), Max(batch.minSize, batch.maxSize))
    }
  }

  /** Settings a process can run with: the divisor is not zero. */
  type Usable = c: Config | c.batch.Valid()
    witness Config(0, false, 0, false, Settings(0, 0, 0, 1), false, false)

  /** Block numbers and sizes stay clear of the end of the 64-bit range. */
  ghost predicate Fits(cfg: Config, feed: LawfulFeed) {
    cfg.batch.Valid() && cfg.SizeBound() + feed.height < WORD
  }

  /** What all processes of a run share: START_BLOCK, and perhaps that all of them
      stream. Everything else may change from one start to the next. */
  datatype Deployment = Deployment(startBlock: nat, alwaysStreams: bool) {
    ghost predicate Allows(cfg: Config, feed: LawfulFeed) {
      cfg.startBlock == startBlock && (alwaysStreams ==> cfg.streaming) && Fits(cfg, feed)
    }
  }

  function BatchSize(cfg: Config, c: Controller): nat {
    if c.size == 0 then cfg.InitialSize() else c.size
  }

  /** toBlock := fromBlock + batchSize - 1 in 64-bit arithmetic, capped at the head. */
  function ToBlock(first: nat, size: nat, head: nat): nat {
    var last := (first + size - 1) % WORD;
    if last > head then head else last
  }

  /** The batch is a non-empty range up to the head exactly when the sum does not wrap. */
  lemma ToBlockInRange(first: nat, size: nat, head: nat)
    requires first <= head < WORD && 1 <= size < WORD
    ensures first <= ToBlock(first, size, head) <= head <==> first + size - 1 < WORD
  {
    if first + size - 1 >= WORD {
      assert (first + size - 1) % WORD == first + size - 1 - WORD;
    }
  }

  datatype Span = Span(first: nat, last: nat)

  /** Where the process is. `batch` is the fetched batch, `sent` how many of its
      transfers have been handed to Publish. */
  datatype Process =
    | Down
    | Idle(cursor: nat)
    | Ranged(span: Span)
    | Fetched(span: Span, batch: seq<Transfer>)
    | Stored(span: Span, batch: seq<Transfer>, sent: nat)
    | Recorded(span: Span)

  /** What one process has done since it started; headBound is one more than the
      largest head it has seen. */
  datatype Life = Life(start: nat, headBound: nat, spans: seq<Span>, blocksProcessed: int, controller: Controller)

  /** `cfg` is what the running process was started with. */
  datatype State = State(repo: Repo, published: set<Transfer>, process: Process, life: Life, cfg: Usable)

  function Initial(): State {
    State(Repo(map[], {}, None, multiset{}), {}, Down, Life(0, 0, [], 0, Controller(0, 0, 0)),
          Config(0, false, 0, false, Settings(0, 0, 0, 1), false, false))
  }

  datatype Step =
    | Boot(cfg: Usable, env: ReadEnv)
    | HeadFails
    | HeadRead(head: nat)
    | FetchFails
    | FetchDone
    | BulkDone(outcome: BulkOutcome)
    | PublishNext
    | Checkpoint(write: WriteOutcome)
    | Finish(cacheApplied: bool)
    | FillLands(block: nat)
    | CacheLost
    | Crash(inFlight: multiset<nat>)

  ghost predicate Enabled(d: Deployment, feed: LawfulFeed, s: State, step: Step) {
    match step
    case Boot(cfg, _) => s.process.Down? && d.Allows(cfg, feed)
    case HeadFails => s.process.Idle?
    case HeadRead(head) => s.process.Idle? && head < feed.height
    case FetchFails => s.process.Ranged?
    case FetchDone => s.process.Ranged?
    case BulkDone(o) =>
      s.process.Fetched? && s.process.batch != [] && Admissible(s.repo.transfers, s.process.batch, o)
    case PublishNext => s.process.Stored? && s.cfg.streaming && s.process.sent < |s.process.batch|
    case Checkpoint(_) =>
      || (s.process.Fetched? && s.process.batch == [])
      || (s.process.Stored? && (s.cfg.streaming ==> s.process.sent == |s.process.batch|))
    case Finish(_) => s.process.Recorded?
    case FillLands(b) => b in s.repo.fills
    case CacheLost => true
    case Crash(inFlight) => !s.process.Down? && inFlight <= s.repo.fills
  }

  ghost function Boots(cfg: Usable, s: State, env: ReadEnv): State {
    var newLife := Life(0, 0, [], 0, Controller(cfg.InitialSize(), 0, 0));
    if cfg.resetStartBlock then
      s.(process := Idle(cfg.startBlock), life := newLife.(start := cfg.startBlock), cfg := cfg)
    else
      var (repo, answer) := GetLast(s.repo, cfg.hasCache, env);
      if answer.None? then s.(repo := repo)
      else
        var cursor := if answer.value > 0 then answer.value + 1 else cfg.startBlock;
        s.(repo := repo, process := Idle(cursor), life := newLife.(start := cursor), cfg := cfg)
  }

  function Adjusted(cfg: Config, life: Life, success: bool): Life
    requires cfg.batch.Valid()
  {
    if cfg.adaptive then life.(controller := Record(cfg.batch, life.controller, success)) else life
  }

  function ReadsHead(cfg: Config, s: State, head: nat): State
    requires s.process.Idle?
  {
    var first := s.process.cursor;
    var life := s.life.(headBound := Max(s.life.headBound, head + 1));
    if first > head then s.(life := life)
    else s.(process := Ranged(Span(first, ToBlock(first, BatchSize(cfg, s.life.controller), head))), life := life)
  }

  function Inserts(cfg: Config, s: State, o: BulkOutcome): State
    requires cfg.batch.Valid() && s.process.Fetched? && Size(o) == |s.process.batch|
  {
    var batch := s.process.batch;
    var repo := s.repo.(transfers := ApplyBulk(s.repo.transfers, batch, o, |batch|));
    if ReportsSuccess(o) then s.(repo := repo, process := Stored(s.process.span, batch, 0))
    else s.(repo := repo, process := Idle(s.process.span.first), life := Adjusted(cfg, s.life, false))
  }

  function Records(s: State, w: WriteOutcome): State
    requires s.process.Fetched? || s.process.Stored?
  {
    var repo := RecordBlock(s.repo, s.process.span.last, w);
    s.(repo := repo, process := if w.Done? then Recorded(s.process.span) else Idle(s.process.span.first))
  }

  function Finishes(cfg: Config, s: State, cacheApplied: bool): State
    requires cfg.batch.Valid() && s.process.Recorded?
  {
    var Span(first, last) := s.process.span;
    var life := s.life.(spans := s.life.spans + [s.process.span],
                        blocksProcessed := s.life.blocksProcessed + (last + 1 - first));
    s.(repo := WriteCell(s.repo, last, cfg.hasCache && cacheApplied),
       process := Idle(last + 1), life := Adjusted(cfg, life, true))
  }

  ghost function Apply(d: Deployment, feed: LawfulFeed, s: State, step: Step): State
    requires Enabled(d, feed, s, step)
  {
    match step
    case Boot(cfg, env) => Boots(cfg, s, env)
    case HeadFails => s
    case HeadRead(head) => ReadsHead(s.cfg, s, head)
    case FetchFails => s.(process := Idle(s.process.span.first), life := Adjusted(s.cfg, s.life, false))
    case FetchDone =>
      s.(process := Fetched(s.process.span, feed.range(s.process.span.first, s.process.span.last + 1)))
    case BulkDone(o) => Inserts(s.cfg, s, o)
    case PublishNext =>
      var p := s.process;
      s.(published := s.published + {p.batch[p.sent]}, process := p.(sent := p.sent + 1))
    case Checkpoint(w) => Records(s, w)
    case Finish(cacheApplied) => Finishes(s.cfg, s, cacheApplied)
    case FillLands(b) =>
      s.(repo := WriteCell(s.repo, b, true).(fills := s.repo.fills - multiset{b}))
    case CacheLost => s.(repo := s.repo.(cell := None))
    case Crash(inFlight) => s.(repo := s.repo.(fills := inFlight), process := Down)
  }

  ghost predicate CanRun(d: Deployment, feed: LawfulFeed, s: State, steps: seq<Step>)
    decreases |steps|, 0
  {
    steps == [] ||
    var n := |steps| - 1;
    CanRun(d, feed, s, steps[..n]) && Enabled(d, feed, Exec(d, feed, s, steps[..n]), steps[n])
  }

  /** The state a run ends in. */
  ghost function Exec(d: Deployment, feed: LawfulFeed, s: State, steps: seq<Step>): State
    requires CanRun(d, feed, s, steps)
    decreases |steps|, 1
  {
    if steps == [] then s
    else
      var n := |steps| - 1;
      Apply(d, feed, Exec(d, feed, s, steps[..n]), steps[n])
  }

  /** Bulk writes in which no duplicate hides another error. */
  predicate Unmixed(steps: seq<Step>) {
    forall i :: 0 <= i < |steps| && steps[i].BulkDone? ==> !Mixed(steps[i].outcome)
  }
}
