/**
 The ingestion service as a program: the batch-size fields, one pass of processBlocks,
 and the polling loop, over the repository objects. What the network, the clock and the
 servers answer is a parameter of each tick.
 */
module IngestionServices {
  import opened Arithmetic
  import opened Wrappers
  import opened Parser
  import opened Repository
  import opened BatchController
  import opened Ingestion

  /** What the service and everything behind it hold. */
  datatype Service = Service(controller: Controller, repo: Repo, published: seq<Transfer>)

  /** What the world answers during one tick: the head, the fetch of any range, the bulk
      write, the checkpoint write, and whether the best-effort cache write arrives. */
  datatype Tick = Tick(
    head: Option<nat>, fetch: (nat, nat) -> Option<seq<Transfer>>,
    bulk: BulkOutcome, write: WriteOutcome, cacheApplied: bool)

  /** The range a tick asks for, if it asks. */
  function Asked(cfg: Config, s: Service, first: nat, tick: Tick): Option<Span> {
    match tick.head
    case None => None
    case Some(head) =>
      if first > head then None
      else Some(Span(first, ToBlock(first, BatchSize(cfg, s.controller), head)))
  }

  function Batch(cfg: Config, s: Service, first: nat, tick: Tick): Option<seq<Transfer>> {
    match Asked(cfg, s, first, tick)
    case None => None
    case Some(span) => tick.fetch(span.first, span.last)
  }

  /** The server's answer belongs to the batch that is written. */
  predicate Possible(cfg: Config, s: Service, first: nat, tick: Tick) {
    var batch := Batch(cfg, s, first, tick);
    batch.Some? && batch.value != [] ==> Admissible(s.repo.transfers, batch.value, tick.bulk)
  }

  function Adapt(cfg: Config, c: Controller, success: bool): Controller
    requires cfg.batch.Valid()
  {
    if cfg.adaptive then Record(cfg.batch, c, success) else c
  }

  datatype Ticked = Ticked(service: Service, next: nat, ok: bool)

  function Checkpointed(cfg: Config, s: Service, span: Span, tick: Tick): Ticked
    requires cfg.batch.Valid()
  {
    var (repo, ok) := SetLast(s.repo, span.last, cfg.hasCache, tick.write, tick.cacheApplied);
    if ok then Ticked(s.(repo := repo, controller := Adapt(cfg, s.controller, true)), span.last + 1, true)
    else Ticked(s.(repo := repo), span.first, false)
  }

  /** One pass of processBlocks. */
  function Pass(cfg: Config, s: Service, first: nat, tick: Tick): Ticked
    requires cfg.batch.Valid() && Possible(cfg, s, first, tick)
  {
    match Asked(cfg, s, first, tick)
    case None => Ticked(s, first, tick.head.Some?)
    case Some(span) =>
      match tick.fetch(span.first, span.last)
      case None => Ticked(s.(controller := Adapt(cfg, s.controller, false)), first, false)
      case Some(batch) =>
        if batch == [] then Checkpointed(cfg, s, span, tick)
        else
          var repo := s.repo.(transfers := ApplyBulk(s.repo.transfers, batch, tick.bulk, |batch|));
          if !ReportsSuccess(tick.bulk) then
            Ticked(s.(repo := repo, controller := Adapt(cfg, s.controller, false)), first, false)
          else
            var published := if cfg.streaming then s.published + batch else s.published;
            Checkpointed(cfg, s.(repo := repo, published := published), span, tick)
  }

  predicate AllPossible(cfg: Config, s: Service, first: nat, ticks: seq<Tick>)
    requires cfg.batch.Valid()
    decreases |ticks|, 0
  {
    ticks == [] ||
    var n := |ticks| - 1;
    && AllPossible(cfg, s, first, ticks[..n])
    && var before := Polled(cfg, s, first, ticks[..n]);
       Possible(cfg, before.service, before.next, ticks[n])
  }

  /** The polling loop: a failed tick leaves the cursor where it was. */
  function Polled(cfg: Config, s: Service, first: nat, ticks: seq<Tick>): Ticked
    requires cfg.batch.Valid() && AllPossible(cfg, s, first, ticks)
    decreases |ticks|, 1
  {
    if ticks == [] then Ticked(s, first, true)
    else
      var n := |ticks| - 1;
      var before := Polled(cfg, s, first, ticks[..n]);
      Pass(cfg, before.service, before.next, ticks[n])
  }

  /** Where the loop starts from: None if the checkpoint cannot be read. */
  ghost function Started(cfg: Config, s: Service, env: ReadEnv): (Service, Option<nat>) {
    if cfg.resetStartBlock then (s, Some(cfg.startBlock))
    else
      var (repo, answer) := GetLast(s.repo, cfg.hasCache, env);
      match answer
      case None => (s.(repo := repo), None)
      case Some(last) => (s.(repo := repo), Some(if last > 0 then last + 1 else cfg.startBlock))
  }

  /** An error leaves the cursor where it was. */
  lemma FailureKeepsCursor(cfg: Config, s: Service, first: nat, tick: Tick)
    requires cfg.batch.Valid() && Possible(cfg, s, first, tick)
    ensures !Pass(cfg, s, first, tick).ok ==> Pass(cfg, s, first, tick).next == first
  {
  }

  lemma PolledStep(cfg: Config, s: Service, first: nat, ticks: seq<Tick>, n: nat)
    requires cfg.batch.Valid() && n < |ticks|
    ensures AllPossible(cfg, s, first, ticks[..n + 1])
       ==> AllPossible(cfg, s, first, ticks[..n])
           && var before := Polled(cfg, s, first, ticks[..n]);
              && Possible(cfg, before.service, before.next, ticks[n])
              && Polled(cfg, s, first, ticks[..n + 1]) == Pass(cfg, before.service, before.next, ticks[n])
  {
    assert ticks[..n + 1][..n] == ticks[..n];
  }

  lemma {:induction false} PrefixPossible(cfg: Config, s: Service, first: nat, ticks: seq<Tick>, n: nat)
    requires cfg.batch.Valid() && n <= |ticks| && AllPossible(cfg, s, first, ticks)
    ensures AllPossible(cfg, s, first, ticks[..n])
    decreases |ticks|
  {
    if n < |ticks| {
      PrefixPossible(cfg, s, first, ticks[..|ticks| - 1], n);
      assert ticks[..|ticks| - 1][..n] == ticks[..n];
    } else {
      assert ticks[..n] == ticks;
    }
  }

  // ---------------------------------------------------------------- the object

  class IngestionService {
    const cfg: Config
    const repo: MongoRepository
    var currentBatchSize: nat
    var successCount: nat
    var failureCount: nat
    var published: seq<Transfer>

    constructor (cfg: Config, repo: MongoRepository)
      requires cfg.batch.Valid()
      ensures this.cfg == cfg && this.repo == repo
      ensures currentBatchSize == (if cfg.blockBatchSize > 0 then cfg.blockBatchSize else 10)
      ensures Controls() == Controller(cfg.InitialSize(), 0, 0) && published == []
    {
      this.cfg, this.repo := cfg, repo;
      currentBatchSize := if cfg.blockBatchSize == 0 then 10 else cfg.blockBatchSize;
      successCount, failureCount, published := 0, 0, [];
    }

    predicate Valid() {
      cfg.batch.Valid() && cfg.hasCache == repo.HasCache()
    }

    function Controls(): Controller
      reads this
    {
      Controller(currentBatchSize, successCount, failureCount)
    }

    ghost function View(): Service
      reads this, repo.Footprint()
    {
      Service(Controls(), repo.View(), published)
    }

    method AdjustBatchSizeOnSuccess()
      modifies this`currentBatchSize, this`successCount, this`failureCount
      ensures Controls() == OnSuccess(cfg.batch, old(Controls()))
    {
      successCount := successCount + 1;
      failureCount := 0;
      if successCount >= cfg.batch.streak {
        var newSize := currentBatchSize * 2 % WORD;
        if newSize > cfg.batch.maxSize {
          newSize := cfg.batch.maxSize;
        }
        if newSize != currentBatchSize {
          currentBatchSize := newSize;
          successCount := 0;
        }
      }
    }

    method AdjustBatchSizeOnFailure()
      requires cfg.batch.Valid()
      modifies this`currentBatchSize, this`successCount, this`failureCount
      ensures Controls() == OnFailure(cfg.batch, old(Controls()))
    {
      failureCount := failureCount + 1;
      successCount := 0;
      var newSize := currentBatchSize / cfg.batch.Divisor();
      if newSize < cfg.batch.minSize {
        newSize := cfg.batch.minSize;
      }
      if newSize != currentBatchSize {
        currentBatchSize := newSize;
        failureCount := 0;
      }
    }

    method Adjust(success: bool)
      requires cfg.batch.Valid()
      modifies this`currentBatchSize, this`successCount, this`failureCount
      ensures Controls() == Adapt(cfg, old(Controls()), success)
    {
      if cfg.adaptive {
        if success {
          AdjustBatchSizeOnSuccess();
        } else {
          AdjustBatchSizeOnFailure();
        }
      }
    }

    method PublishAll(batch: seq<Transfer>)
      modifies this`published
      ensures published == if cfg.streaming then old(published) + batch else old(published)
    {
      if cfg.streaming {
        for i := 0 to |batch|
          invariant published == old(published) + batch[..i]
        {
          published := published + [batch[i]];
        }
        assert batch[..|batch|] == batch;
      }
    }

    method ProcessBlocks(first: nat, tick: Tick) returns (next: nat, ok: bool)
      requires Valid() && Possible(cfg, View(), first, tick)
      modifies this, repo.Footprint()
      ensures Ticked(View(), next, ok) == Pass(cfg, old(View()), first, tick)
    {
      if tick.head.None? {
        return first, false;
      }
      var latest := tick.head.value;
      if first > latest {
        return first, true;
      }
      var size := currentBatchSize;
      if size == 0 {
        size := cfg.InitialSize();
      }
      var last := (first + size - 1) % WORD;
      if last > latest {
        last := latest;
      }
      var fetched := tick.fetch(first, last);
      if fetched.None? {
        Adjust(false);
        return first, false;
      }
      var transfers := fetched.value;
      if |transfers| > 0 {
        var inserted := repo.InsertTransfers(transfers, tick.bulk);
        if !inserted {
          Adjust(false);
          return first, false;
        }
        PublishAll(transfers);
      }
      var recorded := repo.SetLastProcessedBlock(last, tick.write, tick.cacheApplied);
      if !recorded {
        return first, false;
      }
      Adjust(true);
      return last + 1, true;
    }

    method FirstBlock(env: ReadEnv) returns (first: Option<nat>)
      requires Valid()
      modifies repo`fills
      ensures (View(), first) == old(Started(cfg, View(), env))
    {
      if cfg.resetStartBlock {
        return Some(cfg.startBlock);
      }
      var lastBlock := repo.GetLastProcessedBlock(env);
      if lastBlock.None? {
        return None;
      }
      first := Some(if lastBlock.value > 0 then lastBlock.value + 1 else cfg.startBlock);
    }

    /** The loop of Start: until the context is done, which is after the last tick. */
    method Poll(first: nat, ticks: seq<Tick>) returns (currentBlock: nat)
      requires Valid() && AllPossible(cfg, View(), first, ticks)
      modifies this, repo.Footprint()
      ensures View() == Polled(cfg, old(View()), first, ticks).service
      ensures currentBlock == Polled(cfg, old(View()), first, ticks).next
    {
      hide Pass, Possible;
      currentBlock := first;
      ghost var s := View();
      assert ticks[..|ticks|] == ticks;
      for i := 0 to |ticks|
        invariant AllPossible(cfg, s, first, ticks[..i])
        invariant View() == Polled(cfg, s, first, ticks[..i]).service
        invariant currentBlock == Polled(cfg, s, first, ticks[..i]).next
      {
        PrefixPossible(cfg, s, first, ticks, i + 1);
        PolledStep(cfg, s, first, ticks, i);
        FailureKeepsCursor(cfg, View(), currentBlock, ticks[i]);
        var next, ok := ProcessBlocks(currentBlock, ticks[i]);
        if ok {
          currentBlock := next;
        }
      }
    }

    /** None is the error of a checkpoint that cannot be read. */
    method Start(env: ReadEnv, ticks: seq<Tick>) returns (cursor: Option<nat>)
      requires Valid()
      requires var (s, first) := Started(cfg, View(), env);
               first.Some? ==> AllPossible(cfg, s, first.value, ticks)
      modifies this, repo.Footprint()
      ensures var (s, first) := Started(cfg, old(View()), env);
              if first.None? then cursor == None && View() == s
              else cursor == Some(Polled(cfg, s, first.value, ticks).next)
                   && View() == Polled(cfg, s, first.value, ticks).service
    {
      hide AllPossible, Polled;
      var first := FirstBlock(env);
      if first.None? {
        return None;
      }
      var currentBlock := Poll(first.value, ticks);
      cursor := Some(currentBlock);
    }
  }
}
