/**
 FetchTransferLogs: the blocks of the logs without repetition, the header cache, the
 block requests of the workers in whatever order they finish, and the parse.
 */
module Fetchers {
  import opened Wrappers
  import opened Parser
  import opened Chains
  import opened HeaderCaches
  import Workers

  datatype FetchError = FilterFailed | BlockFailed(block: nat) | MissingTimestamp(block: nat)

  /** What the world answers during one fetch: the log filter, the clock when a block is
      looked up and when it is set, what other goroutines (deletes that land, workers left
      over from an earlier fetch) do to the cache just before a block is looked up, the
      block requests, and the order in which the workers deliver. */
  datatype World = World(
    logs: Option<seq<RawLog>>, lookedUpAt: nat -> int, setAt: nat -> int, meanwhile: nat -> seq<Op>,
    blockTime: nat -> Option<int>, order: seq<nat> -> seq<nat>)

  ghost predicate Rearranged(a: seq<nat>, b: seq<nat>) {
    |a| == |b| && forall x :: x in a <==> x in b
  }

  /** The workers deliver every block, and as many results as there are blocks. */
  ghost predicate Delivers(w: World) {
    forall blocks :: Rearranged(w.order(blocks), blocks)
  }

  /** The distinct blocks of the logs, in order of appearance. */
  function Blocks(logs: seq<RawLog>): seq<nat> {
    if logs == [] then []
    else
      var n := |logs| - 1;
      var before := Blocks(logs[..n]);
      if logs[n].blockNumber in before then before else before + [logs[n].blockNumber]
  }

  /** The cache that the lookup of a block finds. */
  function CacheFor(c: Cache, w: World, blocks: seq<nat>, block: nat, ttl: int): Cache
    decreases |blocks|, 1
  {
    Continued(CacheAfter(c, w, blocks, ttl), w.meanwhile(block), ttl)
  }

  /** The cache once these blocks have been looked up, one after the other. */
  function CacheAfter(c: Cache, w: World, blocks: seq<nat>, ttl: int): Cache
    decreases |blocks|, 0
  {
    if blocks == [] then c
    else
      var n := |blocks| - 1;
      Got(CacheFor(c, w, blocks[..n], blocks[n], ttl), blocks[n], w.lookedUpAt(blocks[n]))
  }

  /** What the lookups find. */
  function Seen(c: Cache, w: World, blocks: seq<nat>, ttl: int): (seen: map<nat, Option<int>>)
    ensures forall b :: b in seen <==> b in blocks
    decreases |blocks|
  {
    if blocks == [] then map[]
    else
      var n := |blocks| - 1;
      assert blocks == blocks[..n] + [blocks[n]];
      Seen(c, w, blocks[..n], ttl)[
        blocks[n] := Lookup(CacheFor(c, w, blocks[..n], blocks[n], ttl), blocks[n], w.lookedUpAt(blocks[n]))]
  }

  function SeenIn(c: Cache, w: World, ttl: int): map<nat, Option<int>> {
    if w.logs.None? then map[] else Seen(c, w, Blocks(w.logs.value), ttl)
  }

  function Found(seen: map<nat, Option<int>>, block: nat): Option<int> {
    if block in seen then seen[block] else None
  }

  /** The time a block gets: the cache's if it has one, else its request's answer. */
  function TimeOf(seen: map<nat, Option<int>>, w: World, block: nat): Option<int> {
    if Found(seen, block).Some? then Found(seen, block) else w.blockTime(block)
  }

  function ParserOf(times: nat -> Option<int>): RawLog -> Option<Transfer> {
    (log: RawLog) =>
      match times(log.blockNumber)
      case None => None
      case Some(time) =>
        match ParseTransferLog(log, time)
        case Ok(t) => Some(t)
        case Err(_) => None
  }

  predicate Heights(logs: seq<RawLog>, block: nat) {
    exists i :: 0 <= i < |logs| && logs[i].blockNumber == block
  }

  predicate Requested(seen: map<nat, Option<int>>, w: World, logs: seq<RawLog>, block: nat) {
    Heights(logs, block) && Found(seen, block).None?
  }

  ghost predicate AllAnswered(seen: map<nat, Option<int>>, w: World, logs: seq<RawLog>) {
    forall b: nat :: Requested(seen, w, logs, b) ==> w.blockTime(b).Some?
  }

  /** The outcome of a fetch whose lookups have found this. */
  ghost predicate Outcome(seen: map<nat, Option<int>>, w: World, r: Result<seq<Transfer>, FetchError>) {
    match w.logs
    case None => r == Err(FilterFailed)
    case Some(logs) =>
      if AllAnswered(seen, w, logs) then r == Ok(Collect(logs, ParserOf((b: nat) => TimeOf(seen, w, b))))
      else r.Err? && r.error.BlockFailed? && Requested(seen, w, logs, r.error.block) && w.blockTime(r.error.block).None?
  }

  function Held(entries: map<nat, Entry>, block: nat): Option<Entry> {
    if block in entries then Some(entries[block]) else None
  }

  /** The entry of a block once the workers have finished. */
  function HeldAfter(c: Cache, w: World, blocks: seq<nat>, ttl: int, block: nat): Option<Entry> {
    if block in blocks && w.blockTime(block).Some? then Some(Entry(w.blockTime(block).value, w.setAt(block) + ttl))
    else Held(c.entries, block)
  }

  /** A fetch sets exactly the blocks it requested and got an answer for; c is the cache
      after its lookups. */
  ghost predicate SetsAnswered(seen: map<nat, Option<int>>, c: Cache, w: World, logs: seq<RawLog>, ttl: int,
        after: map<nat, Entry>) {
    forall b: nat :: Held(after, b) ==
      if Requested(seen, w, logs, b) && w.blockTime(b).Some? then Some(Entry(w.blockTime(b).value, w.setAt(b) + ttl))
      else Held(c.entries, b)
  }

  lemma HeldAppend(c: Cache, w: World, blocks: seq<nat>, block: nat, ttl: int)
    ensures forall b: nat :: HeldAfter(c, w, blocks + [block], ttl, b) ==
              if b == block && w.blockTime(b).Some? then Some(Entry(w.blockTime(b).value, w.setAt(b) + ttl))
              else HeldAfter(c, w, blocks, ttl, b)
  {
  }

  lemma {:induction false} CollectAppend(logs: seq<RawLog>, log: RawLog, parse: RawLog -> Option<Transfer>)
    ensures Collect(logs + [log], parse)
         == Collect(logs, parse) + match parse(log) { case Some(t) => [t] case None => [] }
  {
    if logs == [] {
      assert ([] + [log])[1..] == [];
    } else {
      CollectAppend(logs[1..], log, parse);
      assert (logs + [log])[1..] == logs[1..] + [log];
    }
  }

  lemma {:induction false} CollectSame(logs: seq<RawLog>, p: RawLog -> Option<Transfer>, q: RawLog -> Option<Transfer>)
    requires forall log :: log in logs ==> p(log) == q(log)
    ensures Collect(logs, p) == Collect(logs, q)
  {
    if logs != [] {
      CollectSame(logs[1..], p, q);
    }
  }

  // ---------------------------------------------------------- delivery order

  /** The blocks in the order in which the workers delivered them. */
  function InOrder(blocks: seq<nat>, delivered: seq<nat>): (r: seq<nat>)
    ensures |r| == |delivered|
    ensures forall k :: 0 <= k < |r| && delivered[k] < |blocks| ==> r[k] == blocks[delivered[k]]
  {
    if delivered == [] then []
    else
      var n := |delivered| - 1;
      InOrder(blocks, delivered[..n]) + [if delivered[n] < |blocks| then blocks[delivered[n]] else 0]
  }

  /** Whatever way the workers interleave, what they have put into the channel when they
      are done is a rearrangement of the blocks. */
  lemma WorkersRearrange(blocks: seq<nat>, answers: seq<bool>, steps: seq<Workers.Step>)
    requires blocks != [] && |answers| == |blocks| && Workers.CanRun(|answers|, answers, steps)
    requires Workers.Stopped(Workers.Exec(|answers|, answers, steps))
    ensures Rearranged(InOrder(blocks, Workers.Exec(|answers|, answers, steps).delivered), blocks)
  {
    Workers.EveryRunEndsWell(answers, steps);
    Workers.RunKeepsInvariant(answers, steps);
    var delivered := Workers.Exec(|answers|, answers, steps).delivered;
    SameElements(blocks, delivered, InOrder(blocks, delivered));
  }

  lemma SameElements(blocks: seq<nat>, delivered: seq<nat>, r: seq<nat>)
    requires |r| == |delivered| == |blocks|
    requires forall i: nat :: i < |blocks| ==> i in delivered
    requires forall i :: i in delivered ==> i < |blocks|
    requires forall k :: 0 <= k < |r| && delivered[k] < |blocks| ==> r[k] == blocks[delivered[k]]
    ensures Rearranged(r, blocks)
  {
    forall x: nat
      ensures x in r <==> x in blocks
    {
      if x in r {
        var k :| 0 <= k < |r| && r[k] == x;
        assert delivered[k] in delivered;
      }
      if x in blocks {
        var i :| 0 <= i < |blocks| && blocks[i] == x;
        assert i in delivered;
        var k :| 0 <= k < |delivered| && delivered[k] == i;
        assert r[k] == x;
      }
    }
  }

  // -------------------------------------------------------------- transparency

  predicate AnswersTruth(w: World, times: map<nat, int>, block: nat) {
    w.blockTime(block).Some? ==> block in times && w.blockTime(block).value == times[block]
  }

  lemma {:induction false} SeenTruthful(c: Cache, w: World, blocks: seq<nat>, ttl: int, times: map<nat, int>)
    requires Truthful(c.entries, times) && forall b: nat :: SetsTruth(w.meanwhile(b), times)
    ensures Truthful(CacheAfter(c, w, blocks, ttl).entries, times)
    ensures forall b :: b in blocks && Seen(c, w, blocks, ttl)[b].Some? ==>
              b in times && Seen(c, w, blocks, ttl)[b].value == times[b]
    decreases |blocks|
  {
    if blocks != [] {
      var n := |blocks| - 1;
      SeenTruthful(c, w, blocks[..n], ttl, times);
      assert SetsTruth(w.meanwhile(blocks[n]), times);
      ContinuesTruthful(CacheAfter(c, w, blocks[..n], ttl), w.meanwhile(blocks[n]), ttl, times);
      assert blocks == blocks[..n] + [blocks[n]];
    }
  }

  lemma {:induction false} BlocksOf(logs: seq<RawLog>)
    ensures Workers.NoRepeats(Blocks(logs)) && forall b: nat :: b in Blocks(logs) <==> Heights(logs, b)
  {
    if logs != [] {
      var n := |logs| - 1;
      BlocksOf(logs[..n]);
      HeightsAppend(logs, n);
      assert logs[..n + 1] == logs;
    }
  }

  /** Cache transparency. Whatever a truthful cache holds, whatever deletes and sets of
      true times land between the lookups, and in whatever order the workers finish, a
      fetch that succeeds returns the parseable logs, in log order, with the true times of
      their blocks. */
  lemma FetchIsTransparent(c: Cache, w: World, r: Result<seq<Transfer>, FetchError>, ttl: int, times: map<nat, int>)
    requires Truthful(c.entries, times) && forall b: nat :: AnswersTruth(w, times, b)
    requires forall b: nat :: SetsTruth(w.meanwhile(b), times)
    requires Outcome(SeenIn(c, w, ttl), w, r) && r.Ok?
    ensures w.logs.Some? && r.value == Collect(w.logs.value, ParserAt(times))
  {
    var logs, seen := w.logs.value, SeenIn(c, w, ttl);
    BlocksOf(logs);
    SeenTruthful(c, w, Blocks(logs), ttl, times);
    forall log | log in logs
      ensures ParserOf((b: nat) => TimeOf(seen, w, b))(log) == ParserAt(times)(log)
    {
      var i :| 0 <= i < |logs| && logs[i] == log;
      assert Heights(logs, log.blockNumber);
      assert AnswersTruth(w, times, log.blockNumber);
      assert Found(seen, log.blockNumber).None? ==> Requested(seen, w, logs, log.blockNumber);
    }
    CollectSame(logs, ParserOf((b: nat) => TimeOf(seen, w, b)), ParserAt(times));
  }

  /** Over a chain: a fetch of a range gives the chain's transfers of the range. */
  lemma FetchGivesRange(chain: GoodChain, first: nat, last: nat, c: Cache, w: World,
        r: Result<seq<Transfer>, FetchError>,
        ttl: int)
    requires last < |chain| && w.logs == Some(LogsBetween(chain, first, last + 1))
    requires Truthful(c.entries, Timestamps(chain)) && forall b: nat :: AnswersTruth(w, Timestamps(chain), b)
    requires forall b: nat :: SetsTruth(w.meanwhile(b), Timestamps(chain))
    requires Outcome(SeenIn(c, w, ttl), w, r) && r.Ok?
    ensures r.value == FeedOf(chain).range(first, last + 1)
  {
    FetchIsTransparent(c, w, r, ttl, Timestamps(chain));
  }

  // ------------------------------------------------- when a fetch asks and succeeds

  /** Nobody else touches the cache between the lookups. */
  ghost predicate Undisturbed(w: World) {
    forall b: nat :: w.meanwhile(b) == []
  }

  /** The cache holds a time for the block that has not expired when it is looked up. */
  predicate Usable(c: Cache, w: World, block: nat) {
    block in c.entries && w.lookedUpAt(block) <= c.entries[block].expiresAt
  }

  lemma {:induction false} SeenUndisturbed(c: Cache, w: World, blocks: seq<nat>, ttl: int)
    requires Undisturbed(w)
    ensures CacheAfter(c, w, blocks, ttl).entries == c.entries
    ensures forall b :: b in blocks ==>
              Seen(c, w, blocks, ttl)[b] == if Usable(c, w, b) then Some(c.entries[b].timestamp) else None
    decreases |blocks|
  {
    if blocks != [] {
      var n := |blocks| - 1;
      SeenUndisturbed(c, w, blocks[..n], ttl);
      assert w.meanwhile(blocks[n]) == [];
      assert CacheFor(c, w, blocks[..n], blocks[n], ttl) == CacheAfter(c, w, blocks[..n], ttl);
      assert blocks == blocks[..n] + [blocks[n]];
    }
  }

  lemma FoundUndisturbed(c: Cache, w: World, ttl: int)
    requires Undisturbed(w) && w.logs.Some?
    ensures forall b: nat :: Requested(SeenIn(c, w, ttl), w, w.logs.value, b) <==>
                             Heights(w.logs.value, b) && !Usable(c, w, b)
  {
    BlocksOf(w.logs.value);
    SeenUndisturbed(c, w, Blocks(w.logs.value), ttl);
  }

  /** A fetch succeeds exactly if the filter does and every block of a log has a usable
      time in the cache or an answered request; logs that do not parse are no reason to
      fail, and neither is an empty answer. */
  lemma FetchSucceedsExactly(c: Cache, w: World, r: Result<seq<Transfer>, FetchError>, ttl: int)
    requires Undisturbed(w) && Outcome(SeenIn(c, w, ttl), w, r)
    ensures r.Ok? <==>
            && w.logs.Some?
            && forall i :: 0 <= i < |w.logs.value| ==>
                 Usable(c, w, w.logs.value[i].blockNumber) || w.blockTime(w.logs.value[i].blockNumber).Some?
    ensures r == Err(FilterFailed) <==> w.logs.None?
  {
    if w.logs.Some? {
      FoundUndisturbed(c, w, ttl);
      var logs := w.logs.value;
      forall i | 0 <= i < |logs|
        ensures Heights(logs, logs[i].blockNumber)
      {
      }
    }
  }

  /** The cache saves requests. After a successful fetch, a second one of the same logs
      whose lookups come within the lifetime of what the first has set, or found, makes no
      block request at all, so it succeeds whether or not the node would answer. */
  lemma RefetchAsksNobody(c: Cache, w: World, ttl: int, after: Cache, again: World)
    requires w.logs.Some? && again.logs == w.logs && Undisturbed(w) && Undisturbed(again)
    requires AllAnswered(SeenIn(c, w, ttl), w, w.logs.value)
    requires SetsAnswered(SeenIn(c, w, ttl), CacheAfter(c, w, Blocks(w.logs.value), ttl), w, w.logs.value, ttl,
                          after.entries)
    requires forall b: nat :: again.lookedUpAt(b) <=
                              if Usable(c, w, b) then c.entries[b].expiresAt else w.setAt(b) + ttl
    ensures forall b: nat :: !Requested(SeenIn(after, again, ttl), again, again.logs.value, b)
  {
    var logs := w.logs.value;
    FoundUndisturbed(c, w, ttl);
    FoundUndisturbed(after, again, ttl);
    SeenUndisturbed(c, w, Blocks(logs), ttl);
    forall b: nat | Heights(logs, b)
      ensures Usable(after, again, b)
    {
      var held := Held(after.entries, b);
      assert held == if !Usable(c, w, b) then Some(Entry(w.blockTime(b).value, w.setAt(b) + ttl))
                     else Some(c.entries[b]);
    }
  }

  // ----------------------------------------------------------------- the object

  datatype Delivery = Delivery(block: nat, time: Option<int>)

  /** The blocks looked up so far, sorted into known times and blocks to request. */
  predicate Sorted(seen: map<nat, Option<int>>, cached: map<nat, int>, blocks: seq<nat>) {
    && (forall b :: b in cached ==> b in seen && seen[b] == Some(cached[b]))
    && (forall b :: b in seen && seen[b].Some? ==> b in cached)
    && (forall b :: b in blocks ==> b in seen && seen[b].None?)
    && (forall b :: b in seen && seen[b].None? ==> b in blocks)
    && Workers.NoRepeats(blocks)
  }

  /** The times of the blocks the cache knew. */
  ghost predicate LookedUp(seen: map<nat, Option<int>>, w: World, logs: seq<RawLog>, cached: map<nat, int>) {
    && (forall b: nat :: b in cached <==> Heights(logs, b) && Found(seen, b).Some?)
    && (forall b: nat :: b in cached ==> Some(cached[b]) == Found(seen, b))
  }

  ghost predicate Delivered(w: World, blocks: seq<nat>, channel: seq<Delivery>) {
    |channel| == |blocks| && forall i :: 0 <= i < |blocks| ==> channel[i] == Delivery(blocks[i], w.blockTime(blocks[i]))
  }

  predicate InChannel(channel: seq<Delivery>, n: nat, b: nat)
    requires n <= |channel|
  {
    exists i :: 0 <= i < n && channel[i].block == b
  }

  predicate TimeInChannel(channel: seq<Delivery>, n: nat, b: nat, time: int)
    requires n <= |channel|
  {
    exists i :: 0 <= i < n && channel[i] == Delivery(b, Some(time))
  }

  /** The times known after the first n results. */
  ghost predicate CollectedSoFar(channel: seq<Delivery>, cached: map<nat, int>, n: nat, times: map<nat, int>)
    requires n <= |channel|
  {
    && (forall i :: 0 <= i < n ==> channel[i].time.Some?)
    && (forall b: nat :: b in times <==> b in cached || InChannel(channel, n, b))
    && (forall b: nat :: b in times ==>
          (b in cached && times[b] == cached[b]) || TimeInChannel(channel, n, b, times[b]))
  }

  ghost predicate Collected(channel: seq<Delivery>, cached: map<nat, int>, r: Result<map<nat, int>, FetchError>) {
    match r
    case Ok(times) => CollectedSoFar(channel, cached, |channel|, times)
    case Err(e) => exists i :: 0 <= i < |channel| && channel[i].time.None? && e == BlockFailed(channel[i].block)
  }

  ghost predicate Timed(seen: map<nat, Option<int>>, w: World, logs: seq<RawLog>, times: map<nat, int>) {
    forall i :: 0 <= i < |logs| ==>
      logs[i].blockNumber in times && Some(times[logs[i].blockNumber]) == TimeOf(seen, w, logs[i].blockNumber)
  }

  lemma CollectOne(channel: seq<Delivery>, cached: map<nat, int>, n: nat, times: map<nat, int>)
    requires n < |channel| && channel[n].time.Some? && CollectedSoFar(channel, cached, n, times)
    ensures CollectedSoFar(channel, cached, n + 1, times[channel[n].block := channel[n].time.value])
  {
    var after := times[channel[n].block := channel[n].time.value];
    forall b: nat
      ensures b in after <==> b in cached || InChannel(channel, n + 1, b)
      ensures b in after ==> (b in cached && after[b] == cached[b]) || TimeInChannel(channel, n + 1, b, after[b])
    {
      assert InChannel(channel, n, b) ==> InChannel(channel, n + 1, b);
      assert b == channel[n].block ==> channel[n] == Delivery(b, Some(after[b]));
    }
  }

  lemma NothingFound(c: Cache, w: World, ttl: int)
    requires w.logs == Some([])
    ensures SeenIn(c, w, ttl) == map[] && CacheAfter(c, w, Blocks([]), ttl) == c
    ensures Outcome(map[], w, Ok([])) && SetsAnswered(map[], c, w, [], ttl, c.entries)
  {
  }

  /** The collector succeeds exactly when every requested block was answered, and then
      every log has its time. */
  lemma CollectorOutcome(seen: map<nat, Option<int>>, w: World, logs: seq<RawLog>, cached: map<nat, int>,
        blocks: seq<nat>,
        channel: seq<Delivery>, r: Result<map<nat, int>, FetchError>)
    requires LookedUp(seen, w, logs, cached) && Delivered(w, blocks, channel) && Collected(channel, cached, r)
    requires forall b: nat :: b in blocks <==> Requested(seen, w, logs, b)
    ensures r.Ok? <==> AllAnswered(seen, w, logs)
    ensures r.Ok? ==> Timed(seen, w, logs, r.value)
    ensures r.Err? ==>
              r.error.BlockFailed? && Requested(seen, w, logs, r.error.block) && w.blockTime(r.error.block).None?
  {
    if r.Ok? {
      forall b: nat | Requested(seen, w, logs, b)
        ensures w.blockTime(b).Some? && InChannel(channel, |channel|, b)
      {
        var i :| 0 <= i < |blocks| && blocks[i] == b;
        assert channel[i].block == b;
      }
      forall i | 0 <= i < |logs|
        ensures logs[i].blockNumber in r.value
        ensures Some(r.value[logs[i].blockNumber]) == TimeOf(seen, w, logs[i].blockNumber)
      {
        LogTimed(seen, w, logs, cached, blocks, channel, r.value, i);
      }
    } else {
      var i :| 0 <= i < |channel| && channel[i].time.None? && r.error == BlockFailed(channel[i].block);
      assert blocks[i] in blocks;
    }
  }

  lemma LogTimed(seen: map<nat, Option<int>>, w: World, logs: seq<RawLog>, cached: map<nat, int>, blocks: seq<nat>,
        channel: seq<Delivery>, times: map<nat, int>, i: nat)
    requires LookedUp(seen, w, logs, cached) && Delivered(w, blocks, channel)
    requires CollectedSoFar(channel, cached, |channel|, times)
    requires i < |logs|
    requires forall b: nat :: b in blocks <==> Requested(seen, w, logs, b)
    requires Requested(seen, w, logs, logs[i].blockNumber) ==> InChannel(channel, |channel|, logs[i].blockNumber)
    ensures logs[i].blockNumber in times && Some(times[logs[i].blockNumber]) == TimeOf(seen, w, logs[i].blockNumber)
  {
    var b := logs[i].blockNumber;
    assert Heights(logs, b);
    if TimeInChannel(channel, |channel|, b, times[b]) {
      var k :| 0 <= k < |channel| && channel[k] == Delivery(b, Some(times[b]));
      assert blocks[k] in blocks;
    }
  }

  lemma TimedParse(seen: map<nat, Option<int>>, w: World, logs: seq<RawLog>, times: map<nat, int>)
    requires Timed(seen, w, logs, times)
    ensures Collect(logs, ParserAt(times)) == Collect(logs, ParserOf((b: nat) => TimeOf(seen, w, b)))
  {
    forall log | log in logs
      ensures ParserAt(times)(log) == ParserOf((b: nat) => TimeOf(seen, w, b))(log)
    {
      var i :| 0 <= i < |logs| && logs[i] == log;
    }
    CollectSame(logs, ParserAt(times), ParserOf((b: nat) => TimeOf(seen, w, b)));
  }

  class Fetcher {
    const cache: BlockHeaderCache

    constructor (ttl: int)
      ensures cache.ttl == ttl && cache.View() == Cache(map[], multiset{}) && fresh(cache)
    {
      cache := new BlockHeaderCache(ttl);
    }

    /** The distinct blocks of the logs: the times of the cached ones, and the others in
        order of appearance. */
    method LookUp(logs: seq<RawLog>, w: World) returns (blockTimestamps: map<nat, int>, blocksToFetch: seq<nat>)
      modifies cache
      ensures cache.View() == CacheAfter(old(cache.View()), w, Blocks(logs), cache.ttl)
      ensures LookedUp(Seen(old(cache.View()), w, Blocks(logs), cache.ttl), w, logs, blockTimestamps)
      ensures Workers.NoRepeats(blocksToFetch)
      ensures forall b ::
                b in blocksToFetch <==> Requested(Seen(old(cache.View()), w, Blocks(logs), cache.ttl), w, logs, b)
    {
      hide CacheFor, CacheAfter, Seen, Continued, Sorted, Lookup, Got, LookedUp, Requested;
      blockTimestamps, blocksToFetch := map[], [];
      var uniqueBlocks: set<nat> := {};
      ghost var c := cache.View();
      NoLookups(c, w, cache.ttl);
      NothingToSort();
      for i := 0 to |logs|
        invariant cache.View() == CacheAfter(c, w, Blocks(logs[..i]), cache.ttl)
        invariant forall b :: b in uniqueBlocks <==> b in Blocks(logs[..i])
        invariant Sorted(Seen(c, w, Blocks(logs[..i]), cache.ttl), blockTimestamps, blocksToFetch)
      {
        var block := logs[i].blockNumber;
        assert logs[..i + 1][..i] == logs[..i];
        if block !in uniqueBlocks {
          uniqueBlocks := uniqueBlocks + {block};
          NextLookup(c, w, Blocks(logs[..i]), block, cache.ttl);
          cache.Meanwhile(w.meanwhile(block));
          var found := cache.Get(block, w.lookedUpAt(block));
          SortOne(Seen(c, w, Blocks(logs[..i]), cache.ttl), blockTimestamps, blocksToFetch, block, found);
          if found.Some? {
            blockTimestamps := blockTimestamps[block := found.value];
          } else {
            blocksToFetch := blocksToFetch + [block];
          }
        }
      }
      assert logs[..|logs|] == logs;
      AllSorted(Seen(c, w, Blocks(logs), cache.ttl), w, logs, blockTimestamps, blocksToFetch);
    }

    /** What the workers leave once all have finished: the answers in the cache and one
        delivery each in the channel. */
    method RunWorkers(blocks: seq<nat>, w: World) returns (channel: seq<Delivery>)
      modifies cache`cache
      ensures Delivered(w, blocks, channel)
      ensures forall b: nat :: Held(cache.cache, b) == HeldAfter(old(cache.View()), w, blocks, cache.ttl, b)
    {
      channel := [];
      for i := 0 to |blocks|
        invariant |channel| == i && forall j :: 0 <= j < i ==> channel[j] == Delivery(blocks[j], w.blockTime(blocks[j]))
        invariant forall b: nat :: Held(cache.cache, b) == HeldAfter(old(cache.View()), w, blocks[..i], cache.ttl, b)
      {
        var block := blocks[i];
        assert blocks[..i + 1] == blocks[..i] + [block];
        if w.blockTime(block).Some? {
          cache.Set(block, w.blockTime(block).value, w.setAt(block));
        }
        channel := channel + [Delivery(block, w.blockTime(block))];
        HeldAppend(old(cache.View()), w, blocks[..i], block, cache.ttl);
      }
      assert blocks[..|blocks|] == blocks;
    }

    /** The collector: reads one result per block and stops at the first error. */
    method Collector(channel: seq<Delivery>, cached: map<nat, int>) returns (r: Result<map<nat, int>, FetchError>)
      ensures Collected(channel, cached, r)
    {
      var blockTimestamps: map<nat, int> := cached;
      for i := 0 to |channel|
        invariant CollectedSoFar(channel, cached, i, blockTimestamps)
      {
        var result := channel[i];
        if result.time.None? {
          return Err(BlockFailed(result.block));
        }
        CollectOne(channel, cached, i, blockTimestamps);
        blockTimestamps := blockTimestamps[result.block := result.time.value];
      }
      r := Ok(blockTimestamps);
    }

    /** The parse of all logs with the collected times. */
    method ParseAll(logs: seq<RawLog>, blockTimestamps: map<nat, int>) returns (r: Result<seq<Transfer>, FetchError>)
      ensures (forall i :: 0 <= i < |logs| ==> logs[i].blockNumber in blockTimestamps) ==>
                r == Ok(Collect(logs, ParserAt(blockTimestamps)))
    {
      hide ParseTransferLog;
      var transfers := [];
      for i := 0 to |logs|
        invariant transfers == Collect(logs[..i], ParserAt(blockTimestamps))
      {
        var log := logs[i];
        if log.blockNumber !in blockTimestamps {
          return Err(MissingTimestamp(log.blockNumber));
        }
        CollectAppend(logs[..i], log, ParserAt(blockTimestamps));
        assert logs[..i + 1] == logs[..i] + [log];
        var parsed := ParseTransferLog(log, blockTimestamps[log.blockNumber]);
        if parsed.Ok? {
          transfers := transfers + [parsed.value];
        }
      }
      assert logs[..|logs|] == logs;
      r := Ok(transfers);
    }

    /** The cache afterwards is the one the workers leave, also when the collector has
        returned early and they are still finishing. */
    method FetchTransferLogs(w: World) returns (r: Result<seq<Transfer>, FetchError>)
      requires Delivers(w)
      modifies cache
      ensures Outcome(SeenIn(old(cache.View()), w, cache.ttl), w, r)
      ensures w.logs.Some? ==>
                var looked := CacheAfter(old(cache.View()), w, Blocks(w.logs.value), cache.ttl);
                && SetsAnswered(SeenIn(old(cache.View()), w, cache.ttl), looked, w, w.logs.value, cache.ttl,
                                cache.cache)
                && cache.deletes == looked.doomed
      ensures w.logs.None? ==> cache.View() == old(cache.View())
    {
      hide CacheAfter, Seen, Blocks, LookedUp, Delivered, Collected, Timed, Collect, TimeOf, ParserAt, ParserOf;
      if w.logs.None? {
        return Err(FilterFailed);
      }
      var logs := w.logs.value;
      if |logs| == 0 {
        NothingFound(cache.View(), w, cache.ttl);
        return Ok([]);
      }
      ghost var seen := Seen(cache.View(), w, Blocks(logs), cache.ttl);
      var blockTimestamps, blocksToFetch := LookUp(logs, w);
      var blocks := w.order(blocksToFetch);
      var channel := RunWorkers(blocks, w);
      var times := Collector(channel, blockTimestamps);
      CollectorOutcome(seen, w, logs, blockTimestamps, blocks, channel, times);
      if times.Err? {
        return Err(times.error);
      }
      TimedParse(seen, w, logs, times.value);
      r := ParseAll(logs, times.value);
    }
  }

  lemma NothingToSort()
    ensures Sorted(map[], map[], [])
  {
  }

  lemma SortOne(seen: map<nat, Option<int>>, cached: map<nat, int>, blocks: seq<nat>, block: nat, found: Option<int>)
    requires Sorted(seen, cached, blocks) && block !in seen
    ensures found.Some? ==> Sorted(seen[block := found], cached[block := found.value], blocks)
    ensures found.None? ==> Sorted(seen[block := found], cached, blocks + [block])
  {
    if found.None? {
      Workers.Append(blocks, block);
    }
  }

  lemma AllSorted(seen: map<nat, Option<int>>, w: World, logs: seq<RawLog>, cached: map<nat, int>, blocks: seq<nat>)
    requires Sorted(seen, cached, blocks) && forall b :: b in seen <==> b in Blocks(logs)
    ensures LookedUp(seen, w, logs, cached) && Workers.NoRepeats(blocks)
    ensures forall b :: b in blocks <==> Requested(seen, w, logs, b)
  {
    BlocksOf(logs);
  }

  lemma NoLookups(c: Cache, w: World, ttl: int)
    ensures CacheAfter(c, w, [], ttl) == c && Seen(c, w, [], ttl) == map[]
  {
  }

  lemma NextLookup(c: Cache, w: World, blocks: seq<nat>, block: nat, ttl: int)
    ensures var before := Continued(CacheAfter(c, w, blocks, ttl), w.meanwhile(block), ttl);
            && CacheAfter(c, w, blocks + [block], ttl) == Got(before, block, w.lookedUpAt(block))
            && Seen(c, w, blocks + [block], ttl)
               == Seen(c, w, blocks, ttl)[block := Lookup(before, block, w.lookedUpAt(block))]
  {
    assert (blocks + [block])[..|blocks|] == blocks;
  }

  lemma HeightsAppend(logs: seq<RawLog>, i: nat)
    requires i < |logs|
    ensures forall b :: Heights(logs[..i + 1], b) <==> Heights(logs[..i], b) || b == logs[i].blockNumber
  {
    forall b | Heights(logs[..i], b) || b == logs[i].blockNumber
      ensures Heights(logs[..i + 1], b)
    {
      assert logs[..i + 1][i] == logs[i];
      if Heights(logs[..i], b) {
        var k :| 0 <= k < |logs[..i]| && logs[..i][k].blockNumber == b;
        assert logs[..i + 1][k].blockNumber == b;
      }
    }
  }
}
