/**
 The chain as the indexer sees it: immutable blocks of logs, and the transfers
 of a block range.
 */
module Chains {
  import opened Parser
  import opened Wrappers

  datatype Block = Block(timestamp: int, logs: seq<RawLog>)

  type Chain = seq<Block>

  predicate HasLog(chain: Chain, h: int, i: int) {
    0 <= h < |chain| && 0 <= i < |chain[h].logs|
  }

  /** Logs carry their height, and (txHash, index) identifies a log. */
  ghost predicate WellFormed(chain: Chain) {
    && (forall h, i :: HasLog(chain, h, i) ==> chain[h].logs[i].blockNumber == h)
    && (forall h, i, k, j ::
          (HasLog(chain, h, i) && HasLog(chain, k, j) && SameIdentity(chain[h].logs[i], chain[k].logs[j]))
          ==> h == k && i == j)
  }

  predicate SameIdentity(a: RawLog, b: RawLog) {
    a.txHash == b.txHash && a.index == b.index
  }

  predicate LogAt(chain: Chain, h: int, i: int, log: RawLog) {
    HasLog(chain, h, i) && chain[h].logs[i] == log
  }

  /** eth_getLogs with the Transfer signature as first topic. */
  predicate Matches(log: RawLog) {
    |log.topics| > 0 && log.topics[0] == TRANSFER_SIGNATURE
  }

  function Matching(logs: seq<RawLog>): seq<RawLog> {
    if logs == [] then []
    else (if Matches(logs[0]) then [logs[0]] else []) + Matching(logs[1..])
  }

  /** The matching logs of heights lo, ..., hi - 1, in chain order. */
  function LogsBetween(chain: Chain, lo: nat, hi: nat): seq<RawLog>
    requires hi <= |chain|
    decreases hi
  {
    if hi <= lo then [] else LogsBetween(chain, lo, hi - 1) + Matching(chain[hi - 1].logs)
  }

  /** The results of the elements that have one, in order. */
  function Collect(logs: seq<RawLog>, parse: RawLog -> Option<Transfer>): seq<Transfer> {
    if logs == [] then []
    else (match parse(logs[0]) case Some(t) => [t] case None => []) + Collect(logs[1..], parse)
  }

  /** The parser, given the block times it knows. */
  function ParserAt(times: map<nat, int>): RawLog -> Option<Transfer> {
    (log: RawLog) =>
      if log.blockNumber !in times then None
      else match ParseTransferLog(log, times[log.blockNumber])
           case Ok(t) => Some(t)
           case Err(_) => None
  }

  function Timestamps(chain: Chain): map<nat, int> {
    map h: nat | h < |chain| :: chain[h].timestamp
  }

  /** The documents the logs of heights lo, ..., hi - 1 denote. */
  function Transfers(chain: Chain, lo: nat, hi: nat): seq<Transfer>
    requires hi <= |chain|
  {
    Collect(LogsBetween(chain, lo, hi), ParserAt(Timestamps(chain)))
  }

  lemma {:induction false} MatchingContents(logs: seq<RawLog>, log: RawLog)
    ensures log in Matching(logs) <==> log in logs && Matches(log)
  {
    if logs != [] {
      MatchingContents(logs[1..], log);
      assert logs == [logs[0]] + logs[1..];
    }
  }

  ghost predicate LogWithin(chain: Chain, lo: nat, hi: nat, log: RawLog) {
    exists h, i :: lo <= h < hi && LogAt(chain, h, i, log)
  }

  lemma LogInBlock(chain: Chain, h: nat, log: RawLog)
    requires h < |chain|
    ensures log in chain[h].logs <==> LogWithin(chain, h, h + 1, log)
  {
    if log in chain[h].logs {
      var i :| 0 <= i < |chain[h].logs| && chain[h].logs[i] == log;
      assert LogAt(chain, h, i, log);
    }
  }

  lemma WithinSplits(chain: Chain, lo: nat, hi: nat, log: RawLog)
    requires lo < hi
    ensures LogWithin(chain, lo, hi, log) <==> LogWithin(chain, lo, hi - 1, log) || LogWithin(chain, hi - 1, hi, log)
  {
  }

  lemma {:induction false} LogsBetweenContents(chain: Chain, lo: nat, hi: nat, log: RawLog)
    requires hi <= |chain|
    ensures log in LogsBetween(chain, lo, hi) <==> Matches(log) && LogWithin(chain, lo, hi, log)
    decreases hi
  {
    if lo < hi {
      LogsBetweenContents(chain, lo, hi - 1, log);
      MatchingContents(chain[hi - 1].logs, log);
      LogInBlock(chain, hi - 1, log);
      WithinSplits(chain, lo, hi, log);
    }
  }

  lemma {:induction false} CollectContents(logs: seq<RawLog>, parse: RawLog -> Option<Transfer>, t: Transfer)
    ensures t in Collect(logs, parse) <==> exists log :: log in logs && parse(log) == Some(t)
  {
    if logs != [] {
      CollectContents(logs[1..], parse, t);
      assert logs == [logs[0]] + logs[1..];
    }
  }

  predicate Denotes(chain: Chain, h: int, i: int, t: Transfer) {
    HasLog(chain, h, i) && ParseTransferLog(chain[h].logs[i], chain[h].timestamp) == Ok(t)
  }

  /** A document is among the transfers of a range exactly when a log of the range
      parses to it at its own block's time. */
  lemma TransfersContents(chain: Chain, lo: nat, hi: nat, t: Transfer)
    requires WellFormed(chain) && hi <= |chain|
    ensures t in Transfers(chain, lo, hi)
       <==> exists h, i :: lo <= h < hi && Denotes(chain, h, i, t)
  {
    if t in Transfers(chain, lo, hi) {
      var h, i := TransferOrigin(chain, lo, hi, t);
    }
    if h, i :| lo <= h < hi && Denotes(chain, h, i, t) {
      DenotedIncluded(chain, lo, hi, h, i, t);
    }
  }

  lemma TransferOrigin(chain: Chain, lo: nat, hi: nat, t: Transfer) returns (h: int, i: int)
    requires WellFormed(chain) && hi <= |chain| && t in Transfers(chain, lo, hi)
    ensures lo <= h < hi && Denotes(chain, h, i, t) && t.blockNumber == h
  {
    var parse := ParserAt(Timestamps(chain));
    CollectContents(LogsBetween(chain, lo, hi), parse, t);
    var log :| log in LogsBetween(chain, lo, hi) && parse(log) == Some(t);
    LogsBetweenContents(chain, lo, hi, log);
    h, i :| lo <= h < hi && LogAt(chain, h, i, log);
    assert log.blockNumber == h;
  }

  lemma DenotedIncluded(chain: Chain, lo: nat, hi: nat, h: int, i: int, t: Transfer)
    requires WellFormed(chain) && lo <= h < hi <= |chain| && Denotes(chain, h, i, t)
    ensures t in Transfers(chain, lo, hi) && t.blockNumber == h
  {
    var log := chain[h].logs[i];
    var parse := ParserAt(Timestamps(chain));
    assert LogAt(chain, h, i, log);
    LogsBetweenContents(chain, lo, hi, log);
    assert log.blockNumber == h && parse(log) == Some(t);
    CollectContents(LogsBetween(chain, lo, hi), parse, t);
  }

  /** A sub-range's transfers are the range's transfers with those heights. */
  lemma TransfersSubrange(chain: Chain, lo: nat, hi: nat, a: nat, b: nat, t: Transfer)
    requires WellFormed(chain) && lo <= a && b <= hi <= |chain|
    ensures t in Transfers(chain, a, b)
       <==> t in Transfers(chain, lo, hi) && a <= t.blockNumber < b
  {
    if t in Transfers(chain, a, b) {
      var h, i := TransferOrigin(chain, a, b, t);
      DenotedIncluded(chain, lo, hi, h, i, t);
    }
    if t in Transfers(chain, lo, hi) && a <= t.blockNumber < b {
      var h, i := TransferOrigin(chain, lo, hi, t);
      DenotedIncluded(chain, a, b, h, i, t);
    }
  }

  /** Transfers with the same key are the same transfer. */
  lemma KeysUnique(chain: Chain, lo: nat, hi: nat, t: Transfer, u: Transfer)
    requires WellFormed(chain) && hi <= |chain|
    requires t in Transfers(chain, lo, hi) && u in Transfers(chain, lo, hi)
    requires KeyOf(t) == KeyOf(u)
    ensures t == u
  {
    var h, i := TransferOrigin(chain, lo, hi, t);
    var k, j := TransferOrigin(chain, lo, hi, u);
    var a, b := chain[h].logs[i], chain[k].logs[j];
    ParseFidelity(a, chain[h].timestamp);
    ParseFidelity(b, chain[k].timestamp);
    KeyIdentifiesLog(a, b, chain[h].timestamp, chain[k].timestamp);
    assert SameIdentity(a, b);
  }

  ghost predicate DistinctKeys(ts: seq<Transfer>) {
    forall i, j :: 0 <= i < j < |ts| ==> KeyOf(ts[i]) != KeyOf(ts[j])
  }

  ghost predicate DistinctLogs(logs: seq<RawLog>) {
    forall i, j :: 0 <= i < j < |logs| ==> !SameIdentity(logs[i], logs[j])
  }

  lemma {:induction false} MatchingDistinct(logs: seq<RawLog>)
    requires DistinctLogs(logs)
    ensures DistinctLogs(Matching(logs))
  {
    if logs != [] {
      MatchingDistinct(logs[1..]);
      forall log | log in Matching(logs[1..])
        ensures !SameIdentity(logs[0], log)
      {
        MatchingContents(logs[1..], log);
      }
    }
  }

  lemma ConcatDistinct(a: seq<RawLog>, b: seq<RawLog>)
    requires DistinctLogs(a) && DistinctLogs(b)
    requires forall x, y :: x in a && y in b ==> !SameIdentity(x, y)
    ensures DistinctLogs(a + b)
  {
  }

  lemma BlockDistinct(chain: Chain, h: nat)
    requires WellFormed(chain) && h < |chain|
    ensures DistinctLogs(Matching(chain[h].logs))
  {
    var block := chain[h].logs;
    forall i, j | 0 <= i < j < |block|
      ensures !SameIdentity(block[i], block[j])
    {
      assert HasLog(chain, h, i) && HasLog(chain, h, j);
    }
    MatchingDistinct(block);
  }

  lemma EarlierDiffers(chain: Chain, lo: nat, h: nat, a: RawLog, b: RawLog)
    requires WellFormed(chain) && h < |chain|
    requires LogWithin(chain, lo, h, a) && b in chain[h].logs
    ensures !SameIdentity(a, b)
  {
    LogInBlock(chain, h, b);
    var k, i :| lo <= k < h && LogAt(chain, k, i, a);
    var j :| LogAt(chain, h, j, b);
  }

  lemma {:induction false} LogsBetweenDistinct(chain: Chain, lo: nat, hi: nat)
    requires WellFormed(chain) && hi <= |chain|
    ensures DistinctLogs(LogsBetween(chain, lo, hi))
    decreases hi
  {
    if lo < hi {
      LogsBetweenDistinct(chain, lo, hi - 1);
      BlockDistinct(chain, hi - 1);
      var before, block := LogsBetween(chain, lo, hi - 1), Matching(chain[hi - 1].logs);
      forall a, b | a in before && b in block
        ensures !SameIdentity(a, b)
      {
        MatchingContents(chain[hi - 1].logs, b);
        LogsBetweenContents(chain, lo, hi - 1, a);
        EarlierDiffers(chain, lo, hi - 1, a, b);
      }
      ConcatDistinct(before, block);
    }
  }

  /** A parser that keeps the log's identity in the document's key. */
  ghost predicate KeepsIdentity(parse: RawLog -> Option<Transfer>) {
    forall a, b :: parse(a).Some? && parse(b).Some? && KeyOf(parse(a).value) == KeyOf(parse(b).value)
                   ==> SameIdentity(a, b)
  }

  lemma ParserKeepsIdentity(times: map<nat, int>)
    ensures KeepsIdentity(ParserAt(times))
  {
    var parse := ParserAt(times);
    forall a, b | parse(a).Some? && parse(b).Some? && KeyOf(parse(a).value) == KeyOf(parse(b).value)
      ensures SameIdentity(a, b)
    {
      ParseFidelity(a, times[a.blockNumber]);
      ParseFidelity(b, times[b.blockNumber]);
      KeyIdentifiesLog(a, b, times[a.blockNumber], times[b.blockNumber]);
    }
  }

  lemma PrependDistinct(t: Transfer, ts: seq<Transfer>)
    requires DistinctKeys(ts) && forall u :: u in ts ==> KeyOf(t) != KeyOf(u)
    ensures DistinctKeys([t] + ts)
  {
  }

  lemma {:induction false} CollectDistinct(logs: seq<RawLog>, parse: RawLog -> Option<Transfer>)
    requires DistinctLogs(logs) && KeepsIdentity(parse)
    ensures DistinctKeys(Collect(logs, parse))
  {
    if logs != [] {
      CollectDistinct(logs[1..], parse);
      if parse(logs[0]).Some? {
        forall t | t in Collect(logs[1..], parse)
          ensures KeyOf(parse(logs[0]).value) != KeyOf(t)
        {
          CollectContents(logs[1..], parse, t);
        }
        PrependDistinct(parse(logs[0]).value, Collect(logs[1..], parse));
      }
    }
  }

  /** The keys of a range's transfers are pairwise distinct. */
  lemma TransfersDistinct(chain: Chain, lo: nat, hi: nat)
    requires WellFormed(chain) && hi <= |chain|
    ensures DistinctKeys(Transfers(chain, lo, hi))
  {
    LogsBetweenDistinct(chain, lo, hi);
    ParserKeepsIdentity(Timestamps(chain));
    CollectDistinct(LogsBetween(chain, lo, hi), ParserAt(Timestamps(chain)));
  }

  // -------------------------------------------------------------------- feed

  /** What the ingestion protocol needs of a chain: its height and the transfers of
      heights lo, ..., hi - 1, as far as it reaches. */
  datatype Feed = Feed(height: nat, range: (nat, nat) -> seq<Transfer>)

  ghost predicate SubrangeLaw(f: Feed, lo: nat, hi: nat, a: nat, b: nat, t: Transfer) {
    lo <= a && b <= hi ==> (t in f.range(a, b) <==> t in f.range(lo, hi) && a <= t.blockNumber < b)
  }

  ghost predicate HeightLaw(f: Feed, lo: nat, hi: nat, t: Transfer) {
    t in f.range(lo, hi) ==> lo <= t.blockNumber < hi && t.blockNumber < f.height
  }

  ghost predicate KeyLaw(f: Feed, lo: nat, hi: nat, t: Transfer, u: Transfer) {
    t in f.range(lo, hi) && u in f.range(lo, hi) && KeyOf(t) == KeyOf(u) ==> t == u
  }

  ghost predicate DistinctLaw(f: Feed, lo: nat, hi: nat) {
    DistinctKeys(f.range(lo, hi))
  }

  ghost predicate EmptyLaw(f: Feed, lo: nat, hi: nat) {
    hi <= lo ==> f.range(lo, hi) == []
  }

  /** Adjacent ranges join, in order. */
  ghost predicate JoinLaw(f: Feed, lo: nat, mid: nat, hi: nat) {
    lo <= mid <= hi ==> f.range(lo, mid) + f.range(mid, hi) == f.range(lo, hi)
  }

  ghost predicate Lawful(f: Feed) {
    && (forall lo, hi, a, b, t :: SubrangeLaw(f, lo, hi, a, b, t))
    && (forall lo, hi, t :: HeightLaw(f, lo, hi, t))
    && (forall lo, hi, t, u :: KeyLaw(f, lo, hi, t, u))
    && (forall lo, hi :: DistinctLaw(f, lo, hi))
    && (forall lo, hi :: EmptyLaw(f, lo, hi))
    && (forall lo, mid, hi :: JoinLaw(f, lo, mid, hi))
  }

  type LawfulFeed = f: Feed | Lawful(f) witness Feed(0, (lo, hi) => [])

  type GoodChain = c: Chain | WellFormed(c) witness []

  function Reach(chain: Chain, hi: nat): nat {
    if hi <= |chain| then hi else |chain|
  }

  ghost function ChainFeed(chain: GoodChain): Feed {
    Feed(|chain|, (lo: nat, hi: nat) => Transfers(chain, lo, Reach(chain, hi)))
  }

  /** Everything proved of the protocol over lawful feeds holds over every chain. */
  lemma ChainFeedLawful(chain: GoodChain)
    ensures Lawful(ChainFeed(chain))
  {
    var f := ChainFeed(chain);
    forall lo, hi, a, b, t
      ensures SubrangeLaw(f, lo, hi, a, b, t)
    {
      if lo <= a && b <= hi {
        ChainSubrange(chain, lo, hi, a, b, t);
      }
    }
    forall lo, hi, t
      ensures HeightLaw(f, lo, hi, t)
    {
      if t in Transfers(chain, lo, Reach(chain, hi)) {
        var h, i := TransferOrigin(chain, lo, Reach(chain, hi), t);
      }
    }
    forall lo, hi, t, u
      ensures KeyLaw(f, lo, hi, t, u)
    {
      var ts := Transfers(chain, lo, Reach(chain, hi));
      if t in ts && u in ts && KeyOf(t) == KeyOf(u) {
        KeysUnique(chain, lo, Reach(chain, hi), t, u);
      }
    }
    forall lo, hi
      ensures DistinctLaw(f, lo, hi)
    {
      TransfersDistinct(chain, lo, Reach(chain, hi));
    }
    forall lo, hi
      ensures EmptyLaw(f, lo, hi)
    {
      if hi <= lo {
        assert LogsBetween(chain, lo, Reach(chain, hi)) == [];
      }
    }
    forall lo, mid, hi
      ensures JoinLaw(f, lo, mid, hi)
    {
      if lo <= mid <= hi {
        ChainJoin(chain, lo, mid, hi);
      }
    }
  }

  lemma {:induction false} LogsJoin(chain: Chain, lo: nat, mid: nat, hi: nat)
    requires lo <= mid <= hi <= |chain|
    ensures LogsBetween(chain, lo, mid) + LogsBetween(chain, mid, hi) == LogsBetween(chain, lo, hi)
    decreases hi
  {
    if mid < hi {
      LogsJoin(chain, lo, mid, hi - 1);
    }
  }

  lemma {:induction false} CollectJoin(a: seq<RawLog>, b: seq<RawLog>, parse: RawLog -> Option<Transfer>)
    ensures Collect(a, parse) + Collect(b, parse) == Collect(a + b, parse)
  {
    if a == [] {
      assert a + b == b;
    } else {
      CollectJoin(a[1..], b, parse);
      assert (a + b)[1..] == a[1..] + b;
    }
  }

  lemma ChainJoin(chain: GoodChain, lo: nat, mid: nat, hi: nat)
    requires lo <= mid <= hi
    ensures Transfers(chain, lo, Reach(chain, mid)) + Transfers(chain, mid, Reach(chain, hi))
         == Transfers(chain, lo, Reach(chain, hi))
  {
    var parse := ParserAt(Timestamps(chain));
    if mid <= |chain| {
      LogsJoin(chain, lo, mid, Reach(chain, hi));
      CollectJoin(LogsBetween(chain, lo, mid), LogsBetween(chain, mid, Reach(chain, hi)), parse);
    } else {
      assert LogsBetween(chain, mid, Reach(chain, hi)) == [];
    }
  }

  ghost function FeedOf(chain: GoodChain): LawfulFeed {
    ChainFeedLawful(chain);
    ChainFeed(chain)
  }

  lemma ChainSubrange(chain: GoodChain, lo: nat, hi: nat, a: nat, b: nat, t: Transfer)
    requires lo <= a && b <= hi
    ensures t in Transfers(chain, a, Reach(chain, b))
       <==> t in Transfers(chain, lo, Reach(chain, hi)) && a <= t.blockNumber < b
  {
    TransfersSubrange(chain, lo, Reach(chain, hi), a, Reach(chain, b), t);
    if t in Transfers(chain, lo, Reach(chain, hi)) {
      var h, i := TransferOrigin(chain, lo, Reach(chain, hi), t);
    }
  }

  lemma InSubrange(f: LawfulFeed, lo: nat, hi: nat, a: nat, b: nat, t: Transfer)
    requires lo <= a && b <= hi
    ensures t in f.range(a, b) <==> t in f.range(lo, hi) && a <= t.blockNumber < b
  {
    assert SubrangeLaw(f, lo, hi, a, b, t);
  }

  lemma JoinedRange(f: LawfulFeed, lo: nat, mid: nat, hi: nat)
    requires lo <= mid <= hi
    ensures f.range(lo, mid) + f.range(mid, hi) == f.range(lo, hi)
  {
    assert JoinLaw(f, lo, mid, hi);
  }

  lemma SameKeySameTransfer(f: LawfulFeed, lo: nat, hi: nat, t: Transfer, u: Transfer)
    requires t in f.range(lo, hi) && u in f.range(lo, hi) && KeyOf(t) == KeyOf(u)
    ensures t == u
  {
    assert KeyLaw(f, lo, hi, t, u);
  }

  lemma RangeKeysDistinct(f: LawfulFeed, lo: nat, hi: nat)
    ensures DistinctKeys(f.range(lo, hi))
  {
    assert DistinctLaw(f, lo, hi);
  }

  lemma EmptyRange(f: LawfulFeed, lo: nat, hi: nat)
    requires hi <= lo
    ensures f.range(lo, hi) == []
  {
    assert EmptyLaw(f, lo, hi);
  }
}
