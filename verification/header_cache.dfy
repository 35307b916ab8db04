/**
 The block header cache: timestamps that expire, and expired entries that a later
 asynchronous delete removes.
 */
module HeaderCaches {
  import opened Wrappers

  datatype Entry = Entry(timestamp: int, expiresAt: int)

  /** The map, and the deletes that have been started and have not taken the lock yet. */
  datatype Cache = Cache(entries: map<nat, Entry>, doomed: multiset<nat>)

  function Lookup(c: Cache, block: nat, now: int): Option<int> {
    if block !in c.entries || now > c.entries[block].expiresAt then None else Some(c.entries[block].timestamp)
  }

  function Got(c: Cache, block: nat, now: int): Cache {
    if block in c.entries && now > c.entries[block].expiresAt then c.(doomed := c.doomed + multiset{block}) else c
  }

  function Stored(c: Cache, block: nat, timestamp: int, expiresAt: int): Cache {
    c.(entries := c.entries[block := Entry(timestamp, expiresAt)])
  }

  function Removed(c: Cache, block: nat): Cache {
    c.(entries := c.entries - {block}, doomed := c.doomed - multiset{block})
  }

  /** Every entry carries its block's own time. */
  predicate Truthful(entries: map<nat, Entry>, times: map<nat, int>) {
    forall b :: b in entries ==> b in times && entries[b].timestamp == times[b]
  }

  datatype Op = GetOp(block: nat, now: int) | SetOp(block: nat, timestamp: int, now: int) | DeleteLands(block: nat)

  predicate OpAllowed(c: Cache, op: Op, times: map<nat, int>) {
    match op
    case GetOp(_, _) => true
    case SetOp(b, timestamp, _) => b in times && timestamp == times[b]
    case DeleteLands(b) => b in c.doomed
  }

  function Perform(c: Cache, op: Op, ttl: int): Cache {
    match op
    case GetOp(b, now) => Got(c, b, now)
    case SetOp(b, timestamp, now) => Stored(c, b, timestamp, now + ttl)
    case DeleteLands(b) => Removed(c, b)
  }

  /** The cache after more operations. */
  function Continued(c: Cache, ops: seq<Op>, ttl: int): Cache
    decreases |ops|
  {
    if ops == [] then c else Perform(Continued(c, ops[..|ops| - 1], ttl), ops[|ops| - 1], ttl)
  }

  /** The cache after a history of operations, from empty. */
  function AfterOps(ops: seq<Op>, ttl: int): Cache {
    Continued(Cache(map[], multiset{}), ops, ttl)
  }

  /** No operation sets a time that is not the block's own. */
  predicate SetsTruth(ops: seq<Op>, times: map<nat, int>) {
    forall op :: op in ops && op.SetOp? ==> op.block in times && op.timestamp == times[op.block]
  }

  lemma {:induction false} ContinuesTruthful(c: Cache, ops: seq<Op>, ttl: int, times: map<nat, int>)
    requires Truthful(c.entries, times) && SetsTruth(ops, times)
    ensures Truthful(Continued(c, ops, ttl).entries, times)
    decreases |ops|
  {
    if ops != [] {
      ContinuesTruthful(c, ops[..|ops| - 1], ttl, times);
      assert ops[|ops| - 1] in ops;
    }
  }

  predicate Possible(ops: seq<Op>, ttl: int, times: map<nat, int>)
    decreases |ops|
  {
    ops == [] ||
    (Possible(ops[..|ops| - 1], ttl, times) && OpAllowed(AfterOps(ops[..|ops| - 1], ttl), ops[|ops| - 1], times))
  }

  /** The last Set of a block that no delete of it has followed. */
  function LiveSet(ops: seq<Op>, block: nat): Option<Op>
    decreases |ops|
  {
    if ops == [] then None
    else
      var n := |ops| - 1;
      match ops[n]
      case GetOp(_, _) => LiveSet(ops[..n], block)
      case SetOp(b, _, _) => if b == block then Some(ops[n]) else LiveSet(ops[..n], block)
      case DeleteLands(b) => if b == block then None else LiveSet(ops[..n], block)
  }

  ghost predicate ShowsLiveSet(c: Cache, ops: seq<Op>, ttl: int, block: nat) {
    match LiveSet(ops, block)
    case None => block !in c.entries
    case Some(op) => op.SetOp? && block in c.entries && c.entries[block] == Entry(op.timestamp, op.now + ttl)
  }

  /** The cache is the last Set that no delete has followed, with its own deadline. */
  lemma {:induction false} CacheShowsLastSet(ops: seq<Op>, ttl: int, block: nat)
    ensures ShowsLiveSet(AfterOps(ops, ttl), ops, ttl, block)
    decreases |ops|
  {
    if ops != [] {
      CacheShowsLastSet(ops[..|ops| - 1], ttl, block);
    }
  }

  /** Transparency: after any history of sets of true times, lookups, expiries and
      deletes however late, a lookup gives the block's own time or nothing. */
  lemma {:induction false} NeverLies(ops: seq<Op>, ttl: int, times: map<nat, int>, block: nat, now: int)
    requires Possible(ops, ttl, times)
    ensures Truthful(AfterOps(ops, ttl).entries, times)
    ensures var r := Lookup(AfterOps(ops, ttl), block, now);
            r.Some? ==> block in times && r.value == times[block]
  {
    StaysTruthful(ops, ttl, times);
  }

  lemma {:induction false} StaysTruthful(ops: seq<Op>, ttl: int, times: map<nat, int>)
    requires Possible(ops, ttl, times)
    ensures Truthful(AfterOps(ops, ttl).entries, times)
    decreases |ops|
  {
    if ops != [] {
      StaysTruthful(ops[..|ops| - 1], ttl, times);
    }
  }

  predicate Expired(c: Cache, block: nat, now: int) {
    block in c.entries && now > c.entries[block].expiresAt
  }

  /** The lookups of a block that found it expired, less the deletes that have landed. */
  function StartedDeletes(ops: seq<Op>, ttl: int, block: nat): int
    decreases |ops|
  {
    if ops == [] then 0
    else
      var n := |ops| - 1;
      StartedDeletes(ops[..n], ttl, block) +
      match ops[n]
      case GetOp(b, now) => if b == block && Expired(AfterOps(ops[..n], ttl), b, now) then 1 else 0
      case SetOp(_, _, _) => 0
      case DeleteLands(b) => if b == block then -1 else 0
  }

  /** Each lookup that finds an expired entry starts one delete, and nothing else does: a
      lookup that answers, or that finds nothing, leaves the cache as it was. */
  lemma {:induction false} DeletesAreForExpired(ops: seq<Op>, ttl: int, times: map<nat, int>, block: nat)
    requires Possible(ops, ttl, times)
    ensures AfterOps(ops, ttl).doomed[block] == StartedDeletes(ops, ttl, block)
    decreases |ops|
  {
    if ops != [] {
      DeletesAreForExpired(ops[..|ops| - 1], ttl, times, block);
    }
  }

  lemma LookupLeavesCache(c: Cache, block: nat, now: int)
    ensures Got(c, block, now) == c <==> !Expired(c, block, now)
    ensures Lookup(c, block, now).Some? ==> Got(c, block, now) == c
  {
    assert (c.doomed + multiset{block})[block] == c.doomed[block] + 1;
  }

  /** A lookup answers exactly while the last set that no delete has followed is not
      older than the lifetime. */
  lemma AnswersWhileFresh(ops: seq<Op>, ttl: int, block: nat, now: int)
    ensures var live := LiveSet(ops, block);
            Lookup(AfterOps(ops, ttl), block, now) ==
              if live.Some? && live.value.SetOp? && now - live.value.now <= ttl then Some(live.value.timestamp)
              else None
  {
    CacheShowsLastSet(ops, ttl, block);
  }

  /** The delete that an expired entry starts may come after the entry has been set
      again, and then it removes a fresh entry: the next lookup misses. */
  lemma LateDeleteDropsFreshEntry(block: nat, timestamp: int, ttl: int, start: int, times: map<nat, int>)
    requires block in times && timestamp == times[block] && ttl >= 0
    ensures var refreshed := [SetOp(block, timestamp, start), GetOp(block, start + ttl + 1),
                              SetOp(block, timestamp, start + ttl + 1)];
            && Possible(refreshed + [DeleteLands(block)], ttl, times)
            && Lookup(AfterOps(refreshed, ttl), block, start + ttl + 1) == Some(timestamp)
            && Lookup(AfterOps(refreshed + [DeleteLands(block)], ttl), block, start + ttl + 1) == None
  {
    var set1, get := [SetOp(block, timestamp, start)], GetOp(block, start + ttl + 1);
    var set2 := SetOp(block, timestamp, start + ttl + 1);
    assert set1[..0] == [];
    Appended(set1, get, ttl, times);
    Appended(set1 + [get], set2, ttl, times);
    var refreshed := [SetOp(block, timestamp, start), get, set2];
    assert set1 + [get] + [set2] == refreshed;
    Appended(refreshed, DeleteLands(block), ttl, times);
  }

  lemma Appended(ops: seq<Op>, op: Op, ttl: int, times: map<nat, int>)
    ensures AfterOps(ops + [op], ttl) == Perform(AfterOps(ops, ttl), op, ttl)
    ensures Possible(ops + [op], ttl, times) <==> Possible(ops, ttl, times) && OpAllowed(AfterOps(ops, ttl), op, times)
  {
    assert (ops + [op])[..|ops|] == ops;
  }

  class BlockHeaderCache {
    var cache: map<nat, Entry>
    var deletes: multiset<nat>
    const ttl: int

    constructor (ttl: int)
      ensures this.ttl == ttl && View() == Cache(map[], multiset{})
    {
      this.ttl := ttl;
      cache, deletes := map[], multiset{};
    }

    function View(): Cache
      reads this
    {
      Cache(cache, deletes)
    }

    method Get(block: nat, now: int) returns (timestamp: Option<int>)
      modifies this`deletes
      ensures timestamp == Lookup(old(View()), block, now)
      ensures View() == Perform(old(View()), GetOp(block, now), ttl)
      ensures timestamp.Some? ==> View() == old(View())
    {
      if block !in cache {
        return None;
      }
      var cached := cache[block];
      if now > cached.expiresAt {
        deletes := deletes + multiset{block};
        return None;
      }
      return Some(cached.timestamp);
    }

    method Set(block: nat, timestamp: int, now: int)
      modifies this`cache
      ensures View() == Perform(old(View()), SetOp(block, timestamp, now), ttl)
    {
      cache := cache[block := Entry(timestamp, now + ttl)];
    }

    /** What other goroutines do to the cache meanwhile. */
    method Meanwhile(ops: seq<Op>)
      modifies this
      ensures View() == Continued(old(View()), ops, ttl)
    {
      assert ops[..|ops|] == ops;
      for i := 0 to |ops|
        invariant View() == Continued(old(View()), ops[..i], ttl)
      {
        assert ops[..i + 1][..i] == ops[..i];
        match ops[i] {
          case GetOp(block, now) => var timestamp := Get(block, now);
          case SetOp(block, timestamp, now) => Set(block, timestamp, now);
          case DeleteLands(block) => Delete(block);
        }
      }
    }

    method Delete(block: nat)
      modifies this
      ensures View() == Perform(old(View()), DeleteLands(block), ttl)
    {
      cache := cache - {block};
      deletes := deletes - multiset{block};
    }
  }
}
