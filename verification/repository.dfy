/**
 The repository: the transfers collection behind its unique index, the
 processed_blocks collection, and the Redis cell in front of the checkpoint.
 What the servers answer is a parameter of each operation.
 */
module Repository {
  import opened Arithmetic
  import opened Wrappers
  import opened Numerals
  import opened Parser
  import opened Chains

  // ------------------------------------------------------------- bulk insert

  type Store = map<Key, Transfer>

  datatype OpResult = Inserted | DuplicateKey | OtherError

  /** Either the server answers operation by operation, or the command fails as a
      whole after an unknown part of it was carried out. */
  datatype BulkOutcome = Replied(results: seq<OpResult>) | Lost(applied: seq<bool>)

  function Put(store: Store, t: Transfer): Store {
    if KeyOf(t) in store then store else store[KeyOf(t) := t]
  }

  function Size(o: BulkOutcome): nat {
    match o
    case Replied(results) => |results|
    case Lost(applied) => |applied|
  }

  predicate Written(o: BulkOutcome, i: nat)
    requires i < Size(o)
  {
    match o
    case Replied(results) => results[i] == Inserted
    case Lost(applied) => applied[i]
  }

  /** The collection after the first n operations of the command. */
  function ApplyBulk(store: Store, ts: seq<Transfer>, o: BulkOutcome, n: nat): Store
    requires Size(o) == |ts| && n <= |ts|
  {
    if n == 0 then store
    else
      var before := ApplyBulk(store, ts, o, n - 1);
      if Written(o, n - 1) then Put(before, ts[n - 1]) else before
  }

  predicate InsertedKey(ts: seq<Transfer>, o: BulkOutcome, k: Key)
    requires Size(o) == |ts|
  {
    exists i :: 0 <= i < |ts| && Written(o, i) && KeyOf(ts[i]) == k
  }

  /** What a server with the unique index may answer to an unordered bulk write:
      a document goes in only if its key is new, and a duplicate is reported only
      for a key that is or comes to be there. */
  predicate Admissible(store: Store, ts: seq<Transfer>, o: BulkOutcome) {
    && Size(o) == |ts|
    && (o.Replied? ==>
          && (forall i :: 0 <= i < |ts| && o.results[i] == Inserted ==>
                && KeyOf(ts[i]) !in store
                && forall j :: 0 <= j < |ts| && j != i && o.results[j] == Inserted ==> KeyOf(ts[j]) != KeyOf(ts[i]))
          && (forall i :: 0 <= i < |ts| && o.results[i] == DuplicateKey ==>
                KeyOf(ts[i]) in store || InsertedKey(ts, o, KeyOf(ts[i]))))
  }

  /** InsertTransfers returns nil: no error at all, or an error that
      IsDuplicateKeyError recognises because some operation was a duplicate. */
  predicate ReportsSuccess(o: BulkOutcome) {
    o.Replied? && (DuplicateKey in o.results || forall i :: 0 <= i < |o.results| ==> o.results[i] == Inserted)
  }

  /** A duplicate alongside a different error in the same command. */
  predicate Mixed(o: BulkOutcome) {
    o.Replied? && DuplicateKey in o.results && OtherError in o.results
  }

  /** What the caller is told, exactly. A lost command is a failure, and so is an error that
      is not about a key, unless a duplicate comes with it; duplicates alone are a success,
      which is what lets a batch be ingested again. */
  lemma SuccessExactly(o: BulkOutcome)
    ensures ReportsSuccess(o) <==> o.Replied? && (OtherError in o.results ==> DuplicateKey in o.results)
  {
    if o.Replied? && OtherError !in o.results && DuplicateKey !in o.results {
      forall i | 0 <= i < |o.results|
        ensures o.results[i] == Inserted
      {
        assert o.results[i] in o.results;
      }
    }
  }

  /** Ingesting a stored batch again: a server that answers can only report duplicates or
      other errors, and with duplicates alone the batch is accepted and nothing changes. */
  lemma IngestedAgain(store: Store, ts: seq<Transfer>, o: BulkOutcome)
    requires Admissible(store, ts, o) && AllStored(store, ts) && o.Replied? && OtherError !in o.results
    ensures ReportsSuccess(o) && ApplyBulk(store, ts, o, |ts|) == store
  {
    SuccessExactly(o);
    NothingWritten(store, ts, o, |ts|);
  }

  predicate AllStored(store: Store, ts: seq<Transfer>) {
    forall i :: 0 <= i < |ts| ==> KeyOf(ts[i]) in store
  }

  predicate NoneStored(store: Store, ts: seq<Transfer>) {
    forall i :: 0 <= i < |ts| ==> KeyOf(ts[i]) !in store
  }

  /** A bulk write keeps every stored document and adds only documents of the batch,
      each under its own key. */
  lemma {:induction false} BulkContents(store: Store, ts: seq<Transfer>, o: BulkOutcome, n: nat)
    requires Size(o) == |ts| && n <= |ts|
    ensures var after := ApplyBulk(store, ts, o, n);
            && (forall k :: k in store ==> k in after && after[k] == store[k])
            && (forall k :: k in after && k !in store ==> after[k] in ts[..n] && KeyOf(after[k]) == k)
            && (forall i :: 0 <= i < n && Written(o, i) ==> KeyOf(ts[i]) in after)
            && (forall k :: k in after && k !in store ==> exists i :: 0 <= i < n && Written(o, i) && KeyOf(ts[i]) == k)
  {
    if n > 0 {
      BulkContents(store, ts, o, n - 1);
    }
  }

  lemma UnmixedSuccessStores(store: Store, ts: seq<Transfer>, o: BulkOutcome)
    requires Admissible(store, ts, o) && ReportsSuccess(o) && !Mixed(o)
    ensures AllStored(ApplyBulk(store, ts, o, |ts|), ts)
  {
    BulkContents(store, ts, o, |ts|);
    forall i | 0 <= i < |ts|
      ensures KeyOf(ts[i]) in ApplyBulk(store, ts, o, |ts|)
    {
      assert o.results[i] in o.results;
    }
  }

  /** A successful return guarantees that the batch is stored, whatever the server
      answers, exactly when the batch is entirely new or entirely stored already.
      On a partly stored batch a duplicate hides another operation's failure. */
  lemma SuccessMeansStored(store: Store, ts: seq<Transfer>)
    requires DistinctKeys(ts)
    ensures (forall o :: Admissible(store, ts, o) && ReportsSuccess(o) ==> AllStored(ApplyBulk(store, ts, o, |ts|), ts))
       <==> NoneStored(store, ts) || AllStored(store, ts)
  {
    if NoneStored(store, ts) || AllStored(store, ts) {
      forall o | Admissible(store, ts, o) && ReportsSuccess(o)
        ensures AllStored(ApplyBulk(store, ts, o, |ts|), ts)
      {
        BulkContents(store, ts, o, |ts|);
        if NoneStored(store, ts) && DuplicateKey in o.results {
          NoDuplicateAmongNew(store, ts, o);
        }
      }
    } else {
      var o := HiddenFailure(store, ts);
    }
  }

  /** With distinct new keys the server has no duplicate to report. */
  lemma NoDuplicateAmongNew(store: Store, ts: seq<Transfer>, o: BulkOutcome)
    requires DistinctKeys(ts) && NoneStored(store, ts) && Admissible(store, ts, o) && o.Replied?
    ensures DuplicateKey !in o.results
  {
    forall i | 0 <= i < |ts|
      ensures o.results[i] != DuplicateKey
    {
      if InsertedKey(ts, o, KeyOf(ts[i])) {
        var j :| 0 <= j < |ts| && Written(o, j) && KeyOf(ts[j]) == KeyOf(ts[i]);
        assert i == j;
      }
    }
  }

  /** The answer that loses documents: every new document fails for a reason other
      than its key, every stored one is reported as a duplicate. */
  lemma HiddenFailure(store: Store, ts: seq<Transfer>) returns (o: BulkOutcome)
    requires !NoneStored(store, ts) && !AllStored(store, ts)
    ensures Admissible(store, ts, o) && ReportsSuccess(o) && Mixed(o)
    ensures ApplyBulk(store, ts, o, |ts|) == store && !AllStored(store, ts)
  {
    o := Replied(seq(|ts|, i requires 0 <= i < |ts| => if KeyOf(ts[i]) in store then DuplicateKey else OtherError));
    var i :| 0 <= i < |ts| && KeyOf(ts[i]) in store;
    var j :| 0 <= j < |ts| && KeyOf(ts[j]) !in store;
    assert o.results[i] == DuplicateKey && o.results[j] == OtherError;
    NothingWritten(store, ts, o, |ts|);
  }

  lemma {:induction false} NothingWritten(store: Store, ts: seq<Transfer>, o: BulkOutcome, n: nat)
    requires Size(o) == |ts| && n <= |ts| && forall i :: 0 <= i < |ts| ==> !Written(o, i)
    ensures ApplyBulk(store, ts, o, n) == store
  {
    if n > 0 {
      NothingWritten(store, ts, o, n - 1);
    }
  }

  // --------------------------------------------------------------- checkpoint

  /** The database and the cache, with the checkpoint values whose asynchronous
      cache fill has been started and has not finished. */
  datatype Repo = Repo(transfers: Store, processed: set<nat>, cell: Option<string>, fills: multiset<nat>)

  /** strconv.ParseUint(v, 10, 64) */
  function ParseUint(v: string): Option<nat> {
    if v == [] || exists i :: 0 <= i < |v| && !IsDigit(v[i]) then None
    else if ParseDecimal(v) >= WORD then None
    else Some(ParseDecimal(v))
  }

  /** A missing key reads as block 0 without an error; an unreadable one is an error. */
  function ReadCell(cell: Option<string>): Option<nat> {
    match cell
    case None => Some(0)
    case Some(v) => ParseUint(v)
  }

  lemma CellRoundTrip(b: nat)
    ensures ReadCell(Some(Decimal(b))) == if b < WORD then Some(b) else None
  {
    DecimalRoundTrip(b);
  }

  predicate IsLargest(s: set<nat>, m: nat) {
    m in s && forall b :: b in s ==> b <= m
  }

  /** The largest recorded block, 0 if there is none. */
  ghost function MaxProcessed(processed: set<nat>): (m: nat)
    ensures if processed == {} then m == 0 else IsLargest(processed, m)
  {
    if processed == {} then 0
    else
      LargestExists(processed);
      var m: nat :| IsLargest(processed, m);
      m
  }

  lemma {:induction false} LargestExists(s: set<nat>)
    requires s != {}
    ensures exists m :: IsLargest(s, m)
  {
    var x :| x in s;
    var rest := s - {x};
    assert s == rest + {x};
    if rest == {} {
      assert IsLargest(s, x);
    } else {
      LargestExists(rest);
      var m :| IsLargest(rest, m);
      assert IsLargest(s, if x > m then x else m);
    }
  }

  /** Recording more blocks never lowers the maximum. */
  lemma MaxNeverDecreases(before: set<nat>, after: set<nat>)
    requires before <= after
    ensures MaxProcessed(before) <= MaxProcessed(after)
  {
  }

  /** A write that reports success is applied; one that reports an error may be. */
  datatype WriteOutcome = Done | Failed(applied: bool)

  datatype ReadEnv = ReadEnv(cacheAnswers: bool, mongoAnswers: bool)

  function CachedBlock(r: Repo, hasCache: bool, env: ReadEnv): Option<nat> {
    if hasCache && env.cacheAnswers then ReadCell(r.cell) else None
  }

  ghost function GetLast(r: Repo, hasCache: bool, env: ReadEnv): (Repo, Option<nat>) {
    var hit := CachedBlock(r, hasCache, env);
    if hit.Some? then (r, hit)
    else if !env.mongoAnswers then (r, None)
    else
      var m := MaxProcessed(r.processed);
      (if hasCache && m > 0 then r.(fills := r.fills + multiset{m}) else r, Some(m))
  }

  function RecordBlock(r: Repo, b: nat, w: WriteOutcome): Repo {
    if w.Done? || w.applied then r.(processed := r.processed + {b}) else r
  }

  function WriteCell(r: Repo, b: nat, applied: bool): Repo {
    if applied then r.(cell := Some(Decimal(b))) else r
  }

  function SetLast(r: Repo, b: nat, hasCache: bool, w: WriteOutcome, cacheApplied: bool): (Repo, bool) {
    var recorded := RecordBlock(r, b, w);
    if w.Failed? then (recorded, false) else (WriteCell(recorded, b, hasCache && cacheApplied), true)
  }

  /** Write-through: the block just recorded is what the cache answers next, and what the
      database holds besides does not matter. */
  lemma RecordedIsRead(r: Repo, b: nat, mongoAnswers: bool)
    requires b < WORD
    ensures var (after, ok) := SetLast(r, b, true, Done, true);
            ok && b in after.processed && GetLast(after, true, ReadEnv(true, mongoAnswers)) == (after, Some(b))
  {
    CellRoundTrip(b);
  }

  /** What a checkpoint write may do: it adds at most the block, it does so if it succeeds,
      and the cell follows only then. */
  lemma CellFollowsDatabase(r: Repo, b: nat, hasCache: bool, w: WriteOutcome, cacheApplied: bool)
    ensures var (after, ok) := SetLast(r, b, hasCache, w, cacheApplied);
            && ok == w.Done? && (ok ==> b in after.processed)
            && after.transfers == r.transfers && after.fills == r.fills
            && r.processed <= after.processed <= r.processed + {b}
            && (after.cell != r.cell ==> ok && hasCache && cacheApplied)
  {
  }

  /** A read that the cache could not answer repairs it: the fill it starts carries the
      largest recorded block, and once it lands the cache answers with that. A hit starts
      nothing. */
  lemma ReadRepairs(r: Repo, env: ReadEnv, later: bool)
    requires MaxProcessed(r.processed) < WORD
    ensures var (after, answer) := GetLast(r, true, env);
            var m := MaxProcessed(r.processed);
            && (CachedBlock(r, true, env).Some? ==> after == r)
            && (CachedBlock(r, true, env).None? && env.mongoAnswers ==>
                  && answer == Some(m)
                  && after.fills == (if m > 0 then r.fills + multiset{m} else r.fills)
                  && GetLast(WriteCell(after, m, true), true, ReadEnv(true, later)).1 == Some(m))
  {
    CellRoundTrip(MaxProcessed(r.processed));
  }

  /** The cell is absent or holds a recorded block, and so does every pending fill. */
  ghost predicate Coherent(r: Repo) {
    && (r.cell.Some? ==> exists b :: b in r.processed && r.cell == Some(Decimal(b)))
    && (forall b :: b in r.fills ==> b in r.processed)
  }

  /** What a restart can be told: 0 or a recorded block, never above the maximum. */
  lemma LastBlockRecorded(r: Repo, hasCache: bool, env: ReadEnv)
    requires Coherent(r)
    ensures var (after, answer) := GetLast(r, hasCache, env);
            && Coherent(after) && after.processed == r.processed && after.transfers == r.transfers
            && after.cell == r.cell
            && (answer.Some? ==> answer.value == 0 || answer.value in r.processed)
            && (answer.Some? ==> answer.value <= MaxProcessed(r.processed))
  {
    if r.cell.Some? {
      var b :| b in r.processed && r.cell == Some(Decimal(b));
      CellRoundTrip(b);
    }
  }

  // -------------------------------------------------------------- the objects

  class RedisCache {
    const enabled: bool
    var cell: Option<string>

    constructor (enabled: bool)
      ensures this.enabled == enabled && cell == None
    {
      this.enabled := enabled;
      cell := None;
    }

    method GetLastProcessedBlock(answers: bool) returns (block: Option<nat>)
      ensures block == if enabled && answers then ReadCell(cell) else None
    {
      if !enabled || !answers {
        return None;
      }
      match cell {
        case None => block := Some(0);
        case Some(v) => block := ParseUint(v);
      }
    }

    method SetLastProcessedBlock(block: nat, applied: bool)
      modifies this
      ensures cell == if enabled && applied then Some(Decimal(block)) else old(cell)
    {
      if enabled && applied {
        cell := Some(Decimal(block));
      }
    }
  }

  class MongoRepository {
    var transfers: Store
    var processed: set<nat>
    var fills: multiset<nat>
    const cache: RedisCache?

    constructor (cache: RedisCache?)
      ensures this.cache == cache && transfers == map[] && processed == {} && fills == multiset{}
    {
      this.cache := cache;
      transfers, processed, fills := map[], {}, multiset{};
    }

    ghost function Footprint(): set<object> {
      {this} + if cache == null then {} else {cache}
    }

    predicate HasCache() {
      cache != null && cache.enabled
    }

    ghost function View(): Repo
      reads Footprint()
    {
      Repo(transfers, processed, if cache == null then None else cache.cell, fills)
    }

    method InsertTransfers(ts: seq<Transfer>, outcome: BulkOutcome) returns (ok: bool)
      requires Size(outcome) == |ts|
      modifies this`transfers
      ensures ok == (ts == [] || ReportsSuccess(outcome))
      ensures outcome.Replied? && OtherError !in outcome.results ==> ok
      ensures ts != [] && outcome.Lost? ==> !ok
      ensures transfers == ApplyBulk(old(transfers), ts, outcome, |ts|)
    {
      SuccessExactly(outcome);
      if |ts| == 0 {
        return true;
      }
      BulkWrite(ts, outcome);
      match outcome {
        case Lost(_) => ok := false;
        case Replied(results) =>
          if DuplicateKey in results {
            ok := true;
          } else {
            ok := forall i :: 0 <= i < |results| ==> results[i] == Inserted;
          }
      }
    }

    method BulkWrite(ts: seq<Transfer>, outcome: BulkOutcome)
      requires Size(outcome) == |ts|
      modifies this`transfers
      ensures transfers == ApplyBulk(old(transfers), ts, outcome, |ts|)
    {
      for i := 0 to |ts|
        invariant transfers == ApplyBulk(old(transfers), ts, outcome, i)
      {
        if Written(outcome, i) && KeyOf(ts[i]) !in transfers {
          transfers := transfers[KeyOf(ts[i]) := ts[i]];
        }
      }
    }

    method LargestProcessed() returns (m: nat)
      ensures m == MaxProcessed(processed)
    {
      m := 0;
      var rest := processed;
      while rest != {}
        invariant rest <= processed
        invariant forall b :: b in processed && b !in rest ==> b <= m
        invariant m == 0 || m in processed
        decreases rest
      {
        var b :| b in rest;
        if b > m {
          m := b;
        }
        rest := rest - {b};
      }
    }

    method GetLastProcessedBlock(env: ReadEnv) returns (block: Option<nat>)
      modifies this`fills
      ensures (View(), block) == old(GetLast(View(), HasCache(), env))
    {
      if cache != null {
        block := cache.GetLastProcessedBlock(env.cacheAnswers);
        if block.Some? {
          return;
        }
      }
      if !env.mongoAnswers {
        return None;
      }
      var m := LargestProcessed();
      if cache != null && m > 0 && cache.enabled {
        fills := fills + multiset{m};
      }
      block := Some(m);
    }

    method SetLastProcessedBlock(block: nat, write: WriteOutcome, cacheApplied: bool) returns (ok: bool)
      modifies this`processed, if cache == null then {} else {cache}
      ensures (View(), ok) == old(SetLast(View(), block, HasCache(), write, cacheApplied))
    {
      match write {
        case Done => processed := processed + {block};
        case Failed(applied) =>
          if applied {
            processed := processed + {block};
          }
          return false;
      }
      if cache != null {
        cache.SetLastProcessedBlock(block, cacheApplied);
      }
      ok := true;
    }
  }
}
