/**
 Queries over the transfers collection: the filter built in place, what it selects, and
 pages of the sorted result.
 */
module Queries {
  import opened Arithmetic
  import opened Wrappers
  import opened Parser
  import opened Chains

  /** Empty strings and absent bounds do not restrict. */
  datatype Params = Params(
    token: string, from: string, to: string,
    startBlock: Option<nat>, endBlock: Option<nat>, startTime: Option<int>, endTime: Option<int>)

  predicate TextWanted(wanted: string, text: string) {
    wanted != "" ==> text == wanted
  }

  predicate Within(lo: Option<int>, hi: Option<int>, n: int) {
    (lo.Some? ==> lo.value <= n) && (hi.Some? ==> n <= hi.value)
  }

  /** What the caller asks for, bounds included. */
  predicate Wanted(p: Params, t: Transfer) {
    && TextWanted(p.token, t.token) && TextWanted(p.from, t.from) && TextWanted(p.to, t.to)
    && (p.startBlock.Some? ==> p.startBlock.value <= t.blockNumber)
    && (p.endBlock.Some? ==> t.blockNumber <= p.endBlock.value)
    && Within(p.startTime, p.endTime, t.timestamp)
  }

  /** Each parameter restricts its own field and nothing else, and bounds are inclusive. */
  lemma EachParameterNarrows(p: Params, t: Transfer, text: string, block: nat, time: int)
    requires text != ""
    ensures p.token == "" ==> (Wanted(p.(token := text), t) <==> Wanted(p, t) && t.token == text)
    ensures p.from == "" ==> (Wanted(p.(from := text), t) <==> Wanted(p, t) && t.from == text)
    ensures p.to == "" ==> (Wanted(p.(to := text), t) <==> Wanted(p, t) && t.to == text)
    ensures p.startBlock.None? ==>
              (Wanted(p.(startBlock := Some(block)), t) <==> Wanted(p, t) && block <= t.blockNumber)
    ensures p.endBlock.None? ==> (Wanted(p.(endBlock := Some(block)), t) <==> Wanted(p, t) && t.blockNumber <= block)
    ensures p.startTime.None? ==> (Wanted(p.(startTime := Some(time)), t) <==> Wanted(p, t) && time <= t.timestamp)
    ensures p.endTime.None? ==> (Wanted(p.(endTime := Some(time)), t) <==> Wanted(p, t) && t.timestamp <= time)
    ensures Wanted(Params("", "", "", None, None, None, None), t)
  {
  }

  // -------------------------------------------------------------------- filter

  /** A field of a filter document: a value to equal, or a document of operators. */
  datatype Field = Text(text: string) | Number(number: int) | Operators(doc: Bson)

  class Bson {
    var fields: map<string, Field>

    constructor ()
      ensures fields == map[]
    {
      fields := map[];
    }

    constructor Single(key: string, value: Field)
      ensures fields == map[key := value]
    {
      fields := map[key := value];
    }
  }

  function TextField(t: Transfer, key: string): Option<string> {
    if key == "token" then Some(t.token)
    else if key == "from" then Some(t.from)
    else if key == "to" then Some(t.to)
    else None
  }

  function NumberField(t: Transfer, key: string): Option<int> {
    if key == "block_number" then Some(t.blockNumber)
    else if key == "timestamp" then Some(t.timestamp)
    else None
  }

  predicate OperatorHolds(op: string, bound: Field, n: int) {
    bound.Number? &&
    if op == "$gte" then n >= bound.number
    else op == "$lte" && n <= bound.number
  }

  predicate OperatorsHold(ops: map<string, Field>, n: int) {
    forall op :: op in ops ==> OperatorHolds(op, ops[op], n)
  }

  ghost function Nested(filter: Bson): set<Bson>
    reads filter
  {
    set key | key in filter.fields && filter.fields[key].Operators? :: filter.fields[key].doc
  }

  ghost predicate FieldHolds(filter: Bson, key: string, t: Transfer)
    requires key in filter.fields
    reads filter, Nested(filter)
  {
    match filter.fields[key]
    case Text(text) => TextField(t, key) == Some(text)
    case Number(n) => NumberField(t, key) == Some(n)
    case Operators(doc) =>
      assert doc in Nested(filter);
      NumberField(t, key).Some? && OperatorsHold(doc.fields, NumberField(t, key).value)
  }

  /** A document is selected when every field of the filter holds of it. */
  ghost predicate Selects(filter: Bson, t: Transfer)
    reads filter, Nested(filter)
  {
    forall key :: key in filter.fields ==> FieldHolds(filter, key, t)
  }

  function RangeOps(lo: Option<int>, hi: Option<int>): map<string, Field> {
    (if lo.Some? then map["$gte" := Number(lo.value)] else map[])
    + (if hi.Some? then map["$lte" := Number(hi.value)] else map[])
  }

  lemma RangeOpsHold(lo: Option<int>, hi: Option<int>, n: int)
    ensures OperatorsHold(RangeOps(lo, hi), n) <==> Within(lo, hi, n)
  {
    var ops := RangeOps(lo, hi);
    if lo.Some? {
      assert "$gte" in ops && ops["$gte"] == Number(lo.value);
    }
    if hi.Some? {
      assert "$lte" in ops && ops["$lte"] == Number(hi.value);
    }
  }

  ghost predicate HasText(filter: Bson, key: string, text: string)
    reads filter
  {
    if text == "" then key !in filter.fields else key in filter.fields && filter.fields[key] == Text(text)
  }

  ghost predicate HasRange(filter: Bson, key: string, lo: Option<int>, hi: Option<int>)
    reads filter, Nested(filter)
  {
    if lo.None? && hi.None? then key !in filter.fields
    else
      && key in filter.fields && filter.fields[key].Operators?
      && filter.fields[key].doc in Nested(filter) && filter.fields[key].doc.fields == RangeOps(lo, hi)
  }

  const KEYS: set<string> := {"token", "from", "to", "block_number", "timestamp"}

  ghost predicate Shaped(filter: Bson, p: Params)
    reads filter, Nested(filter)
  {
    && filter.fields.Keys <= KEYS
    && HasText(filter, "token", p.token) && HasText(filter, "from", p.from) && HasText(filter, "to", p.to)
    && HasRange(filter, "block_number", p.startBlock, p.endBlock)
    && HasRange(filter, "timestamp", p.startTime, p.endTime)
  }

  ghost predicate HoldsIfPresent(filter: Bson, key: string, t: Transfer)
    reads filter, Nested(filter)
  {
    key in filter.fields ==> FieldHolds(filter, key, t)
  }

  lemma SelectsByKey(filter: Bson, p: Params, t: Transfer)
    requires Shaped(filter, p)
    ensures Selects(filter, t) <==>
              && HoldsIfPresent(filter, "token", t) && HoldsIfPresent(filter, "from", t)
              && HoldsIfPresent(filter, "to", t)
              && HoldsIfPresent(filter, "block_number", t) && HoldsIfPresent(filter, "timestamp", t)
  {
    hide FieldHolds, HasText, HasRange;
    if !Selects(filter, t) {
      var key :| key in filter.fields && !FieldHolds(filter, key, t);
      assert key in KEYS;
      assert !HoldsIfPresent(filter, key, t);
    }
  }

  lemma RangeHolds(filter: Bson, key: string, lo: Option<int>, hi: Option<int>, t: Transfer)
    requires HasRange(filter, key, lo, hi) && NumberField(t, key).Some?
    ensures HoldsIfPresent(filter, key, t) <==> Within(lo, hi, NumberField(t, key).value)
  {
    RangeOpsHold(lo, hi, NumberField(t, key).value);
  }

  lemma TextHolds(filter: Bson, key: string, text: string, t: Transfer)
    requires HasText(filter, key, text) && TextField(t, key).Some?
    ensures HoldsIfPresent(filter, key, t) <==> TextWanted(text, TextField(t, key).value)
  {
  }

  lemma ShapedSelects(filter: Bson, p: Params, t: Transfer)
    requires Shaped(filter, p)
    ensures Selects(filter, t) <==> Wanted(p, t)
  {
    hide Selects, HoldsIfPresent, HasText, HasRange;
    SelectsByKey(filter, p, t);
    TextHolds(filter, "token", p.token, t);
    TextHolds(filter, "from", p.from, t);
    TextHolds(filter, "to", p.to, t);
    RangeHolds(filter, "block_number", p.startBlock, p.endBlock, t);
    RangeHolds(filter, "timestamp", p.startTime, p.endTime, t);
  }

  /** Sets a range under the key: the upper bound goes into the nested document that the
      lower bound has put there. */
  method AddRange(filter: Bson, key: string, lo: Option<int>, hi: Option<int>)
    requires key !in filter.fields
    modifies filter
    ensures if lo.None? && hi.None? then filter.fields == old(filter.fields)
            else exists doc: Bson :: fresh(doc) && doc.fields == RangeOps(lo, hi)
                                     && filter.fields == old(filter.fields)[key := Operators(doc)]
  {
    if lo.Some? {
      var doc := new Bson.Single("$gte", Number(lo.value));
      filter.fields := filter.fields[key := Operators(doc)];
    }
    if hi.Some? {
      if key in filter.fields && filter.fields[key].Operators? {
        var start := filter.fields[key].doc;
        start.fields := start.fields["$lte" := Number(hi.value)];
        assert start.fields == RangeOps(lo, hi);
        assert filter.fields == old(filter.fields)[key := Operators(start)];
      } else {
        var doc := new Bson.Single("$lte", Number(hi.value));
        filter.fields := filter.fields[key := Operators(doc)];
        assert doc.fields == RangeOps(lo, hi);
      }
    } else if lo.Some? {
      assert filter.fields[key].doc.fields == RangeOps(lo, hi);
    }
  }

  /** The filter selects exactly what the caller asks for. */
  method BuildFilter(p: Params) returns (filter: Bson)
    ensures forall t: Transfer :: Selects(filter, t) <==> Wanted(p, t)
  {
    filter := new Bson();
    if p.token != "" {
      filter.fields := filter.fields["token" := Text(p.token)];
    }
    if p.from != "" {
      filter.fields := filter.fields["from" := Text(p.from)];
    }
    if p.to != "" {
      filter.fields := filter.fields["to" := Text(p.to)];
    }
    AddRange(filter, "block_number", p.startBlock, p.endBlock);
    AddRange(filter, "timestamp", p.startTime, p.endTime);
    assert Shaped(filter, p);
    forall t: Transfer
      ensures Selects(filter, t) <==> Wanted(p, t)
    {
      ShapedSelects(filter, p, t);
    }
  }

  // --------------------------------------------------------------------- pages

  /** Sort by block, newest first, then by log index. */
  predicate Before(a: Transfer, b: Transfer) {
    a.blockNumber > b.blockNumber || (a.blockNumber == b.blockNumber && a.logIndex < b.logIndex)
  }

  predicate Tied(a: Transfer, b: Transfer) {
    a.blockNumber == b.blockNumber && a.logIndex == b.logIndex
  }

  /** What the server may list for a query: the selected documents, each once, in an
      order the sort allows. */
  ghost predicate Listing(docs: set<Transfer>, p: Params, l: seq<Transfer>) {
    && (forall t :: t in l <==> t in docs && Wanted(p, t))
    && (forall i, j :: 0 <= i < j < |l| ==> l[i] != l[j] && !Before(l[j], l[i]))
  }

  ghost predicate Untied(l: seq<Transfer>) {
    forall i, j :: 0 <= i < j < |l| ==> !Tied(l[i], l[j])
  }

  lemma FirstOfListing(l: seq<Transfer>, m: seq<Transfer>)
    requires l != [] && m != [] && Untied(l)
    requires forall t :: t in l <==> t in m
    requires forall i, j :: 0 <= i < j < |l| ==> l[i] != l[j] && !Before(l[j], l[i])
    requires forall i, j :: 0 <= i < j < |m| ==> m[i] != m[j] && !Before(m[j], m[i])
    ensures l[0] == m[0]
  {
    assert l[0] in m && m[0] in l;
  }

  lemma EmptyOrMember(m: seq<Transfer>)
    ensures m == [] || exists t :: t in m
  {
    if m != [] {
      assert m[0] in m;
    }
  }

  lemma InTail(l: seq<Transfer>, t: Transfer)
    requires l != [] && forall i, j :: 0 <= i < j < |l| ==> l[i] != l[j]
    ensures t in l[1..] <==> t in l && t != l[0]
  {
    assert l == [l[0]] + l[1..];
  }

  lemma {:induction false} SameListing(l: seq<Transfer>, m: seq<Transfer>)
    requires Untied(l)
    requires forall t :: t in l <==> t in m
    requires forall i, j :: 0 <= i < j < |l| ==> l[i] != l[j] && !Before(l[j], l[i])
    requires forall i, j :: 0 <= i < j < |m| ==> m[i] != m[j] && !Before(m[j], m[i])
    ensures l == m
  {
    if l == [] {
      EmptyOrMember(m);
    } else {
      assert l[0] in m;
      FirstOfListing(l, m);
      forall t
        ensures t in l[1..] <==> t in m[1..]
      {
        InTail(l, t);
        InTail(m, t);
      }
      SameListing(l[1..], m[1..]);
    }
  }

  /** A listing never goes up in blocks, and within a block never down in log indices. */
  lemma NewestFirst(docs: set<Transfer>, p: Params, l: seq<Transfer>, i: nat, j: nat)
    requires Listing(docs, p, l) && i < j < |l|
    ensures l[i].blockNumber >= l[j].blockNumber
    ensures l[i].blockNumber == l[j].blockNumber ==> l[i].logIndex <= l[j].logIndex
  {
    assert !Before(l[j], l[i]);
  }

  /** Cutting a block range after block m: the listing of the newer part followed by that
      of the older part is a listing of the whole, so nothing is shown twice or missed. */
  lemma {:induction false} WindowsJoin(
      docs: set<Transfer>, p: Params, m: nat, older: seq<Transfer>, newer: seq<Transfer>)
    requires p.startBlock.Some? ==> p.startBlock.value <= m + 1
    requires p.endBlock.Some? ==> m <= p.endBlock.value
    requires Listing(docs, p.(endBlock := Some(m)), older)
    requires Listing(docs, p.(startBlock := Some(m + 1)), newer)
    ensures Listing(docs, p, newer + older)
  {
    var l := newer + older;
    forall t
      ensures t in l <==> t in docs && Wanted(p, t)
    {
      assert t in l <==> t in newer || t in older;
    }
    forall i, j | 0 <= i < j < |l|
      ensures l[i] != l[j] && !Before(l[j], l[i])
    {
      if i < |newer| <= j {
        assert l[i] in newer && l[j] in older;
      }
    }
  }

  function Swapped(l: seq<Transfer>, i: nat, j: nat): seq<Transfer>
    requires i < j < |l|
  {
    l[i := l[j]][j := l[i]]
  }

  lemma SwapIsListing(docs: set<Transfer>, p: Params, l: seq<Transfer>, i: nat, j: nat)
    requires Listing(docs, p, l) && i < j < |l| && Tied(l[i], l[j])
    ensures Listing(docs, p, Swapped(l, i, j)) && Swapped(l, i, j) != l
  {
    var m := Swapped(l, i, j);
    assert m[i] == l[j] && m[j] == l[i];
    forall t
      ensures t in m <==> t in l
    {
      if t in l {
        var k :| 0 <= k < |l| && l[k] == t;
        assert m[if k == i then j else if k == j then i else k] == t;
      }
    }
    forall a, b | 0 <= a < b < |m|
      ensures m[a] != m[b] && !Before(m[b], m[a])
    {
      assert Tied(m[a], l[a]) && Tied(m[b], l[b]);
    }
  }

  /** The listing is determined, whatever the server does, exactly when no two selected
      documents share their block and log index. */
  lemma ListingDetermined(docs: set<Transfer>, p: Params, l: seq<Transfer>)
    requires Listing(docs, p, l)
    ensures (forall m :: Listing(docs, p, m) ==> m == l) <==> Untied(l)
  {
    if Untied(l) {
      forall m | Listing(docs, p, m)
        ensures m == l
      {
        SameListing(l, m);
      }
    } else {
      var i, j :| 0 <= i < j < |l| && Tied(l[i], l[j]);
      SwapIsListing(docs, p, l, i, j);
    }
  }

  /** Log indices are unique within their block. */
  ghost predicate IndexedBlocks(chain: Chain) {
    forall h, i, j ::
      HasLog(chain, h, i) && HasLog(chain, h, j) && chain[h].logs[i].index == chain[h].logs[j].index ==> i == j
  }

  /** Then the documents of a chain are never tied. */
  lemma ChainUntied(chain: GoodChain, lo: nat, hi: nat, docs: set<Transfer>, p: Params, l: seq<Transfer>)
    requires hi <= |chain| && IndexedBlocks(chain) && Listing(docs, p, l)
    requires forall t :: t in docs ==> t in Transfers(chain, lo, hi)
    ensures Untied(l)
  {
    forall i, j | 0 <= i < j < |l|
      ensures !Tied(l[i], l[j])
    {
      assert l[i] in l && l[j] in l;
      if Tied(l[i], l[j]) {
        TiedSame(chain, lo, hi, l[i], l[j]);
      }
    }
  }

  lemma TiedSame(chain: GoodChain, lo: nat, hi: nat, t: Transfer, u: Transfer)
    requires hi <= |chain| && IndexedBlocks(chain) && Tied(t, u)
    requires t in Transfers(chain, lo, hi) && u in Transfers(chain, lo, hi)
    ensures t == u
  {
    var h, i := TransferOrigin(chain, lo, hi, t);
    var k, j := TransferOrigin(chain, lo, hi, u);
    ParseFidelity(chain[h].logs[i], chain[h].timestamp);
    ParseFidelity(chain[k].logs[j], chain[k].timestamp);
  }

  /** Skip and limit; a limit of 0 is no limit. */
  function Page(l: seq<Transfer>, offset: nat, limit: nat): seq<Transfer> {
    var rest := if offset <= |l| then l[offset..] else [];
    if limit == 0 || limit >= |rest| then rest else rest[..limit]
  }

  /** A page shows the documents from its offset on, as many as the limit allows. */
  lemma PageContents(l: seq<Transfer>, offset: nat, limit: nat)
    ensures forall k: nat ::
              k < |Page(l, offset, limit)| ==> offset + k < |l| && Page(l, offset, limit)[k] == l[offset + k]
    ensures limit > 0 ==> |Page(l, offset, limit)| <= limit
    ensures offset + |Page(l, offset, limit)| < |l| ==> 0 < limit == |Page(l, offset, limit)|
  {
    if offset < |l| {
      var rest := l[offset..];
      assert forall k :: 0 <= k < |rest| ==> rest[k] == l[offset + k];
      assert |Page(l, offset, limit)| == if 0 < limit < |rest| then limit else |rest|;
    } else {
      assert Page(l, offset, limit) == [];
    }
  }

  /** The first n pages, one after the other. */
  function Pages(l: seq<Transfer>, limit: nat, n: nat): seq<Transfer> {
    if n == 0 then [] else Pages(l, limit, n - 1) + Page(l, limit * (n - 1), limit)
  }

  lemma {:induction false} PagesTile(l: seq<Transfer>, limit: nat, n: nat)
    requires limit >= 1
    ensures Pages(l, limit, n) == l[..Min(|l|, limit * n)]
  {
    if n > 0 {
      PagesTile(l, limit, n - 1);
      MulAdd(limit, n - 1, 1);
      var a := limit * (n - 1);
      if a < |l| {
        assert l[..a] + Page(l, a, limit) == l[..Min(|l|, a + limit)];
      }
    }
  }

  /** Paging through an unchanged collection, whatever the server does for each page,
      shows every selected document exactly once. */
  lemma PagingIsComplete(docs: set<Transfer>, p: Params, listings: seq<seq<Transfer>>, limit: nat, l: seq<Transfer>)
    requires limit >= 1 && Listing(docs, p, l) && Untied(l)
    requires forall k :: 0 <= k < |listings| ==> Listing(docs, p, listings[k])
    requires limit * |listings| >= |l|
    ensures Shown(listings, limit, |listings|) == l
  {
    forall k | 0 <= k < |listings|
      ensures listings[k] == l
    {
      SameListing(l, listings[k]);
    }
    ShownPages(listings, limit, |listings|, l);
    PagesTile(l, limit, |listings|);
  }

  /** Page k taken from the k-th listing. */
  function Shown(listings: seq<seq<Transfer>>, limit: nat, n: nat): seq<Transfer>
    requires n <= |listings|
  {
    if n == 0 then [] else Shown(listings, limit, n - 1) + Page(listings[n - 1], limit * (n - 1), limit)
  }

  lemma {:induction false} ShownPages(listings: seq<seq<Transfer>>, limit: nat, n: nat, l: seq<Transfer>)
    requires n <= |listings| && forall k :: 0 <= k < |listings| ==> listings[k] == l
    ensures Shown(listings, limit, n) == Pages(l, limit, n)
  {
    if n > 0 {
      ShownPages(listings, limit, n - 1, l);
    }
  }
}
