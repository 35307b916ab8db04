/**
 Round-robin over a list that may shrink between selections: who is picked, how often,
 and how long one entry can be passed over.
 */
module RoundRobin {
  import opened Arithmetic
  import opened Breakers
  import opened Pools

  /** The pick of the k-th selection from counter c when the lists were these. */
  function PickAt(lists: seq<seq<nat>>, c: nat, k: nat): nat
    requires k < |lists| && lists[k] != []
  {
    Pick(lists[k], c + k)
  }

  /** From one selection to the next the list stays as it is or gets shorter. */
  predicate Shrinking(lists: seq<seq<nat>>) {
    forall k :: 0 <= k < |lists| - 1 ==> lists[k + 1] == lists[k] || |lists[k + 1]| < |lists[k]|
  }

  predicate AlwaysListed(lists: seq<seq<nat>>, t: nat) {
    forall k :: 0 <= k < |lists| ==> t in lists[k]
  }

  predicate PassedOver(lists: seq<seq<nat>>, c: nat, t: nat)
    requires AlwaysListed(lists, t)
  {
    forall k :: 0 <= k < |lists| ==> PickAt(lists, c, k) != t
  }

  /** h(h-1)/2, by summing. */
  function Triangle(h: nat): nat {
    if h == 0 then 0 else Triangle(h - 1) + h - 1
  }

  lemma {:induction false} TriangleClosedForm(h: nat)
    ensures 2 * Triangle(h) == h * (h - 1)
  {
    if h > 0 {
      TriangleClosedForm(h - 1);
    }
  }

  lemma {:induction false} TriangleMonotone(a: nat, b: nat)
    requires a <= b
    ensures Triangle(a) <= Triangle(b)
  {
    if a < b {
      TriangleMonotone(a, b - 1);
    }
  }

  /** Some selection among any h consecutive ones hits a given index. */
  lemma HitWithinRound(c: nat, h: nat, j: nat) returns (k: nat)
    requires j < h
    ensures k < h && (c + k) % h == j
  {
    var r := c % h;
    k := if j >= r then j - r else j + h - r;
    var q := c / h;
    assert c == h * q + r;
    if j >= r {
      QuotientUnique(c + k, h, q, j);
    } else {
      MulAdd(h, q, 1);
      QuotientUnique(c + k, h, q + 1, j);
    }
  }

  /** While the list does not change, everyone on it is picked within one round. */
  lemma SteadyRound(lists: seq<seq<nat>>, c: nat, t: nat, e: nat)
    requires e <= |lists| && lists != [] && AlwaysListed(lists, t) && PassedOver(lists, c, t)
    requires forall k :: 0 <= k < e ==> lists[k] == lists[0]
    ensures e < |lists[0]|
  {
    assert t in lists[0];
    var j :| 0 <= j < |lists[0]| && lists[0][j] == t;
    var k := HitWithinRound(c, |lists[0]|, j);
    assert k < e ==> PickAt(lists, c, k) == t;
  }

  lemma {:induction false} SteadyPrefix(lists: seq<seq<nat>>) returns (e: nat)
    requires lists != [] && Shrinking(lists)
    ensures 1 <= e <= |lists| && forall k :: 0 <= k < e ==> lists[k] == lists[0]
    ensures e < |lists| ==> |lists[e]| < |lists[0]|
  {
    e := 1;
    while e < |lists| && lists[e] == lists[0]
      invariant 1 <= e <= |lists| && forall k :: 0 <= k < e ==> lists[k] == lists[0]
    {
      e := e + 1;
    }
    if e < |lists| {
      assert lists[e - 1 + 1] == lists[e - 1] || |lists[e - 1 + 1]| < |lists[e - 1]|;
    }
  }

  /** However the list shrinks and the indices shift, an entry that stays listed is passed
      over by at most h(h-1)/2 consecutive picks, h being the first length. */
  lemma {:induction false} ListBypass(lists: seq<seq<nat>>, c: nat, t: nat)
    requires lists != [] && Shrinking(lists) && AlwaysListed(lists, t) && PassedOver(lists, c, t)
    ensures 2 * |lists| <= |lists[0]| * (|lists[0]| - 1)
  {
    BypassTriangle(lists, c, t);
    TriangleClosedForm(|lists[0]|);
  }

  lemma DropKeeps(lists: seq<seq<nat>>, c: nat, t: nat, e: nat)
    requires e <= |lists| && Shrinking(lists) && AlwaysListed(lists, t) && PassedOver(lists, c, t)
    ensures Shrinking(lists[e..]) && AlwaysListed(lists[e..], t) && PassedOver(lists[e..], c + e, t)
  {
    var rest := lists[e..];
    forall k: nat | k < |rest|
      ensures rest[k] != [] && PickAt(rest, c + e, k) != t
    {
      assert rest[k] == lists[e + k];
      assert PickAt(lists, c, e + k) != t;
    }
  }

  lemma {:induction false} BypassTriangle(lists: seq<seq<nat>>, c: nat, t: nat)
    requires lists != [] && Shrinking(lists) && AlwaysListed(lists, t) && PassedOver(lists, c, t)
    ensures |lists| <= Triangle(|lists[0]|)
    decreases |lists|
  {
    var e := SteadyPrefix(lists);
    SteadyRound(lists, c, t, e);
    var h := |lists[0]|;
    if e < |lists| {
      var rest := lists[e..];
      DropKeeps(lists, c, t, e);
      BypassTriangle(rest, c + e, t);
      TriangleMonotone(|rest[0]|, h - 1);
    }
  }

  // -------------------------------------------------------------- fairness

  /** How many of the selections c, ..., c + m - 1 hit index j of a list of length h. */
  function Hits(c: nat, h: nat, j: nat, m: nat): nat
    requires h >= 1
  {
    if m == 0 then 0 else Hits(c, h, j, m - 1) + if (c + m - 1) % h == j then 1 else 0
  }

  /** How many numbers below x leave remainder j. */
  function Below(x: nat, h: nat, j: nat): nat
    requires h >= 1
  {
    x / h + if x % h > j then 1 else 0
  }

  lemma {:induction false} HitsBetween(c: nat, h: nat, j: nat, m: nat)
    requires j < h
    ensures Hits(c, h, j, m) == Below(c + m, h, j) - Below(c, h, j)
  {
    if m > 0 {
      HitsBetween(c, h, j, m - 1);
      NextQuotient(c + m - 1, h);
    }
  }

  lemma HitsInRound(c: nat, h: nat, j: nat, m: nat)
    requires j < h
    ensures m / h <= Hits(c, h, j, m) <= m / h + (if m % h == 0 then 0 else 1)
  {
    HitsBetween(c, h, j, m);
    QuotientOfSum(c, m, h);
  }

  /** How many of the first m selections choose t: the pools as the selections find them
      and the times at which they are made. */
  function TimesChosen(pools: seq<Pool>, times: seq<int>, t: nat, m: nat): nat
    requires m <= |pools| == |times| && forall k :: 0 <= k < |pools| ==> pools[k].Valid()
  {
    if m == 0 then 0
    else TimesChosen(pools, times, t, m - 1) + if Select(pools[m - 1], times[m - 1]).1 == Chosen(t) then 1 else 0
  }

  /** The healthy list that the k-th selection finds. */
  function ListAt(pools: seq<Pool>, times: seq<int>, k: nat): seq<nat>
    requires k < |pools| == |times| && pools[k].Valid()
  {
    HealthyList(RecheckAll(pools[k], times[k]).breakers)
  }

  /** Consecutive selections: in between breakers may change in any way, but nobody else
      selects. */
  predicate Chained(pools: seq<Pool>, times: seq<int>) {
    && |pools| == |times|
    && (forall k :: 0 <= k < |pools| ==> pools[k].Valid())
    && (forall k :: 0 <= k < |pools| - 1 ==> pools[k + 1].current == Select(pools[k], times[k]).0.current)
  }

  /** Consecutive selections that all find this healthy list. */
  predicate Consecutive(pools: seq<Pool>, times: seq<int>, list: seq<nat>) {
    Chained(pools, times) && forall k :: 0 <= k < |pools| ==> ListAt(pools, times, k) == list
  }

  lemma {:induction false} HealthyAmongIncreasing(bs: seq<Breaker>, n: nat)
    requires n <= |bs|
    ensures forall i, j :: 0 <= i < j < |HealthyAmong(bs, n)| ==> HealthyAmong(bs, n)[i] < HealthyAmong(bs, n)[j]
  {
    if n > 0 {
      HealthyAmongIncreasing(bs, n - 1);
      HealthyAmongContents(bs, n - 1);
      var before := HealthyAmong(bs, n - 1);
      assert forall i :: 0 <= i < |before| ==> before[i] in before;
    }
  }

  lemma SelectsPickOf(p: Pool, now: int)
    requires p.Valid()
    ensures var list := HealthyList(RecheckAll(p, now).breakers);
            list != [] ==>
              Select(p, now).1 == Chosen(Pick(list, p.current)) && Select(p, now).0.current == p.current + 1
  {
  }

  lemma {:induction false} CounterAdvances(pools: seq<Pool>, times: seq<int>, k: nat)
    requires Chained(pools, times) && k < |pools|
    requires forall i :: 0 <= i < k ==> ListAt(pools, times, i) != []
    ensures pools[k].current == pools[0].current + k
  {
    hide Select, RecheckAll;
    if k > 0 {
      CounterAdvances(pools, times, k - 1);
      SelectsPickOf(pools[k - 1], times[k - 1]);
      assert ListAt(pools, times, k - 1) != [];
      assert pools[k - 1 + 1].current == Select(pools[k - 1], times[k - 1]).0.current;
    }
  }

  /** The k-th of consecutive selections chooses by the counter of the first. */
  lemma ConsecutiveChoice(pools: seq<Pool>, times: seq<int>, list: seq<nat>, k: nat)
    requires Consecutive(pools, times, list) && list != [] && k < |pools|
    ensures Select(pools[k], times[k]).1 == Chosen(list[(pools[0].current + k) % |list|])
  {
    hide Select, RecheckAll;
    CounterAdvances(pools, times, k);
    SelectsPickOf(pools[k], times[k]);
    assert ListAt(pools, times, k) == list;
  }

  lemma {:induction false} ChosenIsHit(pools: seq<Pool>, times: seq<int>, list: seq<nat>, j: nat, m: nat)
    requires Consecutive(pools, times, list) && j < |list| && m <= |pools| && pools != []
    requires forall a, b :: 0 <= a < b < |list| ==> list[a] != list[b]
    ensures TimesChosen(pools, times, list[j], m) == Hits(pools[0].current, |list|, j, m)
  {
    hide Select, RecheckAll;
    if m > 0 {
      ChosenIsHit(pools, times, list, j, m - 1);
      ConsecutiveChoice(pools, times, list, m - 1);
    }
  }

  lemma {:induction false} NeverChosen(pools: seq<Pool>, times: seq<int>, list: seq<nat>, t: nat, m: nat)
    requires Consecutive(pools, times, list) && list != [] && t !in list && m <= |pools|
    ensures TimesChosen(pools, times, t, m) == 0
  {
    hide Select, RecheckAll;
    if m > 0 {
      NeverChosen(pools, times, list, t, m - 1);
      ConsecutiveChoice(pools, times, list, m - 1);
    }
  }

  /** Fair rotation: while the healthy list is the same, m consecutive selections choose
      each provider on it floor(m/h) or ceil(m/h) times, h being its length, and nobody
      else. */
  lemma FairRotation(pools: seq<Pool>, times: seq<int>, list: seq<nat>, t: nat)
    requires Consecutive(pools, times, list) && list != []
    ensures var m, h := |pools|, |list|;
            if t in list then m / h <= TimesChosen(pools, times, t, m) <= m / h + (if m % h == 0 then 0 else 1)
            else TimesChosen(pools, times, t, m) == 0
  {
    if pools == [] {
    } else if t in list {
      var j :| 0 <= j < |list| && list[j] == t;
      assert ListAt(pools, times, 0) == list;
      var bs := RecheckAll(pools[0], times[0]).breakers;
      HealthyAmongIncreasing(bs, |bs|);
      ChosenIsHit(pools, times, list, j, |pools|);
      HitsInRound(pools[0].current, |list|, j, |pools|);
    } else {
      NeverChosen(pools, times, list, t, |pools|);
    }
  }

  // --------------------------------------------------------- bounded bypass

  /** No provider that one selection finds open is found not open by the next. */
  ghost predicate NobodyRecovers(pools: seq<Pool>, times: seq<int>)
    requires Chained(pools, times)
  {
    forall k :: 0 <= k < |pools| - 1 ==>
      NoneRecovered(RecheckAll(pools[k], times[k]).breakers, RecheckAll(pools[k + 1], times[k + 1]).breakers)
  }

  predicate NoneRecovered(before: seq<Breaker>, after: seq<Breaker>) {
    && |before| == |after|
    && forall i :: 0 <= i < |before| && before[i].health == Unhealthy ==> after[i].health == Unhealthy
  }

  lemma {:induction false} FewerHealthy(before: seq<Breaker>, after: seq<Breaker>, n: nat)
    requires NoneRecovered(before, after) && n <= |before|
    ensures |HealthyAmong(after, n)| <= |HealthyAmong(before, n)|
    ensures |HealthyAmong(after, n)| == |HealthyAmong(before, n)| ==> HealthyAmong(after, n) == HealthyAmong(before, n)
  {
    if n > 0 {
      FewerHealthy(before, after, n - 1);
    }
  }

  function ListsOf(pools: seq<Pool>, times: seq<int>, n: nat): (lists: seq<seq<nat>>)
    requires Chained(pools, times) && n <= |pools|
    ensures |lists| == n && forall k :: 0 <= k < n ==> lists[k] == ListAt(pools, times, k)
  {
    if n == 0 then [] else ListsOf(pools, times, n - 1) + [ListAt(pools, times, n - 1)]
  }

  /** Bounded bypass. While no provider recovers, one that stays healthy is passed over by
      at most h(h-1)/2 consecutive selections, h being how many are healthy at the first
      of them, although the list shrinks and the indices shift. */
  lemma BoundedBypass(pools: seq<Pool>, times: seq<int>, t: nat)
    requires pools != [] && Chained(pools, times) && NobodyRecovers(pools, times)
    requires forall k :: 0 <= k < |pools| ==> t in ListAt(pools, times, k)
    requires forall k :: 0 <= k < |pools| ==> Select(pools[k], times[k]).1 != Chosen(t)
    ensures var h := |ListAt(pools, times, 0)|; 2 * |pools| <= h * (h - 1)
  {
    var lists, c := ListsOf(pools, times, |pools|), pools[0].current;
    forall k: nat | k < |lists| - 1
      ensures lists[k + 1] == lists[k] || |lists[k + 1]| < |lists[k]|
    {
      NextListShorter(pools, times, k);
    }
    forall k: nat | k < |lists|
      ensures PickAt(lists, c, k) != t
    {
      CounterAdvances(pools, times, k);
      SelectsPickOf(pools[k], times[k]);
    }
    ListBypass(lists, c, t);
  }

  lemma NextListShorter(pools: seq<Pool>, times: seq<int>, k: nat)
    requires Chained(pools, times) && NobodyRecovers(pools, times) && k + 1 < |pools|
    ensures ListAt(pools, times, k + 1) == ListAt(pools, times, k)
         || |ListAt(pools, times, k + 1)| < |ListAt(pools, times, k)|
  {
    var before, after := RecheckAll(pools[k], times[k]).breakers, RecheckAll(pools[k + 1], times[k + 1]).breakers;
    assert NoneRecovered(before, after);
    FewerHealthy(before, after, |before|);
  }
}
