/**
 The event stream: a buffer for events that nobody is there to receive, a replay of it
 to each new subscriber, and live delivery that drops rather than waits. One publisher;
 the k-th event published is the number k.
 */
module Streams {
  import opened Wrappers

  /** One subscription. `joined` and `snapshot` are what had been published and what was
      buffered when it was made; `live` and `dropped` what later publishes did. */
  datatype Client = Client(
    open: bool, queue: seq<nat>, received: seq<nat>,
    joined: nat, snapshot: seq<nat>, copy: Option<seq<nat>>, replayed: nat, replayOver: bool,
    live: seq<nat>, dropped: nat)

  datatype Stream = Stream(published: nat, buffer: seq<nat>, clients: map<nat, Client>)

  function New(): Stream {
    Stream(0, [], map[])
  }

  function Buffered(buffer: seq<nat>, size: nat, e: nat): seq<nat> {
    if |buffer| < size then buffer + [e] else buffer
  }

  /** A send that does not wait: into the queue if there is room, to a waiting receiver if
      the channel has no queue at all. */
  predicate Accepts(c: Client, size: nat, waiting: bool) {
    |c.queue| < size || (size == 0 && waiting)
  }

  function Sent(c: Client, size: nat, e: nat): Client {
    if size == 0 then c.(received := c.received + [e]) else c.(queue := c.queue + [e])
  }

  function Offered(c: Client, size: nat, e: nat, waiting: bool): Client {
    if Accepts(c, size, waiting) then Sent(c, size, e).(live := c.live + [e])
    else c.(dropped := c.dropped + 1)
  }

  predicate SomeoneOpen(s: Stream) {
    exists id :: id in s.clients && s.clients[id].open
  }

  function OfferAll(s: Stream, size: nat, waiting: set<nat>): map<nat, Client> {
    map id | id in s.clients ::
      if s.clients[id].open then Offered(s.clients[id], size, s.published, id in waiting) else s.clients[id]
  }

  datatype Step =
    | Publish(ready: set<nat>)
    | Subscribe(id: nat)
    | CopyBuffer(id: nat)
    | ReplayNext(id: nat, waiting: bool)
    | ReplayTimesOut(id: nat)
    | Receive(id: nat)
    | Cleanup(id: nat)

  predicate IsOpen(s: Stream, id: nat) {
    id in s.clients && s.clients[id].open
  }

  predicate Enabled(s: Stream, size: nat, step: Step) {
    match step
    case Publish(_) => true
    case Subscribe(id) => id !in s.clients
    case CopyBuffer(id) => IsOpen(s, id) && s.clients[id].copy.None?
    case ReplayNext(id, waiting) =>
      && IsOpen(s, id) && s.clients[id].copy.Some? && !s.clients[id].replayOver
      && s.clients[id].replayed < |s.clients[id].copy.value| && Accepts(s.clients[id], size, waiting)
    case ReplayTimesOut(id) => IsOpen(s, id) && s.clients[id].copy.Some?
    case Receive(id) => id in s.clients && s.clients[id].queue != []
    case Cleanup(id) => IsOpen(s, id)
  }

  function Apply(s: Stream, size: nat, step: Step): Stream
    requires Enabled(s, size, step)
  {
    match step
    case Publish(waiting) =>
      if SomeoneOpen(s) then s.(published := s.published + 1, clients := OfferAll(s, size, waiting))
      else s.(published := s.published + 1, buffer := Buffered(s.buffer, size, s.published))
    case Subscribe(id) =>
      s.(clients := s.clients[id := Client(true, [], [], s.published, s.buffer, None, 0, false, [], 0)])
    case CopyBuffer(id) => With(s, id, s.clients[id].(copy := Some(s.buffer)))
    case ReplayNext(id, _) =>
      var c := s.clients[id];
      With(s, id, Sent(c, size, c.copy.value[c.replayed]).(replayed := c.replayed + 1))
    case ReplayTimesOut(id) => With(s, id, s.clients[id].(replayOver := true))
    case Receive(id) =>
      var c := s.clients[id];
      With(s, id, c.(queue := c.queue[1..], received := c.received + [c.queue[0]]))
    case Cleanup(id) => With(s, id, s.clients[id].(open := false))
  }

  function With(s: Stream, id: nat, c: Client): Stream {
    s.(clients := s.clients[id := c])
  }

  predicate CanRun(size: nat, steps: seq<Step>)
    decreases |steps|, 0
  {
    steps == [] ||
    (CanRun(size, steps[..|steps| - 1]) && Enabled(Exec(size, steps[..|steps| - 1]), size, steps[|steps| - 1]))
  }

  function Exec(size: nat, steps: seq<Step>): Stream
    requires CanRun(size, steps)
    decreases |steps|, 1
  {
    if steps == [] then New()
    else Apply(Exec(size, steps[..|steps| - 1]), size, steps[|steps| - 1])
  }

  // -------------------------------------------------------------------- merges

  /** m interleaves a and b and keeps the order of each. */
  predicate Merges(m: seq<nat>, a: seq<nat>, b: seq<nat>)
    decreases |m|
  {
    if m == [] then a == [] && b == []
    else
      var n := |m| - 1;
      || (a != [] && a[|a| - 1] == m[n] && Merges(m[..n], a[..|a| - 1], b))
      || (b != [] && b[|b| - 1] == m[n] && Merges(m[..n], a, b[..|b| - 1]))
  }

  lemma MergesGrow(m: seq<nat>, a: seq<nat>, b: seq<nat>, e: nat)
    requires Merges(m, a, b)
    ensures Merges(m + [e], a + [e], b) && Merges(m + [e], a, b + [e])
  {
    assert (m + [e])[..|m|] == m && (a + [e])[..|a|] == a && (b + [e])[..|b|] == b;
  }

  predicate Increasing(s: seq<nat>, lo: nat, hi: nat) {
    && (forall i :: 0 <= i < |s| ==> lo <= s[i] < hi)
    && (forall i, j :: 0 <= i < j < |s| ==> s[i] < s[j])
  }

  lemma {:induction false} MergesElements(m: seq<nat>, a: seq<nat>, b: seq<nat>, x: nat)
    requires Merges(m, a, b)
    ensures x in m <==> x in a || x in b
    ensures |m| == |a| + |b|
    decreases |m|
  {
    if m != [] {
      var n := |m| - 1;
      assert m == m[..n] + [m[n]];
      if a != [] && a[|a| - 1] == m[n] && Merges(m[..n], a[..|a| - 1], b) {
        assert a == a[..|a| - 1] + [m[n]];
        MergesElements(m[..n], a[..|a| - 1], b, x);
      } else {
        assert b == b[..|b| - 1] + [m[n]];
        MergesElements(m[..n], a, b[..|b| - 1], x);
      }
    }
  }

  predicate Distinct(s: seq<nat>) {
    forall i, j :: 0 <= i < j < |s| ==> s[i] != s[j]
  }

  lemma {:induction false} MergesDistinct(m: seq<nat>, a: seq<nat>, b: seq<nat>, mid: nat, hi: nat)
    requires Merges(m, a, b) && Increasing(a, 0, mid) && Increasing(b, mid, hi)
    ensures Distinct(m)
    decreases |m|
  {
    if m != [] {
      var n := |m| - 1;
      if a != [] && a[|a| - 1] == m[n] && Merges(m[..n], a[..|a| - 1], b) {
        MergesElements(m[..n], a[..|a| - 1], b, m[n]);
        MergesDistinct(m[..n], a[..|a| - 1], b, mid, hi);
      } else {
        MergesElements(m[..n], a, b[..|b| - 1], m[n]);
        MergesDistinct(m[..n], a, b[..|b| - 1], mid, hi);
      }
    }
  }

  // ----------------------------------------------------------------- invariant

  function Got(c: Client): seq<nat> {
    c.received + c.queue
  }

  ghost predicate ClientHolds(s: Stream, size: nat, c: Client) {
    && |c.queue| <= size && c.joined <= s.published
    && Increasing(c.snapshot, 0, c.joined)
    && c.replayed <= |c.snapshot| && Merges(Got(c), c.snapshot[..c.replayed], c.live)
    && Increasing(c.live, c.joined, s.published)
    && (c.open ==>
          && c.snapshot == s.buffer && (c.copy.Some? ==> c.copy.value == c.snapshot)
          && |c.live| + c.dropped == s.published - c.joined)
  }

  ghost predicate Invariant(s: Stream, size: nat) {
    && |s.buffer| <= size && Increasing(s.buffer, 0, s.published)
    && forall id :: id in s.clients ==> ClientHolds(s, size, s.clients[id])
  }

  lemma SentMerges(c: Client, size: nat, e: nat, waiting: bool)
    requires Accepts(c, size, waiting) && |c.queue| <= size
    ensures Got(Sent(c, size, e)) == Got(c) + [e] && |Sent(c, size, e).queue| <= size
  {
    assert size == 0 ==> c.queue == [];
    assert c.received + (c.queue + [e]) == c.received + c.queue + [e];
  }

  lemma IncreasingLater(live: seq<nat>, lo: nat, hi: nat)
    requires Increasing(live, lo, hi) && lo <= hi
    ensures Increasing(live, lo, hi + 1) && Increasing(live + [hi], lo, hi + 1)
  {
  }

  lemma SentKeeps(c: Client, size: nat, e: nat)
    ensures var d := Sent(c, size, e);
            && d.open == c.open && d.joined == c.joined && d.snapshot == c.snapshot && d.copy == c.copy
            && d.replayed == c.replayed && d.live == c.live && d.dropped == c.dropped
  {
  }

  lemma GotOf(c: Client, d: Client)
    requires c.received == d.received && c.queue == d.queue
    ensures Got(c) == Got(d)
  {
  }

  lemma OfferHolds(s: Stream, size: nat, c: Client, waiting: bool)
    requires ClientHolds(s, size, c) && c.open
    ensures ClientHolds(s.(published := s.published + 1), size, Offered(c, size, s.published, waiting))
  {
    hide Merges, Increasing, Sent, Got;
    IncreasingLater(c.live, c.joined, s.published);
    SentKeeps(c, size, s.published);
    if Accepts(c, size, waiting) {
      SentMerges(c, size, s.published, waiting);
      MergesGrow(Got(c), c.snapshot[..c.replayed], c.live, s.published);
      GotOf(Offered(c, size, s.published, waiting), Sent(c, size, s.published));
    } else {
      GotOf(Offered(c, size, s.published, waiting), c);
    }
  }

  lemma ReplayHolds(s: Stream, size: nat, c: Client, waiting: bool)
    requires ClientHolds(s, size, c) && c.open && c.copy.Some? && c.replayed < |c.copy.value|
    requires Accepts(c, size, waiting)
    ensures ClientHolds(s, size, Sent(c, size, c.copy.value[c.replayed]).(replayed := c.replayed + 1))
  {
    hide Merges, Increasing, Sent, Got;
    var e := c.snapshot[c.replayed];
    SentKeeps(c, size, e);
    GotOf(Sent(c, size, e).(replayed := c.replayed + 1), Sent(c, size, e));
    SentMerges(c, size, e, waiting);
    MergesGrow(Got(c), c.snapshot[..c.replayed], c.live, e);
    assert c.snapshot[..c.replayed] + [e] == c.snapshot[..c.replayed + 1];
  }

  lemma SubscribedHolds(s: Stream, size: nat)
    requires Invariant(s, size)
    ensures ClientHolds(s, size, Client(true, [], [], s.published, s.buffer, None, 0, false, [], 0))
  {
    assert s.buffer[..0] == [];
  }

  lemma ClosedHolds(s: Stream, size: nat, c: Client, after: Stream)
    requires ClientHolds(s, size, c) && !c.open && s.published <= after.published
    ensures ClientHolds(after, size, c)
  {
  }

  /** A step of one client's own keeps it right. */
  lemma OwnStepHolds(s: Stream, size: nat, step: Step, id: nat)
    requires Invariant(s, size) && Enabled(s, size, step) && id in s.clients
    requires step == CopyBuffer(id) || step == ReplayTimesOut(id) || step == Receive(id) || step == Cleanup(id)
    ensures ClientHolds(s, size, Apply(s, size, step).clients[id])
  {
    hide Merges, Increasing;
    assert Got(Apply(s, size, step).clients[id]) == Got(s.clients[id]);
  }

  lemma SameHolds(s: Stream, size: nat, c: Client, after: Stream)
    requires ClientHolds(s, size, c) && after.published == s.published && after.buffer == s.buffer
    ensures ClientHolds(after, size, c)
  {
  }

  lemma ClientsHold(s: Stream, size: nat, step: Step, id: nat)
    requires Invariant(s, size) && Enabled(s, size, step) && id in Apply(s, size, step).clients
    ensures ClientHolds(Apply(s, size, step), size, Apply(s, size, step).clients[id])
  {
    hide ClientHolds, Merges, Increasing, Offered;
    var after := Apply(s, size, step);
    if step.Publish? {
      if s.clients[id].open {
        OfferHolds(s, size, s.clients[id], id in step.ready);
        SameHolds(s.(published := s.published + 1), size, after.clients[id], after);
      } else {
        ClosedHolds(s, size, s.clients[id], after);
      }
    } else {
      if step.Subscribe? && id == step.id {
        SubscribedHolds(s, size);
      } else if step.ReplayNext? && id == step.id {
        ReplayStepHolds(s, size, id, step.waiting);
      } else if id == step.id {
        OwnStepHolds(s, size, step, id);
      }
      SameHolds(s, size, after.clients[id], after);
    }
  }

  lemma ReplayStepHolds(s: Stream, size: nat, id: nat, waiting: bool)
    requires Invariant(s, size) && Enabled(s, size, ReplayNext(id, waiting))
    ensures ClientHolds(s, size, Apply(s, size, ReplayNext(id, waiting)).clients[id])
  {
    hide Merges, Increasing, Sent;
    ReplayHolds(s, size, s.clients[id], waiting);
  }

  lemma StepKeepsInvariant(s: Stream, size: nat, step: Step)
    requires Invariant(s, size) && Enabled(s, size, step)
    ensures Invariant(Apply(s, size, step), size)
  {
    hide ClientHolds;
    forall id | id in Apply(s, size, step).clients
      ensures ClientHolds(Apply(s, size, step), size, Apply(s, size, step).clients[id])
    {
      ClientsHold(s, size, step, id);
    }
  }

  lemma {:induction false} RunKeepsInvariant(size: nat, steps: seq<Step>)
    requires CanRun(size, steps)
    ensures Invariant(Exec(size, steps), size)
    decreases |steps|
  {
    hide Apply, Enabled;
    if steps != [] {
      RunKeepsInvariant(size, steps[..|steps| - 1]);
      StepKeepsInvariant(Exec(size, steps[..|steps| - 1]), size, steps[|steps| - 1]);
    }
  }

  /** Stream delivery. What a client has received and has queued is an order-preserving
      merge of a prefix of the buffer at its subscription and a subsequence of the events
      published since; no event reaches it twice; while it is open every later event is
      either among them or was dropped because its channel was full; and the buffer never
      exceeds its size. */
  lemma Delivery(size: nat, steps: seq<Step>, id: nat)
    requires CanRun(size, steps) && id in Exec(size, steps).clients
    ensures var s := Exec(size, steps);
            var c := s.clients[id];
            && |s.buffer| <= size && |c.queue| <= size
            && c.replayed <= |c.snapshot| && Merges(c.received + c.queue, c.snapshot[..c.replayed], c.live)
            && Increasing(c.snapshot, 0, c.joined) && Increasing(c.live, c.joined, s.published)
            && Distinct(c.received + c.queue)
            && (c.open ==> |c.live| + c.dropped == s.published - c.joined)
  {
    RunKeepsInvariant(size, steps);
    var c := Exec(size, steps).clients[id];
    MergesDistinct(Got(c), c.snapshot[..c.replayed], c.live, c.joined, Exec(size, steps).published);
  }

  /** At every publish so far the client's channel had room, or, if it has no queue,
      somebody was receiving from it. */
  predicate NeverFull(size: nat, steps: seq<Step>, id: nat)
    requires CanRun(size, steps)
    decreases |steps|
  {
    steps == [] ||
    var n := |steps| - 1;
    var before := Exec(size, steps[..n]);
    && NeverFull(size, steps[..n], id)
    && (steps[n].Publish? && IsOpen(before, id) ==>
          |before.clients[id].queue| < size || (size == 0 && id in steps[n].ready))
  }

  lemma StepDropsNothing(s: Stream, size: nat, step: Step, id: nat)
    requires Enabled(s, size, step) && IsOpen(Apply(s, size, step), id)
    requires IsOpen(s, id) ==> s.clients[id].dropped == 0
    requires step.Publish? && IsOpen(s, id) ==> |s.clients[id].queue| < size || (size == 0 && id in step.ready)
    ensures Apply(s, size, step).clients[id].dropped == 0
  {
  }

  lemma {:induction false} RoomDropsNothing(size: nat, steps: seq<Step>, id: nat)
    requires CanRun(size, steps) && NeverFull(size, steps, id)
    ensures IsOpen(Exec(size, steps), id) ==> Exec(size, steps).clients[id].dropped == 0
    decreases |steps|
  {
    hide Apply, Enabled;
    if steps != [] {
      var n := |steps| - 1;
      RoomDropsNothing(size, steps[..n], id);
      if IsOpen(Exec(size, steps), id) {
        StepDropsNothing(Exec(size, steps[..n]), size, steps[n], id);
      }
    }
  }

  lemma {:induction false} FullRange(s: seq<nat>, lo: nat, hi: nat, i: nat)
    requires Increasing(s, lo, hi) && lo <= hi && |s| == hi - lo && i < |s|
    ensures s[i] == lo + i
  {
    AtLeast(s, lo, hi, i);
    AtMost(s, lo, hi, i);
  }

  lemma {:induction false} AtLeast(s: seq<nat>, lo: nat, hi: nat, i: nat)
    requires Increasing(s, lo, hi) && i < |s|
    ensures s[i] >= lo + i
  {
    if i > 0 {
      AtLeast(s, lo, hi, i - 1);
    }
  }

  lemma {:induction false} AtMost(s: seq<nat>, lo: nat, hi: nat, i: nat)
    requires Increasing(s, lo, hi) && i < |s|
    ensures s[i] + (|s| - i) <= hi
    decreases |s| - i
  {
    if i + 1 < |s| {
      AtMost(s, lo, hi, i + 1);
    }
  }

  /** An open client whose channel always had room has got every event published since
      its subscription, in order. */
  lemma {:induction false} NothingMissed(size: nat, steps: seq<Step>, id: nat, i: nat)
    requires CanRun(size, steps) && NeverFull(size, steps, id) && IsOpen(Exec(size, steps), id)
    ensures var s := Exec(size, steps);
            var c := s.clients[id];
            && c.joined <= s.published && |c.live| == s.published - c.joined
            && (i < |c.live| ==> c.live[i] == c.joined + i)
  {
    RoomDropsNothing(size, steps, id);
    RunKeepsInvariant(size, steps);
    var c := Exec(size, steps).clients[id];
    if i < |c.live| {
      FullRange(c.live, c.joined, Exec(size, steps).published, i);
    }
  }

  lemma StepGrowsBuffer(s: Stream, size: nat, step: Step)
    requires Invariant(s, size) && Enabled(s, size, step)
    ensures s.buffer <= Apply(s, size, step).buffer
    ensures SomeoneOpen(s) || |s.buffer| == size ==> Apply(s, size, step).buffer == s.buffer
  {
  }

  /** Nothing ever leaves the buffer, so once full it replays the same oldest events to
      every later subscriber. */
  lemma {:induction false} BufferOnlyGrows(size: nat, steps: seq<Step>, n: nat)
    requires CanRun(size, steps) && n <= |steps|
    ensures CanRun(size, steps[..n]) && Exec(size, steps[..n]).buffer <= Exec(size, steps).buffer
    ensures |Exec(size, steps[..n]).buffer| == size ==> Exec(size, steps).buffer == Exec(size, steps[..n]).buffer
    decreases |steps|
  {
    hide Apply, Enabled, Invariant;
    if n == |steps| {
      assert steps[..n] == steps;
    } else {
      var m := |steps| - 1;
      BufferOnlyGrows(size, steps[..m], n);
      assert steps[..m][..n] == steps[..n];
      RunKeepsInvariant(size, steps[..m]);
      StepGrowsBuffer(Exec(size, steps[..m]), size, steps[m]);
    }
  }

  // ---------------------------------------------------------------- the buffer

  /** How many events have been published. */
  function Publications(steps: seq<Step>): nat {
    if steps == [] then 0
    else Publications(steps[..|steps| - 1]) + if steps[|steps| - 1].Publish? then 1 else 0
  }

  /** The events published while nobody was subscribed. */
  function Unattended(size: nat, steps: seq<Step>): seq<nat>
    requires CanRun(size, steps)
    decreases |steps|
  {
    if steps == [] then []
    else
      var n := |steps| - 1;
      Unattended(size, steps[..n]) +
      if steps[n].Publish? && !SomeoneOpen(Exec(size, steps[..n])) then [Publications(steps[..n])] else []
  }

  function FirstOf(events: seq<nat>, size: nat): seq<nat> {
    if |events| <= size then events else events[..size]
  }

  lemma StepBuffers(s: Stream, size: nat, step: Step)
    requires Enabled(s, size, step)
    ensures var after := Apply(s, size, step);
            && after.published == s.published + (if step.Publish? then 1 else 0)
            && after.buffer == if step.Publish? && !SomeoneOpen(s) && |s.buffer| < size then s.buffer + [s.published]
                               else s.buffer
  {
  }

  /** The buffer, exactly: the first events, as many as fit, of those published while
      nobody was subscribed. */
  lemma {:induction false} BufferExactly(size: nat, steps: seq<Step>)
    requires CanRun(size, steps)
    ensures Exec(size, steps).published == Publications(steps)
    ensures Exec(size, steps).buffer == FirstOf(Unattended(size, steps), size)
    decreases |steps|
  {
    if steps != [] {
      hide Apply, Enabled;
      var n := |steps| - 1;
      BufferExactly(size, steps[..n]);
      StepBuffers(Exec(size, steps[..n]), size, steps[n]);
    }
  }

  // ------------------------------------------------- what a subscription is given

  lemma StepKeepsClient(s: Stream, size: nat, step: Step, id: nat)
    requires Enabled(s, size, step) && id in s.clients
    ensures id in Apply(s, size, step).clients
    ensures var before, after := s.clients[id], Apply(s, size, step).clients[id];
            && after.snapshot == before.snapshot && after.joined == before.joined
            && (!before.open ==> !after.open && after.live == before.live && after.replayed == before.replayed)
            && (before.replayOver ==> after.replayOver && after.replayed == before.replayed)
  {
  }

  lemma {:induction false} ClientKept(size: nat, steps: seq<Step>, n: nat, id: nat)
    requires CanRun(size, steps) && n <= |steps|
    ensures CanRun(size, steps[..n])
    ensures id in Exec(size, steps[..n]).clients ==>
              && id in Exec(size, steps).clients
              && var before, after := Exec(size, steps[..n]).clients[id], Exec(size, steps).clients[id];
                 && after.snapshot == before.snapshot && after.joined == before.joined
                 && (!before.open ==> !after.open && after.live == before.live && after.replayed == before.replayed)
                 && (before.replayOver ==> after.replayOver && after.replayed == before.replayed)
    decreases |steps|
  {
    if n == |steps| {
      assert steps[..n] == steps;
    } else {
      hide Apply, Enabled;
      var m := |steps| - 1;
      ClientKept(size, steps[..m], n, id);
      assert steps[..m][..n] == steps[..n];
      if id in Exec(size, steps[..n]).clients {
        StepKeepsClient(Exec(size, steps[..m]), size, steps[m], id);
      }
    }
  }

  lemma StepAt(size: nat, steps: seq<Step>, n: nat)
    requires CanRun(size, steps) && n < |steps|
    ensures CanRun(size, steps[..n]) && Enabled(Exec(size, steps[..n]), size, steps[n])
    ensures CanRun(size, steps[..n + 1])
    ensures Exec(size, steps[..n + 1]) == Apply(Exec(size, steps[..n]), size, steps[n])
  {
    ClientKept(size, steps, n + 1, 0);
    assert steps[..n + 1][..n] == steps[..n];
  }

  /** What a client is replayed, and where its live events begin, is fixed when it
      subscribes: the buffer and the number of publications of that moment. */
  lemma SubscriptionFixes(size: nat, steps: seq<Step>, n: nat, id: nat)
    requires CanRun(size, steps) && n < |steps| && steps[n] == Subscribe(id)
    ensures CanRun(size, steps[..n]) && id in Exec(size, steps).clients
    ensures Exec(size, steps).clients[id].snapshot == Exec(size, steps[..n]).buffer
    ensures Exec(size, steps).clients[id].joined == Publications(steps[..n])
  {
    StepAt(size, steps, n);
    BufferExactly(size, steps[..n]);
    ClientKept(size, steps, n + 1, id);
  }

  /** After its cleanup a client is given nothing more. */
  lemma CleanupEnds(size: nat, steps: seq<Step>, n: nat, id: nat)
    requires CanRun(size, steps) && n < |steps| && steps[n] == Cleanup(id)
    ensures CanRun(size, steps[..n]) && id in Exec(size, steps[..n]).clients && id in Exec(size, steps).clients
    ensures var before, after := Exec(size, steps[..n]).clients[id], Exec(size, steps).clients[id];
            !after.open && after.live == before.live && after.replayed == before.replayed
  {
    StepAt(size, steps, n);
    ClientKept(size, steps, n + 1, id);
  }

  /** Once a replay has timed out its client is replayed nothing more. */
  lemma TimeoutEndsReplay(size: nat, steps: seq<Step>, n: nat, id: nat)
    requires CanRun(size, steps) && n < |steps| && steps[n] == ReplayTimesOut(id)
    ensures CanRun(size, steps[..n]) && id in Exec(size, steps[..n]).clients && id in Exec(size, steps).clients
    ensures Exec(size, steps).clients[id].replayed == Exec(size, steps[..n]).clients[id].replayed
  {
    StepAt(size, steps, n);
    ClientKept(size, steps, n + 1, id);
  }

  /** The replay of an open client is never stuck while its channel takes events: it can
      copy the buffer, and then send the next of the copied events until all are sent. */
  lemma ReplayGoesOn(size: nat, steps: seq<Step>, id: nat)
    requires CanRun(size, steps) && IsOpen(Exec(size, steps), id)
    ensures var s := Exec(size, steps);
            var c := s.clients[id];
            && c.replayed <= |c.snapshot|
            && (c.copy.None? ==> Enabled(s, size, CopyBuffer(id)))
            && (c.copy.Some? && c.replayed == |c.snapshot| ==> Merges(c.received + c.queue, c.snapshot, c.live))
            && (c.copy.Some? && c.replayed < |c.snapshot| && !c.replayOver && |c.queue| < size ==>
                  && Enabled(s, size, ReplayNext(id, false))
                  && var after := Apply(s, size, ReplayNext(id, false)).clients[id];
                     && after.received + after.queue == c.received + c.queue + [c.snapshot[c.replayed]]
                     && after.replayed == c.replayed + 1)
  {
    RunKeepsInvariant(size, steps);
    var s := Exec(size, steps);
    var c := s.clients[id];
    assert ClientHolds(s, size, c);
    hide Merges, Increasing;
    if c.replayed == |c.snapshot| {
      assert c.snapshot[..c.replayed] == c.snapshot;
    } else if c.copy.Some? && |c.queue| < size {
      SentMerges(c, size, c.snapshot[c.replayed], false);
    }
  }
}
