/**
 The stream as objects: the client channels, the buffer and the replay to a subscriber.
 Each method is one step of the transition system in Streams, whose events are numbers;
 the object carries the transfers that these numbers stand for.
 */
module EventStreams {
  import opened Wrappers
  import opened Parser
  import opened Streams

  /** The transfers are the published events with these numbers. */
  predicate Carries(log: seq<Transfer>, events: seq<nat>, ts: seq<Transfer>) {
    |events| == |ts| && forall i :: 0 <= i < |ts| ==> events[i] < |log| && ts[i] == log[events[i]]
  }

  /** What a channel and the replay to it hold. */
  datatype Contents = Contents(
    queue: seq<Transfer>, received: seq<Transfer>,
    copy: Option<seq<Transfer>>, replayed: nat, replayOver: bool)

  predicate Shows(log: seq<Transfer>, v: Contents, c: Client) {
    && Carries(log, c.queue, v.queue) && Carries(log, c.received, v.received)
    && (c.copy.Some? <==> v.copy.Some?) && (c.copy.Some? ==> Carries(log, c.copy.value, v.copy.value))
    && c.replayed == v.replayed && c.replayOver == v.replayOver
  }

  predicate Takes(v: Contents, size: nat, waiting: bool) {
    |v.queue| < size || (size == 0 && waiting)
  }

  function Given(v: Contents, size: nat, t: Transfer): Contents {
    if size == 0 then v.(received := v.received + [t]) else v.(queue := v.queue + [t])
  }

  function Tried(v: Contents, size: nat, t: Transfer, waiting: bool): Contents {
    if Takes(v, size, waiting) then Given(v, size, t) else v
  }

  lemma LongerLog(log: seq<Transfer>, t: Transfer, v: Contents, c: Client)
    requires Shows(log, v, c)
    ensures Shows(log + [t], v, c)
  {
  }

  /** The last published transfer, offered to a channel. */
  lemma OfferShows(log: seq<Transfer>, t: Transfer, v: Contents, c: Client, size: nat, waiting: bool)
    requires Shows(log, v, c)
    ensures Shows(log + [t], Tried(v, size, t, waiting), Offered(c, size, |log|, waiting))
  {
    LongerLog(log, t, v, c);
  }

  lemma ReplayShows(log: seq<Transfer>, v: Contents, c: Client, size: nat)
    requires Shows(log, v, c) && c.copy.Some? && c.replayed < |c.copy.value|
    ensures Shows(log, Given(v, size, v.copy.value[v.replayed]).(replayed := v.replayed + 1),
                  Sent(c, size, c.copy.value[c.replayed]).(replayed := c.replayed + 1))
  {
  }

  // ------------------------------------------------------------ the refinement

  /** What the objects hold, subscription by subscription: everything published so far,
      the buffer, each channel and its replay, and which ones are still clients. */
  datatype Facade = Facade(log: seq<Transfer>, buffer: seq<Transfer>, views: map<nat, Contents>, open: set<nat>)

  ghost predicate Represents(f: Facade, m: Stream, size: nat) {
    && Invariant(m, size) && m.published == |f.log| && Carries(f.log, m.buffer, f.buffer)
    && f.views.Keys == m.clients.Keys && f.open <= f.views.Keys
    && forall id :: id in f.views ==> ShowsClient(f, m, id)
  }

  predicate ShowsClient(f: Facade, m: Stream, id: nat)
    requires id in f.views && id in m.clients
  {
    Shows(f.log, f.views[id], m.clients[id]) && (id in f.open <==> m.clients[id].open)
  }

  function WithView(f: Facade, id: nat, v: Contents): Facade {
    f.(views := f.views[id := v])
  }

  /** What each step waits for, in terms of the objects. */
  predicate CanDo(f: Facade, size: nat, step: Step) {
    match step
    case Publish(_) => true
    case Subscribe(id) => id !in f.views
    case CopyBuffer(id) => id in f.views && id in f.open && f.views[id].copy.None?
    case ReplayNext(id, waiting) =>
      && id in f.views && id in f.open && f.views[id].copy.Some? && !f.views[id].replayOver
      && f.views[id].replayed < |f.views[id].copy.value| && Takes(f.views[id], size, waiting)
    case ReplayTimesOut(id) => id in f.views && id in f.open && f.views[id].copy.Some?
    case Receive(id) => id in f.views && f.views[id].queue != []
    case Cleanup(id) => id in f.views && id in f.open
  }

  /** What a step does to the objects; t is the transfer if it publishes one. */
  function Did(f: Facade, size: nat, step: Step, t: Transfer): Facade
    requires CanDo(f, size, step)
  {
    match step
    case Publish(ready) =>
      if f.open == {} then
        f.(log := f.log + [t], buffer := if |f.buffer| < size then f.buffer + [t] else f.buffer)
      else
        f.(log := f.log + [t],
           views := map id | id in f.views ::
             if id in f.open then Tried(f.views[id], size, t, id in ready) else f.views[id])
    case Subscribe(id) => WithView(f, id, Contents([], [], None, 0, false)).(open := f.open + {id})
    case CopyBuffer(id) => WithView(f, id, f.views[id].(copy := Some(f.buffer)))
    case ReplayNext(id, _) =>
      var v := f.views[id];
      WithView(f, id, Given(v, size, v.copy.value[v.replayed]).(replayed := v.replayed + 1))
    case ReplayTimesOut(id) => WithView(f, id, f.views[id].(replayOver := true))
    case Receive(id) =>
      var v := f.views[id];
      WithView(f, id, v.(queue := v.queue[1..], received := v.received + [v.queue[0]]))
    case Cleanup(id) => f.(open := f.open - {id})
  }

  /** The objects wait for exactly what the transition system waits for. */
  lemma CanDoIff(f: Facade, m: Stream, size: nat, step: Step)
    requires Represents(f, m, size)
    ensures CanDo(f, size, step) <==> Enabled(m, size, step)
  {
    hide Invariant;
    if !step.Publish? && step.id in f.views {
      assert ShowsClient(f, m, step.id);
    }
  }

  lemma OpenIff(f: Facade, m: Stream, size: nat)
    requires Represents(f, m, size)
    ensures SomeoneOpen(m) <==> f.open != {}
  {
    hide Invariant;
    if id :| id in m.clients && m.clients[id].open {
      assert ShowsClient(f, m, id);
    }
    if id :| id in f.open {
      assert ShowsClient(f, m, id);
    }
  }

  lemma PublishShows(f: Facade, m: Stream, size: nat, ready: set<nat>, t: Transfer, id: nat)
    requires Represents(f, m, size) && id in f.views
    ensures Enabled(m, size, Publish(ready)) && CanDo(f, size, Publish(ready))
    ensures ShowsClient(Did(f, size, Publish(ready), t), Apply(m, size, Publish(ready)), id)
  {
    hide Invariant, Shows, Offered, Tried;
    OpenIff(f, m, size);
    assert ShowsClient(f, m, id);
    OfferedOpen(m.clients[id], size, m.published, id in ready);
    OfferShows(f.log, t, f.views[id], m.clients[id], size, id in ready);
    LongerLog(f.log, t, f.views[id], m.clients[id]);
  }

  lemma OfferedOpen(c: Client, size: nat, e: nat, waiting: bool)
    ensures Offered(c, size, e, waiting).open == c.open
  {
  }

  /** A step of one channel leaves the others as they are. */
  lemma OthersShow(f: Facade, m: Stream, size: nat, step: Step, t: Transfer, id: nat)
    requires Represents(f, m, size) && Enabled(m, size, step) && CanDo(f, size, step)
    requires !step.Publish? && id in f.views && id != step.id
    ensures ShowsClient(Did(f, size, step, t), Apply(m, size, step), id)
  {
    hide Invariant, Shows, Given, Sent, Takes, Accepts;
    assert ShowsClient(f, m, id);
  }

  lemma OwnStepShows(f: Facade, m: Stream, size: nat, step: Step, t: Transfer)
    requires Represents(f, m, size) && Enabled(m, size, step) && CanDo(f, size, step)
    requires step.CopyBuffer? || step.ReplayTimesOut? || step.Receive? || step.Cleanup?
    ensures ShowsClient(Did(f, size, step, t), Apply(m, size, step), step.id)
  {
    hide Invariant;
    assert ShowsClient(f, m, step.id);
  }

  lemma ReplayStepShows(f: Facade, m: Stream, size: nat, step: Step, t: Transfer)
    requires Represents(f, m, size) && Enabled(m, size, step) && CanDo(f, size, step) && step.ReplayNext?
    ensures ShowsClient(Did(f, size, step, t), Apply(m, size, step), step.id)
  {
    hide Invariant, Given, Sent, Carries, Takes, Accepts;
    var id := step.id;
    assert ShowsClient(f, m, id);
    ReplayShows(f.log, f.views[id], m.clients[id], size);
    SentOpen(m.clients[id], size, m.clients[id].copy.value[m.clients[id].replayed]);
  }

  lemma SentOpen(c: Client, size: nat, e: nat)
    ensures Sent(c, size, e).open == c.open
  {
  }

  lemma ClientStillShown(f: Facade, m: Stream, size: nat, step: Step, t: Transfer, id: nat)
    requires Represents(f, m, size) && Enabled(m, size, step) && CanDo(f, size, step)
    requires id in Did(f, size, step, t).views && id in Apply(m, size, step).clients
    ensures ShowsClient(Did(f, size, step, t), Apply(m, size, step), id)
  {
    hide ShowsClient, Shows, Carries, Invariant, Given, Sent, Tried, Offered, Takes, Accepts;
    if step.Publish? {
      PublishShows(f, m, size, step.ready, t, id);
    } else if id != step.id {
      OthersShow(f, m, size, step, t, id);
    } else if step.ReplayNext? {
      ReplayStepShows(f, m, size, step, t);
    } else if step.Subscribe? {
      NewShows(f, m, size, id, t);
    } else {
      OwnStepShows(f, m, size, step, t);
    }
  }

  lemma NewShows(f: Facade, m: Stream, size: nat, id: nat, t: Transfer)
    requires Enabled(m, size, Subscribe(id)) && CanDo(f, size, Subscribe(id))
    ensures ShowsClient(Did(f, size, Subscribe(id), t), Apply(m, size, Subscribe(id)), id)
  {
  }

  lemma KeysAgree(f: Facade, m: Stream, size: nat, step: Step, t: Transfer)
    requires Represents(f, m, size) && Enabled(m, size, step) && CanDo(f, size, step)
    ensures var g, n := Did(f, size, step, t), Apply(m, size, step);
            && g.views.Keys == n.clients.Keys && g.open <= g.views.Keys
            && n.published == |g.log| && Carries(g.log, n.buffer, g.buffer)
  {
    hide Invariant;
    OpenIff(f, m, size);
  }

  /** Data refinement: what the objects do is what the transition system does, so all that
      is proved of its runs holds of the transfers in the channels. */
  lemma StepRepresents(f: Facade, m: Stream, size: nat, step: Step, t: Transfer)
    requires Represents(f, m, size) && CanDo(f, size, step)
    ensures Enabled(m, size, step) && Represents(Did(f, size, step, t), Apply(m, size, step), size)
  {
    hide Invariant, Apply, Did, CanDo, Enabled, ShowsClient, Carries;
    CanDoIff(f, m, size, step);
    KeysAgree(f, m, size, step, t);
    InvariantKept(f, m, size, step);
    var g, n := Did(f, size, step, t), Apply(m, size, step);
    forall id | id in g.views
      ensures ShowsClient(g, n, id)
    {
      ClientStillShown(f, m, size, step, t, id);
    }
  }

  lemma InvariantKept(f: Facade, m: Stream, size: nat, step: Step)
    requires Represents(f, m, size) && Enabled(m, size, step)
    ensures Invariant(Apply(m, size, step), size)
  {
    hide Apply, Enabled;
    StepKeepsInvariant(m, size, step);
  }

  /** Delivery in terms of transfers: what a channel has delivered and has queued are
      distinct publications, the replayed ones in buffer order and the live ones in
      publication order. */
  lemma DeliveredOnce(f: Facade, m: Stream, size: nat, id: nat) returns (events: seq<nat>)
    requires Represents(f, m, size) && id in f.views
    ensures Carries(f.log, events, f.views[id].received + f.views[id].queue) && Distinct(events)
    ensures var c := m.clients[id];
            && c.replayed <= |c.snapshot| && Merges(events, c.snapshot[..c.replayed], c.live)
            && Increasing(c.snapshot, 0, c.joined) && Increasing(c.live, c.joined, |f.log|)
  {
    var c := m.clients[id];
    assert ShowsClient(f, m, id) && ClientHolds(m, size, c);
    events := Got(c);
    hide Merges;
    MergesDistinct(events, c.snapshot[..c.replayed], c.live, c.joined, m.published);
  }

  // ---------------------------------------------------------------- the objects

  class Channel {
    const capacity: nat
    var queue: seq<Transfer>
    var received: seq<Transfer>
    var copy: Option<seq<Transfer>>
    var replayed: nat
    var replayOver: bool

    constructor (capacity: nat)
      ensures this.capacity == capacity && View() == Contents([], [], None, 0, false)
    {
      this.capacity := capacity;
      queue, received, copy, replayed, replayOver := [], [], None, 0, false;
    }

    function View(): Contents
      reads this
    {
      Contents(queue, received, copy, replayed, replayOver)
    }

    /** The select with a default case: into the queue if there is room, to a waiting
        receiver if there is no queue, else dropped. */
    method TrySend(t: Transfer, waiting: bool)
      modifies this
      ensures View() == Tried(old(View()), capacity, t, waiting)
    {
      if |queue| < capacity {
        queue := queue + [t];
      } else if capacity == 0 && waiting {
        received := received + [t];
      }
    }
  }

  lemma ValuesGrow(ids: map<nat, Channel>, id: nat, client: Channel)
    requires id !in ids
    ensures ids[id := client].Values == ids.Values + {client}
  {
    var after := ids[id := client];
    forall c | c in ids.Values + {client}
      ensures c in after.Values
    {
      if c in ids.Values {
        var k :| k in ids && ids[k] == c;
        assert after[k] == c;
      } else {
        assert after[id] == c;
      }
    }
  }

  class EventStream {
    const bufferSize: nat
    var clients: set<Channel>
    var buffer: seq<Transfer>
    ghost var log: seq<Transfer>
    ghost var model: Stream
    ghost var ids: map<nat, Channel>

    constructor (bufferSize: nat)
      ensures Valid() && this.bufferSize == bufferSize && clients == {} && buffer == [] && model == New()
    {
      this.bufferSize := bufferSize;
      clients, buffer := {}, [];
      log, model, ids := [], New(), map[];
    }

    /** Every subscription ever made has a number; each client is one of them. */
    ghost predicate Numbered()
      reads this
    {
      && (forall a, b :: a in ids && b in ids && a != b ==> ids[a] != ids[b])
      && clients <= ids.Values && forall id :: id in ids ==> ids[id].capacity == bufferSize
    }

    ghost function Views(): map<nat, Contents>
      reads this, ids.Values
    {
      map id | id in ids :: ids[id].View()
    }

    ghost function IdsOf(cs: set<Channel>): set<nat>
      reads this
    {
      set id | id in ids && ids[id] in cs
    }

    ghost function View(): Facade
      reads this, ids.Values
    {
      Facade(log, buffer, Views(), IdsOf(clients))
    }

    ghost predicate Valid()
      reads this, ids.Values
    {
      Numbered() && Represents(View(), model, bufferSize)
    }

    /** With clients every one of them is offered the transfer, and without any it is
        buffered if there is room; `waiting` are the channels somebody is receiving from. */
    method Publish(t: Transfer, waiting: set<Channel>)
      requires Valid()
      modifies this`buffer, this`log, this`model, clients
      ensures Valid() && View() == Did(old(View()), bufferSize, Step.Publish(IdsOf(waiting)), t)
      ensures model == Apply(old(model), bufferSize, Step.Publish(IdsOf(waiting)))
      ensures buffer == if clients == {} && |old(buffer)| < bufferSize then old(buffer) + [t] else old(buffer)
      ensures forall c :: c in clients && |old(c.queue)| < c.capacity ==> c.queue == old(c.queue) + [t]
    {
      hide Represents, Apply, Tried, Channel.View;
      ghost var step := Step.Publish(IdsOf(waiting));
      StepRepresents(View(), model, bufferSize, step, t);
      if |clients| == 0 {
        if |buffer| < bufferSize {
          buffer := buffer + [t];
        }
      } else {
        SendAll(t, waiting);
        SomeClient();
      }
      log, model := log + [t], Apply(model, bufferSize, step);
      assert Views() == Did(old(View()), bufferSize, step, t).views;
    }

    lemma SomeClient()
      requires Numbered() && clients != {}
      ensures IdsOf(clients) != {}
    {
      var c :| c in clients;
      var id :| id in ids && ids[id] == c;
      assert id in IdsOf(clients);
    }

    method SendAll(t: Transfer, waiting: set<Channel>)
      modifies clients
      ensures forall c :: c in clients ==> c.View() == Tried(old(c.View()), c.capacity, t, c in waiting)
      ensures forall c :: c in clients && |old(c.queue)| < c.capacity ==> c.queue == old(c.queue) + [t]
    {
      var rest := clients;
      while rest != {}
        invariant rest <= clients
        invariant forall c :: c in rest ==> c.View() == old(c.View())
        invariant forall c :: c in clients && c !in rest ==>
                    c.View() == Tried(old(c.View()), c.capacity, t, c in waiting)
        decreases rest
      {
        var client :| client in rest;
        client.TrySend(t, client in waiting);
        rest := rest - {client};
      }
    }

    lemma Known(id: nat)
      requires Numbered() && id in ids
      ensures id in View().views && View().views[id] == ids[id].View()
      ensures id in View().open <==> ids[id] in clients
    {
    }

    /** A new client; the replay to it has still to copy the buffer. */
    method Subscribe(ghost id: nat) returns (client: Channel)
      requires Valid() && id !in ids
      modifies this`clients, this`model, this`ids
      ensures fresh(client) && client.capacity == bufferSize && ids == old(ids)[id := client]
      ensures Valid() && clients == old(clients) + {client}
      ensures model == Apply(old(model), bufferSize, Step.Subscribe(id))
    {
      hide Represents, Apply, Enabled, Channel.View;
      ghost var t: Transfer := *;
      StepRepresents(View(), model, bufferSize, Step.Subscribe(id), t);
      client := new Channel(bufferSize);
      clients := clients + {client};
      ids, model := ids[id := client], Apply(model, bufferSize, Step.Subscribe(id));
      assert Views() == Did(old(View()), bufferSize, Step.Subscribe(id), t).views;
      assert IdsOf(clients) == Did(old(View()), bufferSize, Step.Subscribe(id), t).open;
      assert View() == Did(old(View()), bufferSize, Step.Subscribe(id), t);
      ValuesGrow(old(ids), id, client);
    }

    /** The goroutine that Subscribe starts takes its copy of the buffer. */
    method CopyBuffer(ghost id: nat, client: Channel)
      requires Valid() && id in ids && ids[id] == client && Enabled(model, bufferSize, Step.CopyBuffer(id))
      modifies this`model, client`copy
      ensures Valid() && model == Apply(old(model), bufferSize, Step.CopyBuffer(id))
      ensures client.copy == Some(buffer)
    {
      hide Represents, Apply, Enabled;
      ghost var t: Transfer := *;
      Known(id);
      CanDoIff(View(), model, bufferSize, Step.CopyBuffer(id));
      StepRepresents(View(), model, bufferSize, Step.CopyBuffer(id), t);
      client.copy := Some(buffer);
      model := Apply(model, bufferSize, Step.CopyBuffer(id));
      assert Views() == Did(old(View()), bufferSize, Step.CopyBuffer(id), t).views;
    }

    /** It sends the next event of its copy once the channel takes it. */
    method ReplayNext(ghost id: nat, client: Channel, waiting: bool)
      requires Valid() && id in ids && ids[id] == client && Enabled(model, bufferSize, Step.ReplayNext(id, waiting))
      modifies this`model, client
      ensures Valid() && model == Apply(old(model), bufferSize, Step.ReplayNext(id, waiting))
      ensures client.replayed == old(client.replayed) + 1
    {
      hide Represents, Apply, Enabled;
      ghost var t: Transfer := *;
      Known(id);
      CanDoIff(View(), model, bufferSize, Step.ReplayNext(id, waiting));
      StepRepresents(View(), model, bufferSize, Step.ReplayNext(id, waiting), t);
      client.TrySend(client.copy.value[client.replayed], waiting);
      client.replayed := client.replayed + 1;
      model := Apply(model, bufferSize, Step.ReplayNext(id, waiting));
      assert Views() == Did(old(View()), bufferSize, Step.ReplayNext(id, waiting), t).views;
    }

    /** It gives up after a second without room. */
    method GiveUp(ghost id: nat, client: Channel)
      requires Valid() && id in ids && ids[id] == client && Enabled(model, bufferSize, Step.ReplayTimesOut(id))
      modifies this`model, client`replayOver
      ensures Valid() && model == Apply(old(model), bufferSize, Step.ReplayTimesOut(id))
    {
      hide Represents, Apply, Enabled;
      ghost var t: Transfer := *;
      Known(id);
      CanDoIff(View(), model, bufferSize, Step.ReplayTimesOut(id));
      StepRepresents(View(), model, bufferSize, Step.ReplayTimesOut(id), t);
      client.replayOver := true;
      model := Apply(model, bufferSize, Step.ReplayTimesOut(id));
      assert Views() == Did(old(View()), bufferSize, Step.ReplayTimesOut(id), t).views;
    }

    /** The handler takes the next event from the channel. */
    method Receive(ghost id: nat, client: Channel) returns (next: Transfer)
      requires Valid() && id in ids && ids[id] == client && client.queue != []
      requires Enabled(model, bufferSize, Step.Receive(id))
      modifies this`model, client
      ensures Valid() && model == Apply(old(model), bufferSize, Step.Receive(id))
      ensures next == old(client.queue[0]) && client.queue == old(client.queue[1..])
    {
      hide Represents, Apply, Enabled;
      ghost var t: Transfer := *;
      Known(id);
      CanDoIff(View(), model, bufferSize, Step.Receive(id));
      StepRepresents(View(), model, bufferSize, Step.Receive(id), t);
      next := client.queue[0];
      client.queue, client.received := client.queue[1..], client.received + [next];
      model := Apply(model, bufferSize, Step.Receive(id));
      assert Views() == Did(old(View()), bufferSize, Step.Receive(id), t).views;
    }

    /** The cleanup function that Subscribe returns. */
    method Cleanup(ghost id: nat, client: Channel)
      requires Valid() && id in ids && ids[id] == client && Enabled(model, bufferSize, Step.Cleanup(id))
      modifies this`model, this`clients
      ensures Valid() && model == Apply(old(model), bufferSize, Step.Cleanup(id))
      ensures clients == old(clients) - {client}
    {
      hide Represents, Apply, Enabled;
      ghost var t: Transfer := *;
      Known(id);
      CanDoIff(View(), model, bufferSize, Step.Cleanup(id));
      StepRepresents(View(), model, bufferSize, Step.Cleanup(id), t);
      clients := clients - {client};
      model := Apply(model, bufferSize, Step.Cleanup(id));
      assert IdsOf(clients) == Did(old(View()), bufferSize, Step.Cleanup(id), t).open;
      assert View() == Did(old(View()), bufferSize, Step.Cleanup(id), t);
    }
  }
}
