/**
 What the ticks of the service do in order: what it asks for, what it hands to the stream
 and how often, and what the batch controller is told.
 */
module ServiceTheorems {
  import opened Arithmetic
  import opened Wrappers
  import opened Chains
  import opened Repository
  import opened BatchController
  import opened Ingestion
  import opened IngestionServices
  import opened IngestionRefinement

  // ------------------------------------------------------------------- the range

  /** The range of a tick in numbers: from the cursor, as many blocks as the current size
      says (the configured size if that is 0, and 10 if both are), up to the head. */
  lemma AsksFor(cfg: Config, s: Service, first: nat, head: nat, tick: Tick)
    requires tick.head == Some(head)
    ensures var size := if s.controller.size > 0 then s.controller.size
                        else if cfg.blockBatchSize > 0 then cfg.blockBatchSize else 10;
            first + size <= WORD ==>
              Asked(cfg, s, first, tick)
              == if first > head then None else Some(Span(first, Min(head, first + size - 1)))
  {
  }

  // ---------------------------------------------------------------- publication

  /** The tick has stored the batch it fetched, or had nothing to store. */
  predicate HasStored(cfg: Config, s: Service, first: nat, tick: Tick) {
    var batch := Batch(cfg, s, first, tick);
    batch.Some? && (batch.value == [] || ReportsSuccess(tick.bulk))
  }

  /** A tick that streams hands over exactly the range it has stored, in order and once,
      and nothing otherwise; without a stream nothing is handed over. */
  lemma TickPublishes(cfg: Config, feed: LawfulFeed, s: Service, first: nat, tick: Tick)
    requires cfg.batch.Valid() && Possible(cfg, s, first, tick) && Honest(feed, tick)
    ensures var done := Pass(cfg, s, first, tick);
            && done.service.published == s.published +
                 (if cfg.streaming && HasStored(cfg, s, first, tick)
                  then feed.range(first, Asked(cfg, s, first, tick).value.last + 1) else [])
            && (done.ok && cfg.streaming ==> done.service.published == s.published + feed.range(first, done.next))
  {
    hide ApplyBulk, Admissible, Adapt, SetLast;
    if Asked(cfg, s, first, tick).None? {
      EmptyRange(feed, first, first);
    }
  }

  /** A tick's report: it succeeds if there is nothing to do, or if the batch was stored and
      its checkpoint written, and then the cursor is past the range. */
  lemma TickReports(cfg: Config, s: Service, first: nat, tick: Tick)
    requires cfg.batch.Valid() && Possible(cfg, s, first, tick)
    ensures var done, asked := Pass(cfg, s, first, tick), Asked(cfg, s, first, tick);
            && (done.ok <==> tick.head.Some? && (asked.None? || (HasStored(cfg, s, first, tick) && tick.write.Done?)))
            && done.next == (if done.ok && asked.Some? then asked.value.last + 1 else first)
            && (asked.None? ==> done.service == s)
  {
    hide ApplyBulk, Admissible, Adapt;
  }

  lemma AdaptBounded(cfg: Config, c: Controller, success: bool)
    requires cfg.batch.Valid() && c.size <= cfg.SizeBound()
    ensures Adapt(cfg, c, success).size <= cfg.SizeBound()
  {
    QuotientShrinks(c.size, cfg.batch.Divisor());
  }

  lemma PassBounded(cfg: Config, s: Service, first: nat, tick: Tick)
    requires cfg.batch.Valid() && Possible(cfg, s, first, tick) && s.controller.size <= cfg.SizeBound()
    ensures Pass(cfg, s, first, tick).service.controller.size <= cfg.SizeBound()
  {
    hide ApplyBulk, Admissible, Adapt, SetLast;
    AdaptBounded(cfg, s.controller, true);
    AdaptBounded(cfg, s.controller, false);
  }

  /** The cursor never goes back. */
  lemma PassMovesOn(cfg: Config, feed: LawfulFeed, s: Service, first: nat, tick: Tick)
    requires Fits(cfg, feed) && Possible(cfg, s, first, tick) && Honest(feed, tick)
    requires s.controller.size <= cfg.SizeBound()
    ensures first <= Pass(cfg, s, first, tick).next
  {
    TickReports(cfg, s, first, tick);
    if Asked(cfg, s, first, tick).Some? {
      AsksFor(cfg, s, first, tick.head.value, tick);
    }
  }

  /** A process that streams, and whose checkpoint writes succeed, has handed over exactly
      the transfers of the blocks it has passed, in chain order and each once. */
  lemma {:induction false} PublishesInOrder(cfg: Config, feed: LawfulFeed, s: Service, first: nat, ticks: seq<Tick>)
    requires Fits(cfg, feed) && cfg.streaming && s.controller.size <= cfg.SizeBound()
    requires AllPossible(cfg, s, first, ticks)
    requires forall tick :: tick in ticks ==> Honest(feed, tick) && tick.write.Done?
    ensures var done := Polled(cfg, s, first, ticks);
            && first <= done.next && done.service.controller.size <= cfg.SizeBound()
            && done.service.published == s.published + feed.range(first, done.next)
            && DistinctKeys(feed.range(first, done.next))
    decreases |ticks|
  {
    if ticks == [] {
      EmptyRange(feed, first, first);
    } else {
      hide Pass, Possible, Honest, Asked, HasStored;
      var n := |ticks| - 1;
      PublishesInOrder(cfg, feed, s, first, ticks[..n]);
      var before := Polled(cfg, s, first, ticks[..n]);
      assert ticks[n] in ticks;
      TickPublishesOn(cfg, feed, before.service, before.next, ticks[n]);
      JoinedRange(feed, first, before.next, Polled(cfg, s, first, ticks).next);
      RangeKeysDistinct(feed, first, Polled(cfg, s, first, ticks).next);
    }
  }

  lemma TickPublishesOn(cfg: Config, feed: LawfulFeed, s: Service, first: nat, tick: Tick)
    requires Fits(cfg, feed) && Possible(cfg, s, first, tick) && Honest(feed, tick) && tick.write.Done?
    requires cfg.streaming && s.controller.size <= cfg.SizeBound()
    ensures var done := Pass(cfg, s, first, tick);
            && first <= done.next && done.service.controller.size <= cfg.SizeBound()
            && done.service.published == s.published + feed.range(first, done.next)
  {
    hide Pass, Possible, Honest;
    TickPublishes(cfg, feed, s, first, tick);
    TickReports(cfg, s, first, tick);
    PassBounded(cfg, s, first, tick);
    PassMovesOn(cfg, feed, s, first, tick);
    EmptyRange(feed, first, first);
    assert s.published + [] == s.published;
  }

  /** What a failed checkpoint write repeats: the batch has been handed over, the cursor
      stays, and the next tick that succeeds hands its range over from the same block. */
  lemma FailedCheckpointRepeats(cfg: Config, feed: LawfulFeed, s: Service, first: nat, failed: Tick, retry: Tick)
    requires cfg.batch.Valid() && cfg.streaming && Honest(feed, failed) && Honest(feed, retry)
    requires Possible(cfg, s, first, failed) && HasStored(cfg, s, first, failed) && failed.write.Failed?
    requires var after := Pass(cfg, s, first, failed);
             Possible(cfg, after.service, after.next, retry) && Pass(cfg, after.service, after.next, retry).ok
    ensures var after := Pass(cfg, s, first, failed);
            var done := Pass(cfg, after.service, after.next, retry);
            && after.next == first && !after.ok
            && done.service.published
               == s.published + feed.range(first, Asked(cfg, s, first, failed).value.last + 1)
                  + feed.range(first, done.next)
  {
    hide Pass, Possible, Honest, Asked;
    TickPublishes(cfg, feed, s, first, failed);
    TickReports(cfg, s, first, failed);
    var after := Pass(cfg, s, first, failed);
    TickPublishes(cfg, feed, after.service, after.next, retry);
  }

  // ------------------------------------------------------------- the controller

  /** What a tick tells the batch controller: a failed fetch or insert is a failure, a
      finished batch a success; a failed head, an idle tick and a failed checkpoint write
      tell it nothing. */
  function Verdict(cfg: Config, s: Service, first: nat, tick: Tick): Option<bool> {
    if Asked(cfg, s, first, tick).None? then None
    else if !HasStored(cfg, s, first, tick) then Some(false)
    else if tick.write.Failed? then None
    else Some(true)
  }

  function Verdicts(cfg: Config, s: Service, first: nat, ticks: seq<Tick>): seq<bool>
    requires cfg.batch.Valid() && AllPossible(cfg, s, first, ticks)
    decreases |ticks|
  {
    if ticks == [] then []
    else
      var n := |ticks| - 1;
      var before := Polled(cfg, s, first, ticks[..n]);
      Verdicts(cfg, s, first, ticks[..n]) +
      match Verdict(cfg, before.service, before.next, ticks[n])
      case None => []
      case Some(success) => [success]
  }

  lemma TickTells(cfg: Config, s: Service, first: nat, tick: Tick)
    requires cfg.batch.Valid() && Possible(cfg, s, first, tick)
    ensures Pass(cfg, s, first, tick).service.controller
         == match Verdict(cfg, s, first, tick)
            case None => s.controller
            case Some(success) => if cfg.adaptive then Record(cfg.batch, s.controller, success) else s.controller
  {
    hide ApplyBulk, Admissible, Record;
  }

  lemma AfterOne(b: Settings, c: Controller, outcomes: seq<bool>, success: bool)
    requires b.Valid()
    ensures After(b, c, outcomes + [success]) == Record(b, After(b, c, outcomes), success)
  {
    assert (outcomes + [success])[..|outcomes|] == outcomes;
  }

  /** Over any ticks the controller is the one its closed forms speak of, applied to what
      the ticks have told it; with fixed sizes it never changes. */
  lemma {:induction false} ControllerFollows(cfg: Config, s: Service, first: nat, ticks: seq<Tick>)
    requires cfg.batch.Valid() && AllPossible(cfg, s, first, ticks)
    ensures Polled(cfg, s, first, ticks).service.controller
         == if cfg.adaptive then After(cfg.batch, s.controller, Verdicts(cfg, s, first, ticks)) else s.controller
    decreases |ticks|
  {
    if ticks != [] {
      hide Pass, Possible, Verdict, Record;
      var n := |ticks| - 1;
      ControllerFollows(cfg, s, first, ticks[..n]);
      var before := Polled(cfg, s, first, ticks[..n]);
      TickTells(cfg, before.service, before.next, ticks[n]);
      var told, verdict := Verdicts(cfg, s, first, ticks[..n]), Verdict(cfg, before.service, before.next, ticks[n]);
      if verdict.Some? {
        AfterOne(cfg.batch, s.controller, told, verdict.value);
      } else {
        assert told + [] == told;
      }
    }
  }
}
