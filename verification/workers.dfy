/**
 The worker protocol of one fetch: a goroutine per block behind a semaphore of five, a
 channel with room for every result, and a collector that may return early. Any
 interleaving; every block request is answered, with a timestamp or an error.
 */
module Workers {

  const LIMIT: nat := 5

  datatype Phase = Waiting | Requesting | Answered | Sent | Done

  datatype Collector = Collecting(received: nat) | Returned | Finished

  /** `requests` and `delivered` list the workers in the order in which they made their
      request and sent their result. */
  datatype Fetch = Fetch(
    phases: seq<Phase>, tokens: nat, requests: seq<nat>,
    channel: seq<nat>, delivered: seq<nat>, collector: Collector)

  function Start(n: nat): Fetch {
    Fetch(seq(n, _ => Waiting), 0, [], [], [], Collecting(0))
  }

  datatype Step = Acquire(i: nat) | Answer(i: nat) | Send(i: nat) | Release(i: nat) | Receive

  predicate Enabled(f: Fetch, step: Step) {
    match step
    case Acquire(i) => i < |f.phases| && f.phases[i].Waiting? && f.tokens < LIMIT
    case Answer(i) => i < |f.phases| && f.phases[i].Requesting?
    case Send(i) => i < |f.phases| && f.phases[i].Answered? && |f.channel| < |f.phases|
    case Release(i) => i < |f.phases| && f.phases[i].Sent? && f.tokens > 0
    case Receive => f.collector.Collecting? && f.channel != []
  }

  predicate Good(answers: seq<bool>, i: nat) {
    i < |answers| && answers[i]
  }

  /** answers[i] tells whether the request of worker i is answered with a timestamp. */
  function Apply(f: Fetch, answers: seq<bool>, step: Step): Fetch
    requires Enabled(f, step)
  {
    match step
    case Acquire(i) =>
      f.(phases := f.phases[i := Requesting], tokens := f.tokens + 1, requests := f.requests + [i])
    case Answer(i) => f.(phases := f.phases[i := Answered])
    case Send(i) =>
      f.(phases := f.phases[i := Sent], channel := f.channel + [i], delivered := f.delivered + [i])
    case Release(i) => f.(phases := f.phases[i := Done], tokens := f.tokens - 1)
    case Receive =>
      var result := f.channel[0];
      var received := f.collector.received + 1;
      f.(channel := f.channel[1..],
         collector := if !Good(answers, result) then Returned
                      else if received == |f.phases| then Finished
                      else Collecting(received))
  }

  predicate CanRun(n: nat, answers: seq<bool>, steps: seq<Step>)
    decreases |steps|, 0
  {
    steps == [] ||
    (CanRun(n, answers, steps[..|steps| - 1])
     && Enabled(Exec(n, answers, steps[..|steps| - 1]), steps[|steps| - 1]))
  }

  function Exec(n: nat, answers: seq<bool>, steps: seq<Step>): Fetch
    requires CanRun(n, answers, steps)
    decreases |steps|, 1
  {
    if steps == [] then Start(n)
    else Apply(Exec(n, answers, steps[..|steps| - 1]), answers, steps[|steps| - 1])
  }

  // ------------------------------------------------------------------ counting

  function Total(weight: Phase -> nat, phases: seq<Phase>): nat {
    if phases == [] then 0 else Total(weight, phases[..|phases| - 1]) + weight(phases[|phases| - 1])
  }

  lemma {:induction false} TotalUpdate(weight: Phase -> nat, phases: seq<Phase>, i: nat, p: Phase)
    requires i < |phases|
    ensures Total(weight, phases[i := p]) == Total(weight, phases) - weight(phases[i]) + weight(p)
  {
    var n := |phases| - 1;
    if i == n {
      assert phases[i := p][..n] == phases[..n];
    } else {
      TotalUpdate(weight, phases[..n], i, p);
      assert phases[i := p][..n] == phases[..n][i := p];
    }
  }

  lemma {:induction false} TotalBounds(a: Phase -> nat, b: Phase -> nat, phases: seq<Phase>, i: nat)
    requires forall p :: a(p) <= b(p)
    ensures Total(a, phases) <= Total(b, phases)
    ensures i < |phases| ==> a(phases[i]) <= Total(a, phases)
  {
    if phases != [] {
      TotalBounds(a, b, phases[..|phases| - 1], i);
    }
  }

  lemma {:induction false} TotalZero(weight: Phase -> nat, phases: seq<Phase>)
    requires forall i :: 0 <= i < |phases| ==> weight(phases[i]) == 0
    ensures Total(weight, phases) == 0
  {
    if phases != [] {
      TotalZero(weight, phases[..|phases| - 1]);
    }
  }

  function Holds(p: Phase): nat {
    if p.Requesting? || p.Answered? || p.Sent? then 1 else 0
  }

  function InFlight(p: Phase): nat {
    if p.Requesting? then 1 else 0
  }

  function Remaining(p: Phase): nat {
    match p
    case Waiting => 5
    case Requesting => 4
    case Answered => 3
    case Sent => 1
    case Done => 0
  }

  predicate NoRepeats(s: seq<nat>) {
    forall i, j :: 0 <= i < j < |s| ==> s[i] != s[j]
  }

  function Members(s: seq<nat>): set<nat> {
    if s == [] then {} else Members(s[..|s| - 1]) + {s[|s| - 1]}
  }

  function Upto(n: nat): set<nat> {
    if n == 0 then {} else Upto(n - 1) + {n - 1}
  }

  lemma {:induction false} MembersOf(s: seq<nat>)
    ensures forall x :: x in Members(s) <==> x in s
    ensures NoRepeats(s) ==> |Members(s)| == |s|
  {
    if s != [] {
      MembersOf(s[..|s| - 1]);
      assert s == s[..|s| - 1] + [s[|s| - 1]];
    }
  }

  lemma {:induction false} UptoOf(n: nat)
    ensures |Upto(n)| == n && forall x: nat :: x in Upto(n) <==> x < n
  {
    if n > 0 {
      UptoOf(n - 1);
      assert n - 1 !in Upto(n - 1);
    }
  }

  /** Distinct numbers below n: at most n of them, and n exactly if they are all there. */
  lemma DistinctBelow(s: seq<nat>, n: nat)
    requires NoRepeats(s) && forall x :: x in s ==> x < n
    ensures |s| <= n
    ensures |s| == n <==> forall x: nat :: x < n ==> x in s
  {
    MembersOf(s);
    UptoOf(n);
    assert Upto(n) == Members(s) + (Upto(n) - Members(s));
    if forall x: nat :: x < n ==> x in s {
      assert Members(s) == Upto(n);
    }
  }

  // ----------------------------------------------------------------- invariant

  predicate Delivering(f: Fetch, i: nat)
    requires i < |f.phases|
  {
    f.phases[i].Sent? || f.phases[i].Done?
  }

  /** How many results the collector has taken out of the channel. */
  function Taken(f: Fetch): int {
    |f.delivered| - |f.channel|
  }

  ghost predicate Logs(f: Fetch) {
    && NoRepeats(f.requests) && NoRepeats(f.delivered)
    && (forall i :: i in f.requests ==> i < |f.phases|) && (forall i :: i in f.delivered ==> i < |f.phases|)
    && (forall i: nat :: i < |f.phases| ==> (i in f.requests <==> !f.phases[i].Waiting?))
    && (forall i: nat :: i < |f.phases| ==> (i in f.delivered <==> Delivering(f, i)))
  }

  ghost predicate Collects(f: Fetch, answers: seq<bool>) {
    && 0 <= Taken(f) && f.channel == f.delivered[Taken(f)..]
    && match f.collector
       case Collecting(r) => r == Taken(f) < |f.phases| && forall k :: 0 <= k < r ==> Good(answers, f.delivered[k])
       case Returned => Taken(f) > 0 && !Good(answers, f.delivered[Taken(f) - 1])
       case Finished => Taken(f) == |f.phases| && forall k :: 0 <= k < Taken(f) ==> Good(answers, f.delivered[k])
  }

  ghost predicate Invariant(f: Fetch, answers: seq<bool>) {
    && |f.phases| == |answers| > 0
    && f.tokens == Total(Holds, f.phases) && f.tokens <= LIMIT
    && Logs(f) && Collects(f, answers)
  }

  lemma StartHolds(answers: seq<bool>)
    requires answers != []
    ensures Invariant(Start(|answers|), answers)
  {
    TotalZero(Holds, Start(|answers|).phases);
  }

  lemma StepKeepsTokens(f: Fetch, answers: seq<bool>, step: Step)
    requires f.tokens == Total(Holds, f.phases) && f.tokens <= LIMIT && Enabled(f, step)
    ensures var g := Apply(f, answers, step); g.tokens == Total(Holds, g.phases) && g.tokens <= LIMIT
  {
    match step
    case Acquire(i) => TotalUpdate(Holds, f.phases, i, Requesting);
    case Answer(i) => TotalUpdate(Holds, f.phases, i, Answered);
    case Send(i) => TotalUpdate(Holds, f.phases, i, Sent);
    case Release(i) => TotalUpdate(Holds, f.phases, i, Done);
    case Receive =>
  }

  lemma StepKeepsLogs(f: Fetch, answers: seq<bool>, step: Step)
    requires Logs(f) && Enabled(f, step)
    ensures Logs(Apply(f, answers, step))
  {
    var g := Apply(f, answers, step);
    if step.Acquire? {
      Append(f.requests, step.i);
    }
    if step.Send? {
      assert !Delivering(f, step.i);
      Append(f.delivered, step.i);
    }
    forall i: nat | i < |g.phases|
      ensures i in g.delivered <==> Delivering(g, i)
    {
      assert i in f.delivered <==> Delivering(f, i);
    }
  }

  lemma Append(s: seq<nat>, x: nat)
    requires NoRepeats(s) && x !in s
    ensures NoRepeats(s + [x]) && forall y :: y in s + [x] <==> y in s || y == x
  {
  }

  lemma StepKeepsCollects(f: Fetch, answers: seq<bool>, step: Step)
    requires Logs(f) && Collects(f, answers) && Enabled(f, step)
    ensures Collects(Apply(f, answers, step), answers)
  {
    if step.Receive? {
      DistinctBelow(f.delivered, |f.phases|);
    }
  }

  lemma StepKeepsInvariant(f: Fetch, answers: seq<bool>, step: Step)
    requires Invariant(f, answers) && Enabled(f, step)
    ensures Invariant(Apply(f, answers, step), answers)
  {
    hide Logs, Collects, Total;
    StepKeepsTokens(f, answers, step);
    StepKeepsLogs(f, answers, step);
    StepKeepsCollects(f, answers, step);
  }

  lemma {:induction false} RunKeepsInvariant(answers: seq<bool>, steps: seq<Step>)
    requires answers != [] && CanRun(|answers|, answers, steps)
    ensures Invariant(Exec(|answers|, answers, steps), answers)
    decreases |steps|
  {
    hide Enabled, Apply, Invariant;
    if steps == [] {
      StartHolds(answers);
    } else {
      RunKeepsInvariant(answers, steps[..|steps| - 1]);
      StepKeepsInvariant(Exec(|answers|, answers, steps[..|steps| - 1]), answers, steps[|steps| - 1]);
    }
  }

  // -------------------------------------------------------------------- safety

  /** At most five requests are in flight, no worker requests or delivers twice, and a
      worker with its answer can always send it. */
  lemma AtMostFiveInFlight(answers: seq<bool>, steps: seq<Step>)
    requires answers != [] && CanRun(|answers|, answers, steps)
    ensures var f := Exec(|answers|, answers, steps);
            && Total(InFlight, f.phases) <= 5
            && NoRepeats(f.requests) && NoRepeats(f.delivered)
            && forall i: nat :: i < |f.phases| && f.phases[i].Answered? ==> Enabled(f, Send(i))
  {
    RunKeepsInvariant(answers, steps);
    var f := Exec(|answers|, answers, steps);
    TotalBounds(InFlight, Holds, f.phases, 0);
    forall i: nat | i < |f.phases| && f.phases[i].Answered?
      ensures Enabled(f, Send(i))
    {
      SendHasRoom(f, answers, i);
    }
  }

  /** The bound is reached: any number of requests up to five, and up to the number of
      blocks, can be in flight together. */
  lemma {:induction false} FiveCanBeInFlight(answers: seq<bool>, k: nat) returns (steps: seq<Step>)
    requires k <= 5 && k <= |answers|
    ensures CanRun(|answers|, answers, steps)
    ensures var f := Exec(|answers|, answers, steps);
            && Total(InFlight, f.phases) == k == f.tokens && |f.phases| == |answers|
            && forall i :: k <= i < |answers| ==> f.phases[i].Waiting?
  {
    if k == 0 {
      steps := [];
      TotalZero(InFlight, Start(|answers|).phases);
    } else {
      var before := FiveCanBeInFlight(answers, k - 1);
      var f := Exec(|answers|, answers, before);
      TotalUpdate(InFlight, f.phases, k - 1, Requesting);
      steps := before + [Acquire(k - 1)];
      assert steps[..|steps| - 1] == before;
    }
  }

  lemma SendHasRoom(f: Fetch, answers: seq<bool>, i: nat)
    requires Invariant(f, answers) && i < |f.phases| && f.phases[i].Answered?
    ensures Enabled(f, Send(i))
  {
    assert !Delivering(f, i);
    DistinctBelow(f.delivered, |f.phases|);
  }

  // ------------------------------------------------------------------ progress

  predicate WorkerStep(f: Fetch, step: Step) {
    !step.Receive? && Enabled(f, step)
  }

  /** The workers never block each other for good, whatever the collector has done. */
  lemma WorkersProgress(f: Fetch, answers: seq<bool>, i: nat) returns (step: Step)
    requires Invariant(f, answers) && i < |f.phases| && !f.phases[i].Done?
    ensures WorkerStep(f, step)
  {
    if k: nat :| k < |f.phases| && Holds(f.phases[k]) == 1 {
      TotalBounds(Holds, Holds, f.phases, k);
      match f.phases[k]
      case Requesting => step := Answer(k);
      case Answered => SendHasRoom(f, answers, k); step := Send(k);
      case Sent => step := Release(k);
    } else {
      TotalZero(Holds, f.phases);
      step := Acquire(i);
    }
  }

  /** A collector that is still waiting is not waiting in vain. */
  lemma CollectorProgress(f: Fetch, answers: seq<bool>) returns (step: Step)
    requires Invariant(f, answers) && f.collector.Collecting?
    ensures Enabled(f, step)
  {
    if f.channel != [] {
      step := Receive;
    } else if i: nat :| i < |f.phases| && !f.phases[i].Done? {
      step := WorkersProgress(f, answers, i);
    } else {
      EveryoneDone(f, answers);
      step := Receive;
    }
  }

  /** Once all workers are done, every block has been requested and delivered. */
  lemma EveryoneDone(f: Fetch, answers: seq<bool>)
    requires Invariant(f, answers) && forall i :: 0 <= i < |f.phases| ==> f.phases[i].Done?
    ensures |f.requests| == |f.delivered| == |f.phases|
    ensures forall i: nat :: i < |f.phases| ==> i in f.requests && i in f.delivered
  {
    DistinctBelow(f.requests, |f.phases|);
    DistinctBelow(f.delivered, |f.phases|);
    assert forall i: nat :: i < |f.phases| ==> Delivering(f, i);
  }

  function Measure(f: Fetch): nat {
    Total(Remaining, f.phases) + |f.channel|
  }

  lemma StepDecreases(f: Fetch, answers: seq<bool>, step: Step)
    requires Enabled(f, step)
    ensures Measure(Apply(f, answers, step)) < Measure(f)
  {
    match step
    case Acquire(i) => TotalUpdate(Remaining, f.phases, i, Requesting);
    case Answer(i) => TotalUpdate(Remaining, f.phases, i, Answered);
    case Send(i) => TotalUpdate(Remaining, f.phases, i, Sent);
    case Release(i) => TotalUpdate(Remaining, f.phases, i, Done);
    case Receive =>
  }

  lemma {:induction false} TotalStart(n: nat)
    ensures Total(Remaining, Start(n).phases) == 5 * n
  {
    if n > 0 {
      TotalStart(n - 1);
      assert Start(n).phases[..n - 1] == Start(n - 1).phases;
    }
  }

  lemma {:induction false} RunIsShort(n: nat, answers: seq<bool>, steps: seq<Step>)
    requires CanRun(n, answers, steps)
    ensures Measure(Exec(n, answers, steps)) + |steps| <= 5 * n
    decreases |steps|
  {
    hide Apply, Enabled, Measure;
    if steps == [] {
      StartMeasure(n);
    } else {
      RunIsShort(n, answers, steps[..|steps| - 1]);
      StepDecreases(Exec(n, answers, steps[..|steps| - 1]), answers, steps[|steps| - 1]);
    }
  }

  lemma StartMeasure(n: nat)
    ensures Measure(Start(n)) == 5 * n
  {
    TotalStart(n);
  }

  ghost predicate Stopped(f: Fetch) {
    forall step :: !Enabled(f, step)
  }

  /** Termination without deadlock. No run has more than five steps per block, and a run
      that cannot go on has every worker done and every block requested and delivered
      exactly once; the collector has returned an error if some block failed and has all
      results otherwise, in whatever order they came. */
  lemma EveryRunEndsWell(answers: seq<bool>, steps: seq<Step>)
    requires answers != [] && CanRun(|answers|, answers, steps)
    ensures |steps| <= 5 * |answers|
    ensures var f := Exec(|answers|, answers, steps);
            Stopped(f) ==>
              && (forall i :: 0 <= i < |f.phases| ==> f.phases[i].Done?)
              && |f.requests| == |f.delivered| == |answers|
              && NoRepeats(f.requests) && NoRepeats(f.delivered)
              && (forall i: nat :: i < |answers| ==> i in f.requests && i in f.delivered)
              && f.collector == if false in answers then Returned else Finished
  {
    RunIsShort(|answers|, answers, steps);
    RunKeepsInvariant(answers, steps);
    if Stopped(Exec(|answers|, answers, steps)) {
      StoppedWell(Exec(|answers|, answers, steps), answers);
    }
  }

  lemma StoppedDone(f: Fetch, answers: seq<bool>)
    requires Invariant(f, answers) && Stopped(f)
    ensures forall i :: 0 <= i < |f.phases| ==> f.phases[i].Done?
  {
    if i: nat :| i < |f.phases| && !f.phases[i].Done? {
      var step := WorkersProgress(f, answers, i);
    }
  }

  lemma StoppedCollected(f: Fetch, answers: seq<bool>)
    requires Invariant(f, answers) && Stopped(f)
    ensures !f.collector.Collecting?
  {
    if f.collector.Collecting? {
      var step := CollectorProgress(f, answers);
    }
  }

  lemma StoppedWell(f: Fetch, answers: seq<bool>)
    requires Invariant(f, answers) && Stopped(f)
    ensures (forall i :: 0 <= i < |f.phases| ==> f.phases[i].Done?) && |f.requests| == |f.delivered| == |answers|
    ensures forall i: nat :: i < |answers| ==> i in f.requests && i in f.delivered
    ensures f.collector == if false in answers then Returned else Finished
  {
    StoppedDone(f, answers);
    StoppedCollected(f, answers);
    EveryoneDone(f, answers);
    OutcomeOfAll(f, answers);
  }

  lemma OutcomeOfAll(f: Fetch, answers: seq<bool>)
    requires Invariant(f, answers) && !f.collector.Collecting?
    requires |f.delivered| == |f.phases| && forall i: nat :: i < |f.phases| ==> i in f.delivered
    ensures f.collector == if false in answers then Returned else Finished
  {
    if f.collector.Returned? {
      var last := f.delivered[Taken(f) - 1];
      assert last in f.delivered;
      assert !answers[last];
    } else {
      forall i: nat | i < |answers|
        ensures answers[i]
      {
        assert i in f.delivered;
        var k :| 0 <= k < |f.delivered| && f.delivered[k] == i;
        assert Good(answers, f.delivered[k]);
      }
    }
  }
}
