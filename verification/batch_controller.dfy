/**
 The adaptive batch size: doubled after a streak of successes, divided on failure.
 */
module BatchController {
  import opened Arithmetic
  import opened Numerals

  datatype Settings = Settings(minSize: nat, maxSize: nat, streak: int, backoff: int) {
    /** Sizes are 64-bit words small enough to be doubled, and the divisor is not zero. */
    predicate Valid() {
      minSize < WORD / 2 && maxSize < WORD / 2 && -WORD < backoff < WORD && backoff != 0
    }

    /** uint64(batchFailureBackoff): a negative setting wraps to a huge divisor. */
    function Divisor(): (d: nat)
      requires Valid()
      ensures 1 <= d < WORD && (d - backoff) % WORD == 0
    {
      if backoff > 0 then backoff else backoff + WORD
    }

    /** A streak setting of zero or less acts like one. */
    function EffectiveStreak(): (n: nat)
      ensures n >= 1
    {
      if streak > 1 then streak else 1
    }
  }

  datatype Controller = Controller(size: nat, successes: nat, failures: nat)

  function OnSuccess(s: Settings, c: Controller): Controller {
    var successes := c.successes + 1;
    var doubled := c.size * 2 % WORD;
    var size := if doubled > s.maxSize then s.maxSize else doubled;
    if successes >= s.streak && size != c.size
    then Controller(size, 0, 0)
    else Controller(c.size, successes, 0)
  }

  function OnFailure(s: Settings, c: Controller): Controller
    requires s.Valid()
  {
    var divided := c.size / s.Divisor();
    var size := if divided < s.minSize then s.minSize else divided;
    if size != c.size then Controller(size, 0, 0) else Controller(c.size, 0, c.failures + 1)
  }

  function Record(s: Settings, c: Controller, success: bool): Controller
    requires s.Valid()
  {
    if success then OnSuccess(s, c) else OnFailure(s, c)
  }

  function After(s: Settings, c: Controller, outcomes: seq<bool>): Controller
    requires s.Valid()
    decreases |outcomes|
  {
    if outcomes == [] then c
    else Record(s, After(s, c, outcomes[..|outcomes| - 1]), outcomes[|outcomes| - 1])
  }

  /** In range, and with the streak used up as soon as it has an effect. */
  predicate Settled(s: Settings, c: Controller) {
    s.minSize <= c.size <= s.maxSize && (c.size < s.maxSize ==> c.successes < s.EffectiveStreak())
  }

  lemma RecordSettled(s: Settings, c: Controller, success: bool)
    requires s.Valid() && 1 <= s.minSize && Settled(s, c)
    ensures Settled(s, Record(s, c, success))
  {
    QuotientShrinks(c.size, s.Divisor());
  }

  /** Over every mix of outcomes a size that starts in range stays in range, below the
      maximum the success count stays below the streak, and only one count runs. */
  lemma {:induction false} AlwaysSettled(s: Settings, c: Controller, outcomes: seq<bool>)
    requires s.Valid() && 1 <= s.minSize && Settled(s, c)
    ensures Settled(s, After(s, c, outcomes))
    ensures outcomes != [] ==>
              if outcomes[|outcomes| - 1] then After(s, c, outcomes).failures == 0
              else After(s, c, outcomes).successes == 0
    decreases |outcomes|
  {
    if outcomes != [] {
      AlwaysSettled(s, c, outcomes[..|outcomes| - 1]);
      RecordSettled(s, After(s, c, outcomes[..|outcomes| - 1]), outcomes[|outcomes| - 1]);
    }
  }

  /** The constructor does not clamp the starting size: a failure raises the batch
      size exactly when it is below the minimum. */
  lemma FailureRaisesBelowMinimum(s: Settings, c: Controller)
    requires s.Valid()
    ensures OnFailure(s, c).size > c.size <==> c.size < s.minSize
  {
    QuotientShrinks(c.size, s.Divisor());
  }

  function Repeat(success: bool, n: nat): seq<bool> {
    seq(n, _ => success)
  }

  lemma RepeatStep(success: bool, n: nat)
    requires n >= 1
    ensures Repeat(success, n)[..n - 1] == Repeat(success, n - 1) && Repeat(success, n)[n - 1] == success
  {
  }

  /** One more failure after a quotient by p is a quotient by p * d. */
  lemma FailureComposes(s: Settings, size: nat, p: nat)
    requires s.Valid() && p >= 1
    ensures p * s.Divisor() >= 1
    ensures Max(s.minSize, Max(s.minSize, size / p) / s.Divisor()) == Max(s.minSize, size / (p * s.Divisor()))
  {
    var d := s.Divisor();
    QuotientOfQuotient(size, p, d);
    QuotientOfMax(s.minSize, size / p, d);
    QuotientShrinks(s.minSize, d);
  }

  lemma FailureSize(s: Settings, c: Controller)
    requires s.Valid()
    ensures OnFailure(s, c).size == Max(s.minSize, c.size / s.Divisor())
  {
  }

  ghost predicate Shrunk(s: Settings, c: Controller, power: nat, after: Controller)
    requires s.Valid()
  {
    power >= 1 && after.size == Max(s.minSize, c.size / power)
  }

  lemma ShrunkAfterFailure(s: Settings, c: Controller, power: nat, before: Controller)
    requires s.Valid() && Shrunk(s, c, power, before)
    ensures Shrunk(s, c, power * s.Divisor(), OnFailure(s, before))
  {
    FailureComposes(s, c.size, power);
    FailureSize(s, before);
  }

  lemma {:induction false} FailuresShrink(s: Settings, c: Controller, k: nat)
    requires s.Valid() && k >= 1
    ensures Shrunk(s, c, Pow(s.Divisor(), k), After(s, c, Repeat(false, k)))
  {
    RepeatStep(false, k);
    if k == 1 {
      assert Repeat(false, 0) == [];
      FailureSize(s, c);
    } else {
      FailuresShrink(s, c, k - 1);
      ShrunkAfterFailure(s, c, Pow(s.Divisor(), k - 1), After(s, c, Repeat(false, k - 1)));
    }
  }

  /** k consecutive failures: one floor division by the k-th power of the divisor. */
  lemma FailuresClosedForm(s: Settings, c: Controller, k: nat)
    requires s.Valid() && k >= 1
    ensures Pow(s.Divisor(), k) >= 1
    ensures After(s, c, Repeat(false, k)).size == Max(s.minSize, c.size / Pow(s.Divisor(), k))
  {
    FailuresShrink(s, c, k);
  }

  /** What one success does to a size of the form min(max, grown). */
  lemma SuccessSize(s: Settings, c: Controller, grown: nat)
    requires s.Valid() && grown >= 1 && c.size == Min(s.maxSize, grown)
    requires c.size < s.maxSize ==> c.successes < s.EffectiveStreak()
    ensures var after := OnSuccess(s, c);
            if c.size < s.maxSize && c.successes == s.EffectiveStreak() - 1
            then after.size == Min(s.maxSize, 2 * grown) && after.successes == 0
            else after.size == c.size && (c.size < s.maxSize ==> after.successes == c.successes + 1)
  {
  }

  lemma SuccessStep(s: Settings, c: Controller, grown: nat, total: nat)
    requires s.Valid() && grown >= 1 && c.size == Min(s.maxSize, grown)
    requires c.size < s.maxSize ==> c.successes == total % s.EffectiveStreak()
    ensures var streak := s.EffectiveStreak();
            var after := OnSuccess(s, c);
            && after.size == Min(s.maxSize, if total % streak == streak - 1 then 2 * grown else grown)
            && (after.size < s.maxSize ==> after.successes == (total + 1) % streak)
  {
    NextQuotient(total, s.EffectiveStreak());
    SuccessSize(s, c, grown);
  }

  lemma GrownStep(size: nat, streak: nat, total: nat)
    requires streak >= 1 && size >= 1
    ensures size * Pow(2, total / streak) >= 1
    ensures size * Pow(2, (total + 1) / streak)
         == if total % streak == streak - 1 then 2 * (size * Pow(2, total / streak)) else size * Pow(2, total / streak)
  {
    NextQuotient(total, streak);
    var p := Pow(2, total / streak);
    MulMonotone(size, 1, p);
    MulAssociates(2, size, p);
    MulAssociates(size, 2, p);
    assert Pow(2, total / streak + 1) == 2 * p;
  }

  lemma FreshCount(s: Settings, c: Controller)
    requires 1 <= c.size <= s.maxSize
    requires c.size < s.maxSize ==> c.successes < s.EffectiveStreak()
    ensures c.size == Min(s.maxSize, c.size * Pow(2, c.successes / s.EffectiveStreak()))
    ensures c.size < s.maxSize ==> c.successes % s.EffectiveStreak() == c.successes
  {
    var streak := s.EffectiveStreak();
    if c.size < s.maxSize {
      QuotientUnique(c.successes, streak, 0, c.successes);
    } else {
      MulMonotone(c.size, 1, Pow(2, c.successes / streak));
    }
  }

  /** The size and count that n successes should leave. */
  ghost predicate Grown(s: Settings, c: Controller, total: nat, after: Controller) {
    && after.size == Min(s.maxSize, c.size * Pow(2, total / s.EffectiveStreak()))
    && (after.size < s.maxSize ==> after.successes == total % s.EffectiveStreak())
  }

  lemma GrownAfterSuccess(s: Settings, c: Controller, total: nat, before: Controller)
    requires s.Valid() && 1 <= c.size && Grown(s, c, total, before)
    ensures Grown(s, c, total + 1, OnSuccess(s, before))
  {
    GrownStep(c.size, s.EffectiveStreak(), total);
    SuccessStep(s, before, c.size * Pow(2, total / s.EffectiveStreak()), total);
  }

  lemma {:induction false} SuccessesGrow(s: Settings, c: Controller, n: nat)
    requires s.Valid() && 1 <= c.size && Grown(s, c, c.successes, c)
    ensures Grown(s, c, c.successes + n, After(s, c, Repeat(true, n)))
  {
    if n == 0 {
      assert Repeat(true, 0) == [];
    } else {
      SuccessesGrow(s, c, n - 1);
      RepeatStep(true, n);
      GrownAfterSuccess(s, c, c.successes + n - 1, After(s, c, Repeat(true, n - 1)));
    }
  }

  /** n consecutive successes from any count: one doubling per completed streak,
      capped at the maximum. */
  lemma SuccessesClosedForm(s: Settings, c: Controller, n: nat)
    requires s.Valid() && 1 <= c.size <= s.maxSize
    requires c.size < s.maxSize ==> c.successes < s.EffectiveStreak()
    ensures var streaks := (c.successes + n) / s.EffectiveStreak();
            var after := After(s, c, Repeat(true, n));
            && after.size == Min(s.maxSize, c.size * Pow(2, streaks))
            && (after.size < s.maxSize ==> after.successes == (c.successes + n) % s.EffectiveStreak())
  {
    FreshCount(s, c);
    SuccessesGrow(s, c, n);
  }

  /** m full streaks of successes from a fresh count multiply the size by 2^m. */
  lemma StreaksClosedForm(s: Settings, c: Controller, m: nat)
    requires s.Valid() && 1 <= c.size <= s.maxSize && c.successes == 0
    ensures After(s, c, Repeat(true, s.EffectiveStreak() * m)).size == Min(s.maxSize, c.size * Pow(2, m))
  {
    var n := s.EffectiveStreak() * m;
    SuccessesClosedForm(s, c, n);
    QuotientUnique(n, s.EffectiveStreak(), m, 0);
  }

  /** At the minimum nothing is left to divide: failures are only counted, and the first
      of them ends the success streak. */
  lemma {:induction false} FailuresAtMinimum(s: Settings, c: Controller, k: nat)
    requires s.Valid() && c.size == s.minSize
    ensures After(s, c, Repeat(false, k)) == Controller(c.size, if k == 0 then c.successes else 0, c.failures + k)
  {
    if k == 0 {
      assert Repeat(false, 0) == [];
    } else {
      FailuresAtMinimum(s, c, k - 1);
      RepeatStep(false, k);
      QuotientShrinks(c.size, s.Divisor());
    }
  }
}
