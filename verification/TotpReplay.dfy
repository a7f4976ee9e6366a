/** Replay-resistant TOTP verification: the step each accepted code consumes.

    Checking a code and counting its step read the clock separately: the library reads it
    to find how many steps away from the current one the code was minted, and the service
    reads it again to turn that distance into an absolute step. */
module TotpReplay {
  import opened Wrappers

  /** One submission: the distance the check found (None for a wrong code or no secret) and
      the two clock readings, in milliseconds. */
  datatype Attempt = Attempt(delta: Option<int>, checkedAt: int, countedAt: int)

  datatype Config = Config(period: nat, window: nat)

  predicate ValidConfig(c: Config) { c.period > 0 }

  /** The library accepts a code at most `window` steps away. */
  predicate Possible(c: Config, a: Attempt)
  {
    a.delta.Some? ==> a.delta.value <= c.window && -a.delta.value <= c.window
  }

  /** `currentStepFor`: which period an instant falls in, rounding down. */
  function StepAt(c: Config, ms: int): int
    requires ValidConfig(c)
  {
    ms / (1000 * c.period)
  }

  /** The step whose code was submitted. */
  function MintedStep(c: Config, a: Attempt): int
    requires ValidConfig(c) && a.delta.Some?
  {
    StepAt(c, a.checkedAt) + a.delta.value
  }

  /** How far the clock moved between the two readings, in steps. */
  function Drift(c: Config, a: Attempt): int
    requires ValidConfig(c)
  {
    StepAt(c, a.countedAt) - StepAt(c, a.checkedAt)
  }

  class TotpFactor {
    const config: Config
    var lastUsedStep: Option<int>

    constructor (config: Config)
      ensures this.config == config && lastUsedStep == None
    {
      this.config := config;
      lastUsedStep := None;
    }

    /** `verifyTokenWithStep`, its returned step stored for the next call. */
    method VerifyTokenWithStep(a: Attempt) returns (step: Option<int>)
      requires ValidConfig(config)
      modifies this
      ensures step == Verify(config, old(lastUsedStep), a)
      ensures lastUsedStep == Stored(old(lastUsedStep), step)
    {
      if a.delta.None? { return None; }
      var matched := StepAt(config, a.countedAt) + a.delta.value;
      if lastUsedStep.Some? && matched <= lastUsedStep.value { return None; }
      lastUsedStep := Some(matched);
      return Some(matched);
    }
  }

  /** The consumed step of an accepted submission. */
  function Verify(c: Config, last: Option<int>, a: Attempt): Option<int>
    requires ValidConfig(c)
  {
    if a.delta.None? then None
    else
      var step := StepAt(c, a.countedAt) + a.delta.value;
      if last.Some? && step <= last.value then None else Some(step)
  }

  function Stored(last: Option<int>, step: Option<int>): Option<int> { if step.Some? then step else last }

  /** The submissions accepted in a run, in order, each paired with the step it consumed. */
  function Accepted(c: Config, last: Option<int>, attempts: seq<Attempt>): seq<(Attempt, int)>
    requires ValidConfig(c)
    decreases |attempts|
  {
    if attempts == [] then []
    else
      var step := Verify(c, last, attempts[0]);
      (if step.Some? then [(attempts[0], step.value)] else []) + Accepted(c, Stored(last, step), attempts[1..])
  }

  lemma {:induction false} AcceptedBounds(c: Config, last: Option<int>, attempts: seq<Attempt>)
    requires ValidConfig(c)
    ensures forall x :: x in Accepted(c, last, attempts) ==>
              && x.0 in attempts && x.0.delta.Some? && x.1 == MintedStep(c, x.0) + Drift(c, x.0)
              && (last.Some? ==> x.1 > last.value)
    decreases |attempts|
  {
    if attempts != [] {
      AcceptedBounds(c, Stored(last, Verify(c, last, attempts[0])), attempts[1..]);
    }
  }

  /** Consumed steps strictly increase, however the clock jumps. */
  lemma {:induction false} StepsIncrease(c: Config, last: Option<int>, attempts: seq<Attempt>)
    requires ValidConfig(c)
    ensures forall i, j :: 0 <= i < j < |Accepted(c, last, attempts)| ==>
              Accepted(c, last, attempts)[i].1 < Accepted(c, last, attempts)[j].1
    decreases |attempts|
  {
    if attempts != [] {
      var step := Verify(c, last, attempts[0]);
      var rest := Accepted(c, Stored(last, step), attempts[1..]);
      StepsIncrease(c, Stored(last, step), attempts[1..]);
      AcceptedBounds(c, Stored(last, step), attempts[1..]);
      var all := Accepted(c, last, attempts);
      if step.Some? {
        assert all == [(attempts[0], step.value)] + rest;
        forall i, j | 0 <= i < j < |all| ensures all[i].1 < all[j].1 {
          assert all[j] == rest[j - 1];
          if i > 0 { assert all[i] == rest[i - 1]; } else { assert rest[j - 1] in rest; }
        }
      }
    }
  }

  lemma {:induction false} IncreasingFits(s: seq<(Attempt, int)>, low: int, high: int)
    requires forall i, j :: 0 <= i < j < |s| ==> s[i].1 < s[j].1
    requires forall i :: 0 <= i < |s| ==> low <= s[i].1 <= high
    ensures s != [] ==> low + |s| - 1 <= s[|s| - 1].1
    decreases |s|
  {
    if |s| > 1 {
      var front := s[..|s| - 1];
      IncreasingFits(front, low, high);
      assert front[|front| - 1] == s[|s| - 2];
    }
  }

  /** While the counting clock stays in steps `a` to `b`, at most `b - a + 1 + 2 * window`
      codes are accepted. */
  lemma AcceptanceIsBounded(c: Config, last: Option<int>, attempts: seq<Attempt>, a: int, b: int)
    requires ValidConfig(c) && a <= b
    requires forall x :: x in attempts ==> Possible(c, x) && a <= StepAt(c, x.countedAt) <= b
    ensures |Accepted(c, last, attempts)| <= b - a + 1 + 2 * c.window
  {
    var s := Accepted(c, last, attempts);
    StepsIncrease(c, last, attempts);
    AcceptedBounds(c, last, attempts);
    forall i | 0 <= i < |s| ensures a - c.window <= s[i].1 <= b + c.window {
      assert s[i] in s && s[i].0 in attempts;
    }
    IncreasingFits(s, a - c.window, b + c.window);
  }

  /** What the stored step is after a run. */
  function Final(c: Config, last: Option<int>, attempts: seq<Attempt>): Option<int>
    requires ValidConfig(c)
    decreases |attempts|
  {
    if attempts == [] then last else Final(c, Stored(last, Verify(c, last, attempts[0])), attempts[1..])
  }

  lemma {:induction false} FinalIsLastAccepted(c: Config, last: Option<int>, attempts: seq<Attempt>)
    requires ValidConfig(c)
    ensures var s := Accepted(c, last, attempts);
      Final(c, last, attempts) == if s == [] then last else Some(s[|s| - 1].1)
    decreases |attempts|
  {
    if attempts != [] {
      FinalIsLastAccepted(c, Stored(last, Verify(c, last, attempts[0])), attempts[1..]);
    }
  }

  lemma {:induction false} Spread(s: seq<(Attempt, int)>, i: nat, j: nat)
    requires forall k, l :: 0 <= k < l < |s| ==> s[k].1 < s[l].1
    requires i <= j < |s|
    ensures s[j].1 - s[i].1 >= j - i
    decreases j
  {
    if i < j { Spread(s, i, j - 1); }
  }

  /** In any run a code accepted twice was counted further from its check the second time, by at
      least a step for every code accepted since. */
  lemma ReplayNeedsDrift(c: Config, last: Option<int>, attempts: seq<Attempt>, i: nat, j: nat)
    requires ValidConfig(c) && i < j < |Accepted(c, last, attempts)|
    ensures var s := Accepted(c, last, attempts);
      && s[i].0.delta.Some? && s[j].0.delta.Some?
      && MintedStep(c, s[j].0) - MintedStep(c, s[i].0) >= j - i - (Drift(c, s[j].0) - Drift(c, s[i].0))
  {
    var s := Accepted(c, last, attempts);
    StepsIncrease(c, last, attempts);
    AcceptedBounds(c, last, attempts);
    assert s[i] in s && s[j] in s;
    Spread(s, i, j);
  }

  /** While no call's two readings fall in different steps, no step's code is accepted twice. */
  lemma OneReadingNoReplay(c: Config, last: Option<int>, attempts: seq<Attempt>, i: nat, j: nat)
    requires ValidConfig(c) && i < j < |Accepted(c, last, attempts)|
    requires forall x :: x in attempts ==> Drift(c, x) == 0
    ensures Accepted(c, last, attempts)[i].0.delta.Some? && Accepted(c, last, attempts)[j].0.delta.Some?
    ensures MintedStep(c, Accepted(c, last, attempts)[i].0) < MintedStep(c, Accepted(c, last, attempts)[j].0)
  {
    var s := Accepted(c, last, attempts);
    AcceptedBounds(c, last, attempts);
    assert s[i] in s && s[j] in s;
    ReplayNeedsDrift(c, last, attempts, i, j);
  }

  /** After any run, the code of its `i`-th acceptance is accepted once more exactly when the
      clock crosses more step boundaries between the readings of the new call than it did in
      that acceptance, by more than the steps consumed since. */
  lemma ReplayAcceptedExactlyWhen(c: Config, last: Option<int>, attempts: seq<Attempt>, i: nat, again: Attempt)
    requires ValidConfig(c) && i < |Accepted(c, last, attempts)| && again.delta.Some?
    requires var first := Accepted(c, last, attempts)[i].0; first.delta.Some? && MintedStep(c, first) == MintedStep(c, again)
    ensures var s := Accepted(c, last, attempts);
      Verify(c, Final(c, last, attempts), again).Some? <==> Drift(c, again) - Drift(c, s[i].0) > s[|s| - 1].1 - s[i].1
  {
    var s := Accepted(c, last, attempts);
    AcceptedBounds(c, last, attempts);
    FinalIsLastAccepted(c, last, attempts);
    assert s[i] in s;
  }

  /** With two readings one step's code can be accepted twice: sent twice in the last instant
      of its step, the second counting read falling in the next. */
  lemma TwoReadingsAllowReplay()
    ensures var c := Config(30, 1);
      var first := Attempt(Some(0), 29_998, 29_998);
      var second := Attempt(Some(0), 29_999, 30_000);
      && Possible(c, first) && Possible(c, second)
      && MintedStep(c, first) == MintedStep(c, second)
      && |Accepted(c, None, [first, second])| == 2
  {
    var c := Config(30, 1);
    var first := Attempt(Some(0), 29_998, 29_998);
    var second := Attempt(Some(0), 29_999, 30_000);
    assert [first, second][1..] == [second] && [second][1..] == [];
    assert Accepted(c, Some(0), [second]) == [(second, 1)];
  }
}
