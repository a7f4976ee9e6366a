/** The per-file promise queue: a map entry holding the last call's promise, removed when
    that promise settles and is still the entry.

    A call waits for the promise it found in the map, reads the file, and in a later turn
    either throws, answers, or replaces the file and answers. Promise reactions and
    clean-ups run in any order their promises allow, from any number of adapters. */
module PromiseQueue {
  import opened Wrappers
  import opened DurableFile

  /** What an operation makes of the file it read. */
  datatype Turn<T, R> = Throws | Answers(reply: R) | Replaces(file: T, reply: R)

  datatype Phase<T, R> = Waiting | Running(read: T) | Settled(reply: Option<R>)

  /** `after` is the promise the call found in the map; `outcome` is how far its write gets. */
  datatype Call<T, C, R> = Call(command: C, after: Option<nat>, phase: Phase<T, R>, outcome: Outcome, cleaned: bool)

  datatype State<T, C, R> = State(tail: Option<nat>, calls: seq<Call<T, C, R>>, file: T)

  datatype Step<C> =
    | Arrive(command: C, outcome: Outcome)
    | Start(call: nat)
    | Finish(call: nat)
    | CleanUp(call: nat)

  /** The file and the reply after one turn on `file`. */
  function After<T, C, R>(run: (T, C) -> Turn<T, R>, file: T, command: C, outcome: Outcome): (T, Option<R>)
  {
    match run(file, command)
    case Throws => (file, None)
    case Answers(reply) => (file, Some(reply))
    case Replaces(next, reply) =>
      (if outcome.NotRenamed? then file else next, if outcome.Done? then Some(reply) else None)
  }

  predicate MayStart<T, C, R>(s: State<T, C, R>, i: nat)
  {
    i < |s.calls| && s.calls[i].phase.Waiting? &&
    (s.calls[i].after.Some? ==> s.calls[i].after.value < |s.calls| && s.calls[s.calls[i].after.value].phase.Settled?)
  }

  function Apply<T, C, R>(run: (T, C) -> Turn<T, R>, s: State<T, C, R>, step: Step<C>): State<T, C, R>
  {
    match step
    case Arrive(command, outcome) =>
      s.(tail := Some(|s.calls|), calls := s.calls + [Call(command, s.tail, Waiting, outcome, false)])
    case Start(i) =>
      if !MayStart(s, i) then s else s.(calls := s.calls[i := s.calls[i].(phase := Running(s.file))])
    case Finish(i) =>
      if !(i < |s.calls| && s.calls[i].phase.Running?) then s
      else
        // what is written was computed from what this call read
        var c := s.calls[i];
        var (next, reply) := After(run, c.phase.read, c.command, c.outcome);
        var wrote := run(c.phase.read, c.command).Replaces? && !c.outcome.NotRenamed?;
        s.(file := if wrote then next else s.file, calls := s.calls[i := c.(phase := Settled(reply))])
    case CleanUp(i) =>
      if !(i < |s.calls| && s.calls[i].phase.Settled? && !s.calls[i].cleaned) then s
      else s.(tail := if s.tail == Some(i) then None else s.tail, calls := s.calls[i := s.calls[i].(cleaned := true)])
  }

  function Exec<T, C, R>(run: (T, C) -> Turn<T, R>, s: State<T, C, R>, steps: seq<Step<C>>): State<T, C, R>
    decreases |steps|
  {
    if steps == [] then s else Exec(run, Apply(run, s, steps[0]), steps[1..])
  }

  function Fresh<T, C, R>(file: T): State<T, C, R> { State(None, [], file) }

  // --- one at a time ------------------------------------------------------------------------

  /** The first `n` calls, run one by one in the order they arrived. */
  function Sequential<T, C, R>(run: (T, C) -> Turn<T, R>, file: T, calls: seq<Call<T, C, R>>, n: nat): T
    requires n <= |calls|
  {
    if n == 0 then file
    else After(run, Sequential(run, file, calls, n - 1), calls[n - 1].command, calls[n - 1].outcome).0
  }

  /** How many calls have settled, when they settle in order of arrival. */
  function SettledCount<T, C, R>(calls: seq<Call<T, C, R>>): (n: nat)
    ensures n <= |calls|
    ensures forall i :: 0 <= i < n ==> calls[i].phase.Settled?
    ensures n < |calls| ==> !calls[n].phase.Settled?
  {
    if calls == [] then 0
    else
      var m := SettledCount(calls[..|calls| - 1]);
      assert forall i :: 0 <= i < m ==> calls[..|calls| - 1][i] == calls[i];
      if m == |calls| - 1 && calls[m].phase.Settled? then m + 1 else m
  }

  predicate Follows(after: Option<nat>, i: nat, settled: nat)
  {
    if after.Some? then after.value == i - 1 else i == settled
  }

  /** The map entry is the last call's promise, or there is nothing to wait for; each call
      waits for the one before it, or arrived when all of them had settled. */
  ghost predicate Chained<T, C, R>(s: State<T, C, R>)
  {
    var n := SettledCount(s.calls);
    && (s.tail.Some? ==> s.tail.value == |s.calls| - 1)
    && (s.tail.None? ==> n == |s.calls|)
    && forall i :: n <= i < |s.calls| ==> Follows(s.calls[i].after, i, n)
  }

  ghost predicate OneAtATime<T, C, R>(s: State<T, C, R>)
  {
    var n := SettledCount(s.calls);
    && (forall i :: n < i < |s.calls| ==> s.calls[i].phase.Waiting?)
    && (n < |s.calls| && s.calls[n].phase.Running? ==> s.calls[n].phase.read == s.file)
  }

  /** The reply call `i` gets when the calls are run one by one. */
  function SequentialReply<T, C, R>(run: (T, C) -> Turn<T, R>, file: T, calls: seq<Call<T, C, R>>, i: nat): Option<R>
    requires i < |calls|
  {
    After(run, Sequential(run, file, calls, i), calls[i].command, calls[i].outcome).1
  }

  ghost predicate LinearUpTo<T, C, R>(run: (T, C) -> Turn<T, R>, init: T, file: T, calls: seq<Call<T, C, R>>, n: nat)
  {
    && n <= |calls| && file == Sequential(run, init, calls, n)
    && forall i :: 0 <= i < n ==> calls[i].phase == Settled(SequentialReply(run, init, calls, i))
  }

  ghost predicate Linear<T, C, R>(run: (T, C) -> Turn<T, R>, init: T, s: State<T, C, R>)
  {
    LinearUpTo(run, init, s.file, s.calls, SettledCount(s.calls))
  }

  ghost predicate Inv<T, C, R>(run: (T, C) -> Turn<T, R>, init: T, s: State<T, C, R>)
  {
    Chained(s) && OneAtATime(s) && Linear(run, init, s)
  }

  // --- steps ---------------------------------------------------------------------------------

  lemma {:induction false} CountIs<T, C, R>(calls: seq<Call<T, C, R>>, n: nat)
    requires n <= |calls| && (forall i :: 0 <= i < n ==> calls[i].phase.Settled?)
    requires n < |calls| ==> !calls[n].phase.Settled?
    ensures SettledCount(calls) == n
  {}

  ghost predicate SameCommands<T, C, R>(a: seq<Call<T, C, R>>, b: seq<Call<T, C, R>>, n: nat)
  {
    n <= |a| && n <= |b| && forall i :: 0 <= i < n ==> a[i].command == b[i].command && a[i].outcome == b[i].outcome
  }

  lemma {:induction false} SequentialDependsOnCommands<T, C, R>(run: (T, C) -> Turn<T, R>, file: T, a: seq<Call<T, C, R>>,
                                                               b: seq<Call<T, C, R>>, n: nat)
    requires SameCommands(a, b, n)
    ensures Sequential(run, file, a, n) == Sequential(run, file, b, n)
  {
    if n > 0 { SequentialDependsOnCommands(run, file, a, b, n - 1); }
  }

  lemma LinearStays<T, C, R>(run: (T, C) -> Turn<T, R>, init: T, file: T, a: seq<Call<T, C, R>>, b: seq<Call<T, C, R>>, n: nat)
    requires LinearUpTo(run, init, file, a, n) && SameCommands(a, b, n)
    requires forall i :: 0 <= i < n ==> a[i].phase == b[i].phase
    ensures LinearUpTo(run, init, file, b, n)
  {
    SequentialDependsOnCommands(run, init, a, b, n);
    forall i | 0 <= i < n ensures b[i].phase == Settled(SequentialReply(run, init, b, i)) {
      SequentialDependsOnCommands(run, init, a, b, i);
    }
  }

  /** One more call settled as its turn on the file says. */
  lemma LinearGrows<T, C, R>(run: (T, C) -> Turn<T, R>, init: T, file: T, calls: seq<Call<T, C, R>>, n: nat)
    requires LinearUpTo(run, init, file, calls, n) && n < |calls|
    requires calls[n].phase == Settled(After(run, file, calls[n].command, calls[n].outcome).1)
    ensures LinearUpTo(run, init, After(run, file, calls[n].command, calls[n].outcome).0, calls, n + 1)
  {}

  lemma ArriveKeepsOrder<T, C, R>(run: (T, C) -> Turn<T, R>, s: State<T, C, R>, command: C, outcome: Outcome)
    requires Chained(s) && OneAtATime(s)
    ensures var t := Apply(run, s, Arrive(command, outcome));
      Chained(t) && OneAtATime(t) && SettledCount(t.calls) == SettledCount(s.calls)
  {
    var t := Apply(run, s, Arrive(command, outcome));
    CountIs(t.calls, SettledCount(s.calls));
    var n := SettledCount(s.calls);
    forall i | n <= i < |t.calls| ensures Follows(t.calls[i].after, i, n) {
      if i < |s.calls| { assert Follows(s.calls[i].after, i, n); }
    }
  }

  lemma ArriveKeepsInv<T, C, R>(run: (T, C) -> Turn<T, R>, init: T, s: State<T, C, R>, command: C, outcome: Outcome)
    requires Inv(run, init, s)
    ensures Inv(run, init, Apply(run, s, Arrive(command, outcome)))
  {
    ArriveKeepsOrder(run, s, command, outcome);
    LinearStays(run, init, s.file, s.calls, Apply(run, s, Arrive(command, outcome)).calls, SettledCount(s.calls));
  }

  lemma OnlyTheFirstMayStart<T, C, R>(s: State<T, C, R>, i: nat)
    requires Chained(s) && OneAtATime(s) && SettledCount(s.calls) < i < |s.calls|
    ensures !MayStart(s, i)
  {
    assert Follows(s.calls[i].after, i, SettledCount(s.calls));
  }

  lemma StartKeepsInv<T, C, R>(run: (T, C) -> Turn<T, R>, init: T, s: State<T, C, R>, i: nat)
    requires Inv(run, init, s) && MayStart(s, i)
    ensures Inv(run, init, Apply(run, s, Start(i))) && i == SettledCount(s.calls)
  {
    var n := SettledCount(s.calls);
    var t := Apply(run, s, Start(i));
    if i > n { OnlyTheFirstMayStart(s, i); }
    CountIs(t.calls, n);
    LinearStays(run, init, s.file, s.calls, t.calls, SettledCount(s.calls));
  }

  lemma FinishKeepsOrder<T, C, R>(run: (T, C) -> Turn<T, R>, s: State<T, C, R>, i: nat)
    requires Chained(s) && OneAtATime(s) && i < |s.calls| && s.calls[i].phase.Running?
    ensures var t := Apply(run, s, Finish(i));
      Chained(t) && OneAtATime(t) && i == SettledCount(s.calls) && SettledCount(t.calls) == i + 1
  {
    var n := SettledCount(s.calls);
    var t := Apply(run, s, Finish(i));
    assert i == n;
    CountIs(t.calls, n + 1);
    forall k | n + 1 <= k < |t.calls| ensures Follows(t.calls[k].after, k, n + 1) {
      assert Follows(s.calls[k].after, k, n);
    }
  }

  lemma FinishKeepsInv<T, C, R>(run: (T, C) -> Turn<T, R>, init: T, s: State<T, C, R>, i: nat)
    requires Inv(run, init, s) && i < |s.calls| && s.calls[i].phase.Running?
    ensures Inv(run, init, Apply(run, s, Finish(i)))
  {
    FinishKeepsOrder(run, s, i);
    FinishIsLinear(run, init, s, i);
  }

  lemma FinishIsOneTurn<T, C, R>(run: (T, C) -> Turn<T, R>, s: State<T, C, R>, i: nat)
    requires i < |s.calls| && s.calls[i].phase == Running(s.file)
    ensures var t := Apply(run, s, Finish(i)); var (next, reply) := After(run, s.file, s.calls[i].command, s.calls[i].outcome);
      t.file == next && t.calls == s.calls[i := s.calls[i].(phase := Settled(reply))]
  {}

  lemma FinishIsLinear<T, C, R>(run: (T, C) -> Turn<T, R>, init: T, s: State<T, C, R>, i: nat)
    requires Linear(run, init, s) && i < |s.calls| && i == SettledCount(s.calls) && s.calls[i].phase == Running(s.file)
    requires SettledCount(Apply(run, s, Finish(i)).calls) == i + 1
    ensures Linear(run, init, Apply(run, s, Finish(i)))
  {
    FinishIsOneTurn(run, s, i);
    var t := Apply(run, s, Finish(i));
    LinearStays(run, init, s.file, s.calls, t.calls, i);
    LinearGrows(run, init, s.file, t.calls, i);
  }

  lemma CleanUpKeepsInv<T, C, R>(run: (T, C) -> Turn<T, R>, init: T, s: State<T, C, R>, i: nat)
    requires Inv(run, init, s) && i < |s.calls| && s.calls[i].phase.Settled?
    ensures Inv(run, init, Apply(run, s, CleanUp(i)))
  {
    var t := Apply(run, s, CleanUp(i));
    CountIs(t.calls, SettledCount(s.calls));
    LinearStays(run, init, s.file, s.calls, t.calls, SettledCount(s.calls));
  }

  lemma StepKeepsInv<T, C, R>(run: (T, C) -> Turn<T, R>, init: T, s: State<T, C, R>, step: Step<C>)
    requires Inv(run, init, s)
    ensures Inv(run, init, Apply(run, s, step))
  {
    match step
    case Arrive(command, outcome) => ArriveKeepsInv(run, init, s, command, outcome);
    case Start(i) => if MayStart(s, i) { StartKeepsInv(run, init, s, i); }
    case Finish(i) => if i < |s.calls| && s.calls[i].phase.Running? { FinishKeepsInv(run, init, s, i); }
    case CleanUp(i) => if i < |s.calls| && s.calls[i].phase.Settled? { CleanUpKeepsInv(run, init, s, i); }
  }

  lemma {:induction false} RunKeepsInv<T, C, R>(run: (T, C) -> Turn<T, R>, init: T, s: State<T, C, R>, steps: seq<Step<C>>)
    requires Inv(run, init, s)
    ensures Inv(run, init, Exec(run, s, steps))
    decreases |steps|
  {
    if steps != [] {
      StepKeepsInv(run, init, s, steps[0]);
      RunKeepsInv(run, init, Apply(run, s, steps[0]), steps[1..]);
    }
  }

  // --- the theorem -----------------------------------------------------------------------------

  /** Any interleaving of calls, starts, finishes and clean-ups leaves the file, and answers
      every settled call, as running the calls one by one in order of arrival does. */
  lemma Linearized<T, C, R>(run: (T, C) -> Turn<T, R>, init: T, steps: seq<Step<C>>)
    ensures var s: State<T, C, R> := Exec(run, Fresh(init), steps); var n := SettledCount(s.calls);
      && s.file == Sequential(run, init, s.calls, n)
      && (forall i :: n <= i < |s.calls| ==> !s.calls[i].phase.Settled?)
      && forall i :: 0 <= i < n ==> s.calls[i].phase == Settled(SequentialReply(run, init, s.calls, i))
  {
    var s0: State<T, C, R> := Fresh(init);
    assert Inv(run, init, s0);
    RunKeepsInv(run, init, s0, steps);
  }

  /** One call runs at a time: every call before it has settled and none after it has begun,
      however many steps of its own the operation takes. */
  lemma MutualExclusion<T, C, R>(run: (T, C) -> Turn<T, R>, init: T, steps: seq<Step<C>>, i: nat)
    requires var s: State<T, C, R> := Exec(run, Fresh(init), steps); i < |s.calls| && s.calls[i].phase.Running?
    ensures var s: State<T, C, R> := Exec(run, Fresh(init), steps);
      && (forall j :: 0 <= j < i ==> s.calls[j].phase.Settled?)
      && (forall j :: i < j < |s.calls| ==> s.calls[j].phase.Waiting?)
  {
    var s0: State<T, C, R> := Fresh(init);
    assert Inv(run, init, s0);
    RunKeepsInv(run, init, s0, steps);
  }

  /** The queue never gets stuck: while a call is unsettled, the first such call is running and
      settles when it finishes, or runs when it starts. */
  lemma NeverStuck<T, C, R>(run: (T, C) -> Turn<T, R>, init: T, steps: seq<Step<C>>)
    ensures var s: State<T, C, R> := Exec(run, Fresh(init), steps); var n := SettledCount(s.calls);
      n < |s.calls| ==>
        || (s.calls[n].phase.Running? && Apply(run, s, Step.Finish(n)).calls[n].phase.Settled?)
        || (s.calls[n].phase.Waiting? && Apply(run, s, Step.Start(n)).calls[n].phase == Running(s.file))
  {
    var s0: State<T, C, R> := Fresh(init);
    assert Inv(run, init, s0);
    RunKeepsInv(run, init, s0, steps);
  }

  /** A call joins the queue at its end, waiting, and changes nothing else. */
  lemma ArrivesLast<T, C, R>(run: (T, C) -> Turn<T, R>, s: State<T, C, R>, command: C, outcome: Outcome)
    ensures var t := Apply(run, s, Arrive(command, outcome)); var n := |s.calls|;
      && |t.calls| == n + 1 && t.calls[..n] == s.calls && t.file == s.file
      && t.calls[n].phase == Waiting && t.calls[n].command == command && t.calls[n].outcome == outcome
  {}

  /** One turn: what throws changes and answers nothing, what only reads changes nothing, and a
      write changes the file once it is renamed and answers once it is acknowledged. */
  lemma TurnExactly<T(!new), C, R(!new)>(run: (T, C) -> Turn<T, R>, file: T, c: C, outcome: Outcome)
    ensures var (now, reply) := After(run, file, c, outcome);
      && (forall r :: reply == Some(r) <==> run(file, c) == Answers(r) || (outcome == Done && exists next :: run(file, c) == Replaces(next, r)))
      && (forall next, r :: run(file, c) == Replaces(next, r) && outcome != NotRenamed ==> now == next)
      && ((outcome == NotRenamed || forall next, r :: run(file, c) != Replaces(next, r)) ==> now == file)
  {
    var turn := run(file, c);
    assert turn.Replaces? ==> turn == Replaces(turn.file, turn.reply);
    assert turn.Answers? ==> turn == Answers(turn.reply);
  }
}
