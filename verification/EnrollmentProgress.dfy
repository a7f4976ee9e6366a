/** The gate moves on: whatever is called, something can always be done until all is settled,
    and doing it settles everything in a number of steps known beforehand. */
module EnrollmentProgress {
  import opened Wrappers
  import opened EnrollmentGate

  // --- what one call does ------------------------------------------------------------------

  /** `x` has the parent `p` and was called before `n`. */
  ghost predicate CalledBefore(s: State, x: OpId, p: Option<OpId>, n: OpId) { x < n && ChildOf(s, x, p) }

  /** A call becomes one new waiting operation. It is a child of the caller's context when that
      one is running or draining, a root otherwise, and it waits for the latest operation called
      under the same parent; nothing else changes but what the next call there will wait for. */
  lemma CallNests(steps: seq<Step>, from: Option<OpId>)
    ensures var s := Exec(Fresh, steps); var t := Apply(s, Call(from)); var n := |s.ops|;
      && |t.ops| == n + 1 && t.ops[n].phase.Waiting? && t.ops[n].tail == None
      && t.ops[n].parent == (if from.Some? && from.value < n && (s.ops[from.value].phase.Running? || s.ops[from.value].phase.Draining?)
                             then from else None)
      && (forall k: OpId :: k < n ==> t.ops[k] == s.ops[k].(tail := t.ops[k].tail))
      && match t.ops[n].prev
         case None => forall x: OpId :: !CalledBefore(s, x, t.ops[n].parent, n)
         case Some(p) => CalledBefore(s, p, t.ops[n].parent, n) && forall x: OpId :: p < x ==> !CalledBefore(s, x, t.ops[n].parent, n)
  {
    RunKeepsInv(Fresh, steps);
    var s := Exec(Fresh, steps);
    EnqueueShape(s, Linked(s, from));
    assert LatestChild(s, Linked(s, from), TailOf(s, Linked(s, from)));
  }

  // --- what can be done ----------------------------------------------------------------------

  /** What a context awaits is a child of it. */
  ghost predicate AwaitsOwnChild(s: State)
  {
    forall k: OpId :: Known(s, k) && s.ops[k].phase.Draining? && s.ops[k].phase.captured.Some? ==>
      ChildOf(s, s.ops[k].phase.captured.value, Some(k))
  }

  lemma StepKeepsAwaiting(s: State, step: Step)
    requires Inv(s) && AwaitsOwnChild(s)
    ensures AwaitsOwnChild(Apply(s, step))
  {
    var t := Apply(s, step);
    forall k: OpId | Known(t, k) && t.ops[k].phase.Draining? && t.ops[k].phase.captured.Some?
      ensures ChildOf(t, t.ops[k].phase.captured.value, Some(k))
    {
      assert Known(s, k);
      assert LatestChild(s, Some(k), s.ops[k].tail);
    }
  }

  lemma {:induction false} RunKeepsAwaiting(s: State, steps: seq<Step>)
    requires Inv(s) && AwaitsOwnChild(s)
    ensures Inv(Exec(s, steps)) && AwaitsOwnChild(Exec(s, steps))
    decreases |steps|
  {
    if steps != [] {
      StepKeepsInv(s, steps[0]);
      StepKeepsAwaiting(s, steps[0]);
      RunKeepsAwaiting(Apply(s, steps[0]), steps[1..]);
    }
  }

  ghost predicate Unsettled(s: State, k: OpId) { Known(s, k) && !s.ops[k].phase.Settled? }

  ghost predicate AllSettled(s: State) { forall k: OpId :: !Unsettled(s, k) }

  lemma {:induction false} LeastUnsettled(s: State, p: Option<OpId>, x: OpId) returns (k: OpId)
    requires Unsettled(s, x) && ChildOf(s, x, p)
    ensures Unsettled(s, k) && ChildOf(s, k, p)
    ensures forall y: OpId :: y < k && ChildOf(s, y, p) ==> !Unsettled(s, y)
    decreases x
  {
    k := x;
    if y: OpId :| y < x && Unsettled(s, y) && ChildOf(s, y, p) { k := LeastUnsettled(s, p, y); }
  }

  lemma {:induction false} LatestOpen(s: State, x: OpId) returns (y: OpId)
    requires Open(s, x)
    ensures Open(s, y) && forall z: OpId :: y < z ==> !Open(s, z)
    decreases |s.ops| - x
  {
    y := x;
    if z: OpId :| x < z && Open(s, z) { y := LatestOpen(s, z); }
  }

  lemma ParentIsOpen(s: State, x: OpId)
    requires Inv(s) && Unsettled(s, x) && s.ops[x].parent.Some?
    ensures Open(s, s.ops[x].parent.value)
  {}

  /** The first unsettled operation under a parent may start if it is waiting. */
  lemma FirstMayStart(s: State, p: Option<OpId>, x: OpId) returns (k: OpId)
    requires Inv(s) && ChildOf(s, x, p) && Unsettled(s, x)
    requires forall y: OpId :: ChildOf(s, y, p) && Unsettled(s, y) ==> s.ops[y].phase.Waiting?
    ensures Known(s, k) && Enabled(s, Start(k))
  {
    k := LeastUnsettled(s, p, x);
    var prev := s.ops[k].prev;
    if prev.Some? {
      assert Siblings(s, prev.value, k);
      assert ChildOf(s, prev.value, p) && !Unsettled(s, prev.value);
    }
  }

  /** An operation that waits for nothing but its own steps. */
  lemma OpenMovesOn(s: State, y: OpId) returns (step: Step)
    requires Inv(s) && AwaitsOwnChild(s) && Open(s, y) && forall x: OpId :: y < x ==> !Open(s, x)
    ensures !step.Call? && Apply(s, step) != s
  {
    match s.ops[y].phase
    case Running =>
      step := Finish(y);
      assert Apply(s, step).ops[y].phase.Draining?;
    case Inactive =>
      step := Settle(y);
      assert Apply(s, step).ops[y].phase.Settled?;
    case Draining(captured) =>
      if Over(s, captured) {
        step := Drain(y);
        assert Apply(s, step).ops[y].phase != s.ops[y].phase;
      } else {
        forall x: OpId | ChildOf(s, x, Some(y)) && Unsettled(s, x) ensures s.ops[x].phase.Waiting? { assert !Open(s, x); }
        var k := FirstMayStart(s, Some(y), captured.value);
        step := Start(k);
        assert Apply(s, step).ops[k].phase.Running?;
      }
  }

  lemma AnyMovesOn(s: State, x: OpId) returns (step: Step)
    requires Inv(s) && AwaitsOwnChild(s) && Unsettled(s, x)
    ensures !step.Call? && Apply(s, step) != s
  {
    if exists y: OpId :: Open(s, y) {
      var y: OpId :| Open(s, y);
      var last := LatestOpen(s, y);
      step := OpenMovesOn(s, last);
    } else {
      assert ChildOf(s, x, s.ops[x].parent);
      if s.ops[x].parent.Some? { ParentIsOpen(s, x); }
      forall y: OpId | ChildOf(s, y, None) && Unsettled(s, y) ensures s.ops[y].phase.Waiting? { assert !Open(s, y); }
      var k := FirstMayStart(s, None, x);
      step := Start(k);
      assert Apply(s, step).ops[k].phase.Running?;
    }
  }

  /** After any run, while some operation has not settled, some operation can start, finish, go
      on draining or settle. */
  lemma NeverStuck(steps: seq<Step>, x: OpId)
    requires Unsettled(Exec(Fresh, steps), x)
    ensures exists step: Step :: !step.Call? && Apply(Exec(Fresh, steps), step) != Exec(Fresh, steps)
  {
    RunKeepsAwaiting(Fresh, steps);
    var step := AnyMovesOn(Exec(Fresh, steps), x);
  }

  // --- how long it takes -----------------------------------------------------------------------

  /** Steps an operation has before it, a second drain turn included when the tail has moved. */
  function ToGo(op: Op): nat
  {
    match op.phase
    case Waiting => 4
    case Running => 3
    case Draining(captured) => if captured == op.tail then 2 else 3
    case Inactive => 1
    case Settled => 0
  }

  function Work(ops: seq<Op>): nat
  {
    if ops == [] then 0 else Work(ops[..|ops| - 1]) + ToGo(ops[|ops| - 1])
  }

  lemma {:induction false} WorkAt(ops: seq<Op>, k: OpId, op: Op)
    requires k < |ops|
    ensures Work(ops[k := op]) + ToGo(ops[k]) == Work(ops) + ToGo(op)
    decreases |ops|
  {
    var n := |ops| - 1;
    if k == n {
      assert ops[k := op][..n] == ops[..n];
    } else {
      WorkAt(ops[..n], k, op);
      assert ops[k := op][..n] == ops[..n][k := op];
    }
  }

  lemma {:induction false} NoWork(ops: seq<Op>)
    ensures Work(ops) <= 4 * |ops|
    ensures Work(ops) == 0 <==> forall k :: 0 <= k < |ops| ==> ops[k].phase.Settled?
    decreases |ops|
  {
    if ops != [] {
      var n := |ops| - 1;
      NoWork(ops[..n]);
      if forall k :: 0 <= k < n ==> ops[..n][k].phase.Settled? {
        forall k | 0 <= k < n ensures ops[k].phase.Settled? { assert ops[..n][k] == ops[k]; }
      }
      assert forall k :: 0 <= k < n ==> ops[..n][k] == ops[k];
    }
  }

  lemma ProgressIsOneStep(s: State, step: Step)
    requires !step.Call? && Apply(s, step) != s
    ensures Work(Apply(s, step).ops) == Work(s.ops) - 1
  {
    var k := step.op;
    WorkAt(s.ops, k, Apply(s, step).ops[k]);
  }

  /** Each of the steps changes the state and none is a call. */
  ghost predicate Progress(s: State, steps: seq<Step>)
    decreases |steps|
  {
    steps == [] || (!steps[0].Call? && Apply(s, steps[0]) != s && Progress(Apply(s, steps[0]), steps[1..]))
  }

  lemma {:induction false} ProgressUsesWork(s: State, steps: seq<Step>)
    requires Progress(s, steps)
    ensures Work(Exec(s, steps).ops) + |steps| == Work(s.ops)
    decreases |steps|
  {
    if steps != [] {
      ProgressIsOneStep(s, steps[0]);
      ProgressUsesWork(Apply(s, steps[0]), steps[1..]);
    }
  }

  lemma {:induction false} SomeProgress(s: State, n: nat) returns (more: seq<Step>)
    requires Inv(s) && AwaitsOwnChild(s) && n == Work(s.ops)
    ensures Progress(s, more) && AllSettled(Exec(s, more))
    decreases n
  {
    NoWork(s.ops);
    more := [];
    if x: OpId :| Unsettled(s, x) {
      var step := AnyMovesOn(s, x);
      ProgressIsOneStep(s, step);
      StepKeepsInv(s, step);
      StepKeepsAwaiting(s, step);
      var rest := SomeProgress(Apply(s, step), n - 1);
      more := [step] + rest;
      assert more[1..] == rest;
    }
  }

  /** After any run, without further calls: every order of steps that do anything ends, after the
      same number of steps and at most four for each operation, with everything settled; and
      there is such an order. */
  lemma EverythingSettles(steps: seq<Step>, more: seq<Step>)
    requires Progress(Exec(Fresh, steps), more)
    ensures var s := Exec(Fresh, steps); var n := Work(s.ops);
      && n <= 4 * |s.ops| && |more| <= n && (|more| == n <==> AllSettled(Exec(s, more)))
      && exists all :: Progress(s, all) && |all| == n && AllSettled(Exec(s, all))
  {
    var s := Exec(Fresh, steps);
    RunKeepsAwaiting(Fresh, steps);
    ProgressUsesWork(s, more);
    NoWork(s.ops);
    SettledHaveNoWork(Exec(s, more));
    var all := SomeProgress(s, Work(s.ops));
    ProgressUsesWork(s, all);
    SettledHaveNoWork(Exec(s, all));
  }

  lemma SettledHaveNoWork(s: State)
    ensures AllSettled(s) <==> Work(s.ops) == 0
  {
    NoWork(s.ops);
    if AllSettled(s) { forall k | 0 <= k < |s.ops| ensures s.ops[k].phase.Settled? { assert !Unsettled(s, k); } }
    if Work(s.ops) == 0 { forall k: OpId ensures !Unsettled(s, k) {} }
  }

  // --- when each step is taken -------------------------------------------------------------------

  /** An operation starts exactly when everything called before it under its parent has settled. */
  lemma StartsExactlyWhen(steps: seq<Step>, k: OpId)
    requires Known(Exec(Fresh, steps), k) && Exec(Fresh, steps).ops[k].phase.Waiting?
    ensures var s := Exec(Fresh, steps); var t := Apply(s, Start(k));
      t.ops[k].phase.Running? <==> forall x: OpId :: CalledBefore(s, x, s.ops[k].parent, k) ==> s.ops[x].phase.Settled?
  {
    RunKeepsInv(Fresh, steps);
    var s := Exec(Fresh, steps);
    var prev := s.ops[k].prev;
    if prev.Some? {
      assert Siblings(s, prev.value, k) && CalledBefore(s, prev.value, s.ops[k].parent, k);
      forall x: OpId | CalledBefore(s, x, s.ops[k].parent, k) && s.ops[prev.value].phase.Settled? ensures s.ops[x].phase.Settled? {
        assert Siblings(s, x, k);
        if x < prev.value { assert Siblings(s, x, prev.value); }
      }
    } else {
      forall x: OpId ensures !CalledBefore(s, x, s.ops[k].parent, k) { assert x < k ==> !Siblings(s, x, k); }
    }
  }

  /** Two turns of the drain loop release a context exactly when all its children have settled,
      a child appended while it drained included. */
  lemma DrainReleasesExactlyWhen(steps: seq<Step>, k: OpId)
    requires Known(Exec(Fresh, steps), k) && Exec(Fresh, steps).ops[k].phase.Draining?
    ensures var s := Exec(Fresh, steps); var t := Apply(Apply(s, Drain(k)), Drain(k));
      t.ops[k].phase.Inactive? <==> forall x: OpId :: ChildOf(s, x, Some(k)) ==> s.ops[x].phase.Settled?
  {
    RunKeepsAwaiting(Fresh, steps);
    var s := Exec(Fresh, steps);
    assert LatestChild(s, Some(k), s.ops[k].tail);
    if Over(s, s.ops[k].tail) { DrainedMeansEmpty(s, k); }
    var captured := s.ops[k].phase.captured;
    assert captured.Some? ==> ChildOf(s, captured.value, Some(k));
  }
}
