/** The reentrant per-directory gate of `withReadyAuth` and `runContext`.

    JavaScript runs one synchronous stretch of code at a time, so the gate is a
    state machine whose steps are those stretches: a call that links itself to a
    tail, the start of a linked operation once its predecessor has settled, the
    end of its body, one turn of the drain loop, and the settling of its promise.
    Every interleaving of callers is a sequence of such steps. */
module EnrollmentGate {
  import opened Wrappers

  type OpId = nat

  /** `Draining(captured)` is the loop of `runContext` awaiting the tail it read. */
  datatype Phase = Waiting | Running | Draining(captured: Option<OpId>) | Inactive | Settled

  /** One operation together with the context `runContext` creates for it. */
  datatype Op = Op(parent: Option<OpId>, prev: Option<OpId>, phase: Phase, tail: Option<OpId>)

  /** `tail` is the gate's own tail, the one root operations link to. */
  datatype State = State(ops: seq<Op>, tail: Option<OpId>)

  datatype Step =
    | Call(from: Option<OpId>)   // the context the caller inherited, if any
    | Start(op: OpId)
    | Finish(op: OpId)
    | Drain(op: OpId)
    | Settle(op: OpId)

  const Fresh := State([], None)

  predicate Known(s: State, k: OpId) { k < |s.ops| }

  /** `context.active` */
  predicate Active(s: State, k: OpId)
  {
    Known(s, k) && (s.ops[k].phase.Running? || s.ops[k].phase.Draining?)
  }

  /** Started and not yet settled. */
  predicate Open(s: State, k: OpId)
  {
    Known(s, k) && !s.ops[k].phase.Waiting? && !s.ops[k].phase.Settled?
  }

  predicate Over(s: State, o: Option<OpId>)
  {
    o.None? || (Known(s, o.value) && s.ops[o.value].phase.Settled?)
  }

  function TailOf(s: State, context: Option<OpId>): Option<OpId>
    requires context.Some? ==> Known(s, context.value)
  {
    if context.None? then s.tail else s.ops[context.value].tail
  }

  function SetPhase(s: State, k: OpId, phase: Phase): State
    requires Known(s, k)
  {
    s.(ops := s.ops[k := s.ops[k].(phase := phase)])
  }

  /** A caller whose inherited context is still active nests under it; any other
      caller, one holding a context that has gone inactive included, is a root. */
  function Linked(s: State, from: Option<OpId>): (parent: Option<OpId>)
    ensures parent.Some? ==> Known(s, parent.value)
  {
    if from.Some? && Active(s, from.value) then from else None
  }

  function Enqueue(s: State, parent: Option<OpId>): State
    requires parent.Some? ==> Known(s, parent.value)
  {
    var id := |s.ops|;
    var op := Op(parent, TailOf(s, parent), Waiting, None);
    if parent.None? then
      State(s.ops + [op], Some(id))
    else
      State(s.ops[parent.value := s.ops[parent.value].(tail := Some(id))] + [op], s.tail)
  }

  predicate Enabled(s: State, step: Step)
  {
    match step
    case Call(_) => true
    case Start(k) => Known(s, k) && s.ops[k].phase.Waiting? && Over(s, s.ops[k].prev)
    case Finish(k) => Known(s, k) && s.ops[k].phase.Running?
    case Drain(k) => Known(s, k) && s.ops[k].phase.Draining? && Over(s, s.ops[k].phase.captured)
    case Settle(k) => Known(s, k) && s.ops[k].phase.Inactive?
  }

  function Apply(s: State, step: Step): State
  {
    if !Enabled(s, step) then s else
    match step
    case Call(from) => Enqueue(s, Linked(s, from))
    case Start(k) => SetPhase(s, k, Running)
    case Finish(k) => SetPhase(s, k, Draining(s.ops[k].tail))
    case Drain(k) =>
      if s.ops[k].phase.captured == s.ops[k].tail then SetPhase(s, k, Inactive)
      else SetPhase(s, k, Draining(s.ops[k].tail))
    case Settle(k) => SetPhase(s, k, Settled)
  }

  function Exec(s: State, steps: seq<Step>): State
    decreases |steps|
  {
    if steps == [] then s else Exec(Apply(s, steps[0]), steps[1..])
  }

  // --- the invariant -------------------------------------------------------

  ghost predicate Siblings(s: State, j: OpId, k: OpId)
  {
    Known(s, j) && Known(s, k) && s.ops[j].parent == s.ops[k].parent
  }

  /** Every operation is linked to the sibling called just before it. */
  ghost predicate PrevIsLatest(s: State)
  {
    forall k: OpId :: Known(s, k) ==>
      match s.ops[k].prev
      case None => forall j: OpId :: j < k ==> !Siblings(s, j, k)
      case Some(p) => p < k && Siblings(s, p, k) && forall j: OpId :: p < j < k ==> !Siblings(s, j, k)
  }

  ghost predicate ChildOf(s: State, k: OpId, context: Option<OpId>)
  {
    Known(s, k) && s.ops[k].parent == context
  }

  ghost predicate LatestChild(s: State, context: Option<OpId>, tail: Option<OpId>)
  {
    match tail
    case None => forall k: OpId :: !ChildOf(s, k, context)
    case Some(t) => ChildOf(s, t, context) && forall k: OpId :: t < k ==> !ChildOf(s, k, context)
  }

  ghost predicate TailsAreLatest(s: State)
  {
    LatestChild(s, None, s.tail) &&
    forall p: OpId :: Known(s, p) ==> LatestChild(s, Some(p), s.ops[p].tail)
  }

  ghost predicate ParentsCameFirst(s: State)
  {
    forall k: OpId :: Known(s, k) && s.ops[k].parent.Some? ==>
      s.ops[k].parent.value < k && !s.ops[s.ops[k].parent.value].phase.Waiting?
  }

  /** One sibling at a time: whoever has started found all earlier siblings settled. */
  ghost predicate InOrder(s: State)
  {
    forall j: OpId, k: OpId :: j < k && Siblings(s, j, k) && !s.ops[k].phase.Waiting? ==> s.ops[j].phase.Settled?
  }

  /** A context that has gone inactive has only settled children. */
  ghost predicate ClosedIsEmpty(s: State)
  {
    forall k: OpId :: Known(s, k) && s.ops[k].parent.Some? ==>
      var p := s.ops[k].parent.value;
      p < k && (s.ops[p].phase.Inactive? || s.ops[p].phase.Settled? ==> s.ops[k].phase.Settled?)
  }

  ghost predicate Inv(s: State)
  {
    && PrevIsLatest(s)
    && TailsAreLatest(s)
    && ParentsCameFirst(s)
    && InOrder(s)
    && ClosedIsEmpty(s)
  }

  lemma EnqueueShape(s: State, parent: Option<OpId>)
    requires parent.Some? ==> Known(s, parent.value)
    ensures var t := Enqueue(s, parent);
      && |t.ops| == |s.ops| + 1
      && t.ops[|s.ops|] == Op(parent, TailOf(s, parent), Waiting, None)
      && (forall k: OpId :: Known(s, k) ==>
            t.ops[k] == s.ops[k].(tail := if parent == Some(k) then Some(|s.ops|) else s.ops[k].tail))
      && t.tail == if parent.None? then Some(|s.ops|) else s.tail
  {}

  lemma EnqueueKeepsTails(s: State, parent: Option<OpId>)
    requires Inv(s)
    requires parent.Some? ==> Active(s, parent.value)
    ensures TailsAreLatest(Enqueue(s, parent))
  {
    var t := Enqueue(s, parent);
    EnqueueShape(s, parent);
    forall context: Option<OpId> | context.Some? ==> Known(t, context.value)
      ensures LatestChild(t, context, TailOf(t, context))
    {
      if context.Some? && context.value == |s.ops| {
        forall k: OpId ensures !ChildOf(t, k, context) {}
      } else {
        assert LatestChild(s, context, TailOf(s, context));
        forall k: OpId | Known(s, k) ensures ChildOf(t, k, context) == ChildOf(s, k, context) {}
      }
    }
    assert TailOf(t, None) == t.tail;
    assert forall p: OpId :: Known(t, p) ==> TailOf(t, Some(p)) == t.ops[p].tail;
  }

  lemma EnqueueKeepsPrev(s: State, parent: Option<OpId>)
    requires PrevIsLatest(s)
    requires parent.Some? ==> Known(s, parent.value)
    requires LatestChild(s, parent, TailOf(s, parent))
    ensures PrevIsLatest(Enqueue(s, parent))
  {
    var t := Enqueue(s, parent);
    EnqueueShape(s, parent);
    forall j: OpId, k: OpId | j < k
      ensures Siblings(t, j, k) == if k == |s.ops| then ChildOf(s, j, parent) else Siblings(s, j, k)
    {}
  }

  lemma EnqueueKeepsOrder(s: State, parent: Option<OpId>)
    requires InOrder(s) && ClosedIsEmpty(s)
    requires parent.Some? ==> Active(s, parent.value)
    ensures InOrder(Enqueue(s, parent)) && ClosedIsEmpty(Enqueue(s, parent))
  {
    var t := Enqueue(s, parent);
    EnqueueShape(s, parent);
    forall j: OpId, k: OpId | j < k && Siblings(t, j, k) && !t.ops[k].phase.Waiting?
      ensures t.ops[j].phase.Settled?
    {
      assert Siblings(s, j, k);
    }
  }

  lemma EnqueueKeepsInv(s: State, parent: Option<OpId>)
    requires Inv(s)
    requires parent.Some? ==> Active(s, parent.value)
    ensures Inv(Enqueue(s, parent))
  {
    assert LatestChild(s, parent, TailOf(s, parent));
    EnqueueKeepsTails(s, parent);
    EnqueueKeepsPrev(s, parent);
    EnqueueKeepsOrder(s, parent);
    assert ParentsCameFirst(Enqueue(s, parent)) by { EnqueueShape(s, parent); }
  }

  /** Setting one phase leaves the links alone. */
  lemma SetPhaseKeepsLinks(s: State, k: OpId, phase: Phase)
    requires Inv(s) && Known(s, k) && (s.ops[k].phase.Waiting? || !phase.Waiting?)
    ensures var t := SetPhase(s, k, phase); PrevIsLatest(t) && TailsAreLatest(t) && ParentsCameFirst(t)
  {
    var t := SetPhase(s, k, phase);
    forall i: OpId | Known(s, i)
      ensures t.ops[i].parent == s.ops[i].parent && t.ops[i].prev == s.ops[i].prev && t.ops[i].tail == s.ops[i].tail
    {}
    forall i: OpId, j: OpId | Known(s, i) && Known(s, j) ensures Siblings(t, i, j) == Siblings(s, i, j) {}
    forall i: OpId, c: Option<OpId> ensures ChildOf(t, i, c) == ChildOf(s, i, c) {}
    assert LatestChild(s, None, s.tail);
    forall p: OpId | Known(s, p) ensures LatestChild(t, Some(p), t.ops[p].tail) {
      assert LatestChild(s, Some(p), s.ops[p].tail);
    }
  }

  lemma StartKeepsInv(s: State, k: OpId)
    requires Inv(s) && Enabled(s, Start(k))
    ensures Inv(Apply(s, Start(k)))
  {
    var t := Apply(s, Start(k));
    SetPhaseKeepsLinks(s, k, Running);
    forall j: OpId | j < k && Siblings(s, j, k) ensures s.ops[j].phase.Settled? {
      var p := s.ops[k].prev.value;
      if j < p { assert Siblings(s, j, p); }
    }
    assert InOrder(t) by {
      forall i: OpId, j: OpId | i < j && Siblings(t, i, j) && !t.ops[j].phase.Waiting? ensures t.ops[i].phase.Settled? {
        assert Siblings(s, i, j);
      }
    }
  }

  /** When the captured tail has settled and is still the tail, every child has settled. */
  lemma DrainedMeansEmpty(s: State, k: OpId)
    requires Inv(s) && Known(s, k) && Over(s, s.ops[k].tail)
    ensures forall c: OpId :: ChildOf(s, c, Some(k)) ==> s.ops[c].phase.Settled?
  {
    assert LatestChild(s, Some(k), s.ops[k].tail);
    forall c: OpId | ChildOf(s, c, Some(k)) ensures s.ops[c].phase.Settled? {
      var t := s.ops[k].tail.value;
      if c < t { assert Siblings(s, c, t); }
    }
  }

  lemma ProgressKeepsInv(s: State, step: Step)
    requires Inv(s) && Enabled(s, step) && (step.Finish? || step.Drain? || step.Settle?)
    ensures Inv(Apply(s, step))
  {
    var k := step.op;
    var t := Apply(s, step);
    SetPhaseKeepsLinks(s, k, t.ops[k].phase);
    if t.ops[k].phase.Inactive? { DrainedMeansEmpty(s, k); }
    assert InOrder(t) by {
      forall i: OpId, j: OpId | i < j && Siblings(t, i, j) && !t.ops[j].phase.Waiting? ensures t.ops[i].phase.Settled? {
        assert Siblings(s, i, j);
      }
    }
    assert ClosedIsEmpty(t) by {
      forall c: OpId | Known(t, c) && t.ops[c].parent.Some?
        ensures var p := t.ops[c].parent.value;
                p < c && (t.ops[p].phase.Inactive? || t.ops[p].phase.Settled? ==> t.ops[c].phase.Settled?)
      {
        assert Known(s, c) && s.ops[c].parent == t.ops[c].parent;
        assert s.ops[c].parent == Some(k) ==> ChildOf(s, c, Some(k));
      }
    }
  }

  lemma StepKeepsInv(s: State, step: Step)
    requires Inv(s)
    ensures Inv(Apply(s, step))
  {
    if Enabled(s, step) {
      match step
      case Call(from) => EnqueueKeepsInv(s, Linked(s, from));
      case Start(k) => StartKeepsInv(s, k);
      case _ => ProgressKeepsInv(s, step);
    }
  }

  lemma {:induction false} RunKeepsInv(s: State, steps: seq<Step>)
    requires Inv(s)
    ensures Inv(Exec(s, steps))
    decreases |steps|
  {
    if steps != [] {
      StepKeepsInv(s, steps[0]);
      RunKeepsInv(Apply(s, steps[0]), steps[1..]);
    }
  }

  // --- what the invariant means --------------------------------------------

  /** `x` is `y` or one of the contexts `y` was called under. */
  ghost predicate Above(s: State, x: OpId, y: OpId)
    requires ParentsCameFirst(s)
    decreases y
  {
    Known(s, y) && (x == y || (s.ops[y].parent.Some? && Above(s, x, s.ops[y].parent.value)))
  }

  ghost function Root(s: State, k: OpId): (r: OpId)
    requires ParentsCameFirst(s) && Known(s, k)
    ensures r <= k && Known(s, r) && s.ops[r].parent.None?
    decreases k
  {
    if s.ops[k].parent.None? then k else Root(s, s.ops[k].parent.value)
  }

  lemma {:induction false} OpenAbove(s: State, x: OpId, y: OpId)
    requires Inv(s) && Open(s, y) && Above(s, x, y)
    ensures Open(s, x) && (x != y ==> Active(s, x)) && x <= y && Root(s, x) == Root(s, y)
    decreases y
  {
    if x != y { OpenAbove(s, x, s.ops[y].parent.value); }
  }

  lemma {:induction false} RootAbove(s: State, y: OpId)
    requires Inv(s) && Known(s, y)
    ensures Above(s, Root(s, y), y)
    decreases y
  {
    if s.ops[y].parent.Some? { RootAbove(s, s.ops[y].parent.value); }
  }

  /** The step from `p` down towards `y`. */
  lemma {:induction false} ChildTowards(s: State, p: OpId, y: OpId) returns (c: OpId)
    requires Inv(s) && Above(s, p, y) && p != y && Open(s, y)
    ensures ChildOf(s, c, Some(p)) && Open(s, c) && c <= y && Above(s, c, y)
    decreases y
  {
    if s.ops[y].parent == Some(p) { c := y; }
    else {
      OpenAbove(s, s.ops[y].parent.value, y);
      c := ChildTowards(s, p, s.ops[y].parent.value);
    }
  }

  lemma OpenSiblingsCoincide(s: State, x: OpId, y: OpId)
    requires Inv(s) && Open(s, x) && Open(s, y) && Siblings(s, x, y)
    ensures x == y
  {
    assert x < y ==> Siblings(s, x, y);
    assert y < x ==> Siblings(s, y, x);
  }

  lemma {:induction false} OpenAreOrdered(s: State, x: OpId, y: OpId)
    requires Inv(s) && Open(s, x) && Open(s, y) && x <= y
    ensures Above(s, x, y)
    decreases y
  {
    if x == y { return; }
    if s.ops[y].parent.None? {
      RootAbove(s, x);
      OpenAbove(s, Root(s, x), x);
      OpenSiblingsCoincide(s, Root(s, x), y);
    } else {
      var p := s.ops[y].parent.value;
      OpenAbove(s, p, y);
      if x <= p { OpenAreOrdered(s, x, p); }
      else {
        OpenAreOrdered(s, p, x);
        var c := ChildTowards(s, p, x);
        OpenSiblingsCoincide(s, c, y);
      }
    }
  }

  /** However callers interleave, the operations that have started and not
      settled form one chain from a root down to a leaf. */
  lemma RunningIsOneChain(steps: seq<Step>, x: OpId, y: OpId)
    ensures var s := Exec(Fresh, steps);
            ParentsCameFirst(s) && (Open(s, x) && Open(s, y) ==> Above(s, x, y) || Above(s, y, x))
  {
    RunKeepsInv(Fresh, steps);
    var s := Exec(Fresh, steps);
    if Open(s, x) && Open(s, y) {
      if x <= y { OpenAreOrdered(s, x, y); } else { OpenAreOrdered(s, y, x); }
    }
  }

  lemma ClosedStaysClosed(s: State, step: Step, p: OpId)
    requires Known(s, p) && (s.ops[p].phase.Inactive? || s.ops[p].phase.Settled?)
    ensures var t := Apply(s, step);
            Known(t, p) && (t.ops[p].phase.Inactive? || t.ops[p].phase.Settled?)
    ensures forall c: OpId :: ChildOf(Apply(s, step), c, Some(p)) ==> ChildOf(s, c, Some(p))
  {
    var t := Apply(s, step);
    forall c: OpId | ChildOf(t, c, Some(p)) ensures ChildOf(s, c, Some(p)) {
      assert step.Call? ==> Linked(s, step.from) != Some(p);
    }
  }

  /** Once a context is inactive no step ever gives it another child, and the
      children it has are settled for good: it never runs one again. */
  lemma {:induction false} InactiveContextNeverRunsAgain(s: State, steps: seq<Step>, p: OpId, c: OpId)
    requires Inv(s) && Known(s, p) && (s.ops[p].phase.Inactive? || s.ops[p].phase.Settled?)
    requires ChildOf(Exec(s, steps), c, Some(p))
    ensures ChildOf(s, c, Some(p)) && s.ops[c].phase.Settled? && Exec(s, steps).ops[c].phase.Settled?
    decreases |steps|
  {
    if steps != [] {
      StepKeepsInv(s, steps[0]);
      ClosedStaysClosed(s, steps[0], p);
      InactiveContextNeverRunsAgain(Apply(s, steps[0]), steps[1..], p, c);
    }
  }

  lemma {:induction false} SettledBelow(s: State, k: OpId)
    requires Inv(s) && Known(s, k) && s.ops[Root(s, k)].phase.Settled?
    ensures s.ops[k].phase.Settled?
    decreases k
  {
    if s.ops[k].parent.Some? { SettledBelow(s, s.ops[k].parent.value); }
  }

  /** A root starts only after everything called under any earlier root, children
      appended while that root was draining included, has settled. */
  lemma NextRootWaitsForEveryChild(steps: seq<Step>, k: OpId, j: OpId)
    ensures var s := Exec(Fresh, steps);
            ParentsCameFirst(s) &&
            ((Known(s, k) && s.ops[k].parent.None? && !s.ops[k].phase.Waiting? &&
              Known(s, j) && Root(s, j) < k) ==> s.ops[j].phase.Settled?)
  {
    RunKeepsInv(Fresh, steps);
    var s := Exec(Fresh, steps);
    if Known(s, k) && s.ops[k].parent.None? && !s.ops[k].phase.Waiting? && Known(s, j) && Root(s, j) < k {
      assert Siblings(s, Root(s, j), k);
      SettledBelow(s, j);
    }
  }

  // --- the mutable gate ------------------------------------------------------

  /** `ProcessGate` and its `GateContext` objects: one record per operation. */
  class ProcessGate {
    var ops: seq<Op>
    var tail: Option<OpId>

    function View(): State reads this { State(ops, tail) }

    constructor ()
      ensures View() == Fresh
    {
      ops, tail := [], None;
    }

    /** `withReadyAuth`: link to the context's tail, or to the gate's, and become it. While the
        state of an active context is `projecting` the call is refused and nothing changes. */
    method Call(from: Option<OpId>, projecting: bool) returns (r: Option<OpId>)
      modifies this
      ensures r.None? <==> projecting && Linked(old(View()), from).Some?
      ensures r.Some? ==> r.value == |old(ops)| && View() == Apply(old(View()), Step.Call(from))
      ensures r.None? ==> View() == old(View())
    {
      if projecting && from.Some? && Active(View(), from.value) { return None; }
      var id := |ops|;
      if from.Some? && Active(View(), from.value) {
        var parent := ops[from.value];
        ops := ops[from.value := parent.(tail := Some(id))] + [Op(from, parent.tail, Waiting, None)];
      } else {
        ops := ops + [Op(None, tail, Waiting, None)];
        tail := Some(id);
      }
      return Some(id);
    }

    method SetPhaseOf(k: OpId, phase: Phase)
      requires Known(View(), k)
      modifies this`ops
      ensures View() == SetPhase(old(View()), k, phase)
    {
      ops := ops[k := ops[k].(phase := phase)];
    }

    /** The `finally` block of `runContext`: capture the tail, wait for it, and
        go round again if somebody linked a child meanwhile. */
    method DrainTurn(k: OpId) returns (released: bool)
      modifies this
      ensures View() == Apply(old(View()), Drain(k))
      ensures released <==> Enabled(old(View()), Drain(k)) && ops[k].phase.Inactive?
    {
      released := false;
      if Enabled(View(), Drain(k)) {
        var captured := ops[k].phase.captured;
        if captured == ops[k].tail {
          SetPhaseOf(k, Inactive);
          released := true;
        } else {
          SetPhaseOf(k, Draining(ops[k].tail));
        }
      }
    }
  }
}
