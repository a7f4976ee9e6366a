/** What the enrollment journal and its gate keep over every run with failures
    and crashes at any step. */
module EnrollmentSafety {
  import opened Wrappers
  import opened DurableFile
  import opened EnrollmentJournal
  import G = EnrollmentGate

  type Disk = Directory<UserId, Record>

  // --- who is at work --------------------------------------------------------

  /** `k` runs coordinator code: recovering, or the body of begin, complete or recover. */
  ghost predicate Working(s: State, k: G.OpId)
  {
    Known(s, k) && !s.jobs[k].pc.NotEntered? && !s.jobs[k].pc.Ended? && !RunsCallback(s, k)
  }

  /** The coordinator's book-keeping agrees with the gate. */
  ghost predicate Jobs(s: State)
  {
    && |s.jobs| == |s.gate.ops|
    && (forall k: G.OpId :: Known(s, k) ==> (s.jobs[k].pc.NotEntered? <==> s.gate.ops[k].phase.Waiting?))
    && (forall k: G.OpId :: Working(s, k) ==> s.gate.ops[k].phase.Running?)
    && (forall k: G.OpId :: Known(s, k) && s.gate.ops[k].parent.Some? ==>
          RunsCallback(s, s.gate.ops[k].parent.value) && s.jobs[k].root == s.jobs[s.gate.ops[k].parent.value].root)
    && (forall k: G.OpId :: Known(s, k) && s.gate.ops[k].parent.None? ==> s.jobs[k].root == k)
  }

  ghost predicate Shape(s: State) { G.Inv(s.gate) && Jobs(s) }

  lemma WorkerHasNoChild(s: State, w: G.OpId, c: G.OpId)
    requires Jobs(s) && Working(s, w) && Known(s, c)
    ensures s.gate.ops[c].parent != Some(w)
  {}

  lemma OneWorker(s: State, x: G.OpId, y: G.OpId)
    requires Shape(s) && Working(s, x) && Working(s, y)
    ensures x == y
  {
    if x != y {
      var low, high := if x < y then x else y, if x < y then y else x;
      G.OpenAreOrdered(s.gate, low, high);
      var c := G.ChildTowards(s.gate, low, high);
      WorkerHasNoChild(s, low, c);
      assert false;
    }
  }

  /** Nothing starts while coordinator code is at work anywhere in the gate. */
  lemma NothingStartsBesideAWorker(s: State, k: G.OpId, w: G.OpId)
    requires Shape(s) && Known(s, k) && G.Enabled(s.gate, G.Start(k))
    ensures !Working(s, w)
  {
    if Working(s, w) {
      var g := G.Apply(s.gate, G.Start(k));
      G.StepKeepsInv(s.gate, G.Start(k));
      var low, high := if w < k then w else k, if w < k then k else w;
      G.OpenAreOrdered(g, low, high);
      var c := G.ChildTowards(g, low, high);
      assert false;
    }
  }

  lemma RootOf(s: State, k: G.OpId)
    requires Shape(s) && Known(s, k)
    ensures s.jobs[k].root == G.Root(s.gate, k)
    decreases k
  {
    if s.gate.ops[k].parent.Some? { RootOf(s, s.gate.ops[k].parent.value); }
  }

  // --- what the directory may hold ------------------------------------------

  ghost predicate NoCommit(d: Disk)
  {
    forall u, r :: MayHold(d, u, r) ==> !r.Committed?
  }

  /** At most one committed record anywhere, attempts never shared between users. */
  ghost predicate DiskOk(d: Disk, next: AttemptId)
  {
    && Sound(d)
    && (forall u, r :: MayHold(d, u, r) ==> AttemptOf(r) < next)
    && (forall u, r, v, q :: MayHold(d, u, r) && MayHold(d, v, q) && AttemptOf(r) == AttemptOf(q) ==> u == v)
    && (forall u, r, v, q :: MayHold(d, u, r) && MayHold(d, v, q) && r.Committed? && q.Committed? ==> u == v && r == q)
  }

  ghost predicate PcOk(s: State, k: G.OpId)
    requires Known(s, k)
  {
    var d := s.disk;
    match s.jobs[k].pc
    case Scanning(todo, _) => Synced(d) && forall u, r :: MayHold(d, u, r) && r.Committed? ==> u in todo
    case Projecting(u, c, _) => At(d, u) == SyncedSlot(Some(Committed(c))) && u in d
    case Applying(u, c, _) => At(d, u) == SyncedSlot(Some(Committed(c))) && u in d
    case Started => NoCommit(d)
    case Verifying(a) => NoCommit(d) && s.jobs[k].kind.Complete? && At(d, s.jobs[k].kind.user).seen == Some(Pending(a))
    case Committing(c) => NoCommit(d) && s.jobs[k].root in s.required && s.jobs[k].kind.Complete? && At(d, s.jobs[k].kind.user).seen == Some(Pending(c.attempt))
    case _ => true
  }

  ghost predicate RootMayRun(s: State, k: G.OpId)
  {
    Known(s, k) && s.gate.ops[k].parent.None? && !s.gate.ops[k].phase.Settled?
  }

  /** No root may start operations unrecovered while a commit could be on disk. */
  ghost predicate FlagsOk(s: State)
  {
    forall k: G.OpId :: RootMayRun(s, k) && (s.gate.ops[k].phase.Waiting? || !NoCommit(s.disk)) ==> k in s.required
  }

  // --- what has been observed -------------------------------------------------

  /** Every trace of attempt `a` on disk is an applied receipt. */
  ghost predicate Spent(d: Disk, a: AttemptId)
  {
    forall u, r :: MayHold(d, u, r) && AttemptOf(r) == a ==> r.Applied?
  }

  ghost predicate Live(d: Disk, u: UserId, c: Completion)
  {
    MayHold(d, u, Committed(c)) && d[u].onDisk <= {Some(Committed(c)), Some(Applied(c.attempt))}
  }

  ghost predicate NoneRan(log: seq<Event>, i: nat, j: nat)
  {
    forall m :: i < m < j && m < |log| ==> !log[m].Ran?
  }

  ghost predicate EventOk(d: Disk, next: AttemptId, log: seq<Event>, i: nat)
    requires i < |log|
  {
    match log[i]
    case Ran(committed) => !committed
    case Project(u, c, durable) =>
      && durable && c.attempt < next
      && (Spent(d, c.attempt) || (Live(d, u, c) && NoneRan(log, i, |log|)))
  }

  /** One attempt is projected with one material, and nothing runs in between. */
  ghost predicate Consistent(log: seq<Event>)
  {
    forall i, j :: 0 <= i < j < |log| && log[i].Project? && log[j].Project? &&
                   log[i].completion.attempt == log[j].completion.attempt ==>
      && log[i].completion == log[j].completion && log[i].user == log[j].user
      && NoneRan(log, i, j)
  }

  ghost predicate LogOk(d: Disk, next: AttemptId, log: seq<Event>)
  {
    Consistent(log) && forall i :: 0 <= i < |log| ==> EventOk(d, next, log, i)
  }

  ghost predicate Inv(s: State)
  {
    && Shape(s)
    && DiskOk(s.disk, s.next)
    && FlagsOk(s)
    && (forall k: G.OpId :: Working(s, k) ==> PcOk(s, k))
    && LogOk(s.disk, s.next, s.log)
  }

  // --- disk and log under each kind of change -------------------------------

  /** `e` is `d` after a directory sync or a crash: fewer possibilities, none new. */
  ghost predicate Narrows(d: Disk, e: Disk)
  {
    Sound(e) && e.Keys == d.Keys && forall u :: u in e ==> e[u].onDisk <= d[u].onDisk
  }

  lemma NarrowKeeps(d: Disk, e: Disk, next: AttemptId, log: seq<Event>)
    requires DiskOk(d, next) && LogOk(d, next, log) && Narrows(d, e)
    ensures DiskOk(e, next) && LogOk(e, next, log) && (NoCommit(d) ==> NoCommit(e))
  {
    forall u, r | MayHold(e, u, r) ensures MayHold(d, u, r) {}
    forall i | 0 <= i < |log| ensures EventOk(e, next, log, i) {
      assert EventOk(d, next, log, i);
      if log[i].Project? && !Spent(d, log[i].completion.attempt) {
        var u, c := log[i].user, log[i].completion;
        assert e[u].seen in e[u].onDisk;
        if Some(Committed(c)) !in e[u].onDisk {
          forall v, r | MayHold(e, v, r) && AttemptOf(r) == c.attempt ensures r.Applied? {
            assert MayHold(d, u, Committed(c)) && MayHold(d, v, r);
          }
        }
      }
    }
  }

  lemma FreshPendingKeeps(d: Disk, u: UserId, outcome: Outcome, next: AttemptId, log: seq<Event>)
    requires DiskOk(d, next) && LogOk(d, next, log) && NoCommit(d)
    ensures var e := Publish(d, u, Some(Pending(next)), outcome);
      DiskOk(e, next + 1) && LogOk(e, next + 1, log) && NoCommit(e)
  {
    var e := Publish(d, u, Some(Pending(next)), outcome);
    DiskStaysSound(d, u, Some(Pending(next)), outcome, map[]);
    forall v, r | MayHold(e, v, r) ensures MayHold(d, v, r) || (v == u && r == Pending(next)) {}
    var next' := next + 1;
    forall i | 0 <= i < |log| ensures EventOk(e, next', log, i) {
      assert EventOk(d, next, log, i);
    }
  }

  lemma CommitKeeps(d: Disk, u: UserId, c: Completion, outcome: Outcome, next: AttemptId, log: seq<Event>)
    requires DiskOk(d, next) && LogOk(d, next, log) && NoCommit(d) && MayHold(d, u, Pending(c.attempt))
    ensures var e := Publish(d, u, Some(Committed(c)), outcome); DiskOk(e, next) && LogOk(e, next, log)
    ensures outcome.Done? ==> At(Publish(d, u, Some(Committed(c)), outcome), u) == SyncedSlot(Some(Committed(c)))
  {
    var e := Publish(d, u, Some(Committed(c)), outcome);
    DiskStaysSound(d, u, Some(Committed(c)), outcome, map[]);
    forall v, r | MayHold(e, v, r) ensures MayHold(d, v, r) || (v == u && r == Committed(c)) {}
    forall i | 0 <= i < |log| ensures EventOk(e, next, log, i) {
      assert EventOk(d, next, log, i);
    }
  }

  lemma ApplyKeeps(d: Disk, u: UserId, c: Completion, outcome: Outcome, next: AttemptId, log: seq<Event>)
    requires DiskOk(d, next) && LogOk(d, next, log) && u in d && d[u] == SyncedSlot(Some(Committed(c)))
    ensures var e := Publish(d, u, Some(Applied(c.attempt)), outcome);
      DiskOk(e, next) && LogOk(e, next, log) && (outcome.Done? ==> NoCommit(e) && Synced(e))
  {
    var e := Publish(d, u, Some(Applied(c.attempt)), outcome);
    DiskStaysSound(d, u, Some(Applied(c.attempt)), outcome, map[]);
    assert MayHold(d, u, Committed(c));
    forall v, r | MayHold(e, v, r) ensures MayHold(d, v, r) || (v == u && r == Applied(c.attempt)) {}
    if outcome.Done? {
      forall v, r | MayHold(e, v, r) ensures !r.Committed? { assert v != u ==> MayHold(d, v, r); }
    }
    forall i | 0 <= i < |log| ensures EventOk(e, next, log, i) {
      assert EventOk(d, next, log, i);
      if log[i].Project? {
        var a := log[i].completion.attempt;
        if !Spent(d, a) {
          assert log[i].user == u && log[i].completion == c;
          assert outcome.Done? ==> Spent(e, a);
        }
      }
    }
  }

  lemma ProjectEventKeeps(d: Disk, u: UserId, c: Completion, next: AttemptId, log: seq<Event>)
    requires DiskOk(d, next) && LogOk(d, next, log) && u in d && d[u] == SyncedSlot(Some(Committed(c)))
    ensures LogOk(d, next, log + [Project(u, c, true)])
  {
    var log' := log + [Project(u, c, true)];
    assert MayHold(d, u, Committed(c));
    forall i | 0 <= i < |log'| ensures EventOk(d, next, log', i) {
      if i < |log| { assert EventOk(d, next, log, i); }
    }
    forall i | 0 <= i < |log| && log[i].Project? && log[i].completion.attempt == c.attempt
      ensures log[i].completion == c && log[i].user == u && NoneRan(log, i, |log|)
    {
      assert EventOk(d, next, log, i);
    }
  }

  lemma RanEventKeeps(d: Disk, next: AttemptId, log: seq<Event>)
    requires DiskOk(d, next) && LogOk(d, next, log) && NoCommit(d)
    ensures !CommittedOnDisk(d) && LogOk(d, next, log + [Ran(false)])
  {
    forall u | u in d && d[u].seen.Some? ensures !d[u].seen.value.Committed? {
      assert MayHold(d, u, d[u].seen.value);
    }
    forall i | 0 <= i < |log| + 1 ensures EventOk(d, next, log + [Ran(false)], i) {
      if i < |log| { assert EventOk(d, next, log, i); }
    }
  }

  // --- every step keeps the invariant ----------------------------------------

  lemma JumpKeepsShape(s: State, k: G.OpId, pc: Pc)
    requires Shape(s) && Working(s, k) && !pc.NotEntered?
    ensures Shape(Jump(s, k, pc))
    ensures forall j: G.OpId :: Working(Jump(s, k, pc), j) ==> j == k
  {
    var t := Jump(s, k, pc);
    forall j: G.OpId | Known(t, j) && j != k ensures !Working(t, j) {
      if Working(t, j) { assert Working(s, j); OneWorker(s, j, k); }
    }
    forall j: G.OpId | Known(t, j) && s.gate.ops[j].parent.Some?
      ensures RunsCallback(t, s.gate.ops[j].parent.value)
    {
      assert RunsCallback(s, s.gate.ops[j].parent.value);
    }
  }

  /** The root of a working operation has not settled, so its flag is set whenever
      a commit may be on disk. */
  lemma WorkerIsFlagged(s: State, k: G.OpId)
    requires Inv(s) && Working(s, k) && !NoCommit(s.disk)
    ensures s.jobs[k].root in s.required
  {
    RootOf(s, k);
    if s.gate.ops[G.Root(s.gate, k)].phase.Settled? { G.SettledBelow(s.gate, k); }
  }

  lemma CallKeepsJobs(s: State, from: Option<G.OpId>, kind: Kind)
    requires Jobs(s)
    ensures Jobs(Enter(s, from, kind))
    ensures forall k: G.OpId :: Working(Enter(s, from, kind), k) ==> Working(s, k)
  {
    var t := Enter(s, from, kind);
    if t != s {
      G.EnqueueShape(s.gate, G.Linked(s.gate, from));
      forall k: G.OpId | Known(s, k)
        ensures t.jobs[k] == s.jobs[k] && RunsCallback(t, k) == RunsCallback(s, k) && Working(t, k) == Working(s, k)
      {}
      assert t.jobs[|s.jobs|].pc.NotEntered?;
    }
  }

  lemma CallKeepsFlags(s: State, from: Option<G.OpId>, kind: Kind)
    requires FlagsOk(s) && |s.jobs| == |s.gate.ops|
    ensures FlagsOk(Enter(s, from, kind))
  {
    G.EnqueueShape(s.gate, G.Linked(s.gate, from));
  }

  lemma CallKeepsInv(s: State, from: Option<G.OpId>, kind: Kind)
    requires Inv(s)
    ensures Inv(Enter(s, from, kind))
  {
    var t := Enter(s, from, kind);
    G.StepKeepsInv(s.gate, G.Call(from));
    CallKeepsJobs(s, from, kind);
    CallKeepsFlags(s, from, kind);
    forall k: G.OpId | Working(t, k) ensures PcOk(t, k) { assert PcOk(s, k); }
  }

  lemma UnwindShape(s: State, g: G.Step)
    requires Enabled(s, Unwind(g))
    ensures |Apply(s, Unwind(g)).gate.ops| == |s.gate.ops|
    ensures forall k: G.OpId :: k < |s.gate.ops| ==>
      var before, after := s.gate.ops[k], Apply(s, Unwind(g)).gate.ops[k];
      && after.parent == before.parent
      && (after.phase.Waiting? <==> before.phase.Waiting?)
      && (before.phase.Settled? ==> after.phase.Settled?)
      && (before.phase.Running? ==> after.phase.Running? || MayFinish(s, k))
  {}

  lemma UnwindKeepsJobs(s: State, g: G.Step)
    requires Jobs(s) && Enabled(s, Unwind(g))
    ensures var t := Apply(s, Unwind(g)); Jobs(t) && forall k: G.OpId :: Working(t, k) ==> Working(s, k)
  {
    var t := Apply(s, Unwind(g));
    UnwindShape(s, g);
    forall k: G.OpId ensures Working(t, k) == Working(s, k) && RunsCallback(t, k) == RunsCallback(s, k) {}
  }

  lemma UnwindKeepsInv(s: State, g: G.Step)
    requires Inv(s) && Enabled(s, Unwind(g))
    ensures Inv(Apply(s, Unwind(g)))
  {
    var t := Apply(s, Unwind(g));
    G.StepKeepsInv(s.gate, g);
    UnwindKeepsJobs(s, g);
    assert FlagsOk(t) by { UnwindShape(s, g); }
    forall k: G.OpId | Working(t, k) ensures PcOk(t, k) { assert PcOk(s, k); }
  }

  lemma FlagsAfter(s: State, t: State, k: G.OpId)
    requires Inv(s) && Working(s, k) && t.gate == s.gate && |t.jobs| == |s.jobs|
    requires s.required - {s.jobs[k].root} <= t.required
    requires !NoCommit(t.disk) ==> s.required <= t.required && s.jobs[k].root in t.required
    ensures FlagsOk(t)
  {
    RootOf(s, k);
    var root := s.jobs[k].root;
    G.RootAbove(s.gate, k);
    G.OpenAbove(s.gate, root, k);
    forall r: G.OpId | RootMayRun(t, r) && (t.gate.ops[r].phase.Waiting? || !NoCommit(t.disk))
      ensures r in t.required
    {
      assert RootMayRun(s, r);
      if t.gate.ops[r].phase.Waiting? {
        assert r in s.required && r != root;
      } else {
        G.OpenSiblingsCoincide(s.gate, r, root);
      }
    }
  }

  /** One step of the operation at work, given what it did to disk, flags and log. */
  lemma WorkerStep(s: State, t: State, k: G.OpId, pc: Pc)
    requires Inv(s) && Working(s, k) && !pc.NotEntered?
    requires t.gate == s.gate && t.jobs == Jump(s, k, pc).jobs
    requires DiskOk(t.disk, t.next) && LogOk(t.disk, t.next, t.log)
    requires s.required - {s.jobs[k].root} <= t.required
    requires !NoCommit(t.disk) ==> s.required <= t.required && s.jobs[k].root in t.required
    requires Working(t, k) ==> PcOk(t, k)
    ensures Inv(t)
  {
    FlagsAfter(s, t, k);
    JumpKeepsShape(s, k, pc);
    var j := Jump(s, k, pc);
    forall x: G.OpId ensures Working(t, x) == Working(j, x) && RunsCallback(t, x) == RunsCallback(j, x) && Known(t, x) == Known(j, x) {}
    assert Jobs(t);
  }

  lemma ReadDirectoryKeepsInv(s: State, k: G.OpId)
    requires Inv(s) && Enabled(s, ReadDirectory(k))
    ensures Inv(Apply(s, ReadDirectory(k)))
  {
    var t := Apply(s, ReadDirectory(k));
    if !NoCommit(s.disk) { WorkerIsFlagged(s, k); }
    DiskStaysSound(s.disk, "", None, NotRenamed, map[]);
    NarrowKeeps(s.disk, t.disk, s.next, s.log);
    WorkerStep(s, t, k, t.jobs[k].pc);
  }

  lemma ProjectionKeepsInv(s: State, step: Step)
    requires Inv(s) && Enabled(s, step)
    requires step.Examine? || step.Projected?
    ensures Inv(Apply(s, step))
  {
    var t := Apply(s, step);
    var k := step.k;
    assert PcOk(s, k);
    if !NoCommit(s.disk) { WorkerIsFlagged(s, k); }
    if step.Examine? { ExamineKeepsPc(s, k, step.user); }
    WorkerStep(s, t, k, t.jobs[k].pc);
  }

  lemma WriteAppliedKeepsInv(s: State, k: G.OpId, outcome: Outcome)
    requires Inv(s) && Enabled(s, WriteApplied(k, outcome))
    ensures Inv(Apply(s, WriteApplied(k, outcome)))
  {
    var t := Apply(s, WriteApplied(k, outcome));
    var pc := s.jobs[k].pc;
    assert PcOk(s, k);
    assert MayHold(s.disk, pc.user, Committed(pc.completion));
    WorkerIsFlagged(s, k);
    ApplyKeeps(s.disk, pc.user, pc.completion, outcome, s.next, s.log);
    WorkerStep(s, t, k, t.jobs[k].pc);
  }

  lemma ExamineKeepsPc(s: State, k: G.OpId, user: UserId)
    requires Inv(s) && Enabled(s, Examine(k, user))
    ensures var t := Apply(s, Examine(k, user)); LogOk(t.disk, t.next, t.log) && (Working(t, k) ==> PcOk(t, k))
  {
    var t := Apply(s, Examine(k, user));
    assert PcOk(s, k);
    if t.log != s.log {
      var c := At(s.disk, user).seen.value.completion;
      assert s.disk[user] == SyncedSlot(s.disk[user].seen);
      ProjectEventKeeps(s.disk, user, c, s.next, s.log);
    }
  }

  lemma BodyKeepsInv(s: State, step: Step)
    requires Inv(s) && Enabled(s, step)
    requires step.WritePending? || step.ReadPending? || step.Freeze? || step.Leave?
    ensures Inv(Apply(s, step))
  {
    var t := Apply(s, step);
    var k := step.k;
    assert PcOk(s, k);
    if !NoCommit(s.disk) { WorkerIsFlagged(s, k); }
    if step.WritePending? { FreshPendingKeeps(s.disk, s.jobs[k].kind.user, step.outcome, s.next, s.log); }
    WorkerStep(s, t, k, t.jobs[k].pc);
  }

  lemma PublishCommittedKeepsInv(s: State, k: G.OpId, outcome: Outcome)
    requires Inv(s) && Enabled(s, WriteCommitted(k, outcome))
    ensures Inv(Apply(s, WriteCommitted(k, outcome)))
  {
    var t := Apply(s, WriteCommitted(k, outcome));
    var user, c := s.jobs[k].kind.user, s.jobs[k].pc.completion;
    assert PcOk(s, k);
    assert MayHold(s.disk, user, Pending(c.attempt));
    CommitKeeps(s.disk, user, c, outcome, s.next, s.log);
    if outcome.Done? && s.jobs[k].root !in s.projecting {
      ProjectEventKeeps(t.disk, user, c, s.next, s.log);
    }
    WorkerStep(s, t, k, t.jobs[k].pc);
  }

  lemma RecoveredKeepsInv(s: State, k: G.OpId)
    requires Inv(s) && Enabled(s, Recovered(k))
    ensures Inv(Apply(s, Recovered(k)))
  {
    var t := Apply(s, Recovered(k));
    assert PcOk(s, k);
    DiskStaysSound(s.disk, "", None, NotRenamed, map[]);
    NarrowKeeps(s.disk, t.disk, s.next, s.log);
    assert NoCommit(s.disk);
    if !s.jobs[k].pc.explicit { RanEventKeeps(t.disk, s.next, s.log); }
    WorkerStep(s, t, k, t.jobs[k].pc);
  }

  lemma StartKeepsLog(s: State, k: G.OpId)
    requires Inv(s) && Enabled(s, Start(k))
    ensures var t := Apply(s, Start(k)); t.disk == s.disk && t.next == s.next && LogOk(t.disk, t.next, t.log)
  {
    RootOf(s, k);
    if s.jobs[k].root !in s.required {
      UnflaggedRootIsClean(s, k);
      RanEventKeeps(s.disk, s.next, s.log);
    }
  }

  lemma StartKeepsShape(s: State, k: G.OpId)
    requires Inv(s) && Enabled(s, Start(k))
    ensures Shape(Apply(s, Start(k)))
    ensures forall w: G.OpId :: Working(Apply(s, Start(k)), w) ==> w == k
  {
    forall w: G.OpId ensures !Working(s, w) { NothingStartsBesideAWorker(s, k, w); }
    G.StepKeepsInv(s.gate, G.Start(k));
    StartKeepsJobs(s, k);
  }

  lemma StartKeepsInv(s: State, k: G.OpId)
    requires Inv(s) && Enabled(s, Start(k))
    ensures Inv(Apply(s, Start(k)))
  {
    var t := Apply(s, Start(k));
    StartKeepsShape(s, k);
    StartKeepsLog(s, k);
    StartKeepsFlags(s, k);
    StartedPc(s, k);
    forall w: G.OpId | Working(t, w) ensures PcOk(t, w) {}
  }

  lemma StartedPc(s: State, k: G.OpId)
    requires Inv(s) && Enabled(s, Start(k))
    ensures var t := Apply(s, Start(k)); Known(t, k) && PcOk(t, k)
  {
    RootOf(s, k);
    if s.jobs[k].root !in s.required { UnflaggedRootIsClean(s, k); }
  }

  lemma StartKeepsFlags(s: State, k: G.OpId)
    requires FlagsOk(s) && Enabled(s, Start(k)) && |s.jobs| == |s.gate.ops|
    ensures FlagsOk(Apply(s, Start(k)))
  {
    var t := Apply(s, Start(k));
    forall r: G.OpId | RootMayRun(t, r) && (t.gate.ops[r].phase.Waiting? || !NoCommit(t.disk)) ensures r in t.required {
      assert RootMayRun(s, r);
    }
  }

  lemma UnflaggedRootIsClean(s: State, k: G.OpId)
    requires Inv(s) && Enabled(s, Start(k)) && s.jobs[k].root !in s.required
    ensures NoCommit(s.disk)
  {
    RootOf(s, k);
    var r := s.jobs[k].root;
    if s.gate.ops[r].phase.Settled? { G.SettledBelow(s.gate, k); }
    assert RootMayRun(s, r);
  }

  lemma StartKeepsJobs(s: State, k: G.OpId)
    requires Jobs(s) && Enabled(s, Start(k))
    requires forall c: G.OpId :: Known(s, c) && s.gate.ops[c].parent.Some? ==> !s.gate.ops[s.gate.ops[c].parent.value].phase.Waiting?
    ensures Jobs(Apply(s, Start(k)))
    ensures forall w: G.OpId :: Working(Apply(s, Start(k)), w) ==> w == k || Working(s, w)
  {
    var t := Apply(s, Start(k));
    forall w: G.OpId | w != k ensures Working(t, w) == Working(s, w) && RunsCallback(t, w) == RunsCallback(s, w) {}
  }

  lemma CrashKeepsInv(s: State, left: map<UserId, Option<Record>>)
    requires Inv(s)
    ensures Inv(Apply(s, Crash(left)))
  {
    var t := Apply(s, Crash(left));
    DiskStaysSound(s.disk, "", None, NotRenamed, left);
    NarrowKeeps(s.disk, t.disk, s.next, s.log);
  }

  lemma StepKeepsInv(s: State, step: Step)
    requires Inv(s)
    ensures Inv(Apply(s, step))
  {
    if Enabled(s, step) {
      match step
      case Call(from, kind) => CallKeepsInv(s, from, kind);
      case Start(k) => StartKeepsInv(s, k);
      case Recovered(k) => RecoveredKeepsInv(s, k);
      case WriteCommitted(k, outcome) => PublishCommittedKeepsInv(s, k, outcome);
      case Unwind(g) => UnwindKeepsInv(s, g);
      case Crash(left) => CrashKeepsInv(s, left);
      case ReadDirectory(k) => ReadDirectoryKeepsInv(s, k);
      case Examine(_, _) => ProjectionKeepsInv(s, step);
      case Projected(_) => ProjectionKeepsInv(s, step);
      case WriteApplied(k, outcome) => WriteAppliedKeepsInv(s, k, outcome);
      case _ => BodyKeepsInv(s, step);
    }
  }

  lemma {:induction false} RunKeepsInv(s: State, steps: seq<Step>)
    requires Inv(s)
    ensures Inv(Exec(s, steps))
    decreases |steps|
  {
    if steps != [] {
      StepKeepsInv(s, steps[0]);
      RunKeepsInv(Apply(s, steps[0]), steps[1..]);
    }
  }

  lemma FreshIsOk()
    ensures Inv(Fresh)
  {}

  // --- the protocol's promises -------------------------------------------------

  /** However calls, failures and crashes interleave, no gated operation starts
      while a committed record is on disk. */
  lemma NothingRunsOverACommit(steps: seq<Step>, i: nat)
    ensures var log := Exec(Fresh, steps).log; i < |log| && log[i].Ran? ==> !log[i].committedOnDisk
  {
    FreshIsOk();
    RunKeepsInv(Fresh, steps);
    var s := Exec(Fresh, steps);
    if i < |s.log| { assert EventOk(s.disk, s.next, s.log, i); }
  }

  /** At most one committed record in the whole directory, whatever a crash leaves. */
  lemma OneCommitAtATime(steps: seq<Step>, u: UserId, r: Record, v: UserId, q: Record)
    ensures var d := Exec(Fresh, steps).disk;
      MayHold(d, u, r) && MayHold(d, v, q) && r.Committed? && q.Committed? ==> u == v && r == q
  {
    FreshIsOk();
    RunKeepsInv(Fresh, steps);
  }

  /** Every `project` call, also one made only once, finds its material durably committed. All
      calls for one attempt get the same material for the same user, and no gated operation
      starts between the first of them and the last. */
  lemma ProjectionIsFrozen(steps: seq<Step>, i: nat, j: nat)
    ensures var log := Exec(Fresh, steps).log;
      i <= j < |log| && log[i].Project? && log[j].Project? && log[i].completion.attempt == log[j].completion.attempt ==>
        && log[i].durable && log[j].durable
        && log[i].completion == log[j].completion && log[i].user == log[j].user
        && forall m :: i < m < j ==> !log[m].Ran?
  {
    FreshIsOk();
    RunKeepsInv(Fresh, steps);
    var s := Exec(Fresh, steps);
    if i <= j < |s.log| {
      assert EventOk(s.disk, s.next, s.log, i);
      assert EventOk(s.disk, s.next, s.log, j);
    }
  }
}
