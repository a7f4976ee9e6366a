/** Enrollment records, recovery and projection running under the gate.

    Each step is one stretch of coordinator code up to its next await: a
    directory sync, one record read, one `project` call, one publication. Any of
    them may fail, and the process may crash between any two steps. Callbacks the
    application passes to `withReadyAuth` may link further calls at any time; the
    coordinator's own configuration callbacks do not re-enter the gate, which is
    what their contract demands. */
module EnrollmentJournal {
  import opened Wrappers
  import opened DurableFile
  import G = EnrollmentGate

  type UserId = string
  type AttemptId = nat

  /** What `complete` freezes: the projected material of one attempt. */
  datatype Completion = Completion(attempt: AttemptId, body: string)

  datatype Record =
    | Pending(attempt: AttemptId)
    | Committed(completion: Completion)
    | Applied(attempt: AttemptId)

  function AttemptOf(r: Record): AttemptId
  {
    if r.Committed? then r.completion.attempt else r.attempt
  }

  /** What a gated operation does once it may start. */
  datatype Kind = Callback | Recover | Begin(user: UserId) | Complete(user: UserId)

  /** Where `apply` returns to: the scan of `recoverUnsafe`, or `complete`. */
  datatype Return = ToScan(todo: set<UserId>, explicit: bool) | ToComplete

  /** `explicit` marks the second recovery that `recover()` runs as its own body. */
  datatype Pc =
    | NotEntered
    | Syncing(explicit: bool)
    | Scanning(todo: set<UserId>, explicit: bool)
    | Projecting(user: UserId, completion: Completion, ret: Return)
    | Applying(user: UserId, completion: Completion, ret: Return)
    | Started
    | Verifying(attempt: AttemptId)
    | Committing(completion: Completion)
    | Ended

  datatype Job = Job(kind: Kind, root: G.OpId, pc: Pc)

  /** What an outside observer sees: gated operations starting, and `project` calls. */
  datatype Event =
    | Ran(committedOnDisk: bool)
    | Project(user: UserId, completion: Completion, durable: bool)

  /** `required` and `projecting` are the two flags of each root's `GateState`. */
  datatype State = State(
    gate: G.State,
    jobs: seq<Job>,
    required: set<G.OpId>,
    projecting: set<G.OpId>,
    disk: Directory<UserId, Record>,
    next: AttemptId,
    log: seq<Event>)

  datatype Step =
    | Call(from: Option<G.OpId>, kind: Kind)
    | Start(k: G.OpId)
    | ReadDirectory(k: G.OpId)
    | Examine(k: G.OpId, user: UserId)
    | Projected(k: G.OpId)
    | WriteApplied(k: G.OpId, outcome: Outcome)
    | Recovered(k: G.OpId)
    | WritePending(k: G.OpId, outcome: Outcome)
    | ReadPending(k: G.OpId)
    | Freeze(k: G.OpId, body: string)
    | WriteCommitted(k: G.OpId, outcome: Outcome)
    | Leave(k: G.OpId)   // return or throw, writing nothing more
    | Unwind(gateStep: G.Step)
    | Crash(left: map<UserId, Option<Record>>)

  const Fresh := State(G.Fresh, [], {}, {}, map[], 0, [])

  predicate CommittedOnDisk(d: Directory<UserId, Record>)
  {
    exists u | u in d :: d[u].seen.Some? && d[u].seen.value.Committed?
  }

  predicate Known(s: State, k: G.OpId) { k < |s.jobs| && k < |s.gate.ops| }

  predicate Running(s: State, k: G.OpId)
  {
    Known(s, k) && s.gate.ops[k].phase.Running?
  }

  function Jump(s: State, k: G.OpId, pc: Pc): State
    requires Known(s, k)
  {
    s.(jobs := s.jobs[k := s.jobs[k].(pc := pc)])
  }

  /** `return await operation()`: the moment a gated operation starts. */
  function Run(s: State, k: G.OpId): State
    requires Known(s, k)
  {
    var started := Jump(s, k, if s.jobs[k].kind.Recover? then Syncing(true) else Started);
    started.(log := s.log + [Ran(CommittedOnDisk(s.disk))])
  }

  /** Application code runs in this context and may still link children to it. */
  predicate RunsCallback(s: State, k: G.OpId)
  {
    Known(s, k) && s.jobs[k].kind.Callback? && s.jobs[k].pc.Started?
  }

  function Enter(s: State, from: Option<G.OpId>, kind: Kind): State
  {
    var parent := G.Linked(s.gate, from);
    var id := |s.gate.ops|;
    if parent.None? then
      s.(gate := G.Apply(s.gate, G.Call(from)), jobs := s.jobs + [Job(kind, id, NotEntered)],
         required := s.required + {id})
    else if RunsCallback(s, parent.value) && s.jobs[parent.value].root !in s.projecting then
      s.(gate := G.Apply(s.gate, G.Call(from)), jobs := s.jobs + [Job(kind, s.jobs[parent.value].root, NotEntered)])
    else s
  }

  function Begun(s: State, k: G.OpId): State
    requires Known(s, k)
  {
    var entered := s.(gate := G.Apply(s.gate, G.Start(k)));
    if s.jobs[k].root in s.required then Jump(entered, k, Syncing(false)) else Run(entered, k)
  }

  function ExamineRecord(s: State, k: G.OpId, user: UserId): State
    requires Known(s, k) && s.jobs[k].pc.Scanning? && user in s.jobs[k].pc.todo
  {
    var pc := s.jobs[k].pc;
    var record := At(s.disk, user).seen;
    if record.Some? && record.value.Committed? then
      CallProject(s, k, user, record.value.completion, ToScan(pc.todo - {user}, pc.explicit))
    else Jump(s, k, Scanning(pc.todo - {user}, pc.explicit))
  }

  /** `apply`, up to the projection callback. */
  function CallProject(s: State, k: G.OpId, user: UserId, completion: Completion, ret: Return): State
    requires Known(s, k)
  {
    if s.jobs[k].root in s.projecting then Jump(s, k, Ended)
    else
      var durable := At(s.disk, user) == SyncedSlot(Some(Committed(completion)));
      Jump(s, k, Projecting(user, completion, ret)).(projecting := s.projecting + {s.jobs[k].root},
                                                    log := s.log + [Project(user, completion, durable)])
  }

  /** `apply`, from the publication of the applied record on. */
  function FinishApply(s: State, k: G.OpId, outcome: Outcome): State
    requires Known(s, k) && s.jobs[k].pc.Applying?
  {
    var pc := s.jobs[k].pc;
    var root := s.jobs[k].root;
    var t := s.(disk := Publish(s.disk, pc.user, Some(Applied(pc.completion.attempt)), outcome),
                projecting := s.projecting - {root});
    if !outcome.Done? then Jump(t, k, Ended)
    else if pc.ret.ToComplete? then Jump(t, k, Ended).(required := s.required - {root})
    else Jump(t, k, Scanning(pc.ret.todo, pc.ret.explicit))
  }

  function EndRecovery(s: State, k: G.OpId): State
    requires Known(s, k) && s.jobs[k].pc.Scanning?
  {
    var t := s.(disk := SyncAll(s.disk), required := s.required - {s.jobs[k].root});
    if s.jobs[k].pc.explicit then Jump(t, k, Ended) else Run(t, k)
  }

  function PublishPending(s: State, k: G.OpId, outcome: Outcome): State
    requires Known(s, k) && s.jobs[k].kind.Begin?
  {
    Jump(s.(disk := Publish(s.disk, s.jobs[k].kind.user, Some(Pending(s.next)), outcome), next := s.next + 1), k, Ended)
  }

  function PublishCommitted(s: State, k: G.OpId, outcome: Outcome): State
    requires Known(s, k) && s.jobs[k].kind.Complete? && s.jobs[k].pc.Committing?
  {
    var user := s.jobs[k].kind.user;
    var t := s.(disk := Publish(s.disk, user, Some(Committed(s.jobs[k].pc.completion)), outcome));
    if outcome.Done? then CallProject(t, k, user, s.jobs[k].pc.completion, ToComplete) else Jump(t, k, Ended)
  }

  predicate PendingFor(s: State, user: UserId)
  {
    At(s.disk, user).seen.Some? && At(s.disk, user).seen.value.Pending?
  }

  /** A body the gate may end: application code at will, coordinator code when it
      has returned or thrown. */
  predicate MayFinish(s: State, k: G.OpId)
  {
    RunsCallback(s, k) || (Known(s, k) && s.jobs[k].pc.Ended?)
  }

  predicate Enabled(s: State, step: Step)
  {
    match step
    case Call(_, _) => true
    case Start(k) => Known(s, k) && G.Enabled(s.gate, G.Start(k))
    case ReadDirectory(k) => Running(s, k) && s.jobs[k].pc.Syncing?
    case Examine(k, user) => Running(s, k) && s.jobs[k].pc.Scanning? && user in s.jobs[k].pc.todo
    case Projected(k) => Running(s, k) && s.jobs[k].pc.Projecting?
    case WriteApplied(k, _) => Running(s, k) && s.jobs[k].pc.Applying?
    case Recovered(k) => Running(s, k) && s.jobs[k].pc.Scanning? && s.jobs[k].pc.todo == {}
    case WritePending(k, _) => Running(s, k) && s.jobs[k].pc.Started? && s.jobs[k].kind.Begin?
    case ReadPending(k) => Running(s, k) && s.jobs[k].pc.Started? && s.jobs[k].kind.Complete? && PendingFor(s, s.jobs[k].kind.user)
    case Freeze(k, _) => Running(s, k) && s.jobs[k].pc.Verifying?
    case WriteCommitted(k, _) => Running(s, k) && s.jobs[k].pc.Committing? && s.jobs[k].kind.Complete?
    case Leave(k) => Running(s, k) && !MayFinish(s, k) && !s.jobs[k].pc.NotEntered?
    case Unwind(g) => g.Drain? || g.Settle? || (g.Finish? && MayFinish(s, g.op))
    case Crash(_) => true
  }

  function Apply(s: State, step: Step): State
  {
    if !Enabled(s, step) then s else
    match step
    case Call(from, kind) => Enter(s, from, kind)
    case Start(k) => Begun(s, k)
    case ReadDirectory(k) => Jump(s.(disk := SyncAll(s.disk)), k, Scanning(s.disk.Keys, s.jobs[k].pc.explicit))
    case Examine(k, user) => ExamineRecord(s, k, user)
    case Projected(k) => Jump(s, k, Applying(s.jobs[k].pc.user, s.jobs[k].pc.completion, s.jobs[k].pc.ret))
    case WriteApplied(k, outcome) => FinishApply(s, k, outcome)
    case Recovered(k) => EndRecovery(s, k)
    case WritePending(k, outcome) => PublishPending(s, k, outcome)
    case ReadPending(k) => Jump(s, k, Verifying(At(s.disk, s.jobs[k].kind.user).seen.value.attempt))
    case Freeze(k, body) =>
      Jump(s, k, Committing(Completion(s.jobs[k].pc.attempt, body))).(required := s.required + {s.jobs[k].root})
    case WriteCommitted(k, outcome) => PublishCommitted(s, k, outcome)
    case Leave(k) =>
      Jump(s, k, Ended).(projecting :=
        if s.jobs[k].pc.Projecting? || s.jobs[k].pc.Applying? then s.projecting - {s.jobs[k].root} else s.projecting)
    case Unwind(g) => s.(gate := G.Apply(s.gate, g))
    case Crash(left) => Fresh.(disk := Crashed(s.disk, left), next := s.next, log := s.log)
  }

  function Exec(s: State, steps: seq<Step>): State
    decreases |steps|
  {
    if steps == [] then s else Exec(Apply(s, steps[0]), steps[1..])
  }
}
