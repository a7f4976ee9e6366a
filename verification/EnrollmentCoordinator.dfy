/** `recoverUnsafe` and `apply` with no other operation running in between: the scan over the
    directory, one record after another, each of its stretches a step of the journal. */
module EnrollmentCoordinator {
  import opened Wrappers
  import opened DurableFile
  import opened EnrollmentJournal
  import G = EnrollmentGate

  lemma {:induction false} ExecAppends(s: State, a: seq<Step>, b: seq<Step>)
    ensures Exec(s, a + b) == Exec(Exec(s, a), b)
    decreases |a|
  {
    if a == [] { assert a + b == b; }
    else {
      assert (a + b)[0] == a[0] && (a + b)[1..] == a[1..] + b;
      ExecAppends(Apply(s, a[0]), a[1..], b);
    }
  }

  lemma ExecOne(s: State, step: Step)
    ensures Exec(s, [step]) == Apply(s, step)
  {
    assert [step][1..] == [];
  }

  lemma ThenStep(s: State, steps: seq<Step>, step: Step)
    ensures Exec(s, steps + [step]) == Apply(Exec(s, steps), step)
  {
    ExecAppends(s, steps, [step]);
    ExecOne(Exec(s, steps), step);
  }

  /** What happens to one committed record: whether its projection returns, and its publication. */
  datatype Replay = Replay(projected: bool, outcome: Outcome)

  predicate AtScan(s: State, k: G.OpId) { Running(s, k) && s.jobs[k].pc.Scanning? && s.jobs[k].root !in s.projecting }

  /** The replay of every committed record among the first `n` names succeeds. */
  ghost predicate AllReplay(d: Disk, entries: seq<UserId>, replays: seq<Replay>, n: nat)
    requires n <= |entries| == |replays|
  {
    forall i :: 0 <= i < n && IsCommitted(d, entries[i]) ==> replays[i].projected && replays[i].outcome.Done?
  }

  predicate IsCommitted(d: Disk, u: UserId) { At(d, u).seen.Some? && At(d, u).seen.value.Committed? }

  /** A committed record becomes its applied receipt; anything else stays. */
  function Settled(seen: Option<Record>): Option<Record>
  {
    if seen.Some? && seen.value.Committed? then Some(Applied(seen.value.completion.attempt)) else seen
  }

  type Disk = Directory<UserId, Record>

  ghost function Names(entries: seq<UserId>): set<UserId> { set u | u in entries }

  ghost predicate NoRepeats(entries: seq<UserId>) { forall i, j :: 0 <= i < j < |entries| ==> entries[i] != entries[j] }

  /** Names still to come are as they were, the others settled, all of them synced. */
  ghost predicate PartlyScanned(was: Disk, now: Disk, todo: set<UserId>)
  {
    && now.Keys == was.Keys
    && forall u :: u in was ==> now[u] == SyncedSlot(if u in todo then was[u].seen else Settled(was[u].seen))
  }

  lemma NextName(entries: seq<UserId>, n: nat)
    requires n < |entries| && NoRepeats(entries)
    ensures entries[n] in Names(entries[n..]) && Names(entries[n + 1..]) == Names(entries[n..]) - {entries[n]}
  {
    assert entries[n..] == [entries[n]] + entries[n + 1..];
  }

  lemma SyncedPart(was: Disk, now: Disk, todo: set<UserId>)
    requires PartlyScanned(was, now, todo)
    ensures Synced(now)
  {}

  lemma ScanGoesOn(was: Disk, now: Disk, todo: set<UserId>, user: UserId)
    requires PartlyScanned(was, now, todo) && user in todo && user in was
    ensures PartlyScanned(was, now[user := SyncedSlot(Settled(now[user].seen))], todo - {user})
  {}

  class FileTotpEnrollmentCoordinator {
    var s: State

    constructor (s: State)
      ensures this.s == s
    {
      this.s := s;
    }

    method JumpTo(k: G.OpId, pc: Pc)
      requires Known(s, k)
      modifies this
      ensures s == Jump(old(s), k, pc)
    {
      s := s.(jobs := s.jobs[k := s.jobs[k].(pc := pc)]);
    }

    /** `apply` inside the scan: project, then publish the receipt. */
    method ApplyCommitted(k: G.OpId, user: UserId, replay: Replay) returns (ok: bool)
      requires AtScan(s, k) && user in s.jobs[k].pc.todo && user in s.disk
      requires s.disk[user].seen.Some? && s.disk[user].seen.value.Committed?
      modifies this
      ensures ok == (replay.projected && replay.outcome.Done?)
      ensures s == Exec(old(s), [Examine(k, user)] +
                    (if replay.projected then [Projected(k), WriteApplied(k, replay.outcome)] else [Leave(k)]))
      ensures ok ==> AtScan(s, k) && s.jobs[k].pc == Scanning(old(s.jobs[k].pc.todo) - {user}, old(s.jobs[k].pc.explicit))
      ensures ok ==> s.disk == SyncAll(old(s.disk)[user := Changed(old(s.disk[user]), Settled(old(s.disk[user].seen)))])
      ensures s.gate == old(s.gate) && s.required == old(s.required)
      ensures |s.jobs| == |old(s.jobs)| && s.jobs[k].root == old(s.jobs[k].root) && s.jobs[k].kind == old(s.jobs[k].kind)
      ensures !ok ==> s.jobs[k].pc.Ended?
    {
      ghost var before := s;
      var pc := s.jobs[k].pc;
      var root := s.jobs[k].root;
      var completion := s.disk[user].seen.value.completion;
      var ret := ToScan(pc.todo - {user}, pc.explicit);
      s := s.(projecting := s.projecting + {root},
              log := s.log + [Project(user, completion, At(s.disk, user) == SyncedSlot(Some(Committed(completion))))]);
      JumpTo(k, Projecting(user, completion, ret));
      assert s == Apply(before, Examine(k, user));
      ExecOne(before, Examine(k, user));
      if !replay.projected {
        s := s.(projecting := s.projecting - {root});
        JumpTo(k, Ended);
        ThenStep(before, [Examine(k, user)], Leave(k));
        return false;
      }
      JumpTo(k, Applying(user, completion, ret));
      ThenStep(before, [Examine(k, user)], Projected(k));
      ghost var applying := s;
      s := s.(disk := Publish(s.disk, user, Some(Applied(completion.attempt)), replay.outcome), projecting := s.projecting - {root});
      ok := replay.outcome.Done?;
      JumpTo(k, if ok then Scanning(ret.todo, ret.explicit) else Ended);
      assert s == Apply(applying, WriteApplied(k, replay.outcome));
      ThenStep(before, [Examine(k, user), Projected(k)], WriteApplied(k, replay.outcome));
      assert [Examine(k, user)] + [Projected(k), WriteApplied(k, replay.outcome)]
          == [Examine(k, user), Projected(k)] + [WriteApplied(k, replay.outcome)];
      assert [Examine(k, user)] + [Projected(k)] == [Examine(k, user), Projected(k)];
      assert before.projecting + {root} - {root} == before.projecting;
    }

    /** One turn of the scan, over a synced directory. */
    method ScanEntry(k: G.OpId, user: UserId, replay: Replay) returns (ok: bool, ghost steps: seq<Step>)
      requires AtScan(s, k) && user in s.jobs[k].pc.todo && user in s.disk && Synced(s.disk)
      modifies this
      ensures s == Exec(old(s), steps)
      ensures ok ==> AtScan(s, k) && s.jobs[k].pc == Scanning(old(s.jobs[k].pc.todo) - {user}, old(s.jobs[k].pc.explicit))
      ensures ok <==> IsCommitted(old(s.disk), user) ==> replay.projected && replay.outcome.Done?
      ensures ok ==> s.disk == old(s.disk)[user := SyncedSlot(Settled(old(s.disk[user].seen)))] && Synced(s.disk)
      ensures s.gate == old(s.gate) && s.required == old(s.required)
      ensures |s.jobs| == |old(s.jobs)| && s.jobs[k].root == old(s.jobs[k].root) && s.jobs[k].kind == old(s.jobs[k].kind)
      ensures !ok ==> s.jobs[k].pc.Ended?
    {
      ghost var before := s;
      var record := s.disk[user].seen;
      if record.Some? && record.value.Committed? {
        ok := ApplyCommitted(k, user, replay);
        steps := [Examine(k, user)] + (if replay.projected then [Projected(k), WriteApplied(k, replay.outcome)] else [Leave(k)]);
        assert forall u :: u in before.disk ==> before.disk[u] == SyncedSlot(before.disk[u].seen);
      } else {
        JumpTo(k, Scanning(s.jobs[k].pc.todo - {user}, s.jobs[k].pc.explicit));
        steps := [Examine(k, user)];
        ExecOne(before, Examine(k, user));
        assert before.disk[user] == SyncedSlot(before.disk[user].seen);
        ok := true;
      }
    }

    /** A sync that fails ends the operation. */
    method Fail(k: G.OpId)
      requires Running(s, k) && (s.jobs[k].pc.Syncing? || s.jobs[k].pc.Scanning?)
      modifies this
      ensures s == Apply(old(s), Leave(k)) && s == Jump(old(s), k, Ended)
    {
      JumpTo(k, Ended);
    }

    /** The scan of `recoverUnsafe`, between its two syncs. */
    method Scan(k: G.OpId, entries: seq<UserId>, replays: seq<Replay>) returns (ok: bool, ghost steps: seq<Step>)
      requires AtScan(s, k) && Synced(s.disk) && s.jobs[k].pc.todo == s.disk.Keys
      requires Names(entries) == s.disk.Keys && NoRepeats(entries) && |replays| == |entries|
      modifies this
      ensures s == Exec(old(s), steps)
      ensures ok <==> AllReplay(old(s).disk, entries, replays, |entries|)
      ensures ok ==> AtScan(s, k) && s.jobs[k].pc == Scanning({}, old(s.jobs[k].pc.explicit)) && s.disk.Keys == old(s).disk.Keys
      ensures ok ==> forall u :: u in s.disk ==> s.disk[u] == SyncedSlot(Settled(old(s).disk[u].seen))
      ensures s.gate == old(s.gate) && s.required == old(s.required)
      ensures |s.jobs| == |old(s.jobs)| && s.jobs[k].root == old(s.jobs[k].root) && s.jobs[k].kind == old(s.jobs[k].kind)
      ensures !ok ==> s.jobs[k].pc.Ended?
    {
      ghost var was := s;
      steps := [];
      assert entries[0..] == entries;
      for n := 0 to |entries|
        invariant s == Exec(was, steps) && AtScan(s, k)
        invariant s.disk.Keys == was.disk.Keys && s.jobs[k].pc == Scanning(Names(entries[n..]), was.jobs[k].pc.explicit)
        invariant PartlyScanned(was.disk, s.disk, Names(entries[n..])) && AllReplay(was.disk, entries, replays, n)
        invariant s.gate == was.gate && s.required == was.required
        invariant |s.jobs| == |was.jobs| && s.jobs[k].root == was.jobs[k].root && s.jobs[k].kind == was.jobs[k].kind
      {
        var user := entries[n];
        NextName(entries, n);
        SyncedPart(was.disk, s.disk, Names(entries[n..]));
        ghost var scanned := s.disk;
        ghost var more;
        ok, more := ScanEntry(k, user, replays[n]);
        ExecAppends(was, steps, more);
        steps := steps + more;
        if !ok { return; }
        ScanGoesOn(was.disk, scanned, Names(entries[n..]), user);
      }
      assert entries[|entries|..] == [];
      return true, steps;
    }

    /** The closing sync; once it is done the root needs no recovery and the operation goes on. */
    method Close(k: G.OpId, closing: bool)
      requires AtScan(s, k) && s.jobs[k].pc.todo == {} && Synced(s.disk)
      modifies this
      ensures s == Apply(old(s), if closing then Recovered(k) else Leave(k))
      ensures s.disk == old(s.disk) && |s.jobs| == |old(s.jobs)|
      ensures s.required == if closing then old(s.required) - {old(s.jobs[k].root)} else old(s.required)
      ensures s.jobs[k].pc == if !closing || old(s.jobs[k].pc.explicit) then Ended
                              else if old(s.jobs[k].kind.Recover?) then Syncing(true) else Started
    {
      if !closing {
        Fail(k);
        return;
      }
      AlreadySynced(s.disk);
      var pc := if s.jobs[k].pc.explicit then Ended else if s.jobs[k].kind.Recover? then Syncing(true) else Started;
      s := s.(disk := SyncAll(s.disk), required := s.required - {s.jobs[k].root},
              log := if s.jobs[k].pc.explicit then s.log else s.log + [Ran(CommittedOnDisk(s.disk))]);
      JumpTo(k, pc);
    }

    /** `recoverUnsafe`: between two syncs every committed record is projected and applied and
        every other one left as it is. Only then is the root's flag cleared and the operation
        let through, and the run is one the journal's steps allow. */
    method RecoverUnsafe(k: G.OpId, opening: bool, entries: seq<UserId>, replays: seq<Replay>, closing: bool)
      returns (ok: bool, ghost steps: seq<Step>)
      requires Running(s, k) && s.jobs[k].pc.Syncing? && s.jobs[k].root !in s.projecting
      requires Names(entries) == s.disk.Keys && NoRepeats(entries) && |replays| == |entries|
      modifies this
      ensures s == Exec(old(s), steps) && |s.jobs| == |old(s.jobs)|
      ensures ok <==> opening && closing && AllReplay(old(s).disk, entries, replays, |entries|)
      ensures ok ==> s.disk.Keys == old(s).disk.Keys && forall u :: u in s.disk ==> s.disk[u] == SyncedSlot(Settled(old(s).disk[u].seen))
      ensures s.required == if ok then old(s.required) - {old(s.jobs[k].root)} else old(s.required)
      ensures s.jobs[k].pc == if !ok || old(s.jobs[k].pc.explicit) then Ended
                              else if old(s.jobs[k].kind.Recover?) then Syncing(true) else Started
    {
      ghost var was := s;
      ExecOne(was, Leave(k));
      if !opening {
        Fail(k);
        return false, [Leave(k)];
      }
      steps := [ReadDirectory(k)];
      s := s.(disk := SyncAll(s.disk));
      JumpTo(k, Scanning(s.disk.Keys, s.jobs[k].pc.explicit));
      ExecOne(was, ReadDirectory(k));
      DirectoryRead(was.disk);
      assert AllReplay(s.disk, entries, replays, |entries|) <==> AllReplay(was.disk, entries, replays, |entries|);
      ghost var more;
      ok, more := Scan(k, entries, replays);
      ExecAppends(was, steps, more);
      steps := steps + more;
      if !ok { return; }
      ThenStep(was, steps, if closing then Recovered(k) else Leave(k));
      Close(k, closing);
      return closing, steps + [if closing then Recovered(k) else Leave(k)];
    }
  }

  lemma DirectoryRead(d: Disk)
    ensures SyncAll(d).Keys == d.Keys && Synced(SyncAll(d)) && forall u :: u in d ==> SyncAll(d)[u].seen == d[u].seen
  {}

  lemma AlreadySynced(d: Disk)
    requires Synced(d)
    ensures SyncAll(d) == d
  {}

  // --- calls and starts ------------------------------------------------------------------------------

  /** A call from no active context is a new root, which must recover first. A call from application
      code in an active context joins that root, unless it is projecting; then, and from the
      coordinator's own work, it is refused. */
  lemma CallIsTaken(s: State, from: Option<G.OpId>, kind: Kind)
    requires |s.jobs| == |s.gate.ops|
    ensures var t := Apply(s, Call(from, kind)); var n := |s.jobs|;
      if from.Some? && from.value < n && (s.gate.ops[from.value].phase.Running? || s.gate.ops[from.value].phase.Draining?) then
        var p := s.jobs[from.value];
        if p.kind.Callback? && p.pc.Started? && p.root !in s.projecting
        then t.jobs == s.jobs + [Job(kind, p.root, NotEntered)] && t.required == s.required && t.gate == G.Apply(s.gate, G.Call(from))
        else t == s
      else t.jobs == s.jobs + [Job(kind, n, NotEntered)] && t.required == s.required + {n} && t.gate == G.Apply(s.gate, G.Call(from))
  {}

  /** An operation whose turn has come recovers first while its root must, and otherwise goes
      straight on to what was called for. */
  lemma StartGoesOn(s: State, k: G.OpId)
    requires Known(s, k) && G.Enabled(s.gate, G.Start(k))
    ensures var t := Apply(s, Start(k));
      && t.gate == G.Apply(s.gate, G.Start(k)) && Known(t, k) && t.disk == s.disk && t.required == s.required
      && t.jobs[k].pc == if s.jobs[k].root in s.required then Syncing(false) else if s.jobs[k].kind.Recover? then Syncing(true) else Started
  {}

  // --- begin and complete without failures ---------------------------------------------------------

  ghost predicate OthersKept(was: Disk, now: Disk, user: UserId) { forall u :: u != user ==> At(now, u).seen == At(was, u).seen }

  /** A begin that has been let through publishes a new pending attempt for its user, at once durable. */
  lemma BeginPublishes(s: State, k: G.OpId)
    requires Running(s, k) && s.jobs[k].pc.Started? && s.jobs[k].kind.Begin?
    ensures var t := Exec(s, [WritePending(k, Done)]); var user := s.jobs[k].kind.user;
      && At(t.disk, user) == SyncedSlot(Some(Pending(s.next))) && OthersKept(s.disk, t.disk, user)
      && t.log == s.log && Known(t, k) && t.jobs[k].pc == Ended && t.next == s.next + 1
  {
    ExecOne(s, WritePending(k, Done));
  }

  function Finishing(k: G.OpId, body: string): seq<Step>
  {
    [ReadPending(k), Freeze(k, body), WriteCommitted(k, Done), Projected(k), WriteApplied(k, Done)]
  }

  lemma ExecFive(s: State, a: Step, b: Step, c: Step, d: Step, e: Step)
    ensures Exec(s, [a, b, c, d, e]) == Apply(Apply(Apply(Apply(Apply(s, a), b), c), d), e)
  {
    assert [a, b, c, d, e] == [a, b, c, d] + [e] && [a, b, c, d] == [a, b, c] + [d] && [a, b, c] == [a, b] + [c] && [a, b] == [a] + [b];
    ExecOne(s, a);
    ThenStep(s, [a], b);
    ThenStep(s, [a, b], c);
    ThenStep(s, [a, b, c], d);
    ThenStep(s, [a, b, c, d], e);
  }

  /** A completion that has been let through commits the pending attempt, projects it once, over a
      durable commit, and leaves its receipt; the root needs no recovery then. */
  lemma CompletePublishes(s: State, k: G.OpId, body: string)
    requires Running(s, k) && s.jobs[k].pc.Started? && s.jobs[k].kind.Complete? && s.jobs[k].root !in s.projecting
    requires At(s.disk, s.jobs[k].kind.user).seen.Some? && At(s.disk, s.jobs[k].kind.user).seen.value.Pending?
    ensures var t := Exec(s, Finishing(k, body)); var user := s.jobs[k].kind.user; var attempt := At(s.disk, user).seen.value.attempt;
      && At(t.disk, user) == SyncedSlot(Some(Applied(attempt))) && OthersKept(s.disk, t.disk, user)
      && t.log == s.log + [Project(user, Completion(attempt, body), true)]
      && t.required == s.required - {s.jobs[k].root} && t.projecting == s.projecting && Known(t, k) && t.jobs[k].pc == Ended
  {
    var user := s.jobs[k].kind.user;
    var c := Completion(At(s.disk, user).seen.value.attempt, body);
    CommitsAttempt(s, k, body, c);
    AppliesAttempt(Apply(Apply(Apply(s, ReadPending(k)), Freeze(k, body)), WriteCommitted(k, Done)), k, user, c);
    ExecFive(s, ReadPending(k), Freeze(k, body), WriteCommitted(k, Done), Projected(k), WriteApplied(k, Done));
    assert s.projecting + {s.jobs[k].root} - {s.jobs[k].root} == s.projecting;
  }

  lemma CommitsAttempt(s: State, k: G.OpId, body: string, c: Completion)
    requires Running(s, k) && s.jobs[k].pc.Started? && s.jobs[k].kind.Complete? && s.jobs[k].root !in s.projecting
    requires At(s.disk, s.jobs[k].kind.user).seen.Some? && At(s.disk, s.jobs[k].kind.user).seen.value.Pending?
    requires c == Completion(At(s.disk, s.jobs[k].kind.user).seen.value.attempt, body)
    ensures var t := Apply(Apply(Apply(s, ReadPending(k)), Freeze(k, body)), WriteCommitted(k, Done)); var user := s.jobs[k].kind.user;
      && Running(t, k) && t.jobs[k] == s.jobs[k].(pc := Projecting(user, c, ToComplete))
      && At(t.disk, user) == SyncedSlot(Some(Committed(c))) && OthersKept(s.disk, t.disk, user)
      && t.log == s.log + [Project(user, c, true)]
      && t.required == s.required + {s.jobs[k].root} && t.projecting == s.projecting + {s.jobs[k].root}
  {
    var s1 := Apply(s, ReadPending(k));
    var s2 := Apply(s1, Freeze(k, body));
    assert s2.jobs[k].pc == Committing(c) && s2.disk == s.disk && s2.log == s.log;
  }

  lemma AppliesAttempt(s: State, k: G.OpId, user: UserId, c: Completion)
    requires Running(s, k) && s.jobs[k].pc == Projecting(user, c, ToComplete)
    ensures var t := Apply(Apply(s, Projected(k)), WriteApplied(k, Done));
      && Known(t, k) && t.jobs[k].pc == Ended && t.log == s.log
      && At(t.disk, user) == SyncedSlot(Some(Applied(c.attempt))) && OthersKept(s.disk, t.disk, user)
      && t.required == s.required - {s.jobs[k].root} && t.projecting == s.projecting - {s.jobs[k].root}
  {
    var s1 := Apply(s, Projected(k));
    assert s1.jobs[k].pc == Applying(user, c, ToComplete) && s1.disk == s.disk;
  }
}
