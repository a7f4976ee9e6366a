/** `FileBootstrapCoordinator`: each method changes the journal and storage step by step. */
module BootstrapCoordinator {
  import opened Wrappers
  import opened DurableFile
  import opened TotpRecords
  import opened Bootstrap

  class FileBootstrapCoordinator {
    const ttl: int
    var s: State

    constructor (disk: Storage, ttl: int)
      ensures s == Fresh(disk) && this.ttl == ttl
    {
      s := Fresh(disk);
      this.ttl := ttl;
    }

    method WriteRecord(r: Record, outcome: Outcome) returns (failed: Option<Refusal>)
      modifies this
      ensures (s, failed) == Write(old(s), r, outcome)
    {
      if !RecordOk(r) { return Some(Invalid); }
      s := s.(journal := PublishSlot(s.journal, Some(r), outcome));
      return if outcome.Done? then None else Some(WriteFailed);
    }

    /** The application's projection callback, write by write. */
    method ProjectFrozen(c: Completion, p: Projection) returns (ok: bool)
      modifies this
      ensures s == old(s).(disk := Project(old(s.disk), c, p).0, projected := old(s.projected) + {c})
      ensures ok == Project(old(s.disk), c, p).1
    {
      s := s.(projected := s.projected + {c});
      s := s.(disk := s.disk.(factors := Ensured(s.disk.factors, c.user.handle, c.factor, p.factor)));
      if !p.factor.Done? { return false; }
      s := s.(disk := s.disk.(codes := Ensured(s.disk.codes, c.user.id, c.codes, p.codes)));
      if !p.codes.Done? { return false; }
      if c.profile.Some? {
        s := s.(disk := s.disk.(profiles := Ensured(s.disk.profiles, c.user.handle, c.profile.value, p.profile)));
      }
      if !p.profile.Done? { return false; }
      s := s.(disk := s.disk.(users := UserEnsured(s.disk.users, c.user, p.user)));
      return p.user.Done? && p.finished;
    }

    method ApplyCommit(r: Record, f: Faults) returns (ok: bool)
      requires r.Committed?
      modifies this
      ensures (s, ok) == ApplyOp(old(s), r, f)
    {
      if !f.decryptable || !CheckProjection(s.disk, r.completion, false) { return false; }
      ok := ProjectFrozen(r.completion, f.projection);
      if !ok || !CheckProjection(s.disk, r.completion, true) { return false; }
      var failed := WriteRecord(Applied(r.referenceDigest, r.receipt), f.applied);
      return failed.None?;
    }

    method RecoverUnsafe(f: Faults) returns (ok: bool)
      modifies this
      ensures (s, ok) == RecoverOp(old(s), f)
    {
      var seen := s.journal.seen;
      if seen.None? { return true; }
      if !f.synced { return false; }
      s := s.(journal := SyncedSlot(seen));
      if seen.value.Committed? { ok := ApplyCommit(seen.value, f); } else { ok := true; }
    }

    method PublishReservation(p: Pending, w: Publication) returns (failed: Option<Refusal>)
      modifies this
      ensures (s, failed) == PublishPending(old(s), p, w)
    {
      if !Empty(s.disk, p) { return Some(Conflict); }
      if !Unexpired(p, w.before) { return Some(Expired); }
      failed := WriteRecord(Reserved(p), w.outcome);
      if failed.Some? { return; }
      if !w.stillEmpty { return Some(Conflict); }
      if !Unexpired(p, w.after) { return Some(Expired); }
    }

    method Begin(q: Request, g: Generated, free: bool, now: int, at: int, f: Faults, w: Publication) returns (answer: Answer)
      modifies this
      ensures (s, answer) == BeginOp(old(s), q, g, free, ttl, now, at, f, w)
    {
      var ok := RecoverUnsafe(f);
      if !ok { return Refused(RecoveryRequired); }
      if !Vacant(s, now) || Users(s.disk) != [] || !free { return Refused(Conflict); }
      var id := s.next;
      var pending := Attempt(id, q, g, at, ttl);
      if !PendingOk(pending) { return Refused(Invalid); }
      s := s.(next := id + 1, begun := s.begun[id := pending]);
      var failed := PublishReservation(pending, w);
      if failed.Some? { return Refused(failed.value); }
      return Setup(id, pending);
    }

    method ResumePending(reference: Id, f: Faults, now: Readings) returns (p: Result<Pending, Refusal>)
      modifies this
      ensures (s, p) == Resume(old(s), reference, f, now)
    {
      var ok := RecoverUnsafe(f);
      return if ok then PendingFor(s, reference, now) else Err(RecoveryRequired);
    }

    method UpdateProfile(reference: Id, profile: Profile, f: Faults, now: Readings, w: Publication) returns (answer: Answer)
      modifies this
      ensures (s, answer) == UpdateProfileOp(old(s), reference, profile, f, now, w)
    {
      var p := ResumePending(reference, f, now);
      if p.Err? { return Refused(p.error); }
      var failed := PublishReservation(p.value.(profile := Some(profile)), w);
      return if failed.Some? then Refused(failed.value) else Noted;
    }

    method AcknowledgeBackupCodes(reference: Id, f: Faults, now: Readings, w: Publication) returns (answer: Answer)
      modifies this
      ensures (s, answer) == AcknowledgeOp(old(s), reference, f, now, w)
    {
      var p := ResumePending(reference, f, now);
      if p.Err? { return Refused(p.error); }
      if p.value.acknowledged { return Noted; }
      s := s.(acknowledgments := s.acknowledgments + {Acknowledgment(p.value.attemptId, reference)});
      var failed := PublishReservation(p.value.(acknowledged := true), w);
      return if failed.Some? then Refused(failed.value) else Noted;
    }

    method Complete(reference: Id, v: Proof, f: Faults, now: Readings, k: Checks) returns (answer: Answer)
      requires |v.codeIds| == CODE_COUNT
      modifies this
      ensures (s, answer) == CompleteOp(old(s), reference, v, f, now, k)
    {
      var ok := RecoverUnsafe(f);
      if !ok { return Refused(RecoveryRequired); }
      var prior := s.journal.seen;
      if prior.Some? && prior.value.Applied? {
        if prior.value.referenceDigest != ReferenceDigest(reference) { return Refused(Unauthorized); }
        return Completed(prior.value.receipt);
      }
      var p := PendingFor(s, reference, now);
      if p.Err? { return Refused(p.error); }
      if !p.value.acknowledged || !v.verified || |p.value.backupCodes| != CODE_COUNT { return Refused(Invalid); }
      if !Unexpired(p.value, k.verified) { return Refused(Expired); }
      var commit := CommitFor(p.value, v);
      if !RecordOk(commit) { return Refused(Invalid); }
      if !k.free || !k.stillEmpty { return Refused(Conflict); }
      if !Unexpired(p.value, k.committing) { return Refused(Expired); }
      var failed := WriteRecord(commit, k.outcome);
      if failed.Some? { return Refused(failed.value); }
      ok := ApplyCommit(commit, f);
      return if ok then Completed(commit.receipt) else Refused(RecoveryRequired);
    }
  }
}
