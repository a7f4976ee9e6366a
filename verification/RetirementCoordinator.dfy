/** `FileTotpRetirementCoordinator` over the file storage it retires from. */
module RetirementCoordinator {
  import opened Wrappers
  import opened DurableFile
  import opened Utf16
  import opened SessionPolicy
  import opened TotpRecords
  import opened Retirement
  import M = RetirementMaterial

  /** The retirement capabilities of `FileStorageAdapter`. */
  class FileStorage {
    var disk: Storage

    constructor (disk: Storage)
      ensures this.disk == disk
    {
      this.disk := disk;
    }

    method RevokeSessions(userId: Text, outcome: Outcome) returns (ok: bool)
      modifies this
      ensures (disk, ok) == DeleteUserSessions(old(disk), userId, outcome)
    {
      var sessions := Sessions(disk);
      var valid := AssertStoredSessions(sessions);
      if !valid { return false; }
      disk := disk.(sessions := PublishSlot(disk.sessions, Some(Others(sessions, userId)), outcome));
      return outcome.Done?;
    }

    method DeleteTOTPSecretExpected(handle: Text, expected: M.Digest, outcome: Outcome) returns (ok: bool)
      modifies this
      ensures (disk, ok) == DeleteFactor(old(disk), handle, expected, outcome)
    {
      var factor := FactorOf(disk, handle);
      if factor.None? {
        if outcome.Done? { disk := disk.(factors := SyncAll(disk.factors)); }
        return outcome.Done?;
      }
      if FactorSnapshot(factor.value) != expected { return false; }
      disk := disk.(factors := Publish(disk.factors, handle, None, outcome));
      return outcome.Done?;
    }

    method DeleteBackupCodesExpected(userId: Text, expected: Option<M.Digest>, outcome: Outcome) returns (ok: bool)
      modifies this
      ensures (disk, ok) == DeleteCodes(old(disk), userId, expected, outcome)
    {
      var codes := CodesFor(disk, userId);
      if codes.None? {
        if outcome.Done? { disk := disk.(codes := SyncAll(disk.codes)); }
        return outcome.Done?;
      }
      if expected.None? || RecoverySet(codes) != expected { return false; }
      disk := disk.(codes := Publish(disk.codes, userId, None, outcome));
      return outcome.Done?;
    }

    method ClearTotpFlagsExpected(userId: Text, handle: Text, at: int, outcome: Outcome) returns (ok: bool)
      modifies this
      ensures (disk, ok) == ClearFlags(old(disk), userId, handle, at, outcome)
    {
      var users := Users(disk);
      var owner := Owner(users, userId, handle);
      if owner.None? || !FlagsConsistent(owner.value, handle) { return false; }
      disk := disk.(users := PublishSlot(disk.users, Some(WithFlagsCleared(users, userId, at)), outcome));
      return outcome.Done?;
    }
  }

  class FileTotpRetirementCoordinator {
    const storage: FileStorage
    var journal: Journal
    var history: State

    constructor (storage: FileStorage)
      ensures this.storage == storage && View() == Fresh(storage.disk)
    {
      this.storage := storage;
      journal := map[];
      history := Fresh(storage.disk);
    }

    /** The coordinator's history beside the files as they are now. */
    function View(): State
      reads this, storage
    {
      history.(disk := storage.disk, journal := journal)
    }

    method Write(r: Record, op: Mac, outcome: Outcome) returns (ok: bool)
      modifies this`journal
      ensures journal == Publish(old(journal), op, Some(r), outcome) && ok == outcome.Done?
    {
      journal := Publish(journal, op, Some(r), outcome);
      return outcome.Done?;
    }

    /** `apply`: revoke, delete the factor, delete the codes, clear the flags, verify, record. */
    method Apply(c: Record, f: Faults) returns (receipt: Option<Receipt>)
      requires c.Committed?
      modifies this, storage
      ensures (View(), receipt) == ApplyRecord(old(View()), c, f)
    {
      if !f.readable || !Applicable(storage.disk, c) { return None; }
      var ok := storage.RevokeSessions(c.userId, f.sessions);
      if !ok || HasSessions(Sessions(storage.disk), c.userId) { return None; }
      history := history.(deleted := FactorDeleted(View(), c, f.factor));
      ok := storage.DeleteTOTPSecretExpected(c.handle, c.factorSnapshot, f.factor);
      if !ok { return None; }
      history := history.(deleted := CodesDeleted(View(), c, f.codes));
      ok := storage.DeleteBackupCodesExpected(c.userId, c.recoverySet, f.codes);
      if !ok { return None; }
      ok := storage.ClearTotpFlagsExpected(c.userId, c.handle, f.clearedAt, f.flags);
      if !ok { return None; }
      if !f.verifiable || !Gone(storage.disk, c) { return None; }
      var r := ReceiptOf(c, f.appliedAt);
      if r.appliedAt < r.committedAt { return None; }
      ok := Write(Applied(c.authorization, r), c.operationId, f.applied);
      if !ok { return None; }
      history := history.(receipts := history.receipts + {r});
      return Some(r);
    }

    /** `recoverUnsafe`: acknowledge the directory, then redo what is committed, name by name. */
    method RecoverUnsafe(prepared: bool, names: seq<Mac>, fs: map<Mac, Faults>) returns (ok: bool)
      modifies this, storage
      ensures (View(), ok) == RecoverOp(old(View()), prepared, names, fs)
    {
      if !prepared {
        history := history.(ready := false);
        return false;
      }
      journal := SyncAll(journal);
      ghost var synced := View();
      for n := 0 to |names|
        invariant RecoverFrom(synced, names, fs) == RecoverFrom(View(), names[n..], fs)
      {
        assert names[n..][0] == names[n] && names[n..][1..] == names[n + 1..];
        var seen := At(journal, names[n]).seen;
        if seen.None? {
          history := history.(ready := false);
          return false;
        }
        if seen.value.Committed? {
          var receipt := Apply(seen.value, FaultsFor(fs, names[n]));
          if receipt.None? {
            history := history.(ready := false);
            return false;
          }
        }
      }
      history := history.(ready := true);
      return true;
    }

    /** `retire` up to its callback. */
    method Begin(b: Binding, now: Clock) returns (current: Result<Current, Refusal>)
      modifies this
      ensures (View(), current) == BeginOp(old(View()), b, now)
    {
      current := CurrentOf(storage.disk, b, now);
      history := history.(pending := if current.Ok? then Some(Pending(b, current.value)) else None);
    }

    /** `retire` from its callback's decision on. */
    method Decide(decision: Decision, t: Times, dates: Dates, o: Outcomes) returns (answer: Answer)
      requires View().pending.Some?
      modifies this, storage
      ensures (View(), answer) == DecideOp(old(View()), old(View().pending.value), decision, t, dates, o)
    {
      var p := history.pending.value;
      history := history.(pending := None);
      if decision.NotConsumed? { return Declined; }
      if decision.actorId != p.binding.userId || decision.resourceId != p.binding.userId { return Refused(Unauthorized); }
      var current := CurrentOf(storage.disk, p.binding, t.current);
      if current.Err? { return Refused(current.error); }
      var after := current.value;
      if !StillAuthorized(p.before, after, dates) { return Refused(Conflict); }
      var op := Mac("operation", decision.receiptId);
      if At(journal, op).seen.Some? { return Refused(Conflict); }
      if |Occupied(journal)| >= MAX_RECORDS { return Refused(RecoveryRequired); }
      if after.session.expires.value <= t.expiry { return Refused(Unauthorized); }
      answer := Commit(p.binding, CommitRecord(p.binding, decision, after, t.committed), after, o);
    }

    /** Publish the commit and, once it is durable, apply it. */
    method Commit(b: Binding, c: Record, after: Current, o: Outcomes) returns (answer: Answer)
      requires c.Committed?
      modifies this, storage
      ensures (View(), answer) == CommitOp(old(View()), b, c, after, o)
    {
      var op := c.operationId;
      history := history.(ready := false,
        frozen := history.frozen[op := Frozen(b.userId, b.handle, after.factor, after.codes, history.epoch)]);
      var ok := Write(c, op, o.commit);
      if !ok { return Refused(RecoveryRequired); }
      var receipt := Apply(c, o.faults);
      if receipt.None? { return Refused(RecoveryRequired); }
      history := history.(ready := true);
      return Retired(receipt.value);
    }
  }
}
