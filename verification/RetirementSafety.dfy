/** What holds of every run of the retirement journal. */
module RetirementSafety {
  import opened Wrappers
  import opened DurableFile
  import opened Utf16
  import opened RetirementMaterial
  import opened TotpRecords
  import opened Principal
  import opened SessionPolicy
  import opened Retirement

  // --- the invariant ----------------------------------------------------------------------

  ghost predicate MayBeCommitted(j: Journal, k: Mac, c: Record) { c.Committed? && MayHold(j, k, c) }

  ghost predicate NoneCommitted(j: Journal) { forall k, c :: !MayBeCommitted(j, k, c) }

  ghost predicate OneCommitted(j: Journal)
  {
    forall k, c, m, e :: MayBeCommitted(j, k, c) && MayBeCommitted(j, m, e) ==> k == m && c == e
  }

  /** The commit at `k` is the only thing a crash can leave there. */
  ghost predicate Durable(j: Journal, k: Mac, c: Record)
  {
    c.Committed? && c.operationId == k && At(j, k) == SyncedSlot(Some(c))
  }

  ghost predicate SessionsGone(d: Storage, userId: Text)
  {
    forall v :: v in d.sessions.onDisk ==> !HasSessions(OrEmpty(v), userId)
  }

  /** A crash may leave the factor missing or its flag off. */
  ghost predicate Weakened(d: Storage, c: Record)
    requires c.Committed?
  {
    !Acknowledged(d, c.userId, c.handle)
  }

  /** The record at `k` says what was frozen for it. */
  ghost predicate Faithful(s: State, k: Mac, r: Record)
  {
    && k in s.frozen
    && var z := s.frozen[k];
       match r
       case Committed(op, userId, handle, generation, snapshot, set_, auth, _, _) =>
         && op == k && userId == z.userId && handle == z.handle && auth == Mac("authorization", k.text)
         && generation == FactorGeneration(z.factor) && snapshot == FactorSnapshot(z.factor)
         && set_ == RecoverySet(z.codes) && z.epoch == s.epoch
       case Applied(auth, r) =>
         && r.operationId == k && r.userId == z.userId && r.handle == z.handle && auth == Mac("authorization", k.text)
         && r.factorGeneration == FactorGeneration(z.factor)
  }

  ghost predicate DeletionOk(s: State, x: Deletion)
  {
    && x.op in s.frozen
    && None !in At(s.journal, x.op).onDisk
    && var z := s.frozen[x.op];
       match x
       case FactorGone(_, handle, factor, epoch) => handle == z.handle && factor == z.factor && epoch == z.epoch
       case CodesGone(_, userId, codes, epoch) => userId == z.userId && Some(codes) == z.codes && epoch == z.epoch
  }

  ghost predicate ReceiptOk(s: State, r: Receipt)
  {
    At(s.journal, r.operationId) == SyncedSlot(Some(Applied(Mac("authorization", r.operationId.text), r)))
  }

  ghost predicate HistoryOk(s: State)
  {
    && (forall k, r :: MayHold(s.journal, k, r) ==> Faithful(s, k, r))
    && (forall x :: x in s.deleted ==> DeletionOk(s, x))
    && (forall r :: r in s.receipts ==> ReceiptOk(s, r))
  }

  ghost predicate ReadyOk(s: State) { s.ready ==> Synced(s.journal) && NoneCommitted(s.journal) }

  ghost predicate Inv(s: State)
  {
    SoundStorage(s.disk) && Sound(s.journal) && HistoryOk(s) && OneCommitted(s.journal) && ReadyOk(s)
  }

  /** While a retirement may be committed, a factor that a crash may leave missing or switched
      off belongs to a user without sessions. */
  ghost predicate Guarded(s: State)
  {
    forall k, c :: MayBeCommitted(s.journal, k, c) && Weakened(s.disk, c) ==> SessionsGone(s.disk, c.userId)
  }

  // --- apply --------------------------------------------------------------------------------

  /** `apply` runs on a durable commit. */
  ghost predicate Applying(s: State, c: Record)
  {
    c.Committed? && Inv(s) && !s.ready && Durable(s.journal, c.operationId, c)
  }

  lemma RevokeStageKeeps(s: State, c: Record, f: Faults)
    requires Applying(s, c)
    ensures Applying(RevokeStage(s, c, f).0, c)
    ensures RevokeStage(s, c, f).1 ==> SessionsGone(RevokeStage(s, c, f).0.disk, c.userId)
    ensures Guarded(s) ==> Guarded(RevokeStage(s, c, f).0)
  {
    var t := RevokeStage(s, c, f).0;
    if Guarded(s) {
      forall k, e | MayBeCommitted(t.journal, k, e) && Weakened(t.disk, e) ensures SessionsGone(t.disk, e.userId) {
        assert MayBeCommitted(s.journal, k, e) && Weakened(s.disk, e);
        assert MayBeCommitted(s.journal, c.operationId, c);
      }
    }
  }

  lemma FrozenFactorOnly(s: State, c: Record)
    requires Applying(s, c) && FactorOf(s.disk, c.handle).Some? && SnapshotIs(FactorOf(s.disk, c.handle), c.factorSnapshot)
    ensures DeletionOk(s, FactorGone(c.operationId, c.handle, FactorOf(s.disk, c.handle).value, s.epoch))
  {
    assert MayHold(s.journal, c.operationId, c);
    assert Faithful(s, c.operationId, c);
    SnapshotIdentifies(FactorOf(s.disk, c.handle).value, s.frozen[c.operationId].factor);
  }

  lemma FrozenCodesOnly(s: State, c: Record)
    requires Applying(s, c) && CodesFor(s.disk, c.userId).Some? && RecoverySetIs(CodesFor(s.disk, c.userId), c.recoverySet)
    ensures DeletionOk(s, CodesGone(c.operationId, c.userId, CodesFor(s.disk, c.userId).value, s.epoch))
  {
    assert MayHold(s.journal, c.operationId, c);
    assert Faithful(s, c.operationId, c);
    RecoverySetIdentifies(CodesFor(s.disk, c.userId), s.frozen[c.operationId].codes);
  }

  lemma DeleteExpectedKeeps<K, V>(dir: Directory<K, V>, k: K, matches: bool, outcome: Outcome)
    requires Sound(dir)
    ensures Sound(DeleteExpected(dir, k, matches, outcome).0)
    ensures DeleteExpected(dir, k, matches, outcome).1 ==> At(DeleteExpected(dir, k, matches, outcome).0, k) == SyncedSlot(None)
    ensures forall h :: h != k ==> At(DeleteExpected(dir, k, matches, outcome).0, h).seen == At(dir, h).seen
    ensures forall h :: h != k ==> At(DeleteExpected(dir, k, matches, outcome).0, h).onDisk <= At(dir, h).onDisk
    ensures At(DeleteExpected(dir, k, matches, outcome).0, k).onDisk <= At(dir, k).onDisk + {None}
    ensures At(DeleteExpected(dir, k, matches, outcome).0, k).seen in {At(dir, k).seen, None}
    ensures At(DeleteExpected(dir, k, matches, outcome).0, k).seen != None ==>
              DeleteExpected(dir, k, matches, outcome).0 == dir
  {}

  lemma FactorStageKeeps(s: State, c: Record, f: Faults)
    requires Applying(s, c) && SessionsGone(s.disk, c.userId)
    ensures var t := FactorStage(s, c, f).0;
      && Applying(t, c) && t.disk == s.disk.(factors := t.disk.factors)
      && (FactorStage(s, c, f).1 ==> At(t.disk.factors, c.handle) == SyncedSlot(None))
  {
    var t := FactorStage(s, c, f).0;
    DeleteExpectedKeeps(s.disk.factors, c.handle, SnapshotIs(FactorOf(s.disk, c.handle), c.factorSnapshot), f.factor);
    if t.deleted != s.deleted { FrozenFactorOnly(s, c); }
  }

  lemma CodesStageKeeps(s: State, c: Record, f: Faults)
    requires Applying(s, c) && SessionsGone(s.disk, c.userId)
    ensures var t := CodesStage(s, c, f).0;
      && Applying(t, c) && t.disk == s.disk.(codes := t.disk.codes)
      && (CodesStage(s, c, f).1 ==> At(t.disk.codes, c.userId) == SyncedSlot(None))
  {
    var t := CodesStage(s, c, f).0;
    DeleteExpectedKeeps(s.disk.codes, c.userId, RecoverySetIs(CodesFor(s.disk, c.userId), c.recoverySet), f.codes);
    if t.deleted != s.deleted { FrozenCodesOnly(s, c); }
  }

  lemma FlagsStageKeeps(s: State, c: Record, f: Faults)
    requires Applying(s, c) && SessionsGone(s.disk, c.userId)
    ensures var t := FlagsStage(s, c, f).0;
      && Applying(t, c) && t.disk == s.disk.(users := t.disk.users)
      && (FlagsStage(s, c, f).1 ==> t.disk.users == SyncedSlot(t.disk.users.seen))
  {}

  /** Nothing of the retired factor is left for a crash to bring back. */
  ghost predicate RetiredForGood(d: Storage, c: Record)
    requires c.Committed?
  {
    && At(d.factors, c.handle) == SyncedSlot(None) && At(d.codes, c.userId) == SyncedSlot(None)
    && SessionsGone(d, c.userId) && d.users == SyncedSlot(d.users.seen) && Gone(d, c)
  }

  /** Publishing the receipt changes no other name and no frozen material. */
  lemma ReceiptPublicationKeeps(s: State, t: State, c: Record, f: Faults)
    requires Applying(s, c)
    requires var a := Applied(c.authorization, ReceiptOf(c, f.appliedAt));
      t == s.(journal := Publish(s.journal, c.operationId, Some(a), f.applied),
              receipts := if f.applied.Done? then s.receipts + {ReceiptOf(c, f.appliedAt)} else s.receipts)
    ensures Sound(t.journal) && HistoryOk(t)
    ensures forall k, e :: MayBeCommitted(t.journal, k, e) ==> MayBeCommitted(s.journal, k, e)
  {
    var op := c.operationId;
    var a := Applied(c.authorization, ReceiptOf(c, f.appliedAt));
    assert MayHold(s.journal, op, c) && Faithful(s, op, c);
    DiskStaysSound(s.journal, op, Some(a), f.applied, map[]);
    forall k, e | MayHold(t.journal, k, e) ensures Faithful(t, k, e) && (MayHold(s.journal, k, e) || (k == op && e == a)) {
      PublishHolds(s.journal, op, a, f.applied, k, e);
      if MayHold(s.journal, k, e) { assert Faithful(s, k, e); }
    }
    forall x | x in t.deleted ensures DeletionOk(t, x) { assert DeletionOk(s, x); }
    forall q | q in t.receipts ensures ReceiptOk(t, q) {
      if q in s.receipts {
        assert ReceiptOk(s, q);
        assert q.operationId != op;
      }
    }
  }

  lemma ReceiptStageKeeps(s: State, c: Record, f: Faults)
    requires Applying(s, c)
    ensures var (t, r) := ReceiptStage(s, c, f);
      && Inv(t) && t.disk == s.disk && !t.ready
      && (forall k, e :: MayBeCommitted(t.journal, k, e) ==> MayBeCommitted(s.journal, k, e))
      && (r.Some? ==> Synced(t.journal) && NoneCommitted(t.journal) && Gone(s.disk, c) &&
                      r.value in t.receipts && r.value.operationId == c.operationId)
  {
    var (t, r) := ReceiptStage(s, c, f);
    var op := c.operationId;
    if t.journal != s.journal {
      ReceiptPublicationKeeps(s, t, c, f);
      DiskStaysSound(s.journal, op, Some(Applied(c.authorization, ReceiptOf(c, f.appliedAt))), f.applied, map[]);
      if f.applied.Done? {
        assert t.journal[op] == SyncedSlot(Some(Applied(c.authorization, ReceiptOf(c, f.appliedAt))));
        forall k, e ensures !MayBeCommitted(t.journal, k, e) {
          assert MayBeCommitted(s.journal, op, c);
          assert MayBeCommitted(t.journal, k, e) ==> k == op;
        }
      }
    }
  }

  /** Whatever fails, `apply` keeps the invariant; when it answers, the factor is gone for good. */
  lemma ApplyKeepsInv(s: State, c: Record, f: Faults)
    requires Applying(s, c)
    ensures var (t, r) := ApplyRecord(s, c, f);
      && Inv(t) && !t.ready && (Guarded(s) ==> Guarded(t))
      && (r.Some? ==> Synced(t.journal) && NoneCommitted(t.journal) && RetiredForGood(t.disk, c) && r.value in t.receipts && r.value.operationId == c.operationId)
  {
    if f.readable && Applicable(s.disk, c) {
      var (s1, ok1) := RevokeStage(s, c, f);
      RevokeStageKeeps(s, c, f);
      if ok1 {
        var (s2, ok2) := FactorStage(s1, c, f);
        FactorStageKeeps(s1, c, f);
        if ok2 {
          var (s3, ok3) := CodesStage(s2, c, f);
          CodesStageKeeps(s2, c, f);
          if ok3 {
            var (s4, ok4) := FlagsStage(s3, c, f);
            FlagsStageKeeps(s3, c, f);
            if ok4 { ReceiptStageKeeps(s4, c, f); }
          }
        }
        SessionsGoneGuards(s, ApplyRecord(s, c, f).0, c);
      }
    }
  }

  lemma SessionsGoneGuards(s: State, t: State, c: Record)
    requires Applying(s, c) && SessionsGone(t.disk, c.userId)
    requires forall k, e :: MayBeCommitted(t.journal, k, e) ==> MayBeCommitted(s.journal, k, e)
    ensures Guarded(t)
  {
    assert MayBeCommitted(s.journal, c.operationId, c);
  }

  // --- recovery -------------------------------------------------------------------------------

  ghost predicate CommittedSeen(j: Journal, k: Mac) { At(j, k).seen.Some? && At(j, k).seen.value.Committed? }

  /** Part way through the loop: what is left to redo is among the names to come. */
  ghost predicate Redoing(s: State, names: seq<Mac>)
  {
    && Inv(s) && !s.ready && Synced(s.journal)
    && (forall k :: CommittedSeen(s.journal, k) ==> k in names)
  }

  lemma SeenIsDurable(s: State, k: Mac)
    requires Inv(s) && Synced(s.journal) && CommittedSeen(s.journal, k)
    ensures Durable(s.journal, k, At(s.journal, k).seen.value)
  {
    assert MayHold(s.journal, k, At(s.journal, k).seen.value);
    assert Faithful(s, k, At(s.journal, k).seen.value);
  }

  lemma NothingToRedo(s: State)
    requires Synced(s.journal) && forall k :: !CommittedSeen(s.journal, k)
    ensures NoneCommitted(s.journal)
  {
    forall k, c ensures !MayBeCommitted(s.journal, k, c) {
      assert k in s.journal ==> s.journal[k] == SyncedSlot(s.journal[k].seen);
      assert !CommittedSeen(s.journal, k);
    }
  }

  lemma {:induction false} RecoverFromKeepsInv(s: State, names: seq<Mac>, fs: map<Mac, Faults>)
    requires Redoing(s, names)
    ensures var (t, ok) := RecoverFrom(s, names, fs);
      && Inv(t) && !t.ready && (Guarded(s) ==> Guarded(t))
      && (ok ==> Synced(t.journal) && NoneCommitted(t.journal))
    decreases |names|
  {
    if names == [] {
      NothingToRedo(s);
    } else {
      var k := names[0];
      var seen := At(s.journal, k).seen;
      if seen.Some? && seen.value.Applied? {
        RecoverFromKeepsInv(s, names[1..], fs);
      } else if seen.Some? {
        SeenIsDurable(s, k);
        var (t, r) := ApplyRecord(s, seen.value, FaultsFor(fs, k));
        ApplyKeepsInv(s, seen.value, FaultsFor(fs, k));
        if r.Some? {
          forall m ensures !CommittedSeen(t.journal, m) { NotSeenEither(t.journal, m); }
          RecoverFromKeepsInv(t, names[1..], fs);
        }
      }
    }
  }

  lemma NotSeenEither(j: Journal, k: Mac)
    requires Synced(j) && NoneCommitted(j)
    ensures !CommittedSeen(j, k)
  {
    if CommittedSeen(j, k) { assert MayBeCommitted(j, k, At(j, k).seen.value); }
  }

  /** A journal that may hold less, and the same where it was synced. */
  ghost predicate Narrower(j: Journal, i: Journal)
  {
    forall k :: At(i, k).onDisk <= At(j, k).onDisk && (At(j, k) == SyncedSlot(At(j, k).seen) ==> At(i, k) == At(j, k))
  }

  lemma NarrowerKeepsHistory(s: State, t: State)
    requires HistoryOk(s) && t.frozen == s.frozen && t.deleted == s.deleted && t.receipts == s.receipts && t.epoch == s.epoch
    requires Narrower(s.journal, t.journal)
    ensures HistoryOk(t)
    ensures forall k, c :: MayBeCommitted(t.journal, k, c) ==> MayBeCommitted(s.journal, k, c)
  {
    forall k, r | MayHold(t.journal, k, r) ensures MayHold(s.journal, k, r) && Faithful(t, k, r) {
      assert Some(r) in At(t.journal, k).onDisk && Some(r) in At(s.journal, k).onDisk;
      assert MayHold(s.journal, k, r) && Faithful(s, k, r);
    }
    forall x | x in t.deleted ensures DeletionOk(t, x) { assert DeletionOk(s, x); }
    forall r | r in t.receipts ensures ReceiptOk(t, r) { assert ReceiptOk(s, r); }
  }

  lemma SyncKeepsInv(s: State)
    requires Inv(s)
    ensures var t := s.(journal := SyncAll(s.journal), ready := false); Inv(t) && (Guarded(s) ==> Guarded(t))
  {
    var t := s.(journal := SyncAll(s.journal), ready := false);
    DiskStaysSound(s.journal, Mac("", []), None, NotRenamed, map[]);
    NarrowerKeepsHistory(s, t);
  }

  lemma RecoverKeepsInv(s: State, prepared: bool, names: seq<Mac>, fs: map<Mac, Faults>)
    requires Inv(s) && Lists(names, s.journal)
    ensures var t := RecoverOp(s, prepared, names, fs).0; Inv(t) && (Guarded(s) ==> Guarded(t))
  {
    if prepared {
      var u := s.(journal := SyncAll(s.journal));
      var v := s.(journal := SyncAll(s.journal), ready := false);
      SyncKeepsInv(s);
      forall k | CommittedSeen(v.journal, k) ensures k in names { assert k in Occupied(s.journal); }
      DiskStaysSound(s.journal, Mac("", []), None, NotRenamed, map[]);
      RecoverFromKeepsInv(v, names, fs);
      ReadyIsNotRead(u, names, fs);
      SameButReady(RecoverFrom(v, names, fs).0, RecoverOp(s, prepared, names, fs).0);
    }
  }

  lemma SameButReady(s: State, t: State)
    requires t == s.(ready := t.ready) && Inv(s) && (t.ready ==> Synced(s.journal) && NoneCommitted(s.journal))
    ensures Inv(t) && (Guarded(s) <==> Guarded(t))
  {}

  lemma ApplyIgnoresReady(s: State, c: Record, f: Faults)
    requires c.Committed?
    ensures var (t, r) := ApplyRecord(s, c, f);
      ApplyRecord(s.(ready := false), c, f) == (t.(ready := false), r) && t.ready == s.ready
  {
    var s1 := RevokeStage(s, c, f).0;
    var s2 := FactorStage(s1, c, f).0;
    var s3 := CodesStage(s2, c, f).0;
    var s4 := FlagsStage(s3, c, f).0;
  }

  lemma {:induction false} ReadyIsNotRead(s: State, names: seq<Mac>, fs: map<Mac, Faults>)
    ensures var (t, ok) := RecoverFrom(s, names, fs);
      RecoverFrom(s.(ready := false), names, fs) == (t.(ready := false), ok)
    decreases |names|
  {
    if names != [] && At(s.journal, names[0]).seen.Some? {
      var r := At(s.journal, names[0]).seen.value;
      if r.Committed? {
        ApplyIgnoresReady(s, r, FaultsFor(fs, names[0]));
        ReadyIsNotRead(ApplyRecord(s, r, FaultsFor(fs, names[0])).0, names[1..], fs);
      } else {
        ReadyIsNotRead(s, names[1..], fs);
      }
    }
  }

  // --- commit -----------------------------------------------------------------------------------

  /** A commit that says what its reads found. */
  ghost predicate Commits(s: State, b: Binding, c: Record, after: Current)
  {
    && Inv(s) && s.ready && c.Committed? && At(s.journal, c.operationId).seen.None?
    && c.userId == b.userId && c.handle == b.handle && c.operationId.domain == "operation"
    && c.authorization == Mac("authorization", c.operationId.text)
    && c.factorGeneration == FactorGeneration(after.factor) && c.factorSnapshot == FactorSnapshot(after.factor)
    && c.recoverySet == RecoverySet(after.codes)
  }

  function CommittedState(s: State, b: Binding, c: Record, after: Current, outcome: Outcome): State
    requires c.Committed?
  {
    s.(journal := Publish(s.journal, c.operationId, Some(c), outcome),
       frozen := s.frozen[c.operationId := Frozen(b.userId, b.handle, after.factor, after.codes, s.epoch)], ready := false)
  }

  lemma CommitIsNew(s: State, k: Mac)
    requires Inv(s) && s.ready && At(s.journal, k).seen.None?
    ensures At(s.journal, k) == SyncedSlot(None)
    ensures forall r :: !MayHold(s.journal, k, r)
    ensures forall x :: x in s.deleted ==> x.op != k
    ensures forall r :: r in s.receipts ==> r.operationId != k
  {
    assert k in s.journal ==> s.journal[k] == SyncedSlot(s.journal[k].seen);
    forall x | x in s.deleted ensures x.op != k { assert DeletionOk(s, x); }
    forall r | r in s.receipts ensures r.operationId != k { assert ReceiptOk(s, r); }
  }

  lemma CommitKeepsInv(s: State, b: Binding, c: Record, after: Current, outcome: Outcome)
    requires Commits(s, b, c, after)
    ensures Inv(CommittedState(s, b, c, after, outcome))
    ensures outcome.Done? ==> Applying(CommittedState(s, b, c, after, outcome), c)
    ensures Acknowledged(s.disk, b.userId, b.handle) ==> Guarded(CommittedState(s, b, c, after, outcome))
  {
    var u := CommittedState(s, b, c, after, outcome);
    var op := c.operationId;
    CommitIsNew(s, op);
    DiskStaysSound(s.journal, op, Some(c), outcome, map[]);
    forall k, r | MayHold(u.journal, k, r) ensures Faithful(u, k, r) && (MayHold(s.journal, k, r) || (k == op && r == c)) {
      PublishHolds(s.journal, op, c, outcome, k, r);
      if MayHold(s.journal, k, r) { assert Faithful(s, k, r); }
    }
    forall k, e | MayBeCommitted(u.journal, k, e) ensures k == op && e == c {
      assert !MayBeCommitted(s.journal, k, e);
    }
    forall x | x in u.deleted ensures DeletionOk(u, x) { assert DeletionOk(s, x); }
    forall r | r in u.receipts ensures ReceiptOk(u, r) { assert ReceiptOk(s, r); }
  }

  lemma DecideKeepsInv(s: State, p: Pending, decision: Decision, t: Times, dates: Dates, o: Outcomes)
    requires Inv(s) && s.ready
    ensures var u := DecideOp(s, p, decision, t, dates, o).0;
      Inv(u) && (Acknowledged(s.disk, p.binding.userId, p.binding.handle) ==> Guarded(u))
  {
    var done := s.(pending := None);
    assert Inv(done);
    var current := CurrentOf(s.disk, p.binding, t.current);
    if decision.Consumed? && current.Ok? && At(s.journal, Mac("operation", decision.receiptId)).seen.None? {
      CommitOpKeepsInv(done, p.binding, CommitRecord(p.binding, decision, current.value, t.committed), current.value, o);
    }
  }

  lemma CommitOpKeepsInv(s: State, b: Binding, c: Record, after: Current, o: Outcomes)
    requires Commits(s, b, c, after)
    ensures var u := CommitOp(s, b, c, after, o).0; Inv(u) && (Acknowledged(s.disk, b.userId, b.handle) ==> Guarded(u))
    ensures CommitOp(s, b, c, after, o).1.Retired? ==> RetiredForGood(CommitOp(s, b, c, after, o).0.disk, c)
  {
    CommitKeepsInv(s, b, c, after, o.commit);
    var u := CommittedState(s, b, c, after, o.commit);
    if o.commit.Done? {
      ApplyKeepsInv(u, c, o.faults);
      var (v, r) := ApplyRecord(u, c, o.faults);
      if r.Some? { SameButReady(v, v.(ready := true)); }
    }
  }

  // --- live changes and crashes --------------------------------------------------------------------

  lemma LiveKeepsInv(s: State, next: Storage)
    requires Inv(s) && s.ready && SoundStorage(next)
    ensures Inv(s.(disk := next, epoch := s.epoch + 1))
  {
    var t := s.(disk := next, epoch := s.epoch + 1);
    forall k, r | MayHold(t.journal, k, r) ensures Faithful(t, k, r) {
      assert Faithful(s, k, r);
      assert !MayBeCommitted(s.journal, k, r);
    }
    forall x | x in t.deleted ensures DeletionOk(t, x) { assert DeletionOk(s, x); }
    forall r | r in t.receipts ensures ReceiptOk(t, r) { assert ReceiptOk(s, r); }
  }

  lemma CrashedStorageOk(d: Storage, left: Leftover)
    requires SoundStorage(d)
    ensures var e := CrashedStorage(d, left);
      && SoundStorage(e) && e.users.onDisk <= d.users.onDisk && e.sessions.onDisk <= d.sessions.onDisk
      && forall h :: At(e.factors, h).onDisk <= At(d.factors, h).onDisk
  {
    DiskStaysSound(d.factors, [], None, NotRenamed, left.factors);
    DiskStaysSound(d.codes, [], None, NotRenamed, left.codes);
  }

  lemma CrashedHistoryOk(s: State, t: State, left: Leftover)
    requires Inv(s) && t == Apply(s, Crash(left))
    ensures HistoryOk(t) && Sound(t.journal)
    ensures forall k, c :: MayBeCommitted(t.journal, k, c) ==> MayBeCommitted(s.journal, k, c)
  {
    DiskStaysSound(s.journal, Mac("", []), None, NotRenamed, left.journal);
    NarrowerKeepsHistory(s, t);
  }

  lemma CrashKeepsInv(s: State, left: Leftover)
    requires Inv(s)
    ensures Inv(Apply(s, Crash(left))) && (Guarded(s) ==> Guarded(Apply(s, Crash(left))))
  {
    var t := Apply(s, Crash(left));
    CrashedStorageOk(s.disk, left);
    CrashedHistoryOk(s, t, left);
    if Guarded(s) {
      forall k, c | MayBeCommitted(t.journal, k, c) && Weakened(t.disk, c) ensures SessionsGone(t.disk, c.userId) {
        assert MayBeCommitted(s.journal, k, c) && Weakened(s.disk, c);
      }
    }
  }

  /** The decision finds a factor that no crash can take away. */
  ghost predicate DecidesAcknowledged(s: State, step: Step)
  {
    step.Decide? && Enabled(s, step) ==>
      Acknowledged(s.disk, s.pending.value.binding.userId, s.pending.value.binding.handle)
  }

  lemma StepKeepsInv(s: State, step: Step)
    requires Inv(s)
    ensures Inv(Apply(s, step))
    ensures Guarded(s) && DecidesAcknowledged(s, step) ==> Guarded(Apply(s, step))
  {
    if Enabled(s, step) {
      match step
      case Recover(prepared, names, fs) => RecoverKeepsInv(s, prepared, names, fs);
      case Begin(b, now) =>
      case Live(next) => LiveKeepsInv(s, next);
      case Decide(decision, t, dates, o) => DecideKeepsInv(s, s.pending.value, decision, t, dates, o);
      case Crash(left) => CrashKeepsInv(s, left);
    }
  }

  lemma {:induction false} RunKeepsInv(s: State, steps: seq<Step>)
    requires Inv(s)
    ensures Inv(Exec(s, steps))
    decreases |steps|
  {
    if steps != [] {
      StepKeepsInv(s, steps[0]);
      RunKeepsInv(Apply(s, steps[0]), steps[1..]);
    }
  }

  // --- the theorems ---------------------------------------------------------------------------------

  /** At most one retirement is committed, now or after any crash. */
  lemma OneCommitAtATime(d: Storage, steps: seq<Step>, k: Mac, c: Record, m: Mac, e: Record)
    requires SoundStorage(d)
    requires MayBeCommitted(Exec(Fresh(d), steps).journal, k, c) && MayBeCommitted(Exec(Fresh(d), steps).journal, m, e)
    ensures k == m && c == e
  {
    RunKeepsInv(Fresh(d), steps);
  }

  ghost predicate AllDecideAcknowledged(s: State, steps: seq<Step>)
    decreases |steps|
  {
    steps != [] ==> DecidesAcknowledged(s, steps[0]) && AllDecideAcknowledged(Apply(s, steps[0]), steps[1..])
  }

  lemma {:induction false} RunStaysGuarded(s: State, steps: seq<Step>)
    requires Inv(s) && Guarded(s) && AllDecideAcknowledged(s, steps)
    ensures Guarded(Exec(s, steps))
    decreases |steps|
  {
    if steps != [] {
      StepKeepsInv(s, steps[0]);
      RunStaysGuarded(Apply(s, steps[0]), steps[1..]);
    }
  }

  /** From commit to receipt, a factor that is missing or switched off, now or after a crash,
      means its user has no session, now or after a crash, if no decision ran while a crash
      could still take that user's factor away. */
  lemma NoSessionOutlivesTheFactor(d: Storage, steps: seq<Step>, k: Mac, c: Record)
    requires SoundStorage(d) && AllDecideAcknowledged(Fresh(d), steps)
    requires var s := Exec(Fresh(d), steps); MayBeCommitted(s.journal, k, c) && Weakened(s.disk, c)
    ensures SessionsGone(Exec(Fresh(d), steps).disk, c.userId)
  {
    RunStaysGuarded(Fresh(d), steps);
  }

  /** The decision passes every check and comes to publish its commit. */
  ghost predicate Publishes(s: State, p: Pending, decision: Decision, t: Times, dates: Dates)
  {
    && decision.Consumed? && decision.actorId == p.binding.userId && decision.resourceId == p.binding.userId
    && var now := CurrentOf(s.disk, p.binding, t.current);
    && now.Ok? && StillAuthorized(p.before, now.value, dates)
    && At(s.journal, Mac("operation", decision.receiptId)).seen.None?
    && |Occupied(s.journal)| < MAX_RECORDS && t.expiry < now.value.session.expires.value
  }

  lemma {:induction false} NamedIsThere(ss: seq<Session>, id: Text)
    requires SessionNamed(ss, id).Some?
    ensures SessionNamed(ss, id).value in ss
    decreases |ss|
  {
    if ss[0].id != id { NamedIsThere(ss[1..], id); }
  }

  /** A decision that comes to its commit keeps sessions from outliving the factor, wherever it
      is interrupted, exactly when no crash can take the factor away as it starts. */
  lemma GuardedExactlyWhenAcknowledged(s: State, p: Pending, decision: Decision, t: Times, dates: Dates)
    requires Inv(s) && s.ready && Publishes(s, p, decision, t, dates)
    ensures (forall o :: Guarded(DecideOp(s, p, decision, t, dates, o).0)) <==>
              Acknowledged(s.disk, p.binding.userId, p.binding.handle)
  {
    forall o | Acknowledged(s.disk, p.binding.userId, p.binding.handle) ensures Guarded(DecideOp(s, p, decision, t, dates, o).0) {
      DecideKeepsInv(s, p, decision, t, dates, o);
    }
    var o := Outcomes(NotSynced, SMOOTH);
    var u := DecideOp(s, p, decision, t, dates, o).0;
    var now := CurrentOf(s.disk, p.binding, t.current).value;
    var c := CommitRecord(p.binding, decision, now, t.committed);
    assert MayBeCommitted(u.journal, c.operationId, c);
    NamedIsThere(Sessions(s.disk), p.binding.sessionId);
    assert now.session in Sessions(s.disk) && now.session.userId == c.userId;
    assert !SessionsGone(u.disk, c.userId);
  }

  /** A receipt deletes only what it froze, and nothing that any live change came after. */
  lemma OnlyFrozenMaterialGoes(d: Storage, steps: seq<Step>, x: Deletion)
    requires SoundStorage(d) && x in Exec(Fresh(d), steps).deleted
    ensures DeletionOk(Exec(Fresh(d), steps), x)
  {
    RunKeepsInv(Fresh(d), steps);
  }

  /** One receipt, one factor, whatever is crashed and replayed. */
  lemma OneGenerationPerReceipt(d: Storage, steps: seq<Step>, x: Deletion, y: Deletion)
    requires SoundStorage(d) && x.FactorGone? && y.FactorGone? && x.op == y.op
    requires x in Exec(Fresh(d), steps).deleted && y in Exec(Fresh(d), steps).deleted
    ensures x == y
  {
    OnlyFrozenMaterialGoes(d, steps, x);
    OnlyFrozenMaterialGoes(d, steps, y);
  }

  lemma {:induction false} ReceiptsStay(s: State, steps: seq<Step>, r: Receipt)
    requires Inv(s) && r in s.receipts
    ensures r in Exec(s, steps).receipts && Inv(Exec(s, steps))
    decreases |steps|
  {
    if steps != [] {
      StepKeepsInv(s, steps[0]);
      ReceiptsOnlyGrow(s, steps[0]);
      ReceiptsStay(Apply(s, steps[0]), steps[1..], r);
    }
  }

  lemma ApplyReceiptsGrow(s: State, c: Record, f: Faults)
    requires c.Committed?
    ensures s.receipts <= ApplyRecord(s, c, f).0.receipts
  {}

  lemma {:induction false} RecoverReceiptsGrow(s: State, names: seq<Mac>, fs: map<Mac, Faults>)
    ensures s.receipts <= RecoverFrom(s, names, fs).0.receipts
    decreases |names|
  {
    if names != [] && At(s.journal, names[0]).seen.Some? {
      var r := At(s.journal, names[0]).seen.value;
      if r.Committed? {
        ApplyReceiptsGrow(s, r, FaultsFor(fs, names[0]));
        RecoverReceiptsGrow(ApplyRecord(s, r, FaultsFor(fs, names[0])).0, names[1..], fs);
      } else {
        RecoverReceiptsGrow(s, names[1..], fs);
      }
    }
  }

  lemma ReceiptsOnlyGrow(s: State, step: Step)
    ensures s.receipts <= Apply(s, step).receipts
  {
    if Enabled(s, step) && step.Recover? {
      RecoverReceiptsGrow(s.(journal := SyncAll(s.journal)), step.names, step.faults);
    }
    if Enabled(s, step) && step.Decide? {
      DecideReceiptsGrow(s, s.pending.value, step.decision, step.times, step.dates, step.outcomes);
    }
  }

  lemma DecideReceiptsGrow(s: State, p: Pending, decision: Decision, t: Times, dates: Dates, o: Outcomes)
    ensures s.receipts <= DecideOp(s, p, decision, t, dates, o).0.receipts
  {
    var current := CurrentOf(s.disk, p.binding, t.current);
    if decision.Consumed? && current.Ok? {
      var c := CommitRecord(p.binding, decision, current.value, t.committed);
      ApplyReceiptsGrow(CommittedState(s.(pending := None), p.binding, c, current.value, o.commit), c, o.faults);
    }
  }

  /** Once a receipt has been issued, every later lookup finds it, after any crashes,
      and no factor enrolled since is touched by it. */
  lemma ReceiptsAreForever(d: Storage, steps: seq<Step>, later: seq<Step>, r: Receipt)
    requires SoundStorage(d) && r in Exec(Fresh(d), steps).receipts
    ensures var s := Exec(Exec(Fresh(d), steps), later);
      && At(s.journal, r.operationId).onDisk == {At(s.journal, r.operationId).seen}
      && (r.operationId.domain == "operation" ==> ReadReceipt(s, r.operationId.text, r.userId) == Some(r))
  {
    RunKeepsInv(Fresh(d), steps);
    ReceiptsStay(Exec(Fresh(d), steps), later, r);
    assert ReceiptOk(Exec(Exec(Fresh(d), steps), later), r);
  }

  /** Nothing the check covers changed since authorization, and the factor's usage only
      moved forward. */
  ghost predicate Unchanged(before: Current, now: Current, dates: Dates)
  {
    && Dressed(before.user, now.user) == now.user
    && before.session.createdAt == now.session.createdAt
    && WithoutUsage(before.factor) == WithoutUsage(now.factor)
    && before.codes == now.codes
    && UsedNoEarlier(before.factor, now.factor, dates)
  }

  /** The factor's last step has not gone back or been lost, nor has a last use that was on record. */
  ghost predicate UsedNoEarlier(f: Factor, g: Factor, dates: Dates)
  {
    && (f.lastUsedTotpStep.Some? ==> g.lastUsedTotpStep.Some? && f.lastUsedTotpStep.value <= g.lastUsedTotpStep.value)
    && (f.lastUsedAt !in {None, Some([])} ==>
          && g.lastUsedAt !in {None, Some([])}
          && forall x, y :: x in dates && y in dates && Some(x) == f.lastUsedAt && Some(y) == g.lastUsedAt ==> dates[x] <= dates[y])
  }

  /** The four digests compared stand for the account, factor and codes themselves. */
  lemma AuthorizedMeansUnchanged(before: Current, now: Current, dates: Dates)
    ensures StillAuthorized(before, now, dates) <==> Unchanged(before, now, dates)
  {
    PrincipalIdentifies(before.user, now.user);
    GenerationIdentifies(before.factor, now.factor);
    RecoverySetIdentifies(before.codes, now.codes);
    UsageForwardIs(before.factor, now.factor, dates);
  }

  lemma UsageForwardIs(f: Factor, g: Factor, dates: Dates)
    ensures UsageMovedForward(f, g, dates) <==> UsedNoEarlier(f, g, dates)
  {
    assert f.lastUsedAt in {None, Some([])} <==> f.lastUsedAt.None? || f.lastUsedAt.value == [];
    assert g.lastUsedAt in {None, Some([])} <==> g.lastUsedAt.None? || g.lastUsedAt.value == [];
  }

  /** In every run a receipt that has deleted anything, or been answered, is refused and changes
      neither storage nor journal. */
  lemma UsedReceiptIsRefused(d: Storage, steps: seq<Step>, decision: Decision, t: Times, dates: Dates, o: Outcomes)
    requires SoundStorage(d)
    requires var s := Exec(Fresh(d), steps); s.ready && s.pending.Some? && decision.Consumed?
    requires var s := Exec(Fresh(d), steps); var op := Mac("operation", decision.receiptId);
      (exists x :: x in s.deleted && x.op == op) || (exists r :: r in s.receipts && r.operationId == op)
    ensures var s := Exec(Fresh(d), steps);
      && Apply(s, Decide(decision, t, dates, o)) == s.(pending := None)
      && DecideOp(s, s.pending.value, decision, t, dates, o).1.Refused?
  {
    RunKeepsInv(Fresh(d), steps);
    var s := Exec(Fresh(d), steps);
    var op := Mac("operation", decision.receiptId);
    if x :| x in s.deleted && x.op == op { assert DeletionOk(s, x); }
    if r :| r in s.receipts && r.operationId == op { assert ReceiptOk(s, r); }
    assert At(s.journal, op).seen in At(s.journal, op).onDisk;
  }
}
