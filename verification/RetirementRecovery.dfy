/** A committed retirement, crashed and replayed any number of times, ends where an
    undisturbed one does; and exactly when it can. */
module RetirementRecovery {
  import opened Wrappers
  import opened DurableFile
  import opened Utf16
  import opened RetirementMaterial
  import opened TotpRecords
  import opened Principal
  import opened SessionPolicy
  import opened Retirement
  import opened RetirementSafety

  // --- when apply goes through ---------------------------------------------------------------

  /** No I/O fails and the clock has not fallen behind the commit. */
  predicate Smooth(f: Faults, c: Record)
    requires c.Committed?
  {
    && f.readable && f.sessions.Done? && f.factor.Done? && f.codes.Done? && f.flags.Done?
    && f.verifiable && f.applied.Done? && c.committedAt <= f.appliedAt
  }

  lemma OthersStored(ss: seq<Session>, userId: Text)
    requires Stored(ss)
    ensures Stored(Others(ss, userId)) && Others(Others(ss, userId), userId) == Others(ss, userId)
  {
    FilterUnique(ss, s => !Owns(userId, s));
    FilterAll(Others(ss, userId), s => !Owns(userId, s));
  }

  function ClearedUser(u: User, at: int): User { u.(totpEnabled := false, totpSecretId := None, updatedAt := at) }

  lemma {:induction false} NoClaimants(us: seq<User>, userId: Text, handle: Text)
    requires Claimants(us, userId, handle) == []
    ensures forall u :: u in us ==> !Retirement.Names(u, userId, handle)
    decreases |us|
  {
    if us != [] { NoClaimants(us[1..], userId, handle); }
  }

  lemma {:induction false} NoOneToClear(us: seq<User>, userId: Text, at: int)
    requires forall u :: u in us ==> u.id != userId
    ensures WithFlagsCleared(us, userId, at) == us
    decreases |us|
  {
    if us != [] {
      assert us[0] in us && forall u :: u in us[1..] ==> u in us;
      NoOneToClear(us[1..], userId, at);
    }
  }

  /** Clearing the flags keeps the owner and clears it. */
  lemma {:induction false} ClearedOwner(us: seq<User>, userId: Text, handle: Text, at: int)
    requires Owner(us, userId, handle).Some?
    ensures Owner(WithFlagsCleared(us, userId, at), userId, handle) == Some(ClearedUser(Owner(us, userId, handle).value, at))
    decreases |us|
  {
    if us[0].id == userId {
      assert Claimants(us[1..], userId, handle) == [];
    } else {
      assert Claimants(us, userId, handle) == Claimants(us[1..], userId, handle);
      ClearedOwner(us[1..], userId, handle, at);
    }
  }

  lemma {:induction false} ClearTwice(us: seq<User>, userId: Text, a: int, b: int)
    ensures WithFlagsCleared(WithFlagsCleared(us, userId, a), userId, b) == WithFlagsCleared(us, userId, b)
    decreases |us|
  {
    if us != [] && us[0].id != userId {
      ClearTwice(us[1..], userId, a, b);
      assert WithFlagsCleared(us, userId, a)[1..] == WithFlagsCleared(us[1..], userId, a);
    }
  }

  /** The four stages of a smooth `apply`, whose checks all pass. */
  lemma SmoothStages(s: State, c: Record, f: Faults)
    requires c.Committed? && Smooth(f, c) && Applicable(s.disk, c) && Stored(Sessions(s.disk))
    ensures var s1 := RevokeStage(s, c, f).0; var s2 := FactorStage(s1, c, f).0;
      var s3 := CodesStage(s2, c, f).0; var s4 := FlagsStage(s3, c, f).0;
      && RevokeStage(s, c, f).1 && FactorStage(s1, c, f).1 && CodesStage(s2, c, f).1 && FlagsStage(s3, c, f).1
      && s4.disk.users == SyncedSlot(Some(WithFlagsCleared(Users(s.disk), c.userId, f.clearedAt)))
      && s4.disk.sessions == SyncedSlot(Some(Others(Sessions(s.disk), c.userId)))
      && At(s4.disk.factors, c.handle) == SyncedSlot(None) && At(s4.disk.codes, c.userId) == SyncedSlot(None)
      && Gone(s4.disk, c)
  {
    OthersStored(Sessions(s.disk), c.userId);
    ClearedOwner(Users(s.disk), c.userId, c.handle, f.clearedAt);
    var s1 := RevokeStage(s, c, f).0;
    assert FactorStage(s1, c, f).1;
    var s2 := FactorStage(s1, c, f).0;
    assert CodesFor(s2.disk, c.userId) == CodesFor(s.disk, c.userId);
    assert RecoverySetIs(CodesFor(s2.disk, c.userId), c.recoverySet);
    assert CodesStage(s2, c, f).1;
    var s3 := CodesStage(s2, c, f).0;
    assert FlagsStage(s3, c, f).1;
  }

  /** Without failures, `apply` answers exactly when its first checks pass. */
  lemma AppliesExactlyWhen(s: State, c: Record, f: Faults)
    requires c.Committed? && Smooth(f, c)
    ensures ApplyRecord(s, c, f).1.Some? <==> Applicable(s.disk, c) && Stored(Sessions(s.disk))
  {
    if Applicable(s.disk, c) && Stored(Sessions(s.disk)) { SmoothStages(s, c, f); }
  }

  // --- what a commit must find on disk ---------------------------------------------------------

  /** Every version of every file a crash may leave is one `apply` accepts. */
  ghost predicate OnDiskMatches(d: Storage, c: Record)
    requires c.Committed?
  {
    && (forall v :: v in d.users.onDisk ==> OwnerReady(OrEmpty(v), c))
    && (forall v :: v in d.sessions.onDisk ==> Stored(OrEmpty(v)))
    && (forall v :: v in At(d.factors, c.handle).onDisk ==> FactorMatches(v, c))
    && (forall v :: v in At(d.codes, c.userId).onDisk ==> CodesMatch(v, c))
  }

  ghost predicate RecoverableAfter(d: Storage, left: Leftover, c: Record)
    requires c.Committed?
  {
    Applicable(CrashedStorage(d, left), c) && Stored(Sessions(CrashedStorage(d, left)))
  }

  function Leaving(c: Record, users: Option<seq<User>>, sessions: Option<seq<Session>>, factor: Option<Factor>,
                   codes: Option<BackupCodeSet>): Leftover
    requires c.Committed?
  {
    Leftover(users, sessions, map[c.handle := factor], map[c.userId := codes], map[])
  }

  /** A commit can be replayed after every crash exactly when every version on disk matches it. */
  lemma RecoverableExactlyWhen(d: Storage, c: Record)
    requires c.Committed? && SoundStorage(d)
    ensures (forall left :: RecoverableAfter(d, left, c)) <==> OnDiskMatches(d, c)
  {
    if forall left :: RecoverableAfter(d, left, c) {
      forall v | v in d.users.onDisk ensures OwnerReady(OrEmpty(v), c) {
        assert RecoverableAfter(d, Leaving(c, v, None, None, None), c);
      }
      forall v | v in d.sessions.onDisk ensures Stored(OrEmpty(v)) {
        assert RecoverableAfter(d, Leaving(c, None, v, None, None), c);
      }
      forall v | v in At(d.factors, c.handle).onDisk ensures FactorMatches(v, c) {
        assert RecoverableAfter(d, Leaving(c, None, None, v, None), c);
      }
      forall v | v in At(d.codes, c.userId).onDisk ensures CodesMatch(v, c) {
        assert RecoverableAfter(d, Leaving(c, None, None, None, v), c);
      }
    }
    if OnDiskMatches(d, c) {
      forall left ensures RecoverableAfter(d, left, c) {}
    }
  }

  // --- recovery of one durable commit ------------------------------------------------------------

  lemma {:induction false} AllAppliedRecovers(s: State, names: seq<Mac>, fs: map<Mac, Faults>)
    requires forall k :: k in names ==> At(s.journal, k).seen.Some? && At(s.journal, k).seen.value.Applied?
    ensures RecoverFrom(s, names, fs) == (s, true)
    decreases |names|
  {
    if names != [] {
      assert names[0] in names;
      AllAppliedRecovers(s, names[1..], fs);
    }
  }

  lemma ApplyLeavesNames(s: State, c: Record, f: Faults, k: Mac)
    requires c.Committed? && At(s.journal, k).seen.Some?
    ensures At(ApplyRecord(s, c, f).0.journal, k).seen.Some?
  {}

  /** The loop succeeds or fails with the one commit it finds. */
  lemma {:induction false} RecoversOne(s: State, c: Record, names: seq<Mac>, fs: map<Mac, Faults>)
    requires c.Committed? && Redoing(s, names) && Durable(s.journal, c.operationId, c)
    requires forall k :: k in names ==> At(s.journal, k).seen.Some?
    ensures var (t, r) := ApplyRecord(s, c, FaultsFor(fs, c.operationId));
      RecoverFrom(s, names, fs) == (t, r.Some?)
    decreases |names|
  {
    assert CommittedSeen(s.journal, c.operationId);
    var k := names[0];
    assert k in names;
    if At(s.journal, k).seen.value.Applied? {
      RecoversOne(s, c, names[1..], fs);
    } else {
      SeenIsDurable(s, k);
      assert MayBeCommitted(s.journal, k, At(s.journal, k).seen.value) && MayBeCommitted(s.journal, c.operationId, c);
      var f := FaultsFor(fs, k);
      var (t, r) := ApplyRecord(s, c, f);
      ApplyKeepsInv(s, c, f);
      if r.Some? {
        forall m | m in names[1..] ensures At(t.journal, m).seen.Some? && At(t.journal, m).seen.value.Applied? {
          assert m in names;
          ApplyLeavesNames(s, c, f, m);
          NotSeenEither(t.journal, m);
        }
        AllAppliedRecovers(t, names[1..], fs);
      }
    }
  }

  lemma SyncedToRedo(s: State, names: seq<Mac>)
    requires Inv(s) && Lists(names, s.journal)
    ensures Redoing(s.(journal := SyncAll(s.journal), ready := false), names)
  {
    var v := s.(journal := SyncAll(s.journal), ready := false);
    SyncKeepsInv(s);
    DiskStaysSound(s.journal, Mac("", []), None, NotRenamed, map[]);
    forall k | CommittedSeen(v.journal, k) ensures k in names { assert k in Occupied(s.journal); }
  }

  /** One recovery, from the directory sync on. */
  lemma RecoverRedoes(s: State, c: Record, names: seq<Mac>, fs: map<Mac, Faults>)
    requires Inv(s) && c.Committed? && Durable(s.journal, c.operationId, c) && Lists(names, s.journal)
    ensures var v := s.(journal := SyncAll(s.journal), ready := false);
      && Inv(v) && Durable(v.journal, c.operationId, c)
      && var (t, r) := ApplyRecord(v, c, FaultsFor(fs, c.operationId));
         RecoverOp(s, true, names, fs) == (t.(ready := r.Some?), r.Some?)
  {
    var v := s.(journal := SyncAll(s.journal), ready := false);
    SyncedToRedo(s, names);
    forall k | k in names ensures At(v.journal, k).seen.Some? { assert k in Occupied(s.journal); }
    RecoversOne(v, c, names, fs);
    ReadyIsNotRead(s.(journal := SyncAll(s.journal)), names, fs);
  }

  lemma CrashStaysDurable(s: State, c: Record, left: Leftover)
    requires Inv(s) && c.Committed? && Durable(s.journal, c.operationId, c)
    ensures var t := Apply(s, Crash(left)); Inv(t) && Durable(t.journal, c.operationId, c)
  {
    CrashKeepsInv(s, left);
  }

  lemma RecoversAfter(s: State, c: Record, left: Leftover, names: seq<Mac>, fs: map<Mac, Faults>)
    requires Inv(s) && c.Committed? && Durable(s.journal, c.operationId, c) && Smooth(FaultsFor(fs, c.operationId), c)
    requires Lists(names, Apply(s, Crash(left)).journal)
    ensures RecoverOp(Apply(s, Crash(left)), true, names, fs).1 <==> RecoverableAfter(s.disk, left, c)
  {
    var t := Apply(s, Crash(left));
    CrashStaysDurable(s, c, left);
    RecoverRedoes(t, c, names, fs);
    AppliesExactlyWhen(t.(journal := SyncAll(t.journal), ready := false), c, FaultsFor(fs, c.operationId));
  }

  lemma {:induction false} ListOf(ks: set<Mac>) returns (names: seq<Mac>)
    ensures forall a, b :: 0 <= a < b < |names| ==> names[a] != names[b]
    ensures forall k :: k in names <==> k in ks
  {
    if ks == {} {
      names := [];
    } else {
      var k :| k in ks;
      var rest := ListOf(ks - {k});
      names := [k] + rest;
    }
  }

  /** Once a retirement is committed for good, a recovery without failures succeeds after every
      crash exactly when every version of every file a crash may leave is one the commit accepts. */
  lemma RecoversExactlyWhen(s: State, c: Record, fs: map<Mac, Faults>)
    requires Inv(s) && c.Committed? && Durable(s.journal, c.operationId, c) && Smooth(FaultsFor(fs, c.operationId), c)
    ensures (forall left, names :: Lists(names, Apply(s, Crash(left)).journal) ==>
                RecoverOp(Apply(s, Crash(left)), true, names, fs).1)
            <==> OnDiskMatches(s.disk, c)
  {
    RecoverableExactlyWhen(s.disk, c);
    if OnDiskMatches(s.disk, c) {
      forall left, names | Lists(names, Apply(s, Crash(left)).journal)
        ensures RecoverOp(Apply(s, Crash(left)), true, names, fs).1
      {
        RecoversAfter(s, c, left, names, fs);
      }
    } else {
      var left :| !RecoverableAfter(s.disk, left, c);
      var names := ListOf(Occupied(Apply(s, Crash(left)).journal));
      assert (set k | k in names) == Occupied(Apply(s, Crash(left)).journal);
      RecoversAfter(s, c, left, names, fs);
    }
  }

  // --- a run that never recovers ----------------------------------------------------------------------

  /** Storage as a use of the factor may leave it, its new counter visible but not yet synced
      over the older one, and a retirement that will pass every check. */
  ghost predicate Interruptible(next: Storage, b: Binding, now: Clock, decision: Decision, t: Times, older: Factor)
  {
    && SoundStorage(next) && Some(older) in At(next.factors, b.handle).onDisk && FactorOf(next, b.handle) != Some(older)
    && CurrentOf(next, b, now).Ok? && CurrentOf(next, b, t.current).Ok?
    && decision.Consumed? && decision.actorId == decision.resourceId == b.userId
    && t.expiry < CurrentOf(next, b, t.current).value.session.expires.value
  }

  /** The retirement commits, `apply` stops before its first effect, and the crash brings the
      older counter back. */
  function InterruptedRun(next: Storage, b: Binding, now: Clock, decision: Decision, t: Times, older: Factor): seq<Step>
  {
    [Recover(true, [], map[]), Live(next), Begin(b, now), Decide(decision, t, map[], Unread),
     Crash(Leftover(next.users.seen, next.sessions.seen, map[b.handle := Some(older)], map[], map[]))]
  }

  const Unread := Outcomes(Done, SMOOTH.(readable := false))

  lemma ExecStep(s: State, step: Step, rest: seq<Step>)
    ensures Exec(s, [step] + rest) == Exec(Apply(s, step), rest)
  {
    assert ([step] + rest)[1..] == rest;
  }

  /** A committed retirement over a factor it does not accept, which no crash can change. */
  ghost predicate Stuck(s: State, c: Record)
  {
    && Inv(s) && !s.ready && c.Committed? && Durable(s.journal, c.operationId, c)
    && At(s.disk.factors, c.handle) == SyncedSlot(FactorOf(s.disk, c.handle)) && !FactorMatches(FactorOf(s.disk, c.handle), c)
  }

  lemma StepStaysStuck(s: State, c: Record, step: Step)
    requires Stuck(s, c)
    ensures Stuck(Apply(s, step), c)
  {
    StepKeepsInv(s, step);
    if Enabled(s, step) {
      match step
      case Recover(prepared, names, fs) => if prepared { RecoverRedoes(s, c, names, fs); }
      case Crash(left) => CrashStaysDurable(s, c, left);
      case _ =>
    }
  }

  lemma {:induction false} StaysStuck(s: State, c: Record, steps: seq<Step>)
    requires Stuck(s, c)
    ensures Stuck(Exec(s, steps), c)
    decreases |steps|
  {
    if steps != [] {
      StepStaysStuck(s, c, steps[0]);
      StaysStuck(Apply(s, steps[0]), c, steps[1..]);
    }
  }

  lemma OpensEmpty(d: Storage)
    ensures Apply(Fresh(d), Recover(true, [], map[])) == Fresh(d).(ready := true)
  {
    assert Lists([], Fresh(d).journal);
  }

  lemma DecidesUnread(s: State, b: Binding, before: Current, decision: Decision, t: Times)
    requires s.ready && s.journal == map[] && s.pending == Some(Pending(b, before))
    requires CurrentOf(s.disk, b, t.current) == Ok(before) && decision.Consumed?
    requires decision.actorId == decision.resourceId == b.userId && t.expiry < before.session.expires.value
    ensures var c := CommitRecord(b, decision, before, t.committed); var u := Apply(s, Decide(decision, t, map[], Unread));
      u.disk == s.disk && !u.ready && Durable(u.journal, c.operationId, c)
  {
    assert StillAuthorized(before, before, map[]);
    assert Occupied(s.journal) == {};
  }

  /** A usage counter whose write was never acknowledged defeats recovery for good: after the
      crash that undoes it the commit stays, and no sequence of recoveries and crashes, whatever
      else goes well, makes the coordinator ready again. */
  lemma UnacknowledgedUseBlocksRecovery(d: Storage, next: Storage, b: Binding, now: Clock, decision: Decision, t: Times,
                                        older: Factor, more: seq<Step>)
    requires SoundStorage(d) && Interruptible(next, b, now, decision, t, older)
    ensures var s := Exec(Exec(Fresh(d), InterruptedRun(next, b, now, decision, t, older)), more);
      !s.ready && CommittedSeen(s.journal, Mac("operation", decision.receiptId))
  {
    var before := CurrentOf(next, b, now).value;
    var c := CommitRecord(b, decision, before, t.committed);
    var run := InterruptedRun(next, b, now, decision, t, older);
    assert run == [run[0]] + ([run[1]] + ([run[2]] + ([run[3]] + ([run[4]] + []))));
    var s0 := Fresh(d);
    OpensEmpty(d);
    ExecStep(s0, run[0], [run[1]] + ([run[2]] + ([run[3]] + ([run[4]] + []))));
    var s1 := Apply(s0, run[0]);
    ExecStep(s1, run[1], [run[2]] + ([run[3]] + ([run[4]] + [])));
    var s2 := Apply(s1, run[1]);
    ExecStep(s2, run[2], [run[3]] + ([run[4]] + []));
    var s3 := Apply(s2, run[2]);
    assert s3 == s2.(pending := Some(Pending(b, before)));
    DecidesUnread(s3, b, before, decision, t);
    ExecStep(s3, run[3], [run[4]] + []);
    var s4 := Apply(s3, run[3]);
    ExecStep(s4, run[4], []);
    RunKeepsInv(s0, run);
    CrashedIsStuck(s4, c, before.factor, older, run[4].left);
    StaysStuck(Exec(s0, run), c, more);
  }

  lemma CrashedIsStuck(s: State, c: Record, factor: Factor, older: Factor, left: Leftover)
    requires c.Committed? && Durable(s.journal, c.operationId, c) && !s.ready
    requires c.factorSnapshot == FactorSnapshot(factor) && factor != older && Some(older) in At(s.disk.factors, c.handle).onDisk
    requires c.handle in left.factors && left.factors[c.handle] == Some(older)
    requires Inv(Apply(s, Crash(left)))
    ensures Stuck(Apply(s, Crash(left)), c)
  {
    SnapshotIdentifies(factor, older);
    assert c.handle in s.disk.factors;
  }

  /** Such storage exists: one administrator, one session, and a counter moved from 0 to 1. */
  lemma InterruptibleExists() returns (next: Storage, b: Binding, now: Clock, decision: Decision, t: Times, older: Factor)
    ensures Interruptible(next, b, now, decision, t, older)
    ensures FactorOf(next, b.handle) == Some(older.(lastUsedTotpStep := Some(1))) && older.lastUsedTotpStep == Some(0)
  {
    var id, handle := [0x61], [0x62];
    var user := User(id, handle, [], None, None, None, Ascii("admin"), None, true, None, false, None, None, None,
                     true, Some(handle), 0, []);
    var session := Session([0x63], id, Some(0), Some(9), None, []);
    older := Factor(id, handle, [], [], [], [], [], false, 1, None, Some(0));
    var used := older.(lastUsedTotpStep := Some(1));
    next := Storage(SyncedSlot(Some([user])), SyncedSlot(Some([session])),
                    map[handle := Slot(Some(used), {Some(used), Some(older)})], map[]);
    b, now := Binding(id, handle, session.id), Clock(1, 1);
    decision, t := Consumed([0x64], id, id, []), Times(now, 1, 1);
    assert [user][1..] == [] && Claimants([user], id, handle) == [user];
    assert Stored([session]) && SessionNamed([session], session.id) == Some(session);
  }

  // --- replay ------------------------------------------------------------------------------------

  ghost predicate SyncedStorage(d: Storage)
  {
    && d.users == SyncedSlot(d.users.seen) && d.sessions == SyncedSlot(d.sessions.seen)
    && Synced(d.factors) && Synced(d.codes)
  }

  /** `v` is the account file as committed, or with the flags cleared at some time. */
  ghost predicate FlagVersion(v: Option<seq<User>>, was: Option<seq<User>>, userId: Text)
  {
    v == was || exists at :: v == Some(WithFlagsCleared(OrEmpty(was), userId, at))
  }

  ghost predicate OthersUntouched<K(!new), V>(dir: Directory<K, V>, was: Directory<K, V>, k: K)
  {
    forall h :: h != k ==> At(dir, h) == SyncedSlot(At(was, h).seen)
  }

  /** Each file is as it was at the commit or as the retirement leaves it; all others are as they were. */
  ghost predicate Between(was: Storage, d: Storage, c: Record)
    requires c.Committed?
  {
    && SoundStorage(d)
    && (forall v :: v in d.users.onDisk ==> FlagVersion(v, was.users.seen, c.userId))
    && (forall v :: v in d.sessions.onDisk ==> v == was.sessions.seen || v == Some(Others(Sessions(was), c.userId)))
    && At(d.factors, c.handle).onDisk <= {FactorOf(was, c.handle), None}
    && At(d.codes, c.userId).onDisk <= {CodesFor(was, c.userId), None}
    && OthersUntouched(d.factors, was.factors, c.handle) && OthersUntouched(d.codes, was.codes, c.userId)
  }

  /** The retired state: no factor, no codes, no sessions, cleared flags, nothing else changed,
      and nothing of it for a crash to undo. */
  ghost predicate Finished(was: Storage, d: Storage, c: Record)
    requires c.Committed?
  {
    && RetiredForGood(d, c) && Between(was, d, c)
    && d.sessions == SyncedSlot(Some(Others(Sessions(was), c.userId)))
    && exists at :: d.users.seen == Some(WithFlagsCleared(Users(was), c.userId, at))
  }

  ghost predicate Startable(was: Storage, c: Record)
    requires c.Committed?
  {
    Applicable(was, c) && Stored(Sessions(was))
  }

  lemma BetweenIsApplicable(was: Storage, d: Storage, c: Record)
    requires c.Committed? && Startable(was, c) && Between(was, d, c)
    ensures Applicable(d, c) && Stored(Sessions(d))
  {
    OthersStored(Sessions(was), c.userId);
    assert FactorOf(d, c.handle) in At(d.factors, c.handle).onDisk;
    assert CodesFor(d, c.userId) in At(d.codes, c.userId).onDisk;
    if d.users.seen != was.users.seen {
      var at :| d.users.seen == Some(WithFlagsCleared(Users(was), c.userId, at));
      ClearedOwner(Users(was), c.userId, c.handle, at);
    }
  }

  lemma RevokeStageBetween(was: Storage, s: State, c: Record, f: Faults)
    requires c.Committed? && Startable(was, c) && Between(was, s.disk, c)
    ensures Between(was, RevokeStage(s, c, f).0.disk, c)
    ensures RevokeStage(s, c, f).1 ==> RevokeStage(s, c, f).0.disk.sessions == SyncedSlot(Some(Others(Sessions(was), c.userId)))
  {
    OthersStored(Sessions(was), c.userId);
    assert s.disk.sessions.seen in s.disk.sessions.onDisk;
  }

  lemma FactorStageBetween(was: Storage, s: State, c: Record, f: Faults)
    requires c.Committed? && Between(was, s.disk, c)
    ensures Between(was, FactorStage(s, c, f).0.disk, c)
  {
    var matches := SnapshotIs(FactorOf(s.disk, c.handle), c.factorSnapshot);
    DeleteExpectedKeeps(s.disk.factors, c.handle, matches, f.factor);
  }

  lemma CodesStageBetween(was: Storage, s: State, c: Record, f: Faults)
    requires c.Committed? && Between(was, s.disk, c)
    ensures Between(was, CodesStage(s, c, f).0.disk, c)
  {
    var matches := RecoverySetIs(CodesFor(s.disk, c.userId), c.recoverySet);
    DeleteExpectedKeeps(s.disk.codes, c.userId, matches, f.codes);
  }

  lemma FlagsStageBetween(was: Storage, s: State, c: Record, f: Faults)
    requires c.Committed? && Between(was, s.disk, c)
    ensures Between(was, FlagsStage(s, c, f).0.disk, c)
    ensures FlagsStage(s, c, f).1 ==>
              FlagsStage(s, c, f).0.disk.users.seen == Some(WithFlagsCleared(Users(was), c.userId, f.clearedAt))
  {
    assert s.disk.users.seen in s.disk.users.onDisk;
    if s.disk.users.seen != was.users.seen {
      var at :| s.disk.users.seen == Some(WithFlagsCleared(Users(was), c.userId, at));
      ClearTwice(Users(was), c.userId, at, f.clearedAt);
    }
  }

  /** Where a replay stands: the commit at its key, and no other. */
  ghost predicate Replaying(was: Storage, s: State, c: Record)
  {
    && c.Committed? && Startable(was, c) && Between(was, s.disk, c)
    && Inv(s) && !s.ready && Durable(s.journal, c.operationId, c)
  }

  lemma ReceiptStageBetween(was: Storage, s: State, c: Record, f: Faults)
    requires c.Committed? && Between(was, s.disk, c) && SessionsGone(s.disk, c.userId)
    requires At(s.disk.factors, c.handle) == SyncedSlot(None) && At(s.disk.codes, c.userId) == SyncedSlot(None)
    requires s.disk.users == SyncedSlot(Some(WithFlagsCleared(Users(was), c.userId, f.clearedAt)))
    requires s.disk.sessions == SyncedSlot(Some(Others(Sessions(was), c.userId)))
    ensures var t := ReceiptStage(s, c, f).0;
      && t.disk == s.disk
      && (t.journal == s.journal ||
          (t.journal == Publish(s.journal, c.operationId, Some(Applied(c.authorization, ReceiptOf(c, f.appliedAt))), f.applied)
           && Finished(was, t.disk, c)))
  {}

  lemma ApplyBetween(was: Storage, s: State, c: Record, f: Faults)
    requires Replaying(was, s, c)
    ensures var (t, r) := ApplyRecord(s, c, f);
      && Between(was, t.disk, c)
      && (t.journal != s.journal ==> Finished(was, t.disk, c))
      && (t.journal == s.journal || t.journal == Publish(s.journal, c.operationId, Some(Applied(c.authorization, ReceiptOf(c, f.appliedAt))), f.applied))
  {
    if f.readable && Applicable(s.disk, c) {
      var (s1, ok1) := RevokeStage(s, c, f);
      RevokeStageKeeps(s, c, f);
      RevokeStageBetween(was, s, c, f);
      if ok1 {
        var (s2, ok2) := FactorStage(s1, c, f);
        FactorStageKeeps(s1, c, f);
        FactorStageBetween(was, s1, c, f);
        if ok2 {
          var (s3, ok3) := CodesStage(s2, c, f);
          CodesStageKeeps(s2, c, f);
          CodesStageBetween(was, s2, c, f);
          if ok3 {
            var (s4, ok4) := FlagsStage(s3, c, f);
            FlagsStageKeeps(s3, c, f);
            FlagsStageBetween(was, s3, c, f);
            if ok4 { ReceiptStageBetween(was, s4, c, f); }
          }
        }
      }
    }
  }

  // --- runs of crashes and recoveries ----------------------------------------------------------------

  ghost predicate IsReceiptFor(r: Record, c: Record)
  {
    c.Committed? && r.Applied? && r == Applied(c.authorization, ReceiptOf(c, r.receipt.appliedAt))
  }

  /** Between the commit and the end of its replays. */
  ghost predicate Underway(was: Storage, s: State, c: Record)
  {
    && c.Committed? && Startable(was, c) && Inv(s) && Between(was, s.disk, c)
    && (forall k, e :: MayBeCommitted(s.journal, k, e) ==> k == c.operationId && e == c)
    && None !in At(s.journal, c.operationId).onDisk
    && (forall r :: MayHold(s.journal, c.operationId, r) ==>
          r == c || (IsReceiptFor(r, c) && Finished(was, s.disk, c)))
  }

  predicate Replay(step: Step) { step.Recover? || step.Crash? }

  lemma CrashBetween(was: Storage, d: Storage, c: Record, left: Leftover)
    requires c.Committed? && Between(was, d, c)
    ensures Between(was, CrashedStorage(d, left), c)
  {}

  lemma CrashFinished(was: Storage, d: Storage, c: Record, left: Leftover)
    requires c.Committed? && Finished(was, d, c)
    ensures Finished(was, CrashedStorage(d, left), c)
  {
    var e := CrashedStorage(d, left);
    CrashBetween(was, d, c, left);
    assert e.users == d.users && e.sessions == d.sessions;
    assert FactorOf(e, c.handle).None? && CodesFor(e, c.userId).None?;
  }

  lemma CrashedJournal(s: State, left: Leftover)
    requires Sound(s.journal)
    ensures var t := Apply(s, Crash(left));
      && (forall k, r :: MayHold(t.journal, k, r) ==> MayHold(s.journal, k, r))
      && (forall k :: None !in At(s.journal, k).onDisk ==> None !in At(t.journal, k).onDisk)
  {}

  lemma CrashStaysUnderway(was: Storage, s: State, c: Record, left: Leftover)
    requires Underway(was, s, c)
    ensures Underway(was, Apply(s, Crash(left)), c)
  {
    var t := Apply(s, Crash(left));
    var op := c.operationId;
    CrashKeepsInv(s, left);
    CrashBetween(was, s.disk, c, left);
    CrashedJournal(s, left);
    forall k, e | MayBeCommitted(t.journal, k, e) ensures k == op && e == c {
      assert MayBeCommitted(s.journal, k, e);
    }
    forall r | MayHold(t.journal, op, r) ensures r == c || (IsReceiptFor(r, c) && Finished(was, t.disk, c)) {
      if r != c { CrashFinished(was, s.disk, c, left); }
    }
  }

  lemma UnderwayToRedo(was: Storage, s: State, c: Record, k: Mac)
    requires Underway(was, s, c) && Synced(s.journal) && !s.ready && CommittedSeen(s.journal, k)
    ensures k == c.operationId && Replaying(was, s, c)
  {
    SeenIsDurable(s, k);
    assert MayBeCommitted(s.journal, k, At(s.journal, k).seen.value);
  }

  lemma ApplyStaysUnderway(was: Storage, s: State, c: Record, f: Faults)
    requires Underway(was, s, c) && Replaying(was, s, c)
    ensures Underway(was, ApplyRecord(s, c, f).0, c)
  {
    var (t, r) := ApplyRecord(s, c, f);
    ApplyKeepsInv(s, c, f);
    ApplyBetween(was, s, c, f);
    if t.journal != s.journal { ReceiptStaysUnderway(was, s, t, c, f); }
    else {
      forall k, e | MayBeCommitted(t.journal, k, e) ensures k == c.operationId && e == c {
        assert MayBeCommitted(s.journal, k, e);
      }
    }
  }

  lemma ReceiptStaysUnderway(was: Storage, s: State, t: State, c: Record, f: Faults)
    requires Underway(was, s, c) && Durable(s.journal, c.operationId, c) && Inv(t) && Finished(was, t.disk, c)
    requires t.journal == Publish(s.journal, c.operationId, Some(Applied(c.authorization, ReceiptOf(c, f.appliedAt))), f.applied)
    ensures Underway(was, t, c)
  {
    var op := c.operationId;
    var a := Applied(c.authorization, ReceiptOf(c, f.appliedAt));
    forall k, e | MayHold(t.journal, k, e) ensures MayHold(s.journal, k, e) || (k == op && e == a) {
      PublishHolds(s.journal, op, a, f.applied, k, e);
    }
    forall k, e | MayBeCommitted(t.journal, k, e) ensures k == op && e == c {
      assert MayBeCommitted(s.journal, k, e);
    }
  }

  lemma {:induction false} RecoverFromStaysUnderway(was: Storage, s: State, c: Record, names: seq<Mac>, fs: map<Mac, Faults>)
    requires Underway(was, s, c) && Redoing(s, names)
    ensures Underway(was, RecoverFrom(s, names, fs).0, c)
    decreases |names|
  {
    if names != [] && At(s.journal, names[0]).seen.Some? {
      var k := names[0];
      var r := At(s.journal, k).seen.value;
      if r.Applied? {
        RecoverFromStaysUnderway(was, s, c, names[1..], fs);
      } else {
        UnderwayToRedo(was, s, c, k);
        ApplyStaysUnderway(was, s, c, FaultsFor(fs, k));
        ApplyKeepsInv(s, c, FaultsFor(fs, k));
        var (t, receipt) := ApplyRecord(s, c, FaultsFor(fs, k));
        if receipt.Some? {
          forall m ensures !CommittedSeen(t.journal, m) { NotSeenEither(t.journal, m); }
          RecoverFromStaysUnderway(was, t, c, names[1..], fs);
        }
      }
    }
  }

  lemma SyncStaysUnderway(was: Storage, s: State, c: Record)
    requires Underway(was, s, c)
    ensures Underway(was, s.(journal := SyncAll(s.journal), ready := false), c)
  {
    var t := s.(journal := SyncAll(s.journal), ready := false);
    SyncKeepsInv(s);
    forall k, e | MayHold(t.journal, k, e) ensures MayHold(s.journal, k, e) { SyncHolds(s.journal, k, e); }
    forall k, e | MayBeCommitted(t.journal, k, e) ensures k == c.operationId && e == c { assert MayBeCommitted(s.journal, k, e); }
  }

  lemma RecoverStaysUnderway(was: Storage, s: State, c: Record, prepared: bool, names: seq<Mac>, fs: map<Mac, Faults>)
    requires Underway(was, s, c) && Lists(names, s.journal)
    ensures Underway(was, RecoverOp(s, prepared, names, fs).0, c)
  {
    RecoverKeepsInv(s, prepared, names, fs);
    if prepared {
      var v := s.(journal := SyncAll(s.journal), ready := false);
      SyncStaysUnderway(was, s, c);
      SyncedToRedo(s, names);
      RecoverFromStaysUnderway(was, v, c, names, fs);
      ReadyIsNotRead(s.(journal := SyncAll(s.journal)), names, fs);
      assert RecoverOp(s, prepared, names, fs).0.journal == RecoverFrom(v, names, fs).0.journal;
      assert RecoverOp(s, prepared, names, fs).0.disk == RecoverFrom(v, names, fs).0.disk;
    }
  }

  lemma {:induction false} ReplaysStayUnderway(was: Storage, s: State, c: Record, steps: seq<Step>)
    requires Underway(was, s, c) && forall i :: 0 <= i < |steps| ==> Replay(steps[i])
    ensures Underway(was, Exec(s, steps), c)
    decreases |steps|
  {
    if steps != [] {
      assert Replay(steps[0]);
      if Enabled(s, steps[0]) {
        match steps[0]
        case Recover(prepared, names, fs) => RecoverStaysUnderway(was, s, c, prepared, names, fs);
        case Crash(left) => CrashStaysUnderway(was, s, c, left);
      }
      ReplaysStayUnderway(was, Apply(s, steps[0]), c, steps[1..]);
    }
  }

  lemma {:induction false} SmoothRecoveryFinishes(was: Storage, s: State, c: Record, names: seq<Mac>, fs: map<Mac, Faults>)
    requires Underway(was, s, c) && Redoing(s, names) && Smooth(FaultsFor(fs, c.operationId), c)
    requires forall k :: k in names ==> At(s.journal, k).seen.Some?
    ensures RecoverFrom(s, names, fs).1 && Finished(was, RecoverFrom(s, names, fs).0.disk, c)
    decreases |names|
  {
    if names == [] {
      var op := c.operationId;
      assert !CommittedSeen(s.journal, op);
      assert At(s.journal, op).seen in At(s.journal, op).onDisk;
      assert MayHold(s.journal, op, At(s.journal, op).seen.value);
    } else {
      var k := names[0];
      assert k in names;
      var r := At(s.journal, k).seen.value;
      if r.Applied? {
        SmoothRecoveryFinishes(was, s, c, names[1..], fs);
      } else {
        var f := FaultsFor(fs, k);
        UnderwayToRedo(was, s, c, k);
        ApplyStaysUnderway(was, s, c, f);
        ApplyKeepsInv(s, c, f);
        BetweenIsApplicable(was, s.disk, c);
        AppliesExactlyWhen(s, c, f);
        var t := ApplyRecord(s, c, f).0;
        forall m ensures !CommittedSeen(t.journal, m) { NotSeenEither(t.journal, m); }
        forall m | m in names[1..] ensures At(t.journal, m).seen.Some? {
          assert At(s.journal, m).seen.Some?;
          ApplyBetween(was, s, c, f);
        }
        SmoothRecoveryFinishes(was, t, c, names[1..], fs);
      }
    }
  }

  /** From a commit over acknowledged storage, after any crashes and failed recoveries, one
      recovery without failures reaches the retired state. */
  lemma RecoveryConverges(was: Storage, s: State, c: Record, steps: seq<Step>, names: seq<Mac>, fs: map<Mac, Faults>)
    requires c.Committed? && Inv(s) && s.disk == was && SyncedStorage(was) && Startable(was, c)
    requires Durable(s.journal, c.operationId, c)
    requires forall i :: 0 <= i < |steps| ==> Replay(steps[i])
    requires Lists(names, Exec(s, steps).journal) && Smooth(FaultsFor(fs, c.operationId), c)
    ensures RecoverOp(Exec(s, steps), true, names, fs).1
    ensures Finished(was, RecoverOp(Exec(s, steps), true, names, fs).0.disk, c)
  {
    assert MayBeCommitted(s.journal, c.operationId, c);
    assert Underway(was, s, c);
    ReplaysStayUnderway(was, s, c, steps);
    var t := Exec(s, steps);
    var v := t.(journal := SyncAll(t.journal), ready := false);
    SyncStaysUnderway(was, t, c);
    SyncedToRedo(t, names);
    forall k | k in names ensures At(v.journal, k).seen.Some? { assert k in Occupied(t.journal); }
    SmoothRecoveryFinishes(was, v, c, names, fs);
    ReadyIsNotRead(t.(journal := SyncAll(t.journal)), names, fs);
  }
}
