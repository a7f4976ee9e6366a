/** What lets a bootstrap begin and complete, and what its completion carries, said of the stored
    record, the installation, the clocks and the proof. */
module BootstrapEntry {
  import opened Wrappers
  import opened DurableFile
  import opened Utf16
  import opened TotpRecords
  import opened Bootstrap
  import opened BootstrapSafety
  import T = TotpReplay
  import R = BootstrapRecovery

  // --- what a completion carries -----------------------------------------------------------------

  /** Owner, secret, step, times and codes as proven, everything else as reserved. */
  ghost predicate Carries(c: Completion, p: Pending, v: Proof)
  {
    && c.attemptId == p.attemptId && c.completedAt == v.completedAt && c.profile == p.profile
    && c.user.id == p.userId && c.user.handle == p.handle && c.user.passwordHash == p.passwordHash
    && c.user.role == Ascii("super_admin") && c.user.isActive && c.user.totpEnabled && c.user.totpSecretId == Some(p.handle)
    && !c.user.needsOnboarding && c.user.onboardingStep == 0 && c.user.createdAt == v.completedAt
    && c.user.isLocked == None && c.user.firstLogin == None && !c.user.removed
    && c.factor.userId == p.userId && c.factor.handle == p.handle && c.factor.createdAt == v.completedAt
    && c.factor.encryptedSecret == v.cipher.encrypted && c.factor.iv == v.cipher.iv
    && c.factor.authTag == v.cipher.tag && c.factor.salt == v.cipher.salt
    && c.factor.lastUsedTotpStep == Some(v.step) && c.factor.lastUsedAt == Some(v.completedAt)
    && c.factor.backupCodesGenerated && c.factor.version == 1
    && c.codes.userId == p.userId && c.codes.generatedAt == v.completedAt && c.codes.lastUsedAt == None
    && |c.codes.codes| == |p.backupCodes| == |v.codeIds|
    && forall i :: 0 <= i < |v.codeIds| ==>
         && c.codes.codes[i].id == v.codeIds[i] && c.codes.codes[i].hash == CodeHash(p.backupCodes[i])
         && !c.codes.codes[i].used && c.codes.codes[i].usedAt == None
  }

  lemma MaterialCarries(p: Pending, v: Proof)
    requires |p.backupCodes| == |v.codeIds|
    ensures Carries(Material(p, v), p, v)
  {}

  /** This step completed the attempt that readers then saw, with a proof that was verified. */
  ghost predicate Proves(s: State, step: Step, c: Completion)
  {
    && step.Complete? && step.proof.verified
    && exists p :: && s.journal.seen == Some(Reserved(p)) && p.acknowledged
                   && p.referenceDigest == ReferenceDigest(step.reference) && Carries(c, p, step.proof)
  }

  ghost predicate Held(s: State, c: Completion)
  {
    c in s.projected || exists r :: r in s.journal.onDisk && Settled(r, c)
  }

  lemma ApplyHoldsNothingNew(s: State, r: Record, f: Faults, c: Completion)
    requires Inv(s) && r.Committed? && s.journal == SyncedSlot(Some(r)) && Held(ApplyOp(s, r, f).0, c)
    ensures Held(s, c)
  {
    assert RecordFaithful(s, r);
    assert Settled(Some(r), r.completion);
    var t := ApplyOp(s, r, f).0;
    var a := Some(Applied(r.referenceDigest, r.receipt));
    assert t.projected <= s.projected + {r.completion};
    assert t.journal == s.journal || t.journal == PublishSlot(s.journal, a, f.applied);
    assert Settled(a, c) ==> Settled(Some(r), c);
  }

  lemma RecoverHoldsNothingNew(s: State, f: Faults, c: Completion)
    requires Inv(s) && Held(RecoverOp(s, f).0, c)
    ensures Held(s, c)
  {
    if s.journal.seen.Some? && f.synced {
      var t := s.(journal := SyncedSlot(s.journal.seen));
      assert Held(t, c) ==> Held(s, c);
      SyncKeepsInv(s);
      if s.journal.seen.value.Committed? { ApplyHoldsNothingNew(t, s.journal.seen.value, f, c); }
    }
  }

  lemma SyncKeepsInv(s: State)
    requires Inv(s)
    ensures Inv(s.(journal := SyncedSlot(s.journal.seen)))
  {
    var t := s.(journal := SyncedSlot(s.journal.seen));
    forall r | Some(r) in t.journal.onDisk ensures RecordFaithful(t, r) { assert RecordFaithful(s, r); }
    forall c | c in t.projected ensures SettledForGood(t, c) { assert SettledForGood(s, c); }
  }

  lemma PublishHoldsNothingNew(s: State, p: Pending, w: Publication, c: Completion)
    requires Held(PublishPending(s, p, w).0, c)
    ensures Held(s, c)
  {
    assert !Settled(Some(Reserved(p)), c);
  }

  /** A reserved record survives recovery unseen to change. */
  lemma RecoverKeepsReserved(s: State, f: Faults, p: Pending)
    requires Inv(s) && RecoverOp(s, f).1
    ensures RecoverOp(s, f).0.journal.seen == Some(Reserved(p)) ==> s.journal.seen == Some(Reserved(p))
  {
    if s.journal.seen.Some? && f.synced && s.journal.seen.value.Committed? {
      var t := s.(journal := SyncedSlot(s.journal.seen));
      var u := ApplyOp(t, s.journal.seen.value, f).0;
      assert u.journal == t.journal || !u.journal.seen.value.Reserved?;
    }
  }

  lemma CompleteHolds(s: State, step: Step, c: Completion)
    requires Inv(s) && step.Complete? && Held(Apply(s, step).0, c) && !Held(s, c)
    ensures Proves(s, step, c)
  {
    var f, v := step.faults, step.proof;
    var (t, ok) := RecoverOp(s, f);
    RecoverKeepsInv(s, f);
    if Held(t, c) { RecoverHoldsNothingNew(s, f, c); }
    var p := PendingFor(t, step.reference, step.readings);
    assert ok && p.Ok?;
    RecoverKeepsReserved(s, f, p.value);
    var r := CommitFor(p.value, v);
    MaterialCarries(p.value, v);
    var (u, failed) := Write(t, r, step.checks.outcome);
    assert Held(u, c) ==> c == r.completion;
    if failed.None? {
      CompleteWritesInv(t, p.value, v);
      if !Held(u, c) { ApplyHoldsNothingNew(u, r, f, c); }
    }
  }

  lemma CompleteWritesInv(t: State, p: Pending, v: Proof)
    requires Inv(t) && t.journal.seen == Some(Reserved(p)) && p.acknowledged && |p.backupCodes| == |v.codeIds|
    requires RecordOk(CommitFor(p, v))
    ensures Inv(Write(t, CommitFor(p, v), Done).0)
  {
    assert RecordFaithful(t, Reserved(p));
    MaterialCarries(p, v);
  }

  lemma BeginHolds(s: State, step: Step, c: Completion)
    requires step.Begin? && Held(Apply(s, step).0, c)
    ensures Held(RecoverOp(s, step.faults).0, c)
  {
    var t := RecoverOp(s, step.faults).0;
    var p := Attempt(t.next, step.request, step.generated, step.at, step.ttl);
    if Held(PublishPending(Started(t, p), p, step.w).0, c) { PublishHoldsNothingNew(Started(t, p), p, step.w, c); }
  }

  lemma ResumedHolds(s: State, step: Step, c: Completion)
    requires (step.UpdateProfile? || step.Acknowledge?) && Held(Apply(s, step).0, c)
    ensures Held(RecoverOp(s, step.faults).0, c)
  {
    var (t, found) := Resume(s, step.reference, step.faults, step.readings);
    if found.Ok? {
      var p := found.value;
      var noted := t.(acknowledgments := t.acknowledgments + {Acknowledgment(p.attemptId, step.reference)});
      var q := if step.UpdateProfile? then p.(profile := Some(step.profile)) else p.(acknowledged := true);
      var from := if step.UpdateProfile? then t else noted;
      if Held(PublishPending(from, q, step.w).0, c) { PublishHoldsNothingNew(from, q, step.w, c); }
    }
  }

  lemma StepHolds(s: State, step: Step, c: Completion)
    requires Inv(s) && Held(Apply(s, step).0, c) && !Held(s, c)
    ensures Proves(s, step, c)
  {
    if step.Complete? { CompleteHolds(s, step, c); }
    else if !step.Outside? && !step.Crash? {
      if step.Begin? { BeginHolds(s, step, c); }
      if step.UpdateProfile? || step.Acknowledge? { ResumedHolds(s, step, c); }
      RecoverHoldsNothingNew(s, step.faults, c);
    }
  }

  lemma {:induction false} ExecLast(s: State, steps: seq<Step>)
    requires steps != []
    ensures var n := |steps| - 1; Exec(s, steps) == Apply(Exec(s, steps[..n]), steps[n]).0
    decreases |steps|
  {
    var n := |steps| - 1;
    if n == 0 {
      assert steps[1..] == [] && steps[..0] == [];
    } else {
      ExecLast(Apply(s, steps[0]).0, steps[1..]);
      assert steps[1..][..n - 1] == steps[..n][1..];
    }
  }

  lemma {:induction false} RunHolds(s: State, steps: seq<Step>, c: Completion)
    requires Inv(s) && !Held(s, c) && Held(Exec(s, steps), c)
    ensures exists k :: 0 <= k < |steps| && Proves(Exec(s, steps[..k]), steps[k], c)
    decreases |steps|
  {
    var n := |steps| - 1;
    var front := steps[..n];
    ExecLast(s, steps);
    RunKeepsInv(s, front);
    if Held(Exec(s, front), c) {
      RunHolds(s, front, c);
      var k :| 0 <= k < n && Proves(Exec(s, front[..k]), front[k], c);
      assert front[..k] == steps[..k];
    } else {
      StepHolds(Exec(s, front), steps[n], c);
    }
  }

  /** Whatever a run projects, one of its steps completed it: the record readers then saw was
      acknowledged and under the presented reference, the proof was verified, and the completion
      has that proof's step, cipher, code ids and time and that record's everything else. */
  lemma ProjectedWasProven(d: Storage, steps: seq<Step>, c: Completion)
    requires c in Exec(Fresh(d), steps).projected
    ensures exists k :: 0 <= k < |steps| && Proves(Exec(Fresh(d), steps[..k]), steps[k], c)
  {
    FreshHolds(d, c);
    RunHolds(Fresh(d), steps, c);
  }

  lemma FreshHolds(d: Storage, c: Completion)
    ensures Inv(Fresh(d)) && !Held(Fresh(d), c)
  {}

  /** The code that completed bootstrap is refused by the factor it left, exactly when the new
      call's two clock readings drift no further apart than the completing call's did. */
  lemma CompletingCodeIsRefusedExactlyWhen(c: Completion, p: Pending, v: Proof, g: T.Config, first: T.Attempt, again: T.Attempt)
    requires Carries(c, p, v) && T.ValidConfig(g) && T.Verify(g, None, first) == Some(v.step)
    requires first.delta.Some? && again.delta.Some? && T.MintedStep(g, first) == T.MintedStep(g, again)
    ensures c.factor.lastUsedTotpStep.Some?
    ensures T.Verify(g, Some(c.factor.lastUsedTotpStep.value), again) == None <==> T.Drift(g, again) <= T.Drift(g, first)
  {}

  // --- the profile -----------------------------------------------------------------------------

  /** Every record of this attempt on disk, and its completion, has this profile. */
  ghost predicate Profiled(s: State, id: Id, profile: Option<Profile>)
  {
    && id in s.begun
    && (forall p :: Some(Reserved(p)) in s.journal.onDisk && p.attemptId == id ==> p.profile == profile)
    && (forall c :: Held(s, c) && c.attemptId == id ==> c.profile == profile)
  }

  ghost predicate ReservesLike(s: State, t: State, id: Id)
  {
    forall p :: Some(Reserved(p)) in t.journal.onDisk && p.attemptId == id ==>
      exists q :: Some(Reserved(q)) in s.journal.onDisk && q.attemptId == id && q.profile == p.profile
  }

  lemma RecoverReserves(s: State, f: Faults, id: Id)
    requires Inv(s)
    ensures ReservesLike(s, RecoverOp(s, f).0, id)
  {
    if s.journal.seen.Some? && f.synced && s.journal.seen.value.Committed? {
      var r := s.journal.seen.value;
      var t := s.(journal := SyncedSlot(s.journal.seen));
      var u := ApplyOp(t, r, f).0;
      assert u.journal == t.journal || u.journal == PublishSlot(t.journal, Some(Applied(r.referenceDigest, r.receipt)), f.applied);
    }
  }

  lemma ResumeIsSeen(s: State, reference: Id, f: Faults, now: Readings)
    requires Inv(s)
    ensures var (t, p) := Resume(s, reference, f, now);
      p.Ok? ==> t.journal.seen == Some(Reserved(p.value)) && t.journal.seen in t.journal.onDisk
  {
    RecoverKeepsInv(s, f);
  }

  lemma PublishReserves(s: State, p: Pending, w: Publication, id: Id)
    requires p.attemptId == id ==> exists q :: Some(Reserved(q)) in s.journal.onDisk && q.attemptId == id && q.profile == p.profile
    ensures ReservesLike(s, PublishPending(s, p, w).0, id)
  {}

  lemma CompleteReserves(s: State, step: Step, id: Id)
    requires step.Complete?
    ensures ReservesLike(RecoverOp(s, step.faults).0, Apply(s, step).0, id) || Apply(s, step).0 == s
  {
    var t := RecoverOp(s, step.faults).0;
    var u := Apply(s, step).0;
    if u != s && u.journal != t.journal { assert forall p :: Some(Reserved(p)) in u.journal.onDisk ==> Some(Reserved(p)) in t.journal.onDisk; }
  }

  lemma ReservesVia(s: State, t: State, u: State, id: Id)
    requires ReservesLike(s, t, id) && ReservesLike(t, u, id)
    ensures ReservesLike(s, u, id)
  {
    forall p | Some(Reserved(p)) in u.journal.onDisk && p.attemptId == id
      ensures exists q :: Some(Reserved(q)) in s.journal.onDisk && q.attemptId == id && q.profile == p.profile
    {
      var q :| Some(Reserved(q)) in t.journal.onDisk && q.attemptId == id && q.profile == p.profile;
    }
  }

  lemma StartReserves(s: State, q: Request, g: Generated, ttl: int, at: int, w: Publication, id: Id)
    requires id != s.next
    ensures ReservesLike(s, StartOp(s, q, g, ttl, at, w).0, id)
  {
    var p := Attempt(s.next, q, g, at, ttl);
    PublishReserves(Started(s, p), p, w, id);
  }

  lemma BeginReserves(s: State, step: Step, id: Id)
    requires Inv(s) && step.Begin? && id in s.begun
    ensures ReservesLike(RecoverOp(s, step.faults).0, Apply(s, step).0, id)
  {
    var t := RecoverOp(s, step.faults).0;
    RecoverKeepsInv(s, step.faults);
    assert id in t.begun && id != t.next;
    StartReserves(t, step.request, step.generated, step.ttl, step.at, step.w, id);
    assert Apply(s, step).0 == t || Apply(s, step).0 == StartOp(t, step.request, step.generated, step.ttl, step.at, step.w).0;
  }

  lemma AcknowledgeReserves(s: State, step: Step, id: Id)
    requires Inv(s) && step.Acknowledge?
    ensures ReservesLike(RecoverOp(s, step.faults).0, Apply(s, step).0, id)
  {
    var (t, p) := Resume(s, step.reference, step.faults, step.readings);
    ResumeIsSeen(s, step.reference, step.faults, step.readings);
    if p.Ok? && !p.value.acknowledged {
      var noted := t.(acknowledgments := t.acknowledgments + {Acknowledgment(p.value.attemptId, step.reference)});
      PublishReserves(noted, p.value.(acknowledged := true), step.w, id);
    }
  }

  lemma StepReserves(s: State, step: Step, id: Id)
    requires Inv(s) && !step.UpdateProfile? && id in s.begun
    ensures ReservesLike(s, Apply(s, step).0, id)
  {
    if !step.Outside? && !step.Crash? {
      RecoverReserves(s, step.faults, id);
      if step.Begin? { BeginReserves(s, step, id); }
      if step.Acknowledge? { AcknowledgeReserves(s, step, id); }
      if step.Complete? { CompleteReserves(s, step, id); }
      if Apply(s, step).0 != s { ReservesVia(s, RecoverOp(s, step.faults).0, Apply(s, step).0, id); }
    }
  }

  lemma StepKeepsProfile(s: State, step: Step, id: Id, profile: Option<Profile>)
    requires Inv(s) && Profiled(s, id, profile) && !step.UpdateProfile?
    ensures Profiled(Apply(s, step).0, id, profile)
  {
    var t := Apply(s, step).0;
    StepReserves(s, step, id);
    BegunStays(s, step, id);
    forall c | Held(t, c) && c.attemptId == id ensures c.profile == profile {
      if !Held(s, c) { StepHolds(s, step, c); }
    }
  }

  lemma BegunStays(s: State, step: Step, id: Id)
    requires Inv(s) && id in s.begun
    ensures id in Apply(s, step).0.begun
  {
    if !step.Outside? && !step.Crash? { RecoverKeepsInv(s, step.faults); }
  }

  lemma {:induction false} RunKeepsProfile(s: State, steps: seq<Step>, id: Id, profile: Option<Profile>)
    requires Inv(s) && Profiled(s, id, profile) && forall i :: 0 <= i < |steps| ==> !steps[i].UpdateProfile?
    ensures Profiled(Exec(s, steps), id, profile)
    decreases |steps|
  {
    if steps != [] {
      StepKeepsProfile(s, steps[0], id, profile);
      StepKeepsInv(s, steps[0]);
      RunKeepsProfile(Apply(s, steps[0]).0, steps[1..], id, profile);
    }
  }

  /** The step acknowledged this record. */
  ghost predicate Acknowledges(s: State, step: Step, p: Pending)
  {
    && (step.Begin? || step.UpdateProfile?) && !Apply(s, step).1.Refused? && Apply(s, step).0.journal.seen == Some(Reserved(p))
  }

  lemma AcknowledgedRecord(s: State, step: Step, p: Pending)
    requires Inv(s) && Acknowledges(s, step, p)
    ensures Apply(s, step).0.journal == SyncedSlot(Some(Reserved(p)))
    ensures p.profile == if step.Begin? then step.request.profile else Some(step.profile)
  {
    RecoverKeepsInv(s, step.faults);
  }

  lemma ReservedHoldsNothing(s: State, p: Pending, c: Completion)
    requires Inv(s) && s.journal == SyncedSlot(Some(Reserved(p)))
    ensures !Held(s, c)
  {
    assert !Settled(Some(Reserved(p)), c);
    assert c in s.projected ==> Settled(Some(Reserved(p)), c) by { assert c in s.projected ==> SettledForGood(s, c); }
  }

  lemma {:induction false} ProjectedLater(s: State, later: seq<Step>, id: Id, profile: Option<Profile>, c: Completion)
    requires Inv(s) && Profiled(s, id, profile) && forall i :: 0 <= i < |later| ==> !later[i].UpdateProfile?
    requires c in Exec(s, later).projected && c.attemptId == id
    ensures c.profile == profile
  {
    RunKeepsProfile(s, later, id, profile);
    assert Held(Exec(s, later), c);
  }

  lemma ProfiledFrom(s: State, step: Step, p: Pending)
    requires Inv(s) && Acknowledges(s, step, p)
    ensures var t := Apply(s, step).0;
      Inv(t) && Profiled(t, p.attemptId, if step.Begin? then step.request.profile else Some(step.profile))
  {
    var t := Apply(s, step).0;
    StepKeepsInv(s, step);
    AcknowledgedRecord(s, step, p);
    assert RecordFaithful(t, Reserved(p));
    forall e ensures !Held(t, e) { ReservedHoldsNothing(t, p, e); }
  }

  lemma LastProfileFrom(s: State, step: Step, later: seq<Step>, p: Pending, c: Completion)
    requires Inv(s) && Acknowledges(s, step, p) && c.attemptId == p.attemptId
    requires c in Exec(Apply(s, step).0, later).projected && forall i :: 0 <= i < |later| ==> !later[i].UpdateProfile?
    ensures c.profile == if step.Begin? then step.request.profile else Some(step.profile)
  {
    ProfiledFrom(s, step, p);
    ProjectedLater(Apply(s, step).0, later, p.attemptId, if step.Begin? then step.request.profile else Some(step.profile), c);
  }

  /** A profile that was acknowledged, at the start or by an update, is the one projected for that
      attempt, unless another update came after it. */
  lemma LastProfileIsProjected(d: Storage, steps: seq<Step>, step: Step, later: seq<Step>, p: Pending, c: Completion)
    requires Acknowledges(Exec(Fresh(d), steps), step, p) && c.attemptId == p.attemptId
    requires c in Exec(Apply(Exec(Fresh(d), steps), step).0, later).projected
    requires forall i :: 0 <= i < |later| ==> !later[i].UpdateProfile?
    ensures c.profile == if step.Begin? then step.request.profile else Some(step.profile)
  {
    RunKeepsInv(Fresh(d), steps);
    LastProfileFrom(Exec(Fresh(d), steps), step, later, p, c);
  }

  // --- when attempts begin, are found and complete -------------------------------------------------

  /** No account, and neither factor nor codes under the attempt's names. */
  ghost predicate Untouched(d: Storage, p: Pending)
  {
    && d.users.seen in {None, Some([])}
    && At(d.factors, p.handle).seen == None && At(d.codes, p.userId).seen == None
  }

  ghost predicate Within(p: Pending, r: Readings) { p.createdAt <= r.low && r.high < p.expiresAt }

  /** Both sides of a publication find an untouched installation and an attempt in time. */
  ghost predicate Publishable(d: Storage, p: Pending, w: Publication)
  {
    Untouched(d, p) && Within(p, w.before) && w.outcome == Done && w.stillEmpty && Within(p, w.after)
  }

  lemma UntouchedIsEmpty(d: Storage, p: Pending)
    ensures Empty(d, p) <==> Untouched(d, p)
  {}

  /** Readers see an attempt of this reference, in time over an untouched installation, and the
      record can be synced. */
  ghost predicate Finds(s: State, reference: Id, f: Faults, now: Readings, p: Pending)
  {
    && s.journal.seen == Some(Reserved(p)) && f.synced && p.referenceDigest == ReferenceDigest(reference)
    && Untouched(s.disk, p) && Within(p, now)
  }

  lemma ResumesExactlyWhen(s: State, reference: Id, f: Faults, now: Readings, p: Pending)
    requires Inv(s)
    ensures Resume(s, reference, f, now).1 == Result.Ok(p) <==> Finds(s, reference, f, now, p)
    ensures Finds(s, reference, f, now, p) ==> Resume(s, reference, f, now).0 == s.(journal := SyncedSlot(s.journal.seen))
  {
    var (t, ok) := RecoverOp(s, f);
    UntouchedIsEmpty(t.disk, p);
    RecoverKeepsInv(s, f);
    if ok { RecoverKeepsReserved(s, f, p); }
  }

  /** `read` shows exactly an attempt that is found. */
  lemma ReadsExactlyWhen(s: State, reference: Id, f: Faults, now: Readings, p: Pending)
    requires Inv(s)
    ensures Apply(s, Read(reference, f, now)).1 == Resumed(p) <==> Finds(s, reference, f, now, p)
  {
    ResumesExactlyWhen(s, reference, f, now, p);
    var found := Resume(s, reference, f, now).1;
    if found.Ok? { ResumesExactlyWhen(s, reference, f, now, found.value); }
  }

  lemma PublishesExactlyWhen(s: State, p: Pending, w: Publication)
    ensures PublishPending(s, p, w).1 == None <==> Publishable(s.disk, p, w) && PendingOk(p)
    ensures PublishPending(s, p, w).1 == None ==> PublishPending(s, p, w).0 == s.(journal := SyncedSlot(Some(Reserved(p))))
  {
    UntouchedIsEmpty(s.disk, p);
  }

  ghost predicate Found(s: State, reference: Id, f: Faults, now: Readings) { exists p :: Finds(s, reference, f, now, p) }

  lemma NotFound(s: State, reference: Id, f: Faults, now: Readings)
    requires Inv(s) && !Found(s, reference, f, now)
    ensures Resume(s, reference, f, now).1.Err?
  {
    var found := Resume(s, reference, f, now).1;
    if found.Ok? { ResumesExactlyWhen(s, reference, f, now, found.value); }
  }

  /** `updateProfile` is noted exactly when it finds an attempt and publishes it with the new
      profile and nothing else changed. */
  lemma UpdatesExactlyWhen(s: State, reference: Id, profile: Profile, f: Faults, now: Readings, w: Publication)
    requires Inv(s)
    ensures var (t, answer) := Apply(s, UpdateProfile(reference, profile, f, now, w));
      && (answer == Noted <==> exists p :: Finds(s, reference, f, now, p) && Publishable(s.disk, p, w) && PendingOk(p))
      && (answer == Noted ==> exists p :: s.journal.seen == Some(Reserved(p)) &&
                                t == s.(journal := SyncedSlot(Some(Reserved(p.(profile := Some(profile)))))))
  {
    if Found(s, reference, f, now) {
      var p :| Finds(s, reference, f, now, p);
      ResumesExactlyWhen(s, reference, f, now, p);
      var t := Resume(s, reference, f, now).0;
      var q := p.(profile := Some(profile));
      PublishesExactlyWhen(t, q, w);
      assert Publishable(s.disk, p, w) <==> Publishable(t.disk, q, w);
    } else {
      NotFound(s, reference, f, now);
    }
  }

  /** `acknowledgeBackupCodes` likewise, or at once when they were acknowledged before. */
  lemma AcknowledgesExactlyWhen(s: State, reference: Id, f: Faults, now: Readings, w: Publication)
    requires Inv(s)
    ensures var (t, answer) := Apply(s, Acknowledge(reference, f, now, w));
      && (answer == Noted <==> exists p :: Finds(s, reference, f, now, p) && (p.acknowledged || (Publishable(s.disk, p, w) && PendingOk(p))))
      && (answer == Noted ==> exists p :: s.journal.seen == Some(Reserved(p)) && t.journal == SyncedSlot(Some(Reserved(p.(acknowledged := true)))))
  {
    if Found(s, reference, f, now) {
      var p :| Finds(s, reference, f, now, p);
      ResumesExactlyWhen(s, reference, f, now, p);
      var t := Resume(s, reference, f, now).0;
      var noted := t.(acknowledgments := t.acknowledgments + {Acknowledgment(p.attemptId, reference)});
      var q := p.(acknowledged := true);
      PublishesExactlyWhen(noted, q, w);
      assert Publishable(s.disk, p, w) <==> Publishable(noted.disk, q, w);
      assert p.acknowledged ==> q == p;
    } else {
      NotFound(s, reference, f, now);
    }
  }

  /** What a new attempt is made of. */
  ghost predicate Fits(p: Pending, id: Id, q: Request, g: Generated, at: int, ttl: int)
  {
    && p.attemptId == id && p.referenceDigest == ReferenceDigest(id) && !p.acknowledged
    && p.handle == q.handle && p.passwordHash == q.passwordHash && p.profile == q.profile
    && p.userId == g.userId && p.secret == g.secret && p.backupCodes == g.backupCodes
    && p.createdAt == at && p.expiresAt == at + ttl
  }

  /** `begin` sets an attempt up exactly when no record stands, or only an expired one that can be
      synced, the installation is untouched and its names free, ten distinct codes and a lifetime
      of at most ten minutes were given, and its publication finds all that in time. */
  lemma BeginsExactlyWhen(s: State, q: Request, g: Generated, free: bool, ttl: int, now: int, at: int, f: Faults, w: Publication, p: Pending)
    requires Inv(s) && Fits(p, s.next, q, g, at, ttl)
    ensures var (t, answer) := Apply(s, Begin(q, g, free, ttl, now, at, f, w));
      && (answer.Setup? <==>
            && (s.journal.seen == None || (f.synced && exists prior :: s.journal.seen == Some(Reserved(prior)) && prior.expiresAt <= now))
            && free && |g.backupCodes| == 10 && (forall i, j :: 0 <= i < j < 10 ==> g.backupCodes[i] != g.backupCodes[j])
            && 0 < ttl <= 600_000 && Publishable(s.disk, p, w))
      && (answer.Setup? ==> answer == Setup(s.next, p) && t.journal == SyncedSlot(Some(Reserved(p))) && t.disk == s.disk)
  {
    var (t, ok) := RecoverOp(s, f);
    RecoverKeepsInv(s, f);
    RecoverVacant(s, f, now);
    assert p == Attempt(s.next, q, g, at, ttl);
    if ok && Vacant(t, now) { PublishesExactlyWhen(Started(t, p), p, w); }
  }

  lemma RecoverVacant(s: State, f: Faults, now: int)
    requires Inv(s)
    ensures var (t, ok) := RecoverOp(s, f);
      && (ok && Vacant(t, now) <==>
            s.journal.seen == None || (f.synced && exists prior :: s.journal.seen == Some(Reserved(prior)) && prior.expiresAt <= now))
      && (ok && Vacant(t, now) ==> t.disk == s.disk && t.next == s.next)
  {
    RecoverKeepsInv(s, f);
    var (t, ok) := RecoverOp(s, f);
    if ok && t.journal.seen.Some? && t.journal.seen.value.Reserved? {
      RecoverKeepsReserved(s, f, t.journal.seen.value.pending);
      assert s.journal.seen == Some(Reserved(s.journal.seen.value.pending));
    }
  }

  /** Everything `complete` asks before it publishes its commit. */
  ghost predicate Completable(s: State, step: Step, p: Pending)
  {
    && step.Complete? && Finds(s, step.reference, step.faults, step.readings, p)
    && p.acknowledged && step.proof.verified && |p.backupCodes| == 10 && |step.proof.codeIds| == 10
    && (forall i, j :: 0 <= i < j < 10 ==> step.proof.codeIds[i] != step.proof.codeIds[j])
    && Within(p, step.checks.verified) && step.checks.free && step.checks.stillEmpty && Within(p, step.checks.committing)
  }

  lemma CommitIsOk(p: Pending, v: Proof)
    requires |p.backupCodes| == |v.codeIds| == CODE_COUNT
    ensures RecordOk(CommitFor(p, v)) <==> Distinct(v.codeIds)
  {
    var c := Material(p, v);
    assert Ids(c.codes.codes) == v.codeIds;
  }

  /** `complete` on a found attempt that is not completable changes nothing else. */
  lemma NotCompletable(s: State, step: Step)
    requires Inv(s) && step.Complete? && s.journal.seen.Some? && s.journal.seen.value.Reserved?
    requires forall p :: !Completable(s, step, p)
    ensures var (t, answer) := Apply(s, step);
      answer.Refused? && t.journal.seen == s.journal.seen && t.projected == s.projected && t.disk == s.disk
  {
    if |step.proof.codeIds| == CODE_COUNT {
      var p := s.journal.seen.value.pending;
      ResumesExactlyWhen(s, step.reference, step.faults, step.readings, p);
      NotFoundIsRefused(s, step, p);
    }
  }

  lemma NotFoundIsRefused(s: State, step: Step, p: Pending)
    requires Inv(s) && step.Complete? && |step.proof.codeIds| == CODE_COUNT && s.journal.seen == Some(Reserved(p)) && !Completable(s, step, p)
    ensures var (t, answer) := Apply(s, step);
      answer.Refused? && t.journal.seen == s.journal.seen && t.projected == s.projected && t.disk == s.disk
  {
    var (t, ok) := RecoverOp(s, step.faults);
    UntouchedIsEmpty(t.disk, p);
    if |p.backupCodes| == CODE_COUNT { CommitIsOk(p, step.proof); }
  }

  lemma CompletableCommits(s: State, step: Step, p: Pending)
    requires Inv(s) && Completable(s, step, p)
    ensures var u := s.(journal := PublishSlot(SyncedSlot(s.journal.seen), Some(CommitFor(p, step.proof)), step.checks.outcome));
      Apply(s, step) ==
        if !step.checks.outcome.Done? then (u, Refused(WriteFailed))
        else
          var (x, applied) := ApplyOp(u, CommitFor(p, step.proof), step.faults);
          (x, if applied then Completed(CommitFor(p, step.proof).receipt) else Refused(RecoveryRequired))
  {
    UntouchedIsEmpty(s.disk, p);
    CommitIsOk(p, step.proof);
  }

  /** A reserved attempt is committed exactly when everything asked of the attempt, its reference,
      the proof, the installation and the clocks holds. */
  lemma CompletesExactlyWhen(s: State, step: Step)
    requires Inv(s) && step.Complete? && s.journal.seen.Some? && s.journal.seen.value.Reserved?
    requires !step.checks.outcome.NotRenamed?
    ensures var t := Apply(s, step).0; t.journal.seen.Some? && (!t.journal.seen.value.Reserved? <==> exists p :: Completable(s, step, p))
  {
    if p :| Completable(s, step, p) {
      CompletableCommits(s, step, p);
      var r := CommitFor(p, step.proof);
      var u := s.(journal := PublishSlot(SyncedSlot(s.journal.seen), Some(r), step.checks.outcome));
      ApplyLeavesNoReserved(u, r, step.faults);
    } else {
      NotCompletable(s, step);
    }
  }

  lemma ApplyLeavesNoReserved(s: State, r: Record, f: Faults)
    requires r.Committed? && s.journal.seen == Some(r)
    ensures var t := ApplyOp(s, r, f).0; t.journal.seen.Some? && !t.journal.seen.value.Reserved?
  {}

  /** After completion `complete` answers with the same receipt, for the attempt's reference only. */
  lemma RepeatsReceiptExactlyWhen(s: State, step: Step, receipt: Receipt, digest: ReferenceDigest)
    requires Inv(s) && step.Complete? && |step.proof.codeIds| == CODE_COUNT && s.journal.seen == Some(Applied(digest, receipt))
    ensures Apply(s, step).1.Completed? <==> step.faults.synced && digest == ReferenceDigest(step.reference)
    ensures Apply(s, step).1.Completed? ==> Apply(s, step).1.receipt == receipt
    ensures Apply(s, step).0.disk == s.disk && Apply(s, step).0.projected == s.projected
  {}

  // --- the projection ----------------------------------------------------------------------------

  /** What a write of an absent file and the acknowledgment of a present one leave. */
  ghost predicate Placed<K(!new), V(!new)>(was: Directory<K, V>, now: Directory<K, V>, k: K, value: V)
  {
    && At(now, k) == SyncedSlot(if At(was, k).seen.None? then Some(value) else At(was, k).seen)
    && forall h :: h != k ==> At(now, h).seen == At(was, h).seen
  }

  lemma EnsuredPlaces<K(!new), V(!new)>(dir: Directory<K, V>, k: K, value: V)
    ensures Placed(dir, Ensured(dir, k, value, Done), k, value)
  {}

  ghost predicate AccountPlaced(was: Slot<seq<Account>>, now: Slot<seq<Account>>, u: Account)
  {
    var accounts := if was.seen.None? then [] else was.seen.value;
    now == SyncedSlot(if exists x :: x in accounts && x.id == u.id then was.seen else Some(accounts + [u]))
  }

  lemma UserEnsuredPlaces(users: Slot<seq<Account>>, u: Account)
    ensures AccountPlaced(users, UserEnsured(users, u, Done), u)
  {}

  /** A projection that gets through has placed factor, codes, profile and account, in their own
      files and nowhere else. */
  ghost predicate AllPlaced(d: Storage, e: Storage, c: Completion)
  {
    && Placed(d.factors, e.factors, c.user.handle, c.factor) && Placed(d.codes, e.codes, c.user.id, c.codes)
    && (c.profile.Some? ==> Placed(d.profiles, e.profiles, c.user.handle, c.profile.value))
    && (c.profile.None? ==> e.profiles == d.profiles)
    && AccountPlaced(d.users, e.users, c.user)
  }

  lemma ProjectionPlaces(d: Storage, c: Completion, p: Projection)
    requires Project(d, c, p).1
    ensures AllPlaced(d, Project(d, c, p).0, c)
  {
    var e := Project(d, c, p).0;
    assert e.factors == Ensured(d.factors, c.user.handle, c.factor, Done);
    EnsuredPlaces(d.factors, c.user.handle, c.factor);
    assert e.codes == Ensured(d.codes, c.user.id, c.codes, Done);
    EnsuredPlaces(d.codes, c.user.id, c.codes);
    if c.profile.Some? {
      assert e.profiles == Ensured(d.profiles, c.user.handle, c.profile.value, Done);
      EnsuredPlaces(d.profiles, c.user.handle, c.profile.value);
    }
    assert e.users == UserEnsured(d.users, c.user, Done);
    UserEnsuredPlaces(d.users, c.user);
  }

  const Unfailing := Faults(true, true, Projection(Done, Done, Done, Done, true), Done)

  lemma PlacedIsFinished(d: Storage, e: Storage, c: Completion)
    requires CompletionOk(c) && d.users.seen in {None, Some([])} && AllPlaced(d, e, c)
    requires At(d.factors, c.user.handle).seen == None && At(d.codes, c.user.id).seen == None
    ensures CheckProjection(d, c, false) && CheckProjection(e, c, true)
    ensures e.users == SyncedSlot(Some([c.user]))
  {
    R.FrozenIsSame(c);
    assert [] + [c.user] == [c.user];
  }

  lemma AppliesUnfailing(s: State, r: Record)
    requires r.Committed? && RecordOk(r) && s.disk.users.seen in {None, Some([])}
    requires At(s.disk.factors, r.completion.user.handle).seen == None && At(s.disk.codes, r.completion.user.id).seen == None
    ensures var (t, ok) := ApplyOp(s, r, Unfailing);
      && ok && t.projected == s.projected + {r.completion} && AllPlaced(s.disk, t.disk, r.completion)
      && t.journal == SyncedSlot(Some(Applied(r.referenceDigest, r.receipt)))
      && t.disk.users == SyncedSlot(Some([r.completion.user]))
  {
    var c := r.completion;
    ProjectionPlaces(s.disk, c, Unfailing.projection);
    PlacedIsFinished(s.disk, Project(s.disk, c, Unfailing.projection).0, c);
  }

  /** Without failures a completable attempt is answered with a receipt for exactly what was
      completed, and the installation holds it for good. */
  lemma CompletionInstalls(s: State, step: Step, p: Pending)
    requires Inv(s) && Completable(s, step, p) && step.checks.outcome == Done && step.faults == Unfailing
    ensures var (t, answer) := Apply(s, step);
      exists c :: && Carries(c, p, step.proof) && t.projected == s.projected + {c}
                  && answer == Completed(Receipt(p.attemptId, p.userId, p.handle, step.proof.completedAt, MaterialDigest(c)))
                  && t.journal == SyncedSlot(Some(Applied(ReferenceDigest(step.reference), answer.receipt)))
                  && AllPlaced(s.disk, t.disk, c) && t.disk.users == SyncedSlot(Some([c.user]))
  {
    var r := CommitFor(p, step.proof);
    MaterialCarries(p, step.proof);
    CommitIsOk(p, step.proof);
    CompletableCommits(s, step, p);
    AppliesUnfailing(s.(journal := SyncedSlot(Some(r))), r);
    assert Carries(r.completion, p, step.proof);
  }

  // --- the check around the projection -------------------------------------------------------------

  /** Everything that identifies the account is as frozen, and nobody has locked, removed or reset it. */
  ghost predicate IsFrozenAccount(u: Account, c: Account)
  {
    && u.id == c.id && u.handle == c.handle && u.passwordHash == c.passwordHash && u.role == c.role
    && u.isActive == c.isActive && u.totpEnabled == c.totpEnabled && u.totpSecretId == c.totpSecretId
    && u.needsOnboarding == c.needsOnboarding && u.onboardingStep == c.onboardingStep && u.createdAt == c.createdAt
    && u.isLocked != Some(true) && u.firstLogin != Some(true) && !u.removed
  }

  /** The same secret, used no less than frozen. */
  ghost predicate IsFrozenFactor(f: Factor, c: Factor)
  {
    && f.userId == c.userId && f.handle == c.handle && f.encryptedSecret == c.encryptedSecret && f.iv == c.iv
    && f.authTag == c.authTag && f.salt == c.salt && f.createdAt == c.createdAt
    && f.backupCodesGenerated == c.backupCodesGenerated && f.version == c.version
    && f.lastUsedTotpStep.Some? && c.lastUsedTotpStep.Some? && c.lastUsedTotpStep.value <= f.lastUsedTotpStep.value
  }

  /** The same codes in any order, used or not. */
  ghost predicate IsFrozenCodes(k: BackupCodeSet, c: BackupCodeSet)
  {
    && k.userId == c.userId && k.generatedAt == c.generatedAt && |k.codes| == |c.codes|
    && (forall i, j :: 0 <= i < j < |k.codes| ==> k.codes[i].id != k.codes[j].id)
    && forall x :: x in c.codes ==> exists i :: 0 <= i < |k.codes| && k.codes[i].id == x.id && k.codes[i].hash == x.hash
  }

  lemma {:induction false} FindIs(codes: seq<BackupCode>, id: Text, hash: Text)
    requires Distinct(Ids(codes))
    ensures Find(codes, id).Some? && Find(codes, id).value.hash == hash
       <==> exists i :: 0 <= i < |codes| && codes[i].id == id && codes[i].hash == hash
  {
    if i :| 0 <= i < |codes| && codes[i].id == id && codes[i].hash == hash { R.FindAt(codes, i); }
    if Find(codes, id).Some? { FoundIsThere(codes, id); }
  }

  lemma {:induction false} FoundIsThere(codes: seq<BackupCode>, id: Text)
    requires Find(codes, id).Some?
    ensures exists i :: 0 <= i < |codes| && codes[i] == Find(codes, id).value && codes[i].id == id
    decreases |codes|
  {
    if codes[0].id != id {
      FoundIsThere(codes[1..], id);
      var i :| 0 <= i < |codes[1..]| && codes[1..][i] == Find(codes, id).value;
      assert codes[i + 1] == Find(codes, id).value;
    }
  }

  lemma CodesAre(k: BackupCodeSet, c: BackupCodeSet)
    ensures SameCodes(k, c) <==> IsFrozenCodes(k, c)
  {
    assert Distinct(Ids(k.codes)) <==> forall i, j :: 0 <= i < j < |k.codes| ==> k.codes[i].id != k.codes[j].id;
    if Distinct(Ids(k.codes)) {
      forall x | x in c.codes
        ensures Find(k.codes, x.id).Some? && Find(k.codes, x.id).value.hash == x.hash
           <==> exists i :: 0 <= i < |k.codes| && k.codes[i].id == x.id && k.codes[i].hash == x.hash
      {
        FindIs(k.codes, x.id, x.hash);
      }
    }
  }

  /** The check passes exactly when at most one account is stored and it is the frozen one, factor
      and codes under its names are the frozen ones, neither is missing under an account, and, in
      the end, nothing is missing. */
  lemma ChecksExactlyWhen(d: Storage, c: Completion, finished: bool)
    ensures CheckProjection(d, c, finished) <==>
      var factor, codes := At(d.factors, c.user.handle).seen, At(d.codes, c.user.id).seen;
      && |Users(d)| <= 1 && (forall u :: u in Users(d) ==> IsFrozenAccount(u, c.user))
      && (factor.Some? ==> IsFrozenFactor(factor.value, c.factor)) && (codes.Some? ==> IsFrozenCodes(codes.value, c.codes))
      && (finished || Users(d) != [] ==> factor.Some? && codes.Some?) && (finished ==> Users(d) != [])
  {
    if CodesFor(d, c.user.id).Some? { CodesAre(CodesFor(d, c.user.id).value, c.codes); }
    if |Users(d)| == 1 { assert Users(d)[0] in Users(d) && forall u :: u in Users(d) ==> u == Users(d)[0]; }
  }

  /** A commit is projected only over storage that is empty or a part of it, and answered exactly
      when each write and check after that succeeds; over anything else nothing is written. */
  lemma AppliesExactlyWhen(s: State, r: Record, f: Faults)
    requires r.Committed?
    ensures var (t, ok) := ApplyOp(s, r, f); var c := r.completion; var (d, through) := Project(s.disk, c, f.projection);
      && (!f.decryptable || !CheckProjection(s.disk, c, false) ==> !ok && t == s)
      && (f.decryptable && CheckProjection(s.disk, c, false) ==>
            && t.disk == d && t.projected == s.projected + {c}
            && (ok <==> through && CheckProjection(d, c, true) && f.applied == Done)
            && (!ok ==> t.journal == s.journal || (through && CheckProjection(d, c, true) && f.applied == NotSynced)))
  {}
}
