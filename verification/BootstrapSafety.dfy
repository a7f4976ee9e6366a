/** One bootstrap attempt is ever projected, the one its own reference acknowledged,
    whatever else changes storage. */
module BootstrapSafety {
  import opened Wrappers
  import opened DurableFile
  import opened Utf16
  import opened TotpRecords
  import opened Bootstrap

  /** The attempt as it was first generated, up to acknowledgment and profile. */
  ghost predicate AsBegun(s: State, p: Pending)
  {
    p.attemptId in s.begun &&
    p == s.begun[p.attemptId].(acknowledged := p.acknowledged, profile := p.profile)
  }

  ghost predicate AcknowledgedBy(s: State, attemptId: Id, reference: Id)
  {
    Acknowledgment(attemptId, reference) in s.acknowledgments
  }

  /** What one completion says is what its attempt generated. */
  ghost predicate Completes(s: State, c: Completion)
  {
    && c.attemptId in s.begun
    && var p := s.begun[c.attemptId];
       && c.user.id == p.userId && c.user.handle == p.handle && c.user.passwordHash == p.passwordHash
       && c.factor.userId == p.userId && c.factor.handle == p.handle
       && c.codes.userId == p.userId && |c.codes.codes| == |p.backupCodes|
       && (forall i :: 0 <= i < |p.backupCodes| ==> c.codes.codes[i].hash == CodeHash(p.backupCodes[i]))
       && AcknowledgedBy(s, c.attemptId, p.referenceDigest.reference)
  }

  ghost predicate RecordFaithful(s: State, r: Record)
  {
    match r
    case Reserved(p) => AsBegun(s, p) && (p.acknowledged ==> AcknowledgedBy(s, p.attemptId, p.referenceDigest.reference))
    case Committed(digest, c, receipt) => Completes(s, c) && ReceiptFor(receipt, c) && digest == s.begun[c.attemptId].referenceDigest
    case Applied(digest, receipt) =>
      && Completes(s, receipt.material.completion) && ReceiptFor(receipt, receipt.material.completion)
      && digest == s.begun[receipt.attemptId].referenceDigest
  }

  /** The record is past the point of no return for this completion. */
  ghost predicate Settled(r: Option<Record>, c: Completion)
  {
    && r.Some?
    && match r.value
       case Reserved(_) => false
       case Committed(_, e, _) => e == c
       case Applied(_, receipt) => receipt.material == MaterialDigest(c)
  }

  ghost predicate SettledForGood(s: State, c: Completion) { forall r :: r in s.journal.onDisk ==> Settled(r, c) }

  ghost predicate AttemptsApart(s: State)
  {
    forall id :: id in s.begun ==> id < s.next && s.begun[id].attemptId == id && s.begun[id].referenceDigest == ReferenceDigest(id)
  }

  ghost predicate Inv(s: State)
  {
    && s.journal.seen in s.journal.onDisk
    && (s.journal.seen.None? ==> s.journal.onDisk == {None})
    && (forall r :: Some(r) in s.journal.onDisk ==> RecordFaithful(s, r))
    && (forall c :: c in s.projected ==> SettledForGood(s, c))
    && (forall a :: a in s.acknowledgments ==> a.attemptId in s.begun && s.begun[a.attemptId].referenceDigest == ReferenceDigest(a.reference))
    && AttemptsApart(s)
  }

  // --- growing history ------------------------------------------------------------------

  /** History only grows, and storage is free to change. */
  ghost predicate Extends(s: State, t: State)
  {
    && s.next <= t.next && s.acknowledgments <= t.acknowledgments
    && forall id :: id in s.begun ==> id in t.begun && t.begun[id] == s.begun[id]
  }

  lemma SameJournalKeepsInv(s: State, t: State)
    requires Inv(s) && Extends(s, t) && t.journal == s.journal
    requires forall c :: c in t.projected ==> SettledForGood(s, c)
    requires forall a :: a in t.acknowledgments ==>
               a.attemptId in t.begun && t.begun[a.attemptId].referenceDigest == ReferenceDigest(a.reference)
    requires AttemptsApart(t)
    ensures Inv(t)
  {
    forall q | Some(q) in t.journal.onDisk ensures RecordFaithful(t, q) { assert RecordFaithful(s, q); }
    forall c | c in t.projected ensures SettledForGood(t, c) { assert SettledForGood(s, c); }
  }

  // --- recovery ------------------------------------------------------------------------------

  lemma ReceiptKeepsInv(s: State, r: Record, outcome: Outcome)
    requires Inv(s) && r.Committed? && s.journal == SyncedSlot(Some(r))
    ensures Inv(Write(s, Applied(r.referenceDigest, r.receipt), outcome).0)
  {
    assert Some(r) in s.journal.onDisk && RecordFaithful(s, r);
    forall c | c in s.projected ensures Settled(Some(Applied(r.referenceDigest, r.receipt)), c) {
      assert SettledForGood(s, c);
      assert Settled(Some(r), c);
    }
  }

  lemma ApplyKeepsInv(s: State, r: Record, f: Faults)
    requires Inv(s) && r.Committed? && s.journal == SyncedSlot(Some(r))
    ensures Inv(ApplyOp(s, r, f).0)
    ensures Extends(s, ApplyOp(s, r, f).0) && ApplyOp(s, r, f).0.begun == s.begun
    ensures ApplyOp(s, r, f).1 ==> ApplyOp(s, r, f).0.journal == SyncedSlot(Some(Applied(r.referenceDigest, r.receipt)))
  {
    assert Some(r) in s.journal.onDisk && RecordFaithful(s, r);
    if f.decryptable && CheckProjection(s.disk, r.completion, false) {
      var (d, ok) := Project(s.disk, r.completion, f.projection);
      var t := s.(disk := d, projected := s.projected + {r.completion});
      SameJournalKeepsInv(s, t);
      ReceiptKeepsInv(t, r, f.applied);
    }
  }

  /** Recovery that succeeds leaves one synced record and no commit. */
  lemma RecoverKeepsInv(s: State, f: Faults)
    requires Inv(s)
    ensures var (t, ok) := RecoverOp(s, f);
      && Inv(t) && Extends(s, t) && t.begun == s.begun && t.next == s.next && t.acknowledgments == s.acknowledgments
      && (ok ==> t.journal == SyncedSlot(t.journal.seen) && (t.journal.seen.Some? ==> !t.journal.seen.value.Committed?))
  {
    if s.journal.seen.Some? && f.synced {
      var t := s.(journal := SyncedSlot(s.journal.seen));
      if s.journal.seen.value.Committed? { ApplyKeepsInv(t, s.journal.seen.value, f); }
    }
  }

  // --- attempts ---------------------------------------------------------------------------------

  lemma PublishKeepsInv(s: State, p: Pending, w: Publication)
    requires Inv(s) && (s.journal.seen.None? || s.journal.seen.value.Reserved?)
    requires RecordFaithful(s, Reserved(p))
    ensures Inv(PublishPending(s, p, w).0)
  {}

  lemma StartOpKeepsInv(s: State, q: Request, g: Generated, ttl: int, at: int, w: Publication)
    requires Inv(s) && (s.journal.seen.None? || s.journal.seen.value.Reserved?)
    ensures Inv(StartOp(s, q, g, ttl, at, w).0)
  {
    var p := Attempt(s.next, q, g, at, ttl);
    PublishKeepsInv(Started(s, p), p, w);
  }

  lemma BeginKeepsInv(s: State, q: Request, g: Generated, free: bool, ttl: int, now: int, at: int, f: Faults, w: Publication)
    requires Inv(s)
    ensures Inv(BeginOp(s, q, g, free, ttl, now, at, f, w).0)
  {
    RecoverKeepsInv(s, f);
    var (t, ok) := RecoverOp(s, f);
    if ok && Vacant(t, now) { StartOpKeepsInv(t, q, g, ttl, at, w); }
  }

  lemma ResumedIsFaithful(s: State, reference: Id, f: Faults, now: Readings)
    requires Inv(s)
    ensures var (t, p) := Resume(s, reference, f, now);
      && Inv(t)
      && (p.Ok? ==> t.journal.seen == Some(Reserved(p.value)) && RecordFaithful(t, Reserved(p.value)) &&
                    p.value.referenceDigest == ReferenceDigest(reference))
  {
    RecoverKeepsInv(s, f);
  }

  lemma UpdateProfileKeepsInv(s: State, reference: Id, profile: Profile, f: Faults, now: Readings, w: Publication)
    requires Inv(s)
    ensures Inv(UpdateProfileOp(s, reference, profile, f, now, w).0)
  {
    ResumedIsFaithful(s, reference, f, now);
    var (t, p) := Resume(s, reference, f, now);
    if p.Ok? { PublishKeepsInv(t, p.value.(profile := Some(profile)), w); }
  }

  lemma AcknowledgeKeepsInv(s: State, reference: Id, f: Faults, now: Readings, w: Publication)
    requires Inv(s)
    ensures Inv(AcknowledgeOp(s, reference, f, now, w).0)
  {
    ResumedIsFaithful(s, reference, f, now);
    var (t, p) := Resume(s, reference, f, now);
    if p.Ok? && !p.value.acknowledged {
      var noted := t.(acknowledgments := t.acknowledgments + {Acknowledgment(p.value.attemptId, reference)});
      SameJournalKeepsInv(t, noted);
      PublishKeepsInv(noted, p.value.(acknowledged := true), w);
    }
  }

  lemma CompleteKeepsInv(s: State, reference: Id, v: Proof, f: Faults, now: Readings, k: Checks)
    requires Inv(s) && |v.codeIds| == CODE_COUNT
    ensures Inv(CompleteOp(s, reference, v, f, now, k).0)
  {
    RecoverKeepsInv(s, f);
    ResumedIsFaithful(s, reference, f, now);
    var (t, ok) := RecoverOp(s, f);
    if ok && !(t.journal.seen.Some? && t.journal.seen.value.Applied?) {
      var p := PendingFor(t, reference, now);
      if p.Ok? && p.value.acknowledged && |p.value.backupCodes| == CODE_COUNT {
        var r := CommitFor(p.value, v);
        var (u, failed) := Write(t, r, k.outcome);
        if failed.None? { ApplyKeepsInv(u, r, f); }
      }
    }
  }

  lemma StepKeepsInv(s: State, step: Step)
    requires Inv(s)
    ensures Inv(Apply(s, step).0)
  {
    match step
    case Recover(f) => RecoverKeepsInv(s, f);
    case Begin(q, g, free, ttl, now, at, f, w) => BeginKeepsInv(s, q, g, free, ttl, now, at, f, w);
    case Read(reference, f, now) => ResumedIsFaithful(s, reference, f, now);
    case UpdateProfile(reference, profile, f, now, w) => UpdateProfileKeepsInv(s, reference, profile, f, now, w);
    case Acknowledge(reference, f, now, w) => AcknowledgeKeepsInv(s, reference, f, now, w);
    case Complete(reference, v, f, now, k) =>
      if |v.codeIds| == CODE_COUNT { CompleteKeepsInv(s, reference, v, f, now, k); }
    case Outside(next) => SameJournalKeepsInv(s, s.(disk := next));
    case Crash(left) =>
  }

  lemma {:induction false} RunKeepsInv(s: State, steps: seq<Step>)
    requires Inv(s)
    ensures Inv(Exec(s, steps))
    decreases |steps|
  {
    if steps != [] {
      StepKeepsInv(s, steps[0]);
      RunKeepsInv(Apply(s, steps[0]).0, steps[1..]);
    }
  }

  // --- the theorems ---------------------------------------------------------------------------------

  /** The projection callback is only ever given one completion. */
  lemma OneCompletionProjected(d: Storage, steps: seq<Step>, c: Completion, e: Completion)
    requires c in Exec(Fresh(d), steps).projected && e in Exec(Fresh(d), steps).projected
    ensures c == e
  {
    RunKeepsInv(Fresh(d), steps);
    var s := Exec(Fresh(d), steps);
    assert SettledForGood(s, c) && SettledForGood(s, e);
    assert s.journal.seen in s.journal.onDisk;
  }

  /** That completion carries the account, codes and owner its attempt generated, and the
      attempt was acknowledged under its own reference. */
  lemma ProjectedAsBegunAndAcknowledged(d: Storage, steps: seq<Step>, c: Completion)
    requires c in Exec(Fresh(d), steps).projected
    ensures Completes(Exec(Fresh(d), steps), c)
  {
    RunKeepsInv(Fresh(d), steps);
    var s := Exec(Fresh(d), steps);
    assert SettledForGood(s, c);
    assert s.journal.seen in s.journal.onDisk;
    assert RecordFaithful(s, s.journal.seen.value);
  }

  /** Profile and acknowledgment updates leave the rest of the attempt as generated. */
  lemma ReservationsNeverChange(d: Storage, steps: seq<Step>, p: Pending)
    requires Some(Reserved(p)) in Exec(Fresh(d), steps).journal.onDisk
    ensures AsBegun(Exec(Fresh(d), steps), p)
    ensures p.acknowledged ==> AcknowledgedBy(Exec(Fresh(d), steps), p.attemptId, p.referenceDigest.reference)
  {
    RunKeepsInv(Fresh(d), steps);
    assert RecordFaithful(Exec(Fresh(d), steps), Reserved(p));
  }

  // --- the latch --------------------------------------------------------------------------------------

  /** Only a commit or its receipt can be on disk. */
  ghost predicate Latched(s: State)
  {
    && s.journal.seen in s.journal.onDisk
    && forall r :: r in s.journal.onDisk ==> r.Some? && !r.value.Reserved?
  }

  lemma RecoverStaysLatched(s: State, f: Faults)
    requires Latched(s)
    ensures Latched(RecoverOp(s, f).0)
  {
    var t := s.(journal := SyncedSlot(s.journal.seen));
    assert s.journal.seen.Some?;
    if f.synced && s.journal.seen.value.Committed? {
      var r := s.journal.seen.value;
      var u := ApplyOp(t, r, f).0;
      assert u.journal == t.journal || u.journal == PublishSlot(t.journal, Some(Applied(r.referenceDigest, r.receipt)), f.applied);
    }
  }

  lemma StepStaysLatched(s: State, step: Step)
    requires Latched(s)
    ensures Latched(Apply(s, step).0)
    ensures step.Begin? ==> Apply(s, step).1.Refused?
    ensures step.Read? || step.UpdateProfile? || step.Acknowledge? ==> Apply(s, step).1.Refused?
  {
    if !step.Outside? && !step.Crash? {
      RecoverStaysLatched(s, step.faults);
      var (t, ok) := RecoverOp(s, step.faults);
      assert t.journal.seen in t.journal.onDisk;
    }
  }

  /** Once a commit is all a crash can leave, no attempt is ever begun, read or changed
      again, whatever happens to storage. */
  lemma {:induction false} NoSecondBootstrap(s: State, steps: seq<Step>, step: Step)
    requires Latched(s)
    ensures Latched(Exec(s, steps))
    ensures step.Begin? || step.Read? || step.UpdateProfile? || step.Acknowledge? ==> Apply(Exec(s, steps), step).1.Refused?
    decreases |steps|
  {
    if steps == [] { StepStaysLatched(s, step); }
    else {
      StepStaysLatched(s, steps[0]);
      NoSecondBootstrap(Apply(s, steps[0]).0, steps[1..], step);
    }
  }

  /** Projection starts only behind the latch. */
  lemma ProjectedIsLatched(d: Storage, steps: seq<Step>)
    requires Exec(Fresh(d), steps).projected != {}
    ensures Latched(Exec(Fresh(d), steps))
  {
    RunKeepsInv(Fresh(d), steps);
    var s := Exec(Fresh(d), steps);
    var c :| c in s.projected;
    assert SettledForGood(s, c);
  }
}
