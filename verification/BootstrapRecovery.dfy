/** A committed bootstrap, crashed and replayed while its factor and codes are already in
    use, ends with exactly the frozen account and undoes no use. */
module BootstrapRecovery {
  import opened Wrappers
  import opened DurableFile
  import opened Utf16
  import opened TotpRecords
  import opened Bootstrap
  import opened BootstrapSafety

  // --- use ----------------------------------------------------------------------------

  /** The same factor, verified again at the same or a later step. */
  ghost predicate FactorUsed(f: Factor, g: Factor) { SameFactor(g, f) }

  /** The same codes, some more of them used. */
  ghost predicate CodesUsed(k: BackupCodeSet, l: BackupCodeSet)
  {
    && k.userId == l.userId && k.generatedAt == l.generatedAt && |k.codes| == |l.codes|
    && forall i :: 0 <= i < |k.codes| ==>
         k.codes[i].id == l.codes[i].id && k.codes[i].hash == l.codes[i].hash && (k.codes[i].used ==> l.codes[i].used)
  }

  /** Every version on disk is one that was there or a use of the visible one. */
  ghost predicate SlotUsed<V(!new)>(was: Slot<V>, now: Slot<V>, used: (V, V) -> bool)
  {
    && now.seen in now.onDisk && now.seen.Some? == was.seen.Some?
    && forall v :: v in now.onDisk ==>
         v in was.onDisk || (v.Some? && was.seen.Some? && used(was.seen.value, v.value))
  }

  /** Storage changes only by use of factors and codes. */
  ghost predicate UseOnly(d: Storage, e: Storage)
  {
    && e.users == d.users && e.profiles == d.profiles && Sound(e.factors) && Sound(e.codes)
    && (forall h :: SlotUsed(At(d.factors, h), At(e.factors, h), (f, g) => FactorUsed(f, g)))
    && (forall h :: SlotUsed(At(d.codes, h), At(e.codes, h), (k, l) => CodesUsed(k, l)))
  }

  // --- codes ---------------------------------------------------------------------------------

  lemma {:induction false} FindAt(codes: seq<BackupCode>, i: nat)
    requires i < |codes| && Distinct(Ids(codes))
    ensures Find(codes, codes[i].id) == Some(codes[i])
    decreases |codes|
  {
    if i > 0 {
      assert Ids(codes)[0] != Ids(codes)[i];
      forall a, b | 0 <= a < b < |codes[1..]| ensures Ids(codes[1..])[a] != Ids(codes[1..])[b] {
        assert Ids(codes)[a + 1] != Ids(codes)[b + 1];
      }
      FindAt(codes[1..], i - 1);
    }
  }

  lemma {:induction false} FindUsed(k: seq<BackupCode>, l: seq<BackupCode>, id: Text)
    requires |k| == |l| && forall i :: 0 <= i < |k| ==> k[i].id == l[i].id && k[i].hash == l[i].hash
    ensures Find(k, id).Some? == Find(l, id).Some?
    ensures Find(k, id).Some? ==> Find(k, id).value.hash == Find(l, id).value.hash
    decreases |k|
  {
    if k != [] && k[0].id != id { FindUsed(k[1..], l[1..], id); }
  }

  lemma CodesStaySame(k: BackupCodeSet, l: BackupCodeSet, frozen: BackupCodeSet)
    requires SameCodes(k, frozen) && CodesUsed(k, l)
    ensures SameCodes(l, frozen)
  {
    assert Ids(k.codes) == Ids(l.codes);
    forall c | c in frozen.codes ensures Find(l.codes, c.id).Some? && Find(l.codes, c.id).value.hash == c.hash {
      FindUsed(k.codes, l.codes, c.id);
    }
  }

  lemma FrozenIsSame(c: Completion)
    requires CompletionOk(c)
    ensures SameAccount(c.user, c.user) && SameFactor(c.factor, c.factor) && SameCodes(c.codes, c.codes)
  {
    forall k | k in c.codes.codes ensures Find(c.codes.codes, k.id) == Some(k) {
      var i :| 0 <= i < |c.codes.codes| && c.codes.codes[i] == k;
      FindAt(c.codes.codes, i);
    }
  }

  // --- prefixes of a projection --------------------------------------------------------------------

  /** Now and after any crash, storage holds a prefix of the projection: each file absent or
      as frozen up to later use, and the account only over factor and codes. */
  ghost predicate Prefix(d: Storage, c: Completion)
  {
    var factor, codes := At(d.factors, c.user.handle), At(d.codes, c.user.id);
    && d.users.seen in d.users.onDisk && Sound(d.factors) && Sound(d.codes)
    && d.users.onDisk <= {None, Some([]), Some([c.user])}
    && (forall v :: v in factor.onDisk && v.Some? ==> SameFactor(v.value, c.factor))
    && (forall v :: v in codes.onDisk && v.Some? ==> SameCodes(v.value, c.codes))
    && (Some([c.user]) in d.users.onDisk ==> None !in factor.onDisk && None !in codes.onDisk)
  }

  /** The projection check accepts every prefix. */
  lemma PrefixAccepted(d: Storage, c: Completion)
    requires Prefix(d, c) && CompletionOk(c)
    ensures CheckProjection(d, c, false)
    ensures Users(d) == [c.user] ==> CheckProjection(d, c, true)
  {
    FrozenIsSame(c);
    assert At(d.factors, c.user.handle).seen in At(d.factors, c.user.handle).onDisk;
    assert At(d.codes, c.user.id).seen in At(d.codes, c.user.id).onDisk;
  }

  /** Wherever it stops, the projection leaves a prefix; when it gets through, all of it. */
  lemma ProjectKeepsPrefix(d: Storage, c: Completion, p: Projection)
    requires Prefix(d, c) && CompletionOk(c)
    ensures var (e, ok) := Project(d, c, p);
      && Prefix(e, c)
      && (ok ==> e.users == SyncedSlot(Some([c.user])))
  {
    FrozenIsSame(c);
    var d1 := d.(factors := Ensured(d.factors, c.user.handle, c.factor, p.factor));
    assert Prefix(d1, c);
    if p.factor.Done? {
      var d2 := d1.(codes := Ensured(d1.codes, c.user.id, c.codes, p.codes));
      assert Prefix(d2, c);
      if p.codes.Done? && p.profile.Done? {
        var d3 := if c.profile.None? then d2 else d2.(profiles := Ensured(d2.profiles, c.user.handle, c.profile.value, p.profile));
        assert Prefix(d3, c);
        UserEnsuredKeepsPrefix(d3, c, p.user);
      }
    }
  }

  lemma UserEnsuredKeepsPrefix(d: Storage, c: Completion, outcome: Outcome)
    requires Prefix(d, c)
    requires None !in At(d.factors, c.user.handle).onDisk && None !in At(d.codes, c.user.id).onDisk
    ensures var e := d.(users := UserEnsured(d.users, c.user, outcome));
      Prefix(e, c) && (outcome.Done? ==> e.users == SyncedSlot(Some([c.user])))
  {
    assert d.users.seen in {None, Some([]), Some([c.user])};
    if d.users.seen == Some([c.user]) { assert [c.user][0].id == c.user.id; }
    assert [] + [c.user] == [c.user];
  }

  // --- replays ---------------------------------------------------------------------------------------

  /** `r` is the commit of `c` or, over a finished projection, its receipt. */
  ghost predicate RecordOf(r: Option<Record>, d: Storage, c: Completion)
  {
    && r.Some?
    && match r.value
       case Reserved(_) => false
       case Committed(_, e, receipt) => e == c && ReceiptFor(receipt, c)
       case Applied(_, receipt) => ReceiptFor(receipt, c) && d.users.onDisk == {Some([c.user])}
  }

  ghost predicate Underway(s: State, c: Completion)
  {
    && CompletionOk(c) && Prefix(s.disk, c)
    && s.journal.seen in s.journal.onDisk && forall r :: r in s.journal.onDisk ==> RecordOf(r, s.disk, c)
  }

  lemma RecoverStaysUnderway(s: State, c: Completion, f: Faults)
    requires Underway(s, c)
    ensures Underway(RecoverOp(s, f).0, c)
  {
    assert RecordOf(s.journal.seen, s.disk, c);
    if f.synced {
      var t := s.(journal := SyncedSlot(s.journal.seen));
      var r := s.journal.seen.value;
      if r.Committed? && f.decryptable {
        PrefixAccepted(t.disk, c);
        ProjectKeepsPrefix(t.disk, c, f.projection);
        var (d, ok) := Project(t.disk, c, f.projection);
        var u := RecoverOp(s, f).0;
        assert u.disk == d;
        assert u.journal == t.journal || (ok && u.journal == PublishSlot(t.journal, Some(Applied(r.referenceDigest, r.receipt)), f.applied));
      }
    }
  }

  lemma CrashStaysUnderway(s: State, c: Completion, left: Leftover)
    requires Underway(s, c)
    ensures Underway(CrashOp(s, left), c)
  {
    var t := CrashOp(s, left);
    DiskStaysSound(s.disk.factors, [], None, NotRenamed, left.factors);
    DiskStaysSound(s.disk.codes, [], None, NotRenamed, left.codes);
    assert At(t.disk.factors, c.user.handle).onDisk <= At(s.disk.factors, c.user.handle).onDisk;
    assert At(t.disk.codes, c.user.id).onDisk <= At(s.disk.codes, c.user.id).onDisk;
    assert t.disk.users.onDisk <= s.disk.users.onDisk;
  }

  lemma UseStaysUnderway(s: State, c: Completion, next: Storage)
    requires Underway(s, c) && UseOnly(s.disk, next)
    ensures Underway(s.(disk := next), c)
  {
    var h, u := c.user.handle, c.user.id;
    assert SlotUsed(At(s.disk.factors, h), At(next.factors, h), (f, g) => FactorUsed(f, g));
    assert SlotUsed(At(s.disk.codes, u), At(next.codes, u), (k, l) => CodesUsed(k, l));
    assert At(s.disk.factors, h).seen in At(s.disk.factors, h).onDisk;
    assert At(s.disk.codes, u).seen in At(s.disk.codes, u).onDisk;
    forall v | v in At(next.codes, u).onDisk && v.Some? ensures SameCodes(v.value, c.codes) {
      if v !in At(s.disk.codes, u).onDisk { CodesStaySame(At(s.disk.codes, u).seen.value, v.value, c.codes); }
    }
  }

  /** Behind the latch every operation is a recovery. */
  lemma LatchedStepIsRecovery(s: State, step: Step)
    requires Latched(s) && !step.Outside? && !step.Crash?
    ensures Apply(s, step).0 == RecoverOp(s, step.faults).0 ||
            (step.Complete? && |step.proof.codeIds| != CODE_COUNT && Apply(s, step).0 == s)
  {
    RecoverStaysLatched(s, step.faults);
    var t := RecoverOp(s, step.faults).0;
    assert t.journal.seen in t.journal.onDisk;
    assert s.journal.seen in s.journal.onDisk;
  }

  /** Nobody but the coordinator changes storage except by using factors and codes. */
  ghost predicate Undisturbed(s: State, steps: seq<Step>)
    decreases |steps|
  {
    steps != [] ==> (steps[0].Outside? ==> UseOnly(s.disk, steps[0].next)) && Undisturbed(Apply(s, steps[0]).0, steps[1..])
  }

  lemma StepStaysUnderway(s: State, c: Completion, step: Step)
    requires Underway(s, c) && (step.Outside? ==> UseOnly(s.disk, step.next))
    ensures Underway(Apply(s, step).0, c)
  {
    if step.Outside? { UseStaysUnderway(s, c, step.next); }
    else if step.Crash? { CrashStaysUnderway(s, c, step.left); }
    else {
      LatchedStepIsRecovery(s, step);
      RecoverStaysUnderway(s, c, step.faults);
    }
  }

  lemma {:induction false} RunStaysUnderway(s: State, c: Completion, steps: seq<Step>)
    requires Underway(s, c) && Undisturbed(s, steps)
    ensures Underway(Exec(s, steps), c)
    decreases |steps|
  {
    if steps != [] {
      StepStaysUnderway(s, c, steps[0]);
      RunStaysUnderway(Apply(s, steps[0]).0, c, steps[1..]);
    }
  }

  predicate Smooth(f: Faults)
  {
    && f.synced && f.decryptable && f.applied.Done? && f.projection.finished
    && f.projection.factor.Done? && f.projection.codes.Done? && f.projection.profile.Done? && f.projection.user.Done?
  }

  lemma SmoothRecoveryFinishes(s: State, c: Completion, f: Faults)
    requires Underway(s, c) && Smooth(f)
    ensures var (t, ok) := RecoverOp(s, f);
      && ok && Underway(t, c) && t.disk.users == SyncedSlot(Some([c.user])) && t.journal == SyncedSlot(t.journal.seen)
      && t.journal.seen.Some? && t.journal.seen.value.Applied?
  {
    RecoverStaysUnderway(s, c, f);
    assert RecordOf(s.journal.seen, s.disk, c);
    PrefixAccepted(s.disk, c);
    ProjectKeepsPrefix(s.disk, c, f.projection);
    var d := Project(s.disk, c, f.projection).0;
    PrefixAccepted(d, c);
    assert s.disk.users.seen in s.disk.users.onDisk;
  }

  /** Storage as a commit finds it: no account, and nothing of the candidate's. */
  ghost predicate StartsEmpty(d: Storage, c: Completion)
  {
    && d.users.seen in d.users.onDisk && Sound(d.factors) && Sound(d.codes)
    && d.users.onDisk <= {None, Some([])}
    && At(d.factors, c.user.handle) == SyncedSlot(None) && At(d.codes, c.user.id) == SyncedSlot(None)
  }

  /** After a durable commit, any crashes, failed recoveries and uses later, one recovery
      without failures ends applied, with exactly the frozen account over its factor and codes. */
  lemma BootstrapConverges(s: State, r: Record, steps: seq<Step>, f: Faults)
    requires r.Committed? && RecordOk(r) && s.journal == SyncedSlot(Some(r)) && StartsEmpty(s.disk, r.completion)
    requires Undisturbed(s, steps) && Smooth(f)
    ensures var (t, ok) := RecoverOp(Exec(s, steps), f); var c := r.completion;
      && ok && t.journal.seen.Some? && t.journal.seen.value.Applied? && t.journal.seen.value.receipt == r.receipt
      && t.disk.users == SyncedSlot(Some([c.user]))
      && FactorOf(t.disk, c.user.handle).Some? && SameFactor(FactorOf(t.disk, c.user.handle).value, c.factor)
      && CodesFor(t.disk, c.user.id).Some? && SameCodes(CodesFor(t.disk, c.user.id).value, c.codes)
  {
    var c := r.completion;
    assert Underway(s, c);
    RunStaysUnderway(s, c, steps);
    SmoothRecoveryFinishes(Exec(s, steps), c, f);
    var t := RecoverOp(Exec(s, steps), f).0;
    assert RecordOf(t.journal.seen, t.disk, c);
    assert At(t.disk.factors, c.user.handle).seen in At(t.disk.factors, c.user.handle).onDisk;
    assert At(t.disk.codes, c.user.id).seen in At(t.disk.codes, c.user.id).onDisk;
  }

  // --- use is never undone ---------------------------------------------------------------------------

  /** No version on disk is from before these uses. */
  ghost predicate KeepsUse(d: Storage, c: Completion, f: Factor, k: BackupCodeSet)
  {
    && Sound(d.factors) && Sound(d.codes)
    && (forall v :: v in At(d.factors, c.user.handle).onDisk ==> v.Some? && FactorUsed(f, v.value))
    && (forall v :: v in At(d.codes, c.user.id).onDisk ==> v.Some? && CodesUsed(k, v.value))
  }

  lemma CodesUsedTransitive(k: BackupCodeSet, l: BackupCodeSet, m: BackupCodeSet)
    requires CodesUsed(k, l) && CodesUsed(l, m)
    ensures CodesUsed(k, m)
  {
    forall i | 0 <= i < |k.codes|
      ensures k.codes[i].id == m.codes[i].id && k.codes[i].hash == m.codes[i].hash && (k.codes[i].used ==> m.codes[i].used)
    {
      assert k.codes[i].id == l.codes[i].id && l.codes[i].id == m.codes[i].id;
    }
  }

  lemma ProjectKeepsUse(d: Storage, c: Completion, p: Projection, f: Factor, k: BackupCodeSet)
    requires KeepsUse(d, c, f, k)
    ensures KeepsUse(Project(d, c, p).0, c, f, k)
  {}

  lemma UseKeepsUse(d: Storage, e: Storage, c: Completion, f: Factor, k: BackupCodeSet)
    requires KeepsUse(d, c, f, k) && UseOnly(d, e)
    ensures KeepsUse(e, c, f, k)
  {
    var h, u := c.user.handle, c.user.id;
    assert SlotUsed(At(d.factors, h), At(e.factors, h), (x, y) => FactorUsed(x, y));
    assert SlotUsed(At(d.codes, u), At(e.codes, u), (x, y) => CodesUsed(x, y));
    assert At(d.factors, h).seen in At(d.factors, h).onDisk && At(d.codes, u).seen in At(d.codes, u).onDisk;
    forall v | v in At(e.codes, u).onDisk ensures v.Some? && CodesUsed(k, v.value) {
      if v !in At(d.codes, u).onDisk { CodesUsedTransitive(k, At(d.codes, u).seen.value, v.value); }
    }
  }

  lemma CrashKeepsUse(d: Storage, c: Completion, left: Leftover, f: Factor, k: BackupCodeSet)
    requires KeepsUse(d, c, f, k)
    ensures KeepsUse(CrashedStorage(d, left), c, f, k)
  {
    DiskStaysSound(d.factors, [], None, NotRenamed, left.factors);
    DiskStaysSound(d.codes, [], None, NotRenamed, left.codes);
    var e := CrashedStorage(d, left);
    assert At(e.factors, c.user.handle).onDisk <= At(d.factors, c.user.handle).onDisk;
    assert At(e.codes, c.user.id).onDisk <= At(d.codes, c.user.id).onDisk;
  }

  lemma RecoverKeepsUse(s: State, c: Completion, faults: Faults, f: Factor, k: BackupCodeSet)
    requires Underway(s, c) && KeepsUse(s.disk, c, f, k)
    ensures KeepsUse(RecoverOp(s, faults).0.disk, c, f, k)
  {
    assert RecordOf(s.journal.seen, s.disk, c);
    ProjectKeepsUse(s.disk, c, faults.projection, f, k);
  }

  lemma StepKeepsUse(s: State, c: Completion, step: Step, f: Factor, k: BackupCodeSet)
    requires Underway(s, c) && KeepsUse(s.disk, c, f, k) && (step.Outside? ==> UseOnly(s.disk, step.next))
    ensures KeepsUse(Apply(s, step).0.disk, c, f, k)
  {
    if step.Outside? { UseKeepsUse(s.disk, step.next, c, f, k); }
    else if step.Crash? {
      CrashKeepsUse(s.disk, c, step.left, f, k);
    } else {
      LatchedStepIsRecovery(s, step);
      RecoverKeepsUse(s, c, step.faults, f, k);
    }
  }

  /** Once a step and used codes are durable, no crash, replay or later use brings back a
      lower step or an unused code. */
  lemma {:induction false} UseIsNeverUndone(s: State, c: Completion, steps: seq<Step>, f: Factor, k: BackupCodeSet)
    requires Underway(s, c) && Undisturbed(s, steps) && KeepsUse(s.disk, c, f, k)
    ensures var d := Exec(s, steps).disk;
      && FactorOf(d, c.user.handle).Some? && SameFactor(FactorOf(d, c.user.handle).value, f)
      && CodesFor(d, c.user.id).Some? && CodesUsed(k, CodesFor(d, c.user.id).value)
    decreases |steps|
  {
    if steps == [] {
      assert At(s.disk.factors, c.user.handle).seen in At(s.disk.factors, c.user.handle).onDisk;
      assert At(s.disk.codes, c.user.id).seen in At(s.disk.codes, c.user.id).onDisk;
    } else {
      StepStaysUnderway(s, c, steps[0]);
      StepKeepsUse(s, c, steps[0], f, k);
      UseIsNeverUndone(Apply(s, steps[0]).0, c, steps[1..], f, k);
    }
  }
}
