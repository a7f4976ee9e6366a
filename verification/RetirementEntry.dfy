/** Who may retire a factor and when, said of the stored accounts, sessions and credentials. */
module RetirementEntry {
  import opened Wrappers
  import opened DurableFile
  import opened Utf16
  import opened RetirementMaterial
  import opened TotpRecords
  import opened Principal
  import opened SessionPolicy
  import opened Retirement
  import opened RetirementSafety
  import Y = RetirementRecovery

  // --- the account -----------------------------------------------------------------------------

  ghost predicate Claims(u: User, userId: Text, handle: Text) { u.id == userId || u.handle == handle }

  /** `u` is at one place of the file, has both names, and no other place has either. */
  ghost predicate SoleAccount(us: seq<User>, userId: Text, handle: Text, u: User)
  {
    && u.id == userId && u.handle == handle
    && exists i :: 0 <= i < |us| && us[i] == u && forall j :: 0 <= j < |us| && j != i ==> !Claims(us[j], userId, handle)
  }

  lemma {:induction false} NoClaims(us: seq<User>, userId: Text, handle: Text)
    ensures Claimants(us, userId, handle) == [] <==> forall j :: 0 <= j < |us| ==> !Claims(us[j], userId, handle)
    decreases |us|
  {
    if us != [] {
      NoClaims(us[1..], userId, handle);
      assert forall j :: 0 < j < |us| ==> us[j] == us[1..][j - 1];
    }
  }

  lemma {:induction false} OneClaim(us: seq<User>, userId: Text, handle: Text, u: User)
    requires u.id == userId && u.handle == handle
    ensures Claimants(us, userId, handle) == [u] <==> SoleAccount(us, userId, handle, u)
    decreases |us|
  {
    if us != [] {
      var rest := us[1..];
      assert forall j :: 0 < j < |us| ==> us[j] == rest[j - 1];
      NoClaims(rest, userId, handle);
      OneClaim(rest, userId, handle, u);
      if Claims(us[0], userId, handle) {
        SoleFirst(us, userId, handle, u);
        var all := Claimants(us, userId, handle);
        assert all[0] == us[0] && all[1..] == Claimants(rest, userId, handle);
      } else {
        SoleInRest(us, userId, handle, u);
        assert [] + Claimants(rest, userId, handle) == Claimants(rest, userId, handle);
      }
    }
  }

  lemma SoleFirst(us: seq<User>, userId: Text, handle: Text, u: User)
    requires us != [] && Claims(us[0], userId, handle) && u.id == userId && u.handle == handle
    ensures SoleAccount(us, userId, handle, u) <==>
      us[0] == u && forall j :: 0 <= j < |us[1..]| ==> !Claims(us[1..][j], userId, handle)
  {
    assert forall j :: 0 < j < |us| ==> us[j] == us[1..][j - 1];
    if SoleAccount(us, userId, handle, u) {
      var i :| 0 <= i < |us| && us[i] == u && forall j :: 0 <= j < |us| && j != i ==> !Claims(us[j], userId, handle);
      forall j | 0 <= j < |us[1..]| ensures !Claims(us[1..][j], userId, handle) { assert us[1..][j] == us[j + 1]; }
    }
  }

  lemma SoleInRest(us: seq<User>, userId: Text, handle: Text, u: User)
    requires us != [] && !Claims(us[0], userId, handle) && u.id == userId && u.handle == handle
    ensures SoleAccount(us, userId, handle, u) <==> SoleAccount(us[1..], userId, handle, u)
  {
    var rest := us[1..];
    assert forall j :: 0 < j < |us| ==> us[j] == rest[j - 1];
    if SoleAccount(us, userId, handle, u) {
      var i :| 0 <= i < |us| && us[i] == u && forall j :: 0 <= j < |us| && j != i ==> !Claims(us[j], userId, handle);
      forall j | 0 <= j < |rest| && j != i - 1 ensures !Claims(rest[j], userId, handle) { assert rest[j] == us[j + 1]; }
      assert rest[i - 1] == u;
    }
    if SoleAccount(rest, userId, handle, u) {
      var i :| 0 <= i < |rest| && rest[i] == u && forall j :: 0 <= j < |rest| && j != i ==> !Claims(rest[j], userId, handle);
      assert us[i + 1] == u;
    }
  }

  ghost predicate HasRole(u: User)
  {
    u.role in {Ascii("super_admin"), Ascii("admin"), Ascii("moderator"), Ascii("editor"), Ascii("event_manager"),
               Ascii("contributor"), Ascii("member"), Ascii("viewer")}
  }

  /** An active account that is not locked, past onboarding and first login, not removed, of one
      of the eight roles, with this factor switched on. */
  ghost predicate InGoodStanding(u: User, handle: Text)
  {
    && u.isActive && u.isLocked != Some(true) && !u.needsOnboarding && u.firstLogin != Some(true)
    && u.removedAt == None && u.removedBy == None
    && HasRole(u) && u.totpEnabled && u.totpSecretId == Some(handle)
  }

  // --- the session -------------------------------------------------------------------------------

  /** A stored session of this user, begun and not over at the two readings. */
  ghost predicate LiveSession(ss: seq<Session>, b: Binding, now: Clock, x: Session)
  {
    && x in ss && x.id == b.sessionId && x.userId == b.userId
    && (x.owner.Some? ==> x.owner.value.id == b.userId && !x.owner.value.needsOnboarding)
    && x.createdAt.Some? && x.createdAt.value <= now.created && x.expires.Some? && now.expires < x.expires.value
  }

  lemma {:induction false} NamedIs(ss: seq<Session>, id: Text, x: Session)
    requires UniqueIds(ss)
    ensures SessionNamed(ss, id) == Some(x) <==> x in ss && x.id == id
    decreases |ss|
  {
    if ss != [] {
      var rest := ss[1..];
      assert forall j :: 0 < j < |ss| ==> ss[j] == rest[j - 1];
      assert UniqueIds(rest);
      NamedIs(rest, id, x);
    }
  }

  // --- both together -----------------------------------------------------------------------------

  /** What storage must hold for `now` to be the current authority of this binding. */
  ghost predicate Entitled(d: Storage, b: Binding, now: Clock, cur: Current)
  {
    && SoleAccount(Users(d), b.userId, b.handle, cur.user) && InGoodStanding(cur.user, b.handle)
    && At(d.factors, b.handle).seen == Some(cur.factor) && cur.factor.userId == b.userId && cur.factor.handle == b.handle
    && At(d.codes, b.userId).seen == cur.codes && (cur.codes.Some? ==> cur.codes.value.userId == b.userId)
    && (forall x :: x in Sessions(d) ==> WellKept(x)) && UniqueIds(Sessions(d)) && LiveSession(Sessions(d), b, now, cur.session)
  }

  lemma OwnerExactly(us: seq<User>, userId: Text, handle: Text, u: User)
    ensures Owner(us, userId, handle) == Some(u) <==> SoleAccount(us, userId, handle, u)
  {
    if u.id == userId && u.handle == handle { OneClaim(us, userId, handle, u); }
  }

  lemma GoodStandingIsComplete(u: User, handle: Text)
    ensures Complete(u, handle) <==> InGoodStanding(u, handle)
  {
    assert u.role in ADMIN_ROLES <==> HasRole(u);
  }

  lemma CurrentExactly(d: Storage, b: Binding, now: Clock, cur: Current)
    ensures CurrentOf(d, b, now) == Ok(cur) <==> Entitled(d, b, now, cur)
  {
    OwnerExactly(Users(d), b.userId, b.handle, cur.user);
    GoodStandingIsComplete(cur.user, b.handle);
    if UniqueIds(Sessions(d)) { NamedIs(Sessions(d), b.sessionId, cur.session); }
  }

  lemma CurrentSome(d: Storage, b: Binding, now: Clock)
    ensures CurrentOf(d, b, now).Ok? <==> exists cur :: Entitled(d, b, now, cur)
  {
    if CurrentOf(d, b, now).Ok? { CurrentExactly(d, b, now, CurrentOf(d, b, now).value); }
    if cur :| Entitled(d, b, now, cur) { CurrentExactly(d, b, now, cur); }
  }

  /** The callback is asked exactly with what storage then holds for the binding. */
  lemma BeginsExactlyWhen(s: State, b: Binding, now: Clock, cur: Current)
    requires s.ready
    ensures Apply(s, Begin(b, now)).pending == Some(Pending(b, cur)) <==> Entitled(s.disk, b, now, cur)
    ensures Apply(s, Begin(b, now)).pending == None <==> forall c :: !Entitled(s.disk, b, now, c)
  {
    CurrentExactly(s.disk, b, now, cur);
    CurrentSome(s.disk, b, now);
  }

  // --- commits -----------------------------------------------------------------------------------

  /** Everything that lets this decision retire the factor that `now` describes. */
  ghost predicate MayCommit(s: State, p: Pending, decision: Decision, t: Times, dates: Dates, now: Current)
  {
    && decision.Consumed? && decision.actorId == p.binding.userId && decision.resourceId == p.binding.userId
    && Entitled(s.disk, p.binding, t.current, now) && Unchanged(p.before, now, dates)
    && At(s.journal, Mac("operation", decision.receiptId)).seen == None
    && |Occupied(s.journal)| < 4096 && now.session.expires.Some? && t.expiry < now.session.expires.value
  }

  lemma MayCommitPublishes(s: State, p: Pending, decision: Decision, t: Times, dates: Dates, now: Current)
    ensures MayCommit(s, p, decision, t, dates, now) <==>
      Publishes(s, p, decision, t, dates) && CurrentOf(s.disk, p.binding, t.current) == Ok(now)
  {
    CurrentExactly(s.disk, p.binding, t.current, now);
    AuthorizedMeansUnchanged(p.before, now, dates);
  }

  /** What the commit of that factor says. */
  ghost predicate CommitSays(c: Record, b: Binding, decision: Decision, now: Current, at: int)
  {
    decision.Consumed? &&
    c == Committed(Mac("operation", decision.receiptId), b.userId, b.handle, FactorGeneration(now.factor), FactorSnapshot(now.factor),
                   RecoverySet(now.codes), Mac("authorization", decision.receiptId), decision.factorBinding, at)
  }

  ghost predicate SomeMayCommit(s: State, p: Pending, decision: Decision, t: Times, dates: Dates)
  {
    exists now :: MayCommit(s, p, decision, t, dates, now)
  }

  lemma ThenCommits(s: State, p: Pending, decision: Decision, t: Times, dates: Dates, o: Outcomes, now: Current)
    requires MayCommit(s, p, decision, t, dates, now)
    ensures DecideOp(s, p, decision, t, dates, o) ==
      CommitOp(s.(pending := None), p.binding, CommitRecord(p.binding, decision, now, t.committed), now, o)
    ensures CommitSays(CommitRecord(p.binding, decision, now, t.committed), p.binding, decision, now, t.committed)
  {
    MayCommitPublishes(s, p, decision, t, dates, now);
  }

  lemma ElseNothing(s: State, p: Pending, decision: Decision, t: Times, dates: Dates, o: Outcomes)
    requires !SomeMayCommit(s, p, decision, t, dates)
    ensures DecideOp(s, p, decision, t, dates, o).0 == s.(pending := None)
    ensures !DecideOp(s, p, decision, t, dates, o).1.Retired?
  {
    var now := CurrentOf(s.disk, p.binding, t.current);
    if now.Ok? {
      MayCommitPublishes(s, p, decision, t, dates, now.value);
      assert !MayCommit(s, p, decision, t, dates, now.value);
    }
  }


  /** With a journal that can be written, a decision commits its receipt exactly when some current
      authority lets it; otherwise nothing changes but that the decision is over. */
  lemma CommitsExactlyWhen(s: State, p: Pending, decision: Decision, t: Times, dates: Dates, o: Outcomes)
    requires !o.commit.NotRenamed? && decision.Consumed?
    requires At(s.journal, Mac("operation", decision.receiptId)).seen.None?
    ensures var u := DecideOp(s, p, decision, t, dates, o).0;
      && (At(u.journal, Mac("operation", decision.receiptId)).seen.Some? <==> SomeMayCommit(s, p, decision, t, dates))
      && (!SomeMayCommit(s, p, decision, t, dates) ==> u == s.(pending := None))
  {
    if now :| MayCommit(s, p, decision, t, dates, now) {
      ThenCommits(s, p, decision, t, dates, o, now);
      var c := CommitRecord(p.binding, decision, now, t.committed);
      Y.ApplyLeavesNames(CommittedState(s.(pending := None), p.binding, c, now, o.commit), c, o.faults, c.operationId);
    } else {
      ElseNothing(s, p, decision, t, dates, o);
    }
  }

  /** The commit names the factor and codes that storage held, and they are what it freezes. */
  lemma CommitFreezesCurrent(s: State, p: Pending, decision: Decision, t: Times, dates: Dates, o: Outcomes, now: Current, c: Record)
    requires MayCommit(s, p, decision, t, dates, now) && CommitSays(c, p.binding, decision, now, t.committed)
    ensures var u := DecideOp(s, p, decision, t, dates, o).0;
      && u.frozen == s.frozen[c.operationId := Frozen(p.binding.userId, p.binding.handle, now.factor, now.codes, s.epoch)]
      && (o.commit.NotRenamed? ==> u.journal == s.journal && u.disk == s.disk)
      && (o.commit.NotSynced? ==> At(u.journal, c.operationId).seen == Some(c) && u.disk == s.disk)
      && (o.commit.Done? ==> u.disk == ApplyRecord(CommittedState(s.(pending := None), p.binding, c, now, Done), c, o.faults).0.disk)
  {
    ThenCommits(s, p, decision, t, dates, o, now);
    ApplyKeepsFrozen(CommittedState(s.(pending := None), p.binding, c, now, o.commit), c, o.faults);
  }

  lemma ApplyKeepsFrozen(s: State, c: Record, f: Faults)
    requires c.Committed?
    ensures ApplyRecord(s, c, f).0.frozen == s.frozen
  {
    ApplyPublishes(s, c, f);
  }

  lemma ReceiptStagePublishes(s: State, c: Record, f: Faults)
    requires c.Committed?
    ensures var t := ReceiptStage(s, c, f).0;
      && t.frozen == s.frozen
      && (t.journal == s.journal ||
          t.journal == Publish(s.journal, c.operationId, Some(Applied(c.authorization, ReceiptOf(c, f.appliedAt))), f.applied))
  {}

  /** Of the journal, `apply` changes the one record, if anything. */
  lemma ApplyPublishes(s: State, c: Record, f: Faults)
    requires c.Committed?
    ensures var t := ApplyRecord(s, c, f).0;
      && t.frozen == s.frozen
      && (t.journal == s.journal ||
          t.journal == Publish(s.journal, c.operationId, Some(Applied(c.authorization, ReceiptOf(c, f.appliedAt))), f.applied))
  {
    if f.readable && Applicable(s.disk, c) {
      var (s1, ok1) := RevokeStage(s, c, f);
      if ok1 {
        var (s2, ok2) := FactorStage(s1, c, f);
        if ok2 {
          var (s3, ok3) := CodesStage(s2, c, f);
          if ok3 {
            var (s4, ok4) := FlagsStage(s3, c, f);
            if ok4 { ReceiptStagePublishes(s4, c, f); }
          }
        }
      }
    }
  }

  // --- a retirement without failures ---------------------------------------------------------------

  lemma EntitledIsApplicable(d: Storage, b: Binding, now: Clock, cur: Current, c: Record)
    requires Entitled(d, b, now, cur) && c.Committed? && c.userId == b.userId && c.handle == b.handle
    requires c.factorGeneration == FactorGeneration(cur.factor) && c.factorSnapshot == FactorSnapshot(cur.factor)
    requires c.recoverySet == RecoverySet(cur.codes)
    ensures Applicable(d, c) && Stored(Sessions(d))
  {
    OwnerExactly(Users(d), b.userId, b.handle, cur.user);
  }

  /** Without failures a decision answers with its receipt exactly when some current authority
      lets it, and then nothing of the factor, the codes or the sessions is left. */
  lemma RetiresExactlyWhen(s: State, p: Pending, decision: Decision, t: Times, dates: Dates, f: Faults)
    requires Inv(s) && s.ready && decision.Consumed? && t.committed <= f.appliedAt
    requires f == Faults(true, Done, Done, Done, Done, true, Done, f.clearedAt, f.appliedAt)
    ensures var (u, answer) := DecideOp(s, p, decision, t, dates, Outcomes(Done, f));
      && (answer.Retired? <==> SomeMayCommit(s, p, decision, t, dates))
      && forall now :: MayCommit(s, p, decision, t, dates, now) ==>
           var c := CommitRecord(p.binding, decision, now, t.committed);
           && answer == Retired(Receipt(Mac("operation", decision.receiptId), p.binding.userId, p.binding.handle,
                                        FactorGeneration(now.factor), t.committed, f.appliedAt))
           && u.ready && answer.receipt in u.receipts && RetiredForGood(u.disk, c)
  {
    var o := Outcomes(Done, f);
    forall now | MayCommit(s, p, decision, t, dates, now)
      ensures var (u, answer) := DecideOp(s, p, decision, t, dates, o);
        && answer == Retired(Receipt(Mac("operation", decision.receiptId), p.binding.userId, p.binding.handle,
                                     FactorGeneration(now.factor), t.committed, f.appliedAt))
        && u.ready && answer.receipt in u.receipts && RetiredForGood(u.disk, CommitRecord(p.binding, decision, now, t.committed))
    {
      OneRetires(s.(pending := None), p.binding, CommitRecord(p.binding, decision, now, t.committed), now, t, f);
      ThenCommits(s, p, decision, t, dates, o, now);
    }
    if !SomeMayCommit(s, p, decision, t, dates) { ElseNothing(s, p, decision, t, dates, o); }
  }

  lemma OneRetires(s: State, b: Binding, c: Record, now: Current, t: Times, f: Faults)
    requires Commits(s, b, c, now) && Entitled(s.disk, b, t.current, now) && c.committedAt == t.committed <= f.appliedAt
    requires f == Faults(true, Done, Done, Done, Done, true, Done, f.clearedAt, f.appliedAt)
    ensures var (u, answer) := CommitOp(s, b, c, now, Outcomes(Done, f));
      && answer == Retired(Receipt(c.operationId, b.userId, b.handle, c.factorGeneration, t.committed, f.appliedAt))
      && u.ready && answer.receipt in u.receipts && RetiredForGood(u.disk, c)
  {
    var v := CommittedState(s, b, c, now, Done);
    EntitledIsApplicable(s.disk, b, t.current, now, c);
    Y.AppliesExactlyWhen(v, c, f);
    CommitKeepsInv(s, b, c, now, Done);
    ApplyKeepsInv(v, c, f);
    ReceiptSays(v, c, f);
  }

  lemma ReceiptSays(s: State, c: Record, f: Faults)
    requires c.Committed? && ApplyRecord(s, c, f).1.Some?
    ensures ApplyRecord(s, c, f).1.value == Receipt(c.operationId, c.userId, c.handle, c.factorGeneration, c.committedAt, f.appliedAt)
  {}

  ghost predicate FirstWithId(us: seq<User>, userId: Text, i: nat)
  {
    i < |us| && us[i].id == userId && forall j :: 0 <= j < i ==> us[j].id != userId
  }

  /** Clearing the flags changes the first account with the id and nothing else of it. */
  lemma {:induction false} ClearsOnlyOne(us: seq<User>, userId: Text, at: int, i: nat)
    requires FirstWithId(us, userId, i)
    ensures WithFlagsCleared(us, userId, at) == us[i := us[i].(totpEnabled := false, totpSecretId := None, updatedAt := at)]
    decreases i
  {
    if i > 0 {
      forall j | 0 <= j < i - 1 ensures us[1..][j].id != userId { assert us[1..][j] == us[j + 1]; }
      ClearsOnlyOne(us[1..], userId, at, i - 1);
      assert us == [us[0]] + us[1..];
    } else {
      assert us == [us[0]] + us[1..];
    }
  }

  /** A lookup answers exactly with the applied record of that receipt, to its own user only. */
  lemma ReadsExactlyWhen(s: State, receiptId: Text, userId: Text, r: Receipt)
    ensures ReadReceipt(s, receiptId, userId) == Some(r) <==>
      At(s.journal, Mac("operation", receiptId)).seen == Some(Applied(Mac("authorization", receiptId), r)) && r.userId == userId
  {}

  // --- over whole runs -------------------------------------------------------------------------------

  /** A name without a record can have none after a crash either. */
  ghost predicate NothingHidden(j: Journal) { forall k :: At(j, k).seen.None? ==> At(j, k).onDisk == {None} }

  /** Only `op` may have gained a record. */
  ghost predicate GainsAtMost(j: Journal, i: Journal, op: Mac)
  {
    forall k :: k != op && At(j, k).seen.None? ==> At(i, k).seen.None?
  }

  lemma PublishGains(j: Journal, op: Mac, r: Record, outcome: Outcome)
    requires NothingHidden(j)
    ensures NothingHidden(Publish(j, op, Some(r), outcome)) && GainsAtMost(j, Publish(j, op, Some(r), outcome), op)
  {
    var i := Publish(j, op, Some(r), outcome);
    forall k | At(i, k).seen.None? ensures At(i, k).onDisk == {None} { assert k != op ==> At(j, k).seen.None?; }
  }

  lemma ApplyGains(s: State, c: Record, f: Faults)
    requires c.Committed? && NothingHidden(s.journal)
    ensures var t := ApplyRecord(s, c, f).0; NothingHidden(t.journal) && GainsAtMost(s.journal, t.journal, c.operationId)
  {
    ApplyPublishes(s, c, f);
    PublishGains(s.journal, c.operationId, Applied(c.authorization, ReceiptOf(c, f.appliedAt)), f.applied);
  }

  lemma {:induction false} RecoverFromGains(s: State, names: seq<Mac>, fs: map<Mac, Faults>, op: Mac)
    requires Redoing(s, names) && NothingHidden(s.journal) && At(s.journal, op).seen.None?
    ensures var t := RecoverFrom(s, names, fs).0; NothingHidden(t.journal) && At(t.journal, op).seen.None?
    decreases |names|
  {
    if names != [] && At(s.journal, names[0]).seen.Some? {
      var k := names[0];
      var r := At(s.journal, k).seen.value;
      if r.Applied? {
        RecoverFromGains(s, names[1..], fs, op);
      } else {
        SeenIsDurable(s, k);
        ApplyKeepsInv(s, r, FaultsFor(fs, k));
        ApplyGains(s, r, FaultsFor(fs, k));
        var (t, receipt) := ApplyRecord(s, r, FaultsFor(fs, k));
        if receipt.Some? {
          forall m ensures !CommittedSeen(t.journal, m) { NotSeenEither(t.journal, m); }
          RecoverFromGains(t, names[1..], fs, op);
        }
      }
    }
  }

  lemma {:induction false} RecoverFromHides(s: State, names: seq<Mac>, fs: map<Mac, Faults>)
    requires NothingHidden(s.journal)
    ensures NothingHidden(RecoverFrom(s, names, fs).0.journal)
    decreases |names|
  {
    if names != [] && At(s.journal, names[0]).seen.Some? {
      var r := At(s.journal, names[0]).seen.value;
      if r.Committed? {
        ApplyGains(s, r, FaultsFor(fs, names[0]));
        RecoverFromHides(ApplyRecord(s, r, FaultsFor(fs, names[0])).0, names[1..], fs);
      } else {
        RecoverFromHides(s, names[1..], fs);
      }
    }
  }

  lemma RecoverGains(s: State, prepared: bool, names: seq<Mac>, fs: map<Mac, Faults>)
    requires Inv(s) && NothingHidden(s.journal) && Lists(names, s.journal)
    ensures var t := RecoverOp(s, prepared, names, fs).0;
      NothingHidden(t.journal) && forall op :: At(s.journal, op).seen.None? ==> At(t.journal, op).seen.None?
  {
    if prepared {
      var v := s.(journal := SyncAll(s.journal), ready := false);
      Y.SyncedToRedo(s, names);
      ReadyIsNotRead(s.(journal := SyncAll(s.journal)), names, fs);
      RecoverFromHides(v, names, fs);
      forall op | At(s.journal, op).seen.None? ensures At(RecoverFrom(v, names, fs).0.journal, op).seen.None? {
        RecoverFromGains(v, names, fs, op);
      }
    }
  }

  lemma DecideGains(s: State, p: Pending, decision: Decision, t: Times, dates: Dates, o: Outcomes)
    requires NothingHidden(s.journal)
    ensures var u := DecideOp(s, p, decision, t, dates, o).0;
      && NothingHidden(u.journal)
      && (u.journal != s.journal ==> decision.Consumed? && SomeMayCommit(s, p, decision, t, dates)
                                     && GainsAtMost(s.journal, u.journal, Mac("operation", decision.receiptId)))
  {
    if now :| MayCommit(s, p, decision, t, dates, now) {
      ThenCommits(s, p, decision, t, dates, o, now);
      var c := CommitRecord(p.binding, decision, now, t.committed);
      var v := CommittedState(s.(pending := None), p.binding, c, now, o.commit);
      PublishGains(s.journal, c.operationId, c, o.commit);
      ApplyGains(v, c, o.faults);
    } else {
      ElseNothing(s, p, decision, t, dates, o);
    }
  }

  /** One step: a name gains its first record only by a decision some authority lets commit. */
  ghost predicate Authorized(s: State, step: Step, op: Mac)
  {
    && step.Decide? && Enabled(s, step) && step.decision.Consumed? && op == Mac("operation", step.decision.receiptId)
    && SomeMayCommit(s, s.pending.value, step.decision, step.times, step.dates)
  }

  lemma StepGains(s: State, step: Step)
    requires Inv(s) && NothingHidden(s.journal)
    ensures var t := Apply(s, step);
      && NothingHidden(t.journal)
      && forall op :: At(s.journal, op).seen.None? && At(t.journal, op).seen.Some? ==> Authorized(s, step, op)
  {
    if Enabled(s, step) {
      match step
      case Recover(prepared, names, fs) => RecoverGains(s, prepared, names, fs);
      case Begin(_, _) =>
      case Live(_) =>
      case Decide(decision, t, dates, o) => DecideGains(s, s.pending.value, decision, t, dates, o);
      case Crash(left) =>
    }
  }

  lemma {:induction false} RunHidesNothing(s: State, steps: seq<Step>)
    requires Inv(s) && NothingHidden(s.journal)
    ensures Inv(Exec(s, steps)) && NothingHidden(Exec(s, steps).journal)
    decreases |steps|
  {
    if steps != [] {
      StepKeepsInv(s, steps[0]);
      StepGains(s, steps[0]);
      RunHidesNothing(Apply(s, steps[0]), steps[1..]);
    }
  }

  /** In every run a receipt first gets a record only by a decision with a consumed proof, at a
      moment when storage holds a sole account in good standing, a live session, the factor and
      codes of the binding, and all of them are what the callback was asked about. */
  lemma EveryCommitIsAuthorized(d: Storage, steps: seq<Step>, step: Step, op: Mac)
    requires SoundStorage(d)
    requires var s := Exec(Fresh(d), steps); At(s.journal, op).seen.None? && At(Apply(s, step).journal, op).seen.Some?
    ensures Authorized(Exec(Fresh(d), steps), step, op)
  {
    RunHidesNothing(Fresh(d), steps);
    StepGains(Exec(Fresh(d), steps), step);
  }
}
