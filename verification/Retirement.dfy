/** Retiring a user's own factor: a redo log over four effects in a fixed order.

    Every call runs alone under the enrollment gate and starts with recovery. Once a recovery
    has succeeded, other gated work may change storage in any way, and leave any of its writes
    for a crash to undo. */
module Retirement {
  import opened Wrappers
  import opened DurableFile
  import opened Utf16
  import opened RetirementMaterial
  import opened TotpRecords
  import opened Principal
  import opened SessionPolicy

  const MAX_RECORDS := 4096

  const ADMIN_ROLES: set<Text> :=
    {Ascii("super_admin"), Ascii("admin"), Ascii("moderator"), Ascii("editor"),
     Ascii("event_manager"), Ascii("contributor"), Ascii("member"), Ascii("viewer")}

  // --- storage ------------------------------------------------------------------------

  /** The account and session files, and one file per factor handle and per code owner. */
  datatype Storage = Storage(users: Slot<seq<User>>, sessions: Slot<seq<Session>>,
                             factors: Directory<Text, Factor>, codes: Directory<Text, BackupCodeSet>)

  function OrEmpty<T>(o: Option<seq<T>>): seq<T> { if o.None? then [] else o.value }

  function Users(d: Storage): seq<User> { OrEmpty(d.users.seen) }

  function Sessions(d: Storage): seq<Session> { OrEmpty(d.sessions.seen) }

  function FactorOf(d: Storage, handle: Text): Option<Factor> { At(d.factors, handle).seen }

  function CodesFor(d: Storage, userId: Text): Option<BackupCodeSet> { At(d.codes, userId).seen }

  predicate Names(u: User, userId: Text, handle: Text) { u.id == userId || u.handle == handle }

  function Claimants(us: seq<User>, userId: Text, handle: Text): seq<User>
  {
    if us == [] then []
    else (if Names(us[0], userId, handle) then [us[0]] else []) + Claimants(us[1..], userId, handle)
  }

  /** The one account that has both names, when no other account has either. */
  function Owner(us: seq<User>, userId: Text, handle: Text): Option<User>
  {
    var c := Claimants(us, userId, handle);
    if |c| == 1 && c[0].id == userId && c[0].handle == handle then Some(c[0]) else None
  }

  predicate NoSecret(u: User) { u.totpSecretId.None? || u.totpSecretId.value == [] }

  predicate Cleared(u: User) { !u.totpEnabled && NoSecret(u) }

  predicate FlagsConsistent(u: User, handle: Text)
  {
    (u.totpEnabled && u.totpSecretId == Some(handle)) || Cleared(u)
  }

  predicate HasSessions(ss: seq<Session>, userId: Text) { exists s :: s in ss && s.userId == userId }

  // --- the journal ---------------------------------------------------------------------

  /** A keyed digest of a receipt id. */
  datatype Mac = Mac(domain: string, text: Text)

  datatype Receipt = Receipt(operationId: Mac, userId: Text, handle: Text, factorGeneration: Digest,
                             committedAt: int, appliedAt: int)

  datatype Record =
    | Committed(operationId: Mac, userId: Text, handle: Text, factorGeneration: Digest, factorSnapshot: Digest,
                recoverySet: Option<Digest>, authorization: Mac, factorBinding: Text, committedAt: int)
    | Applied(authorization: Mac, receipt: Receipt)

  type Journal = Directory<Mac, Record>

  // --- the four effects -------------------------------------------------------------------

  /** `deleteUserSessions`: refuse a malformed store, otherwise rewrite it without the user's. */
  function DeleteUserSessions(d: Storage, userId: Text, outcome: Outcome): (Storage, bool)
  {
    if !Stored(Sessions(d)) then (d, false)
    else (d.(sessions := PublishSlot(d.sessions, Some(Others(Sessions(d), userId)), outcome)), outcome.Done?)
  }

  /** Compare the visible file, unlink it, sync its directory; sync even when it is gone. */
  function DeleteExpected<K(==), V(==)>(dir: Directory<K, V>, k: K, matches: bool, outcome: Outcome): (Directory<K, V>, bool)
  {
    if At(dir, k).seen.None? then (if outcome.Done? then SyncAll(dir) else dir, outcome.Done?)
    else if !matches then (dir, false)
    else (Publish(dir, k, None, outcome), outcome.Done?)
  }

  predicate SnapshotIs(f: Option<Factor>, expected: Digest) { f.None? || FactorSnapshot(f.value) == expected }

  /** No stored set matches the absence a `null` digest stands for. */
  predicate RecoverySetIs(s: Option<BackupCodeSet>, expected: Option<Digest>)
  {
    s.None? || (expected.Some? && RecoverySet(s) == expected)
  }

  function DeleteFactor(d: Storage, handle: Text, expected: Digest, outcome: Outcome): (Storage, bool)
  {
    var (dir, ok) := DeleteExpected(d.factors, handle, SnapshotIs(FactorOf(d, handle), expected), outcome);
    (d.(factors := dir), ok)
  }

  function DeleteCodes(d: Storage, userId: Text, expected: Option<Digest>, outcome: Outcome): (Storage, bool)
  {
    var (dir, ok) := DeleteExpected(d.codes, userId, RecoverySetIs(CodesFor(d, userId), expected), outcome);
    (d.(codes := dir), ok)
  }

  /** `updateUser` with `totpEnabled: false` and no secret id, on the first account with the id. */
  function WithFlagsCleared(us: seq<User>, userId: Text, at: int): (r: seq<User>)
    ensures |r| == |us|
  {
    if us == [] then []
    else if us[0].id == userId then [us[0].(totpEnabled := false, totpSecretId := None, updatedAt := at)] + us[1..]
    else [us[0]] + WithFlagsCleared(us[1..], userId, at)
  }

  function ClearFlags(d: Storage, userId: Text, handle: Text, at: int, outcome: Outcome): (Storage, bool)
  {
    var owner := Owner(Users(d), userId, handle);
    if owner.None? || !FlagsConsistent(owner.value, handle) then (d, false)
    else (d.(users := PublishSlot(d.users, Some(WithFlagsCleared(Users(d), userId, at)), outcome)), outcome.Done?)
  }

  // --- the state --------------------------------------------------------------------------------

  datatype Binding = Binding(userId: Text, handle: Text, sessionId: Text)

  /** What `current` reads. */
  datatype Current = Current(user: User, session: Session, factor: Factor, codes: Option<BackupCodeSet>)

  datatype Pending = Pending(binding: Binding, before: Current)

  /** What a commit froze, and how many live changes storage had seen by then. */
  datatype Frozen = Frozen(userId: Text, handle: Text, factor: Factor, codes: Option<BackupCodeSet>, epoch: nat)

  /** A credential that was unlinked, and how many live changes storage had seen by then. */
  datatype Deletion =
    | FactorGone(op: Mac, handle: Text, factor: Factor, epoch: nat)
    | CodesGone(op: Mac, userId: Text, codes: BackupCodeSet, epoch: nat)

  /** `ready` holds from a successful recovery until a crash or a failed retirement;
      `frozen`, `deleted`, `receipts` and `epoch` record history. */
  datatype State = State(disk: Storage, journal: Journal, ready: bool, pending: Option<Pending>,
                         frozen: map<Mac, Frozen>, deleted: set<Deletion>, receipts: set<Receipt>, epoch: nat)

  // --- apply -------------------------------------------------------------------------------------

  /** How each part of one `apply` goes, and the clock readings it takes. */
  datatype Faults = Faults(readable: bool, sessions: Outcome, factor: Outcome, codes: Outcome, flags: Outcome,
                           verifiable: bool, applied: Outcome, clearedAt: int, appliedAt: int)

  predicate FactorMatches(f: Option<Factor>, c: Record)
    requires c.Committed?
  {
    f.None? || (f.value.userId == c.userId && f.value.handle == c.handle &&
                FactorGeneration(f.value) == c.factorGeneration && FactorSnapshot(f.value) == c.factorSnapshot)
  }

  predicate CodesMatch(s: Option<BackupCodeSet>, c: Record)
    requires c.Committed?
  {
    s.None? || (s.value.userId == c.userId && RecoverySet(s) == c.recoverySet)
  }

  predicate OwnerReady(us: seq<User>, c: Record)
    requires c.Committed?
  {
    var owner := Owner(us, c.userId, c.handle);
    owner.Some? && FlagsConsistent(owner.value, c.handle)
  }

  /** The checks before the first effect. */
  predicate Applicable(d: Storage, c: Record)
    requires c.Committed?
  {
    OwnerReady(Users(d), c) && FactorMatches(FactorOf(d, c.handle), c) && CodesMatch(CodesFor(d, c.userId), c)
  }

  /** The checks after the last effect. */
  predicate Gone(d: Storage, c: Record)
    requires c.Committed?
  {
    var owner := Owner(Users(d), c.userId, c.handle);
    && FactorOf(d, c.handle).None? && CodesFor(d, c.userId).None?
    && Stored(Sessions(d)) && !HasSessions(Sessions(d), c.userId)
    && owner.Some? && Cleared(owner.value)
  }

  function FactorDeleted(s: State, c: Record, outcome: Outcome): set<Deletion>
    requires c.Committed?
  {
    var f := FactorOf(s.disk, c.handle);
    if f.Some? && SnapshotIs(f, c.factorSnapshot) && !outcome.NotRenamed?
    then s.deleted + {FactorGone(c.operationId, c.handle, f.value, s.epoch)} else s.deleted
  }

  function CodesDeleted(s: State, c: Record, outcome: Outcome): set<Deletion>
    requires c.Committed?
  {
    var k := CodesFor(s.disk, c.userId);
    if k.Some? && RecoverySetIs(k, c.recoverySet) && !outcome.NotRenamed?
    then s.deleted + {CodesGone(c.operationId, c.userId, k.value, s.epoch)} else s.deleted
  }

  function RevokeStage(s: State, c: Record, f: Faults): (State, bool)
    requires c.Committed?
  {
    var (d, ok) := DeleteUserSessions(s.disk, c.userId, f.sessions);
    (s.(disk := d), ok && !HasSessions(Sessions(d), c.userId))
  }

  function FactorStage(s: State, c: Record, f: Faults): (State, bool)
    requires c.Committed?
  {
    var (d, ok) := DeleteFactor(s.disk, c.handle, c.factorSnapshot, f.factor);
    (s.(disk := d, deleted := FactorDeleted(s, c, f.factor)), ok)
  }

  function CodesStage(s: State, c: Record, f: Faults): (State, bool)
    requires c.Committed?
  {
    var (d, ok) := DeleteCodes(s.disk, c.userId, c.recoverySet, f.codes);
    (s.(disk := d, deleted := CodesDeleted(s, c, f.codes)), ok)
  }

  function FlagsStage(s: State, c: Record, f: Faults): (State, bool)
    requires c.Committed?
  {
    var (d, ok) := ClearFlags(s.disk, c.userId, c.handle, f.clearedAt, f.flags);
    (s.(disk := d), ok)
  }

  function ReceiptOf(c: Record, at: int): Receipt
    requires c.Committed?
  {
    Receipt(c.operationId, c.userId, c.handle, c.factorGeneration, c.committedAt, at)
  }

  /** Publish the receipt, unless the clock fell behind the commit. */
  function ReceiptStage(s: State, c: Record, f: Faults): (State, Option<Receipt>)
    requires c.Committed?
  {
    var r := ReceiptOf(c, f.appliedAt);
    if !f.verifiable || !Gone(s.disk, c) || r.appliedAt < r.committedAt then (s, None)
    else
      var t := s.(journal := Publish(s.journal, c.operationId, Some(Applied(c.authorization, r)), f.applied));
      if f.applied.Done? then (t.(receipts := s.receipts + {r}), Some(r)) else (t, None)
  }

  /** `apply`, each stage only after the one before it is acknowledged. */
  function ApplyRecord(s: State, c: Record, f: Faults): (State, Option<Receipt>)
    requires c.Committed?
  {
    if !f.readable || !Applicable(s.disk, c) then (s, None)
    else
      var (s1, ok1) := RevokeStage(s, c, f);
      if !ok1 then (s1, None)
      else
        var (s2, ok2) := FactorStage(s1, c, f);
        if !ok2 then (s2, None)
        else
          var (s3, ok3) := CodesStage(s2, c, f);
          if !ok3 then (s3, None)
          else
            var (s4, ok4) := FlagsStage(s3, c, f);
            if !ok4 then (s4, None) else ReceiptStage(s4, c, f)
  }

  // --- recovery ------------------------------------------------------------------------------------

  const SMOOTH := Faults(true, Done, Done, Done, Done, true, Done, 0, 0)

  function FaultsFor(fs: map<Mac, Faults>, op: Mac): Faults { if op in fs then fs[op] else SMOOTH }

  function RecoverFrom(s: State, names: seq<Mac>, fs: map<Mac, Faults>): (State, bool)
    decreases |names|
  {
    if names == [] then (s, true)
    else
      var seen := At(s.journal, names[0]).seen;
      if seen.None? then (s, false)
      else if seen.value.Applied? then RecoverFrom(s, names[1..], fs)
      else
        var (t, receipt) := ApplyRecord(s, seen.value, FaultsFor(fs, names[0]));
        if receipt.None? then (t, false) else RecoverFrom(t, names[1..], fs)
  }

  /** Sync the directory, then redo every committed record. */
  function RecoverOp(s: State, prepared: bool, names: seq<Mac>, fs: map<Mac, Faults>): (State, bool)
  {
    if !prepared then (s.(ready := false), false)
    else
      var (t, ok) := RecoverFrom(s.(journal := SyncAll(s.journal)), names, fs);
      (t.(ready := ok), ok)
  }

  // --- retire -----------------------------------------------------------------------------------------

  datatype Refusal = Unauthorized | Conflict | RecoveryRequired

  /** The two clock readings of the session check. */
  datatype Clock = Clock(created: int, expires: int)

  predicate Complete(u: User, handle: Text)
  {
    && u.isActive && u.isLocked != Some(true) && !u.needsOnboarding && u.firstLogin != Some(true)
    && u.removedAt.None? && u.removedBy.None? && u.role in ADMIN_ROLES
    && u.totpEnabled && u.totpSecretId == Some(handle)
  }

  function SessionNamed(ss: seq<Session>, id: Text): Option<Session>
  {
    if ss == [] then None else if ss[0].id == id then Some(ss[0]) else SessionNamed(ss[1..], id)
  }

  predicate SessionCurrent(s: Session, userId: Text, now: Clock)
  {
    && s.userId == userId
    && (s.owner.Some? ==> s.owner.value.id == userId && !s.owner.value.needsOnboarding)
    && s.createdAt.Some? && s.createdAt.value <= now.created
    && s.expires.Some? && now.expires < s.expires.value
  }

  /** `current`: account, factor and codes first, the session last. */
  function CurrentOf(d: Storage, b: Binding, now: Clock): Result<Current, Refusal>
  {
    var owner := Owner(Users(d), b.userId, b.handle);
    var factor, codes := FactorOf(d, b.handle), CodesFor(d, b.userId);
    if owner.None? then Err(Conflict)
    else if !Complete(owner.value, b.handle) then Err(Unauthorized)
    else if factor.None? || factor.value.userId != b.userId || factor.value.handle != b.handle then Err(Conflict)
    else if codes.Some? && codes.value.userId != b.userId then Err(Conflict)
    else if !Stored(Sessions(d)) then Err(RecoveryRequired)
    else
      var session := SessionNamed(Sessions(d), b.sessionId);
      if session.None? || !SessionCurrent(session.value, b.userId, now) then Err(Unauthorized)
      else Ok(Current(owner.value, session.value, factor.value, codes))
  }

  function StepOf(f: Factor): int { if f.lastUsedTotpStep.None? then -1 else f.lastUsedTotpStep.value }

  /** `Date.parse` on the texts in play: absent when a text names no instant. */
  type Dates = map<Text, int>

  predicate Earlier(dates: Dates, a: Text, b: Text) { a in dates && b in dates && dates[a] < dates[b] }

  predicate UsageMovedForward(f: Factor, g: Factor, dates: Dates)
  {
    && StepOf(f) <= StepOf(g)
    && (f.lastUsedAt.Some? && f.lastUsedAt.value != [] ==>
          g.lastUsedAt.Some? && g.lastUsedAt.value != [] && !Earlier(dates, g.lastUsedAt.value, f.lastUsedAt.value))
  }

  /** The comparison between authorization and commit. */
  predicate StillAuthorized(before: Current, after: Current, dates: Dates)
  {
    && PrincipalDigest(before.user) == PrincipalDigest(after.user)
    && before.session.createdAt == after.session.createdAt
    && FactorGeneration(before.factor) == FactorGeneration(after.factor)
    && RecoverySet(before.codes) == RecoverySet(after.codes)
    && UsageMovedForward(before.factor, after.factor, dates)
  }

  datatype Decision = NotConsumed | Consumed(receiptId: Text, actorId: Text, resourceId: Text, factorBinding: Text)

  function Occupied(j: Journal): set<Mac> { set k | k in j && j[k].seen.Some? }

  datatype Times = Times(current: Clock, expiry: int, committed: int)

  function CommitRecord(b: Binding, decision: Decision, after: Current, at: int): Record
    requires decision.Consumed?
  {
    Committed(Mac("operation", decision.receiptId), b.userId, b.handle, FactorGeneration(after.factor),
              FactorSnapshot(after.factor), RecoverySet(after.codes), Mac("authorization", decision.receiptId),
              decision.factorBinding, at)
  }

  /** `retire` up to its callback, recovery having just succeeded. */
  function BeginOp(s: State, b: Binding, now: Clock): (State, Result<Current, Refusal>)
  {
    var current := CurrentOf(s.disk, b, now);
    (s.(pending := if current.Ok? then Some(Pending(b, current.value)) else None), current)
  }

  datatype Outcomes = Outcomes(commit: Outcome, faults: Faults)

  datatype Answer = Retired(receipt: Receipt) | Declined | Refused(refusal: Refusal)

  /** `retire` from its callback's decision on. */
  function DecideOp(s: State, p: Pending, decision: Decision, t: Times, dates: Dates, o: Outcomes): (State, Answer)
  {
    var done := s.(pending := None);
    if decision.NotConsumed? then (done, Declined)
    else if decision.actorId != p.binding.userId || decision.resourceId != p.binding.userId then (done, Refused(Unauthorized))
    else
      var current := CurrentOf(s.disk, p.binding, t.current);
      if current.Err? then (done, Refused(current.error))
      else if !StillAuthorized(p.before, current.value, dates) then (done, Refused(Conflict))
      else if At(s.journal, Mac("operation", decision.receiptId)).seen.Some? then (done, Refused(Conflict))
      else if |Occupied(s.journal)| >= MAX_RECORDS then (done, Refused(RecoveryRequired))
      else if current.value.session.expires.value <= t.expiry then (done, Refused(Unauthorized))
      else CommitOp(done, p.binding, CommitRecord(p.binding, decision, current.value, t.committed), current.value, o)
  }

  /** Publish the commit and, once it is durable, apply it. */
  function CommitOp(s: State, b: Binding, c: Record, after: Current, o: Outcomes): (State, Answer)
    requires c.Committed?
  {
    var u := s.(journal := Publish(s.journal, c.operationId, Some(c), o.commit),
                frozen := s.frozen[c.operationId := Frozen(b.userId, b.handle, after.factor, after.codes, s.epoch)],
                ready := false);
    if !o.commit.Done? then (u, Refused(RecoveryRequired))
    else
      var (v, receipt) := ApplyRecord(u, c, o.faults);
      if receipt.None? then (v, Refused(RecoveryRequired)) else (v.(ready := true), Retired(receipt.value))
  }

  /** `readReceipt` after its recovery. */
  function ReadReceipt(s: State, receiptId: Text, userId: Text): Option<Receipt>
  {
    var seen := At(s.journal, Mac("operation", receiptId)).seen;
    if seen.None? || !seen.value.Applied? || seen.value.receipt.userId != userId ||
       seen.value.authorization != Mac("authorization", receiptId)
    then None else Some(seen.value.receipt)
  }

  // --- steps and runs ---------------------------------------------------------------------------------

  /** What a crash leaves of each file. */
  datatype Leftover = Leftover(users: Option<seq<User>>, sessions: Option<seq<Session>>,
                               factors: map<Text, Option<Factor>>, codes: map<Text, Option<BackupCodeSet>>,
                               journal: map<Mac, Option<Record>>)

  function CrashedStorage(d: Storage, left: Leftover): Storage
  {
    Storage(CrashedSlot(d.users, left.users), CrashedSlot(d.sessions, left.sessions),
            Crashed(d.factors, left.factors), Crashed(d.codes, left.codes))
  }

  datatype Step =
    | Recover(prepared: bool, names: seq<Mac>, faults: map<Mac, Faults>)
    | Begin(binding: Binding, now: Clock)
    | Live(next: Storage)
    | Decide(decision: Decision, times: Times, dates: Dates, outcomes: Outcomes)
    | Crash(left: Leftover)

  ghost predicate Lists(names: seq<Mac>, j: Journal)
  {
    (forall a, b :: 0 <= a < b < |names| ==> names[a] != names[b]) && (set k | k in names) == Occupied(j)
  }

  ghost predicate SoundStorage(d: Storage)
  {
    d.users.seen in d.users.onDisk && d.sessions.seen in d.sessions.onDisk && Sound(d.factors) && Sound(d.codes)
  }

  /** The user's factor flag is off somewhere in this version of the account file. */
  ghost predicate FlagOff(us: Option<seq<User>>, userId: Text)
  {
    exists u :: u in OrEmpty(us) && u.id == userId && !u.totpEnabled
  }

  /** No crash can take this user's factor away or turn its flag off. */
  ghost predicate Acknowledged(d: Storage, userId: Text, handle: Text)
  {
    None !in At(d.factors, handle).onDisk && forall v :: v in d.users.onDisk ==> !FlagOff(v, userId)
  }

  ghost predicate Enabled(s: State, step: Step)
  {
    match step
    case Recover(_, names, _) => Lists(names, s.journal)
    case Begin(_, _) => s.ready
    case Live(next) => s.ready && SoundStorage(next)
    case Decide(_, _, _, _) => s.ready && s.pending.Some?
    case Crash(_) => true
  }

  ghost function Apply(s: State, step: Step): State
  {
    if !Enabled(s, step) then s else
    match step
    case Recover(prepared, names, fs) => RecoverOp(s, prepared, names, fs).0
    case Begin(b, now) => BeginOp(s, b, now).0
    case Live(next) => s.(disk := next, epoch := s.epoch + 1)
    case Decide(decision, t, dates, o) => DecideOp(s, s.pending.value, decision, t, dates, o).0
    case Crash(left) =>
      s.(disk := CrashedStorage(s.disk, left), journal := Crashed(s.journal, left.journal), ready := false, pending := None)
  }

  ghost function Exec(s: State, steps: seq<Step>): State
    decreases |steps|
  {
    if steps == [] then s else Exec(Apply(s, steps[0]), steps[1..])
  }

  /** An empty journal over any storage. */
  function Fresh(d: Storage): State { State(d, map[], false, None, map[], {}, {}, 0) }
}
