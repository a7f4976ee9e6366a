/** First-administrator bootstrap: one encrypted journal record, replayed into storage.

    Every call runs alone under the shared auth gate. The projection callback writes
    factor, codes, profile and user in that order, each only if it is absent, and goes on
    only when what it wrote or found is durable. */
module Bootstrap {
  import opened Wrappers
  import opened DurableFile
  import opened Utf16
  import opened TotpRecords

  const MAX_TTL_MS := 600_000
  const CODE_COUNT := 10
  const SUPER_ADMIN := Ascii("super_admin")

  /** Attempt ids, references and user ids are random and never repeat. */
  type Id = nat

  datatype ReferenceDigest = ReferenceDigest(reference: Id)

  datatype Profile = Profile(text: Text)

  /** `rest` stands for every field the projection check ignores. */
  datatype Account = Account(id: Text, handle: Text, passwordHash: Text, role: Text, isActive: bool, totpEnabled: bool,
                             totpSecretId: Option<Text>, needsOnboarding: bool, onboardingStep: int, createdAt: Text,
                             isLocked: Option<bool>, firstLogin: Option<bool>, removed: bool, rest: Text)

  datatype Completion = Completion(attemptId: Id, completedAt: Text, user: Account, factor: Factor,
                                   codes: BackupCodeSet, profile: Option<Profile>)

  /** The digest of the completion's canonical text, one for each completion. */
  datatype MaterialDigest = MaterialDigest(completion: Completion)

  datatype Receipt = Receipt(attemptId: Id, userId: Text, handle: Text, completedAt: Text, material: MaterialDigest)

  datatype Pending = Pending(attemptId: Id, referenceDigest: ReferenceDigest, userId: Text, handle: Text,
                             passwordHash: Text, secret: Text, backupCodes: seq<Text>, acknowledged: bool,
                             createdAt: int, expiresAt: int, profile: Option<Profile>)

  datatype Record =
    | Reserved(pending: Pending)
    | Committed(referenceDigest: ReferenceDigest, completion: Completion, receipt: Receipt)
    | Applied(referenceDigest: ReferenceDigest, receipt: Receipt)

  // --- storage -----------------------------------------------------------------------

  /** The account file, and factor, codes and profile files by owner. */
  datatype Storage = Storage(users: Slot<seq<Account>>, factors: Directory<Text, Factor>,
                             codes: Directory<Text, BackupCodeSet>, profiles: Directory<Text, Profile>)

  function Users(d: Storage): seq<Account> { if d.users.seen.None? then [] else d.users.seen.value }

  function FactorOf(d: Storage, handle: Text): Option<Factor> { At(d.factors, handle).seen }

  function CodesFor(d: Storage, userId: Text): Option<BackupCodeSet> { At(d.codes, userId).seen }

  /** `empty(candidate)`. */
  predicate Empty(d: Storage, p: Pending)
  {
    Users(d) == [] && FactorOf(d, p.handle).None? && CodesFor(d, p.userId).None?
  }

  // --- record checks ----------------------------------------------------------------------

  predicate Distinct(ts: seq<Text>) { forall i, j :: 0 <= i < j < |ts| ==> ts[i] != ts[j] }

  predicate PendingOk(p: Pending)
  {
    |p.backupCodes| == CODE_COUNT && Distinct(p.backupCodes) && 0 < p.expiresAt - p.createdAt <= MAX_TTL_MS
  }

  function Ids(codes: seq<BackupCode>): (r: seq<Text>)
    ensures |r| == |codes| && forall i :: 0 <= i < |r| ==> r[i] == codes[i].id
  {
    seq(|codes|, i requires 0 <= i < |codes| => codes[i].id)
  }

  predicate CompletionOk(c: Completion)
  {
    && c.user.role == SUPER_ADMIN && c.user.isActive && c.user.totpEnabled && c.user.totpSecretId == Some(c.user.handle)
    && !c.user.needsOnboarding && c.user.onboardingStep == 0 && c.user.createdAt == c.completedAt
    && c.user.isLocked.None? && c.user.firstLogin.None? && !c.user.removed
    && c.factor.userId == c.user.id && c.factor.handle == c.user.handle && c.factor.createdAt == c.completedAt
    && c.factor.lastUsedAt == Some(c.completedAt) && c.factor.lastUsedTotpStep.Some?
    && c.factor.backupCodesGenerated && c.factor.version == 1
    && c.codes.userId == c.user.id && c.codes.generatedAt == c.completedAt && |c.codes.codes| == CODE_COUNT
    && (forall k :: k in c.codes.codes ==> !k.used) && Distinct(Ids(c.codes.codes))
  }

  predicate ReceiptFor(r: Receipt, c: Completion)
  {
    r == Receipt(c.attemptId, c.user.id, c.user.handle, c.completedAt, MaterialDigest(c))
  }

  predicate RecordOk(r: Record)
  {
    match r
    case Reserved(p) => PendingOk(p)
    case Committed(_, c, receipt) => CompletionOk(c) && ReceiptFor(receipt, c)
    case Applied(_, _) => true
  }

  // --- the projection check ---------------------------------------------------------------

  predicate SameAccount(u: Account, frozen: Account)
  {
    && u == frozen.(isLocked := u.isLocked, firstLogin := u.firstLogin, removed := u.removed, rest := u.rest)
    && u.isLocked != Some(true) && u.firstLogin != Some(true) && !u.removed
  }

  predicate SameFactor(f: Factor, frozen: Factor)
  {
    && WithoutUsage(f) == WithoutUsage(frozen)
    && f.lastUsedTotpStep.Some? && frozen.lastUsedTotpStep.Some? && f.lastUsedTotpStep.value >= frozen.lastUsedTotpStep.value
  }

  function Find(codes: seq<BackupCode>, id: Text): Option<BackupCode>
  {
    if codes == [] then None else if codes[0].id == id then Some(codes[0]) else Find(codes[1..], id)
  }

  predicate SameCodes(k: BackupCodeSet, frozen: BackupCodeSet)
  {
    && k.userId == frozen.userId && k.generatedAt == frozen.generatedAt && |k.codes| == |frozen.codes|
    && Distinct(Ids(k.codes))
    && forall c :: c in frozen.codes ==> Find(k.codes, c.id).Some? && Find(k.codes, c.id).value.hash == c.hash
  }

  /** `checkProjection`. */
  predicate CheckProjection(d: Storage, c: Completion, finished: bool)
  {
    var users, factor, codes := Users(d), FactorOf(d, c.user.handle), CodesFor(d, c.user.id);
    && |users| <= 1
    && (if users != [] then SameAccount(users[0], c.user) else !finished)
    && (if factor.Some? then SameFactor(factor.value, c.factor) else !finished && users == [])
    && (if codes.Some? then SameCodes(codes.value, c.codes) else !finished && users == [])
  }

  // --- the projection -------------------------------------------------------------------------

  /** How far each write gets, and whether the callback returns in the end. */
  datatype Projection = Projection(factor: Outcome, codes: Outcome, profile: Outcome, user: Outcome, finished: bool)

  /** Write a file that is absent; acknowledge one that is there. */
  function Ensured<K(==), V(==)>(dir: Directory<K, V>, k: K, value: V, outcome: Outcome): Directory<K, V>
  {
    if At(dir, k).seen.None? then Publish(dir, k, Some(value), outcome)
    else if outcome.Done? then SyncAll(dir) else dir
  }

  predicate HasAccount(users: seq<Account>, id: Text) { exists x :: x in users && x.id == id }

  /** The account joins the file when nobody has its id. */
  function UserEnsured(users: Slot<seq<Account>>, u: Account, outcome: Outcome): Slot<seq<Account>>
  {
    var accounts := if users.seen.None? then [] else users.seen.value;
    if !HasAccount(accounts, u.id) then PublishSlot(users, Some(accounts + [u]), outcome)
    else if outcome.Done? then SyncedSlot(users.seen)
    else users
  }

  /** The projection up to its first failure, and whether it got through. */
  function Project(d: Storage, c: Completion, p: Projection): (Storage, bool)
  {
    var d1 := d.(factors := Ensured(d.factors, c.user.handle, c.factor, p.factor));
    if !p.factor.Done? then (d1, false)
    else
      var d2 := d1.(codes := Ensured(d1.codes, c.user.id, c.codes, p.codes));
      if !p.codes.Done? then (d2, false)
      else
        var d3 := if c.profile.None? then d2
                  else d2.(profiles := Ensured(d2.profiles, c.user.handle, c.profile.value, p.profile));
        if !p.profile.Done? then (d3, false)
        else
          var d4 := d3.(users := UserEnsured(d3.users, c.user, p.user));
          (d4, p.user.Done? && p.finished)
  }

  // --- the state --------------------------------------------------------------------------------

  datatype Acknowledgment = Acknowledgment(attemptId: Id, reference: Id)

  /** `journal` is the one record. `begun` holds each attempt as first generated,
      `acknowledgments` the references its codes were acknowledged under, `projected` what
      the projection callback was given. */
  datatype State = State(journal: Slot<Record>, disk: Storage, next: Id, begun: map<Id, Pending>,
                         acknowledgments: set<Acknowledgment>, projected: set<Completion>)

  datatype Faults = Faults(synced: bool, decryptable: bool, projection: Projection, applied: Outcome)

  datatype Refusal = Invalid | Unauthorized | Expired | Conflict | RecoveryRequired | WriteFailed

  /** `writeRecord`. */
  function Write(s: State, r: Record, outcome: Outcome): (State, Option<Refusal>)
  {
    if !RecordOk(r) then (s, Some(Invalid))
    else (s.(journal := PublishSlot(s.journal, Some(r), outcome)), if outcome.Done? then None else Some(WriteFailed))
  }

  /** `apply`. */
  function ApplyOp(s: State, r: Record, f: Faults): (State, bool)
    requires r.Committed?
  {
    if !f.decryptable || !CheckProjection(s.disk, r.completion, false) then (s, false)
    else
      var (d, ok) := Project(s.disk, r.completion, f.projection);
      var t := s.(disk := d, projected := s.projected + {r.completion});
      if !ok || !CheckProjection(d, r.completion, true) then (t, false)
      else
        var (u, failed) := Write(t, Applied(r.referenceDigest, r.receipt), f.applied);
        (u, failed.None?)
  }

  /** `recoverUnsafe`: nothing without a record; otherwise sync, and apply a commit. */
  function RecoverOp(s: State, f: Faults): (State, bool)
  {
    if s.journal.seen.None? then (s, true)
    else if !f.synced then (s, false)
    else
      var t := s.(journal := SyncedSlot(s.journal.seen));
      if s.journal.seen.value.Committed? then ApplyOp(t, s.journal.seen.value, f) else (t, true)
  }

  // --- attempts -----------------------------------------------------------------------------------

  /** The two clock readings of one expiry check. */
  datatype Readings = Readings(low: int, high: int)

  predicate Unexpired(p: Pending, now: Readings) { p.createdAt <= now.low && now.high < p.expiresAt }

  /** What the checks around a publication see: clocks before and after it, and whether the
      installation is still empty afterwards. */
  datatype Publication = Publication(before: Readings, outcome: Outcome, stillEmpty: bool, after: Readings)

  function PublishPending(s: State, p: Pending, w: Publication): (State, Option<Refusal>)
  {
    if !Empty(s.disk, p) then (s, Some(Conflict))
    else if !Unexpired(p, w.before) then (s, Some(Expired))
    else
      var (t, failed) := Write(s, Reserved(p), w.outcome);
      if failed.Some? then (t, failed)
      else if !w.stillEmpty then (t, Some(Conflict))
      else if !Unexpired(p, w.after) then (t, Some(Expired))
      else (t, None)
  }

  /** No record stands in the way of a new attempt. */
  predicate Vacant(s: State, now: int)
  {
    s.journal.seen.None? || (s.journal.seen.value.Reserved? && s.journal.seen.value.pending.expiresAt <= now)
  }

  datatype Request = Request(handle: Text, passwordHash: Text, profile: Option<Profile>)

  /** What `begin` generates: a user id, a factor secret and recovery codes. */
  datatype Generated = Generated(userId: Text, secret: Text, backupCodes: seq<Text>)

  datatype Answer =
    | Setup(reference: Id, pending: Pending)
    | Resumed(pending: Pending)
    | Noted
    | Completed(receipt: Receipt)
    | Refused(refusal: Refusal)

  function Attempt(id: Id, q: Request, g: Generated, at: int, ttl: int): Pending
  {
    Pending(id, ReferenceDigest(id), g.userId, q.handle, q.passwordHash, g.secret, g.backupCodes, false, at, at + ttl, q.profile)
  }

  function Started(s: State, p: Pending): State { s.(next := s.next + 1, begun := s.begun[s.next := p]) }

  /** `begin` once nothing stands in its way: generate, check, publish, check again. */
  function StartOp(s: State, q: Request, g: Generated, ttl: int, at: int, w: Publication): (State, Answer)
  {
    var p := Attempt(s.next, q, g, at, ttl);
    if !PendingOk(p) then (s, Refused(Invalid))
    else
      var (t, failed) := PublishPending(Started(s, p), p, w);
      if failed.Some? then (t, Refused(failed.value)) else (t, Setup(s.next, p))
  }

  /** `begin`; `ttl` is the coordinator's, `free` whether the application's namespace is. */
  function BeginOp(s: State, q: Request, g: Generated, free: bool, ttl: int, now: int, at: int, f: Faults, w: Publication): (State, Answer)
  {
    var (t, ok) := RecoverOp(s, f);
    if !ok then (t, Refused(RecoveryRequired))
    else if !Vacant(t, now) || Users(t.disk) != [] || !free then (t, Refused(Conflict))
    else StartOp(t, q, g, ttl, at, w)
  }

  /** `pending(reference)`. */
  function PendingFor(s: State, reference: Id, now: Readings): Result<Pending, Refusal>
  {
    if s.journal.seen.None? || !s.journal.seen.value.Reserved? then Err(Unauthorized)
    else
      var p := s.journal.seen.value.pending;
      if p.referenceDigest != ReferenceDigest(reference) then Err(Unauthorized)
      else if !Empty(s.disk, p) then Err(Conflict)
      else if !Unexpired(p, now) then Err(Expired)
      else Result.Ok(p)
  }

  /** `recoverUnsafe`, then `pending(reference)`. */
  function Resume(s: State, reference: Id, f: Faults, now: Readings): (State, Result<Pending, Refusal>)
  {
    var (t, ok) := RecoverOp(s, f);
    (t, if ok then PendingFor(t, reference, now) else Err(RecoveryRequired))
  }

  function ReadOp(s: State, reference: Id, f: Faults, now: Readings): (State, Answer)
  {
    var (t, p) := Resume(s, reference, f, now);
    (t, if p.Err? then Refused(p.error) else Resumed(p.value))
  }

  function UpdateProfileOp(s: State, reference: Id, profile: Profile, f: Faults, now: Readings, w: Publication): (State, Answer)
  {
    var (t, p) := Resume(s, reference, f, now);
    if p.Err? then (t, Refused(p.error))
    else
      var (u, failed) := PublishPending(t, p.value.(profile := Some(profile)), w);
      (u, if failed.Some? then Refused(failed.value) else Noted)
  }

  function AcknowledgeOp(s: State, reference: Id, f: Faults, now: Readings, w: Publication): (State, Answer)
  {
    var (t, p) := Resume(s, reference, f, now);
    if p.Err? then (t, Refused(p.error))
    else if p.value.acknowledged then (t, Noted)
    else
      var noted := t.(acknowledgments := t.acknowledgments + {Acknowledgment(p.value.attemptId, reference)});
      var (u, failed) := PublishPending(noted, p.value.(acknowledged := true), w);
      (u, if failed.Some? then Refused(failed.value) else Noted)
  }

  // --- completion -----------------------------------------------------------------------------------

  datatype Cipher = Cipher(encrypted: Text, salt: Text, iv: Text, tag: Text)

  /** What one completion supplies: whether the token passed every check, its step, the
      encrypted secret, a random id for each code and the completion time. */
  datatype Proof = Proof(verified: bool, step: nat, cipher: Cipher, codeIds: seq<Text>, completedAt: Text)

  /** Stands for SHA-256 of a recovery code. */
  function CodeHash(code: Text): Text { Ascii("sha256:") + code }

  function HashedCodes(codes: seq<Text>, ids: seq<Text>): seq<BackupCode>
    requires |codes| == |ids|
  {
    seq(|codes|, i requires 0 <= i < |codes| => BackupCode(ids[i], CodeHash(codes[i]), false, None))
  }

  /** The frozen account, factor, recovery set and profile of an attempt. */
  function Material(p: Pending, v: Proof): Completion
    requires |p.backupCodes| == |v.codeIds|
  {
    Completion(p.attemptId, v.completedAt,
      Account(p.userId, p.handle, p.passwordHash, SUPER_ADMIN, true, true, Some(p.handle), false, 0, v.completedAt,
              None, None, false, v.completedAt),
      Factor(p.userId, p.handle, v.cipher.encrypted, v.cipher.iv, v.cipher.tag, v.cipher.salt, v.completedAt, true, 1,
             Some(v.completedAt), Some(v.step)),
      BackupCodeSet(p.userId, HashedCodes(p.backupCodes, v.codeIds), v.completedAt, None),
      p.profile)
  }

  function CommitFor(p: Pending, v: Proof): Record
    requires |p.backupCodes| == |v.codeIds|
  {
    var c := Material(p, v);
    Committed(p.referenceDigest, c, Receipt(c.attemptId, p.userId, p.handle, c.completedAt, MaterialDigest(c)))
  }

  /** The checks of `complete` between its token check and its commit: the clocks and the
      installation after verification, then the namespace, then both again. */
  datatype Checks = Checks(verified: Readings, free: bool, stillEmpty: bool, committing: Readings, outcome: Outcome)

  function CompleteOp(s: State, reference: Id, v: Proof, f: Faults, now: Readings, k: Checks): (State, Answer)
    requires |v.codeIds| == CODE_COUNT
  {
    var (t, ok) := RecoverOp(s, f);
    if !ok then (t, Refused(RecoveryRequired))
    else if t.journal.seen.Some? && t.journal.seen.value.Applied? then
      (t, if t.journal.seen.value.referenceDigest != ReferenceDigest(reference) then Refused(Unauthorized)
          else Completed(t.journal.seen.value.receipt))
    else
      var p := PendingFor(t, reference, now);
      if p.Err? then (t, Refused(p.error))
      else if !p.value.acknowledged || !v.verified || |p.value.backupCodes| != CODE_COUNT then (t, Refused(Invalid))
      else
        var r := CommitFor(p.value, v);
        if !Unexpired(p.value, k.verified) then (t, Refused(Expired))
        else if !RecordOk(r) then (t, Refused(Invalid))
        else if !k.free || !k.stillEmpty then (t, Refused(Conflict))
        else if !Unexpired(p.value, k.committing) then (t, Refused(Expired))
        else
          var (u, failed) := Write(t, r, k.outcome);
          if failed.Some? then (u, Refused(failed.value))
          else
            var (x, applied) := ApplyOp(u, r, f);
            (x, if applied then Completed(r.receipt) else Refused(RecoveryRequired))
  }

  // --- steps and runs -----------------------------------------------------------------------------------

  datatype Leftover = Leftover(journal: Option<Record>, users: Option<seq<Account>>, factors: map<Text, Option<Factor>>,
                               codes: map<Text, Option<BackupCodeSet>>, profiles: map<Text, Option<Profile>>)

  function CrashedStorage(d: Storage, left: Leftover): Storage
  {
    Storage(CrashedSlot(d.users, left.users), Crashed(d.factors, left.factors), Crashed(d.codes, left.codes),
            Crashed(d.profiles, left.profiles))
  }

  function CrashOp(s: State, left: Leftover): State
  {
    s.(journal := CrashedSlot(s.journal, left.journal), disk := CrashedStorage(s.disk, left))
  }

  datatype Step =
    | Recover(faults: Faults)
    | Begin(request: Request, generated: Generated, free: bool, ttl: int, now: int, at: int, faults: Faults, w: Publication)
    | Read(reference: Id, faults: Faults, readings: Readings)
    | UpdateProfile(reference: Id, profile: Profile, faults: Faults, readings: Readings, w: Publication)
    | Acknowledge(reference: Id, faults: Faults, readings: Readings, w: Publication)
    | Complete(reference: Id, proof: Proof, faults: Faults, readings: Readings, checks: Checks)
    | Outside(next: Storage)           // anyone else changes storage, in any way
    | Crash(left: Leftover)

  function Apply(s: State, step: Step): (State, Answer)
  {
    match step
    case Recover(f) => var (t, ok) := RecoverOp(s, f); (t, if ok then Noted else Refused(RecoveryRequired))
    case Begin(q, g, free, ttl, now, at, f, w) => BeginOp(s, q, g, free, ttl, now, at, f, w)
    case Read(reference, f, now) => ReadOp(s, reference, f, now)
    case UpdateProfile(reference, profile, f, now, w) => UpdateProfileOp(s, reference, profile, f, now, w)
    case Acknowledge(reference, f, now, w) => AcknowledgeOp(s, reference, f, now, w)
    case Complete(reference, v, f, now, k) =>
      if |v.codeIds| == CODE_COUNT then CompleteOp(s, reference, v, f, now, k) else (s, Refused(Invalid))
    case Outside(next) => (s.(disk := next), Noted)
    case Crash(left) => (CrashOp(s, left), Noted)
  }

  function Exec(s: State, steps: seq<Step>): State
    decreases |steps|
  {
    if steps == [] then s else Exec(Apply(s, steps[0]).0, steps[1..])
  }

  /** No record, over any storage. */
  function Fresh(d: Storage): State { State(SyncedSlot(None), d, 0, map[], {}, {}) }
}
