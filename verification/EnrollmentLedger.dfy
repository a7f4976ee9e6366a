/** The ledger that ties each primary proof to one enrollment attempt.

    One user's record is followed through begin, commit, projection, recovery and
    crashes. A proof names its user, so no other record ever carries it. */
module EnrollmentLedger {
  import opened Wrappers
  import opened DurableFile

  type Ref = string
  type AttemptId = nat

  const MAX_TTL_MS := 600_000
  const MAX_PRIMARY_REAUTH_TTL_MS := 300_000
  const MAX_USES := 256

  /** The claims behind a reference. They never change. */
  datatype Claims = Claims(issuedAt: int, expiresAt: int)

  datatype Config = Config(ttl: int, proofs: map<Ref, Claims>)

  datatype Use = Use(digest: Ref, attempt: AttemptId, expiresAt: int)

  /** `proof` and a non-empty ledger mark version 2; version 1 carries neither. */
  datatype Record =
    | Pending(attempt: AttemptId, createdAt: int, expiresAt: int, proof: Option<Ref>, uses: seq<Use>)
    | Committed(attempt: AttemptId, uses: seq<Use>)
    | Applied(attempt: AttemptId, uses: seq<Use>)

  predicate Configured(c: Config) { 0 < c.ttl <= MAX_TTL_MS }

  predicate ClaimsAccepted(claims: Claims, now: int)
  {
    && 0 < claims.expiresAt - claims.issuedAt <= MAX_PRIMARY_REAUTH_TTL_MS
    && claims.issuedAt <= now < claims.expiresAt
  }

  /** `current` lets this proof through at this moment. */
  predicate Usable(c: Config, ref: Ref, now: int)
  {
    ref in c.proofs && ClaimsAccepted(c.proofs[ref], now)
  }

  // --- record checks -----------------------------------------------------------

  predicate Distinct(uses: seq<Use>)
  {
    forall i, j :: 0 <= i < j < |uses| ==> uses[i].digest != uses[j].digest && uses[i].attempt != uses[j].attempt
  }

  predicate LedgerOk(uses: seq<Use>, current: AttemptId)
  {
    && 0 < |uses| <= MAX_USES
    && Distinct(uses)
    && exists i :: 0 <= i < |uses| && uses[i].attempt == current
  }

  /** `validatePrimaryUses`: one pass filling the two sets. */
  method ValidatePrimaryUses(uses: seq<Use>, current: AttemptId) returns (ok: bool)
    ensures ok <==> LedgerOk(uses, current)
  {
    if |uses| == 0 || |uses| > MAX_USES { return false; }
    var digests: set<Ref> := {};
    var attempts: set<AttemptId> := {};
    for n := 0 to |uses|
      invariant digests == set i | 0 <= i < n :: uses[i].digest
      invariant attempts == set i | 0 <= i < n :: uses[i].attempt
      invariant forall i, j :: 0 <= i < j < n ==> uses[i].digest != uses[j].digest && uses[i].attempt != uses[j].attempt
    {
      if uses[n].digest in digests || uses[n].attempt in attempts { return false; }
      digests, attempts := digests + {uses[n].digest}, attempts + {uses[n].attempt};
    }
    return current in attempts;
  }

  /** The relational part of `parseRecord`. */
  predicate Parses(r: Record)
  {
    match r
    case Pending(attempt, created, expires, None, uses) => uses == [] && 0 < expires - created <= MAX_TTL_MS
    case Pending(attempt, created, expires, Some(ref), uses) =>
      && 0 < expires - created <= MAX_PRIMARY_REAUTH_TTL_MS
      && LedgerOk(uses, attempt)
      && (forall i :: 0 <= i < |uses| && uses[i].attempt == attempt ==>
            && uses[i].digest == ref
            && uses[i].expiresAt >= expires
            && uses[i].expiresAt - created <= MAX_PRIMARY_REAUTH_TTL_MS)
    case Committed(attempt, uses) => uses == [] || LedgerOk(uses, attempt)
    case Applied(attempt, uses) => uses == [] || LedgerOk(uses, attempt)
  }

  function UsesOf(r: Option<Record>): seq<Use> { if r.None? then [] else r.value.uses }

  function LiveUses(uses: seq<Use>, now: int): (live: seq<Use>)
    ensures forall u :: u in live <==> u in uses && u.expiresAt > now
    ensures |live| <= |uses|
  {
    if uses == [] then []
    else (if uses[0].expiresAt > now then [uses[0]] else []) + LiveUses(uses[1..], now)
  }

  // --- begin ---------------------------------------------------------------------

  /** One request: `proof` is present for self-enrollment. The clock is read at the
      last authority check, as `now`, at the expiry check and before disclosure.
      `owned` covers session, handle and principal; `disclosed` the same afterwards. */
  datatype Request = Request(proof: Option<Ref>, checkedAt: int, now: int, expiryAt: int, disclosedAt: int,
                             owned: bool, disclosed: bool)

  datatype Decision = Refuse | Resume(attempt: AttemptId) | Replace(record: Record)

  predicate PendingAt(existing: Option<Record>, now: int)
  {
    existing.Some? && existing.value.Pending? && existing.value.expiresAt > now
  }

  function NewRecord(c: Config, existing: Option<Record>, q: Request, attempt: AttemptId): Record
    requires q.proof.Some? ==> q.proof.value in c.proofs
  {
    match q.proof
    case None => Pending(attempt, q.now, q.now + c.ttl, None, [])
    case Some(ref) =>
      var deadline := c.proofs[ref].expiresAt;
      Pending(attempt, q.now, if q.now + c.ttl < deadline then q.now + c.ttl else deadline, q.proof,
              LiveUses(UsesOf(existing), q.now) + [Use(ref, attempt, deadline)])
  }

  /** The expiry and authority checks on either side of rebuilding the setup. */
  predicate Resumes(c: Config, q: Request, r: Record)
    requires r.Pending?
  {
    && r.createdAt <= q.expiryAt < r.expiresAt && r.createdAt <= q.disclosedAt < r.expiresAt
    && q.disclosed && (q.proof.Some? ==> Usable(c, q.proof.value, q.disclosedAt))
  }

  function Decide(c: Config, existing: Option<Record>, q: Request, attempt: AttemptId): Decision
  {
    if !q.owned || (q.proof.Some? && !Usable(c, q.proof.value, q.checkedAt)) then Refuse
    else if PendingAt(existing, q.now) then
      if existing.value.proof == q.proof && Resumes(c, q, existing.value)
      then Resume(existing.value.attempt) else Refuse
    else
      var live := LiveUses(UsesOf(existing), q.now);
      if q.proof.None? && live != [] then Refuse
      else if q.proof.Some? && (|live| >= MAX_USES || exists u | u in live :: u.digest == q.proof.value) then Refuse
      else
        var r := NewRecord(c, existing, q, attempt);
        if !Parses(r) || q.expiryAt >= r.expiresAt then Refuse else Replace(r)
  }

  /** After publication version 2 is checked once more before anything is shown. */
  predicate Discloses(c: Config, q: Request, r: Record)
  {
    q.proof.None? ||
    (r.Pending? && q.disclosed && Usable(c, q.proof.value, q.disclosedAt) && r.createdAt <= q.disclosedAt < r.expiresAt)
  }

  // --- the user's journal over time --------------------------------------------------

  /** `required` is the gate's recovery flag; `given` the setups handed out. */
  datatype State = State(slot: Slot<Record>, clock: int, next: AttemptId, required: bool, given: set<(Ref, AttemptId)>)

  datatype Step =
    | Begin(q: Request, outcome: Outcome)
    | Commit(outcome: Outcome)
    | Project(outcome: Outcome)
    | Recover
    | Crash(left: Option<Record>)

  function Start(clock: int): State { State(Missing(), clock, 0, true, {}) }

  function PublishSlot(slot: Slot<Record>, r: Record, outcome: Outcome): Slot<Record>
  {
    match outcome
    case NotRenamed => slot
    case NotSynced => Changed(slot, Some(r))
    case Done => SyncedSlot(Some(r))
  }

  predicate Enabled(s: State, step: Step)
  {
    match step
    case Begin(q, _) => !s.required && s.clock <= q.checkedAt <= q.now <= q.expiryAt <= q.disclosedAt
    case Commit(_) => !s.required && s.slot.seen.Some? && s.slot.seen.value.Pending?
    case Project(_) => s.required && s.slot.seen.Some? && s.slot.seen.value.Committed? && s.slot == SyncedSlot(s.slot.seen)
    case Recover => true
    case Crash(left) => left in s.slot.onDisk
  }

  /** The attempt whose setup `begin` returns. */
  function Shown(c: Config, s: State, q: Request, outcome: Outcome): Option<AttemptId>
  {
    match Decide(c, s.slot.seen, q, s.next)
    case Refuse => None
    case Resume(attempt) => Some(attempt)
    case Replace(r) => if outcome.Done? && Discloses(c, q, r) then Some(s.next) else None
  }

  function AfterBegin(c: Config, s: State, q: Request, outcome: Outcome): State
  {
    var d := Decide(c, s.slot.seen, q, s.next);
    var shown := Shown(c, s, q, outcome);
    var t := s.(clock := q.disclosedAt,
                given := if shown.Some? && q.proof.Some? then s.given + {(q.proof.value, shown.value)} else s.given);
    if d.Replace? then t.(slot := PublishSlot(s.slot, d.record, outcome), next := s.next + 1) else t
  }

  function Apply(c: Config, s: State, step: Step): State
  {
    if !Enabled(s, step) then s else
    match step
    case Begin(q, outcome) => AfterBegin(c, s, q, outcome)
    case Commit(outcome) =>
      s.(required := true, slot := PublishSlot(s.slot, Committed(s.slot.seen.value.attempt, s.slot.seen.value.uses), outcome))
    case Project(outcome) =>
      s.(required := !outcome.Done?,
         slot := PublishSlot(s.slot, Applied(s.slot.seen.value.attempt, s.slot.seen.value.uses), outcome))
    case Recover =>
      s.(slot := SyncedSlot(s.slot.seen), required := s.slot.seen.Some? && s.slot.seen.value.Committed?)
    case Crash(left) => s.(slot := SyncedSlot(left), required := true)
  }

  function Exec(c: Config, s: State, steps: seq<Step>): State
    decreases |steps|
  {
    if steps == [] then s else Exec(c, Apply(c, s, steps[0]), steps[1..])
  }

  // --- what is kept ------------------------------------------------------------------

  /** This content ties `ref` to `attempt`. */
  ghost predicate Holds(c: Config, v: Option<Record>, ref: Ref, attempt: AttemptId)
  {
    ref in c.proofs && Use(ref, attempt, c.proofs[ref].expiresAt) in UsesOf(v)
  }

  ghost predicate Kept(c: Config, v: Option<Record>, next: AttemptId)
  {
    v.Some? ==>
      && Parses(v.value)
      && (forall u :: u in v.value.uses ==>
            u.digest in c.proofs && u.expiresAt == c.proofs[u.digest].expiresAt && u.attempt < next)
      && (v.value.Pending? && v.value.proof.Some? ==> Holds(c, v, v.value.proof.value, v.value.attempt))
      && v.value.attempt < next
  }

  /** Content that a later write replaced without a sync: begin found it idle. */
  ghost predicate Idle(v: Option<Record>, now: int)
  {
    !PendingAt(v, now) && |LiveUses(UsesOf(v), now)| < MAX_USES
  }

  ghost predicate Inv(c: Config, s: State)
  {
    && Configured(c)
    && s.slot.seen in s.slot.onDisk
    && (forall v :: v in s.slot.onDisk ==> Kept(c, v, s.next))
    && (!s.required ==> forall v :: v in s.slot.onDisk ==>
          (v.Some? ==> !v.value.Committed?) && (v != s.slot.seen ==> Idle(v, s.clock)))
    && (forall v, ref, a :: v in s.slot.onDisk && Holds(c, v, ref, a) && c.proofs[ref].expiresAt > s.clock ==>
          Holds(c, s.slot.seen, ref, a))
    && (forall g :: g in s.given ==> g.1 < s.next)
  }

  /** Whatever a crash leaves, `ref` stays tied to `attempt` until its deadline. */
  ghost predicate Bound(c: Config, s: State, ref: Ref, attempt: AttemptId)
  {
    ref in c.proofs && (c.proofs[ref].expiresAt <= s.clock || forall v :: v in s.slot.onDisk ==> Holds(c, v, ref, attempt))
  }

  lemma ConsKeepsDistinct(u: Use, rest: seq<Use>)
    requires Distinct(rest)
    requires forall v :: v in rest ==> v.digest != u.digest && v.attempt != u.attempt
    ensures Distinct([u] + rest)
  {
    forall i, j | 0 <= i < j < |rest| + 1
      ensures ([u] + rest)[i].digest != ([u] + rest)[j].digest && ([u] + rest)[i].attempt != ([u] + rest)[j].attempt
    {
      assert rest[j - 1] in rest;
    }
  }

  lemma {:induction false} LiveKeepsDistinct(uses: seq<Use>, now: int)
    requires Distinct(uses)
    ensures Distinct(LiveUses(uses, now))
  {
    if uses != [] {
      var rest := LiveUses(uses[1..], now);
      LiveKeepsDistinct(uses[1..], now);
      forall v | v in rest ensures v.digest != uses[0].digest && v.attempt != uses[0].attempt {
        var j :| 0 <= j < |uses[1..]| && uses[1..][j] == v;
        assert uses[j + 1] == v;
      }
      ConsKeepsDistinct(uses[0], rest);
      assert [] + rest == rest;
    }
  }

  /** Time only takes live uses away. */
  lemma {:induction false} FewerLater(uses: seq<Use>, now: int, later: int)
    requires now <= later
    ensures |LiveUses(uses, later)| <= |LiveUses(uses, now)|
  {
    if uses != [] { FewerLater(uses[1..], now, later); }
  }

  lemma KeptDistinct(c: Config, v: Option<Record>, next: AttemptId, ref: Ref, a: AttemptId, b: AttemptId)
    requires Kept(c, v, next) && Holds(c, v, ref, a) && Holds(c, v, ref, b)
    ensures a == b && a < next
  {
    var e := c.proofs[ref].expiresAt;
    var i :| 0 <= i < |UsesOf(v)| && UsesOf(v)[i] == Use(ref, a, e);
    var j :| 0 <= j < |UsesOf(v)| && UsesOf(v)[j] == Use(ref, b, e);
  }

  /** A record begin decides to write keeps every live use and adds its own. */
  lemma ReplacementKeeps(c: Config, existing: Option<Record>, q: Request, next: AttemptId)
    requires Configured(c) && Kept(c, existing, next) && Decide(c, existing, q, next).Replace?
    ensures var v := Some(Decide(c, existing, q, next).record);
      && Kept(c, v, next + 1)
      && (q.proof.Some? ==> Holds(c, v, q.proof.value, next))
      && forall ref, a :: Holds(c, existing, ref, a) && c.proofs[ref].expiresAt > q.now ==> Holds(c, v, ref, a)
  {
    var r := Decide(c, existing, q, next).record;
    var live := LiveUses(UsesOf(existing), q.now);
    if q.proof.Some? {
      assert r.uses == live + [Use(q.proof.value, next, c.proofs[q.proof.value].expiresAt)];
      assert r.uses[|live|] == Use(q.proof.value, next, c.proofs[q.proof.value].expiresAt);
      forall u | u in r.uses
        ensures u.digest in c.proofs && u.expiresAt == c.proofs[u.digest].expiresAt && u.attempt < next + 1
      {}
    }
  }

  lemma AdvanceKeeps(c: Config, v: Option<Record>, next: AttemptId, now: int, later: int)
    requires Kept(c, v, next) && now <= later
    ensures Kept(c, v, next + 1) && (Idle(v, now) ==> Idle(v, later))
  {
    FewerLater(UsesOf(v), now, later);
  }

  lemma WaitingKeepsInv(c: Config, s: State, later: int, given: set<(Ref, AttemptId)>)
    requires Inv(c, s) && s.clock <= later && forall g :: g in given ==> g.1 < s.next
    ensures Inv(c, s.(clock := later, given := given))
  {
    forall v | v in s.slot.onDisk ensures Kept(c, v, s.next) && (Idle(v, s.clock) ==> Idle(v, later)) {
      AdvanceKeeps(c, v, s.next, s.clock, later);
    }
  }

  lemma PublishingKeepsInv(c: Config, s: State, t: State, r: Record, outcome: Outcome)
    requires Inv(c, s) && !s.required && s.clock <= t.clock
    requires t == s.(slot := PublishSlot(s.slot, r, outcome), clock := t.clock, next := s.next + 1, given := t.given)
    requires Kept(c, Some(r), t.next) && !r.Committed? && forall g :: g in t.given ==> g.1 < t.next
    requires forall v :: v in s.slot.onDisk ==> Kept(c, v, t.next) && (Idle(v, s.clock) ==> Idle(v, t.clock))
    requires Idle(s.slot.seen, t.clock)
    requires forall ref, a :: Holds(c, s.slot.seen, ref, a) && c.proofs[ref].expiresAt > t.clock ==> Holds(c, Some(r), ref, a)
    ensures Inv(c, t)
  {
    forall v | v in t.slot.onDisk ensures v in s.slot.onDisk || v == Some(r) {}
  }

  lemma ReplacingKeepsInv(c: Config, s: State, q: Request, outcome: Outcome)
    requires Inv(c, s) && Enabled(s, Begin(q, outcome)) && Decide(c, s.slot.seen, q, s.next).Replace?
    ensures Inv(c, AfterBegin(c, s, q, outcome))
  {
    var t := AfterBegin(c, s, q, outcome);
    var r := Decide(c, s.slot.seen, q, s.next).record;
    forall v | v in s.slot.onDisk ensures Kept(c, v, t.next) && (Idle(v, s.clock) ==> Idle(v, t.clock)) {
      AdvanceKeeps(c, v, s.next, s.clock, t.clock);
    }
    ReplacementKeeps(c, s.slot.seen, q, s.next);
    ReplacedIsIdle(c, s.slot.seen, q, s.next, t.clock);
    PublishingKeepsInv(c, s, t, r, outcome);
  }

  lemma ReplacedIsIdle(c: Config, existing: Option<Record>, q: Request, next: AttemptId, later: int)
    requires Decide(c, existing, q, next).Replace? && q.now <= later
    ensures Idle(existing, later)
  {
    FewerLater(UsesOf(existing), q.now, later);
    assert !PendingAt(existing, q.now);
  }

  lemma BeginKeepsInv(c: Config, s: State, q: Request, outcome: Outcome)
    requires Inv(c, s) && Enabled(s, Begin(q, outcome))
    ensures Inv(c, AfterBegin(c, s, q, outcome))
  {
    var d := Decide(c, s.slot.seen, q, s.next);
    if d.Replace? {
      ReplacingKeepsInv(c, s, q, outcome);
    } else {
      if d.Resume? { assert d.attempt < s.next; }
      WaitingKeepsInv(c, s, q.disclosedAt, AfterBegin(c, s, q, outcome).given);
    }
  }

  lemma StepKeepsInv(c: Config, s: State, step: Step)
    requires Inv(c, s)
    ensures Inv(c, Apply(c, s, step))
  {
    if Enabled(s, step) {
      match step
      case Begin(q, outcome) => BeginKeepsInv(c, s, q, outcome);
      case _ =>
    }
  }

  lemma {:induction false} RunKeepsInv(c: Config, s: State, steps: seq<Step>)
    requires Inv(c, s)
    ensures Inv(c, Exec(c, s, steps))
    decreases |steps|
  {
    if steps != [] {
      StepKeepsInv(c, s, steps[0]);
      RunKeepsInv(c, Apply(c, s, steps[0]), steps[1..]);
    }
  }

  // --- one proof, one attempt -----------------------------------------------------------

  /** A proof that is bound never yields another attempt in this step. The live-use
      filter, the minimum deadline and the positive-age check together leave no gap. */
  lemma BeginRespectsBinding(c: Config, s: State, q: Request, outcome: Outcome, ref: Ref, a: AttemptId)
    requires Inv(c, s) && Enabled(s, Begin(q, outcome)) && Bound(c, s, ref, a)
    ensures Bound(c, AfterBegin(c, s, q, outcome), ref, a)
    ensures forall b :: (ref, b) in AfterBegin(c, s, q, outcome).given && (ref, b) !in s.given ==> b == a
  {
    var d := Decide(c, s.slot.seen, q, s.next);
    if d.Replace? { ReplacementKeeps(c, s.slot.seen, q, s.next); }
    if q.proof == Some(ref) && !d.Refuse? {
      assert c.proofs[ref].expiresAt > q.checkedAt;
      assert Holds(c, s.slot.seen, ref, a);
      HeldProofIsRefused(c, s.slot.seen, q, s.next, a);
      if d.Resume? {
        KeptDistinct(c, s.slot.seen, s.next, ref, a, d.attempt);
      }
    }
  }

  /** A proof the record already holds is never written for another attempt: while
      it lives the filter finds it, and past its deadline the new record has no age. */
  lemma HeldProofIsRefused(c: Config, existing: Option<Record>, q: Request, next: AttemptId, a: AttemptId)
    requires q.proof.Some? && Holds(c, existing, q.proof.value, a)
    ensures !Decide(c, existing, q, next).Replace?
  {
    var deadline := c.proofs[q.proof.value].expiresAt;
    if deadline > q.now {
      assert Use(q.proof.value, a, deadline) in LiveUses(UsesOf(existing), q.now);
    } else {
      assert !Parses(NewRecord(c, existing, q, next));
    }
  }

  lemma StepRespectsBinding(c: Config, s: State, step: Step, ref: Ref, a: AttemptId)
    requires Inv(c, s) && Bound(c, s, ref, a)
    ensures Bound(c, Apply(c, s, step), ref, a)
    ensures forall b :: (ref, b) in Apply(c, s, step).given && (ref, b) !in s.given ==> b == a
  {
    if Enabled(s, step) {
      match step
      case Begin(q, outcome) => BeginRespectsBinding(c, s, q, outcome, ref, a);
      case _ =>
    }
  }

  lemma {:induction false} RunRespectsBinding(c: Config, s: State, steps: seq<Step>, ref: Ref, a: AttemptId)
    requires Inv(c, s) && Bound(c, s, ref, a)
    ensures forall b :: (ref, b) in Exec(c, s, steps).given && (ref, b) !in s.given ==> b == a
    decreases |steps|
  {
    if steps != [] {
      StepKeepsInv(c, s, steps[0]);
      StepRespectsBinding(c, s, steps[0], ref, a);
      RunRespectsBinding(c, Apply(c, s, steps[0]), steps[1..], ref, a);
    }
  }

  /** Every `begin` of the run finds the journal acknowledged, as it does behind a
      gate entry of its own, which syncs the directory before anything runs. */
  ghost predicate Acknowledged(c: Config, s: State, steps: seq<Step>)
    decreases |steps|
  {
    steps == [] ||
    ((steps[0].Begin? ==> s.slot == SyncedSlot(s.slot.seen)) && Acknowledged(c, Apply(c, s, steps[0]), steps[1..]))
  }

  ghost predicate AllBound(c: Config, s: State)
  {
    && (forall g :: g in s.given ==> Bound(c, s, g.0, g.1))
    && (forall g, h :: g in s.given && h in s.given && g.0 == h.0 ==> g.1 == h.1)
  }

  /** A setup shown over an acknowledged journal is bound from then on. */
  lemma ShownIsBound(c: Config, s: State, q: Request, outcome: Outcome, g: (Ref, AttemptId))
    requires Inv(c, s) && s.slot == SyncedSlot(s.slot.seen)
    requires g in AfterBegin(c, s, q, outcome).given && g !in s.given
    ensures AfterBegin(c, s, q, outcome).given == s.given + {g}
    ensures Bound(c, AfterBegin(c, s, q, outcome), g.0, g.1)
  {
    if Decide(c, s.slot.seen, q, s.next).Replace? { ReplacementKeeps(c, s.slot.seen, q, s.next); }
  }

  lemma StepKeepsAllBound(c: Config, s: State, step: Step)
    requires Inv(c, s) && AllBound(c, s) && (step.Begin? ==> s.slot == SyncedSlot(s.slot.seen))
    ensures AllBound(c, Apply(c, s, step))
  {
    var t := Apply(c, s, step);
    forall g | g in t.given ensures Bound(c, t, g.0, g.1) {
      if g in s.given { StepRespectsBinding(c, s, step, g.0, g.1); }
      else { ShownIsBound(c, s, step.q, step.outcome, g); }
    }
    forall g, h | g in t.given && h in t.given && g.0 == h.0 ensures g.1 == h.1 {
      assert g == (g.0, g.1) && h == (g.0, h.1);
      if g in s.given { StepRespectsBinding(c, s, step, g.0, g.1); }
      else if h in s.given { StepRespectsBinding(c, s, step, h.0, h.1); }
      else { ShownIsBound(c, s, step.q, step.outcome, g); }
    }
  }

  lemma {:induction false} RunKeepsAllBound(c: Config, s: State, steps: seq<Step>)
    requires Inv(c, s) && AllBound(c, s) && Acknowledged(c, s, steps)
    ensures AllBound(c, Exec(c, s, steps))
    decreases |steps|
  {
    if steps != [] {
      StepKeepsInv(c, s, steps[0]);
      StepKeepsAllBound(c, s, steps[0]);
      RunKeepsAllBound(c, Apply(c, s, steps[0]), steps[1..]);
    }
  }

  /** With a clock that never goes back, one proof yields setup for one attempt ever,
      through expiry, replacement, commits, failures and crashes. */
  lemma OneAttemptPerProof(c: Config, clock: int, steps: seq<Step>, ref: Ref, a: AttemptId, b: AttemptId)
    requires Configured(c) && Acknowledged(c, Start(clock), steps)
    requires (ref, a) in Exec(c, Start(clock), steps).given && (ref, b) in Exec(c, Start(clock), steps).given
    ensures a == b
  {
    RunKeepsAllBound(c, Start(clock), steps);
    var s := Exec(c, Start(clock), steps);
    assert (ref, a).0 == (ref, b).0;
    assert (ref, a).1 == (ref, b).1;
  }

  lemma ExecThree(c: Config, s: State, x: Step, y: Step, z: Step)
    ensures Exec(c, s, [x, y, z]) == Apply(c, Apply(c, Apply(c, s, x), y), z)
  {
    assert [x, y, z][1..] == [y, z] && [y, z][1..] == [z];
    assert Exec(c, Apply(c, Apply(c, s, x), y), [z]) == Apply(c, Apply(c, Apply(c, s, x), y), z);
    assert Exec(c, Apply(c, s, x), [y, z]) == Apply(c, Apply(c, Apply(c, s, x), y), z);
  }

  lemma {:induction false} ExecConcat(c: Config, s: State, front: seq<Step>, back: seq<Step>)
    ensures Exec(c, s, front + back) == Exec(c, Exec(c, s, front), back)
    decreases |front|
  {
    if front == [] { assert front + back == back; }
    else {
      assert (front + back)[1..] == front[1..] + back;
      ExecConcat(c, Apply(c, s, front[0]), front[1..], back);
    }
  }

  // --- exactly when the binding can be lost ----------------------------------------------

  /** Content without `ref`, once a crash has brought it back, accepts the proof again. */
  lemma UnheldProofIsAccepted(c: Config, v: Option<Record>, ref: Ref, now: int, next: AttemptId)
    returns (q: Request)
    requires Configured(c) && Kept(c, v, next) && Idle(v, now) && Usable(c, ref, now)
    requires forall a :: !Holds(c, v, ref, a)
    ensures q == Request(Some(ref), now, now, now, now, true, true)
    ensures Decide(c, v, q, next).Replace? && Discloses(c, q, Decide(c, v, q, next).record)
  {
    q := Request(Some(ref), now, now, now, now, true, true);
    var live := LiveUses(UsesOf(v), now);
    if exists u | u in live :: u.digest == ref {
      var u :| u in live && u.digest == ref;
      assert Holds(c, v, ref, u.attempt);
    }
    LiveKeepsDistinct(UsesOf(v), now);
    var r := NewRecord(c, v, q, next);
    assert r.uses == live + [Use(ref, next, c.proofs[ref].expiresAt)];
    assert r.uses[|live|].attempt == next;
    forall i | 0 <= i < |live| ensures live[i].digest != ref && live[i].attempt < next { assert live[i] in live; }
  }

  /** The setup shown for `ref` is the only one it ever yields if and only if every
      content a crash may leave already ties `ref` to that attempt. */
  lemma BindingIsPermanentExactlyWhenOnDisk(c: Config, s: State, ref: Ref, a: AttemptId)
    requires Inv(c, s) && !s.required && Usable(c, ref, s.clock) && Holds(c, s.slot.seen, ref, a)
    ensures (forall steps, b :: (ref, b) in Exec(c, s, steps).given && (ref, b) !in s.given ==> b == a)
       <==> (forall v :: v in s.slot.onDisk ==> Holds(c, v, ref, a))
  {
    if forall v :: v in s.slot.onDisk ==> Holds(c, v, ref, a) {
      forall steps, b | (ref, b) in Exec(c, s, steps).given && (ref, b) !in s.given ensures b == a {
        RunRespectsBinding(c, s, steps, ref, a);
      }
    } else {
      var v :| v in s.slot.onDisk && !Holds(c, v, ref, a);
      forall b ensures !Holds(c, v, ref, b) {
        if Holds(c, v, ref, b) { KeptDistinct(c, s.slot.seen, s.next, ref, a, b); }
      }
      SecondAttempt(c, s, ref, v);
      KeptDistinct(c, s.slot.seen, s.next, ref, a, a);
    }
  }

  lemma CrashThenRecover(c: Config, s: State, v: Option<Record>)
    requires v in s.slot.onDisk && (v.Some? ==> !v.value.Committed?)
    ensures Apply(c, Apply(c, s, Crash(v)), Recover) == s.(slot := SyncedSlot(v), required := false)
  {}

  lemma ReplacedIsGiven(c: Config, s: State, q: Request, ref: Ref)
    requires Enabled(s, Begin(q, Done)) && q.proof == Some(ref) && Decide(c, s.slot.seen, q, s.next).Replace?
    requires Discloses(c, q, Decide(c, s.slot.seen, q, s.next).record)
    ensures (ref, s.next) in Apply(c, s, Begin(q, Done)).given
  {
    assert Shown(c, s, q, Done) == Some(s.next);
  }

  lemma SecondAttempt(c: Config, s: State, ref: Ref, v: Option<Record>)
    requires Inv(c, s) && !s.required && Usable(c, ref, s.clock) && v in s.slot.onDisk && v != s.slot.seen
    requires forall a :: !Holds(c, v, ref, a)
    ensures exists steps :: (ref, s.next) in Exec(c, s, steps).given && (ref, s.next) !in s.given
  {
    var q := UnheldProofIsAccepted(c, v, ref, s.clock, s.next);
    CrashThenRecover(c, s, v);
    ReplacedIsGiven(c, s.(slot := SyncedSlot(v), required := false), q, ref);
    assert (ref, s.next).1 == s.next;
    ExecThree(c, s, Crash(v), Recover, Begin(q, Done));
    assert (ref, s.next) in Exec(c, s, [Crash(v), Recover, Begin(q, Done)]).given;
  }

  const Sample := Config(MAX_TTL_MS, map["proof" := Claims(0, 300_000)])
  const Asked := Request(Some("proof"), 0, 0, 0, 0, true, true)

  lemma FirstRequestIsAccepted() returns (r: Record)
    ensures r == Pending(0, 0, 300_000, Some("proof"), [Use("proof", 0, 300_000)])
    ensures Decide(Sample, None, Asked, 0) == Replace(r)
  {
    r := NewRecord(Sample, None, Asked, 0);
    assert r.uses == [Use("proof", 0, 300_000)] && r.uses[0].attempt == 0;
  }

  lemma SecondRequestResumes(r: Record)
    requires r == Pending(0, 0, 300_000, Some("proof"), [Use("proof", 0, 300_000)])
    ensures Decide(Sample, Some(r), Asked, 1) == Resume(0)
  {}

  /** `begin` publishes without its directory sync, then is retried in the same entry. */
  lemma ResumeBeforeSync() returns (s: State)
    ensures s == Exec(Sample, Start(0), [Recover, Begin(Asked, NotSynced), Begin(Asked, Done)])
    ensures Inv(Sample, s) && !s.required && s.clock == 0 && s.next == 1
    ensures None in s.slot.onDisk && s.slot.seen.Some? && ("proof", 0) in s.given
  {
    var r := FirstRequestIsAccepted();
    var s1 := Apply(Sample, Start(0), Recover);
    var s2 := Apply(Sample, s1, Begin(Asked, NotSynced));
    assert s2 == s1.(slot := Changed(s1.slot, Some(r)), next := 1);
    SecondRequestResumes(r);
    s := Apply(Sample, s2, Begin(Asked, Done));
    assert s == s2.(given := {("proof", 0)});
    ExecThree(Sample, Start(0), Recover, Begin(Asked, NotSynced), Begin(Asked, Done));
    RunKeepsInv(Sample, Start(0), [Recover, Begin(Asked, NotSynced), Begin(Asked, Done)]);
  }

  /** Retrying `begin` inside the same gate entry after its directory sync failed
      shows a setup the disk may still lose: after a crash the same proof starts over. */
  lemma UnacknowledgedResumeCanRepeat()
    ensures exists steps :: ("proof", 0) in Exec(Sample, Start(0), steps).given &&
                            ("proof", 1) in Exec(Sample, Start(0), steps).given
  {
    var s := ResumeBeforeSync();
    SecondAttempt(Sample, s, "proof", None);
    var rest :| ("proof", 1) in Exec(Sample, s, rest).given;
    GivenGrows(Sample, s, rest, ("proof", 0));
    ExecConcat(Sample, Start(0), [Recover, Begin(Asked, NotSynced), Begin(Asked, Done)], rest);
  }

  lemma {:induction false} GivenGrows(c: Config, s: State, steps: seq<Step>, g: (Ref, AttemptId))
    requires g in s.given
    ensures g in Exec(c, s, steps).given
    decreases |steps|
  {
    if steps != [] { GivenGrows(c, Apply(c, s, steps[0]), steps[1..], g); }
  }
}
