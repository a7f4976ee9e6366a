/** What `begin` does with a request, said of the stored record, the clocks and the claims. */
module EnrollmentBegin {
  import opened Wrappers
  import opened DurableFile
  import opened EnrollmentLedger

  /** A record that is pending and has not expired. */
  ghost predicate Unfinished(v: Option<Record>, now: int)
  {
    exists attempt, created, expires, proof, uses ::
      v == Some(Pending(attempt, created, expires, proof, uses)) && now < expires
  }

  /** The proof has claims that allow a lifetime of at most five minutes and hold at `at`. */
  ghost predicate Proves(c: Config, ref: Ref, at: int)
  {
    ref in c.proofs && var claims := c.proofs[ref];
    claims.issuedAt <= at < claims.expiresAt && claims.expiresAt - claims.issuedAt <= 300_000
  }

  /** The account and session pass their checks, and so does a proof where there is one. */
  ghost predicate Admitted(c: Config, q: Request) { q.owned && (q.proof.Some? ==> Proves(c, q.proof.value, q.checkedAt)) }

  ghost function LiveSet(v: Option<Record>, now: int): set<Use> { set u | u in UsesOf(v) && now < u.expiresAt }

  /** When a new attempt of this request ends: after the configured time, or with the claims. */
  ghost predicate EndsAt(c: Config, q: Request, at: int)
  {
    match q.proof
    case None => at == q.now + c.ttl
    case Some(ref) =>
      && ref in c.proofs && at <= q.now + c.ttl && at <= c.proofs[ref].expiresAt
      && (at == q.now + c.ttl || at == c.proofs[ref].expiresAt)
  }

  /** Both of those ends are still to come. */
  ghost predicate TimeLeft(c: Config, q: Request, at: int)
  {
    at < q.now + c.ttl && (q.proof.Some? ==> q.proof.value in c.proofs && at < c.proofs[q.proof.value].expiresAt)
  }

  /** Nothing stored stands in the way: onboarding finds no live use, a proof is not among the
      live uses and there is room for it. */
  ghost predicate HasRoom(existing: Option<Record>, q: Request)
  {
    var live := LiveSet(existing, q.now);
    if q.proof.None? then live == {} else |live| < 256 && forall u :: u in live ==> u.digest != q.proof.value
  }

  predicate Ordered(q: Request) { q.checkedAt <= q.now <= q.expiryAt <= q.disclosedAt }

  lemma {:induction false} SetOfDistinct(uses: seq<Use>)
    requires Distinct(uses)
    ensures |set u | u in uses| == |uses|
    decreases |uses|
  {
    if uses != [] {
      var rest := uses[1..];
      SetOfDistinct(rest);
      forall j | 0 <= j < |rest| ensures rest[j] != uses[0] { assert rest[j] == uses[j + 1]; }
      assert (set u | u in uses) == (set u | u in rest) + {uses[0]};
    }
  }

  lemma LiveCount(existing: Option<Record>, now: int)
    requires Distinct(UsesOf(existing))
    ensures |LiveUses(UsesOf(existing), now)| == |LiveSet(existing, now)|
    ensures LiveUses(UsesOf(existing), now) == [] <==> LiveSet(existing, now) == {}
  {
    var live := LiveUses(UsesOf(existing), now);
    LiveKeepsDistinct(UsesOf(existing), now);
    SetOfDistinct(live);
    assert LiveSet(existing, now) == set u | u in live;
  }

  lemma KeptIsDistinct(c: Config, existing: Option<Record>, next: AttemptId)
    requires Kept(c, existing, next)
    ensures Distinct(UsesOf(existing))
  {}

  /** A proof's new record passes its checks when it has any time left. */
  lemma NewRecordParses(c: Config, existing: Option<Record>, q: Request, next: AttemptId)
    requires Configured(c) && Kept(c, existing, next) && Ordered(q) && q.proof.Some? && Proves(c, q.proof.value, q.checkedAt)
    requires HasRoom(existing, q) && q.now < c.proofs[q.proof.value].expiresAt
    ensures Parses(NewRecord(c, existing, q, next))
  {
    var ref := q.proof.value;
    var live := LiveUses(UsesOf(existing), q.now);
    var r := NewRecord(c, existing, q, next);
    KeptIsDistinct(c, existing, next);
    LiveCount(existing, q.now);
    LiveKeepsDistinct(UsesOf(existing), q.now);
    assert r.uses == live + [Use(ref, next, c.proofs[ref].expiresAt)];
    assert r.uses[|live|].attempt == next;
    forall i | 0 <= i < |live| ensures live[i].digest != ref && live[i].attempt < next {
      assert live[i] in live && live[i] in LiveSet(existing, q.now);
    }
  }

  lemma NewRecordEnds(c: Config, existing: Option<Record>, q: Request, next: AttemptId, at: int)
    requires q.proof.Some? ==> q.proof.value in c.proofs
    ensures EndsAt(c, q, NewRecord(c, existing, q, next).expiresAt)
    ensures TimeLeft(c, q, at) <==> at < NewRecord(c, existing, q, next).expiresAt
  {}

  lemma NewUses(c: Config, existing: Option<Record>, q: Request, next: AttemptId)
    requires q.proof.Some? ==> q.proof.value in c.proofs
    ensures Written(c, existing, q, next, NewRecord(c, existing, q, next).uses)
  {
    var live := LiveUses(UsesOf(existing), q.now);
    var uses := NewRecord(c, existing, q, next).uses;
    LiveIsInOrder(UsesOf(existing), q.now);
    if q.proof.Some? { assert uses[..|uses| - 1] == live; }
  }

  lemma RoomIs(c: Config, existing: Option<Record>, q: Request, next: AttemptId)
    requires Kept(c, existing, next)
    ensures var live := LiveUses(UsesOf(existing), q.now);
      HasRoom(existing, q) <==> if q.proof.None? then live == [] else |live| < MAX_USES && !exists u | u in live :: u.digest == q.proof.value
  {
    KeptIsDistinct(c, existing, next);
    LiveCount(existing, q.now);
  }

  /** `begin` writes a record exactly when the request is admitted, nothing unfinished is stored,
      there is room, and the new attempt still has time at the check before the write. */
  lemma WritesExactlyWhen(c: Config, existing: Option<Record>, q: Request, next: AttemptId)
    requires Configured(c) && Kept(c, existing, next) && Ordered(q)
    ensures Decide(c, existing, q, next).Replace? <==>
      Admitted(c, q) && !Unfinished(existing, q.now) && HasRoom(existing, q) && TimeLeft(c, q, q.expiryAt)
  {
    UnfinishedIsPending(existing, q.now);
    RoomIs(c, existing, q, next);
    if Admitted(c, q) {
      NewRecordEnds(c, existing, q, next, q.expiryAt);
      if q.proof.Some? && HasRoom(existing, q) && TimeLeft(c, q, q.expiryAt) { NewRecordParses(c, existing, q, next); }
    }
  }

  /** What `begin` writes is pending for a new attempt, from now until the earlier of its two
      ends, for this request's proof, with the live uses in their order and this one last. */
  lemma WrittenRecord(c: Config, existing: Option<Record>, q: Request, next: AttemptId)
    requires Decide(c, existing, q, next).Replace?
    ensures var r := Decide(c, existing, q, next).record;
      && r.Pending? && r.attempt == next && r.createdAt == q.now && EndsAt(c, q, r.expiresAt) && r.proof == q.proof
      && Written(c, existing, q, next, r.uses)
  {
    NewUses(c, existing, q, next);
    NewRecordEnds(c, existing, q, next, q.now);
  }

  lemma UnfinishedIsPending(v: Option<Record>, now: int)
    ensures Unfinished(v, now) <==> PendingAt(v, now)
  {
    if PendingAt(v, now) {
      var r := v.value;
      assert v == Some(Pending(r.attempt, r.createdAt, r.expiresAt, r.proof, r.uses));
    }
  }

  /** `part` is what remains of `whole` when some elements are left out. */
  ghost predicate InOrderOf(part: seq<Use>, whole: seq<Use>)
    decreases |whole|
  {
    part == [] || (whole != [] && ((part[0] == whole[0] && InOrderOf(part[1..], whole[1..])) || InOrderOf(part, whole[1..])))
  }

  /** The uses of a new record: nothing for onboarding; for a proof what is live, in order, and
      the proof's own use until the claims end. */
  ghost predicate Written(c: Config, existing: Option<Record>, q: Request, next: AttemptId, uses: seq<Use>)
  {
    match q.proof
    case None => uses == []
    case Some(ref) =>
      && ref in c.proofs && uses != [] && uses[|uses| - 1] == Use(ref, next, c.proofs[ref].expiresAt)
      && var kept := uses[..|uses| - 1];
         InOrderOf(kept, UsesOf(existing)) && forall u :: u in kept <==> u in LiveSet(existing, q.now)
  }

  lemma {:induction false} LiveIsInOrder(uses: seq<Use>, now: int)
    ensures InOrderOf(LiveUses(uses, now), uses)
    decreases |uses|
  {
    if uses != [] {
      var rest := LiveUses(uses[1..], now);
      LiveIsInOrder(uses[1..], now);
      assert [] + rest == rest && ([uses[0]] + rest)[1..] == rest;
    }
  }

  /** `begin` returns to a stored attempt exactly when that is unfinished, is for the same proof
      or, like the request, for none, and everything holds again at disclosure. */
  lemma ResumesExactlyWhen(c: Config, existing: Option<Record>, q: Request, next: AttemptId, attempt: AttemptId)
    requires Kept(c, existing, next) && Ordered(q)
    ensures Decide(c, existing, q, next) == Resume(attempt) <==>
      exists created, expires, uses ::
        && existing == Some(Pending(attempt, created, expires, q.proof, uses))
        && Admitted(c, q) && q.now < expires && created <= q.expiryAt && q.disclosedAt < expires
        && q.disclosed && (q.proof.Some? ==> Proves(c, q.proof.value, q.disclosedAt))
  {
    if existing.Some? && existing.value.Pending? {
      var r := existing.value;
      assert existing == Some(Pending(r.attempt, r.createdAt, r.expiresAt, r.proof, r.uses));
    }
  }

  /** A setup is shown exactly when `begin` resumes, or what it writes is acknowledged and, for a
      proof, everything still holds at disclosure. */
  lemma ShownExactlyWhen(c: Config, s: State, q: Request, outcome: Outcome, attempt: AttemptId)
    requires Configured(c) && Kept(c, s.slot.seen, s.next) && Ordered(q)
    ensures Shown(c, s, q, outcome) == Some(attempt) <==>
      || Decide(c, s.slot.seen, q, s.next) == Resume(attempt)
      || (&& Decide(c, s.slot.seen, q, s.next).Replace? && attempt == s.next && outcome.Done?
          && (q.proof.Some? ==> && q.disclosed && Proves(c, q.proof.value, q.disclosedAt)
                                && TimeLeft(c, q, q.disclosedAt)))
  {
    var d := Decide(c, s.slot.seen, q, s.next);
    if d.Replace? {
      NewRecordEnds(c, s.slot.seen, q, s.next, q.disclosedAt);
    }
  }

  /** In every run, whatever `begin` shows is unfinished and, for a proof, still proven at the last
      reading of the clock; it is what readers of the record see. */
  lemma ShownIsStored(c: Config, clock: int, steps: seq<Step>, q: Request, outcome: Outcome)
    requires Configured(c) && Enabled(Exec(c, Start(clock), steps), Begin(q, outcome))
    requires Shown(c, Exec(c, Start(clock), steps), q, outcome).Some?
    ensures var s := Exec(c, Start(clock), steps); var t := Apply(c, s, Begin(q, outcome));
      && t.slot.seen.Some? && t.slot.seen.value.Pending?
      && t.slot.seen.value.attempt == Shown(c, s, q, outcome).value && t.slot.seen.value.proof == q.proof
      && (q.proof.Some? ==> q.disclosed && q.disclosedAt < t.slot.seen.value.expiresAt && Proves(c, q.proof.value, q.disclosedAt))
  {
    RunKeepsInv(c, Start(clock), steps);
    var s := Exec(c, Start(clock), steps);
    var attempt := Shown(c, s, q, outcome).value;
    ShownExactlyWhen(c, s, q, outcome, attempt);
    if Decide(c, s.slot.seen, q, s.next).Replace? { WrittenRecord(c, s.slot.seen, q, s.next); }
    ResumesExactlyWhen(c, s.slot.seen, q, s.next, attempt);
  }

  /** A new administrator's first request, over an empty journal, is written and shown. */
  lemma FirstOnboarding(c: Config, clock: int, q: Request)
    requires Configured(c) && Ordered(q) && clock <= q.checkedAt && q.proof.None? && q.owned && q.expiryAt < q.now + c.ttl
    ensures var s := Exec(c, Start(clock), [Recover]);
      && Exec(c, Start(clock), [Recover, Begin(q, Done)]).slot == SyncedSlot(Some(Pending(0, q.now, q.now + c.ttl, None, [])))
      && Shown(c, s, q, Done) == Some(0)
  {
    var s := Apply(c, Start(clock), Recover);
    assert [Recover, Begin(q, Done)] == [Recover] + [Begin(q, Done)];
    ExecConcat(c, Start(clock), [Recover], [Begin(q, Done)]);
    assert [Begin(q, Done)][1..] == [] && [Recover][1..] == [];
    assert Exec(c, s, [Begin(q, Done)]) == Apply(c, s, Begin(q, Done));
    assert Exec(c, Start(clock), [Recover]) == s;
    assert s.slot == SyncedSlot(None) && !s.required;
  }
}
