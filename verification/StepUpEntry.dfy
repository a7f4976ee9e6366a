/** Who gets a challenge, a permit and a receipt, and when, said of what was issued, the stored
    record, the clocks and the answers. */
module StepUpEntry {
  import opened Wrappers
  import opened DurableFile
  import opened Utf16
  import opened StepUp
  import opened StepUpSafety
  import C = StepUpCapacity

  // --- identity ---------------------------------------------------------------------------------

  /** A record issued for one binding matches that binding's identity and no other. */
  lemma IdentityIsExact(b: Binding, i: Identity, now: int, ttlMs: int)
    ensures IdentityMatches(NewRecord(b, now, ttlMs), i) <==> i == b.identity
  {
    JsonIdentifies(IdentityValues(b.identity), IdentityValues(i));
    if IdentityMatches(NewRecord(b, now, ttlMs), i) {
      var x, y := IdentityValues(b.identity), IdentityValues(i);
      assert x[0] == y[0] && x[1] == y[1] && x[2] == y[2] && x[3] == y[3] && x[4] == y[4];
    }
  }

  /** Readers see a record of this challenge. */
  ghost predicate Shows(s: State, c: Id, r: Record) { At(s.dir, c).seen == Some(r) }

  /** The clock reads a time within the lifetime fixed at issue. */
  ghost predicate InTime(s: State, c: Id, at: int)
    requires c in s.issued
  {
    s.issued[c].record.createdAt <= at < s.issued[c].record.expiresAt
  }

  lemma ShownIsIssued(s: State, c: Id, r: Record)
    requires Inv(s) && Shows(s, c, r)
    ensures c in s.issued && r.createdAt == s.issued[c].record.createdAt && r.expiresAt == s.issued[c].record.expiresAt
    ensures forall i :: IdentityMatches(r, i) <==> i == s.issued[c].binding.identity
    ensures forall b :: BindingMatches(r, b) <==> b == s.issued[c].binding
    ensures RecordOk(r) && At(SyncAll(s.dir), c).seen == Some(r)
  {
    assert MayHold(s.dir, c, r) && ValueOk(s, c, r);
    var issue := s.issued[c];
    var at, ttl := issue.record.createdAt, issue.record.expiresAt - issue.record.createdAt;
    forall i ensures IdentityMatches(r, i) <==> i == issue.binding.identity { IdentityIsExact(issue.binding, i, at, ttl); }
    forall b ensures BindingMatches(r, b) <==> b == issue.binding { BindingIsExact(issue.binding, b, at, ttl); }
  }

  // --- verify -------------------------------------------------------------------------------------

  /** A pending challenge in time, asked about by its own identity and with tries left. */
  ghost predicate Askable(s: State, store: Store, c: Id, identity: Identity, t: Times, r: Record)
  {
    && Shows(s, c, r) && r.phase == Pending && r.failures < store.maxFailures
    && c in s.issued && identity == s.issued[c].binding.identity && InTime(s, c, t.first)
  }

  lemma AskedWhen(s: State, store: Store, c: Id, identity: Identity, answer: Answer, t: Times, outcome: Outcome)
    requires Inv(s)
    ensures var u := s.(dir := SyncAll(s.dir), now := t.last);
      && (forall r :: Askable(s, store, c, identity, t, r) ==>
            VerifyOp(s, store, c, identity, answer, t, outcome) == CheckFactor(u, c, r, answer, t, outcome))
      && ((forall r :: !Askable(s, store, c, identity, t, r)) ==>
            VerifyOp(s, store, c, identity, answer, t, outcome).0 == u && !VerifyOp(s, store, c, identity, answer, t, outcome).1.Permitted?)
  {
    var seen := At(SyncAll(s.dir), c).seen;
    if seen.Some? {
      assert Shows(s, c, seen.value);
      ShownIsIssued(s, c, seen.value);
      assert Askable(s, store, c, identity, t, seen.value) <==>
        IdentityMatches(seen.value, identity) && Live(seen.value, t.first) && seen.value.phase.Pending? && seen.value.failures < store.maxFailures;
    }
  }

  /** The factor said yes, in time from then on, and the write was acknowledged. */
  ghost predicate Passes(s: State, c: Id, answer: Answer, t: Times, outcome: Outcome)
    requires c in s.issued
  {
    answer == Answer.Valid && InTime(s, c, t.second) && InTime(s, c, t.third) && outcome == Done && InTime(s, c, t.last)
  }

  /** `verify` returns a permit, a new one that ends with the challenge, exactly when the challenge
      may be asked about by this identity and the factor passes in time. */
  lemma PermitsExactlyWhen(s: State, store: Store, c: Id, identity: Identity, answer: Answer, t: Times, outcome: Outcome)
    requires Inv(s)
    ensures var (u, reply) := VerifyOp(s, store, c, identity, answer, t, outcome);
      && (reply.Permitted? <==> (exists r :: Askable(s, store, c, identity, t, r)) && Passes(s, c, answer, t, outcome))
      && (reply.Permitted? ==> reply == Permitted(c, s.next, s.issued[c].record.expiresAt)
                               && u.permits == s.permits + {Permit(c, s.next)} && u.receipts == s.receipts)
      && (!reply.Permitted? ==> u.permits == s.permits && u.receipts == s.receipts)
  {
    AskedWhen(s, store, c, identity, answer, t, outcome);
    if r :| Askable(s, store, c, identity, t, r) {
      ShownIsIssued(s, c, r);
      ChecksOut(s.(dir := SyncAll(s.dir), now := t.last), c, r, answer, t, outcome);
    }
  }

  lemma ChecksOut(u: State, c: Id, r: Record, answer: Answer, t: Times, outcome: Outcome)
    requires r.phase == Pending && 0 < r.expiresAt - r.createdAt <= MAX_TTL_MS && 0 <= r.failures <= MAX_FAILURES
    ensures var (v, reply) := CheckFactor(u, c, r, answer, t, outcome);
      && (reply.Permitted? <==> answer == Answer.Valid && Live(r, t.second) && Live(r, t.third) && outcome == Done && Live(r, t.last))
      && (reply.Permitted? ==> reply == Permitted(c, u.next, r.expiresAt) && v.permits == u.permits + {Permit(c, u.next)})
      && (!reply.Permitted? ==> v.permits == u.permits) && v.receipts == u.receipts
  {}

  /** A false answer is counted exactly when the challenge may be asked about by this identity, and
      reaches the disk exactly when it also comes in time and the write is acknowledged. */
  lemma CountsExactlyWhen(s: State, store: Store, c: Id, identity: Identity, answer: Answer, t: Times, outcome: Outcome)
    requires Inv(s) && ValidStore(store)
    ensures var u := VerifyOp(s, store, c, identity, answer, t, outcome).0;
      var asked := answer == Answer.Invalid && exists r :: Askable(s, store, c, identity, t, r);
      && Get(u.falses, c) == Get(s.falses, c) + (if asked then 1 else 0)
      && Get(u.recorded, c) == Get(s.recorded, c) + (if asked && InTime(s, c, t.second) && outcome == Done then 1 else 0)
      && forall k :: k != c ==> Get(u.falses, k) == Get(s.falses, k) && Get(u.recorded, k) == Get(s.recorded, k)
  {
    AskedWhen(s, store, c, identity, answer, t, outcome);
    if r :| Askable(s, store, c, identity, t, r) {
      ShownIsIssued(s, c, r);
      CountsOne(s.(dir := SyncAll(s.dir), now := t.last), c, r, answer, t, outcome);
    }
  }

  lemma CountsOne(u: State, c: Id, r: Record, answer: Answer, t: Times, outcome: Outcome)
    requires r.phase == Pending && 0 < r.expiresAt - r.createdAt <= MAX_TTL_MS && 0 <= r.failures < MAX_FAILURES
    ensures var v := CheckFactor(u, c, r, answer, t, outcome).0;
      && Get(v.falses, c) == Get(u.falses, c) + (if answer == Answer.Invalid then 1 else 0)
      && Get(v.recorded, c) == Get(u.recorded, c) + (if answer == Answer.Invalid && Live(r, t.second) && outcome == Done then 1 else 0)
      && forall k :: k != c ==> Get(v.falses, k) == Get(u.falses, k) && Get(v.recorded, k) == Get(u.recorded, k)
  {}

  // --- consume ------------------------------------------------------------------------------------

  /** A verified challenge whose own permit and binding are presented in time. */
  ghost predicate Spendable(s: State, c: Id, permit: Id, binding: Binding, t: Times, r: Record)
  {
    && Shows(s, c, r) && r.phase.Verified? && permit == r.phase.permit
    && c in s.issued && binding == s.issued[c].binding && InTime(s, c, t.first)
    && r.phase.verifiedAt <= t.third && InTime(s, c, t.third)
  }

  /** `consume` returns a receipt, a new one for the issued binding and the presented permit,
      exactly when those may be spent, the write is acknowledged and the challenge is still in time. */
  lemma ReceiptsExactlyWhen(s: State, c: Id, permit: Id, binding: Binding, t: Times, outcome: Outcome)
    requires Inv(s)
    ensures var (u, reply) := ConsumeOp(s, c, permit, binding, t, outcome);
      && (reply.Receipted? <==> (exists r :: Spendable(s, c, permit, binding, t, r)) && outcome == Done && InTime(s, c, t.last))
      && (reply.Receipted? ==> reply == Receipted(s.next, permit) && u.receipts == s.receipts + {Receipt(c, s.next, permit, binding)})
      && (!reply.Receipted? ==> u.receipts == s.receipts) && u.permits == s.permits
  {
    var seen := At(SyncAll(s.dir), c).seen;
    if seen.Some? {
      var r := seen.value;
      assert Shows(s, c, r);
      ShownIsIssued(s, c, r);
      SpendsWhen(s, c, permit, binding, t, outcome, r);
      assert Spendable(s, c, permit, binding, t, r) <==>
        && r.phase.Verified? && r.phase.permit == permit && BindingMatches(r, binding) && Live(r, t.first)
        && r.phase.verifiedAt <= t.third < r.expiresAt;
    }
  }

  lemma SpendsWhen(s: State, c: Id, permit: Id, binding: Binding, t: Times, outcome: Outcome, r: Record)
    requires At(SyncAll(s.dir), c).seen == Some(r) && RecordOk(r)
    ensures var (u, reply) := ConsumeOp(s, c, permit, binding, t, outcome);
      && (reply.Receipted? <==>
            && r.phase.Verified? && r.phase.permit == permit && BindingMatches(r, binding) && Live(r, t.first)
            && r.phase.verifiedAt <= t.third < r.expiresAt && outcome == Done && Live(r, t.last))
      && (reply.Receipted? ==> reply == Receipted(s.next, permit) && u.receipts == s.receipts + {Receipt(c, s.next, permit, binding)})
      && (!reply.Receipted? ==> u.receipts == s.receipts) && u.permits == s.permits
  {}

  // --- issue --------------------------------------------------------------------------------------

  /** The pass finds this entry expired. */
  ghost predicate Expires(d: Dir, p: Pruning, i: nat)
    requires |p.times| == |p.entries|
  {
    i < |p.entries| && At(d, p.entries[i]).seen.Some? && At(d, p.entries[i]).seen.value.expiresAt <= p.times[i]
  }

  ghost function Living(d: Dir, p: Pruning, n: nat): set<nat>
    requires n <= |p.entries| == |p.times|
  {
    set i: nat | i < n && !Expires(d, p, i)
  }

  lemma {:induction false} LiveCountIs(d: Dir, p: Pruning, n: nat)
    requires n <= |p.entries| == |p.times|
    ensures LiveCount(d, p, n) == |Living(d, p, n)|
  {
    if n > 0 {
      LiveCountIs(d, p, n - 1);
      assert Living(d, p, n) == Living(d, p, n - 1) + (if Expires(d, p, n - 1) then {} else {n - 1});
    }
  }

  /** A pass unlinks the names it has come to and found expired, and no others. */
  lemma {:induction false} PrunesExactly(d: Dir, p: Pruning, n: nat, k: Id)
    requires n <= |p.entries| == |p.times| && C.NoRepeats(p.entries)
    ensures At(Pruned(d, p, n), k) ==
      if exists i: nat :: i < n && p.entries[i] == k && Expires(d, p, i) then Changed(At(d, k), None) else At(d, k)
  {
    if n > 0 {
      PrunesExactly(d, p, n - 1, k);
      if p.entries[n - 1] == k && Expires(d, p, n - 1) { C.PruneReaches(d, p, n - 1); }
    }
  }

  /** The pass comes to its end: every entry handled, and the closing sync done if it is needed. */
  ghost predicate Completes(d: Dir, p: Pruning)
    requires |p.times| == |p.entries|
  {
    p.done == |p.entries| && (p.synced || forall i: nat :: !Expires(d, p, i))
  }

  ghost function Below(n: nat): (r: set<nat>)
    ensures |r| == n && forall i: nat :: i in r <==> i < n
  {
    if n == 0 then {} else Below(n - 1) + {n - 1}
  }

  lemma AllOfThem(a: set<nat>, b: set<nat>)
    requires a <= b
    ensures |a| == |b| <==> a == b
  {
    assert b == a + (b - a);
    assert |b| == |a| + |b - a|;
  }

  lemma NoneExpires(d: Dir, p: Pruning)
    requires |p.times| == |p.entries|
    ensures |Living(d, p, |p.entries|)| == |p.entries| <==> forall i: nat :: !Expires(d, p, i)
  {
    var n := |p.entries|;
    AllOfThem(Living(d, p, n), Below(n));
    if Living(d, p, n) == Below(n) { forall i: nat ensures !Expires(d, p, i) { assert i < n ==> i in Living(d, p, n); } }
  }

  /** A pass that comes to its end counts the entries it did not find expired. */
  lemma PassCounts(d: Dir, p: Pruning)
    requires Lists(p, d)
    ensures PruneResult(d, p).1 == if Completes(d, p) then Some(|Living(d, p, |p.entries|)|) else None
  {
    LiveCountIs(d, p, p.done);
    NoneExpires(d, p);
  }

  /** A new challenge for this binding. */
  ghost predicate IsNew(r: Record, binding: Binding, at: int, ttlMs: int)
  {
    r.phase == Pending && r.failures == 0 && r.createdAt == at && r.expiresAt == at + ttlMs && BindingMatches(r, binding)
  }

  /** `issue` returns a challenge exactly when the pruning pass comes to its end with room left, the
      write is acknowledged and the challenge is in time; it is new, for this binding, and lives
      as long as the store says. */
  lemma ChallengesExactlyWhen(s: State, store: Store, binding: Binding, p: Pruning, at: int, outcome: Outcome, last: int)
    requires ValidStore(store) && Lists(p, SyncAll(s.dir))
    ensures var d := SyncAll(s.dir); var (u, reply) := IssueOp(s, store, binding, p, at, outcome, last);
      && (reply.Challenge? <==> Completes(d, p) && |Living(d, p, |p.entries|)| < store.maxRecords && outcome == Done && at <= last < at + store.ttlMs)
      && (reply.Challenge? ==>
            && reply == Challenge(s.next, at + store.ttlMs) && s.next in u.issued && u.issued[s.next].binding == binding
            && Shows(u, s.next, u.issued[s.next].record) && IsNew(u.issued[s.next].record, binding, at, store.ttlMs))
      && u.permits == s.permits && u.receipts == s.receipts && u.falses == s.falses && u.recorded == s.recorded
  {
    var d := SyncAll(s.dir);
    PassCounts(d, p);
    BindingIsExact(binding, binding, at, store.ttlMs);
  }

  // --- over whole runs -------------------------------------------------------------------------------

  /** Only a verify with the identity fixed at issue adds a permit or counts a false answer. */
  ghost predicate OnlyOwn(s: State, t: State, step: Step)
  {
    && (forall p :: p in t.permits && p !in s.permits ==>
          && step.VerifyStep? && step.challenge == p.challenge && step.answer == Answer.Valid
          && p.challenge in s.issued && step.identity == s.issued[p.challenge].binding.identity)
    && (forall c :: Get(t.falses, c) != Get(s.falses, c) || Get(t.recorded, c) != Get(s.recorded, c) ==>
          && step.VerifyStep? && step.challenge == c && step.answer == Answer.Invalid
          && c in s.issued && step.identity == s.issued[c].binding.identity)
    && (forall x :: x in t.receipts && x !in s.receipts ==>
          && step.ConsumeStep? && step.challenge == x.challenge && step.permit == x.permit
          && x.challenge in s.issued && step.binding == s.issued[x.challenge].binding)
  }

  lemma VerifyOnlyOwn(s: State, step: Step)
    requires Inv(s) && step.VerifyStep? && ValidStore(step.store)
    ensures OnlyOwn(s, VerifyOp(s, step.store, step.challenge, step.identity, step.answer, step.t, step.outcome).0, step)
  {
    PermitsExactlyWhen(s, step.store, step.challenge, step.identity, step.answer, step.t, step.outcome);
    CountsExactlyWhen(s, step.store, step.challenge, step.identity, step.answer, step.t, step.outcome);
  }

  lemma ConsumeOnlyOwn(s: State, step: Step)
    requires Inv(s) && step.ConsumeStep?
    ensures OnlyOwn(s, ConsumeOp(s, step.challenge, step.permit, step.binding, step.t, step.outcome).0, step)
  {
    ReceiptsExactlyWhen(s, step.challenge, step.permit, step.binding, step.t, step.outcome);
    ConsumeCounts(s, step.challenge, step.permit, step.binding, step.t, step.outcome);
  }

  /** In every run a permit, a counted false answer and a receipt each come from a call that
      presented what was fixed when its challenge was issued. */
  lemma OnlyOwnIdentityCounts(now: int, steps: seq<Step>, step: Step)
    ensures var s := Exec(Fresh(now), steps); OnlyOwn(s, Apply(s, step).0, step)
  {
    RunKeepsInv(Fresh(now), steps);
    var s := Exec(Fresh(now), steps);
    if Enabled(s, step) {
      if step.IssueStep? { ChallengesExactlyWhen(s, step.store, step.binding, step.prune, step.at, step.outcome, step.last); }
      if step.VerifyStep? { VerifyOnlyOwn(s, step); }
      if step.ConsumeStep? { ConsumeOnlyOwn(s, step); }
    }
  }

  lemma ConsumeCounts(s: State, c: Id, permit: Id, binding: Binding, t: Times, outcome: Outcome)
    ensures var u := ConsumeOp(s, c, permit, binding, t, outcome).0; u.falses == s.falses && u.recorded == s.recorded
  {}
}
