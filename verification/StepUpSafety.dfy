/** What step-up challenges keep over every run of stores, failures and crashes. */
module StepUpSafety {
  import opened Wrappers
  import opened DurableFile
  import opened StepUp

  ghost predicate Genuine(i: Issue)
  {
    i.record == NewRecord(i.binding, i.record.createdAt, i.record.expiresAt - i.record.createdAt)
  }

  /** Nothing but the phase and the failure count differs. */
  ghost predicate SameChallenge(r: Record, q: Record) { r == q.(phase := r.phase, failures := r.failures) }

  ghost predicate HasPermit(r: Record, p: Id) { !r.phase.Pending? && r.phase.permit == p }

  ghost predicate HasReceipt(r: Record, receipt: Id) { r.phase.Consumed? && r.phase.receipt == receipt }

  /** Only phase and failure count ever differ from what was issued. */
  ghost predicate ValueOk(s: State, c: Id, r: Record)
  {
    && c in s.issued
    && RecordOk(r)
    && SameChallenge(r, s.issued[c].record)
    && Get(s.recorded, c) <= r.failures
    && (!r.phase.Pending? ==> r.phase.permit < s.next)
    && (forall p :: p in s.permits && p.challenge == c ==> HasPermit(r, p.permit))
    && (forall p :: p in s.permits && HasPermit(r, p.permit) ==> p.challenge == c)
    && (forall x :: x in s.receipts && x.challenge == c ==> HasReceipt(r, x.receipt))
  }

  ghost predicate HistoryOk(s: State)
  {
    && (forall c :: c in s.issued ==> c < s.next && Genuine(s.issued[c]))
    && (forall c :: c !in s.issued ==> Get(s.recorded, c) == 0 && Get(s.falses, c) == 0)
    && (forall p :: p in s.permits ==> p.permit < s.next && p.challenge in s.issued)
    && (forall p, q :: p in s.permits && q in s.permits && p.challenge == q.challenge ==> p == q)
    && (forall x :: x in s.receipts ==>
          x.challenge in s.issued && x.binding == s.issued[x.challenge].binding && Permit(x.challenge, x.permit) in s.permits)
    && (forall x, y :: x in s.receipts && y in s.receipts && x.challenge == y.challenge ==> x == y)
  }

  ghost predicate Inv(s: State)
  {
    && Sound(s.dir)
    && HistoryOk(s)
    && (forall c, r :: MayHold(s.dir, c, r) ==> ValueOk(s, c, r))
  }

  // --- directories that hold nothing new --------------------------------------------

  ghost predicate Narrows(d: Dir, e: Dir)
  {
    Sound(e) && forall c, r :: MayHold(e, c, r) ==> MayHold(d, c, r)
  }

  lemma NarrowKeepsInv(s: State, e: Dir, now: int)
    requires Inv(s) && Narrows(s.dir, e)
    ensures Inv(s.(dir := e, now := now))
  {
    var t := s.(dir := e, now := now);
    forall c, r | MayHold(e, c, r) ensures ValueOk(t, c, r) { assert ValueOk(s, c, r); }
  }

  lemma {:induction false} PrunedNarrows(d: Dir, p: Pruning, n: nat)
    requires Sound(d) && n <= |p.entries| == |p.times|
    ensures Narrows(d, Pruned(d, p, n))
  {
    if n > 0 { PrunedNarrows(d, p, n - 1); }
  }

  // --- one publication on a known record ----------------------------------------------

  lemma PublishKeepsInv(s: State, t: State, c: Id, r: Record, outcome: Outcome)
    requires Inv(s) && t.dir == Publish(s.dir, c, Some(r), outcome)
    requires HistoryOk(t) && ValueOk(t, c, r)
    requires forall k, q :: MayHold(s.dir, k, q) && (k != c || !outcome.Done?) ==> ValueOk(t, k, q)
    ensures Inv(t)
  {
    DiskStaysSound(s.dir, c, Some(r), outcome, map[]);
    forall k, q | MayHold(t.dir, k, q) ensures ValueOk(t, k, q) {
      PublishHolds(s.dir, c, r, outcome, k, q);
    }
  }

  function FailedRecord(r: Record): Record { r.(failures := r.failures + 1) }

  /** A false answer counted, and its record published. */
  function Failing(s: State, c: Id, r: Record, outcome: Outcome): State
  {
    s.(falses := s.falses[c := Get(s.falses, c) + 1], dir := Publish(s.dir, c, Some(FailedRecord(r)), outcome),
       recorded := if outcome.Done? then s.recorded[c := Get(s.recorded, c) + 1] else s.recorded)
  }

  /** The counts of one issued challenge may change freely. */
  lemma CountsKeepHistory(s: State, u: State, c: Id)
    requires HistoryOk(s) && c in s.issued
    requires u == s.(dir := u.dir, falses := s.falses[c := Get(u.falses, c)], recorded := u.recorded)
    requires forall k :: k != c ==> Get(u.recorded, k) == Get(s.recorded, k)
    ensures HistoryOk(u)
  {}

  lemma FailingKeepsInv(s: State, c: Id, r: Record, outcome: Outcome)
    requires Inv(s) && MayHold(s.dir, c, r) && r.phase.Pending? && RecordOk(FailedRecord(r))
    ensures Inv(Failing(s, c, r, outcome))
  {
    var u := Failing(s, c, r, outcome);
    assert ValueOk(s, c, r);
    CountsKeepHistory(s, u, c);
    forall k, q | MayHold(s.dir, k, q) && (k != c || !outcome.Done?) ensures ValueOk(u, k, q) {
      assert ValueOk(s, k, q);
    }
    PublishKeepsInv(s, u, c, FailedRecord(r), outcome);
  }

  lemma FailureKeepsInv(s: State, c: Id, r: Record, t: Times, outcome: Outcome)
    requires Inv(s) && Synced(s.dir) && At(s.dir, c).seen == Some(r) && r.phase.Pending?
    ensures Inv(CheckFactor(s, c, r, Answer.Invalid, t, outcome).0)
  {
    assert MayHold(s.dir, c, r) && ValueOk(s, c, r);
    FalseAnswerIs(s, c, r, t, outcome);
    if Live(r, t.second) && RecordOk(FailedRecord(r)) { FailingKeepsInv(s, c, r, outcome); }
  }

  lemma FalseAnswerIs(s: State, c: Id, r: Record, t: Times, outcome: Outcome)
    ensures CheckFactor(s, c, r, Answer.Invalid, t, outcome).0 ==
            if Live(r, t.second) && RecordOk(FailedRecord(r)) then Failing(s, c, r, outcome)
            else s.(falses := s.falses[c := Get(s.falses, c) + 1])
  {}

  function VerifiedRecord(s: State, r: Record, at: int): Record { r.(phase := Verified(at, s.next)) }

  /** `verify` once the factor has been accepted in time. */
  function Verification(s: State, c: Id, r: Record, t: Times, outcome: Outcome): State
  {
    var u := s.(dir := Publish(s.dir, c, Some(VerifiedRecord(s, r, t.third)), outcome), next := s.next + 1);
    if outcome.Done? && Live(r, t.last) then u.(permits := s.permits + {Permit(c, s.next)}) else u
  }

  lemma VerifiedHistory(s: State, c: Id, r: Record, t: Times, outcome: Outcome)
    requires Inv(s) && MayHold(s.dir, c, r) && r.phase.Pending?
    ensures HistoryOk(Verification(s, c, r, t, outcome))
    ensures forall p :: p in s.permits ==> p.challenge != c
    ensures forall x :: x in s.receipts ==> x.challenge != c
  {
    assert ValueOk(s, c, r);
  }

  lemma VerifiedValue(s: State, c: Id, r: Record, t: Times, outcome: Outcome)
    requires Inv(s) && MayHold(s.dir, c, r) && r.phase.Pending? && RecordOk(VerifiedRecord(s, r, t.third))
    ensures ValueOk(Verification(s, c, r, t, outcome), c, VerifiedRecord(s, r, t.third))
  {
    assert ValueOk(s, c, r);
  }

  lemma VerifiedOthers(s: State, c: Id, r: Record, t: Times, outcome: Outcome, k: Id, q: Record)
    requires ValueOk(s, k, q) && (k != c || !outcome.Done?)
    ensures ValueOk(Verification(s, c, r, t, outcome), k, q)
  {}

  lemma VerifiedKeepsInv(s: State, c: Id, r: Record, t: Times, outcome: Outcome)
    requires Inv(s) && Synced(s.dir) && At(s.dir, c).seen == Some(r) && r.phase.Pending?
    ensures Inv(CheckFactor(s, c, r, Valid, t, outcome).0)
  {
    var u := CheckFactor(s, c, r, Valid, t, outcome).0;
    assert MayHold(s.dir, c, r);
    if u != s {
      assert u == Verification(s, c, r, t, outcome);
      VerifiedHistory(s, c, r, t, outcome);
      VerifiedValue(s, c, r, t, outcome);
      forall k, q | MayHold(s.dir, k, q) && (k != c || !outcome.Done?) ensures ValueOk(u, k, q) {
        assert ValueOk(s, k, q);
        VerifiedOthers(s, c, r, t, outcome, k, q);
      }
      PublishKeepsInv(s, u, c, VerifiedRecord(s, r, t.third), outcome);
    }
  }

  lemma VerifyKeepsInv(s: State, store: Store, c: Id, identity: Identity, answer: Answer, t: Times, outcome: Outcome)
    requires Inv(s)
    ensures Inv(VerifyOp(s, store, c, identity, answer, t, outcome).0)
  {
    var u := s.(dir := SyncAll(s.dir), now := t.last);
    NarrowKeepsInv(s, u.dir, t.last);
    var seen := At(u.dir, c).seen;
    if seen.Some? && seen.value.phase.Pending? {
      match answer
      case Valid => VerifiedKeepsInv(u, c, seen.value, t, outcome);
      case Invalid => FailureKeepsInv(u, c, seen.value, t, outcome);
      case Throws =>
    }
  }

  /** The permit a consume presents is one this challenge's verify returned. */
  lemma PresentedPermitWasReturned(s: State, c: Id, r: Record, permit: Id)
    requires Inv(s) && MayHold(s.dir, c, r) && HasPermit(r, permit) && Knowable(s, permit)
    ensures Permit(c, permit) in s.permits
  {
    assert ValueOk(s, c, r);
    var p :| p in s.permits && p.permit == permit;
    assert HasPermit(r, p.permit);
    assert p == Permit(c, permit);
  }

  /** The binding that matches is the one the challenge was issued for. */
  lemma MatchedBindingIsIssued(s: State, c: Id, r: Record, binding: Binding)
    requires Inv(s) && MayHold(s.dir, c, r) && BindingMatches(r, binding)
    ensures c in s.issued && binding == s.issued[c].binding
  {
    assert ValueOk(s, c, r);
    var i := s.issued[c];
    assert BindingMatches(i.record, binding);
    BindingIsExact(i.binding, binding, i.record.createdAt, i.record.expiresAt - i.record.createdAt);
  }

  /** `consume` after the directory sync, on a record that passed every check. */
  function Consumption(s: State, c: Id, r: Record, permit: Id, binding: Binding, t: Times, outcome: Outcome): State
    requires r.phase.Verified?
  {
    var v := s.(dir := Publish(s.dir, c, Some(ConsumedRecord(s, r, permit, t)), outcome), next := s.next + 1);
    if outcome.Done? && Live(r, t.last) then v.(receipts := s.receipts + {Receipt(c, s.next, permit, binding)}) else v
  }

  function ConsumedRecord(s: State, r: Record, permit: Id, t: Times): Record
    requires r.phase.Verified?
  {
    r.(phase := Consumed(r.phase.verifiedAt, permit, t.third, s.next))
  }

  lemma ConsumptionHistory(s: State, c: Id, r: Record, permit: Id, binding: Binding, t: Times, outcome: Outcome)
    requires Inv(s) && MayHold(s.dir, c, r) && r.phase.Verified?
    requires c in s.issued && binding == s.issued[c].binding && Permit(c, permit) in s.permits
    ensures HistoryOk(Consumption(s, c, r, permit, binding, t, outcome))
    ensures forall x :: x in s.receipts ==> x.challenge != c
  {
    assert ValueOk(s, c, r);
  }

  lemma ConsumptionValue(s: State, c: Id, r: Record, permit: Id, binding: Binding, t: Times, outcome: Outcome)
    requires Inv(s) && MayHold(s.dir, c, r) && r.phase.Verified? && r.phase.permit == permit
    requires RecordOk(ConsumedRecord(s, r, permit, t))
    ensures ValueOk(Consumption(s, c, r, permit, binding, t, outcome), c, ConsumedRecord(s, r, permit, t))
  {
    assert ValueOk(s, c, r);
    var v := Consumption(s, c, r, permit, binding, t, outcome);
    var q := ConsumedRecord(s, r, permit, t);
    assert forall p :: p in v.permits ==> (HasPermit(q, p.permit) <==> HasPermit(r, p.permit));
  }

  lemma ConsumptionOthers(s: State, c: Id, r: Record, permit: Id, binding: Binding, t: Times, outcome: Outcome, k: Id, q: Record)
    requires r.phase.Verified? && ValueOk(s, k, q) && (k != c || !outcome.Done?)
    ensures ValueOk(Consumption(s, c, r, permit, binding, t, outcome), k, q)
  {}

  lemma ConsumptionKeepsInv(s: State, c: Id, r: Record, permit: Id, binding: Binding, t: Times, outcome: Outcome)
    requires Inv(s) && Synced(s.dir) && At(s.dir, c).seen == Some(r) && r.phase.Verified? && r.phase.permit == permit
    requires BindingMatches(r, binding) && Knowable(s, permit) && RecordOk(ConsumedRecord(s, r, permit, t))
    ensures Inv(Consumption(s, c, r, permit, binding, t, outcome))
  {
    var v := Consumption(s, c, r, permit, binding, t, outcome);
    assert MayHold(s.dir, c, r);
    PresentedPermitWasReturned(s, c, r, permit);
    MatchedBindingIsIssued(s, c, r, binding);
    ConsumptionHistory(s, c, r, permit, binding, t, outcome);
    ConsumptionValue(s, c, r, permit, binding, t, outcome);
    forall k, q | MayHold(s.dir, k, q) && (k != c || !outcome.Done?) ensures ValueOk(v, k, q) {
      assert ValueOk(s, k, q);
      ConsumptionOthers(s, c, r, permit, binding, t, outcome, k, q);
    }
    PublishKeepsInv(s, v, c, ConsumedRecord(s, r, permit, t), outcome);
  }

  lemma ConsumeIs(s: State, c: Id, permit: Id, binding: Binding, t: Times, outcome: Outcome)
    ensures var u := s.(dir := SyncAll(s.dir), now := t.last); var v := ConsumeOp(s, c, permit, binding, t, outcome).0;
      v == u || (At(u.dir, c).seen.Some? && At(u.dir, c).seen.value.phase.Verified?
                 && v == Consumption(u, c, At(u.dir, c).seen.value, permit, binding, t, outcome))
  {}

  lemma ConsumeKeepsInv(s: State, c: Id, permit: Id, binding: Binding, t: Times, outcome: Outcome)
    requires Inv(s) && Knowable(s, permit)
    ensures Inv(ConsumeOp(s, c, permit, binding, t, outcome).0)
  {
    var u := s.(dir := SyncAll(s.dir), now := t.last);
    NarrowKeepsInv(s, u.dir, t.last);
    var v := ConsumeOp(s, c, permit, binding, t, outcome).0;
    ConsumeIs(s, c, permit, binding, t, outcome);
    if v != u {
      var r := At(u.dir, c).seen.value;
      ConsumptionKeepsInv(u, c, r, permit, binding, t, outcome);
    }
  }

  lemma PruneNarrows(d: Dir, p: Pruning)
    requires Sound(d) && p.done <= |p.entries| == |p.times|
    ensures Narrows(d, PruneResult(d, p).0)
  {
    PrunedNarrows(d, p, p.done);
  }

  lemma IssueIs(s: State, store: Store, binding: Binding, p: Pruning, at: int, outcome: Outcome, last: int)
    requires p.done <= |p.entries| == |p.times|
    ensures var t := s.(dir := PruneResult(SyncAll(s.dir), p).0, now := last); var r := NewRecord(binding, at, store.ttlMs);
      var u := IssueOp(s, store, binding, p, at, outcome, last).0;
      u == t || (RecordOk(r) && u == t.(dir := Publish(t.dir, t.next, Some(r), outcome), next := t.next + 1,
                                        issued := t.issued[t.next := Issue(binding, r)]))
  {}

  lemma IssueKeepsInv(s: State, store: Store, binding: Binding, p: Pruning, at: int, outcome: Outcome, last: int)
    requires Inv(s) && ValidStore(store) && p.done <= |p.entries| == |p.times|
    ensures Inv(IssueOp(s, store, binding, p, at, outcome, last).0)
  {
    var (pruned, live) := PruneResult(SyncAll(s.dir), p);
    PruneNarrows(SyncAll(s.dir), p);
    var t := s.(dir := pruned, now := last);
    NarrowKeepsInv(s, pruned, last);
    var u := IssueOp(s, store, binding, p, at, outcome, last).0;
    IssueIs(s, store, binding, p, at, outcome, last);
    if u != t { NewChallengeKeepsInv(t, u, binding, NewRecord(binding, at, store.ttlMs), outcome); }
  }

  lemma IssueKeepsHistory(t: State, u: State, i: Issue)
    requires HistoryOk(t) && Genuine(i)
    requires u == t.(dir := u.dir, next := t.next + 1, issued := t.issued[t.next := i])
    ensures HistoryOk(u) && t.next !in t.issued
    ensures forall p :: p in t.permits ==> p.challenge != t.next
    ensures forall x :: x in t.receipts ==> x.challenge != t.next
  {}

  lemma IssueLeavesOthers(t: State, u: State, i: Issue, k: Id, q: Record)
    requires ValueOk(t, k, q) && t.next !in t.issued
    requires u == t.(dir := u.dir, next := t.next + 1, issued := t.issued[t.next := i])
    ensures ValueOk(u, k, q)
  {}

  lemma NewChallengeKeepsInv(t: State, u: State, binding: Binding, r: Record, outcome: Outcome)
    requires Inv(t) && RecordOk(r) && r.phase.Pending? && r.failures == 0 && Genuine(Issue(binding, r))
    requires u == t.(dir := Publish(t.dir, t.next, Some(r), outcome), next := t.next + 1,
                     issued := t.issued[t.next := Issue(binding, r)])
    ensures Inv(u)
  {
    IssueKeepsHistory(t, u, Issue(binding, r));
    forall k, q | MayHold(t.dir, k, q) ensures ValueOk(u, k, q) {
      assert ValueOk(t, k, q);
      IssueLeavesOthers(t, u, Issue(binding, r), k, q);
    }
    PublishKeepsInv(t, u, t.next, r, outcome);
  }

  lemma StepKeepsInv(s: State, step: Step)
    requires Inv(s)
    ensures Inv(Apply(s, step).0)
  {
    if Enabled(s, step) {
      match step
      case IssueStep(store, binding, p, at, outcome, last) => IssueKeepsInv(s, store, binding, p, at, outcome, last);
      case VerifyStep(store, c, identity, answer, t, outcome) => VerifyKeepsInv(s, store, c, identity, answer, t, outcome);
      case ConsumeStep(_, c, permit, binding, t, outcome) => ConsumeKeepsInv(s, c, permit, binding, t, outcome);
      case Unprepared =>
      case Crash(left) =>
        DiskStaysSound(s.dir, 0, None, NotRenamed, left);
        NarrowKeepsInv(s, Crashed(s.dir, left), s.now);
    }
  }

  lemma {:induction false} RunKeepsInv(s: State, steps: seq<Step>)
    requires Inv(s)
    ensures Inv(Exec(s, steps))
    decreases |steps|
  {
    if steps != [] {
      StepKeepsInv(s, steps[0]);
      RunKeepsInv(Apply(s, steps[0]).0, steps[1..]);
    }
  }

  // --- single use ------------------------------------------------------------------------

  /** Across stores, failures and crashes each challenge returns at most one permit and
      at most one receipt. */
  lemma SingleUse(now: int, steps: seq<Step>)
    ensures var s := Exec(Fresh(now), steps);
      && (forall p, q :: p in s.permits && q in s.permits && p.challenge == q.challenge ==> p == q)
      && (forall x, y :: x in s.receipts && y in s.receipts && x.challenge == y.challenge ==> x == y)
  {
    RunKeepsInv(Fresh(now), steps);
  }

  /** A receipt is only ever returned for the binding fixed at issue, against the permit
      that challenge's own verify returned. */
  lemma ReceiptIsExact(now: int, steps: seq<Step>, x: Receipt)
    ensures var s := Exec(Fresh(now), steps);
      x in s.receipts ==>
        && x.challenge in s.issued && x.binding == s.issued[x.challenge].binding
        && Permit(x.challenge, x.permit) in s.permits
  {
    RunKeepsInv(Fresh(now), steps);
  }

  // --- what was returned stays on disk -------------------------------------------------------

  /** Every crash leaves some record under the name. */
  ghost predicate Stays(d: Dir, c: Id) { c in d && None !in d[c].onDisk }

  /** A pruning pass reads, for this very name, a time at or after the challenge's end. */
  ghost predicate Sweeps(s: State, step: Step, c: Id)
  {
    && step.IssueStep? && Enabled(s, step) && c in s.issued
    && exists i :: 0 <= i < step.prune.done && step.prune.entries[i] == c && step.prune.times[i] >= s.issued[c].record.expiresAt
  }

  ghost predicate RunSweeps(s: State, steps: seq<Step>, c: Id)
    decreases |steps|
  {
    steps != [] && (Sweeps(s, steps[0], c) || RunSweeps(Apply(s, steps[0]).0, steps[1..], c))
  }

  lemma StaysThrough(d: Dir, k: Id, r: Record, outcome: Outcome, left: map<Id, Option<Record>>, c: Id)
    requires Sound(d) && Stays(d, c)
    ensures Stays(SyncAll(d), c) && Stays(Crashed(d, left), c) && Stays(Publish(d, k, Some(r), outcome), c)
  {}

  lemma {:induction false} PassSpares(d: Dir, p: Pruning, n: nat, c: Id)
    requires Stays(d, c) && n <= |p.entries| == |p.times|
    requires forall i :: 0 <= i < n && p.entries[i] == c ==> !IsExpired(d, c, p.times[i])
    ensures Stays(Pruned(d, p, n), c)
  {
    if n > 0 { PassSpares(d, p, n - 1, c); }
  }

  lemma PruneSpares(s: State, step: Step, c: Id)
    requires Inv(s) && Stays(s.dir, c) && c in s.issued && step.IssueStep? && Enabled(s, step) && !Sweeps(s, step, c)
    ensures Stays(PruneResult(SyncAll(s.dir), step.prune).0, c)
  {
    var d, p := SyncAll(s.dir), step.prune;
    DiskStaysSound(s.dir, 0, None, NotRenamed, map[]);
    StaysThrough(s.dir, c, NewRecord(step.binding, 0, 0), NotRenamed, map[], c);
    var r := d[c].seen.value;
    assert MayHold(s.dir, c, r) && ValueOk(s, c, r);
    PassSpares(d, p, p.done, c);
    PrunedNarrows(d, p, p.done);
  }

  lemma IssueSpares(s: State, step: Step, c: Id)
    requires Inv(s) && Stays(s.dir, c) && c in s.issued && step.IssueStep? && Enabled(s, step) && !Sweeps(s, step, c)
    ensures Stays(Apply(s, step).0.dir, c)
  {
    PruneSpares(s, step, c);
    PruneNarrows(SyncAll(s.dir), step.prune);
    StaysThrough(PruneResult(SyncAll(s.dir), step.prune).0, s.next, NewRecord(step.binding, step.at, step.store.ttlMs), step.outcome, map[], c);
  }

  lemma CheckSpares(s: State, k: Id, r: Record, answer: Answer, t: Times, outcome: Outcome, c: Id)
    requires Sound(s.dir) && Stays(s.dir, c)
    ensures Stays(CheckFactor(s, k, r, answer, t, outcome).0.dir, c)
  {
    StaysThrough(s.dir, k, FailedRecord(r), outcome, map[], c);
    StaysThrough(s.dir, k, VerifiedRecord(s, r, t.third), outcome, map[], c);
  }

  lemma CheckPermits(s: State, k: Id, r: Record, answer: Answer, t: Times, outcome: Outcome, p: Permit)
    requires p !in s.permits && p in CheckFactor(s, k, r, answer, t, outcome).0.permits
    ensures Stays(CheckFactor(s, k, r, answer, t, outcome).0.dir, p.challenge)
  {}

  lemma VerifySpares(s: State, store: Store, k: Id, identity: Identity, answer: Answer, t: Times, outcome: Outcome, p: Permit)
    requires Inv(s) && (p in s.permits ==> Stays(s.dir, p.challenge))
    ensures var u := VerifyOp(s, store, k, identity, answer, t, outcome).0;
      p in u.permits ==> Stays(u.dir, p.challenge)
  {
    var v := s.(dir := SyncAll(s.dir), now := t.last);
    var u := VerifyOp(s, store, k, identity, answer, t, outcome).0;
    DiskStaysSound(s.dir, 0, None, NotRenamed, map[]);
    if u != v {
      var r := At(v.dir, k).seen.value;
      assert u == CheckFactor(v, k, r, answer, t, outcome).0;
      if p in s.permits {
        StaysThrough(s.dir, k, r, outcome, map[], p.challenge);
        CheckSpares(v, k, r, answer, t, outcome, p.challenge);
      } else if p in u.permits {
        CheckPermits(v, k, r, answer, t, outcome, p);
      }
    } else if p in s.permits {
      StaysThrough(s.dir, k, s.issued[p.challenge].record, outcome, map[], p.challenge);
    }
  }

  lemma ConsumeSpares(s: State, k: Id, permit: Id, binding: Binding, t: Times, outcome: Outcome, c: Id)
    requires Inv(s) && Stays(s.dir, c)
    ensures Stays(ConsumeOp(s, k, permit, binding, t, outcome).0.dir, c)
  {
    var u := s.(dir := SyncAll(s.dir), now := t.last);
    DiskStaysSound(s.dir, 0, None, NotRenamed, map[]);
    ConsumeIs(s, k, permit, binding, t, outcome);
    var r := At(s.dir, c).seen.value;
    StaysThrough(s.dir, c, r, outcome, map[], c);
    if ConsumeOp(s, k, permit, binding, t, outcome).0 != u {
      StaysThrough(u.dir, k, ConsumedRecord(u, At(u.dir, k).seen.value, permit, t), outcome, map[], c);
    }
  }

  lemma StepSpares(s: State, step: Step, p: Permit)
    requires Inv(s) && (p in s.permits ==> Stays(s.dir, p.challenge) && !Sweeps(s, step, p.challenge))
    ensures p in Apply(s, step).0.permits ==> Stays(Apply(s, step).0.dir, p.challenge)
  {
    var c := p.challenge;
    if Enabled(s, step) {
      match step
      case IssueStep(_, _, _, _, _, _) => if p in s.permits { IssueSpares(s, step, c); }
      case VerifyStep(store, k, identity, answer, t, outcome) => VerifySpares(s, store, k, identity, answer, t, outcome, p);
      case ConsumeStep(_, k, permit, binding, t, outcome) => if p in s.permits { ConsumeSpares(s, k, permit, binding, t, outcome, c); }
      case Unprepared =>
      case Crash(left) => if p in s.permits { StaysThrough(s.dir, c, s.issued[c].record, NotRenamed, left, c); }
    }
  }

  lemma {:induction false} RunSpares(s: State, steps: seq<Step>, p: Permit)
    requires Inv(s) && (p in s.permits ==> Stays(s.dir, p.challenge))
    ensures p in Exec(s, steps).permits ==> Stays(Exec(s, steps).dir, p.challenge) || RunSweeps(s, steps, p.challenge)
    decreases |steps|
  {
    if steps != [] && !(p in s.permits && Sweeps(s, steps[0], p.challenge)) {
      StepKeepsInv(s, steps[0]);
      StepSpares(s, steps[0], p);
      RunSpares(Apply(s, steps[0]).0, steps[1..], p);
    }
  }

  /** No crash takes a returned permit or receipt back. Whatever record it leaves under the
      challenge's name still shows that permit, and that receipt, as used; and it does leave one,
      until a pruning pass comes to that name at or after the challenge's end. */
  lemma ReturnedIsDurable(now: int, steps: seq<Step>, c: Id, r: Record)
    ensures var s := Exec(Fresh(now), steps);
      MayHold(s.dir, c, r) ==>
        && (forall p :: p in s.permits && p.challenge == c ==> HasPermit(r, p.permit))
        && (forall x :: x in s.receipts && x.challenge == c ==> HasReceipt(r, x.receipt))
    ensures var s := Exec(Fresh(now), steps);
      (exists p :: p in s.permits && p.challenge == c) || (exists x :: x in s.receipts && x.challenge == c) ==>
        Stays(s.dir, c) || RunSweeps(Fresh(now), steps, c)
  {
    RunKeepsInv(Fresh(now), steps);
    var s := Exec(Fresh(now), steps);
    if MayHold(s.dir, c, r) { assert ValueOk(s, c, r); }
    if x :| x in s.receipts && x.challenge == c { RunSpares(Fresh(now), steps, Permit(c, x.permit)); }
    if p :| p in s.permits && p.challenge == c { RunSpares(Fresh(now), steps, p); }
  }

  /** Lifetime and binding stay as issued, and every stored record passes its check. */
  lemma LifetimeIsFixed(now: int, steps: seq<Step>, c: Id, r: Record)
    ensures var s := Exec(Fresh(now), steps);
      MayHold(s.dir, c, r) ==>
        && RecordOk(r) && c in s.issued && BindingMatches(r, s.issued[c].binding)
        && r.createdAt == s.issued[c].record.createdAt && r.expiresAt == s.issued[c].record.expiresAt
  {
    RunKeepsInv(Fresh(now), steps);
    var s := Exec(Fresh(now), steps);
    if MayHold(s.dir, c, r) {
      assert ValueOk(s, c, r);
      var i := s.issued[c];
      BindingIsExact(i.binding, i.binding, i.record.createdAt, i.record.expiresAt - i.record.createdAt);
    }
  }

  // --- the failure budget -------------------------------------------------------------------

  /** Under any clock, failures and crashes: a false answer is only recorded while the
      recorded ones are fewer than the store allows. */
  lemma RecordedFailuresStayInBudget(s: State, store: Store, c: Id, identity: Identity, answer: Answer, t: Times, outcome: Outcome)
    requires Inv(s)
    requires var u := VerifyOp(s, store, c, identity, answer, t, outcome).0;
      Get(u.falses, c) > Get(s.falses, c) || Get(u.recorded, c) > Get(s.recorded, c)
    ensures Get(s.recorded, c) < store.maxFailures
    ensures Get(VerifyOp(s, store, c, identity, answer, t, outcome).0.recorded, c) <= store.maxFailures
  {
    var r := At(SyncAll(s.dir), c).seen.value;
    SyncHolds(s.dir, c, r);
    assert ValueOk(s, c, r);
  }

  /** Clocks do not go back, no factor check throws away a write: the ordinary case. */
  ghost predicate Steady(s: State, step: Step)
  {
    match step
    case IssueStep(_, _, p, at, outcome, last) => outcome.Done? && s.now <= at <= last
    case VerifyStep(_, _, _, _, t, outcome) => outcome.Done? && s.now <= t.first <= t.second <= t.third <= t.last
    case ConsumeStep(_, _, _, _, t, outcome) => outcome.Done? && s.now <= t.first <= t.second <= t.third <= t.last
    case Unprepared => true
    case Crash(_) => true
  }

  ghost predicate SteadyRun(s: State, steps: seq<Step>, budget: nat)
    decreases |steps|
  {
    steps == [] ||
    (Steady(s, steps[0]) && (steps[0].VerifyStep? ==> steps[0].store.maxFailures <= budget) &&
     SteadyRun(Apply(s, steps[0]).0, steps[1..], budget))
  }

  /** Every false answer is on record, except one given as the challenge expired. */
  ghost predicate FalsesCounted(s: State, c: Id, budget: nat)
  {
    c in s.issued ==>
      && Get(s.falses, c) <= budget
      && (Get(s.falses, c) == Get(s.recorded, c) || s.issued[c].record.expiresAt <= s.now)
  }

  ghost predicate VerifiedBy(r: Record, now: int) { !r.phase.Pending? ==> r.phase.verifiedAt <= now }

  ghost predicate Counted(s: State, budget: nat)
  {
    && (forall c :: FalsesCounted(s, c, budget))
    && (forall c, r :: MayHold(s.dir, c, r) ==> VerifiedBy(r, s.now))
  }

  lemma SeenIsOk(s: State, c: Id)
    requires Inv(s) && At(SyncAll(s.dir), c).seen.Some?
    ensures MayHold(s.dir, c, At(SyncAll(s.dir), c).seen.value) && ValueOk(s, c, At(SyncAll(s.dir), c).seen.value)
  {
    SyncHolds(s.dir, c, At(SyncAll(s.dir), c).seen.value);
  }

  lemma CheckCountsFalses(u: State, c: Id, r: Record, answer: Answer, t: Times, k: Id, budget: nat)
    requires FalsesCounted(u, k, budget) && u.now == t.last && t.second <= t.last
    requires c in u.issued && SameChallenge(r, u.issued[c].record) && Get(u.recorded, c) <= r.failures < budget
    requires RecordOk(r.(failures := r.failures + 1)) && Get(u.falses, c) == Get(u.recorded, c)
    requires r.createdAt <= t.second
    ensures FalsesCounted(CheckFactor(u, c, r, answer, t, Done).0, k, budget)
  {}

  lemma VerifyCountsFalses(s: State, store: Store, c: Id, identity: Identity, answer: Answer, t: Times, k: Id, budget: nat)
    requires Inv(s) && FalsesCounted(s, k, budget) && FalsesCounted(s, c, budget)
    requires ValidStore(store) && store.maxFailures <= budget
    requires s.now <= t.first <= t.second <= t.third <= t.last
    ensures FalsesCounted(VerifyOp(s, store, c, identity, answer, t, Done).0, k, budget)
  {
    var u := s.(dir := SyncAll(s.dir), now := t.last);
    assert FalsesCounted(u, k, budget);
    if At(u.dir, c).seen.Some? {
      SeenIsOk(s, c);
      var r := At(u.dir, c).seen.value;
      if IdentityMatches(r, identity) && Live(r, t.first) && r.phase.Pending? && r.failures < store.maxFailures {
        CheckCountsFalses(u, c, r, answer, t, k, budget);
      }
    }
  }

  lemma VerifyRecordsAreTimely(s: State, store: Store, c: Id, identity: Identity, answer: Answer, t: Times, k: Id, q: Record)
    requires Inv(s) && s.now <= t.first <= t.second <= t.third <= t.last
    requires forall j, x :: MayHold(s.dir, j, x) ==> VerifiedBy(x, s.now)
    requires MayHold(VerifyOp(s, store, c, identity, answer, t, Done).0.dir, k, q)
    ensures VerifiedBy(q, t.last)
  {
    if MayHold(s.dir, k, q) { assert VerifiedBy(q, s.now); }
  }

  lemma VerifyWritesGoodRecords(s: State, store: Store, c: Id, identity: Identity, answer: Answer, t: Times)
    requires Inv(s) && ValidStore(store) && s.now <= t.first <= t.second <= t.third <= t.last
    ensures !VerifyOp(s, store, c, identity, answer, t, Done).1.BadRecord?
  {
    if At(SyncAll(s.dir), c).seen.Some? { SeenIsOk(s, c); }
  }

  lemma VerifyStaysCounted(s: State, store: Store, c: Id, identity: Identity, answer: Answer, t: Times, budget: nat)
    requires Inv(s) && Counted(s, budget) && ValidStore(store) && store.maxFailures <= budget
    requires s.now <= t.first <= t.second <= t.third <= t.last
    ensures Counted(VerifyOp(s, store, c, identity, answer, t, Done).0, budget)
    ensures !VerifyOp(s, store, c, identity, answer, t, Done).1.BadRecord?
  {
    var v := VerifyOp(s, store, c, identity, answer, t, Done).0;
    forall k ensures FalsesCounted(v, k, budget) { VerifyCountsFalses(s, store, c, identity, answer, t, k, budget); }
    forall k, q | MayHold(v.dir, k, q) ensures VerifiedBy(q, v.now) { VerifyRecordsAreTimely(s, store, c, identity, answer, t, k, q); }
    VerifyWritesGoodRecords(s, store, c, identity, answer, t);
  }

  lemma ConsumeRecordsAreTimely(s: State, c: Id, permit: Id, binding: Binding, t: Times, k: Id, q: Record)
    requires Inv(s) && s.now <= t.last
    requires forall j, x :: MayHold(s.dir, j, x) ==> VerifiedBy(x, s.now)
    requires MayHold(ConsumeOp(s, c, permit, binding, t, Done).0.dir, k, q)
    ensures VerifiedBy(q, t.last)
  {
    if MayHold(s.dir, k, q) { assert VerifiedBy(q, s.now); }
    else { SeenIsOk(s, c); }
  }

  lemma ConsumeCountsFalses(s: State, c: Id, permit: Id, binding: Binding, t: Times, k: Id, budget: nat)
    requires FalsesCounted(s, k, budget) && s.now <= t.last
    ensures FalsesCounted(ConsumeOp(s, c, permit, binding, t, Done).0, k, budget)
  {}

  lemma ConsumeWritesGoodRecords(s: State, c: Id, permit: Id, binding: Binding, t: Times)
    requires Inv(s) && s.now <= t.first <= t.second <= t.third <= t.last
    requires forall j, x :: MayHold(s.dir, j, x) ==> VerifiedBy(x, s.now)
    ensures !ConsumeOp(s, c, permit, binding, t, Done).1.BadRecord?
  {
    if At(SyncAll(s.dir), c).seen.Some? {
      SeenIsOk(s, c);
      assert VerifiedBy(At(SyncAll(s.dir), c).seen.value, s.now);
    }
  }

  lemma ConsumeStaysCounted(s: State, c: Id, permit: Id, binding: Binding, t: Times, budget: nat)
    requires Inv(s) && Counted(s, budget) && s.now <= t.first <= t.second <= t.third <= t.last
    ensures Counted(ConsumeOp(s, c, permit, binding, t, Done).0, budget)
    ensures !ConsumeOp(s, c, permit, binding, t, Done).1.BadRecord?
  {
    var v := ConsumeOp(s, c, permit, binding, t, Done).0;
    forall k ensures FalsesCounted(v, k, budget) { ConsumeCountsFalses(s, c, permit, binding, t, k, budget); }
    forall k, q | MayHold(v.dir, k, q) ensures VerifiedBy(q, v.now) { ConsumeRecordsAreTimely(s, c, permit, binding, t, k, q); }
    ConsumeWritesGoodRecords(s, c, permit, binding, t);
  }

  lemma IssueRecordsAreTimely(s: State, store: Store, binding: Binding, p: Pruning, at: int, last: int, k: Id, q: Record)
    requires Inv(s) && p.done <= |p.entries| == |p.times| && s.now <= last
    requires forall j, x :: MayHold(s.dir, j, x) ==> VerifiedBy(x, s.now)
    requires MayHold(IssueOp(s, store, binding, p, at, Done, last).0.dir, k, q)
    ensures VerifiedBy(q, last)
  {
    PruneNarrows(SyncAll(s.dir), p);
    var d := PruneResult(SyncAll(s.dir), p).0;
    if MayHold(d, k, q) { assert MayHold(s.dir, k, q); }
    else { PublishHolds(d, s.next, NewRecord(binding, at, store.ttlMs), Done, k, q); }
  }

  lemma IssueStaysCounted(s: State, store: Store, binding: Binding, p: Pruning, at: int, last: int, budget: nat)
    requires Inv(s) && Counted(s, budget) && ValidStore(store) && p.done <= |p.entries| == |p.times| && s.now <= at <= last
    ensures Counted(IssueOp(s, store, binding, p, at, Done, last).0, budget)
    ensures !IssueOp(s, store, binding, p, at, Done, last).1.BadRecord?
  {
    var u := IssueOp(s, store, binding, p, at, Done, last).0;
    forall k ensures FalsesCounted(u, k, budget) { assert FalsesCounted(s, k, budget); }
    forall k, q | MayHold(u.dir, k, q) ensures VerifiedBy(q, u.now) {
      IssueRecordsAreTimely(s, store, binding, p, at, last, k, q);
    }
  }

  lemma StepStaysCounted(s: State, step: Step, budget: nat)
    requires Inv(s) && Counted(s, budget) && Steady(s, step) && (step.VerifyStep? ==> step.store.maxFailures <= budget)
    ensures Counted(Apply(s, step).0, budget) && !Apply(s, step).1.BadRecord?
  {
    if Enabled(s, step) {
      match step
      case IssueStep(store, binding, p, at, outcome, last) => IssueStaysCounted(s, store, binding, p, at, last, budget);
      case VerifyStep(store, c, identity, answer, t, outcome) => VerifyStaysCounted(s, store, c, identity, answer, t, budget);
      case ConsumeStep(_, c, permit, binding, t, outcome) => ConsumeStaysCounted(s, c, permit, binding, t, budget);
      case Unprepared =>
      case Crash(left) =>
        forall k, q | MayHold(Crashed(s.dir, left), k, q) ensures MayHold(s.dir, k, q) { CrashHolds(s.dir, left, k, q); }
        forall k ensures FalsesCounted(Apply(s, step).0, k, budget) { assert FalsesCounted(s, k, budget); }
    }
  }

  lemma {:induction false} RunStaysCounted(s: State, steps: seq<Step>, budget: nat)
    requires Inv(s) && Counted(s, budget) && SteadyRun(s, steps, budget)
    ensures Inv(Exec(s, steps)) && Counted(Exec(s, steps), budget)
    decreases |steps|
  {
    if steps != [] {
      StepKeepsInv(s, steps[0]);
      StepStaysCounted(s, steps[0], budget);
      RunStaysCounted(Apply(s, steps[0]).0, steps[1..], budget);
    }
  }

  /** With a clock that does not go back and no failed write, at most `maxFailures`
      factor checks ever answer false for one challenge, and none runs after that. */
  lemma FailureBudget(now: int, steps: seq<Step>, budget: nat, c: Id, store: Store, identity: Identity, answer: Answer, t: Times)
    requires SteadyRun(Fresh(now), steps, budget) && c in Exec(Fresh(now), steps).issued
    ensures Get(Exec(Fresh(now), steps).falses, c) <= budget
    ensures var s := Exec(Fresh(now), steps);
      s.now <= t.first && Get(s.falses, c) >= store.maxFailures ==>
      VerifyOp(s, store, c, identity, answer, t, Done).0 == s.(dir := SyncAll(s.dir), now := t.last)
  {
    RunStaysCounted(Fresh(now), steps, budget);
    var s := Exec(Fresh(now), steps);
    assert FalsesCounted(s, c, budget);
    if At(SyncAll(s.dir), c).seen.Some? { SeenIsOk(s, c); }
  }
}
