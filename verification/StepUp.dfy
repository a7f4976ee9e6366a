/** Action step-up challenges: issue, verify once, consume once, prune.

    Operations on one directory run one at a time, whatever store object they come
    from, because every store shares the directory's queue. An operation ends where
    its last publication or check does; a crash may follow any step. Keyed digests
    are taken as one-to-one, so a record holds the identifiers they stand for. */
module StepUp {
  import opened Wrappers
  import opened DurableFile
  import opened Utf16
  import opened Canonical
  import I = CanonicalInjective

  const MAX_TTL_MS := 300_000
  const MAX_RECORDS := 4096
  const MAX_FAILURES := 5

  /** Challenge, permit and receipt references: random, never repeated. */
  type Id = nat

  datatype Store = Store(ttlMs: int, maxRecords: int, maxFailures: int)

  /** The constructor's checks. */
  predicate ValidStore(s: Store)
  {
    0 < s.ttlMs <= MAX_TTL_MS && 0 < s.maxRecords <= MAX_RECORDS && 0 < s.maxFailures <= MAX_FAILURES
  }

  datatype Identity = Identity(userId: Text, sessionBinding: Text, credentialBinding: Text,
                               authorityBinding: Text, factorBinding: Text)

  datatype Binding = Binding(identity: Identity, action: Text, resourceKind: Text, resourceId: Text,
                             intentDigest: Text, targetDigest: Text)

  datatype Mac = Mac(domain: string, text: Text)

  // --- digests of identity and binding --------------------------------------------

  function Strings(values: seq<Text>): Value
  {
    Arr(seq(|values|, i requires 0 <= i < |values| => Str(values[i])))
  }

  lemma StringsEncode(values: seq<Text>)
    ensures Proper(Strings(values)) && Encoded(Strings(values)).Ok?
  {
    StringItemsEncode(Strings(values).items);
  }

  lemma {:induction false} StringItemsEncode(items: seq<Value>)
    requires forall i :: 0 <= i < |items| ==> items[i].Str?
    ensures EncodedItems(items).Ok?
  {
    if items != [] { StringItemsEncode(items[1..]); }
  }

  /** `JSON.stringify` of an array of strings. */
  function Json(values: seq<Text>): Text
  {
    StringsEncode(values);
    Encoded(Strings(values)).value
  }

  lemma JsonIdentifies(a: seq<Text>, b: seq<Text>)
    ensures Json(a) == Json(b) <==> a == b
  {
    StringsEncode(a);
    StringsEncode(b);
    I.EncodingIsInjective(Strings(a), Strings(b));
    var x, y := Meaning(Strings(a)), Meaning(Strings(b));
    if x == y {
      assert |a| == |x.items| == |y.items| == |b|;
      forall i | 0 <= i < |a| ensures a[i] == b[i] {
        assert x.items[i] == DStr(a[i]) && y.items[i] == DStr(b[i]);
      }
    }
  }

  function IdentityValues(i: Identity): seq<Text>
  {
    [i.userId, i.sessionBinding, i.credentialBinding, i.authorityBinding, i.factorBinding]
  }

  function BindingValues(b: Binding): seq<Text>
  {
    IdentityValues(b.identity) + [b.action, b.resourceKind, b.resourceId, b.intentDigest, b.targetDigest]
  }

  // --- records ------------------------------------------------------------------------

  datatype Phase =
    | Pending
    | Verified(verifiedAt: int, permit: Id)
    | Consumed(verifiedAt: int, permit: Id, consumedAt: int, receipt: Id)

  datatype Record = Record(phase: Phase, identityDigest: Mac, bindingDigest: Mac, userDigest: Mac, factorBinding: Text,
                           action: Text, resourceKind: Text, resourceDigest: Mac, intentDigest: Text, targetDigest: Text,
                           createdAt: int, expiresAt: int, failures: int)

  /** The relational part of `assertRecord`. */
  predicate RecordOk(r: Record)
  {
    && 0 < r.expiresAt - r.createdAt <= MAX_TTL_MS
    && 0 <= r.failures <= MAX_FAILURES
    && match r.phase
       case Pending => true
       case Verified(v, _) => r.createdAt <= v < r.expiresAt
       case Consumed(v, _, c, _) => r.createdAt <= v < r.expiresAt && v <= c < r.expiresAt
  }

  function NewRecord(b: Binding, now: int, ttlMs: int): Record
  {
    Record(Pending, Mac("identity", Json(IdentityValues(b.identity))), Mac("binding", Json(BindingValues(b))),
           Mac("user", b.identity.userId), b.identity.factorBinding, b.action, b.resourceKind,
           Mac("resource", b.resourceId), b.intentDigest, b.targetDigest, now, now + ttlMs, 0)
  }

  predicate IdentityMatches(r: Record, i: Identity)
  {
    && r.identityDigest == Mac("identity", Json(IdentityValues(i)))
    && r.userDigest == Mac("user", i.userId)
    && r.factorBinding == i.factorBinding
  }

  predicate BindingMatches(r: Record, b: Binding)
  {
    && IdentityMatches(r, b.identity)
    && r.bindingDigest == Mac("binding", Json(BindingValues(b)))
    && r.action == b.action && r.resourceKind == b.resourceKind
    && r.resourceDigest == Mac("resource", b.resourceId)
    && r.intentDigest == b.intentDigest && r.targetDigest == b.targetDigest
  }

  predicate Live(r: Record, now: int) { r.createdAt <= now < r.expiresAt }

  lemma BindingValuesIdentify(b: Binding, c: Binding)
    requires BindingValues(b) == BindingValues(c)
    ensures b == c
  {
    var x, y := BindingValues(b), BindingValues(c);
    assert x[0] == y[0] && x[1] == y[1] && x[2] == y[2] && x[3] == y[3] && x[4] == y[4];
    assert x[5] == y[5] && x[6] == y[6] && x[7] == y[7] && x[8] == y[8] && x[9] == y[9];
  }

  /** A record issued for one binding matches that binding and no other. */
  lemma BindingIsExact(b: Binding, c: Binding, now: int, ttlMs: int)
    ensures BindingMatches(NewRecord(b, now, ttlMs), c) <==> b == c
  {
    JsonIdentifies(BindingValues(b), BindingValues(c));
    if BindingMatches(NewRecord(b, now, ttlMs), c) { BindingValuesIdentify(b, c); }
  }

  // --- the directory and its history -----------------------------------------------------

  type Dir = Directory<Id, Record>

  datatype Permit = Permit(challenge: Id, permit: Id)

  datatype Receipt = Receipt(challenge: Id, receipt: Id, permit: Id, binding: Binding)

  /** What `issue` was asked for and the record it built. */
  datatype Issue = Issue(binding: Binding, record: Record)

  /** `dir` is the directory; the rest records what callers have seen. `falses` counts
      factor checks that answered false, `recorded` those whose count reached the disk. */
  datatype State = State(dir: Dir, next: Id, issued: map<Id, Issue>, permits: set<Permit>, receipts: set<Receipt>,
                         falses: map<Id, nat>, recorded: map<Id, nat>, now: int)

  datatype Answer = Valid | Invalid | Throws

  datatype Reply =
    | Challenge(challenge: Id, expiresAt: int)
    | Permitted(challenge: Id, permit: Id, expiresAt: int)
    | Receipted(receipt: Id, permit: Id)
    | BadRecord        // `write` refused what the operation built
    | Unavailable
    | Expired
    | Unauthorized
    | Conflict
    | Unknown

  /** Clock readings of one operation, in the order they are taken. */
  datatype Times = Times(first: int, second: int, third: int, last: int)

  datatype Step =
    | IssueStep(store: Store, binding: Binding, prune: Pruning, at: int, outcome: Outcome, last: int)
    | VerifyStep(store: Store, challenge: Id, identity: Identity, answer: Answer, t: Times, outcome: Outcome)
    | ConsumeStep(store: Store, challenge: Id, permit: Id, binding: Binding, t: Times, outcome: Outcome)
    | Unprepared            // the first directory sync failed
    | Crash(left: map<Id, Option<Record>>)

  /** One pass of `pruneExpired`: the entries in the order the directory lists them, a
      clock reading for each, how many were handled before an I/O failure (all of them
      if none failed), and whether the closing sync succeeded. */
  datatype Pruning = Pruning(entries: seq<Id>, times: seq<int>, done: nat, synced: bool)

  function Get(m: map<Id, nat>, k: Id): nat { if k in m then m[k] else 0 }

  function Visible(d: Dir): set<Id> { set k | k in d && d[k].seen.Some? }

  ghost predicate Lists(p: Pruning, d: Dir)
  {
    && |p.times| == |p.entries| && p.done <= |p.entries|
    && (forall i, j :: 0 <= i < j < |p.entries| ==> p.entries[i] != p.entries[j])
    && (set k | k in p.entries) == Visible(d)
  }

  predicate IsExpired(d: Dir, k: Id, now: int)
  {
    At(d, k).seen.Some? && At(d, k).seen.value.expiresAt <= now
  }

  function Unlink(d: Dir, k: Id): Dir { d[k := Changed(At(d, k), None)] }

  /** The directory after the first `n` entries of the pass. */
  function Pruned(d: Dir, p: Pruning, n: nat): Dir
    requires n <= |p.entries| == |p.times|
  {
    if n == 0 then d
    else if IsExpired(d, p.entries[n - 1], p.times[n - 1]) then Unlink(Pruned(d, p, n - 1), p.entries[n - 1])
    else Pruned(d, p, n - 1)
  }

  function LiveCount(d: Dir, p: Pruning, n: nat): nat
    requires n <= |p.entries| == |p.times|
  {
    if n == 0 then 0 else LiveCount(d, p, n - 1) + (if IsExpired(d, p.entries[n - 1], p.times[n - 1]) then 0 else 1)
  }

  /** The directory a pass leaves and, when it completed, the records still live. */
  function PruneResult(d: Dir, p: Pruning): (Dir, Option<nat>)
    requires p.done <= |p.entries| == |p.times|
  {
    var after := Pruned(d, p, p.done);
    var live := LiveCount(d, p, p.done);
    if p.done < |p.entries| then (after, None)
    else if live == |p.entries| then (after, Some(live))
    else if p.synced then (SyncAll(after), Some(live))
    else (after, None)
  }

  // --- the three operations --------------------------------------------------------------

  function IssueOp(s: State, store: Store, binding: Binding, p: Pruning, at: int, outcome: Outcome, last: int): (State, Reply)
    requires p.done <= |p.entries| == |p.times|
  {
    var (pruned, live) := PruneResult(SyncAll(s.dir), p);
    var t := s.(dir := pruned, now := last);
    if live.None? || live.value >= store.maxRecords then (t, Unavailable)
    else
      var r := NewRecord(binding, at, store.ttlMs);
      if !RecordOk(r) then (t, BadRecord)
      else
        var u := t.(dir := Publish(pruned, s.next, Some(r), outcome), next := s.next + 1,
                    issued := s.issued[s.next := Issue(binding, r)]);
        if !outcome.Done? then (u, Unavailable)
        else if !Live(r, last) then (u, Expired)
        else (u, Challenge(s.next, r.expiresAt))
  }

  /** `verifyFactor` and what follows, on a record that passed every check before it. */
  function CheckFactor(s: State, c: Id, r: Record, answer: Answer, t: Times, outcome: Outcome): (State, Reply)
  {
    if answer.Throws? then (s, Unavailable)
    else if answer.Invalid? then
      var counted := s.(falses := s.falses[c := Get(s.falses, c) + 1]);
      if !Live(r, t.second) then (counted, Expired)
      else
        var failed := r.(failures := r.failures + 1);
        if !RecordOk(failed) then (counted, BadRecord)
        else
          (counted.(dir := Publish(s.dir, c, Some(failed), outcome),
                    recorded := if outcome.Done? then s.recorded[c := Get(s.recorded, c) + 1] else s.recorded),
           if outcome.Done? then Unauthorized else Unavailable)
    else if !Live(r, t.second) || t.third >= r.expiresAt then (s, Expired)
    else
      var verified := r.(phase := Verified(t.third, s.next));
      if !RecordOk(verified) then (s, BadRecord)
      else
        var u := s.(dir := Publish(s.dir, c, Some(verified), outcome), next := s.next + 1);
        if !outcome.Done? then (u, Unavailable)
        else if !Live(r, t.last) then (u, Expired)
        else (u.(permits := s.permits + {Permit(c, s.next)}), Permitted(c, s.next, r.expiresAt))
  }

  function VerifyOp(s: State, store: Store, c: Id, identity: Identity, answer: Answer, t: Times, outcome: Outcome): (State, Reply)
  {
    var u := s.(dir := SyncAll(s.dir), now := t.last);
    var seen := At(u.dir, c).seen;
    if seen.None? then (u, Unknown)
    else if !IdentityMatches(seen.value, identity) then (u, Unauthorized)
    else if !Live(seen.value, t.first) then (u, Expired)
    else if !seen.value.phase.Pending? then (u, Conflict)
    else if seen.value.failures >= store.maxFailures then (u, Unauthorized)
    else CheckFactor(u, c, seen.value, answer, t, outcome)
  }

  function ConsumeOp(s: State, c: Id, permit: Id, binding: Binding, t: Times, outcome: Outcome): (State, Reply)
  {
    var u := s.(dir := SyncAll(s.dir), now := t.last);
    var seen := At(u.dir, c).seen;
    if seen.None? then (u, Unknown)
    else if !BindingMatches(seen.value, binding) then (u, Unauthorized)
    else if !Live(seen.value, t.first) then (u, Expired)
    else if !seen.value.phase.Verified? then (u, Conflict)
    else if seen.value.phase.permit != permit then (u, Unauthorized)
    else if t.third >= seen.value.expiresAt then (u, Expired)
    else
      var r := seen.value;
      var consumed := r.(phase := Consumed(r.phase.verifiedAt, permit, t.third, s.next));
      if !RecordOk(consumed) then (u, BadRecord)
      else
        var v := u.(dir := Publish(u.dir, c, Some(consumed), outcome), next := s.next + 1);
        if !outcome.Done? then (v, Unavailable)
        else if !Live(r, t.last) then (v, Expired)
        else (v.(receipts := s.receipts + {Receipt(c, s.next, permit, binding)}), Receipted(s.next, permit))
  }

  /** Nobody presents a permit that was generated but never returned: it is random. */
  ghost predicate Knowable(s: State, permit: Id)
  {
    permit >= s.next || exists p :: p in s.permits && p.permit == permit
  }

  ghost predicate Enabled(s: State, step: Step)
  {
    match step
    case IssueStep(store, _, p, _, _, _) => ValidStore(store) && Lists(p, SyncAll(s.dir))
    case VerifyStep(store, _, _, _, _, _) => ValidStore(store)
    case ConsumeStep(store, _, permit, _, _, _) => ValidStore(store) && Knowable(s, permit)
    case Unprepared => true
    case Crash(_) => true
  }

  ghost function Apply(s: State, step: Step): (State, Reply)
  {
    if !Enabled(s, step) then (s, Unavailable) else
    match step
    case IssueStep(store, binding, p, at, outcome, last) => IssueOp(s, store, binding, p, at, outcome, last)
    case VerifyStep(store, c, identity, answer, t, outcome) => VerifyOp(s, store, c, identity, answer, t, outcome)
    case ConsumeStep(_, c, permit, binding, t, outcome) => ConsumeOp(s, c, permit, binding, t, outcome)
    case Unprepared => (s, Unavailable)
    case Crash(left) => (s.(dir := Crashed(s.dir, left)), Unavailable)
  }

  ghost function Exec(s: State, steps: seq<Step>): State
    decreases |steps|
  {
    if steps == [] then s else Exec(Apply(s, steps[0]).0, steps[1..])
  }

  function Fresh(now: int): State { State(map[], 0, map[], {}, {}, map[], map[], now) }
}
