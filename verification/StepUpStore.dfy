/** `FileActionStepUpStore` over the directory it shares with every other store object.
    The directory's queue runs one of these calls at a time. */
module StepUpStore {
  import opened Wrappers
  import opened DurableFile
  import opened StepUp
  import C = StepUpCapacity

  class StepUpDirectory {
    var s: State

    constructor (now: int)
      ensures s == Fresh(now)
    {
      s := Fresh(now);
    }

    /** `prepare`: the directory sync that precedes every read. */
    method Prepare()
      modifies this
      ensures s == old(s).(dir := SyncAll(old(s.dir)))
    {
      s := s.(dir := SyncAll(s.dir));
    }

    /** `pruneExpired`: unlink what has expired entry by entry, then sync once. */
    method PruneExpired(p: Pruning) returns (live: Option<nat>)
      requires Sound(s.dir) && Lists(p, s.dir)
      modifies this
      ensures s == old(s).(dir := PruneResult(old(s.dir), p).0)
      ensures live == PruneResult(old(s.dir), p).1
    {
      ghost var before := s;
      var removed := false;
      var count := 0;
      var n := 0;
      while n < p.done
        invariant n <= p.done
        invariant s == before.(dir := Pruned(before.dir, p, n))
        invariant count == LiveCount(before.dir, p, n) <= n
        invariant removed <==> count < n
      {
        var entry, now := p.entries[n], p.times[n];
        C.NotYetPruned(before.dir, p, n);
        if IsExpired(s.dir, entry, now) {
          s := s.(dir := Unlink(s.dir, entry));
          removed := true;
        } else {
          count := count + 1;
        }
        n := n + 1;
      }
      if p.done < |p.entries| { return None; }
      if removed {
        if !p.synced { return None; }
        s := s.(dir := SyncAll(s.dir));
      }
      return Some(count);
    }

    /** `write`: refuse a record that breaks the format, otherwise publish it. */
    method Write(c: Id, r: Record, outcome: Outcome) returns (failed: Option<Reply>)
      modifies this
      ensures failed == if !RecordOk(r) then Some(BadRecord) else if !outcome.Done? then Some(Unavailable) else None
      ensures s == if RecordOk(r) then old(s).(dir := Publish(old(s.dir), c, Some(r), outcome)) else old(s)
    {
      if !RecordOk(r) { return Some(BadRecord); }
      s := s.(dir := Publish(s.dir, c, Some(r), outcome));
      return if outcome.Done? then None else Some(Unavailable);
    }

    /** `randomBytes`: a reference nobody has seen. */
    method NewReference() returns (id: Id)
      modifies this
      ensures id == old(s.next) && s == old(s).(next := old(s.next) + 1)
    {
      id := s.next;
      s := s.(next := s.next + 1);
    }
  }

  class FileActionStepUpStore {
    const directory: StepUpDirectory
    const limits: Store

    constructor (directory: StepUpDirectory, limits: Store)
      requires ValidStore(limits)
      ensures this.directory == directory && this.limits == limits
    {
      this.directory := directory;
      this.limits := limits;
    }

    method Issue(binding: Binding, p: Pruning, at: int, outcome: Outcome, last: int) returns (reply: Reply)
      requires Sound(directory.s.dir) && Lists(p, SyncAll(directory.s.dir))
      modifies directory
      ensures (directory.s, reply) == IssueOp(old(directory.s), limits, binding, p, at, outcome, last)
    {
      DiskStaysSound(directory.s.dir, 0, None, NotRenamed, map[]);
      directory.Prepare();
      var live := directory.PruneExpired(p);
      directory.s := directory.s.(now := last);
      if live.None? || live.value >= limits.maxRecords { return Unavailable; }
      var record := NewRecord(binding, at, limits.ttlMs);
      if !RecordOk(record) { return BadRecord; }
      var id := directory.NewReference();
      directory.s := directory.s.(issued := directory.s.issued[id := StepUp.Issue(binding, record)]);
      var failed := directory.Write(id, record, outcome);
      if failed.Some? { return failed.value; }
      if !Live(record, last) { return Expired; }
      return Challenge(id, record.expiresAt);
    }

    method Verify(c: Id, identity: Identity, answer: Answer, t: Times, outcome: Outcome) returns (reply: Reply)
      modifies directory
      ensures (directory.s, reply) == VerifyOp(old(directory.s), limits, c, identity, answer, t, outcome)
    {
      directory.Prepare();
      directory.s := directory.s.(now := t.last);
      var seen := At(directory.s.dir, c).seen;
      if seen.None? { return Unknown; }
      var record := seen.value;
      if !IdentityMatches(record, identity) { return Unauthorized; }
      if !Live(record, t.first) { return Expired; }
      if !record.phase.Pending? { return Conflict; }
      if record.failures >= limits.maxFailures { return Unauthorized; }
      if answer.Throws? { return Unavailable; }
      if answer.Invalid? {
        directory.s := directory.s.(falses := directory.s.falses[c := Get(directory.s.falses, c) + 1]);
      }
      if !Live(record, t.second) { return Expired; }
      if answer.Invalid? {
        var written := directory.Write(c, record.(failures := record.failures + 1), outcome);
        if written.Some? { return written.value; }
        directory.s := directory.s.(recorded := directory.s.recorded[c := Get(directory.s.recorded, c) + 1]);
        return Unauthorized;
      }
      if t.third >= record.expiresAt { return Expired; }
      var verified := record.(phase := Verified(t.third, directory.s.next));
      if !RecordOk(verified) { return BadRecord; }
      var permit := directory.NewReference();
      var failed := directory.Write(c, verified, outcome);
      if failed.Some? { return failed.value; }
      if !Live(record, t.last) { return Expired; }
      directory.s := directory.s.(permits := directory.s.permits + {Permit(c, permit)});
      return Permitted(c, permit, record.expiresAt);
    }

    method Consume(c: Id, permit: Id, binding: Binding, t: Times, outcome: Outcome) returns (reply: Reply)
      modifies directory
      ensures (directory.s, reply) == ConsumeOp(old(directory.s), c, permit, binding, t, outcome)
    {
      directory.Prepare();
      directory.s := directory.s.(now := t.last);
      var seen := At(directory.s.dir, c).seen;
      if seen.None? { return Unknown; }
      var record := seen.value;
      if !BindingMatches(record, binding) { return Unauthorized; }
      if !Live(record, t.first) { return Expired; }
      if !record.phase.Verified? { return Conflict; }
      if record.phase.permit != permit { return Unauthorized; }
      if t.third >= record.expiresAt { return Expired; }
      var consumed := record.(phase := Consumed(record.phase.verifiedAt, permit, t.third, directory.s.next));
      if !RecordOk(consumed) { return BadRecord; }
      var receipt := directory.NewReference();
      var failed := directory.Write(c, consumed, outcome);
      if failed.Some? { return failed.value; }
      if !Live(record, t.last) { return Expired; }
      directory.s := directory.s.(receipts := directory.s.receipts + {Receipt(c, receipt, permit, binding)});
      return Receipted(receipt, permit);
    }
  }
}
