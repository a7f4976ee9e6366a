/** The step-up directory never outgrows its limit. */
module StepUpCapacity {
  import opened Wrappers
  import opened DurableFile
  import opened StepUp

  ghost predicate HoldsSome(d: Dir, k: Id) { exists r :: MayHold(d, k, r) }

  /** Names that hold a record now or may after a crash. */
  ghost function Occupied(d: Dir): set<Id> { set k | k in d && HoldsSome(d, k) }

  ghost predicate Narrows(d: Dir, e: Dir)
  {
    Sound(e) && forall k, r :: MayHold(e, k, r) ==> MayHold(d, k, r)
  }

  lemma SmallerSet(a: set<Id>, b: set<Id>)
    requires a <= b
    ensures |a| <= |b|
  {
    assert b == a + (b - a);
    assert |b| == |a| + |b - a|;
  }

  lemma NarrowOccupies(d: Dir, e: Dir)
    requires Narrows(d, e)
    ensures Occupied(e) <= Occupied(d) && |Occupied(e)| <= |Occupied(d)|
  {
    forall k | k in Occupied(e) ensures k in Occupied(d) {
      var r :| MayHold(e, k, r);
      assert MayHold(d, k, r);
    }
    SmallerSet(Occupied(e), Occupied(d));
  }

  ghost function Elements(entries: seq<Id>): set<Id> { set k | k in entries }

  lemma {:induction false} DistinctCount(entries: seq<Id>)
    requires NoRepeats(entries)
    ensures |Elements(entries)| == |entries|
  {
    if entries != [] {
      var front := entries[..|entries| - 1];
      var last := entries[|entries| - 1];
      DistinctCount(front);
      assert entries == front + [last] && last !in front;
      assert Elements(entries) == Elements(front) + {last};
    }
  }

  // --- pruning ----------------------------------------------------------------------

  lemma UnlinkNarrows(d: Dir, k: Id)
    requires Sound(d) && At(d, k).seen.Some?
    ensures Narrows(d, Unlink(d, k)) && Visible(Unlink(d, k)) == Visible(d) - {k}
  {}

  ghost function Removed(d: Dir, p: Pruning, n: nat): set<Id>
    requires n <= |p.entries| == |p.times|
  {
    if n == 0 then {}
    else if IsExpired(d, p.entries[n - 1], p.times[n - 1]) then Removed(d, p, n - 1) + {p.entries[n - 1]}
    else Removed(d, p, n - 1)
  }

  ghost predicate NoRepeats(entries: seq<Id>)
  {
    forall i, j :: 0 <= i < j < |entries| ==> entries[i] != entries[j]
  }

  /** After `n` entries, nothing has happened to the ones to come. */
  lemma {:induction false} PruneReaches(d: Dir, p: Pruning, n: nat)
    requires n <= |p.entries| == |p.times| && NoRepeats(p.entries)
    ensures forall k :: k in Removed(d, p, n) ==> exists i :: 0 <= i < n && p.entries[i] == k
    ensures forall i :: n <= i < |p.entries| ==> At(Pruned(d, p, n), p.entries[i]) == At(d, p.entries[i])
  {
    if n > 0 {
      PruneReaches(d, p, n - 1);
    }
  }

  /** What a pass of `n` entries has done to the directory. */
  ghost predicate PruneOk(d: Dir, p: Pruning, n: nat)
    requires n <= |p.entries| == |p.times|
  {
    && Removed(d, p, n) <= Visible(d)
    && Narrows(d, Pruned(d, p, n)) && Visible(Pruned(d, p, n)) == Visible(d) - Removed(d, p, n)
    && |Removed(d, p, n)| + LiveCount(d, p, n) == n
  }

  lemma PruneRemovesOne(d: Dir, p: Pruning, n: nat)
    requires 0 < n <= |p.entries| == |p.times| && PruneOk(d, p, n - 1) && IsExpired(d, p.entries[n - 1], p.times[n - 1])
    requires p.entries[n - 1] !in Removed(d, p, n - 1) && At(Pruned(d, p, n - 1), p.entries[n - 1]).seen.Some?
    ensures PruneOk(d, p, n)
  {
    var removed, last := Removed(d, p, n - 1), p.entries[n - 1];
    UnlinkNarrows(Pruned(d, p, n - 1), last);
    assert |removed + {last}| == |removed| + 1;
  }

  lemma {:induction false} PruneRemoves(d: Dir, p: Pruning, n: nat)
    requires n <= |p.entries| == |p.times| && NoRepeats(p.entries) && Sound(d)
    ensures PruneOk(d, p, n)
  {
    if n > 0 {
      PruneRemoves(d, p, n - 1);
      if IsExpired(d, p.entries[n - 1], p.times[n - 1]) {
        PruneReaches(d, p, n - 1);
        PruneRemovesOne(d, p, n);
      }
    }
  }

  /** The pass reads each entry as it was when the pass began. */
  lemma NotYetPruned(d: Dir, p: Pruning, n: nat)
    requires n < |p.entries| == |p.times| && NoRepeats(p.entries)
    ensures At(Pruned(d, p, n), p.entries[n]) == At(d, p.entries[n])
  {
    PruneReaches(d, p, n);
  }

  lemma LeftVisible(d: Dir, p: Pruning)
    requires Sound(d) && Lists(p, d)
    ensures var n := |p.entries|;
      Narrows(d, Pruned(d, p, n)) && |Visible(Pruned(d, p, n))| == LiveCount(d, p, n) && |Visible(d)| == n
  {
    var n := |p.entries|;
    PruneRemoves(d, p, n);
    DistinctCount(p.entries);
    assert Elements(p.entries) == Visible(d);
  }

  lemma SyncedOccupancy(d: Dir)
    requires Sound(d)
    ensures |Occupied(SyncAll(d))| <= |Visible(d)|
  {
    DiskStaysSound(d, 0, None, NotRenamed, map[]);
    assert Visible(SyncAll(d)) == Visible(d);
    SmallerSet(Occupied(SyncAll(d)), Visible(d));
  }

  /** A completed pass counts exactly the names it leaves. */
  lemma LiveIsOccupancy(d: Dir, p: Pruning)
    requires Sound(d) && Synced(d) && Lists(p, d) && PruneResult(d, p).1.Some?
    ensures |Occupied(PruneResult(d, p).0)| <= PruneResult(d, p).1.value
  {
    var n := |p.entries|;
    var after := Pruned(d, p, n);
    LeftVisible(d, p);
    if LiveCount(d, p, n) == n {
      NarrowOccupies(d, after);
      SmallerSet(Occupied(d), Visible(d));
    } else {
      SyncedOccupancy(after);
    }
  }

  lemma PruneNarrows(d: Dir, p: Pruning)
    requires Sound(d) && Lists(p, d)
    ensures Narrows(d, PruneResult(d, p).0)
  {
    PruneRemoves(d, p, p.done);
  }

  // --- every step ---------------------------------------------------------------------

  lemma PublishOccupies(d: Dir, c: Id, r: Record, outcome: Outcome)
    requires Sound(d)
    ensures Sound(Publish(d, c, Some(r), outcome)) && Occupied(Publish(d, c, Some(r), outcome)) <= Occupied(d) + {c}
    ensures |Occupied(Publish(d, c, Some(r), outcome))| <= if c in Occupied(d) then |Occupied(d)| else |Occupied(d)| + 1
  {
    var e := Publish(d, c, Some(r), outcome);
    DiskStaysSound(d, c, Some(r), outcome, map[]);
    forall k | k in Occupied(e) ensures k in Occupied(d) + {c} {
      var q :| MayHold(e, k, q);
      PublishHolds(d, c, r, outcome, k, q);
    }
    if c in Occupied(d) { assert Occupied(d) + {c} == Occupied(d); }
    SmallerSet(Occupied(e), Occupied(d) + {c});
  }

  ghost predicate Within(d: Dir, cap: nat) { Sound(d) && |Occupied(d)| <= cap }

  lemma IssueStaysWithin(s: State, store: Store, binding: Binding, p: Pruning, at: int, outcome: Outcome, last: int, cap: nat)
    requires Within(s.dir, cap) && store.maxRecords <= cap && Lists(p, SyncAll(s.dir))
    ensures Within(IssueOp(s, store, binding, p, at, outcome, last).0.dir, cap)
  {
    var d := SyncAll(s.dir);
    PrunedStaysWithin(s.dir, p, cap);
    if PruneResult(d, p).1.Some? {
      LiveIsOccupancy(d, p);
      PublishOccupies(PruneResult(d, p).0, s.next, NewRecord(binding, at, store.ttlMs), outcome);
    }
  }

  lemma PrunedStaysWithin(dir: Dir, p: Pruning, cap: nat)
    requires Within(dir, cap) && Lists(p, SyncAll(dir))
    ensures Within(PruneResult(SyncAll(dir), p).0, cap)
  {
    PruneNarrows(SyncAll(dir), p);
    NarrowOccupies(dir, PruneResult(SyncAll(dir), p).0);
  }

  /** Verify and consume rewrite a record that is already there. */
  ghost predicate Rewrites(d: Dir, e: Dir)
  {
    e == SyncAll(d) || exists c, r, outcome :: At(SyncAll(d), c).seen.Some? && e == Publish(SyncAll(d), c, Some(r), outcome)
  }

  lemma RewriteStaysWithin(d: Dir, e: Dir, cap: nat)
    requires Within(d, cap) && Rewrites(d, e)
    ensures Within(e, cap)
  {
    NarrowOccupies(d, SyncAll(d));
    if e != SyncAll(d) {
      var c, r, outcome :| At(SyncAll(d), c).seen.Some? && e == Publish(SyncAll(d), c, Some(r), outcome);
      assert MayHold(SyncAll(d), c, At(SyncAll(d), c).seen.value);
      PublishOccupies(SyncAll(d), c, r, outcome);
    }
  }

  lemma ConsumeRewrites(s: State, c: Id, permit: Id, binding: Binding, t: Times, outcome: Outcome)
    ensures Rewrites(s.dir, ConsumeOp(s, c, permit, binding, t, outcome).0.dir)
  {}

  lemma StepStaysWithin(s: State, step: Step, cap: nat)
    requires Within(s.dir, cap) && (step.IssueStep? ==> step.store.maxRecords <= cap)
    ensures Within(Apply(s, step).0.dir, cap)
  {
    if Enabled(s, step) {
      match step
      case IssueStep(store, binding, p, at, outcome, last) => IssueStaysWithin(s, store, binding, p, at, outcome, last, cap);
      case VerifyStep(store, c, identity, answer, t, outcome) =>
        RewriteStaysWithin(s.dir, Apply(s, step).0.dir, cap);
      case ConsumeStep(_, c, permit, binding, t, outcome) =>
        ConsumeRewrites(s, c, permit, binding, t, outcome);
        RewriteStaysWithin(s.dir, Apply(s, step).0.dir, cap);
      case Unprepared =>
      case Crash(left) =>
        DiskStaysSound(s.dir, 0, None, NotRenamed, left);
        NarrowOccupies(s.dir, Crashed(s.dir, left));
    }
  }

  ghost predicate CappedRun(steps: seq<Step>, cap: nat)
  {
    forall i :: 0 <= i < |steps| && steps[i].IssueStep? ==> steps[i].store.maxRecords <= cap
  }

  lemma {:induction false} RunStaysWithin(s: State, steps: seq<Step>, cap: nat)
    requires Within(s.dir, cap) && CappedRun(steps, cap)
    ensures Within(Exec(s, steps).dir, cap)
    decreases |steps|
  {
    if steps != [] {
      StepStaysWithin(s, steps[0], cap);
      RunStaysWithin(Apply(s, steps[0]).0, steps[1..], cap);
    }
  }

  /** Whatever clocks, failures and crashes do, the directory never holds more records
      than the largest limit of the stores that issue into it. */
  lemma CapacityHolds(now: int, steps: seq<Step>, cap: nat)
    requires CappedRun(steps, cap)
    ensures |Visible(Exec(Fresh(now), steps).dir)| <= cap
  {
    assert Occupied(Fresh(now).dir) == {};
    RunStaysWithin(Fresh(now), steps, cap);
    var d := Exec(Fresh(now), steps).dir;
    forall k | k in Visible(d) ensures k in Occupied(d) { assert MayHold(d, k, d[k].seen.value); }
    SmallerSet(Visible(d), Occupied(d));
  }
}
