/** What every journal here assumes of the file system. A record is published by
    writing a temporary file, syncing it, renaming it into place and syncing the
    directory. Readers see the rename at once; until the directory sync succeeds a
    crash may leave the name holding any value it held since the last sync. */
module DurableFile {
  import opened Wrappers

  /** One file name: what a reader sees, and everything a crash may leave there. */
  datatype Slot<R(==)> = Slot(seen: Option<R>, onDisk: set<Option<R>>)

  type Directory<K(==), R(==)> = map<K, Slot<R>>

  /** How far one publication got before it returned or threw. */
  datatype Outcome = NotRenamed | NotSynced | Done

  function Missing<R(==)>(): Slot<R> { Slot(None, {None}) }

  function At<K(==), R(==)>(d: Directory<K, R>, k: K): Slot<R>
  {
    if k in d then d[k] else Missing()
  }

  function SyncedSlot<R(==)>(seen: Option<R>): Slot<R> { Slot(seen, {seen}) }

  function Changed<R(==)>(s: Slot<R>, value: Option<R>): Slot<R>
  {
    Slot(value, s.onDisk + {value})
  }

  /** One publication to a single file in a directory of its own. */
  function PublishSlot<R(==)>(s: Slot<R>, value: Option<R>, outcome: Outcome): Slot<R>
  {
    match outcome
    case NotRenamed => s
    case NotSynced => Changed(s, value)
    case Done => SyncedSlot(value)
  }

  /** The value `left` when a crash may leave it, otherwise the visible one. */
  function CrashedSlot<R(==)>(s: Slot<R>, left: Option<R>): Slot<R>
  {
    SyncedSlot(if left in s.onDisk then left else s.seen)
  }

  /** A directory sync makes everything visible in it permanent. */
  function SyncAll<K(==), R(==)>(d: Directory<K, R>): Directory<K, R>
  {
    map k | k in d :: SyncedSlot(d[k].seen)
  }

  /** Rename (or unlink, when `value` is None) followed by the directory sync. */
  function Publish<K(==), R(==)>(d: Directory<K, R>, k: K, value: Option<R>, outcome: Outcome): Directory<K, R>
  {
    match outcome
    case NotRenamed => d
    case NotSynced => d[k := Changed(At(d, k), value)]
    case Done => SyncAll(d[k := Changed(At(d, k), value)])
  }

  /** After a crash each name holds one of its possible values: the one `left`
      names when that is possible, otherwise the visible one. */
  function Crashed<K(==), R(==)>(d: Directory<K, R>, left: map<K, Option<R>>): Directory<K, R>
  {
    map k | k in d ::
      SyncedSlot(if k in left && left[k] in d[k].onDisk then left[k] else d[k].seen)
  }

  ghost predicate Sound<K, R>(d: Directory<K, R>)
  {
    forall k :: k in d ==> d[k].seen in d[k].onDisk
  }

  /** Every entry is exactly what a crash would leave. */
  ghost predicate Synced<K, R>(d: Directory<K, R>)
  {
    forall k :: k in d ==> d[k] == SyncedSlot(d[k].seen)
  }

  /** `k` may hold `value` now or after a crash. */
  ghost predicate MayHold<K, R>(d: Directory<K, R>, k: K, value: R)
  {
    k in d && Some(value) in d[k].onDisk
  }

  lemma PublishHolds<K, R>(d: Directory<K, R>, k: K, value: R, outcome: Outcome, j: K, x: R)
    requires Sound(d) && MayHold(Publish(d, k, Some(value), outcome), j, x)
    ensures MayHold(d, j, x) || (j == k && x == value)
  {}

  lemma CrashHolds<K, R>(d: Directory<K, R>, left: map<K, Option<R>>, j: K, x: R)
    requires Sound(d) && MayHold(Crashed(d, left), j, x)
    ensures MayHold(d, j, x)
  {}

  lemma SyncHolds<K, R>(d: Directory<K, R>, j: K, x: R)
    requires Sound(d) && MayHold(SyncAll(d), j, x)
    ensures MayHold(d, j, x)
  {}

  lemma DiskStaysSound<K, R>(d: Directory<K, R>, k: K, value: Option<R>, outcome: Outcome, left: map<K, Option<R>>)
    requires Sound(d)
    ensures Sound(Publish(d, k, value, outcome)) && Sound(Crashed(d, left)) && Sound(SyncAll(d))
    ensures Synced(Crashed(d, left)) && Synced(SyncAll(d))
    ensures outcome.Done? ==> Synced(Publish(d, k, value, outcome))
  {}
}
