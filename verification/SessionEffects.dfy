/** What each session operation does to the stored sessions, session by session. */
module SessionEffects {
  import opened Wrappers
  import opened Utf16
  import opened SessionPolicy
  import opened PromiseQueue
  import opened FileSessions

  // --- order -------------------------------------------------------------------------------------

  /** `part` is what is left of `whole` when some sessions are taken out. */
  ghost predicate PartOf(part: seq<Session>, whole: seq<Session>)
    decreases |whole|
  {
    part == [] || (whole != [] && (PartOf(part, whole[1..]) || (part[0] == whole[0] && PartOf(part[1..], whole[1..]))))
  }

  lemma {:induction false} FilterIsPart(ss: seq<Session>, keep: Session -> bool)
    ensures PartOf(Filter(ss, keep), ss)
    decreases |ss|
  {
    if ss != [] {
      FilterIsPart(ss[1..], keep);
      var rest := Filter(ss[1..], keep);
      assert ([ss[0]] + rest)[1..] == rest;
    }
  }

  /** The text has something in it and no NUL. */
  ghost predicate Named(t: Text) { t != [] && forall i :: 0 <= i < |t| ==> t[i] != 0 }

  /** A session a store may hold: named, owned, with both its times. */
  ghost predicate Proper(x: Session) { Named(x.id) && Named(x.userId) && x.createdAt != None && x.expires != None }

  ghost predicate IdTaken(ss: seq<Session>, id: Text) { exists i :: 0 <= i < |ss| && ss[i].id == id }

  lemma ProperIsKept(x: Session)
    ensures WellKept(x) <==> Proper(x)
  {
    assert 0 in x.id <==> exists i :: 0 <= i < |x.id| && x.id[i] == 0;
    assert 0 in x.userId <==> exists i :: 0 <= i < |x.userId| && x.userId[i] == 0;
  }

  lemma JoinIsStored(ss: seq<Session>, x: Session)
    requires Stored(ss)
    ensures Stored(ss + [x]) <==> Proper(x) && !IdTaken(ss, x.id)
  {
    ProperIsKept(x);
    var t := ss + [x];
    if Stored(t) { FrontIsStored(ss, x); }
    if Proper(x) && !IdTaken(ss, x.id) {
      forall i, j | 0 <= i < j < |t| ensures t[i].id != t[j].id {}
      forall y | y in t ensures WellKept(y) {}
    }
  }

  // --- the operations ------------------------------------------------------------------------------

  /** A plain create adds the session at the end, exactly when it is proper and its id free. */
  lemma CreatesExactly(ss: seq<Session>, x: Session)
    requires Stored(ss)
    ensures Run(ss, Create(x)) == if Proper(x) && !IdTaken(ss, x.id) then Replaces(ss + [x], Saved(x)) else Throws
  {
    JoinIsStored(ss, x);
  }

  /** A field an update names is set, any other stays. */
  ghost predicate Sets<T(!new)>(o: Option<T>, was: T, now: T) { (o.None? ==> now == was) && forall v :: o == Some(v) ==> now == v }

  ghost predicate SetsAll(p: Patch, s: Session, t: Session)
  {
    && Sets(p.id, s.id, t.id) && Sets(p.userId, s.userId, t.userId) && Sets(p.createdAt, s.createdAt, t.createdAt)
    && Sets(p.expires, s.expires, t.expires) && Sets(p.owner, s.owner, t.owner) && Sets(p.details, s.details, t.details)
  }

  lemma PatchedSets(s: Session, p: Patch)
    ensures SetsAll(p, s, Patched(s, p))
  {}

  lemma IndexIs(ss: seq<Session>, id: Text)
    requires UniqueIds(ss)
    ensures IndexOf(ss, id) < |ss| <==> IdTaken(ss, id)
  {}

  lemma ReplacedIsStored(ss: seq<Session>, i: nat, x: Session)
    requires Stored(ss) && i < |ss|
    ensures Stored(ss[i := x]) <==> Proper(x) && forall j :: 0 <= j < |ss| && j != i ==> ss[j].id != x.id
  {
    ProperIsKept(x);
    var t := ss[i := x];
    if Stored(t) {
      assert x == t[i] && x in t;
      forall j | 0 <= j < |ss| && j != i ensures ss[j].id != x.id { assert t[j] == ss[j]; }
    }
    if Proper(x) && forall j :: 0 <= j < |ss| && j != i ==> ss[j].id != x.id {
      forall a, b | 0 <= a < b < |t| ensures t[a].id != t[b].id { assert ss[a].id != ss[b].id; }
    }
  }

  ghost predicate UpdatedAt(ss: seq<Session>, id: Text, p: Patch, i: nat, next: seq<Session>, reply: Reply)
    requires i < |ss|
  {
    && ss[i].id == id && |next| == |ss| && SetsAll(p, ss[i], next[i]) && reply == Saved(next[i])
    && Stored(next) && forall j :: 0 <= j < |ss| && j != i ==> next[j] == ss[j]
  }

  /** An update replaces the one session with the id, each field as the update says and every other
      session as it was; it throws when there is none or the result may not be stored. */
  lemma UpdatesExactly(ss: seq<Session>, id: Text, p: Patch)
    requires Stored(ss)
    ensures match Run(ss, Update(id, p))
      case Answers(_) => false
      case Throws => forall i :: 0 <= i < |ss| && ss[i].id == id ==>
          forall x :: SetsAll(p, ss[i], x) ==> !Proper(x) || exists j :: 0 <= j < |ss| && j != i && ss[j].id == x.id
      case Replaces(next, reply) => exists i :: 0 <= i < |ss| && UpdatedAt(ss, id, p, i, next, reply)
  {
    var i := IndexOf(ss, id);
    if i < |ss| {
      var x := Patched(ss[i], p);
      PatchedSets(ss[i], p);
      ReplacedIsStored(ss, i, x);
      forall k | 0 <= k < |ss| && ss[k].id == id ensures k == i {}
      forall y | SetsAll(p, ss[i], y) ensures y == x { SetOnce(p, ss[i], x, y); }
      if Stored(ss[i := x]) { assert UpdatedAt(ss, id, p, i, ss[i := x], Saved(x)); }
    }
  }

  lemma SetOnce(p: Patch, s: Session, x: Session, y: Session)
    requires SetsAll(p, s, x) && SetsAll(p, s, y)
    ensures x == y
  {}

  /** `next` is what is left of `ss` without the sessions that `gone` names. */
  ghost predicate Without(next: seq<Session>, ss: seq<Session>, gone: Session -> bool)
  {
    PartOf(next, ss) && forall x :: x in next <==> x in ss && !gone(x)
  }

  function RemovedAt(ss: seq<Session>, i: nat): seq<Session>
    requires i <= |ss|
  {
    if i == |ss| then ss else ss[..i] + ss[i + 1..]
  }

  /** A delete takes out the session with the id and no other, and says whether there was one. */
  lemma DeletesExactly(ss: seq<Session>, id: Text)
    requires Stored(ss)
    ensures exists next :: Run(ss, Delete(id)) == Replaces(next, Deleted(IdTaken(ss, id))) && Without(next, ss, (x: Session) => x.id == id)
  {
    var i := IndexOf(ss, id);
    IndexIs(ss, id);
    RemovedIsPart(ss, i);
    RemovedById(ss, id);
    RemovedIsStored(ss, i);
    assert Run(ss, Delete(id)) == Replaces(RemovedAt(ss, i), Deleted(IdTaken(ss, id)));
  }

  lemma RemovedById(ss: seq<Session>, id: Text)
    requires Stored(ss) && PartOf(RemovedAt(ss, IndexOf(ss, id)), ss)
    ensures Without(RemovedAt(ss, IndexOf(ss, id)), ss, (x: Session) => x.id == id)
  {
    var i := IndexOf(ss, id);
    if i < |ss| {
      RemovedMembers(ss, i);
      forall x | x in ss ensures x.id == id <==> x == ss[i] { var j :| 0 <= j < |ss| && ss[j] == x; }
    } else {
      forall x | x in ss ensures x.id != id {}
    }
  }

  lemma RemovedMembers(ss: seq<Session>, i: nat)
    requires UniqueIds(ss) && i < |ss|
    ensures forall x :: x in ss[..i] + ss[i + 1..] <==> x in ss && x != ss[i]
  {
    var next := ss[..i] + ss[i + 1..];
    assert ss == ss[..i] + [ss[i]] + ss[i + 1..];
    forall x | x in next ensures x != ss[i] {
      var j :| 0 <= j < |next| && next[j] == x;
      assert x == ss[if j < i then j else j + 1];
    }
  }

  lemma RemovedIsStored(ss: seq<Session>, i: nat)
    requires Stored(ss) && i <= |ss|
    ensures Stored(RemovedAt(ss, i))
  {
    if i < |ss| {
      var next := ss[..i] + ss[i + 1..];
      forall a, b | 0 <= a < b < |next| ensures next[a].id != next[b].id {
        assert next[a] == ss[if a < i then a else a + 1] && next[b] == ss[if b < i then b else b + 1];
      }
    }
  }

  lemma {:induction false} WholeIsPart(ss: seq<Session>)
    ensures PartOf(ss, ss)
    decreases |ss|
  {
    if ss != [] { WholeIsPart(ss[1..]); }
  }

  lemma {:induction false} RemovedIsPart(ss: seq<Session>, i: nat)
    requires i <= |ss|
    ensures PartOf(RemovedAt(ss, i), ss)
    decreases |ss|
  {
    if i == |ss| { WholeIsPart(ss); }
    else if i == 0 {
      WholeIsPart(ss[1..]);
      assert ss[..0] + ss[1..] == ss[1..];
    } else {
      RemovedIsPart(ss[1..], i - 1);
      assert (ss[..i] + ss[i + 1..])[1..] == ss[1..][..i - 1] + ss[1..][i..];
    }
  }

  lemma PartCounts(ss: seq<Session>, keep: Session -> bool)
    requires Stored(ss)
    ensures Stored(Filter(ss, keep)) && PartOf(Filter(ss, keep), ss)
  {
    FilterUnique(ss, keep);
    FilterIsPart(ss, keep);
  }

  /** Revoking a user's sessions takes out all of them and nobody else's, and counts them. */
  lemma RevokesExactly(ss: seq<Session>, userId: Text)
    requires Stored(ss)
    ensures exists next :: Run(ss, DeleteUser(userId)) == Replaces(next, Removed(|ss| - |next|)) && Without(next, ss, (x: Session) => x.userId == userId)
  {
    PartCounts(ss, s => !Owns(userId, s));
    assert Without(Others(ss, userId), ss, (x: Session) => x.userId == userId);
  }

  /** The cleanup takes out what has expired by its clock and nothing else, and counts it. */
  lemma CleansExactly(ss: seq<Session>, now: int)
    requires Stored(ss)
    ensures exists next :: Run(ss, Cleanup(now)) == Replaces(next, Removed(|ss| - |next|)) && Without(next, ss, (x: Session) => Expired(x, now))
  {
    var next := Filter(ss, s => Unexpired(now, s));
    PartCounts(ss, s => Unexpired(now, s));
    forall x | x in ss ensures Unexpired(now, x) <==> !Expired(x, now) { ProperIsKept(x); }
    assert Without(next, ss, (x: Session) => Expired(x, now));
  }

  ghost predicate Expired(x: Session, now: int) { x.expires.Some? && x.expires.value <= now }

  // --- bounded creates --------------------------------------------------------------------------------

  /** `a` is the smaller text: a proper beginning, or smaller where they first differ. */
  ghost predicate SmallerText(a: Text, b: Text)
  {
    exists k: nat :: k <= |a| && k < |b| && a[..k] == b[..k] && (k < |a| ==> a[k] < b[k])
  }

  lemma SmallerFirst(a: Text, b: Text)
    requires a != [] && b != []
    ensures SmallerText(a, b) <==> a[0] < b[0] || (a[0] == b[0] && SmallerText(a[1..], b[1..]))
  {
    if k: nat :| k <= |a| && k < |b| && a[..k] == b[..k] && (k < |a| ==> a[k] < b[k]) {
      if k > 0 {
        assert a[0] == a[..k][0] == b[..k][0] == b[0];
        assert a[1..][..k - 1] == a[..k][1..] && b[1..][..k - 1] == b[..k][1..];
      }
    }
    if a[0] < b[0] { assert a[..0] == b[..0]; }
    if a[0] == b[0] {
      if k: nat :| k <= |a[1..]| && k < |b[1..]| && a[1..][..k] == b[1..][..k] && (k < |a[1..]| ==> a[1..][k] < b[1..][k]) {
        assert a[..k + 1] == [a[0]] + a[1..][..k] && b[..k + 1] == [b[0]] + b[1..][..k];
      }
    }
  }

  lemma {:induction false} LessIsSmaller(a: Text, b: Text)
    ensures Less(a, b) <==> SmallerText(a, b)
    decreases |a|
  {
    if a != [] && b != [] {
      SmallerFirst(a, b);
      LessIsSmaller(a[1..], b[1..]);
    } else if b != [] {
      assert a[..0] == b[..0];
    }
  }

  /** `y` was created later than `x`, or at the same instant with the greater id. */
  ghost predicate YoungerThan(y: Session, x: Session)
    requires x.createdAt.Some? && y.createdAt.Some?
  {
    x.createdAt.value < y.createdAt.value || (x.createdAt.value == y.createdAt.value && SmallerText(x.id, y.id))
  }

  ghost predicate LiveOf(userId: Text, now: int, x: Session)
  {
    x.userId == userId && x.createdAt.Some? && x.expires.Some? && now < x.expires.value
  }

  ghost function YoungerLive(ss: seq<Session>, userId: Text, now: int, x: Session): set<Session>
    requires x.createdAt.Some?
  {
    set y | y in ss && LiveOf(userId, now, y) && YoungerThan(y, x)
  }

  lemma YoungerIs(ss: seq<Session>, userId: Text, now: int, x: Session)
    requires Stored(ss) && x in ss
    ensures Younger(ss, userId, now, x) == YoungerLive(ss, userId, now, x)
  {
    forall y | y in ss ensures Older(x, y) <==> YoungerThan(y, x) { LessIsSmaller(x.id, y.id); }
  }

  /** Live, and among the youngest that the cap leaves room for beside a new one. */
  ghost predicate Retains(ss: seq<Session>, userId: Text, cap: int, now: int, y: Session)
  {
    y in ss && LiveOf(userId, now, y) && |YoungerLive(ss, userId, now, y)| < cap - 1
  }

  ghost predicate OldestFirst(kept: seq<Session>)
  {
    (forall x :: x in kept ==> x.createdAt.Some?) && forall i, j :: 0 <= i < j < |kept| ==> YoungerThan(kept[j], kept[i])
  }

  /** What a bounded create keeps: everyone else's sessions in their order, then the user's live ones
      with fewer than `cap - 1` younger, oldest first, then the new one. */
  ghost predicate KeptUnder(ss: seq<Session>, x: Session, cap: int, now: int, others: seq<Session>, kept: seq<Session>)
  {
    && Without(others, ss, (y: Session) => y.userId == x.userId)
    && (forall y :: y in kept <==> Retains(ss, x.userId, cap, now, y)) && OldestFirst(kept)
  }

  lemma AgesInOrder(kept: seq<Session>)
    requires ByAge(kept)
    ensures OldestFirst(kept)
  {
    forall i, j | 0 <= i < j < |kept| ensures WellKept(kept[i]) && WellKept(kept[j]) && YoungerThan(kept[j], kept[i]) {
      assert kept[i] in kept && kept[j] in kept && Older(kept[i], kept[j]);
      LessIsSmaller(kept[i].id, kept[j].id);
    }
  }

  lemma KeptIsRetained(ss: seq<Session>, x: Session, cap: nat, now: int, y: Session)
    requires Stored(ss) && cap >= 1
    ensures y in Retained(ss, x.userId, cap, now) <==> Retains(ss, x.userId, cap, now, y)
  {
    KeepsTheYoungest(ss, x.userId, cap, now);
    if y in ss {
      YoungerIs(ss, x.userId, now, y);
      assert WellKept(y) && (LiveOwn(x.userId, now, y) <==> LiveOf(x.userId, now, y));
      assert |Younger(ss, x.userId, now, y)| == |YoungerLive(ss, x.userId, now, y)|;
    }
  }

  lemma OthersAreWithout(ss: seq<Session>, x: Session)
    ensures Without(Others(ss, x.userId), ss, (y: Session) => y.userId == x.userId)
  {
    FilterIsPart(ss, s => !Owns(x.userId, s));
  }

  lemma KeptUnderCap(ss: seq<Session>, x: Session, cap: nat, now: int)
    requires Stored(ss) && cap >= 1
    ensures KeptUnder(ss, x, cap, now, Others(ss, x.userId), Retained(ss, x.userId, cap, now))
  {
    KeepsTheYoungest(ss, x.userId, cap, now);
    forall y ensures y in Retained(ss, x.userId, cap, now) <==> Retains(ss, x.userId, cap, now, y) { KeptIsRetained(ss, x, cap, now, y); }
    AgesInOrder(Retained(ss, x.userId, cap, now));
    OthersAreWithout(ss, x);
  }

  /** A bounded create throws exactly when the policy allows no session or another overflow, or the
      new session is not proper or its id taken; otherwise it keeps what the cap allows. */
  lemma BoundsExactly(ss: seq<Session>, x: Session, policy: Policy, now: int)
    requires Stored(ss)
    ensures var r := Run(ss, CreateBounded(x, policy, now));
      if policy.maxConcurrentSessions < 1 || !policy.evictOldestCreated || !Proper(x) || IdTaken(ss, x.id) then r == Throws
      else exists others, kept :: KeptUnder(ss, x, policy.maxConcurrentSessions, now, others, kept) && r == Replaces(others + kept + [x], Saved(x))
  {
    JoinIsStored(ss, x);
    if policy.maxConcurrentSessions >= 1 && policy.evictOldestCreated && Stored(ss + [x]) {
      KeptUnderCap(ss, x, policy.maxConcurrentSessions, now);
      BoundedIsStored(ss, x, policy.maxConcurrentSessions, now);
    }
  }
}
