/** Stored sessions and the bounded policy: keep the newest live sessions of a user. */
module SessionPolicy {
  import opened Wrappers
  import opened Utf16

  datatype SessionUser = SessionUser(id: Text, needsOnboarding: bool)

  /** Times are the instants their texts name, None when a text names none. */
  datatype Session = Session(id: Text, userId: Text, createdAt: Option<int>, expires: Option<int>,
                             owner: Option<SessionUser>, details: Text)

  predicate IdentityText(t: Text) { t != [] && 0 !in t }

  predicate WellKept(s: Session)
  {
    IdentityText(s.id) && IdentityText(s.userId) && s.createdAt.Some? && s.expires.Some?
  }

  predicate UniqueIds(ss: seq<Session>)
  {
    forall i, j :: 0 <= i < j < |ss| ==> ss[i].id != ss[j].id
  }

  predicate Stored(ss: seq<Session>)
  {
    (forall s :: s in ss ==> WellKept(s)) && UniqueIds(ss)
  }

  /** `assertStoredSessions`: one pass over the sessions, filling a set of ids. */
  method AssertStoredSessions(ss: seq<Session>) returns (ok: bool)
    ensures ok <==> Stored(ss)
  {
    var ids: set<Text> := {};
    for n := 0 to |ss|
      invariant ids == set i | 0 <= i < n :: ss[i].id
      invariant forall i :: 0 <= i < n ==> WellKept(ss[i])
      invariant UniqueIds(ss[..n])
    {
      var s := ss[n];
      if !WellKept(s) || s.id in ids {
        assert !Stored(ss) by {
          if s.id in ids { var i :| 0 <= i < n && ss[i].id == s.id; }
          else { assert ss[n] in ss; }
        }
        return false;
      }
      ids := ids + {s.id};
    }
    assert ss[..|ss|] == ss;
    return true;
  }

  // --- the age order -----------------------------------------------------------------

  /** Created earlier, or at the same instant with the smaller id. */
  predicate Older(a: Session, b: Session)
    requires WellKept(a) && WellKept(b)
  {
    a.createdAt.value < b.createdAt.value || (a.createdAt == b.createdAt && Less(a.id, b.id))
  }

  lemma OlderIsStrict(a: Session, b: Session)
    requires WellKept(a) && WellKept(b)
    ensures !(Older(a, b) && Older(b, a)) && !Older(a, a)
    ensures a.id != b.id ==> Older(a, b) || Older(b, a)
  {
    LessIsStrict(a.id, b.id);
    LessIsStrict(a.id, a.id);
    LessIsTotal(a.id, b.id);
  }

  lemma OlderIsTransitive(a: Session, b: Session, c: Session)
    requires WellKept(a) && WellKept(b) && WellKept(c) && Older(a, b) && Older(b, c)
    ensures Older(a, c)
  {
    if Less(a.id, b.id) && Less(b.id, c.id) { LessIsTransitive(a.id, b.id, c.id); }
  }

  ghost predicate ByAge(ss: seq<Session>)
  {
    (forall s :: s in ss ==> WellKept(s)) && forall i, j :: 0 <= i < j < |ss| ==> Older(ss[i], ss[j])
  }

  // --- sorting by age -------------------------------------------------------------------

  /** `x` moved left past everything younger. */
  function Inserted(ss: seq<Session>, x: Session): seq<Session>
    requires WellKept(x) && forall s :: s in ss ==> WellKept(s)
  {
    if ss == [] || !Older(x, ss[|ss| - 1]) then ss + [x]
    else Inserted(ss[..|ss| - 1], x) + [ss[|ss| - 1]]
  }

  function SortedByAge(ss: seq<Session>): (t: seq<Session>)
    requires forall s :: s in ss ==> WellKept(s)
    ensures multiset(t) == multiset(ss) && |t| == |ss|
    ensures forall s :: s in t ==> WellKept(s)
  {
    if ss == [] then []
    else
      var front, x := ss[..|ss| - 1], ss[|ss| - 1];
      assert x in ss;
      assert ss == front + [x];
      InsertedKeeps(SortedByAge(front), x);
      assert forall s :: s in front ==> s in ss;
      var t := Inserted(SortedByAge(front), x);
      assert forall s :: s in t ==> s in multiset(t);
      t
  }

  lemma {:induction false} InsertedKeeps(ss: seq<Session>, x: Session)
    requires WellKept(x) && forall s :: s in ss ==> WellKept(s)
    ensures multiset(Inserted(ss, x)) == multiset(ss) + multiset{x} && |Inserted(ss, x)| == |ss| + 1
  {
    if ss != [] {
      var front, last := ss[..|ss| - 1], ss[|ss| - 1];
      assert ss == front + [last];
      if Older(x, last) { InsertedKeeps(front, x); }
    }
  }

  /** Where the inserted element lands. */
  lemma {:induction false} InsertedAt(ss: seq<Session>, x: Session, j: nat)
    requires WellKept(x) && (forall s :: s in ss ==> WellKept(s)) && j <= |ss|
    requires forall i :: j <= i < |ss| ==> Older(x, ss[i])
    requires j > 0 ==> !Older(x, ss[j - 1])
    ensures Inserted(ss, x) == ss[..j] + [x] + ss[j..]
  {
    if j < |ss| {
      InsertedAt(ss[..|ss| - 1], x, j);
      assert ss[..|ss| - 1][..j] == ss[..j] && ss[..|ss| - 1][j..] + [ss[|ss| - 1]] == ss[j..];
    } else {
      assert ss[..j] == ss && ss[j..] == [];
    }
  }

  lemma {:induction false} InsertedByAge(ss: seq<Session>, x: Session)
    requires ByAge(ss) && WellKept(x) && forall s :: s in ss ==> s.id != x.id
    ensures ByAge(Inserted(ss, x))
  {
    InsertedKeeps(ss, x);
    if ss != [] {
      var front, last := ss[..|ss| - 1], ss[|ss| - 1];
      assert ss == front + [last];
      OlderIsStrict(x, last);
      if Older(x, last) {
        InsertedByAge(front, x);
        InsertedKeeps(front, x);
        var t := Inserted(front, x);
        forall s | s in t ensures WellKept(s) && Older(s, last) {
          assert s in multiset(t);
        }
      } else {
        forall s | s in ss ensures Older(s, x) {
          if s != last { OlderIsTransitive(s, last, x); }
        }
      }
    }
  }

  lemma {:induction false} SortedIsByAge(ss: seq<Session>)
    requires Stored(ss)
    ensures ByAge(SortedByAge(ss))
  {
    if ss != [] {
      var front, x := ss[..|ss| - 1], ss[|ss| - 1];
      SortedIsByAge(front);
      assert x in ss;
      forall s | s in SortedByAge(front) ensures s.id != x.id {
        assert s in multiset(SortedByAge(front));
        assert s in multiset(front);
        var i :| 0 <= i < |front| && front[i] == s;
        assert ss[i].id != ss[|ss| - 1].id;
      }
      InsertedByAge(SortedByAge(front), x);
    }
  }

  lemma SameYoungest(s: seq<Session>, t: seq<Session>)
    requires ByAge(s) && ByAge(t) && s != [] && multiset(s) == multiset(t) && |s| == |t|
    ensures s[|s| - 1] == t[|t| - 1]
  {
    var n := |s| - 1;
    var a, b := s[n], t[n];
    assert a in multiset(t) && b in multiset(s);
    var i :| 0 <= i < |t| && t[i] == a;
    var j :| 0 <= j < |s| && s[j] == b;
    assert i < n ==> Older(a, b);
    assert j < n ==> Older(b, a);
    OlderIsStrict(a, b);
  }

  /** Two lists in age order with the same members are the same list. */
  lemma {:induction false} AgeOrderIsUnique(s: seq<Session>, t: seq<Session>)
    requires ByAge(s) && ByAge(t) && multiset(s) == multiset(t)
    ensures s == t
    decreases |s|
  {
    assert |s| == |multiset(s)| == |multiset(t)| == |t|;
    if s != [] {
      var n := |s| - 1;
      SameYoungest(s, t);
      DropLast(s);
      DropLast(t);
      AgeOrderIsUnique(s[..n], t[..n]);
    }
  }

  lemma DropLast(s: seq<Session>)
    requires s != [] && ByAge(s)
    ensures s == s[..|s| - 1] + [s[|s| - 1]] && ByAge(s[..|s| - 1])
    ensures multiset(s[..|s| - 1]) == multiset(s) - multiset{s[|s| - 1]}
  {
    assert s == s[..|s| - 1] + [s[|s| - 1]];
  }

  /** The array when `n` elements are sorted. */
  ghost function PartlySorted(was: seq<Session>, n: nat): (r: seq<Session>)
    requires n <= |was| && forall s :: s in was ==> WellKept(s)
    ensures |r| == |was|
  {
    SortedByAge(was[..n]) + was[n..]
  }

  lemma SortParts(was: seq<Session>, n: nat)
    requires n < |was| && forall s :: s in was ==> WellKept(s)
    ensures var r := PartlySorted(was, n);
      r[n] == was[n] && WellKept(was[n]) && r[..n] == SortedByAge(was[..n]) && r[n + 1..] == was[n + 1..]
  {}

  lemma SortGrows(was: seq<Session>, n: nat)
    requires n < |was| && forall s :: s in was ==> WellKept(s)
    ensures PartlySorted(was, n + 1) == Inserted(SortedByAge(was[..n]), was[n]) + was[n + 1..]
  {
    assert was[..n + 1][..n] == was[..n];
  }

  /** The local array is sorted in place. */
  method SortByAge(a: array<Session>)
    requires forall i :: 0 <= i < a.Length ==> WellKept(a[i])
    modifies a
    ensures forall s :: s in old(a[..]) ==> WellKept(s)
    ensures a[..] == SortedByAge(old(a[..]))
  {
    ghost var was := a[..];
    assert forall s :: s in was ==> WellKept(s);
    var n := 0;
    assert was[..0] == [] && was[0..] == was;
    while n < a.Length
      invariant n <= a.Length == |was|
      invariant a[..] == PartlySorted(was, n)
    {
      SortParts(was, n);
      MoveDown(a, n);
      SortGrows(was, n);
      n := n + 1;
    }
    assert was[..|was|] == was;
  }

  lemma SwapShifts(was: seq<Session>, x: Session, rest: seq<Session>, j: nat)
    requires 0 < j <= |was|
    ensures var t := was[..j] + [x] + was[j..] + rest;
      t[j - 1] == was[j - 1] && t[j] == x && t[j - 1 := x][j := was[j - 1]] == was[..j - 1] + [x] + was[j - 1..] + rest
  {}

  method Swap(a: array<Session>, j: nat)
    requires 0 < j < a.Length
    modifies a
    ensures a[..] == old(a[..])[j - 1 := old(a[j])][j := old(a[j - 1])]
  {
    a[j - 1], a[j] := a[j], a[j - 1];
  }

  method MoveDown(a: array<Session>, n: nat)
    requires n < a.Length && WellKept(a[..][n]) && forall s :: s in a[..][..n] ==> WellKept(s)
    modifies a
    ensures (forall s :: s in old(a[..])[..n] ==> WellKept(s)) && WellKept(old(a[..])[n])
    ensures a[..] == Inserted(old(a[..])[..n], old(a[..])[n]) + old(a[..])[n + 1..]
  {
    ghost var was, x, rest := a[..][..n], a[..][n], a[..][n + 1..];
    var j := n;
    assert a[..] == was[..j] + [x] + was[j..] + rest;
    while j > 0 && Older(a[j], a[j - 1])
      invariant j <= n
      invariant a[..] == was[..j] + [x] + was[j..] + rest
      invariant forall i :: j <= i < n ==> Older(x, was[i])
      invariant a[j] == x && (j > 0 ==> a[j - 1] == was[j - 1])
    {
      SwapShifts(was, x, rest, j);
      assert a[j - 1] == a[..][j - 1] && a[j] == a[..][j];
      Swap(a, j);
      j := j - 1;
      assert a[j] == a[..][j] && (j > 0 ==> a[j - 1] == a[..][j - 1]);
    }
    InsertedAt(was, x, j);
  }

  // --- the bounded policy ------------------------------------------------------------------

  datatype Policy = Policy(maxConcurrentSessions: int, evictOldestCreated: bool)

  predicate ValidPolicy(p: Policy) { p.maxConcurrentSessions >= 1 && p.evictOldestCreated }

  predicate Owns(userId: Text, s: Session) { s.userId == userId }

  predicate LiveOwn(userId: Text, now: int, s: Session)
  {
    s.userId == userId && s.expires.Some? && s.expires.value > now
  }

  /** `Array.prototype.filter`. */
  function Filter(ss: seq<Session>, keep: Session -> bool): (t: seq<Session>)
    ensures forall s :: s in t <==> s in ss && keep(s)
  {
    if ss == [] then []
    else if keep(ss[0]) then [ss[0]] + Filter(ss[1..], keep)
    else Filter(ss[1..], keep)
  }

  function Others(ss: seq<Session>, userId: Text): seq<Session> { Filter(ss, s => !Owns(userId, s)) }

  function Own(ss: seq<Session>, userId: Text, now: int): seq<Session> { Filter(ss, s => LiveOwn(userId, now, s)) }

  function KeepLast(ss: seq<Session>, k: nat): seq<Session>
  {
    ss[if |ss| > k then |ss| - k else 0..]
  }

  function Retained(ss: seq<Session>, userId: Text, cap: nat, now: int): seq<Session>
    requires Stored(ss) && cap >= 1
  {
    KeepLast(SortedByAge(Own(ss, userId, now)), cap - 1)
  }

  function Bounded(ss: seq<Session>, session: Session, cap: nat, now: int): seq<Session>
    requires Stored(ss) && cap >= 1
  {
    Others(ss, session.userId) + Retained(ss, session.userId, cap, now) + [session]
  }

  method BoundedSessions(ss: seq<Session>, session: Session, policy: Policy, now: int)
    returns (r: Result<seq<Session>, ()>)
    ensures r.Ok? <==> ValidPolicy(policy) && Stored(ss + [session])
    ensures r.Ok? ==> Stored(ss) && r.value == Bounded(ss, session, policy.maxConcurrentSessions, now)
  {
    if !ValidPolicy(policy) { return Err(()); }
    var ok := AssertStoredSessions(ss + [session]);
    if !ok { return Err(()); }
    FrontIsStored(ss, session);
    var own := Copied(Own(ss, session.userId, now));
    SortByAge(own);
    var sorted := own[..];
    var from := if |sorted| > policy.maxConcurrentSessions - 1 then |sorted| - (policy.maxConcurrentSessions - 1) else 0;
    return Ok(Others(ss, session.userId) + sorted[from..] + [session]);
  }

  method Copied(ss: seq<Session>) returns (a: array<Session>)
    ensures fresh(a) && a[..] == ss
  {
    a := new Session[|ss|](i requires 0 <= i < |ss| => ss[i]);
  }

  lemma FrontIsStored(ss: seq<Session>, session: Session)
    requires Stored(ss + [session])
    ensures Stored(ss) && WellKept(session) && forall s :: s in ss ==> s.id != session.id
  {
    var t := ss + [session];
    assert forall i :: 0 <= i < |ss| ==> ss[i] == t[i];
    assert session == t[|ss|];
  }

  // --- filters ------------------------------------------------------------------------------

  lemma {:induction false} FilterSpreads(a: seq<Session>, b: seq<Session>, keep: Session -> bool)
    ensures Filter(a + b, keep) == Filter(a, keep) + Filter(b, keep)
    decreases |a|
  {
    if a == [] { assert a + b == b; }
    else {
      FilterSpreads(a[1..], b, keep);
      assert (a + b)[1..] == a[1..] + b && (a + b)[0] == a[0];
    }
  }

  lemma {:induction false} FilterAll(ss: seq<Session>, keep: Session -> bool)
    requires forall s :: s in ss ==> keep(s)
    ensures Filter(ss, keep) == ss
    decreases |ss|
  {
    if ss != [] {
      assert ss[0] in ss && forall s :: s in ss[1..] ==> s in ss;
      FilterAll(ss[1..], keep);
    }
  }

  lemma {:induction false} FilterNone(ss: seq<Session>, keep: Session -> bool)
    requires forall s :: s in ss ==> !keep(s)
    ensures Filter(ss, keep) == []
    decreases |ss|
  {
    if ss != [] {
      assert ss[0] in ss && forall s :: s in ss[1..] ==> s in ss;
      FilterNone(ss[1..], keep);
    }
  }

  lemma {:induction false} FilterUnique(ss: seq<Session>, keep: Session -> bool)
    requires UniqueIds(ss)
    ensures UniqueIds(Filter(ss, keep)) && |Filter(ss, keep)| <= |ss|
    decreases |ss|
  {
    if ss != [] {
      var rest := Filter(ss[1..], keep);
      FilterUnique(ss[1..], keep);
      forall s | s in rest ensures s.id != ss[0].id {
        var i :| 0 <= i < |ss[1..]| && ss[1..][i] == s;
        assert ss[i + 1] == s;
      }
    }
  }

  /** Filtering counts each session as often as it was there, or not at all. */
  lemma {:induction false} FilterCounts(ss: seq<Session>, keep: Session -> bool, x: Session)
    ensures multiset(Filter(ss, keep))[x] == if keep(x) then multiset(ss)[x] else 0
    decreases |ss|
  {
    if ss != [] {
      FilterCounts(ss[1..], keep, x);
      assert ss == [ss[0]] + ss[1..];
    }
  }

  lemma OwnIsStored(ss: seq<Session>, userId: Text, now: int)
    requires Stored(ss)
    ensures Stored(Own(ss, userId, now)) && ByAge(SortedByAge(Own(ss, userId, now)))
    ensures forall s :: s in SortedByAge(Own(ss, userId, now)) <==> s in ss && LiveOwn(userId, now, s)
  {
    var own := Own(ss, userId, now);
    FilterUnique(ss, s => LiveOwn(userId, now, s));
    SortedIsByAge(own);
    var t := SortedByAge(own);
    forall s ensures s in t <==> s in own { assert s in t <==> s in multiset(t); assert s in own <==> s in multiset(own); }
  }

  // --- what the policy keeps ------------------------------------------------------------------

  /** The user's live sessions younger than `x`. */
  ghost function Younger(ss: seq<Session>, userId: Text, now: int, x: Session): set<Session>
    requires Stored(ss) && WellKept(x)
  {
    set s | s in ss && LiveOwn(userId, now, s) && Older(x, s)
  }

  lemma {:induction false} DistinctMembers(t: seq<Session>)
    requires ByAge(t)
    ensures |set s | s in t| == |t|
    decreases |t|
  {
    if t == [] { assert (set s | s in t) == {}; }
    else {
      var front, last := t[..|t| - 1], t[|t| - 1];
      DistinctMembers(front);
      forall s | s in front ensures s != last { OlderIsStrict(s, last); }
      assert (set s | s in t) == (set s | s in front) + {last};
    }
  }

  lemma YoungerAfter(ss: seq<Session>, userId: Text, now: int, i: nat)
    requires Stored(ss) && i < |Own(ss, userId, now)|
    ensures WellKept(SortedByAge(Own(ss, userId, now))[i])
    ensures |Younger(ss, userId, now, SortedByAge(Own(ss, userId, now))[i])| == |Own(ss, userId, now)| - 1 - i
  {
    OwnIsStored(ss, userId, now);
    var t := SortedByAge(Own(ss, userId, now));
    var x := t[i];
    var after := t[i + 1..];
    forall s ensures s in after <==> s in ss && LiveOwn(userId, now, s) && Older(x, s) {
      if s in t {
        var j :| 0 <= j < |t| && t[j] == s;
        if j < i { OlderIsStrict(t[j], x); } else if j == i { OlderIsStrict(x, x); } else { assert t[j] == after[j - i - 1]; }
        if s in after { var k :| 0 <= k < |after| && after[k] == s; assert after[k] == t[i + 1 + k]; }
      }
    }
    assert Younger(ss, userId, now, x) == set s | s in after;
    assert ByAge(after);
    DistinctMembers(after);
  }

  /** Kept: exactly the user's live sessions with fewer than `cap - 1` younger ones,
      oldest first. */
  lemma KeepsTheYoungest(ss: seq<Session>, userId: Text, cap: nat, now: int)
    requires Stored(ss) && cap >= 1
    ensures var kept := Retained(ss, userId, cap, now);
      && ByAge(kept)
      && |kept| == (if |Own(ss, userId, now)| < cap - 1 then |Own(ss, userId, now)| else cap - 1)
      && forall s :: s in kept <==> s in ss && LiveOwn(userId, now, s) && |Younger(ss, userId, now, s)| < cap - 1
  {
    OwnIsStored(ss, userId, now);
    var t := SortedByAge(Own(ss, userId, now));
    var kept := Retained(ss, userId, cap, now);
    assert kept == t[|t| - |kept|..];
    forall s ensures s in kept <==> s in ss && LiveOwn(userId, now, s) && |Younger(ss, userId, now, s)| < cap - 1 {
      if s in t {
        var i :| 0 <= i < |t| && t[i] == s && (s in kept <==> i >= |t| - |kept|);
        YoungerAfter(ss, userId, now, i);
      }
    }
  }

  /** Everyone else's sessions stay, in order; the new session comes last. */
  lemma OthersStay(ss: seq<Session>, session: Session, cap: nat, now: int)
    requires Stored(ss) && cap >= 1
    ensures Others(Bounded(ss, session, cap, now), session.userId) == Others(ss, session.userId)
    ensures Filter(Bounded(ss, session, cap, now), s => Owns(session.userId, s)) == Retained(ss, session.userId, cap, now) + [session]
  {
    var u := session.userId;
    var others, kept := Others(ss, u), Retained(ss, u, cap, now);
    KeepsTheYoungest(ss, u, cap, now);
    var own := kept + [session];
    assert Bounded(ss, session, cap, now) == others + own;
    FilterSpreads(others, own, s => !Owns(u, s));
    FilterAll(others, s => !Owns(u, s));
    FilterNone(own, s => !Owns(u, s));
    FilterSpreads(others, own, s => Owns(u, s));
    FilterNone(others, s => Owns(u, s));
    FilterAll(own, s => Owns(u, s));
  }

  /** How many sessions a user has. */
  function Count(ss: seq<Session>, userId: Text): nat { |Filter(ss, s => Owns(userId, s))| }

  /** The result is again a valid store, within the user's cap. */
  lemma BoundedIsStored(ss: seq<Session>, session: Session, cap: nat, now: int)
    requires Stored(ss + [session]) && cap >= 1
    ensures Stored(ss) && Stored(Bounded(ss, session, cap, now))
    ensures Count(Bounded(ss, session, cap, now), session.userId) <= cap
  {
    FrontIsStored(ss, session);
    var u := session.userId;
    OthersStay(ss, session, cap, now);
    KeepsTheYoungest(ss, u, cap, now);
    FilterUnique(ss, s => !Owns(u, s));
    var others, kept := Others(ss, u), Retained(ss, u, cap, now);
    ByAgeIsUnique(ss, kept);
    JoinUnique(ss, others, kept);
    JoinUnique(ss + [session], others + kept, [session]);
  }

  lemma SameSession(ss: seq<Session>, s: Session, t: Session)
    requires UniqueIds(ss) && s in ss && t in ss && s.id == t.id
    ensures s == t
  {
    var i :| 0 <= i < |ss| && ss[i] == s;
    var j :| 0 <= j < |ss| && ss[j] == t;
  }

  lemma ByAgeIsUnique(ss: seq<Session>, t: seq<Session>)
    requires Stored(ss) && ByAge(t) && forall s :: s in t ==> s in ss
    ensures UniqueIds(t)
  {
    forall i, j | 0 <= i < j < |t| ensures t[i].id != t[j].id {
      if t[i].id == t[j].id {
        SameSession(ss, t[i], t[j]);
        OlderIsStrict(t[i], t[j]);
      }
    }
  }

  lemma JoinUnique(ss: seq<Session>, a: seq<Session>, b: seq<Session>)
    requires UniqueIds(ss) && UniqueIds(a) && UniqueIds(b)
    requires forall s :: s in a + b ==> s in ss
    requires forall s :: s in a ==> s !in b
    ensures UniqueIds(a + b)
  {
    forall i, j | 0 <= i < j < |a + b| ensures (a + b)[i].id != (a + b)[j].id {
      if j < |a| { assert a[i].id != a[j].id; }
      else if i >= |a| { assert b[i - |a|].id != b[j - |a|].id; }
      else if a[i].id == b[j - |a|].id {
        assert a[i] in a && b[j - |a|] in b && a[i] in a + b && b[j - |a|] in a + b;
        SameSession(ss, a[i], b[j - |a|]);
      }
    }
  }

  /** What is kept does not depend on the order sessions are stored in. */
  lemma StoredOrderDoesNotMatter(a: seq<Session>, b: seq<Session>, userId: Text, cap: nat, now: int)
    requires Stored(a) && Stored(b) && multiset(a) == multiset(b) && cap >= 1
    ensures Retained(a, userId, cap, now) == Retained(b, userId, cap, now)
  {
    var x, y := Own(a, userId, now), Own(b, userId, now);
    forall s ensures multiset(x)[s] == multiset(y)[s] {
      FilterCounts(a, q => LiveOwn(userId, now, q), s);
      FilterCounts(b, q => LiveOwn(userId, now, q), s);
    }
    assert multiset(x) == multiset(y);
    OwnIsStored(a, userId, now);
    OwnIsStored(b, userId, now);
    AgeOrderIsUnique(SortedByAge(x), SortedByAge(y));
  }
}
