/** The file adapter's session operations, run through the file's queue. */
module FileSessions {
  import opened Wrappers
  import opened DurableFile
  import opened Utf16
  import opened SessionPolicy
  import opened PromiseQueue

  /** The fields an update sets. */
  datatype Patch = Patch(id: Option<Text>, userId: Option<Text>, createdAt: Option<Option<int>>, expires: Option<Option<int>>,
                         owner: Option<Option<SessionUser>>, details: Option<Text>)

  function Or<T>(o: Option<T>, otherwise: T): T { if o.Some? then o.value else otherwise }

  function Patched(s: Session, p: Patch): Session
  {
    Session(Or(p.id, s.id), Or(p.userId, s.userId), Or(p.createdAt, s.createdAt), Or(p.expires, s.expires),
            Or(p.owner, s.owner), Or(p.details, s.details))
  }

  /** `session` is the one the operation makes, with its random id; `now` its clock reading. */
  datatype Command =
    | GetAll
    | Create(session: Session)
    | CreateBounded(session: Session, policy: Policy, now: int)
    | Update(id: Text, patch: Patch)
    | Delete(id: Text)
    | DeleteUser(userId: Text)
    | Cleanup(now: int)

  datatype Reply =
    | All(sessions: seq<Session>)
    | Saved(session: Session)
    | Deleted(found: bool)
    | Removed(count: int)

  function IndexOf(ss: seq<Session>, id: Text): (i: nat)
    ensures i <= |ss| && (i < |ss| ==> ss[i].id == id)
    ensures forall j :: 0 <= j < i ==> ss[j].id != id
  {
    if ss == [] || ss[0].id == id then 0 else 1 + IndexOf(ss[1..], id)
  }

  predicate Unexpired(now: int, s: Session) { s.expires.Some? && s.expires.value > now }

  /** `mutateSessions` after the operation: a malformed result is not written. */
  function Mutated(next: seq<Session>, reply: Reply): Turn<seq<Session>, Reply>
  {
    if Stored(next) then Replaces(next, reply) else Throws
  }

  function Run(ss: seq<Session>, c: Command): Turn<seq<Session>, Reply>
  {
    if !Stored(ss) then Throws
    else
      match c
      case GetAll => Answers(All(ss))
      case Create(session) => Mutated(ss + [session], Saved(session))
      case CreateBounded(session, policy, now) =>
        if !ValidPolicy(policy) || !Stored(ss + [session]) then Throws
        else Mutated(Bounded(ss, session, policy.maxConcurrentSessions, now), Saved(session))
      case Update(id, patch) =>
        var i := IndexOf(ss, id);
        if i == |ss| then Throws else Mutated(ss[i := Patched(ss[i], patch)], Saved(Patched(ss[i], patch)))
      case Delete(id) =>
        var i := IndexOf(ss, id);
        if i == |ss| then Mutated(ss, Deleted(false)) else Mutated(ss[..i] + ss[i + 1..], Deleted(true))
      case DeleteUser(userId) => Mutated(Others(ss, userId), Removed(|ss| - |Others(ss, userId)|))
      case Cleanup(now) =>
        var kept := Filter(ss, s => Unexpired(now, s));
        Mutated(kept, Removed(|ss| - |kept|))
  }

  /** The adapter's own array operations on the sessions it read. */
  class SessionFile {
    var sessions: seq<Session>

    constructor (sessions: seq<Session>)
      ensures this.sessions == sessions
    {
      this.sessions := sessions;
    }

    /** One `mutateSessions` turn; `None` when it throws and nothing was written. */
    method Mutate(c: Command) returns (reply: Option<Reply>)
      modifies this
      ensures match Run(old(sessions), c)
              case Throws => reply.None? && sessions == old(sessions)
              case Answers(r) => reply == Some(r) && sessions == old(sessions)
              case Replaces(next, r) => reply == Some(r) && sessions == next
    {
      var valid := AssertStoredSessions(sessions);
      if !valid { return None; }
      var next := sessions;
      match c {
        case GetAll => return Some(All(sessions));
        case Create(session) =>
          next := next + [session];
          reply := Some(Saved(session));
        case CreateBounded(session, policy, now) =>
          var bounded := BoundedSessions(sessions, session, policy, now);
          if bounded.Err? { return None; }
          next := bounded.value;
          reply := Some(Saved(session));
        case Update(id, patch) =>
          var i := FindIndex(id);
          if i == |sessions| { return None; }
          next := next[i := Patched(next[i], patch)];
          reply := Some(Saved(next[i]));
        case Delete(id) =>
          var i := FindIndex(id);
          if i < |sessions| { next := next[..i] + next[i + 1..]; }
          reply := Some(Deleted(i < |sessions|));
        case DeleteUser(userId) =>
          next := Others(sessions, userId);
          reply := Some(Removed(|sessions| - |next|));
        case Cleanup(now) =>
          next := Filter(sessions, s => Unexpired(now, s));
          reply := Some(Removed(|sessions| - |next|));
      }
      valid := AssertStoredSessions(next);
      if !valid { return None; }
      sessions := next;
    }

    /** `findIndex` by id; the length when there is none. */
    method FindIndex(id: Text) returns (i: nat)
      ensures i == IndexOf(sessions, id)
    {
      i := 0;
      while i < |sessions| && sessions[i].id != id
        invariant i <= |sessions|
        invariant IndexOf(sessions, id) == i + IndexOf(sessions[i..], id)
      {
        assert sessions[i..][0] == sessions[i] && sessions[i..][1..] == sessions[i + 1..];
        i := i + 1;
      }
    }
  }

  type SessionCall = Call<seq<Session>, Command, Reply>

  function Turns(init: seq<Session>, calls: seq<SessionCall>, n: nat): seq<Session>
    requires n <= |calls|
  {
    Sequential(Run, init, calls, n)
  }

  // --- a deleted session stays deleted -------------------------------------------------------

  ghost predicate Absent(ss: seq<Session>, id: Text) { forall s :: s in ss ==> s.id != id }

  /** Makes no session with this id and renames none. */
  predicate LeavesIdAlone(c: Command, id: Text)
  {
    match c
    case Create(session) => session.id != id
    case CreateBounded(session, _, _) => session.id != id
    case Update(_, patch) => patch.id.None?
    case _ => true
  }

  lemma TurnKeepsAbsent(ss: seq<Session>, c: Command, outcome: Outcome, id: Text)
    requires Absent(ss, id) && LeavesIdAlone(c, id)
    ensures Absent(After(Run, ss, c, outcome).0, id)
  {
    if Stored(ss) && c.CreateBounded? && ValidPolicy(c.policy) {
      KeepsTheYoungest(ss, c.session.userId, c.policy.maxConcurrentSessions, c.now);
    }
  }

  lemma {:induction false} AbsentFrom(init: seq<Session>, calls: seq<SessionCall>, i: nat, n: nat, id: Text)
    requires i < n <= |calls| && calls[i].command == Delete(id)
    requires SequentialReply(Run, init, calls, i).Some?
    requires forall j :: i < j < n ==> LeavesIdAlone(calls[j].command, id)
    ensures Absent(Turns(init, calls, n), id)
    decreases n
  {
    if n > i + 1 {
      AbsentFrom(init, calls, i, n - 1, id);
      TurnKeepsAbsent(Turns(init, calls, n - 1), calls[n - 1].command, calls[n - 1].outcome, id);
    }
  }

  /** However calls interleave, once a deletion has answered, the session is in no later
      answer and not in the file, unless a later call brings its id back by name. */
  lemma DeletedNeverReappears(init: seq<Session>, steps: seq<PromiseQueue.Step<Command>>, i: nat, id: Text)
    requires var s: PromiseQueue.State<seq<Session>, Command, Reply> := Exec(Run, Fresh(init), steps);
      && i < |s.calls| && s.calls[i].command == Delete(id)
      && s.calls[i].phase.Settled? && s.calls[i].phase.reply.Some?
      && forall j :: i < j < |s.calls| ==> LeavesIdAlone(s.calls[j].command, id)
    ensures var s: PromiseQueue.State<seq<Session>, Command, Reply> := Exec(Run, Fresh(init), steps);
      && Absent(s.file, id)
      && forall j :: i < j < |s.calls| && s.calls[j].command.GetAll? && s.calls[j].phase.Settled? &&
                     s.calls[j].phase.reply.Some? ==>
           s.calls[j].phase.reply.value.All? && Absent(s.calls[j].phase.reply.value.sessions, id)
  {
    Linearized<seq<Session>, Command, Reply>(Run, init, steps);
    var s: PromiseQueue.State<seq<Session>, Command, Reply> := Exec(Run, Fresh(init), steps);
    var n := SettledCount(s.calls);
    AbsentFrom(init, s.calls, i, n, id);
    forall j | i < j < |s.calls| && s.calls[j].command.GetAll? && s.calls[j].phase.Settled? && s.calls[j].phase.reply.Some?
      ensures s.calls[j].phase.reply.value.All? && Absent(s.calls[j].phase.reply.value.sessions, id)
    {
      AbsentFrom(init, s.calls, i, j, id);
      assert s.calls[j].phase == Settled(SequentialReply(Run, init, s.calls, j));
    }
  }

  // --- the cap holds ---------------------------------------------------------------------------

  /** Creates for this user are bounded by the cap, and updates move no session to anyone. */
  predicate KeepsCap(c: Command, userId: Text, cap: nat)
  {
    match c
    case Create(session) => session.userId != userId
    case CreateBounded(session, policy, _) => session.userId == userId ==> policy.maxConcurrentSessions <= cap
    case Update(_, patch) => patch.userId.None?
    case _ => true
  }

  lemma CountSpreads(a: seq<Session>, b: seq<Session>, userId: Text)
    ensures Count(a + b, userId) == Count(a, userId) + Count(b, userId)
  {
    FilterSpreads(a, b, s => Owns(userId, s));
  }

  lemma CountOne(s: Session, userId: Text)
    ensures Count([s], userId) == if s.userId == userId then 1 else 0
  {
    if s.userId == userId { FilterAll([s], x => Owns(userId, x)); } else { FilterNone([s], x => Owns(userId, x)); }
  }

  lemma CountSplit(ss: seq<Session>, i: nat, userId: Text)
    requires i < |ss|
    ensures Count(ss, userId) == Count(ss[..i], userId) + Count([ss[i]], userId) + Count(ss[i + 1..], userId)
  {
    assert ss == ss[..i] + ([ss[i]] + ss[i + 1..]);
    CountSpreads(ss[..i], [ss[i]] + ss[i + 1..], userId);
    CountSpreads([ss[i]], ss[i + 1..], userId);
  }

  lemma {:induction false} FilterCountsLess(ss: seq<Session>, keep: Session -> bool, userId: Text)
    ensures Count(Filter(ss, keep), userId) <= Count(ss, userId)
    decreases |ss|
  {
    if ss != [] {
      FilterCountsLess(ss[1..], keep, userId);
      assert ss == [ss[0]] + ss[1..];
      CountSpreads([ss[0]], ss[1..], userId);
      if keep(ss[0]) { CountSpreads([ss[0]], Filter(ss[1..], keep), userId); }
    }
  }

  lemma BoundedKeepsOthersCount(ss: seq<Session>, session: Session, cap: nat, now: int, userId: Text)
    requires Stored(ss) && cap >= 1 && session.userId != userId
    ensures Count(Bounded(ss, session, cap, now), userId) <= Count(ss, userId)
  {
    var others, kept := Others(ss, session.userId), Retained(ss, session.userId, cap, now);
    KeepsTheYoungest(ss, session.userId, cap, now);
    CountSpreads(others + kept, [session], userId);
    CountSpreads(others, kept, userId);
    CountOne(session, userId);
    FilterNone(kept, s => Owns(userId, s));
    FilterCountsLess(ss, s => !Owns(session.userId, s), userId);
  }

  lemma CreateKeepsCap(ss: seq<Session>, c: Command, outcome: Outcome, userId: Text, cap: nat)
    requires (c.Create? || c.CreateBounded?) && Count(ss, userId) <= cap && KeepsCap(c, userId, cap)
    ensures Count(After(Run, ss, c, outcome).0, userId) <= cap
  {
    if Stored(ss) && c.Create? {
      CountSpreads(ss, [c.session], userId);
      CountOne(c.session, userId);
    } else if Stored(ss) && ValidPolicy(c.policy) && Stored(ss + [c.session]) {
      if c.session.userId == userId { BoundedIsStored(ss, c.session, c.policy.maxConcurrentSessions, c.now); }
      else { BoundedKeepsOthersCount(ss, c.session, c.policy.maxConcurrentSessions, c.now, userId); }
    }
  }

  lemma TurnKeepsCap(ss: seq<Session>, c: Command, outcome: Outcome, userId: Text, cap: nat)
    requires Count(ss, userId) <= cap && KeepsCap(c, userId, cap)
    ensures Count(After(Run, ss, c, outcome).0, userId) <= cap
  {
    match c
    case GetAll =>
    case Create(_) => CreateKeepsCap(ss, c, outcome, userId, cap);
    case CreateBounded(_, _, _) => CreateKeepsCap(ss, c, outcome, userId, cap);
    case Update(id, patch) =>
      var i := IndexOf(ss, id);
      if i < |ss| {
        var next := ss[i := Patched(ss[i], patch)];
        CountSplit(ss, i, userId);
        CountSplit(next, i, userId);
        CountOne(ss[i], userId);
        CountOne(next[i], userId);
        assert next[..i] == ss[..i] && next[i + 1..] == ss[i + 1..];
      }
    case Delete(id) =>
      var i := IndexOf(ss, id);
      if i < |ss| {
        CountSplit(ss, i, userId);
        CountSpreads(ss[..i], ss[i + 1..], userId);
      }
    case DeleteUser(u) => FilterCountsLess(ss, s => !Owns(u, s), userId);
    case Cleanup(now) => FilterCountsLess(ss, s => Unexpired(now, s), userId);
  }

  lemma {:induction false} TurnsKeepCap(init: seq<Session>, calls: seq<SessionCall>, n: nat, userId: Text, cap: nat)
    requires n <= |calls| && Count(init, userId) <= cap
    requires forall i :: 0 <= i < n ==> KeepsCap(calls[i].command, userId, cap)
    ensures Count(Turns(init, calls, n), userId) <= cap
  {
    if n > 0 {
      TurnsKeepCap(init, calls, n - 1, userId, cap);
      TurnKeepsCap(Turns(init, calls, n - 1), calls[n - 1].command, calls[n - 1].outcome, userId, cap);
    }
  }

  /** However bounded creates race with everything else, a user never has more stored
      sessions than the cap. */
  lemma CapHolds(init: seq<Session>, steps: seq<PromiseQueue.Step<Command>>, userId: Text, cap: nat)
    requires Count(init, userId) <= cap
    requires var s: PromiseQueue.State<seq<Session>, Command, Reply> := Exec(Run, Fresh(init), steps);
      forall i :: 0 <= i < |s.calls| ==> KeepsCap(s.calls[i].command, userId, cap)
    ensures var s: PromiseQueue.State<seq<Session>, Command, Reply> := Exec(Run, Fresh(init), steps);
      Count(s.file, userId) <= cap
  {
    Linearized<seq<Session>, Command, Reply>(Run, init, steps);
    var s: PromiseQueue.State<seq<Session>, Command, Reply> := Exec(Run, Fresh(init), steps);
    TurnsKeepCap(init, s.calls, SettledCount(s.calls), userId, cap);
  }
}
