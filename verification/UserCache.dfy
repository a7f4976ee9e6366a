/** `AdminUserRepository`: lookups through a cache that every write clears. A lookup that misses
    reads the file and caches what it found when the read is over; anything may happen between. */
module UserCache {
  import opened Wrappers
  import opened DurableFile
  import opened Utf16

  /** `federation` is None unless the record holds a boolean there. */
  datatype User = User(id: Text, username: Text, handle: Option<Text>, isActive: Option<bool>, federation: Option<bool>,
                       updatedAt: Text, rest: Text)

  datatype Key = HandleKey(handle: Text) | IdKey(id: Text)

  predicate Matches(u: User, k: Key)
  {
    match k
    case HandleKey(h) => (u.handle == Some(h) || u.username == h) && u.isActive != Some(false)
    case IdKey(id) => u.id == id
  }

  /** `readUsers` makes the federation flag a strict boolean. */
  function Normal(u: User): User { u.(federation := Some(u.federation == Some(true))) }

  function Normalized(users: seq<User>): (r: seq<User>)
    ensures |r| == |users| && forall i :: 0 <= i < |r| ==> r[i] == Normal(users[i])
  {
    seq(|users|, i requires 0 <= i < |users| => Normal(users[i]))
  }

  /** The scan a lookup stands for: the first match in file order. */
  function FirstMatch(users: seq<User>, k: Key): Option<User>
  {
    if users == [] then None else if Matches(users[0], k) then Some(users[0]) else FirstMatch(users[1..], k)
  }

  function Scan(file: seq<User>, k: Key): Option<User> { FirstMatch(Normalized(file), k) }

  datatype Entry = Entry(user: User, timestamp: int)

  /** A read of the file under way: begun at `at`, after `writes` writes of this repository. */
  datatype Read = Read(key: Key, file: seq<User>, at: int, writes: nat)

  /** The read behind a cached answer, and when it was cached. */
  datatype Reading = Reading(read: Read, stamp: int, writes: nat)

  datatype State = State(file: seq<User>, cache: map<Key, Entry>, writes: nat, underway: seq<Read>, readings: set<Reading>)

  datatype Answer = Found(user: Option<User>) | Failed

  // --- operations --------------------------------------------------------------------

  predicate Fresh(s: State, k: Key, ttl: int, now: int) { k in s.cache && now - s.cache[k].timestamp < ttl }

  /** A lookup up to its read: nothing to do while the cached answer is fresh. */
  function Look(s: State, k: Key, ttl: int, now: int, readable: bool): State
  {
    if Fresh(s, k, ttl, now) || !readable then s else s.(underway := s.underway + [Read(k, s.file, now, s.writes)])
  }

  /** The lookup when its read is over. */
  function Land(s: State, i: nat, stamp: int): (State, Answer)
    requires i < |s.underway|
  {
    var r := s.underway[i];
    var u := Scan(r.file, r.key);
    var t := s.(underway := s.underway[..i] + s.underway[i + 1..]);
    (if u.None? then t
     else t.(cache := s.cache[r.key := Entry(u.value, stamp)], readings := s.readings + {Reading(r, stamp, s.writes)}),
     Found(u))
  }

  /** `findByHandle` and `findById` with nothing between. */
  function Find(s: State, k: Key, ttl: int, now: int, readable: bool, stamp: int): (State, Answer)
  {
    if Fresh(s, k, ttl, now) then (s, Found(Some(s.cache[k].user)))
    else if !readable then (s, Failed)
    else Land(Look(s, k, ttl, now, readable), |s.underway|, stamp)
  }

  /** `writeUsers`: whatever happens to the file, the cache is cleared. */
  function Write(s: State, users: seq<User>, outcome: Outcome): State
  {
    s.(file := if outcome.NotRenamed? then s.file else users, cache := map[], writes := s.writes + 1)
  }

  predicate Taken(users: seq<User>, handle: Text)
  {
    exists u :: u in users && (u.handle == Some(handle) || u.username == handle)
  }

  function IndexOf(users: seq<User>, id: Text): (i: nat)
    ensures i <= |users| && (i < |users| ==> users[i].id == id) && forall j :: 0 <= j < i ==> users[j].id != id
  {
    if users == [] || users[0].id == id then 0 else 1 + IndexOf(users[1..], id)
  }

  datatype Updates = Updates(username: Option<Text>, handle: Option<Text>, isActive: Option<bool>, federation: Option<bool>,
                             rest: Option<Text>)

  function Updated(u: User, p: Updates, at: Text): User
  {
    Normal(User(u.id, if p.username.Some? then p.username.value else u.username, if p.handle.Some? then p.handle else u.handle,
                if p.isActive.Some? then p.isActive else u.isActive,
                if p.federation.Some? then p.federation else u.federation, at, if p.rest.Some? then p.rest.value else u.rest))
  }

  /** `user` is built by the caller, with its new id and the handle as username. */
  datatype Op =
    | Look(key: Key, ttl: int, now: int, readable: bool)
    | Land(read: nat, stamp: int)
    | Create(user: User, handle: Text, readable: bool, outcome: Outcome)
    | Update(id: Text, updates: Updates, at: Text, readable: bool, outcome: Outcome)
    | DeletePermanently(id: Text, readable: bool, outcome: Outcome)
    | ClearCache
    | Outside(file: seq<User>)        // another writer replaces the file

  function Apply(s: State, op: Op): State
  {
    match op
    case Look(k, ttl, now, readable) => Look(s, k, ttl, now, readable)
    case Land(i, stamp) => if i < |s.underway| then Land(s, i, stamp).0 else s
    case Create(u, handle, readable, outcome) =>
      var users := Normalized(s.file);
      if !readable || Taken(users, handle) then s else Write(s, users + [u], outcome)
    case Update(id, p, at, readable, outcome) =>
      var users := Normalized(s.file);
      var i := IndexOf(users, id);
      if !readable || i == |users| then s else Write(s, users[i := Updated(users[i], p, at)], outcome)
    case DeletePermanently(id, readable, outcome) =>
      var users := Normalized(s.file);
      var i := IndexOf(users, id);
      if !readable || i == |users| then s else Write(s, users[..i] + users[i + 1..], outcome)
    case ClearCache => s.(cache := map[])
    case Outside(file) => s.(file := file)
  }

  function Exec(s: State, ops: seq<Op>): State
    decreases |ops|
  {
    if ops == [] then s else Exec(Apply(s, ops[0]), ops[1..])
  }

  function Opened(file: seq<User>): State { State(file, map[], 0, [], {}) }

  // --- the repository ---------------------------------------------------------------------

  class AdminUserRepository {
    var s: State

    constructor (file: seq<User>)
      ensures s == Opened(file)
    {
      s := Opened(file);
    }

    /** `users.find`. */
    method FindFirst(users: seq<User>, k: Key) returns (u: Option<User>)
      ensures u == FirstMatch(users, k)
    {
      for i := 0 to |users|
        invariant FirstMatch(users, k) == FirstMatch(users[i..], k)
      {
        assert users[i..][0] == users[i] && users[i..][1..] == users[i + 1..];
        if Matches(users[i], k) { return Some(users[i]); }
      }
      return None;
    }

    method FindIndex(users: seq<User>, id: Text) returns (i: nat)
      ensures i == IndexOf(users, id)
    {
      i := 0;
      while i < |users| && users[i].id != id
        invariant i <= |users| && IndexOf(users, id) == i + IndexOf(users[i..], id)
      {
        assert users[i..][0] == users[i] && users[i..][1..] == users[i + 1..];
        i := i + 1;
      }
    }

    method FindBy(k: Key, ttl: int, now: int, readable: bool, stamp: int) returns (answer: Answer)
      modifies this
      ensures (s, answer) == Find(old(s), k, ttl, now, readable, stamp)
    {
      if k in s.cache && now - s.cache[k].timestamp < ttl { return Found(Some(s.cache[k].user)); }
      if !readable { return Failed; }
      var u := FindFirst(Normalized(s.file), k);
      ghost var r := Read(k, s.file, now, s.writes);
      assert (s.underway + [r])[..|s.underway|] + (s.underway + [r])[|s.underway| + 1..] == s.underway;
      if u.Some? {
        s := s.(cache := s.cache[k := Entry(u.value, stamp)],
                readings := s.readings + {Reading(Read(k, s.file, now, s.writes), stamp, s.writes)});
      }
      return Found(u);
    }

    method WriteUsers(users: seq<User>, outcome: Outcome) returns (ok: bool)
      modifies this
      ensures s == Write(old(s), users, outcome) && ok == outcome.Done?
    {
      if !outcome.NotRenamed? { s := s.(file := users); }
      s := s.(cache := map[], writes := s.writes + 1);
      return outcome.Done?;
    }

    /** `create` and `createStoredUser`; an error stands for what they throw. */
    method CreateUser(user: User, handle: Text, readable: bool, outcome: Outcome) returns (r: Result<User, ()>)
      modifies this
      ensures s == Apply(old(s), Create(user, handle, readable, outcome))
      ensures r == if readable && !Taken(Normalized(old(s.file)), handle) && outcome.Done? then Ok(user) else Err(())
      ensures r.Ok? ==> s.file == Normalized(old(s.file)) + [user]
    {
      if !readable { return Err(()); }
      var users := Normalized(s.file);
      if Taken(users, handle) { return Err(()); }
      users := users + [user];
      var ok := WriteUsers(users, outcome);
      return if ok then Ok(user) else Err(());
    }

    /** `update`. */
    method UpdateUser(id: Text, updates: Updates, at: Text, readable: bool, outcome: Outcome) returns (r: Result<User, ()>)
      modifies this
      ensures s == Apply(old(s), Update(id, updates, at, readable, outcome))
      ensures r.Ok? <==> readable && outcome.Done? && exists u :: u in old(s.file) && u.id == id
      ensures r.Ok? ==> FirstMatch(s.file, IdKey(id)) == Some(r.value)
      ensures r.Ok? ==> exists i: nat :: FirstHit(old(s.file), IdKey(id), i) && Carries(old(s.file)[i], updates, at, r.value)
    {
      if !readable { return Err(()); }
      var users := Normalized(s.file);
      var index := FindIndex(users, id);
      FoundAt(s.file, id);
      if index == |users| { return Err(()); }
      users := users[index := Updated(users[index], updates, at)];
      FirstAt(users, id, index);
      IndexIsFirst(s.file, id);
      assert Carries(s.file[index], updates, at, users[index]);
      var ok := WriteUsers(users, outcome);
      return if ok then Ok(users[index]) else Err(());
    }

    /** `deletePermanently`: false when there is no such user, an error for what it throws. */
    method DeletePermanently(id: Text, readable: bool, outcome: Outcome) returns (r: Result<bool, ()>)
      modifies this
      ensures s == Apply(old(s), Op.DeletePermanently(id, readable, outcome))
      ensures r == Ok(false) <==> readable && forall u :: u in old(s.file) ==> u.id != id
      ensures r == Ok(true) <==> readable && outcome.Done? && exists u :: u in old(s.file) && u.id == id
    {
      if !readable { return Err(()); }
      var users := Normalized(s.file);
      var index := FindIndex(users, id);
      FoundAt(s.file, id);
      if index == |users| { return Ok(false); }
      users := users[..index] + users[index + 1..];
      var ok := WriteUsers(users, outcome);
      return if ok then Ok(true) else Err(());
    }
  }

  lemma FoundAt(file: seq<User>, id: Text)
    ensures IndexOf(Normalized(file), id) < |file| <==> exists u :: u in file && u.id == id
  {
    var users := Normalized(file);
    var i := IndexOf(users, id);
    if i < |users| { assert file[i] in file; }
    if u :| u in file && u.id == id {
      var j :| 0 <= j < |file| && file[j] == u;
      assert users[j].id == id;
    }
  }

  lemma {:induction false} FirstAt(users: seq<User>, id: Text, i: nat)
    requires i < |users| && users[i].id == id && forall j :: 0 <= j < i ==> users[j].id != id
    ensures FirstMatch(users, IdKey(id)) == Some(users[i])
    decreases i
  {
    if i > 0 { FirstAt(users[1..], id, i - 1); }
  }

  // --- what lookups and writes do, user by user --------------------------------------------------

  /** `v` is `u` as a read returns it: the federation flag a boolean, true only if it was. */
  ghost predicate AsRead(u: User, v: User)
  {
    && v.id == u.id && v.username == u.username && v.handle == u.handle && v.isActive == u.isActive
    && v.updatedAt == u.updatedAt && v.rest == u.rest && v.federation == Some(u.federation == Some(true))
  }

  /** A handle finds a user by handle or by username, unless deactivated; an id finds its user. */
  ghost predicate Hits(u: User, k: Key)
  {
    && (forall h :: k == HandleKey(h) ==> (u.handle == Some(h) || u.username == h) && u.isActive != Some(false))
    && (forall id :: k == IdKey(id) ==> u.id == id)
  }

  ghost predicate FirstHit(file: seq<User>, k: Key, i: nat)
  {
    i < |file| && Hits(file[i], k) && forall j :: 0 <= j < i ==> !Hits(file[j], k)
  }

  lemma {:induction false} FirstMatchIs(users: seq<User>, k: Key)
    ensures match FirstMatch(users, k)
      case None => forall i: nat :: !FirstHit(users, k, i)
      case Some(u) => exists i: nat :: FirstHit(users, k, i) && users[i] == u
    decreases |users|
  {
    if users != [] {
      assert Matches(users[0], k) <==> Hits(users[0], k);
      if Matches(users[0], k) {
        assert FirstHit(users, k, 0);
      } else {
        var rest := users[1..];
        FirstMatchIs(rest, k);
        forall i: nat ensures FirstHit(users, k, i) <==> i > 0 && FirstHit(rest, k, i - 1) {
          if i > 0 && FirstHit(rest, k, i - 1) { forall j | 0 <= j < i ensures !Hits(users[j], k) { if j > 0 { assert users[j] == rest[j - 1]; } } }
          if i > 0 && FirstHit(users, k, i) { forall j | 0 <= j < i - 1 ensures !Hits(rest[j], k) { assert rest[j] == users[j + 1]; } }
        }
        if FirstMatch(rest, k).Some? {
          var i: nat :| FirstHit(rest, k, i) && rest[i] == FirstMatch(rest, k).value;
          assert FirstHit(users, k, i + 1) && users[i + 1] == rest[i];
        }
      }
    }
  }

  lemma NormalHits(file: seq<User>, k: Key, i: nat)
    ensures FirstHit(Normalized(file), k, i) <==> FirstHit(file, k, i)
    ensures i < |file| ==> AsRead(file[i], Normalized(file)[i])
  {
    forall j | 0 <= j < |file| ensures Hits(Normalized(file)[j], k) <==> Hits(file[j], k) {}
  }

  /** A scan finds the first user the key hits, as a read returns it, and nobody when it hits none. */
  lemma ScanIs(file: seq<User>, k: Key)
    ensures match Scan(file, k)
      case None => forall i: nat :: !FirstHit(file, k, i)
      case Some(u) => exists i: nat :: FirstHit(file, k, i) && AsRead(file[i], u)
  {
    var users := Normalized(file);
    FirstMatchIs(users, k);
    forall i: nat ensures FirstHit(users, k, i) <==> FirstHit(file, k, i) { NormalHits(file, k, i); }
    if Scan(file, k).Some? {
      var i: nat :| FirstHit(users, k, i) && users[i] == Scan(file, k).value;
      NormalHits(file, k, i);
    }
  }

  /** Each field the update names is set, every other stays; the stamp is new, the flag a boolean. */
  ghost predicate Carries(u: User, p: Updates, at: Text, v: User)
  {
    && v.id == u.id && v.updatedAt == at
    && v.username == (if p.username.Some? then p.username.value else u.username)
    && v.handle == (if p.handle.Some? then p.handle else u.handle)
    && v.isActive == (if p.isActive.Some? then p.isActive else u.isActive)
    && v.rest == (if p.rest.Some? then p.rest.value else u.rest)
    && v.federation == Some(if p.federation.Some? then p.federation == Some(true) else u.federation == Some(true))
  }

  lemma IndexIsFirst(file: seq<User>, id: Text)
    ensures var i := IndexOf(Normalized(file), id);
      if i < |file| then FirstHit(file, IdKey(id), i) else forall j: nat :: !FirstHit(file, IdKey(id), j)
  {
    var i := IndexOf(Normalized(file), id);
    forall j | 0 <= j < |file| ensures Hits(file[j], IdKey(id)) <==> Normalized(file)[j].id == id {}
  }

  /** A write that is made clears the cache however it ends, and one that never reached its rename
      leaves the file. */
  lemma WritesClear(s: State, op: Op)
    requires (op.Create? || op.Update? || op.DeletePermanently?) && Apply(s, op) != s
    ensures Apply(s, op).cache == map[] && (op.outcome == NotRenamed ==> Apply(s, op).file == s.file)
  {}

  /** An update that reaches the file changes the first user with the id as asked and nobody else. */
  lemma UpdateWrites(s: State, id: Text, p: Updates, at: Text, outcome: Outcome)
    requires !outcome.NotRenamed?
    ensures var t := Apply(s, Update(id, p, at, true, outcome));
      if i: nat :| FirstHit(s.file, IdKey(id), i) then
        && |t.file| == |s.file| && Carries(s.file[i], p, at, t.file[i]) && t.cache == map[]
        && forall j :: 0 <= j < |s.file| && j != i ==> AsRead(s.file[j], t.file[j])
      else t == s
  {
    IndexIsFirst(s.file, id);
  }

  /** A permanent delete that reaches the file takes out the first user with the id and nobody else. */
  lemma DeleteWrites(s: State, id: Text, outcome: Outcome)
    requires !outcome.NotRenamed?
    ensures var t := Apply(s, DeletePermanently(id, true, outcome));
      if i: nat :| FirstHit(s.file, IdKey(id), i) then
        && |t.file| == |s.file| - 1 && t.cache == map[]
        && (forall j :: 0 <= j < i ==> AsRead(s.file[j], t.file[j])) && forall j :: i < j < |s.file| ==> AsRead(s.file[j], t.file[j - 1])
      else t == s
  {
    IndexIsFirst(s.file, id);
    var i := IndexOf(Normalized(s.file), id);
    if i < |s.file| { WithoutAt(s.file, i); }
  }

  lemma WithoutAt(file: seq<User>, i: nat)
    requires i < |file|
    ensures var left := Normalized(file)[..i] + Normalized(file)[i + 1..];
      && |left| == |file| - 1 && (forall j :: 0 <= j < i ==> AsRead(file[j], left[j]))
      && forall j :: i < j < |file| ==> AsRead(file[j], left[j - 1])
  {}

  /** A create adds its user at the end exactly when nobody has the handle, as handle or username. */
  lemma CreateWrites(s: State, u: User, handle: Text, outcome: Outcome)
    requires !outcome.NotRenamed?
    ensures var t := Apply(s, Create(u, handle, true, outcome));
      if exists x :: x in s.file && (x.handle == Some(handle) || x.username == handle) then t == s
      else |t.file| == |s.file| + 1 && t.file[|s.file|] == u && t.cache == map[] && forall j :: 0 <= j < |s.file| ==> AsRead(s.file[j], t.file[j])
  {
    var users := Normalized(s.file);
    if x :| x in s.file && (x.handle == Some(handle) || x.username == handle) {
      var j :| 0 <= j < |s.file| && s.file[j] == x;
      assert users[j] in users;
    }
    if x :| x in users && (x.handle == Some(handle) || x.username == handle) {
      var j :| 0 <= j < |users| && users[j] == x;
      assert s.file[j] in s.file;
    }
  }

  // --- the cache never lies while it is the only writer ---------------------------------------

  ghost predicate Coherent(s: State)
  {
    forall k :: k in s.cache ==> Scan(s.file, k) == Some(s.cache[k].user)
  }

  /** A read that no write of this repository has overtaken saw the file as it is. */
  ghost predicate ReadsCurrent(s: State)
  {
    forall r :: r in s.underway ==> r.writes <= s.writes && (r.writes == s.writes ==> r.file == s.file)
  }

  /** No other writer, and no write of this repository between a lookup's read and its caching. */
  ghost predicate Undisturbed(s: State, ops: seq<Op>)
    decreases |ops|
  {
    ops != [] ==>
      && !ops[0].Outside?
      && (ops[0].Land? && ops[0].read < |s.underway| ==> s.underway[ops[0].read].writes == s.writes)
      && Undisturbed(Apply(s, ops[0]), ops[1..])
  }

  lemma StepStaysCoherent(s: State, op: Op)
    requires Coherent(s) && ReadsCurrent(s) && !op.Outside?
    requires op.Land? && op.read < |s.underway| ==> s.underway[op.read].writes == s.writes
    ensures Coherent(Apply(s, op)) && ReadsCurrent(Apply(s, op))
  {
    if op.Land? && op.read < |s.underway| { assert s.underway[op.read] in s.underway; }
  }

  lemma {:induction false} RunStaysCoherent(s: State, ops: seq<Op>)
    requires Coherent(s) && ReadsCurrent(s) && Undisturbed(s, ops)
    ensures Coherent(Exec(s, ops)) && ReadsCurrent(Exec(s, ops))
    decreases |ops|
  {
    if ops != [] {
      StepStaysCoherent(s, ops[0]);
      RunStaysCoherent(Apply(s, ops[0]), ops[1..]);
    }
  }

  /** With one writer that overtakes no read, whatever the time to live, the clock and the writes
      that failed before or after their rename, a lookup that answers gives what scanning the
      file now gives. */
  lemma LookupIsFreshScan(file: seq<User>, ops: seq<Op>, k: Key, ttl: int, now: int, readable: bool, stamp: int)
    requires Undisturbed(Opened(file), ops)
    ensures var s := Exec(Opened(file), ops); var answer := Find(s, k, ttl, now, readable, stamp).1;
      && (answer.Found? ==> answer.user == Scan(s.file, k))
      && (answer.Found? <==> readable || (k in s.cache && now < s.cache[k].timestamp + ttl))
  {
    RunStaysCoherent(Opened(file), ops);
  }

  /** A lookup leaves a wrong answer behind exactly when it found a user that the file has lost
      or changed since it was read. */
  lemma CachesStaleExactlyWhen(s: State, i: nat, stamp: int)
    requires Coherent(s) && i < |s.underway|
    ensures var r := s.underway[i];
      !Coherent(Land(s, i, stamp).0) <==> Scan(r.file, r.key).Some? && Scan(r.file, r.key) != Scan(s.file, r.key)
  {
    var r := s.underway[i];
    var t := Land(s, i, stamp).0;
    if Scan(r.file, r.key).Some? { assert r.key in t.cache && t.cache[r.key].user == Scan(r.file, r.key).value; }
  }

  lemma ExecStep(s: State, op: Op, rest: seq<Op>)
    ensures Exec(s, [op] + rest) == Exec(Apply(s, op), rest)
  {
    assert ([op] + rest)[1..] == rest;
  }

  /** A user deleted while a lookup reads is answered from the cache until the time to live is over. */
  lemma OvertakenReadOutlivesDeletion(u: User, ttl: int, now: int, stamp: int, later: int)
    requires stamp <= later < stamp + ttl
    ensures var k := IdKey(u.id);
      var s := Exec(Opened([u]), [Op.Look(k, ttl, now, true), Op.DeletePermanently(u.id, true, Done), Op.Land(0, stamp)]);
      s.file == [] && Find(s, k, ttl, later, true, later).1 == Found(Some(Normal(u)))
  {
    var k := IdKey(u.id);
    var look, drop, land := Op.Look(k, ttl, now, true), Op.DeletePermanently(u.id, true, Done), Op.Land(0, stamp);
    assert [look, drop, land] == [look] + ([drop] + ([land] + []));
    var s0 := Opened([u]);
    ExecStep(s0, look, [drop] + ([land] + []));
    var s1 := Apply(s0, look);
    assert s1.underway == [Read(k, [u], now, 0)];
    ExecStep(s1, drop, [land] + []);
    var s2 := Apply(s1, drop);
    assert s2.file == [] && s2.underway == s1.underway;
    ExecStep(s2, land, []);
    assert Normalized([u])[0] == Normal(u);
  }

  // --- with other writers ---------------------------------------------------------------------

  /** Each entry was cached since this repository's last write, from a read made before that. */
  ghost predicate Sourced(s: State)
  {
    forall k :: k in s.cache ==> HasReading(s, k)
  }

  ghost predicate HasReading(s: State, k: Key)
    requires k in s.cache
  {
    exists r :: r in s.readings && r.read.key == k && r.stamp == s.cache[k].timestamp && r.writes == s.writes &&
                Scan(r.read.file, k) == Some(s.cache[k].user)
  }

  lemma StepStaysSourced(s: State, op: Op)
    requires Sourced(s)
    ensures Sourced(Apply(s, op))
  {
    var t := Apply(s, op);
    if op.Land? && op.read < |s.underway| {
      var r := s.underway[op.read];
      forall k | k in t.cache ensures HasReading(t, k) {
        if k == r.key && Scan(r.file, k).Some? {
          assert Reading(r, op.stamp, s.writes) in t.readings;
        } else {
          assert k in s.cache && HasReading(s, k);
        }
      }
    } else {
      forall k | k in t.cache ensures HasReading(t, k) { assert k in s.cache && HasReading(s, k); }
    }
  }

  lemma {:induction false} RunStaysSourced(s: State, ops: seq<Op>)
    requires Sourced(s)
    ensures Sourced(Exec(s, ops))
    decreases |ops|
  {
    if ops != [] {
      StepStaysSourced(s, ops[0]);
      RunStaysSourced(Apply(s, ops[0]), ops[1..]);
    }
  }

  /** With other writers too, an answer from the cache is what some read of the file found. It
      was cached less than the time to live ago and after this repository's last write, so its
      read began at most that long, and the length of the read, ago. */
  lemma CachedAnswerIsRecent(file: seq<User>, ops: seq<Op>, k: Key, ttl: int, now: int)
    requires Fresh(Exec(Opened(file), ops), k, ttl, now)
    ensures var s := Exec(Opened(file), ops);
      exists r :: r in s.readings && r.read.key == k && r.writes == s.writes &&
                  now - r.stamp < ttl && now - r.read.at < ttl + (r.stamp - r.read.at) &&
                  Scan(r.read.file, k) == Some(s.cache[k].user)
  {
    RunStaysSourced(Opened(file), ops);
    assert HasReading(Exec(Opened(file), ops), k);
  }

  /** The stamp alone bounds nothing: after a slow read an answer older than the time to live is
      still given. */
  lemma SlowReadOutlivesTtl(u: User, ttl: int, now: int, length: nat)
    requires ttl > 0
    ensures var k := IdKey(u.id);
      var s := Exec(Opened([u]), [Op.Look(k, ttl, now, true), Outside([]), Op.Land(0, now + length)]);
      s.file == [] && Find(s, k, ttl, now + length, true, now + length).1 == Found(Some(Normal(u)))
  {
    var k := IdKey(u.id);
    var look, out, land := Op.Look(k, ttl, now, true), Outside([]), Op.Land(0, now + length);
    assert [look, out, land] == [look] + ([out] + ([land] + []));
    var s0 := Opened([u]);
    ExecStep(s0, look, [out] + ([land] + []));
    var s1 := Apply(s0, look);
    assert s1.underway == [Read(k, [u], now, 0)];
    ExecStep(s1, out, [land] + []);
    var s2 := Apply(s1, out);
    ExecStep(s2, land, []);
    assert Normalized([u])[0] == Normal(u);
  }
}
