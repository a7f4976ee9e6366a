/** The in-memory user map and its handle and email indexes. */
module MemoryUsers {
  import opened Wrappers
  import opened Utf16

  type Id = Text

  /** `toLowerCase`. */
  type Lower = Text -> Text

  datatype User = User(handle: Text, email: Option<Text>, rest: Text)

  /** The fields an update names; `email: Some(None)` is one explicitly set to undefined. */
  datatype Patch = Patch(handle: Option<Text>, email: Option<Option<Text>>, rest: Option<Text>)

  datatype Store = Store(users: map<Id, User>, byHandle: map<Text, Id>, byEmail: map<Text, Id>)

  /** JavaScript truth of an optional string. */
  predicate Truthy(t: Option<Text>) { t.Some? && t.value != [] }

  function Updated(u: User, p: Patch): User
  {
    User(if p.handle.Some? then p.handle.value else u.handle, if p.email.Some? then p.email.value else u.email,
         if p.rest.Some? then p.rest.value else u.rest)
  }

  predicate ChangesHandle(u: User, p: Patch) { Truthy(p.handle) && p.handle.value != u.handle }

  predicate ChangesEmail(u: User, p: Patch) { p.email.Some? && Truthy(p.email.value) && p.email.value != u.email }

  class MemoryStorageAdapter {
    const lower: Lower
    var users: map<Id, User>
    var usersByHandle: map<Text, Id>
    var usersByEmail: map<Text, Id>

    constructor (lower: Lower)
      ensures this.lower == lower && View() == Store(map[], map[], map[])
    {
      this.lower := lower;
      users, usersByHandle, usersByEmail := map[], map[], map[];
    }

    function View(): Store
      reads this
    {
      Store(users, usersByHandle, usersByEmail)
    }

    method GetUserByHandle(handle: Text) returns (u: Option<(Id, User)>)
      ensures u == ByHandle(lower, View(), handle)
    {
      var key := lower(handle);
      if key !in usersByHandle { return None; }
      var id := usersByHandle[key];
      return if id in users then Some((id, users[id])) else None;
    }

    method GetUserByEmail(email: Text) returns (u: Option<(Id, User)>)
      ensures u == ByEmail(lower, View(), email)
    {
      var key := lower(email);
      if key !in usersByEmail { return None; }
      var id := usersByEmail[key];
      return if id in users then Some((id, users[id])) else None;
    }

    method CreateUser(id: Id, u: User)
      modifies this
      ensures View() == Created(lower, old(View()), id, u)
    {
      users := users[id := u];
      usersByHandle := usersByHandle[lower(u.handle) := id];
      if Truthy(u.email) { usersByEmail := usersByEmail[lower(u.email.value) := id]; }
    }

    method UpdateUser(id: Id, p: Patch) returns (found: bool)
      modifies this
      ensures found == (id in old(users))
      ensures View() == if found then Changed(lower, old(View()), id, p) else old(View())
    {
      if id !in users { return false; }
      var u := users[id];
      if ChangesHandle(u, p) {
        usersByHandle := usersByHandle - {lower(u.handle)};
        usersByHandle := usersByHandle[lower(p.handle.value) := id];
      }
      if ChangesEmail(u, p) {
        if Truthy(u.email) { usersByEmail := usersByEmail - {lower(u.email.value)}; }
        usersByEmail := usersByEmail[lower(p.email.value.value) := id];
      }
      users := users[id := Updated(u, p)];
      return true;
    }

    method DeleteUser(id: Id) returns (found: bool)
      modifies this
      ensures found == (id in old(users))
      ensures View() == if found then Removed(lower, old(View()), id) else old(View())
    {
      if id !in users { return false; }
      var u := users[id];
      users := users - {id};
      usersByHandle := usersByHandle - {lower(u.handle)};
      if Truthy(u.email) { usersByEmail := usersByEmail - {lower(u.email.value)}; }
      return true;
    }
  }

  // --- what the methods do to the three maps ------------------------------------------------

  function ByHandle(lower: Lower, s: Store, handle: Text): Option<(Id, User)>
  {
    var key := lower(handle);
    if key in s.byHandle && s.byHandle[key] in s.users then Some((s.byHandle[key], s.users[s.byHandle[key]])) else None
  }

  function ByEmail(lower: Lower, s: Store, email: Text): Option<(Id, User)>
  {
    var key := lower(email);
    if key in s.byEmail && s.byEmail[key] in s.users then Some((s.byEmail[key], s.users[s.byEmail[key]])) else None
  }

  function Created(lower: Lower, s: Store, id: Id, u: User): Store
  {
    Store(s.users[id := u], s.byHandle[lower(u.handle) := id],
          if Truthy(u.email) then s.byEmail[lower(u.email.value) := id] else s.byEmail)
  }

  function Changed(lower: Lower, s: Store, id: Id, p: Patch): Store
    requires id in s.users
  {
    var u := s.users[id];
    var emails := if Truthy(u.email) then s.byEmail - {lower(u.email.value)} else s.byEmail;
    Store(s.users[id := Updated(u, p)],
          if ChangesHandle(u, p) then (s.byHandle - {lower(u.handle)})[lower(p.handle.value) := id] else s.byHandle,
          if ChangesEmail(u, p) then emails[lower(p.email.value.value) := id] else s.byEmail)
  }

  function Removed(lower: Lower, s: Store, id: Id): Store
    requires id in s.users
  {
    var u := s.users[id];
    Store(s.users - {id}, s.byHandle - {lower(u.handle)},
          if Truthy(u.email) then s.byEmail - {lower(u.email.value)} else s.byEmail)
  }

  // --- what an operation does, user by user and key by key ----------------------------------------

  /** An email or handle that is there and not empty. */
  ghost predicate Given(t: Option<Text>) { exists x :: t == Some(x) && x != [] }

  /** The old key gives way to the new one, which now leads to `id`; all other keys are as they were. */
  ghost predicate Rekeyed(was: map<Text, Id>, now: map<Text, Id>, from: Option<Text>, to: Text, id: Id)
  {
    && to in now && now[to] == id
    && (from.Some? && from.value != to ==> from.value !in now)
    && forall k :: k != to && Some(k) != from ==> (k in now <==> k in was) && (k in now ==> now[k] == was[k])
  }

  /** An update sets what it names, keeps the rest, and rekeys an index exactly when it gives a
      handle, or an email, that is not empty and differs. */
  lemma UpdateSets(lower: Lower, s: Store, id: Id, p: Patch)
    requires id in s.users
    ensures var t := Changed(lower, s, id, p); var u, v := s.users[id], t.users[id];
      && t.users.Keys == s.users.Keys && (forall other :: other in s.users && other != id ==> t.users[other] == s.users[other])
      && v.handle == (if p.handle.Some? then p.handle.value else u.handle)
      && v.email == (if p.email.Some? then p.email.value else u.email)
      && v.rest == (if p.rest.Some? then p.rest.value else u.rest)
      && (if Given(p.handle) && p.handle != Some(u.handle)
          then Rekeyed(s.byHandle, t.byHandle, Some(lower(u.handle)), lower(p.handle.value), id) else t.byHandle == s.byHandle)
      && (if p.email.Some? && Given(p.email.value) && p.email.value != u.email
          then Rekeyed(s.byEmail, t.byEmail, if Given(u.email) then Some(lower(u.email.value)) else None, lower(p.email.value.value), id)
          else t.byEmail == s.byEmail)
  {
    var u := s.users[id];
    GivenIsTruthy(p.handle);
    GivenIsTruthy(u.email);
    if p.email.Some? { GivenIsTruthy(p.email.value); }
  }

  lemma GivenIsTruthy(t: Option<Text>)
    ensures Given(t) <==> Truthy(t)
  {}

  /** A create adds the user under its handle, and under its email when it gives one. */
  lemma CreateSets(lower: Lower, s: Store, id: Id, u: User)
    ensures var t := Created(lower, s, id, u);
      && t.users == s.users[id := u] && t.byHandle == s.byHandle[lower(u.handle) := id]
      && (if Given(u.email) then t.byEmail == s.byEmail[lower(u.email.value) := id] else t.byEmail == s.byEmail)
  {
    GivenIsTruthy(u.email);
  }

  /** A delete takes out the user and both of its keys, and nothing else. */
  lemma DeleteSets(lower: Lower, s: Store, id: Id)
    requires id in s.users
    ensures var t := Removed(lower, s, id); var u := s.users[id];
      && (forall x :: x in t.users <==> x in s.users && x != id) && (forall x :: x in t.users ==> t.users[x] == s.users[x])
      && (forall k :: k in t.byHandle <==> k in s.byHandle && k != lower(u.handle)) && (forall k :: k in t.byHandle ==> t.byHandle[k] == s.byHandle[k])
      && (forall k :: k in t.byEmail <==> k in s.byEmail && !(Given(u.email) && k == lower(u.email.value)))
      && (forall k :: k in t.byEmail ==> t.byEmail[k] == s.byEmail[k])
  {
    GivenIsTruthy(s.users[id].email);
  }

  // --- agreement -----------------------------------------------------------------------------

  /** The key an index should hold for a user, if any. */
  function HandleKey(lower: Lower, u: User): Option<Text> { Some(lower(u.handle)) }

  function EmailKey(lower: Lower, u: User): Option<Text> { if Truthy(u.email) then Some(lower(u.email.value)) else None }

  /** One index holds each user's key for that user, and nothing else. */
  ghost predicate IndexAgrees(users: map<Id, User>, index: map<Text, Id>, key: User -> Option<Text>)
  {
    && (forall id :: id in users && key(users[id]).Some? ==> key(users[id]).value in index && index[key(users[id]).value] == id)
    && (forall k :: k in index ==> index[k] in users && key(users[index[k]]) == Some(k))
  }

  ghost predicate Agrees(lower: Lower, s: Store)
  {
    IndexAgrees(s.users, s.byHandle, u => HandleKey(lower, u)) && IndexAgrees(s.users, s.byEmail, u => EmailKey(lower, u))
  }

  /** No other user has the key. */
  ghost predicate Unused(users: map<Id, User>, id: Id, key: User -> Option<Text>, k: Option<Text>)
  {
    k.Some? ==> forall other :: other in users && other != id ==> key(users[other]) != k
  }

  // --- one index at a time ----------------------------------------------------------------------

  lemma IndexAdds(users: map<Id, User>, index: map<Text, Id>, key: User -> Option<Text>, id: Id, u: User)
    requires IndexAgrees(users, index, key) && id !in users && key(u).Some?
    ensures IndexAgrees(users[id := u], index[key(u).value := id], key) <==> Unused(users, id, key, key(u))
  {
    var k := key(u).value;
    var after := users[id := u];
    if !Unused(users, id, key, key(u)) {
      var other :| other in users && other != id && key(users[other]) == key(u);
      assert after[other] == users[other];
    } else {
      forall j | j in index[k := id] ensures index[k := id][j] in after && key(after[index[k := id][j]]) == Some(j) {
        if j != k { assert index[j] in users; }
      }
    }
  }

  lemma IndexMoves(users: map<Id, User>, index: map<Text, Id>, key: User -> Option<Text>, id: Id, u: User)
    requires IndexAgrees(users, index, key) && id in users && key(u).Some?
    ensures var left := if key(users[id]).Some? then index - {key(users[id]).value} else index;
      IndexAgrees(users[id := u], left[key(u).value := id], key) <==> Unused(users, id, key, key(u))
  {
    var left := if key(users[id]).Some? then index - {key(users[id]).value} else index;
    IndexAdds(users - {id}, left, key, id, u);
    assert (users - {id})[id := u] == users[id := u];
    assert Unused(users - {id}, id, key, key(u)) <==> Unused(users, id, key, key(u)) by {
      forall other | other in users && other != id ensures other in users - {id} && (users - {id})[other] == users[other] {}
    }
  }

  // --- operations ---------------------------------------------------------------------------------

  datatype Op = Create(id: Id, user: User) | Update(id: Id, patch: Patch) | Delete(id: Id)

  function Apply(lower: Lower, s: Store, op: Op): Store
  {
    match op
    case Create(id, u) => Created(lower, s, id, u)
    case Update(id, p) => if id in s.users then Changed(lower, s, id, p) else s
    case Delete(id) => if id in s.users then Removed(lower, s, id) else s
  }

  /** New ids are random. Handles and non-empty emails stay distinct up to case, and neither
      is cleared. */
  ghost predicate Clean(lower: Lower, s: Store, op: Op)
  {
    match op
    case Create(id, u) =>
      && Unused(s.users, id, x => HandleKey(lower, x), HandleKey(lower, u))
      && Unused(s.users, id, x => EmailKey(lower, x), EmailKey(lower, u))
    case Update(id, p) =>
      id in s.users ==>
        var u, v := s.users[id], Updated(s.users[id], p);
        && (if ChangesHandle(u, p) then Unused(s.users, id, x => HandleKey(lower, x), HandleKey(lower, v))
            else lower(v.handle) == lower(u.handle))
        && (if ChangesEmail(u, p) then Unused(s.users, id, x => EmailKey(lower, x), EmailKey(lower, v))
            else Truthy(u.email) ==> Truthy(v.email))
    case Delete(_) => true
  }

  lemma CreateAgreesExactlyWhen(lower: Lower, s: Store, id: Id, u: User)
    requires Agrees(lower, s) && id !in s.users
    ensures Agrees(lower, Created(lower, s, id, u)) <==> Clean(lower, s, Create(id, u))
  {
    IndexAdds(s.users, s.byHandle, x => HandleKey(lower, x), id, u);
    if Truthy(u.email) { IndexAdds(s.users, s.byEmail, x => EmailKey(lower, x), id, u); }
  }

  lemma HandleAgreesExactlyWhen(lower: Lower, s: Store, id: Id, p: Patch)
    requires IndexAgrees(s.users, s.byHandle, x => HandleKey(lower, x)) && id in s.users
    ensures var u, v := s.users[id], Updated(s.users[id], p); var t := Changed(lower, s, id, p);
      IndexAgrees(t.users, t.byHandle, x => HandleKey(lower, x)) <==>
        (if ChangesHandle(u, p) then Unused(s.users, id, x => HandleKey(lower, x), HandleKey(lower, v))
         else lower(v.handle) == lower(u.handle))
  {
    var u, v := s.users[id], Updated(s.users[id], p);
    if ChangesHandle(u, p) { IndexMoves(s.users, s.byHandle, x => HandleKey(lower, x), id, v); }
  }

  lemma EmailAgreesExactlyWhen(lower: Lower, s: Store, id: Id, p: Patch)
    requires IndexAgrees(s.users, s.byEmail, x => EmailKey(lower, x)) && id in s.users
    ensures var u, v := s.users[id], Updated(s.users[id], p); var t := Changed(lower, s, id, p);
      IndexAgrees(t.users, t.byEmail, x => EmailKey(lower, x)) <==>
        (if ChangesEmail(u, p) then Unused(s.users, id, x => EmailKey(lower, x), EmailKey(lower, v))
         else Truthy(u.email) ==> Truthy(v.email))
  {
    var u, v := s.users[id], Updated(s.users[id], p);
    if ChangesEmail(u, p) { IndexMoves(s.users, s.byEmail, x => EmailKey(lower, x), id, v); }
  }

  /** An operation keeps both indexes right exactly when it collides with nobody and clears nothing. */
  lemma AgreesExactlyWhen(lower: Lower, s: Store, op: Op)
    requires Agrees(lower, s) && (op.Create? ==> op.id !in s.users)
    ensures Agrees(lower, Apply(lower, s, op)) <==> Clean(lower, s, op)
  {
    match op
    case Create(id, u) => CreateAgreesExactlyWhen(lower, s, id, u);
    case Update(id, p) =>
      if id in s.users {
        HandleAgreesExactlyWhen(lower, s, id, p);
        EmailAgreesExactlyWhen(lower, s, id, p);
      }
    case Delete(_) =>
  }

  // --- runs -------------------------------------------------------------------------------------------

  function Exec(lower: Lower, s: Store, ops: seq<Op>): Store
    decreases |ops|
  {
    if ops == [] then s else Exec(lower, Apply(lower, s, ops[0]), ops[1..])
  }

  ghost predicate CleanRun(lower: Lower, s: Store, ops: seq<Op>)
    decreases |ops|
  {
    ops != [] ==>
      && (ops[0].Create? ==> ops[0].id !in s.users) && Clean(lower, s, ops[0])
      && CleanRun(lower, Apply(lower, s, ops[0]), ops[1..])
  }

  lemma {:induction false} RunAgrees(lower: Lower, s: Store, ops: seq<Op>)
    requires Agrees(lower, s) && CleanRun(lower, s, ops)
    ensures Agrees(lower, Exec(lower, s, ops))
    decreases |ops|
  {
    if ops != [] {
      AgreesExactlyWhen(lower, s, ops[0]);
      RunAgrees(lower, Apply(lower, s, ops[0]), ops[1..]);
    }
  }

  /** After any such run, looking a user up is the same as scanning all users for the one
      whose handle, or non-empty email, matches whatever the case. */
  lemma LookupIsScan(lower: Lower, ops: seq<Op>, text: Text, id: Id, u: User)
    requires CleanRun(lower, Store(map[], map[], map[]), ops)
    ensures var s := Exec(lower, Store(map[], map[], map[]), ops);
      && (ByHandle(lower, s, text) == Some((id, u)) <==>
            id in s.users && s.users[id] == u && lower(u.handle) == lower(text))
      && (ByEmail(lower, s, text) == Some((id, u)) <==>
            id in s.users && s.users[id] == u && Truthy(u.email) && lower(u.email.value) == lower(text))
  {
    RunAgrees(lower, Store(map[], map[], map[]), ops);
    var s := Exec(lower, Store(map[], map[], map[]), ops);
    if id in s.users && s.users[id] == u {
      assert HandleKey(lower, s.users[id]).Some?;
      if Truthy(u.email) { assert EmailKey(lower, s.users[id]).Some?; }
    }
  }

  /** Clearing an email leaves its index entry: the user is still found by the old one. */
  lemma ClearedEmailIsStillFound(lower: Lower, s: Store, id: Id)
    requires Agrees(lower, s) && id in s.users && Truthy(s.users[id].email)
    ensures var t := Changed(lower, s, id, Patch(None, Some(None), None));
      ByEmail(lower, t, s.users[id].email.value) == Some((id, s.users[id].(email := None))) && !Agrees(lower, t)
  {
    assert EmailKey(lower, s.users[id]).Some?;
    AgreesExactlyWhen(lower, s, Update(id, Patch(None, Some(None), None)));
  }
}
