/** Accounts, and the digest of everything in one that carries authority. */
module Principal {
  import opened Wrappers
  import opened Utf16
  import opened Canonical
  import opened RetirementMaterial
  import I = CanonicalInjective

  /** `profile` stands for the display fields and audit stamps the digest leaves out. */
  datatype User = User(id: Text, handle: Text, passwordHash: Text, githubId: Option<int>, githubLogin: Option<Text>,
                       githubLinkedAt: Option<Text>, role: Text, permissions: Option<seq<Text>>,
                       isActive: bool, isLocked: Option<bool>, needsOnboarding: bool, firstLogin: Option<bool>,
                       removedAt: Option<Text>, removedBy: Option<Text>,
                       totpEnabled: bool, totpSecretId: Option<Text>, updatedAt: int, profile: Text)

  const PRINCIPAL_NAMES: seq<string> :=
    ["id", "handle", "passwordHash", "githubId", "githubLogin", "githubLinkedAt", "role", "permissions",
     "isActive", "isLocked", "needsOnboarding", "firstLogin", "removedAt", "removedBy", "totpEnabled", "totpSecretId"]

  function TextOrNull(o: Option<Text>): Value { if o.None? then Null else Str(o.value) }

  function NumOrNull(o: Option<int>): Value { if o.None? then Null else Num(o.value) }

  function BoolOrNull(o: Option<bool>): Value { if o.None? then Null else Bool(o.value) }

  function Strings(values: seq<Text>): seq<Value>
  {
    seq(|values|, i requires 0 <= i < |values| => Str(values[i]))
  }

  function TextsOrNull(o: Option<seq<Text>>): Value { if o.None? then Null else Arr(Strings(o.value)) }

  /** The listed fields, `null` where the account has none. */
  function PrincipalValues(u: User): (vs: seq<Value>)
    ensures |vs| == 16 && forall i :: 0 <= i < 16 && i != 7 ==> Flat(vs[i])
  {
    [Str(u.id), Str(u.handle), Str(u.passwordHash), NumOrNull(u.githubId), TextOrNull(u.githubLogin),
     TextOrNull(u.githubLinkedAt), Str(u.role), TextsOrNull(u.permissions)] +
    [Bool(u.isActive), BoolOrNull(u.isLocked), Bool(u.needsOnboarding), BoolOrNull(u.firstLogin),
     TextOrNull(u.removedAt), TextOrNull(u.removedBy), Bool(u.totpEnabled), TextOrNull(u.totpSecretId)]
  }

  predicate SevenBit(n: string) { forall i :: 0 <= i < |n| ==> n[i] as int < 128 }

  /** A name's length, first letter and eighth letter. */
  function Sign(n: string): (nat, char, char)
    requires n != ""
  {
    (|n|, n[0], if |n| > 7 then n[7] else n[0])
  }

  lemma SignsDiffer(a: string, b: string)
    requires SevenBit(a) && SevenBit(b) && a != "" && b != "" && Sign(a) != Sign(b)
    ensures Ascii(a) != Ascii(b)
  {
    if |a| == |b| {
      assert Ascii(a)[0] == a[0] as int && Ascii(b)[0] == b[0] as int;
      if |a| > 7 { assert Ascii(a)[7] == a[7] as int && Ascii(b)[7] == b[7] as int; }
    }
  }

  const SIGNS: seq<(nat, char, char)> :=
    [(2, 'i', 'i'), (6, 'h', 'h'), (12, 'p', 'd'), (8, 'g', 'd'), (11, 'g', 'o'), (14, 'g', 'i'), (4, 'r', 'r'), (11, 'p', 'i'),
     (8, 'i', 'e'), (8, 'i', 'd'), (15, 'n', 'b'), (10, 'f', 'g'), (9, 'r', 'A'), (9, 'r', 'B'), (11, 't', 'b'), (12, 't', 'r')]

  lemma SignsUnique(i: nat, j: nat)
    requires i < j < 16
    ensures SIGNS[i] != SIGNS[j]
  {}

  lemma PrincipalNames()
    ensures Names(PRINCIPAL_NAMES)
  {
    NamesFromSigns(PRINCIPAL_NAMES);
  }

  lemma NamesFromSigns(names: seq<string>)
    requires names == PRINCIPAL_NAMES
    ensures Names(names)
  {
    forall i: nat | i < |names| ensures names[i] != "" && SevenBit(names[i]) && Sign(names[i]) == SIGNS[i] {}
    forall i: nat, j: nat | i < j < |names| ensures Ascii(names[i]) != Ascii(names[j]) {
      SignsUnique(i, j);
      SignsDiffer(names[i], names[j]);
    }
  }

  function PrincipalOf(u: User): Value
  {
    PrincipalNames();
    Obj(Record(PRINCIPAL_NAMES, PrincipalValues(u)))
  }

  lemma {:induction false} StringsEncode(items: seq<Value>)
    requires forall i :: 0 <= i < |items| ==> items[i].Str?
    ensures EncodedItems(items).Ok?
  {
    if items != [] { StringsEncode(items[1..]); }
  }

  lemma PrincipalValueEncodes(u: User, i: nat)
    requires i < 16
    ensures Encodable(PrincipalValues(u)[i])
  {
    if i == 7 && u.permissions.Some? { StringsEncode(Strings(u.permissions.value)); }
  }

  lemma PrincipalEncodes(u: User)
    ensures Encodable(PrincipalOf(u))
  {
    forall i | 0 <= i < 16 ensures Encodable(PrincipalValues(u)[i]) { PrincipalValueEncodes(u, i); }
    PrincipalNames();
    RecordEncodes(PRINCIPAL_NAMES, PrincipalValues(u));
  }

  const PRINCIPAL_DOMAIN := Ascii("principal")

  function PrincipalDigest(u: User): Digest
  {
    PrincipalEncodes(u);
    MaterialDigest(PRINCIPAL_DOMAIN, PrincipalOf(u)).value
  }

  /** `u` with another account's display fields and stamps. */
  function Dressed(u: User, v: User): User { u.(updatedAt := v.updatedAt, profile := v.profile) }

  lemma TextsIdentify(a: seq<Text>, b: seq<Text>)
    ensures Meaning(Arr(Strings(a))) == Meaning(Arr(Strings(b))) <==> a == b
  {
    var x, y := Meaning(Arr(Strings(a))), Meaning(Arr(Strings(b)));
    if x == y {
      assert |a| == |x.items| == |y.items| == |b|;
      forall i | 0 <= i < |a| ensures a[i] == b[i] {
        assert x.items[i] == Meaning(Strings(a)[i]) && y.items[i] == Meaning(Strings(b)[i]);
      }
    }
  }

  lemma PermissionsIdentify(a: Option<seq<Text>>, b: Option<seq<Text>>)
    ensures SameField(TextsOrNull(a), TextsOrNull(b)) <==> a == b
  {
    if a.Some? && b.Some? { TextsIdentify(a.value, b.value); }
  }

  lemma PrincipalValueIsFaithful(u: User, v: User, i: nat)
    requires i < 16
    ensures SameField(PrincipalValues(u)[i], PrincipalValues(v)[i]) <==> PrincipalValues(u)[i] == PrincipalValues(v)[i]
  {
    if i == 7 { PermissionsIdentify(u.permissions, v.permissions); }
  }

  lemma ValuesIdentifyPrincipal(u: User, v: User)
    requires PrincipalValues(u) == PrincipalValues(v)
    ensures Dressed(u, v) == v
  {
    var a, b := PrincipalValues(u), PrincipalValues(v);
    assert a[0] == b[0] && a[1] == b[1] && a[2] == b[2] && a[3] == b[3] && a[4] == b[4] && a[5] == b[5];
    assert a[6] == b[6] && a[7] == b[7] && a[8] == b[8] && a[9] == b[9] && a[10] == b[10];
    assert a[11] == b[11] && a[12] == b[12] && a[13] == b[13] && a[14] == b[14] && a[15] == b[15];
    PermissionsIdentify(u.permissions, v.permissions);
  }

  lemma SameValuesSameDocument(u: User, v: User)
    ensures Meaning(PrincipalOf(u)) == Meaning(PrincipalOf(v)) <==> PrincipalValues(u) == PrincipalValues(v)
  {
    forall i | 0 <= i < 16
      ensures SameField(PrincipalValues(u)[i], PrincipalValues(v)[i]) <==> PrincipalValues(u)[i] == PrincipalValues(v)[i]
    {
      PrincipalValueIsFaithful(u, v, i);
    }
    PrincipalNames();
    RecordsIdentify(PRINCIPAL_NAMES, PrincipalValues(u), PrincipalValues(v));
  }

  /** One principal digest: one account up to its display fields and stamps. */
  lemma PrincipalIdentifies(u: User, v: User)
    ensures PrincipalDigest(u) == PrincipalDigest(v) <==> Dressed(u, v) == v
  {
    PrincipalEncodes(u); PrincipalEncodes(v);
    PlainIsWellFormed(PRINCIPAL_DOMAIN);
    DigestIdentifies(PRINCIPAL_DOMAIN, PrincipalOf(u), PRINCIPAL_DOMAIN, PrincipalOf(v));
    SameValuesSameDocument(u, v);
    if PrincipalValues(u) == PrincipalValues(v) { ValuesIdentifyPrincipal(u, v); }
    if Dressed(u, v) == v { assert PrincipalValues(u) == PrincipalValues(v); }
  }
}
