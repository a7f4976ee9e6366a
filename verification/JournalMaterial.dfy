/** The digests that the enrollment and bootstrap journals keep of a completion, and of the proof
    and authorization behind a self-enrollment. */
module JournalMaterial {
  import opened Utf16
  import opened Canonical
  import I = CanonicalInjective
  import R = RetirementMaterial

  const AUTH := Ascii("tinyland-auth:")
  const TOTP := Ascii("totp-")
  const V1 := Ascii(":v1")
  const V2 := Ascii(":v2")
  const ENROLLMENT := Ascii("enrollment")
  const PRIMARY := Ascii("primary-reauth")
  const JOURNAL := Ascii("bootstrap-journal")
  const COMPLETION := Ascii(":completion")

  const ENROLLMENT_V1 := AUTH + (TOTP + (ENROLLMENT + V1))
  const ENROLLMENT_V2 := AUTH + (TOTP + (ENROLLMENT + V2))
  const PRIMARY_REAUTH := AUTH + (TOTP + (PRIMARY + V2))
  const BOOTSTRAP := AUTH + (JOURNAL + (V1 + COMPLETION))

  /** The domain and the text are converted to UTF-8 apart from each other. */
  function MaterialDigest(name: Text, v: Value): R.Digest
  {
    R.Sha256(Repaired(name + [0]) + Repaired(Lax(v)))
  }

  function EnrollmentDigest(version1: bool, completion: Value): R.Digest
  {
    MaterialDigest(if version1 then ENROLLMENT_V1 else ENROLLMENT_V2, completion)
  }

  function PrimaryRecord(reference: Text, authorization: Value): Value
  {
    Obj([Field(Ascii("reference"), Str(reference)), Field(Ascii("authorization"), authorization)])
  }

  function PrimaryDigest(reference: Text, authorization: Value): R.Digest
  {
    MaterialDigest(PRIMARY_REAUTH, PrimaryRecord(reference, authorization))
  }

  function BootstrapDigest(completion: Value): R.Digest { MaterialDigest(BOOTSTRAP, completion) }

  lemma NulAt(d: Text, e: Text, i: nat)
    requires R.DomainName(d) && i <= |d|
    ensures (d + [0] + e)[i] == 0 <==> i == |d|
  {
    if i < |d| { assert (d + [0] + e)[i] == d[i]; }
  }

  /** The first NUL separates a name from what follows. */
  lemma NameEndsAtNul(a: Text, x: Text, b: Text, y: Text)
    requires R.DomainName(a) && R.DomainName(b) && a + [0] + x == b + [0] + y
    ensures a == b && x == y
  {
    var least := if |a| < |b| then |a| else |b|;
    NulAt(a, x, least);
    NulAt(b, y, least);
    R.CancelFront(a + [0], b + [0], x, y);
    R.CancelFront(a, b, [0], [0]);
  }

  lemma DigestText(name: Text, v: Value)
    requires R.DomainName(name) && Plain(v) && Proper(v)
    ensures MaterialDigest(name, v) == R.Sha256(name + [0] + Lax(v))
  {
    PlainIsWellFormed([0]);
    WellFormedConcat(name, [0]);
    WellFormedNeedsNoRepair(name + [0]);
    I.LaxIsWellFormed(v);
    WellFormedNeedsNoRepair(Lax(v));
  }

  /** Equal digests mean the same domain and the same document, and the other way round. */
  lemma DigestIdentifies(n: Text, v: Value, m: Text, w: Value)
    requires R.DomainName(n) && R.DomainName(m) && Plain(v) && Plain(w) && Proper(v) && Proper(w)
    ensures MaterialDigest(n, v) == MaterialDigest(m, w) <==> n == m && Meaning(v) == Meaning(w)
  {
    DigestText(n, v);
    DigestText(m, w);
    I.LaxIsInjective(v, w);
    if MaterialDigest(n, v) == MaterialDigest(m, w) { NameEndsAtNul(n, Lax(v), m, Lax(w)); }
  }

  lemma NamesJoin(a: Text, b: Text)
    requires R.DomainName(a) && R.DomainName(b)
    ensures R.DomainName(a + b)
  {
    WellFormedConcat(a, b);
  }

  lemma AuthName()
    ensures R.DomainName(AUTH)
  {
    R.AsciiDomain("tinyland-auth:");
  }

  lemma TotpName()
    ensures R.DomainName(TOTP)
  {
    R.AsciiDomain("totp-");
  }

  lemma VersionNames()
    ensures R.DomainName(V1) && R.DomainName(V2)
  {
    R.AsciiDomain(":v1");
    R.AsciiDomain(":v2");
  }

  lemma EnrollmentName()
    ensures R.DomainName(ENROLLMENT)
  {
    R.AsciiDomain("enrollment");
  }

  lemma PrimaryName()
    ensures R.DomainName(PRIMARY)
  {
    R.AsciiDomain("primary-reauth");
  }

  lemma JournalName()
    ensures R.DomainName(JOURNAL)
  {
    R.AsciiDomain("bootstrap-journal");
  }

  lemma CompletionName()
    ensures R.DomainName(COMPLETION)
  {
    R.AsciiDomain(":completion");
  }

  lemma Names()
    ensures R.DomainName(ENROLLMENT_V1) && R.DomainName(ENROLLMENT_V2) && R.DomainName(PRIMARY_REAUTH) && R.DomainName(BOOTSTRAP)
  {
    AuthName();
    TotpName();
    VersionNames();
    EnrollmentName();
    PrimaryName();
    JournalName();
    CompletionName();
    NamesJoin(ENROLLMENT, V1);
    NamesJoin(TOTP, ENROLLMENT + V1);
    NamesJoin(AUTH, TOTP + (ENROLLMENT + V1));
    NamesJoin(ENROLLMENT, V2);
    NamesJoin(TOTP, ENROLLMENT + V2);
    NamesJoin(AUTH, TOTP + (ENROLLMENT + V2));
    NamesJoin(PRIMARY, V2);
    NamesJoin(TOTP, PRIMARY + V2);
    NamesJoin(AUTH, TOTP + (PRIMARY + V2));
    NamesJoin(V1, COMPLETION);
    NamesJoin(JOURNAL, V1 + COMPLETION);
    NamesJoin(AUTH, JOURNAL + (V1 + COMPLETION));
  }

  lemma VersionsDiffer()
    ensures V1 != V2
  {
    assert V1[2] == 0x31 && V2[2] == 0x32;
  }

  lemma NamesDiffer()
    ensures ENROLLMENT_V1 != ENROLLMENT_V2 && BOOTSTRAP != ENROLLMENT_V1 && BOOTSTRAP != ENROLLMENT_V2
  {
    assert |ENROLLMENT_V1| == |ENROLLMENT_V2| == 32 && |BOOTSTRAP| == 45;
    if ENROLLMENT_V1 == ENROLLMENT_V2 {
      R.CancelFront(AUTH, AUTH, TOTP + (ENROLLMENT + V1), TOTP + (ENROLLMENT + V2));
      R.CancelFront(TOTP, TOTP, ENROLLMENT + V1, ENROLLMENT + V2);
      R.CancelFront(ENROLLMENT, ENROLLMENT, V1, V2);
      VersionsDiffer();
    }
  }

  /** Completions of either version share a digest exactly when version and document agree. */
  lemma EnrollmentIdentifies(a: bool, v: Value, b: bool, w: Value)
    requires Plain(v) && Plain(w) && Proper(v) && Proper(w)
    ensures EnrollmentDigest(a, v) == EnrollmentDigest(b, w) <==> a == b && Meaning(v) == Meaning(w)
  {
    Names();
    NamesDiffer();
    DigestIdentifies(if a then ENROLLMENT_V1 else ENROLLMENT_V2, v, if b then ENROLLMENT_V1 else ENROLLMENT_V2, w);
  }

  /** A bootstrap completion's digest names that document; no enrollment completion has it. */
  lemma BootstrapIdentifies(v: Value, w: Value, version1: bool)
    requires Plain(v) && Plain(w) && Proper(v) && Proper(w)
    ensures BootstrapDigest(v) == BootstrapDigest(w) <==> Meaning(v) == Meaning(w)
    ensures BootstrapDigest(v) != EnrollmentDigest(version1, w)
  {
    Names();
    NamesDiffer();
    DigestIdentifies(BOOTSTRAP, v, BOOTSTRAP, w);
    DigestIdentifies(BOOTSTRAP, v, if version1 then ENROLLMENT_V1 else ENROLLMENT_V2, w);
  }

  const PRIMARY_NAMES := ["reference", "authorization"]

  lemma PrimaryNames()
    ensures R.Names(PRIMARY_NAMES)
  {
    PrimaryKeysDiffer();
  }

  lemma PrimaryIsRecord(r: Text, v: Value)
    requires R.Names(PRIMARY_NAMES)
    ensures PrimaryRecord(r, v) == Obj(R.Record(PRIMARY_NAMES, [Str(r), v]))
  {}

  lemma PrimarySame(vs: seq<Value>, ws: seq<Value>)
    requires |vs| == |ws| == 2 && R.Names(PRIMARY_NAMES)
    ensures Meaning(Obj(R.Record(PRIMARY_NAMES, vs))) == Meaning(Obj(R.Record(PRIMARY_NAMES, ws)))
       <==> R.SameField(vs[0], ws[0]) && R.SameField(vs[1], ws[1])
  {
    R.RecordsCompareByField(PRIMARY_NAMES, vs, ws);
  }

  lemma PrimaryFields(r: Text, v: Value, q: Text, w: Value)
    requires !v.Undefined? && !w.Undefined?
    ensures Meaning(PrimaryRecord(r, v)) == Meaning(PrimaryRecord(q, w)) <==> r == q && Meaning(v) == Meaning(w)
  {
    PrimaryNames();
    PrimaryIsRecord(r, v);
    PrimaryIsRecord(q, w);
    PrimarySame([Str(r), v], [Str(q), w]);
    SameStrings(r, q);
  }

  lemma SameStrings(r: Text, q: Text)
    ensures R.SameField(Str(r), Str(q)) <==> r == q
  {}

  lemma PrimaryKeysDiffer()
    ensures Ascii("reference") != Ascii("authorization")
  {
    assert |Ascii("reference")| == 9 && |Ascii("authorization")| == 13;
  }

  /** The digest of a proof names both the reference and the authorization it stood for. */
  lemma PrimaryIdentifies(r: Text, v: Value, q: Text, w: Value)
    requires Plain(v) && Plain(w) && Proper(v) && Proper(w)
    ensures PrimaryDigest(r, v) == PrimaryDigest(q, w) <==> r == q && Meaning(v) == Meaning(w)
  {
    Names();
    PrimaryKeysDiffer();
    DigestIdentifies(PRIMARY_REAUTH, PrimaryRecord(r, v), PRIMARY_REAUTH, PrimaryRecord(q, w));
    PrimaryFields(r, v, q, w);
  }
}
