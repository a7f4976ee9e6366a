/** The closed digests of factors, recovery sets and principals. */
module RetirementMaterial {
  import opened Wrappers
  import opened Utf16
  import opened Canonical
  import I = CanonicalInjective

  /** SHA-256 of a text's UTF-8 bytes, taken as free of collisions. */
  datatype Digest = Sha256(text: Text)

  const PREFIX := Ascii("tinyland-auth:totp-retirement:")
  const VERSION := Ascii(":v1") + [0]

  function DomainPrefix(domain: Text): Text { PREFIX + domain + VERSION }

  function MaterialDigest(domain: Text, v: Value): Result<Digest, ()>
  {
    var e := Encoded(v);
    if e.Err? then Err(()) else Ok(Sha256(Repaired(DomainPrefix(domain) + e.value)))
  }

  ghost predicate DomainName(d: Text)
  {
    WellFormed(d) && forall i :: 0 <= i < |d| ==> d[i] != 0
  }

  lemma AsciiDomain(s: string)
    requires forall i :: 0 <= i < |s| ==> 0 < s[i] as int < 128
    ensures DomainName(Ascii(s))
  {
    PlainIsWellFormed(Ascii(s));
  }

  lemma FirstNul(d: Text, e: Text, i: nat)
    requires DomainName(d) && i < |d + VERSION + e|
    ensures (d + VERSION + e)[i] == 0 ==> i >= |d| + 3
    ensures (d + VERSION + e)[|d| + 3] == 0
  {
    var t := d + VERSION + e;
    assert |VERSION| == 4 && VERSION[3] == 0 && VERSION[0] != 0 && VERSION[1] != 0 && VERSION[2] != 0;
    if i < |d| { assert t[i] == d[i]; }
    else if i < |d| + 4 { assert t[i] == VERSION[i - |d|]; }
  }

  lemma SameNul(d1: Text, e1: Text, d2: Text, e2: Text)
    requires DomainName(d1) && DomainName(d2) && d1 + VERSION + e1 == d2 + VERSION + e2
    ensures |d1| == |d2|
  {
    FirstNul(d1, e1, |d1| + 3);
    FirstNul(d2, e2, |d2| + 3);
    FirstNul(d1, e1, |d2| + 3);
    FirstNul(d2, e2, |d1| + 3);
  }

  lemma CancelFront(a: Text, b: Text, c: Text, d: Text)
    requires |a| == |b| && a + c == b + d
    ensures a == b && c == d
  {
    assert a == (a + c)[..|a|] && b == (b + d)[..|b|];
    assert c == (a + c)[|a|..] && d == (b + d)[|b|..];
  }

  /** The first NUL ends the domain, so equal preimages agree on domain and material. */
  lemma PrefixEndsAtNul(d1: Text, e1: Text, d2: Text, e2: Text)
    requires DomainName(d1) && DomainName(d2)
    requires DomainPrefix(d1) + e1 == DomainPrefix(d2) + e2
    ensures d1 == d2 && e1 == e2
  {
    I.Associate(PREFIX, d1, VERSION);
    I.Associate(PREFIX, d2, VERSION);
    I.Associate(PREFIX, d1 + VERSION, e1);
    I.Associate(PREFIX, d2 + VERSION, e2);
    CancelFront(PREFIX, PREFIX, d1 + VERSION + e1, d2 + VERSION + e2);
    SameNul(d1, e1, d2, e2);
    CancelFront(d1 + VERSION, d2 + VERSION, e1, e2);
    CancelFront(d1, d2, VERSION, VERSION);
  }

  lemma DigestText(domain: Text, v: Value)
    requires DomainName(domain) && Proper(v) && Encoded(v).Ok?
    ensures MaterialDigest(domain, v) == Ok(Sha256(DomainPrefix(domain) + Encoded(v).value))
  {
    I.EncodedIsWellFormed(v);
    PlainIsWellFormed(PREFIX);
    PlainIsWellFormed(VERSION);
    I.PlainConcat(PREFIX, domain, VERSION);
    WellFormedConcat(DomainPrefix(domain), Encoded(v).value);
    WellFormedNeedsNoRepair(DomainPrefix(domain) + Encoded(v).value);
  }

  /** A digest names its domain and its document, and nothing else. */
  lemma DigestIdentifies(d1: Text, v1: Value, d2: Text, v2: Value)
    requires DomainName(d1) && DomainName(d2) && Proper(v1) && Proper(v2) && Encoded(v1).Ok? && Encoded(v2).Ok?
    ensures MaterialDigest(d1, v1) == MaterialDigest(d2, v2) <==> d1 == d2 && Meaning(v1) == Meaning(v2)
  {
    DigestText(d1, v1);
    DigestText(d2, v2);
    I.EncodingIsInjective(v1, v2);
    if MaterialDigest(d1, v1) == MaterialDigest(d2, v2) {
      PrefixEndsAtNul(d1, Encoded(v1).value, d2, Encoded(v2).value);
    }
  }

  // --- records --------------------------------------------------------------------

  /** An object literal: the same names in the same order, whatever their values. */
  function Record(names: seq<string>, values: seq<Value>): seq<Field>
    requires Names(names) && |names| == |values|
  {
    seq(|names|, i requires 0 <= i < |names| => Field(Ascii(names[i]), values[i]))
  }

  predicate Names(names: seq<string>)
  {
    && (forall n :: n in names ==> forall i :: 0 <= i < |n| ==> n[i] as int < 128)
    && forall i, j :: 0 <= i < j < |names| ==> Ascii(names[i]) != Ascii(names[j])
  }

  ghost predicate Encodable(v: Value) { Proper(v) && Encoded(v).Ok? }

  /** Neither side is there, or both are and say the same. */
  ghost predicate SameField(v: Value, w: Value)
  {
    if v.Undefined? || w.Undefined? then v == w else Meaning(v) == Meaning(w)
  }

  lemma {:induction false} FieldAt(fields: seq<Field>, i: nat)
    requires DistinctKeys(fields) && i < |fields|
    ensures fields[i].key in FieldMeanings(fields) <==> !fields[i].value.Undefined?
    ensures !fields[i].value.Undefined? ==> FieldMeanings(fields)[fields[i].key] == Meaning(fields[i].value)
    decreases |fields|
  {
    if i > 0 { FieldAt(fields[1..], i - 1); }
    else { NotLater(fields[1..], fields[0].key); }
  }

  lemma {:induction false} NotLater(fields: seq<Field>, key: Text)
    requires forall i :: 0 <= i < |fields| ==> fields[i].key != key
    ensures key !in FieldMeanings(fields)
    decreases |fields|
  {
    if fields != [] { NotLater(fields[1..], key); }
  }

  lemma {:induction false} SameFieldsSameMap(a: seq<Field>, b: seq<Field>)
    requires |a| == |b| && forall i :: 0 <= i < |a| ==> a[i].key == b[i].key && SameField(a[i].value, b[i].value)
    ensures FieldMeanings(a) == FieldMeanings(b)
    decreases |a|
  {
    if a != [] { SameFieldsSameMap(a[1..], b[1..]); }
  }

  /** Two records with the same names are one document exactly when they agree field by field. */
  lemma RecordsCompareByField(names: seq<string>, vs: seq<Value>, ws: seq<Value>)
    requires Names(names) && |names| == |vs| == |ws|
    ensures FieldMeanings(Record(names, vs)) == FieldMeanings(Record(names, ws))
       <==> forall i :: 0 <= i < |names| ==> SameField(vs[i], ws[i])
  {
    var a, b := Record(names, vs), Record(names, ws);
    if FieldMeanings(a) == FieldMeanings(b) {
      forall i | 0 <= i < |names| ensures SameField(vs[i], ws[i]) {
        FieldAt(a, i);
        FieldAt(b, i);
        assert a[i].key == b[i].key && a[i].value == vs[i] && b[i].value == ws[i];
      }
    }
    if forall i :: 0 <= i < |names| ==> SameField(vs[i], ws[i]) {
      SameFieldsSameMap(a, b);
    }
  }

  lemma {:induction false} FieldsEncode(fields: seq<Field>)
    requires forall i :: 0 <= i < |fields| ==> fields[i].value.Undefined? || Encodable(fields[i].value)
    ensures EncodedFields(fields).Ok?
    decreases |fields|
  {
    if fields != [] { FieldsEncode(fields[1..]); }
  }

  lemma RecordEncodes(names: seq<string>, vs: seq<Value>)
    requires Names(names) && |names| == |vs|
    requires forall i :: 0 <= i < |vs| ==> vs[i].Undefined? || Encodable(vs[i])
    ensures Encodable(Obj(Record(names, vs)))
  {
    FieldsEncode(Record(names, vs));
  }

  /** A value that says exactly what it is, undefined included. */
  predicate Flat(v: Value) { v.Undefined? || v.Null? || v.Bool? || v.Num? || v.Str? }

  lemma FlatRecordEncodes(names: seq<string>, vs: seq<Value>)
    requires Names(names) && |names| == |vs| && forall i :: 0 <= i < |vs| ==> Flat(vs[i])
    ensures Encodable(Obj(Record(names, vs)))
  {
    forall i | 0 <= i < |vs| ensures vs[i].Undefined? || Encodable(vs[i]) {}
    RecordEncodes(names, vs);
  }

  /** A record whose fields are faithful identifies all of them. */
  lemma RecordsIdentify(names: seq<string>, vs: seq<Value>, ws: seq<Value>)
    requires Names(names) && |names| == |vs| == |ws|
    requires forall i :: 0 <= i < |names| ==> (SameField(vs[i], ws[i]) <==> vs[i] == ws[i])
    ensures Meaning(Obj(Record(names, vs))) == Meaning(Obj(Record(names, ws))) <==> vs == ws
  {
    RecordsCompareByField(names, vs, ws);
  }

  lemma FlatRecordsIdentify(names: seq<string>, vs: seq<Value>, ws: seq<Value>)
    requires Names(names) && |names| == |vs| == |ws|
    requires forall i :: 0 <= i < |names| ==> Flat(vs[i]) && Flat(ws[i])
    ensures Meaning(Obj(Record(names, vs))) == Meaning(Obj(Record(names, ws))) <==> vs == ws
  {
    forall i | 0 <= i < |names| ensures SameField(vs[i], ws[i]) <==> vs[i] == ws[i] {}
    RecordsIdentify(names, vs, ws);
  }
}
