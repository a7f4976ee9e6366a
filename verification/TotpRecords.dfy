/** Factors, recovery sets and principals, and what their digests identify. */
module TotpRecords {
  import opened Wrappers
  import opened Utf16
  import opened Canonical
  import opened RetirementMaterial

  datatype Factor = Factor(userId: Text, handle: Text, encryptedSecret: Text, iv: Text, authTag: Text, salt: Text,
                           createdAt: Text, backupCodesGenerated: bool, version: int,
                           lastUsedAt: Option<Text>, lastUsedTotpStep: Option<nat>)

  datatype BackupCode = BackupCode(id: Text, hash: Text, used: bool, usedAt: Option<Text>)

  datatype BackupCodeSet = BackupCodeSet(userId: Text, codes: seq<BackupCode>, generatedAt: Text, lastUsedAt: Option<Text>)

  const GENERATION_NAMES: seq<string> :=
    ["userId", "handle", "encryptedSecret", "iv", "authTag", "salt", "createdAt", "backupCodesGenerated", "version"]

  const SNAPSHOT_NAMES: seq<string> := GENERATION_NAMES + ["lastUsedAt", "lastUsedTotpStep"]

  const CODE_NAMES: seq<string> := ["id", "hash", "used", "usedAt"]

  const CODE_SET_NAMES: seq<string> := ["userId", "codes", "generatedAt", "lastUsedAt"]

  function OptionalText(o: Option<Text>): Value { if o.None? then Undefined else Str(o.value) }

  function OptionalNum(o: Option<nat>): Value { if o.None? then Undefined else Num(o.value) }

  function GenerationValues(f: Factor): (vs: seq<Value>)
    ensures |vs| == 9 && forall i :: 0 <= i < 9 ==> Flat(vs[i])
  {
    [Str(f.userId), Str(f.handle), Str(f.encryptedSecret), Str(f.iv), Str(f.authTag), Str(f.salt),
     Str(f.createdAt), Bool(f.backupCodesGenerated), Num(f.version)]
  }

  function SnapshotValues(f: Factor): (vs: seq<Value>)
    ensures |vs| == 11 && forall i :: 0 <= i < 11 ==> Flat(vs[i])
  {
    GenerationValues(f) + [OptionalText(f.lastUsedAt), OptionalNum(f.lastUsedTotpStep)]
  }

  /** Names of different length or first letter are different keys. */
  lemma NamesDiffer(names: seq<string>)
    requires forall i :: 0 <= i < |names| ==> names[i] != "" && forall j :: 0 <= j < |names[i]| ==> names[i][j] as int < 128
    requires forall i, j :: 0 <= i < j < |names| ==> |names[i]| != |names[j]| || names[i][0] != names[j][0]
    ensures Names(names)
  {
    forall i, j | 0 <= i < j < |names| ensures Ascii(names[i]) != Ascii(names[j]) {
      assert Ascii(names[i])[0] == names[i][0] as int && Ascii(names[j])[0] == names[j][0] as int;
    }
  }

  lemma GenerationNames()
    ensures Names(GENERATION_NAMES)
  {
    NamesDiffer(GENERATION_NAMES);
  }

  lemma SnapshotNames()
    ensures Names(SNAPSHOT_NAMES)
  {
    NamesDiffer(SNAPSHOT_NAMES);
  }

  lemma CodeNames()
    ensures Names(CODE_NAMES)
  {
    NamesDiffer(CODE_NAMES);
  }

  lemma CodeSetNames()
    ensures Names(CODE_SET_NAMES)
  {
    NamesDiffer(CODE_SET_NAMES);
  }

  function GenerationOf(f: Factor): Value
  {
    GenerationNames();
    Obj(Record(GENERATION_NAMES, GenerationValues(f)))
  }

  function SnapshotOf(f: Factor): Value
  {
    SnapshotNames();
    Obj(Record(SNAPSHOT_NAMES, SnapshotValues(f)))
  }

  function CodeValues(c: BackupCode): (vs: seq<Value>)
    ensures |vs| == 4 && forall i :: 0 <= i < 4 ==> Flat(vs[i])
  {
    [Str(c.id), Str(c.hash), Bool(c.used), OptionalText(c.usedAt)]
  }

  function CodeOf(c: BackupCode): Value
  {
    CodeNames();
    Obj(Record(CODE_NAMES, CodeValues(c)))
  }

  function CodesOf(codes: seq<BackupCode>): seq<Value>
  {
    seq(|codes|, i requires 0 <= i < |codes| => CodeOf(codes[i]))
  }

  function CodeSetValues(s: BackupCodeSet): (vs: seq<Value>)
    ensures |vs| == 4
  {
    [Str(s.userId), Arr(CodesOf(s.codes)), Str(s.generatedAt), OptionalText(s.lastUsedAt)]
  }

  function CodeSetOf(s: BackupCodeSet): Value
  {
    CodeSetNames();
    Obj(Record(CODE_SET_NAMES, CodeSetValues(s)))
  }

  lemma FactorEncodes(f: Factor)
    ensures Encodable(GenerationOf(f)) && Encodable(SnapshotOf(f))
  {
    GenerationNames();
    SnapshotNames();
    FlatRecordEncodes(GENERATION_NAMES, GenerationValues(f));
    FlatRecordEncodes(SNAPSHOT_NAMES, SnapshotValues(f));
  }

  lemma CodeEncodes(c: BackupCode)
    ensures Encodable(CodeOf(c))
  {
    CodeNames();
    FlatRecordEncodes(CODE_NAMES, CodeValues(c));
  }

  lemma {:induction false} ItemsEncode(items: seq<Value>)
    requires forall i :: 0 <= i < |items| ==> Encodable(items[i])
    ensures EncodedItems(items).Ok?
  {
    if items != [] { ItemsEncode(items[1..]); }
  }

  lemma CodesEncode(codes: seq<BackupCode>)
    ensures Encodable(Arr(CodesOf(codes)))
  {
    forall i | 0 <= i < |codes| ensures Encodable(CodesOf(codes)[i]) { CodeEncodes(codes[i]); }
    ItemsEncode(CodesOf(codes));
  }

  lemma CodeSetValueEncodes(s: BackupCodeSet, i: nat)
    requires i < 4
    ensures CodeSetValues(s)[i].Undefined? || Encodable(CodeSetValues(s)[i])
  {
    if i == 1 { CodesEncode(s.codes); }
  }

  lemma CodeSetEncodes(s: BackupCodeSet)
    ensures Encodable(CodeSetOf(s))
  {
    forall i | 0 <= i < 4 ensures CodeSetValues(s)[i].Undefined? || Encodable(CodeSetValues(s)[i]) {
      CodeSetValueEncodes(s, i);
    }
    CodeSetNames();
    RecordEncodes(CODE_SET_NAMES, CodeSetValues(s));
  }

  // --- the digests ------------------------------------------------------------------

  const GENERATION_DOMAIN := Ascii("factor-generation")
  const SNAPSHOT_DOMAIN := Ascii("factor-snapshot")
  const RECOVERY_DOMAIN := Ascii("recovery-set")

  function FactorGeneration(f: Factor): Digest
  {
    FactorEncodes(f);
    MaterialDigest(GENERATION_DOMAIN, GenerationOf(f)).value
  }

  function FactorSnapshot(f: Factor): Digest
  {
    FactorEncodes(f);
    MaterialDigest(SNAPSHOT_DOMAIN, SnapshotOf(f)).value
  }

  function RecoverySet(s: Option<BackupCodeSet>): Option<Digest>
  {
    if s.None? then None
    else
      CodeSetEncodes(s.value);
      Some(MaterialDigest(RECOVERY_DOMAIN, CodeSetOf(s.value)).value)
  }

  lemma Domains()
    ensures DomainName(GENERATION_DOMAIN) && DomainName(SNAPSHOT_DOMAIN) && DomainName(RECOVERY_DOMAIN)
  {
    GenerationDomain();
    SnapshotDomain();
    RecoveryDomain();
  }

  lemma GenerationDomain()
    ensures DomainName(GENERATION_DOMAIN)
  {
    AsciiDomain("factor-generation");
  }

  lemma SnapshotDomain()
    ensures DomainName(SNAPSHOT_DOMAIN)
  {
    AsciiDomain("factor-snapshot");
  }

  lemma RecoveryDomain()
    ensures DomainName(RECOVERY_DOMAIN)
  {
    AsciiDomain("recovery-set");
  }

  /** The usage counters, the only part of a factor its generation leaves out. */
  function WithoutUsage(f: Factor): Factor { f.(lastUsedAt := None, lastUsedTotpStep := None) }

  lemma ValuesIdentifyFactor(f: Factor, g: Factor)
    ensures GenerationValues(f) == GenerationValues(g) <==> WithoutUsage(f) == WithoutUsage(g)
    ensures SnapshotValues(f) == SnapshotValues(g) <==> f == g
  {
    var a, b := GenerationValues(f), GenerationValues(g);
    var c, d := SnapshotValues(f), SnapshotValues(g);
    assert a == b <==> a[0] == b[0] && a[1] == b[1] && a[2] == b[2] && a[3] == b[3] && a[4] == b[4] && a[5] == b[5] &&
                       a[6] == b[6] && a[7] == b[7] && a[8] == b[8];
    assert c == d <==> a == b && c[9] == d[9] && c[10] == d[10] by {
      assert c[..9] == a && d[..9] == b;
    }
  }

  /** One generation digest, one factor up to its usage counters. */
  lemma GenerationIdentifies(f: Factor, g: Factor)
    ensures FactorGeneration(f) == FactorGeneration(g) <==> WithoutUsage(f) == WithoutUsage(g)
  {
    FactorEncodes(f); FactorEncodes(g);
    Domains();
    GenerationNames();
    DigestIdentifies(GENERATION_DOMAIN, GenerationOf(f), GENERATION_DOMAIN, GenerationOf(g));
    FlatRecordsIdentify(GENERATION_NAMES, GenerationValues(f), GenerationValues(g));
    ValuesIdentifyFactor(f, g);
  }

  /** One snapshot digest, one factor, counters included. */
  lemma SnapshotIdentifies(f: Factor, g: Factor)
    ensures FactorSnapshot(f) == FactorSnapshot(g) <==> f == g
  {
    FactorEncodes(f); FactorEncodes(g);
    Domains();
    SnapshotNames();
    DigestIdentifies(SNAPSHOT_DOMAIN, SnapshotOf(f), SNAPSHOT_DOMAIN, SnapshotOf(g));
    FlatRecordsIdentify(SNAPSHOT_NAMES, SnapshotValues(f), SnapshotValues(g));
    ValuesIdentifyFactor(f, g);
  }

  lemma CodeIdentifies(c: BackupCode, d: BackupCode)
    ensures Meaning(CodeOf(c)) == Meaning(CodeOf(d)) <==> c == d
  {
    CodeNames();
    FlatRecordsIdentify(CODE_NAMES, CodeValues(c), CodeValues(d));
    var a, b := CodeValues(c), CodeValues(d);
    assert a == b ==> a[0] == b[0] && a[1] == b[1] && a[2] == b[2] && a[3] == b[3];
  }

  lemma CodesIdentify(c: seq<BackupCode>, d: seq<BackupCode>)
    ensures Meaning(Arr(CodesOf(c))) == Meaning(Arr(CodesOf(d))) <==> c == d
  {
    var a, b := Meaning(Arr(CodesOf(c))), Meaning(Arr(CodesOf(d)));
    if a == b {
      assert |c| == |a.items| == |b.items| == |d|;
      forall i | 0 <= i < |c| ensures c[i] == d[i] {
        assert a.items[i] == Meaning(CodeOf(c[i])) && b.items[i] == Meaning(CodeOf(d[i]));
        CodeIdentifies(c[i], d[i]);
      }
    }
  }

  lemma CodeSetValueIsFaithful(x: BackupCodeSet, y: BackupCodeSet, i: nat)
    requires i < 4
    ensures SameField(CodeSetValues(x)[i], CodeSetValues(y)[i]) <==> CodeSetValues(x)[i] == CodeSetValues(y)[i]
  {
    if i == 1 { CodesIdentify(x.codes, y.codes); }
  }

  lemma ValuesIdentifyCodeSet(x: BackupCodeSet, y: BackupCodeSet)
    requires CodeSetValues(x) == CodeSetValues(y)
    ensures x == y
  {
    var a, b := CodeSetValues(x), CodeSetValues(y);
    assert a[0] == b[0] && a[1] == b[1] && a[2] == b[2] && a[3] == b[3];
    CodesIdentify(x.codes, y.codes);
  }

  lemma CodeSetIdentifies(x: BackupCodeSet, y: BackupCodeSet)
    ensures Meaning(CodeSetOf(x)) == Meaning(CodeSetOf(y)) <==> x == y
  {
    forall i | 0 <= i < 4
      ensures SameField(CodeSetValues(x)[i], CodeSetValues(y)[i]) <==> CodeSetValues(x)[i] == CodeSetValues(y)[i]
    {
      CodeSetValueIsFaithful(x, y, i);
    }
    CodeSetNames();
    RecordsIdentify(CODE_SET_NAMES, CodeSetValues(x), CodeSetValues(y));
    if CodeSetValues(x) == CodeSetValues(y) { ValuesIdentifyCodeSet(x, y); }
  }

  /** One recovery-set digest, one set of codes with all its use marks; absence has none. */
  lemma RecoverySetIdentifies(s: Option<BackupCodeSet>, t: Option<BackupCodeSet>)
    ensures RecoverySet(s) == RecoverySet(t) <==> s == t
  {
    if s.Some? && t.Some? {
      CodeSetEncodes(s.value); CodeSetEncodes(t.value);
      Domains();
      DigestIdentifies(RECOVERY_DOMAIN, CodeSetOf(s.value), RECOVERY_DOMAIN, CodeSetOf(t.value));
      CodeSetIdentifies(s.value, t.value);
    }
  }

  // --- the recovery set's own check ------------------------------------------------------

  ghost predicate CodesDistinct(codes: seq<BackupCode>)
  {
    |codes| <= 256 && forall i, j :: 0 <= i < j < |codes| ==> codes[i].id != codes[j].id && codes[i].hash != codes[j].hash
  }

  /** `assertRetirementBackupCodes`, filling its two sets in one pass. */
  method AssertCodes(codes: seq<BackupCode>) returns (ok: bool)
    ensures ok <==> CodesDistinct(codes)
  {
    if |codes| > 256 { return false; }
    var ids: set<Text> := {};
    var hashes: set<Text> := {};
    for n := 0 to |codes|
      invariant ids == set i | 0 <= i < n :: codes[i].id
      invariant hashes == set i | 0 <= i < n :: codes[i].hash
      invariant forall i, j :: 0 <= i < j < n ==> codes[i].id != codes[j].id && codes[i].hash != codes[j].hash
    {
      if codes[n].id in ids || codes[n].hash in hashes { return false; }
      ids, hashes := ids + {codes[n].id}, hashes + {codes[n].hash};
    }
    return true;
  }
}
