/** The parser undoes the encoder, so equal encodings mean equal documents. */
module CanonicalInjective {
  import opened Wrappers
  import opened Utf16
  import opened Canonical

  // --- numbers -------------------------------------------------------------------

  ghost predicate NoDigit(rest: Text) { rest == [] || !IsDigit(rest[0]) }

  function Shifted(acc: nat, n: nat): nat
  {
    if n < 10 then 10 * acc + n else 10 * Shifted(acc, n / 10) + n % 10
  }

  lemma {:induction false} ShiftedZero(n: nat)
    ensures Shifted(0, n) == n
  {
    if n >= 10 { ShiftedZero(n / 10); }
  }

  lemma {:induction false} ReadDigits(acc: nat, n: nat, rest: Text)
    ensures ParseDigits(Digits(n) + rest, acc) == ParseDigits(rest, Shifted(acc, n))
    decreases n
  {
    if n < 10 {
      assert (Digits(n) + rest)[1..] == rest;
    } else {
      var last: Text := [0x30 + n % 10];
      assert Digits(n) + rest == Digits(n / 10) + (last + rest);
      ReadDigits(acc, n / 10, last + rest);
      assert (last + rest)[1..] == rest;
    }
  }

  lemma ReadDecimal(n: int, rest: Text)
    requires NoDigit(rest)
    ensures ParseValue(Decimal(n) + rest) == Read(DNum(n), rest)
  {
    if n < 0 {
      assert Decimal(n) + rest == [MINUS] + (Digits(-n) + rest);
      ReadNegative(-n, rest);
    } else {
      ReadPositive(n, rest);
    }
  }

  lemma ReadNegative(m: int, rest: Text)
    requires NoDigit(rest) && m > 0
    ensures ParseValue([MINUS] + (Digits(m) + rest)) == Read(DNum(-m), rest)
  {
    var t := [MINUS] + (Digits(m) + rest);
    ReadNatural(m, rest);
    assert t[1..] == Digits(m) + rest;
  }

  lemma ReadPositive(n: nat, rest: Text)
    requires NoDigit(rest)
    ensures ParseValue(Digits(n) + rest) == Read(DNum(n), rest)
  {
    ReadNatural(n, rest);
    assert (Digits(n) + rest)[0] == Digits(n)[0];
  }

  lemma ReadNatural(n: nat, rest: Text)
    requires NoDigit(rest)
    ensures ParseDigits(Digits(n) + rest, 0) == Read(n, rest)
  {
    ReadDigits(0, n, rest);
    ShiftedZero(n);
  }

  // --- strings ---------------------------------------------------------------------

  lemma Nibbles(u: Unit)
    ensures u == 4096 * (u / 4096) + 256 * (u / 256 % 16) + 16 * (u / 16 % 16) + u % 16
  {
    var low, mid := u / 16, u / 256;
    assert u == 16 * low + u % 16;
    assert mid == low / 16 && low == 16 * mid + low % 16;
    assert u / 4096 == mid / 16 && mid == 16 * (u / 4096) + mid % 16;
  }

  lemma HexDigitsRoundTrip(u: Unit)
    ensures LongEscape([HexDigit(u / 4096), HexDigit(u / 256 % 16), HexDigit(u / 16 % 16), HexDigit(u % 16)]) == Some(u)
  {
    Nibbles(u);
  }

  lemma ReadLong(u: Unit, rest: Text)
    ensures ParseString(UnicodeEscape(u) + rest) == Prepend(u, ParseString(rest))
  {
    var hex: Text := [HexDigit(u / 4096), HexDigit(u / 256 % 16), HexDigit(u / 16 % 16), HexDigit(u % 16)];
    var t := UnicodeEscape(u) + rest;
    HexDigitsRoundTrip(u);
    assert t == [BACKSLASH, 0x75] + hex + rest;
    assert t[2..6] == hex && t[6..] == rest && t[0] == BACKSLASH && t[1] == 0x75;
  }

  lemma ReadEscapedUnit(u: Unit, rest: Text)
    ensures ParseString(EscapeUnit(u) + rest) == Prepend(u, ParseString(rest))
  {
    if ShortEscape(u).None? && (u < 0x20 || Surrogate(u)) { ReadLong(u, rest); }
  }

  lemma Associate(a: Text, b: Text, c: Text)
    ensures (a + b) + c == a + (b + c)
  {}

  lemma {:induction false} ReadEscaped(s: Text, rest: Text)
    ensures ParseString(Escape(s) + ([QUOTE] + rest)) == Read(s, rest)
    decreases |s|
  {
    var close := [QUOTE] + rest;
    if s == [] {
      assert Escape(s) + close == close && close[1..] == rest;
    } else {
      var front := if StartsWithPair(s) then s[..2] else EscapeUnit(s[0]);
      var back := if StartsWithPair(s) then s[2..] else s[1..];
      Associate(front, Escape(back), close);
      ReadEscaped(back, rest);
      if StartsWithPair(s) {
        assert [s[0]] + ([s[1]] + back) == s;
      } else {
        ReadEscapedUnit(s[0], Escape(back) + close);
        assert [s[0]] + back == s;
      }
    }
  }

  lemma ReadQuoted(s: Text, rest: Text)
    ensures (Quoted(s) + rest)[0] == QUOTE && ParseString((Quoted(s) + rest)[1..]) == Read(s, rest)
  {
    assert (Quoted(s) + rest)[1..] == Escape(s) + ([QUOTE] + rest);
    ReadEscaped(s, rest);
  }

  // --- sorting -----------------------------------------------------------------------

  ghost predicate Increasing(pairs: seq<Pair>)
  {
    forall i, j :: 0 <= i < j < |pairs| ==> Less(pairs[i].key, pairs[j].key)
  }

  ghost predicate DistinctPairs(pairs: seq<Pair>)
  {
    forall i, j :: 0 <= i < j < |pairs| ==> pairs[i].key != pairs[j].key
  }

  lemma {:induction false} InsertKeeps(p: Pair, sorted: seq<Pair>)
    requires Increasing(sorted) && forall q :: q in sorted ==> q.key != p.key
    ensures Increasing(Insert(p, sorted))
    ensures forall q :: q in Insert(p, sorted) <==> q == p || q in sorted
    ensures |Insert(p, sorted)| == |sorted| + 1
  {
    if sorted == [] {
    } else if Less(p.key, sorted[0].key) {
      forall q | q in sorted ensures Less(p.key, q.key) {
        var i :| 0 <= i < |sorted| && sorted[i] == q;
        if i > 0 { LessIsTransitive(p.key, sorted[0].key, q.key); }
      }
    } else {
      LessIsTotal(p.key, sorted[0].key);
      assert sorted[0] in sorted;
      InsertKeeps(p, sorted[1..]);
      assert forall q :: q in sorted <==> q == sorted[0] || q in sorted[1..];
      var inner := Insert(p, sorted[1..]);
      forall i | 0 <= i < |inner| ensures Less(sorted[0].key, inner[i].key) { assert inner[i] in inner; }
    }
  }

  lemma {:induction false} SortKeeps(pairs: seq<Pair>)
    requires DistinctPairs(pairs)
    ensures Increasing(SortByKey(pairs)) && |SortByKey(pairs)| == |pairs|
    ensures forall q :: q in SortByKey(pairs) <==> q in pairs
  {
    if pairs != [] {
      SortKeeps(pairs[1..]);
      assert forall q :: q in pairs <==> q == pairs[0] || q in pairs[1..];
      InsertKeeps(pairs[0], SortByKey(pairs[1..]));
    }
  }

  /** One set of members has one sorted order. */
  lemma {:induction false} SortedOnce(a: seq<Pair>, b: seq<Pair>)
    requires Increasing(a) && Increasing(b) && forall q :: q in a <==> q in b
    ensures a == b
    decreases |a|
  {
    assert (a != [] ==> a[0] in a) && (b != [] ==> b[0] in b);
    if a != [] && b != [] {
      assert a[0] in b && b[0] in a;
      LessIsStrict(a[0].key, b[0].key);
      assert a[0] == b[0];
      forall q ensures q in a[1..] <==> q in b[1..] {
        LessIsStrict(a[0].key, a[0].key);
        assert q in a <==> q == a[0] || q in a[1..];
        assert q in b <==> q == b[0] || q in b[1..];
      }
      SortedOnce(a[1..], b[1..]);
      assert a == [a[0]] + a[1..] && b == [b[0]] + b[1..];
    }
  }

  // --- values -------------------------------------------------------------------------

  /** Whatever follows, the parser reads exactly `doc` off the front. */
  ghost predicate Reads(text: Text, doc: Doc)
  {
    forall rest: Text :: NoDigit(rest) ==> ParseValue(text + rest) == Read(doc, rest)
  }

  lemma ReadsStart(text: Text, doc: Doc)
    requires Reads(text, doc)
    ensures text != [] && text[0] != CLOSE_ARRAY
  {
    assert text + [] == text && ParseValue(text + []) == Read(doc, []);
  }

  lemma {:induction false} ReadItems(parts: seq<Text>, docs: seq<Doc>, rest: Text)
    requires |parts| == |docs| > 0 && forall i :: 0 <= i < |parts| ==> Reads(parts[i], docs[i])
    ensures ParseItems(Join(parts) + ([CLOSE_ARRAY] + rest)) == Read(docs, rest)
    decreases |parts|
  {
    var end := [CLOSE_ARRAY] + rest;
    assert Reads(parts[0], docs[0]);
    var t := Join(parts) + end;
    if |parts| == 1 {
      ReadLastItem(t, parts[0], docs, rest);
    } else {
      var tail := Join(parts[1..]) + end;
      ReadItems(parts[1..], docs[1..], rest);
      JoinSplit(parts, end);
      ReadItemThen(t, parts[0], tail, docs, rest);
    }
  }

  lemma ReadLastItem(t: Text, part: Text, docs: seq<Doc>, rest: Text)
    requires |docs| == 1 && Reads(part, docs[0]) && t == part + ([CLOSE_ARRAY] + rest)
    ensures ParseItems(t) == Read(docs, rest)
  {
    var end := [CLOSE_ARRAY] + rest;
    assert ParseValue(part + end) == Read(docs[0], end);
    assert end[1..] == rest && docs == [docs[0]];
  }

  lemma ReadItemThen(t: Text, part: Text, tail: Text, docs: seq<Doc>, rest: Text)
    requires docs != [] && Reads(part, docs[0]) && ParseItems(tail) == Read(docs[1..], rest) && t == part + ([COMMA] + tail)
    ensures ParseItems(t) == Read(docs, rest)
  {
    var after := [COMMA] + tail;
    assert ParseValue(part + after) == Read(docs[0], after);
    assert after[1..] == tail && docs == [docs[0]] + docs[1..];
  }

  ghost predicate MemberReads(p: Pair, docs: map<Text, Doc>)
  {
    p.key in docs && Reads(p.text, docs[p.key])
  }

  function KeysOf(pairs: seq<Pair>): set<Text> { set p | p in pairs :: p.key }

  function Restrict(docs: map<Text, Doc>, keys: set<Text>): map<Text, Doc>
  {
    map k | k in docs && k in keys :: docs[k]
  }

  lemma ReadMember(p: Pair, docs: map<Text, Doc>, after: Text)
    requires MemberReads(p, docs) && NoDigit(after)
    ensures var t := Member(p) + after; t[0] == QUOTE && ParseString(t[1..]) == Read(p.key, [COLON] + (p.text + after))
    ensures ParseValue(p.text + after) == Read(docs[p.key], after)
    ensures ([COLON] + (p.text + after))[1..] == p.text + after
  {
    ReadQuoted(p.key, [COLON] + (p.text + after));
    Associate(Quoted(p.key) + [COLON], p.text, after);
    Associate(Quoted(p.key), [COLON], p.text + after);
  }

  lemma JoinSplit(parts: seq<Text>, end: Text)
    requires |parts| > 1
    ensures Join(parts) + end == parts[0] + ([COMMA] + (Join(parts[1..]) + end))
  {
    Associate(parts[0], [COMMA], Join(parts[1..]));
    Associate(parts[0], [COMMA] + Join(parts[1..]), end);
    Associate([COMMA], Join(parts[1..]), end);
  }

  lemma ReadFirstField(p: Pair, docs: map<Text, Doc>, tail: Text)
    requires MemberReads(p, docs) && ParseFields(tail).Read?
    ensures ParseFields(Member(p) + ([COMMA] + tail)) ==
            Read(map[p.key := docs[p.key]] + ParseFields(tail).value, ParseFields(tail).rest)
  {
    var after := [COMMA] + tail;
    ReadMember(p, docs, after);
    assert after[1..] == tail;
  }

  lemma ReadLastField(p: Pair, docs: map<Text, Doc>, rest: Text)
    requires MemberReads(p, docs)
    ensures ParseFields(Member(p) + ([CLOSE_OBJECT] + rest)) == Read(map[p.key := docs[p.key]], rest)
  {
    var end := [CLOSE_OBJECT] + rest;
    ReadMember(p, docs, end);
    assert end[1..] == rest;
  }

  lemma FieldsText(pairs: seq<Pair>, end: Text)
    requires pairs != []
    ensures Join(Members(pairs)) + end ==
            Member(pairs[0]) + (if |pairs| == 1 then end else [COMMA] + (Join(Members(pairs[1..])) + end))
  {
    var parts := Members(pairs);
    assert parts[0] == Member(pairs[0]) && parts[1..] == Members(pairs[1..]);
    if |pairs| > 1 { JoinSplit(parts, end); }
  }

  ghost predicate AllRead(pairs: seq<Pair>, docs: map<Text, Doc>)
  {
    forall i :: 0 <= i < |pairs| ==> MemberReads(pairs[i], docs)
  }

  lemma {:induction false} ReadFields(pairs: seq<Pair>, docs: map<Text, Doc>, rest: Text)
    requires pairs != [] && AllRead(pairs, docs)
    ensures ParseFields(Join(Members(pairs)) + ([CLOSE_OBJECT] + rest)) == Read(Restrict(docs, KeysOf(pairs)), rest)
    decreases |pairs|
  {
    var end := [CLOSE_OBJECT] + rest;
    assert MemberReads(pairs[0], docs);
    RestrictSplit(pairs, docs);
    FieldsText(pairs, end);
    if |pairs| == 1 {
      ReadLastField(pairs[0], docs, rest);
      assert pairs[1..] == [] && KeysOf(pairs[1..]) == {} && Restrict(docs, {}) == map[];
      var first := map[pairs[0].key := docs[pairs[0].key]];
      assert first + map[] == first;
    } else {
      assert AllRead(pairs[1..], docs);
      ReadFields(pairs[1..], docs, rest);
      ReadFirstField(pairs[0], docs, Join(Members(pairs[1..])) + end);
    }
  }

  lemma RestrictSplit(pairs: seq<Pair>, docs: map<Text, Doc>)
    requires pairs != [] && pairs[0].key in docs
    ensures Restrict(docs, KeysOf(pairs)) == map[pairs[0].key := docs[pairs[0].key]] + Restrict(docs, KeysOf(pairs[1..]))
  {
    assert forall p :: p in pairs <==> p == pairs[0] || p in pairs[1..];
    assert KeysOf(pairs) == {pairs[0].key} + KeysOf(pairs[1..]);
  }

  // --- the encoder and its inverse --------------------------------------------------------

  lemma {:induction false} ItemAt(items: seq<Value>, i: nat)
    requires i < |items| && EncodedItems(items).Ok?
    ensures Encoded(items[i]).Ok? && EncodedItems(items).value[i] == Encoded(items[i]).value
  {
    if i > 0 { ItemAt(items[1..], i - 1); }
  }

  /** Which field a pair came from. */
  lemma {:induction false} FieldOf(fields: seq<Field>, p: Pair) returns (i: nat)
    requires DistinctKeys(fields) && EncodedFields(fields).Ok? && p in EncodedFields(fields).value
    ensures i < |fields| && fields[i].key == p.key && !fields[i].value.Undefined? && Encoded(fields[i].value) == Ok(p.text)
    ensures p.key in FieldMeanings(fields) && FieldMeanings(fields)[p.key] == Meaning(fields[i].value)
  {
    if !fields[0].value.Undefined? && p == Pair(fields[0].key, Encoded(fields[0].value).value) {
      i := 0;
    } else {
      var j := FieldOf(fields[1..], p);
      i := j + 1;
    }
  }

  lemma {:induction false} PairsAreDistinct(fields: seq<Field>)
    requires DistinctKeys(fields) && EncodedFields(fields).Ok?
    ensures DistinctPairs(EncodedFields(fields).value)
    ensures KeysOf(EncodedFields(fields).value) == FieldMeanings(fields).Keys
  {
    if fields != [] {
      PairsAreDistinct(fields[1..]);
      var rest := EncodedFields(fields[1..]).value;
      if !fields[0].value.Undefined? {
        var head := Pair(fields[0].key, Encoded(fields[0].value).value);
        assert EncodedFields(fields).value == [head] + rest;
        forall i | 0 <= i < |rest| ensures rest[i].key != head.key {
          var j := FieldOf(fields[1..], rest[i]);
          assert fields[j + 1].key == rest[i].key;
        }
        assert KeysOf([head] + rest) == {head.key} + KeysOf(rest);
      }
    }
  }

  lemma ReadWord(v: Value, rest: Text)
    requires v.Null? || v.Bool?
    ensures ParseValue(Encoded(v).value + rest) == Read(Meaning(v), rest)
  {
    var word := Encoded(v).value;
    var t := word + rest;
    assert t[0] == word[0] && t[|word|..] == rest && word <= t;
  }

  /** The parser undoes the encoder, whatever text follows. */
  lemma {:induction false} ParserUndoesEncoder(v: Value)
    requires Proper(v) && Encoded(v).Ok?
    ensures Reads(Encoded(v).value, Meaning(v))
    decreases v
  {
    forall rest: Text | NoDigit(rest) ensures ParseValue(Encoded(v).value + rest) == Read(Meaning(v), rest) {
      match v
      case Null => ReadWord(v, rest);
      case Bool(_) => ReadWord(v, rest);
      case Num(n) => ReadDecimal(n, rest);
      case Str(s) => ReadQuoted(s, rest);
      case Arr(items) => UndoArray(items, rest);
      case Obj(fields) => UndoObject(fields, rest);
    }
  }

  lemma {:induction false} UndoArray(items: seq<Value>, rest: Text)
    requires Proper(Arr(items)) && Encoded(Arr(items)).Ok?
    ensures ParseValue(Encoded(Arr(items)).value + rest) == Read(Meaning(Arr(items)), rest)
    decreases Arr(items), 0
  {
    var parts := EncodedItems(items).value;
    var docs := Meaning(Arr(items)).items;
    forall i | 0 <= i < |items| ensures Reads(parts[i], docs[i]) {
      ItemAt(items, i);
      ParserUndoesEncoder(items[i]);
    }
    Bracketed(OPEN_ARRAY, Join(parts), CLOSE_ARRAY, rest);
    ReadArray(parts, docs, rest);
  }

  lemma ReadArray(parts: seq<Text>, docs: seq<Doc>, rest: Text)
    requires |parts| == |docs| && forall i :: 0 <= i < |parts| ==> Reads(parts[i], docs[i])
    ensures ParseValue([OPEN_ARRAY] + (Join(parts) + ([CLOSE_ARRAY] + rest))) == Read(DArr(docs), rest)
  {
    var body := Join(parts) + ([CLOSE_ARRAY] + rest);
    if parts == [] {
      ReadEmptyArray(body, rest);
    } else {
      ReadsStart(parts[0], docs[0]);
      ReadItems(parts, docs, rest);
      assert body[0] == parts[0][0];
      ReadFilledArray(body, docs, rest);
    }
  }

  lemma ReadEmptyArray(body: Text, rest: Text)
    requires body == [CLOSE_ARRAY] + rest
    ensures ParseValue([OPEN_ARRAY] + body) == Read(DArr([]), rest)
  {
    assert ([OPEN_ARRAY] + body)[2..] == rest;
  }

  lemma ReadFilledArray(body: Text, docs: seq<Doc>, rest: Text)
    requires body != [] && body[0] != CLOSE_ARRAY && ParseItems(body) == Read(docs, rest)
    ensures ParseValue([OPEN_ARRAY] + body) == Read(DArr(docs), rest)
  {
    assert ([OPEN_ARRAY] + body)[1..] == body;
  }

  lemma {:induction false} UndoObject(fields: seq<Field>, rest: Text)
    requires Proper(Obj(fields)) && Encoded(Obj(fields)).Ok?
    ensures ParseValue(Encoded(Obj(fields)).value + rest) == Read(Meaning(Obj(fields)), rest)
    decreases Obj(fields), 0
  {
    var pairs := EncodedFields(fields).value;
    var sorted := SortByKey(pairs);
    var docs := FieldMeanings(fields);
    PairsAreDistinct(fields);
    SortKeeps(pairs);
    forall i | 0 <= i < |sorted| ensures MemberReads(sorted[i], docs) {
      assert sorted[i] in sorted;
      var f := FieldOf(fields, sorted[i]);
      ParserUndoesEncoder(fields[f].value);
    }
    assert KeysOf(sorted) == KeysOf(pairs) && Restrict(docs, KeysOf(sorted)) == docs;
    assert sorted == [] ==> docs == map[];
    ReadObject(sorted, docs, rest);
  }

  lemma Bracketed(open: Unit, inner: Text, close: Unit, rest: Text)
    ensures [open] + inner + [close] + rest == [open] + (inner + ([close] + rest))
    ensures ([open] + (inner + ([close] + rest)))[1..] == inner + ([close] + rest)
  {}

  lemma ReadObject(sorted: seq<Pair>, docs: map<Text, Doc>, rest: Text)
    requires AllRead(sorted, docs)
    requires Restrict(docs, KeysOf(sorted)) == docs && (sorted == [] ==> docs == map[])
    ensures ParseValue([OPEN_OBJECT] + Join(Members(sorted)) + [CLOSE_OBJECT] + rest) == Read(DObj(docs), rest)
  {
    var inner := Join(Members(sorted));
    var end := [CLOSE_OBJECT] + rest;
    Bracketed(OPEN_OBJECT, inner, CLOSE_OBJECT, rest);
    if sorted == [] {
      assert inner + end == end;
    } else {
      ReadFields(sorted, docs, rest);
      FieldsText(sorted, end);
      NonEmptyObject(inner + end);
    }
  }

  lemma NonEmptyObject(body: Text)
    requires ParseFields(body).Read?
    ensures ParseValue([OPEN_OBJECT] + body) == Read(DObj(ParseFields(body).value), ParseFields(body).rest)
  {
    var t := [OPEN_OBJECT] + body;
    assert t[0] == OPEN_OBJECT && t[1..] == body && t[1] == QUOTE;
  }

  // --- injectivity -----------------------------------------------------------------------------

  lemma SameItems(a: seq<Value>, b: seq<Value>)
    requires |a| == |b| && EncodedItems(a).Ok? && EncodedItems(b).Ok?
    requires forall i :: 0 <= i < |a| ==> Encoded(a[i]) == Encoded(b[i])
    ensures EncodedItems(a) == EncodedItems(b)
  {
    forall i | 0 <= i < |a| ensures EncodedItems(a).value[i] == EncodedItems(b).value[i] {
      ItemAt(a, i);
      ItemAt(b, i);
    }
  }

  /** Key order and undefined fields leave no mark on the text. */
  lemma {:induction false} SameDocumentSameText(a: Value, b: Value)
    requires Proper(a) && Proper(b) && Encoded(a).Ok? && Encoded(b).Ok? && Meaning(a) == Meaning(b)
    ensures Encoded(a) == Encoded(b)
    decreases a
  {
    match a
    case Arr(items) =>
      forall i | 0 <= i < |items| ensures Encoded(items[i]) == Encoded(b.items[i]) {
        ItemAt(items, i);
        ItemAt(b.items, i);
        assert Meaning(a).items[i] == Meaning(b).items[i];
        SameDocumentSameText(items[i], b.items[i]);
      }
      SameItems(items, b.items);
    case Obj(fields) =>
      SamePairs(fields, b.fields);
      SamePairs'(fields, b.fields);
      PairsAreDistinct(fields);
      PairsAreDistinct(b.fields);
      SortKeeps(EncodedFields(fields).value);
      SortKeeps(EncodedFields(b.fields).value);
      SortedOnce(SortByKey(EncodedFields(fields).value), SortByKey(EncodedFields(b.fields).value));
    case _ =>
  }

  lemma {:induction false} SamePairs(a: seq<Field>, b: seq<Field>)
    requires Proper(Obj(a)) && Proper(Obj(b)) && Encoded(Obj(a)).Ok? && Encoded(Obj(b)).Ok?
    requires FieldMeanings(a) == FieldMeanings(b)
    ensures forall p :: p in EncodedFields(a).value ==> p in EncodedFields(b).value
    decreases Obj(a), 0
  {
    PairsAreDistinct(b);
    forall p | p in EncodedFields(a).value ensures p in EncodedFields(b).value {
      var i := FieldOf(a, p);
      assert p.key in KeysOf(EncodedFields(b).value);
      var q :| q in EncodedFields(b).value && q.key == p.key;
      var j := FieldOf(b, q);
      SameDocumentSameText(a[i].value, b[j].value);
    }
  }

  lemma {:induction false} SamePairs'(a: seq<Field>, b: seq<Field>)
    requires Proper(Obj(a)) && Proper(Obj(b)) && Encoded(Obj(a)).Ok? && Encoded(Obj(b)).Ok?
    requires FieldMeanings(a) == FieldMeanings(b)
    ensures forall p :: p in EncodedFields(b).value ==> p in EncodedFields(a).value
    decreases Obj(a), 0
  {
    PairsAreDistinct(a);
    forall p | p in EncodedFields(b).value ensures p in EncodedFields(a).value {
      var j := FieldOf(b, p);
      assert p.key in KeysOf(EncodedFields(a).value);
      var q :| q in EncodedFields(a).value && q.key == p.key;
      var i := FieldOf(a, q);
      SameDocumentSameText(a[i].value, b[j].value);
    }
  }

  /** Two values have equal encodings exactly when they are the same document. */
  lemma EncodingIsInjective(a: Value, b: Value)
    requires Proper(a) && Proper(b) && Encoded(a).Ok? && Encoded(b).Ok?
    ensures Encoded(a) == Encoded(b) <==> Meaning(a) == Meaning(b)
  {
    if Encoded(a) == Encoded(b) {
      ParserUndoesEncoder(a);
      ParserUndoesEncoder(b);
      assert ParseValue(Encoded(a).value + []) == Read(Meaning(a), []);
      assert ParseValue(Encoded(b).value + []) == Read(Meaning(b), []);
    }
    if Meaning(a) == Meaning(b) { SameDocumentSameText(a, b); }
  }

  // --- the output survives conversion to UTF-8 ----------------------------------------------------

  lemma PlainConcat(a: Text, b: Text, c: Text)
    requires WellFormed(a) && WellFormed(b) && WellFormed(c)
    ensures WellFormed(a + b + c)
  {
    WellFormedConcat(a, b);
    WellFormedConcat(a + b, c);
  }

  lemma {:induction false} EscapeIsWellFormed(s: Text)
    ensures WellFormed(Escape(s))
    decreases |s|
  {
    if s == [] {
    } else if StartsWithPair(s) {
      EscapeIsWellFormed(s[2..]);
      assert s[..2][2..] == [];
      WellFormedConcat(s[..2], Escape(s[2..]));
    } else {
      EscapeIsWellFormed(s[1..]);
      PlainIsWellFormed(EscapeUnit(s[0]));
      WellFormedConcat(EscapeUnit(s[0]), Escape(s[1..]));
    }
  }

  lemma QuotedIsWellFormed(s: Text)
    ensures WellFormed(Quoted(s))
  {
    EscapeIsWellFormed(s);
    PlainIsWellFormed([QUOTE]);
    PlainConcat([QUOTE], Escape(s), [QUOTE]);
  }

  lemma {:induction false} JoinIsWellFormed(parts: seq<Text>)
    requires forall i :: 0 <= i < |parts| ==> WellFormed(parts[i])
    ensures WellFormed(Join(parts))
  {
    if |parts| > 1 {
      JoinIsWellFormed(parts[1..]);
      PlainIsWellFormed([COMMA]);
      PlainConcat(parts[0], [COMMA], Join(parts[1..]));
    }
  }

  /** Nothing the encoder emits is altered by conversion to UTF-8. */
  lemma {:induction false} EncodedIsWellFormed(v: Value)
    requires Proper(v) && Encoded(v).Ok?
    ensures WellFormed(Encoded(v).value)
    decreases v
  {
    match v
    case Str(s) => QuotedIsWellFormed(s);
    case Arr(items) =>
      var parts := EncodedItems(items).value;
      forall i | 0 <= i < |parts| ensures WellFormed(parts[i]) {
        ItemAt(items, i);
        EncodedIsWellFormed(items[i]);
      }
      JoinIsWellFormed(parts);
      PlainConcat([OPEN_ARRAY], Join(parts), [CLOSE_ARRAY]);
    case Obj(fields) =>
      var sorted := SortByKey(EncodedFields(fields).value);
      PairsAreDistinct(fields);
      SortKeeps(EncodedFields(fields).value);
      forall i | 0 <= i < |sorted| ensures WellFormed(Members(sorted)[i]) {
        var p := sorted[i];
        assert p in sorted;
        var f := FieldOf(fields, p);
        EncodedIsWellFormed(fields[f].value);
        QuotedIsWellFormed(p.key);
        PlainConcat(Quoted(p.key), [COLON], p.text);
      }
      JoinIsWellFormed(Members(sorted));
      PlainConcat([OPEN_OBJECT], Join(Members(sorted)), [CLOSE_OBJECT]);
    case Null => PlainIsWellFormed(NULL);
    case Bool(b) => PlainIsWellFormed(if b then TRUE else FALSE);
    case Num(n) => PlainIsWellFormed(Decimal(n));
    case _ =>
  }

  // --- the enrollment and bootstrap encoder -----------------------------------------------------------

  /** On plain data the laxer encoder of the enrollment and bootstrap journals writes
      the same text, so it identifies documents just as well there. */
  lemma {:induction false} EncodersAgreeOnPlainData(v: Value)
    requires Plain(v)
    ensures Encoded(v) == Ok(Lax(v))
    decreases v
  {
    match v
    case Arr(items) => ItemsAgree(items);
    case Obj(fields) => FieldsAgree(fields);
    case _ =>
  }

  lemma {:induction false} ItemsAgree(items: seq<Value>)
    requires forall i :: 0 <= i < |items| ==> Plain(items[i])
    ensures EncodedItems(items) == Ok(LaxItems(items))
    decreases items
  {
    if items != [] {
      EncodersAgreeOnPlainData(items[0]);
      ItemsAgree(items[1..]);
    }
  }

  lemma {:induction false} FieldsAgree(fields: seq<Field>)
    requires forall i :: 0 <= i < |fields| ==> Plain(fields[i].value)
    ensures EncodedFields(fields) == Ok(LaxFields(fields))
    decreases fields
  {
    if fields != [] {
      EncodersAgreeOnPlainData(fields[0].value);
      FieldsAgree(fields[1..]);
    }
  }

  /** On what JSON.parse can return, the laxer text stands for one document too. */
  lemma LaxIsInjective(a: Value, b: Value)
    requires Plain(a) && Plain(b) && Proper(a) && Proper(b)
    ensures Lax(a) == Lax(b) <==> Meaning(a) == Meaning(b)
  {
    EncodersAgreeOnPlainData(a);
    EncodersAgreeOnPlainData(b);
    EncodingIsInjective(a, b);
  }

  lemma LaxIsWellFormed(v: Value)
    requires Plain(v) && Proper(v)
    ensures WellFormed(Lax(v))
  {
    EncodersAgreeOnPlainData(v);
    EncodedIsWellFormed(v);
  }
}
