/** The one text: numerals, escapes and key order are those JSON.stringify and sort give, so the
    encoder writes the canonical text and not only some text that parses back. */
module CanonicalForm {
  import opened Wrappers
  import opened Utf16
  import opened Canonical
  import I = CanonicalInjective

  // --- numerals ------------------------------------------------------------------------------

  /** The number a run of digits stands for, most significant first. */
  function ValueOf(t: Text): int
  {
    if t == [] then 0 else 10 * ValueOf(t[..|t| - 1]) + t[|t| - 1] - 0x30
  }

  /** Digits without a leading zero, except zero itself. */
  ghost predicate Natural(t: Text)
  {
    t != [] && (forall i :: 0 <= i < |t| ==> 0x30 <= t[i] <= 0x39) && (t[0] == 0x30 ==> |t| == 1)
  }

  /** A minus sign only before something that is not zero. */
  ghost predicate Numeral(t: Text, n: int)
  {
    if n < 0 then t != [] && t[0] == 0x2D && Natural(t[1..]) && ValueOf(t[1..]) == -n
    else Natural(t) && ValueOf(t) == n
  }

  lemma {:induction false} DigitsAreNatural(n: nat)
    ensures Natural(Digits(n)) && ValueOf(Digits(n)) == n && (n > 0 ==> Digits(n)[0] != 0x30)
    decreases n
  {
    if n >= 10 {
      DigitsAreNatural(n / 10);
      var t := Digits(n);
      assert t[..|t| - 1] == Digits(n / 10) && t[0] == Digits(n / 10)[0];
    } else {
      assert Digits(n)[..0] == [];
    }
  }

  /** A number's text is its numeral: its own value, no leading zero, no sign but a needed one. */
  lemma DecimalIsNumeral(n: int)
    ensures Encoded(Num(n)) == Ok(Decimal(n)) && Numeral(Decimal(n), n)
  {
    DigitsAreNatural(if n < 0 then -n else n);
    if n < 0 { assert Decimal(n)[1..] == Digits(-n); }
  }

  lemma {:induction false} ValueBounds(t: Text)
    requires forall i :: 0 <= i < |t| ==> 0x30 <= t[i] <= 0x39
    ensures ValueOf(t) >= 0 && (t != [] && t[0] != 0x30 ==> ValueOf(t) > 0)
    decreases |t|
  {
    if t != [] {
      ValueBounds(t[..|t| - 1]);
      if |t| > 1 { assert t[..|t| - 1][0] == t[0]; }
    }
  }

  lemma {:induction false} NaturalsDiffer(t: Text, u: Text)
    requires Natural(t) && Natural(u) && ValueOf(t) == ValueOf(u)
    ensures t == u
    decreases |t|
  {
    var a, b := t[..|t| - 1], u[..|u| - 1];
    ValueBounds(a);
    ValueBounds(b);
    assert t == a + [t[|t| - 1]] && u == b + [u[|u| - 1]];
    assert ValueOf(a) == ValueOf(b) && t[|t| - 1] == u[|u| - 1];
    if a != [] { assert a[0] == t[0]; }
    if b != [] { assert b[0] == u[0]; }
    if a != [] && b != [] { NaturalsDiffer(a, b); }
  }

  /** There is one numeral for each number. */
  lemma NumeralIsUnique(t: Text, u: Text, n: int)
    requires Numeral(t, n) && Numeral(u, n)
    ensures t == u
  {
    if n < 0 {
      NaturalsDiffer(t[1..], u[1..]);
      assert t == [t[0]] + t[1..] && u == [u[0]] + u[1..];
    } else {
      NaturalsDiffer(t, u);
    }
  }

  // --- escapes ----------------------------------------------------------------------------------

  /** Quote and backslash behind a backslash, five controls by their letter, all other controls
      and lone surrogates by four lower-case hexadecimal digits, everything else as it is. */
  lemma EscapesAreStandard(u: Unit)
    ensures EscapeUnit(0x22) == Ascii("\\\"") && EscapeUnit(0x5C) == Ascii("\\\\")
    ensures EscapeUnit(0x08) == Ascii("\\b") && EscapeUnit(0x0C) == Ascii("\\f")
    ensures EscapeUnit(0x0A) == Ascii("\\n") && EscapeUnit(0x0D) == Ascii("\\r") && EscapeUnit(0x09) == Ascii("\\t")
    ensures u < 0x20 && u !in {0x08, 0x09, 0x0A, 0x0C, 0x0D} ==> EscapeUnit(u) == UnicodeEscape(u)
    ensures 0xD800 <= u < 0xE000 ==> EscapeUnit(u) == UnicodeEscape(u)
    ensures u >= 0x20 && u !in {0x22, 0x5C} && !(0xD800 <= u < 0xE000) ==> EscapeUnit(u) == [u]
  {}

  function Hex(u: Unit): int { if u <= 0x39 then u - 0x30 else u - 0x57 }

  ghost predicate LowerHex(u: Unit) { 0x30 <= u <= 0x39 || 0x61 <= u <= 0x66 }

  lemma HexDigitIsHex(d: int)
    requires 0 <= d < 16
    ensures LowerHex(HexDigit(d)) && Hex(HexDigit(d)) == d
  {}

  /** The long escape is a backslash, a small u and the four digits of the unit. */
  lemma LongEscapeIsHex(u: Unit)
    ensures var t := UnicodeEscape(u);
      && |t| == 6 && t[0] == 0x5C && t[1] == 0x75 && (forall i :: 2 <= i < 6 ==> LowerHex(t[i]))
      && 4096 * Hex(t[2]) + 256 * Hex(t[3]) + 16 * Hex(t[4]) + Hex(t[5]) == u
  {
    I.Nibbles(u);
    HexDigitIsHex(u / 4096);
    HexDigitIsHex(u / 256 % 16);
    HexDigitIsHex(u / 16 % 16);
    HexDigitIsHex(u % 16);
  }

  /** One unit, or one surrogate pair, which stays as it is. */
  lemma EscapePiece(u: Unit, v: Unit)
    ensures Escape([u]) == EscapeUnit(u)
    ensures HighSurrogate(u) && LowSurrogate(v) ==> Escape([u, v]) == [u, v]
  {
    assert [u][1..] == [] && [u, v][..2] == [u, v] && [u, v][2..] == [];
  }

  lemma SpreadsPair(a: Text, b: Text)
    requires StartsWithPair(a) && Escape(a[2..] + b) == Escape(a[2..]) + Escape(b)
    ensures Escape(a + b) == Escape(a) + Escape(b)
  {
    assert (a + b)[..2] == a[..2] && (a + b)[2..] == a[2..] + b;
    I.Associate(a[..2], Escape(a[2..]), Escape(b));
  }

  lemma SpreadsUnit(a: Text, b: Text)
    requires a != [] && !StartsWithPair(a) && !StartsWithPair(a + b) && Escape(a[1..] + b) == Escape(a[1..]) + Escape(b)
    ensures Escape(a + b) == Escape(a) + Escape(b)
  {
    assert (a + b)[0] == a[0] && (a + b)[1..] == a[1..] + b;
    I.Associate(EscapeUnit(a[0]), Escape(a[1..]), Escape(b));
  }

  /** A string's text is that of its pieces, wherever no pair is cut. */
  lemma {:induction false} EscapeSpreads(a: Text, b: Text)
    requires a == [] || b == [] || !(HighSurrogate(a[|a| - 1]) && LowSurrogate(b[0]))
    ensures Escape(a + b) == Escape(a) + Escape(b)
    decreases |a|
  {
    if a == [] {
      assert a + b == b;
    } else if StartsWithPair(a) {
      EscapeSpreads(a[2..], b);
      SpreadsPair(a, b);
    } else {
      EscapeSpreads(a[1..], b);
      SpreadsUnit(a, b);
    }
  }

  // --- key order ----------------------------------------------------------------------------------

  /** `a` ends where `b` goes on, or has the smaller unit at their first difference. */
  ghost predicate Before(a: Text, b: Text) { exists k: nat :: DiffersAt(a, b, k) }

  ghost predicate DiffersAt(a: Text, b: Text, k: nat)
  {
    k <= |a| && k < |b| && a[..k] == b[..k] && (k < |a| ==> a[k] < b[k])
  }

  lemma BeforeFirst(a: Text, b: Text)
    requires a != [] && b != []
    ensures Before(a, b) <==> a[0] < b[0] || (a[0] == b[0] && Before(a[1..], b[1..]))
  {
    if Before(a, b) {
      var k: nat :| DiffersAt(a, b, k);
      if k > 0 {
        assert a[0] == a[..k][0] == b[..k][0] == b[0];
        assert a[1..][..k - 1] == a[..k][1..] && b[1..][..k - 1] == b[..k][1..];
        assert DiffersAt(a[1..], b[1..], k - 1);
      }
    }
    if a[0] < b[0] { assert DiffersAt(a, b, 0); }
    if a[0] == b[0] && Before(a[1..], b[1..]) {
      var k: nat :| DiffersAt(a[1..], b[1..], k);
      assert a[..k + 1] == [a[0]] + a[1..][..k] && b[..k + 1] == [b[0]] + b[1..][..k];
      assert DiffersAt(a, b, k + 1);
    }
  }

  lemma {:induction false} LessIsBefore(a: Text, b: Text)
    ensures Less(a, b) <==> Before(a, b)
    decreases |a|
  {
    if a != [] && b != [] {
      BeforeFirst(a, b);
      LessIsBefore(a[1..], b[1..]);
    } else if b != [] {
      assert DiffersAt(a, b, 0);
    }
  }

  /** Every key comes before the next. */
  ghost predicate Ascending(pairs: seq<Pair>)
  {
    forall i :: 0 <= i < |pairs| - 1 ==> Before(pairs[i].key, pairs[i + 1].key)
  }

  lemma {:induction false} InsertAscends(p: Pair, sorted: seq<Pair>)
    requires Ascending(sorted) && forall q :: q in sorted ==> q.key != p.key
    ensures Ascending(Insert(p, sorted)) && multiset(Insert(p, sorted)) == multiset(sorted) + multiset{p}
    ensures Insert(p, sorted)[0] == p || (sorted != [] && Insert(p, sorted)[0] == sorted[0])
    decreases |sorted|
  {
    var t := Insert(p, sorted);
    if sorted == [] {
    } else if Less(p.key, sorted[0].key) {
      LessIsBefore(p.key, sorted[0].key);
      forall i | 0 <= i < |t| - 1 ensures Before(t[i].key, t[i + 1].key) { if i > 0 { assert t[i] == sorted[i - 1]; } }
    } else {
      var rest := sorted[1..];
      LessIsTotal(p.key, sorted[0].key);
      LessIsBefore(sorted[0].key, p.key);
      forall i | 0 <= i < |rest| - 1 ensures Before(rest[i].key, rest[i + 1].key) { assert Before(sorted[i + 1].key, sorted[i + 2].key); }
      InsertAscends(p, rest);
      assert sorted == [sorted[0]] + rest;
      if rest != [] { assert Before(sorted[0].key, sorted[0 + 1].key); }
      forall i | 0 <= i < |t| - 1 ensures Before(t[i].key, t[i + 1].key) {
        if i > 0 { assert t[i] == Insert(p, rest)[i - 1]; }
      }
    }
  }

  lemma {:induction false} SortAscends(pairs: seq<Pair>)
    requires forall i, j :: 0 <= i < j < |pairs| ==> pairs[i].key != pairs[j].key
    ensures Ascending(SortByKey(pairs)) && multiset(SortByKey(pairs)) == multiset(pairs)
    decreases |pairs|
  {
    if pairs != [] {
      var rest := pairs[1..];
      forall i, j | 0 <= i < j < |rest| ensures rest[i].key != rest[j].key { assert pairs[i + 1].key != pairs[j + 1].key; }
      SortAscends(rest);
      forall q | q in SortByKey(rest) ensures q.key != pairs[0].key {
        assert q in multiset(SortByKey(rest));
        var j :| 0 <= j < |rest| && rest[j] == q;
        assert pairs[0].key != pairs[j + 1].key;
      }
      InsertAscends(pairs[0], SortByKey(rest));
      assert pairs == [pairs[0]] + rest;
    }
  }

  /** An object's text has its fields, undefined ones left out, in the order of their keys. */
  lemma ObjectsAscend(fields: seq<Field>)
    requires Proper(Obj(fields)) && Encoded(Obj(fields)).Ok?
    ensures exists pairs ::
      && Encoded(Obj(fields)) == Ok([0x7B] + Join(Members(pairs)) + [0x7D])
      && Ascending(pairs) && EncodedFields(fields).Ok? && multiset(pairs) == multiset(EncodedFields(fields).value)
  {
    var pairs := EncodedFields(fields).value;
    I.PairsAreDistinct(fields);
    SortAscends(pairs);
  }
}
