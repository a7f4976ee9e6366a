/** JavaScript strings: sequences of UTF-16 code units, compared unit by unit. */
module Utf16 {
  type Unit = u: int | 0 <= u < 0x1_0000

  type Text = seq<Unit>

  predicate HighSurrogate(u: Unit) { 0xD800 <= u < 0xDC00 }

  predicate LowSurrogate(u: Unit) { 0xDC00 <= u < 0xE000 }

  predicate Surrogate(u: Unit) { HighSurrogate(u) || LowSurrogate(u) }

  predicate StartsWithPair(t: Text)
  {
    |t| >= 2 && HighSurrogate(t[0]) && LowSurrogate(t[1])
  }

  /** No unpaired surrogate: the texts UTF-8 represents without replacement. */
  predicate WellFormed(t: Text)
    decreases |t|
  {
    t == [] ||
    if StartsWithPair(t) then WellFormed(t[2..]) else !Surrogate(t[0]) && WellFormed(t[1..])
  }

  /** What conversion to UTF-8 sees: unpaired surrogates become U+FFFD. */
  function Repaired(t: Text): Text
    decreases |t|
  {
    if t == [] then []
    else if StartsWithPair(t) then t[..2] + Repaired(t[2..])
    else [if Surrogate(t[0]) then 0xFFFD else t[0]] + Repaired(t[1..])
  }

  lemma {:induction false} WellFormedNeedsNoRepair(t: Text)
    requires WellFormed(t)
    ensures Repaired(t) == t
    decreases |t|
  {
    if t != [] {
      if StartsWithPair(t) { WellFormedNeedsNoRepair(t[2..]); } else { WellFormedNeedsNoRepair(t[1..]); }
    }
  }

  lemma {:induction false} WellFormedConcat(a: Text, b: Text)
    requires WellFormed(a) && WellFormed(b)
    ensures WellFormed(a + b)
    decreases |a|
  {
    if a == [] { assert a + b == b; }
    else if StartsWithPair(a) {
      assert (a + b)[2..] == a[2..] + b;
      WellFormedConcat(a[2..], b);
    } else {
      assert (a + b)[1..] == a[1..] + b;
      WellFormedConcat(a[1..], b);
    }
  }

  /** The `<` of two strings, which is also the order of `Array.prototype.sort`. */
  predicate Less(a: Text, b: Text)
    decreases |a|
  {
    b != [] && (a == [] || a[0] < b[0] || (a[0] == b[0] && Less(a[1..], b[1..])))
  }

  lemma {:induction false} LessIsStrict(a: Text, b: Text)
    ensures !(Less(a, b) && Less(b, a)) && !Less(a, a)
    decreases |a|
  {
    if a != [] {
      LessIsStrict(a[1..], if b == [] then [] else b[1..]);
    }
  }

  lemma {:induction false} LessIsTransitive(a: Text, b: Text, c: Text)
    requires Less(a, b) && Less(b, c)
    ensures Less(a, c)
    decreases |a|
  {
    if a != [] && a[0] == b[0] == c[0] { LessIsTransitive(a[1..], b[1..], c[1..]); }
  }

  lemma {:induction false} LessIsTotal(a: Text, b: Text)
    ensures a == b || Less(a, b) || Less(b, a)
    decreases |a|
  {
    if a != [] && b != [] && a[0] == b[0] {
      LessIsTotal(a[1..], b[1..]);
      assert a == [a[0]] + a[1..] && b == [b[0]] + b[1..];
    }
  }

  /** A constant of the source, which are all ASCII. */
  function Ascii(s: string): Text
    requires forall i :: 0 <= i < |s| ==> s[i] as int < 128
  {
    seq(|s|, i requires 0 <= i < |s| => s[i] as int)
  }

  lemma {:induction false} PlainIsWellFormed(t: Text)
    requires forall i :: 0 <= i < |t| ==> !Surrogate(t[i])
    ensures WellFormed(t)
    decreases |t|
  {
    if t != [] { PlainIsWellFormed(t[1..]); }
  }
}
