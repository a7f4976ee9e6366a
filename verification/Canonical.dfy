/** The canonical encoder behind every material digest, and a parser that undoes it. */
module Canonical {
  import opened Wrappers
  import opened Utf16

  /** A JavaScript value, integers standing for finite numbers. Object fields are
      kept in insertion order. */
  datatype Value =
    | Undefined
    | Null
    | Bool(b: bool)
    | Num(n: int)
    | NotFinite
    | Str(s: Text)
    | Arr(items: seq<Value>)
    | Obj(fields: seq<Field>)

  datatype Field = Field(key: Text, value: Value)

  /** What a value says once key order and undefined fields are forgotten. */
  datatype Doc =
    | DNull
    | DBool(b: bool)
    | DNum(n: int)
    | DStr(s: Text)
    | DArr(items: seq<Doc>)
    | DObj(fields: map<Text, Doc>)

  const NULL: Text := [0x6E, 0x75, 0x6C, 0x6C]
  const TRUE: Text := [0x74, 0x72, 0x75, 0x65]
  const FALSE: Text := [0x66, 0x61, 0x6C, 0x73, 0x65]
  const QUOTE: Unit := 0x22
  const BACKSLASH: Unit := 0x5C
  const COMMA: Unit := 0x2C
  const COLON: Unit := 0x3A
  const MINUS: Unit := 0x2D
  const OPEN_ARRAY: Unit := 0x5B
  const CLOSE_ARRAY: Unit := 0x5D
  const OPEN_OBJECT: Unit := 0x7B
  const CLOSE_OBJECT: Unit := 0x7D

  // --- JSON.stringify of numbers and strings -------------------------------------

  predicate IsDigit(u: Unit) { 0x30 <= u <= 0x39 }

  function Digits(n: nat): (t: Text)
    ensures t != [] && forall i :: 0 <= i < |t| ==> IsDigit(t[i])
  {
    if n < 10 then [0x30 + n] else Digits(n / 10) + [0x30 + n % 10]
  }

  function Decimal(n: int): Text
  {
    if n < 0 then [MINUS] + Digits(-n) else Digits(n)
  }

  function HexDigit(d: int): Unit
    requires 0 <= d < 16
  {
    if d < 10 then 0x30 + d else 0x57 + d
  }

  function UnicodeEscape(u: Unit): Text
  {
    [BACKSLASH, 0x75, HexDigit(u / 4096), HexDigit(u / 256 % 16), HexDigit(u / 16 % 16), HexDigit(u % 16)]
  }

  /** The letter after the backslash of the two-unit escapes, if `u` has one. */
  function ShortEscape(u: Unit): Option<Unit>
  {
    if u == QUOTE || u == BACKSLASH then Some(u)
    else if u == 0x08 then Some(0x62)
    else if u == 0x0C then Some(0x66)
    else if u == 0x0A then Some(0x6E)
    else if u == 0x0D then Some(0x72)
    else if u == 0x09 then Some(0x74)
    else None
  }

  function EscapeUnit(u: Unit): Text
  {
    if ShortEscape(u).Some? then [BACKSLASH, ShortEscape(u).value]
    else if u < 0x20 || Surrogate(u) then UnicodeEscape(u)
    else [u]
  }

  /** Surrogate pairs stay as they are, unpaired ones are escaped. */
  function Escape(s: Text): Text
    decreases |s|
  {
    if s == [] then []
    else if StartsWithPair(s) then s[..2] + Escape(s[2..])
    else EscapeUnit(s[0]) + Escape(s[1..])
  }

  function Quoted(s: Text): Text { [QUOTE] + Escape(s) + [QUOTE] }

  // --- the encoder ------------------------------------------------------------------

  function Join(parts: seq<Text>): Text
  {
    if parts == [] then []
    else if |parts| == 1 then parts[0]
    else parts[0] + [COMMA] + Join(parts[1..])
  }

  datatype Pair = Pair(key: Text, text: Text)

  function Insert(p: Pair, sorted: seq<Pair>): seq<Pair>
  {
    if sorted == [] || Less(p.key, sorted[0].key) then [p] + sorted
    else [sorted[0]] + Insert(p, sorted[1..])
  }

  function SortByKey(pairs: seq<Pair>): seq<Pair>
  {
    if pairs == [] then [] else Insert(pairs[0], SortByKey(pairs[1..]))
  }

  function Member(p: Pair): Text { Quoted(p.key) + [COLON] + p.text }

  function Members(pairs: seq<Pair>): seq<Text>
  {
    seq(|pairs|, i requires 0 <= i < |pairs| => Member(pairs[i]))
  }

  /** `encoded`: throws on anything that is not plain data, drops undefined fields. */
  function Encoded(v: Value): Result<Text, ()>
    decreases v
  {
    match v
    case Undefined => Err(())
    case NotFinite => Err(())
    case Null => Ok(NULL)
    case Bool(b) => Ok(if b then TRUE else FALSE)
    case Num(n) => Ok(Decimal(n))
    case Str(s) => Ok(Quoted(s))
    case Arr(items) =>
      var parts := EncodedItems(items);
      if parts.Err? then Err(()) else Ok([OPEN_ARRAY] + Join(parts.value) + [CLOSE_ARRAY])
    case Obj(fields) =>
      var pairs := EncodedFields(fields);
      if pairs.Err? then Err(()) else Ok([OPEN_OBJECT] + Join(Members(SortByKey(pairs.value))) + [CLOSE_OBJECT])
  }

  function EncodedItems(items: seq<Value>): (r: Result<seq<Text>, ()>)
    ensures r.Ok? ==> |r.value| == |items|
    decreases items
  {
    if items == [] then Ok([]) else
      var head, rest := Encoded(items[0]), EncodedItems(items[1..]);
      if head.Err? || rest.Err? then Err(()) else Ok([head.value] + rest.value)
  }

  function EncodedFields(fields: seq<Field>): Result<seq<Pair>, ()>
    decreases fields
  {
    if fields == [] then Ok([])
    else if fields[0].value.Undefined? then EncodedFields(fields[1..])
    else
      var head, rest := Encoded(fields[0].value), EncodedFields(fields[1..]);
      if head.Err? || rest.Err? then Err(()) else Ok([Pair(fields[0].key, head.value)] + rest.value)
  }

  const UNDEFINED: Text := [0x75, 0x6E, 0x64, 0x65, 0x66, 0x69, 0x6E, 0x65, 0x64]

  /** `canonical` of the enrollment and bootstrap journals: never throws, keeps
      undefined fields, and writes whatever JSON.stringify gives inside a template. */
  function Lax(v: Value): Text
    decreases v
  {
    match v
    case Undefined => UNDEFINED
    case NotFinite => NULL
    case Null => NULL
    case Bool(b) => if b then TRUE else FALSE
    case Num(n) => Decimal(n)
    case Str(s) => Quoted(s)
    case Arr(items) => [OPEN_ARRAY] + Join(LaxItems(items)) + [CLOSE_ARRAY]
    case Obj(fields) => [OPEN_OBJECT] + Join(Members(SortByKey(LaxFields(fields)))) + [CLOSE_OBJECT]
  }

  /** `join` writes nothing for an undefined element. */
  function LaxItems(items: seq<Value>): seq<Text>
    decreases items
  {
    if items == [] then [] else [if items[0].Undefined? then [] else Lax(items[0])] + LaxItems(items[1..])
  }

  function LaxFields(fields: seq<Field>): seq<Pair>
    decreases fields
  {
    if fields == [] then [] else [Pair(fields[0].key, Lax(fields[0].value))] + LaxFields(fields[1..])
  }

  /** What JSON.parse can return: no undefined, no NaN, no infinity, anywhere. */
  predicate Plain(v: Value)
    decreases v
  {
    match v
    case Undefined => false
    case NotFinite => false
    case Arr(items) => forall i :: 0 <= i < |items| ==> Plain(items[i])
    case Obj(fields) => forall i :: 0 <= i < |fields| ==> Plain(fields[i].value)
    case _ => true
  }

  // --- meaning ------------------------------------------------------------------------

  predicate DistinctKeys(fields: seq<Field>)
  {
    forall i, j :: 0 <= i < j < |fields| ==> fields[i].key != fields[j].key
  }

  /** Objects do not repeat a key. */
  predicate Proper(v: Value)
    decreases v
  {
    match v
    case Arr(items) => forall i :: 0 <= i < |items| ==> Proper(items[i])
    case Obj(fields) => DistinctKeys(fields) && forall i :: 0 <= i < |fields| ==> Proper(fields[i].value)
    case _ => true
  }

  function Meaning(v: Value): Doc
    decreases v
  {
    match v
    case Undefined => DNull
    case NotFinite => DNull
    case Null => DNull
    case Bool(b) => DBool(b)
    case Num(n) => DNum(n)
    case Str(s) => DStr(s)
    case Arr(items) => DArr(seq(|items|, i requires 0 <= i < |items| => Meaning(items[i])))
    case Obj(fields) => DObj(FieldMeanings(fields))
  }

  function FieldMeanings(fields: seq<Field>): map<Text, Doc>
    decreases fields
  {
    if fields == [] then map[]
    else if fields[0].value.Undefined? then FieldMeanings(fields[1..])
    else FieldMeanings(fields[1..])[fields[0].key := Meaning(fields[0].value)]
  }

  // --- the parser -----------------------------------------------------------------------

  datatype Parsed<T> = Fail | Read(value: T, rest: Text)

  function ParseDigits(t: Text, acc: nat): (r: Parsed<nat>)
    ensures r.Read? && |r.rest| <= |t|
    decreases |t|
  {
    if t == [] || !IsDigit(t[0]) then Read(acc, t) else ParseDigits(t[1..], 10 * acc + (t[0] - 0x30))
  }

  function HexValue(u: Unit): Option<int>
  {
    if IsDigit(u) then Some(u - 0x30) else if 0x61 <= u <= 0x66 then Some(u - 0x57) else None
  }

  function LongEscape(t: Text): Option<Unit>
    requires |t| >= 4
  {
    var a, b, c, d := HexValue(t[0]), HexValue(t[1]), HexValue(t[2]), HexValue(t[3]);
    if a.None? || b.None? || c.None? || d.None? then None
    else
      var u := 4096 * a.value + 256 * b.value + 16 * c.value + d.value;
      if 0 <= u < 0x1_0000 then Some(u) else None
  }

  function Unescape(letter: Unit): Option<Unit>
  {
    if letter == QUOTE || letter == BACKSLASH then Some(letter)
    else if letter == 0x62 then Some(0x08)
    else if letter == 0x66 then Some(0x0C)
    else if letter == 0x6E then Some(0x0A)
    else if letter == 0x72 then Some(0x0D)
    else if letter == 0x74 then Some(0x09)
    else None
  }

  function Prepend(u: Unit, r: Parsed<Text>): Parsed<Text>
  {
    if r.Fail? then Fail else Read([u] + r.value, r.rest)
  }

  /** The rest of a string literal, after its opening quote. */
  function ParseString(t: Text): (r: Parsed<Text>)
    ensures r.Read? ==> |r.rest| < |t|
    decreases |t|
  {
    if t == [] then Fail
    else if t[0] == QUOTE then Read([], t[1..])
    else if t[0] != BACKSLASH then Prepend(t[0], ParseString(t[1..]))
    else if |t| >= 6 && t[1] == 0x75 then
      var u := LongEscape(t[2..6]);
      if u.None? then Fail else Prepend(u.value, ParseString(t[6..]))
    else if |t| >= 2 && Unescape(t[1]).Some? then Prepend(Unescape(t[1]).value, ParseString(t[2..]))
    else Fail
  }

  function ParseValue(t: Text): (r: Parsed<Doc>)
    ensures r.Read? ==> |r.rest| < |t|
    decreases |t|, 2
  {
    if t == [] then Fail
    else if NULL <= t then Read(DNull, t[4..])
    else if TRUE <= t then Read(DBool(true), t[4..])
    else if FALSE <= t then Read(DBool(false), t[5..])
    else if t[0] == QUOTE then
      var s := ParseString(t[1..]);
      if s.Fail? then Fail else Read(DStr(s.value), s.rest)
    else if t[0] == MINUS then
      var n := ParseDigits(t[1..], 0);
      Read(DNum(0 - n.value as int), n.rest)
    else if IsDigit(t[0]) then
      var n := ParseDigits(t[1..], t[0] - 0x30);
      Read(DNum(n.value), n.rest)
    else if t[0] == OPEN_ARRAY then
      if |t| > 1 && t[1] == CLOSE_ARRAY then Read(DArr([]), t[2..]) else
      var items := ParseItems(t[1..]);
      if items.Fail? then Fail else Read(DArr(items.value), items.rest)
    else if t[0] == OPEN_OBJECT then
      if |t| > 1 && t[1] == CLOSE_OBJECT then Read(DObj(map[]), t[2..]) else
      var fields := ParseFields(t[1..]);
      if fields.Fail? then Fail else Read(DObj(fields.value), fields.rest)
    else Fail
  }

  function ParseItems(t: Text): (r: Parsed<seq<Doc>>)
    ensures r.Read? ==> |r.rest| < |t|
    decreases |t|, 3
  {
    var head := ParseValue(t);
    if head.Fail? || head.rest == [] then Fail
    else if head.rest[0] == CLOSE_ARRAY then Read([head.value], head.rest[1..])
    else if head.rest[0] != COMMA then Fail
    else
      var tail := ParseItems(head.rest[1..]);
      if tail.Fail? then Fail else Read([head.value] + tail.value, tail.rest)
  }

  function ParseFields(t: Text): (r: Parsed<map<Text, Doc>>)
    ensures r.Read? ==> |r.rest| < |t|
    decreases |t|, 3
  {
    if t == [] || t[0] != QUOTE then Fail else
    var key := ParseString(t[1..]);
    if key.Fail? || key.rest == [] || key.rest[0] != COLON then Fail else
    var head := ParseValue(key.rest[1..]);
    if head.Fail? || head.rest == [] then Fail
    else if head.rest[0] == CLOSE_OBJECT then Read(map[key.value := head.value], head.rest[1..])
    else if head.rest[0] != COMMA then Fail
    else
      var tail := ParseFields(head.rest[1..]);
      if tail.Fail? then Fail else Read(map[key.value := head.value] + tail.value, tail.rest)
  }
}
