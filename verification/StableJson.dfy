/**
  The canonical JSON text that idempotency hashes and signed impact payloads are computed over, a reader
  of RFC 8259 text, and the proof that the text determines the value up to object key order and nothing
  more.

  A value is what JSON.parse returns: object members come in some order under distinct keys, and a
  number is represented by the text JavaScript prints for it.
*/
module StableJson {
  import opened Utf16
  import opened Sorting

  datatype Json =
    | Null
    | Bool(b: bool)
    | Num(lexeme: Text)
    | Str(s: Text)
    | Arr(items: seq<Json>)
    | Obj(members: seq<(Text, Json)>)

  const NULL: Text := [110, 117, 108, 108]
  const TRUE: Text := [116, 114, 117, 101]
  const FALSE: Text := [102, 97, 108, 115, 101]
  const QUOTE: Unit := 34
  const COMMA: Unit := 44
  const COLON: Unit := 58
  const BACKSLASH: Unit := 92
  const OPEN_ARRAY: Unit := 91
  const CLOSE_ARRAY: Unit := 93
  const OPEN_OBJECT: Unit := 123
  const CLOSE_OBJECT: Unit := 125
  const LETTER_U: Unit := 117

  function Keys(ms: seq<(Text, Json)>): (ks: seq<Text>)
    ensures |ks| == |ms|
    ensures forall i | 0 <= i < |ms| :: ks[i] == ms[i].0
  {
    seq(|ms|, i requires 0 <= i < |ms| => ms[i].0)
  }

  /** `value[key]`. */
  function Lookup(ms: seq<(Text, Json)>, k: Text): (v: Json)
    requires k in Keys(ms)
    ensures exists i :: 0 <= i < |ms| && ms[i] == (k, v)
  {
    if ms[0].0 == k then ms[0].1 else
      assert k in Keys(ms[1..]) by {
        var i :| 0 <= i < |ms| && Keys(ms)[i] == k;
        assert Keys(ms[1..])[i - 1] == k;
      }
      var v := Lookup(ms[1..], k);
      assert exists i :: 0 <= i < |ms| && ms[i] == (k, v) by {
        var j :| 0 <= j < |ms[1..]| && ms[1..][j] == (k, v);
        assert ms[j + 1] == (k, v);
      }
      v
  }

  const MINUS: Unit := 45
  const PLUS: Unit := 43
  const POINT: Unit := 46
  const ZERO: Unit := 48

  predicate IsDigit(u: Unit) { ZERO <= u < ZERO + 10 }
  predicate IsE(u: Unit) { u == 69 || u == 101 }

  /** `+ - .`, the digits, `E` and `e`. */
  predicate NumberUnit(u: Unit) {
    u == PLUS || u == MINUS || u == POINT || IsDigit(u) || IsE(u)
  }

  predicate AllDigits(t: Text) {
    t != [] && forall i | 0 <= i < |t| :: IsDigit(t[i])
  }

  /** RFC 8259 section 6: `int`, `frac` and `exp`. */
  predicate IsInt(t: Text) { t == [ZERO] || (AllDigits(t) && t[0] != ZERO) }

  predicate IsFrac(t: Text) { |t| > 1 && t[0] == POINT && AllDigits(t[1..]) }

  predicate IsExp(t: Text) {
    |t| > 1 && IsE(t[0]) && (AllDigits(t[1..]) || ((t[1] == PLUS || t[1] == MINUS) && AllDigits(t[2..])))
  }

  predicate IsNumber(t: Text, minus: Text, int_: Text, frac: Text, exp: Text) {
    && t == minus + (int_ + (frac + exp))
    && (minus == [] || minus == [MINUS]) && IsInt(int_) && (frac == [] || IsFrac(frac)) && (exp == [] || IsExp(exp))
  }

  ghost predicate IsLexeme(t: Text) {
    exists minus, int_, frac, exp :: IsNumber(t, minus, int_, frac, exp)
  }

  ghost predicate Wf(v: Json) {
    match v
    case Num(lexeme) => IsLexeme(lexeme)
    case Arr(items) => forall i | 0 <= i < |items| :: Wf(items[i])
    case Obj(ms) => Distinct(Keys(ms)) && forall i | 0 <= i < |ms| :: Wf(ms[i].1)
    case _ => true
  }

  /** Equal up to the order in which object members are listed, at every depth. */
  ghost predicate SameValue(a: Json, b: Json)
    decreases a, 1
  {
    if a.Arr? && b.Arr? then
      |a.items| == |b.items| && forall i | 0 <= i < |a.items| :: SameValue(a.items[i], b.items[i])
    else if a.Obj? && b.Obj? then
      |a.members| == |b.members| && forall i: nat | i < |a.members| :: HasMatch(a, b, i)
    else a == b
  }

  /** The `i`-th member of `a` is a member of `b` too. */
  ghost predicate HasMatch(a: Json, b: Json, i: nat)
    requires a.Obj? && b.Obj? && i < |a.members|
    decreases a, 0
  {
    exists j: nat :: j < |b.members| && a.members[i].0 == b.members[j].0 && SameValue(a.members[i].1, b.members[j].1)
  }

  // ------------------------------------------------------------------ the printer

  predicate IsHigh(u: Unit) { 0xD800 <= u < 0xDC00 }
  predicate IsLow(u: Unit) { 0xDC00 <= u < 0xE000 }

  function HexDigit(n: int): Unit
    requires 0 <= n < 16
  {
    if n < 10 then 48 + n else 87 + n
  }

  /** The one-letter escape of JSON.stringify, or 0. */
  function ShortEscape(u: Unit): Unit {
    if u == 8 then 98
    else if u == 9 then 116
    else if u == 10 then 110
    else if u == 12 then 102
    else if u == 13 then 114
    else if u == QUOTE || u == BACKSLASH then u
    else 0
  }

  function EscapeUnit(u: Unit): Text {
    if ShortEscape(u) != 0 then [BACKSLASH, ShortEscape(u)]
    else if u < 0x20 || IsHigh(u) || IsLow(u) then
      [BACKSLASH, LETTER_U, HexDigit(u / 4096), HexDigit(u / 256 % 16), HexDigit(u / 16 % 16), HexDigit(u % 16)]
    else [u]
  }

  /** QuoteJSONString without the quotes: surrogate pairs stay, lone surrogates are escaped. */
  function Escape(s: Text): Text {
    if s == [] then []
    else if |s| > 1 && IsHigh(s[0]) && IsLow(s[1]) then s[..2] + Escape(s[2..])
    else EscapeUnit(s[0]) + Escape(s[1..])
  }

  function Quote(s: Text): Text {
    [QUOTE] + Escape(s) + [QUOTE]
  }

  lemma SortedKeysAreKeys(ms: seq<(Text, Json)>)
    ensures forall k :: k in Sort(LexLe, Keys(ms)) <==> k in Keys(ms)
    ensures |Sort(LexLe, Keys(ms))| == |ms|
    ensures Distinct(Sort(LexLe, Keys(ms))) <==> Distinct(Keys(ms))
  {
    LexIsTotalOrder();
    SortDistinct(LexLe, Keys(ms));
  }

  /** `Object.keys(value).sort()`. */
  function SortedKeys(ms: seq<(Text, Json)>): (ks: seq<Text>)
    ensures forall i | 0 <= i < |ks| :: ks[i] in Keys(ms)
  {
    SortedKeysAreKeys(ms);
    Sort(LexLe, Keys(ms))
  }

  /** `stableJson`. */
  function Print(v: Json): Text
    decreases v
  {
    match v
    case Null => NULL
    case Bool(b) => if b then TRUE else FALSE
    case Num(lexeme) => lexeme
    case Str(s) => Quote(s)
    case Arr(items) => [OPEN_ARRAY] + PrintItems(items) + [CLOSE_ARRAY]
    case Obj(ms) =>
      [OPEN_OBJECT] + PrintMembers(SortedKeys(ms), v) + [CLOSE_OBJECT]
  }

  function PrintItems(items: seq<Json>): Text
    decreases items
  {
    if items == [] then []
    else Print(items[0]) + (if |items| == 1 then [] else [COMMA] + PrintItems(items[1..]))
  }

  function PrintMembers(keys: seq<Text>, v: Json): Text
    requires v.Obj? && forall i | 0 <= i < |keys| :: keys[i] in Keys(v.members)
    decreases v, |keys|
  {
    if keys == [] then []
    else
      Quote(keys[0]) + [COLON] + Print(Lookup(v.members, keys[0])) +
      (if |keys| == 1 then [] else [COMMA] + PrintMembers(keys[1..], v))
  }

  /** `canonicalize`, the second copy of the printer: it tests for arrays before it tests for objects. */
  function Canonicalize(v: Json): Text
    decreases v
  {
    if v.Arr? then [OPEN_ARRAY] + CanonicalizeItems(v.items) + [CLOSE_ARRAY]
    else if v.Obj? then [OPEN_OBJECT] + CanonicalizeMembers(SortedKeys(v.members), v) + [CLOSE_OBJECT]
    else
      match v
      case Bool(b) => if b then TRUE else FALSE
      case Num(lexeme) => lexeme
      case Str(s) => Quote(s)
      case _ => NULL
  }

  function CanonicalizeItems(items: seq<Json>): Text
    decreases items
  {
    if items == [] then []
    else if |items| == 1 then Canonicalize(items[0])
    else Canonicalize(items[0]) + [COMMA] + CanonicalizeItems(items[1..])
  }

  function CanonicalizeMembers(keys: seq<Text>, v: Json): Text
    requires v.Obj? && forall i | 0 <= i < |keys| :: keys[i] in Keys(v.members)
    decreases v, |keys|
  {
    if keys == [] then []
    else
      var first := Quote(keys[0]) + [COLON] + Canonicalize(Lookup(v.members, keys[0]));
      if |keys| == 1 then first else first + [COMMA] + CanonicalizeMembers(keys[1..], v)
  }

  // ------------------------------------------------------------------ the reader

  datatype Parse<+T> = Fail | Got(value: T, rest: Text)

  function HexValue(u: Unit): int
    ensures -1 <= HexValue(u) < 16
  {
    if 48 <= u <= 57 then u - 48
    else if 97 <= u <= 102 then u - 87
    else if 65 <= u <= 70 then u - 55
    else -1
  }

  /** RFC 8259 section 7: the two-character escapes. */
  function Unescape(u: Unit): Unit {
    if u == 98 then 8
    else if u == 116 then 9
    else if u == 110 then 10
    else if u == 102 then 12
    else if u == 114 then 13
    else if u == QUOTE || u == BACKSLASH || u == 47 then u
    else 0
  }

  function Prepend(u: Unit, p: Parse<Text>): Parse<Text> {
    if p.Fail? then Fail else Got([u] + p.value, p.rest)
  }

  /** The rest of a string after its opening quote, up to and including the closing one. */
  function ReadChars(t: Text): (p: Parse<Text>)
    ensures p.Got? ==> |p.rest| < |t|
  {
    if t == [] then Fail
    else if t[0] == QUOTE then Got([], t[1..])
    else if t[0] == BACKSLASH then
      if |t| < 2 then Fail
      else if t[1] == LETTER_U then
        if |t| < 6 || HexValue(t[2]) < 0 || HexValue(t[3]) < 0 || HexValue(t[4]) < 0 || HexValue(t[5]) < 0 then Fail
        else Prepend(4096 * HexValue(t[2]) + 256 * HexValue(t[3]) + 16 * HexValue(t[4]) + HexValue(t[5]),
                     ReadChars(t[6..]))
      else if Unescape(t[1]) == 0 then Fail
      else Prepend(Unescape(t[1]), ReadChars(t[2..]))
    else if t[0] < 0x20 then Fail
    else Prepend(t[0], ReadChars(t[1..]))
  }

  function DigitsLength(t: Text): (n: nat)
    ensures n <= |t|
  {
    if t == [] || !IsDigit(t[0]) then 0 else 1 + DigitsLength(t[1..])
  }

  function IntLength(t: Text): (n: nat)
    ensures n <= |t|
  {
    if t != [] && t[0] == ZERO then 1 else DigitsLength(t)
  }

  function FracLength(t: Text): (n: nat)
    ensures n <= |t|
  {
    if t == [] || t[0] != POINT || DigitsLength(t[1..]) == 0 then 0 else 1 + DigitsLength(t[1..])
  }

  function ExpLength(t: Text): (n: nat)
    ensures n <= |t|
  {
    if t == [] || !IsE(t[0]) then 0
    else
      var sign := if |t| > 1 && (t[1] == PLUS || t[1] == MINUS) then 2 else 1;
      if DigitsLength(t[sign..]) == 0 then 0 else sign + DigitsLength(t[sign..])
  }

  /** How much of the text is a number: an optional minus, `int`, then `frac` and `exp` where they are complete. */
  function NumberLength(t: Text): (n: nat)
    ensures n <= |t|
  {
    var minus := if t != [] && t[0] == MINUS then 1 else 0;
    var int_ := IntLength(t[minus..]);
    if int_ == 0 then 0
    else
      var frac := FracLength(t[minus + int_..]);
      minus + int_ + frac + ExpLength(t[minus + int_ + frac..])
  }

  /** One value at the front of the text; insignificant whitespace is not accepted. */
  function ReadValue(t: Text): (p: Parse<Json>)
    ensures p.Got? ==> |p.rest| < |t|
    decreases |t|, 0
  {
    if t == [] then Fail
    else if StartsWith(t, NULL) then Got(Null, t[4..])
    else if StartsWith(t, TRUE) then Got(Bool(true), t[4..])
    else if StartsWith(t, FALSE) then Got(Bool(false), t[5..])
    else if t[0] == QUOTE then
      var p := ReadChars(t[1..]);
      if p.Fail? then Fail else Got(Str(p.value), p.rest)
    else if t[0] == OPEN_ARRAY then
      if |t| > 1 && t[1] == CLOSE_ARRAY then Got(Arr([]), t[2..])
      else
        var p := ReadItems(t[1..]);
        if p.Fail? then Fail else Got(Arr(p.value), p.rest)
    else if t[0] == OPEN_OBJECT then
      if |t| > 1 && t[1] == CLOSE_OBJECT then Got(Obj([]), t[2..])
      else
        var p := ReadMembers(t[1..]);
        if p.Fail? then Fail else Got(Obj(p.value), p.rest)
    else
      var n := NumberLength(t);
      if n == 0 then Fail else Got(Num(t[..n]), t[n..])
  }

  function ReadItems(t: Text): (p: Parse<seq<Json>>)
    ensures p.Got? ==> |p.rest| < |t|
    decreases |t|, 1
  {
    var v := ReadValue(t);
    if v.Fail? || v.rest == [] then Fail
    else if v.rest[0] == CLOSE_ARRAY then Got([v.value], v.rest[1..])
    else if v.rest[0] == COMMA then
      var p := ReadItems(v.rest[1..]);
      if p.Fail? then Fail else Got([v.value] + p.value, p.rest)
    else Fail
  }

  function ReadMembers(t: Text): (p: Parse<seq<(Text, Json)>>)
    ensures p.Got? ==> |p.rest| < |t|
    decreases |t|, 1
  {
    if t == [] || t[0] != QUOTE then Fail
    else
      var k := ReadChars(t[1..]);
      if k.Fail? || k.rest == [] || k.rest[0] != COLON then Fail
      else
        var v := ReadValue(k.rest[1..]);
        if v.Fail? || v.rest == [] then Fail
        else if v.rest[0] == CLOSE_OBJECT then Got([(k.value, v.value)], v.rest[1..])
        else if v.rest[0] == COMMA then
          var p := ReadMembers(v.rest[1..]);
          if p.Fail? then Fail else Got([(k.value, v.value)] + p.value, p.rest)
        else Fail
  }

  function Read(t: Text): Parse<Json> {
    var p := ReadValue(t);
    if p.Got? && p.rest == [] then p else Fail
  }
}
