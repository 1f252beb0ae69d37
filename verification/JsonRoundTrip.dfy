/** The reader inverts the canonical printer, so the printed text is the value up to object key order. */
module JsonRoundTrip {
  import opened Utf16
  import opened Sorting
  import opened StableJson

  /** The value with every object's members listed in ascending key order. */
  function Canon(v: Json): Json
    decreases v
  {
    match v
    case Arr(items) => Arr(CanonItems(items))
    case Obj(ms) => Obj(CanonMembers(SortedKeys(ms), v))
    case _ => v
  }

  function CanonItems(items: seq<Json>): (r: seq<Json>)
    ensures |r| == |items|
    ensures forall i | 0 <= i < |items| :: r[i] == Canon(items[i])
    decreases items
  {
    if items == [] then [] else [Canon(items[0])] + CanonItems(items[1..])
  }

  function CanonMembers(keys: seq<Text>, v: Json): (r: seq<(Text, Json)>)
    requires v.Obj? && forall i | 0 <= i < |keys| :: keys[i] in Keys(v.members)
    ensures |r| == |keys|
    ensures forall i | 0 <= i < |keys| :: r[i] == (keys[i], Canon(Lookup(v.members, keys[i])))
    decreases v, |keys|
  {
    if keys == [] then []
    else [(keys[0], Canon(Lookup(v.members, keys[0])))] + CanonMembers(keys[1..], v)
  }

  // ------------------------------------------------------------------ strings

  lemma HexDigits(u: Unit)
    ensures u / 4096 < 16
    ensures u == 4096 * (u / 4096) + 256 * (u / 256 % 16) + 16 * (u / 16 % 16) + u % 16
  {
    var h := u / 16;
    assert h / 16 == u / 256 && h / 16 / 16 == u / 4096;
    assert u == 16 * h + u % 16;
    assert h == 16 * (h / 16) + h % 16;
    assert u / 256 == 16 * (u / 4096) + u / 256 % 16;
  }

  lemma {:induction false} HexEscapeReads(u: Unit, rest: Text)
    ensures u / 4096 < 16
    ensures ReadChars([BACKSLASH, LETTER_U, HexDigit(u / 4096), HexDigit(u / 256 % 16), HexDigit(u / 16 % 16),
                       HexDigit(u % 16)] + rest) == Prepend(u, ReadChars(rest))
  {
    HexDigits(u);
    var e := [BACKSLASH, LETTER_U, HexDigit(u / 4096), HexDigit(u / 256 % 16), HexDigit(u / 16 % 16), HexDigit(u % 16)];
    var t := e + rest;
    assert t[6..] == rest;
    assert t[0] == BACKSLASH && t[1] == LETTER_U;
    assert HexValue(t[2]) == u / 4096 && HexValue(t[3]) == u / 256 % 16;
    assert HexValue(t[4]) == u / 16 % 16 && HexValue(t[5]) == u % 16;
  }

  lemma PlainUnitReads(u: Unit, rest: Text)
    requires u >= 0x20 && u != QUOTE && u != BACKSLASH
    ensures ReadChars([u] + rest) == Prepend(u, ReadChars(rest))
  {
    assert ([u] + rest)[1..] == rest;
  }

  lemma {:induction false} EscapedUnitReads(u: Unit, rest: Text)
    ensures ReadChars(EscapeUnit(u) + rest) == Prepend(u, ReadChars(rest))
  {
    var e := EscapeUnit(u);
    if ShortEscape(u) != 0 {
      var t := [BACKSLASH, ShortEscape(u)] + rest;
      assert t[2..] == rest && t[0] == BACKSLASH && t[1] == ShortEscape(u);
      assert Unescape(ShortEscape(u)) == u;
    } else if u < 0x20 || IsHigh(u) || IsLow(u) {
      HexEscapeReads(u, rest);
    } else {
      PlainUnitReads(u, rest);
    }
  }

  lemma Regroup(front: Text, tail: Text, quote: Text, rest: Text)
    ensures front + tail + quote + rest == front + (tail + quote + rest)
  {}

  lemma TwoUnits(a: Unit, b: Unit, rest: Text)
    ensures [a, b] + rest == [a] + ([b] + rest)
  {}

  lemma FirstTwo(s: Text)
    requires |s| > 1
    ensures s[..2] == [s[0], s[1]] && s == [s[0]] + ([s[1]] + s[2..])
  {}

  lemma {:induction false} EscapedPair(s: Text, rest: Text)
    requires |s| > 1 && IsHigh(s[0]) && IsLow(s[1])
    ensures Escape(s) + [QUOTE] + rest == [s[0]] + ([s[1]] + (Escape(s[2..]) + [QUOTE] + rest))
    ensures s == [s[0]] + ([s[1]] + s[2..])
  {
    var tail := Escape(s[2..]);
    assert Escape(s) == s[..2] + tail;
    hide Escape;
    FirstTwo(s);
    Regroup([s[0], s[1]], tail, [QUOTE], rest);
    TwoUnits(s[0], s[1], tail + [QUOTE] + rest);
  }

  lemma EscapedUnit(s: Text, rest: Text)
    requires s != [] && !(|s| > 1 && IsHigh(s[0]) && IsLow(s[1]))
    ensures Escape(s) + [QUOTE] + rest == EscapeUnit(s[0]) + (Escape(s[1..]) + [QUOTE] + rest)
  {
    hide EscapeUnit;
    var tail := Escape(s[1..]);
    assert Escape(s) == EscapeUnit(s[0]) + tail;
    hide Escape;
    Regroup(EscapeUnit(s[0]), tail, [QUOTE], rest);
  }

  lemma ClosingQuoteReads(rest: Text)
    ensures ReadChars([QUOTE] + rest) == Got([], rest)
  {
    assert ([QUOTE] + rest)[1..] == rest;
  }

  lemma {:induction false} EscapeReads(s: Text, rest: Text)
    ensures ReadChars(Escape(s) + [QUOTE] + rest) == Got(s, rest)
    decreases |s|
  {
    hide ReadChars, EscapeUnit;
    if s == [] {
      assert Escape(s) + [QUOTE] + rest == [QUOTE] + rest;
      ClosingQuoteReads(rest);
    } else if |s| > 1 && IsHigh(s[0]) && IsLow(s[1]) {
      EscapedPair(s, rest);
      hide Escape;
      var tail := Escape(s[2..]) + [QUOTE] + rest;
      EscapeReads(s[2..], rest);
      PlainUnitReads(s[0], [s[1]] + tail);
      PlainUnitReads(s[1], tail);
    } else {
      EscapedUnit(s, rest);
      hide Escape;
      EscapeReads(s[1..], rest);
      EscapedUnitReads(s[0], Escape(s[1..]) + [QUOTE] + rest);
      assert s == [s[0]] + s[1..];
    }
  }

  /** A printed string is read back as the string it came from. */
  lemma QuoteReads(s: Text, rest: Text)
    ensures Quote(s) != [] && Quote(s)[0] == QUOTE
    ensures ReadChars((Quote(s) + rest)[1..]) == Got(s, rest)
  {
    EscapeReads(s, rest);
    assert (Quote(s) + rest)[1..] == Escape(s) + [QUOTE] + rest;
  }

  /** What follows a number does not continue it. */
  ghost predicate EndsNumber(rest: Text) {
    rest == [] || !NumberUnit(rest[0])
  }

  ghost predicate EndsDigits(rest: Text) {
    rest == [] || !IsDigit(rest[0])
  }

  lemma {:induction false} DigitsRead(digits: Text, rest: Text)
    requires AllDigits(digits) && EndsDigits(rest)
    ensures DigitsLength(digits + rest) == |digits|
    decreases |digits|
  {
    assert (digits + rest)[1..] == digits[1..] + rest;
    if |digits| == 1 {
      assert digits[1..] + rest == rest;
    } else {
      DigitsRead(digits[1..], rest);
    }
  }

  lemma IntReads(int_: Text, rest: Text)
    requires IsInt(int_) && EndsDigits(rest)
    ensures IntLength(int_ + rest) == |int_| > 0
  {
    if int_ != [ZERO] { DigitsRead(int_, rest); }
  }

  lemma FracReads(frac: Text, rest: Text)
    requires (frac == [] && (rest == [] || rest[0] != POINT)) || (IsFrac(frac) && EndsDigits(rest))
    ensures FracLength(frac + rest) == |frac|
  {
    if frac == [] {
      assert frac + rest == rest;
    } else {
      DigitsRead(frac[1..], rest);
      assert (frac + rest)[1..] == frac[1..] + rest;
    }
  }

  lemma ExpReads(exp: Text, rest: Text)
    requires EndsNumber(rest) && (exp == [] || IsExp(exp))
    ensures ExpLength(exp + rest) == |exp|
  {
    if exp == [] {
      assert exp + rest == rest;
    } else if exp[1] == PLUS || exp[1] == MINUS {
      assert exp[2..] == [] ==> !AllDigits(exp[2..]);
      DigitsRead(exp[2..], rest);
      assert (exp + rest)[2..] == exp[2..] + rest;
    } else {
      DigitsRead(exp[1..], rest);
      assert (exp + rest)[1..] == exp[1..] + rest;
    }
  }

  lemma IntStarts(int_: Text)
    requires IsInt(int_)
    ensures int_ != [] && IsDigit(int_[0])
  {}

  lemma DropFront(a: Text, b: Text, c: Text, d: Text)
    ensures var t := a + (b + (c + d));
            t[|a|..] == b + (c + d) && t[|a| + |b|..] == c + d && t[|a| + |b| + |c|..] == d
  {}

  lemma Reassociate(a: Text, b: Text, c: Text, d: Text, rest: Text)
    ensures a + (b + (c + d)) + rest == a + (b + (c + (d + rest)))
  {}

  lemma ExpEndsDigits(exp: Text, rest: Text)
    requires EndsNumber(rest) && (exp == [] || IsExp(exp))
    ensures EndsDigits(exp + rest) && (exp + rest == [] || (exp + rest)[0] != POINT)
  {
    if exp == [] { assert exp + rest == rest; }
  }

  lemma FracEndsDigits(frac: Text, tail: Text)
    requires EndsDigits(tail) && (frac == [] || IsFrac(frac))
    ensures EndsDigits(frac + tail)
  {
    if frac == [] { assert frac + tail == tail; }
  }

  lemma Measured(minus: Text, int_: Text, frac: Text, tail: Text)
    requires (minus == [] || minus == [MINUS]) && int_ != [] && int_[0] != MINUS
    requires IntLength(int_ + (frac + tail)) == |int_| && FracLength(frac + tail) == |frac|
    ensures NumberLength(minus + (int_ + (frac + tail))) == |minus| + |int_| + |frac| + ExpLength(tail)
  {
    hide DigitsLength, IntLength, FracLength, ExpLength;
    DropFront(minus, int_, frac, tail);
    var t := minus + (int_ + (frac + tail));
    assert t[0] == if minus == [] then int_[0] else MINUS;
  }

  lemma PartsRead(minus: Text, int_: Text, frac: Text, exp: Text, rest: Text)
    requires (minus == [] || minus == [MINUS]) && IsInt(int_) && (frac == [] || IsFrac(frac)) && (exp == [] || IsExp(exp))
    requires EndsNumber(rest)
    ensures NumberLength(minus + (int_ + (frac + (exp + rest)))) == |minus| + |int_| + |frac| + |exp|
  {
    hide DigitsLength, IntLength, FracLength, ExpLength, NumberLength, IsInt, IsFrac, IsExp, EndsNumber, EndsDigits;
    var tail := exp + rest;
    ExpEndsDigits(exp, rest);
    FracEndsDigits(frac, tail);
    IntStarts(int_);
    ExpReads(exp, rest);
    FracReads(frac, tail);
    IntReads(int_, frac + tail);
    Measured(minus, int_, frac, tail);
  }

  /** The reader takes exactly the number. */
  lemma NumberReads(lexeme: Text, rest: Text)
    requires IsLexeme(lexeme) && EndsNumber(rest)
    ensures NumberLength(lexeme + rest) == |lexeme| > 0
    ensures lexeme[0] == MINUS || IsDigit(lexeme[0])
  {
    var minus, int_, frac, exp :| IsNumber(lexeme, minus, int_, frac, exp);
    PartsRead(minus, int_, frac, exp, rest);
    Reassociate(minus, int_, frac, exp, rest);
    IntStarts(int_);
    hide NumberLength, IsInt, IsFrac, IsExp;
    assert lexeme[0] == if minus == [] then int_[0] else MINUS;
  }

  // ------------------------------------------------------------------ values

  /** The first unit of a printed value tells the reader which branch to take. */
  lemma PrintStarts(v: Json)
    requires Wf(v)
    ensures Print(v) != []
    ensures Print(v)[0] !in {CLOSE_ARRAY, CLOSE_OBJECT, COMMA, COLON, LETTER_U}
  {
    if v.Num? {
      NumberReads(v.lexeme, []);
    }
  }

  lemma StringReads(s: Text, rest: Text)
    ensures ReadValue(Quote(s) + rest) == Got(Str(s), rest)
  {
    hide ReadChars, ReadItems, ReadMembers;
    QuoteReads(s, rest);
    var t := Quote(s) + rest;
    assert t[0] == QUOTE && t[0] != NULL[0] && t[0] != TRUE[0] && t[0] != FALSE[0];
  }

  lemma LexemeReads(lexeme: Text, rest: Text)
    requires IsLexeme(lexeme) && EndsNumber(rest)
    ensures ReadValue(lexeme + rest) == Got(Num(lexeme), rest)
  {
    hide ReadChars, ReadItems, ReadMembers, NumberLength, IsLexeme, EndsNumber;
    NumberReads(lexeme, rest);
    var t := lexeme + rest;
    assert t[..|lexeme|] == lexeme && t[|lexeme|..] == rest;
    assert t[0] == lexeme[0];
    assert t[0] != NULL[0] && t[0] != TRUE[0] && t[0] != FALSE[0];
  }

  lemma LiteralsRead(rest: Text)
    ensures ReadValue(NULL + rest) == Got(Null, rest)
    ensures ReadValue(TRUE + rest) == Got(Bool(true), rest)
    ensures ReadValue(FALSE + rest) == Got(Bool(false), rest)
  {
    assert (NULL + rest)[..4] == NULL && (NULL + rest)[4..] == rest;
    assert (TRUE + rest)[..4] == TRUE && (TRUE + rest)[4..] == rest && (TRUE + rest)[0] == TRUE[0];
    assert (FALSE + rest)[..5] == FALSE && (FALSE + rest)[5..] == rest && (FALSE + rest)[0] == FALSE[0];
    assert NULL[0] != TRUE[0] && NULL[0] != FALSE[0] && TRUE[0] != FALSE[0];
  }

  lemma ScalarReads(v: Json, rest: Text)
    requires Wf(v) && !v.Arr? && !v.Obj? && EndsNumber(rest)
    ensures ReadValue(Print(v) + rest) == Got(Canon(v), rest)
  {
    hide ReadValue, Quote;
    match v
    case Str(s) => StringReads(s, rest);
    case Num(lexeme) => LexemeReads(lexeme, rest);
    case _ => LiteralsRead(rest);
  }

  lemma ArrayReads(t: Text, items: seq<Json>, rest: Text)
    requires ReadItems(t) == Got(items, rest) && t != [] && t[0] != CLOSE_ARRAY
    ensures ReadValue([OPEN_ARRAY] + t) == Got(Arr(items), rest)
  {
    hide ReadMembers, ReadItems, ReadChars, NumberLength;
    var s := [OPEN_ARRAY] + t;
    assert s[1..] == t && s[0] == OPEN_ARRAY && s[1] == t[0];
    assert s[0] != NULL[0] && s[0] != TRUE[0] && s[0] != FALSE[0];
  }

  lemma {:induction false} ObjectReads(t: Text, members: seq<(Text, Json)>, rest: Text)
    requires ReadMembers(t) == Got(members, rest) && t != [] && t[0] != CLOSE_OBJECT
    ensures ReadValue([OPEN_OBJECT] + t) == Got(Obj(members), rest)
  {
    hide ReadMembers, ReadItems, ReadChars, NumberLength;
    var s := [OPEN_OBJECT] + t;
    assert s[1..] == t && s[0] == OPEN_OBJECT && s[1] == t[0];
    assert s[0] != NULL[0] && s[0] != TRUE[0] && s[0] != FALSE[0];
  }

  lemma EmptyReads(rest: Text)
    ensures ReadValue([OPEN_ARRAY, CLOSE_ARRAY] + rest) == Got(Arr([]), rest)
    ensures ReadValue([OPEN_OBJECT, CLOSE_OBJECT] + rest) == Got(Obj([]), rest)
  {
    assert ([OPEN_ARRAY, CLOSE_ARRAY] + rest)[2..] == rest;
    assert ([OPEN_OBJECT, CLOSE_OBJECT] + rest)[2..] == rest;
  }

  lemma LastItemReads(t: Text, x: Json, rest: Text)
    requires ReadValue(t) == Got(x, [CLOSE_ARRAY] + rest)
    ensures ReadItems(t) == Got([x], rest)
  {
  }

  lemma NextItemReads(t: Text, x: Json, tail: Text, xs: seq<Json>, rest: Text)
    requires ReadValue(t) == Got(x, [COMMA] + tail) && ReadItems(tail) == Got(xs, rest)
    ensures ReadItems(t) == Got([x] + xs, rest)
  {
  }

  lemma LastMemberReads(k: Text, t: Text, x: Json, rest: Text)
    requires ReadValue(t) == Got(x, [CLOSE_OBJECT] + rest)
    ensures ReadMembers(Quote(k) + ([COLON] + t)) == Got([(k, x)], rest)
  {
    QuoteReads(k, [COLON] + t);
    assert ([COLON] + t)[1..] == t;
  }

  lemma {:induction false} NextMemberReads(k: Text, t: Text, x: Json, tail: Text, xs: seq<(Text, Json)>, rest: Text)
    requires ReadValue(t) == Got(x, [COMMA] + tail) && ReadMembers(tail) == Got(xs, rest)
    ensures ReadMembers(Quote(k) + ([COLON] + t)) == Got([(k, x)] + xs, rest)
  {
    QuoteReads(k, [COLON] + t);
    assert ([COLON] + t)[1..] == t;
  }

  lemma {:induction false} ValueReads(v: Json, rest: Text)
    requires Wf(v) && EndsNumber(rest)
    ensures ReadValue(Print(v) + rest) == Got(Canon(v), rest)
    decreases v, 2
  {
    hide ReadValue, Print, Canon;
    match v
    case Arr(items) => ArrReads(v, rest);
    case Obj(ms) => ObjReads(v, rest);
    case _ => ScalarReads(v, rest);
  }

  lemma ItemsStart(items: seq<Json>)
    requires items != [] && Wf(items[0])
    ensures PrintItems(items) != [] && PrintItems(items)[0] != CLOSE_ARRAY
  {
    PrintStarts(items[0]);
    hide Print;
  }

  lemma {:induction false} ArrReads(v: Json, rest: Text)
    requires v.Arr? && Wf(v)
    ensures ReadValue(Print(v) + rest) == Got(Canon(v), rest)
    decreases v, 1
  {
    hide ReadValue, ReadItems, Quote, Escape;
    var items := v.items;
    if items == [] {
      EmptyReads(rest);
      assert Print(v) + rest == [OPEN_ARRAY, CLOSE_ARRAY] + rest;
    } else {
      ItemsRead(items, rest);
      var body := PrintItems(items);
      ItemsStart(items);
      assert Print(v) == [OPEN_ARRAY] + body + [CLOSE_ARRAY] && Canon(v) == Arr(CanonItems(items));
      hide Print, PrintItems, Canon, CanonItems;
      var t := body + [CLOSE_ARRAY] + rest;
      ArrayReads(t, CanonItems(items), rest);
      assert [OPEN_ARRAY] + body + [CLOSE_ARRAY] + rest == [OPEN_ARRAY] + t;
    }
  }

  lemma MembersStart(keys: seq<Text>, v: Json)
    requires v.Obj? && keys != [] && forall i | 0 <= i < |keys| :: keys[i] in Keys(v.members)
    ensures PrintMembers(keys, v) != [] && PrintMembers(keys, v)[0] == QUOTE
  {
    hide Quote, Print, Lookup;
    QuoteReads(keys[0], []);
  }

  lemma {:induction false} ObjReads(v: Json, rest: Text)
    requires v.Obj? && Wf(v)
    ensures ReadValue(Print(v) + rest) == Got(Canon(v), rest)
    decreases v, 1
  {
    hide ReadValue, ReadMembers, Quote, Wf, Lookup, Escape;
    var keys := SortedKeys(v.members);
    if keys == [] {
      EmptyReads(rest);
      assert PrintMembers(keys, v) == [];
      assert Print(v) + rest == [OPEN_OBJECT, CLOSE_OBJECT] + rest;
    } else {
      MembersRead(keys, v, rest);
      var body := PrintMembers(keys, v);
      MembersStart(keys, v);
      assert Print(v) == [OPEN_OBJECT] + body + [CLOSE_OBJECT] && Canon(v) == Obj(CanonMembers(keys, v));
      hide Print, PrintMembers, Canon, CanonMembers;
      var t := body + [CLOSE_OBJECT] + rest;
      ObjectReads(t, CanonMembers(keys, v), rest);
      assert [OPEN_OBJECT] + body + [CLOSE_OBJECT] + rest == [OPEN_OBJECT] + t;
    }
  }

  lemma {:induction false} ItemsRead(items: seq<Json>, rest: Text)
    requires items != [] && forall i | 0 <= i < |items| :: Wf(items[i])
    ensures ReadItems(PrintItems(items) + [CLOSE_ARRAY] + rest) == Got(CanonItems(items), rest)
    decreases items
  {
    hide ReadValue, ReadItems, Print, Canon;
    assert CanonItems(items) == [Canon(items[0])] + CanonItems(items[1..]);
    var t := PrintItems(items) + [CLOSE_ARRAY] + rest;
    if |items| == 1 {
      ValueReads(items[0], [CLOSE_ARRAY] + rest);
      assert t == Print(items[0]) + ([CLOSE_ARRAY] + rest);
      LastItemReads(t, Canon(items[0]), rest);
      assert CanonItems(items) == [Canon(items[0])];
    } else {
      var tail := PrintItems(items[1..]) + [CLOSE_ARRAY] + rest;
      ValueReads(items[0], [COMMA] + tail);
      assert t == Print(items[0]) + ([COMMA] + tail);
      ItemsRead(items[1..], rest);
      NextItemReads(t, Canon(items[0]), tail, CanonItems(items[1..]), rest);
    }
  }

  lemma {:induction false} MembersRead(keys: seq<Text>, v: Json, rest: Text)
    requires v.Obj? && Wf(v) && keys != [] && forall i | 0 <= i < |keys| :: keys[i] in Keys(v.members)
    ensures ReadMembers(PrintMembers(keys, v) + [CLOSE_OBJECT] + rest) == Got(CanonMembers(keys, v), rest)
    decreases v, 0, |keys|
  {
    hide ReadValue, ReadMembers, Print, Canon, Quote;
    var x := Lookup(v.members, keys[0]);
    assert CanonMembers(keys, v) == [(keys[0], Canon(x))] + CanonMembers(keys[1..], v);
    var t := PrintMembers(keys, v) + [CLOSE_OBJECT] + rest;
    if |keys| == 1 {
      ValueReads(x, [CLOSE_OBJECT] + rest);
      assert t == Quote(keys[0]) + ([COLON] + (Print(x) + ([CLOSE_OBJECT] + rest)));
      LastMemberReads(keys[0], Print(x) + ([CLOSE_OBJECT] + rest), Canon(x), rest);
      assert CanonMembers(keys, v) == [(keys[0], Canon(x))];
    } else {
      var tail := PrintMembers(keys[1..], v) + [CLOSE_OBJECT] + rest;
      ValueReads(x, [COMMA] + tail);
      assert t == Quote(keys[0]) + ([COLON] + (Print(x) + ([COMMA] + tail)));
      MembersRead(keys[1..], v, rest);
      NextMemberReads(keys[0], Print(x) + ([COMMA] + tail), Canon(x), tail, CanonMembers(keys[1..], v), rest);
    }
  }

  /** The reader inverts the printer up to the order of object members. */
  lemma ReadInvertsPrint(v: Json)
    requires Wf(v)
    ensures Read(Print(v)) == Got(Canon(v), [])
  {
    ValueReads(v, []);
    assert Print(v) + [] == Print(v);
  }

  // ------------------------------------------------------------------ equality of texts

  lemma {:induction false} LookupFinds(ms: seq<(Text, Json)>, i: nat)
    requires i < |ms| && Distinct(Keys(ms))
    ensures ms[i].0 in Keys(ms) && Lookup(ms, ms[i].0) == ms[i].1
  {
    assert Keys(ms)[i] == ms[i].0;
    var v := Lookup(ms, ms[i].0);
    var j :| 0 <= j < |ms| && ms[j] == (ms[i].0, v);
    assert Keys(ms)[j] == Keys(ms)[i];
  }

  /** Two objects with the same keys, whatever their order, list the same sorted keys. */
  lemma SameKeysSortSame(ms: seq<(Text, Json)>, ns: seq<(Text, Json)>)
    requires Distinct(Keys(ms)) && Distinct(Keys(ns))
    requires forall k :: k in Keys(ms) <==> k in Keys(ns)
    ensures SortedKeys(ms) == SortedKeys(ns)
  {
    var a, b := Keys(ms), Keys(ns);
    DistinctCounts(a);
    DistinctCounts(b);
    forall k ensures multiset(a)[k] == multiset(b)[k] {
      assert k in a <==> k in multiset(a);
      assert k in b <==> k in multiset(b);
    }
    assert multiset(a) == multiset(b);
    LexIsTotalOrder();
    SortForgetsOrder(LexLe, a, b);
  }

  lemma {:induction false} DistinctSize<T>(xs: seq<T>)
    requires Distinct(xs)
    ensures |set x | x in xs| == |xs|
  {
    if xs != [] {
      DistinctSize(xs[1..]);
      assert (set x | x in xs) == {xs[0]} + set x | x in xs[1..];
    }
  }

  lemma EqualBySize<T>(a: set<T>, b: set<T>)
    requires a <= b && |a| == |b|
    ensures a == b
  {
    assert |b - a| == |b| - |a|;
    assert b == a + (b - a);
  }

  lemma SameMembersHaveSameKeys(ms: seq<(Text, Json)>, ns: seq<(Text, Json)>)
    requires Distinct(Keys(ms)) && Distinct(Keys(ns)) && |ms| == |ns|
    requires forall i | 0 <= i < |ms| :: ms[i].0 in Keys(ns)
    ensures forall k :: k in Keys(ms) <==> k in Keys(ns)
  {
    var a, b := set k | k in Keys(ms), set k | k in Keys(ns);
    DistinctSize(Keys(ms));
    DistinctSize(Keys(ns));
    assert a <= b by {
      forall k | k in a ensures k in b {
        var i :| 0 <= i < |ms| && Keys(ms)[i] == k;
        assert ms[i].0 == k;
      }
    }
    EqualBySize(a, b);
    forall k ensures k in Keys(ms) <==> k in Keys(ns) {
      assert k in a <==> k in b;
    }
  }

  /** Values that are the same up to key order print the same text. */
  lemma {:induction false} SameValuePrintsSame(a: Json, b: Json)
    requires Wf(a) && Wf(b) && SameValue(a, b)
    ensures Print(a) == Print(b)
    decreases a
  {
    match (a, b)
    case (Arr(xs), Arr(ys)) => SameItemsPrintSame(xs, ys);
    case (Obj(ms), Obj(ns)) =>
      forall i: nat | i < |ms| ensures ms[i].0 in Keys(ns) {
        assert HasMatch(a, b, i);
        var j: nat :| j < |ns| && ms[i].0 == ns[j].0 && SameValue(ms[i].1, ns[j].1);
        assert Keys(ns)[j] == ms[i].0;
      }
      SameMembersHaveSameKeys(ms, ns);
      SameKeysSortSame(ms, ns);
      SameMembersPrintSame(SortedKeys(ms), a, b);
    case _ =>
  }

  lemma {:induction false} SameItemsPrintSame(xs: seq<Json>, ys: seq<Json>)
    requires |xs| == |ys|
    requires forall i | 0 <= i < |xs| :: Wf(xs[i]) && Wf(ys[i]) && SameValue(xs[i], ys[i])
    ensures PrintItems(xs) == PrintItems(ys)
    decreases xs
  {
    if xs != [] {
      SameValuePrintsSame(xs[0], ys[0]);
      SameItemsPrintSame(xs[1..], ys[1..]);
    }
  }

  lemma MatchingMember(a: Json, b: Json, key: Text) returns (i: nat, j: nat)
    requires a.Obj? && b.Obj? && Wf(a) && Wf(b) && SameValue(a, b) && key in Keys(a.members)
    ensures i < |a.members| && j < |b.members| && key in Keys(b.members)
    ensures a.members[i].1 == Lookup(a.members, key) && b.members[j].1 == Lookup(b.members, key)
    ensures SameValue(a.members[i].1, b.members[j].1) && Wf(a.members[i].1) && Wf(b.members[j].1)
  {
    i :| 0 <= i < |a.members| && Keys(a.members)[i] == key;
    assert HasMatch(a, b, i);
    j :| j < |b.members| && a.members[i].0 == b.members[j].0 && SameValue(a.members[i].1, b.members[j].1);
    LookupFinds(a.members, i);
    LookupFinds(b.members, j);
  }

  lemma {:induction false} SameMembersPrintSame(keys: seq<Text>, a: Json, b: Json)
    requires a.Obj? && b.Obj? && Wf(a) && Wf(b) && SameValue(a, b)
    requires forall i | 0 <= i < |keys| :: keys[i] in Keys(a.members) && keys[i] in Keys(b.members)
    ensures PrintMembers(keys, a) == PrintMembers(keys, b)
    decreases a, |keys|
  {
    if keys != [] {
      hide Wf, SameValue, Print, Quote;
      var i, j := MatchingMember(a, b, keys[0]);
      SameValuePrintsSame(a.members[i].1, b.members[j].1);
      SameMembersPrintSame(keys[1..], a, b);
    }
  }

  /** Values with the same canonical form are the same up to key order. */
  lemma {:induction false} CanonDeterminesValue(a: Json, b: Json)
    requires Wf(a) && Wf(b) && Canon(a) == Canon(b)
    ensures SameValue(a, b)
    decreases a, 2
  {
    if a.Arr? {
      CanonDeterminesArray(a, b);
    } else if a.Obj? {
      CanonDeterminesObject(a, b);
    }
  }

  lemma {:induction false} CanonDeterminesArray(a: Json, b: Json)
    requires a.Arr? && Wf(a) && Wf(b) && Canon(a) == Canon(b)
    ensures SameValue(a, b)
    decreases a, 1
  {
    assert b.Arr?;
    var cs := CanonItems(a.items);
    assert cs == CanonItems(b.items);
    forall i | 0 <= i < |a.items| ensures SameValue(a.items[i], b.items[i]) {
      assert cs[i] == Canon(a.items[i]) == Canon(b.items[i]);
      CanonDeterminesValue(a.items[i], b.items[i]);
    }
  }

  lemma {:induction false} CanonSizes(a: Json, b: Json)
    requires a.Obj? && Canon(a) == Canon(b)
    ensures b.Obj? && |a.members| == |b.members|
  {
    assert Canon(a) == Obj(CanonMembers(SortedKeys(a.members), a));
    assert b.Obj?;
    assert Canon(b) == Obj(CanonMembers(SortedKeys(b.members), b));
    SortedKeysAreKeys(a.members);
    SortedKeysAreKeys(b.members);
    assert |SortedKeys(a.members)| == |SortedKeys(b.members)|;
  }

  lemma SameIfMatched(a: Json, b: Json)
    requires a.Obj? && b.Obj? && |a.members| == |b.members|
    requires forall i: nat | i < |a.members| :: HasMatch(a, b, i)
    ensures SameValue(a, b)
  {
  }

  lemma {:induction false} CanonDeterminesObject(a: Json, b: Json)
    requires a.Obj? && Wf(a) && Wf(b) && Canon(a) == Canon(b)
    ensures SameValue(a, b)
    decreases a, 1
  {
    hide SameValue, Wf, Canon;
    CanonSizes(a, b);
    forall i: nat | i < |a.members| ensures HasMatch(a, b, i) {
      var j := CanonDeterminesMember(a, b, i);
    }
    SameIfMatched(a, b);
  }

  lemma {:induction false} CanonMatch(a: Json, b: Json, i: nat) returns (j: nat)
    requires a.Obj? && b.Obj? && Wf(a) && Wf(b) && Canon(a) == Canon(b) && i < |a.members|
    ensures j < |b.members| && a.members[i].0 == b.members[j].0
    ensures Canon(a.members[i].1) == Canon(b.members[j].1) && Wf(a.members[i].1) && Wf(b.members[j].1)
  {
    var ms, ns := a.members, b.members;
    var ks, ls := SortedKeys(ms), SortedKeys(ns);
    SortedKeysAreKeys(ms);
    assert CanonMembers(ks, a) == CanonMembers(ls, b);
    LookupFinds(ms, i);
    var p :| 0 <= p < |ks| && ks[p] == ms[i].0;
    assert CanonMembers(ks, a)[p] == (ks[p], Canon(ms[i].1));
    assert CanonMembers(ls, b)[p] == (ls[p], Canon(Lookup(ns, ls[p])));
    j :| 0 <= j < |ns| && Keys(ns)[j] == ls[p];
    LookupFinds(ns, j);
  }

  lemma {:induction false} CanonDeterminesMember(a: Json, b: Json, i: nat) returns (j: nat)
    requires a.Obj? && b.Obj? && Wf(a) && Wf(b) && Canon(a) == Canon(b) && i < |a.members|
    ensures j < |b.members| && a.members[i].0 == b.members[j].0 && SameValue(a.members[i].1, b.members[j].1)
    decreases a, 0
  {
    j := CanonMatch(a, b, i);
    hide SameValue, Canon;
    CanonDeterminesValue(a.members[i].1, b.members[j].1);
  }

  /** The canonical text is a complete invariant: equal texts exactly when equal up to key order. */
  lemma PrintEqualIffSameValue(a: Json, b: Json)
    requires Wf(a) && Wf(b)
    ensures Print(a) == Print(b) <==> SameValue(a, b)
  {
    if SameValue(a, b) {
      SameValuePrintsSame(a, b);
    }
    if Print(a) == Print(b) {
      ReadInvertsPrint(a);
      ReadInvertsPrint(b);
      CanonDeterminesValue(a, b);
    }
  }

  // ------------------------------------------------------------------ the second copy

  lemma {:induction false} CanonicalizeIsPrint(v: Json)
    ensures Canonicalize(v) == Print(v)
    decreases v
  {
    match v
    case Arr(items) => CanonicalizeItemsIsPrint(items);
    case Obj(ms) => CanonicalizeMembersIsPrint(SortedKeys(ms), v);
    case _ =>
  }

  lemma {:induction false} CanonicalizeItemsIsPrint(items: seq<Json>)
    ensures CanonicalizeItems(items) == PrintItems(items)
    decreases items
  {
    if items != [] {
      CanonicalizeIsPrint(items[0]);
      CanonicalizeItemsIsPrint(items[1..]);
      assert Print(items[0]) + [] == Print(items[0]);
      assert Print(items[0]) + [COMMA] + PrintItems(items[1..])
          == Print(items[0]) + ([COMMA] + PrintItems(items[1..]));
    }
  }

  lemma {:induction false} CanonicalizeMembersIsPrint(keys: seq<Text>, v: Json)
    requires v.Obj? && forall i | 0 <= i < |keys| :: keys[i] in Keys(v.members)
    ensures CanonicalizeMembers(keys, v) == PrintMembers(keys, v)
    decreases v, |keys|
  {
    if keys != [] {
      CanonicalizeIsPrint(Lookup(v.members, keys[0]));
      CanonicalizeMembersIsPrint(keys[1..], v);
      var first := Quote(keys[0]) + [COLON] + Print(Lookup(v.members, keys[0]));
      assert first + [] == first;
      assert first + [COMMA] + PrintMembers(keys[1..], v) == first + ([COMMA] + PrintMembers(keys[1..], v));
    }
  }
}
