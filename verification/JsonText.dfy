/** The printed text spelled out unit by unit, as section 3.2.2 of RFC 8785 and JSON.stringify spell it. */
module JsonText {
  import opened Utf16
  import opened Sorting
  import opened StableJson

  // ------------------------------------------------------------------ strings

  /** The unit is half of no pair. */
  predicate LoneAt(s: Text, i: nat)
    requires i < |s|
  {
    || (0xD800 <= s[i] <= 0xDBFF && !(i + 1 < |s| && 0xDC00 <= s[i + 1] <= 0xDFFF))
    || (0xDC00 <= s[i] <= 0xDFFF && !(i > 0 && 0xD800 <= s[i - 1] <= 0xDBFF))
  }

  /** `0123456789abcdef`. */
  const LOWER_HEX: seq<Unit> := [48, 49, 50, 51, 52, 53, 54, 55, 56, 57, 97, 98, 99, 100, 101, 102]

  /** How the unit at a position is spelled. */
  function SpelledAt(s: Text, i: nat): Text
    requires i < |s|
  {
    var u := s[i];
    if u == 8 then [92, 98]
    else if u == 9 then [92, 116]
    else if u == 10 then [92, 110]
    else if u == 12 then [92, 102]
    else if u == 13 then [92, 114]
    else if u == 34 then [92, 34]
    else if u == 92 then [92, 92]
    else if u < 32 || LoneAt(s, i) then
      [92, 117, LOWER_HEX[u / 4096 % 16], LOWER_HEX[u / 256 % 16], LOWER_HEX[u / 16 % 16], LOWER_HEX[u % 16]]
    else [u]
  }

  function Spelled(s: Text, i: nat): Text
    requires i <= |s|
    decreases |s| - i
  {
    if i == |s| then [] else SpelledAt(s, i) + Spelled(s, i + 1)
  }

  predicate InsidePair(s: Text, i: nat)
    requires i <= |s|
  {
    0 < i < |s| && 0xD800 <= s[i - 1] <= 0xDBFF && 0xDC00 <= s[i] <= 0xDFFF
  }

  lemma HexIsLower(n: nat)
    requires n < 16
    ensures HexDigit(n) == LOWER_HEX[n]
  {}

  lemma UnitIsSpelled(s: Text, i: nat)
    requires i < |s| && !InsidePair(s, i) && !(i + 1 < |s| && IsHigh(s[i]) && IsLow(s[i + 1]))
    ensures EscapeUnit(s[i]) == SpelledAt(s, i)
  {
    var u := s[i];
    HexIsLower(u / 4096);
    HexIsLower(u / 256 % 16);
    HexIsLower(u / 16 % 16);
    HexIsLower(u % 16);
    hide HexDigit, LOWER_HEX;
    assert u / 4096 % 16 == u / 4096;
  }

  lemma PairIsSpelled(s: Text, i: nat)
    requires i + 1 < |s| && IsHigh(s[i]) && IsLow(s[i + 1])
    ensures SpelledAt(s, i) == [s[i]] && SpelledAt(s, i + 1) == [s[i + 1]]
  {}

  lemma SpelledPair(s: Text, i: nat)
    requires i + 1 < |s| && IsHigh(s[i]) && IsLow(s[i + 1])
    ensures Spelled(s, i) == [s[i], s[i + 1]] + Spelled(s, i + 2)
  {
    PairIsSpelled(s, i);
    hide SpelledAt;
    assert Spelled(s, i) == [s[i]] + Spelled(s, i + 1);
    assert Spelled(s, i + 1) == [s[i + 1]] + Spelled(s, i + 2);
  }

  lemma EscapedPairAt(s: Text, i: nat)
    requires i + 1 < |s| && IsHigh(s[i]) && IsLow(s[i + 1])
    ensures Escape(s[i..]) == [s[i], s[i + 1]] + Escape(s[i + 2..])
  {
    var t := s[i..];
    assert t[2..] == s[i + 2..] && t[..2] == [s[i], s[i + 1]];
  }

  lemma EscapedUnitAt(s: Text, i: nat)
    requires i < |s| && !(i + 1 < |s| && IsHigh(s[i]) && IsLow(s[i + 1]))
    ensures Escape(s[i..]) == EscapeUnit(s[i]) + Escape(s[i + 1..])
  {
    hide EscapeUnit;
    var t := s[i..];
    assert t[1..] == s[i + 1..];
  }

  lemma {:induction false} EscapeIsSpelled(s: Text, i: nat)
    requires i <= |s| && !InsidePair(s, i)
    ensures Escape(s[i..]) == Spelled(s, i)
    decreases |s| - i
  {
    hide EscapeUnit, SpelledAt;
    if i < |s| {
      if i + 1 < |s| && IsHigh(s[i]) && IsLow(s[i + 1]) {
        SpelledPair(s, i);
        EscapedPairAt(s, i);
        hide Escape, Spelled;
        EscapeIsSpelled(s, i + 2);
      } else {
        UnitIsSpelled(s, i);
        EscapedUnitAt(s, i);
        hide Escape;
        EscapeIsSpelled(s, i + 1);
      }
    }
  }

  /** A string prints between quotes, every unit spelled as JSON.stringify spells it. */
  lemma StringText(s: Text)
    ensures Print(Str(s)) == [34] + Spelled(s, 0) + [34]
  {
    EscapeIsSpelled(s, 0);
    assert s[0..] == s;
  }

  predicate IsPlain(s: Text) {
    forall i | 0 <= i < |s| :: s[i] >= 32 && s[i] != 34 && s[i] != 92 && !LoneAt(s, i)
  }

  lemma {:induction false} PlainIsSpelled(s: Text, i: nat)
    requires i <= |s| && IsPlain(s)
    ensures Spelled(s, i) == s[i..]
    decreases |s| - i
  {
    if i < |s| {
      PlainIsSpelled(s, i + 1);
      assert s[i..] == [s[i]] + s[i + 1..];
    }
  }

  /** A text without quote, backslash, control or lone surrogate prints as itself between quotes; a slash is no exception. */
  lemma PlainStringText(s: Text)
    requires IsPlain(s)
    ensures Print(Str(s)) == [34] + s + [34]
  {
    StringText(s);
    PlainIsSpelled(s, 0);
    assert s[0..] == s;
  }

  // ------------------------------------------------------------------ the rest

  /** Texts separated by commas. */
  function Separated(parts: seq<Text>): Text {
    if parts == [] then [] else if |parts| == 1 then parts[0] else parts[0] + [44] + Separated(parts[1..])
  }

  lemma ScalarTexts(lexeme: Text)
    ensures Print(Null) == [110, 117, 108, 108]
    ensures Print(Bool(true)) == [116, 114, 117, 101] && Print(Bool(false)) == [102, 97, 108, 115, 101]
    ensures Print(Num(lexeme)) == lexeme
  {}

  lemma {:induction false} ItemsText(items: seq<Json>)
    ensures PrintItems(items) == Separated(seq(|items|, i requires 0 <= i < |items| => Print(items[i])))
  {
    hide Print;
    var texts := seq(|items|, i requires 0 <= i < |items| => Print(items[i]));
    if |items| > 1 {
      ItemsText(items[1..]);
      assert texts[1..] == seq(|items[1..]|, i requires 0 <= i < |items[1..]| => Print(items[1..][i]));
      assert PrintItems(items) == Print(items[0]) + ([44] + PrintItems(items[1..]));
      assert Separated(texts) == texts[0] + [44] + Separated(texts[1..]);
    } else if |items| == 1 {
      assert PrintItems(items) == Print(items[0]) + [];
    }
  }

  /** An array prints its items' texts between brackets, separated by commas and nothing else. */
  lemma ArrayText(items: seq<Json>)
    ensures Print(Arr(items)) == [91] + Separated(seq(|items|, i requires 0 <= i < |items| => Print(items[i]))) + [93]
  {
    ItemsText(items);
  }

  function MemberText(v: Json, key: Text): Text
    requires v.Obj? && key in Keys(v.members)
  {
    Print(Str(key)) + [58] + Print(Lookup(v.members, key))
  }

  lemma {:induction false} MembersText(keys: seq<Text>, v: Json)
    requires v.Obj? && forall i | 0 <= i < |keys| :: keys[i] in Keys(v.members)
    ensures PrintMembers(keys, v) == Separated(seq(|keys|, i requires 0 <= i < |keys| => MemberText(v, keys[i])))
    decreases |keys|
  {
    hide Lookup, Quote;
    var texts := seq(|keys|, i requires 0 <= i < |keys| => MemberText(v, keys[i]));
    if keys != [] {
      assert MemberText(v, keys[0]) == Quote(keys[0]) + [58] + Print(Lookup(v.members, keys[0]));
      if |keys| > 1 {
        MembersText(keys[1..], v);
        assert texts[1..] == seq(|keys[1..]|, i requires 0 <= i < |keys[1..]| => MemberText(v, keys[1..][i]));
        hide Print;
        assert PrintMembers(keys, v) == MemberText(v, keys[0]) + ([44] + PrintMembers(keys[1..], v));
        assert Separated(texts) == texts[0] + [44] + Separated(texts[1..]);
      } else {
        hide Print;
        assert PrintMembers(keys, v) == MemberText(v, keys[0]) + [];
      }
    }
  }

  /** `a` comes before `b`: it is a proper prefix, or smaller at the first unit where they differ. */
  ghost predicate Before(a: Text, b: Text) {
    || (|a| < |b| && b[..|a|] == a)
    || exists i | 0 <= i < |a| && i < |b| :: a[..i] == b[..i] && a[i] < b[i]
  }

  lemma DifferentFirst(a: Text, b: Text)
    requires a != [] && b != [] && a[0] != b[0]
    ensures Before(a, b) <==> a[0] < b[0]
  {
    if a[0] < b[0] {
      assert a[..0] == b[..0];
    } else {
      assert |a| < |b| ==> b[..|a|][0] == b[0];
      forall i | 0 < i < |a| && i < |b| ensures a[..i] != b[..i] {
        assert a[..i][0] == a[0] && b[..i][0] == b[0];
      }
    }
  }

  lemma BeforeTail(a: Text, b: Text)
    requires a != [] && b != [] && a[0] == b[0]
    ensures Before(a, b) <==> Before(a[1..], b[1..])
  {
    var x, y := a[1..], b[1..];
    if |a| < |b| {
      assert b[..|a|] == [b[0]] + y[..|x|] && a == [a[0]] + x;
      assert b[..|a|][1..] == y[..|x|] && a[1..] == x;
    }
    forall i | 0 <= i < |x| && i < |y| ensures a[..i + 1] == b[..i + 1] <==> x[..i] == y[..i] {
      assert a[..i + 1] == [a[0]] + x[..i] && b[..i + 1] == [b[0]] + y[..i];
      assert a[..i + 1][1..] == x[..i] && b[..i + 1][1..] == y[..i];
    }
    if i :| 0 <= i < |x| && i < |y| && x[..i] == y[..i] && x[i] < y[i] {
      assert a[..i + 1] == b[..i + 1] && a[i + 1] < b[i + 1];
    }
    if i :| 0 <= i < |a| && i < |b| && a[..i] == b[..i] && a[i] < b[i] {
      assert a[..(i - 1) + 1] == b[..(i - 1) + 1];
      assert x[..i - 1] == y[..i - 1] && x[i - 1] < y[i - 1];
    }
  }

  lemma {:induction false} LexMeansBefore(a: Text, b: Text)
    ensures LexLe(a, b) <==> a == b || Before(a, b)
  {
    if a == [] {
      assert b == [] || b[..0] == a;
    } else if b != [] {
      if a[0] == b[0] {
        LexMeansBefore(a[1..], b[1..]);
        assert a == [a[0]] + a[1..] && b == [b[0]] + b[1..];
        BeforeTail(a, b);
      } else {
        assert a[0] < b[0] ==> a[..0] == b[..0];
        DifferentFirst(a, b);
      }
    }
  }

  lemma KeysAscend(ms: seq<(Text, Json)>)
    requires Distinct(Keys(ms))
    ensures var keys := SortedKeys(ms);
            && |keys| == |ms| && (forall k :: k in keys <==> k in Keys(ms))
            && forall i, j | 0 <= i < j < |keys| :: Before(keys[i], keys[j])
  {
    var keys := SortedKeys(ms);
    SortedKeysAreKeys(ms);
    LexIsTotalOrder();
    SortSorts(LexLe, Keys(ms));
    hide Before, LexLe;
    forall i, j | 0 <= i < j < |keys| ensures Before(keys[i], keys[j]) {
      assert LexLe(keys[i], keys[j]) && keys[i] != keys[j];
      LexMeansBefore(keys[i], keys[j]);
    }
  }

  /**
    An object prints its members between braces, each a key, a colon and a value, separated by commas, once per key
    and in ascending order of the keys' units.
  */
  lemma ObjectText(v: Json)
    requires v.Obj? && Wf(v)
    ensures exists keys: seq<Text> ::
              && |keys| == |v.members| && (forall k :: k in keys <==> k in Keys(v.members))
              && (forall i, j | 0 <= i < j < |keys| :: Before(keys[i], keys[j]))
              && Print(v) == [123] + Separated(seq(|keys|, i requires 0 <= i < |keys| => MemberText(v, keys[i]))) + [125]
  {
    var keys := SortedKeys(v.members);
    assert Print(v) == [123] + PrintMembers(keys, v) + [125];
    hide Before, MemberText, Separated, Print, PrintMembers, SortedKeys, LexLe;
    KeysAscend(v.members);
    MembersText(keys, v);
  }
}
