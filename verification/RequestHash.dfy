/**
  What `requestHash` fingerprints.  SHA-256 is taken to be injective, so two requests have the same hash
  exactly when their pre-images, the texts computed here, are equal.
*/
module RequestHash {
  import opened Utf16
  import opened Sorting
  import opened StableJson
  import opened JsonRoundTrip

  const NEWLINE: Unit := 10
  /** `idempotency_key`. */
  const IDEMPOTENCY_KEY: Text := [105, 100, 101, 109, 112, 111, 116, 101, 110, 99, 121, 95, 107, 101, 121]
  const UNDEFINED: Text := [117, 110, 100, 101, 102, 105, 110, 101, 100]

  /** `req.body`: absent, or what the body parser produced. */
  datatype Body = Undefined | Parsed(value: Json)

  /** The decimal text of an array index, as it appears as a property key. */
  function Decimal(n: nat): (t: Text)
    ensures t != []
  {
    if n < 10 then [48 + n] else Decimal(n / 10) + [48 + n % 10]
  }

  /** The number a digit text denotes. */
  function Denoted(t: Text): int {
    if t == [] then 0 else 10 * Denoted(t[..|t| - 1]) + t[|t| - 1] as int - 48
  }

  /** The decimal text denotes the index, in digits, without leading zeros. */
  lemma {:induction false} DecimalDenotes(n: nat)
    ensures Denoted(Decimal(n)) == n
    ensures forall i | 0 <= i < |Decimal(n)| :: 48 <= Decimal(n)[i] <= 57
    ensures Decimal(n)[0] == 48 ==> n == 0 && Decimal(n) == [48]
  {
    if n < 10 {
      assert [48 + n][..0] == [];
    } else {
      DecimalDenotes(n / 10);
      assert Decimal(n)[..|Decimal(n)| - 1] == Decimal(n / 10);
    }
  }

  function IndexMembers(items: seq<Json>): (ms: seq<(Text, Json)>)
    ensures |ms| == |items| && forall i | 0 <= i < |items| :: ms[i] == (Decimal(i), items[i])
  {
    seq(|items|, i requires 0 <= i < |items| => (Decimal(i), items[i]))
  }

  /** `{ ...body }`: an object stays what it is, an array becomes an object keyed by index. */
  function Spread(v: Json): Json {
    if v.Arr? then Obj(IndexMembers(v.items)) else v
  }

  function Without(ms: seq<(Text, Json)>, key: Text): seq<(Text, Json)> {
    if ms == [] then []
    else (if ms[0].0 == key then [] else [ms[0]]) + Without(ms[1..], key)
  }

  /** The body that is printed: spread, and with the key field deleted.  No field is configured as []. */
  function Prepared(body: Body, bodyField: Text): Body {
    if body.Undefined? then body
    else
      var v := Spread(body.value);
      Parsed(if v.Obj? && bodyField != [] then Obj(Without(v.members, bodyField)) else v)
  }

  function BodyText(body: Body): Text {
    if body.Undefined? then UNDEFINED else Print(body.value)
  }

  function RequestText(verb: Text, url: Text, body: Body, bodyField: Text): Text {
    verb + [NEWLINE] + url + [NEWLINE] + BodyText(Prepared(body, bodyField))
  }

  ghost predicate SameBody(a: Body, b: Body) {
    (a.Undefined? && b.Undefined?) || (a.Parsed? && b.Parsed? && SameValue(a.value, b.value))
  }

  ghost predicate WfBody(body: Body) {
    body.Parsed? ==> Wf(body.value)
  }

  // ------------------------------------------------------------------ preparation keeps well-formedness

  lemma {:induction false} DecimalInjective(m: nat, n: nat)
    requires Decimal(m) == Decimal(n)
    ensures m == n
  {
    var a, b := Decimal(m), Decimal(n);
    assert a[|a| - 1] == 48 + m % 10 && b[|b| - 1] == 48 + n % 10;
    if m >= 10 && n >= 10 {
      assert a[..|a| - 1] == Decimal(m / 10) && b[..|b| - 1] == Decimal(n / 10);
      DecimalInjective(m / 10, n / 10);
    }
  }

  lemma {:induction false} WithoutKeeps(ms: seq<(Text, Json)>, key: Text)
    ensures forall m :: m in Without(ms, key) <==> m in ms && m.0 != key
    ensures Distinct(Keys(ms)) ==> Distinct(Keys(Without(ms, key)))
  {
    if ms != [] {
      WithoutKeeps(ms[1..], key);
      var rest := Without(ms[1..], key);
      if Distinct(Keys(ms)) {
        forall i, j | 0 <= i < j < |ms[1..]| ensures Keys(ms[1..])[i] != Keys(ms[1..])[j] {
          assert Keys(ms)[i + 1] != Keys(ms)[j + 1];
        }
        forall j | 0 <= j < |rest| ensures rest[j].0 != ms[0].0 {
          assert rest[j] in ms[1..];
          var i :| 0 <= i < |ms[1..]| && ms[1..][i] == rest[j];
          assert Keys(ms)[0] != Keys(ms)[i + 1];
        }
        var all := Without(ms, key);
        if ms[0].0 != key {
          assert all == [ms[0]] + rest;
          forall i, j | 0 <= i < j < |all| ensures Keys(all)[i] != Keys(all)[j] {
            if i > 0 { assert Keys(rest)[i - 1] != Keys(rest)[j - 1]; }
          }
        } else {
          assert all == rest;
        }
      }
    }
  }

  lemma SpreadWf(v: Json)
    requires Wf(v)
    ensures Wf(Spread(v))
  {
    if v.Arr? {
      var ms := IndexMembers(v.items);
      forall i, j | 0 <= i < j < |ms| ensures Keys(ms)[i] != Keys(ms)[j] {
        if Keys(ms)[i] == Keys(ms)[j] { DecimalInjective(i, j); }
      }
    }
  }

  lemma PreparedWf(body: Body, bodyField: Text)
    requires WfBody(body)
    ensures WfBody(Prepared(body, bodyField))
  {
    if body.Parsed? {
      SpreadWf(body.value);
      var v := Spread(body.value);
      if v.Obj? {
        WithoutKeeps(v.members, bodyField);
        var ms := Without(v.members, bodyField);
        forall i | 0 <= i < |ms| ensures Wf(ms[i].1) {
          assert ms[i] in v.members;
        }
      }
    }
  }

  // ------------------------------------------------------------------ the three parts can be told apart

  function LengthToNewline(t: Text): nat {
    if t == [] || t[0] == NEWLINE then 0 else 1 + LengthToNewline(t[1..])
  }

  lemma {:induction false} FirstNewline(a: Text, b: Text)
    requires NEWLINE !in a
    ensures LengthToNewline(a + [NEWLINE] + b) == |a|
  {
    if a != [] {
      FirstNewline(a[1..], b);
      assert (a + [NEWLINE] + b)[1..] == a[1..] + [NEWLINE] + b;
    }
  }

  lemma SplitAtNewline(a: Text, b: Text, x: Text, y: Text)
    requires NEWLINE !in a && NEWLINE !in x
    requires a + [NEWLINE] + b == x + [NEWLINE] + y
    ensures a == x && b == y
  {
    var s, t := a + [NEWLINE] + b, x + [NEWLINE] + y;
    FirstNewline(a, b);
    FirstNewline(x, y);
    assert s[..|a|] == a && t[..|a|] == x;
    assert s[|a| + 1..] == b && t[|a| + 1..] == y;
  }

  lemma BodyTextsDiffer(a: Body, b: Body)
    requires WfBody(a) && WfBody(b)
    ensures BodyText(a) == BodyText(b) <==> SameBody(a, b)
  {
    if a.Parsed? { PrintStarts(a.value); }
    if b.Parsed? { PrintStarts(b.value); }
    if a.Parsed? && b.Parsed? { PrintEqualIffSameValue(a.value, b.value); }
  }

  /**
    Two requests, with verb and URL free of newlines as HTTP requires, have the same hash exactly when
    they have the same verb, the same URL and the same prepared body up to object key order.
  */
  lemma SameHashIff(v1: Text, u1: Text, b1: Body, f1: Text, v2: Text, u2: Text, b2: Body, f2: Text)
    requires NEWLINE !in v1 && NEWLINE !in u1 && NEWLINE !in v2 && NEWLINE !in u2
    requires WfBody(b1) && WfBody(b2)
    ensures RequestText(v1, u1, b1, f1) == RequestText(v2, u2, b2, f2)
       <==> v1 == v2 && u1 == u2 && SameBody(Prepared(b1, f1), Prepared(b2, f2))
  {
    PreparedWf(b1, f1);
    PreparedWf(b2, f2);
    var p1, p2 := Prepared(b1, f1), Prepared(b2, f2);
    var t1, t2 := BodyText(p1), BodyText(p2);
    assert t1 == t2 <==> SameBody(p1, p2) by {
      BodyTextsDiffer(p1, p2);
    }
    assert RequestText(v1, u1, b1, f1) == v1 + [NEWLINE] + (u1 + [NEWLINE] + t1);
    assert RequestText(v2, u2, b2, f2) == v2 + [NEWLINE] + (u2 + [NEWLINE] + t2);
    if RequestText(v1, u1, b1, f1) == RequestText(v2, u2, b2, f2) {
      SplitAtNewline(v1, u1 + [NEWLINE] + t1, v2, u2 + [NEWLINE] + t2);
      SplitAtNewline(u1, t1, u2, t2);
    }
  }

  // ------------------------------------------------------------------ arrays

  /** The spread conflates every array with the object keyed by its indices, whatever the key field. */
  lemma ArrayCollidesWithIndexObject(verb: Text, url: Text, items: seq<Json>, bodyField: Text)
    ensures RequestText(verb, url, Parsed(Arr(items)), bodyField)
         == RequestText(verb, url, Parsed(Obj(IndexMembers(items))), bodyField)
    ensures !SameValue(Arr(items), Obj(IndexMembers(items)))
  {}

  ghost predicate IsIndex(key: Text) {
    exists n: nat :: key == Decimal(n)
  }

  /** The body with the key field removed; an array has none.  No field is configured as []. */
  function Keyless(v: Json, bodyField: Text): Json {
    if v.Obj? && bodyField != [] then Obj(Without(v.members, bodyField)) else v
  }

  lemma {:induction false} WithoutAbsent(ms: seq<(Text, Json)>, key: Text)
    requires forall i | 0 <= i < |ms| :: ms[i].0 != key
    ensures Without(ms, key) == ms
  {
    if ms != [] {
      WithoutAbsent(ms[1..], key);
      assert ms == [ms[0]] + ms[1..];
    }
  }

  /** Deleting a field that is no index leaves the spread of an array alone. */
  lemma PreparedIsSpreadKeyless(v: Json, bodyField: Text)
    requires !IsIndex(bodyField)
    ensures Prepared(Parsed(v), bodyField) == Parsed(Spread(Keyless(v, bodyField)))
  {
    if v.Arr? {
      WithoutAbsent(IndexMembers(v.items), bodyField);
    }
  }

  lemma SpreadArraysSame(xs: seq<Json>, ys: seq<Json>)
    ensures SameValue(Obj(IndexMembers(xs)), Obj(IndexMembers(ys))) <==> SameValue(Arr(xs), Arr(ys))
  {
    var a, b := Obj(IndexMembers(xs)), Obj(IndexMembers(ys));
    if SameValue(Arr(xs), Arr(ys)) {
      forall i: nat | i < |xs| ensures HasMatch(a, b, i) {
        assert a.members[i].0 == b.members[i].0;
      }
    }
    if SameValue(a, b) {
      forall i | 0 <= i < |xs| ensures SameValue(xs[i], ys[i]) {
        assert HasMatch(a, b, i);
        var j: nat :| j < |ys| && a.members[i].0 == b.members[j].0 && SameValue(xs[i], b.members[j].1);
        DecimalInjective(i, j);
      }
    }
  }

  /**
    That is the only conflation: with a key field that is no array index, two requests hash alike although their
    bodies without the key are not equal up to object key order exactly when one body is an array and the other,
    without the key, is the object of its indices.
  */
  lemma OnlyIndexObjectsCollide(verb: Text, url: Text, a: Json, b: Json, bodyField: Text)
    requires NEWLINE !in verb && NEWLINE !in url && Wf(a) && Wf(b) && !IsIndex(bodyField)
    ensures var (x, y) := (Keyless(a, bodyField), Keyless(b, bodyField));
            var alike := RequestText(verb, url, Parsed(a), bodyField) == RequestText(verb, url, Parsed(b), bodyField);
            && (SameValue(x, y) ==> alike)
            && ((alike && !SameValue(x, y)) <==>
                  ((x.Arr? && y.Obj? && SameValue(Obj(IndexMembers(x.items)), y))
                   || (x.Obj? && y.Arr? && SameValue(x, Obj(IndexMembers(y.items))))))
  {
    SameHashIff(verb, url, Parsed(a), bodyField, verb, url, Parsed(b), bodyField);
    PreparedIsSpreadKeyless(a, bodyField);
    PreparedIsSpreadKeyless(b, bodyField);
    var x, y := Keyless(a, bodyField), Keyless(b, bodyField);
    hide Keyless, Prepared, RequestText;
    if x.Arr? && y.Arr? {
      SpreadArraysSame(x.items, y.items);
    }
  }

  lemma {:induction false} DecimalDigits(n: nat)
    ensures forall i | 0 <= i < |Decimal(n)| :: 48 <= Decimal(n)[i] < 58
  {
    if n >= 10 { DecimalDigits(n / 10); }
  }

  /** The contribution and subscription routes' field is no index. */
  lemma RouteFieldIsNoIndex()
    ensures !IsIndex(IDEMPOTENCY_KEY) && !IsIndex([])
  {
    forall n: nat ensures Decimal(n) != IDEMPOTENCY_KEY {
      DecimalDigits(n);
      assert IDEMPOTENCY_KEY[0] == 105;
    }
  }
}
