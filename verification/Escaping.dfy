/**
  Markup escaping by a chain of global replacements: the chain is one simultaneous substitution, leaves no raw
  markup character and is inverted by decoding the references.
*/
module Escaping {
  import opened Utf16

  /** A pass replaces every occurrence of a unit by a reference. */
  datatype Pass = Pass(unit: Unit, reference: Text)

  const AMP: Unit := 38
  const LT: Unit := 60
  const GT: Unit := 62
  const QUOT: Unit := 34
  const APOS: Unit := 39

  /** `&amp;`, `&lt;`, `&gt;`, `&quot;`, `&#39;` and `&apos;`. */
  const AMP_REF: Text := [38, 97, 109, 112, 59]
  const LT_REF: Text := [38, 108, 116, 59]
  const GT_REF: Text := [38, 103, 116, 59]
  const QUOT_REF: Text := [38, 113, 117, 111, 116, 59]
  const NUMERIC_APOS_REF: Text := [38, 35, 51, 57, 59]
  const APOS_REF: Text := [38, 97, 112, 111, 115, 59]

  /** `text.replace(/u/g, reference)`. */
  function ReplaceAll(text: Text, p: Pass): Text {
    if text == [] then []
    else (if text[0] == p.unit then p.reference else [text[0]]) + ReplaceAll(text[1..], p)
  }

  function EscapeHtml(value: Text): Text {
    ReplaceAll(ReplaceAll(ReplaceAll(ReplaceAll(ReplaceAll(value,
      Pass(AMP, AMP_REF)), Pass(LT, LT_REF)), Pass(GT, GT_REF)), Pass(QUOT, QUOT_REF)), Pass(APOS, NUMERIC_APOS_REF))
  }

  /** The funding badge's `escapeXml`: four passes. */
  function EscapeXml(value: Text): Text {
    ReplaceAll(ReplaceAll(ReplaceAll(ReplaceAll(value,
      Pass(AMP, AMP_REF)), Pass(LT, LT_REF)), Pass(GT, GT_REF)), Pass(QUOT, QUOT_REF))
  }

  /** The impact badge's `escapeXml`: five passes. */
  function EscapeXmlWithApos(value: Text): Text {
    ReplaceAll(ReplaceAll(ReplaceAll(ReplaceAll(ReplaceAll(value,
      Pass(AMP, AMP_REF)), Pass(LT, LT_REF)), Pass(GT, GT_REF)), Pass(QUOT, QUOT_REF)), Pass(APOS, APOS_REF))
  }

  const HTML_PASSES: seq<Pass> :=
    [Pass(AMP, AMP_REF), Pass(LT, LT_REF), Pass(GT, GT_REF), Pass(QUOT, QUOT_REF), Pass(APOS, NUMERIC_APOS_REF)]
  const XML_PASSES: seq<Pass> :=
    [Pass(AMP, AMP_REF), Pass(LT, LT_REF), Pass(GT, GT_REF), Pass(QUOT, QUOT_REF)]
  const XML_APOS_PASSES: seq<Pass> :=
    [Pass(AMP, AMP_REF), Pass(LT, LT_REF), Pass(GT, GT_REF), Pass(QUOT, QUOT_REF), Pass(APOS, APOS_REF)]

  // ------------------------------------------------------------------ one substitution

  function Sequentially(passes: seq<Pass>, text: Text): Text {
    if passes == [] then text else Sequentially(passes[1..], ReplaceAll(text, passes[0]))
  }

  /** What one unit becomes, looking it up once. */
  function Substitute(passes: seq<Pass>, u: Unit): Text {
    if passes == [] then [u]
    else if passes[0].unit == u then passes[0].reference
    else Substitute(passes[1..], u)
  }

  function Simultaneously(passes: seq<Pass>, text: Text): Text {
    if text == [] then [] else Substitute(passes, text[0]) + Simultaneously(passes, text[1..])
  }

  predicate Untouched(passes: seq<Pass>, text: Text) {
    forall i, k | 0 <= i < |passes| && 0 <= k < |text| :: passes[i].unit != text[k]
  }

  /** No pass rewrites what an earlier one inserted. */
  predicate Staged(passes: seq<Pass>) {
    forall i, j | 0 <= i < j < |passes| :: Untouched([passes[j]], passes[i].reference)
  }

  lemma {:induction false} ReplaceAllAppend(a: Text, b: Text, p: Pass)
    ensures ReplaceAll(a + b, p) == ReplaceAll(a, p) + ReplaceAll(b, p)
  {
    if a == [] {
      assert a + b == b;
    } else {
      ReplaceAllAppend(a[1..], b, p);
      assert (a + b)[1..] == a[1..] + b;
    }
  }

  lemma {:induction false} SequentiallyAppend(passes: seq<Pass>, a: Text, b: Text)
    ensures Sequentially(passes, a + b) == Sequentially(passes, a) + Sequentially(passes, b)
  {
    if passes != [] {
      ReplaceAllAppend(a, b, passes[0]);
      SequentiallyAppend(passes[1..], ReplaceAll(a, passes[0]), ReplaceAll(b, passes[0]));
    }
  }

  lemma {:induction false} ReplaceAllUntouched(text: Text, p: Pass)
    requires Untouched([p], text)
    ensures ReplaceAll(text, p) == text
  {
    if text != [] {
      assert [p][0].unit != text[0];
      assert Untouched([p], text[1..]) by {
        assert forall k | 0 <= k < |text[1..]| :: text[1..][k] == text[k + 1];
        assert [p][0] == p;
      }
      ReplaceAllUntouched(text[1..], p);
    }
  }

  lemma {:induction false} SequentiallyUntouched(passes: seq<Pass>, text: Text)
    requires forall i | 0 <= i < |passes| :: Untouched([passes[i]], text)
    ensures Sequentially(passes, text) == text
  {
    if passes != [] {
      ReplaceAllUntouched(text, passes[0]);
      SequentiallyUntouched(passes[1..], text);
    }
  }

  lemma {:induction false} SequentiallyOne(passes: seq<Pass>, u: Unit)
    requires Staged(passes)
    ensures Sequentially(passes, [u]) == Substitute(passes, u)
  {
    if passes != [] {
      var p, rest := passes[0], passes[1..];
      assert ReplaceAll([u], p) == if p.unit == u then p.reference else [u];
      if p.unit == u {
        SequentiallyUntouched(rest, p.reference);
      } else {
        SequentiallyOne(rest, u);
      }
    }
  }

  /** The chain of replacements is one simultaneous substitution. */
  lemma {:induction false} SequentiallyIsSimultaneously(passes: seq<Pass>, text: Text)
    requires Staged(passes)
    ensures Sequentially(passes, text) == Simultaneously(passes, text)
  {
    if text == [] {
      SequentiallyUntouched(passes, text);
    } else {
      SequentiallyOne(passes, text[0]);
      SequentiallyIsSimultaneously(passes, text[1..]);
      SequentiallyAppend(passes, [text[0]], text[1..]);
      assert text == [text[0]] + text[1..];
    }
  }

  // ------------------------------------------------------------------ decoding

  predicate Keyed(passes: seq<Pass>, u: Unit) {
    exists i | 0 <= i < |passes| :: passes[i].unit == u
  }

  /** References begin with `&`, which is itself escaped, and none is a prefix of another. */
  predicate Decodable(passes: seq<Pass>) {
    && Keyed(passes, AMP)
    && (forall i | 0 <= i < |passes| :: |passes[i].reference| > 1 && passes[i].reference[0] == AMP)
    && forall i, j | 0 <= i < |passes| && 0 <= j < |passes| && i != j :: !StartsWith(passes[j].reference, passes[i].reference)
  }

  /** The first reference the text starts with, or how many there are. */
  function FirstReference(passes: seq<Pass>, text: Text): (i: nat)
    ensures i <= |passes|
    ensures i < |passes| ==> StartsWith(text, passes[i].reference)
    ensures forall k | 0 <= k < i :: !StartsWith(text, passes[k].reference)
  {
    if passes == [] || StartsWith(text, passes[0].reference) then 0 else 1 + FirstReference(passes[1..], text)
  }

  function Decode(passes: seq<Pass>, text: Text): Text
    requires forall i | 0 <= i < |passes| :: |passes[i].reference| > 1
    decreases |text|
  {
    if text == [] then []
    else
      var i := FirstReference(passes, text);
      if i < |passes| then [passes[i].unit] + Decode(passes, text[|passes[i].reference|..])
      else [text[0]] + Decode(passes, text[1..])
  }

  lemma {:induction false} SubstituteFinds(passes: seq<Pass>, u: Unit) returns (i: nat)
    ensures i <= |passes|
    ensures i < |passes| ==> passes[i].unit == u && Substitute(passes, u) == passes[i].reference
    ensures i == |passes| ==> !Keyed(passes, u) && Substitute(passes, u) == [u]
  {
    if passes == [] || passes[0].unit == u {
      i := 0;
    } else {
      i := SubstituteFinds(passes[1..], u);
      i := i + 1;
      if i == |passes| {
        forall k | 0 <= k < |passes| ensures passes[k].unit != u {
          if k > 0 { assert passes[k] == passes[1..][k - 1]; }
        }
      }
    }
  }

  lemma ReferenceIsRead(passes: seq<Pass>, i: nat, rest: Text)
    requires Decodable(passes) && i < |passes|
    ensures FirstReference(passes, passes[i].reference + rest) == i
  {
    var text := passes[i].reference + rest;
    assert StartsWith(text, passes[i].reference);
    var j := FirstReference(passes, text);
    if j < i {
      var a, b := passes[i].reference, passes[j].reference;
      assert text[..|a|] == a && text[..|b|] == b;
      if |b| <= |a| {
        assert a[..|b|] == text[..|a|][..|b|] == b;
        assert StartsWith(a, b);
      } else {
        assert b[..|a|] == text[..|b|][..|a|] == a;
        assert StartsWith(b, a);
      }
    }
  }

  lemma DifferFirst(a: Text, b: Text)
    requires a != [] && b != [] && a[0] != b[0]
    ensures !StartsWith(a, b)
  {
    assert |a| >= |b| ==> a[..|b|][0] == a[0];
  }

  lemma NothingToRead(passes: seq<Pass>, text: Text)
    requires Decodable(passes) && text != [] && text[0] != AMP
    ensures FirstReference(passes, text) == |passes|
  {
    forall i | 0 <= i < |passes| ensures !StartsWith(text, passes[i].reference) {
      DifferFirst(text, passes[i].reference);
    }
  }

  /** Decoding inverts the substitution. */
  lemma {:induction false} DecodeInverts(passes: seq<Pass>, text: Text)
    requires Decodable(passes)
    ensures Decode(passes, Simultaneously(passes, text)) == text
  {
    if text != [] {
      DecodeInverts(passes, text[1..]);
      var rest := Simultaneously(passes, text[1..]);
      var i := SubstituteFinds(passes, text[0]);
      if i < |passes| {
        ReferenceIsRead(passes, i, rest);
        assert (passes[i].reference + rest)[|passes[i].reference|..] == rest;
      } else {
        var whole := [text[0]] + rest;
        assert Simultaneously(passes, text) == whole;
        assert whole[0] != AMP && whole[1..] == rest;
        NothingToRead(passes, whole);
      }
      assert text == [text[0]] + text[1..];
    }
  }

  /** Units that no reference contains and that are escaped do not survive. */
  lemma {:induction false} NoneSurvives(passes: seq<Pass>, text: Text, u: Unit)
    requires Keyed(passes, u) && forall i | 0 <= i < |passes| :: u !in passes[i].reference
    ensures u !in Simultaneously(passes, text)
  {
    if text != [] {
      NoneSurvives(passes, text[1..], u);
      var i := SubstituteFinds(passes, text[0]);
      assert u !in Substitute(passes, text[0]);
    }
  }

  // ------------------------------------------------------------------ the three escapers

  const MARKS: set<Unit> := {AMP, LT, GT, QUOT, APOS}

  /** An ampersand, then no mark; the second and third units tell references apart. */
  predicate Clean(r: Text) {
    |r| > 2 && r[0] == AMP && forall k | 1 <= k < |r| :: r[k] !in MARKS
  }

  predicate Tabular(passes: seq<Pass>) {
    && passes != [] && passes[0].unit == AMP
    && (forall i | 0 <= i < |passes| :: Clean(passes[i].reference))
    && (forall i | 1 <= i < |passes| :: passes[i].unit in MARKS - {AMP})
    && forall i, j | 0 <= i < j < |passes| ::
         passes[i].reference[1] != passes[j].reference[1] || passes[i].reference[2] != passes[j].reference[2]
  }

  lemma DifferEarly(a: Text, b: Text)
    requires |a| > 2 && |b| > 2 && (a[1] != b[1] || a[2] != b[2])
    ensures !StartsWith(a, b)
  {
    assert |a| >= |b| ==> a[..|b|][1] == a[1] && a[..|b|][2] == a[2];
  }

  lemma TableWorks(passes: seq<Pass>)
    requires Tabular(passes)
    ensures Staged(passes) && Decodable(passes)
    ensures forall u, i | u in MARKS - {AMP} && 0 <= i < |passes| :: u !in passes[i].reference
  {
    forall i, u | 0 <= i < |passes| && u in MARKS - {AMP} ensures u !in passes[i].reference {
      assert Clean(passes[i].reference);
    }
    forall i, j | 0 <= i < j < |passes| ensures Untouched([passes[j]], passes[i].reference) {
      assert passes[j].unit !in passes[i].reference;
    }
    forall i, j | 0 <= i < |passes| && 0 <= j < |passes| && i != j ensures !StartsWith(passes[j].reference, passes[i].reference) {
      DifferEarly(passes[j].reference, passes[i].reference);
    }
  }

  lemma References()
    ensures Clean(AMP_REF) && Clean(LT_REF) && Clean(GT_REF) && Clean(QUOT_REF) && Clean(NUMERIC_APOS_REF) && Clean(APOS_REF)
  {}

  lemma HtmlTable()
    ensures Tabular(HTML_PASSES)
  {
    References();
    var passes := HTML_PASSES;
    assert passes[0].unit == AMP && passes[1].unit == LT && passes[2].unit == GT && passes[3].unit == QUOT && passes[4].unit == APOS;
  }

  lemma XmlTable()
    ensures Tabular(XML_PASSES)
  {
    References();
    var passes := XML_PASSES;
    assert passes[0].unit == AMP && passes[1].unit == LT && passes[2].unit == GT && passes[3].unit == QUOT;
  }

  lemma XmlAposTable()
    ensures Tabular(XML_APOS_PASSES)
  {
    References();
    var passes := XML_APOS_PASSES;
    assert passes[0].unit == AMP && passes[1].unit == LT && passes[2].unit == GT && passes[3].unit == QUOT && passes[4].unit == APOS;
  }

  lemma Chain(passes: seq<Pass>, text: Text)
    requires |passes| >= 4
    ensures Sequentially(passes, text) ==
            Sequentially(passes[4..], ReplaceAll(ReplaceAll(ReplaceAll(ReplaceAll(text,
              passes[0]), passes[1]), passes[2]), passes[3]))
  {
    hide ReplaceAll;
    var t1 := ReplaceAll(text, passes[0]);
    var t2 := ReplaceAll(t1, passes[1]);
    var t3 := ReplaceAll(t2, passes[2]);
    var t4 := ReplaceAll(t3, passes[3]);
    assert passes[1..][1..] == passes[2..] && passes[2..][1..] == passes[3..] && passes[3..][1..] == passes[4..];
    assert Sequentially(passes[3..], t3) == Sequentially(passes[4..], t4);
    assert Sequentially(passes[2..], t2) == Sequentially(passes[3..], t3);
    assert Sequentially(passes[1..], t1) == Sequentially(passes[2..], t2);
  }

  lemma Escaped(passes: seq<Pass>, value: Text, escaped: Text)
    requires Tabular(passes) && escaped == Sequentially(passes, value)
    ensures escaped == Simultaneously(passes, value)
    ensures forall i | 1 <= i < |passes| :: passes[i].unit !in escaped
    ensures Decodable(passes) && Decode(passes, escaped) == value
  {
    TableWorks(passes);
    SequentiallyIsSimultaneously(passes, value);
    DecodeInverts(passes, value);
    forall i | 1 <= i < |passes| ensures passes[i].unit !in escaped { NoneSurvives(passes, value, passes[i].unit); }
  }

  lemma EscapeHtmlProperties(value: Text)
    ensures EscapeHtml(value) == Simultaneously(HTML_PASSES, value)
    ensures LT !in EscapeHtml(value) && GT !in EscapeHtml(value) && QUOT !in EscapeHtml(value) && APOS !in EscapeHtml(value)
    ensures Decodable(HTML_PASSES) && Decode(HTML_PASSES, EscapeHtml(value)) == value
  {
    HtmlTable();
    Chain(HTML_PASSES, value);
    assert HTML_PASSES[4..] == [Pass(APOS, NUMERIC_APOS_REF)] && HTML_PASSES[4..][1..] == [];
    Escaped(HTML_PASSES, value, EscapeHtml(value));
    assert HTML_PASSES[1].unit == LT && HTML_PASSES[2].unit == GT && HTML_PASSES[3].unit == QUOT && HTML_PASSES[4].unit == APOS;
  }

  lemma EscapeXmlProperties(value: Text)
    ensures EscapeXml(value) == Simultaneously(XML_PASSES, value)
    ensures LT !in EscapeXml(value) && GT !in EscapeXml(value) && QUOT !in EscapeXml(value)
    ensures Decodable(XML_PASSES) && Decode(XML_PASSES, EscapeXml(value)) == value
  {
    XmlTable();
    Chain(XML_PASSES, value);
    Escaped(XML_PASSES, value, EscapeXml(value));
    assert XML_PASSES[1].unit == LT && XML_PASSES[2].unit == GT && XML_PASSES[3].unit == QUOT;
  }

  lemma EscapeXmlWithAposProperties(value: Text)
    ensures EscapeXmlWithApos(value) == Simultaneously(XML_APOS_PASSES, value)
    ensures var escaped := EscapeXmlWithApos(value); LT !in escaped && GT !in escaped && QUOT !in escaped && APOS !in escaped
    ensures Decodable(XML_APOS_PASSES) && Decode(XML_APOS_PASSES, EscapeXmlWithApos(value)) == value
  {
    XmlAposTable();
    Chain(XML_APOS_PASSES, value);
    assert XML_APOS_PASSES[4..] == [Pass(APOS, APOS_REF)] && XML_APOS_PASSES[4..][1..] == [];
    Escaped(XML_APOS_PASSES, value, EscapeXmlWithApos(value));
    assert XML_APOS_PASSES[1].unit == LT && XML_APOS_PASSES[2].unit == GT && XML_APOS_PASSES[3].unit == QUOT && XML_APOS_PASSES[4].unit == APOS;
  }

  lemma OneUnit(passes: seq<Pass>, u: Unit)
    ensures Simultaneously(passes, [u]) == Substitute(passes, u)
  {
    hide Substitute;
    assert [u][1..] == [];
  }

  /** What EscapeHtml makes of each unit, alone. */
  lemma EscapeHtmlUnit(u: Unit)
    ensures EscapeHtml([u]) ==
            if u == 38 then [38, 97, 109, 112, 59]
            else if u == 60 then [38, 108, 116, 59]
            else if u == 62 then [38, 103, 116, 59]
            else if u == 34 then [38, 113, 117, 111, 116, 59]
            else if u == 39 then [38, 35, 51, 57, 59]
            else [u]
  {
    EscapeHtmlProperties([u]);
    var i := SubstituteFinds(HTML_PASSES, u);
    OneUnit(HTML_PASSES, u);
    assert HTML_PASSES[0].unit == AMP && HTML_PASSES[1].unit == LT && HTML_PASSES[2].unit == GT && HTML_PASSES[3].unit == QUOT && HTML_PASSES[4].unit == APOS;
    hide EscapeHtml, Substitute, Simultaneously, Decode, Decodable;
  }

  /** What EscapeXml makes of each unit, alone. */
  lemma EscapeXmlUnit(u: Unit)
    ensures EscapeXml([u]) ==
            if u == 38 then [38, 97, 109, 112, 59]
            else if u == 60 then [38, 108, 116, 59]
            else if u == 62 then [38, 103, 116, 59]
            else if u == 34 then [38, 113, 117, 111, 116, 59]
            else [u]
  {
    EscapeXmlProperties([u]);
    var i := SubstituteFinds(XML_PASSES, u);
    OneUnit(XML_PASSES, u);
    assert XML_PASSES[0].unit == AMP && XML_PASSES[1].unit == LT && XML_PASSES[2].unit == GT && XML_PASSES[3].unit == QUOT;
    hide EscapeXml, Substitute, Simultaneously, Decode, Decodable;
  }

  /** What EscapeXmlWithApos makes of each unit, alone. */
  lemma EscapeXmlWithAposUnit(u: Unit)
    ensures EscapeXmlWithApos([u]) ==
            if u == 38 then [38, 97, 109, 112, 59]
            else if u == 60 then [38, 108, 116, 59]
            else if u == 62 then [38, 103, 116, 59]
            else if u == 34 then [38, 113, 117, 111, 116, 59]
            else if u == 39 then [38, 97, 112, 111, 115, 59]
            else [u]
  {
    EscapeXmlWithAposProperties([u]);
    var i := SubstituteFinds(XML_APOS_PASSES, u);
    OneUnit(XML_APOS_PASSES, u);
    assert XML_APOS_PASSES[0].unit == AMP && XML_APOS_PASSES[1].unit == LT && XML_APOS_PASSES[2].unit == GT && XML_APOS_PASSES[3].unit == QUOT && XML_APOS_PASSES[4].unit == APOS;
    hide EscapeXmlWithApos, Substitute, Simultaneously, Decode, Decodable;
  }
}
