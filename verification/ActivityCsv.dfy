/** The CSV export of campaign activity, read back by the grammar of section 2 of RFC 4180 with LF as a record break. */
module ActivityCsv {
  import opened Utf16

  const QUOTE: Unit := 34
  const COMMA: Unit := 44
  const LF: Unit := 10
  const CR: Unit := 13

  /** A null or undefined value exports as the empty text. */
  datatype Value = Missing | Present(text: Text)

  function FieldText(v: Value): Text {
    if v.Missing? then [] else v.text
  }

  function FieldTexts(row: seq<Value>): (r: seq<Text>)
    ensures |r| == |row|
    ensures forall i | 0 <= i < |row| :: r[i] == FieldText(row[i])
  {
    seq(|row|, i requires 0 <= i < |row| => FieldText(row[i]))
  }

  /** `text.replace(/"/g, '""')`. */
  function Doubled(text: Text): Text {
    if text == [] then [] else (if text[0] == QUOTE then [QUOTE, QUOTE] else [text[0]]) + Doubled(text[1..])
  }

  function CsvCell(v: Value): Text {
    [QUOTE] + Doubled(FieldText(v)) + [QUOTE]
  }

  function CsvCells(row: seq<Value>): (r: seq<Text>)
    ensures |r| == |row|
    ensures forall i | 0 <= i < |row| :: r[i] == CsvCell(row[i])
  {
    seq(|row|, i requires 0 <= i < |row| => CsvCell(row[i]))
  }

  function Join(parts: seq<Text>, separator: Unit): Text {
    if parts == [] then [] else parts[0] + (if |parts| == 1 then [] else [separator] + Join(parts[1..], separator))
  }

  const EVENT_TYPE: Text := [101, 118, 101, 110, 116, 95, 116, 121, 112, 101]
  const EVENT_ID: Text := [101, 118, 101, 110, 116, 95, 105, 100]
  const OCCURRED_AT: Text := [111, 99, 99, 117, 114, 114, 101, 100, 95, 97, 116]
  const SUMMARY: Text := [115, 117, 109, 109, 97, 114, 121]
  const DETAILS: Text := [100, 101, 116, 97, 105, 108, 115]

  const HEADER: seq<Text> := [EVENT_TYPE, EVENT_ID, OCCURRED_AT, SUMMARY, DETAILS]

  function Lines(rows: seq<seq<Value>>): (r: seq<Text>)
    ensures |r| == 1 + |rows|
    ensures r[0] == Join(HEADER, COMMA)
    ensures forall i | 0 <= i < |rows| :: r[1 + i] == Join(CsvCells(rows[i]), COMMA)
  {
    [Join(HEADER, COMMA)] + seq(|rows|, i requires 0 <= i < |rows| => Join(CsvCells(rows[i]), COMMA))
  }

  /** An activity row; `details` is the JSON text of its details or of an empty object. */
  datatype Activity = Activity(eventType: Value, eventId: Value, occurredAt: Value, summary: Value, details: Text)

  function Fields(activity: Activity): (r: seq<Value>)
    ensures |r| == |HEADER|
  {
    [activity.eventType, activity.eventId, activity.occurredAt, activity.summary, Present(activity.details)]
  }

  function Rows(activities: seq<Activity>): (r: seq<seq<Value>>)
    ensures |r| == |activities|
    ensures forall i | 0 <= i < |r| :: r[i] == Fields(activities[i])
  {
    seq(|activities|, i requires 0 <= i < |activities| => Fields(activities[i]))
  }

  /** The body the activity route sends for `format=csv`. */
  function Export(rows: seq<seq<Value>>): Text {
    Join(Lines(rows), LF)
  }

  // ------------------------------------------------------------------ RFC 4180

  datatype Parse<+T> = Fail | Got(value: T, rest: Text)

  /** The rest of an escaped field after its opening quote. */
  function ReadEscaped(t: Text): (p: Parse<Text>)
    ensures p.Got? ==> |p.rest| < |t|
  {
    if t == [] then Fail
    else if t[0] != QUOTE then
      var p := ReadEscaped(t[1..]);
      if p.Fail? then Fail else Got([t[0]] + p.value, p.rest)
    else if |t| > 1 && t[1] == QUOTE then
      var p := ReadEscaped(t[2..]);
      if p.Fail? then Fail else Got([QUOTE] + p.value, p.rest)
    else Got([], t[1..])
  }

  predicate Plain(u: Unit) {
    u != QUOTE && u != COMMA && u != LF && u != CR
  }

  function PlainLength(t: Text): (n: nat)
    ensures n <= |t|
  {
    if t == [] || !Plain(t[0]) then 0 else 1 + PlainLength(t[1..])
  }

  function ReadField(t: Text): (p: Parse<Text>)
    ensures p.Got? ==> |p.rest| <= |t|
  {
    if t != [] && t[0] == QUOTE then ReadEscaped(t[1..])
    else Got(t[..PlainLength(t)], t[PlainLength(t)..])
  }

  /** How long a record break the text starts with: LF, CR LF, or none. */
  function BreakLength(t: Text): (n: nat)
    ensures n <= |t|
  {
    if t != [] && t[0] == LF then 1
    else if |t| > 1 && t[0] == CR && t[1] == LF then 2
    else 0
  }

  /** The fields up to the end of the record, whose break is left in the rest. */
  function ReadRecord(t: Text): (p: Parse<seq<Text>>)
    ensures p.Got? ==> |p.rest| <= |t|
    decreases |t|
  {
    var f := ReadField(t);
    if f.Fail? then Fail
    else if f.rest == [] || BreakLength(f.rest) > 0 then Got([f.value], f.rest)
    else if f.rest[0] != COMMA then Fail
    else
      var p := ReadRecord(f.rest[1..]);
      if p.Fail? then Fail else Got([f.value] + p.value, p.rest)
  }

  /** All records; the last may end without a break. */
  function ReadFile(t: Text): Parse<seq<seq<Text>>>
    decreases |t|
  {
    var r := ReadRecord(t);
    if r.Fail? then Fail
    else
      var rest := r.rest[BreakLength(r.rest)..];
      if rest == [] then Got([r.value], [])
      else if BreakLength(r.rest) == 0 then Fail
      else
        var p := ReadFile(rest);
        if p.Fail? then Fail else Got([r.value] + p.value, p.rest)
  }

  // ------------------------------------------------------------------ the reader recovers the fields

  lemma {:induction false} EscapedReads(text: Text, rest: Text)
    requires rest == [] || rest[0] != QUOTE
    ensures ReadEscaped(Doubled(text) + [QUOTE] + rest) == Got(text, rest)
  {
    var t := Doubled(text) + [QUOTE] + rest;
    if text == [] {
      assert t == [QUOTE] + rest && t[1..] == rest;
    } else {
      EscapedReads(text[1..], rest);
      var tail := Doubled(text[1..]) + [QUOTE] + rest;
      assert text == [text[0]] + text[1..];
      if text[0] == QUOTE {
        assert t == [QUOTE, QUOTE] + tail && t[2..] == tail;
      } else {
        assert t == [text[0]] + tail && t[1..] == tail;
      }
    }
  }

  ghost predicate EndsField(rest: Text) {
    rest == [] || rest[0] == COMMA || rest[0] == LF
  }

  lemma CellReads(v: Value, rest: Text)
    requires EndsField(rest)
    ensures ReadField(CsvCell(v) + rest) == Got(FieldText(v), rest)
  {
    EscapedReads(FieldText(v), rest);
    var t := CsvCell(v) + rest;
    assert t[0] == QUOTE && t[1..] == Doubled(FieldText(v)) + [QUOTE] + rest;
  }

  lemma {:induction false} PlainReads(name: Text, rest: Text)
    requires (forall k | 0 <= k < |name| :: Plain(name[k])) && EndsField(rest)
    ensures PlainLength(name + rest) == |name|
  {
    if name == [] {
      assert name + rest == rest;
    } else {
      PlainReads(name[1..], rest);
      assert (name + rest)[1..] == name[1..] + rest;
    }
  }

  /** A cell as written, and the text it stands for: escaped, or plain. */
  ghost predicate Written(cell: Text, text: Text) {
    (exists v :: cell == CsvCell(v) && text == FieldText(v)) || (cell == text && forall k | 0 <= k < |text| :: Plain(text[k]))
  }

  lemma WrittenReads(cell: Text, text: Text, rest: Text)
    requires Written(cell, text) && EndsField(rest)
    ensures ReadField(cell + rest) == Got(text, rest)
  {
    if exists v :: cell == CsvCell(v) && text == FieldText(v) {
      var v :| cell == CsvCell(v) && text == FieldText(v);
      CellReads(v, rest);
    } else {
      PlainReads(text, rest);
      assert (text + rest)[..|text|] == text && (text + rest)[|text|..] == rest;
      assert (text + rest) != [] ==> (text + rest)[0] != QUOTE;
    }
  }

  lemma {:induction false} RecordReads(cells: seq<Text>, texts: seq<Text>, rest: Text)
    requires |cells| == |texts| > 0 && (rest == [] || rest[0] == LF)
    requires forall i | 0 <= i < |cells| :: Written(cells[i], texts[i])
    ensures ReadRecord(Join(cells, COMMA) + rest) == Got(texts, rest)
  {
    hide ReadField, Written;
    var t := Join(cells, COMMA) + rest;
    if |cells| == 1 {
      WrittenReads(cells[0], texts[0], rest);
      assert t == cells[0] + rest && texts == [texts[0]];
    } else {
      var tail := Join(cells[1..], COMMA) + rest;
      WrittenReads(cells[0], texts[0], [COMMA] + tail);
      assert t == cells[0] + ([COMMA] + tail);
      RecordReads(cells[1..], texts[1..], rest);
      assert ([COMMA] + tail)[1..] == tail;
      assert texts == [texts[0]] + texts[1..];
    }
  }

  /** A line and the fields it stands for. */
  ghost predicate IsLine(line: Text, texts: seq<Text>) {
    line != [] && forall rest: Text | rest == [] || rest[0] == LF :: ReadRecord(line + rest) == Got(texts, rest)
  }

  lemma {:induction false} LinesRead(lines: seq<Text>, records: seq<seq<Text>>)
    requires |lines| == |records| > 0 && forall i | 0 <= i < |lines| :: IsLine(lines[i], records[i])
    ensures Join(lines, LF) != [] && ReadFile(Join(lines, LF)) == Got(records, [])
  {
    hide ReadRecord;
    var t := Join(lines, LF);
    if |lines| == 1 {
      assert t == lines[0] + [] && records == [records[0]];
    } else {
      var tail := Join(lines[1..], LF);
      LinesRead(lines[1..], records[1..]);
      assert t == lines[0] + ([LF] + tail);
      assert ReadRecord(t) == Got(records[0], [LF] + tail);
      assert ([LF] + tail)[1..] == tail;
      assert records == [records[0]] + records[1..];
    }
  }

  lemma HeaderIsPlain()
    ensures forall i, k | 0 <= i < |HEADER| && 0 <= k < |HEADER[i]| :: Plain(HEADER[i][k])
  {}

  function Records(rows: seq<seq<Value>>): (r: seq<seq<Text>>)
    ensures |r| == 1 + |rows| && r[0] == HEADER
    ensures forall i | 0 <= i < |rows| :: r[1 + i] == FieldTexts(rows[i])
  {
    [HEADER] + seq(|rows|, i requires 0 <= i < |rows| => FieldTexts(rows[i]))
  }

  lemma RowIsLine(row: seq<Value>)
    requires row != []
    ensures IsLine(Join(CsvCells(row), COMMA), FieldTexts(row))
  {
    var cells, texts := CsvCells(row), FieldTexts(row);
    forall i | 0 <= i < |cells| ensures Written(cells[i], texts[i]) {
      assert cells[i] == CsvCell(row[i]) && texts[i] == FieldText(row[i]);
    }
    forall rest: Text | rest == [] || rest[0] == LF ensures ReadRecord(Join(cells, COMMA) + rest) == Got(texts, rest) {
      RecordReads(cells, texts, rest);
    }
    assert Join(cells, COMMA)[0] == cells[0][0];
  }

  lemma HeaderIsLine()
    ensures IsLine(Join(HEADER, COMMA), HEADER)
  {
    HeaderIsPlain();
    forall i | 0 <= i < |HEADER| ensures Written(HEADER[i], HEADER[i]) {}
    forall rest: Text | rest == [] || rest[0] == LF ensures ReadRecord(Join(HEADER, COMMA) + rest) == Got(HEADER, rest) {
      RecordReads(HEADER, HEADER, rest);
    }
    assert Join(HEADER, COMMA)[0] == HEADER[0][0];
  }

  lemma ExportReads(rows: seq<seq<Value>>)
    requires forall i | 0 <= i < |rows| :: rows[i] != []
    ensures ReadFile(Export(rows)) == Got(Records(rows), [])
  {
    var lines, records := Lines(rows), Records(rows);
    HeaderIsLine();
    forall i | 0 <= i < |lines| ensures IsLine(lines[i], records[i]) {
      if i > 0 {
        RowIsLine(rows[i - 1]);
        assert lines[1 + (i - 1)] == Join(CsvCells(rows[i - 1]), COMMA) && records[1 + (i - 1)] == FieldTexts(rows[i - 1]);
      }
    }
    LinesRead(lines, records);
  }

  /** The reader recovers the header and exactly the field texts of every row: commas, quotes and breaks included. */
  lemma ActivityExportReads(activities: seq<Activity>)
    ensures ReadFile(Export(Rows(activities))) == Got(Records(Rows(activities)), [])
    ensures forall i | 0 <= i < |activities| :: Records(Rows(activities))[1 + i] == FieldTexts(Fields(activities[i]))
  {
    ExportReads(Rows(activities));
  }

  /** Column by column: each field stands under its own name, a missing one as the empty text. */
  lemma {:induction false} FieldsUnderTheirNames(activities: seq<Activity>, i: nat)
    requires i < |activities|
    ensures var records := Records(Rows(activities));
            var a := activities[i];
            && |records| == 1 + |activities| && |records[0]| == 5 && |records[1 + i]| == 5
            && records[0][0] == [101, 118, 101, 110, 116, 95, 116, 121, 112, 101]
            && records[1 + i][0] == (match a.eventType case Missing => [] case Present(text) => text)
            && records[0][1] == [101, 118, 101, 110, 116, 95, 105, 100]
            && records[1 + i][1] == (match a.eventId case Missing => [] case Present(text) => text)
            && records[0][2] == [111, 99, 99, 117, 114, 114, 101, 100, 95, 97, 116]
            && records[1 + i][2] == (match a.occurredAt case Missing => [] case Present(text) => text)
            && records[0][3] == [115, 117, 109, 109, 97, 114, 121]
            && records[1 + i][3] == (match a.summary case Missing => [] case Present(text) => text)
            && records[0][4] == [100, 101, 116, 97, 105, 108, 115]
            && records[1 + i][4] == a.details
  {
    assert Records(Rows(activities))[1 + i] == FieldTexts(Fields(activities[i]));
  }

  /** Every cell is quoted, and reads as an escaped field with nothing left over. */
  lemma CellIsEscaped(v: Value)
    ensures var text := match v case Missing => [] case Present(text) => text;
            CsvCell(v) != [] && CsvCell(v)[0] == 34 && ReadEscaped(CsvCell(v)[1..]) == Got(text, [])
  {
    EscapedReads(FieldText(v), []);
    assert CsvCell(v)[1..] == Doubled(FieldText(v)) + [QUOTE] + [];
  }
}
