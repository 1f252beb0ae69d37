/** Comparing two column snapshots of a schema: the rows are compared as JSON text, table by table. */
module SchemaCompare {
  import opened Utf16
  import opened Sorting
  import opened StableJson
  import opened JsonRoundTrip

  /** A property of a row read from JSON: absent, null or a text. */
  datatype Cell = Undefined | NullCell | TextCell(text: Text)

  datatype InputRow = InputRow(
    table: Text, column: Text, dataType: Cell, udtName: Cell, nullable: Cell, default_: Cell, ordinalPosition: Cell)
  datatype Row = Row(table: Text, column: Text, dataType: Cell, udtName: Cell, nullable: Cell, default_: Cell)

  function NormalizeColumnRow(row: InputRow): Row {
    Row(row.table, row.column, row.dataType, row.udtName, row.nullable, row.default_)
  }

  /** Two rows are the same to the comparison exactly when all six column properties are; the position is not one. */
  lemma SameNormalizedRow(a: InputRow, b: InputRow)
    ensures NormalizeColumnRow(a) == NormalizeColumnRow(b) <==>
              && a.table == b.table && a.column == b.column && a.dataType == b.dataType
              && a.udtName == b.udtName && a.nullable == b.nullable && a.default_ == b.default_
    ensures NormalizeColumnRow(a).table == a.table
  {}

  function Normalized(rows: seq<InputRow>): (r: seq<Row>)
    ensures |r| == |rows|
    ensures forall i | 0 <= i < |rows| :: r[i] == NormalizeColumnRow(rows[i])
  {
    seq(|rows|, i requires 0 <= i < |rows| => NormalizeColumnRow(rows[i]))
  }

  // ------------------------------------------------------------------ JSON.stringify of rows

  const TABLE_NAME: Text := [116, 97, 98, 108, 101, 95, 110, 97, 109, 101]
  const COLUMN_NAME: Text := [99, 111, 108, 117, 109, 110, 95, 110, 97, 109, 101]
  const DATA_TYPE: Text := [100, 97, 116, 97, 95, 116, 121, 112, 101]
  const UDT_NAME: Text := [117, 100, 116, 95, 110, 97, 109, 101]
  const IS_NULLABLE: Text := [105, 115, 95, 110, 117, 108, 108, 97, 98, 108, 101]
  const COLUMN_DEFAULT: Text := [99, 111, 108, 117, 109, 110, 95, 100, 101, 102, 97, 117, 108, 116]

  function Property(key: Text, cell: Cell): seq<(Text, Json)> {
    match cell
    case Undefined => []
    case NullCell => [(key, Null)]
    case TextCell(text) => [(key, Str(text))]
  }

  function Tail(row: Row): seq<(Text, Json)> {
    Property(DATA_TYPE, row.dataType) + (Property(UDT_NAME, row.udtName) +
    (Property(IS_NULLABLE, row.nullable) + Property(COLUMN_DEFAULT, row.default_)))
  }

  /** The members JSON.stringify prints, in declaration order; an undefined one is left out. */
  function Members(row: Row): (ms: seq<(Text, Json)>)
    ensures |ms| >= 2
  {
    [(TABLE_NAME, Str(row.table)), (COLUMN_NAME, Str(row.column))] + Tail(row)
  }

  function MembersText(ms: seq<(Text, Json)>): Text {
    if ms == [] then []
    else Quote(ms[0].0) + [COLON] + Print(ms[0].1) + (if |ms| == 1 then [] else [COMMA] + MembersText(ms[1..]))
  }

  function RowText(row: Row): Text {
    [OPEN_OBJECT] + MembersText(Members(row)) + [CLOSE_OBJECT]
  }

  function RowsBody(rows: seq<Row>): Text {
    if rows == [] then []
    else RowText(rows[0]) + (if |rows| == 1 then [] else [COMMA] + RowsBody(rows[1..]))
  }

  function RowsText(rows: seq<Row>): Text {
    [OPEN_ARRAY] + RowsBody(rows) + [CLOSE_ARRAY]
  }

  function RowsJson(rows: seq<Row>): (r: seq<Json>)
    ensures |r| == |rows|
    ensures forall i | 0 <= i < |rows| :: r[i] == Obj(Members(rows[i]))
  {
    if rows == [] then [] else [Obj(Members(rows[0]))] + RowsJson(rows[1..])
  }

  predicate Scalars(ms: seq<(Text, Json)>) {
    forall i | 0 <= i < |ms| :: ms[i].1.Null? || ms[i].1.Str?
  }

  lemma {:induction false} MembersTextReads(ms: seq<(Text, Json)>, rest: Text)
    requires ms != [] && Scalars(ms)
    ensures ReadMembers(MembersText(ms) + [CLOSE_OBJECT] + rest) == Got(ms, rest)
  {
    hide ReadMembers, ReadValue, Print, Quote;
    var (k, x) := ms[0];
    var t := MembersText(ms) + [CLOSE_OBJECT] + rest;
    if |ms| == 1 {
      ScalarReads(x, [CLOSE_OBJECT] + rest);
      assert t == Quote(k) + ([COLON] + (Print(x) + ([CLOSE_OBJECT] + rest)));
      LastMemberReads(k, Print(x) + ([CLOSE_OBJECT] + rest), x, rest);
      assert ms == [(k, x)];
    } else {
      var tail := MembersText(ms[1..]) + [CLOSE_OBJECT] + rest;
      ScalarReads(x, [COMMA] + tail);
      assert t == Quote(k) + ([COLON] + (Print(x) + ([COMMA] + tail)));
      MembersTextReads(ms[1..], rest);
      NextMemberReads(k, Print(x) + ([COMMA] + tail), x, tail, ms[1..], rest);
      assert ms == [(k, x)] + ms[1..];
    }
  }

  lemma MembersTextStarts(ms: seq<(Text, Json)>)
    requires ms != []
    ensures MembersText(ms) != [] && MembersText(ms)[0] == QUOTE
  {
    QuoteReads(ms[0].0, []);
  }

  lemma {:induction false} RowReads(row: Row, rest: Text)
    ensures ReadValue(RowText(row) + rest) == Got(Obj(Members(row)), rest)
    ensures RowText(row)[0] == OPEN_OBJECT
  {
    hide ReadMembers, ReadValue, Quote, MembersText;
    var ms := Members(row);
    MembersTextReads(ms, rest);
    var t := MembersText(ms) + [CLOSE_OBJECT] + rest;
    MembersTextStarts(ms);
    assert t[0] == QUOTE;
    ObjectReads(t, ms, rest);
    assert RowText(row) + rest == [OPEN_OBJECT] + t;
  }

  lemma {:induction false} RowsBodyReads(rows: seq<Row>, rest: Text)
    requires rows != []
    ensures ReadItems(RowsBody(rows) + [CLOSE_ARRAY] + rest) == Got(RowsJson(rows), rest)
  {
    hide ReadItems, ReadValue, RowText, Members;
    var t := RowsBody(rows) + [CLOSE_ARRAY] + rest;
    if |rows| == 1 {
      RowReads(rows[0], [CLOSE_ARRAY] + rest);
      assert t == RowText(rows[0]) + ([CLOSE_ARRAY] + rest);
      LastItemReads(t, Obj(Members(rows[0])), rest);
      assert RowsJson(rows) == [Obj(Members(rows[0]))];
    } else {
      var tail := RowsBody(rows[1..]) + [CLOSE_ARRAY] + rest;
      RowReads(rows[0], [COMMA] + tail);
      assert t == RowText(rows[0]) + ([COMMA] + tail);
      RowsBodyReads(rows[1..], rest);
      NextItemReads(t, Obj(Members(rows[0])), tail, RowsJson(rows[1..]), rest);
    }
  }

  lemma {:induction false} RowsTextReads(rows: seq<Row>)
    ensures ReadValue(RowsText(rows)) == Got(Arr(RowsJson(rows)), [])
  {
    hide ReadItems, ReadValue, RowText, Members;
    if rows == [] {
      EmptyReads([]);
      assert RowsText(rows) == [OPEN_ARRAY, CLOSE_ARRAY] + [];
    } else {
      var t := RowsBody(rows) + [CLOSE_ARRAY] + [];
      RowsBodyReads(rows, []);
      RowReads(rows[0], []);
      assert t[0] == RowText(rows[0])[0];
      ArrayReads(t, RowsJson(rows), []);
      assert RowsText(rows) == [OPEN_ARRAY] + t;
    }
  }

  predicate Lacks(ms: seq<(Text, Json)>, key: Text) {
    forall i | 0 <= i < |ms| :: ms[i].0 != key
  }

  lemma PropertyFirst(key: Text, cell: Cell, rest: seq<(Text, Json)>)
    requires Lacks(rest, key)
    ensures Lacks(Property(key, cell) + rest, key) <==> cell.Undefined?
  {
    if !cell.Undefined? {
      assert (Property(key, cell) + rest)[0].0 == key;
    }
  }

  lemma Peel(key: Text, a: Cell, b: Cell, as_: seq<(Text, Json)>, bs: seq<(Text, Json)>)
    requires Lacks(as_, key) && Lacks(bs, key)
    requires Property(key, a) + as_ == Property(key, b) + bs
    ensures a == b && as_ == bs
  {
    var left, right := Property(key, a) + as_, Property(key, b) + bs;
    PropertyFirst(key, a, as_);
    PropertyFirst(key, b, bs);
    if a.Undefined? {
      assert left == as_ && right == bs;
    } else {
      assert left[0] == Property(key, a)[0] && right[0] == Property(key, b)[0];
      assert left[1..] == as_ && right[1..] == bs;
    }
  }

  lemma KeysDiffer()
    ensures DATA_TYPE != UDT_NAME && DATA_TYPE != IS_NULLABLE && DATA_TYPE != COLUMN_DEFAULT
    ensures UDT_NAME != IS_NULLABLE && UDT_NAME != COLUMN_DEFAULT && IS_NULLABLE != COLUMN_DEFAULT
  {
    assert DATA_TYPE[0] == 100 && UDT_NAME[0] == 117 && IS_NULLABLE[0] == 105 && COLUMN_DEFAULT[0] == 99;
  }

  lemma LacksProperty()
    ensures forall key, other, cell :: key != other ==> Lacks(Property(other, cell), key)
    ensures forall key, ms, ns :: Lacks(ms, key) && Lacks(ns, key) ==> Lacks(ms + ns, key)
  {}

  lemma TailDetermines(a: Row, b: Row)
    requires Tail(a) == Tail(b)
    ensures a.dataType == b.dataType && a.udtName == b.udtName && a.nullable == b.nullable && a.default_ == b.default_
  {
    KeysDiffer();
    hide Property;
    LacksProperty();
    var a3, b3 := Property(COLUMN_DEFAULT, a.default_), Property(COLUMN_DEFAULT, b.default_);
    var a2, b2 := Property(IS_NULLABLE, a.nullable) + a3, Property(IS_NULLABLE, b.nullable) + b3;
    var a1, b1 := Property(UDT_NAME, a.udtName) + a2, Property(UDT_NAME, b.udtName) + b2;
    Peel(DATA_TYPE, a.dataType, b.dataType, a1, b1);
    Peel(UDT_NAME, a.udtName, b.udtName, a2, b2);
    Peel(IS_NULLABLE, a.nullable, b.nullable, a3, b3);
    assert a3 + [] == a3 && b3 + [] == b3;
    Peel(COLUMN_DEFAULT, a.default_, b.default_, [], []);
  }

  /** Two lists of rows print alike exactly when they are equal. */
  lemma {:induction false} RowsTextInjective(a: seq<Row>, b: seq<Row>)
    ensures RowsText(a) == RowsText(b) <==> a == b
  {
    if RowsText(a) == RowsText(b) {
      RowsTextReads(a);
      RowsTextReads(b);
      forall i | 0 <= i < |a| ensures a[i] == b[i] {
        assert RowsJson(a)[i] == RowsJson(b)[i];
        assert Members(a[i])[0] == Members(b[i])[0] && Members(a[i])[1] == Members(b[i])[1];
        assert Members(a[i])[2..] == Tail(a[i]) && Members(b[i])[2..] == Tail(b[i]);
        TailDetermines(a[i], b[i]);
      }
    }
  }

  // ------------------------------------------------------------------ comparing

  datatype Failure = Missing(table: Text) | Unexpected(table: Text) | Differs(table: Text)

  /** First occurrences, in order: what a Set or the keys of a Map iterate over. */
  function Unique(names: seq<Text>): (r: seq<Text>)
    ensures forall t :: t in r <==> t in names
    ensures Distinct(r)
  {
    if names == [] then []
    else
      var front, last := Unique(names[..|names| - 1]), names[|names| - 1];
      if last in front then front else front + [last]
  }

  function TablesOf(rows: seq<Row>): (r: seq<Text>)
    ensures |r| == |rows|
    ensures forall i | 0 <= i < |rows| :: r[i] == rows[i].table
  {
    seq(|rows|, i requires 0 <= i < |rows| => rows[i].table)
  }

  function TableNames(rows: seq<Row>): seq<Text> {
    Sort(LexLe, Unique(TablesOf(rows)))
  }

  lemma TableNamesMembers(rows: seq<Row>)
    ensures forall t :: t in TableNames(rows) <==> t in TablesOf(rows)
    ensures Distinct(TableNames(rows))
  {
    LexIsTotalOrder();
    SortDistinct(LexLe, Unique(TablesOf(rows)));
  }

  lemma TablesOfSnoc(rows: seq<Row>)
    requires rows != []
    ensures TablesOf(rows) == TablesOf(rows[..|rows| - 1]) + [rows[|rows| - 1].table]
  {}

  /** The rows of one table, in their order. */
  function RowsOf(rows: seq<Row>, table: Text): (r: seq<Row>)
    ensures r != [] <==> table in TablesOf(rows)
  {
    if rows == [] then []
    else
      var front, last := RowsOf(rows[..|rows| - 1], table), rows[|rows| - 1];
      TablesOfSnoc(rows);
      if last.table == table then front + [last] else front
  }

  ghost predicate Agree(a: seq<Row>, b: seq<Row>, table: Text) {
    RowsOf(a, table) == RowsOf(b, table)
  }

  method GroupByTable(rows: seq<Row>) returns (order: seq<Text>, grouped: map<Text, seq<Row>>)
    ensures order == Unique(TablesOf(rows))
    ensures forall t :: t in grouped <==> t in TablesOf(rows)
    ensures forall t | t in grouped :: grouped[t] == RowsOf(rows, t)
  {
    order, grouped := [], map[];
    for i := 0 to |rows|
      invariant order == Unique(TablesOf(rows[..i]))
      invariant forall t :: t in grouped <==> t in TablesOf(rows[..i])
      invariant forall t | t in grouped :: grouped[t] == RowsOf(rows[..i], t)
    {
      var row := rows[i];
      assert rows[..i + 1][..i] == rows[..i];
      TablesOfSnoc(rows[..i + 1]);
      assert TablesOf(rows[..i + 1])[..i] == TablesOf(rows[..i]);
      if row.table !in grouped {
        grouped := grouped[row.table := []];
        order := order + [row.table];
      }
      grouped := grouped[row.table := grouped[row.table] + [row]];
    }
    assert rows[..|rows|] == rows;
  }

  /** Names of `tables` absent from `present`, in order. */
  method Absent(tables: seq<Text>, present: seq<Text>) returns (r: seq<Text>)
    requires Distinct(tables)
    ensures forall t :: t in r <==> t in tables && t !in present
    ensures Distinct(r)
  {
    r := [];
    for i := 0 to |tables|
      invariant forall t :: t in r <==> t in tables[..i] && t !in present
      invariant Distinct(r)
    {
      if tables[i] !in present { r := r + [tables[i]]; }
    }
  }

  method DifferingTables(actual: seq<Row>, expected: seq<Row>) returns (r: seq<Text>)
    ensures forall t :: t in r <==> !Agree(actual, expected, t)
    ensures Distinct(r)
  {
    hide RowsText, Unique;
    var actualOrder, actualByTable := GroupByTable(actual);
    var expectedOrder, expectedByTable := GroupByTable(expected);
    var order := Unique(actualOrder + expectedOrder);
    r := [];
    for i := 0 to |order|
      invariant forall t :: t in r <==> t in order[..i] && !Agree(actual, expected, t)
      invariant Distinct(r)
    {
      var table := order[i];
      var a := if table in actualByTable then actualByTable[table] else [];
      var e := if table in expectedByTable then expectedByTable[table] else [];
      assert a == RowsOf(actual, table) && e == RowsOf(expected, table);
      RowsTextInjective(a, e);
      assert order[..i + 1] == order[..i] + [table] && table !in order[..i];
      if RowsText(a) != RowsText(e) { r := r + [table]; }
    }
    forall t | t !in order ensures Agree(actual, expected, t) {
      assert t !in actualOrder && t !in expectedOrder;
    }
  }

  function Tagged(missing: seq<Text>, unexpected: seq<Text>, differing: seq<Text>): (r: seq<Failure>)
    ensures |r| == |missing| + |unexpected| + |differing|
    ensures forall i | 0 <= i < |r| :: r[i] ==
              if i < |missing| then Missing(missing[i])
              else if i < |missing| + |unexpected| then Unexpected(unexpected[i - |missing|])
              else Differs(differing[i - |missing| - |unexpected|])
  {
    seq(|missing|, i requires 0 <= i < |missing| => Missing(missing[i]))
    + seq(|unexpected|, i requires 0 <= i < |unexpected| => Unexpected(unexpected[i]))
    + seq(|differing|, i requires 0 <= i < |differing| => Differs(differing[i]))
  }

  lemma TaggedMembers(missing: seq<Text>, unexpected: seq<Text>, differing: seq<Text>, t: Text)
    ensures var r := Tagged(missing, unexpected, differing);
            && (Missing(t) in r <==> t in missing)
            && (Unexpected(t) in r <==> t in unexpected)
            && (Differs(t) in r <==> t in differing)
  {
    var r := Tagged(missing, unexpected, differing);
    hide Tagged;
    if t in missing {
      var i :| 0 <= i < |missing| && missing[i] == t;
      assert r[i] == Missing(t);
    }
    if t in unexpected {
      var i :| 0 <= i < |unexpected| && unexpected[i] == t;
      assert r[|missing| + i] == Unexpected(t);
    }
    if t in differing {
      var i :| 0 <= i < |differing| && differing[i] == t;
      assert r[|missing| + |unexpected| + i] == Differs(t);
    }
  }

  lemma TaggedDistinct(missing: seq<Text>, unexpected: seq<Text>, differing: seq<Text>)
    requires Distinct(missing) && Distinct(unexpected) && Distinct(differing)
    ensures Distinct(Tagged(missing, unexpected, differing))
  {}

  lemma AbsentDiffers(a: seq<Row>, b: seq<Row>)
    ensures forall t :: (t in TablesOf(a) && t !in TablesOf(b)) || (t in TablesOf(b) && t !in TablesOf(a)) ==> !Agree(a, b, t)
  {
    forall t | (t in TablesOf(a) && t !in TablesOf(b)) || (t in TablesOf(b) && t !in TablesOf(a)) ensures !Agree(a, b, t) {
      assert RowsOf(a, t) != [] <==> RowsOf(b, t) == [];
    }
  }

  /**
    No failure exactly when every table has the same rows in the same order; otherwise each table that is missing,
    unexpected or different is named for what it is.
  */
  method CompareSnapshots(actualInput: seq<InputRow>, expectedInput: seq<InputRow>) returns (failures: seq<Failure>)
    ensures var actual, expected := Normalized(actualInput), Normalized(expectedInput);
            && (failures == [] <==> forall t :: Agree(actual, expected, t))
            && (forall t :: Missing(t) in failures <==> t in TablesOf(expected) && t !in TablesOf(actual))
            && (forall t :: Unexpected(t) in failures <==> t in TablesOf(actual) && t !in TablesOf(expected))
            && (forall t :: Differs(t) in failures <==> !Agree(actual, expected, t))
    ensures Distinct(failures)
  {
    hide RowsText, TableNames, Normalized;
    var actual, expected := Normalized(actualInput), Normalized(expectedInput);
    RowsTextInjective(actual, expected);
    if RowsText(actual) == RowsText(expected) { return []; }
    TableNamesMembers(actual);
    TableNamesMembers(expected);
    var missing := Absent(TableNames(expected), TableNames(actual));
    var unexpected := Absent(TableNames(actual), TableNames(expected));
    var differing := DifferingTables(actual, expected);
    failures := Tagged(missing, unexpected, differing);
    TaggedDistinct(missing, unexpected, differing);
    forall t
      ensures Missing(t) in failures <==> t in missing
      ensures Unexpected(t) in failures <==> t in unexpected
      ensures Differs(t) in failures <==> t in differing
    {
      TaggedMembers(missing, unexpected, differing, t);
    }
    AbsentDiffers(actual, expected);
    hide RowsOf, TablesOf, Agree;
    assert forall t :: t in missing || t in unexpected ==> t in differing;
    assert missing != [] ==> missing[0] in differing;
    assert unexpected != [] ==> unexpected[0] in differing;
    assert differing != [] ==> differing[0] in differing;
  }

  // ------------------------------------------------------------------ snapshots as read

  /** `ORDER BY table_name, column_name` under some collation. */
  ghost predicate InReadOrder(le: (Text, Text) -> bool, rows: seq<Row>) {
    Sorted(le, TablesOf(rows))
  }

  lemma {:induction false} RowsOfFirst(rows: seq<Row>, table: Text)
    requires rows != []
    ensures RowsOf(rows, table) == (if rows[0].table == table then [rows[0]] else []) + RowsOf(rows[1..], table)
  {
    var n := |rows| - 1;
    if n > 0 {
      RowsOfFirst(rows[..n], table);
      assert rows[..n][1..] == rows[1..][..n - 1];
    }
  }

  lemma SameHeads(le: (Text, Text) -> bool, a: seq<Row>, b: seq<Row>)
    requires TotalOrder(le) && InReadOrder(le, a) && InReadOrder(le, b) && a != []
    requires forall t :: Agree(a, b, t)
    ensures b != [] && a[0] == b[0]
  {
    var t := a[0].table;
    assert TablesOf(a)[0] == t && Agree(a, b, t);
    assert t in TablesOf(a) && t in TablesOf(b) && b != [];
    var u := b[0].table;
    assert TablesOf(b)[0] == u && Agree(a, b, u);
    assert u in TablesOf(b) && u in TablesOf(a);
    hide RowsOf;
    assert le(t, u) && le(u, t);
    RowsOfFirst(a, t);
    RowsOfFirst(b, t);
    assert RowsOf(a, t)[0] == a[0] && RowsOf(b, t)[0] == b[0];
  }

  lemma SameRests(a: seq<Row>, b: seq<Row>, t: Text)
    requires a != [] && b != [] && a[0] == b[0] && Agree(a, b, t)
    ensures Agree(a[1..], b[1..], t)
  {
    hide RowsOf;
    RowsOfFirst(a, t);
    RowsOfFirst(b, t);
    var first := if a[0].table == t then [a[0]] else [];
    assert RowsOf(a, t)[|first|..] == RowsOf(a[1..], t) && RowsOf(b, t)[|first|..] == RowsOf(b[1..], t);
  }

  lemma SortedRest(le: (Text, Text) -> bool, rows: seq<Row>)
    requires rows != [] && InReadOrder(le, rows)
    ensures InReadOrder(le, rows[1..])
  {
    assert TablesOf(rows[1..]) == TablesOf(rows)[1..];
  }

  /** Snapshots read in table order, whatever the collation, agree table by table exactly when they are equal. */
  lemma {:induction false} SameTablesSameSnapshot(le: (Text, Text) -> bool, a: seq<Row>, b: seq<Row>)
    requires TotalOrder(le) && InReadOrder(le, a) && InReadOrder(le, b)
    ensures (forall t :: Agree(a, b, t)) <==> a == b
    decreases |a|
  {
    if forall t :: Agree(a, b, t) {
      if a == [] {
        var t := if b != [] then b[0].table else [];
        assert b != [] ==> TablesOf(b)[0] == t && t in TablesOf(b);
        assert Agree(a, b, t);
      } else {
        SameHeads(le, a, b);
        forall t ensures Agree(a[1..], b[1..], t) { SameRests(a, b, t); }
        SortedRest(le, a);
        SortedRest(le, b);
        SameTablesSameSnapshot(le, a[1..], b[1..]);
        assert a == [a[0]] + a[1..] && b == [b[0]] + b[1..];
      }
    }
  }
}
