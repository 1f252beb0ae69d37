/**
  The public campaign listing: optional facets compiled to SQL fragments with numbered placeholders.
  The fragments are expressions evaluated in SQL's three-valued logic against a row and the bound values.
*/
module CampaignQuery {
  import opened Options

  /** A JavaScript number, and PostgreSQL's NUMERIC, which orders NaN above everything. */
  datatype Number = NaN | Infinite(negative: bool) | Finite(value: real)

  predicate NumberLe(a: Number, b: Number) {
    match (a, b)
    case (_, NaN) => true
    case (NaN, _) => false
    case (Infinite(negative), _) => negative || b == Infinite(false)
    case (_, Infinite(negative)) => !negative
    case (Finite(x), Finite(y)) => x <= y
  }

  /** The query string: each parameter is absent or one text. */
  datatype Query = Query(
    search: Option<string>, status: Option<string>, asset: Option<string>, category: Option<string>,
    minProgress: Option<string>, minFunding: Option<string>, maxFunding: Option<string>,
    deadlineWithin: Option<string>, creatorVerified: Option<string>, country: Option<string>,
    sort: Option<string>, limit: Option<string>, offset: Option<string>)

  /** `Number(text)`, and `parseInt(text, 10)` with no value for NaN. */
  datatype Js = Js(number: string -> Number, integer: string -> Option<int>)

  datatype Row = Row(
    deletedAt: Option<int>, flaggedDuplicate: Option<bool>, hidden: Option<bool>, status: string,
    asset: string, category: Option<string>, raised: real, target: real, deadline: Option<int>,
    creatorKyc: string, country: Option<string>, searchVector: Option<string>)

  /** The current day, the full-text match of a document and a search, and NUMERIC division with its rounding. */
  datatype Env = Env(today: int, matches: (string, string) -> bool, divide: (real, real) -> real)

  // ------------------------------------------------------------------ SQL

  datatype Value = Null | Bool(holds: bool) | Text(text: string) | Num(number: Number) | Day(day: int)
  datatype Column =
    | DeletedAt | IsFlaggedDuplicate | IsHidden | Status | AssetType | Category | RaisedAmount
    | TargetAmount | Deadline | KycStatus | Country | SearchVector
  datatype Expr =
    | Col(column: Column)
    | Literal(value: Value)
    | Param(position: nat)
    | IsNull(e: Expr)
    | Equal(l: Expr, r: Expr)
    | AtLeast(l: Expr, r: Expr)
    | AtMost(l: Expr, r: Expr)
    | And(l: Expr, r: Expr)
    | Not(e: Expr)
    | NullIfZero(e: Expr)
    | Quotient(l: Expr, r: Expr)
    | Hundredfold(e: Expr)
    | Today
    | DaysFromToday(e: Expr)
    | Matches(document: Expr, search: Expr)

  datatype Outcome = Fails | Val(value: Value)

  function Cell(column: Column, row: Row): Value {
    match column
    case DeletedAt => if row.deletedAt.None? then Null else Day(row.deletedAt.value)
    case IsFlaggedDuplicate => if row.flaggedDuplicate.None? then Null else Bool(row.flaggedDuplicate.value)
    case IsHidden => if row.hidden.None? then Null else Bool(row.hidden.value)
    case Status => Text(row.status)
    case AssetType => Text(row.asset)
    case Category => if row.category.None? then Null else Text(row.category.value)
    case RaisedAmount => Num(Finite(row.raised))
    case TargetAmount => Num(Finite(row.target))
    case Deadline => if row.deadline.None? then Null else Day(row.deadline.value)
    case KycStatus => Text(row.creatorKyc)
    case Country => if row.country.None? then Null else Text(row.country.value)
    case SearchVector => if row.searchVector.None? then Null else Text(row.searchVector.value)
  }

  /** A comparison: unknown as soon as one side is. */
  function Compare(l: Value, r: Value): Outcome {
    match (l, r)
    case (Null, _) => Val(Null)
    case (_, Null) => Val(Null)
    case (Num(a), Num(b)) => Val(Bool(NumberLe(a, b)))
    case (Day(a), Day(b)) => Val(Bool(a <= b))
    case _ => Fails
  }

  function Conjunction(l: Outcome, r: Outcome): Outcome {
    match (l, r)
    case (Fails, _) => Fails
    case (_, Fails) => Fails
    case (Val(Bool(a)), Val(Bool(b))) => Val(Bool(a && b))
    case (Val(Null), Val(Bool(b))) => Val(if b then Null else Bool(false))
    case (Val(Bool(a)), Val(Null)) => Val(if a then Null else Bool(false))
    case (Val(Null), Val(Null)) => Val(Null)
    case _ => Fails
  }

  /** What `::int` accepts. */
  predicate IsInt4(n: Number) {
    n.Finite? && n.value == n.value.Floor as real && -0x8000_0000 <= n.value.Floor < 0x8000_0000
  }

  function Eval(e: Expr, row: Row, values: seq<Value>, env: Env): Outcome {
    match e
    case Col(column) => Val(Cell(column, row))
    case Literal(value) => Val(value)
    case Param(n) => if 1 <= n <= |values| then Val(values[n - 1]) else Fails
    case Today => Val(Day(env.today))
    case IsNull(a) =>
      var x := Eval(a, row, values, env);
      if x.Fails? then Fails else Val(Bool(x.value.Null?))
    case Not(a) =>
      (match Eval(a, row, values, env)
       case Val(Null) => Val(Null)
       case Val(Bool(b)) => Val(Bool(!b))
       case _ => Fails)
    case Equal(a, b) =>
      var x, y := Eval(a, row, values, env), Eval(b, row, values, env);
      if x.Fails? || y.Fails? then Fails
      else if x.value.Null? || y.value.Null? then Val(Null)
      else Val(Bool(x.value == y.value))
    case AtLeast(a, b) =>
      var x, y := Eval(a, row, values, env), Eval(b, row, values, env);
      if x.Fails? || y.Fails? then Fails else Compare(y.value, x.value)
    case AtMost(a, b) =>
      var x, y := Eval(a, row, values, env), Eval(b, row, values, env);
      if x.Fails? || y.Fails? then Fails else Compare(x.value, y.value)
    case And(a, b) => Conjunction(Eval(a, row, values, env), Eval(b, row, values, env))
    case NullIfZero(a) =>
      var x := Eval(a, row, values, env);
      if x == Val(Num(Finite(0.0))) then Val(Null) else x
    case Quotient(a, b) =>
      (match (Eval(a, row, values, env), Eval(b, row, values, env))
       case (Val(Num(Finite(x))), Val(Num(Finite(y)))) => if y == 0.0 then Fails else Val(Num(Finite(env.divide(x, y))))
       case (Val(Num(_)), Val(Null)) => Val(Null)
       case _ => Fails)
    case Hundredfold(a) =>
      (match Eval(a, row, values, env)
       case Val(Num(Finite(x))) => Val(Num(Finite(x * 100.0)))
       case Val(Null) => Val(Null)
       case _ => Fails)
    case DaysFromToday(a) =>
      (match Eval(a, row, values, env)
       case Val(Num(n)) => if IsInt4(n) then Val(Day(env.today + n.value.Floor)) else Fails
       case _ => Fails)
    case Matches(d, s) =>
      (match (Eval(d, row, values, env), Eval(s, row, values, env))
       case (Val(Text(document)), Val(Text(search))) => Val(Bool(env.matches(document, search)))
       case (Val(Null), Val(Text(_))) => Val(Null)
       case _ => Fails)
  }

  /** `filters.join(' AND ')`. */
  function Where(filters: seq<Expr>, row: Row, values: seq<Value>, env: Env): Outcome {
    if filters == [] then Val(Bool(true))
    else
      var last := |filters| - 1;
      Conjunction(Where(filters[..last], row, values, env), Eval(filters[last], row, values, env))
  }

  /** Every placeholder lies in 1..count. */
  predicate InRange(e: Expr, count: nat) {
    match e
    case Param(n) => 1 <= n <= count
    case Col(_) => true
    case Literal(_) => true
    case Today => true
    case IsNull(a) => InRange(a, count)
    case Not(a) => InRange(a, count)
    case NullIfZero(a) => InRange(a, count)
    case Hundredfold(a) => InRange(a, count)
    case DaysFromToday(a) => InRange(a, count)
    case Equal(a, b) => InRange(a, count) && InRange(b, count)
    case AtLeast(a, b) => InRange(a, count) && InRange(b, count)
    case AtMost(a, b) => InRange(a, count) && InRange(b, count)
    case And(a, b) => InRange(a, count) && InRange(b, count)
    case Quotient(a, b) => InRange(a, count) && InRange(b, count)
    case Matches(a, b) => InRange(a, count) && InRange(b, count)
  }

  lemma InRangeOfMore(e: Expr, count: nat, more: nat)
    requires InRange(e, count) && count <= more
    ensures InRange(e, more)
  {}

  /** Appending parameters leaves the fragments already pushed alone. */
  lemma MoreValues(e: Expr, row: Row, values: seq<Value>, more: seq<Value>, env: Env)
    requires InRange(e, |values|)
    ensures Eval(e, row, values + more, env) == Eval(e, row, values, env)
  {}

  // ------------------------------------------------------------------ facets

  datatype Facet =
    | NotDeleted | NotFlagged | NotHidden | IsActive
    | StatusIs(text: string)
    | AssetIs(text: string)
    | CategoryIs(text: string)
    | ProgressAtLeast(percent: Number)
    | RaisedAtLeast(amount: Number)
    | RaisedAtMost(amount: Number)
    | DeadlineWithin(days: Number)
    | CreatorVerified
    | CountryIs(text: string)
    | SearchFor(text: string)

  function Bindings(f: Facet): seq<Value> {
    match f
    case StatusIs(text) => [Text(text)]
    case AssetIs(text) => [Text(text)]
    case CategoryIs(text) => [Text(text)]
    case CountryIs(text) => [Text(text)]
    case SearchFor(text) => [Text(text)]
    case ProgressAtLeast(n) => [Num(n)]
    case RaisedAtLeast(n) => [Num(n)]
    case RaisedAtMost(n) => [Num(n)]
    case DeadlineWithin(n) => [Num(n)]
    case _ => []
  }

  function Progress(): Expr {
    Hundredfold(Quotient(Col(RaisedAmount), NullIfZero(Col(TargetAmount))))
  }

  function Fragment(f: Facet, n: nat): Expr {
    match f
    case NotDeleted => IsNull(Col(DeletedAt))
    case NotFlagged => Equal(Col(IsFlaggedDuplicate), Literal(Bool(false)))
    case NotHidden => Equal(Col(IsHidden), Literal(Bool(false)))
    case IsActive => Equal(Col(Status), Literal(Text("active")))
    case StatusIs(_) => Equal(Col(Status), Param(n))
    case AssetIs(_) => Equal(Col(AssetType), Param(n))
    case CategoryIs(_) => Equal(Col(Category), Param(n))
    case ProgressAtLeast(_) => AtLeast(Progress(), Param(n))
    case RaisedAtLeast(_) => AtLeast(Col(RaisedAmount), Param(n))
    case RaisedAtMost(_) => AtMost(Col(RaisedAmount), Param(n))
    case DeadlineWithin(_) =>
      And(And(Not(IsNull(Col(Deadline))), AtLeast(Col(Deadline), Today)), AtMost(Col(Deadline), DaysFromToday(Param(n))))
    case CreatorVerified => Equal(Col(KycStatus), Literal(Text("verified")))
    case CountryIs(_) => Equal(Col(Country), Param(n))
    case SearchFor(_) => Matches(Col(SearchVector), Param(n))
  }

  /** What a visitor asks for with a facet. */
  predicate Meets(f: Facet, row: Row, env: Env) {
    match f
    case NotDeleted => row.deletedAt.None?
    case NotFlagged => row.flaggedDuplicate == Some(false)
    case NotHidden => row.hidden == Some(false)
    case IsActive => row.status == "active"
    case StatusIs(text) => row.status == text
    case AssetIs(text) => row.asset == text
    case CategoryIs(text) => row.category == Some(text)
    case ProgressAtLeast(n) => row.target != 0.0 && NumberLe(n, Finite(env.divide(row.raised, row.target) * 100.0))
    case RaisedAtLeast(n) => NumberLe(n, Finite(row.raised))
    case RaisedAtMost(n) => NumberLe(Finite(row.raised), n)
    case DeadlineWithin(n) =>
      row.deadline.Some? && n.Finite? && env.today <= row.deadline.value <= env.today + n.value.Floor
    case CreatorVerified => row.creatorKyc == "verified"
    case CountryIs(text) => row.country == Some(text)
    case SearchFor(text) => row.searchVector.Some? && env.matches(row.searchVector.value, text)
  }

  predicate Castable(f: Facet) {
    f.DeadlineWithin? ==> IsInt4(f.days)
  }

  predicate IsTruth(outcome: Outcome) {
    outcome.Val? && (outcome.value.Null? || outcome.value.Bool?)
  }

  predicate Accepts(outcome: Outcome) {
    outcome == Val(Bool(true))
  }

  lemma DeadlineParts(days: Number, row: Row, values: seq<Value>, env: Env)
    requires |values| > 0 && values[|values| - 1] == Num(days)
    ensures Eval(Not(IsNull(Col(Deadline))), row, values, env) == Val(Bool(row.deadline.Some?))
    ensures Eval(AtLeast(Col(Deadline), Today), row, values, env)
         == if row.deadline.Some? then Val(Bool(env.today <= row.deadline.value)) else Val(Null)
    ensures Eval(DaysFromToday(Param(|values|)), row, values, env)
         == if IsInt4(days) then Val(Day(env.today + days.value.Floor)) else Fails
  {
    var deadline, bound := Col(Deadline), Param(|values|);
    assert Eval(deadline, row, values, env) == Val(Cell(Deadline, row));
    assert Eval(bound, row, values, env) == Val(Num(days));
    assert Eval(IsNull(deadline), row, values, env) == Val(Bool(row.deadline.None?));
  }

  lemma DeadlineMeaning(f: Facet, row: Row, values: seq<Value>, env: Env)
    requires f.DeadlineWithin? && |values| > 0 && values[|values| - 1] == Num(f.days)
    ensures var outcome := Eval(Fragment(f, |values|), row, values, env);
            && (outcome.Fails? <==> !Castable(f))
            && (Castable(f) ==> IsTruth(outcome) && (Accepts(outcome) <==> Meets(f, row, env)))
  {
    DeadlineParts(f.days, row, values, env);
    var present, notPast := Not(IsNull(Col(Deadline))), AtLeast(Col(Deadline), Today);
    var within := AtMost(Col(Deadline), DaysFromToday(Param(|values|)));
    assert Eval(Col(Deadline), row, values, env) == Val(Cell(Deadline, row));
    assert Eval(within, row, values, env)
      == if !IsInt4(f.days) then Fails
         else if row.deadline.None? then Val(Null)
         else Val(Bool(row.deadline.value <= env.today + f.days.value.Floor));
    assert Eval(Fragment(f, |values|), row, values, env)
      == Conjunction(Conjunction(Eval(present, row, values, env), Eval(notPast, row, values, env)), Eval(within, row, values, env));
    hide Eval, Fragment, IsInt4;
  }

  lemma ProgressMeaning(f: Facet, row: Row, values: seq<Value>, env: Env)
    requires f.ProgressAtLeast? && |values| > 0 && values[|values| - 1] == Num(f.percent)
    ensures var outcome := Eval(Fragment(f, |values|), row, values, env);
            IsTruth(outcome) && (Accepts(outcome) <==> Meets(f, row, env))
  {
    var raised, target := Col(RaisedAmount), Col(TargetAmount);
    assert Eval(raised, row, values, env) == Val(Num(Finite(row.raised)));
    assert Eval(target, row, values, env) == Val(Num(Finite(row.target)));
    assert Eval(NullIfZero(target), row, values, env) == if row.target == 0.0 then Val(Null) else Val(Num(Finite(row.target)));
    assert Eval(Quotient(raised, NullIfZero(target)), row, values, env)
      == if row.target == 0.0 then Val(Null) else Val(Num(Finite(env.divide(row.raised, row.target))));
    assert Eval(Progress(), row, values, env)
      == if row.target == 0.0 then Val(Null) else Val(Num(Finite(env.divide(row.raised, row.target) * 100.0)));
    assert Eval(Param(|values|), row, values, env) == Val(Num(f.percent));
  }

  lemma ColumnMeaning(f: Facet, row: Row, values: seq<Value>, env: Env)
    requires f.NotDeleted? || f.NotFlagged? || f.NotHidden? || f.IsActive? || f.CreatorVerified?
    ensures var outcome := Eval(Fragment(f, |values|), row, values, env);
            IsTruth(outcome) && (Accepts(outcome) <==> Meets(f, row, env))
  {
    match f
    case NotDeleted => assert Eval(Col(DeletedAt), row, values, env) == Val(Cell(DeletedAt, row));
    case NotFlagged => assert Eval(Col(IsFlaggedDuplicate), row, values, env) == Val(Cell(IsFlaggedDuplicate, row));
    case NotHidden => assert Eval(Col(IsHidden), row, values, env) == Val(Cell(IsHidden, row));
    case IsActive => assert Eval(Col(Status), row, values, env) == Val(Text(row.status));
    case CreatorVerified => assert Eval(Col(KycStatus), row, values, env) == Val(Text(row.creatorKyc));
  }

  lemma TextMeaning(f: Facet, row: Row, values: seq<Value>, env: Env)
    requires f.StatusIs? || f.AssetIs? || f.CategoryIs? || f.CountryIs?
    requires |values| > 0 && values[|values| - 1] == Bindings(f)[0]
    ensures var outcome := Eval(Fragment(f, |values|), row, values, env);
            IsTruth(outcome) && (Accepts(outcome) <==> Meets(f, row, env))
  {
    assert Eval(Param(|values|), row, values, env) == Val(Bindings(f)[0]);
    match f
    case StatusIs(_) => assert Eval(Col(Status), row, values, env) == Val(Text(row.status));
    case AssetIs(_) => assert Eval(Col(AssetType), row, values, env) == Val(Text(row.asset));
    case CategoryIs(_) => assert Eval(Col(Category), row, values, env) == Val(Cell(Category, row));
    case CountryIs(_) => assert Eval(Col(Country), row, values, env) == Val(Cell(Country, row));
  }

  lemma ValueMeaning(f: Facet, row: Row, values: seq<Value>, env: Env)
    requires f.SearchFor? || f.RaisedAtLeast? || f.RaisedAtMost?
    requires |values| > 0 && values[|values| - 1] == Bindings(f)[0]
    ensures var outcome := Eval(Fragment(f, |values|), row, values, env);
            IsTruth(outcome) && (Accepts(outcome) <==> Meets(f, row, env))
  {
    assert Eval(Param(|values|), row, values, env) == Val(Bindings(f)[0]);
    match f
    case SearchFor(_) => assert Eval(Col(SearchVector), row, values, env) == Val(Cell(SearchVector, row));
    case RaisedAtLeast(_) => assert Eval(Col(RaisedAmount), row, values, env) == Val(Num(Finite(row.raised)));
    case RaisedAtMost(_) => assert Eval(Col(RaisedAmount), row, values, env) == Val(Num(Finite(row.raised)));
  }

  lemma FragmentInRange(f: Facet, count: nat)
    requires Bindings(f) != [] ==> count > 0
    ensures InRange(Fragment(f, count), count)
  {
    match f {
      case DeadlineWithin(_) =>
        assert InRange(Param(count), count) && InRange(Col(Deadline), count);
        assert InRange(DaysFromToday(Param(count)), count) && InRange(IsNull(Col(Deadline)), count);
        assert InRange(AtLeast(Col(Deadline), Today), count);
        assert InRange(And(Not(IsNull(Col(Deadline))), AtLeast(Col(Deadline), Today)), count);
        assert InRange(AtMost(Col(Deadline), DaysFromToday(Param(count))), count);
      case ProgressAtLeast(_) =>
        assert InRange(Col(RaisedAmount), count) && InRange(NullIfZero(Col(TargetAmount)), count);
        assert InRange(Progress(), count);
      case _ =>
    }
  }

  ghost predicate Faithful(f: Facet, outcome: Outcome, row: Row, env: Env) {
    && (outcome.Fails? <==> !Castable(f))
    && (Castable(f) ==> IsTruth(outcome) && (Accepts(outcome) <==> Meets(f, row, env)))
  }

  lemma FaithfulMeans(f: Facet, outcome: Outcome, row: Row, env: Env)
    requires Faithful(f, outcome, row, env)
    ensures outcome.Fails? <==> !Castable(f)
    ensures outcome.Fails? || IsTruth(outcome)
    ensures Accepts(outcome) <==> Castable(f) && Meets(f, row, env)
  {
    hide Castable, Meets;
  }

  /** Each fragment, with its value bound last, says what its facet asks. */
  lemma FragmentMeaning(f: Facet, row: Row, values: seq<Value>, env: Env)
    requires |values| >= |Bindings(f)| && Bindings(f) == values[|values| - |Bindings(f)|..]
    ensures Faithful(f, Eval(Fragment(f, |values|), row, values, env), row, env)
  {
    hide Eval, Fragment, Meets;
    if Bindings(f) != [] { assert values[|values| - 1] == Bindings(f)[0]; }
    match f
    case DeadlineWithin(_) => DeadlineMeaning(f, row, values, env);
    case ProgressAtLeast(_) => ProgressMeaning(f, row, values, env);
    case NotDeleted => ColumnMeaning(f, row, values, env);
    case NotFlagged => ColumnMeaning(f, row, values, env);
    case NotHidden => ColumnMeaning(f, row, values, env);
    case IsActive => ColumnMeaning(f, row, values, env);
    case CreatorVerified => ColumnMeaning(f, row, values, env);
    case SearchFor(_) => ValueMeaning(f, row, values, env);
    case RaisedAtLeast(_) => ValueMeaning(f, row, values, env);
    case RaisedAtMost(_) => ValueMeaning(f, row, values, env);
    case _ => TextMeaning(f, row, values, env);
  }

  // ------------------------------------------------------------------ pushing facets

  function Values(facets: seq<Facet>): seq<Value> {
    if facets == [] then [] else Values(facets[..|facets| - 1]) + Bindings(facets[|facets| - 1])
  }

  function Filters(facets: seq<Facet>): seq<Expr> {
    if facets == [] then []
    else Filters(facets[..|facets| - 1]) + [Fragment(facets[|facets| - 1], |Values(facets)|)]
  }

  lemma Pushed(facets: seq<Facet>, f: Facet)
    ensures Values(facets + [f]) == Values(facets) + Bindings(f)
    ensures Filters(facets + [f]) == Filters(facets) + [Fragment(f, |Values(facets + [f])|)]
  {
    assert (facets + [f])[..|facets|] == facets;
  }

  function Optional(asked: bool, f: Facet): seq<Facet> {
    if asked then [f] else []
  }

  function PushedIf(facets: seq<Facet>, asked: bool, f: Facet): (r: seq<Facet>)
    ensures r == facets + Optional(asked, f)
    ensures !asked ==> Values(r) == Values(facets) && Filters(r) == Filters(facets)
    ensures asked ==> Values(r) == Values(facets) + Bindings(f)
                      && Filters(r) == Filters(facets) + [Fragment(f, |Values(r)|)]
  {
    Pushed(facets, f);
    if asked then facets + [f] else facets
  }

  lemma PushedFree(facets: seq<Facet>, f: Facet)
    requires Bindings(f) == [] && Values(facets) == []
    ensures Values(facets + [f]) == [] && Filters(facets + [f]) == Filters(facets) + [Fragment(f, 0)]
  {
    Pushed(facets, f);
  }

  function Public(status: Facet): seq<Facet> {
    [] + [NotDeleted] + [NotFlagged] + [NotHidden] + [status]
  }

  lemma PublicPushed(status: Facet)
    ensures Values(Public(status)) == Bindings(status)
    ensures Filters(Public(status)) == [] + [Fragment(NotDeleted, 0)] + [Fragment(NotFlagged, 0)] + [Fragment(NotHidden, 0)]
                                          + [Fragment(status, |Bindings(status)|)]
  {
    assert Bindings(NotDeleted) == [] && Bindings(NotFlagged) == [] && Bindings(NotHidden) == [];
    assert Values([]) == [] && Filters([]) == [];
    assert Public(status) == [] + [NotDeleted] + [NotFlagged] + [NotHidden] + [status];
    hide *;
    var r0: seq<Facet> := [];
    var r1 := r0 + [NotDeleted];
    var r2 := r1 + [NotFlagged];
    var r3 := r2 + [NotHidden];
    PushedFree(r0, NotDeleted);
    PushedFree(r1, NotFlagged);
    PushedFree(r2, NotHidden);
    Pushed(r3, status);
    assert Values(r3) + Bindings(status) == Bindings(status);
  }

  predicate AllInRange(filters: seq<Expr>, count: nat) {
    forall i | 0 <= i < |filters| :: InRange(filters[i], count)
  }

  lemma {:induction false} MoreValuesWhere(filters: seq<Expr>, row: Row, values: seq<Value>, more: seq<Value>, env: Env)
    requires AllInRange(filters, |values|)
    ensures Where(filters, row, values + more, env) == Where(filters, row, values, env)
  {
    hide Eval, InRange;
    if filters != [] {
      var last := |filters| - 1;
      MoreValuesWhere(filters[..last], row, values, more, env);
      MoreValues(filters[last], row, values, more, env);
    }
  }

  predicate Each(facets: seq<Facet>, row: Row, env: Env) {
    forall i | 0 <= i < |facets| :: Meets(facets[i], row, env)
  }

  predicate EachCastable(facets: seq<Facet>) {
    forall i | 0 <= i < |facets| :: Castable(facets[i])
  }

  lemma EachOfTwo(a: seq<Facet>, b: seq<Facet>, row: Row, env: Env)
    ensures Each(a + b, row, env) <==> Each(a, row, env) && Each(b, row, env)
    ensures EachCastable(a + b) <==> EachCastable(a) && EachCastable(b)
  {
    hide Meets;
    assert forall i | 0 <= i < |a| :: (a + b)[i] == a[i];
    assert forall i | 0 <= i < |b| :: (a + b)[|a| + i] == b[i];
  }

  lemma EachOne(f: Facet, row: Row, env: Env)
    ensures Each([f], row, env) <==> Meets(f, row, env)
    ensures EachCastable([f]) <==> Castable(f)
  {
    assert [f][0] == f;
  }

  lemma {:induction false} FiltersInRange(facets: seq<Facet>)
    ensures AllInRange(Filters(facets), |Values(facets)|)
  {
    hide InRange, Fragment;
    if facets != [] {
      var n := |facets| - 1;
      FiltersInRange(facets[..n]);
      FragmentInRange(facets[n], |Values(facets)|);
      var filters := Filters(facets);
      forall i | 0 <= i < |filters| ensures InRange(filters[i], |Values(facets)|) {
        if i < |filters| - 1 {
          assert filters[i] == Filters(facets[..n])[i];
          InRangeOfMore(filters[i], |Values(facets[..n])|, |Values(facets)|);
        }
      }
    }
  }

  lemma LastValues(front: seq<Facet>, f: Facet)
    ensures var values := Values(front + [f]);
            |values| >= |Bindings(f)| && Bindings(f) == values[|values| - |Bindings(f)|..]
  {
    Pushed(front, f);
    hide Values, Bindings;
  }

  lemma WhereNext(front: seq<Facet>, f: Facet, row: Row, env: Env)
    ensures var facets := front + [f];
            Where(Filters(facets), row, Values(facets), env)
              == Conjunction(Where(Filters(front), row, Values(front), env),
                             Eval(Fragment(f, |Values(facets)|), row, Values(facets), env))
  {
    hide InRange, Fragment, Eval, Bindings, Conjunction;
    var facets := front + [f];
    Pushed(front, f);
    FiltersInRange(front);
    hide Filters, Values;
    MoreValuesWhere(Filters(front), row, Values(front), Bindings(f), env);
    assert Filters(facets)[..|Filters(front)|] == Filters(front);
  }

  lemma ConjunctionTruth(l: Outcome, r: Outcome)
    requires (l.Fails? || IsTruth(l)) && (r.Fails? || IsTruth(r))
    ensures Conjunction(l, r).Fails? <==> l.Fails? || r.Fails?
    ensures Conjunction(l, r).Fails? || IsTruth(Conjunction(l, r))
    ensures Accepts(Conjunction(l, r)) <==> Accepts(l) && Accepts(r)
  {}

  lemma FacetsOfTwo(front: seq<Facet>, f: Facet, row: Row, env: Env)
    ensures Each(front + [f], row, env) <==> Each(front, row, env) && Meets(f, row, env)
    ensures EachCastable(front + [f]) <==> EachCastable(front) && Castable(f)
  {
    hide Meets, Castable, Each, EachCastable;
    EachOfTwo(front, [f], row, env);
    EachOne(f, row, env);
  }

  /** The conjunction of the fragments over all the values is the conjunction of the facets. */
  lemma {:induction false} WhereMeaning(facets: seq<Facet>, row: Row, env: Env)
    ensures var outcome := Where(Filters(facets), row, Values(facets), env);
            && (outcome.Fails? <==> !EachCastable(facets))
            && (outcome.Fails? || IsTruth(outcome))
            && (Accepts(outcome) <==> EachCastable(facets) && Each(facets, row, env))
  {
    if facets != [] {
      hide *;
      var n := |facets| - 1;
      var front, f := facets[..n], facets[n];
      assert front + [f] == facets;
      var before := Where(Filters(front), row, Values(front), env);
      var added := Eval(Fragment(f, |Values(facets)|), row, Values(facets), env);
      WhereMeaning(front, row, env);
      WhereNext(front, f, row, env);
      LastValues(front, f);
      FragmentMeaning(f, row, Values(facets), env);
      FaithfulMeans(f, added, row, env);
      ConjunctionTruth(before, added);
      FacetsOfTwo(front, f, row, env);
    }
  }

  // ------------------------------------------------------------------ the route

  predicate Given(parameter: Option<string>) {
    parameter.Some? && parameter.value != ""
  }

  predicate GivenFinite(parameter: Option<string>, js: Js) {
    Given(parameter) && js.number(parameter.value).Finite?
  }

  predicate AsksVerified(q: Query) {
    q.creatorVerified == Some("true") || q.creatorVerified == Some("1")
  }

  /** What the query string asks of a campaign, facet by facet. */
  predicate Wanted(q: Query, js: Js, row: Row, env: Env) {
    && row.deletedAt.None? && row.flaggedDuplicate == Some(false) && row.hidden == Some(false)
    && row.status == (if Given(q.status) then q.status.value else "active")
    && (Given(q.asset) ==> row.asset == q.asset.value)
    && (Given(q.category) ==> row.category == q.category)
    && (Given(q.minProgress) ==>
          && row.target != 0.0
          && match js.number(q.minProgress.value)
             case Finite(least) => least <= env.divide(row.raised, row.target) * 100.0
             case Infinite(negative) => negative
             case NaN => false)
    && (GivenFinite(q.minFunding, js) ==> js.number(q.minFunding.value).value <= row.raised)
    && (GivenFinite(q.maxFunding, js) ==> row.raised <= js.number(q.maxFunding.value).value)
    && (GivenFinite(q.deadlineWithin, js) ==>
          row.deadline.Some? &&
          0 <= row.deadline.value - env.today <= js.number(q.deadlineWithin.value).value.Floor)
    && (AsksVerified(q) ==> row.creatorKyc == "verified")
    && (Given(q.country) ==> row.country == q.country)
    && (Given(q.search) ==> row.searchVector.Some? && env.matches(row.searchVector.value, q.search.value))
  }

  /** The database refuses a deadline window that is not a 32-bit integer, whatever the rows. */
  predicate DeadlineCastable(q: Query, js: Js) {
    GivenFinite(q.deadlineWithin, js) ==> IsInt4(js.number(q.deadlineWithin.value))
  }

  /** The same, in numbers. */
  predicate WindowIsInt32(q: Query, js: Js) {
    GivenFinite(q.deadlineWithin, js) ==>
      var days := js.number(q.deadlineWithin.value).value;
      days == days.Floor as real && -2147483648 <= days.Floor <= 2147483647
  }

  lemma CastableMeans(q: Query, js: Js)
    ensures DeadlineCastable(q, js) <==> WindowIsInt32(q, js)
  {}

  datatype OrderBy =
    | Newest | Trending | EndingSoon | MostFunded | MostBacked | ClosestToGoal
    | Relevance(position: nat)
    | NotSql

  const SORT_EXPRESSIONS: map<string, OrderBy> := map[
    "newest" := Newest, "trending" := Trending, "ending_soon" := EndingSoon, "most_funded" := MostFunded,
    "most_backed" := MostBacked, "closest_to_goal" := ClosestToGoal]

  /** Names an object literal inherits: looking one up yields a function or an object, not an ORDER BY. */
  const INHERITED: set<string> := {
    "constructor", "toString", "toLocaleString", "valueOf", "hasOwnProperty", "isPrototypeOf",
    "propertyIsEnumerable", "__proto__", "__defineGetter__", "__defineSetter__", "__lookupGetter__",
    "__lookupSetter__"}

  /** `parsePagination`: a missing, unreadable or zero limit is the default. */
  function PageLimit(q: Query, js: Js): (limit: int)
    ensures 1 <= limit <= 100
  {
    var read := if q.limit.Some? then js.integer(q.limit.value) else None;
    var limit := if read.None? || read.value == 0 then 20 else read.value;
    if limit < 1 then 1 else if limit > 100 then 100 else limit
  }

  function PageOffset(q: Query, js: Js): (offset: int)
    ensures offset >= 0
  {
    var read := if q.offset.Some? then js.integer(q.offset.value) else None;
    if read.None? || read.value < 0 then 0 else read.value
  }

  datatype Listing = Listing(
    filters: seq<Expr>, params: seq<Value>, order: OrderBy, limit: Expr, offset: Expr, pageValues: seq<Value>)

  function TextOr(parameter: Option<string>): string {
    if parameter.Some? then parameter.value else ""
  }

  /** The facets in the order they are pushed. */
  function RequestedPublic(q: Query): seq<Facet> {
    Public(if Given(q.status) then StatusIs(q.status.value) else IsActive)
  }

  function RequestedTexts(q: Query): seq<Facet> {
    RequestedPublic(q)
    + Optional(Given(q.asset), AssetIs(TextOr(q.asset)))
    + Optional(Given(q.category), CategoryIs(TextOr(q.category)))
  }

  function RequestedAmounts(q: Query, js: Js): seq<Facet> {
    RequestedTexts(q)
    + Optional(Given(q.minProgress), ProgressAtLeast(js.number(TextOr(q.minProgress))))
    + Optional(GivenFinite(q.minFunding, js), RaisedAtLeast(js.number(TextOr(q.minFunding))))
    + Optional(GivenFinite(q.maxFunding, js), RaisedAtMost(js.number(TextOr(q.maxFunding))))
  }

  function RequestedReach(q: Query, js: Js): seq<Facet> {
    RequestedAmounts(q, js)
    + Optional(GivenFinite(q.deadlineWithin, js), DeadlineWithin(js.number(TextOr(q.deadlineWithin))))
    + Optional(AsksVerified(q), CreatorVerified)
    + Optional(Given(q.country), CountryIs(TextOr(q.country)))
  }

  function Requested(q: Query, js: Js): seq<Facet> {
    RequestedReach(q, js)
    + Optional(Given(q.search), SearchFor(TextOr(q.search)))
  }

  lemma ExtendedBy(facets: seq<Facet>, asked: bool, f: Facet, row: Row, env: Env) returns (r: seq<Facet>)
    ensures r == facets + Optional(asked, f)
    ensures Each(r, row, env) <==> Each(facets, row, env) && (asked ==> Meets(f, row, env))
    ensures EachCastable(r) <==> EachCastable(facets) && (asked ==> Castable(f))
  {
    hide Meets, Castable;
    r := facets + Optional(asked, f);
    EachOfTwo(facets, Optional(asked, f), row, env);
    if asked {
      assert Optional(asked, f)[0] == f;
    }
  }

  lemma PublicMeaning(status: Facet, row: Row, env: Env)
    requires status.StatusIs? || status.IsActive?
    ensures Each(Public(status), row, env) <==>
              && row.deletedAt.None? && row.flaggedDuplicate == Some(false) && row.hidden == Some(false)
              && Meets(status, row, env)
    ensures EachCastable(Public(status))
  {
    var facets := Public(status);
    assert facets[0] == NotDeleted && facets[1] == NotFlagged && facets[2] == NotHidden && facets[3] == status;
  }

  predicate MeetsAll(q: Query, js: Js, row: Row, env: Env) {
    && row.deletedAt.None? && row.flaggedDuplicate == Some(false) && row.hidden == Some(false)
    && Meets(if Given(q.status) then StatusIs(q.status.value) else IsActive, row, env)
    && (Given(q.asset) ==> Meets(AssetIs(TextOr(q.asset)), row, env))
    && (Given(q.category) ==> Meets(CategoryIs(TextOr(q.category)), row, env))
    && (Given(q.minProgress) ==> Meets(ProgressAtLeast(js.number(TextOr(q.minProgress))), row, env))
    && (GivenFinite(q.minFunding, js) ==> Meets(RaisedAtLeast(js.number(TextOr(q.minFunding))), row, env))
    && (GivenFinite(q.maxFunding, js) ==> Meets(RaisedAtMost(js.number(TextOr(q.maxFunding))), row, env))
    && (GivenFinite(q.deadlineWithin, js) ==> Meets(DeadlineWithin(js.number(TextOr(q.deadlineWithin))), row, env))
    && (AsksVerified(q) ==> Meets(CreatorVerified, row, env))
    && (Given(q.country) ==> Meets(CountryIs(TextOr(q.country)), row, env))
    && (Given(q.search) ==> Meets(SearchFor(TextOr(q.search)), row, env))
  }

  lemma WantedIsMeetsAll(q: Query, js: Js, row: Row, env: Env)
    ensures MeetsAll(q, js, row, env) <==> Wanted(q, js, row, env)
  {}

  lemma RequestedIsMeetsAll(q: Query, js: Js, row: Row, env: Env)
    ensures Each(Requested(q, js), row, env) <==> MeetsAll(q, js, row, env)
    ensures EachCastable(Requested(q, js)) <==> DeadlineCastable(q, js)
  {
    hide Each, EachCastable, Optional, IsInt4, Meets, AsksVerified;
    var status := if Given(q.status) then StatusIs(q.status.value) else IsActive;
    PublicMeaning(status, row, env);
    var r0 := Public(status);
    var asset, category, country, search :=
      AssetIs(TextOr(q.asset)), CategoryIs(TextOr(q.category)), CountryIs(TextOr(q.country)), SearchFor(TextOr(q.search));
    var progress := ProgressAtLeast(js.number(TextOr(q.minProgress)));
    var least, most := RaisedAtLeast(js.number(TextOr(q.minFunding))), RaisedAtMost(js.number(TextOr(q.maxFunding)));
    var days := DeadlineWithin(js.number(TextOr(q.deadlineWithin)));
    var r1 := ExtendedBy(r0, Given(q.asset), asset, row, env);
    var r2 := ExtendedBy(r1, Given(q.category), category, row, env);
    var r3 := ExtendedBy(r2, Given(q.minProgress), progress, row, env);
    var r4 := ExtendedBy(r3, GivenFinite(q.minFunding, js), least, row, env);
    var r5 := ExtendedBy(r4, GivenFinite(q.maxFunding, js), most, row, env);
    var r6 := ExtendedBy(r5, GivenFinite(q.deadlineWithin, js), days, row, env);
    var r7 := ExtendedBy(r6, AsksVerified(q), CreatorVerified, row, env);
    var r8 := ExtendedBy(r7, Given(q.country), country, row, env);
    var r9 := ExtendedBy(r8, Given(q.search), search, row, env);
    assert Requested(q, js) == r9;
  }

  /** The facets together ask exactly what the query string does. */
  lemma RequestedMeaning(q: Query, js: Js, row: Row, env: Env)
    ensures Each(Requested(q, js), row, env) <==> Wanted(q, js, row, env)
    ensures EachCastable(Requested(q, js)) <==> DeadlineCastable(q, js)
  {
    hide *;
    RequestedIsMeetsAll(q, js, row, env);
    WantedIsMeetsAll(q, js, row, env);
  }

  /**
    The WHERE clause and its values: it fails exactly on a deadline window that is no 32-bit integer, and
    otherwise accepts a row exactly when the row is wanted.
  */
  ghost predicate SelectsWanted(filters: seq<Expr>, values: seq<Value>, q: Query, js: Js) {
    forall row, env ::
      var outcome := Where(filters, row, values, env);
      && (outcome.Fails? <==> !WindowIsInt32(q, js))
      && (Accepts(outcome) <==> WindowIsInt32(q, js) && Wanted(q, js, row, env))
  }

  lemma SelectsWantedBy(q: Query, js: Js, more: seq<Value>)
    ensures AllInRange(Filters(Requested(q, js)), |Values(Requested(q, js))|)
    ensures SelectsWanted(Filters(Requested(q, js)), Values(Requested(q, js)) + more, q, js)
  {
    CastableMeans(q, js);
    hide WindowIsInt32, Requested, Wanted, DeadlineCastable, Where;
    var facets := Requested(q, js);
    FiltersInRange(facets);
    forall row, env ensures
      var outcome := Where(Filters(facets), row, Values(facets) + more, env);
      && (outcome.Fails? <==> !WindowIsInt32(q, js))
      && (Accepts(outcome) <==> WindowIsInt32(q, js) && Wanted(q, js, row, env))
    {
      WhereMeaning(facets, row, env);
      MoreValuesWhere(Filters(facets), row, Values(facets), more, env);
      RequestedMeaning(q, js, row, env);
    }
  }

  /** A search without a sort ranks by relevance; an unknown sort is newest first. */
  ghost predicate Ordered(order: OrderBy, q: Query, params: seq<Value>) {
    var byRelevance := Given(q.search) && (q.sort.None? || q.sort.value == "relevance");
    var sort := if q.sort.Some? then q.sort.value else "newest";
    var inherited := {
      "constructor", "toString", "toLocaleString", "valueOf", "hasOwnProperty", "isPrototypeOf",
      "propertyIsEnumerable", "__proto__", "__defineGetter__", "__defineSetter__", "__lookupGetter__",
      "__lookupSetter__"};
    if byRelevance then
      order.Relevance? && 1 <= order.position <= |params| && params[order.position - 1] == Text(q.search.value)
    else
      order == if sort == "trending" then Trending
               else if sort == "ending_soon" then EndingSoon
               else if sort == "most_funded" then MostFunded
               else if sort == "most_backed" then MostBacked
               else if sort == "closest_to_goal" then ClosestToGoal
               else if sort in inherited then NotSql
               else Newest
  }

  method PushPublic(q: Query) returns (filters: seq<Expr>, params: seq<Value>)
    ensures filters == Filters(RequestedPublic(q)) && params == Values(RequestedPublic(q))
  {
    filters, params := [], [];
    filters := filters + [IsNull(Col(DeletedAt))];
    filters := filters + [Equal(Col(IsFlaggedDuplicate), Literal(Bool(false)))];
    filters := filters + [Equal(Col(IsHidden), Literal(Bool(false)))];
    ghost var status := if Given(q.status) then StatusIs(q.status.value) else IsActive;
    if Given(q.status) {
      params := params + [Text(q.status.value)];
      filters := filters + [Equal(Col(Status), Param(|params|))];
    } else {
      filters := filters + [Equal(Col(Status), Literal(Text("active")))];
    }
    hide Filters, Values, Public;
    PublicPushed(status);
  }

  method PushTexts(filters0: seq<Expr>, params0: seq<Value>, q: Query) returns (filters: seq<Expr>, params: seq<Value>)
    requires filters0 == Filters(RequestedPublic(q)) && params0 == Values(RequestedPublic(q))
    ensures filters == Filters(RequestedTexts(q)) && params == Values(RequestedTexts(q))
  {
    hide Filters, Values, RequestedPublic;
    filters, params := filters0, params0;
    ghost var facets := RequestedPublic(q);
    if Given(q.asset) {
      params := params + [Text(q.asset.value)];
      filters := filters + [Equal(Col(AssetType), Param(|params|))];
    }
    facets := PushedIf(facets, Given(q.asset), AssetIs(TextOr(q.asset)));
    assert filters == Filters(facets) && params == Values(facets);
    if Given(q.category) {
      params := params + [Text(q.category.value)];
      filters := filters + [Equal(Col(Category), Param(|params|))];
    }
    facets := PushedIf(facets, Given(q.category), CategoryIs(TextOr(q.category)));
    assert filters == Filters(facets) && params == Values(facets);
  }

  method PushAmounts(filters0: seq<Expr>, params0: seq<Value>, q: Query, js: Js) returns (filters: seq<Expr>, params: seq<Value>)
    requires filters0 == Filters(RequestedTexts(q)) && params0 == Values(RequestedTexts(q))
    ensures filters == Filters(RequestedAmounts(q, js)) && params == Values(RequestedAmounts(q, js))
  {
    hide Filters, Values, RequestedTexts;
    filters, params := filters0, params0;
    ghost var facets := RequestedTexts(q);
    if Given(q.minProgress) {
      params := params + [Num(js.number(q.minProgress.value))];
      filters := filters + [AtLeast(Progress(), Param(|params|))];
    }
    facets := PushedIf(facets, Given(q.minProgress), ProgressAtLeast(js.number(TextOr(q.minProgress))));
    assert filters == Filters(facets) && params == Values(facets);
    if GivenFinite(q.minFunding, js) {
      params := params + [Num(js.number(q.minFunding.value))];
      filters := filters + [AtLeast(Col(RaisedAmount), Param(|params|))];
    }
    facets := PushedIf(facets, GivenFinite(q.minFunding, js), RaisedAtLeast(js.number(TextOr(q.minFunding))));
    assert filters == Filters(facets) && params == Values(facets);
    if GivenFinite(q.maxFunding, js) {
      params := params + [Num(js.number(q.maxFunding.value))];
      filters := filters + [AtMost(Col(RaisedAmount), Param(|params|))];
    }
    facets := PushedIf(facets, GivenFinite(q.maxFunding, js), RaisedAtMost(js.number(TextOr(q.maxFunding))));
    assert filters == Filters(facets) && params == Values(facets);
  }

  method PushReach(filters0: seq<Expr>, params0: seq<Value>, q: Query, js: Js) returns (filters: seq<Expr>, params: seq<Value>)
    requires filters0 == Filters(RequestedAmounts(q, js)) && params0 == Values(RequestedAmounts(q, js))
    ensures filters == Filters(RequestedReach(q, js)) && params == Values(RequestedReach(q, js))
  {
    hide Filters, Values, RequestedAmounts;
    filters, params := filters0, params0;
    ghost var facets := RequestedAmounts(q, js);
    if GivenFinite(q.deadlineWithin, js) {
      params := params + [Num(js.number(q.deadlineWithin.value))];
      filters := filters + [
        And(And(Not(IsNull(Col(Deadline))), AtLeast(Col(Deadline), Today)),
            AtMost(Col(Deadline), DaysFromToday(Param(|params|))))];
    }
    facets := PushedIf(facets, GivenFinite(q.deadlineWithin, js), DeadlineWithin(js.number(TextOr(q.deadlineWithin))));
    assert filters == Filters(facets) && params == Values(facets);
    if AsksVerified(q) {
      filters := filters + [Equal(Col(KycStatus), Literal(Text("verified")))];
    }
    facets := PushedIf(facets, AsksVerified(q), CreatorVerified);
    assert filters == Filters(facets) && params == Values(facets);
    if Given(q.country) {
      params := params + [Text(q.country.value)];
      filters := filters + [Equal(Col(Country), Param(|params|))];
    }
    facets := PushedIf(facets, Given(q.country), CountryIs(TextOr(q.country)));
    assert filters == Filters(facets) && params == Values(facets);
  }

  /** The filters and parameters of the listing, and the position of the search text among the parameters. */
  method PushFacets(q: Query, js: Js) returns (filters: seq<Expr>, params: seq<Value>, searchParam: Option<nat>)
    ensures filters == Filters(Requested(q, js)) && params == Values(Requested(q, js))
    ensures searchParam.Some? <==> Given(q.search)
    ensures searchParam.Some? ==> 1 <= searchParam.value <= |params| && params[searchParam.value - 1] == Text(q.search.value)
  {
    filters, params := PushPublic(q);
    filters, params := PushTexts(filters, params, q);
    filters, params := PushAmounts(filters, params, q, js);
    filters, params := PushReach(filters, params, q, js);
    searchParam := None;
    ghost var facets := RequestedReach(q, js);
    ghost var search := SearchFor(TextOr(q.search));
    assert Given(q.search) ==> Bindings(search) == [Text(q.search.value)];
    assert forall n: nat :: Fragment(search, n) == Matches(Col(SearchVector), Param(n));
    hide Filters, Values, RequestedReach, Fragment, Bindings;
    if Given(q.search) {
      params := params + [Text(q.search.value)];
      searchParam := Some(|params|);
      filters := filters + [Matches(Col(SearchVector), Param(|params|))];
    }
    facets := PushedIf(facets, Given(q.search), search);
    assert facets == Requested(q, js);
  }

  method ChooseOrder(q: Query, params: seq<Value>, searchParam: Option<nat>) returns (order: OrderBy)
    requires searchParam.Some? <==> Given(q.search)
    requires searchParam.Some? ==> 1 <= searchParam.value <= |params| && params[searchParam.value - 1] == Text(q.search.value)
    ensures Ordered(order, q, params)
  {
    var sorts := SORT_EXPRESSIONS;
    if searchParam.Some? {
      sorts := sorts["relevance" := Relevance(searchParam.value)];
    }
    var sort := if q.sort.Some? then q.sort.value else "newest";
    var effective := if searchParam.Some? && q.sort.None? then "relevance" else sort;
    order := if effective in sorts then sorts[effective] else if effective in INHERITED then NotSql else Newest;
  }

  method BuildListing(q: Query, js: Js) returns (listing: Listing)
    ensures SelectsWanted(listing.filters, listing.params, q, js)
    ensures SelectsWanted(listing.filters, listing.pageValues, q, js)
    ensures AllInRange(listing.filters, |listing.params|)
    ensures Ordered(listing.order, q, listing.params)
    ensures listing.params <= listing.pageValues
    ensures var read := if q.limit.Some? then js.integer(q.limit.value) else None;
            forall row, env ::
              Eval(listing.limit, row, listing.pageValues, env)
                == Val(Num(Finite((if read.None? || read.value == 0 then 20
                                   else if read.value < 0 then 1
                                   else if read.value > 100 then 100
                                   else read.value) as real)))
    ensures var read := if q.offset.Some? then js.integer(q.offset.value) else None;
            forall row, env ::
              Eval(listing.offset, row, listing.pageValues, env)
                == Val(Num(Finite((if read.Some? && read.value >= 0 then read.value else 0) as real)))
  {
    var filters, params, searchParam := PushFacets(q, js);
    var order := ChooseOrder(q, params, searchParam);
    hide Ordered, SelectsWanted, Requested;
    var limit, offset := Num(Finite(PageLimit(q, js) as real)), Num(Finite(PageOffset(q, js) as real));
    SelectsWantedBy(q, js, []);
    SelectsWantedBy(q, js, [limit, offset]);
    assert params + [] == params;
    return Listing(filters, params, order, Param(|params| + 1), Param(|params| + 2), params + [limit, offset]);
  }
}
