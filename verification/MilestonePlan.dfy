/**
  Milestone percentages.  A percentage is an exact real; a stored one is NUMERIC(7, 4), counted here in
  ten-thousandths of a percent.
*/
module MilestonePlan {
  const MILESTONE_LIMIT := 5
  /** 100% in ten-thousandths. */
  const FULL := 1_000_000

  datatype Number = NotFinite | Finite(value: real)
  datatype Item = Item(title: string, description: string, percentage: Number)
  datatype Input = Absent | NotAnArray | Items(items: seq<Item>)
  datatype Normalized = Normalized(title: string, description: string, stored: int, units: int, sortOrder: nat)

  datatype Rejection =
    | MustBeAnArray
    | TooManyMilestones
    | TitleRequired(index: nat)
    | DescriptionRequired(index: nat)
    | PercentageNotPositive(index: nat)
    | AboveHundred
    | BelowHundred
  datatype Result<+T> = Ok(value: T) | Rejected(reason: Rejection)

  /** `Math.round(x * 10000)`: halves go up. */
  function RoundUnits(x: real): int {
    (x * 10000.0 + 0.5).Floor
  }

  /** `x.toFixed(4)`, times 10000: the nearest integer, the larger of two. */
  function ToFixed4(x: real): int {
    var below := (x * 10000.0).Floor;
    if x * 10000.0 - below as real < 0.5 then below else below + 1
  }

  /** The validated sum and the stored column round alike. */
  lemma RoundingsAgree(x: real)
    ensures ToFixed4(x) == RoundUnits(x)
    ensures -0.5 <= x * 10000.0 - ToFixed4(x) as real < 0.5
  {
    var below := (x * 10000.0).Floor;
    assert below as real <= x * 10000.0 < below as real + 1.0;
    if x * 10000.0 - below as real < 0.5 {
      assert below as real <= x * 10000.0 + 0.5 < below as real + 1.0;
    } else {
      assert (below + 1) as real <= x * 10000.0 + 0.5 < (below + 1) as real + 1.0;
    }
  }

  // ------------------------------------------------------------------ validating a plan

  function NormalizeItem(item: Item, index: nat): Result<Normalized> {
    if item.title == "" then Rejected(TitleRequired(index))
    else if item.description == "" then Rejected(DescriptionRequired(index))
    else if item.percentage.NotFinite? || item.percentage.value <= 0.0 then Rejected(PercentageNotPositive(index))
    else
      var x := item.percentage.value;
      Ok(Normalized(item.title, item.description, ToFixed4(x), RoundUnits(x), index))
  }

  /** `input.map(...)`, which throws at the first offending item. */
  function NormalizeItems(items: seq<Item>, index: nat): Result<seq<Normalized>> {
    if items == [] then Ok([])
    else
      match NormalizeItem(items[0], index)
      case Rejected(reason) => Rejected(reason)
      case Ok(first) =>
        match NormalizeItems(items[1..], index + 1)
        case Rejected(reason) => Rejected(reason)
        case Ok(rest) => Ok([first] + rest)
  }

  function TotalUnits(plan: seq<Normalized>): int {
    if plan == [] then 0 else plan[0].units + TotalUnits(plan[1..])
  }

  /** `normalizeMilestonesInput`. */
  function Normalize(input: Input): Result<seq<Normalized>> {
    match input
    case Absent => Ok([])
    case NotAnArray => Rejected(MustBeAnArray)
    case Items(items) =>
      if items == [] then Ok([])
      else if |items| > MILESTONE_LIMIT then Rejected(TooManyMilestones)
      else
        match NormalizeItems(items, 0)
        case Rejected(reason) => Rejected(reason)
        case Ok(plan) =>
          if TotalUnits(plan) > FULL then Rejected(AboveHundred)
          else if TotalUnits(plan) < FULL then Rejected(BelowHundred)
          else Ok(plan)
  }

  /** The stored column of a plan. */
  function Stored(plan: seq<Normalized>): (rows: seq<int>)
    ensures |rows| == |plan|
  {
    if plan == [] then [] else [plan[0].stored] + Stored(plan[1..])
  }

  function Sum(rows: seq<int>): int {
    if rows == [] then 0 else Sum(rows[..|rows| - 1]) + rows[|rows| - 1]
  }

  ghost predicate ItemOk(item: Item) {
    item.title != "" && item.description != "" && item.percentage.Finite? && item.percentage.value > 0.0
  }

  /** The exact total of the requested percentages once each is rounded to four decimals, in ten-thousandths. */
  function RoundedTotal(items: seq<Item>): int {
    if items == [] then 0
    else (if items[0].percentage.Finite? then RoundUnits(items[0].percentage.value) else 0) + RoundedTotal(items[1..])
  }

  lemma {:induction false} SumFront(first: int, rest: seq<int>)
    ensures Sum([first] + rest) == first + Sum(rest)
  {
    if rest == [] {
      assert [first] + rest == [first] && [first][..0] == [];
    } else {
      SumFront(first, rest[..|rest| - 1]);
      assert ([first] + rest)[..|rest|] == [first] + rest[..|rest| - 1];
    }
  }

  lemma {:induction false} NormalizeItemsMeaning(items: seq<Item>, index: nat)
    ensures NormalizeItems(items, index).Ok? <==> forall i | 0 <= i < |items| :: ItemOk(items[i])
    ensures NormalizeItems(items, index).Ok? ==>
              var plan := NormalizeItems(items, index).value;
              && |plan| == |items|
              && TotalUnits(plan) == Sum(Stored(plan)) == RoundedTotal(items)
              && forall i | 0 <= i < |items| ::
                   && plan[i].sortOrder == index + i && plan[i].title == items[i].title
                   && plan[i].description == items[i].description && plan[i].stored == ToFixed4(items[i].percentage.value)
  {
    if items != [] {
      NormalizeItemsMeaning(items[1..], index + 1);
      assert (forall i | 0 <= i < |items| :: ItemOk(items[i]))
        <==> ItemOk(items[0]) && forall i | 0 <= i < |items[1..]| :: ItemOk(items[1..][i]);
      if NormalizeItems(items, index).Ok? {
        var plan := NormalizeItems(items, index).value;
        RoundingsAgree(items[0].percentage.value);
        SumFront(plan[0].stored, Stored(plan[1..]));
        forall i | 0 <= i < |items|
          ensures plan[i].sortOrder == index + i && plan[i].title == items[i].title
          ensures plan[i].description == items[i].description && plan[i].stored == ToFixed4(items[i].percentage.value)
        {
          if i > 0 { assert plan[i] == plan[1..][i - 1] && items[i] == items[1..][i - 1]; }
        }
      }
    }
  }

  /**
    A non-empty plan is accepted exactly when it has at most five complete items with positive percentages
    whose four-decimal roundings total 100%, and then what is stored totals exactly 100%.
  */
  lemma AcceptedPlans(items: seq<Item>)
    requires items != []
    ensures Normalize(Items(items)).Ok? <==>
              |items| <= MILESTONE_LIMIT && (forall i | 0 <= i < |items| :: ItemOk(items[i])) && RoundedTotal(items) == FULL
    ensures Normalize(Items(items)).Ok? ==>
              var plan := Normalize(Items(items)).value;
              |plan| == |items| && Sum(Stored(plan)) == FULL
              && forall i | 0 <= i < |plan| :: plan[i].sortOrder == i && plan[i].title == items[i].title
  {
    NormalizeItemsMeaning(items, 0);
  }

  ghost predicate FirstFault(items: seq<Item>, i: nat) {
    i < |items| && !ItemOk(items[i]) && forall k | 0 <= k < i :: ItemOk(items[k])
  }

  lemma {:induction false} FirstIncomplete(items: seq<Item>, index: nat, i: nat)
    requires FirstFault(items, i)
    ensures NormalizeItems(items, index) ==
              Rejected(if items[i].title == "" then TitleRequired(index + i)
                       else if items[i].description == "" then DescriptionRequired(index + i)
                       else PercentageNotPositive(index + i))
  {
    if i > 0 {
      assert ItemOk(items[0]) && items[1..][i - 1] == items[i];
      FirstIncomplete(items[1..], index + 1, i - 1);
    }
  }

  lemma FaultComplaint(items: seq<Item>, i: nat)
    requires |items| <= 5 && FirstFault(items, i)
    ensures Normalize(Items(items)) ==
              Rejected(if items[i].title == "" then TitleRequired(i)
                       else if items[i].description == "" then DescriptionRequired(i)
                       else PercentageNotPositive(i))
  {
    FirstIncomplete(items, 0, i);
    hide NormalizeItems, ItemOk, TotalUnits;
  }

  lemma TotalComplaint(items: seq<Item>)
    requires 0 < |items| <= 5 && forall k | 0 <= k < |items| :: ItemOk(items[k])
    ensures RoundedTotal(items) > 1_000_000 ==> Normalize(Items(items)) == Rejected(AboveHundred)
    ensures RoundedTotal(items) < 1_000_000 ==> Normalize(Items(items)) == Rejected(BelowHundred)
  {
    NormalizeItemsMeaning(items, 0);
    hide NormalizeItems, ItemOk, TotalUnits, Stored, Sum, RoundedTotal, ToFixed4;
  }

  /** Which complaint a plan is refused with: its size, its first incomplete item's first fault, or its total. */
  lemma FirstComplaint(items: seq<Item>, i: nat)
    ensures |items| > 5 ==> Normalize(Items(items)) == Rejected(TooManyMilestones)
    ensures |items| <= 5 && FirstFault(items, i) ==>
              Normalize(Items(items)) ==
                Rejected(if items[i].title == "" then TitleRequired(i)
                         else if items[i].description == "" then DescriptionRequired(i)
                         else PercentageNotPositive(i))
    ensures 0 < |items| <= 5 && (forall k | 0 <= k < |items| :: ItemOk(items[k])) ==>
              && (RoundedTotal(items) > 1_000_000 ==> Normalize(Items(items)) == Rejected(AboveHundred))
              && (RoundedTotal(items) < 1_000_000 ==> Normalize(Items(items)) == Rejected(BelowHundred))
  {
    if |items| <= 5 {
      hide Normalize, ItemOk, RoundedTotal;
      if FirstFault(items, i) { FaultComplaint(items, i); }
      if items != [] && forall k | 0 <= k < |items| :: ItemOk(items[k]) { TotalComplaint(items); }
    }
  }

  // ------------------------------------------------------------------ the stored rows

  /** CHECK (release_percentage > 0 AND release_percentage <= 100). */
  predicate ColumnAccepts(stored: int) {
    0 < stored <= FULL
  }

  datatype Outcome = Saved | BadRequest | ServerError

  predicate AllAccepted(plan: seq<Normalized>) {
    forall i | 0 <= i < |plan| :: ColumnAccepts(plan[i].stored)
  }

  /** Creating a campaign with a plan, or replacing a pending plan: the delete and the inserts are one transaction. */
  function AfterPlan(rows: seq<int>, input: Input, emptyAllowed: bool): (seq<int>, Outcome) {
    match Normalize(input)
    case Rejected(_) => (rows, BadRequest)
    case Ok(plan) =>
      if plan == [] && !emptyAllowed then (rows, BadRequest)
      else if AllAccepted(plan) then (Stored(plan), Saved)
      else (rows, ServerError)
  }

  /** `POST /milestones`: the check adds the unrounded percentage to the stored total. */
  function AfterAdd(rows: seq<int>, percentage: Number): (seq<int>, Outcome) {
    if percentage.NotFinite? || percentage.value <= 0.0 || percentage.value > 100.0 then (rows, BadRequest)
    else if |rows| >= MILESTONE_LIMIT then (rows, BadRequest)
    else if Sum(rows) as real / 10000.0 + percentage.value > 100.001 then (rows, BadRequest)
    else if ColumnAccepts(ToFixed4(percentage.value)) then (rows + [ToFixed4(percentage.value)], Saved)
    else (rows, ServerError)
  }

  lemma {:induction false} StoredSnoc(plan: seq<Normalized>, last: Normalized)
    ensures Stored(plan + [last]) == Stored(plan) + [last.stored]
  {
    if plan == [] {
      assert plan + [last] == [last];
    } else {
      StoredSnoc(plan[1..], last);
      assert (plan + [last])[1..] == plan[1..] + [last];
    }
  }

  lemma {:induction false} StoredAt(plan: seq<Normalized>, i: nat)
    requires i < |plan|
    ensures Stored(plan)[i] == plan[i].stored
  {
    if i > 0 {
      StoredAt(plan[1..], i - 1);
    }
  }

  /** The stored number of ten-thousandths is the percentage's nearest. */
  predicate IsRounding(percentage: Number, stored: int) {
    percentage.Finite? && -0.5 <= percentage.value * 10000.0 - stored as real < 0.5
  }

  ghost predicate PlanOk(items: seq<Item>) {
    |items| <= 5 && (forall i | 0 <= i < |items| :: ItemOk(items[i])) && RoundedTotal(items) == 1_000_000
  }

  lemma {:induction false} StoredBelowSum(plan: seq<Normalized>)
    requires forall i | 0 <= i < |plan| :: plan[i].stored >= 0
    ensures Sum(Stored(plan)) >= 0 && forall i | 0 <= i < |plan| :: plan[i].stored <= Sum(Stored(plan))
  {
    if plan != [] {
      StoredBelowSum(plan[1..]);
      SumFront(plan[0].stored, Stored(plan[1..]));
      forall i | 0 <= i < |plan| ensures plan[i].stored <= Sum(Stored(plan)) {
        if i > 0 { assert plan[i] == plan[1..][i - 1]; }
      }
    }
  }

  /** Some percentage rounds to no ten-thousandth at all. */
  ghost predicate VanishingPercentage(items: seq<Item>) {
    exists i | 0 <= i < |items| :: items[i].percentage.Finite? && items[i].percentage.value < 0.00005
  }

  /** A row the column refuses is a percentage that rounds to nothing. */
  lemma {:induction false} SmallestFails(items: seq<Item>, plan: seq<Normalized>)
    requires |plan| == |items| && !AllAccepted(plan) && Sum(Stored(plan)) == FULL
    requires forall i | 0 <= i < |items| :: ItemOk(items[i]) && IsRounding(items[i].percentage, plan[i].stored)
    ensures VanishingPercentage(items)
  {
    forall i | 0 <= i < |items| ensures plan[i].stored >= 0 {
      assert items[i].percentage.value > 0.0;
    }
    StoredBelowSum(plan);
    var i :| 0 <= i < |plan| && !ColumnAccepts(plan[i].stored);
    assert plan[i].stored == 0;
    assert items[i].percentage.value * 10000.0 < 0.5;
  }

  lemma PlanRounds(items: seq<Item>)
    requires items != [] && Normalize(Items(items)).Ok?
    ensures var plan := Normalize(Items(items)).value;
            && |plan| == |items| == |Stored(plan)|
            && forall i | 0 <= i < |items| ::
                 ItemOk(items[i]) && IsRounding(items[i].percentage, plan[i].stored) && Stored(plan)[i] == plan[i].stored
  {
    AcceptedPlans(items);
    NormalizeItemsMeaning(items, 0);
    var plan := Normalize(Items(items)).value;
    hide RoundedTotal, Sum, TotalUnits, NormalizeItems, Stored, ToFixed4;
    forall i | 0 <= i < |items|
      ensures ItemOk(items[i]) && IsRounding(items[i].percentage, plan[i].stored) && Stored(plan)[i] == plan[i].stored
    {
      StoredAt(plan, i);
      RoundingsAgree(items[i].percentage.value);
    }
  }

  /** What saving a plan does: all the old rows go and one rounded row per item comes, or nothing changes. */
  ghost predicate SaveOutcome(rows: seq<int>, input: Input, emptyAllowed: bool, after: seq<int>, outcome: Outcome) {
    var items := if input.Items? then input.items else [];
    && (outcome == BadRequest <==> input.NotAnArray? || (if items == [] then !emptyAllowed else !PlanOk(items)))
    && (outcome == Saved ==> |after| == |items| && forall i | 0 <= i < |items| ::
          IsRounding(items[i].percentage, after[i]) && 0 < after[i] <= 1_000_000)
    && (outcome == ServerError ==> VanishingPercentage(items))
    && (outcome != Saved ==> after == rows)
  }

  lemma SavedPlans(rows: seq<int>, input: Input, emptyAllowed: bool)
    ensures var (after, outcome) := AfterPlan(rows, input, emptyAllowed);
            SaveOutcome(rows, input, emptyAllowed, after, outcome)
  {
    hide RoundUnits, ToFixed4, ItemOk, RoundedTotal, Sum, TotalUnits, NormalizeItems, Stored;
    if input.Items? && input.items != [] {
      var items := input.items;
      AcceptedPlans(items);
      if Normalize(input).Ok? {
        var plan := Normalize(input).value;
        PlanRounds(items);
        if !AllAccepted(plan) {
          SmallestFails(items, plan);
        }
      }
    }
  }

  class PlanTable {
    var rows: seq<int>

    constructor ()
      ensures rows == []
    {
      rows := [];
    }

    method SavePlan(input: Input, emptyAllowed: bool) returns (outcome: Outcome)
      modifies this
      ensures (rows, outcome) == AfterPlan(old(rows), input, emptyAllowed)
      ensures SaveOutcome(old(rows), input, emptyAllowed, rows, outcome)
    {
      SavedPlans(rows, input, emptyAllowed);
      hide SaveOutcome, Normalize;
      var normalized := Normalize(input);
      if normalized.Rejected? { return BadRequest; }
      var plan := normalized.value;
      if plan == [] && !emptyAllowed { return BadRequest; }
      var before := rows;
      rows := [];
      for i := 0 to |plan|
        invariant rows == Stored(plan[..i])
        invariant forall k | 0 <= k < i :: ColumnAccepts(plan[k].stored)
      {
        if !ColumnAccepts(plan[i].stored) {
          rows := before;
          return ServerError;
        }
        StoredSnoc(plan[..i], plan[i]);
        assert plan[..i + 1] == plan[..i] + [plan[i]];
        rows := rows + [plan[i].stored];
      }
      assert plan[..|plan|] == plan;
      return Saved;
    }

    method AddMilestone(percentage: Number) returns (outcome: Outcome)
      modifies this
      ensures (rows, outcome) == AfterAdd(old(rows), percentage)
      ensures outcome == BadRequest <==>
                || percentage.NotFinite? || percentage.value <= 0.0 || percentage.value > 100.0
                || |old(rows)| >= 5 || Sum(old(rows)) as real / 10000.0 + percentage.value > 100.001
      ensures outcome == ServerError ==> percentage.Finite? && percentage.value < 0.00005
      ensures outcome == Saved ==>
                |rows| == |old(rows)| + 1 && old(rows) <= rows && IsRounding(percentage, rows[|old(rows)|])
                && 0 < rows[|old(rows)|] <= 1_000_000
      ensures outcome != Saved ==> rows == old(rows)
    {
      if percentage.Finite? { RoundingsAgree(percentage.value); }
      if percentage.NotFinite? || percentage.value <= 0.0 || percentage.value > 100.0 { return BadRequest; }
      var total := 0;
      for i := 0 to |rows|
        invariant total == Sum(rows[..i])
      {
        assert rows[..i + 1][..i] == rows[..i];
        total := total + rows[i];
      }
      assert rows[..|rows|] == rows;
      if |rows| >= MILESTONE_LIMIT { return BadRequest; }
      if total as real / 10000.0 + percentage.value > 100.001 { return BadRequest; }
      var stored := ToFixed4(percentage.value);
      if !ColumnAccepts(stored) { return ServerError; }
      rows := rows + [stored];
      return Saved;
    }
  }

  // ------------------------------------------------------------------ every run of creates, replacements and additions

  datatype Op = Plan(input: Input, emptyAllowed: bool) | Add(percentage: Number)

  function Run(ops: seq<Op>): seq<int>
    decreases |ops|
  {
    if ops == [] then []
    else
      var rows := Run(ops[..|ops| - 1]);
      match ops[|ops| - 1]
      case Plan(input, emptyAllowed) => AfterPlan(rows, input, emptyAllowed).0
      case Add(percentage) => AfterAdd(rows, percentage).0
  }

  ghost predicate Bounded(rows: seq<int>) {
    && |rows| <= MILESTONE_LIMIT
    && Sum(rows) <= FULL + 10
    && forall i | 0 <= i < |rows| :: ColumnAccepts(rows[i])
  }

  /** Rounding an accepted addition cannot lift the stored total over 100.001%. */
  lemma AddKeepsBound(rows: seq<int>, percentage: Number)
    requires Bounded(rows)
    ensures Bounded(AfterAdd(rows, percentage).0)
  {
    if AfterAdd(rows, percentage).1 == Saved {
      var x := percentage.value;
      var total, stored := Sum(rows), ToFixed4(x);
      RoundingsAgree(x);
      assert total as real / 10000.0 + x <= 100.001;
      assert total as real + x * 10000.0 <= 1000010.0;
      assert total as real + stored as real <= 1000010.5;
      assert (total + stored) as real < 1000011.0;
      assert (rows + [stored])[..|rows|] == rows;
    }
  }

  lemma {:induction false} StoredAccepted(plan: seq<Normalized>)
    requires AllAccepted(plan)
    ensures forall i | 0 <= i < |plan| :: ColumnAccepts(Stored(plan)[i])
  {
    if plan != [] {
      StoredAccepted(plan[1..]);
    }
  }

  lemma PlanKeepsBound(rows: seq<int>, input: Input, emptyAllowed: bool)
    requires Bounded(rows)
    ensures Bounded(AfterPlan(rows, input, emptyAllowed).0)
  {
    if AfterPlan(rows, input, emptyAllowed).1 == Saved {
      var plan := Normalize(input).value;
      StoredAccepted(plan);
      if plan != [] {
        AcceptedPlans(input.items);
      }
    }
  }

  /** At most five milestones totalling at most 100.001%, each a positive percentage of at most 100. */
  lemma {:induction false} EveryRunIsBounded(ops: seq<Op>)
    ensures Bounded(Run(ops))
  {
    if ops != [] {
      EveryRunIsBounded(ops[..|ops| - 1]);
      var rows := Run(ops[..|ops| - 1]);
      match ops[|ops| - 1]
      case Plan(input, emptyAllowed) => PlanKeepsBound(rows, input, emptyAllowed);
      case Add(percentage) => AddKeepsBound(rows, percentage);
    }
  }

  /** The bound is attained: 100% in one milestone, and 0.001% added to it. */
  lemma BoundIsAttained()
    ensures var ops := [Plan(Items([Item("a", "b", Finite(100.0))]), false), Add(Finite(0.001))];
            Sum(Run(ops)) == FULL + 10
  {
    var items := [Item("a", "b", Finite(100.0))];
    var ops := [Plan(Items(items), false), Add(Finite(0.001))];
    assert items[1..] == [];
    var plan := [Normalized("a", "b", FULL, FULL, 0)];
    assert plan[1..] == [];
    assert RoundUnits(100.0) == FULL && ToFixed4(100.0) == FULL;
    assert NormalizeItem(items[0], 0) == Ok(plan[0]);
    assert NormalizeItems(items[1..], 0 + 1) == Ok([]);
    assert [plan[0]] + [] == plan;
    assert NormalizeItems(items, 0) == Ok(plan);
    assert TotalUnits(plan) == FULL;
    assert Normalize(Items(items)) == Ok(plan);
    assert Stored(plan) == [FULL];
    assert ops[..1] == [Plan(Items(items), false)] && ops[..1][..0] == [];
    assert Run(ops[..1]) == [FULL];
    assert [FULL][..0] == [] && Sum([FULL]) == FULL;
    assert ToFixed4(0.001) == 10;
    assert Run(ops) == [FULL] + [10];
    assert ([FULL] + [10])[..1] == [FULL];
  }
}
