/** Eligibility and reduction: `calculateAndDisplayResults` and
    `calculateAndDisplayBreakdown` without their display writes. From the form
    and the loaded tables they find the income limit of the household, the
    distance to it in money and in percent, whether a reduction applies, the
    applied rate from the rate grid and the annual reduction per category. */
module Resolver {
  import opened Wrappers
  import opened JsText
  import opened Lists
  import opened Csv
  import opened Determinant
  import opened Form

  /** The household as read from the form: civil status as typed, whether the
      region field parses to 1, and the three head counts read as amounts. */
  datatype Situation = Situation(statut: string, regionOne: bool, adultes: real, jeunes: real, enfants: real)

  /** The fields the resolver reads without checking that their element
      exists. The page always has both elements; the model asks for them on
      every path, including the two that stop before reading them. */
  predicate HasSituationFields(values: FieldValues) {
    "statut-civil" in values && "region" in values
  }

  /** The `situation` object: `parseInt(region, 10)` decides the region, the
      counts go through `parseInput`. */
  function ReadSituation(values: FieldValues): (sit: Situation)
    requires HasSituationFields(values)
    ensures sit.statut == values["statut-civil"]
    ensures sit.regionOne <==> ParseInt(values["region"]) == Some(1)
    ensures sit.adultes == ParseInput(values, "nombre-adultes")
    ensures sit.jeunes == ParseInput(values, "nombre-jeunes")
    ensures sit.enfants == ParseInput(values, "nombre-enfants")
  {
    Situation(
      values["statut-civil"],
      ParseInt(values["region"]) == Some(1),
      ParseInput(values, "nombre-adultes"),
      ParseInput(values, "nombre-jeunes"),
      ParseInput(values, "nombre-enfants"))
  }

  /** A region field holding a written natural number is region 1 exactly
      when that number is 1; any other region takes the region-2 premiums. */
  lemma RegionChoice(values: FieldValues, k: nat)
    requires HasSituationFields(values) && values["region"] == NatDigits(k)
    ensures ReadSituation(values).regionOne <==> k == 1
  {
    NatDigitsParse(k);
  }

  // ---------------------------------------------------------------- income limit

  /** `l.situation === statut && l.children === dependants`: strict equality,
      so the cell must be that very text and that very number. */
  predicate LimitMatches(l: Record, statut: string, dependants: real) {
    Get(l, "situation") == Str(statut) && Get(l, "children") == Num(dependants)
  }

  /** The index of the first income-limit record for the status and the number
      of dependants (young adults plus children). */
  function FindLimit(limits: seq<Record>, statut: string, dependants: real): (r: Option<nat>)
    ensures r.Some? ==> r.value < |limits| && LimitMatches(limits[r.value], statut, dependants)
    ensures r.Some? ==> forall j :: 0 <= j < r.value ==> !LimitMatches(limits[j], statut, dependants)
    ensures r.None? <==> forall j :: 0 <= j < |limits| ==> !LimitMatches(limits[j], statut, dependants)
  {
    FindFirst(limits, (l: Record) => LimitMatches(l, statut, dependants))
  }

  // ---------------------------------------------------------------- surplus

  /** `diffPercent`: the surplus as a percentage of the limit, 0 when the limit
      is not positive. */
  function DiffPercent(limit: real, determinant: real): (p: real)
    ensures limit <= 0.0 ==> p == 0.0
    ensures limit > 0.0 ==> p * limit == (limit - determinant) * 100.0
  {
    if limit > 0.0 then (limit - determinant) / limit * 100.0 else 0.0
  }

  /** Below the limit the percentage is never negative, and with a
      non-negative determinant income it is at most 100. */
  lemma DiffPercentRange(limit: real, determinant: real)
    requires limit > 0.0 && limit - determinant >= 0.0
    ensures 0.0 <= DiffPercent(limit, determinant)
    ensures determinant >= 0.0 ==> DiffPercent(limit, determinant) <= 100.0
  {
    var p := DiffPercent(limit, determinant);
    assert p == (limit - determinant) * (100.0 / limit);
  }

  // ---------------------------------------------------------------- rate bracket

  /** `diffPercent >= r.revenu_min_percent && diffPercent <= r.revenu_max_percent`:
      both bounds inclusive; a bound that is not a number compares false. */
  predicate BracketMatches(b: Record, p: real) {
    var lo, hi := Get(b, "revenu_min_percent"), Get(b, "revenu_max_percent");
    lo.Num? && hi.Num? && lo.n <= p && p <= hi.n
  }

  /** A percentage equal to either bound of a bracket lies in that bracket. */
  lemma BracketBoundsInclusive(b: Record, lo: real, hi: real)
    requires lo <= hi
    requires Get(b, "revenu_min_percent") == Num(lo) && Get(b, "revenu_max_percent") == Num(hi)
    ensures BracketMatches(b, lo) && BracketMatches(b, hi)
  {
  }

  /** The rate of the first bracket containing the percentage, 0 when none does. */
  function AppliedRate(grid: seq<Record>, p: real): (rate: real)
    ensures (forall j :: 0 <= j < |grid| ==> !BracketMatches(grid[j], p)) ==> rate == 0.0
  {
    match FindFirst(grid, (b: Record) => BracketMatches(b, p))
    case Some(i) => NumberOrZero(grid[i], "taux_applique_prime_moyenne_percent")
    case None => 0.0
  }

  /** The bracket that contains the percentage and has no containing bracket
      before it decides the rate. */
  lemma AppliedRateIsFirstMatch(grid: seq<Record>, p: real, i: nat)
    requires i < |grid| && BracketMatches(grid[i], p)
    requires forall j :: 0 <= j < i ==> !BracketMatches(grid[j], p)
    ensures AppliedRate(grid, p) == NumberOrZero(grid[i], "taux_applique_prime_moyenne_percent")
  {
    FindFirstIsUnique(grid, (b: Record) => BracketMatches(b, p), i);
  }

  /** A single bracket from 0 to 10 percent at 50 percent. */
  function SampleGrid(): seq<Record> {
    [map["revenu_min_percent" := Num(0.0), "revenu_max_percent" := Num(10.0),
         "taux_applique_prime_moyenne_percent" := Num(50.0)]]
  }

  /** A limit of 35000 against a determinant income of 30000 leaves 100/7
      (about 14.29) percent, which no bracket of the sample grid covers, so the
      rate is 0; 5 percent falls in the bracket and gets its 50 percent. */
  lemma SampleRates()
    ensures DiffPercent(35000.0, 30000.0) == 100.0 / 7.0
    ensures AppliedRate(SampleGrid(), DiffPercent(35000.0, 30000.0)) == 0.0
    ensures AppliedRate(SampleGrid(), 5.0) == 50.0
  {
    assert !BracketMatches(SampleGrid()[0], 100.0 / 7.0);
    AppliedRateIsFirstMatch(SampleGrid(), 5.0, 0);
  }

  // ---------------------------------------------------------------- breakdown

  datatype Category = Adults | YoungAdults | Children

  /** One line of the breakdown table: the category, its monthly reference
      premium, the rate applied and the annual reduction. */
  datatype BreakdownRow = BreakdownRow(category: Category, premium: real, ratePercent: real, amount: real)

  /** The configuration key of a category's reference premium in a region. */
  function PremiumKey(category: Category, regionOne: bool): string {
    var name := match category
      case Adults => "pm_adulte"
      case YoungAdults => "pm_jeune"
      case Children => "pm_enfant";
    name + (if regionOne then "_reg1" else "_reg2")
  }

  /** The monthly reference premium of a category: region 1 takes the `_reg1`
      premiums, any other region the `_reg2` ones. */
  function Premium(config: map<string, Value>, category: Category, regionOne: bool): real {
    NumberOrZero(config, PremiumKey(category, regionOne))
  }

  /** `count × premium × rate/100 × 12`. */
  function AnnualReduction(count: real, premium: real, ratePercent: real): real {
    count * premium * (ratePercent / 100.0) * 12.0
  }

  /** The head count of a category. */
  function Count(sit: Situation, category: Category): real {
    match category
    case Adults => sit.adultes
    case YoungAdults => sit.jeunes
    case Children => sit.enfants
  }

  /** The rate a category is reduced at: the bracket rate for adults, the
      configured `taux_reduction_jeune` and `taux_reduction_enfant` (0 when
      missing) for young adults and children. */
  function CategoryRate(config: map<string, Value>, category: Category, bracketRate: real): real {
    match category
    case Adults => bracketRate
    case YoungAdults => NumberOrZero(config, "taux_reduction_jeune")
    case Children => NumberOrZero(config, "taux_reduction_enfant")
  }

  /** The breakdown line of one category. */
  function CategoryRow(sit: Situation, config: map<string, Value>, category: Category, bracketRate: real): BreakdownRow {
    var premium := Premium(config, category, sit.regionOne);
    var rate := CategoryRate(config, category, bracketRate);
    BreakdownRow(category, premium, rate, AnnualReduction(Count(sit, category), premium, rate))
  }

  /** The line of a category when its count is positive, nothing otherwise. */
  function RowIfPresent(sit: Situation, config: map<string, Value>, category: Category, bracketRate: real): seq<BreakdownRow> {
    if Count(sit, category) > 0.0 then [CategoryRow(sit, config, category, bracketRate)] else []
  }

  /** The position of a category's line in the table. */
  function Rank(category: Category): nat {
    match category
    case Adults => 0
    case YoungAdults => 1
    case Children => 2
  }

  /** The breakdown table: adults, young adults, children, each only when
      present, so at most three lines, in that order. */
  function Breakdown(sit: Situation, config: map<string, Value>, bracketRate: real): (rows: seq<BreakdownRow>)
    ensures |rows| <= 3
    ensures forall k, l :: 0 <= k < l < |rows| ==> Rank(rows[k].category) < Rank(rows[l].category)
  {
    RowIfPresent(sit, config, Adults, bracketRate)
    + RowIfPresent(sit, config, YoungAdults, bracketRate)
    + RowIfPresent(sit, config, Children, bracketRate)
  }

  /** The sum of the annual amounts of the rows. */
  function RowsTotal(rows: seq<BreakdownRow>): real {
    if rows == [] then 0.0 else rows[0].amount + RowsTotal(rows[1..])
  }

  lemma {:induction false} RowsTotalAppend(a: seq<BreakdownRow>, b: seq<BreakdownRow>)
    ensures RowsTotal(a + b) == RowsTotal(a) + RowsTotal(b)
  {
    if a != [] {
      assert (a + b)[1..] == a[1..] + b;
      RowsTotalAppend(a[1..], b);
    } else {
      assert a + b == b;
    }
  }

  /** What a category adds to the total: its annual reduction when present, 0 otherwise. */
  function Contribution(sit: Situation, config: map<string, Value>, category: Category, bracketRate: real): real {
    if Count(sit, category) > 0.0 then CategoryRow(sit, config, category, bracketRate).amount else 0.0
  }

  /** The breakdown has a line for a category exactly when its count is positive. */
  lemma BreakdownPresence(sit: Situation, config: map<string, Value>, bracketRate: real, category: Category)
    ensures var rows := Breakdown(sit, config, bracketRate);
      (exists k :: 0 <= k < |rows| && rows[k].category == category) <==> Count(sit, category) > 0.0
  {
    var a := RowIfPresent(sit, config, Adults, bracketRate);
    var y := RowIfPresent(sit, config, YoungAdults, bracketRate);
    var c := RowIfPresent(sit, config, Children, bracketRate);
    var rows := a + y + c;
    if Count(sit, category) > 0.0 {
      var k := match category case Adults => 0 case YoungAdults => |a| case Children => |a| + |y|;
      assert rows[k] == CategoryRow(sit, config, category, bracketRate);
    }
  }

  /** Each line is its category's annual reduction: the count times the
      region's reference premium times the category's rate, over a year. */
  lemma BreakdownRows(sit: Situation, config: map<string, Value>, bracketRate: real)
    ensures forall row :: row in Breakdown(sit, config, bracketRate) ==>
      row.ratePercent == CategoryRate(config, row.category, bracketRate)
      && row.premium == Premium(config, row.category, sit.regionOne)
      && row.amount == AnnualReduction(Count(sit, row.category), row.premium, row.ratePercent)
  {
  }

  /** The total of the breakdown is the sum of the three contributions. */
  lemma BreakdownTotal(sit: Situation, config: map<string, Value>, bracketRate: real)
    ensures RowsTotal(Breakdown(sit, config, bracketRate)) ==
      Contribution(sit, config, Adults, bracketRate)
      + Contribution(sit, config, YoungAdults, bracketRate)
      + Contribution(sit, config, Children, bracketRate)
  {
    var a := RowIfPresent(sit, config, Adults, bracketRate);
    var y := RowIfPresent(sit, config, YoungAdults, bracketRate);
    var c := RowIfPresent(sit, config, Children, bracketRate);
    RowsTotalAppend(a, y);
    RowsTotalAppend(a + y, c);
  }

  /** With non-negative counts, premiums and rates, no reduction is negative. */
  lemma BreakdownNonNegative(sit: Situation, config: map<string, Value>, bracketRate: real)
    requires bracketRate >= 0.0
    requires NumberOrZero(config, "taux_reduction_jeune") >= 0.0
    requires NumberOrZero(config, "taux_reduction_enfant") >= 0.0
    requires forall c: Category :: Premium(config, c, sit.regionOne) >= 0.0
    ensures RowsTotal(Breakdown(sit, config, bracketRate)) >= 0.0
  {
    BreakdownTotal(sit, config, bracketRate);
    forall c: Category ensures Contribution(sit, config, c, bracketRate) >= 0.0 {
      if Count(sit, c) > 0.0 {
        AnnualReductionNonNegative(Count(sit, c), Premium(config, c, sit.regionOne),
                                   CategoryRate(config, c, bracketRate));
      }
    }
  }

  lemma AnnualReductionNonNegative(count: real, premium: real, ratePercent: real)
    requires count >= 0.0 && premium >= 0.0 && ratePercent >= 0.0
    ensures AnnualReduction(count, premium, ratePercent) >= 0.0
  {
    assert count * premium >= 0.0;
    assert count * premium * (ratePercent / 100.0) >= 0.0;
  }

  /** `calculateAndDisplayBreakdown`: builds the table one present category at
      a time and accumulates the total annual reduction. */
  method ComputeBreakdown(sit: Situation, config: map<string, Value>, bracketRate: real)
    returns (rows: seq<BreakdownRow>, total: real)
    ensures rows == Breakdown(sit, config, bracketRate)
    ensures total == RowsTotal(rows)
  {
    rows := [];
    total := 0.0;
    if sit.adultes > 0.0 {
      var row := CategoryRow(sit, config, Adults, bracketRate);
      rows := rows + [row];
      total := total + row.amount;
    }
    if sit.jeunes > 0.0 {
      var row := CategoryRow(sit, config, YoungAdults, bracketRate);
      rows := rows + [row];
      total := total + row.amount;
    }
    if sit.enfants > 0.0 {
      var row := CategoryRow(sit, config, Children, bracketRate);
      rows := rows + [row];
      total := total + row.amount;
    }
    BreakdownTotal(sit, config, bracketRate);
  }

  // ---------------------------------------------------------------- outcome

  /** What a press of the calculate button leads to. */
  datatype Outcome =
    | MissingFields(ids: seq<string>)
    | NegativeIncome
    | NoMatchingLimit
    | NotEligible(limit: real, determinant: real, diffValue: real, diffPercent: real)
    | Eligible(limit: real, determinant: real, diffValue: real, diffPercent: real,
               ratePercent: real, breakdown: seq<BreakdownRow>, totalReduction: real)

  /** The decision once the limit and the determinant income are known. */
  function Assess(sit: Situation, limit: real, determinant: real, config: map<string, Value>, grid: seq<Record>): (o: Outcome)
    ensures o.NotEligible? || o.Eligible?
    ensures o.limit == limit && o.determinant == determinant
    ensures o.diffValue == limit - determinant && o.diffPercent == DiffPercent(limit, determinant)
    ensures o.Eligible? <==> limit - determinant >= 0.0
    ensures o.Eligible? ==> o.ratePercent == AppliedRate(grid, o.diffPercent)
                            && o.breakdown == Breakdown(sit, config, o.ratePercent)
                            && o.totalReduction == RowsTotal(o.breakdown)
  {
    var diffValue := limit - determinant;
    var diffPercent := DiffPercent(limit, determinant);
    if diffValue < 0.0 then NotEligible(limit, determinant, diffValue, diffPercent)
    else
      var rate := AppliedRate(grid, diffPercent);
      var rows := Breakdown(sit, config, rate);
      Eligible(limit, determinant, diffValue, diffPercent, rate, rows, RowsTotal(rows))
  }

  /** The lookup and decision of `calculateAndDisplayResults` for a household
      and its determinant income. It stops without a limit exactly when no
      income-limit row has the status and the number of dependants; no
      default limit is used. Otherwise the limit is that of the first matching
      row, the surplus is limit minus determinant income, the household is
      eligible exactly when the surplus is not negative, and an eligible
      household gets the rate of the first bracket containing the surplus
      percentage and the breakdown with its total. */
  function Lookup(sit: Situation, determinant: real, config: map<string, Value>, limits: seq<Record>, grid: seq<Record>): (o: Outcome)
    ensures o.NoMatchingLimit? || o.NotEligible? || o.Eligible?
    ensures o.NoMatchingLimit? <==>
      forall j :: 0 <= j < |limits| ==> !LimitMatches(limits[j], sit.statut, sit.jeunes + sit.enfants)
    ensures var found := FindLimit(limits, sit.statut, sit.jeunes + sit.enfants);
      (o.NotEligible? || o.Eligible?) ==>
        found.Some?
        && o.limit == NumberOrZero(limits[found.value], "limit_revenu_determinant")
        && o.determinant == determinant
        && o.diffValue == o.limit - determinant
        && o.diffPercent == DiffPercent(o.limit, determinant)
        && (o.Eligible? <==> o.diffValue >= 0.0)
    ensures o.Eligible? ==>
      o.ratePercent == AppliedRate(grid, o.diffPercent)
      && o.breakdown == Breakdown(sit, config, o.ratePercent)
      && o.totalReduction == RowsTotal(o.breakdown)
  {
    var found := FindLimit(limits, sit.statut, sit.jeunes + sit.enfants);
    if found.None? then NoMatchingLimit
    else Assess(sit, NumberOrZero(limits[found.value], "limit_revenu_determinant"), determinant, config, grid)
  }

  /** The resolution part of `calculateAndDisplayResults`: a negative net
      income stops it before any lookup, and only that does; otherwise it is
      the lookup for the household and the determinant income of the form. */
  function Resolve(values: FieldValues, config: map<string, Value>, limits: seq<Record>, grid: seq<Record>): (o: Outcome)
    requires HasSituationFields(values)
    ensures o.NegativeIncome? <==> ParseInput(values, "revenu-net") < 0.0
    ensures ParseInput(values, "revenu-net") >= 0.0 ==>
      o == Lookup(ReadSituation(values), DeterminantIncome(ReadAmounts(values), config), config, limits, grid)
  {
    if ParseInput(values, "revenu-net") < 0.0 then NegativeIncome
    else Lookup(ReadSituation(values), DeterminantIncome(ReadAmounts(values), config), config, limits, grid)
  }

  /** A limit table with only a single status without dependants has no limit
      for a single person with one child: no limit of 0 is made up. */
  lemma AbsentCombinationHasNoLimit()
    ensures FindLimit([map["situation" := Str("single"), "children" := Num(0.0),
                           "limit_revenu_determinant" := Num(35000.0)]], "single", 1.0) == None
  {
  }

  /** An eligible household with a positive limit sits between 0 and 100
      percent below it (when its determinant income is not negative). */
  lemma EligiblePercentRange(sit: Situation, determinant: real, config: map<string, Value>, limits: seq<Record>, grid: seq<Record>)
    requires Lookup(sit, determinant, config, limits, grid).Eligible?
    requires Lookup(sit, determinant, config, limits, grid).limit > 0.0
    ensures 0.0 <= Lookup(sit, determinant, config, limits, grid).diffPercent
    ensures determinant >= 0.0 ==> Lookup(sit, determinant, config, limits, grid).diffPercent <= 100.0
  {
    var o := Lookup(sit, determinant, config, limits, grid);
    DiffPercentRange(o.limit, determinant);
  }

  /** The calculate button: the blank-field check gates the calculation. */
  method HandleCalculateClick(values: FieldValues, config: map<string, Value>, limits: seq<Record>, grid: seq<Record>)
    returns (outcome: Outcome)
    requires HasSituationFields(values)
    ensures BlankFields(values, FormInputs) != [] ==> outcome == MissingFields(BlankFields(values, FormInputs))
    ensures BlankFields(values, FormInputs) == [] ==> outcome == Resolve(values, config, limits, grid)
  {
    var allValid, flagged := ValidateInputs(values);
    if !allValid {
      return MissingFields(flagged);
    }
    outcome := Resolve(values, config, limits, grid);
  }
}
