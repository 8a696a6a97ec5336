/** The calculator's loaded tables (`csvData`) and how a year's three files
    replace them: `loadDataForYear` and the fallback of `handleYearChange`.
    Fetching is outside the model: a year's fetch is given as the three texts,
    or `None` when any of the three requests failed. */
module Loader {
  import opened Wrappers
  import opened Csv
  import opened Form

  /** The year the page falls back to when a year's files cannot be loaded. */
  const DefaultYear: string := "2026"

  /** The texts of a year's general parameters, income limits and rate grid. */
  datatype YearFiles = YearFiles(params: string, limits: string, rates: string)

  /** The three tables as values. */
  datatype Snapshot = Snapshot(config: map<string, Value>, incomeLimits: seq<Record>, rateGrid: seq<Record>)

  /** The tables after one `loadDataForYear` and whether it reported success.
      The assignments happen one after the other and a failing parse aborts the
      rest: a fetch failure changes nothing, otherwise the configuration is
      always replaced, the income limits when their text parses, and the rate
      grid when both data texts parse; success means all three were replaced. */
  function AfterLoad(s: Snapshot, files: Option<YearFiles>): (r: (Snapshot, bool))
    ensures files.None? ==> r == (s, false)
    ensures files.Some? ==> r.0.config == ParseKeyValueCSV(files.value.params)
    ensures files.Some? ==>
      (r.1 <==> ParseDataCSV(files.value.limits).Ok? && ParseDataCSV(files.value.rates).Ok?)
    ensures files.Some? && ParseDataCSV(files.value.limits).Ok? ==>
      r.0.incomeLimits == ParseDataCSV(files.value.limits).value
    ensures files.Some? && ParseDataCSV(files.value.limits).Err? ==>
      r.0.incomeLimits == s.incomeLimits
    ensures r.1 ==> r.0.rateGrid == ParseDataCSV(files.value.rates).value
    ensures !r.1 ==> r.0.rateGrid == s.rateGrid
  {
    match files
    case None => (s, false)
    case Some(f) =>
      var config := ParseKeyValueCSV(f.params);
      match ParseDataCSV(f.limits)
      case Err(_) => (s.(config := config), false)
      case Ok(limits) =>
        match ParseDataCSV(f.rates)
        case Err(_) => (s.(config := config, incomeLimits := limits), false)
        case Ok(rates) => (Snapshot(config, limits, rates), true)
  }

  /** A successful load leaves nothing of the previous tables: the result
      depends on the year's files alone. */
  lemma SuccessForgetsPrevious(s: Snapshot, t: Snapshot, files: Option<YearFiles>)
    requires AfterLoad(s, files).1
    ensures AfterLoad(t, files) == AfterLoad(s, files)
  {
  }

  /** Loading the same files twice gives the same tables as loading them once. */
  lemma LoadIdempotent(s: Snapshot, files: Option<YearFiles>)
    ensures AfterLoad(AfterLoad(s, files).0, files).0 == AfterLoad(s, files).0
  {
  }

  /** `csvData` and the loaders that replace it. */
  class Tables {
    var config: map<string, Value>
    var incomeLimits: seq<Record>
    var rateGrid: seq<Record>

    /** The tables as values. */
    function Current(): Snapshot
      reads this
    {
      Snapshot(config, incomeLimits, rateGrid)
    }

    /** The empty tables the page starts with. */
    constructor ()
      ensures config == map[] && incomeLimits == [] && rateGrid == []
    {
      config := map[];
      incomeLimits := [];
      rateGrid := [];
    }

    /** `loadDataForYear`: assigns the three parsed tables in order and reports
        whether all three were assigned. */
    method LoadDataForYear(files: Option<YearFiles>) returns (ok: bool)
      modifies this
      ensures (Current(), ok) == AfterLoad(old(Current()), files)
    {
      if files.None? {
        return false;
      }
      var f := files.value;
      config := ParseKeyValueCSV(f.params);
      var limits := ParseDataCSV(f.limits);
      if limits.Err? {
        return false;
      }
      incomeLimits := limits.value;
      var rates := ParseDataCSV(f.rates);
      if rates.Err? {
        return false;
      }
      rateGrid := rates.value;
      ok := true;
    }

    /** `handleYearChange`: loads the year in the year field; when that fails,
        puts the default year back into the field and loads it instead.
        `fetchYear` stands for the three requests of a year. */
    method HandleYearChange(page: Page, fetchYear: string -> Option<YearFiles>)
      requires "annee-calcul" in page.values
      modifies this, page
      ensures var year := old(page.values["annee-calcul"]);
        var first := AfterLoad(old(Current()), fetchYear(year));
        if first.1 then
          Current() == first.0 && page.values == old(page.values)
        else
          Current() == AfterLoad(first.0, fetchYear(DefaultYear)).0
          && page.values == old(page.values)["annee-calcul" := DefaultYear]
      ensures page.listenersActive == old(page.listenersActive)
    {
      var year := page.values["annee-calcul"];
      var success := LoadDataForYear(fetchYear(year));
      if !success {
        page.values := page.values["annee-calcul" := DefaultYear];
        success := LoadDataForYear(fetchYear(DefaultYear));
      }
    }
  }
}
