# Premium-reduction calculator — a Dafny model

`docs/script.js` is the browser script of a calculator for a Swiss cantonal
health-insurance premium reduction. A household enters its civil status,
region, head counts and ten financial amounts. The script works out the
*determinant income* and looks up the household's *income limit*. It measures
how far below the limit the household sits, in money and as a percentage. If
the household is at or below the limit, it picks a reduction rate from a grid of
percentage brackets and computes the annual reduction for adults, young adults
and children. The tables come from three delimited text files per year. The
form can be saved and restored.

The model is split into modules that follow the script's parts:

- `Wrappers`: `Option` and `Result`.
- `Lists`: `find`/`findIndex`, the first element satisfying a test.
- `JsText`: the parts of the JavaScript string and number runtime the script
  relies on. That is white space and `trim`, `split` on one character, the
  apostrophe-and-space stripping of amounts, and the decimal subset of
  `parseFloat`, `Number()` and `parseInt`.
- `Csv`: `parseKeyValueCSV` and `parseDataCSV`. A parsed object is a
  `map<string, Value>` built with last-assignment-wins semantics. A data row
  shorter than the header makes the JavaScript throw, which is modelled as
  `Err(ShortRow(line))`.
- `Determinant`: the ten terms of `calculateDeterminantIncome` and their sum.
- `Form`:
  - the field values by element id and the `validateInputs` loop;
  - `parseInput`;
  - `saveData` and `loadData`. `loadData` is a method of class `Page` that
    writes the fields while the listener flag is lowered.
- `Resolver`: the computation in `calculateAndDisplayResults` and
  `calculateAndDisplayBreakdown`, without the display writes. It produces an
  `Outcome`:
  - `MissingFields`
  - `NegativeIncome`
  - `NoMatchingLimit`
  - `NotEligible`
  - `Eligible`, with rate, breakdown and total.

  The breakdown is a `+=` method proved against a function.
- `Loader`: `csvData` as class `Tables`, `loadDataForYear` and the fallback in
  `handleYearChange`. Each year's three fetched texts are a parameter.

Numbers are Dafny `real`. The number parsers accept decimal numerals with an
optional sign, optional integer digits, and an optional point followed by
fraction digits, with at least one digit in all. A `None` result stands for
JavaScript's `NaN`.

`loadDataForYear` assigns `csvData.config` first, then the income limits, then
the rate grid. A parse that throws part way through therefore leaves a mix of
new and old tables: see `Loader.AfterLoad`.

Two lines of the script use camelCase element keys that the element cache
never fills, because it only stores the hyphenated ids:

- `elements.totalDeterminantSum` (docs/script.js:252) is `undefined`, so
  `calculateDeterminantIncome` throws on every call. Once a limit row is
  found, `calculateAndDisplayResults` never gets past line 186.
- `elements.saveBtn` (docs/script.js:375) is `undefined`, so `init` throws
  before `handleStorageBanner` (line 385) and `handleYearChange` (line 387)
  run. No tables are loaded, and every calculation that reaches the limit
  lookup ends without a limit.

The model describes the computation with these display writes removed. The
`NotEligible` and `Eligible` outcomes are outcomes of that computation; the
page as shipped never reaches them.

## Model

| member | source | states |
|---|---|---|
| Lists.FindFirst | docs/script.js:179 | the index found satisfies the test; no earlier element does; `None` exactly when no element does |
| Lists.FindFirstIsUnique | docs/script.js:210 | a satisfying element with no satisfying element before it is the one `find` returns |
| JsText.TrimStartSpec | docs/script.js:98 | `trimStart` removes exactly the maximal run of leading white space |
| JsText.TrimEndSpec | docs/script.js:98 | `trimEnd` removes exactly the maximal run of trailing white space |
| JsText.TrimSpec | docs/script.js:150 | the trimmed text is the slice of the original that starts after the leading white space; everything outside that slice is white space; it neither starts nor ends with white space, and it is empty only for all-white-space text |
| JsText.TrimIdempotent | docs/script.js:151 | trimming twice is trimming once |
| JsText.StripSeparators | docs/script.js:116 | after `replace(/['\s]/g, '')` no apostrophe or white space remains, and text without them is unchanged |
| JsText.StripIgnoresSeparator | docs/script.js:116 | removing separators ignores one separator inserted anywhere |
| JsText.SplitPiecesFree | docs/script.js:144 | no piece of `split(d)` contains `d` |
| JsText.JoinSplit | docs/script.js:144 | joining the pieces of `split(d)` with `d` gives back the text |
| JsText.SplitJoin | docs/script.js:150 | splitting a join of `d`-free pieces gives back the pieces |
| JsText.ScanNumeral | docs/script.js:116 | the numeral read is well formed, has at least one digit, and lies within the text |
| JsText.ScanNumeralNone | docs/script.js:116 | no numeral is read exactly when, after the optional sign, there is neither a digit nor a point followed by a digit |
| JsText.ScanNumeralSome | docs/script.js:116 | the numeral read is the optional sign, the whole run of integer digits of the text, and, when a point follows, the point and the whole run of digits after it; the character after the numeral is not a digit |
| JsText.FracValue | docs/script.js:116 | the digits after a decimal point are worth at least 0 and less than 1 |
| JsText.NatDigitsParse | docs/script.js:116 | a written natural number reads back as itself with `parseFloat`, `Number()` and `parseInt` |
| JsText.ParseFloatIgnoresTail | docs/script.js:116 | `parseFloat` of digits followed by any text that cannot continue a numeral and is not all white space is the digits' value |
| JsText.NumberRejectsTail | docs/script.js:145 | `Number()` of digits followed by such text is `NaN`, unless the digits are a lone `0` and the text starts with a radix letter (`x`, `b`, `o`, either case) |
| JsText.TrailingTextDiffers | docs/script.js:116-145 | on a written natural number followed by any such text (for 0, not starting with a radix letter), `parseFloat` gives the number while `Number()` gives `NaN` |
| Csv.NumberOrZero | docs/script.js:239 | `config.key \|\| 0` is 0 for a missing key and the stored number otherwise |
| Csv.LastWins | docs/script.js:143-147 | an object built by successive assignment has exactly the assigned keys, each holding the value of its last assignment |
| Csv.Lines | docs/script.js:150 | `trim().split('\n')` always gives at least one line |
| Csv.ParseKeyValueCSV | docs/script.js:143-147 | the parsed map's keys are exactly the trimmed first fields of the lines after the header |
| Csv.ParseKeyValueCSVSpec | docs/script.js:143-147 | the header line is dropped; each entry's trimmed first field is a key; a key's value comes from its last line: the number `Number()` reads, or the raw second field, or `undefined` with no comma |
| Csv.ParseKeyValueCSVKeys | docs/script.js:143-147 | every key of the result comes from some entry line |
| Csv.Header | docs/script.js:151 | the header has one name per comma field of the first line |
| Csv.HeaderNames | docs/script.js:151 | each header name is the trimmed comma field of the first line at the same position |
| Csv.ParseDataCSV | docs/script.js:149-160 | parsing succeeds exactly when no data line is shorter than the header; on success there is one record per data line, whose keys are exactly the header names; on failure the first short line is named |
| Csv.MakeRecordFields | docs/script.js:152-158 | a record has exactly the header's names, each bound (at its last header position) to the number its cell spells or the trimmed cell text |
| Csv.DataCSVFields | docs/script.js:149-160 | record k's value for a column is the coerced field of line k+1 at that column |
| Determinant.Max0 | docs/script.js:234 | `Math.max(0, x)` is at least 0 and at least x, and is one of them |
| Determinant.Determinants | docs/script.js:232-243 | net income is taken as is; the premium-reduction term is at most 0 and is the negated reduction when that is not negative; every other term is at least 0; wealth counts for a twentieth, and for nothing when negative |
| Determinant.DeterminantTerms | docs/script.js:234-241 | each floored amount is kept when not negative and is 0 otherwise; a non-positive premium reduction counts as 0; each franchised amount counts for its excess over the franchise (0 when missing), and 0 when it does not exceed it |
| Determinant.DeterminantIncome | docs/script.js:232-251 | the total is at least net income minus the declared premium reduction |
| Determinant.MissingFranchiseIsZero | docs/script.js:239-241 | a missing franchise key acts as a franchise of 0 |
| Determinant.TotalBounds | docs/script.js:232-251 | with non-negative franchises the total is at most net income plus all other amounts floored at 0 and a twentieth of wealth |
| Determinant.TotalMonotone | docs/script.js:232-251 | declaring more in any adding field, or less premium reduction, never lowers the total |
| Determinant.FranchiseLowersTotal | docs/script.js:239-241 | raising a franchise never raises the total |
| Determinant.ReductionSubtractedOnce | docs/script.js:235 | 20000 of net income with 500 of reduction received gives 19500 |
| Determinant.NetIncomeAlone | docs/script.js:233 | with nothing else declared the total is the net income |
| Form.BlankFields | docs/script.js:96-101 | the flagged ids are exactly the form ids whose field exists and is blank |
| Form.ValidateInputs | docs/script.js:92-108 | the loop flags exactly the blank form fields, and reports success exactly when none is blank |
| Form.ParseAmount | docs/script.js:116-117 | the amount is what `parseFloat` reads from the text without apostrophes and white space, and 0 when it reads nothing |
| Form.ParseInput | docs/script.js:113-118 | a missing field reads as 0; an existing one reads as the amount of its text |
| Form.BlankAmountIsZero | docs/script.js:113-118 | an empty or all-separator field reads as 0 |
| Form.GroupedAmount | docs/script.js:116 | a field that spells a natural number with apostrophes or spaces anywhere reads as that number |
| Form.SeparatorInsensitive | docs/script.js:116 | inserting an apostrophe or space anywhere into a field does not change its amount |
| Form.Saved | docs/script.js:292-297 | the saved map has exactly the form ids, with each field's value, and the empty text for a missing field |
| Form.RestoreStep | docs/script.js:306-310 | restoring one more id writes just that field, when it exists and was saved |
| Form.RestoreSaved | docs/script.js:292-316 | restoring what was saved from the same page changes nothing |
| Form.RestoreOnOtherPage | docs/script.js:301-310 | restoring into a page with the field gives it the saved value, or the empty text when the saved page lacked it |
| Form.RestoreKeepsAmounts | docs/script.js:301-313 | a restored page reads the same ten financial amounts as the saved one |
| Form.Page.constructor | docs/script.js:22 | the page starts with its field values and the listeners active |
| Form.Page.LoadData | docs/script.js:301-316 | without saved data nothing changes; with it, every existing saved field is written and the listeners end up active |
| Resolver.ReadSituation | docs/script.js:170-176 | the status is the field's text, region 1 is chosen exactly when `parseInt` reads 1, and the three head counts are read with `parseInput` |
| Resolver.RegionChoice | docs/script.js:172 | a region field holding a written natural number selects region 1 exactly when that number is 1 |
| Resolver.FindLimit | docs/script.js:179 | the limit row is the first one whose status text and dependant count both match exactly; none is found only when no row matches |
| Resolver.DiffPercent | docs/script.js:190 | the percentage is 0 for a limit that is not positive, and otherwise satisfies percentage × limit = surplus × 100 |
| Resolver.DiffPercentRange | docs/script.js:188-190 | a non-negative surplus under a positive limit gives a percentage of at least 0, and at most 100 for a non-negative determinant income |
| Resolver.BracketBoundsInclusive | docs/script.js:210 | a percentage equal to either bound lies in the bracket |
| Resolver.AppliedRate | docs/script.js:210-211 | the rate is 0 when no bracket contains the percentage |
| Resolver.AppliedRateIsFirstMatch | docs/script.js:210-211 | the first bracket that contains the percentage decides the rate |
| Resolver.SampleRates | docs/script.js:186-211 | a limit of 35000 and an income of 30000 give 100/7 percent; the 0–10 percent bracket does not cover that, so the rate is 0; 5 percent gets the bracket's 50 |
| Resolver.Breakdown | docs/script.js:264-281 | there are at most three lines, in the order adults, young adults, children |
| Resolver.BreakdownPresence | docs/script.js:267-281 | a category has a line exactly when its count is positive |
| Resolver.BreakdownRows | docs/script.js:258-278 | each line is count × premium × rate/100 × 12, at the bracket rate for adults and at the configured rate (0 when missing) for young adults and children, with the region-1 premium in region 1 and the region-2 premium otherwise |
| Resolver.BreakdownTotal | docs/script.js:264-281 | the total is the sum of the amounts of the present categories |
| Resolver.BreakdownNonNegative | docs/script.js:267-281 | non-negative rates and premiums give a non-negative total |
| Resolver.ComputeBreakdown | docs/script.js:256-285 | the accumulating method builds exactly the breakdown and its total |
| Resolver.Assess | docs/script.js:186-214 | surplus = limit − determinant income with its percentage; eligible exactly when the surplus is not negative; an eligible household gets the first containing bracket's rate and the breakdown with its total |
| Resolver.Lookup | docs/script.js:177-214 | the calculation stops without a limit exactly when no limit row matches, with no default limit; otherwise the limit is the first matching row's, and the surplus, percentage, eligibility, rate and breakdown follow from it |
| Resolver.Resolve | docs/script.js:164-189 | the calculation stops with a negative net income exactly when the net income is negative, before any lookup; otherwise it is the lookup for the form's situation and the determinant income of its amounts |
| Resolver.AbsentCombinationHasNoLimit | docs/script.js:179-183 | a status/dependants pair absent from the table yields no limit |
| Resolver.EligiblePercentRange | docs/script.js:188-190 | an eligible lookup under a positive limit sits between 0 and 100 percent below it when the determinant income is not negative |
| Resolver.HandleCalculateClick | docs/script.js:340-344 | with a blank field the blank fields are reported and nothing is calculated; otherwise the outcome is the resolution |
| Loader.AfterLoad | docs/script.js:120-141 | a failed fetch changes nothing; otherwise the configuration is replaced, the limits when they parse, and the grid when both parse; success means both parsed |
| Loader.SuccessForgetsPrevious | docs/script.js:133-136 | after a successful load the tables depend only on the year's files |
| Loader.LoadIdempotent | docs/script.js:133-136 | loading the same files twice gives the same tables as once |
| Loader.Tables.constructor | docs/script.js:17-21 | the tables start empty |
| Loader.Tables.LoadDataForYear | docs/script.js:120-141 | the method assigns the tables and reports success as `AfterLoad` describes |
| Loader.Tables.HandleYearChange | docs/script.js:358-367 | a failed year puts the default year back into the year field and loads that year over the partial result; a successful year leaves the field as it was |

## Left out

- `docs/sw.js`, the service worker, is not part of this model. It only caches files.
- Fetching, `Promise.all` and `async`: a year's three responses are a
  parameter. `None` means any request failed.
- Overlapping year loads, where a late response overwrites a newer one, are
  not modelled.
- `localStorage`, `JSON.stringify` and `JSON.parse`: the saved data is an
  `Option<map<string, string>>`. Saved values that are not strings are not
  modelled. `deleteData` and `handleStorageBanner` are not modelled.
- All DOM work is not modelled:
  - the element cache and banner insertion;
  - `clearResults` and `clearValidationErrors`;
  - `showValidationError` and the CSS classes;
  - the `innerHTML` rows;
  - `handleInputChange`, which clears results when listeners are active;
  - `handlePrint`, `init` and the event wiring.
- Display formatting (`formatCurrency`, `toFixed`) is not modelled.
- The display writes with camelCase keys, such as `elements.limiteRevenu`,
  `elements.totalDeterminantSum` and `elements.saveBtn`, are not modelled.
  The exceptions they throw are described above.
- IEEE-754 arithmetic is not modelled. Neither is the rest of the JavaScript
  number grammar: exponents, the hexadecimal, binary and octal literals
  `Number()` accepts (`0x1F`, `0b1`, `0o7`), `Infinity`, and rounding.
  Numbers are exact reals.
- White space is the fixed set of JavaScript `\s` characters. The Unicode
  database is not modelled.
- Csv.NumberOrZero: a key that holds text reads as 0. In JavaScript, text in
  `config.key || 0` is truthy and makes the arithmetic `NaN`.
- Resolver.Premium: a missing reference premium reads as 0. In JavaScript,
  `undefined` makes the reduction `NaN`.
- Resolver.Lookup: a matching limit row without a numeric
  `limit_revenu_determinant` reads as 0. In JavaScript the surplus becomes
  `NaN` and the household counts as eligible.
- Resolver.AppliedRate: a bracket without a numeric rate reads as 0. In
  JavaScript, `toFixed` on it would throw.
- Resolver.ReadSituation: the three head counts go through `parseInput`, as
  in the script. Fractional or negative counts are therefore allowed. Only
  the `> 0` tests decide which categories appear.
