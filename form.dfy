/** The input form as the calculator sees it: the values of its fields by
    element id, the all-fields-filled check that gates a calculation, the
    amount reader `parseInput`, and the save/restore of the field values. */
module Form {
  import opened Wrappers
  import opened JsText
  import opened Determinant

  /** The ids of the fields that are validated, saved and restored, in order. */
  const FormInputs: seq<string> := [
    "annee-calcul", "statut-civil", "region", "nombre-adultes",
    "nombre-jeunes", "nombre-enfants", "revenu-net", "caisse-maladie",
    "reduction-prime", "autres-primes", "prevoyance-conjoint",
    "prevoyance-conjointe", "rachat-assurance", "interets-passifs",
    "frais-immeubles", "fortune-imposable"
  ]

  /** The current value of each field present on the page, by element id; an id
      that is not a key has no element. */
  type FieldValues = map<string, string>

  // ---------------------------------------------------------------- validation

  /** A field that exists and holds only white space. */
  predicate IsBlank(values: FieldValues, id: string) {
    id in values && Trim(values[id]) == []
  }

  /** The ids among `ids` whose field is blank, in order: the fields
      `validateInputs` marks in red. */
  function BlankFields(values: FieldValues, ids: seq<string>): (r: seq<string>)
    ensures forall id :: id in r <==> id in ids && IsBlank(values, id)
    ensures |r| <= |ids|
  {
    if ids == [] then []
    else
      var last := ids[|ids| - 1];
      var prior := BlankFields(values, ids[..|ids| - 1]);
      assert forall id :: id in ids <==> id in ids[..|ids| - 1] || id == last;
      prior + (if IsBlank(values, last) then [last] else [])
  }

  /** Checking one more id flags it exactly when its field is blank. */
  lemma BlankFieldsStep(values: FieldValues, ids: seq<string>, i: nat)
    requires i < |ids|
    ensures BlankFields(values, ids[..i + 1]) ==
      BlankFields(values, ids[..i]) + (if IsBlank(values, ids[i]) then [ids[i]] else [])
  {
    assert ids[..i + 1][..i] == ids[..i];
  }

  /** Nothing is flagged exactly when none of the ids is blank. */
  lemma NoneFlagged(values: FieldValues, ids: seq<string>)
    ensures BlankFields(values, ids) == [] <==> forall id :: id in ids ==> !IsBlank(values, id)
  {
    var r := BlankFields(values, ids);
    if r != [] {
      assert r[0] in r;
    }
  }

  /** `validateInputs`: visits every form field, flags each one that exists
      and is blank, and reports whether none was flagged. */
  method ValidateInputs(values: FieldValues) returns (allValid: bool, flagged: seq<string>)
    ensures flagged == BlankFields(values, FormInputs)
    ensures allValid <==> forall id :: id in FormInputs ==> !IsBlank(values, id)
    ensures allValid <==> flagged == []
  {
    allValid := true;
    flagged := [];
    var i := 0;
    while i < |FormInputs|
      invariant 0 <= i <= |FormInputs|
      invariant flagged == BlankFields(values, FormInputs[..i])
      invariant allValid <==> flagged == []
    {
      var id := FormInputs[i];
      BlankFieldsStep(values, FormInputs, i);
      if id in values && Trim(values[id]) == [] {
        flagged := flagged + [id];
        allValid := false;
      }
      i := i + 1;
    }
    assert FormInputs[..i] == FormInputs;
    NoneFlagged(values, FormInputs);
  }

  // ---------------------------------------------------------------- amounts

  /** The amount a text denotes: apostrophes and white space removed, then
      `parseFloat`; unparsable text counts as 0. */
  function ParseAmount(text: string): (x: real)
    ensures ParseFloat(StripSeparators(text)).None? ==> x == 0.0
    ensures ParseFloat(StripSeparators(text)).Some? ==> x == ParseFloat(StripSeparators(text)).value
  {
    match ParseFloat(StripSeparators(text))
    case Some(v) => v
    case None => 0.0
  }

  /** `parseInput(id)`: the amount in a field, 0 when the field does not exist. */
  function ParseInput(values: FieldValues, id: string): (x: real)
    ensures id !in values ==> x == 0.0
    ensures id in values ==> x == ParseAmount(values[id])
  {
    if id !in values then 0.0 else ParseAmount(values[id])
  }

  /** An empty or all-separator field reads as 0, as a missing one does. */
  lemma BlankAmountIsZero(text: string)
    requires forall i :: 0 <= i < |text| ==> IsSeparator(text[i])
    ensures ParseAmount(text) == 0.0
  {
    assert StripSeparators(text) == [] by {
      StripAllSeparators(text);
    }
  }

  lemma {:induction false} StripAllSeparators(text: string)
    requires forall i :: 0 <= i < |text| ==> IsSeparator(text[i])
    ensures StripSeparators(text) == []
  {
    if text != [] {
      StripAllSeparators(text[1..]);
    }
  }

  /** Thousands separators and spaces may sit anywhere in an amount: a field
      whose text, once they are removed, is the decimal writing of `k` reads as `k`. */
  lemma GroupedAmount(text: string, k: nat)
    requires StripSeparators(text) == NatDigits(k)
    ensures ParseAmount(text) == k as real
  {
    NatDigitsParse(k);
  }

  /** Inserting an apostrophe or a space into a field's text does not change its amount. */
  lemma SeparatorInsensitive(a: string, c: char, b: string)
    requires IsSeparator(c)
    ensures ParseAmount(a + [c] + b) == ParseAmount(a + b)
  {
    StripIgnoresSeparator(a, c, b);
  }

  /** The ten financial fields read with `parseInput`, in the form's order. */
  function ReadAmounts(values: FieldValues): Amounts {
    Amounts(
      ParseInput(values, "revenu-net"),
      ParseInput(values, "caisse-maladie"),
      ParseInput(values, "reduction-prime"),
      ParseInput(values, "autres-primes"),
      ParseInput(values, "prevoyance-conjoint"),
      ParseInput(values, "prevoyance-conjointe"),
      ParseInput(values, "rachat-assurance"),
      ParseInput(values, "interets-passifs"),
      ParseInput(values, "frais-immeubles"),
      ParseInput(values, "fortune-imposable"))
  }

  // ---------------------------------------------------------------- save / restore

  /** `saveData`: every form field's value by id, the empty text for a field
      that does not exist. */
  function Saved(values: FieldValues): (data: map<string, string>)
    ensures forall id :: id in data <==> id in FormInputs
    ensures forall id :: id in FormInputs && id in values ==> data[id] == values[id]
    ensures forall id :: id in FormInputs && id !in values ==> data[id] == []
  {
    map id | id in FormInputs :: if id in values then values[id] else []
  }

  /** The page after writing `data[id]` into every existing field whose id is
      among `ids` and has a saved value; every other field keeps its value. */
  function RestoredIds(values: FieldValues, data: map<string, string>, ids: seq<string>): FieldValues {
    map id | id in values :: if id in ids && id in data then data[id] else values[id]
  }

  /** The page after `loadData` restores the form fields from `data`. */
  function Restored(values: FieldValues, data: map<string, string>): FieldValues {
    RestoredIds(values, data, FormInputs)
  }

  /** Restoring one more id writes that one field, if it exists and was saved. */
  lemma RestoreStep(values: FieldValues, data: map<string, string>, ids: seq<string>, i: nat)
    requires i < |ids|
    ensures var before := RestoredIds(values, data, ids[..i]);
      var id := ids[i];
      RestoredIds(values, data, ids[..i + 1]) ==
        if id in before && id in data then before[id := data[id]] else before
  {
    assert forall x :: x in ids[..i + 1] <==> x in ids[..i] || x == ids[i];
  }

  /** Restoring what was saved from the same page changes nothing. */
  lemma RestoreSaved(values: FieldValues)
    ensures Restored(values, Saved(values)) == values
  {
  }

  /** Restoring into a page that has every form field gives each field the
      value saved from the original page, and the empty text where the
      original page had no such field. */
  lemma RestoreOnOtherPage(src: FieldValues, page: FieldValues, id: string)
    requires id in FormInputs && id in page
    ensures Restored(page, Saved(src))[id] == if id in src then src[id] else []
  {
  }

  /** Hence the restored page yields the same financial amounts, and so the
      same determinant income, as the page that was saved. */
  lemma RestoreKeepsAmounts(src: FieldValues, page: FieldValues)
    requires forall id :: id in FormInputs ==> id in page
    ensures ReadAmounts(Restored(page, Saved(src))) == ReadAmounts(src)
  {
    var restored := Restored(page, Saved(src));
    forall id | id in FormInputs
      ensures ParseInput(restored, id) == ParseInput(src, id)
    {
      RestoreOnOtherPage(src, page, id);
      if id !in src {
        BlankAmountIsZero([]);
      }
    }
  }

  /** The page's form fields and the flag that lets an edit clear the results
      and recompute; `loadData` lowers it while it writes the fields. */
  class Page {
    var values: FieldValues
    var listenersActive: bool

    constructor (initial: FieldValues)
      ensures values == initial && listenersActive
    {
      values := initial;
      listenersActive := true;
    }

    /** `loadData`: when something was saved, writes each saved value into its
        existing form field with the listeners switched off, then switches them
        back on; when nothing was saved, changes nothing. */
    method LoadData(saved: Option<map<string, string>>)
      modifies this
      ensures saved.None? ==> values == old(values) && listenersActive == old(listenersActive)
      ensures saved.Some? ==> values == Restored(old(values), saved.value) && listenersActive
    {
      if saved.Some? {
        var data := saved.value;
        listenersActive := false;
        var i := 0;
        while i < |FormInputs|
          invariant 0 <= i <= |FormInputs|
          invariant !listenersActive
          invariant values == RestoredIds(old(values), data, FormInputs[..i])
        {
          var id := FormInputs[i];
          RestoreStep(old(values), data, FormInputs, i);
          if id in values && id in data {
            values := values[id := data[id]];
          }
          i := i + 1;
        }
        assert FormInputs[..i] == FormInputs;
        listenersActive := true;
      }
    }
  }
}
