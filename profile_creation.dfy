/**
 * The profile page (`src/pages/ProfileCreation.js`): a flat record of fields, two of
 * which are lists of entries edited one position at a time, and the rules that decide
 * which inputs the browser requires before the form can be submitted.
 */
module ProfileCreation {
  import opened JsText
  import opened Storage

  const MajorsField: string := "intended_majors"
  const CountriesField: string := "preferred_countries"

  /** The checkbox fields, all starting unchecked. */
  const FlagFields: set<string> :=
    {"need_scholarship", "allow_high_cost_of_living", "co_op_or_internship_required", "post_study_work_priority"}

  /** The text fields, all starting empty except `currency`. */
  const TextFields: set<string> := {
    "email", "intake_year", "degree_level_target", "budget_total_per_year", "currency",
    "highest_education", "gpa_status", "english_test_type", "toefl_score", "ielts_score",
    "duolingo_score", "english_exempt_reason", "gpa_value", "gpa_scale", "grading_system",
    "language_of_instruction_preference", "sat_total", "act_composite", "gre_total", "gmat_total",
    "test_status", "test_policy", "transcript_upload_url", "resume_url", "portfolio_url",
    "github_url", "ranking_priority", "university_shortlist"
  }

  /** The initial value of a field of the form. */
  function InitialValue(field: string): FormValue {
    if field in {MajorsField, CountriesField} then List([""])
    else if field in FlagFields then Flag(false)
    else if field == "currency" then Text("USD")
    else Text("")
  }

  /** The initial form: the lists hold one empty entry each. */
  function InitialData(): (data: map<string, FormValue>)
    ensures data.Keys == TextFields + FlagFields + {MajorsField, CountriesField}
    ensures data[MajorsField] == List([""]) && data[CountriesField] == List([""])
  {
    map f | f in TextFields + FlagFields + {MajorsField, CountriesField} :: InitialValue(f)
  }

  /** The checkboxes start unchecked, the currency at "USD", and every other text field empty. */
  lemma {:induction false} InitialDefaults()
    ensures forall f | f in FlagFields :: InitialData()[f] == Flag(false)
    ensures InitialData()["currency"] == Text("USD")
    ensures forall f | f in TextFields && f != "currency" :: InitialData()[f] == Text("")
  {
    FieldNamesDisjoint();
    TextNamesDisjoint();
    TextNamesNotLists();
    var data := InitialData();
    forall f | f in FlagFields ensures data[f] == Flag(false) {
      assert f in data.Keys;
    }
    assert "currency" in data.Keys;
    forall f | f in TextFields && f != "currency" ensures data[f] == Text("") {
      assert f in data.Keys;
    }
  }

  lemma {:induction false} FieldNamesDisjoint()
    ensures FlagFields !! {MajorsField, CountriesField}
    ensures "currency" in TextFields && "currency" !in FlagFields + {MajorsField, CountriesField}
  {
  }

  lemma {:induction false} TextNamesDisjoint()
    ensures TextFields !! FlagFields
  {
  }

  lemma {:induction false} TextNamesNotLists()
    ensures TextFields !! {MajorsField, CountriesField}
  {
  }

  // ---------------------------------------------------------------------------
  // The list operations.
  // ---------------------------------------------------------------------------

  /** `list.map((item, i) => i === index ? value : item)`. */
  function ReplaceAt(s: seq<string>, index: int, value: string): (r: seq<string>)
    ensures |r| == |s|
    ensures forall j | 0 <= j < |s| :: r[j] == if j == index then value else s[j]
  {
    if s == [] then []
    else
      var rest := ReplaceAt(s[1..], index - 1, value);
      assert forall j | 1 <= j < |s| :: rest[j - 1] == if j == index then value else s[j];
      [if index == 0 then value else s[0]] + rest
  }

  /** `list.filter((_, i) => i !== index)`. */
  function RemoveAt(s: seq<string>, index: int): (r: seq<string>)
    ensures 0 <= index < |s| ==> r == s[..index] + s[index + 1..]
    ensures !(0 <= index < |s|) ==> r == s
  {
    if s == [] then []
    else
      var rest := RemoveAt(s[1..], index - 1);
      assert s == [s[0]] + s[1..];
      if index == 0 then rest
      else
        assert 0 < index < |s| ==> [s[0]] + s[1..][..index - 1] == s[..index] && s[1..][index..] == s[index + 1..];
        [s[0]] + rest
  }

  /** A field is a list of entries. */
  predicate IsList(data: map<string, FormValue>, field: string) {
    field in data && data[field].List?
  }

  /** The entries of a list field, or none when the field is not a list. */
  function Entries(data: map<string, FormValue>, field: string): seq<string> {
    if IsList(data, field) then data[field].items else []
  }

  /** `handleInputChange`: a checkbox stores `checked`, any other input its text. */
  function InputChanged(data: map<string, FormValue>, name: string, value: string, isCheckbox: bool, checked: bool)
    : (r: map<string, FormValue>)
    ensures r.Keys == data.Keys + {name}
    ensures r[name] == if isCheckbox then Flag(checked) else Text(value)
    ensures forall f | f in data && f != name :: r[f] == data[f]
  {
    data[name := if isCheckbox then Flag(checked) else Text(value)]
  }

  /** `handleArrayChange(field, index, value)`. */
  function ArrayChanged(data: map<string, FormValue>, field: string, index: int, value: string)
    : (r: map<string, FormValue>)
    requires IsList(data, field)
    ensures r.Keys == data.Keys && IsList(r, field)
    ensures |Entries(r, field)| == |Entries(data, field)|
    ensures forall j | 0 <= j < |Entries(data, field)| ::
              Entries(r, field)[j] == if j == index then value else Entries(data, field)[j]
    ensures forall f | f in data && f != field :: r[f] == data[f]
  {
    data[field := List(ReplaceAt(data[field].items, index, value))]
  }

  /** `addArrayField(field)`: an empty entry appended. */
  function ArrayAdded(data: map<string, FormValue>, field: string): (r: map<string, FormValue>)
    requires IsList(data, field)
    ensures r.Keys == data.Keys && IsList(r, field)
    ensures Entries(r, field) == Entries(data, field) + [""]
    ensures forall f | f in data && f != field :: r[f] == data[f]
  {
    data[field := List(data[field].items + [""])]
  }

  /** `removeArrayField(field, index)`. */
  function ArrayRemoved(data: map<string, FormValue>, field: string, index: int): (r: map<string, FormValue>)
    requires IsList(data, field)
    ensures r.Keys == data.Keys && IsList(r, field)
    ensures 0 <= index < |Entries(data, field)| ==>
              Entries(r, field) == Entries(data, field)[..index] + Entries(data, field)[index + 1..]
    ensures forall f | f in data && f != field :: r[f] == data[f]
  {
    data[field := List(RemoveAt(data[field].items, index))]
  }

  /** An index outside the list changes nothing, for both the change and the removal. */
  lemma {:induction false} OutOfRangeIsNoOp(data: map<string, FormValue>, field: string, index: int, value: string)
    requires IsList(data, field) && !(0 <= index < |Entries(data, field)|)
    ensures ArrayChanged(data, field, index, value) == data
    ensures ArrayRemoved(data, field, index) == data
  {
    var s := data[field].items;
    assert ReplaceAt(s, index, value) == s;
    assert data[field := List(s)] == data;
  }

  /** Removing position `index` shortens the list by one and keeps the others in order. */
  lemma {:induction false} RemoveShifts(s: seq<string>, index: int)
    requires 0 <= index < |s|
    ensures |RemoveAt(s, index)| == |s| - 1
    ensures forall j | 0 <= j < |s| - 1 :: RemoveAt(s, index)[j] == if j < index then s[j] else s[j + 1]
  {
  }

  // ---------------------------------------------------------------------------
  // What the page offers keeps the lists non-empty and the majors at most three.
  // ---------------------------------------------------------------------------

  /** The lists hold at least one entry, and there are at most three majors. */
  predicate ListsShaped(data: map<string, FormValue>) {
    && IsList(data, MajorsField) && 1 <= |Entries(data, MajorsField)| <= 3
    && IsList(data, CountriesField) && 1 <= |Entries(data, CountriesField)|
  }

  lemma {:induction false} InitialShaped()
    ensures ListsShaped(InitialData())
  {
  }

  /** A text or checkbox input, a list entry's edit, or a button the page shows. */
  datatype Edit =
    | Input(name: string, value: string, isCheckbox: bool, checked: bool)
    | ChangeEntry(field: string, index: int, value: string)
    | AddEntry(field: string)
    | RemoveEntry(field: string, index: int)

  /**
   * The edits the page can produce: inputs carry the names of scalar fields, list
   * entries are edited in place, "Remove" is shown beside every entry but the first,
   * and "Add another major" only while there are fewer than three.
   */
  predicate Offered(data: map<string, FormValue>, e: Edit) {
    match e
    case Input(name, _, _, _) => name !in {MajorsField, CountriesField}
    case ChangeEntry(field, _, _) => field in {MajorsField, CountriesField}
    case AddEntry(field) =>
      field == CountriesField || (field == MajorsField && |Entries(data, MajorsField)| < 3)
    case RemoveEntry(field, index) =>
      field in {MajorsField, CountriesField} && 0 < index < |Entries(data, field)|
  }

  /** The form after one edit. */
  function Apply(data: map<string, FormValue>, e: Edit): map<string, FormValue>
    requires ListsShaped(data)
    requires Offered(data, e)
  {
    match e
    case Input(name, value, isCheckbox, checked) => InputChanged(data, name, value, isCheckbox, checked)
    case ChangeEntry(field, index, value) => ArrayChanged(data, field, index, value)
    case AddEntry(field) => ArrayAdded(data, field)
    case RemoveEntry(field, index) => ArrayRemoved(data, field, index)
  }

  /** Every offered edit keeps both lists non-empty and the majors at most three. */
  lemma {:induction false} OfferedKeepsShape(data: map<string, FormValue>, e: Edit)
    requires ListsShaped(data) && Offered(data, e)
    ensures ListsShaped(Apply(data, e))
  {
    match e
    case Input(name, value, isCheckbox, checked) =>
    case ChangeEntry(field, index, value) =>
    case AddEntry(field) =>
    case RemoveEntry(field, index) =>
      RemoveShifts(Entries(data, field), index);
  }

  // ---------------------------------------------------------------------------
  // Which inputs the browser requires.
  // ---------------------------------------------------------------------------

  /** The text of a field, or `""` when it holds no text. */
  function TextOf(data: map<string, FormValue>, field: string): string {
    if field in data && data[field].Text? then data[field].s else ""
  }

  /** Inputs marked `required` whatever else the form holds. */
  const AlwaysRequired: set<string> := {
    "email", "intake_year", "degree_level_target", "budget_total_per_year", "currency",
    "highest_education", "gpa_status", "english_test_type"
  }

  const NonEnglishCountries: set<string> := {"Germany", "France", "Netherlands", "Switzerland"}

  /** The score or reason field shown for each English test choice. */
  function EnglishField(testType: string): (f: string)
    ensures f != "" <==> testType in {"toefl", "ielts", "duolingo", "exempt"}
  {
    match testType
    case "toefl" => "toefl_score"
    case "ielts" => "ielts_score"
    case "duolingo" => "duolingo_score"
    case "exempt" => "english_exempt_reason"
    case _ => ""
  }

  const EnglishFields: set<string> := {"toefl_score", "ielts_score", "duolingo_score", "english_exempt_reason"}

  /** Some preferred country teaches mainly in another language. */
  predicate WantsNonEnglishCountry(data: map<string, FormValue>) {
    exists i | 0 <= i < |Entries(data, CountriesField)| :: Entries(data, CountriesField)[i] in NonEnglishCountries
  }

  /**
   * The scalar inputs rendered with `required` (the first entry of each list is
   * required as well): the fixed ones, the GPA pair when the GPA is known, the one
   * English field the chosen test shows, and the language preference when a preferred
   * country is non-English.
   */
  function RequiredFields(data: map<string, FormValue>): (r: set<string>)
    ensures AlwaysRequired <= r
    ensures "gpa_value" in r <==> TextOf(data, "gpa_status") == "known"
    ensures "gpa_scale" in r <==> TextOf(data, "gpa_status") == "known"
    ensures "language_of_instruction_preference" in r <==> WantsNonEnglishCountry(data)
    ensures forall f | f in EnglishFields :: f in r <==> f == EnglishField(TextOf(data, "english_test_type"))
  {
    RequiredNamesDisjoint();
    EnglishNamesDisjoint();
    AlwaysRequired
    + (if TextOf(data, "gpa_status") == "known" then {"gpa_value", "gpa_scale"} else {})
    + (var e := EnglishField(TextOf(data, "english_test_type")); if e == "" then {} else {e})
    + (if WantsNonEnglishCountry(data) then {"language_of_instruction_preference"} else {})
  }

  /** The fixed, conditional and English field names are pairwise distinct. */
  lemma {:induction false} RequiredNamesDisjoint()
    ensures AlwaysRequired !! {"gpa_value", "gpa_scale", "language_of_instruction_preference"}
    ensures AlwaysRequired !! EnglishFields
  {
  }

  lemma {:induction false} EnglishNamesDisjoint()
    ensures EnglishFields !! {"gpa_value", "gpa_scale", "language_of_instruction_preference"}
    ensures forall t :: EnglishField(t) == "" || EnglishField(t) in EnglishFields
  {
  }

  /** Exactly one English field is required once a test type is chosen, and none before. */
  lemma {:induction false} OneEnglishField(data: map<string, FormValue>)
    ensures var t := TextOf(data, "english_test_type");
            RequiredFields(data) * EnglishFields == if t in {"toefl", "ielts", "duolingo", "exempt"} then {EnglishField(t)} else {}
  {
    var t := TextOf(data, "english_test_type");
    var r := RequiredFields(data);
    if t in {"toefl", "ielts", "duolingo", "exempt"} {
      assert EnglishField(t) in EnglishFields;
    }
  }

  /** The profile form's state. */
  class Form {
    var data: map<string, FormValue>

    constructor()
      ensures data == InitialData()
    {
      data := InitialData();
    }

    method HandleInputChange(name: string, value: string, isCheckbox: bool, checked: bool)
      modifies this
      ensures data == InputChanged(old(data), name, value, isCheckbox, checked)
    {
      data := data[name := if isCheckbox then Flag(checked) else Text(value)];
    }

    method HandleArrayChange(field: string, index: int, value: string)
      requires IsList(data, field)
      modifies this
      ensures data == ArrayChanged(old(data), field, index, value)
    {
      data := data[field := List(ReplaceAt(data[field].items, index, value))];
    }

    method AddArrayField(field: string)
      requires IsList(data, field)
      modifies this
      ensures data == ArrayAdded(old(data), field)
    {
      data := data[field := List(data[field].items + [""])];
    }

    method RemoveArrayField(field: string, index: int)
      requires IsList(data, field)
      modifies this
      ensures data == ArrayRemoved(old(data), field, index)
    {
      data := data[field := List(RemoveAt(data[field].items, index))];
    }

    /** `handleSubmit`: the serialised profile is stored under the key the gate probes, then the requirements page. */
    method HandleSubmit(store: Store, serialized: string) returns (store': Store, target: string)
      ensures store' == SetItem(store, ProfileKey, serialized)
      ensures serialized != "" ==> Present(store', ProfileKey)
      ensures target == "/requirements"
    {
      store' := SetItem(store, ProfileKey, serialized);
      target := "/requirements";
    }
  }
}
