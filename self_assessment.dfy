/**
 * The self-assessment page (`src/pages/SelfAssessment.js`): an eight-category
 * record that the page updates one field at a time, loads from and saves to the
 * key `assessment_<universityId>`.
 */
module SelfAssessment {
  import opened Wrappers
  import opened JsText
  import opened Catalog

  /** One category of the record, e.g. `{ score: '', status: 'not_started' }`. */
  type SubRecord = map<string, Value>

  /** The whole record: category name to sub-record. */
  type Record = map<string, SubRecord>

  /**
   * The assessments saved under the `assessment_<id>` keys, as the records they
   * parse to. The JSON text itself is not part of this model.
   */
  type SavedAssessments = map<string, Record>

  /** The eight categories of the default record. */
  const Categories: set<string> :=
    {"gmat", "gre", "ielts", "toefl", "lors", "sop", "transcripts", "workExperience"}

  /** The categories whose sub-record carries a `score`. */
  const ScoredCategories: set<string> := {"gmat", "gre", "ielts", "toefl"}

  /** The choices every status drop-down offers. */
  const StatusOptions: seq<string> := ["not_started", "in_progress", "completed"]

  const NotStarted: Value := Str("not_started")

  /** The default record the page starts from. */
  const DefaultRecord: Record := map[
    "gmat" := map["score" := Str(""), "status" := NotStarted],
    "gre" := map["score" := Str(""), "status" := NotStarted],
    "ielts" := map["score" := Str(""), "status" := NotStarted],
    "toefl" := map["score" := Str(""), "status" := NotStarted],
    "lors" := map["count" := Num(0), "status" := NotStarted],
    "sop" := map["status" := NotStarted],
    "transcripts" := map["status" := NotStarted],
    "workExperience" := map["years" := Str(""), "status" := NotStarted]
  ]

  /** The key an assessment for `universityId` is saved under. */
  function AssessmentKey(universityId: string): (k: string)
    ensures |k| == 11 + |universityId|
    ensures k[..11] == "assessment_" && k[11..] == universityId
  {
    "assessment_" + universityId
  }

  /** Different universities never share a saved assessment. */
  lemma {:induction false} AssessmentKeyInjective(a: string, b: string)
    requires a != b
    ensures AssessmentKey(a) != AssessmentKey(b)
  {
    assert AssessmentKey(a)[11..] == a;
    assert AssessmentKey(b)[11..] == b;
  }

  /** `{ ...r, [field]: { ...r[field], [key]: value } }`; spreading a missing category gives `{}`. */
  function Update(r: Record, field: string, key: string, value: Value): (r': Record)
    ensures field in r' && key in r'[field] && r'[field][key] == value
    ensures r'.Keys == r.Keys + {field}
    ensures forall f :: f in r && f != field ==> f in r' && r'[f] == r[f]
    ensures field in r ==> r'[field].Keys == r[field].Keys + {key}
    ensures field !in r ==> r'[field].Keys == {key}
    ensures forall k :: field in r && k in r[field] && k != key ==> r'[field][k] == r[field][k]
  {
    r[field := (if field in r then r[field] else map[])[key := value]]
  }

  /** A status the drop-downs can produce. */
  predicate IsStatus(v: Value) {
    v.Str? && v.s in StatusOptions
  }

  /** A count the letters drop-down can produce: `parseInt` of one of the options `0` to `4`. */
  predicate IsLorCount(v: Value) {
    v.Num? && 0 <= v.n <= 4
  }

  /** The shape of every record the page can build from the default one. */
  predicate WellFormed(r: Record) {
    && r.Keys == Categories
    && (forall f :: f in r ==> "status" in r[f] && IsStatus(r[f]["status"]))
    && (forall f :: f in ScoredCategories ==> f in r && "score" in r[f] && r[f]["score"].Str?)
    && "lors" in r && "count" in r["lors"] && IsLorCount(r["lors"]["count"])
    && "workExperience" in r && "years" in r["workExperience"] && r["workExperience"]["years"].Str?
  }

  /**
   * The `handleInputChange` calls the page's inputs make: a text score for GMAT, GRE
   * and IELTS, a status for every category but TOEFL (which has no input), the
   * letters count and the years of work experience.
   */
  predicate OfferedInput(field: string, key: string, value: Value) {
    || (key == "score" && field in {"gmat", "gre", "ielts"} && value.Str?)
    || (key == "status" && field in Categories && field != "toefl" && IsStatus(value))
    || (key == "count" && field == "lors" && IsLorCount(value))
    || (key == "years" && field == "workExperience" && value.Str?)
  }

  /** The default record has exactly the eight categories, all not started, with no letters. */
  lemma {:induction false} DefaultRecordShape()
    ensures DefaultRecord.Keys == Categories
    ensures forall f :: f in DefaultRecord ==> "status" in DefaultRecord[f] && DefaultRecord[f]["status"] == NotStarted
    ensures DefaultRecord["lors"]["count"] == Num(0)
  {
  }

  /** The default record is well formed. */
  lemma {:induction false} DefaultWellFormed()
    ensures WellFormed(DefaultRecord)
  {
    DefaultRecordShape();
    assert IsStatus(NotStarted) by {
      assert StatusOptions[0] == "not_started";
    }
    forall f | f in ScoredCategories ensures f in DefaultRecord && "score" in DefaultRecord[f] && DefaultRecord[f]["score"].Str? {
    }
  }

  /** Updating a category that exists keeps the set of categories. */
  lemma {:induction false} UpdateKeepsCategories(r: Record, field: string, key: string, value: Value)
    requires field in r
    ensures Update(r, field, key, value).Keys == r.Keys
  {
  }

  /** Two updates of different (category, key) pairs commute. */
  lemma {:induction false} UpdatesCommute(r: Record, f1: string, k1: string, v1: Value, f2: string, k2: string, v2: Value)
    requires f1 != f2 || k1 != k2
    ensures Update(Update(r, f1, k1, v1), f2, k2, v2) == Update(Update(r, f2, k2, v2), f1, k1, v1)
  {
    var base1: SubRecord := if f1 in r then r[f1] else map[];
    var base2: SubRecord := if f2 in r then r[f2] else map[];
    var u1, u2 := Update(r, f1, k1, v1), Update(r, f2, k2, v2);
    if f1 == f2 {
      var a := Update(u1, f1, k2, v2);
      var b := Update(u2, f1, k1, v1);
      assert u1[f1] == base1[k1 := v1] && u2[f1] == base1[k2 := v2];
      assert a == r[f1 := base1[k1 := v1]][f1 := base1[k1 := v1][k2 := v2]];
      assert b == r[f1 := base1[k2 := v2]][f1 := base1[k2 := v2][k1 := v1]];
      LaterUpdateWins(r, f1, base1[k1 := v1], base1[k1 := v1][k2 := v2]);
      LaterUpdateWins(r, f1, base1[k2 := v2], base1[k2 := v2][k1 := v1]);
      UpdatesOfDistinctKeysCommute(base1, k1, v1, k2, v2);
    } else {
      assert (if f2 in u1 then u1[f2] else map[]) == base2;
      assert (if f1 in u2 then u2[f1] else map[]) == base1;
      UpdatesOfDistinctKeysCommute(r, f1, base1[k1 := v1], f2, base2[k2 := v2]);
    }
  }

  /** Of two map updates at one key, the later one wins. */
  lemma {:induction false} LaterUpdateWins<K, V>(m: map<K, V>, a: K, x: V, y: V)
    ensures m[a := x][a := y] == m[a := y]
  {
  }

  /** Map updates at two different keys commute. */
  lemma {:induction false} UpdatesOfDistinctKeysCommute<K, V>(m: map<K, V>, a: K, x: V, b: K, y: V)
    requires a != b
    ensures m[a := x][b := y] == m[b := y][a := x]
  {
  }

  /** Of two updates of the same (category, key) pair, the last one wins. */
  lemma {:induction false} LastWriteWins(r: Record, field: string, key: string, v1: Value, v2: Value)
    ensures Update(Update(r, field, key, v1), field, key, v2) == Update(r, field, key, v2)
  {
    var base: SubRecord := if field in r then r[field] else map[];
    var u := Update(r, field, key, v1);
    assert u[field] == base[key := v1];
    assert Update(u, field, key, v2) == r[field := base[key := v1]][field := base[key := v1][key := v2]];
    LaterUpdateWins(base, key, v1, v2);
    LaterUpdateWins(r, field, base[key := v1], base[key := v2]);
  }

  /** Every input the page offers keeps a well-formed record well formed. */
  lemma {:induction false} OfferedInputKeepsShape(r: Record, field: string, key: string, value: Value)
    requires WellFormed(r) && OfferedInput(field, key, value)
    ensures WellFormed(Update(r, field, key, value))
  {
    var r' := Update(r, field, key, value);
    assert field in Categories;
    UpdateKeepsCategories(r, field, key, value);
    forall f | f in r' ensures "status" in r'[f] && IsStatus(r'[f]["status"]) {
      if f != field || key != "status" {
        UpdateElsewhere(r, field, key, value, f, "status");
      }
    }
    forall f | f in ScoredCategories ensures f in r' && "score" in r'[f] && r'[f]["score"].Str? {
      if f != field || key != "score" {
        UpdateElsewhere(r, field, key, value, f, "score");
      }
    }
    if field != "lors" || key != "count" {
      UpdateElsewhere(r, field, key, value, "lors", "count");
    }
    if field != "workExperience" || key != "years" {
      UpdateElsewhere(r, field, key, value, "workExperience", "years");
    }
  }

  /** An update leaves every other (category, key) entry as it was. */
  lemma {:induction false} UpdateElsewhere(r: Record, field: string, key: string, value: Value, f: string, k: string)
    requires f in r && k in r[f] && (f != field || k != key)
    ensures f in Update(r, field, key, value) && k in Update(r, field, key, value)[f]
    ensures Update(r, field, key, value)[f][k] == r[f][k]
  {
  }

  /** No input of the page touches the TOEFL category. */
  lemma {:induction false} OfferedInputSkipsToefl(r: Record, field: string, key: string, value: Value)
    requires "toefl" in r && OfferedInput(field, key, value)
    ensures "toefl" in Update(r, field, key, value) && Update(r, field, key, value)["toefl"] == r["toefl"]
  {
  }

  /** The page's state: the university shown and the record being edited. */
  class AssessmentForm {
    const universityId: string
    var university: Option<University>
    var assessment: Record

    /** The initial state: no university yet, and the default record. */
    constructor(universityId: string)
      ensures this.universityId == universityId
      ensures university == None && assessment == DefaultRecord
    {
      this.universityId := universityId;
      university := None;
      assessment := DefaultRecord;
    }

    /** The mount effect: look the university up, and load a saved record if there is one. */
    method Load(saved: SavedAssessments)
      modifies this
      ensures university == GetUniversityById(universityId)
      ensures AssessmentKey(universityId) in saved ==> assessment == saved[AssessmentKey(universityId)]
      ensures AssessmentKey(universityId) !in saved ==> assessment == old(assessment)
    {
      hide *;
      university := GetUniversityById(universityId);
      var key := AssessmentKey(universityId);
      if key in saved {
        assessment := saved[key];
      }
    }

    /** `handleInputChange(field, key, value)`: one field of one category changes. */
    method HandleInputChange(field: string, key: string, value: Value)
      modifies this
      ensures assessment == Update(old(assessment), field, key, value)
      ensures university == old(university)
    {
      assessment := Update(assessment, field, key, value);
    }

    /** The letters drop-down: `parseInt` of the chosen option `0` to `4` is stored as the count. */
    method ChooseLorCount(option: int)
      requires 0 <= option <= 4
      modifies this
      ensures assessment == Update(old(assessment), "lors", "count", Num(option))
      ensures university == old(university)
    {
      ParseIntOfIntString(option);
      assert ParseInt(IntToString(option)) == Some(option as real);
      HandleInputChange("lors", "count", Num(option));
    }

    /** `handleSubmit`: save the record under its key, then go to the feedback page. */
    method HandleSubmit(saved: SavedAssessments) returns (saved': SavedAssessments, target: string)
      ensures AssessmentKey(universityId) in saved' && saved'[AssessmentKey(universityId)] == assessment
      ensures forall k :: k in saved && k != AssessmentKey(universityId) ==> k in saved' && saved'[k] == saved[k]
      ensures saved'.Keys == saved.Keys + {AssessmentKey(universityId)}
      ensures target == "/feedback/" + universityId
    {
      saved' := saved[AssessmentKey(universityId) := assessment];
      target := "/feedback/" + universityId;
    }
  }

  /** The record after a series of `handleInputChange` calls, in order. */
  ghost function Replay(r: Record, inputs: seq<(string, string, Value)>): Record
    decreases |inputs|
  {
    if inputs == [] then r
    else
      var (field, key, value) := inputs[|inputs| - 1];
      Update(Replay(r, inputs[..|inputs| - 1]), field, key, value)
  }

  /** Editing with the page's own inputs never leaves the shape of the default record. */
  lemma {:induction false} ReplayKeepsShape(r: Record, inputs: seq<(string, string, Value)>)
    requires WellFormed(r)
    requires forall i | 0 <= i < |inputs| :: OfferedInput(inputs[i].0, inputs[i].1, inputs[i].2)
    ensures WellFormed(Replay(r, inputs))
    decreases |inputs|
  {
    if inputs != [] {
      var n := |inputs| - 1;
      ReplayKeepsShape(r, inputs[..n]);
      OfferedInputKeepsShape(Replay(r, inputs[..n]), inputs[n].0, inputs[n].1, inputs[n].2);
    }
  }
}
