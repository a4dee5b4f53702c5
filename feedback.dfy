/**
 * The feedback engine of the feedback page (`src/pages/AIFeedback.js`):
 * `generateFeedback` compares one self-assessment record with one catalog entry and
 * produces findings in a fixed order (IELTS, GRE/GMAT, letters, statement of purpose,
 * overall readiness), a completion score and the number of high-priority findings.
 *
 * The JavaScript throws a `TypeError` when a category it reads is missing, when
 * the university is undefined, and when the GMAT branch calls `replace` on a
 * requirement the entry does not define; those outcomes are `Err` here.
 */
module Feedback {
  import opened Wrappers
  import opened JsText
  import opened Catalog
  import opened SelfAssessment

  /** A finding's `type`. */
  datatype Severity = Critical | Warning | Success {
    /** The string the page stores in `type`. */
    function Label(): string {
      match this
      case Critical => "critical"
      case Warning => "warning"
      case Success => "success"
    }
  }

  datatype Priority = High | Medium | Low

  /** The standardized test a finding is about. */
  datatype Test = GRE | GMAT

  /** A finding's `category`. */
  datatype Topic = IELTS | Exam(test: Test) | LORs | SOP | Overall {
    /** The position of the topic in the fixed order of the report. */
    function Rank(): nat {
      match this
      case IELTS => 0
      case Exam(_) => 1
      case LORs => 2
      case SOP => 3
      case Overall => 4
    }
  }

  /** A finding's `action`; `SecureMoreLors` carries the number of letters still needed. */
  datatype Action =
    | RetakeIelts | ConsiderRetakingIelts | MaintainScore
    | RetakeTest(test: Test) | ConsiderRetakingTest(test: Test)
    | SecureMoreLors(needed: real) | FollowUpSubmission
    | BeginSopDraft | FinalizeSop
    | ReviewAndSubmit | CompleteMissingItems

  /** One feedback item; its title and message wording are page copy. */
  datatype Finding = Finding(topic: Topic, severity: Severity, priority: Priority, action: Action)

  /** What `setFeedback` receives. */
  datatype Report = Report(items: seq<Finding>, overallScore: int, recommendedActions: nat)

  /** The `TypeError`s `generateFeedback` can raise. */
  datatype Crash =
    | MissingCategory(name: string)   // `assessmentData[name]` is undefined
    | UniversityUndefined             // `uni.requirements` with `uni` undefined
    | GmatRequirementUndefined        // `requirements.gmat.replace(...)` with no GMAT minimum

  /** The average GMAT score the page assumes for every university. */
  const GmatAverage: real := 650.0

  /** `assessmentData[category][key]`, which throws when the category is missing. */
  function Field(a: Record, category: string, key: string): (r: Result<Option<Value>, Crash>)
    ensures r.Err? <==> category !in a
    ensures r.Err? ==> r.error == MissingCategory(category)
    ensures r.Ok? ==> (r.value.Some? <==> key in a[category])
    ensures r.Ok? && r.value.Some? ==> r.value.value == a[category][key]
  {
    if category !in a then Err(MissingCategory(category))
    else if key in a[category] then Ok(Some(a[category][key]))
    else Ok(None)
  }

  /** The numbers the IELTS branch compares. */
  function IeltsUser(score: Value): Number { ParseValue(score) }

  function IeltsRequired(u: University): Number { ParseFloat(u.requirements.ielts) }

  /** The IELTS finding, lines 29-63: nothing for an empty score, else one of three tiers. */
  function IeltsFinding(uni: Option<University>, a: Record): (r: Result<Option<Finding>, Crash>)
    ensures r.Err? <==> "ielts" !in a || (Truthy(Field(a, "ielts", "score").value) && uni.None?)
    ensures r.Ok? ==> (r.value.Some? <==> Truthy(Field(a, "ielts", "score").value))
    ensures r.Ok? && r.value.Some? ==>
              var f := r.value.value;
              var user := IeltsUser(a["ielts"]["score"]);
              && f.topic == IELTS
              && (f.severity == Critical <==> Less(user, IeltsRequired(uni.value)))
              && (f.severity == Warning <==>
                    !Less(user, IeltsRequired(uni.value)) && Less(user, Some(uni.value.averageProfile.ielts)))
              && (f.severity == Critical ==> f.priority == High && f.action == RetakeIelts)
              && (f.severity == Warning ==> f.priority == Medium && f.action == ConsiderRetakingIelts)
              && (f.severity == Success ==> f.priority == Low && f.action == MaintainScore)
  {
    var score :- Field(a, "ielts", "score");
    if !Truthy(score) then Ok(None)
    else if uni.None? then Err(UniversityUndefined)
    else
      var user := IeltsUser(score.value);
      var required := IeltsRequired(uni.value);
      if Less(user, required) then Ok(Some(Finding(IELTS, Critical, High, RetakeIelts)))
      else if Less(user, Some(uni.value.averageProfile.ielts)) then
        Ok(Some(Finding(IELTS, Warning, Medium, ConsiderRetakingIelts)))
      else Ok(Some(Finding(IELTS, Success, Low, MaintainScore)))
  }

  /** Whether the GRE score is the one compared: `assessmentData.gre.score` is truthy. */
  predicate UsesGre(a: Record)
    requires "gre" in a
  {
    "score" in a["gre"] && Truthy(Some(a["gre"]["score"]))
  }

  /** `assessmentData.gre.score || assessmentData.gmat.score`. */
  function TestScore(a: Record): (r: Result<Option<Value>, Crash>)
    requires "gre" in a
    ensures r.Err? <==> !UsesGre(a) && "gmat" !in a
    ensures UsesGre(a) ==> r == Ok(Some(a["gre"]["score"]))
    ensures !UsesGre(a) && "gmat" in a ==> r == Field(a, "gmat", "score")
  {
    var gre := Field(a, "gre", "score").value;
    if Truthy(gre) then Ok(gre) else Field(a, "gmat", "score")
  }

  /** The minimum the test branch parses: `requirements.gre` or `requirements.gmat` (lines 67-68). */
  function RequiredTest(u: University, useGre: bool): Option<string> {
    if useGre then Some(u.requirements.gre) else u.requirements.gmat
  }

  /** `parseFloat(requiredTest.replace(/[^\d]/g, ''))`. */
  function RequiredTestScore(requirement: string): Number {
    ParseFloat(StripNonDigits(requirement))
  }

  /** The average the test branch compares with: the entry's GRE average, or 650 for GMAT. */
  function AverageTest(u: University, useGre: bool): real {
    if useGre then u.averageProfile.gre else GmatAverage
  }

  /** The GRE/GMAT finding, lines 65-94. */
  function TestFinding(uni: Option<University>, a: Record): (r: Result<Option<Finding>, Crash>)
    ensures r.Err? <==>
              || "gre" !in a
              || (!UsesGre(a) && "gmat" !in a)
              || uni.None?
              || (Truthy(TestScore(a).value) && RequiredTest(uni.value, UsesGre(a)).None?)
    ensures r.Ok? ==> (Truthy(TestScore(a).value) <== r.value.Some?)
    ensures r.Ok? && r.value.Some? ==>
              var f := r.value.value;
              var test := if UsesGre(a) then GRE else GMAT;
              var user := ParseValue(TestScore(a).value.value);
              var required := RequiredTestScore(RequiredTest(uni.value, UsesGre(a)).value);
              && f.topic == Exam(test)
              && f.severity != Success
              && (f.severity == Critical <==> Less(user, required))
              && (f.severity == Critical ==> f.priority == High && f.action == RetakeTest(test))
              && (f.severity == Warning ==> f.priority == Medium && f.action == ConsiderRetakingTest(test)
                                            && Less(user, Some(AverageTest(uni.value, UsesGre(a)))))
    ensures r.Ok? && Truthy(TestScore(a).value) ==>
              var user := ParseValue(TestScore(a).value.value);
              var required := RequiredTestScore(RequiredTest(uni.value, UsesGre(a)).value);
              (r.value.None? <==> !Less(user, required) && !Less(user, Some(AverageTest(uni.value, UsesGre(a)))))
  {
    var gre :- Field(a, "gre", "score");
    var testScore :- TestScore(a);
    var useGre := Truthy(gre);
    var test := if useGre then GRE else GMAT;
    if uni.None? then Err(UniversityUndefined)
    else
      var requiredTest := RequiredTest(uni.value, useGre);
      if !Truthy(testScore) then Ok(None)
      else if requiredTest.None? then Err(GmatRequirementUndefined)
      else
        var user := ParseValue(testScore.value);
        var required := RequiredTestScore(requiredTest.value);
        if Less(user, required) then Ok(Some(Finding(Exam(test), Critical, High, RetakeTest(test))))
        else if Less(user, Some(AverageTest(uni.value, useGre))) then
          Ok(Some(Finding(Exam(test), Warning, Medium, ConsiderRetakingTest(test))))
        else Ok(None)
  }

  /** `parseInt(uni.requirements.lors)`: the number is turned back into text first. */
  function RequiredLors(u: University): Number {
    ParseInt(IntToString(u.requirements.lors))
  }

  /** The letters finding, lines 96-119: always present. */
  function LorFinding(uni: Option<University>, a: Record): (r: Result<Finding, Crash>)
    ensures r.Err? <==> uni.None? || "lors" !in a
    ensures r.Ok? ==>
              var f := r.value;
              var current := NumericValue(Field(a, "lors", "count").value);
              && f.topic == LORs
              && (f.severity == Critical <==> Less(current, Some(uni.value.requirements.lors as real)))
              && (f.severity == Critical ==> f.priority == High && f.action.SecureMoreLors?
                                             && f.action.needed == uni.value.requirements.lors as real - current.value
                                             && f.action.needed > 0.0)
              && (f.severity != Critical ==> f.severity == Success && f.priority == Low && f.action == FollowUpSubmission)
  {
    if uni.None? then Err(UniversityUndefined)
    else
      var required := RequiredLors(uni.value);
      ParseIntOfIntString(uni.value.requirements.lors);
      var count :- Field(a, "lors", "count");
      var current := NumericValue(count);
      if Less(current, required) then
        Ok(Finding(LORs, Critical, High, SecureMoreLors(required.value - current.value)))
      else Ok(Finding(LORs, Success, Low, FollowUpSubmission))
  }

  /** The statement-of-purpose finding, lines 121-140: only for `not_started` and `in_progress`. */
  function SopFinding(a: Record): (r: Result<Option<Finding>, Crash>)
    ensures r.Err? <==> "sop" !in a
    ensures r.Ok? ==>
              var status := Field(a, "sop", "status").value;
              && (r.value.Some? <==> status == Some(Str("not_started")) || status == Some(Str("in_progress")))
              && (status == Some(Str("not_started")) ==> r.value == Some(Finding(SOP, Critical, High, BeginSopDraft)))
              && (status == Some(Str("in_progress")) ==> r.value == Some(Finding(SOP, Warning, Medium, FinalizeSop)))
  {
    var status :- Field(a, "sop", "status");
    if status == Some(Str("not_started")) then Ok(Some(Finding(SOP, Critical, High, BeginSopDraft)))
    else if status == Some(Str("in_progress")) then Ok(Some(Finding(SOP, Warning, Medium, FinalizeSop)))
    else Ok(None)
  }

  /** `item.status === 'completed'`. */
  predicate IsCompleted(sub: SubRecord) {
    "status" in sub && sub["status"] == Str("completed")
  }

  /** The categories whose status is `completed`. */
  function CompletedCategories(a: Record): (s: set<string>)
    ensures s <= a.Keys
    ensures forall f :: f in s <==> f in a && IsCompleted(a[f])
  {
    set f | f in a && IsCompleted(a[f])
  }

  /**
   * The completion counts: `completed` of the record's `total` categories. The page keeps
   * only the real-valued rate; the model decides on the counts, and `AboveIsPercent` and
   * `RoundedIsRound` show that both decide alike.
   */
  datatype Rate = Rate(completed: nat, total: nat) {
    /** `(completedItems / totalItems) * 100`, the page's rate. */
    function Percent(): real
      requires total > 0
    {
      (completed as real / total as real) * 100.0
    }

    /** Whether the rate exceeds the whole percentage `k`. */
    predicate Above(k: nat) {
      100 * completed > k * total
    }

    /** The rate rounded to a whole percentage. */
    function Rounded(): int
      requires total > 0
    {
      (200 * completed + total) / (2 * total)
    }
  }

  /** The record's completion counts. */
  function CompletionRate(a: Record): Rate {
    Rate(|CompletedCategories(a)|, |a|)
  }

  /** `Math.round(x)`: the nearest integer, halves rounded up. */
  function Round(x: real): int {
    (x + 0.5).Floor
  }

  /** The overall finding, lines 142-154. */
  function OverallFinding(rate: Rate): (f: Finding)
    ensures f.topic == Overall
    ensures f.severity == Success <==> rate.Above(70)
    ensures f.severity == Warning <==> rate.Above(40) && !rate.Above(70)
    ensures f.priority == High <==> !rate.Above(70)
    ensures f.priority != Medium
  {
    Finding(Overall,
            if rate.Above(70) then Success else if rate.Above(40) then Warning else Critical,
            if rate.Above(70) then Low else High,
            if rate.Above(70) then ReviewAndSubmit else CompleteMissingItems)
  }

  /** An optional finding as the list of items it pushes. */
  function Pushed(f: Option<Finding>): (s: seq<Finding>)
    ensures |s| <= 1 && (|s| == 1 <==> f.Some?)
    ensures f.Some? ==> s[0] == f.value
  {
    if f.Some? then [f.value] else []
  }

  /** The findings of priority `high`. */
  function CountHigh(items: seq<Finding>): (n: nat)
    ensures n <= |items|
  {
    if items == [] then 0
    else (if items[0].priority == High then 1 else 0) + CountHigh(items[1..])
  }

  /** The report built from the pushed findings and the completion rate (lines 147-160). */
  function Assemble(ielts: Option<Finding>, test: Option<Finding>, lors: Finding, sop: Option<Finding>, rate: Rate): (r: Report)
    requires rate.total > 0
    ensures 2 <= |r.items| <= 5
    ensures r.recommendedActions == CountHigh(r.items)
    ensures r.overallScore == rate.Rounded()
  {
    var items := Pushed(ielts) + Pushed(test) + [lors] + Pushed(sop) + [OverallFinding(rate)];
    Report(items, rate.Rounded(), CountHigh(items))
  }

  /** `generateFeedback(uni, assessmentData)`: the report, or the `TypeError` the page would raise. */
  function GenerateFeedback(uni: Option<University>, a: Record): (r: Result<Report, Crash>)
    ensures r.Ok? ==> 2 <= |r.value.items| <= 5
    ensures r.Ok? ==> r.value.recommendedActions == CountHigh(r.value.items)
  {
    var ielts :- IeltsFinding(uni, a);
    var test :- TestFinding(uni, a);
    var lors :- LorFinding(uni, a);
    var sop :- SopFinding(a);
    assert "sop" in a;
    Ok(Assemble(ielts, test, lors, sop, CompletionRate(a)))
  }

  /** A successful report is assembled from the four sections, each of which succeeded. */
  lemma {:induction false} SectionsOf(uni: Option<University>, a: Record)
    requires GenerateFeedback(uni, a).Ok?
    ensures IeltsFinding(uni, a).Ok? && TestFinding(uni, a).Ok? && LorFinding(uni, a).Ok? && SopFinding(a).Ok?
    ensures |a| > 0
    ensures GenerateFeedback(uni, a).value ==
            Assemble(IeltsFinding(uni, a).value, TestFinding(uni, a).value, LorFinding(uni, a).value,
                     SopFinding(a).value, CompletionRate(a))
  {
  }

  /** `getFeedbackBg(type)`: the card classes of a finding's type. */
  function FeedbackBg(kind: string): (classes: string)
    ensures kind == "success" ==> classes == "bg-green-50 border-green-200"
    ensures kind == "warning" ==> classes == "bg-yellow-50 border-yellow-200"
    ensures kind == "critical" ==> classes == "bg-red-50 border-red-200"
    ensures kind !in {"success", "warning", "critical"} ==> classes == DefaultBg
  {
    match kind
    case "success" => "bg-green-50 border-green-200"
    case "warning" => "bg-yellow-50 border-yellow-200"
    case "critical" => "bg-red-50 border-red-200"
    case _ => DefaultBg
  }

  const DefaultBg: string := "bg-blue-50 border-blue-200"

  /** The three severities get three different cards, none of them the default. */
  lemma {:induction false} SeverityCardsDistinct(s: Severity, t: Severity)
    ensures FeedbackBg(s.Label()) != DefaultBg
    ensures s != t ==> FeedbackBg(s.Label()) != FeedbackBg(t.Label())
  {
  }

  /** The feedback page's state: the university, the loaded record and the report. */
  class FeedbackPage {
    const universityId: string
    var university: Option<University>
    var assessment: Option<Record>
    var feedback: Option<Report>

    constructor(universityId: string)
      ensures this.universityId == universityId
      ensures university == None && assessment == None && feedback == None
    {
      this.universityId := universityId;
      university := None;
      assessment := None;
      feedback := None;
    }

    /**
     * The mount effect: look the university up and, when an assessment is saved under
     * `assessment_<universityId>`, load it and generate the report. `outcome` is what
     * `generateFeedback` did; when it throws, no report is set.
     */
    method Load(saved: SavedAssessments) returns (outcome: Option<Result<Report, Crash>>)
      modifies this
      ensures university == GetUniversityById(universityId)
      ensures AssessmentKey(universityId) !in saved ==>
                outcome == None && assessment == old(assessment) && feedback == old(feedback)
      ensures AssessmentKey(universityId) in saved ==>
                var record := saved[AssessmentKey(universityId)];
                && assessment == Some(record)
                && outcome == Some(GenerateFeedback(university, record))
                && feedback == (if outcome.value.Ok? then Some(outcome.value.value) else old(feedback))
    {
      hide *;
      var uni := GetUniversityById(universityId);
      university := uni;
      var key := AssessmentKey(universityId);
      if key in saved {
        var record := saved[key];
        assessment := Some(record);
        var r := GenerateFeedback(uni, record);
        outcome := Some(r);
        if r.Ok? {
          feedback := Some(r.value);
        }
      } else {
        outcome := None;
      }
    }
  }

  // ---------------------------------------------------------------------------
  // Properties of the report.
  // ---------------------------------------------------------------------------

  /** Topics strictly follow the order IELTS, GRE/GMAT, letters, statement of purpose, overall. */
  predicate InReportOrder(items: seq<Finding>) {
    forall i, j | 0 <= i < j < |items| :: items[i].topic.Rank() < items[j].topic.Rank()
  }

  lemma {:induction false} AssembleInOrder(a: Option<Finding>, b: Option<Finding>, l: Finding, s: Option<Finding>, rate: Rate)
    requires rate.total > 0
    requires a.Some? ==> a.value.topic == IELTS
    requires b.Some? ==> b.value.topic.Exam?
    requires l.topic == LORs
    requires s.Some? ==> s.value.topic == SOP
    ensures var items := Assemble(a, b, l, s, rate).items;
            InReportOrder(items) && items[|items| - 1].topic == Overall &&
            exists i :: 0 <= i < |items| && items[i].topic == LORs
  {
    var items := Assemble(a, b, l, s, rate).items;
    var na, nb, ns := |Pushed(a)|, |Pushed(b)|, |Pushed(s)|;
    forall i | 0 <= i < |items|
      ensures items[i].topic.Rank() ==
              if i < na then 0 else if i < na + nb then 1 else if i == na + nb then 2
              else if i < na + nb + 1 + ns then 3 else 4
    {
      if i < na {
        assert items[i] == Pushed(a)[i];
      } else if i < na + nb {
        assert items[i] == Pushed(b)[i - na];
      } else if i == na + nb {
        assert items[i] == l;
      } else if i < na + nb + 1 + ns {
        assert items[i] == Pushed(s)[i - na - nb - 1];
      }
    }
    assert items[na + nb] == l;
  }

  /**
   * Findings come in the fixed order, at most one per topic; the letters and overall
   * findings are always there, so a report has 2 to 5 items and ends with the overall one.
   */
  lemma {:induction false} ReportShape(uni: Option<University>, a: Record)
    requires GenerateFeedback(uni, a).Ok?
    ensures var items := GenerateFeedback(uni, a).value.items;
            && InReportOrder(items)
            && 2 <= |items| <= 5
            && items[|items| - 1].topic == Overall
            && exists i :: 0 <= i < |items| && items[i].topic == LORs
  {
    SectionsOf(uni, a);
    AssembleInOrder(IeltsFinding(uni, a).value, TestFinding(uni, a).value, LorFinding(uni, a).value,
                    SopFinding(a).value, CompletionRate(a));
  }

  /** Where `generateFeedback` throws: a category it reads is missing, the university is
   *  undefined, or the GMAT score is compared with a minimum the entry does not define. */
  predicate Throws(uni: Option<University>, a: Record) {
    || "ielts" !in a
    || "gre" !in a
    || (!UsesGre(a) && "gmat" !in a)
    || uni.None?
    || (!UsesGre(a) && Truthy(Field(a, "gmat", "score").value) && uni.value.requirements.gmat.None?)
    || "lors" !in a
    || "sop" !in a
  }

  /** `generateFeedback` fails exactly in the cases `Throws` lists. */
  lemma {:induction false} FeedbackFailsExactly(uni: Option<University>, a: Record)
    ensures GenerateFeedback(uni, a).Err? <==> Throws(uni, a)
  {
  }

  /** Priorities follow severities: for a section finding `high` means critical, and the
   *  overall finding is `high` unless it is a success. */
  predicate PriorityMatchesSeverity(f: Finding) {
    if f.topic == Overall then (f.priority == High <==> f.severity != Success)
    else (f.priority == High <==> f.severity == Critical)
  }

  lemma {:induction false} AssemblePriorities(a: Option<Finding>, b: Option<Finding>, l: Finding, s: Option<Finding>, rate: Rate)
    requires rate.total > 0
    requires a.Some? ==> a.value.topic != Overall && PriorityMatchesSeverity(a.value)
    requires b.Some? ==> b.value.topic != Overall && PriorityMatchesSeverity(b.value)
    requires l.topic != Overall && PriorityMatchesSeverity(l)
    requires s.Some? ==> s.value.topic != Overall && PriorityMatchesSeverity(s.value)
    ensures var items := Assemble(a, b, l, s, rate).items;
            forall i | 0 <= i < |items| :: PriorityMatchesSeverity(items[i])
  {
    var items := Assemble(a, b, l, s, rate).items;
    forall i | 0 <= i < |items| ensures PriorityMatchesSeverity(items[i]) {
      var na, nb, ns := |Pushed(a)|, |Pushed(b)|, |Pushed(s)|;
      if i < na {
        assert items[i] == a.value;
      } else if i < na + nb {
        assert items[i] == b.value;
      } else if i == na + nb {
        assert items[i] == l;
      } else if i < na + nb + 1 + ns {
        assert items[i] == s.value;
      } else {
        assert items[i] == OverallFinding(rate);
      }
    }
  }

  /** In every report, `high` priority marks exactly the critical section findings and a
   *  non-successful overall finding. */
  lemma {:induction false} PriorityFollowsSeverity(uni: Option<University>, a: Record)
    requires GenerateFeedback(uni, a).Ok?
    ensures var items := GenerateFeedback(uni, a).value.items;
            forall i | 0 <= i < |items| :: PriorityMatchesSeverity(items[i])
  {
    SectionsOf(uni, a);
    AssemblePriorities(IeltsFinding(uni, a).value, TestFinding(uni, a).value, LorFinding(uni, a).value,
                       SopFinding(a).value, CompletionRate(a));
  }

  // ---------------------------------------------------------------------------
  // The completion rate, with `c` categories completed out of `t`.
  // ---------------------------------------------------------------------------

  /** The floor of an exact quotient is integer division. */
  lemma {:induction false} FloorOfQuotient(p: int, q: int)
    requires p >= 0 && q > 0
    ensures (p as real / q as real).Floor == p / q
  {
    var k, m := p / q, p % q;
    assert p == k * q + m;
    assert p as real == k as real * q as real + m as real;
    assert p as real / q as real == k as real + m as real / q as real;
    assert 0.0 <= m as real / q as real < 1.0;
  }

  /** Scaling by a positive factor keeps a strict order. */
  lemma {:induction false} ScaleOrder(x: real, y: real, t: real)
    requires t > 0.0
    ensures x > y <==> x * t > y * t
  {
    if x > y {
      assert (x - y) * t > 0.0;
    } else {
      assert (y - x) * t >= 0.0;
    }
  }

  /** A positive factor cancels. */
  lemma {:induction false} ScaleCancel(x: real, y: real, t: real)
    requires t > 0.0 && x * t == y * t
    ensures x == y
  {
    ScaleOrder(x, y, t);
    ScaleOrder(y, x, t);
  }

  /** The rate as a single quotient: `(c / t) * 100 == 100c / t`. */
  lemma {:induction false} RateTimesCount(c: nat, t: nat)
    requires t > 0
    ensures (c as real / t as real) * 100.0 * t as real == 100.0 * c as real
  {
    var x := c as real / t as real;
    assert x * t as real == c as real;
  }

  /** The rate `(c / t) * 100` exceeds a whole percentage `k` exactly when `100c > kt`. */
  lemma {:induction false} RateAbove(c: nat, t: nat, k: nat)
    requires t > 0
    ensures (c as real / t as real) * 100.0 > k as real <==> 100 * c > k * t
  {
    var rate := (c as real / t as real) * 100.0;
    RateTimesCount(c, t);
    ScaleOrder(rate, k as real, t as real);
    assert k as real * t as real == (k * t) as real;
    IntOrder(100 * c, k * t);
  }

  /** `Above(k)` is the page's comparison `completionRate > k`. */
  lemma {:induction false} AboveIsPercent(r: Rate, k: nat)
    requires r.total > 0
    ensures r.Above(k) <==> r.Percent() > k as real
  {
    RateAbove(r.completed, r.total, k);
  }

  /** The order of integers is the order of their real values. */
  lemma {:induction false} IntOrder(m: int, n: int)
    ensures m as real > n as real <==> m > n
  {
  }

  /** `Math.round(100c/t)` is `(200c + t) / (2t)` in integer division. */
  lemma {:induction false} RoundedRate(c: nat, t: nat)
    requires t > 0
    ensures Round((c as real / t as real) * 100.0) == (200 * c + t) / (2 * t)
  {
    var rate := (c as real / t as real) * 100.0;
    var q := (200 * c + t) as real / (2 * t) as real;
    RateTimesCount(c, t);
    assert q * (2 * t) as real == (200 * c + t) as real;
    assert (rate + 0.5) * (2 * t) as real == (200 * c + t) as real;
    ScaleCancel(rate + 0.5, q, (2 * t) as real);
    FloorOfQuotient(200 * c + t, 2 * t);
  }

  /** `Rounded()` is `Math.round(completionRate)`. */
  lemma {:induction false} RoundedIsRound(r: Rate)
    requires r.total > 0
    ensures r.Rounded() == Round(r.Percent())
  {
    RoundedRate(r.completed, r.total);
  }

  /** The overall finding is the page's, with its thresholds read on the real-valued rate. */
  lemma {:induction false} OverallFindingOfPercent(r: Rate)
    requires r.total > 0
    ensures var p := r.Percent();
            OverallFinding(r) ==
            Finding(Overall,
                    if p > 70.0 then Success else if p > 40.0 then Warning else Critical,
                    if p > 70.0 then Low else High,
                    if p > 70.0 then ReviewAndSubmit else CompleteMissingItems)
  {
    AboveIsPercent(r, 70);
    AboveIsPercent(r, 40);
  }

  /** The overall finding and score of a report, in terms of the page's completion rate. */
  lemma {:induction false} OverallSummary(uni: Option<University>, a: Record)
    requires GenerateFeedback(uni, a).Ok?
    ensures |a| > 0
    ensures var r := GenerateFeedback(uni, a).value;
            var p := CompletionRate(a).Percent();
            && r.overallScore == Round(p)
            && r.items[|r.items| - 1].severity == (if p > 70.0 then Success else if p > 40.0 then Warning else Critical)
            && (r.items[|r.items| - 1].priority == High <==> p <= 70.0)
  {
    ReportOverall(uni, a);
    OverallFindingOfPercent(CompletionRate(a));
    RoundedIsRound(CompletionRate(a));
  }

  /** A report ends with the overall finding for the completion rate, and scores the rounded rate. */
  lemma {:induction false} ReportOverall(uni: Option<University>, a: Record)
    requires GenerateFeedback(uni, a).Ok?
    ensures |a| > 0
    ensures var r := GenerateFeedback(uni, a).value;
            && r.items[|r.items| - 1] == OverallFinding(CompletionRate(a))
            && r.overallScore == CompletionRate(a).Rounded()
  {
    SectionsOf(uni, a);
    AssembleLast(IeltsFinding(uni, a).value, TestFinding(uni, a).value, LorFinding(uni, a).value,
                 SopFinding(a).value, CompletionRate(a));
  }

  /** An assembled report ends with the overall finding for its rate. */
  lemma {:induction false} AssembleLast(ielts: Option<Finding>, test: Option<Finding>, lors: Finding, sop: Option<Finding>, rate: Rate)
    requires rate.total > 0
    ensures var items := Assemble(ielts, test, lors, sop, rate).items;
            items[|items| - 1] == OverallFinding(rate)
  {
  }

  // ---------------------------------------------------------------------------
  // The high-priority count and the letters still needed.
  // ---------------------------------------------------------------------------

  /** 1 for a present critical finding, else 0. */
  function Critical1(f: Option<Finding>): nat {
    if f.Some? && f.value.severity == Critical then 1 else 0
  }

  lemma {:induction false} CountHighAppend(x: seq<Finding>, y: seq<Finding>)
    ensures CountHigh(x + y) == CountHigh(x) + CountHigh(y)
    decreases |x|
  {
    if x != [] {
      assert (x + y)[1..] == x[1..] + y;
      CountHighAppend(x[1..], y);
    } else {
      assert x + y == y;
    }
  }

  lemma {:induction false} CountHighPushed(f: Option<Finding>)
    requires f.Some? ==> f.value.topic != Overall && PriorityMatchesSeverity(f.value)
    ensures CountHigh(Pushed(f)) == Critical1(f)
  {
    if f.Some? {
      assert Pushed(f)[1..] == [];
    }
  }

  /**
   * `recommendedActions` counts the critical IELTS, GRE/GMAT, letters and statement-of-purpose
   * findings, plus the overall finding whenever the rate is at most 70.
   */
  lemma {:induction false} RecommendedActions(uni: Option<University>, a: Record)
    requires GenerateFeedback(uni, a).Ok?
    ensures |a| > 0
    ensures GenerateFeedback(uni, a).value.recommendedActions ==
            Critical1(IeltsFinding(uni, a).value) + Critical1(TestFinding(uni, a).value) +
            Critical1(Some(LorFinding(uni, a).value)) + Critical1(SopFinding(a).value) +
            (if CompletionRate(a).Above(70) then 0 else 1)
  {
    SectionsOf(uni, a);
    AssembleCount(IeltsFinding(uni, a).value, TestFinding(uni, a).value, LorFinding(uni, a).value,
                  SopFinding(a).value, CompletionRate(a));
  }

  /** The `high` count of an assembled report: its critical sections, plus the overall finding at a rate of at most 70. */
  lemma {:induction false} AssembleCount(ielts: Option<Finding>, test: Option<Finding>, lors: Finding, sop: Option<Finding>, rate: Rate)
    requires rate.total > 0
    requires ielts.Some? ==> ielts.value.topic != Overall && PriorityMatchesSeverity(ielts.value)
    requires test.Some? ==> test.value.topic != Overall && PriorityMatchesSeverity(test.value)
    requires lors.topic != Overall && PriorityMatchesSeverity(lors)
    requires sop.Some? ==> sop.value.topic != Overall && PriorityMatchesSeverity(sop.value)
    ensures Assemble(ielts, test, lors, sop, rate).recommendedActions ==
            Critical1(ielts) + Critical1(test) + Critical1(Some(lors)) + Critical1(sop) + (if rate.Above(70) then 0 else 1)
  {
    var o := OverallFinding(rate);
    CountHighPushed(ielts);
    CountHighPushed(test);
    CountHighPushed(Some(lors));
    CountHighPushed(sop);
    assert Pushed(Some(lors)) == [lors];
    assert CountHigh([o]) == if o.priority == High then 1 else 0 by {
      assert [o][1..] == [];
    }
    CountHighAppend(Pushed(ielts), Pushed(test));
    CountHighAppend(Pushed(ielts) + Pushed(test), [lors]);
    CountHighAppend(Pushed(ielts) + Pushed(test) + [lors], Pushed(sop));
    CountHighAppend(Pushed(ielts) + Pushed(test) + [lors] + Pushed(sop), [o]);
  }

  /** With a whole-number letters count, a critical letters finding asks for at least one more. */
  lemma {:induction false} LettersNeeded(uni: Option<University>, a: Record, k: int)
    requires LorFinding(uni, a).Ok? && "count" in a["lors"] && a["lors"]["count"] == Num(k)
    ensures var f := LorFinding(uni, a).value;
            f.severity == Critical <==> k < uni.value.requirements.lors
    ensures var f := LorFinding(uni, a).value;
            f.severity == Critical ==>
              f.action == SecureMoreLors((uni.value.requirements.lors - k) as real) &&
              uni.value.requirements.lors - k >= 1
  {
    var n := uni.value.requirements.lors;
    var current := NumericValue(Field(a, "lors", "count").value);
    assert current == Some(k as real);
    assert Less(current, Some(n as real)) <==> k < n;
  }

  // ---------------------------------------------------------------------------
  // The engine on the catalog's own entries. Every entry meets `ThresholdsConsistent`
  // (`Catalog.CatalogThresholds`), so the lemmas below hold for each of them.
  // ---------------------------------------------------------------------------

  /**
   * No catalog entry defines a GMAT minimum, so an assessment with no GRE score and a
   * GMAT score makes `generateFeedback` throw, whichever entry it is compared with.
   */
  lemma {:induction false} GmatOnlyThrows(u: University, a: Record)
    requires ThresholdsConsistent(u)
    requires "ielts" in a && "gre" in a && "gmat" in a
    requires !UsesGre(a) && Truthy(Field(a, "gmat", "score").value)
    ensures GenerateFeedback(Some(u), a) == Err(GmatRequirementUndefined)
  {
  }

  /**
   * For a record of the page's own shape and a catalog entry, `generateFeedback` throws
   * exactly when the GRE score is empty and the GMAT score is not.
   */
  lemma {:induction false} WellFormedOutcome(u: University, a: Record)
    requires ThresholdsConsistent(u) && WellFormed(a)
    ensures GenerateFeedback(Some(u), a).Err? <==> !UsesGre(a) && a["gmat"]["score"] != Str("")
  {
    WellFormedThrows(u, a);
    FeedbackFailsExactly(Some(u), a);
  }

  /** For a record of the page's shape and a catalog entry, `Throws` reduces to a GMAT score. */
  lemma {:induction false} WellFormedThrows(u: University, a: Record)
    requires ThresholdsConsistent(u) && WellFormed(a)
    ensures "gre" in a && "gmat" in a && "score" in a["gmat"]
    ensures Throws(Some(u), a) <==> !UsesGre(a) && a["gmat"]["score"] != Str("")
  {
    assert "gmat" in ScoredCategories && "lors" in Categories && "sop" in Categories && "ielts" in Categories;
    var gmat := a["gmat"]["score"];
    assert gmat.Str?;
    assert Field(a, "gmat", "score").value == Some(gmat);
  }

  /** Against a catalog entry, an IELTS score at or above the entry's average is a success. */
  lemma {:induction false} IeltsAtAverageSucceeds(u: University, a: Record)
    requires ThresholdsConsistent(u) && "ielts" in a && "score" in a["ielts"]
    requires AtLeast(IeltsUser(a["ielts"]["score"]), Some(u.averageProfile.ielts))
    ensures IeltsFinding(Some(u), a).Ok? && IeltsFinding(Some(u), a).value.Some?
    ensures IeltsFinding(Some(u), a).value.value.severity == Success
  {
    ParseFloatEmpty();
    assert Truthy(Field(a, "ielts", "score").value);
  }

  /** Against a catalog entry, a GRE score at or above the entry's average yields no GRE finding. */
  lemma {:induction false} GreAtAverageIsSilent(u: University, a: Record)
    requires ThresholdsConsistent(u) && "ielts" in a && "gre" in a && UsesGre(a)
    requires AtLeast(ParseValue(a["gre"]["score"]), Some(u.averageProfile.gre))
    ensures TestFinding(Some(u), a) == Ok(None)
  {
  }

  // ---------------------------------------------------------------------------
  // A worked example: Arizona State University (IELTS 6.5 minimum, 7.0 average;
  // GRE 300+ minimum, 315 average; two letters) against IELTS 6.0, GRE 310, one
  // letter and a statement of purpose in progress, nothing completed.
  // ---------------------------------------------------------------------------

  const ExampleRecord: Record := map[
    "gmat" := map["score" := Str(""), "status" := NotStarted],
    "gre" := map["score" := Str("310"), "status" := NotStarted],
    "ielts" := map["score" := Str("6.0"), "status" := NotStarted],
    "toefl" := map["score" := Str(""), "status" := NotStarted],
    "lors" := map["count" := Num(1), "status" := NotStarted],
    "sop" := map["status" := Str("in_progress")],
    "transcripts" := map["status" := NotStarted],
    "workExperience" := map["years" := Str(""), "status" := NotStarted]
  ]

  lemma {:induction false} ExampleRecordFacts(a: Record)
    requires a == ExampleRecord
    ensures |a| > 0
    ensures CompletedCategories(a) == {}
  {
    assert "sop" in a;
    forall f | f in a ensures !IsCompleted(a[f]) {
    }
  }

  lemma {:induction false} ExampleLookups()
    ensures ExampleRecord["ielts"]["score"] == Str("6.0")
    ensures ExampleRecord["gre"]["score"] == Str("310")
    ensures ExampleRecord["lors"]["count"] == Num(1)
    ensures ExampleRecord["sop"]["status"] == Str("in_progress")
  {
  }

  lemma {:induction false} ExampleIelts(u: University, a: Record)
    requires u == ArizonaState && a == ExampleRecord
    ensures IeltsFinding(Some(u), a) == Ok(Some(Finding(IELTS, Critical, High, RetakeIelts)))
  {
    ExampleLookups();
    var s := a["ielts"]["score"].s;
    OneDecimalShape(s);
    OneDecimal(s[0], s[2]);
    var t := u.requirements.ielts;
    OneDecimalShape(t);
    OneDecimal(t[0], t[2]);
  }

  lemma {:induction false} ExampleGreScore(score: string)
    requires score == "310"
    ensures var p := ParseFloat(score); p.Some? && p.value == 310.0
  {
    ParseFloatDigits(score);
    ThreeDigitsValue(score);
  }

  lemma {:induction false} ExampleGreMinimum(gre: string)
    requires gre == "300+"
    ensures var p := RequiredTestScore(gre); p.Some? && p.value == 300.0
  {
    ThreeDigitsPlus(gre);
  }

  lemma {:induction false} ExampleGre(u: University, a: Record)
    requires u == ArizonaState && a == ExampleRecord
    ensures TestFinding(Some(u), a) == Ok(Some(Finding(Exam(GRE), Warning, Medium, ConsiderRetakingTest(GRE))))
  {
    ExampleLookups();
    ExampleGreScore(a["gre"]["score"].s);
    ExampleGreMinimum(u.requirements.gre);
    assert UsesGre(a);
  }

  lemma {:induction false} ExampleLetters(u: University, a: Record)
    requires u == ArizonaState && a == ExampleRecord
    ensures LorFinding(Some(u), a) == Ok(Finding(LORs, Critical, High, SecureMoreLors(1.0)))
  {
    ExampleLookups();
  }

  lemma {:induction false} ExampleSop(a: Record)
    requires a == ExampleRecord
    ensures SopFinding(a) == Ok(Some(Finding(SOP, Warning, Medium, FinalizeSop)))
  {
    ExampleLookups();
  }

  /** With nothing completed the rate is 0. */
  lemma {:induction false} NothingCompleted(a: Record)
    requires |a| > 0 && CompletedCategories(a) == {}
    ensures CompletionRate(a).Percent() == 0.0 && CompletionRate(a).Rounded() == 0
  {
  }

  lemma {:induction false} ExampleAssemble(rate: Rate)
    requires rate.completed == 0 && rate.total > 0
    ensures Assemble(Some(Finding(IELTS, Critical, High, RetakeIelts)),
                     Some(Finding(Exam(GRE), Warning, Medium, ConsiderRetakingTest(GRE))),
                     Finding(LORs, Critical, High, SecureMoreLors(1.0)),
                     Some(Finding(SOP, Warning, Medium, FinalizeSop)), rate) ==
            Report([Finding(IELTS, Critical, High, RetakeIelts),
                    Finding(Exam(GRE), Warning, Medium, ConsiderRetakingTest(GRE)),
                    Finding(LORs, Critical, High, SecureMoreLors(1.0)),
                    Finding(SOP, Warning, Medium, FinalizeSop),
                    Finding(Overall, Critical, High, CompleteMissingItems)],
                   0, 3)
  {
    var items := [Finding(IELTS, Critical, High, RetakeIelts),
                  Finding(Exam(GRE), Warning, Medium, ConsiderRetakingTest(GRE)),
                  Finding(LORs, Critical, High, SecureMoreLors(1.0)),
                  Finding(SOP, Warning, Medium, FinalizeSop),
                  Finding(Overall, Critical, High, CompleteMissingItems)];
    assert Pushed(Some(items[0])) + Pushed(Some(items[1])) + [items[2]] + Pushed(Some(items[3])) + [OverallFinding(rate)] == items by {
      assert OverallFinding(rate) == items[4];
    }
    assert CountHigh(items[4..]) == 1 by { assert items[4..][1..] == []; }
    assert CountHigh(items[3..]) == 1 by { assert items[3..][1..] == items[4..]; }
    assert CountHigh(items[2..]) == 2 by { assert items[2..][1..] == items[3..]; }
    assert CountHigh(items[1..]) == 2 by { assert items[1..][1..] == items[2..]; }
    assert CountHigh(items) == 3;
    assert rate.Rounded() == 0;
  }

  /**
   * The example yields IELTS critical, GRE warning, letters critical (one more needed),
   * statement of purpose warning and overall critical at 0%. Three findings are `high`:
   * the overall one counts, since its rate is at most 70.
   */
  lemma {:induction false} ExampleReport(u: University, a: Record)
    requires u == ArizonaState && a == ExampleRecord
    ensures GenerateFeedback(Some(u), a) ==
            Ok(Report([Finding(IELTS, Critical, High, RetakeIelts),
                       Finding(Exam(GRE), Warning, Medium, ConsiderRetakingTest(GRE)),
                       Finding(LORs, Critical, High, SecureMoreLors(1.0)),
                       Finding(SOP, Warning, Medium, FinalizeSop),
                       Finding(Overall, Critical, High, CompleteMissingItems)],
                      0, 3))
  {
    ExampleIelts(u, a);
    ExampleGre(u, a);
    ExampleLetters(u, a);
    ExampleSop(a);
    ExampleRecordFacts(a);
    NothingCompleted(a);
    ExampleAssemble(CompletionRate(a));
  }
}
