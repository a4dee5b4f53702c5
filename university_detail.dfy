/**
 * The two classifiers of the university page (`src/pages/UniversityDetail.js`): the
 * badge colour of a category, and how a user's stored value compares with a
 * requirement string such as "300+" or "3.0+".
 */
module UniversityDetail {
  import opened Wrappers
  import opened JsText
  import Catalog

  /** `getCategoryColor(category)`: the badge classes of a category label. */
  function GetCategoryColor(category: string): (classes: string)
    ensures category == "Safe" ==> classes == "bg-green-100 text-green-800 border-green-200"
    ensures category == "Moderate" ==> classes == "bg-yellow-100 text-yellow-800 border-yellow-200"
    ensures category == "Ambitious" ==> classes == "bg-red-100 text-red-800 border-red-200"
    ensures category !in {"Safe", "Moderate", "Ambitious"} ==> classes == DefaultColor
  {
    match category
    case "Safe" => "bg-green-100 text-green-800 border-green-200"
    case "Moderate" => "bg-yellow-100 text-yellow-800 border-yellow-200"
    case "Ambitious" => "bg-red-100 text-red-800 border-red-200"
    case _ => DefaultColor
  }

  const DefaultColor: string := "bg-gray-100 text-gray-800 border-gray-200"

  /** The three catalog categories get three different badges, none of them the default. */
  lemma {:induction false} CategoryColorsDistinct(a: Catalog.Category, b: Catalog.Category)
    ensures GetCategoryColor(a.Label()) != DefaultColor
    ensures a != b ==> GetCategoryColor(a.Label()) != GetCategoryColor(b.Label())
  {
  }

  /** The three outcomes of `getRequirementStatus`. */
  datatype Status = Missing | Met | Below

  /** A requirement or user value as the comparison reads it: only digits and `.` kept, then `parseFloat`. */
  function CleanNumber(s: string): Number {
    ParseFloat(StripNonNumeric(s))
  }

  /**
   * `getRequirementStatus(requirement, userValue)`: a falsy value is missing; otherwise
   * the value is met exactly when its cleaned number is at least the requirement's, so
   * a NaN on either side is below.
   */
  function GetRequirementStatus(requirement: string, userValue: Option<Value>): (s: Status)
    ensures !Truthy(userValue) ==> s == Missing
    ensures Truthy(userValue) ==>
              (s == Met <==> AtLeast(CleanNumber(ToDisplayString(userValue.value)), CleanNumber(requirement)))
    ensures Truthy(userValue) && CleanNumber(requirement).None? ==> s == Below
  {
    if !Truthy(userValue) then Missing
    else
      var reqNum := CleanNumber(requirement);
      var userNum := CleanNumber(ToDisplayString(userValue.value));
      if AtLeast(userNum, reqNum) then Met else Below
  }

  /** Cleaning distributes over concatenation. */
  lemma {:induction false} CleanAppend(s: string, t: string)
    ensures StripNonNumeric(s + t) == StripNonNumeric(s) + StripNonNumeric(t)
  {
    if s == [] {
      assert s + t == t;
    } else {
      assert (s + t)[0] == s[0] && (s + t)[1..] == s[1..] + t;
      CleanAppend(s[1..], t);
    }
  }

  /** A string of digits and points is left as it is. */
  lemma {:induction false} CleanKeeps(s: string)
    requires forall i | 0 <= i < |s| :: IsNumeric(s[i])
    ensures StripNonNumeric(s) == s
  {
    if s != [] {
      CleanKeeps(s[1..]);
      assert s == [s[0]] + s[1..];
    }
  }

  /** A string without digits or points cleans to nothing. */
  lemma {:induction false} CleanNothing(s: string)
    requires forall i | 0 <= i < |s| :: !IsNumeric(s[i])
    ensures StripNonNumeric(s) == ""
  {
    if s != [] {
      CleanNothing(s[1..]);
    }
  }

  /** A requirement with no digit and no point ("Not required") is never met by a truthy value. */
  lemma {:induction false} WordRequirementIsBelow(requirement: string, userValue: Option<Value>)
    requires forall i | 0 <= i < |requirement| :: !IsNumeric(requirement[i])
    requires Truthy(userValue)
    ensures GetRequirementStatus(requirement, userValue) == Below
  {
    CleanNothing(requirement);
    ParseFloatEmpty();
  }

  /** A trailing plus sign is deleted by the cleaning. */
  lemma {:induction false} CleanPlus(t: string)
    ensures StripNonNumeric(t + "+") == StripNonNumeric(t)
  {
    CleanAppend(t, "+");
    assert StripNonNumeric("+") == "" by {
      assert "+"[1..] == "";
    }
  }

  /** "NNN+" reads as the number NNN: the trailing plus is deleted before parsing. */
  lemma {:induction false} DigitsPlus(ds: string)
    requires AllDigits(ds) && ds != []
    ensures CleanNumber(ds + "+") == Some(DigitsValue(ds) as real)
  {
    CleanPlus(ds);
    ParseFloatDigits(ds);
  }

  /** "d.d+" reads as the number d.d. */
  lemma {:induction false} DecimalPlus(req: string)
    requires |req| == 4 && IsDigit(req[0]) && req[1] == '.' && IsDigit(req[2]) && req[3] == '+'
    ensures var n := CleanNumber(req); n.Some? && n.value == DigitValue(req[0]) as real + DigitValue(req[2]) as real / 10.0
  {
    var t := req[..3];
    assert req == t + "+";
    CleanPlus(t);
    CleanKeeps(t);
    Catalog.OneDecimalShape(t);
    Catalog.OneDecimal(t[0], t[2]);
  }

  /**
   * A positive integer score against an "NNN+" requirement is met exactly when the
   * score is at least NNN.
   */
  lemma {:induction false} IntegerScoreAgainstPlus(ds: string, n: int)
    requires AllDigits(ds) && ds != [] && n > 0
    ensures GetRequirementStatus(ds + "+", Some(Num(n))) == Met <==> n >= DigitsValue(ds)
    ensures GetRequirementStatus(ds + "+", Some(Num(n))) != Missing
  {
    DigitsPlus(ds);
    CleanedIntString(n);
  }

  /** A digit-string score against an "NNN+" requirement is met exactly when its value is at least NNN. */
  lemma {:induction false} DigitScoreAgainstPlus(ds: string, us: string)
    requires AllDigits(ds) && ds != [] && AllDigits(us) && us != []
    ensures GetRequirementStatus(ds + "+", Some(Str(us))) == Met <==> DigitsValue(us) >= DigitsValue(ds)
  {
    DigitsPlus(ds);
    ParseFloatDigits(us);
  }
}
