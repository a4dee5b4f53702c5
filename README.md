# Admission planner: a verified model of its decision logic

The application helps a student plan applications to universities. The student goes through these steps:

1. Sign in.
2. Fill in a profile.
3. Fill in their requirements.
4. Browse a catalog of eight universities, labelled Safe, Moderate or Ambitious.
5. For each university, record a self-assessment of eight categories: GMAT, GRE, IELTS, TOEFL, letters of recommendation, statement of purpose, transcripts and work experience.
6. Read generated feedback on that assessment.

The pages are React components. This project models the logic underneath them:

- **Feedback engine** (`feedback.dfy`). `generateFeedback` compares one assessment with one catalog entry. Its result is:
  - the findings, in the fixed order IELTS, GRE/GMAT, letters, SOP, Overall;
  - a completion score;
  - the number of high-priority findings.

  The JavaScript throws a `TypeError` in three situations, and each one is an `Err` outcome here:
  - a category the engine reads is missing;
  - the university is undefined;
  - the GMAT branch reads the GMAT minimum, which no catalog entry defines.

  The page computes the completion rate as the real quotient `(completedItems / totalItems) * 100`. The model keeps the two counts and decides the overall finding and the score on them. `Feedback.AboveIsPercent`, `Feedback.RoundedIsRound` and `Feedback.OverallSummary` prove that these decisions are the ones the page makes on the real-valued rate.
- **Step gate** (`auth_guard.dfy`, `profile_check.dfy`, `routes.dfy`).
  - `AuthGuard`, the navigation effect of `useProfileCheck`, and the route table.
  - The gate checks, in order: sign-in, then a stored profile, then stored requirements. It reads only whether two keys are present in `localStorage`.
  - Proved: no route redirects to itself, and one redirect always lands on a page that renders.
- **Completion middleware** (`security_middleware.dfy`). `checkProfileCompletion` and the accessors built on it.
- **Form state** (`self_assessment.dfy`, `requirement_form.dfy`, `profile_creation.dfy`). Each page is a class whose methods update the form record, one field or one list entry at a time. Alongside them:
  - the pure operations those methods are specified by;
  - the rules that decide which profile inputs are required.
- **Catalog** (`catalog.dfy`). The constant catalog, its two queries, and the facts about the data that the feedback engine relies on.
- **University page classifiers** (`university_detail.dfy`). The requirement status and the category badge colour.

Supporting modules:
- `wrappers.dfy`: `Option` and `Result`.
- `js_text.dfy`:
  - the JavaScript conversions the code relies on: `parseFloat`, `parseInt` with no radix (so a `0x` prefix reads base 16), `Number(...)` (which also reads unsigned `0x`, `0o` and `0b` literals), `String(n)`, and the two character-deleting `replace` calls;
  - truthiness;
  - a JavaScript number as an exact `real`, with NaN as `None`, so every comparison with NaN is false.
- `storage.dfy`: `localStorage` as a map from keys to strings. A key is present when it is stored with a non-empty string.

Two consequences of the code are worth stating:

- **Worked example.** The Overall finding is high priority whenever the completion rate is at most 70%, so it counts among the recommended actions. The worked example therefore yields three actions (`Feedback.ExampleReport`).
- **GMAT-only assessment.** The GMAT branch reads `requirements.gmat`, which no catalog entry defines, so a GMAT-only assessment throws (`Feedback.GmatOnlyThrows`).

## Model

| member | source | states |
|---|---|---|
| Feedback.Field | src/pages/AIFeedback.js:30 | Reading `assessmentData[category][key]` fails exactly when the category is missing. A missing key reads as undefined. |
| Feedback.IeltsFinding | src/pages/AIFeedback.js:29-63 | Outcomes of the IELTS section: an IELTS finding exists exactly when the IELTS score is truthy, and the section fails only on a missing category or an undefined university. Tiers: below the minimum is critical/high (retake); otherwise below the average is warning/medium; otherwise, including a NaN score, success/low. |
| Feedback.TestScore | src/pages/AIFeedback.js:66-67 | A non-empty GRE score selects GRE. Otherwise the GMAT score is used, and a missing `gmat` category fails. |
| Feedback.TestFinding | src/pages/AIFeedback.js:65-94 | A test finding needs a truthy score and is never a success. Below the digit-stripped minimum is critical/high. Otherwise below the average is warning/medium, with 650 as the GMAT average. A score clearing both gives no finding. The GMAT path fails when the entry has no GMAT minimum. |
| Feedback.LorFinding | src/pages/AIFeedback.js:96-119 | Fewer letters than `parseInt(lors)` is critical/high, quoting the positive number still needed. Otherwise success/low. |
| Feedback.SopFinding | src/pages/AIFeedback.js:121-140 | `not_started` is critical/high and `in_progress` is warning/medium. Any other status gives no finding. |
| Feedback.CompletedCategories | src/pages/AIFeedback.js:143 | Exactly the categories whose status is `completed`. |
| Feedback.OverallFinding | src/pages/AIFeedback.js:147-154 | Success exactly when the rate exceeds 70%, warning exactly when it exceeds 40% but not 70%. Priority is high exactly when the rate does not exceed 70%, and never medium. |
| Feedback.Assemble | src/pages/AIFeedback.js:147-160 | Between 2 and 5 items. The score is the rounded rate. The action count is the number of high-priority items. |
| Feedback.AssembleLast | src/pages/AIFeedback.js:147-154 | The last item pushed is the overall finding for the rate. |
| Feedback.AssembleCount | src/pages/AIFeedback.js:159 | For sections whose priority follows their severity, the action count is the number of critical sections, plus one when the rate does not exceed 70%. |
| Feedback.GenerateFeedback | src/pages/AIFeedback.js:25-161 | A report has 2 to 5 findings. Its action count is the number of high-priority findings. |
| Feedback.FeedbackFailsExactly | src/pages/AIFeedback.js:25-161 | `generateFeedback` fails exactly when one of the three `TypeError` conditions holds. |
| Feedback.ReportShape | src/pages/AIFeedback.js:27-154 | Findings follow the order IELTS, test, LORs, SOP, Overall, at most one per topic. A LORs finding is always present and Overall is last. |
| Feedback.AssembleInOrder | src/pages/AIFeedback.js:27-154 | Pushing the sections in order yields strictly increasing topic ranks. |
| Feedback.PriorityFollowsSeverity | src/pages/AIFeedback.js:36-153 | Every section finding pairs critical with high, warning with medium and success with low. Overall is the exception: warning is high. |
| Feedback.AssemblePriorities | src/pages/AIFeedback.js:36-153 | When each section finding pairs priority with severity, every item of the assembled report does. |
| Feedback.AboveIsPercent | src/pages/AIFeedback.js:143-148 | Comparing the counts (`100c > kt`) agrees with the page's comparison of `(completedItems / totalItems) * 100` with k. |
| Feedback.RateAbove | src/pages/AIFeedback.js:145-148 | For c completed of t > 0 categories, `(c / t) * 100 > k` exactly when `100c > kt`. |
| Feedback.RoundedRate | src/pages/AIFeedback.js:145-158 | `Math.round((c / t) * 100)` equals `(200c + t) / (2t)` in integer division. |
| Feedback.RoundedIsRound | src/pages/AIFeedback.js:145-158 | The rounded count rate is `Math.round` of the page's real-valued rate. |
| Feedback.OverallFindingOfPercent | src/pages/AIFeedback.js:147-154 | The overall finding is the one the page builds from the real-valued rate: success above 70, warning above 40, otherwise critical; low priority and "review and submit" above 70, otherwise high priority and "complete missing items". |
| Feedback.OverallSummary | src/pages/AIFeedback.js:142-158 | In every report, the score is `Math.round` of `(completedItems / totalItems) * 100`. The last finding is success above 70%, warning above 40% and critical otherwise, and it is high priority exactly when the rate is at most 70%. |
| Feedback.ReportOverall | src/pages/AIFeedback.js:142-158 | Every report ends with the overall finding for the record's completion counts and scores their rounded rate. |
| Feedback.RecommendedActions | src/pages/AIFeedback.js:159 | The action count is the number of critical sections, plus one when the rate does not exceed 70% (the Overall item). |
| Feedback.LettersNeeded | src/pages/AIFeedback.js:97-109 | With k letters, the LORs finding is critical exactly when k < the minimum. In that case it asks for minimum − k ≥ 1 more letters. |
| Feedback.GmatOnlyThrows | src/pages/AIFeedback.js:66-73 | For a catalog entry, an assessment with an empty GRE score and a truthy GMAT score always throws. |
| Feedback.WellFormedOutcome | src/pages/AIFeedback.js:25-161 | For a catalog entry and a record shaped like the page's template, feedback fails exactly when the GRE score is empty and the GMAT score is not. |
| Feedback.WellFormedThrows | src/pages/AIFeedback.js:25-161 | For a catalog entry and a record of the template's shape, of the throwing conditions only the GMAT one can hold: an empty GRE score with a non-empty GMAT score. |
| Feedback.IeltsAtAverageSucceeds | src/pages/AIFeedback.js:35-61 | For a catalog entry, an IELTS score at or above the average is a success, because the minimum never exceeds the average. |
| Feedback.GreAtAverageIsSilent | src/pages/AIFeedback.js:71-93 | For a catalog entry, a GRE score at or above the average produces no test finding. |
| Feedback.ExampleIelts | src/pages/AIFeedback.js:29-63 | In the worked example, IELTS 6.0 against Arizona State's minimum is critical, with a retake advised. |
| Feedback.ExampleGre | src/pages/AIFeedback.js:65-94 | In the worked example, the GRE score clears the minimum but not the average: a warning. |
| Feedback.ExampleLetters | src/pages/AIFeedback.js:96-119 | In the worked example, one more letter is needed: critical. |
| Feedback.ExampleSop | src/pages/AIFeedback.js:121-140 | In the worked example, a statement of purpose in progress is a warning. |
| Feedback.ExampleReport | src/pages/AIFeedback.js:25-161 | The worked example against Arizona State gives: IELTS critical, GRE warning, LORs critical (one more letter), SOP warning, Overall critical, score 0, three high-priority actions. |
| Feedback.FeedbackBg | src/pages/AIFeedback.js:172-179 | Each finding type gets its card classes, and anything else gets the blue default. |
| Feedback.SeverityCardsDistinct | src/pages/AIFeedback.js:172-179 | The three severities get three different cards, none of them the default. |
| Feedback.FeedbackPage.Load | src/pages/AIFeedback.js:13-23 | Loading sets the university by id. When the assessment key is stored, it loads that record and sets the report if `generateFeedback` succeeds; otherwise it changes nothing else. |
| AuthGuard.Guard | src/components/AuthGuard.js:6-31 | Signed out always goes to `/login`. A required missing profile goes to `/profile`. `/requirements` is returned iff requirements are required and missing and the profile check passed. The page renders iff every required check passes. |
| AuthGuard.LoginFirst | src/components/AuthGuard.js:10-12 | An unauthenticated user goes to `/login` whatever the flags and the store hold. |
| AuthGuard.NoFlagsAllowsSignedIn | src/components/AuthGuard.js:30 | With both flags off, every signed-in user gets the page. |
| AuthGuard.Presets | src/components/AuthGuard.js:6-49 | `withFullCheck` behaves as the defaults. `withProfileCheck` differs only for a signed-in user with a profile and no requirements. |
| AuthGuard.Monotone | src/components/AuthGuard.js:6-31 | Storing more keys or clearing a flag never turns a rendered page into a redirect. |
| AuthGuard.OnlyTwoKeys | src/components/AuthGuard.js:16-25 | Stores that agree on the presence of the two keys get the same decision. |
| ProfileCheck.Navigation | src/hooks/useProfileCheck.js:10-34 | The effect navigates nowhere iff the gate renders. When it navigates, the target is the gate's redirect. |
| ProfileCheck.Targets | src/hooks/useProfileCheck.js:11-33 | A run navigates at most once, and not at all exactly when the page is allowed. |
| ProfileCheck.StatusOf | src/hooks/useProfileCheck.js:37-45 | The flags are the truthiness of the user and of the two stored strings. Full completion is their conjunction. |
| ProfileCheck.StatusMatchesGuard | src/hooks/useProfileCheck.js:37-45 | A signed-in user is fully complete iff the full check renders, and has a profile iff the profile check renders. |
| ProfileCheck.UseProfileCheck | src/hooks/useProfileCheck.js:6-46 | One run appends the gate's redirect target, if any, to the navigation history. It returns flags that ignore the requirement flags. |
| ProfileCheck.UseSecurityCheck | src/hooks/useProfileCheck.js:49-51 | The hook with the default flags (true, true). |
| Routes.Visit | src/App.js:26-38 | Public routes always render. Guarded routes render as their gate decides. |
| Routes.PublicRoutes | src/App.js:26-32 | The unguarded routes are exactly the seven public paths. |
| Routes.RequirementsNeedProfile | src/App.js:33-38 | No route requires requirements without requiring a profile. |
| Routes.PathsDistinct | src/App.js:26-38 | No two routes declare the same path. |
| Routes.NoSelfRedirect | src/App.js:33-38 | No route redirects to itself. |
| Routes.RedirectLands | src/components/AuthGuard.js:10-28 | Under flags that ask for requirements only with a profile, a redirect lands on one of three places: `/login`; `/profile` for a signed-in user; or `/requirements` with a profile already stored. |
| Routes.OneHopConverges | src/App.js:33-38 | Following one redirect reaches a declared route that renders. |
| Routes.LandingRenders | src/App.js:26-38 | `/login` always renders, `/profile` renders for a signed-in user, and `/requirements` renders when its gate allows. |
| Routes.AfterProfileSubmit | src/App.js:34 | After a non-empty profile is stored, the requirements page renders. |
| Routes.AfterRequirementsSubmit | src/App.js:35 | With a profile and non-empty requirements stored, the dashboard renders. |
| SecurityMiddleware.CheckProfileCompletion | src/utils/securityMiddleware.js:2-13 | The presence flags are the truthiness of the stored strings, and completeness is their conjunction. A record is parsed exactly when its key is present. |
| SecurityMiddleware.GetProfile | src/utils/securityMiddleware.js:30-33 | Null exactly when no profile is stored. Otherwise, the parsed profile. |
| SecurityMiddleware.GetRequirements | src/utils/securityMiddleware.js:35-38 | Null exactly when no requirements are stored. Otherwise, the parsed requirements. |
| SecurityMiddleware.GetUserData | src/utils/securityMiddleware.js:40-43 | Null unless complete. Otherwise the union of both records, where a requirements field hides the profile field of the same name. |
| SecurityMiddleware.SecureUniversityAccess | src/utils/securityMiddleware.js:16-26 | Incomplete: null and the location becomes `/profile`. Complete: the callback's result, with the location unchanged. |
| SecurityMiddleware.SecureApiCall | src/utils/securityMiddleware.js:47-55 | Incomplete: it fails with "Profile completion required for API access". Complete: the API function's result. |
| SecurityMiddleware.CompleteIffFullCheck | src/utils/securityMiddleware.js:2-9 | Middleware completeness equals the full gate check for a signed-in user. |
| SecurityMiddleware.CompletionIgnoresContents | src/utils/securityMiddleware.js:7-9 | Completeness depends only on whether the two strings are non-empty. |
| SelfAssessment.AssessmentKey | src/pages/SelfAssessment.js:26-45 | The storage key is `assessment_` followed by the university id. |
| SelfAssessment.AssessmentKeyInjective | src/pages/SelfAssessment.js:26-45 | Different universities get different storage keys. |
| SelfAssessment.Update | src/pages/SelfAssessment.js:32-40 | Sets `record[field][key]`. Every other category, and every other key of the sub-record, is unchanged. |
| SelfAssessment.DefaultRecordShape | src/pages/SelfAssessment.js:10-19 | The template has exactly the eight categories, all `not_started`, with zero letters. |
| SelfAssessment.DefaultWellFormed | src/pages/SelfAssessment.js:10-19 | The template record is well formed: every status is valid, every scored category holds a text score, the letters count is valid and the years are text. |
| SelfAssessment.UpdateKeepsCategories | src/pages/SelfAssessment.js:33-38 | Updating an existing category keeps the set of categories. |
| SelfAssessment.UpdatesCommute | src/pages/SelfAssessment.js:33-38 | Updates of different (field, key) pairs commute. |
| SelfAssessment.LastWriteWins | src/pages/SelfAssessment.js:33-38 | Of two updates to the same pair, the last one wins. |
| SelfAssessment.OfferedInputKeepsShape | src/pages/SelfAssessment.js:114-277 | Every input the page offers keeps a well-formed record well formed. |
| SelfAssessment.OfferedInputSkipsToefl | src/pages/SelfAssessment.js:114-277 | No offered input touches the TOEFL category. |
| SelfAssessment.ReplayKeepsShape | src/pages/SelfAssessment.js:114-277 | Any sequence of offered inputs keeps the record well formed. |
| SelfAssessment.AssessmentForm.constructor | src/pages/SelfAssessment.js:9-19 | The form starts with no university and the template record. |
| SelfAssessment.AssessmentForm.Load | src/pages/SelfAssessment.js:21-30 | Sets the university by id. A stored assessment replaces the whole record; otherwise the record is kept. |
| SelfAssessment.AssessmentForm.HandleInputChange | src/pages/SelfAssessment.js:32-40 | The record becomes the update of the old record. |
| SelfAssessment.AssessmentForm.ChooseLorCount | src/pages/SelfAssessment.js:199-208 | An option 0..4, formatted and read back with `parseInt`, stores that count. |
| SelfAssessment.AssessmentForm.HandleSubmit | src/pages/SelfAssessment.js:42-47 | The record is stored under its key and other keys are unchanged. The next page is `/feedback/<id>`. |
| Catalog.WithCategory | src/data/mockUniversities.js:222-224 | Keeps exactly the entries with the category, and never more entries than it is given. |
| Catalog.WithCategoryCounts | src/data/mockUniversities.js:222-224 | Every occurrence of an entry with the category is kept, and no entry with another category. |
| Catalog.WithCategoryKeepsOrder | src/data/mockUniversities.js:222-224 | The filtered list is a subsequence of the catalog, so entries keep their catalog order. |
| Catalog.GetUniversitiesByCategory | src/data/mockUniversities.js:219-226 | Each list holds exactly the catalog entries with that label. |
| Catalog.FindById | src/data/mockUniversities.js:230 | A found entry is in the list and has the number as id. Nothing is found exactly when no id equals the number. |
| Catalog.FindByIdFirst | src/data/mockUniversities.js:230 | When entry k is the first whose id equals the number, `find` returns entry k. |
| Catalog.GetUniversityById | src/data/mockUniversities.js:228-231 | An entry whose id equals `parseInt(id)`, or undefined exactly when none does. |
| Catalog.CatalogIds | src/data/mockUniversities.js:3-217 | Eight entries with ids 1 to 8 in order. |
| Catalog.CatalogIdsDistinct | src/data/mockUniversities.js:3-217 | The ids are distinct. |
| Catalog.LookupById | src/data/mockUniversities.js:228-231 | The id string of k finds entry k for 1..8 and nothing otherwise. |
| Catalog.LookupNumber | src/data/mockUniversities.js:230 | The number k finds entry k for 1..8, and no other number finds anything. |
| Catalog.LookupByHexId | src/data/mockUniversities.js:230 | `parseInt` reads a `0x` id in base 16, so "0x" followed by one hexadecimal digit finds the entry with that id, or nothing when no entry has it. |
| JsText.ParseIntHex | src/data/mockUniversities.js:230 | `parseInt` with no radix reads "0x" or "0X" followed by hexadecimal digits as their base-16 value. |
| JsText.ToNumberHex | src/pages/AIFeedback.js:100 | The number conversion `<` applies to a string reads "0x" or "0X" followed by hexadecimal digits as their base-16 value. |
| JsText.ToNumberSignedHex | src/pages/AIFeedback.js:100 | A sign before a `0x` literal makes that conversion NaN. |
| Catalog.LookupUnique | src/data/mockUniversities.js:228-231 | At most one entry has the id that was found. |
| Catalog.CatalogThresholds | src/data/mockUniversities.js:14-215 | In every entry the digit-stripped GRE minimum is positive and at most the GRE average. The IELTS minimum is positive and at most the IELTS average. No GMAT minimum is defined. |
| Catalog.CatalogEntryThresholds | src/data/mockUniversities.js:14-215 | Each of the eight entries has consistent GRE and IELTS thresholds and no GMAT minimum. |
| Catalog.EntryThresholds | src/data/mockUniversities.js:14-29 | A GRE minimum of the form "NNN+" at most the average, an IELTS minimum of the form "D.D" at most the average, and no GMAT minimum make an entry consistent. |
| Catalog.ThreeDigitsPlus | src/data/mockUniversities.js:16 | A GRE minimum "NNN+" stripped of non-digits parses as the number NNN. |
| Catalog.CatalogPartition | src/data/mockUniversities.js:219-226 | The three lists have sizes 2, 3 and 3 and together are exactly the catalog. |
| Catalog.CategoryBlock | src/data/mockUniversities.js:219-226 | Each category's list is its contiguous block of the catalog. |
| Catalog.MatchScoresOrdered | src/data/mockUniversities.js:9-195 | Every Safe match score exceeds every Moderate one, and every Moderate one exceeds every Ambitious one. |
| Catalog.BlockScoresOrdered | src/data/mockUniversities.js:9-195 | The same order, on the three contiguous blocks of the catalog. |
| UniversityDetail.GetCategoryColor | src/pages/UniversityDetail.js:45-52 | Each category label gets its badge classes, and anything else gets the gray default. |
| UniversityDetail.CategoryColorsDistinct | src/pages/UniversityDetail.js:45-52 | The three categories get three different badges, none of them the default. |
| UniversityDetail.GetRequirementStatus | src/pages/UniversityDetail.js:54-63 | Falsy is missing. Otherwise met exactly when the cleaned value ≥ the cleaned requirement, and below when the requirement cleans to NaN. |
| UniversityDetail.WordRequirementIsBelow | src/pages/UniversityDetail.js:58-62 | A requirement with no digit or point, such as "Not required", is below for every truthy value. |
| UniversityDetail.DigitsPlus | src/pages/UniversityDetail.js:58 | "300+" reads as 300. |
| UniversityDetail.DecimalPlus | src/pages/UniversityDetail.js:58 | "3.0+" reads as 3.0. |
| UniversityDetail.IntegerScoreAgainstPlus | src/pages/UniversityDetail.js:54-63 | A positive integer score against "NNN+" is met exactly when it is at least NNN. |
| UniversityDetail.DigitScoreAgainstPlus | src/pages/UniversityDetail.js:54-63 | A digit-string score against "NNN+" is met exactly when its value is at least NNN. |
| RequirementForm.Without | src/pages/RequirementForm.js:29 | Removes every occurrence of the priority and keeps every other one. |
| RequirementForm.ToggleFlips | src/pages/RequirementForm.js:25-32 | Toggling flips the toggled priority's membership and no other. |
| RequirementForm.ToggleKeepsOrder | src/pages/RequirementForm.js:28-30 | The other priorities keep their relative order. |
| RequirementForm.ToggleDistinct | src/pages/RequirementForm.js:28-30 | A duplicate-free list stays duplicate-free. |
| RequirementForm.ToggleTwice | src/pages/RequirementForm.js:28-30 | Toggling an absent priority twice restores the list. Toggling a present one twice moves it to the end. |
| RequirementForm.Form.constructor | src/pages/RequirementForm.js:7-15 | Six empty text fields and no priorities. |
| RequirementForm.Form.HandleInputChange | src/pages/RequirementForm.js:17-23 | Only the named field changes. |
| RequirementForm.Form.HandlePriorityChange | src/pages/RequirementForm.js:25-32 | Only the priority list changes, and it becomes its toggle. |
| RequirementForm.Form.HandleSubmit | src/pages/RequirementForm.js:34-39 | The form is stored under `userRequirements`. The next page is `/dashboard`. |
| ProfileCreation.InitialData | src/pages/ProfileCreation.js:7-53 | The form has exactly the text, checkbox and two list fields, and each list starts with one empty entry. |
| ProfileCreation.InitialDefaults | src/pages/ProfileCreation.js:7-53 | Every checkbox starts unchecked, the currency starts as USD, and every other text field starts empty. |
| ProfileCreation.ReplaceAt | src/pages/ProfileCreation.js:74 | Same length, with only the given position replaced. |
| ProfileCreation.RemoveAt | src/pages/ProfileCreation.js:88 | Deletes exactly the given position, keeping the order of the rest. An out-of-range index changes nothing. |
| ProfileCreation.InputChanged | src/pages/ProfileCreation.js:55-69 | A checkbox stores `checked` and any other input its text. No other field changes. |
| ProfileCreation.ArrayChanged | src/pages/ProfileCreation.js:71-76 | Only the indexed entry of the list changes, and the length is kept. |
| ProfileCreation.ArrayAdded | src/pages/ProfileCreation.js:78-83 | An empty entry is appended to the list and nothing else changes. |
| ProfileCreation.ArrayRemoved | src/pages/ProfileCreation.js:85-90 | The indexed entry is deleted and the rest keep their order. |
| ProfileCreation.OutOfRangeIsNoOp | src/pages/ProfileCreation.js:71-90 | An index outside the list changes nothing, for both change and removal. |
| ProfileCreation.RemoveShifts | src/pages/ProfileCreation.js:88 | Removal shortens the list by one and shifts the later entries down. |
| ProfileCreation.InitialShaped | src/pages/ProfileCreation.js:12-13 | Both lists start non-empty. |
| ProfileCreation.OfferedKeepsShape | src/pages/ProfileCreation.js:196-268 | The edits the page offers keep both lists non-empty and the majors at most three. "Remove" is offered only past the first entry, and "Add another major" only below three. |
| ProfileCreation.EnglishField | src/pages/ProfileCreation.js:434-512 | Each of the four test choices shows its own score or reason field, and no other choice shows one. |
| ProfileCreation.RequiredFields | src/pages/ProfileCreation.js:139-525 | The fixed inputs are always required. The GPA value and scale are required iff the GPA status is `known`. The language preference is required iff some preferred country is Germany, France, the Netherlands or Switzerland. |
| ProfileCreation.OneEnglishField | src/pages/ProfileCreation.js:434-512 | Exactly one English field is required once a test type is chosen, and none before. |
| ProfileCreation.Form.constructor | src/pages/ProfileCreation.js:7-53 | The form starts as the initial record. |
| ProfileCreation.Form.HandleInputChange | src/pages/ProfileCreation.js:55-69 | The form becomes the input change of the old form. |
| ProfileCreation.Form.HandleArrayChange | src/pages/ProfileCreation.js:71-76 | The form becomes the entry change of the old form. |
| ProfileCreation.Form.AddArrayField | src/pages/ProfileCreation.js:78-83 | The form becomes the old form with an entry appended. |
| ProfileCreation.Form.RemoveArrayField | src/pages/ProfileCreation.js:85-90 | The form becomes the old form with the entry removed. |
| ProfileCreation.Form.HandleSubmit | src/pages/ProfileCreation.js:92-97 | The form is stored under `userProfile`. The next page is `/requirements`. |
| Storage.SetItem | src/pages/ProfileCreation.js:95 | The key holds the new text and every other key is unchanged. |

## Left out

- **Page rendering.** All JSX, icons, Tailwind classes other than the two colour switches, and page copy. This includes the titles and message wording of findings: a finding keeps its topic, severity, priority and action.
- **`getFeedbackIcon` and `getStatusIcon`.** They return React elements, which carry no behaviour.
- **Sign-in.** Supabase authentication is an asynchronous network service. The signed-in user enters the model as a boolean.
- **React timing.** `useState`/`useEffect` scheduling, `navigate`, `<Navigate>` and `window.location` are modelled as returned targets, a navigation history and a location object.
- **Real storage and JSON.** `localStorage` is a map from keys to strings.
  - `JSON.parse` is the `parse` parameter of the middleware. It returns an object, so a stored string that parses to a non-object, and malformed JSON throwing, are not modelled.
  - `JSON.stringify` is the `serialized` parameter of the submits.
  - The saved assessments are a typed map from key to record.
- **Floating point.** Numbers are exact reals. Every value in the application is a short decimal, so IEEE-754 rounding does not arise.
- **Number and string subsets.**
  - A stored number is an integer (`Num`).
  - `parseFloat` and `Number(...)` do not accept exponents or `Infinity`.
- **Asynchrony.** `secureApiCall`'s `await`, and the side effects of the callbacks, are not modelled. The model does not observe whether the callback is invoked.
- **`console.warn`.** Not modelled.
- **Route patterns.** Routes are compared by their declared pattern, so parameter matching such as `/university/:id` against `/university/3` is not modelled.
- RequirementForm.Form.HandleInputChange: a text input named `priorities` would replace the priority list. The page has no such input, so `Valid` is kept only for the other names.
- **Browser validation.** The model states which inputs are `required`. The browser's refusal to submit an incomplete form is not modelled, and neither are the `min`/`max` bounds of the number inputs.
- **Other pages.** Dashboard, landing, about, test and password pages are display only. `src/config/environment.js` reads the process environment.
