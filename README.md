# AI Counsellor: fit scoring, tiering and the list rules around them

AI Counsellor helps a student choose universities to study abroad. A profile
holds the student's academic and exam scores, budget and statement-of-purpose
status. A university holds its requirements, cost, ranking and acceptance rate.
This project models the program's decision logic in Dafny and proves
properties of it:

- the weighted **fit score** of a profile against a university, and the
  Safe / Target / Dream **tier**. There is one copy on the server and one
  in the client; both are modelled as imperative methods proved equal to one
  specification function;
- the server's **recommendation list**: each university is annotated with
  its score, tier and shortlist/lock flags, then sorted by descending score
  in place. The model also covers the **shortlist / lock / unlock** rules
  over the application table;
- the client's **profile strength** rubric, with its three labels, and the
  **journey stage**;
- the **discovery page**: the multi-criteria filter, the multi-key sort
  comparator, the category toggle, the sort-header toggle and the score
  colour;
- the client's optimistic **list updates** after shortlist, lock and unlock;
- the **application guidance page**: the locked-only list, the checklist
  toggles, add and delete, and the two progress bars;
- the server's **partial update** of an application and its task/document
  **aggregation**;
- the **onboarding wizard**: its step machine, the country toggle and the
  ranges of the form schema.

JavaScript values are modelled explicitly (module `Js`), since truthiness and
coercion decide which rubric parts count:

- `0`, `null`, `undefined`, `""` and NaN are falsy;
- `null` and `""` convert to 0;
- `parseFloat` of a non-numeric string is NaN;
- every comparison with NaN is false.

`Math.round(100 * score / maxScore)` is stated in integers as
`(200 * score + maxScore) / (2 * maxScore)`, because the score and the
maximum are whole numbers.

Files:

| file | module | models |
|---|---|---|
| js.dfy | `Js` | the JavaScript values, coercions, comparisons and string helpers |
| rubric.dfy | `Rubric` | one rubric component (earned, weight) and the rounded percentage |
| records.dfy | `Wrappers`, `Records` | `Option`/`Result`; universities, profiles, applications, tasks, documents, list entries |
| fit_rubric.dfy | `FitRubric` | the fit score as a specification function and its properties |
| sequences.dfy | `Sequences` | filter, subsequence, toggle, the stable sort and its in-place version on an array |
| store.dfy | `Store` | the database tables as a class with seq fields, and the lookups the routes use |
| university_routes.dfy | `UniversityRoutes` | backend/routes/university.js |
| university_context.dfy | `UniversityContext` | frontend/src/contexts/UniversityContext.jsx |
| profile_context.dfy | `ProfileContext` | frontend/src/contexts/ProfileContext.jsx |
| university_discovery.dfy | `UniversityDiscovery` | frontend/src/pages/UniversityDiscovery.jsx |
| application_routes.dfy | `ApplicationRoutes` | backend/routes/application.js |
| application_guidance.dfy | `ApplicationGuidance` | frontend/src/pages/ApplicationGuidance.jsx |
| onboarding.dfy | `Onboarding` | frontend/src/pages/Onboarding.jsx |

Where the code and its documentation disagree, the model follows the code:

- The validators declared on `PUT /applications/:id` are never consulted.
  An unknown status is therefore rejected only by the database's enum column,
  which the model represents as a server error.
- The `PUT /applications/:id` validators do not check the deadline either.
  The `deadline` column is a DATE, so a deadline that names no date is also
  rejected by the database and answered with a server error. A deadline that
  is accepted is stored as a date, and the row comes back with that date
  rather than the request's string. Date parsing is the parameter `asDate`.
- TOEFL, GRE and GMAT are compared without parsing. On the profile they are
  integer columns, so the model keeps them as numbers or `null`. The
  university's requirements are a JSON column, where any of them may be a
  string, so every requirement is a general `Js.Value`. The comparison
  `profile.toefl >= requirements.toefl` converts such a string to a number.

## Model

| member | source | states |
|---|---|---|
| Rubric.Percent | backend/routes/university.js:312 | `Math.round(100*score/max)` in integers: within half a point of the exact ratio, at most 100 when score <= max, 0 when max is 0 |
| Rubric.PercentMonotone | backend/routes/university.js:312 | a larger score never rounds to a smaller percentage |
| Rubric.PercentEnds | frontend/src/pages/ApplicationGuidance.jsx:166-171 | full marks round to 100 and none to 0 |
| FitRubric.Credit | backend/routes/university.js:271-277 | a component's credit (full, half within the margin, else 0) never exceeds its weight |
| FitRubric.GpaPart | backend/routes/university.js:271-277 | the GPA part is sound and weighs 40 exactly when both GPAs are truthy |
| FitRubric.EnglishPart | backend/routes/university.js:280-290 | the English part is sound and weighs 30 exactly when the IELTS pair or the TOEFL pair is present |
| FitRubric.ExamPart | backend/routes/university.js:293-301 | the graduate exam part is sound and weighs 20 exactly when the GRE pair or the GMAT pair is present |
| FitRubric.BudgetCredit | backend/routes/university.js:304-310 | the budget credit is 0, 5 or 10 |
| FitRubric.BudgetPart | backend/routes/university.js:304-310 | the budget part is sound and weighs 10 exactly when budget and cost are truthy |
| FitRubric.Score | backend/routes/university.js:267-310 | the earned points never exceed the active maximum |
| FitRubric.MaxScore | backend/routes/university.js:267-310 | the active maximum is at most 100 |
| FitRubric.FitScore | backend/routes/university.js:264-313 | the score is in [0,100]; 0 without a university or profile; 0 when no component is active |
| FitRubric.IeltsTakesPrecedence | backend/routes/university.js:280-290 | when the IELTS pair is present, the TOEFL score cannot change the English part or the fit score |
| FitRubric.ToeflWithoutIeltsRequirement | backend/routes/university.js:280-290 | without an IELTS requirement, the student's IELTS cannot change the score |
| FitRubric.GreTakesPrecedence | backend/routes/university.js:293-301 | when the GRE pair is present, the GMAT score cannot change the exam part or the fit score |
| FitRubric.GmatWithoutGreRequirement | backend/routes/university.js:293-301 | without a GRE requirement, the student's GRE cannot change the score |
| FitRubric.GpaOnlyScore | backend/routes/university.js:271-277 | with only GPA data the score is 100 at or above the requirement, 50 within 0.5 below it, else 0 |
| FitRubric.BudgetOnlyScore | backend/routes/university.js:304-310 | with only budget data the score is 100 when the cost is within budget, 50 within 1.2 times the budget, else 0 |
| FitRubric.FullMarks | backend/routes/university.js:264-313 | meeting every present requirement gives 100 |
| FitRubric.CreditMonotone | backend/routes/university.js:271-301 | a higher student value never earns less credit |
| FitRubric.BudgetCreditMonotone | backend/routes/university.js:304-310 | a higher budget never earns less budget credit |
| FitRubric.DominanceRaisesScore | backend/routes/university.js:264-313 | when every component of one profile is as active and earns no less than another's, its fit score is no lower |
| FitRubric.RaisingOneValueNeverLowers | backend/routes/university.js:264-313 | raising a present (truthy) profile number to a larger present value, other inputs fixed, never lowers the fit score |
| Sequences.Filter | frontend/src/pages/UniversityDiscovery.jsx:91-126 | `filter` keeps only input elements that pass, and is no longer than its input |
| Sequences.FilterComplete | frontend/src/pages/UniversityDiscovery.jsx:91-126 | an element is kept exactly when it is in the input and passes |
| Sequences.FilterMembers | frontend/src/pages/ApplicationGuidance.jsx:58 | the filtered list holds exactly the input elements that pass |
| Sequences.FilterAllPass | frontend/src/pages/ApplicationGuidance.jsx:168 | when every element passes, the filter keeps the whole list |
| Sequences.FilterNonePass | frontend/src/pages/ApplicationGuidance.jsx:168 | when no element passes, the filter keeps nothing |
| Sequences.FilterSubsequence | frontend/src/pages/ApplicationGuidance.jsx:58 | the kept elements keep their relative order |
| Sequences.Toggle | frontend/src/pages/UniversityDiscovery.jsx:74-80 | remove-if-present / append-if-absent flips the membership of that one value and of no other |
| Sequences.ToggleTwice | frontend/src/pages/Onboarding.jsx:124-131 | toggling twice restores every membership |
| Sequences.FilterOut | frontend/src/pages/Onboarding.jsx:127-128 | `filter(c => c !== x)` keeps every element except `x` |
| Sequences.InsertPermutes | backend/routes/university.js:138 | inserting adds exactly one occurrence of the element |
| Sequences.SortPermutes | backend/routes/university.js:138 | sorting is a permutation, whatever the comparator |
| Sequences.SortSorted | backend/routes/university.js:138 | under a total preorder, the sort's output is ordered |
| Sequences.SortStable | backend/routes/university.js:138 | elements the comparator cannot tell apart keep their input order |
| Sequences.SortInPlace | backend/routes/university.js:138 | sorting the array in place leaves it holding the sort of its old contents |
| Store.FindProfile | backend/routes/university.js:98-106 | `Profile.findOne({ where: { userId } })`: a row with that user, the first one, or none |
| Store.FindApplication | backend/routes/university.js:166-171 | the row of a (profile, university) pair, or none when the pair has no row |
| Store.FindApplicationById | backend/routes/application.js:65-74 | the row with that id owned by the profile, or none |
| Store.KeyDetermines | backend/models/Application.js:28-49 | in a table that the routes keep `Unique`, a (profile, university) pair names one row |
| Store.UnknownUniversityHasNoRow | backend/models/Application.js:19-26 | under the foreign key on `universityId`, a university that does not exist has no application row |
| UniversityRoutes.CalculateFitScore | backend/routes/university.js:264-313 | the server's accumulating loop computes exactly the fit score |
| UniversityRoutes.CategorizeUniversity | backend/routes/university.js:316-320 | Safe iff >= 80, Target iff 60 <= s < 80, Dream iff < 60 |
| UniversityRoutes.CategoryMonotone | backend/routes/university.js:316-320 | a higher score is never in a lower tier |
| UniversityRoutes.FindByUniversity | backend/routes/university.js:121 | the user's application for a university exists exactly when some row names it |
| UniversityRoutes.OwnedBy | backend/routes/university.js:110 | the profile's applications are exactly the rows it owns |
| UniversityRoutes.Annotate | backend/routes/university.js:116-131 | an entry carries the university, its fit score and tier; shortlisted iff an application exists; locked only if shortlisted |
| UniversityRoutes.Annotated | backend/routes/university.js:116-131 | the annotation is applied position by position |
| UniversityRoutes.ByScorePreorder | backend/routes/university.js:138 | `(b.fitScore or 0) - (a.fitScore or 0)` is a total preorder |
| UniversityRoutes.RecommendationsSpec | backend/routes/university.js:116-138 | the recommendations permute the annotated universities, in non-increasing `fitScore or 0`, each entry with its flags as derived |
| UniversityRoutes.RecommendationsStable | backend/routes/university.js:138 | universities with equal scores keep the order of the university table |
| UniversityRoutes.EquivalentMeansSameScore | backend/routes/university.js:138 | two entries the comparator cannot tell apart have the same score |
| UniversityRoutes.Recommend | backend/routes/university.js:93-153 | 404 without a profile; otherwise the annotated list sorted in place is exactly the recommendations |
| UniversityRoutes.RankExample | backend/routes/university.js:138 | scores 70, 70, 90 come out as 90 first, then the two 70s in input order |
| UniversityRoutes.FindOrCreate | backend/routes/university.js:166-171 | creates exactly when the pair has no row; the returned row is the pair's and is in the table |
| UniversityRoutes.AppendKeepsUnique | backend/routes/university.js:166-171 | creating a row for a pair without one keeps the table unique, and makes that row the pair's |
| UniversityRoutes.ShortlistIdempotent | backend/routes/university.js:166-173 | a second shortlisting creates nothing and returns the same row |
| UniversityRoutes.LockInTable | backend/routes/university.js:197-210 | locking never drops rows |
| UniversityRoutes.LockLeavesOneLockedRow | backend/routes/university.js:197-210 | after a lock the pair has exactly one row, and it is locked; other rows and other fields are unchanged |
| UniversityRoutes.LockIdempotent | backend/routes/university.js:197-210 | locking twice is locking once |
| UniversityRoutes.UnlockInTable | backend/routes/university.js:241-247 | unlocking keeps the table's length |
| UniversityRoutes.UnlockOnlyClearsLock | backend/routes/university.js:241-247 | unlocking clears only the pair's `isLocked`, and afterwards no row of the pair is locked |
| UniversityRoutes.LockThenUnlock | backend/routes/university.js:189-261 | after lock then unlock the pair has a row (still shortlisted) that is unlocked |
| UniversityRoutes.Shortlist | backend/routes/university.js:158-184 | 404 "Profile not found" without a profile; 500 with nothing stored when the id names no university (the foreign key); otherwise find-or-create, with the created/already message, keeping the table unique and every row pointing at a university |
| UniversityRoutes.Lock | backend/routes/university.js:189-228 | 404 without a profile; 500 with no row and no stage change when the id names no university (the foreign key); otherwise the pair's row is locked (created if needed) and the profile's stage becomes 'Preparing Applications' |
| UniversityRoutes.Unlock | backend/routes/university.js:233-261 | 404 without a profile; otherwise only the pair's lock is cleared |
| UniversityContext.CalculateFitScore | frontend/src/contexts/UniversityContext.jsx:129-178 | the client's copy computes the same fit score as the server's for every input |
| UniversityContext.CategorizeUniversity | frontend/src/contexts/UniversityContext.jsx:181-187 | the client's tier is the server's bands applied to the fit score; Dream without data |
| UniversityContext.MarkShortlisted | frontend/src/contexts/UniversityContext.jsx:65-69 | only entries of that university become shortlisted; length, order and the other entries are unchanged |
| UniversityContext.MarkLocked | frontend/src/contexts/UniversityContext.jsx:89-93 | only entries of that university become locked and shortlisted |
| UniversityContext.MarkUnlocked | frontend/src/contexts/UniversityContext.jsx:113-117 | only entries of that university lose their lock |
| UniversityContext.MarksKeepInvariant | frontend/src/contexts/UniversityContext.jsx:65-117 | every update keeps "locked implies shortlisted" and the length, and leaves every entry's university, score and tier alone |
| UniversityContext.MarksIdempotent | frontend/src/contexts/UniversityContext.jsx:65-117 | applying an update twice equals applying it once |
| UniversityContext.LockThenUnlock | frontend/src/contexts/UniversityContext.jsx:89-117 | unlock keeps the shortlist flag; lock then unlock equals shortlist then unlock |
| UniversityContext.ErrorText | frontend/src/contexts/UniversityContext.jsx:30 | the server's message when it has one, else the fallback |
| UniversityContext.UniversityState.GetUniversities | frontend/src/contexts/UniversityContext.jsx:20-36 | success replaces the list; failure keeps it and records 'Failed to fetch universities' or the server's message |
| UniversityContext.UniversityState.GetRecommendations | frontend/src/contexts/UniversityContext.jsx:38-55 | success sets both lists to the recommendations; failure records the message |
| UniversityContext.UniversityState.ShortlistUniversity | frontend/src/contexts/UniversityContext.jsx:57-78 | success applies the shortlist update; failure leaves the list and records the message |
| UniversityContext.UniversityState.LockUniversity | frontend/src/contexts/UniversityContext.jsx:81-102 | success applies the lock update; failure leaves the list |
| UniversityContext.UniversityState.UnlockUniversity | frontend/src/contexts/UniversityContext.jsx:105-126 | success applies the unlock update; failure leaves the list |
| ProfileContext.GpaTier | frontend/src/contexts/ProfileContext.jsx:76-83 | the GPA tier weighs 40 exactly when the GPA is truthy, and then earns at least 10 |
| ProfileContext.ExamTier | frontend/src/contexts/ProfileContext.jsx:86-91 | the English tier weighs 30 exactly when IELTS or TOEFL is truthy |
| ProfileContext.GraduateTier | frontend/src/contexts/ProfileContext.jsx:94-98 | the graduate tier weighs 20 exactly when GRE or GMAT is truthy |
| ProfileContext.SopTier | frontend/src/contexts/ProfileContext.jsx:101-105 | the SOP tier weighs 10 exactly when a status is present |
| ProfileContext.ProfileStrength | frontend/src/contexts/ProfileContext.jsx:69-115 | `overall` is in [0,100]; a null profile gives 0, 'Not specified', 'Not started', 'Not started' |
| ProfileContext.CalculateProfileStrength | frontend/src/contexts/ProfileContext.jsx:69-115 | the accumulating code computes exactly the profile strength |
| ProfileContext.StrengthOfTally | frontend/src/contexts/ProfileContext.jsx:107-115 | the strength is the rounded tally of the four tiers with the three labels |
| ProfileContext.NothingToScore | frontend/src/contexts/ProfileContext.jsx:70-113 | a profile with nothing scorable gets the same result as a null one |
| ProfileContext.AcademicsLabelMatchesTier | frontend/src/contexts/ProfileContext.jsx:76-111 | 'Strong' iff 40 points, 'Average' iff 30, 'Weak' iff 20 or 10, 'Not specified' iff no GPA |
| ProfileContext.ExamsLabelMatchesTier | frontend/src/contexts/ProfileContext.jsx:86-112 | the unguarded label names the exam tier exactly, in all four cases |
| ProfileContext.SopLabelMatchesTier | frontend/src/contexts/ProfileContext.jsx:101-113 | 'Ready' iff 10, 'Draft' iff 5, 'Not started' iff 0 |
| ProfileContext.SopCaseInsensitive | frontend/src/contexts/ProfileContext.jsx:101-105 | 'Ready', 'READY' and 'Completed' all earn 10 of 10 |
| ProfileContext.GpaTierMonotone | frontend/src/contexts/ProfileContext.jsx:76-83 | a higher (non-zero) GPA never earns fewer academic points |
| ProfileContext.GetCurrentStage | frontend/src/contexts/ProfileContext.jsx:117-122 | 'Building Profile' when null or incomplete; otherwise the stored stage, by default 'Discovering Universities'; never empty |
| UniversityDiscovery.FilteredUniversities | frontend/src/pages/UniversityDiscovery.jsx:91-126 | no universities give the empty list |
| UniversityDiscovery.FilterSpec | frontend/src/pages/UniversityDiscovery.jsx:91-126 | the filtered list is an ordered subsequence; an entry is kept iff it passes; kept entries satisfy tier, country, cost, ranking, acceptance and search |
| UniversityDiscovery.NoFilterKeepsAll | frontend/src/pages/UniversityDiscovery.jsx:91-126 | with no filter set and every tier selected, nothing is dropped |
| UniversityDiscovery.MatchesAt | frontend/src/pages/UniversityDiscovery.jsx:118-123 | search matches iff the lower-cased query occurs at some offset of the lower-cased name, country or city |
| UniversityDiscovery.FieldNamed | frontend/src/pages/UniversityDiscovery.jsx:131-155 | an unknown sort field sorts by fit score |
| UniversityDiscovery.KeyLePreorder | frontend/src/pages/UniversityDiscovery.jsx:143-150 | without NaN, the numeric comparator is a total preorder, Infinity on top |
| UniversityDiscovery.SortedUniversities | frontend/src/pages/UniversityDiscovery.jsx:128-158 | the sorted list is a permutation of the filtered one, whatever the comparator |
| UniversityDiscovery.SortedByKey | frontend/src/pages/UniversityDiscovery.jsx:128-158 | a numeric field without NaN keys sorts ascending for 'asc' and descending otherwise |
| UniversityDiscovery.DefaultSortDescending | frontend/src/pages/UniversityDiscovery.jsx:152-155 | the default view is in non-increasing client fit score |
| UniversityDiscovery.SortedByText | frontend/src/pages/UniversityDiscovery.jsx:134-142 | name and country sort in collation order, given a consistent `localeCompare` |
| UniversityDiscovery.UnrankedLast | frontend/src/pages/UniversityDiscovery.jsx:143-146 | ascending by ranking puts unranked universities after every ranked one |
| UniversityDiscovery.ToggleCategory | frontend/src/pages/UniversityDiscovery.jsx:74-80 | flips the membership of exactly one tier |
| UniversityDiscovery.ToggleCategoryTwice | frontend/src/pages/UniversityDiscovery.jsx:74-80 | toggling twice restores the selection |
| UniversityDiscovery.HandleSort | frontend/src/pages/UniversityDiscovery.jsx:82-89 | the current field flips the order; a new field is selected, descending |
| UniversityDiscovery.HandleSortTwice | frontend/src/pages/UniversityDiscovery.jsx:82-89 | clicking the current header twice restores the view |
| UniversityDiscovery.FitScoreColor | frontend/src/pages/UniversityDiscovery.jsx:193-197 | green iff Safe, yellow iff Target, red iff Dream |
| ApplicationRoutes.Merge | backend/routes/application.js:76-82 | only truthy body fields replace stored ones, and every other field is unchanged; the deadline is stored as the date it names; a status outside the six, or a deadline that names no date, is a server error |
| ApplicationRoutes.MergeIdempotent | backend/routes/application.js:76-82 | an empty body changes nothing and merging twice is merging once |
| ApplicationRoutes.TasksOnlyBody | backend/routes/application.js:76-82 | a body with only tasks replaces the tasks and nothing else |
| ApplicationRoutes.UpdateApplication | backend/routes/application.js:51-97 | 404 'Application not found' unless the profile owns that id; otherwise the merge is stored in place, or the table is left as it was when the merge fails with a server error; the table stays unique |
| ApplicationRoutes.MergeKeepsUnique | backend/routes/application.js:76-82 | replacing a row by its merge keeps the table unique |
| ApplicationRoutes.FlatMapLength | backend/routes/application.js:109-111 | the aggregate is as long as the parts together |
| ApplicationRoutes.FlatMapAppend | backend/routes/application.js:109-111 | the aggregate of two lists is the concatenation of their aggregates, in application order |
| ApplicationRoutes.FlatMapMember | backend/routes/application.js:109-111 | an element is aggregated iff it is in the part of some input |
| ApplicationRoutes.TagTasks | backend/routes/application.js:109-111 | each task is tagged with its university and application ids, position by position |
| ApplicationRoutes.TagDocuments | backend/routes/application.js:132-134 | each document is tagged likewise |
| ApplicationRoutes.LockedOf | backend/routes/application.js:105-108 | exactly the profile's locked applications |
| ApplicationRoutes.AllTasksSpec | backend/routes/application.js:102-120 | the aggregated tasks are exactly the tasks of the locked applications, tagged with their ids, and as many as those applications hold |
| ApplicationRoutes.AllDocumentsSpec | backend/routes/application.js:125-143 | the same for documents |
| ApplicationRoutes.GetTasks | backend/routes/application.js:102-120 | no profile gives []; otherwise the flatMap over the locked applications |
| ApplicationRoutes.GetDocuments | backend/routes/application.js:125-143 | no profile gives []; otherwise the flatMap over the locked applications |
| ApplicationGuidance.LockedApplicationsSpec | frontend/src/pages/ApplicationGuidance.jsx:58 | the page lists exactly the locked applications, in their original order |
| ApplicationGuidance.ReplaceApplication | frontend/src/pages/ApplicationGuidance.jsx:77-79 | the rows with the updated id are replaced, the others kept |
| ApplicationGuidance.ReplaceApplicationSpec | frontend/src/pages/ApplicationGuidance.jsx:77-79 | replacing is idempotent; the updated row is present iff its id was |
| ApplicationGuidance.GuidancePage.LoadApplications | frontend/src/pages/ApplicationGuidance.jsx:53-69 | a success stores the locked applications and selects the first when nothing is selected |
| ApplicationGuidance.GuidancePage.HandleUpdateApplication | frontend/src/pages/ApplicationGuidance.jsx:71-84 | without a selection nothing changes; a success becomes the selection and replaces its row |
| ApplicationGuidance.ToggleTask | frontend/src/pages/ApplicationGuidance.jsx:86-90 | `completed` flips at exactly one index; the length and the other tasks are unchanged; an index out of range sends nothing |
| ApplicationGuidance.ToggleDocument | frontend/src/pages/ApplicationGuidance.jsx:132-136 | `uploaded` flips at exactly one index |
| ApplicationGuidance.AddTask | frontend/src/pages/ApplicationGuidance.jsx:92-99 | one task is appended, not completed, after the unchanged prefix |
| ApplicationGuidance.AddDocument | frontend/src/pages/ApplicationGuidance.jsx:115-130 | one document is appended, not uploaded, after the unchanged prefix |
| ApplicationGuidance.DeleteTaskSpec | frontend/src/pages/ApplicationGuidance.jsx:110-113 | deleting at i removes exactly that task and keeps the rest in order; an index outside removes nothing |
| ApplicationGuidance.TaskProgress | frontend/src/pages/ApplicationGuidance.jsx:166-171 | in [0,100]; 0 without a selection or tasks |
| ApplicationGuidance.DocumentProgress | frontend/src/pages/ApplicationGuidance.jsx:173-178 | in [0,100]; 0 without a selection or documents |
| ApplicationGuidance.CompletedAfterToggle | frontend/src/pages/ApplicationGuidance.jsx:86-90 | one toggle changes the completed count by exactly one |
| ApplicationGuidance.ToggleTaskProgress | frontend/src/pages/ApplicationGuidance.jsx:166-171 | completing a task never lowers the progress bar, reopening one never raises it |
| ApplicationGuidance.TaskProgressEnds | frontend/src/pages/ApplicationGuidance.jsx:166-171 | all tasks done gives 100, none done gives 0 |
| Onboarding.OptionalFieldsMayBeEmpty | frontend/src/pages/Onboarding.jsx:18-35 | with the empty optional inputs read as absent, a form is accepted exactly when its required answers are |
| Onboarding.AcceptedRanges | frontend/src/pages/Onboarding.jsx:22-33 | an accepted form has graduationYear in [2000,2035], budget >= 0, gpa in [0,4], ielts in [0,9], toefl in [0,120], gre in [260,340], gmat in [200,800] when given, and some preferred country |
| Onboarding.AsWrittenEmptyOptionalRejected | frontend/src/pages/Onboarding.jsx:18-35 | with the inputs registered by `valueAsNumber` (lines 210 and 347-395), as written, an emptied GPA or exam input (or a GPA never touched) makes the form impossible to submit |
| Onboarding.StepFieldsAgree | frontend/src/pages/Onboarding.jsx:95-109 | the fields a step validates are judged the same by both schemas |
| Onboarding.FieldsToValidate | frontend/src/pages/Onboarding.jsx:95-109 | no step validates an optional field |
| Onboarding.ValidFormPassesEveryStep | frontend/src/pages/Onboarding.jsx:95-115 | a form the whole schema accepts passes every step's check |
| Onboarding.Wizard.NextStep | frontend/src/pages/Onboarding.jsx:95-115 | forward by exactly one iff the step's fields validate and the step is below 4; the step stays in [1,4]; the form is unchanged |
| Onboarding.Wizard.PrevStep | frontend/src/pages/Onboarding.jsx:117-121 | back by one above step 1, no change at step 1 |
| Onboarding.Wizard.HandleCountryToggle | frontend/src/pages/Onboarding.jsx:124-131 | only `preferredCountries` changes, to the toggle of the current list or [] |
| Onboarding.CountryToggleSpec | frontend/src/pages/Onboarding.jsx:124-131 | a toggle adds the country if absent and removes it if present, touches no other country, and twice restores the membership |

## Left out

- Floating point: numbers are exact reals. `reqGpa - 0.5`, `budget * 1.2`
  and `Math.round` of an inexact quotient are exact here.
- Strings with trailing garbage ("3.5abc") are not modelled. A string is
  numeric, empty or other, and `parseFloat` of an "other" string is NaN.
- `localeCompare` is a parameter `collate`. The text-sort ordering is proved
  only for a consistent collation.
- `Array.prototype.sort` with an inconsistent comparator is implementation
  defined. The model uses one stable insertion sort. For comparators that are
  not preorders (NaN keys, `Infinity - Infinity`), only the permutation
  property is claimed. `Infinity - Infinity` is NaN and is read as 0, exactly
  as the engine reads it.
- Asynchrony, React `setState` scheduling, loading spinners and toasts are
  left out. Each network reply is a parameter of the handler that receives
  it.
- `Date.now()` is the parameter `now` of `AddTask` and `AddDocument`.
- react-hook-form's `trigger` is the form schema evaluated on the step's
  fields.
- `ToggleTask`, `ToggleDocument`: the source shallow-copies the list and
  then mutates the shared task or document object in place. The model copies
  the values, so that aliasing is not modelled.
- The recommend handler's `catch` branch (500) is left out. Nothing in the
  modelled code throws.
- The query-building `GET /universities` filter, `GET /:id`, the profile
  routes, `createProfile`/`updateProfile`, the onboarding `onSubmit`, the
  LLM routes, authentication, the Sequelize models and the seed scripts are
  not part of this model.
- `findAll` without `order` is taken to return the table order.
- Requirements, task lists and document lists are never null (the columns
  have defaults and `allowNull: false`), so their `|| []` and `?.` guards are
  not modelled.
- Ids are strings, and `Application.create` draws a fresh id, which is a
  parameter `newId` of the route. Ids in requests are taken to be
  well-formed UUIDs. A malformed `:id` makes PostgreSQL raise an error,
  which the source answers with a 500 in shortlist, lock, unlock and
  `PUT /applications/:id`. The model treats a malformed id like a
  well-formed one that names no row.
- `UniversityContext.UniversityState`: the methods' contracts are two-state
  and use `old`. The list updates they apply are the `Mark*` functions,
  whose properties are `MarksKeepInvariant`, `MarksIdempotent` and
  `LockThenUnlock`.
- UniversityDiscovery.MatchesAt, Js.ToLower: only ASCII letters are lowered.
  JavaScript's `toLowerCase` folds all of Unicode, so the query "école"
  matches "École Polytechnique" in the source but not in the model. Case
  folding beyond ASCII is not modelled.
- Store.KeyDetermines: the applications table has no database constraint
  making a (profile, university) pair unique. Uniqueness is an invariant
  kept by the routes (`AppendKeepsUnique`, `MergeKeepsUnique`), and
  `Database.Valid()` assumes it. Concurrent shortlist or lock requests can
  interleave a `findOne` with a `create`, or run two `findOrCreate` calls, and
  create duplicate rows. Concurrency is not modelled.
- ApplicationRoutes.Merge, ApplicationRoutes.UpdateApplication: `tasks` and
  `documents` in the body are taken to be arrays or absent. A truthy
  non-array value such as `tasks: "x"` would be stored in the JSON column,
  and `app.tasks.map` in `GET /tasks` would then throw. That case is not
  modelled. How a deadline string is read as a date, and the stored date's
  text form, are the parameter `asDate`.
- Onboarding: the rendered markup, the review step's summary and the
  submission itself are left out.

## Findings

| source | as written | input that shows it | evidently intended | confidence | as-written member | corrected member |
|---|---|---|---|---|---|---|
| frontend/src/pages/Onboarding.jsx:18-35 | the GPA and the four exam scores are registered with `valueAsNumber` (lines 210 and 347-395), so an emptied input yields NaN; `z.number().optional()` rejects NaN, and the GPA preprocess turns both NaN and `undefined` into NaN | a student with no GRE score who clears the GRE input (or never types a GPA) submits step 4 | an empty optional score is no answer, as the `"" => undefined` preprocess and `.optional()` say | medium, not executed; depends on react-hook-form giving NaN for an empty `valueAsNumber` input | Onboarding.AsWrittenEmptyOptionalRejected | Onboarding.OptionalFieldsMayBeEmpty |
