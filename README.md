# micronova rules engine in Dafny

micronova assesses a child's English level and builds a 60-day learning plan for that level.
This project models the decision logic behind that service, and proves properties of it:

- **Scoring.** The quiz scorer turns graded answers into a rounded percentage. It maps the
  percentage to a level (`A0`, `A1`, `A2-kids`).
- **Assessment flow.** The adaptive assessment chooses the next question and grades answers. A
  finished assessment gets a score and a band (`A0`, `A1`, `A2`).
- **Plan generators.** The randomised generator builds six-theme cycles from small content banks
  and shuffles answer options. The template generator builds four-theme cycles.
- **Plan table.** Creating a plan keeps one active plan per child: every active plan of the
  child is deactivated, then one new active plan is inserted.
- **Plan progress.** The progress figures of a plan.
- **Session statistics.** A child's session statistics, including the streak of consecutive
  days.

Modules:

- `Common`: `Option` and `Result`.
- `JsMath`: JavaScript numbers (finite or NaN), and `Math.round` of a non-negative ratio in exact
  arithmetic (`RoundDiv`, `Percent`).
- `JsString`: `String.prototype.trim` and the white space it strips.
- `Levels`: the three plan levels and their labels.
- `AssessmentService`: the sample question bank, `calculateScore` and `determineLevel`.
- `PlanContent`: the learning-task and plan-day records both generators produce.
- `PlanGenerator`: the randomised generator.
  - `Math.random()` becomes an injected sequence of draws in [0, 1).
  - `shuffleArray` keeps its array and its descending swap loop.
  - `generatePlan` keeps its day loop.
- `PlanService`: the template generator, and `createPlan` over the plan table.
- `PlanStore`: the plan table, a class with a row sequence and an id counter. It also holds the
  deactivate-then-insert rule and the lookups by plan id and by day number.
- `PlansRoute`: plan creation with its level whitelist, day lookup with its 1..60 bound, and plan
  progress.
- `SessionsRoute`: the checks on a new learning session, session statistics, and the streak loop.
- `AssessmentsRoute`: the band table, question selection (including the `scopeStats`
  accumulator loop), answer correctness and the finish score.
- `AssessmentSessions`: the assessment-session store. Sessions are objects with a status, an
  answer list and a score. The registry's `Start`, `Next`, `SubmitAnswer` and `Finish` keep
  these invariants:
  - at most one ACTIVE session per child;
  - one answer per question;
  - a score exactly on FINISHED sessions.

Database rows are Dafny sequences and objects. Dates are integer day numbers, and "today" is a
parameter.

Facts about the code that shape the model:

- **Theme of a day.** It is `themes[dayNumber % themes.length]`, so day 1 of a plan gets the
  second theme of its cycle.
- **Unknown levels.** The generators give them A0's configuration and never reject them.
- **`calculateScore` of no answers.** The score is NaN (0 / 0) and the level falls back to A0.

## Model

| member | source | states |
|---|---|---|
| JsMath.RoundDiv | src/services/assessmentService.js:69 | `Math.round(num / den)` for non-negative operands: the result r satisfies r - 1/2 <= num/den < r + 1/2 (halves round up) |
| JsMath.Percent | src/routes/plans.js:242 | `Math.round(part / whole * 100)` is the integer nearest to 100·part/whole, halves up |
| JsMath.PercentAtMost100 | src/services/assessmentService.js:69 | a percentage of a part no larger than its whole lies in [0, 100] |
| JsMath.PercentExtremes | src/services/assessmentService.js:69 | the whole is 100 and nothing is 0 percent |
| JsMath.PercentMonotone | src/services/assessmentService.js:69 | a larger part of the same whole never gets a smaller percentage |
| JsMath.PercentMonotoneStep | src/routes/plans.js:246-251 | the same part of a whole one larger never gets a larger percentage |
| JsMath.PercentMonotoneWhole | src/routes/plans.js:246-251 | the same part of any larger whole never gets a larger percentage |
| JsString.TrimStart | src/routes/assessments.js:221 | the result is a suffix of the input; what was removed is all white space; the result does not start with white space |
| JsString.TrimEnd | src/routes/assessments.js:221 | the result is a prefix of the input; what was removed is all white space; the result does not end with white space |
| JsString.TrimEmptyIffBlank | src/routes/assessments.js:221 | `s.trim().length > 0` holds exactly when `s` has a character that is not white space |
| AssessmentService.SampleQuestions | src/services/assessmentService.js:5-64 | eight questions with ids 1..8, four options each, the correct answer among them, difficulty one of the three levels |
| AssessmentService.CountCorrect | src/services/assessmentService.js:68 | the number of correct answers is at most the number of answers; it equals it iff all are correct and is 0 iff none is |
| AssessmentService.DetermineLevel | src/services/assessmentService.js:76-81 | A1 exactly for scores in [31, 65], A2-kids exactly for [66, 100], A0 for everything else (0-30, gaps such as 30.5, negatives, above 100, NaN) |
| AssessmentService.CalculateScore | src/services/assessmentService.js:67-73 | the score is NaN exactly for no answers; otherwise it is the rounded percentage of correct answers, in [0, 100]; the level is the level of that score |
| AssessmentService.DetermineLevelMonotone | src/services/assessmentService.js:76-81 | on whole scores 0..100 a higher score never gives a lower level |
| AssessmentService.DetermineLevelFallbacks | src/services/assessmentService.js:80 | 30.5, 65.5, -1, 101 and NaN all fall back to A0 |
| AssessmentService.CalculateScoreExtremes | src/services/assessmentService.js:67-81 | all correct gives (100, A2-kids), none correct gives (0, A0), two of three gives (67, A2-kids) |
| PlanGenerator.DetermineLevel | src/services/planGenerator.js:5-10 | the same thresholds and A0 fallback as the scoring service's copy |
| PlanGenerator.DetermineLevelAgrees | src/services/planGenerator.js:5-10 | the two score-to-level tables agree on every number, NaN included |
| PlanGenerator.GetLevelConfig | src/services/planGenerator.js:30-52 | every configuration has six themes; A1 and A2-kids get their own, every other string, "A0" included, gets A0's |
| PlanGenerator.GetVocabByTheme | src/services/planGenerator.js:106-125 | three entries, each with three distractors that do not include the correct word; themes other than colors/animals/family get the colors bank |
| PlanGenerator.GetReadingByTheme | src/services/planGenerator.js:128-159 | one passage with three distractors that do not include the answer; unknown themes get the colors passage |
| PlanGenerator.GetSpeakingPrompts | src/services/planGenerator.js:162-178 | two prompts; unknown themes get the colors prompts |
| PlanGenerator.PickIndex | src/services/planGenerator.js:184 | `Math.floor(r * (i + 1))` of a draw in [0, 1) is an index in 0..i |
| PlanGenerator.SwapPermutes | src/services/planGenerator.js:185 | an exchange keeps the multiset of elements |
| PlanGenerator.ShuffleFromPermutes | src/services/planGenerator.js:183-186 | the remaining swap steps keep the length and the multiset |
| PlanGenerator.ShuffledPermutes | src/services/planGenerator.js:181-188 | a shuffle is a permutation: same length, same multiset |
| PlanGenerator.ShuffleArray | src/services/planGenerator.js:181-188 | the array loop produces exactly the shuffle of its draws, a permutation of the input, into a fresh copy |
| PlanGenerator.GenerateVocabTask | src/services/planGenerator.js:55-70 | the theme is the day's theme; word, definition and answer are those of bank entry `dayNumber % 3`; options are a permutation of answer + distractors, four of them, containing the answer |
| PlanGenerator.GenerateReadingTask | src/services/planGenerator.js:73-89 | the theme is the day's theme; the passage is the bank's only entry; options are a permutation of answer + distractors, four of them, containing the answer |
| PlanGenerator.GenerateSpeakingPrompt | src/services/planGenerator.js:92-103 | the theme is the day's theme; the prompt is bank entry `dayNumber % 2`; missing hints become `[]` |
| PlanGenerator.PlanDayFor | src/services/planGenerator.js:18-23 | a day carries its number and all three tasks share the theme `themes[dayNumber % 6]` |
| PlanGenerator.PlanDaysNumbered | src/services/planGenerator.js:17-24 | sixty days built for positions 1..60 are numbered 1..60 in order |
| PlanGenerator.GeneratePlan | src/services/planGenerator.js:13-27 | exactly 60 days numbered 1..60 in order, day k being the day built for k, for every level string |
| PlanGenerator.PlanRepeatsEverySixDays | src/services/planGenerator.js:55-103 | days d and d + 6 have the same theme, word, passage, answers and prompt; only option order may differ |
| PlanGenerator.FirstThemeComesOnDaySix | src/services/planGenerator.js:56 | day 1 of an A0 plan is about animals and colors comes on day 6 |
| PlanGenerator.DrawsOnlyOrderOptions | src/services/planGenerator.js:63-87 | the random draws decide only the option order: answers and option multisets do not depend on them |
| PlanGenerator.HigherLevelThemesHaveNoBank | src/services/planGenerator.js:36-48 | no theme of the A1 and A2-kids cycles has a bank of its own |
| PlanGenerator.HigherLevelsUseColorsContent | src/services/planGenerator.js:106-159 | every A1 and A2-kids day uses a colors word and the colors passage |
| PlanService.GetLevelConfig | src/services/planService.js:70-86 | four themes per level; A1 and A2-kids get their own, every other string, "A0" included, gets A0's |
| PlanService.FilledTemplateMentions | src/services/planService.js:106-107 | a template with a word filled in contains that word |
| PlanService.GenerateVocabTask | src/services/planService.js:89-99 | the same task for every level and day apart from the theme, with 'example' among its options |
| PlanService.GenerateReadingTask | src/services/planService.js:102-113 | the answer is the day's theme and is among the four options; title and content mention the theme and the content the level |
| PlanService.GenerateSpeakingPrompt | src/services/planService.js:116-125 | prompt and its single hint mention the theme; expected length '1-2 sentences' |
| PlanService.PlanDayFor | src/services/planService.js:58-63 | a day carries its number and all three tasks share the theme `themes[dayNumber % 4]` |
| PlanService.GeneratePlanDays | src/services/planService.js:53-67 | exactly 60 days numbered 1..60 in order, day k being the day built for k |
| PlanService.PlanRepeatsEveryFourDays | src/services/planService.js:89-125 | day d + 4 equals day d apart from its number |
| PlanService.CreatePlan | src/services/planService.js:7-50 | the table becomes the deactivated table plus the new active plan under the next id, from today to 60 days later, with the generated days; the table invariant is kept |
| PlanStore.Deactivated | src/services/planService.js:9-12 | only `isActive` changes; it is cleared exactly on the child's plans and kept on the others |
| PlanStore.ActivePlanCountAppend | src/routes/plans.js:87-112 | active-plan counts add up over concatenation |
| PlanStore.NoActivePlanLeft | src/routes/plans.js:87-91 | after deactivation the child has no active plan |
| PlanStore.CreateLeavesOneActivePlan | src/routes/plans.js:87-112 | after deactivate-then-insert the child has exactly one active plan, the new one; other children's plans are untouched; one-active-per-child is preserved |
| PlanStore.FindPlan | src/routes/plans.js:214-237 | a found plan has the id and is in the table; nothing is found exactly when no plan has the id |
| PlanStore.FindPlanUnique | src/routes/plans.js:214-216 | with unique ids, looking up a stored plan's id finds that plan |
| PlanStore.FindDay | src/routes/plans.js:174-180 | a found day has the number and belongs to the plan; nothing is found exactly when no day has it |
| PlanStore.FindDayNumbered | src/routes/plans.js:174-180 | in a plan numbered 1..60, day d is found and is the d-th day |
| PlanStore.PlanTable.DeactivateActivePlans | src/routes/plans.js:87-91 | the rows become `Deactivated` of the old rows, none of the child's rows is active, the table invariant is kept |
| PlanStore.PlanTable.InsertActivePlan | src/routes/plans.js:104-112 | appends one active plan under the next id and advances the id; the table invariant is kept |
| PlansRoute.CreatePlan | src/routes/plans.js:67-126 | validation fails exactly for a non-positive child id or a level outside the whitelist; not-found exactly for an unknown child; a refused request leaves the table unchanged; success leaves the deactivated table plus the new active plan with the generated 60 days, ending 60 days after today |
| PlansRoute.AcceptedLevelsAreTheLevels | src/routes/plans.js:71-73 | the whitelist is exactly the three level labels |
| PlansRoute.GetPlanDay | src/routes/plans.js:166-205 | validation fails exactly for a non-positive plan id or a day number outside 1..60; a found day has the requested number and belongs to the requested plan; not-found exactly when the plan or the day is missing |
| PlansRoute.StoredPlanAnswersEveryDay | src/routes/plans.js:166-200 | every day 1..60 of a stored numbered plan is returned, and it is that plan's d-th day |
| PlansRoute.CreatedPlanAnswersEveryDay | src/routes/plans.js:99-126 | a plan just created answers every day 1..60 |
| PlansRoute.CompletedDays | src/routes/plans.js:241 | completed days are at most all days; all iff every day has a session; none iff no day has one |
| PlansRoute.AllSessions | src/routes/plans.js:245 | the flattening has as many sessions as the days together and contains each of them |
| PlansRoute.AllSessionsInOrder | src/routes/plans.js:245 | session k of day i sits at position k after all sessions of the earlier days, so the flattening is exactly the days' sessions in order |
| PlansRoute.TruthyCount | src/routes/plans.js:246-251 | at most all sessions; all iff every flag is true |
| PlansRoute.TruthyCountAppend | src/routes/plans.js:246-251 | true-flag counts add up over concatenation |
| PlansRoute.Accuracy | src/routes/plans.js:246-251 | the rounded percentage of true flags over all sessions, in [0, 100], 0 without sessions |
| PlansRoute.UngradedSessionCountsAsIncorrect | src/routes/plans.js:246-251 | a session with a missing or false flag adds to the denominator only and never raises the accuracy |
| PlansRoute.Progress | src/routes/plans.js:240-268 | total days is the number of days; completed days is the count of days with a session (at most the total); the percentage is the rounded percentage of completed days, in [0, 100], 0 without days or without completed days, 100 when all are completed; the accuracies are those of all sessions flattened, in [0, 100] and 0 without sessions; total sessions is the sum of per-day counts |
| SessionsRoute.CheckSessionCreation | src/routes/sessions.js:130-159 | the checks in the source's order, each refusal an if-and-only-if: child-not-found exactly for an unknown child; plan-day-not-found exactly when the child exists but the plan or its day does not; not-owner exactly when the day exists and its plan is another child's; inactive exactly when the plan is the child's but inactive; success, with the requested day, otherwise |
| SessionsRoute.OnlyTheNewestPlanTakesSessions | src/routes/sessions.js:153-159 | after a new plan is created for a child, only that plan's days accept the child's sessions, and all its days 1..60 do |
| SessionsRoute.DayNumbers | src/routes/sessions.js:269 | the distinct day numbers are those of the sessions, and there are no more of them than sessions |
| SessionsRoute.GradedCount | src/routes/sessions.js:271-279 | at most all sessions; 0 iff no flag is set |
| SessionsRoute.CorrectCount | src/routes/sessions.js:271-279 | true flags are at most the set ones |
| SessionsRoute.NoFalseFlagAllCorrect | src/routes/sessions.js:271-279 | with no false flag, every graded session is a correct one |
| SessionsRoute.CountsAppend | src/routes/sessions.js:271-279 | graded and correct counts add up over concatenation |
| SessionsRoute.GradedAccuracy | src/routes/sessions.js:271-279 | the rounded percentage of true among set flags, in [0, 100], 0 when none is set, 100 when all set ones are true |
| SessionsRoute.FullAccuracyWithoutWrongAnswers | src/routes/sessions.js:271-279 | with a graded session and no false flag the accuracy is 100 |
| SessionsRoute.UngradedSessionIgnored | src/routes/sessions.js:271-279 | a session without the flag leaves that accuracy unchanged |
| SessionsRoute.TimedCount | src/routes/sessions.js:281 | at most all sessions; 0 iff no time is set |
| SessionsRoute.TimesAppend | src/routes/sessions.js:281-284 | timed counts and time sums add up over concatenation |
| SessionsRoute.AverageSeconds | src/routes/sessions.js:281-284 | the average of the set times in seconds, rounded half up; 0 when none is set |
| SessionsRoute.UntimedSessionIgnored | src/routes/sessions.js:281 | a session without a time leaves the average unchanged |
| SessionsRoute.InsertDescending | src/routes/sessions.js:287-290 | inserting a date keeps the list strictly newest first and adds exactly that date |
| SessionsRoute.DistinctDescending | src/routes/sessions.js:287-290 | the distinct dates, strictly newest first, no more of them than the input |
| SessionsRoute.CurrentStreak | src/routes/sessions.js:292-306 | 0 unless today or yesterday has a session; otherwise the leading dates are the start day and each day before it, and the next date breaks the run; never more than the dates |
| SessionsRoute.StreakIsTheRunOfDays | src/routes/sessions.js:292-306 | with no future dates the streak is at least 1, every day of the run has a session and the day before the run has none |
| SessionsRoute.CompletionDays | src/routes/sessions.js:287-288 | one completion day per session, in order |
| SessionsRoute.ChildStats | src/routes/sessions.js:254-307 | all zero without sessions; otherwise the session count, distinct day count (at most the sessions), graded accuracies in [0, 100], average time, and the streak over the distinct completion days |
| AssessmentsRoute.DetermineBand | src/routes/assessments.js:17-21 | A0 iff score <= 40, A1 iff 40 < score <= 75, A2 iff score > 75 |
| AssessmentsRoute.BandDiffersFromLevel | src/routes/assessments.js:17-21 | 35 is band A0 but level A1, 70 is band A1 but level A2-kids, and 'A2' is not a plan level |
| AssessmentsRoute.FindQuestion | src/routes/assessments.js:193-202 | a found question has the id and is in the bank; nothing exactly when no question has it |
| AssessmentsRoute.FindOption | src/routes/assessments.js:224 | the first option with the id, or nothing exactly when no option has it |
| AssessmentsRoute.IsCorrect | src/routes/assessments.js:217-226 | a speaking answer is correct iff its text is present and not blank; any other iff an option is given and the first option with that id is correct; false without an option or with an unknown one |
| AssessmentsRoute.LexLeTotal | src/routes/assessments.js:73 | the scope order is total |
| AssessmentsRoute.LexLeAntisymmetric | src/routes/assessments.js:73 | the scope order is antisymmetric |
| AssessmentsRoute.LexLeTransitive | src/routes/assessments.js:73 | the scope order is transitive |
| AssessmentsRoute.KeyLeTotal | src/routes/assessments.js:72-75 | the (scope, creation time) order is total |
| AssessmentsRoute.KeyLeTransitive | src/routes/assessments.js:72-75 | the (scope, creation time) order is transitive |
| AssessmentsRoute.AnsweredIds | src/routes/assessments.js:27-32 | exactly the question ids of the session's answers |
| AssessmentsRoute.AnsweredScopes | src/routes/assessments.js:35-47 | no more scopes than bank questions, each the scope of an answered question of the bank |
| AssessmentsRoute.AnsweredWithScopeSplit | src/routes/assessments.js:35-47 | the answered questions of a scope in a bank are its first question, if it qualifies, and those of the rest |
| AssessmentsRoute.AnsweredScopesCount | src/routes/assessments.js:35-52 | each scope occurs in the list exactly as often as there are answered questions of the bank with that scope |
| AssessmentsRoute.ScopeStats | src/routes/assessments.js:49-52 | the accumulator's keys are the scopes that occur, and each count is that scope's number of occurrences |
| AssessmentsRoute.NextQuestion | src/routes/assessments.js:24-83 | the chosen question is unanswered, suits the child's age, is not speaking while speaking is held back, and comes first in (scope, creation time) among the eligible ones; nothing exactly when none is eligible |
| AssessmentsRoute.McqCount | src/routes/assessments.js:281 | at most all answers; 0 iff all are speaking answers |
| AssessmentsRoute.McqCorrect | src/routes/assessments.js:282 | correct non-speaking answers are at most the non-speaking ones |
| AssessmentsRoute.McqAppend | src/routes/assessments.js:281-282 | both counts add up over concatenation |
| AssessmentsRoute.FinishScore | src/routes/assessments.js:280-283 | the rounded percentage of correct non-speaking answers, in [0, 100], 0 when all are speaking |
| AssessmentsRoute.SpeakingAnswerLeavesScore | src/routes/assessments.js:281 | adding a speaking answer, correct or not, leaves the score unchanged |
| AssessmentsRoute.AllMcqCorrectScores100 | src/routes/assessments.js:280-286 | all non-speaking answers correct (and at least one) scores 100, band A2 |
| AssessmentsRoute.WithScopes | src/routes/assessments.js:267-274 | each answer is paired with its question's scope, in order |
| AssessmentSessions.AssessmentSession.constructor | src/routes/assessments.js:115-120 | a new session is ACTIVE with no answers and no score |
| AssessmentSessions.AssessmentRegistry.Start | src/routes/assessments.js:86-127 | refused exactly for an unknown child or a child with an ACTIVE session, leaving the sessions as they were; succeeds exactly otherwise, appending a fresh ACTIVE session without answers; the invariant is kept |
| AssessmentSessions.AssessmentRegistry.Next | src/routes/assessments.js:130-165 | refused exactly for an unknown or non-ACTIVE session; succeeds exactly on an ACTIVE session, with an unanswered question suiting the child's age, not speaking while speaking is held back, first in (scope, creation time) among the eligible ones, or nothing exactly when none is eligible |
| AssessmentSessions.AssessmentRegistry.SubmitAnswer | src/routes/assessments.js:168-243 | refused exactly for an unknown or non-ACTIVE session, an unknown question, or one already answered, changing nothing; succeeds exactly otherwise, appending the graded answer to that session only; statuses and scores never change |
| AssessmentSessions.AssessmentRegistry.Finish | src/routes/assessments.js:246-303 | refused exactly for an unknown or non-ACTIVE session or one without answers, changing nothing; succeeds exactly otherwise: that session becomes FINISHED with the finish score, returned with its band; answers never change |

## Left out

- HTTP routing, request validation chains other than the cited ones, JSON responses and status codes are not modelled. Prisma queries and transactions become operations on in-memory sequences and objects.
- Concurrency is not modelled. Deactivation and plan creation are separate database calls and are not atomic in the source; the model runs them in sequence.
- Floating point is not modelled: `Math.round(a / b * 100)` and `Math.round(sum / n / 1000)` are computed exactly, with halves rounded up. JavaScript computes these in doubles, which can round differently on values that are not exactly representable.
- The wall clock is not modelled: dates are day numbers and "today" is a parameter. `setDate` month arithmetic, `toDateString` and the time between the two `new Date()` calls of plan creation are left out.
- `Math.random()` is a parameter: a sequence of draws in [0, 1).
- Identifiers are modelled as integers. The UUIDs of the assessment tables and the integer ids of the plan tables become `int`. An assessment session's id is its position in the registry.
- A session's plan day is named by its plan id and its day number, not by a separate plan-day row id.
- The progress endpoint's plan lookup (not-found) and the child data it returns are not modelled. `PlansRoute.Progress` takes the sessions of each day of the found plan.
- The most recent session and the child that the day-lookup endpoint includes in its response are not modelled.
- The listing, deletion and child-plan endpoints, the seed scripts, the admin, guardian and children routes, and the authentication and error middleware are not part of this model.
- The sessions route's string-length validators on answers, and the stored answer texts, are not modelled.
- AssessmentsRoute.NextQuestion: the source returns null also when the database query fails. The model has no failure path. The source's tie order among questions with equal scope and creation time is the database's; the model promises only a minimal element.
- AssessmentsRoute.LexLe: the order of scopes follows character codes. A database collation can order strings differently.
- AssessmentsRoute.IsCorrect: the source's speaking rule evaluates to `""` for an empty text and to `undefined` for a missing one, not to `false`. The model treats both as false. How the store handles such a value is not part of this model.
- PlanGenerator.GetLevelConfig and PlanService.GetLevelConfig: a level string that names a built-in object property (such as `constructor`) makes the source's table lookup return a non-configuration, and the generators then fail. The model gives such strings A0's configuration, as it does for every other unknown string.
- SessionsRoute.CorrectCount: its own contract states only the bound by the graded count. That every graded session is correct when no flag is false is stated separately by `SessionsRoute.NoFalseFlagAllCorrect`.
- PlanGenerator.GenerateVocabTask and PlanGenerator.GenerateReadingTask: the option order is stated through the function `Shuffled`, which `PlanGenerator.ShuffleArray` is proved to compute. Inside the plan, the shuffle is therefore the function, not the array method.
