# Exam portal core, modelled in Dafny

The portal is the client side of a leadership-certification service. A
candidate registers and pays the exam fee. They then take the modules of a
certification one after another, each against a countdown. An examiner grades
the submitted answers by hand, and an administrator manages users, examiners,
submissions and payments. Everything is held in memory in the browser.

This project models the parts of that client that compute or change state:

- the exam session held by the exam context: starting a module, recording an
  answer, submitting the module;
- the countdown: the one-second tick, the submit at zero, the `H:MM:SS` /
  `M:SS` display and the urgency bands;
- the module list: the status of each module, the three-day exam window and
  the completion banner;
- the examiner console: the score and feedback dictionaries, the total, the
  correction of one submission, the validate-button rule and the filters;
- the administrator console: counters, user search, and the create, edit,
  delete, toggle and assign operations on the in-memory lists;
- the sign-up form's validation, the candidate page's steps and status, the
  question card, and the payment form.

Each source file is one Dafny module, with the same name as the component:

| module | file | form |
|---|---|---|
| `ExamContext` | exam_context.dfy | class `ExamSession` with the four session fields |
| `ExamTimer` | exam_timer.dfy | functions for the display, methods for the tick and auto-submit |
| `ModuleProgress` | module_progress.dfy | functions and lemmas |
| `ExaminerDashboard` | examiner_dashboard.dfy | class `GradingConsole` plus list functions |
| `AdminDashboard` | admin_dashboard.dfy | class `AdminConsole` plus list functions |
| `RegisterForm` | register_form.dfy | class `RegistrationForm`; validation is a sequence of conditional writes |
| `CandidateDashboard` | candidate_dashboard.dfy | class `CandidatePage` plus the derived steps and label |
| `QuestionCard` | question_card.dfy | class `QuestionCardState` plus the hint chain |
| `PaymentForm` | payment_form.dfy | class `PaymentFormState` plus the disabled rule |

Three shared modules support them:

- `Types` holds the records of `src/types/index.ts` and minimal certification records.
- `Text` stands in for the JavaScript string built-ins the components call.
- `Collections` stands in for the array built-ins (`find`, `findIndex`, `filter`, `map`, `reduce`).

Every page operation that writes React state is a method on a class. Its
`ensures` gives the whole new state in terms of the old one, through a
function whose properties are proved as lemmas. Clocks, generated ids,
`window.confirm`, the registration call and the certification catalogue are
method parameters.

Three consequences of the code are worth stating on their own:

- **Questions per module.** A module gets at most 20 questions, and every
  bank holds 3 or 2, so a started module gets its whole bank
  (`ExamContext.GeneratedIsWholeBank`).
- **No payment failure path.** `handlePayment` has no failure path: the
  simulated payment always ends in the success callback.
- **Stopping the ticker.** The ticker stops only when the counter is 0 or
  below. After a manual submit the counter is 0, so the auto-submit effect
  fires once more and `submitModule` returns false (`ExamTimer.AutoSubmit`).

Several behaviours of the code as written are stated as lemmas, without
correcting the model:

- The examiner console keeps the score dictionary when the selection changes.
  Scores typed for one submission count toward the next one graded
  (`ExaminerDashboard.StaleScoresCount`).
- The completion banner compares list lengths, so a repeated id can complete
  a certification (`ModuleProgress.CompleteCountsEntries`).
- A score of 0 is falsy, so the candidate sees the "en correction" panel and
  the result panel together (`CandidateDashboard.ZeroScoreShowsBothPanels`).
- Out of order, two progress steps can be current at once
  (`CandidateDashboard.TwoCurrentSteps`).
- The "Certifié" label ignores the pass mark (`CandidateDashboard.CertifiedIgnoresThreshold`).
- The "Le mot de passe est requis" message is always overwritten
  (`RegisterForm.EmptyPasswordGetsLengthMessage`).

## Model

| member | source | states |
|---|---|---|
| ExamContext.GenerateModuleQuestions | src/contexts/ExamContext.tsx:115-120 | `generateModuleQuestions`: the first `min(20, n)` questions of the category's bank; its properties are stated by `GeneratedIsBankPrefix` and `GeneratedIsWholeBank` |
| ExamContext.GeneratedIsBankPrefix | src/contexts/ExamContext.tsx:115-120 | the generated list has `min(20, n)` questions, and each one is the bank question at the same index |
| ExamContext.GeneratedIsWholeBank | src/contexts/ExamContext.tsx:6-93 | every built-in bank is under the limit, so a module is given its category's whole bank |
| ExamContext.CategoryOf | src/contexts/ExamContext.tsx:130-135 | the category a module name selects, tested on the lower-cased name; its properties are stated by `CategorySelectionOrder`, `BothKeywordsSelectCompetences` and `CapitalKeywordSelectsCompetences` |
| ExamContext.CapitalKeywordSelectsCompetences | src/contexts/ExamContext.tsx:130-131 | a module name writing "COMPÉTENCES" in capitals anywhere selects the competences bank |
| ExamContext.CategorySelectionOrder | src/contexts/ExamContext.tsx:130-135 | competences iff the folded name contains "compétences"; entrepreneuriat iff it contains "entrepreneuriat" but not "compétences"; leadership iff it contains neither |
| ExamContext.BothKeywordsSelectCompetences | src/contexts/ExamContext.tsx:131-133 | a name containing both keywords, in either order and whatever surrounds them, selects competences |
| ExamContext.LookupModule | src/contexts/ExamContext.tsx:123-127 | finds nothing iff the certification is unknown or none of its modules has the id; a found module has that id and belongs to that certification |
| ExamContext.Upsert | src/contexts/ExamContext.tsx:148-157 | `submitAnswer`'s update of the answer list: replace at the first index answering the question, else append; its properties are stated by `UpsertExisting`, `UpsertNew`, `UpsertKeepsIdsUnique` and `UpsertLookup` |
| ExamContext.UpsertExisting | src/contexts/ExamContext.tsx:150-154 | answering an answered question replaces the first entry at its index; length, order and the other entries stay |
| ExamContext.UpsertNew | src/contexts/ExamContext.tsx:156 | answering a new question appends exactly one entry at the end |
| ExamContext.UpsertKeepsIdsUnique | src/contexts/ExamContext.tsx:148-157 | if question ids are unique before an answer is recorded, they are unique after it |
| ExamContext.UpsertLookup | src/contexts/ExamContext.tsx:148-157 | after recording, the question reads back the new value (last write wins); every other question reads what it read before |
| ExamContext.UpsertExamples | src/contexts/ExamContext.tsx:148-157 | worked examples: (q1,"a") then (q1,"b") leaves the single entry (q1,"b"); (q1,"a") then (q2,3) leaves both entries in order |
| ExamContext.PendingSubmissionFields | src/contexts/ExamContext.tsx:166-175 | a built submission is pending, carries the module's id and exactly the answers it was given, and has no score |
| ExamContext.ExamSession.constructor | src/contexts/ExamContext.tsx:110-113 | a new session has no module, no answers, a zero counter, and is inactive |
| ExamContext.ExamSession.StartModule | src/contexts/ExamContext.tsx:122-146 | an unknown certification or module leaves the whole session unchanged; otherwise the session holds the found module with only its questions replaced, no answers, `duration * 60` seconds, and is active |
| ExamContext.ExamSession.SubmitAnswer | src/contexts/ExamContext.tsx:148-158 | the answer list becomes the upsert of the old list by question id; the slot is overwritten in a copied array |
| ExamContext.ExamSession.SubmitModule | src/contexts/ExamContext.tsx:160-185 | with no module it returns false and changes nothing; otherwise it returns true and the pending submission of the old module and answers, and leaves the session idle |
| ExamContext.ExamSession.SetTimeRemaining | src/contexts/ExamContext.tsx:195 | the counter takes the given value |
| ExamContext.SubmitTwice | src/contexts/ExamContext.tsx:160-185 | two submits in a row: the first succeeds with a pending submission for the started module; the second fails and yields no submission; the session ends idle |
| ExamTimer.AfterTicksValue | src/components/exam/ExamTimer.tsx:8-16 | after k ticks a positive counter t reads `t - k`, or 0 once k ≥ t; a counter at or below zero is never changed |
| ExamTimer.CountdownNeverNegative | src/components/exam/ExamTimer.tsx:9 | ticking never takes a non-negative counter below zero |
| ExamTimer.CountdownReachesZero | src/components/exam/ExamTimer.tsx:18-22 | from n > 0 the counter is zero exactly after n or more ticks, so the submit effect first fires after the n-th tick |
| ExamTimer.Tick | src/components/exam/ExamTimer.tsx:8-16 | the session's counter drops by one when positive and is otherwise left alone |
| ExamTimer.AutoSubmit | src/components/exam/ExamTimer.tsx:18-22 | submits exactly when the counter is 0; it succeeds iff a module is loaded, and then yields its pending submission and an idle session; otherwise nothing changes |
| ExamTimer.JsRem | src/components/exam/ExamTimer.tsx:26-27 | JavaScript `%`: the remainder lies in `[0, b)` for a non-negative dividend and in `(-b, 0]` for a negative one |
| ExamTimer.ClockDecomposition | src/components/exam/ExamTimer.tsx:25-27 | `hours*3600 + minutes*60 + secs == seconds`, with minutes and secs in 0..59 and hours positive iff there is at least one hour |
| ExamTimer.ParseTime | src/components/exam/ExamTimer.tsx:24-33 | the inverse of the display: both `H:MM:SS` and `M:SS` read back as a non-negative number of seconds |
| ExamTimer.FormatTime | src/components/exam/ExamTimer.tsx:24-33 | `formatTime`: H:MM:SS from one hour up, M:SS below; its meaning is stated by `FormatTimeRoundTrip` against the independent reader `ParseTime`, and by `FormatTimeInjective` |
| ExamTimer.FormatTimeRoundTrip | src/components/exam/ExamTimer.tsx:24-33 | reading the display of any non-negative counter gives the counter back; the display has three fields iff the counter is one hour or more |
| ExamTimer.HoursFormRoundTrip | src/components/exam/ExamTimer.tsx:29-30 | from one hour up, the display is the three-field form and reads back as the counter |
| ExamTimer.MinutesFormRoundTrip | src/components/exam/ExamTimer.tsx:32 | below one hour, the display is the two-field form and reads back as the counter |
| ExamTimer.MinutesFormIs | src/components/exam/ExamTimer.tsx:29-32 | below one hour the `M:SS` branch is taken, and its minutes and seconds add up to the counter |
| ExamTimer.HoursTextRoundTrip | src/components/exam/ExamTimer.tsx:30 | `H:MM:SS` with h > 0 and padded minutes and seconds splits into three fields and reads back as its total |
| ExamTimer.MinutesTextRoundTrip | src/components/exam/ExamTimer.tsx:32 | `M:SS` with padded seconds splits into two fields and reads back as its total |
| ExamTimer.FormatTimeInjective | src/components/exam/ExamTimer.tsx:24-33 | two different non-negative counters never show the same text |
| ExamTimer.Pad2Digits | src/components/exam/ExamTimer.tsx:30 | `padStart(2, '0')` of a number below 60 is exactly two digits with the same value |
| ExamTimer.BannerFor | src/components/exam/ExamTimer.tsx:65-69 | "TEMPS ÉCOULÉ!" iff at most 60 s; "Dépêchez-vous!" iff at most 300 s but over 60; no banner iff over 300 s |
| ModuleProgress.GetModuleStatus | src/components/certification/ModuleProgress.tsx:24-35 | completed iff the id is in the completed list; current iff not completed and the id is the current one; available iff neither and the module is the first or its predecessor is completed; locked iff neither and a later module whose predecessor is not completed |
| ModuleProgress.SequentialGating | src/components/certification/ModuleProgress.tsx:24-35 | with the first k modules completed, those are completed, module k is current or available, and every later module is locked |
| ModuleProgress.GatingMonotone | src/components/certification/ModuleProgress.tsx:31-34 | completing more modules never locks a module that was open |
| ModuleProgress.CertificationComplete | src/components/certification/ModuleProgress.tsx:207 | the completion banner's test, a comparison of list lengths; its meaning is stated by `CompleteIffAllCompleted` and `CompleteCountsEntries` |
| ModuleProgress.CompleteIffAllCompleted | src/components/certification/ModuleProgress.tsx:207 | when modules are completed in order, the banner shows iff every module has the completed status |
| ModuleProgress.CompleteCountsEntries | src/components/certification/ModuleProgress.tsx:207 | the banner counts list entries: `["m1","m1"]` shows it for two modules while m2 is still only available |
| ModuleProgress.RemainingDecomposition | src/components/certification/ModuleProgress.tsx:47-48 | days and hours are the whole days and whole hours of the time left, with hours in 0..23 and at most three days inside the window |
| ModuleProgress.GetTimeRemaining | src/components/certification/ModuleProgress.tsx:37-54 | `getTimeRemaining`: no label without a start date, "Expiré" once the window has closed, else days and hours left; its properties are stated by `ExpiredLabelIff`, `DaysShownIff` and `RemainingDecomposition` |
| ModuleProgress.ExpiredLabelIff | src/components/certification/ModuleProgress.tsx:38-45 | the label is "Expiré" iff the three-day window has closed, and absent iff there is no start date |
| ModuleProgress.DaysShownIff | src/components/certification/ModuleProgress.tsx:50-53 | an open window's label has the days part iff at least one whole day is left |
| ModuleProgress.ExpiryIsFinal | src/components/certification/ModuleProgress.tsx:41-45 | once the window is expired, it stays expired at every later time |
| ModuleProgress.IsDisabled | src/components/certification/ModuleProgress.tsx:109 | `isDisabled`: locked or labelled "Expiré"; its meaning in terms of the window is stated by `DisabledIff` |
| ModuleProgress.DisabledIff | src/components/certification/ModuleProgress.tsx:109 | a module card is disabled iff the module is locked or the window has closed |
| ExaminerDashboard.SumValuesRemove | src/pages/ExaminerDashboard.tsx:122 | the sum of the score values does not depend on the order of the keys: any key can be taken out first |
| ExaminerDashboard.SumValuesUpdate | src/pages/ExaminerDashboard.tsx:111-113 | scoring a new question adds its score to the total; re-scoring a question replaces its share |
| ExaminerDashboard.SumScores | src/pages/ExaminerDashboard.tsx:122 | the loop over the keys returns the sum of every value in the score map |
| ExaminerDashboard.SumValuesExample | src/pages/ExaminerDashboard.tsx:122 | worked example: scores 10, 10, 15, 5 and 20 for the five answers of the first mock submission total 60 |
| ExaminerDashboard.SumOfLastFour | src/pages/ExaminerDashboard.tsx:122 | worked example, one step: the last four scores total 50 |
| ExaminerDashboard.SumOfLastThree | src/pages/ExaminerDashboard.tsx:122 | worked example, one step: the last three scores total 40 |
| ExaminerDashboard.ScoreInput | src/pages/ExaminerDashboard.tsx:406 | input that `parseInt` rejects is recorded as 0 |
| ExaminerDashboard.ScoreInputOfNumber | src/pages/ExaminerDashboard.tsx:406 | a typed integer is recorded as itself, with no clamp to the answer's points |
| ExaminerDashboard.ScoreInputEmpty | src/pages/ExaminerDashboard.tsx:406 | clearing the field records 0 |
| ExaminerDashboard.MarkCorrected | src/pages/ExaminerDashboard.tsx:124-128 | same length; submissions with another id are untouched; those with the id become corrected with the total as score, and nothing else about them changes |
| ExaminerDashboard.CorrectionLowersPending | src/pages/ExaminerDashboard.tsx:108 | correcting removes exactly the pending submissions with that id from the pending count |
| ExaminerDashboard.PendingCorrectedPartition | src/pages/ExaminerDashboard.tsx:108-109 | the pending and corrected lists together account for every submission exactly once |
| ExaminerDashboard.CorrectionIdempotent | src/pages/ExaminerDashboard.tsx:124-128 | correcting the same submission twice with the same total is the same as correcting it once |
| ExaminerDashboard.SubmitDisabled | src/pages/ExaminerDashboard.tsx:447 | the validate button's `disabled` test: some answer of the selection has no score; its meaning is stated by `SubmitDisabledIff` and `ScoringLowersUnscored` |
| ExaminerDashboard.SubmitDisabledIff | src/pages/ExaminerDashboard.tsx:447 | the validate button is disabled iff the number of answers without a score is positive |
| ExaminerDashboard.ScoringLowersUnscored | src/pages/ExaminerDashboard.tsx:111-113 | scoring a question never adds unscored answers, and scoring an unscored question of the submission strictly lowers their count |
| ExaminerDashboard.FilteredSubmissions | src/pages/ExaminerDashboard.tsx:158-163 | keeps, in list order, exactly the submissions whose folded name or e-mail contains the folded term and whose status the filter admits |
| ExaminerDashboard.EmptySearchKeepsAll | src/pages/ExaminerDashboard.tsx:158-163 | an empty term with the "all" filter keeps the whole list |
| ExaminerDashboard.StatusFilterSelects | src/pages/ExaminerDashboard.tsx:161 | a filter naming a status keeps only submissions with that status |
| ExaminerDashboard.GradingConsole.constructor | src/pages/ExaminerDashboard.tsx:20-44 | the console starts with the given submissions, no selection, empty score and feedback maps, and an empty support form |
| ExaminerDashboard.GradingConsole.HandleScoreChange | src/pages/ExaminerDashboard.tsx:111-113 | the question's score becomes the value and every other key keeps its score |
| ExaminerDashboard.GradingConsole.HandleScoreInput | src/pages/ExaminerDashboard.tsx:405-406 | the question's score becomes the typed text read as a score |
| ExaminerDashboard.GradingConsole.HandleFeedbackChange | src/pages/ExaminerDashboard.tsx:115-117 | the question's comment becomes the text and every other comment stays |
| ExaminerDashboard.GradingConsole.SelectSubmission | src/pages/ExaminerDashboard.tsx:291 | the clicked submission becomes the selection; the scores are kept |
| ExaminerDashboard.GradingConsole.CancelSelection | src/pages/ExaminerDashboard.tsx:441 | the selection is dropped; the scores are kept |
| ExaminerDashboard.GradingConsole.HandleSubmitCorrection | src/pages/ExaminerDashboard.tsx:119-133 | with no selection nothing changes; otherwise the selected id is marked corrected with the sum of all scores, and the selection, scores and feedback are cleared |
| ExaminerDashboard.GradingConsole.SetSupportSubject | src/pages/ExaminerDashboard.tsx:597 | the subject selector writes the subject and leaves the message alone |
| ExaminerDashboard.GradingConsole.SetSupportMessage | src/pages/ExaminerDashboard.tsx:611 | the message field writes the message and leaves the subject alone |
| ExaminerDashboard.GradingConsole.SendSupportMessage | src/pages/ExaminerDashboard.tsx:141-150 | sends iff subject and message are both non-empty, then empties both; otherwise nothing changes |
| ExaminerDashboard.SupportRoundTrip | src/pages/ExaminerDashboard.tsx:141-150 | entering a non-empty subject and message through the form sends the message and leaves the form empty |
| ExaminerDashboard.StaleScoresCount | src/pages/ExaminerDashboard.tsx:111-133 | a score typed while one submission is selected, after cancelling and selecting another, becomes the other submission's total |
| AdminDashboard.ComputeStats | src/pages/AdminDashboard.tsx:226-236 | totals equal the list lengths; active users, active examiners, pending and corrected submissions and completed payments each equal the number of positions whose entry has that flag or status; the payment total is the `reduce` sum of every amount; pending plus corrected fit in the submission list |
| AdminDashboard.PendingAndCorrectedAreDisjoint | src/pages/AdminDashboard.tsx:231-232 | no submission is counted both pending and corrected |
| AdminDashboard.TotalPaymentsIgnoresStatus | src/pages/AdminDashboard.tsx:233 | the dashboard's payment total is the completed payments' sum plus the other payments' sum |
| AdminDashboard.ActivePartition | src/pages/AdminDashboard.tsx:228 | active and inactive users add up to all users |
| AdminDashboard.FilteredUsers | src/pages/AdminDashboard.tsx:239-245 | a subsequence of the users holding exactly those whose folded "first last email" contains the folded term and whose status the filter admits ("all" admits both) |
| AdminDashboard.EmailSearchFinds | src/pages/AdminDashboard.tsx:240 | a term found in a user's folded e-mail finds that user under every status filter that admits them |
| AdminDashboard.StatusFilterSeparates | src/pages/AdminDashboard.tsx:241-243 | "active" keeps only active users and "inactive" only inactive ones |
| AdminDashboard.NewUser | src/pages/AdminDashboard.tsx:284-289 | a created user has the new id, is active, has today's date, and holds exactly the form's fields, the optional profession, specialization and experience as the form's strings |
| AdminDashboard.EditUsers | src/pages/AdminDashboard.tsx:293-295 | same length; users with another id are untouched; the user with the edited id takes the form's fields, the optional ones as the form's strings, and keeps its id, status and creation date |
| AdminDashboard.ToggleUsers | src/pages/AdminDashboard.tsx:310-312 | same length; only users with the id flip `isActive`, and nothing else about them changes |
| AdminDashboard.ToggleUsersTwice | src/pages/AdminDashboard.tsx:309-315 | toggling the same user twice restores the list |
| AdminDashboard.ToggleActiveCount | src/pages/AdminDashboard.tsx:309-315 | a toggle moves the users with the id between the active and inactive counts |
| AdminDashboard.ToggleOneUser | src/pages/AdminDashboard.tsx:309-315 | with one user holding the id, the active count falls by one if that user was active and rises by one otherwise |
| AdminDashboard.CountOnlyAt | src/pages/AdminDashboard.tsx:228 | a test that only one position can pass is counted once or not at all |
| AdminDashboard.FilterNone | src/pages/AdminDashboard.tsx:228 | a filter that nothing passes is empty |
| AdminDashboard.NewExaminer | src/pages/AdminDashboard.tsx:350-355 | a created examiner has the new id, the form's fields, is active and has no assigned exams |
| AdminDashboard.ToggleExaminers | src/pages/AdminDashboard.tsx:369-371 | same length; only examiners with the id flip `isActive` |
| AdminDashboard.ToggleExaminersTwice | src/pages/AdminDashboard.tsx:368-374 | toggling the same examiner twice restores the list |
| AdminDashboard.AssigneeName | src/pages/AdminDashboard.tsx:383-388 | undefined iff no examiner has the id; otherwise the "first last" name of the first examiner in the list with that id, as `find` returns |
| AdminDashboard.AssignSubmissions | src/pages/AdminDashboard.tsx:384-390 | same length; only submissions with the id become assigned, to the given name |
| AdminDashboard.AdminConsole.constructor | src/pages/AdminDashboard.tsx:90-224 | the console starts with the given lists, create mode, no selections and empty forms |
| AdminDashboard.AdminConsole.OpenUserModal | src/pages/AdminDashboard.tsx:248-275 | sets the mode and the selection, and fills the form from the user (missing optional fields as "") or empties it |
| AdminDashboard.AdminConsole.SetUserForm | src/pages/AdminDashboard.tsx:205-215 | the user form takes the typed fields |
| AdminDashboard.AdminConsole.CloseUserModal | src/pages/AdminDashboard.tsx:277-280 | the selected user is cleared |
| AdminDashboard.AdminConsole.SaveUser | src/pages/AdminDashboard.tsx:282-300 | create mode appends exactly one new user; edit mode with a selection rewrites the users with its id; otherwise the list is unchanged; the selection is cleared in every case |
| AdminDashboard.AdminConsole.DeleteUser | src/pages/AdminDashboard.tsx:302-307 | unconfirmed, nothing changes; confirmed, every user with the id is removed and the rest keep their order |
| AdminDashboard.AdminConsole.ToggleUserStatus | src/pages/AdminDashboard.tsx:309-315 | the user list becomes its toggle on the id |
| AdminDashboard.AdminConsole.OpenExaminerModal | src/pages/AdminDashboard.tsx:318-341 | create or edit mode only; sets the mode and the selection, and fills the form from the examiner or empties it |
| AdminDashboard.AdminConsole.SetExaminerForm | src/pages/AdminDashboard.tsx:217-224 | the examiner form takes the typed fields |
| AdminDashboard.AdminConsole.CloseExaminerModal | src/pages/AdminDashboard.tsx:343-346 | the selected examiner is cleared |
| AdminDashboard.AdminConsole.SaveExaminer | src/pages/AdminDashboard.tsx:348-366 | create mode appends one active examiner with no assigned exams; edit mode with a selection rewrites the examiners with its id; otherwise unchanged; the selection is cleared |
| AdminDashboard.AdminConsole.ToggleExaminerStatus | src/pages/AdminDashboard.tsx:368-374 | the examiner list becomes its toggle on the id |
| AdminDashboard.AdminConsole.AssignExaminer | src/pages/AdminDashboard.tsx:382-393 | only the submission with the id becomes assigned, to the examiner's name or to undefined; the examiners, including their `assignedExams`, are not touched |
| AdminDashboard.DeleteKeepsOthers | src/pages/AdminDashboard.tsx:304 | deletion keeps, in order, exactly the users without that id, each with all its copies, and its length is the old length minus the number of positions carrying the id |
| RegisterForm.SetFieldOnlyThat | src/components/auth/RegisterForm.tsx:45 | `{...prev, [field]: value}` changes the named field to the value and no other field |
| RegisterForm.NoErrorsIff | src/components/auth/RegisterForm.tsx:27-41 | no errors iff the trimmed first name, last name, e-mail and phone are non-empty, the password has 6 or more characters, and the confirmation equals it |
| RegisterForm.UncheckedFieldsNeverError | src/components/auth/RegisterForm.tsx:30-38 | address, birth date, birth place, city, country, profession and level never carry an error |
| RegisterForm.EmptyPasswordGetsLengthMessage | src/components/auth/RegisterForm.tsx:34-35 | an empty password ends with the length message, and no field ever ends with the "required" password message |
| RegisterForm.MismatchOnlyUnderConfirmation | src/components/auth/RegisterForm.tsx:36-38 | the confirmation carries an error iff the passwords differ, and the mismatch message appears under no other field |
| RegisterForm.BlankNameIsRequired | src/components/auth/RegisterForm.tsx:30 | a first name of whitespace alone gets "Le prénom est requis" |
| RegisterForm.AllChecksIsFormErrors | src/components/auth/RegisterForm.tsx:28-38 | running the six checks in order gives the field-by-field error dictionary |
| RegisterForm.AllChecksAt | src/components/auth/RegisterForm.tsx:28-38 | after the checks a field is present iff it has a final error, and then holds exactly that message |
| RegisterForm.ValidationSteps | src/components/auth/RegisterForm.tsx:28-38 | the seven conditional writes in source order, later writes overriding earlier ones, leave the error dictionary |
| RegisterForm.PasswordWrites | src/components/auth/RegisterForm.tsx:34-35 | the two password writes together leave only the length message, when it applies |
| RegisterForm.RegistrationForm.constructor | src/components/auth/RegisterForm.tsx:9-24 | all fields empty except level "debutant"; no errors |
| RegisterForm.RegistrationForm.ValidateForm | src/components/auth/RegisterForm.tsx:27-42 | the errors become the form's error dictionary, and the result is true iff it is empty |
| RegisterForm.RegistrationForm.HandleChange | src/components/auth/RegisterForm.tsx:44-49 | the field takes the value; if that field showed an error, the error is blanked; other errors stay |
| RegisterForm.RegistrationForm.HandleSubmit | src/components/auth/RegisterForm.tsx:51-60 | `register` is called iff the form is valid; an invalid form leaves its errors; a failed registration leaves only the e-mail error |
| CandidateDashboard.Steps | src/pages/CandidateDashboard.tsx:73-102 | four steps in order: payment completed iff paid and current iff not; exam completed iff taken and current iff paid, not taken and not started; correction completed iff scored and current iff taken and unscored; certificate completed iff issued and current iff scored and not issued |
| CandidateDashboard.NoStepCompletedAndCurrent | src/pages/CandidateDashboard.tsx:73-102 | no step is ever both completed and current |
| CandidateDashboard.StepsInOrder | src/pages/CandidateDashboard.tsx:73-102 | for a candidate who went through the steps in order, the completed steps are exactly the first ones and the next step is the only current one |
| CandidateDashboard.TwoCurrentSteps | src/pages/CandidateDashboard.tsx:74-94 | an unpaid candidate marked as having taken the exam sees both payment and correction as current |
| CandidateDashboard.StatusLabel | src/pages/CandidateDashboard.tsx:343-345 | "Certifié" iff scored; else "En correction" iff exam taken; else "Prêt pour examen" iff paid; else "En attente de paiement" |
| CandidateDashboard.CertifiedIgnoresThreshold | src/pages/CandidateDashboard.tsx:290-298 | a failing score still gives "Certifié" while the download stays hidden |
| CandidateDashboard.LabelSameForPassAndFail | src/pages/CandidateDashboard.tsx:290-298 | a passing and a failing score give the same label; only the passing one shows the download |
| CandidateDashboard.ZeroScoreShowsBothPanels | src/pages/CandidateDashboard.tsx:247 | with the exam taken and a score of 0, the waiting panel and the result panel show together |
| CandidateDashboard.PanelsExclusiveOtherwise | src/pages/CandidateDashboard.tsx:271 | with any score other than 0, at most one of the two panels shows |
| CandidateDashboard.UserRef.constructor | src/pages/CandidateDashboard.tsx:11 | the shared user object holds the signed-in user |
| CandidateDashboard.CandidatePage.constructor | src/pages/CandidateDashboard.tsx:13-15 | the page is paid iff the user's `hasPaid` is true; the payment form is hidden, the exam not started, and nothing started |
| CandidateDashboard.CandidatePage.HandlePaymentSuccess | src/pages/CandidateDashboard.tsx:36-41 | paid on the page and in the shared user object, payment form closed, exam state untouched; the payment step is then completed and the label no longer awaits payment |
| CandidateDashboard.CandidatePage.HandleStartExamAsWritten | src/pages/CandidateDashboard.tsx:43-50 | as written: the call throws a TypeError exactly when the user has a level, and nothing changes |
| CandidateDashboard.CandidatePage.HandleStartExam | src/pages/CandidateDashboard.tsx:43-50 | assuming the context supplies `startExam`: without a level, the exam state is unchanged; with one, exactly that level is started and the exam marked started |
| QuestionCard.InitialText | src/components/exam/QuestionCard.tsx:22-24 | the initial text is the current answer when it is text, and empty otherwise |
| QuestionCard.QuestionCardState.constructor | src/components/exam/QuestionCard.tsx:22-25 | the text starts from the current answer, the hint is hidden, and nothing has been forwarded |
| QuestionCard.QuestionCardState.HandleTextChange | src/components/exam/QuestionCard.tsx:27-30 | the text is kept locally and exactly that text is forwarded once |
| QuestionCard.QuestionCardState.HandleOptionSelect | src/components/exam/QuestionCard.tsx:32-34 | the index is forwarded once, unchanged, and the text stays |
| QuestionCard.QuestionCardState.ToggleHint | src/components/exam/QuestionCard.tsx:64 | the hint panel flips |
| QuestionCard.GetQuestionHint | src/components/exam/QuestionCard.tsx:36-51 | the hint is always one of the five fixed texts |
| QuestionCard.FirstApplicable | src/components/exam/QuestionCard.tsx:36-51 | reference rule: the hint of the first rule all of whose keywords occur, or the default when none applies |
| QuestionCard.HintIsFirstApplicableRule | src/components/exam/QuestionCard.tsx:38-50 | the card's if-chain equals first-match over the rule table "leader transformationnel", "conflit", "communication", ("développer" and "équipe") |
| QuestionCard.KeywordRule | src/components/exam/QuestionCard.tsx:38-47 | a rule of one or two keywords applies iff each of them occurs |
| QuestionCard.DefaultHintIff | src/components/exam/QuestionCard.tsx:50 | the default hint is given iff no keyword test succeeds |
| QuestionCard.CapitalKeywordsGetTeamHint | src/components/exam/QuestionCard.tsx:47-49 | a question writing "DÉVELOPPER" and "ÉQUIPE" in capitals gets the team hint when the earlier keyword tests fail |
| QuestionCard.ConflictBeforeCommunication | src/components/exam/QuestionCard.tsx:41-46 | a text with "conflit" before "communication" and no "leader transformationnel" gets the conflict hint |
| QuestionCard.FeedbackFor | src/components/exam/QuestionCard.tsx:127-137 | "trop courte" iff fewer than 50 characters, "détaillée" iff 200 or more, plain in between; never both |
| QuestionCard.AtMostOneSelected | src/components/exam/QuestionCard.tsx:96-105 | at most one option is marked, and a text answer or no answer marks none |
| QuestionCard.SelectionMarksOption | src/components/exam/QuestionCard.tsx:105-106 | after selecting an index and receiving it back, option i is marked iff i is that index |
| QuestionCard.PointsLabel | src/components/exam/QuestionCard.tsx:61 | the label starts with the points, which `parseInt` reads back, and ends in "s" iff points > 1 |
| PaymentForm.PayDisabled | src/components/payment/PaymentForm.tsx:135-138 | the pay button's `disabled` expression; its meaning per method is stated by `StripeNeedsCardFields` and `CinetPayNeedsPhone` |
| PaymentForm.StripeNeedsCardFields | src/components/payment/PaymentForm.tsx:135-138 | with the card method the phone is irrelevant, and pay is enabled iff card number, expiry and CVV are all filled |
| PaymentForm.CinetPayNeedsPhone | src/components/payment/PaymentForm.tsx:135-138 | with mobile money the card fields are irrelevant, and pay is enabled iff a phone number is filled |
| PaymentForm.PaymentFormState.constructor | src/components/payment/PaymentForm.tsx:14-19 | card payment is preselected, nothing is entered or processing, and pay is disabled |
| PaymentForm.PaymentFormState.SelectMethod | src/components/payment/PaymentForm.tsx:70 | only the method changes; the entered fields are kept |
| PaymentForm.PaymentFormState.SetCardNumber | src/components/payment/PaymentForm.tsx:95 | the card number takes the typed value |
| PaymentForm.PaymentFormState.SetExpiryDate | src/components/payment/PaymentForm.tsx:103 | the expiry date takes the typed value |
| PaymentForm.PaymentFormState.SetCvv | src/components/payment/PaymentForm.tsx:110 | the CVV takes the typed value |
| PaymentForm.PaymentFormState.SetPhoneNumber | src/components/payment/PaymentForm.tsx:123 | the phone number takes the typed value |
| PaymentForm.PaymentFormState.HandlePayment | src/components/payment/PaymentForm.tsx:29-37 | called from the enabled pay button (lines 130-138); processing is shown during the wait and cleared after it; the success callback is called exactly once; there is no failure outcome |
| PaymentForm.SwitchAndBack | src/components/payment/PaymentForm.tsx:70 | switching to mobile money and back restores the card method and the pay button's state |
| Text.Lower | src/contexts/ExamContext.tsx:131 | `toLowerCase` keeps the length |
| Text.ContainsIff | src/contexts/ExamContext.tsx:131 | the scanning `includes` holds iff the text occurs at some index |
| Text.KeywordAnywhere | src/components/exam/QuestionCard.tsx:41 | a lower-case keyword anywhere in a text is found after folding the text |
| Text.TrimEmptyIff | src/components/auth/RegisterForm.tsx:30 | `trim()` gives "" iff the string is whitespace only |
| Text.ParseIntOfPrefix | src/pages/ExaminerDashboard.tsx:406 | `parseInt` reads back a printed integer followed by any text that does not start with a digit |
| Text.FoldedKeywordAnywhere | src/contexts/ExamContext.tsx:129-131 | a word whose folded form is the keyword, written anywhere, is found by the search on the folded text |
| Text.ParseIntToString | src/pages/ExaminerDashboard.tsx:406 | `parseInt` reads back what `toString` writes, for every integer |
| Text.ParseInt | src/pages/ExaminerDashboard.tsx:406 | `parseInt` gives NaN iff no digit follows the leading whitespace and optional sign |
| Text.PadStart | src/components/exam/ExamTimer.tsx:30 | the result has at least the width, ends with the original, and is fill characters before it |
| Text.NatToStringValue | src/components/exam/ExamTimer.tsx:30 | the decimal text of a natural number reads back as that number |
| Collections.FirstIndex | src/contexts/ExamContext.tsx:150 | `findIndex`: the first passing index, or -1 iff none passes |
| Collections.Find | src/contexts/ExamContext.tsx:126 | `find`: found iff some element passes, and then it is the element at the first passing index |
| Collections.Filter | src/pages/AdminDashboard.tsx:239 | `filter`: an order-preserving subsequence holding exactly the passing elements |
| Collections.FilterMultiplicity | src/pages/AdminDashboard.tsx:304 | `filter` keeps every copy of a passing element and no copy of a failing one |
| Collections.Count | src/pages/AdminDashboard.tsx:228-234 | `filter(p).length` is the number of positions whose element passes `p` |
| Collections.FilterLength | src/pages/AdminDashboard.tsx:228-234 | the filtered list has one element per passing position |
| Collections.FilterConcat | src/pages/AdminDashboard.tsx:239 | filtering a concatenation is the concatenation of the filtered parts |
| Collections.UpdateWhere | src/pages/AdminDashboard.tsx:310-312 | `map(x => p(x) ? f(x) : x)`: same length, passing elements replaced by their image, others untouched |
| Collections.UpdateWhereTwice | src/pages/AdminDashboard.tsx:309-315 | an update that keeps its elements selected and undoes itself restores the list when applied twice |
| Collections.SumOfSplit | src/pages/AdminDashboard.tsx:233 | a `reduce` sum splits over the elements that pass a test and those that fail it |

## Left out

- Rendering, CSS classes, icons, and the show/hide flags of modals and panels are not modelled. They are presentation only.
- The progress bar widths are not modelled: ModuleProgress.tsx:202 and the candidate page's bar. They are floating-point percentages.
- `setTimeout` and `setInterval` delays, `async`/`await` and React effect scheduling are not modelled. `submitModule`, the tick and `handlePayment` are synchronous steps, and the interleaving of the interval with a manual submit is not modelled.
- Ids and dates are method parameters: `Date.now()` ids, `new Date()` timestamps, the ISO date of a created user, and the "now" of the exam window (integer milliseconds).
- `Intl.NumberFormat` and `Intl.DateTimeFormat` (`formatPrice`, `formatDate`) are not modelled. They are locale library calls.
- `window.confirm` is a boolean parameter of `DeleteUser`. `alert` and `console.log` have no effect on the state; the submission that `submitModule` only logs is returned instead.
- `getCertificationById` lives in a data file that is not part of this model. It is a map parameter of `StartModule`.
- The registration call of the authentication context is not part of this model. Its outcome is a parameter of `HandleSubmit`.
- The UI primitives are not part of this model.
- `startExam` and `getExamByLevel` are used by the candidate page but not provided by the exam context's value (ExamContext.tsx:187-196). As written, the page fails for every candidate with a level: `getExamByLevel(user.level)` (CandidateDashboard.tsx:71) throws a TypeError while rendering, and `startExam(user.level)` (:48) throws before `setExamStarted(true)` (:49). `HandleStartExamAsWritten` states the second failure (see Findings). `HandleStartExam` assumes a working `startExam`: it records the level it would start and models nothing of the exam the context would load. The render-time failure is not modelled.
- The countdown component also reads `currentCertification` and `currentModuleIndex`, which the context does not provide. The model uses only `timeRemaining`, `setTimeRemaining` and `submitModule`.
- Text.Lower: folds the ASCII capitals A-Z and the Latin-1 capitals À-Þ except ×. `toLowerCase` also folds capitals outside Latin-1 (Latin Extended, Greek, Cyrillic and others), which the model leaves as they are. So the user and submission searches can differ from the source on text holding such capitals. The category and hint keywords use only the letters a-z and é, and no capital outside Latin-1 folds to any of those letters on its own, so `CategoryOf` and `GetQuestionHint` are unaffected.
- Text.ParseInt: models base-ten digits after leading whitespace and a sign. It does not model `0x` prefixes, `Infinity`, or precision loss on long numerals.
- Numbers are unbounded integers. JavaScript's floating point is not modelled, including a fractional `timeRemaining`, a fractional duration, and scores beyond 2^53.
- String lengths count Dafny characters, not UTF-16 code units. This affects the password length check and the 50/200 answer-length thresholds only for characters outside the Basic Multilingual Plane.
- The candidate page's guard `if (!user) return null` is not modelled; the page is constructed with a user.
- Not modelled, because they change no modelled state or only log: the candidate page's `saveProfile` and `sendSupportMessage`, the examiner's `saveProfile` and `exportCorrections`, and the administrator's `sendEmailToExaminer` and certificate handlers.
- Not modelled because they are static content, lookup tables and routing: src/pages/LandingPage.tsx, src/components/layout/Header.tsx and src/App.tsx.

## Findings

| source | as written | input that shows it | evidently intended | confidence | as-written member | corrected member |
|---|---|---|---|---|---|---|
| src/pages/CandidateDashboard.tsx:48 | `startExam` is taken from `useExam()`, but the exam context's value (src/contexts/ExamContext.tsx:187-196) has no `startExam`, so `startExam(user.level)` throws a TypeError and the exam never starts | any candidate with a level, e.g. `level: 'debutant'`, clicking the start button | the context supplies `startExam`, the level's exam is started and `examStarted` becomes true | not executed | CandidateDashboard.CandidatePage.HandleStartExamAsWritten | CandidateDashboard.CandidatePage.HandleStartExam |
