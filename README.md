# QuiZilla quiz core in Dafny

QuiZilla is a quiz application. Users sign up as students or administrators.
A user creates an organisation, and other users join it with its 4-digit join
code and its password. The owner of an organisation publishes multiple-choice
tests. Members take a test page by page and submit their answers. The backend
scores each attempt, appends it to the test's attempt log and serves a
leaderboard ordered by score, then by time taken.

This project models that core and proves properties of it:

- `common.dfy` (module `Common`): status codes, the `Result`/`Option` wrappers, decimal numerals and ASCII upper-casing.
- `scoring.dfy` (module `Scoring`): questions, answers, attempts and the scoring loop of the attempt route.
- `ranking.dfy` (module `Ranking`): the leaderboard comparator, a stable insertion sort `Rank` as its specification, and the in-place array sort proved equal to it.
- `test_routes.dfy` (module `TestRoutes`): the test routes over a test table: create (owner only), list, read, submit an attempt, leaderboard.
- `orgs.dfy` (module `Orgs`): the organisation routes: join-code generation, create, join, the created/joined lists, read access and owner-only delete.
- `auth.dfy` (module `Auth`): sign-up and log-in over a user table.
- `test_page.dfy` (module `TestPage`): the test-taking page: the question cursor, the answer map, the submission payload and the clock.
- `authoring.dfy` (module `Authoring`): the test-authoring form: add, remove and edit questions, the create-test payload, and the reset.
- `leaderboard_page.dfy` (module `LeaderboardPage`): the leaderboard page's time column, medal badges, top-three marking and attempt count.
- `end_to_end.dfy` (module `EndToEnd`): what the pages send against what the routes accept, and a scenario from creating an organisation to joining it.

Records that the server updates in place are `class`es holding `map` tables:
`TestStore`, `OrgStore` and `UserStore`. Their methods carry `modifies`
clauses and state the whole new table. The page components are classes too:
`TestSession` and `TestForm`, with one method per handler.

Calls into code outside the core become parameters:

- `bcrypt.compare` is a function parameter `matches(password, hash)`.
- The hash produced by `bcrypt.hash` is a parameter.
- `jwt.sign` is represented by the claims it signs.
- Ids the database assigns are parameters, with the precondition that the id is fresh.
- The timestamp of an attempt is a parameter.
- The successive `Math.random` draws are a sequence parameter.
- The `window.confirm` answer and the elapsed-time counter are parameters.

Three behaviours of the code are worth knowing, and the model keeps them:

- **Repeated answers.** The attempt route's `forEach` counts every entry, so a repeated correct answer scores twice, and the score can exceed the number of questions (`Scoring.RepeatedAnswerCountsTwice`). The test page never sends repeated indices (`TestPage.PayloadMatchesAnswers`), so its submissions stay within bounds (`EndToEnd.TakeTest`).
- **Out-of-range question index.** An index outside the question list makes the handler throw inside its `try`. It answers 500 "Failed to submit attempt" and leaves the log unchanged.
- **Status codes.** A duplicate email at sign-up and a join by an existing member both get 400.

## Model

| member | source | states |
|---|---|---|
| Scoring.ScoreAnswers | backend/routes/test.js:91-98 | the loop yields a score exactly when every answer's question index is in range, and the score is the number of entries whose selected option equals that question's `correctIndex` |
| Scoring.CountCorrectAppend | backend/routes/test.js:94-98 | the score of two answer lists in sequence is the sum of their scores: every entry counts on its own |
| Scoring.CountCorrectIsCardinality | backend/routes/test.js:94-98 | the score is the number of positions in the answer list whose answer is correct |
| Scoring.CountCorrectAtMostAnswers | backend/routes/test.js:92-98 | the score never exceeds the number of submitted answers |
| Scoring.IndexSetSize | backend/routes/test.js:94-98 | answers with distinct question indices have exactly as many indices as entries |
| Scoring.DistinctScoreAtMostQuestions | backend/routes/test.js:92-98 | with distinct in-range indices the score is at most the number of questions |
| Scoring.RepeatedAnswerCountsTwice | backend/routes/test.js:94-98 | one question answered correctly twice scores 2 out of 1 question |
| Scoring.Range | backend/routes/test.js:95 | the valid question indices are exactly 0 to n-1, n of them |
| Ranking.Compare | backend/routes/test.js:139-142 | the route's comparator, `b.score - a.score` unless the scores are equal, then `a.timeTaken - b.timeTaken`; its meaning is stated by `Ranking.CompareMeaning` |
| Ranking.CompareMeaning | backend/routes/test.js:138-143 | the comparator puts `a` first exactly when it has the higher score, or the same score and the lower time; it is 0 exactly on full ties and is antisymmetric |
| Ranking.Insert | backend/routes/test.js:138-143 | one insertion step of the stable sort; `Ranking.InsertPermutation`, `Ranking.InsertSorted`, `Ranking.InsertTies` and `Ranking.InsertAt` state what it does |
| Ranking.Rank | backend/routes/test.js:138-143 | the result of `attempts.sort(...)` as a stable insertion sort; `Ranking.RankPermutation`, `Ranking.RankSorted`, `Ranking.RankStable` and `Ranking.StableSortIsRank` state that it is the one stable ordering of the log |
| Ranking.InsertPermutation | backend/routes/test.js:138-143 | inserting an attempt keeps every attempt, with its multiplicity |
| Ranking.RankPermutation | backend/routes/test.js:135-143 | the leaderboard is a permutation of the stored attempts |
| Ranking.InsertSorted | backend/routes/test.js:138-143 | inserting into an ordered list keeps it ordered by score descending, then time ascending |
| Ranking.RankSorted | backend/routes/test.js:138-143 | the leaderboard is ordered by score descending, then time ascending |
| Ranking.InsertTies | backend/routes/test.js:138-143 | inserting keeps the relative order of the attempts in each group of full ties |
| Ranking.RankStable | backend/routes/test.js:138-143 | fully tied attempts keep their insertion order (the sort is stable, as ECMA-262 10th edition, section 22.1.3.27 requires) |
| Ranking.TiesMember | backend/routes/test.js:138-143 | an attempt in a tie group is in the list and has that group's score and time |
| Ranking.HeadTies | backend/routes/test.js:138-143 | the first attempt of a list belongs to its own tie group |
| Ranking.HeadRanksFirst | backend/routes/test.js:138-143 | in an ordered list no attempt ranks strictly before the first |
| Ranking.SortedTieEqual | backend/routes/test.js:138-143 | two ordered lists with the same tie groups in the same order are equal, so a stable sort has exactly one result |
| Ranking.StableSortIsRank | backend/routes/test.js:138-143 | any ordered arrangement that keeps the order within tie groups is the leaderboard |
| Ranking.RankIdempotent | backend/routes/test.js:138-143 | sorting the leaderboard again changes nothing |
| Ranking.InsertAt | backend/routes/test.js:138-143 | insertion places the attempt after exactly those that rank strictly before it |
| Ranking.InsertStep | backend/routes/test.js:138 | one pass of the in-place sort inserts element `i` into the sorted suffix and leaves the prefix alone |
| Ranking.SortInPlace | backend/routes/test.js:138-143 | the array sorted in place equals the leaderboard order of its old contents |
| Ranking.RankExamples | backend/routes/test.js:138-143 | 8 points beats 7 points whatever the time; with equal scores, 45 s beats 90 s |
| TestRoutes.TestStore.CreateTest | backend/routes/test.js:14-32 | 404 for an unknown organisation, 403 unless the caller owns it, with the table unchanged; otherwise exactly one test with no attempts is stored |
| TestRoutes.TestStore.TestsOf | backend/routes/test.js:44-46 | the listed tests are exactly those of the organisation |
| TestRoutes.TestStore.GetTest | backend/routes/test.js:58-66 | 404 exactly for an unknown test id; otherwise the stored record, whose `id` is the requested one |
| TestRoutes.Log | backend/routes/test.js:108 | `Array.isArray(test.attempts) ? test.attempts : []`, also at line 135; the attempt route appends to it (`TestRoutes.TestStore.SubmitAttempt`) and the leaderboard ranks it (`TestRoutes.TestStore.GetLeaderboard`) |
| TestRoutes.TestStore.SubmitAttempt | backend/routes/test.js:79-121 | 404 for an unknown test; 500 with the table unchanged when an index is out of range or the caller has no user record; otherwise the old log (empty if not an array) plus exactly one attempt with the score and time, and a report whose total is the number of questions |
| TestRoutes.TestStore.GetLeaderboard | backend/routes/test.js:127-148 | 404 for an unknown test; otherwise the title and the stored log in leaderboard order |
| Orgs.CodeOfDraw | backend/routes/org.js:15 | a draw gives a 4-digit decimal code without a leading zero whose value is 1000 plus the draw |
| Orgs.CodeOfDrawInjective | backend/routes/org.js:15 | different draws give different codes |
| Orgs.JoinChecks | backend/routes/org.js:61-80 | 401 on a password mismatch, then 400 for an existing member; on success the member list gains exactly the caller at the end |
| Orgs.JoinKeepsMembersDistinct | backend/routes/org.js:68-80 | a successful join never creates a duplicate member |
| Orgs.JoinTwiceRefused | backend/routes/org.js:68-70 | joining again after a successful join is refused with 400 |
| Orgs.OrgStore.GenerateJoinCode | backend/routes/org.js:10-23 | the code returned is a 4-digit code held by no organisation, and it comes from the first draw whose code was free |
| Orgs.OrgStore.Create | backend/routes/org.js:28-39 | the caller becomes the owner, the member list starts empty, and the join code is a fresh 4-digit code from the first free draw; nothing else changes |
| Orgs.OrgStore.CodeInUse | backend/routes/org.js:16-19 | the `findUnique` on `joinCode` that decides whether `generateJoinCode` draws again; `Orgs.OrgStore.GenerateJoinCode` and `Orgs.OrgStore.FindByJoinCode` state their results in terms of it |
| Orgs.OrgStore.FindByJoinCode | backend/routes/org.js:53-55 | finds an organisation exactly when one holds the code |
| Orgs.OrgStore.Join | backend/routes/org.js:53-80 | 404 for an unknown code, then the checks of `JoinChecks` on the organisation holding it; only a successful join changes the table, and only that organisation |
| Orgs.OrgStore.Created | backend/routes/org.js:92-97 | lists exactly the organisations the user owns |
| Orgs.OrgStore.Joined | backend/routes/org.js:109-118 | lists exactly the organisations whose members include the user |
| Orgs.OrgStore.GetById | backend/routes/org.js:130-146 | 404 for an unknown id, 403 for a caller who is neither owner nor member, otherwise the record |
| Orgs.OrgStore.ViewableIffListed | backend/routes/org.js:92-146 | a caller can read an organisation exactly when it is in their created or joined list |
| Orgs.OrgStore.OwnerCheck | backend/routes/org.js:156-166 | 404 for an unknown id, 403 for anyone but the owner; it succeeds exactly for the owner's organisations |
| Orgs.OrgStore.OwnerMayView | backend/routes/org.js:137-146 | an owner who passes the owner check can also read the organisation |
| Orgs.OrgStore.Delete | backend/routes/org.js:156-172 | on error the table is unchanged and the error is the owner check's; it succeeds exactly for the owner, and then removes that organisation and no other |
| Auth.NormaliseRole | backend/controllers/authController.js:22 | the role is ADMIN exactly when the given role spells "admin" in any mix of ASCII cases |
| Auth.UserStore.EmailTaken | backend/controllers/authController.js:16 | the `findUnique` on `email`; `Auth.UserStore.FindByEmail` and `Auth.UserStore.Signup` state their results in terms of it |
| Auth.UserStore.FindByEmail | backend/controllers/authController.js:16 | finds a user exactly when one has the email |
| Auth.UserStore.Signup | backend/controllers/authController.js:11-28 | 400 with no change for a missing field or a taken email; otherwise exactly one user is added, holding the hash and the normalised role, and emails stay unique |
| Auth.UserStore.Login | backend/controllers/authController.js:38-60 | 400 for a missing field; an unknown email and a wrong password give the same 400; success exactly when a user with the email has a matching password, with claims carrying that user's id and role |
| TestPage.Entries | frontend/src/pages/Test.jsx:86-89 | `Object.entries(answers).map(...)` over the keys in a range of question indices; `TestPage.EntriesSound`, `TestPage.EntriesAscending`, `TestPage.EntriesComplete` and `TestPage.EntriesCount` state its contents, order and length |
| TestPage.Payload | frontend/src/pages/Test.jsx:86-89 | the `answers` of the request body, `Entries` over all question indices; `TestPage.PayloadMatchesAnswers` states it |
| TestPage.EntriesSound | frontend/src/pages/Test.jsx:86-89 | every payload entry is a key of the answer map, in range, carrying the option stored for it |
| TestPage.EntriesAscending | frontend/src/pages/Test.jsx:86-89 | the entries come in strictly ascending question order (integer keys enumerate in ascending order, ECMA-262 10th edition, section 9.1.11.1) |
| TestPage.EntriesComplete | frontend/src/pages/Test.jsx:86-89 | every answered question in range has its entry |
| TestPage.KeysBetweenStep | frontend/src/pages/Test.jsx:86 | the keys in a range split into its first key and the rest |
| TestPage.EntriesCount | frontend/src/pages/Test.jsx:86-89 | the payload has one entry per key of the answer map |
| TestPage.PayloadMatchesAnswers | frontend/src/pages/Test.jsx:86-89 | the payload has one entry per answered question, with distinct in-range indices, so its score is at most the number of questions |
| TestPage.PadTwo | frontend/src/pages/Test.jsx:111 | `padStart(2, '0')`; `TestPage.PaddedSecondsReadBack` states it for seconds below 60 |
| TestPage.PaddedSecondsReadBack | frontend/src/pages/Test.jsx:110-111 | seconds below 60, padded to two characters with '0', are two digits that read back as the seconds |
| TestPage.FormatClock | frontend/src/pages/Test.jsx:108-112 | `formatTime` of the test page, `${mins}:${secs}` with padded seconds; `TestPage.FormatClockReadsBack` states that it reads back |
| TestPage.FormatClockReadsBack | frontend/src/pages/Test.jsx:108-112 | the clock shows minutes, a colon and two-digit seconds below 60, and minutes * 60 + seconds is the elapsed time |
| TestPage.TestSession.constructor | frontend/src/pages/Test.jsx:9-10 | the page starts on question 0 with no answers |
| TestPage.TestSession.SelectAnswer | frontend/src/pages/Test.jsx:51-56 | the current question's choice is replaced and every other choice is kept, so the last selection wins |
| TestPage.TestSession.Next | frontend/src/pages/Test.jsx:58-62 | moves forward only below the last question, so the cursor stays in range |
| TestPage.TestSession.Previous | frontend/src/pages/Test.jsx:64-68 | moves back only above 0, so the cursor never goes negative |
| TestPage.TestSession.Submit | frontend/src/pages/Test.jsx:70-91 | nothing is sent exactly when fewer questions are answered than exist and the user declines; otherwise the payload of the answer map, with distinct in-range indices and the elapsed time |
| Authoring.Without | frontend/src/pages/Organization.jsx:51 | the filter drops exactly the element at the index and keeps the order of the rest |
| Authoring.SelectedIndex | frontend/src/pages/Organization.jsx:84 | the parsed select value is the option the select showed, in 0..3 |
| Authoring.Payload | frontend/src/pages/Organization.jsx:81-85 | the request has as many questions as the form |
| Authoring.PayloadFaithful | frontend/src/pages/Organization.jsx:81-85 | each request question carries the form's text and options, and an answer key in 0..3 equal to the select's choice |
| Authoring.TestForm.constructor | frontend/src/pages/Organization.jsx:11-14 | the form starts with an empty title and one blank question of four empty options |
| Authoring.TestForm.SetTitle | frontend/src/pages/Organization.jsx:152 | only the title changes |
| Authoring.TestForm.AddQuestion | frontend/src/pages/Organization.jsx:43-48 | one blank question is appended and the others are unchanged |
| Authoring.TestForm.RemoveQuestion | frontend/src/pages/Organization.jsx:50-53 | exactly the question at the index goes, the rest keep their order, and the list, offered removal only above one question, never becomes empty |
| Authoring.TestForm.QuestionChange | frontend/src/pages/Organization.jsx:55-59 | only the named field of the named question changes |
| Authoring.TestForm.OptionChange | frontend/src/pages/Organization.jsx:61-65 | only the named option of the named question changes |
| Authoring.TestForm.Request | frontend/src/pages/Organization.jsx:81-85 | the request of a form in any reachable state is non-empty and every answer key names one of four options |
| Authoring.TestForm.Reset | frontend/src/pages/Organization.jsx:95-99 | after a create the form is back to one blank question |
| LeaderboardPage.IntString | frontend/src/pages/Leaderboard.jsx:42 | a non-negative integer is shown as its decimal numeral |
| LeaderboardPage.JsRem | frontend/src/pages/Leaderboard.jsx:41 | the remainder takes the dividend's sign, and for a non-negative dividend it lies in 0..59 and completes the division |
| LeaderboardPage.FormatDuration | frontend/src/pages/Leaderboard.jsx:39-43 | `formatTime` of the leaderboard, `${Math.floor(s / 60)}m ${s % 60}s`; see `LeaderboardPage.FormatDurationReadsBack`, `LeaderboardPage.FormatDurationInjective` and `LeaderboardPage.NegativeDurationShown` |
| LeaderboardPage.SplitFields | frontend/src/pages/Leaderboard.jsx:42 | the minutes and seconds numerals can be read back from the display |
| LeaderboardPage.FormatDurationInjective | frontend/src/pages/Leaderboard.jsx:39-43 | different non-negative times are displayed differently |
| LeaderboardPage.FormatDurationReadsBack | frontend/src/pages/Leaderboard.jsx:39-43 | the display shows minutes and seconds below 60, and minutes * 60 + seconds is the time |
| LeaderboardPage.NegativeDurationShown | frontend/src/pages/Leaderboard.jsx:39-43 | -5 seconds shows as "-1m -5s" |
| LeaderboardPage.MedalLabel | frontend/src/pages/Leaderboard.jsx:50-55 | `getMedalEmoji`; see `LeaderboardPage.MedalLabelInjective` and `LeaderboardPage.NumeralNotMedal` |
| LeaderboardPage.MedalLabelInjective | frontend/src/pages/Leaderboard.jsx:50-55 | different ranks get different badges, and exactly ranks 1 to 3 get a medal |
| LeaderboardPage.NumeralNotMedal | frontend/src/pages/Leaderboard.jsx:54 | a numeral badge is never a medal |
| LeaderboardPage.RowOf | frontend/src/pages/Leaderboard.jsx:92-101 | one row of `leaderboard.map((entry, index) => ...)`: badge, top-three class, name, score and time; see `LeaderboardPage.RowsWellRanked` |
| LeaderboardPage.RowsWellRanked | frontend/src/pages/Leaderboard.jsx:92-95 | rows carry distinct badges, and a row is marked top-three exactly when its badge is a medal |
| LeaderboardPage.AttemptCountLabel | frontend/src/pages/Leaderboard.jsx:76 | the label starts with the count and ends in "s" exactly when the count is not 1 |
| EndToEnd.TakeTest | frontend/src/pages/Test.jsx:70-91 | a payload from the test page, submitted by a registered user, is always scored: the attempt is logged once and the score is at most the total |
| EndToEnd.StudentJoins | backend/routes/org.js:53-80 | a student joining a new club with its code and the right password becomes its only member, and that record is the only change |
| EndToEnd.PublishTest | frontend/src/pages/Organization.jsx:67-87 | publishing succeeds exactly for the owner; then the one new record holds the form's title and the request built from its questions, each with the form's text and options and the select's choice as answer key in 0..3; on error the table is unchanged |

## Left out

- HTTP and `fetch` plumbing, the JWT middleware, status-only error rendering and navigation: the model works on the handlers' inputs and outcomes.
- Prisma query semantics: each table is a map from id to record. The tests that `include: { tests: true }` attaches to an organisation are not modelled.
- bcrypt and JWT internals: they are foreign library calls, represented as parameters.
- `Math.random`: the draws are a parameter. The loop in `generateJoinCode` has no bound, so `Orgs.OrgStore.GenerateJoinCode` and `Orgs.OrgStore.Create` require that some draw gives a free code.
- Concurrency: the race between choosing a join code and creating the organisation, and the read-modify-write of the attempt log. The model is sequential.
- The `setInterval` timer, the `window.confirm` dialog itself (its answer is the `confirmed` parameter of `TestPage.TestSession.Submit`), `alert`, `localStorage` and the `submitted` flag of the test page: these are UI side effects.
- `new Date().toISOString()`, `toLocaleString` and the progress-bar width: these are dates and floating point.
- Request bodies of the wrong shape: non-array `answers`, non-integer indices, missing fields reaching `bcrypt.hash` in the organisation create route. These are 500 paths the model does not enumerate. A missing sign-up or log-in field is modelled as the empty string.
- The cascade from a deleted organisation to its tests: that is a database relation, not code in the core.
- Unicode case mapping in `toUpperCase`: `Auth.NormaliseRole` upper-cases ASCII only.
- Authoring.TestForm.QuestionChange and Authoring.TestForm.OptionChange: the source mutates the question objects shared with the previous state through a shallow copy. Only the previous state, which React discards, sees the difference, so the model replaces the question by value.
- Authoring.FormQuestion: the initial `correctIndex` is the number 0, not the string "0". Both parse to 0, so the model stores "0".
- LeaderboardPage.FormatDuration: times are unbounded integers, so doubles beyond 2^53 are not modelled.
- The end-to-end scenarios (`EndToEnd.ClubScenario`, `EndToEnd.JoinRefusals`, `Authoring.AuthorScenario`, `TestPage.LastSelectionWins`) carry no `ensures`. The scenario step `EndToEnd.StudentJoins` has a contract: it states the table after the student's join.
- backend/controllers/orgController.js, frontend/src/pages/Dashboard.jsx, frontend/src/pages/Auth.jsx, frontend/src/pages/JoinedOrganization.jsx and the navigation components are not part of this model. They are either a single guarded create already covered by the organisation routes, mock data, or form and fetch glue.
