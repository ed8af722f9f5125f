# Learning platform web client: the client-side state and list logic

This project models, in Dafny, the logic inside the React components of a
learning-platform web client. It covers the quiz-taking session, the quiz
catalogue table, the course catalogue, the two-step sign-up form with its
password-strength meter, the profile page's history merge, the dashboard
lists and the navigation bar. Everything these components fetch is an input
to the model. The components' state is modelled as classes whose methods are
the event handlers. The derived lists are modelled as functions over sequences.

- `wrappers.dfy`: `Option` and `Result`.
- `text.dfy`: ASCII case mapping, `includes`, truncation, `split`/`join`,
  and JavaScript's ordering of strings.
- `seqs.dfy`: `filter` and `slice`, with their laws.
- `quiz_session.dfy` (`Quiz.js`): the fixed three-question bank and a
  `Session` class with `currentQuestionIndex`, `answers`, `feedback` and
  `result`. `answers` is a `seq<Option<string>>`: `None` is a hole of the
  sparse array, and a hole never scores.
- `quiz_list.dfy` (`QuizList.js`): the status of each quiz, then filtering and
  sorting the table, the sort toggle, the sort icon, the completed count and
  the link in each row.
- `course_list.dfy` (`CourseList.js`): card text truncation, the search and
  category filter, the first window of 8 cards and "Load More".
- `sign_up.dfy` (`SignUpPage.js`): password strength and the `step`/`error`
  state of the wizard.
- `profile.dfy` (`ProfilePage.js`): merging a fetched batch into the list
  skipping batch items whose id is already in the list. Quizzes (lines 58-64) and courses (lines 99-105)
  use the same rule, so one definition serves both.
- `dashboard.dfy` (`Dashboard.js`): card truncation, pending quizzes, the
  at-most-four lists and the quiz link.
- `navbar.dfy` (`Navbar.js`): the active item from the URL, the `current`
  flags, the click handler and the profile menu.

The quiz page has no loading, submission or retry: the question bank is a
constant and the score is computed in the browser (`Quiz.js:15-38`, `64-76`).

## Model

| member | source | states |
|---|---|---|
| QuizSession.Bank | src/Components/Quiz.js:15-38 | the bank has three questions, and each question's correct answer is one of its options |
| QuizSession.Score | src/Components/Quiz.js:65-67 | the score never exceeds the number of answer slots |
| QuizSession.ScoreCountsCorrect | src/Components/Quiz.js:64-67 | the score equals the number of positions whose answer equals that question's correct answer; holes never count |
| QuizSession.UnansweredScoresZero | src/Components/Quiz.js:64-67 | with no answer given, the score is 0 |
| QuizSession.AllCorrectScoresFull | src/Components/Quiz.js:64-67 | when every question is answered correctly, the score is the number of questions |
| QuizSession.ScoreOnPrefix | src/Components/Quiz.js:65-67 | the score reads only the questions that have an answer slot |
| QuizSession.MakeResult | src/Components/Quiz.js:69-73 | the result has totalQuestions = the bank size, score = the number of correct positions, 0 ≤ score ≤ totalQuestions, and pointsEarned = score × 100 |
| QuizSession.FeedbackFor | src/Components/Quiz.js:47-52 | isCorrect holds iff the answer equals the correct answer; otherwise the message names the correct answer |
| QuizSession.WithAnswer | src/Components/Quiz.js:41-44 | the copy has the chosen answer in the current slot; every other slot is unchanged; writing past the end leaves holes |
| QuizSession.AnswerOverwrites | src/Components/Quiz.js:41-44 | answering the same question twice leaves only the second choice |
| QuizSession.Session.constructor | src/Components/Quiz.js:8-11 | the session starts at question 0 with no answers, no feedback and no result |
| QuizSession.Session.NextLabel | src/Components/Quiz.js:142 | the button reads "Finish" iff the current question is the last one |
| QuizSession.Session.HandleAnswer | src/Components/Quiz.js:41-53 | only the current slot changes; feedback is set for that answer; the index stays; answers never grow past the bank size |
| QuizSession.Session.HandleNext | src/Components/Quiz.js:55-62 | feedback is cleared; below the last question the index goes up by exactly 1; on the last question the index stays and the result is the score of the answers |
| QuizSession.Session.HandleSubmit | src/Components/Quiz.js:64-76 | the stored result is the score of the current answers |
| QuizSession.ScenarioTwoOfThree | src/Components/Quiz.js:15-73 | on the built-in bank, the answers "Both A and B", "JavaScript XML" and "useState" give score 2 of 3 and 200 points |
| QuizListView.StatusName | src/Components/QuizList.js:31-34 | a status is shown as "Completed" or "Pending", and as "Completed" iff it is Completed |
| QuizListView.StatusFromResponse | src/Components/QuizList.js:26-35 | a status is Completed iff its request succeeded with a truthy body; a falsy body or a failed request gives Pending |
| QuizListView.AttachStatuses | src/Components/QuizList.js:24-37 | every fetched quiz is kept, in order, with its own status |
| QuizListView.Compare | src/Components/QuizList.js:50-54 | the comparator returns only -1, 0 or 1 |
| QuizListView.CompareAntisymmetric | src/Components/QuizList.js:50-54 | swapping the two rows negates the comparator; equal keys compare as 0 |
| QuizListView.InOrderTransitive | src/Components/QuizList.js:50-54 | in either direction, "may come before" is transitive |
| QuizListView.SortRows | src/Components/QuizList.js:50-54 | the sort returns a permutation of its input |
| QuizListView.SortRowsSorted | src/Components/QuizList.js:50-54 | the sorted rows are ascending by the column for asc and descending for desc |
| QuizListView.SortRowsStable | src/Components/QuizList.js:50-54 | rows that tie on the column keep their relative order |
| QuizListView.SortedQuizzesSpec | src/Components/QuizList.js:47-55 | the table shows exactly the rows that pass the status filter, each as often as in the input, ordered by the column |
| QuizListView.NextSort | src/Components/QuizList.js:57-64 | clicking the active column keeps the key and flips the order; clicking another column selects it in ascending order |
| QuizListView.SortTwiceRestores | src/Components/QuizList.js:58-59 | clicking the active column twice restores the order |
| QuizListView.SortIcon | src/Components/QuizList.js:66-75 | only the active column has an icon: up for asc, down for desc |
| QuizListView.CompletedCount | src/Components/QuizList.js:98-99 | the completed count is at most the number of quizzes |
| QuizListView.CompletedCountMatchesFilter | src/Components/QuizList.js:98 | the completed count equals the number of rows shown under the "Completed" filter |
| QuizListView.Action | src/Components/QuizList.js:214-232 | without a token the link goes to login; with one it reads "Review" for Completed quizzes and "Take Quiz" otherwise, and leads to that quiz |
| QuizListView.Table.constructor | src/Components/QuizList.js:8-13 | the table starts sorted by title, ascending, filter "all" |
| QuizListView.Table.Loaded | src/Components/QuizList.js:38 | the fetched quizzes are stored with their statuses |
| QuizListView.Table.HandleSort | src/Components/QuizList.js:57-64 | the new key and order are those of NextSort |
| QuizListView.Table.SetFilter | src/Components/QuizList.js:122 | the status filter is replaced |
| CourseCatalog.Shorten | src/Components/CourseList.js:48-52 | a title over 20 characters becomes its first 20 plus "..."; a description over 35 becomes its first 35 plus "...."; others are unchanged; the other fields are copied |
| CourseCatalog.ShortenAll | src/Components/CourseList.js:48-52 | every course is shortened, in order |
| CourseCatalog.EmptySearchKeepsAll | src/Components/CourseList.js:66-69 | the empty term with the "all" filter keeps every course |
| CourseCatalog.SearchIgnoresCase | src/Components/CourseList.js:67 | lower-casing the term does not change the result |
| CourseCatalog.Window | src/Components/CourseList.js:66-70 | the visible list is the first min(8, n) of the n matching courses |
| CourseCatalog.WindowSpec | src/Components/CourseList.js:66-70 | at most 8 courses are shown; each is in the catalogue and matches; they keep catalogue order |
| CourseCatalog.LoadMore | src/Components/CourseList.js:73-77 | the current cards stay as a prefix; exactly min(4, n − k) cards are added when k ≤ n cards of n courses are shown, none when k ≥ n; the added card at position i is course i of the whole catalogue |
| CourseCatalog.LoadMoreProgress | src/Components/CourseList.js:73-77 | while the button is shown, a press adds at least one card and never shows more cards than there are courses |
| CourseCatalog.LoadMoreExtendsPrefix | src/Components/CourseList.js:73-77 | paging an unfiltered prefix of length k gives the prefix of length min(k + 4, n) |
| CourseCatalog.LoadMoreIgnoresFilter | src/Components/CourseList.js:70-77 | after filtering, a press appends courses from the unfiltered catalogue; in the example it repeats a card already shown |
| CourseCatalog.Page.constructor | src/Components/CourseList.js:37-42 | the page starts with no courses, the empty term and the "all" filter |
| CourseCatalog.Page.Fetched | src/Components/CourseList.js:47-54 | the shortened courses are stored, and the visible list is set to the first 8 courses of the raw response, unshortened; this lasts until the filter effect runs |
| CourseCatalog.Page.FetchedAndFiltered | src/Components/CourseList.js:47-54 | after the fetch and the filter effect it triggers (the effect depends on `courses`, lines 65-71), the visible list is the window of 8 over the shortened courses |
| CourseCatalog.Page.FilterEffect | src/Components/CourseList.js:65-71 | the visible list becomes the filtered window |
| CourseCatalog.Page.SetSearchTerm | src/Components/CourseList.js:94-95 | the term is replaced and the window is recomputed |
| CourseCatalog.Page.SetFilter | src/Components/CourseList.js:101-102 | the category filter is replaced and the window is recomputed |
| CourseCatalog.Page.LoadMoreCourses | src/Components/CourseList.js:73-77 | the visible list becomes LoadMore of the old visible list; while the button is shown, a press adds at least one card and never exceeds the catalogue |
| SignUp.CheckPasswordStrength | src/Components/SignUpPage.js:46-54 | the strength is the number of criteria met, capped at 3 (longer than 6, longer than 10, an upper-case letter, a digit, a non-alphanumeric character), so it indexes the four labels and colours |
| SignUp.EmptyPasswordIsWeak | src/Components/SignUpPage.js:46-53 | the empty password has strength 0 |
| SignUp.StrengthMonotone | src/Components/SignUpPage.js:46-53 | typing one more character never lowers the strength |
| SignUp.StrengthLabel | src/Components/SignUpPage.js:9 | every strength up to 3 has a label in the table |
| SignUp.Form.constructor | src/Components/SignUpPage.js:13-20 | the form starts at step 1 with empty passwords, no error and strength 0 |
| SignUp.Form.HandleSubmit | src/Components/SignUpPage.js:22-44 | before step 2, step goes up by 1 and nothing is posted; at step 2, mismatched passwords set 'Passwords do not match' and nothing is posted; otherwise the sign-up is posted and a failure sets its error; step stays in {1, 2} |
| SignUp.Form.Previous | src/Components/SignUpPage.js:220-223 | shown only above step 1; it lowers step by 1 |
| SignUp.Form.HandlePasswordChange | src/Components/SignUpPage.js:56-60 | the password is stored and the meter shows its strength |
| SignUp.Form.SetConfirmPassword | src/Components/SignUpPage.js:179 | the confirmation is stored |
| ProfileHistory.Key | src/Components/ProfilePage.js:61 | an item has an id iff its per-item request succeeded |
| ProfileHistory.AttachDetails | src/Components/ProfilePage.js:43-57 | every requested item yields one entry, in order; a failed request yields the placeholder "Error fetching status" and does not abort the batch |
| ProfileHistory.Merge | src/Components/ProfilePage.js:58-64 | the previous list is a prefix of the result; batch items whose id is already in the previous list are skipped, so no appended item shares an id with an item of the previous list (duplicates inside one batch are kept); the length is at most the sum |
| ProfileHistory.MergeAppendsNewItems | src/Components/ProfilePage.js:60-63 | the appended items keep batch order, and every batch item with a new id is appended as many times as it occurs in the batch, so duplicates inside one batch are kept |
| ProfileHistory.MergeIdempotent | src/Components/ProfilePage.js:58-64 | merging the same batch twice adds nothing the second time |
| ProfileHistory.MergeIntoEmpty | src/Components/ProfilePage.js:58-64 | merged into the freshly reset empty list, a batch is returned unchanged, duplicates included |
| ProfileHistory.MergeAsWrittenAgrees | src/Components/ProfilePage.js:58-64 | when every per-item request succeeded, the code as written gives the same result as Merge |
| ProfileHistory.MergeAsWrittenIntoEmpty | src/Components/ProfilePage.js:58-64 | the code as written never throws when merging into the empty list |
| ProfileHistory.MergeAsWrittenThrowsOnPlaceholder | src/Components/ProfilePage.js:52-62 | the code as written throws when a batch with a placeholder is merged into a non-empty list |
| ProfileHistory.PlaceholderCounterexample | src/Components/ProfilePage.js:52-62 | one listed quiz plus one failed request: the code as written throws, and Merge appends the placeholder |
| DashboardView.CardText | src/Components/Dashboard.js:20-30 | a description over 27 characters becomes its first 27 plus "..."; a title over 20 becomes its first 20 plus "..."; the other fields are copied |
| DashboardView.CardsText | src/Components/Dashboard.js:20-30 | every course is shortened, in order |
| DashboardView.ShownCourses | src/Components/Dashboard.js:32 | exactly min(4, n) cards are shown, drawn from the shortened courses as a sub-multiset |
| DashboardView.ShownQuizzes | src/Components/Dashboard.js:33-34 | at most 4 quizzes are shown, all of them Pending, drawn from the fetched quizzes as a sub-multiset |
| DashboardView.Link | src/Components/Dashboard.js:99-123 | without a token the link goes to login; with one, "Take Quiz" for that quiz, enabled iff the quiz is Pending |
| NavBar.ActiveFromUrl | src/Components/Navbar.js:19-20 | a value exists iff the URL has at least three '/' (otherwise the code throws) |
| NavBar.ActiveIsFirstPathSegment | src/Components/Navbar.js:19-20 | for scheme://host/segment..., the active item is the segment with its first letter upper-cased |
| NavBar.NavItems | src/Components/Navbar.js:41-45 | an item is current iff its name is the active item, so at most one item is current |
| NavBar.Bar.constructor | src/Components/Navbar.js:8-11 | no item is active and the menu is closed |
| NavBar.Bar.LocationChanged | src/Components/Navbar.js:17-21 | the active item comes from the URL; a URL without a fourth segment throws and changes nothing |
| NavBar.Bar.HandleNavClick | src/Components/Navbar.js:48-50 | the clicked name becomes active, and exactly the item with that name is current |
| NavBar.Bar.Toggle | src/Components/Navbar.js:95 | the avatar button flips the menu |
| NavBar.Bar.MouseDown | src/Components/Navbar.js:25-29 | a mousedown outside the wrapper that holds both the avatar button and the menu (mounted while a token is present) closes the menu; a mousedown inside it, including on the avatar button, changes nothing |
| NavBar.Bar.Logout | src/Components/Navbar.js:52-56 | signing out closes the menu |
| Text.Lower | src/Components/CourseList.js:67 | lower-casing maps every character, keeps the length and leaves no upper-case letter |
| Text.ContainsIffOccurs | src/Components/CourseList.js:67 | `includes` holds iff the term occurs at some position |
| Text.SplitJoin | src/Components/Navbar.js:19 | joining the pieces of `split('/')` gives back the URL; no piece holds '/'; there is one piece more than there are '/' |
| Text.LessTotal | src/Components/QuizList.js:51-52 | two different strings compare one way or the other under `<` |

## Left out

- CourseCatalog.Page.Fetched: its visible list, the first 8 raw courses, is shown for one render only. The filter effect then replaces it, which `Page.FetchedAndFiltered` models.
- Network requests and `localStorage` are not modelled. Fetched data and request outcomes are inputs: the status responses, the per-item history requests, the sign-up outcome, and whether a token is present.
- The loading spinners and error screens are not modelled. Each is shown before its data arrives or after a failed fetch, and holds no logic beyond that.
- The progress percentages (`Quiz.js:91`, `QuizList.js:100`) are not modelled because they are floating point. The star ratings in the display-only files are left out for the same reason.
- The dashboard's shuffle `sort(() => 0.5 - Math.random())` is random. Its result is an input, required to be a rearrangement of the list.
- Confetti, animations, and the registration of DOM listeners are side effects and are not modelled.
- React's stale closures and batched `setState` are not modelled. Each handler is one atomic step.
- The display-only files (`CourseBuyCard.js`, `CourseDetails.js`, `CourseCard.js`, `CoursePage.js`, `VideoPlayPage.js`), `LoginPage.js`, the routing table in `App.js` and `tailwind.config.js` are not part of this model.
- QuizSession.Session.constructor: requires a non-empty question bank. The page reads `questions[0]` when it renders, and the built-in bank has three questions.
- Strings are sequences of characters. JavaScript's `length` counts UTF-16 code units, `toLowerCase`/`toUpperCase` are modelled for ASCII letters only, and the character classes of the strength regexes are ASCII. `Text.Less` orders strings by code point, while JavaScript's `<` compares UTF-16 code units; the two orders differ only when a character above U+FFFF is compared with one in U+E000–U+FFFF.
- The numeric sort columns (acceptance, frequency) are integers, not floating point.
- QuizListView.SortRows: stands for the engine's sort and assumes the engine follows the comparator. It is a stable insertion sort, and JavaScript's `sort` is also stable.
- The status filter and the category filter are limited to the values their `<select>` offers ("all" or a status, and "all" or a category name).
- The sign-up form's name and e-mail fields, the posted body, storing the returned token and the success alert are not modelled. Only `step`, `error` and the passwords affect the state logic.
- The browser's `required` field validation is not modelled; submitting at step 1 always advances.
- The profile page's counts, tabs and activity feed are display-only and are not modelled.

## Findings

| source | as written | input that shows it | evidently intended | confidence | as-written member | corrected member |
|---|---|---|---|---|---|---|
| src/Components/ProfilePage.js:52-62 | A failed per-item request yields an item without a `quiz` record. The merge then reads `newQuiz.quiz.id` and `prevQuiz.quiz.id`, which throws whenever the list already holds an item. The updater runs during rendering, outside the `try`, so the throw is a render-phase error and the batch is lost. The list is non-empty only if the mount effect runs twice: line 37 resets it and the effect has no dependencies (line 71). That happens under React's development StrictMode. `ProfilePage` also has no route in `src/App.js`. | list `[{quiz: {id: 1}}]`, batch `[{id: 2, status: "Error fetching status"}]` (the spread quiz record, which has no `quiz` field) | The placeholder is merged like any other item, as the comment "Handle error gracefully" says. The corrected model compares ids with `?.`. This fixes only the merge: the Quizzes and Courses tabs (lines 223-235, 247-261) also read `quiz.quiz.id`, `quiz.quiz.title` and `course.course.id`, so a placeholder still breaks those tabs. | medium, not executed | ProfileHistory.PlaceholderCounterexample | ProfileHistory.Merge |
