# Client-side state of the 学令教育 learning platform

This project models the browser client of a small education platform. The client has:

- a sign-in form;
- a discussion forum with a daily quote;
- a resource library where users send suggestions;
- an administrator's reply panel;
- a vocabulary quiz with a mistake book;
- the application shell, which gates everything on the session and routes between tabs.

Each React component becomes a Dafny `class`. Its fields are the component's state and its methods are the event handlers. The list derivations and record builders the handlers use are pure functions. Lemmas relate these functions to the promises the interface makes.

Some things the handlers read from the outside world are parameters instead:

- the clock (`Date.now()` as `now`, `new Date().toISOString()` as `nowIso`);
- how a network request ended (`Forum.Response`, and the wire records of `App`);
- the `Math.random` shuffle, which becomes any permutation of the words of a module.

Modules:

- `Wrappers`: `Option` and `Result`.
- `Types`: the records of `types.ts`. The field `module` is spelled `moduleName`.
- `Text`: the JavaScript string operations the client uses: `trim` with the full ECMAScript white-space set, `toLowerCase`, `split('T')[0]` and `String(n)`.
- `Seqs`: `filter`, `map` and `Array.from(new Set(...))`.
- `WordQuiz`, `Login`, `Resources`, `AdminPanel`, `Forum`, `App`: one module per component.

The model does what the code does, including where that is easy to overlook:

- `startQuiz` only filters the local word list.
- Deleting a mistake only removes it locally.
- The administrator's reply is never sent to the server.
- Logging out does not reset the selected tab. `App.Shell.Logout` models that; "## Findings" has the details.

## Model

| member | source | states |
|---|---|---|
| WordQuiz.AnswerIgnoresSurroundingSpace | components/WordQuiz.tsx:49 | White space typed before or after an answer never changes whether it is judged correct. |
| WordQuiz.AnswerIgnoresCase | components/WordQuiz.tsx:49 | Two inputs that lower-case to the same text get the same verdict. |
| WordQuiz.PaddedTargetNeverMatches | components/WordQuiz.tsx:49 | The target word itself is not trimmed: a word stored with leading or trailing white space can never be answered correctly. |
| WordQuiz.TrailingSpaceExample | components/WordQuiz.tsx:49 | "Persistence " is accepted for "persistence". |
| WordQuiz.UpperCaseExample | components/WordQuiz.tsx:49 | "STRATEGY" is accepted for "strategy". |
| WordQuiz.PrefixExample | components/WordQuiz.tsx:49 | "persisten" is rejected for "persistence". |
| WordQuiz.WordModules | components/WordQuiz.tsx:29 | The module cards list every module of the word list, each exactly once, and nothing else. |
| WordQuiz.WordsOfModule | components/WordQuiz.tsx:32 | Exactly the words of the chosen module. |
| WordQuiz.WordsWithout | components/WordQuiz.tsx:236 | Deleting a word keeps exactly the words with a different id. |
| WordQuiz.DeleteWordKeepsOrder | components/WordQuiz.tsx:236 | Deletion distributes over concatenation, so the remaining words keep their order. |
| WordQuiz.DeleteWordCount | components/WordQuiz.tsx:236 | Every word with the id is removed. Every other word keeps its number of occurrences. |
| WordQuiz.MistakesWithout | components/WordQuiz.tsx:77-79 | Removing a mistake keeps exactly the records with a different id. |
| WordQuiz.RecordMistake | components/WordQuiz.tsx:53-63 | Check-before-insert: the list is unchanged if the word already has a record. Otherwise exactly one record is put in front of the unchanged list: the given record id and date, and the word's id, English and Chinese. Either way the word then has a record. |
| WordQuiz.RecordMistakeKeepsUnique | components/WordQuiz.tsx:53-63 | Recording keeps at most one record per word. It adds one record exactly when the word had none. |
| WordQuiz.RecordMistakeTwice | components/WordQuiz.tsx:54-55 | A second wrong answer to the same word records nothing more. |
| WordQuiz.RemoveMistakeKeepsUnique | components/WordQuiz.tsx:77-79 | Removal keeps the one-record-per-word invariant. |
| WordQuiz.RemoveMistakeKeepsOrder | components/WordQuiz.tsx:77-79 | Removal distributes over concatenation, so the remaining records keep their order. |
| WordQuiz.RemoveMistakeCount | components/WordQuiz.tsx:77-79 | Every record with the id is removed. Every other record keeps its number of occurrences. |
| WordQuiz.Quiz.constructor | components/WordQuiz.tsx:14-20 | Starts in the selection view with an empty round, index 0 and a fresh turn. |
| WordQuiz.Quiz.Modules | components/WordQuiz.tsx:29 | The module cards have no duplicates and cover every word's module. |
| WordQuiz.Quiz.ResetTurn | components/WordQuiz.tsx:41-45 | Clears the input and both turn flags. Nothing else changes. |
| WordQuiz.Quiz.StartQuiz | components/WordQuiz.tsx:31-39 | The round is the given permutation of the module's words. Index 0, quiz view, fresh turn; the word list and mistakes are unchanged. Every word of the round belongs to the module. |
| WordQuiz.Quiz.HandleCheck | components/WordQuiz.tsx:47-65 | Called only on an unanswered turn, as the check button exists only then. The turn becomes answered. Correctness is the trimmed, case-insensitive comparison. A correct answer leaves the mistakes alone; a wrong one applies check-before-insert with a time-based id and today's date. One record per word is preserved. |
| WordQuiz.Quiz.PressEnter | components/WordQuiz.tsx:162 | Enter checks a turn only when it is not yet answered. On an answered turn it changes nothing, so a turn is checked at most once. |
| WordQuiz.Quiz.TypeAnswer | components/WordQuiz.tsx:155-157 | Typing changes the input only while the turn is unanswered, because the box is disabled afterwards. |
| WordQuiz.Quiz.NextWord | components/WordQuiz.tsx:67-75 | Before the last word: index + 1 and a fresh turn. After it: back to the selection view with the index left alone. The index stays inside the round. |
| WordQuiz.Quiz.RemoveMistake | components/WordQuiz.tsx:77-79 | The mistake book becomes the records with a different id, and one record per word still holds. |
| WordQuiz.Quiz.DeleteWord | components/WordQuiz.tsx:236 | In the administrator's view, the word list becomes the words with a different id. |
| WordQuiz.Quiz.SelectView | components/WordQuiz.tsx:91-95 | The view buttons switch to selection, mistakes or, for administrators only, word administration. |
| Login.MobilePatternMeaning | components/Login.tsx:37 | `^1[3-9]\d{9}$` matches exactly: 11 ASCII digits, starting with 1, second digit 3 to 9. |
| Login.MobileExamples | components/Login.tsx:37 | 13800138000 is accepted; 12345678901 and a ten-digit number are rejected. |
| Login.LoginOutcome | components/Login.tsx:16-29 | The result is the administrator (`admin-1`, role ADMIN) iff the hard-coded pair was typed. It is an error iff a field is empty, and the error is the missing-credentials message. Any other user is role USER with the typed username and phone. |
| Login.RegisterOutcome | components/Login.tsx:31-42 | Success iff both fields are non-empty and the phone is a mobile number. The empty-field error comes before the phone error. A success is always role USER, even for the administrator's credentials. |
| Login.LoginForm.constructor | components/Login.tsx:10-14 | Login mode, empty fields, no error. |
| Login.LoginForm.ToggleMode | components/Login.tsx:95 | Switching mode clears the error. |
| Login.LoginForm.HandleLogin | components/Login.tsx:16-29 | Hands on exactly the user of `LoginOutcome`. On failure it shows the error and hands on no user. |
| Login.LoginForm.HandleRegister | components/Login.tsx:31-42 | Hands on exactly the user of `RegisterOutcome`. On failure it shows that outcome's error. |
| Login.LoginForm.Submit | components/Login.tsx:51 | Dispatches on the mode. When no user is handed on, an error message is shown. |
| Resources.ModuleColumn | components/ResourcesSection.tsx:16 | The module of every resource, in list order. |
| Resources.ResourceModules | components/ResourcesSection.tsx:16 | Every resource's module appears exactly once, nothing else appears, and the first resource's module comes first. |
| Resources.ModulesInFirstOccurrenceOrder | components/ResourcesSection.tsx:16 | Module buttons are ordered by the first occurrence of their module. |
| Resources.InitialModule | components/ResourcesSection.tsx:17 | The first module, or `所有` when there are no resources or the first module is the empty string. |
| Resources.FilteredResources | components/ResourcesSection.tsx:54-56 | `所有` shows every resource. Any other module shows exactly the resources of that module. |
| Resources.FilteredResourcesConcat | components/ResourcesSection.tsx:54-56 | Filtering distributes over concatenation, so the list order is kept. |
| Resources.MySuggestions | components/ResourcesSection.tsx:58 | Exactly the suggestions whose `userId` is the current user's. |
| Resources.StatusLabel | components/ResourcesSection.tsx:117 | `已回复` iff the feedback is present and non-empty, else `待处理`. |
| Resources.PhoneOrAdmin | components/ResourcesSection.tsx:44 | The user's phone when present and non-empty, else `管理员`. Never empty. |
| Resources.AddedResourceShownLast | components/ResourcesSection.tsx:35 | An added resource appears at the end of the list being shown when its module is selected or all are shown. Earlier entries are unchanged. |
| Resources.HiddenResourceNotShown | components/ResourcesSection.tsx:35 | A resource added under a module other than the selected one leaves the list on screen as it was. |
| Resources.SubmittedSuggestionIsMine | components/ResourcesSection.tsx:41-48 | A submitted suggestion joins the end of its author's own list and shows as pending. |
| Resources.ResourcesSection.constructor | components/ResourcesSection.tsx:17-24 | The initial module per `InitialModule`, closed dialogs and empty form fields. |
| Resources.ResourcesSection.SelectModule | components/ResourcesSection.tsx:66-74 | A module button selects its module; the first button selects `所有`. |
| Resources.ResourcesSection.HandleAddResource | components/ResourcesSection.tsx:26-37 | Nothing happens without a title and a module. Otherwise exactly one resource with that title and module, url `#`, a time-based id and today's date is appended, and the dialog closes. The list on screen gains it at the end when its module is selected or all are shown, and is unchanged otherwise. |
| Resources.ResourcesSection.HandleSubmitSuggestion | components/ResourcesSection.tsx:39-52 | Nothing happens without text. Otherwise one suggestion is appended: the user's id, phone or `管理员`, no attachment, no feedback. Then the text is cleared and the dialog closes. The user's own list gains it at the end, so the progress list shows for every non-administrator. |
| AdminPanel.WithFeedback | components/AdminPanel.tsx:17 | A matching suggestion gets the reply as its feedback, overwriting any earlier one. Every other field and every other suggestion is untouched. |
| AdminPanel.ApplyFeedback | components/AdminPanel.tsx:16-18 | Same length and order. Suggestions with the id get the reply; all others are unchanged. |
| AdminPanel.ApplyFeedbackIdempotent | components/AdminPanel.tsx:16-18 | Sending the same reply twice gives the same list as sending it once. |
| AdminPanel.NonEmptyReplyIsReplied | components/AdminPanel.tsx:15-17 | A reply that passed the non-empty guard leaves each targeted suggestion answered, and its author sees `已回复`. |
| AdminPanel.ApplyFeedbackKeepsOwnership | components/AdminPanel.tsx:16-18 | A reply never moves a suggestion between users: every user's own list keeps its length. |
| AdminPanel.Panel.constructor | components/AdminPanel.tsx:11-12 | Empty draft, no open reply box. |
| AdminPanel.Panel.OpenReply | components/AdminPanel.tsx:55-79 | Opens the reply box of a listed suggestion. |
| AdminPanel.Panel.EditReply | components/AdminPanel.tsx:67-92 | Typing in an open box sets the draft. |
| AdminPanel.Panel.CancelReply | components/AdminPanel.tsx:74-99 | Closes the box. |
| AdminPanel.Panel.HandleSendFeedback | components/AdminPanel.tsx:14-22 | An empty draft changes nothing. Otherwise the list becomes `ApplyFeedback` with the draft, the draft is cleared and the box closes. |
| Forum.PostParams | components/Forum.tsx:32-39 | Always title, content and author `管理员`, in that order. `link` is added last, and only when non-empty. |
| Forum.Lookup | components/Forum.tsx:32-39 | A parameter lookup finds a value iff some parameter has that name, and the value it finds is that of the first such parameter. |
| Forum.RequestMatchesPost | components/Forum.tsx:32-55 | The request and the post shown locally agree on title, content and author. The link is sent iff the post has one. |
| Forum.ForumView.constructor | components/Forum.tsx:15-21 | Not editing, the draft quote equals the quote, the dialog closed, the form empty. |
| Forum.ForumView.StartEditQuote | components/Forum.tsx:95 | The administrator's pencil button opens the quote editor. |
| Forum.ForumView.EditQuote | components/Forum.tsx:82 | Typing sets the draft quote. |
| Forum.ForumView.SaveQuote | components/Forum.tsx:23-26 | The quote becomes the draft and the editor closes. |
| Forum.ForumView.OpenPostModal | components/Forum.tsx:108 | The administrator's button opens the new-post dialog. |
| Forum.ForumView.HandleCreatePost | components/Forum.tsx:28-69 | Without a title or content nothing is sent or changed. Otherwise `PostParams` is sent. On an ok response one post by `管理员` (link absent when empty) is prepended to the unchanged posts, the form is cleared and the dialog closes. On a failed status or an exception, posts and form stay as they were. |
| App.WireDate | App.tsx:56-73 | `''` without a timestamp. Otherwise the part of the timestamp before its first `T`. |
| App.MapPosts | App.tsx:50-57 | One post per wire post, same order. The id is `String(id)` and decodes back to the wire id. Title, content, author and link are copied; the date follows `WireDate`. |
| App.MapResources | App.tsx:68-75 | One resource per wire resource, same order. The id is `String(id)`, the url is `file_path`, the date follows `WireDate`. |
| App.MapPostsKeepsUniqueIds | App.tsx:51 | Distinct server ids stay distinct client ids. |
| App.MapResourcesKeepsUniqueIds | App.tsx:69 | Distinct server ids stay distinct client ids. |
| App.FetchedQuote | App.tsx:37-41 | The fetched quote replaces the current one only when it is non-empty. |
| App.TabButtons | App.tsx:98-123 | Forum, resources and quiz, in that order, for everyone. The admin tab iff the user is an administrator, and no other tab. |
| App.Render | App.tsx:82-175 | The login screen iff there is no session, whatever the tab. Otherwise at most one view renders. Each of forum, resources and quiz renders iff its tab is selected. The admin panel renders iff the admin tab is selected and the user is an administrator. |
| App.ClickableTabRendersOneView | App.tsx:98-175 | Every tab a user can click renders a view. |
| App.Shell.constructor | App.tsx:13-22 | The stored session and quote, the forum tab, and empty lists until the fetches answer. |
| App.Shell.SignIn | App.tsx:83 | The login form's user becomes the session; the tab is kept. |
| App.Shell.Logout | App.tsx:129 | The session ends and the selected tab is kept. |
| App.Shell.LogoutToForum | App.tsx:129 | Corrected logout: the session ends and whoever signs in next sees the forum view. |
| App.Shell.ClickTab | App.tsx:98-123 | A visible tab button selects its tab, and the page then shows a view. |
| App.Shell.ReceivePosts | App.tsx:47-59 | The posts become the mapped wire posts. |
| App.Shell.ReceiveResources | App.tsx:65-76 | The resources become the mapped wire resources. |
| App.Shell.ReceiveQuote | App.tsx:35-41 | The quote follows `FetchedQuote`. |
| App.StaleAdminTabAfterRelogin | App.tsx:129-170 | After an administrator logs out on the admin tab, a non-administrator's page renders no view. From the forum tab it renders the forum. |
| App.AdminThenUserSession | App.tsx:129-170 | The whole sequence on a shell: an administrator signs in, selects the admin tab and logs out, then a non-administrator signs in. With the logout as written the page shows no view; with the resetting logout it shows the forum. |
| Text.Trim | components/WordQuiz.tsx:49 | `trim()`: the result is a slice of the input with only white space before and after it, and it neither starts nor ends with white space. |
| Text.TrimSurrounding | components/WordQuiz.tsx:49 | Trimming ignores any white space added around a string. |
| Text.TrimToLower | components/WordQuiz.tsx:49 | Trimming and lower-casing commute. |
| Text.ToLower | components/WordQuiz.tsx:49 | `toLowerCase()` character by character: same length, no upper-case ASCII letter left. |
| Text.DateOf | App.tsx:56 | `split('T')[0]`: the longest prefix without `T`, followed by `T` or the end. |
| Text.NatToDecimal | App.tsx:51 | `String(n)`: a non-empty string of digits without a leading zero (except `0` itself). |
| Text.DecimalRoundTrip | App.tsx:51 | Reading `String(n)` back gives `n`. |
| Text.NatToDecimalInjective | App.tsx:51 | Different numbers give different strings. |
| Seqs.Filter | components/ResourcesSection.tsx:56 | `filter`: keeps exactly the elements satisfying the predicate. |
| Seqs.FilterConcat | components/ResourcesSection.tsx:56 | `filter` keeps the relative order. |
| Seqs.FilterCount | components/WordQuiz.tsx:78 | `filter` keeps each kept element as often as it occurs and drops the rest. |
| Seqs.Map | App.tsx:50 | `map`: one image per element, same order. |
| Seqs.Distinct | components/ResourcesSection.tsx:16 | `Array.from(new Set(s))`: every value once, nothing else. |
| Seqs.DistinctOrder | components/ResourcesSection.tsx:16 | Values appear in the order of their first occurrence. |
| Seqs.DistinctHead | components/ResourcesSection.tsx:16-17 | The first value of a non-empty list comes first. |
| Seqs.FilterKeepsUniqueKeys | components/WordQuiz.tsx:78 | Filtering never makes two elements share a key. |

## Left out

- Text.ToLower: lower-cases the ASCII letters A to Z only. JavaScript's `toLowerCase` also maps the other Unicode upper-case letters, including the special cases that change a string's length.
- `fetch` and the response parsing: `HandleCreatePost` takes the outcome as a `Forum.Response`. The shell takes the already-parsed wire records, with ids as natural numbers.
- The order in which asynchronous effects and callbacks run, including races where the last response wins. Each answer is one method call.
- `alert`, `console.error`, JSX markup, CSS classes and the quiz's display toggles (`showCN`, `showFirst`, `showPOS`, `showIPA`). They only affect what is drawn.
- `handleExcelUpload` only shows a message.
- Persisting state to `localStorage` (`loadData`/`saveData`). The stored session and quote are constructor parameters.
- The plain input setters of the forms (username, password, phone, title, module, suggestion and post fields). Each one just sets its field. The typing the handlers depend on is modelled where a guard or a disabled state matters.
- The shuffle is not the exact `sort(() => Math.random() - 0.5)` distribution. `StartQuiz` accepts any permutation of the module's words.
- URL encoding of the query string: `PostParams` is the list of name and value pairs before encoding.
- Components share lists and the quote through the shell's setters. Each component class here owns its copy of the lists it writes, and `Forum.ForumView` owns its copy of the quote, so the sharing between components is not modelled. One consequence goes unmodelled: the forum's draft quote is taken once, when the forum mounts (components/Forum.tsx:16). A quote fetched later (App.tsx:38-39) does not reach the draft, so opening the editor shows the old quote and saving writes it back.

## Findings

| source | as written | input that shows it | evidently intended | confidence | as-written member | corrected member |
|---|---|---|---|---|---|---|
| App.tsx:129 | Logout clears the session but keeps `activeTab` | An administrator selects the admin tab and logs out; a student logs in and gets a page with no view at all | Logging out sends the next session back to the forum tab | medium, not executed | App.StaleAdminTabAfterRelogin | App.Shell.LogoutToForum |
