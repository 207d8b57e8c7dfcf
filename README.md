# Kinettix Poll, modelled in Dafny

This project models the data logic of the Kinettix Poll application:

- **Poll store.** The Express back end (`server.js`) keeps polls in a small database. It lists, reads, ranks, creates and deletes them, toggles their status and counts votes.
- **Username whitelist.** `services/authService.ts` keeps the list in `localStorage` and the logged-in user in `sessionStorage`.
- **Payload normaliser.** `services/apiService.ts` turns the JSON of a spreadsheet web app into users and polls. It sits behind a one-slot cache.
- **View rules.** These come from the React pages:
  - the comma-separated whitelist editor;
  - the candidate search and the per-user "already voted" marker of the voting page;
  - the totals, anonymised labels, metrics and poll order of the dashboard;
  - the directory filters of the user list;
  - the initials, colour and voting status of a user card.

One Dafny module models each source file, with `class`es where the source updates state in place:

| module | source file |
|---|---|
| `PollStore` (class `PollDb`) | `server.js` |
| `AuthService` (class `AuthStore`) | `services/authService.ts` |
| `ApiService` (class `ApiClient`) | `services/apiService.ts` |
| `UserListText`, `UserManagement` (class `UserManagementPage`) and `UserManagementSave` | `components/UserManagementPage.tsx` |
| `VotingPage` (classes `PollVoteView`, `VotingPageView`, `LocalStorage`) and `VotingSubmit` | `components/VotingPage.tsx` |
| `Dashboard` | `components/DashboardPage.tsx` |
| `UserList` | `components/UserListPage.tsx` |
| `UserCard` | `components/UserCard.tsx` |

Shared modules:

- `Types` holds the records of `types.ts`.
- `Json` models parsed JSON values and the JavaScript conversions that are applied to them.
- `Wrappers`, `Seqs` and `Strings` are supporting modules.

The model follows the code as written; in particular:

- poll creation neither trims nor de-duplicates candidate names;
- `login` matches exactly and is case-sensitive;
- the server does no per-voter double-vote check;
- the status endpoint toggles the status rather than setting it;
- votes are stored counters, not counts derived from user records.

## Model

| member | source | states |
|---|---|---|
| PollStore.HttpStatus | server.js:48-104 | invalid data and a closed poll are answered with 400; an unknown poll or candidate with 404 |
| PollStore.ErrorMessage | server.js:48-104 | every error answer carries a non-empty message |
| PollStore.FindPoll | server.js:44 | the index of the first poll with the id, and none exactly when no poll has it |
| PollStore.FindCandidate | server.js:102 | the index of the first candidate with the id, and none exactly when no candidate has it |
| PollStore.SortByVotes | server.js:58 | the results order `[...poll.candidates].sort((a, b) => b.votes - a.votes)`, as an insertion sort; its properties are SortByVotesCorrect and SortByVotesUnique |
| PollStore.SortByVotesCorrect | server.js:58 | the results are in non-increasing vote order, are a permutation of the candidates, and keep each group of tied candidates in stored order (a stable sort) |
| PollStore.SortByVotesUnique | server.js:58 | any sorted permutation that keeps ties in stored order is the result |
| PollStore.SortedTiedUnique | server.js:58 | two sorted lists that have the same ties for every count are equal |
| PollStore.InsertByVotesMultiset | server.js:58 | one insertion step adds exactly the inserted candidate |
| PollStore.InsertByVotesSorted | server.js:58 | one insertion step keeps the vote order |
| PollStore.InsertByVotesTied | server.js:58 | one insertion step keeps every group of ties in order |
| PollStore.ResultsExample | server.js:58 | `[A:3, B:5, C:5, D:0]` ranks as `[B:5, C:5, A:3, D:0]` |
| PollStore.WithVote | server.js:107 | the chosen candidate gains one vote; the other candidates and the poll's id, title and status are unchanged |
| PollStore.WithVoteTally | server.js:107 | a vote adds exactly one to the poll's tally |
| PollStore.Flip | server.js:122 | the new status differs from the old one |
| PollStore.Toggled | server.js:121-122 | the addressed poll has its status flipped and nothing else changed; every other poll is unchanged; ids are kept |
| PollStore.ToggleTwiceRestores | server.js:114-125 | toggling the same poll twice restores the database |
| PollStore.FindPollSameIds | server.js:44 | the poll lookup depends only on the ids |
| PollStore.FindCandidateSameIds | server.js:102 | the candidate lookup depends only on the ids |
| PollStore.WithoutId | server.js:131 | the filter keeps, in order, exactly the polls with another id |
| PollStore.WithoutIdLength | server.js:130-134 | the length is unchanged exactly when no poll has the id, and then nothing was removed |
| PollStore.SubseqKeepsDistinct | server.js:131 | a filtered database keeps distinct ids and non-negative counts |
| PollStore.PollDb.constructor | server.js:32-33 | the database starts empty |
| PollStore.PollDb.ListPolls | server.js:32-39 | `?status=open` returns exactly the open polls in stored order; any other query returns every poll |
| PollStore.PollDb.GetPoll | server.js:42-50 | the stored poll with that id, or `PollNotFound` exactly when no poll has it |
| PollStore.PollDb.GetResults | server.js:53-63 | the poll's candidates ranked by `SortByVotes`, or `PollNotFound`; the stored data is unchanged |
| PollStore.PollDb.CreatePoll | server.js:67-88 | a falsy title, a non-array or fewer than two names are refused and nothing changes; otherwise one open poll is appended, with one zero-vote candidate per name in input order |
| PollStore.PollDb.Vote | server.js:91-110 | checks run in order (unknown poll, closed poll, unknown candidate) and each failure changes nothing; success adds one vote to exactly that candidate |
| PollStore.PollDb.ToggleStatus | server.js:114-125 | an unknown id is refused with no change; otherwise only that poll's status flips, and the updated poll is returned |
| PollStore.PollDb.DeletePoll | server.js:128-138 | removes the polls with the id and keeps the rest in order; not-found exactly when nothing matched |
| PollStore.PollDb.DeleteAll | server.js:141-144 | the database is empty afterwards |
| PollStore.RepeatedVotesCount | server.js:91-110 | with no per-voter check, two identical votes add two to the candidate |
| AuthService.DefaultUsers | services/authService.ts:4-16 | the seeded list has 99 entries and ends with `saitama` |
| AuthService.StaffNumbers | services/authService.ts:5-15 | the seeded list holds 98 staff numbers |
| AuthService.FirstIndex | services/authService.ts:57-59 | the position of the first occurrence |
| AuthService.FirstIndexExtend | services/authService.ts:57-59 | appending an element does not move a first occurrence |
| AuthService.Dedup | services/authService.ts:57-59 | `Array.from(new Set(s))` has no repeats and the same elements as `s` |
| AuthService.DedupFirstOccurrenceOrder | services/authService.ts:57-59 | the de-duplicated list is in order of first occurrence |
| AuthService.FinalUsers | services/authService.ts:57-59 | the stored list contains `saitama` and has no repeats; its elements are the input's plus `saitama`, which is appended only when it is missing |
| AuthService.FinalUsersOrder | services/authService.ts:57-59 | first occurrences keep input order, and only an appended `saitama` comes from outside the input |
| AuthService.ReadUsers | services/authService.ts:18-32 | the stored list when one is stored, otherwise the default list |
| AuthService.Seeded | services/authService.ts:20-27 | only a missing or empty whitelist is seeded, and only if the write succeeds; other keys and the read value are unchanged |
| AuthService.SeededIdempotent | services/authService.ts:18-27 | once seeding has been written, a second read writes nothing |
| AuthService.AuthStore.constructor | services/authService.ts:1-2 | starts from the given storage contents |
| AuthService.AuthStore.GetUsersFromStorage | services/authService.ts:18-32 | returns `ReadUsers` of the old storage and leaves the storage `Seeded` |
| AuthService.AuthStore.GetUsers | services/authService.ts:51-53 | as `getUsersFromStorage` |
| AuthService.AuthStore.Login | services/authService.ts:34-41 | succeeds exactly when the name is on the list (an exact match) and then stores it as the current user; otherwise fails with "Invalid username" and the session is unchanged |
| AuthService.AuthStore.Logout | services/authService.ts:43-45 | removes the current user, so `getCurrentUser` gives null |
| AuthService.AuthStore.UpdateUsers | services/authService.ts:55-66 | a successful write stores `FinalUsers`, which is what the next read returns; a failed write is swallowed and the stored list is kept |
| AuthService.AdminCanLogIn | services/authService.ts:34-66 | after an update that was written, `saitama` can log in |
| Json.GetSpec | services/apiService.ts:33-37 | a property read finds a value exactly when the key is present, and the value is stored under that key |
| Json.SetField | services/apiService.ts:64 | assignment sets that property and leaves the others |
| Json.StringToNumber | services/apiService.ts:85 | `Number` of blank text is 0 |
| Json.NumberOfString | services/apiService.ts:85 | `Number(String(n)) == n` for every count |
| Json.NumberOfDigits | services/apiService.ts:85 | `Number` of a numeral is its decimal value |
| Json.VotesRoundTrip | services/apiService.ts:85 | a count stored as a number or as its string is read back exactly |
| ApiService.SourceData | services/apiService.ts:24 | `json.data` when it is truthy, otherwise the body itself; reading `null` throws |
| ApiService.ArrayFields | services/apiService.ts:44-49 | exactly the items of the array-valued properties, one entry per such property, in enumeration order |
| ApiService.FirstUntaken | services/apiService.ts:30-40 | the first array of the kind that an earlier branch did not take |
| ApiService.ScanTables | services/apiService.ts:30-49 | after each `processArray` call, every table is the first array of its kind seen so far that was not already taken |
| ApiService.ScanClassified | services/apiService.ts:42-50 | the whole scan yields the classified tables |
| ApiService.ProcessArray | services/apiService.ts:30-40 | one call: throws exactly on a `null` first element, otherwise performs one classification step |
| ApiService.Classify | services/apiService.ts:42-50 | throws exactly when some array starts with `null`; otherwise gives the classified tables |
| ApiService.GroupByPoll | services/apiService.ts:52-60 | the map holds, for every key, exactly the rows whose `String(poll_id)` is that key, in row order; it throws exactly on a `null` row |
| ApiService.GroupStep | services/apiService.ts:54-59 | a new row joins only its own poll's group |
| ApiService.Attached | services/apiService.ts:62-65 | one output row per poll row |
| ApiService.AttachCandidates | services/apiService.ts:62-65 | every poll gets its group, or `[]`; the call throws exactly when a row cannot be assigned to |
| ApiService.AttachedCandidates | services/apiService.ts:52-65 | a poll object's `candidates` are exactly the candidate rows naming its id, in order; its other properties are unchanged |
| ApiService.ToApiUser | services/apiService.ts:70 | the fields are copied, with `department` falling back to `depart` |
| ApiService.MapUsers | services/apiService.ts:70 | one user per kept row, in order |
| ApiService.WithAdmin | services/apiService.ts:72-74 | `saitama` is present afterwards, appended only when it was missing, and the rest of the list is unchanged |
| ApiService.NormalisedUsers | services/apiService.ts:68-74 | a row is kept exactly when it has a truthy `username`, `name` and `department` or `depart`; kept rows keep their order, and `saitama` is present |
| ApiService.MappedNamesAdmin | services/apiService.ts:72 | the converted list names `saitama` exactly when one kept row does |
| ApiService.WithAdminTruthy | services/apiService.ts:68-74 | every user field is truthy |
| ApiService.StatusOf | services/apiService.ts:81 | `open` exactly when the raw status is the string `open` |
| ApiService.ToApiPoll | services/apiService.ts:78-86 | `String(p.id)`, the status rule, and one candidate per row, each with `String(c.id)` and `Number(c.votes) \|\| 0`; a `null` row throws |
| ApiService.MapPolls | services/apiService.ts:78-86 | one poll per kept row, or a throw when a row throws |
| ApiService.NormalisedPolls | services/apiService.ts:76-87 | a row is kept exactly when it has a truthy `id`, `title` and `status` and an array of `candidates`; kept rows keep their order |
| ApiService.ProcessPayload | services/apiService.ts:24-90 | the statements after `response.json()` compute `Payload` |
| ApiService.ProcessLists | services/apiService.ts:52-90 | the statements from the candidate step on compute `FromLists` |
| ApiService.AttachStep | services/apiService.ts:52-66 | candidates are grouped and attached only when both tables are non-empty |
| ApiService.ResolvedHasAdmin | services/apiService.ts:72-94 | whatever the response, the users include `saitama` |
| ApiService.FailuresFallBack | services/apiService.ts:92-95 | a failed request or a `null` body gives the fallback: `saitama` alone and no polls |
| ApiService.ApiClient.constructor | services/apiService.ts:5-8 | the cache starts empty, so it holds only transformed data |
| ApiService.ApiClient.FetchData | services/apiService.ts:10-96 | a cached value is returned without a request; otherwise one request is made, and only a successful parse fills the cache |
| ApiService.ApiClient.GetUsers | services/apiService.ts:98-101 | the users of `fetchData`, which always include `saitama`; the cache keeps only data that names him |
| ApiService.ApiClient.GetPolls | services/apiService.ts:103-106 | the polls of `fetchData` |
| ApiService.ApiClient.ClearCache | services/apiService.ts:108-110 | the cache is empty afterwards |
| ApiService.ApiClient.UpdateUsers | services/apiService.ts:112-135 | succeeds exactly on an ok response and then clears the cache; a non-ok response or a network error is rethrown and the cache is kept |
| ApiService.SecondFetchIsCached | services/apiService.ts:10-90 | after a successful fetch the next fetch returns the same data without a request; after a failed one it fetches again |
| UserListText.ParseUserList | components/UserManagementPage.tsx:28-31 | split at commas, trim, drop empty names; its properties are ParseUserListNames and ParseRender |
| UserListText.ParseUserListNames | components/UserManagementPage.tsx:28-31 | parsed names are non-empty, trimmed and comma-free, and keep the text's order |
| UserListText.TrimAllClean | components/UserManagementPage.tsx:30 | trimmed comma-free pieces are trimmed and comma-free |
| UserListText.Padded | components/UserManagementPage.tsx:15-31 | one piece per name |
| UserListText.SplitJoinPadded | components/UserManagementPage.tsx:15-31 | splitting a `', '`-joined list on `,` gives the names, each after the first with its leading blank |
| UserListText.ParseRender | components/UserManagementPage.tsx:15-46 | parsing a rendered list gives it back when every name is non-empty, trimmed and comma-free |
| UserListText.TrimPadded | components/UserManagementPage.tsx:30 | trimming the pieces of a rendered list gives the names |
| UserListText.RenderAsWritten | components/UserManagementPage.tsx:15-46 | `users.map(u => u.username).join(', ')` over strings, every name empty; its properties are AsWrittenExample and AsWrittenLosesNames |
| UserListText.AsWrittenExample | components/UserManagementPage.tsx:15-46 | as written, two users are shown as the text `", "` |
| UserListText.AsWrittenLosesNames | components/UserManagementPage.tsx:15-46 | as written, the text shown parses to nothing, so saving it unedited is refused as empty |
| UserListText.BlanksSplit | components/UserManagementPage.tsx:15-31 | every piece of the as-written text is blank |
| UserManagement.UserManagementPage.constructor | components/UserManagementPage.tsx:6-8 | empty text, `idle`, no error |
| UserManagement.UserManagementPage.LoadUsers | components/UserManagementPage.tsx:10-21 | a load shows the list rendered as written (`u.username` of each string); a failure shows "Failed to load user list." |
| UserManagement.UserManagementPage.BeginSave | components/UserManagementPage.tsx:24-37 | the error is cleared and the text parsed; an empty parse sets "User list cannot be empty." and returns to `idle`, otherwise the page is `saving` |
| UserManagement.UserManagementPage.FinishSave | components/UserManagementPage.tsx:39-52 | success shows the stored list rendered as written and `saved`; failure sets "Failed to save users." and `idle` |
| UserManagement.UserManagementPage.SavedTimeout | components/UserManagementPage.tsx:48 | the status returns to `idle` |
| UserManagementSave.HandleSave | components/UserManagementPage.tsx:24-53 | against the whitelist store: an empty parse changes no storage; otherwise the store holds `FinalUsers` of the parse and the page is `saved`, showing that list rendered as written; a swallowed write failure still ends `saved`, showing the previous list rendered as written; after any save the text shown parses to nothing |
| UserManagementSave.IntendedResaveKeepsList | components/UserManagementPage.tsx:15-46 | with the intended rendering, the text shown after a save parses back to exactly the stored list |
| VotingPage.FilteredCandidates | components/VotingPage.tsx:55-60 | no poll gives `[]`; otherwise an order-preserving subsequence of the candidates, holding exactly those whose lower-cased name contains the lower-cased query, each as often as in the poll |
| VotingPage.EmptyQueryKeepsAll | components/VotingPage.tsx:55-60 | the empty query keeps every candidate |
| VotingPage.SearchIgnoresQueryCase | components/VotingPage.tsx:58 | queries equal after lower-casing find the same candidates |
| VotingPage.UpperQuerySameResult | components/VotingPage.tsx:58 | a query typed in capitals finds the same candidates |
| VotingPage.MarkerKey | components/VotingPage.tsx:28-46 | the key `voted-candidate-id-${currentUser}-${pollId}`; its properties are MarkerKeyDistinct and MarkerKeysCollide |
| VotingPage.HasMarker | components/VotingPage.tsx:28-29 | `!!localStorage.getItem(key)`: a non-empty marker is stored; FinishFetch and VotedCandidate state what depends on it |
| VotingPage.MarkerKeyDistinct | components/VotingPage.tsx:28-46 | for user names without `-`, two markers share a key exactly when the pairs are equal |
| VotingPage.ShorterUserOtherKey | components/VotingPage.tsx:28-46 | a shorter dash-free user name gives a different key |
| VotingPage.MarkerKeysCollide | components/VotingPage.tsx:28-46 | user `a-b` in poll `c` and user `a` in poll `b-c` share one marker |
| VotingPage.LocalStorage.SetItem | components/VotingPage.tsx:46 | writes exactly that key |
| VotingPage.Screen | components/VotingPage.tsx:62-127 | the spinner shows exactly while loading; the closed screen exactly for a loaded closed poll, even after a vote; the thank-you screen exactly after a vote on a poll that is not closed; the not-found screen exactly for a missing poll not voted in; the vote form exactly for a loaded open poll not yet voted in |
| VotingPage.SubmitMessage | components/VotingPage.tsx:49 | the server's message when there is one, otherwise the fixed text; never empty |
| VotingPage.PollVoteView.constructor | components/VotingPage.tsx:13-19 | the initial React state |
| VotingPage.PollVoteView.BeginFetch | components/VotingPage.tsx:23 | the view is loading; nothing else changes |
| VotingPage.PollVoteView.FinishFetch | components/VotingPage.tsx:24-35 | a fetched poll is shown, and `hasVoted` is true exactly when a non-empty marker exists for this user and poll; a failure sets the load error |
| VotingPage.PollVoteView.Select | components/VotingPage.tsx:176 | the selection is set |
| VotingPage.PollVoteView.SetSearchQuery | components/VotingPage.tsx:162 | the query is set |
| VotingPage.PollVoteView.HandleVoteSubmit | components/VotingPage.tsx:40-53 | without a selection nothing happens; an accepted vote whose marker write succeeds writes the marker and sets `hasVoted`; a refused vote or a throwing marker write writes nothing, keeps `hasVoted` and shows that error's message |
| VotingPage.PageScreenOf | components/VotingPage.tsx:253-278 | the spinner shows exactly while loading; the poll view opens exactly for a non-empty selected id, with a back button exactly when there is more than one active poll; otherwise the empty notice shows exactly when there are no active polls, and the list exactly when there are |
| VotingPage.VotedCandidate | components/VotingPage.tsx:291-292 | names a candidate of the poll only when the stored marker matches its id, and then the first such candidate; none exactly when there is no marker or no candidate with that id |
| VotingPage.VotingPageView.constructor | components/VotingPage.tsx:214-217 | the initial React state |
| VotingPage.VotingPageView.BeginFetchPolls | components/VotingPage.tsx:221-222 | loading, no error |
| VotingPage.VotingPageView.FinishFetchPolls | components/VotingPage.tsx:223-234 | the fetched polls are stored; exactly one poll is auto-selected and opened without a back button; a failure sets the load error |
| VotingPage.VotingPageView.SelectPoll | components/VotingPage.tsx:239-241 | the selection is set |
| VotingPage.VotingPageView.BackToList | components/VotingPage.tsx:243-251 | the selection is cleared and the re-fetched polls are stored |
| VotingSubmit.SubmitVote | components/VotingPage.tsx:40-53 | against the poll store: an accepted vote adds exactly one vote to the selected candidate of that poll and changes nothing else; the marker is written exactly when the vote is counted and the marker write succeeds, and then the form is gone; a throwing write leaves the vote counted, `localStorage` unchanged and the write's error shown; a refused vote changes neither the store nor `localStorage` and shows an error |
| Dashboard.SumVotesIsTotal | components/DashboardPage.tsx:32 | the `reduce` is the sum of the candidates' votes |
| Dashboard.PollTotal | components/DashboardPage.tsx:138 | a poll's total is the sum of its candidates' votes |
| Dashboard.TotalZeroIffNoVotes | components/DashboardPage.tsx:32 | over non-negative counts, the total is 0 exactly when every count is 0 |
| Dashboard.InsertByVotesTotal | components/DashboardPage.tsx:32 | ranking a candidate in adds its votes |
| Dashboard.ResultsTotal | components/DashboardPage.tsx:18-32 | ranking the results leaves the total unchanged |
| Dashboard.TotalVotesSameCounts | components/DashboardPage.tsx:32-38 | equal counts give equal totals |
| Dashboard.Anonymise | components/DashboardPage.tsx:33-39 | each result renamed to `Label(i)`; its properties are DisplayDataKeeps |
| Dashboard.DisplayDataKeeps | components/DashboardPage.tsx:33-39 | without anonymising, the results unchanged; with it, the same length, order, ids and votes, and the name at `i` is `Label(i)`; the total is kept |
| Dashboard.LetterLabels | components/DashboardPage.tsx:37 | the first 26 labels are `Candidate A` to `Candidate Z` |
| Dashboard.LabelsDistinct | components/DashboardPage.tsx:37 | labels differ below the surrogate range |
| Dashboard.LabelsWrap | components/DashboardPage.tsx:37 | labels repeat after 65536 candidates |
| Dashboard.ChartData | components/DashboardPage.tsx:82 | a prefix of the display data, of at most ten entries |
| Dashboard.CardViewOf | components/DashboardPage.tsx:83-96 | "No votes cast yet." shows exactly when the total is not positive; otherwise there is one card per displayed candidate |
| Dashboard.NoVotesNotice | components/DashboardPage.tsx:83-96 | over stored counts, the notice shows exactly when nobody has voted |
| Dashboard.SumPollVotesIsCardTotals | components/DashboardPage.tsx:109 | the total votes cast is the sum of the per-card totals |
| Dashboard.MetricsOf | components/DashboardPage.tsx:106-109 | active polls are at most total polls, and equal exactly when every poll is open; total votes is the sum of the card totals |
| Dashboard.CompareMeaning | components/DashboardPage.tsx:178 | `a` may precede `b` exactly when `a` is open and `b` closed, or both have the same status and `a`'s id is the larger or equal one |
| Dashboard.CompareFlip | components/DashboardPage.tsx:178 | the comparator is antisymmetric |
| Dashboard.CompareTransitive | components/DashboardPage.tsx:178 | the comparator is transitive |
| Dashboard.InsertPollMultiset | components/DashboardPage.tsx:178 | one insertion adds exactly the inserted poll |
| Dashboard.OrderedCons | components/DashboardPage.tsx:178 | a poll that may precede the rest extends an ordered list |
| Dashboard.InsertPollOrdered | components/DashboardPage.tsx:178 | one insertion keeps the order |
| Dashboard.DashboardOrder | components/DashboardPage.tsx:178 | the dashboard's `sort` of the fetched polls, as an insertion sort by `Compare`; its properties are DashboardOrderCorrect and OpenFirstThenIdDescending |
| Dashboard.DashboardOrderCorrect | components/DashboardPage.tsx:178 | the sorted copy is in comparator order and a permutation of the fetched polls |
| Dashboard.OpenFirstThenIdDescending | components/DashboardPage.tsx:178 | every open poll comes before every closed poll, and within one status ids descend |
| Dashboard.InsertPollTotals | components/DashboardPage.tsx:178-217 | one insertion adds the poll's count, its total and its open count |
| Dashboard.OrderKeepsCounts | components/DashboardPage.tsx:178-217 | sorting keeps the poll count, the vote total and the open count |
| Dashboard.OrderKeepsMetrics | components/DashboardPage.tsx:178-217 | the header metrics of the sorted copy equal those of the fetched list |
| Dashboard.AfterFetch | components/DashboardPage.tsx:174-224 | a failure shows "Failed to load poll list."; no polls shows "No Polls Found"; otherwise the metrics of the fetched polls and the polls in dashboard order |
| UserList.FilteredUsers | components/UserListPage.tsx:35-61 | `filteredUsers`: the search filter, then the non-voter filter; its properties are FilteredUsersIsFilter and FilteredUsersSpec |
| UserList.FilteredUsersIsFilter | components/UserListPage.tsx:35-61 | the two steps together are one filter by `Kept` |
| UserList.FilteredUsersSpec | components/UserListPage.tsx:35-61 | an order-preserving subsequence of the users, holding exactly the kept ones |
| UserList.NoFiltersShowsAll | components/UserListPage.tsx:36-48 | with no query and the toggle off, every user is shown |
| UserList.ToggleWithoutOpenPolls | components/UserListPage.tsx:49-50 | without open polls the non-voter toggle changes nothing |
| UserList.SearchKeepsMatches | components/UserListPage.tsx:39-45 | a query keeps a user exactly when the lower-cased name or department contains the lower-cased query |
| UserList.NonVotersKept | components/UserListPage.tsx:48-57 | with open polls, the toggle keeps a user exactly when some open poll has no vote from them |
| UserCard.AvatarColour | components/UserCard.tsx:9-28 | the colour is one of the eight |
| UserCard.ColourCycle | components/UserCard.tsx:28 | colours repeat every eight cards |
| UserCard.NeighboursDiffer | components/UserCard.tsx:9-28 | neighbouring cards never share a colour |
| UserCard.FirstTwo | components/UserCard.tsx:18 | `substring(0, 2)` is a prefix of at most two characters |
| UserCard.Initials | components/UserCard.tsx:13-19 | `getInitials`; its properties are InitialsLength, TwoWordInitials and OneWordInitials |
| UserCard.InitialsLength | components/UserCard.tsx:13-19 | initials have at most two characters, and are empty only for the empty name |
| UserCard.TwoWordInitials | components/UserCard.tsx:14-16 | a two-word name gives the upper-cased first letters of both words |
| UserCard.OneWordInitials | components/UserCard.tsx:14-18 | a name whose trimmed text has no space gives its first two characters, upper-cased |
| UserCard.VotesCasted | components/UserCard.tsx:30-32 | holds `poll1` exactly when that field is set and `poll2` likewise, with `poll1` first |
| UserCard.HasVotedInTwoPolls | components/UserCard.tsx:34 | true exactly when both fields are set |
| UserCard.StatusOf | components/UserCard.tsx:62-66 | "No votes cast" exactly when neither field is set; otherwise one check mark per vote |

## Left out

- Express wiring, CORS, body parsing and the `fs` reads and writes of `db.json` are not modelled; the database is the field `PollDb.polls`.
- `crypto.randomUUID`: fresh ids are parameters of `CreatePoll`, required to be distinct from the stored ones.
- `services/votingService.ts` is not part of this model: it only wraps `fetch`. Where a page calls it, its result is a parameter (`PollFetch`, `Option<seq<Poll>>`, an `Outcome`); `VotingSubmit.SubmitVote` wires the voting page directly to `PollStore.PollDb.Vote`.
- `votingService.hasVotedInPoll` is not defined in the voting service, so the user list takes it as a parameter.
- `fetch`, `response.json()` and `JSON.parse` are not modelled: the parsed payload is a `Json` value, and a failed request or unreadable body is `None`.
- JSON numbers are integers; floating point is left out.
- `Json` objects may hold duplicate keys, which `JSON.parse` never produces (the last duplicate wins). Every property read in the model takes the first match, so on such objects it describes values no parsed payload holds; well-formedness of keys is not required of the payload.
- PollStore.ValidCreateRequest: the title and the candidate names are strings. The server accepts any truthy title and stores any JSON values as names; non-string titles and names are not modelled.
- AuthService.ReadUsers: stored text that is JSON but not a list of strings (`null`, `{}`, `5`) is read as the default list. The source returns the parsed value, and `login`'s `includes` then throws on `null` or tests a string or object instead. `Item` cannot represent such values.
- UserCard.FirstTwo: JavaScript's `substring(0, 2)` counts UTF-16 code units, but a Dafny `char` is a Unicode scalar value. For a name that starts with a character outside the Basic Multilingual Plane (an emoji), the source takes one character, or half of one, where the model takes two.
- UserCard.Initials: `[0]` on a word reads one UTF-16 code unit, so for a word that starts with a character outside the Basic Multilingual Plane the source's initial is a lone surrogate; the model takes the whole character.
- Json.NumberOfString: the round trip is proved for non-negative integers only, the vote counts the server stores.
- Json.StringToNumber: only a trimmed sign and decimal digits are read; hexadecimal, exponents, `Infinity` and fractions are left out.
- Percentages, `toFixed` and `toLocaleString` output are left out; they are presentation.
- `localeCompare` is replaced by code-point order on ids; locale collation is left out.
- `toLowerCase`, `toUpperCase` and `trim` are ASCII case mapping and a fixed set of ASCII and Unicode blanks.
- Dashboard.LabelLetter: `String.fromCharCode` wraps modulo 65536, but a lone surrogate code unit becomes U+FFFD, because a Dafny `char` cannot hold one.
- Dashboard.DashboardOrderCorrect: the relative order of polls that share status and id is not stated.
- The results modal's own loading and error state and the 5-second refresh timer are left out; only `totalVotes`, `displayData`, the chart slice and the card choice are modelled.
- The `poll1`/`poll2` user fields are missing from `types.ts`, so they are optional strings on `Types.User`.
- UserList: as written the page cannot render a non-empty directory. It stores the strings `authService.getUsers` returns, so `user.name.toLowerCase()` (components/UserListPage.tsx:42) and `name.trim()` (components/UserCard.tsx:14) throw a `TypeError`; and the undefined `votingService.hasVotedInPoll` throws once the non-voter toggle is on with an open poll. The model takes `User` records and a `hasVotedInPoll` parameter, so it describes the page as it evidently should behave.
- VotingPage.MarkerKeyDistinct: proved only for user names without `-`; `MarkerKeysCollide` shows two pairs can share a marker otherwise.
- `sessionStorage` failures are not modelled. A throwing `localStorage.setItem` is the parameter `writeFails` in the whitelist store and the parameter `write` of `VotingPage.PollVoteView.HandleVoteSubmit`; other `localStorage` reads and writes do not fail in the model.
- The `resultsheet` poll field is not read by the core, so it is left out.
- For-in enumeration order is the order of an object's fields in `Json` (own properties only).
- Concurrency between requests or tabs is not modelled: each operation runs alone.
- Presentation-only files are left out: `ResultsChart`, `CandidateCard`, `Snowfall`, `Header`, `AdminPage`, `LoginPage`, `AdminConfirmationDialog`, `ApiDebugPage` and the routing in `App.tsx`.
- UserManagementSave.HandleSave: the whitelist store never throws, so the save-failure branch is reachable only through `UserManagement.UserManagementPage.FinishSave`.

## Findings

| source | as written | input that shows it | evidently intended | confidence | as-written member | corrected member |
|---|---|---|---|---|---|---|
| components/UserManagementPage.tsx:15-46 | `users.map(u => u.username).join(', ')` over the strings `authService.getUsers` returns, so every name is `undefined` and shows as empty | the list `["alice", "saitama"]` is shown as `", "`; saving that text unedited is refused as an empty list | show the usernames themselves, `users.join(', ')`, so that saving the text unedited keeps the list | not executed | UserListText.AsWrittenLosesNames | UserManagementSave.IntendedResaveKeepsList |
