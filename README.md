# Users directory and todo service — a Dafny model

The repository holds two small web applications:

- **The user directory** is a React front end. `fetchAllUsers` loads every page of a remote user list, and falls back to twelve built-in users on any failure. `UserTable` filters that list by free-text search, e-mail domain and first-name initial. It sorts the list by a chosen key and direction and shows six users per page. `Pagination` renders the page buttons.
- **The todo service** has three parts:
  - a Mongoose schema for a todo (trimmed, length-limited text, a priority enumeration, defaults and a derived `status`);
  - Express routes for listing, statistics, read, create, update and delete;
  - a browser client that keeps the current filter, sort and edited todo, and builds the requests it sends.

The model gives each of these its own module:

| module | file | models |
|---|---|---|
| `Text` | `text.dfy` | the JavaScript string operations used: ASCII case folding, `length` in UTF-16 code units, `trim` with ECMAScript's whitespace set, `includes`, `startsWith`, `endsWith`, `split(c)[i]`, string `<` |
| `Sequences` | `sequences.dfy` | `filter`, a stable comparison sort over a total preorder, de-duplication through a `Set` |
| `UserSource` | `user_source.dfy` | `api.js`: `MOCK_USERS` and `fetchAllUsers` as a method with its three loops; the remote server is a function from page number to response |
| `UserTable` | `user_table.dfy` | `UserTable.jsx`: the `filtered` derivation, `totalPages`, the page slice, the "Showing" figures, `uniqueDomains`, `letters`; the component's hooks as the class `UserTableView`, whose methods are the controls' handlers |
| `Pagination` | `pagination.dfy` | `Pagination.jsx`: the page-list loop, the Prev/Next targets and their disabled flags |
| `TodoModel` | `todo_model.dfy` | `Todo.js`: the validators, the `trim` setters, the defaults, `$set` updates, the `status` virtual at a given time |
| `TodoRoutes` | `todo_routes.dfy` | `todos.js`: query and sort construction, the listing, the summary, get/create/update/delete with their 404 answers; the collection is the class `TodoStore`, which holds a map from id to record |
| `TodoClient` | `todo_client.dfy` | `app.js`: the list URL, the submitted body, toggling, editing; the module state as the class `TodoApp` |

Clocks and the network are parameters:
- `now` is passed to `StatusAt`, `Create` and `Update`;
- `server` is passed to `FetchAllUsers`;
- the server's answers are passed to the client's `ReceiveTodos`, `CreateSucceeded` and `UpdateSucceeded`.

## Model

| member | source | states |
|---|---|---|
| Text.Lower | frontend/src/components/UserTable.jsx:18 | `toLowerCase` keeps the length and folds every character |
| Text.LowerConcat | frontend/src/components/UserTable.jsx:21 | lower-casing `first + " " + last` is lower-casing each part |
| Text.Trim | backend/todo-app/backend/src/models/Todo.js:8 | the result is no longer than the input and neither starts nor ends with whitespace |
| Text.TrimDropsOnlyWhitespace | backend/todo-app/backend/src/models/Todo.js:8 | `trim` keeps an infix of the input and drops only whitespace around it |
| Text.TrimStartDrops | backend/todo-app/backend/src/models/Todo.js:8 | leading trimming drops a prefix made only of whitespace |
| Text.TrimEndDrops | backend/todo-app/backend/src/models/Todo.js:8 | trailing trimming drops a suffix made only of whitespace |
| Text.TrimEmptyIffBlank | frontend/src/components/UserTable.jsx:17 | `s.trim()` is empty exactly when every character of `s` is whitespace |
| Text.TrimOfTrimmed | backend/todo-app/frontend/js/app.js:308-309 | a string without surrounding whitespace is its own trim |
| Text.TrimIdempotent | backend/todo-app/backend/src/models/Todo.js:8 | trimming twice is trimming once |
| Text.LowerIdempotent | frontend/src/components/UserTable.jsx:28 | lower-casing twice is lower-casing once |
| Text.JsLength | backend/todo-app/backend/src/models/Todo.js:9 | `length` counts UTF-16 code units: at least one and at most two per character, and exactly one per character exactly when no character lies outside the Basic Multilingual Plane |
| Text.JsLengthAppend | backend/todo-app/backend/src/models/Todo.js:14 | the length of a concatenation is the sum of the lengths |
| Text.BeforeFirst | backend/todo-app/frontend/js/app.js:343 | `split(c)[0]` is a prefix without `c`, followed by `c` when shorter than the input |
| Text.SecondSegment | frontend/src/components/UserTable.jsx:60 | `split(c)[1]` is undefined exactly when `c` is absent; otherwise it is the text after the first `c`, up to the next `c` or the end |
| Text.StrLessIrreflexive | frontend/src/components/UserTable.jsx:41-42 | no string is `<` itself |
| Text.StrLessTransitive | frontend/src/components/UserTable.jsx:41-42 | string `<` is transitive |
| Text.StrLessTotal | frontend/src/components/UserTable.jsx:41-42 | two strings are equal or one is `<` the other |
| Text.StrLessAsymmetric | frontend/src/components/UserTable.jsx:41-42 | `a < b` excludes `b < a` |
| Sequences.Filter | frontend/src/components/UserTable.jsx:19-23 | `filter` keeps exactly the elements satisfying the predicate, with their multiplicities |
| Sequences.FilterHead | frontend/src/components/UserTable.jsx:19-23 | filtering a non-empty list keeps its head exactly when it passes, then filters the rest |
| Sequences.FilterKeepsAll | frontend/src/components/UserTable.jsx:19-23 | filtering by a predicate every element meets changes nothing |
| Sequences.FilterAppend | frontend/src/components/UserTable.jsx:19-23 | filtering distributes over concatenation |
| Sequences.FilterSameTest | frontend/src/components/UserTable.jsx:19-23 | two predicates that agree everywhere filter alike |
| Sequences.FilterSplitsCount | backend/todo-app/backend/src/routes/todos.js:56-57 | the elements meeting a predicate plus those meeting its negation are all of them |
| Sequences.Insert | frontend/src/components/UserTable.jsx:38 | insertion adds exactly the new element |
| Sequences.InsertSorted | frontend/src/components/UserTable.jsx:38 | insertion into a sorted list keeps it sorted |
| Sequences.Sort | frontend/src/components/UserTable.jsx:38-44 | `sort` with a consistent comparator returns a sorted permutation of its input |
| Sequences.NoTiesAfter | frontend/src/components/UserTable.jsx:38 | no element of a sorted list whose head may not precede `x` ties with `x` |
| Sequences.InsertPastHead | frontend/src/components/UserTable.jsx:38 | insertion past a head that may precede `x` keeps the head in front of every tie class |
| Sequences.InsertInFront | frontend/src/components/UserTable.jsx:38 | insertion in front of a sorted list puts `x` after everything it ties with |
| Sequences.InsertAfterTies | frontend/src/components/UserTable.jsx:38 | insertion into a sorted list places `x` last among the elements it ties with |
| Sequences.SortStep | frontend/src/components/UserTable.jsx:38-44 | one insertion step keeps every tie class in input order |
| Sequences.SortStable | frontend/src/components/UserTable.jsx:38-44 | `sort` is stable, as ECMAScript requires of `Array.prototype.sort`: for every element, the elements tied with it appear in the output in their input order |
| Sequences.SortedTail | frontend/src/components/UserTable.jsx:38 | the tail of a sorted list is sorted |
| Sequences.DistinctAt | frontend/src/components/UserTable.jsx:66 | in a list without duplicates, two positions hold different values |
| Sequences.Distinct | frontend/src/components/UserTable.jsx:60-61 | `Array.from(new Set(s))` holds each element of `s` exactly once |
| UserSource.MockUsers | frontend/src/api.js:2-15 | the sample has twelve users with ids 1 to 12 and non-empty first names |
| UserSource.PageRange | frontend/src/api.js:51 | the loop's page numbers `lo..hi` in order |
| UserSource.PageRangeSnoc | frontend/src/api.js:51 | the range up to `hi` is the range up to `hi - 1` followed by `hi` |
| UserSource.RequestPages | frontend/src/api.js:50-61 | the loop fetches pages 2..`totalPages` in order, recording each request after page 1 |
| UserSource.AllSettled | frontend/src/api.js:63-64 | `Promise.all` resolves exactly when every page 2..`totalPages` is usable |
| UserSource.ConcatPages | frontend/src/api.js:65-67 | the users of pages 2..`totalPages` are appended in page order |
| UserSource.FetchAllUsers | frontend/src/api.js:19-77 | a 401 or an unreadable page 1 serves the sample after one request; otherwise pages 2..`total_pages \|\| 1` are requested in order. If they all succeed the result is the pages' data concatenated in page order; one failure serves the sample, never a partial list |
| UserSource.SinglePageIgnoresRest | frontend/src/api.js:46-68 | when page 1 reports at most one page, nothing but page 1 affects the users |
| UserTable.ActiveIffTrimmed | frontend/src/components/UserTable.jsx:17 | a filter applies exactly when its trimmed text is non-empty |
| UserTable.FiltersIgnoreCase | frontend/src/components/UserTable.jsx:18-34 | the search, domain and letter tests (`MatchesSearch`, `MatchesDomain`, `MatchesLetter`) give the same answer for a filter text and its lower-cased form |
| UserTable.Selected | frontend/src/components/UserTable.jsx:17-36 | the three filter passes keep each user that matches every active filter (`MatchesSearch`: name or e-mail includes the lower-cased search; `MatchesDomain`: e-mail ends with the domain; `MatchesLetter`: first name starts with the letter), as often as it occurs, and drop the rest |
| UserTable.Compare | frontend/src/components/UserTable.jsx:38-43 | the comparator returns 0 exactly when the lower-cased keys are equal, and a negative number exactly when `a`'s key is `<` `b`'s in ascending order (`>` in descending order) |
| UserTable.CompareAntisymmetric | frontend/src/components/UserTable.jsx:41-43 | swapping the two users negates the comparator's answer |
| UserTable.TiesAreSameKey | frontend/src/components/UserTable.jsx:41-43 | the comparator ties two users exactly when their lower-cased keys are equal |
| UserTable.SortKeepsKeyOrder | frontend/src/components/UserTable.jsx:38-44 | sorting keeps users with equal keys in their relative order |
| UserTable.PrecedesMeansKeyOrder | frontend/src/components/UserTable.jsx:38-44 | the comparator puts `a` before `b` exactly when the lower-cased keys are in the chosen direction |
| UserTable.PrecedesIsTotalPreorder | frontend/src/components/UserTable.jsx:38-44 | the comparator is total and transitive, so the sort is well defined |
| UserTable.Filtered | frontend/src/components/UserTable.jsx:14-47 | `filtered` holds exactly the users passing every active filter, with their multiplicities, ordered by lower-cased key in the chosen direction; users with equal keys (`SameKey`) keep the order in which the filters pass them, which is their order in `users` |
| UserTable.BlankFiltersKeepEveryone | frontend/src/components/UserTable.jsx:17-36 | blank search, domain and letter filters keep every user |
| UserTable.FilteredCountIgnoresSort | frontend/src/components/UserTable.jsx:38-49 | the sort changes neither which users are listed nor how many, so `totalPages` depends on the filters only |
| UserTable.TotalPages | frontend/src/components/UserTable.jsx:49 | the least page count of six that holds `n` items, at least 1, and exactly 1 for no items |
| UserTable.SliceIndex | frontend/src/components/UserTable.jsx:57 | `slice` clamps an index into `0..len`: a non-negative index is capped at `len`, a negative one counts from the end, and one below `-len` becomes 0 |
| UserTable.PageItems | frontend/src/components/UserTable.jsx:56-57 | page `p` shows at most six items (the `Slice` of the list from `(p-1)*6`): those from position `(p-1)*6`, as many as remain |
| UserTable.FirstPagesArePrefix | frontend/src/components/UserTable.jsx:56-57 | pages `1..k` laid end to end are the first `6k` items |
| UserTable.PagesCoverList | frontend/src/components/UserTable.jsx:49-57 | pages `1..totalPages` show every filtered user exactly once, in order |
| UserTable.ShowingMatchesPage | frontend/src/components/UserTable.jsx:312 | on an in-range page, the "Showing a–b" figures (`ShowingRange`) start at the first shown item's position and count exactly the shown items; with no users they read 0–0 |
| UserTable.DomainOf | frontend/src/components/UserTable.jsx:60 | `email.split('@')[1] \|\| ''` is empty when the e-mail has no `@`; otherwise it is the `@`-free text after the first `@`, up to the next `@` or the end |
| UserTable.UniqueDomains | frontend/src/components/UserTable.jsx:59-62 | each non-empty domain of some user appears exactly once, and nothing else appears |
| UserTable.CharLeIsTotalPreorder | frontend/src/components/UserTable.jsx:66 | the default sort order on one-character strings is a total preorder |
| UserTable.Letters | frontend/src/components/UserTable.jsx:64-67 | the upper-cased initials of all users, each once, in strictly ascending order |
| UserTable.LettersFacts | frontend/src/components/UserTable.jsx:65-66 | sorting the distinct initials gives a strictly ascending list holding exactly the users' initials |
| UserTable.UserTableView.constructor | frontend/src/components/UserTable.jsx:5-11 | every hook starts at its initial value, page 1 |
| UserTable.UserTableView.SetSearch | frontend/src/components/UserTable.jsx:79-82 | a new search returns to page 1 and changes nothing else |
| UserTable.UserTableView.SetSortKey | frontend/src/components/UserTable.jsx:99 | a new sort key keeps the page, which stays in range |
| UserTable.UserTableView.ToggleSortDir | frontend/src/components/UserTable.jsx:115 | the direction flips, and the page is kept and stays in range |
| UserTable.UserTableView.SetFilterDomain | frontend/src/components/UserTable.jsx:169-172 | a new domain filter returns to page 1 |
| UserTable.UserTableView.SetFilterLetter | frontend/src/components/UserTable.jsx:192-195 | a new letter filter returns to page 1 |
| UserTable.UserTableView.Reset | frontend/src/components/UserTable.jsx:134-141 | "Reset Filters" restores every hook to its initial value |
| UserTable.UserTableView.PrevPage | frontend/src/components/UserTable.jsx:328-329 | one page back, never below 1 |
| UserTable.UserTableView.NextPage | frontend/src/components/UserTable.jsx:370-371 | one page on, never past `totalPages` |
| UserTable.UserTableView.ReceiveUsers | frontend/src/components/UserTable.jsx:52-54 | after new users arrive, a page beyond the new last page is pulled back onto it, so the page stays in `1..totalPages` |
| UserTable.UserTableView.CurrentPageItems | frontend/src/components/UserTable.jsx:56-57 | the current page's items; the page is non-empty unless no user passes the filters |
| Pagination.PageNumbers | frontend/src/components/Pagination.jsx:5-6 | the loop yields `1..totalPages`, or nothing when `totalPages < 1` |
| Pagination.PrevTarget | frontend/src/components/Pagination.jsx:13 | Prev asks for the previous page, or 1 |
| Pagination.NextTarget | frontend/src/components/Pagination.jsx:33 | Next asks for the next page, or `totalPages` |
| Pagination.TargetsStayInRange | frontend/src/components/Pagination.jsx:13-14 | from an in-range page both targets stay in range, and a button is disabled (`PrevDisabled`, `NextDisabled`) exactly when pressing it would not move |
| Pagination.PrevNextInverse | frontend/src/components/Pagination.jsx:13-34 | Prev then Next (from any page but the first) and Next then Prev (from any page but the last) return to the start |
| Pagination.OneHighlighted | frontend/src/components/Pagination.jsx:20-24 | exactly the current page's button is `Highlighted` when the page is in range, and none otherwise |
| TodoModel.TitleRequiredIffBlank | backend/todo-app/backend/src/models/Todo.js:7-8 | `required` rejects exactly the titles made only of whitespace |
| TodoModel.TitleErrors | backend/todo-app/backend/src/models/Todo.js:5-10 | the title fails `required` exactly when blank, and `maxlength` exactly when its trim is longer than 100 UTF-16 code units (`JsLength`) |
| TodoModel.DescriptionErrors | backend/todo-app/backend/src/models/Todo.js:11-16 | the description fails exactly when its trim is longer than 500 UTF-16 code units |
| TodoModel.EmojiTitleTooLong | backend/todo-app/backend/src/models/Todo.js:9 | a title of 99 letters and one emoji is 101 code units long and fails `maxlength` |
| TodoModel.PriorityErrors | backend/todo-app/backend/src/models/Todo.js:21-25 | the priority fails exactly when it is not `low`, `medium` or `high` |
| TodoModel.MessageIdentifiesError | backend/todo-app/backend/src/models/Todo.js:7-23 | the failure messages (`Message`: the schema's texts, and Mongoose's enum message naming the rejected priority) are pairwise different, so a message tells which validator failed and on which value |
| TodoModel.CreateErrors | backend/todo-app/backend/src/models/Todo.js:3-34 | a new document is valid exactly when a non-blank title fits 100 UTF-16 code units, a given description fits 500, and a given priority is allowed; a missing title fails `required` |
| TodoModel.Defaulted | backend/todo-app/backend/src/models/Todo.js:15-28 | the stored document is well formed, with trimmed text and the defaults `''`, `false`, `'medium'` and `null` |
| TodoModel.PatchOfDefaultsFits | backend/todo-app/backend/src/models/Todo.js:15-28 | setting a valid body over the defaults yields a well-formed document holding the trimmed given fields |
| TodoModel.Create | backend/todo-app/backend/src/models/Todo.js:3-34 | creation succeeds exactly when no validator fails and then stores `Defaulted(body)`, a well-formed record; otherwise it reports every failure |
| TodoModel.CreateRoundTrip | backend/todo-app/backend/src/models/Todo.js:3-34 | creating from a stored record's own fields stores that record again |
| TodoModel.CreateOfTrimmedText | backend/todo-app/backend/src/models/Todo.js:5-16 | a body with pre-trimmed text is accepted exactly under the length, emptiness and priority rules, and stored as sent |
| TodoModel.CreateNeedsTitle | backend/todo-app/backend/src/models/Todo.js:7 | a body without a title is rejected with `Title is required` |
| TodoModel.UpdateErrors | backend/todo-app/backend/src/routes/todos.js:127-134 | the update validators check exactly the given fields |
| TodoModel.Patch | backend/todo-app/backend/src/routes/todos.js:127-134 | an update sets the given fields (text trimmed), keeps the others, and keeps a well-formed record well formed |
| TodoModel.PatchEmpty | backend/todo-app/backend/src/routes/todos.js:127-134 | the empty body is valid and changes nothing |
| TodoModel.PatchWithAllFields | backend/todo-app/backend/src/routes/todos.js:127-134 | an update with every field of a record yields that record |
| TodoModel.PatchIdempotent | backend/todo-app/backend/src/routes/todos.js:127-134 | applying the same update twice is applying it once |
| TodoModel.StatusAt | backend/todo-app/backend/src/models/Todo.js:40-44 | completed wins; otherwise overdue exactly when a due date lies strictly before now; otherwise active |
| TodoModel.StatusMonotone | backend/todo-app/backend/src/models/Todo.js:40-44 | as time passes an overdue todo stays overdue, and an active one can only become overdue |
| TodoRoutes.BuildQuery | backend/todo-app/backend/src/routes/todos.js:17-26 | `completed` is filtered whenever sent, true only for the text `true`; `priority` only when non-empty |
| TodoRoutes.BuildSort | backend/todo-app/backend/src/routes/todos.js:28-36 | `oldest` and `priority` select their orders; anything else sorts newest first |
| TodoRoutes.BeforeIsTotalPreorder | backend/todo-app/backend/src/routes/todos.js:30-36 | each of the three sort specifications (`Before`, which compares `createdAt` or `PriorityFirst`'s rank) is a total preorder |
| TodoRoutes.RecordsBelowCounts | backend/todo-app/backend/src/routes/todos.js:38 | the scan lists each stored record below the bound once, and nothing else |
| TodoRoutes.RecordsBelowLength | backend/todo-app/backend/src/routes/todos.js:55 | the scan is as long as the set of ids it covers |
| TodoRoutes.FilterStep | backend/todo-app/backend/src/routes/todos.js:38 | scanning one id further adds that record when it is stored and matches |
| TodoRoutes.Scan | backend/todo-app/backend/src/routes/todos.js:38 | the loop collects exactly the matching records in id order |
| TodoRoutes.CountStep | backend/todo-app/backend/src/routes/todos.js:56-57 | counting one id further adds one exactly when that record is stored and counted |
| TodoRoutes.CountCompleted | backend/todo-app/backend/src/routes/todos.js:56 | the loop counts exactly the completed records |
| TodoRoutes.CountActive | backend/todo-app/backend/src/routes/todos.js:57 | the loop counts exactly the active records |
| TodoRoutes.CompletionRate | backend/todo-app/backend/src/routes/todos.js:65 | the rate is `completed / total * 100`, or 0 for an empty store |
| TodoRoutes.CompletionRateBounds | backend/todo-app/backend/src/routes/todos.js:65 | the rate lies between 0 and 100, and is 100 when every todo is completed |
| TodoRoutes.TodoStore.constructor | backend/todo-app/backend/src/models/Todo.js:55 | the collection starts empty |
| TodoRoutes.TodoStore.RecordsAreStore | backend/todo-app/backend/src/routes/todos.js:55 | the listing holds every stored record exactly once, and is as long as the store |
| TodoRoutes.TodoStore.ScanIsSelection | backend/todo-app/backend/src/routes/todos.js:38 | scanning with the query's filter yields each selected stored record once and nothing else |
| TodoRoutes.TodoStore.List | backend/todo-app/backend/src/routes/todos.js:13-48 | 200 with exactly the stored records that `Matches` the query, each once, sorted by the chosen specification, and their count |
| TodoRoutes.TodoStore.Stats | backend/todo-app/backend/src/routes/todos.js:53-71 | 200 with the total, the completed and active counts (which sum to the total) and their rate |
| TodoRoutes.TodoStore.Get | backend/todo-app/backend/src/routes/todos.js:76-94 | 404 `Todo not found` for a missing id, otherwise 200 with the record |
| TodoRoutes.TodoStore.Create | backend/todo-app/backend/src/routes/todos.js:99-116 | an invalid body is forwarded with its errors and stores nothing; a valid one is stored under a fresh id with both timestamps `now`, answered 201 |
| TodoRoutes.TodoStore.Update | backend/todo-app/backend/src/routes/todos.js:121-152 | invalid given fields are forwarded first; then a missing id answers 404; otherwise the fields are set, `updatedAt` becomes `now`, and the answer is 200 |
| TodoRoutes.TodoStore.Delete | backend/todo-app/backend/src/routes/todos.js:157-176 | 404 for a missing id; otherwise the record is removed and the answer is 200 with `{}` |
| TodoRoutes.DeleteThenGet | backend/todo-app/backend/src/routes/todos.js:76-176 | after a delete, reading that id answers 404 while another record reads back unchanged |
| TodoClient.Param | backend/todo-app/frontend/js/app.js:105-117 | the value of the first pair with the key, or nothing exactly when no pair has the key |
| TodoClient.QueryString | backend/todo-app/frontend/js/app.js:117 | the query text is empty exactly when no parameter was added |
| TodoClient.ParamsRules | backend/todo-app/frontend/js/app.js:105-115 | the parameter list (`Params`) holds `completed=true` for filter `completed`, `completed=false` for `active`, nothing for the others, and `sort` unless `newest` |
| TodoClient.UrlHasQueryIffParams | backend/todo-app/frontend/js/app.js:117 | the URL (`RequestUrl`) is the bare endpoint exactly when no parameter was added, and otherwise continues with `?` |
| TodoClient.SubmitBody | backend/todo-app/frontend/js/app.js:307-316 | the body holds the trimmed title and description, the priority, `completed: false`, and a due date only when one was entered |
| TodoClient.ToggleRequest | backend/todo-app/frontend/js/app.js:358-360 | toggling sends an update of `completed` and nothing else |
| TodoClient.SubmittedFormOnServer | backend/todo-app/frontend/js/app.js:307-322 | the server accepts a submitted form exactly when the trimmed title is non-empty and fits 100 UTF-16 code units, the trimmed description fits 500, and the priority is allowed; it stores the text as sent, not completed |
| TodoClient.ToggleOnServer | backend/todo-app/frontend/js/app.js:358-360 | a toggle passes the update validators and changes only `completed` |
| TodoClient.FindById | backend/todo-app/frontend/js/app.js:337 | `find` returns the first todo with the id, or nothing exactly when no todo has it |
| TodoClient.EditForm | backend/todo-app/frontend/js/app.js:340-343 | the form shows the todo's title, its description or `''`, its priority, and the date part before `T` (or nothing) |
| TodoClient.EditThenSubmit | backend/todo-app/frontend/js/app.js:307-343 | submitting a freshly edited form resends the trimmed text and the priority, and a due date exactly when the stored one has a date part |
| TodoClient.TodoApp.constructor | backend/todo-app/frontend/js/app.js:13-16 | no todos, filter `all`, sort `newest`, not editing |
| TodoClient.TodoApp.FetchUrl | backend/todo-app/frontend/js/app.js:105-117 | the parameters appended one by one give the URL of `RequestUrl` |
| TodoClient.TodoApp.ReceiveTodos | backend/todo-app/frontend/js/app.js:121-123 | on `success` the list is replaced, otherwise it is kept |
| TodoClient.TodoApp.SelectFilter | backend/todo-app/frontend/js/app.js:382-389 | a filter button sets the filter and fetches its URL |
| TodoClient.TodoApp.SelectSort | backend/todo-app/frontend/js/app.js:392-395 | the sort select sets the sort and fetches its URL |
| TodoClient.TodoApp.Submit | backend/todo-app/frontend/js/app.js:304-323 | while editing the form updates the edited todo, otherwise it creates one |
| TodoClient.TodoApp.ResetForm | backend/todo-app/frontend/js/app.js:326-333 | blank inputs, back to create mode |
| TodoClient.TodoApp.EditTodo | backend/todo-app/frontend/js/app.js:336-355 | an unknown id changes nothing; otherwise the form shows that todo and the app edits it |
| TodoClient.TodoApp.CreateSucceeded | backend/todo-app/frontend/js/app.js:150-153 | the list is refetched and the form reset |
| TodoClient.TodoApp.UpdateSucceeded | backend/todo-app/frontend/js/app.js:179-184 | the list is refetched, and the form is reset only while editing |

## Left out

- Rendering, styling, DOM events other than the modelled handlers, toasts, the loading spinner, `confirm()` before a delete, scrolling and the character counters: presentation only.
- `updateStats`, `deleteTodo` and the client's stats fetch: these only show server results. Deletion on the server is modelled in `TodoRoutes.TodoStore.Delete`.
- The client's `catch` paths for network failures: they show a toast and change no state. `ReceiveTodos` with `success == false` covers keeping the list.
- Promise scheduling, concurrency and interleaving of requests: each handler is modelled as running to completion.
- The validation middleware (`validateTodo`) and the error handler (`server.js`) are not part of this model. A schema failure is returned as `Forwarded(errors)`, the error passed to `next`.
- Mongo `ObjectId`s, and casting errors for malformed ids: ids are natural numbers handed out in increasing order.
- Mongo's order among records that tie under the sort is unspecified. `TodoStore.List` promises a sorted permutation of the matching records, not one particular order of ties.
- Dates: `dueDate` and the timestamps are milliseconds. Date parsing is a parameter `due` of `ServerBody`, and `new Date()` is the parameter `now`.
- `completionRate`'s `toFixed(2)` string formatting: the rate is an exact real.
- Request bodies whose fields have the wrong JSON type, a `null` description, and unknown fields: bodies are modelled with the schema's own field types.
- `Text.Lower`: case folding covers ASCII only. Non-ASCII letters are left unchanged.
- `Text.StrLess`: compares characters by code point, which agrees with JavaScript's UTF-16 code-unit order except between characters outside the Basic Multilingual Plane and those in U+E000–U+FFFF.
- `Sequences.Distinct`, `UserTable.UniqueDomains`: the order of first appearance that `Set` iteration gives is not stated. Only "each element exactly once" is proved.
- `TodoClient.QueryString`: no percent-encoding of parameter values.
- `UserTable.Letters`: requires every first name to be non-empty. The source reads `first_name[0].toUpperCase()` unguarded, and that throws on an empty name.
- `UserTable.Letters`, `UserTable.Initial`: `first_name[0]` is taken as the first character (code point). The source reads one UTF-16 code unit, which for a name starting outside the Basic Multilingual Plane is a lone surrogate; a Dafny `char` cannot hold one. Lengths are counted in code units (`Text.JsLength`); other string positions are characters.
- `UserTable.UserTableView.ReceiveUsers`: the render that happens before the clamping effect runs, with a page beyond the last, is not modelled. The model moves straight to the clamped state.
- `TodoClient.TodoApp`: `blank`, the value `todoForm.reset()` restores, is a constructor parameter, because it comes from the page's markup.
- `UserSource.FetchAllUsers`: the logging, and the body text read on a failed page 1, are dropped.
- `TodoRoutes.TodoStore.Update` runs the validators of the given fields before the lookup, as `findByIdAndUpdate` with `runValidators` does. An invalid body sent to a missing id is therefore forwarded as a validation error, not answered 404. This follows the code rather than a reading in which the 404 comes first.
