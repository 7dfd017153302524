# Task Manager: a Dafny model of the API routes and the task-list client

This project models a small task-management web application in Dafny:

- **Database layer.** A document store holds two schemas, users and tasks. Each has defaults, enumerations and the constraints checked on save.
- **Validation.** Express-validator chains check every request body. Their middleware answers `400 Validation failed` with one `{field, message}` entry per failing rule.
- **Account routes.** These cover registration, login, the profile behind a bearer token, and the forgot / reset / verify cycle of password-reset tokens.
- **Task routes.** Every route is scoped to the requesting user. They cover the filtered, sorted, paged listing with per-user statistics, single-task read, create, update, delete, and the bulk status change.
- **Browser client.** This is the slice that drives the list. It holds the filter / page / sort state, builds the query string it sends, lays out the page buttons, and produces status labels and icons.

Modules:

| file | module | models |
|---|---|---|
| `text.dfy` | `Text` | the string operations involved: `trim`, ASCII case mapping, case-insensitive substring search, code-point order, and `split` / `join` on one character |
| `common.dfy` | `Common` | body fields (`undefined`, `null` or a string), the response envelope, and validation errors |
| `schema.dfy` | `Schema` | `userSchema` and `taskSchema` |
| `validation.dfy` | `Validation` | `registerValidation`, `loginValidation`, `taskValidation` and `handleValidationErrors` |
| `task_query.dfy` | `TaskQuery` | what `GET /api/tasks` computes: the filter, the sort-field allow-list, ordering, paging arithmetic and the aggregate statistics |
| `tasks.dfy` | `Tasks` | the task routes, as the class `TaskStore` over a sequence of task documents |
| `auth.dfy` | `Auth` | the account routes, as the class `UserStore` over a sequence of user documents |
| `client.dfy` | `ClientApp` | the client's `state` object as the class `ClientState`, plus `loadTasks`'s query, `renderPagination`, `setFilter`, `changePage`, `formatStatus` and `getStatusIcon` |

Some things enter the model only as parameters:

- the clock (`now`);
- the random reset token (`raw`);
- the result of the reset email (`emailSent`);
- the bcryptjs salt (`salt`);
- the cryptographic primitives: SHA-256, bcrypt hash/compare and JWT sign/verify. These are the fields of a `Crypto` value. The predicate `CryptoSound` states the only properties the round-trip lemmas rely on.
- `isEmail`, `normalizeEmail` and `isISO8601` from validator.js, likewise passed in as functions.

Each store class keeps an invariant, `Valid()`:

- **`TaskStore`:** every document satisfies `taskSchema`, and ids are distinct.
- **`UserStore`:** every document satisfies `userSchema`, the unique indexes hold, and a reset token and its expiry are present together or not at all.

Every mutating route is proved to preserve its store's invariant. Each route states its full outcome, including every error response with its status code and message.

## Model

| member | source | states |
|---|---|---|
| Text.Trim | middleware/validation.js:6 | the result has no whitespace at either end; trimmed input is unchanged; the result is empty exactly when the input is all whitespace |
| Text.LeadingSpaces | middleware/validation.js:6 | counts the whitespace run `s` starts with: everything before it is whitespace and the character after it is not |
| Text.TrailingSpaces | middleware/validation.js:6 | counts the whitespace run `s` ends with: everything after it is whitespace and the character before it is not |
| Text.TrimSpan | middleware/validation.js:6 | `trim` removes whitespace and nothing else: the result is a contiguous slice of the input with only whitespace before and after it |
| Text.TrimIdempotent | middleware/validation.js:29-31 | trimming twice is trimming once |
| Text.Utf16Length | database/db.js:12-13 | the JavaScript `length` the schema's `minlength` / `maxlength` compare: one code unit per character, two outside the Basic Multilingual Plane; between the character count and twice it |
| Text.Utf16LengthOfBmp | database/db.js:66 | for text inside the Basic Multilingual Plane the UTF-16 length is the character count |
| Text.Utf16LengthOfAstral | database/db.js:66 | for text made only of characters outside the Basic Multilingual Plane the UTF-16 length is twice the character count |
| Text.ValidatorLength | middleware/validation.js:7 | the length `isLength` compares: characters (a surrogate pair counts once) other than the variation selectors U+FE0E and U+FE0F; never more than the character count |
| Text.ValidatorLengthPlain | middleware/validation.js:33 | without variation selectors, `isLength` counts every character |
| Text.NarrowTrimMeasures | middleware/validation.js:29-38 | for trimmed Basic-Multilingual-Plane text without variation selectors, the validator and the schema measure the same length |
| Text.Lower | routes/tasks.js:36 | lower-cases each character and keeps the length |
| Text.LowerIdempotent | database/db.js:21 | the `lowercase` setter applied twice equals once |
| Text.ContainsAt | routes/tasks.js:25-29 | a needle found at any offset counts as contained |
| Text.ContainsWitness | routes/tasks.js:25-29 | a contained needle occurs at some offset |
| Text.LexLeTotal | routes/tasks.js:36 | the string order compares any two strings |
| Text.LexLeTransitive | routes/tasks.js:36 | the string order is transitive |
| Text.LexLeAntisymmetric | routes/tasks.js:36 | strings that are ordered both ways are equal |
| Text.Split | routes/auth.js:124 | `split` returns at least one piece, and no piece holds the separator |
| Text.JoinSplit | public/js/app.js:795-797 | joining the pieces of a split gives back the string |
| Text.SplitJoin | public/js/app.js:795-797 | splitting a join of separator-free pieces gives back the pieces |
| Schema.StatusName | database/db.js:74-79 | every status is stored as one of the three enumerated strings |
| Schema.ParseStatus | database/db.js:74-79 | a status string is accepted iff it is one of the three enumerated strings, and it maps back to itself |
| Schema.PriorityName | database/db.js:80-85 | every priority is stored as one of the three enumerated strings |
| Schema.ParsePriority | database/db.js:80-85 | a priority string is accepted iff enumerated, and it maps back to itself |
| Schema.EnumRoundTrip | database/db.js:74-85 | every status and priority survives storing and reading its string |
| Schema.UserSetters | database/db.js:7-22 | after the setters, the username and email are trimmed and the email is lower-case; no other field changes |
| Schema.EmailKey | database/db.js:16-22 | a lookup email is normalised the way stored emails are, and a stored email is its own key |
| Schema.WordLengths | database/db.js:10-14 | a username of word characters is as long for the schema as for the validator |
| Schema.UserValid | database/db.js:7-27 | definition of what `userSchema` accepts: a trimmed username of 3 to 30 UTF-16 units of letters, digits and `_`, a trimmed lower-case email, and a password of at least 6 UTF-16 units when one is stored; kept by `Auth.UserStore` as part of its invariant |
| Schema.TaskValid | database/db.js:62-73 | definition of what `taskSchema` accepts: a non-empty trimmed title of at most 100 UTF-16 units and a trimmed description of at most 500; its partners are `Tasks.NewTaskValid` and `Tasks.ApplyUpdateValid` |
| Validation.Rule | middleware/validation.js:5-51 | definition: a validator contributes no entry when it passes and its `{field, message}` when it fails; every error-list function below states its effect |
| Validation.UsernameErrors | middleware/validation.js:5-10 | no errors iff the trimmed username is valid for the schema as well (3 to 30 word characters); the length message appears iff `isLength` counts outside 3 to 30, the pattern message iff `^\w+$` fails |
| Validation.EmailErrors | middleware/validation.js:11-15 | no errors iff `isEmail` accepts the trimmed email |
| Validation.FirstLine | middleware/validation.js:19 | the part of the password a `.*` lookahead can scan: the longest prefix without a line terminator |
| Validation.PasswordErrors | middleware/validation.js:16-20 | no errors iff `isLength` counts at least 6 characters and the first line has a lower-case letter, an upper-case letter and a digit |
| Validation.RegisterErrors | middleware/validation.js:4-21 | no errors iff the username, email and password rules all pass |
| Validation.LoginErrors | middleware/validation.js:23-26 | no errors iff the trimmed username and the password are both non-empty |
| Validation.Optional | middleware/validation.js:36 | definition: an `optional()` chain is skipped iff the field is missing, and `null` is still checked; `Validation.DescriptionErrors` and its siblings state the effect |
| Validation.TitleErrors | middleware/validation.js:29-34 | no errors iff the trimmed title is non-empty and `isLength` counts at most 100; names the message for each failure |
| Validation.DescriptionErrors | middleware/validation.js:35-39 | no errors iff the description is missing or trims to at most 500 by `isLength`'s count |
| Validation.StatusErrors | middleware/validation.js:40-43 | no errors iff the status is missing or one of the three statuses |
| Validation.PriorityErrors | middleware/validation.js:44-47 | no errors iff the priority is missing or one of the three priorities |
| Validation.DueDateErrors | middleware/validation.js:48-51 | no errors iff the due date is missing or ISO 8601 |
| Validation.TaskErrors | middleware/validation.js:28-52 | no errors iff the body satisfies all task rules together (`TaskBodyAccepted`) |
| Validation.SanitizeTask | middleware/validation.js:29-39 | the handler sees the trimmed title and description; status, priority and due date are untouched |
| Validation.SanitizeKeepsAccepted | middleware/validation.js:28-52 | a body that passed the rules still passes them after sanitising |
| Validation.HandleValidationErrors | middleware/validation.js:55-68 | passes the request on iff there are no errors; otherwise responds 400 with the message `Validation failed` and every error, in order |
| TaskQuery.Select | routes/tasks.js:21-30 | the matching tasks are exactly the stored tasks that pass the owner, status, priority and search filter |
| TaskQuery.Matches | routes/tasks.js:21-30 | definition of the query filter: the owner's task, with the given status and priority, and the search text in the title or description; its partners are `TaskQuery.Select` and `TaskQuery.MatchesStatusOnly` |
| TaskQuery.Count | routes/tasks.js:51 | definition: `countDocuments` is the size of the selection; `TaskQuery.StatsTotalIsOwnerCount` and `TaskQuery.StatusCountMatchesStats` relate it to the statistics |
| TaskQuery.SortFieldName | routes/tasks.js:34 | every sort field is on the allow-list |
| TaskQuery.ChooseSortField | routes/tasks.js:33-35 | an allowed `sort_by` is used as given; anything else falls back to `createdAt` |
| TaskQuery.Ascending | routes/tasks.js:36 | definition: ascending iff `sort_order`, lower-cased, is `asc`, with `desc` as default; `ClientApp.DefaultSortFallsBack` shows the default sorts newest first |
| TaskQuery.KeyLeTotal | routes/tasks.js:36 | any two sort keys are comparable |
| TaskQuery.KeyLeTransitive | routes/tasks.js:36 | the order on sort keys is transitive |
| TaskQuery.InOrderTotal | routes/tasks.js:36 | in either direction, any two tasks are comparable |
| TaskQuery.InOrderTransitive | routes/tasks.js:36 | in either direction, the order on tasks is transitive |
| TaskQuery.Insert | routes/tasks.js:45-46 | inserting into a sorted listing keeps it sorted and adds exactly that task |
| TaskQuery.SortTasks | routes/tasks.js:45-46 | the sorted listing is sorted on the chosen field and direction, and is a permutation of its input |
| TaskQuery.Skip | routes/tasks.js:39-41 | the offset `(page - 1) * limit` is never negative for page ≥ 1 |
| TaskQuery.CeilDiv | routes/tasks.js:83 | `total_pages` is the least number of pages of `limit` that hold `total`, and 0 exactly for no tasks |
| TaskQuery.PageOf | routes/tasks.js:46-48 | the page holds at most `limit` consecutive tasks starting at the offset, and is empty past the end |
| TaskQuery.PageDrawnFromSelection | routes/tasks.js:21-30 | every task on a page belongs to the requester and passes the filter |
| TaskQuery.PagePastEndIsEmpty | routes/tasks.js:41-48 | a page beyond `total_pages` starts past the last matching task |
| TaskQuery.StatsOf | routes/tasks.js:55-69 | the status counts add up to the total; high-priority tasks are at most the total; the statistics are all zero when the owner has no task |
| TaskQuery.StatsTotalIsOwnerCount | routes/tasks.js:55-69 | the statistics total counts all of the owner's tasks whatever the query's filters; no filtered count exceeds it |
| TaskQuery.StatusCountMatchesStats | routes/tasks.js:61-63 | the count of the owner's tasks filtered on one status equals that status's figure in the statistics |
| TaskQuery.MatchesStatusOnly | routes/tasks.js:21-23 | a status-only filter accepts exactly the owner's tasks with that status |
| TaskQuery.ListingFromSorted | routes/tasks.js:20-93 | filtering, sorting, skipping and limiting as the route does yields a listing as specified by `IsListing` |
| Tasks.StatusOr | routes/tasks.js:147 | definition of `status || 'pending'` for a validated status; `Tasks.NewTaskKeepsNames`, `Tasks.ApplyUpdateKeepsNames` and `Schema.EnumRoundTrip` state that the stored value is the one sent |
| Tasks.PriorityOr | routes/tasks.js:148 | definition of `priority || 'medium'` for a validated priority; `Tasks.NewTaskKeepsNames`, `Tasks.ApplyUpdateKeepsNames` and `Schema.EnumRoundTrip` state that the stored value is the one sent |
| Tasks.DueDateOf | routes/tasks.js:149 | definition: a falsy due date is stored as null, and any other is cast to a date; `Tasks.NewTask` and `Tasks.ApplyUpdate` state the effect, `Tasks.DateCasts` when the cast fails |
| Tasks.NewTask | routes/tasks.js:143-150 | the new document belongs to the requester with the body's title and description; falsy fields get pending / medium / null; both timestamps are now |
| Tasks.ApplyUpdate | routes/tasks.js:187-199 | exactly the fields the body carries change, plus `updatedAt`: a carried title or description is stored as given, a carried status or priority as the enumeration value it names, a truthy due date as its parsed instant and a falsy one as null; id, owner and `createdAt` never do |
| Tasks.FitsSchema | database/db.js:62-73 | definition: a carried title has at most 100 and a carried description at most 500 UTF-16 units |
| Tasks.DateCasts | database/db.js:86-89 | definition: a truthy due date is a string the document store can cast to a date |
| Tasks.UncastableDateRefused | routes/tasks.js:149 | a due date `isISO8601` accepts but `Date` cannot parse (a week date such as `2009-W01-1`) passes `taskValidation` and fails the cast |
| Tasks.NewTaskValid | routes/tasks.js:138-152 | for a body accepted by `taskValidation`, `taskSchema` accepts the new document iff its title and description fit the schema's UTF-16 limits |
| Tasks.NarrowBodyFits | middleware/validation.js:29-38 | an accepted body whose title and description are Basic-Multilingual-Plane text without variation selectors always fits the schema |
| Tasks.NewTaskKeepsNames | routes/tasks.js:143-150 | an accepted status or priority is stored as the very string the body named |
| Tasks.WideTitleRefused | database/db.js:66 | a title of 60 emoji passes `taskValidation` (60 by `isLength`) but not `taskSchema` (120 UTF-16 units) |
| Tasks.ApplyUpdateValid | routes/tasks.js:180-199 | for an accepted update of a valid document, the result is valid iff the carried title and description fit the schema's UTF-16 limits |
| Tasks.ApplyUpdateKeepsNames | routes/tasks.js:191-192 | an accepted status or priority is stored as the very string the body named |
| Tasks.FindOwned | routes/tasks.js:110 | finds a task iff one has that id and belongs to the requester, and returns its position |
| Tasks.LookupSeesOnlyOwner | routes/tasks.js:110 | other users' tasks cannot influence a lookup by id |
| Tasks.LookupCons | routes/tasks.js:110 | a lookup finds the first task carrying the id and the owner |
| Tasks.SetStatusWhere | routes/tasks.js:285-288 | exactly the requester's listed tasks take the new status and timestamp; every other task is unchanged |
| Tasks.MatchedCount | routes/tasks.js:285-292 | the reported count is the number of stored tasks that belong to the requester and whose id is listed (`Tasks.MatchedPositions`) |
| Tasks.MatchedPositions | routes/tasks.js:285-287 | definition: the positions of the requester's tasks whose id is in the list; no more than the stored tasks |
| Tasks.BulkLeavesOthersStats | routes/tasks.js:285-288 | a bulk change by one user leaves every other user's statistics unchanged |
| Tasks.NatToString | routes/tasks.js:292 | a count is printed as decimal digits that denote that very count, without a leading zero |
| Tasks.DecimalValue | routes/tasks.js:292 | definition: the number a string of decimal digits denotes |
| Tasks.AppendKeepsValid | database/db.js:55-92 | saving a valid document under a fresh id keeps the store valid |
| Tasks.ReplaceKeepsValid | database/db.js:55-92 | replacing a document by a valid one with the same id keeps the store valid |
| Tasks.RemoveKeepsValid | routes/tasks.js:239 | removing a document keeps the store valid |
| Tasks.TaskStore.constructor | database/db.js:96 | the store starts empty and valid |
| Tasks.TaskStore.List | routes/tasks.js:7-93 | the response meets `IsListing`: a page from a sorted permutation of the requester's matching tasks, the matching count, `ceil(total/limit)` pages, an empty page past the last, and statistics over all of the requester's tasks |
| Tasks.TaskStore.Get | routes/tasks.js:105-126 | succeeds iff the requester owns a task with that id and returns that task; otherwise 404 `Task not found` |
| Tasks.TaskStore.Create | routes/tasks.js:138-168 | a rejected body gives 400 with every error and changes nothing; a due date that does not cast or a document the schema refuses gives 500 `Error creating task` and changes nothing; otherwise 201 with the new document appended under the next id; the store stays valid |
| Tasks.TaskStore.SaveNew | routes/tasks.js:140-168 | 500 `Error creating task` when the due date does not cast or the schema refuses the document; otherwise appends it under the next id and returns it with 201 |
| Tasks.TaskStore.Update | routes/tasks.js:180-222 | a rejected body gives 400; a due date that does not cast, or a title or description over the schema's UTF-16 limits, gives 500 `Error updating task`; someone else's or a missing task gives 404; otherwise exactly that task is updated and returned; the store stays valid |
| Tasks.TaskStore.SaveUpdate | routes/tasks.js:182-222 | the update is cast and validated first: 500 when the due date does not cast or the carried text does not fit the schema, then 404 when the requester has no such task, both leaving the store unchanged; otherwise exactly the found task is replaced by its update |
| Tasks.TaskStore.Delete | routes/tasks.js:234-251 | 404 leaves the store unchanged; otherwise exactly the requester's task with that id is removed, and no such task remains |
| Tasks.TaskStore.BulkStatus | routes/tasks.js:263-293 | a missing or empty id list, then an invalid status, each give their 400 without touching the store; otherwise the requester's listed tasks take the status and the message reports the count |
| Auth.AuthDataOf | routes/auth.js:42-56 | definition of the response data: id, username, email and a token signed over them; `Auth.IssuedTokenNamesUser` states what the token carries |
| Auth.IssuedTokenNamesUser | routes/auth.js:42-56 | the issued token verifies to exactly the user's id, username and email, and is a non-empty token without spaces that a bearer header can carry |
| Auth.First | routes/auth.js:17-19 | `findOne` returns the first user the filter accepts, or none iff no user does |
| Auth.FindByUsername | routes/auth.js:74 | finds a user iff one has that username |
| Auth.FindByEmail | routes/auth.js:219 | finds a user iff one has that email |
| Auth.FindById | routes/auth.js:136 | finds a user iff one has that id |
| Auth.FindReset | routes/auth.js:287-291 | finds a user iff one holds that token hash with an expiry still ahead |
| Auth.Taken | routes/auth.js:17-26 | definition of the register conflict: some stored user has the username or the email; `Auth.UserStore.SaveUser` answers 409 exactly then |
| Auth.WithResetPair | routes/auth.js:236-241 | stores the token's hash with an expiry one hour ahead, and nothing else changes but `updatedAt` |
| Auth.Cleared | routes/auth.js:300-305 | stores the new password hash and clears the reset pair; nothing else changes but `updatedAt` |
| Auth.ResetPairWindow | routes/auth.js:240 | a stored pair opens a reset exactly until one hour has passed |
| Auth.ResetIsSingleUse | routes/auth.js:303-304 | after a reset, the same token is refused at any later time |
| Auth.BearerToken | routes/auth.js:123-124 | yields a token iff the header is present and its second space-separated piece is non-empty, and then exactly that piece, which holds no space; a missing or empty header yields none |
| Auth.BearerOfHeader | routes/auth.js:124 | `Bearer <token>` yields exactly the token |
| Auth.Login | routes/auth.js:69-118 | a rejected body gives 400; succeeds iff the username exists and bcrypt accepts the password, returning that user's data and token; every 401 is `Invalid username or password` |
| Auth.LoginFailuresIndistinguishable | routes/auth.js:76-91 | an unknown username and a wrong password get the very same response |
| Auth.Profile | routes/auth.js:121-162 | no token or an invalid token gives 401; succeeds iff the verified id belongs to a user, returning that user's profile without a password; otherwise 404 |
| Auth.VerifyResetToken | routes/auth.js:322-349 | a missing token gives 400 `Token is required`; succeeds iff some user holds the token's hash with an expiry ahead |
| Auth.Registered | routes/auth.js:33-37 | the saved user has the trimmed username, the normalised email, the hashed password and the schema defaults |
| Auth.AddKeepsValid | database/db.js:6-52 | a valid user whose username and email are free can join a valid store under the next id |
| Auth.ReplaceKeepsValid | database/db.js:6-52 | changing a user's password and reset fields keeps the store valid while the schema still accepts it |
| Auth.LoginWithRegisteredPassword | routes/auth.js:69-109 | a user logs in with the password whose hash is stored |
| Auth.IssuedTokenOpensProfile | routes/auth.js:121-154 | the token of a register or login response opens that user's profile |
| Auth.ForgotThenVerify | routes/auth.js:236-241 | after forgot-password, the raw token verifies until the hour is over |
| Auth.UserStore.constructor | database/db.js:95 | the user store starts empty and valid |
| Auth.UserStore.Register | routes/auth.js:12-66 | a rejected body gives 400 and changes nothing; a taken username or email gives 409; a document the schema refuses gives 500; otherwise the user is appended and 201 returns a token |
| Auth.UserStore.SaveUser | routes/auth.js:17-57 | 409 if taken, 500 if the schema refuses, else appended with 201; the store stays valid |
| Auth.UserStore.ForgotPassword | routes/auth.js:208-257 | missing email gives 400; unknown email gives 404; a Google account gives 400; otherwise that user's pair is stored, and the answer follows whether the email was sent |
| Auth.UserStore.StoreResetPair | routes/auth.js:239-241 | exactly one user gets the new reset pair |
| Auth.UserStore.ResetPassword | routes/auth.js:268-310 | the 400 answers for missing inputs, a password under 6 UTF-16 units (`password.length`) and an unknown or expired token leave the store unchanged; otherwise the matching user gets the new hash and the pair is cleared |
| ClientApp.ListRequest | public/js/app.js:430-446 | the query carries page, limit 10 and the sort; a status or priority value is present iff the dropdown or the sidebar puts it there; search only when non-empty |
| ClientApp.SidebarStatusSelects | public/js/app.js:437-446 | a sidebar status lists exactly the requester's tasks with that status |
| ClientApp.SidebarAllSelects | public/js/app.js:442-446 | the `all` entry lists every task of the requester |
| ClientApp.SidebarHighSelects | public/js/app.js:437-443 | the `high` entry lists the requester's high-priority tasks, within the dropdown status if one is set |
| ClientApp.DropdownAddsToSidebar | public/js/app.js:437-446 | a dropdown status under a sidebar status lists tasks with either status |
| ClientApp.DefaultSortFallsBack | public/js/app.js:20-23 | the client's default `created_at` / `desc` makes the server sort by creation time, newest first |
| ClientApp.ItemFor | public/js/app.js:551-555 | each page contributes at most one item |
| ClientApp.ItemsUpToMembers | public/js/app.js:550-556 | an item is in the pager iff some page from 1 to the last emitted it |
| ClientApp.Pagination | public/js/app.js:536-564 | definition of the pager: nothing for one page, otherwise Previous, the page items, Next; `ClientApp.PaginationButtons`, `ClientApp.PaginationGaps` and `ClientApp.PaginationArrows` state its layout |
| ClientApp.PaginationButtons | public/js/app.js:550-552 | a page has a button iff it is the first, the last or next to the current page; only the current page's button is active |
| ClientApp.PaginationGaps | public/js/app.js:553-554 | `...` stands for a page iff it lies two from the current page and has no button |
| ClientApp.PaginationArrows | public/js/app.js:537-561 | no pager for one page; otherwise Previous comes first, disabled on page 1, and Next comes last, disabled on the last page |
| ClientApp.Capitalize | public/js/app.js:796 | definition: upper-cases the first character and keeps the rest; `ClientApp.FormatStatusIsLabel` states what the capitalised join spells |
| ClientApp.CapitalizeAll | public/js/app.js:795-796 | definition: capitalises every piece |
| ClientApp.CapitalizeAllCons | public/js/app.js:795-796 | capitalising a list is capitalising its head, then its tail |
| ClientApp.FormatStatus | public/js/app.js:794-798 | definition of `formatStatus`: split on `-`, capitalise, join with a space; `ClientApp.FormatStatusIsLabel` states it character by character |
| ClientApp.Label | public/js/app.js:794-798 | a label is as long as its status; hyphens become spaces, and letters that start a word are upper-cased |
| ClientApp.FormatStatusIsLabel | public/js/app.js:794-798 | split, capitalise and join equals the character-by-character label |
| ClientApp.HyphenStep | public/js/app.js:795-797 | a leading hyphen becomes a space in front of the rest |
| ClientApp.LetterStep | public/js/app.js:795-797 | a leading letter is upper-cased at a word start and kept otherwise |
| ClientApp.JoinHead | public/js/app.js:797 | characters in front of the first piece come out in front of the join |
| ClientApp.PendingLabel | public/js/app.js:794-798 | `pending` is shown as `Pending` |
| ClientApp.InProgressLabel | public/js/app.js:794-798 | `in-progress` is shown as `In Progress` |
| ClientApp.CompletedLabel | public/js/app.js:794-798 | `completed` is shown as `Completed` |
| ClientApp.LabelOf | public/js/app.js:794-798 | a string labelled character by character is the formatted status |
| ClientApp.StatusIcon | public/js/app.js:785-792 | each status has its own icon, and exactly the unknown values get `circle` |
| ClientApp.PageTitle | public/js/app.js:576-583 | the title is `Tasks` exactly for filters without a sidebar entry of their own |
| ClientApp.PageTitlesDistinct | public/js/app.js:576-583 | different sidebar entries have different titles |
| ClientApp.StatusTitleShowsLabel | public/js/app.js:576-583 | a status entry's title begins with the label the task cards show for that status |
| ClientApp.ClientState.constructor | public/js/app.js:5-24 | the initial state: all tasks, page 1 of 1, no filters, `created_at` descending |
| ClientApp.ClientState.SetFilter | public/js/app.js:566-600 | back to page 1; `all` clears both dropdowns, `high` sets the priority one, any other entry sets the status one |
| ClientApp.ClientState.ChangePage | public/js/app.js:602-606 | a page outside 1 to `totalPages` is ignored; otherwise it becomes current |
| ClientApp.ClientState.OnStatusChange | public/js/app.js:191-195 | sets the status filter and returns to page 1 |
| ClientApp.ClientState.OnPriorityChange | public/js/app.js:197-201 | sets the priority filter and returns to page 1 |
| ClientApp.ClientState.OnSortByChange | public/js/app.js:203-206 | sets the sort field and keeps the page |
| ClientApp.ClientState.OnSearchInput | public/js/app.js:208-212 | sets the search text and returns to page 1 |
| ClientApp.ClientState.LoadTasks | public/js/app.js:427-446 | sends the query built from the state, with page and limit always at least 1 |
| ClientApp.ClientState.ReceivePageCount | public/js/app.js:455-457 | a successful listing sets `totalPages` from the response |
| ClientApp.ClientState.RenderPagination | public/js/app.js:536-564 | the loop emits exactly the pager `Pagination(currentPage, totalPages)` |

## Left out

- The Google OAuth routes (`/google`, `/google/callback`), passport and the server bootstrap are not modelled. Only their trace remains: a Google account refuses forgot-password.
- The email service is not modelled. Its result enters `ForgotPassword` as `emailSent`.
- Hashing, signing and random bytes are parameters; their internals are not modelled.
- Auth.IssuedTokenOpensProfile: the model has no token expiry; an issued token verifies forever. `verify` takes no clock, and the round trip `verify(sign(claims)) == Some(claims)` is assumed at every time. `generateToken` is not part of this model, so a token's lifetime is unknown. An expired token's 401 from `jwt.verify` (routes/auth.js:134) therefore cannot be reached through a token the model issued.
- Auth.IssuedTokenNamesUser: for the same reason, the token verifies to the user's claims at any time, not only within its lifetime.
- The JWT gate in front of the task routes is not modelled. Each route receives the requester's id it resolved.
- Database connection, indexes as data structures, ObjectId casting, and the 500 answers for invalid ObjectIds or a dropped connection are not modelled. Ids are natural numbers.
- Concurrency and the atomicity of `findOneAndUpdate` / `updateMany` are not modelled: each route runs alone.
- The catch-all 500 responses that only an exception from the database or the crypto library could trigger are not modelled. For example, "Error processing request" in forgot-password and "Error verifying token" cannot arise in the model. The refusals of the document store that the model can reach are modelled: the schema's 500 in register, reset-password, task create and task update, and the 500 of create and update for a due date that passes `isISO8601` but does not cast to a date.
- Query parameters of `GET /api/tasks` (`TaskQuery.ListQuery`): `status` and `priority` are the list of values the parameter was given, so repeated values combine as `$in`. `search`, `sort_by` and `sort_order` are single strings only. A one-element array cannot be told apart from a single value. For example, `?status[]=` sends the array `[""]`, which selects no task, where the model reads it like `?status=` and lists every task. An array-valued `sort_order` makes `toLowerCase` throw, and the route answers 500; that path is not modelled.
- TaskQuery.Matches: a search text is matched as a literal, case-insensitive substring. Regular-expression metacharacters in `search` are not interpreted.
- Text.Lower: case folding is ASCII only, both in `toLowerCase` and in the case-insensitive search; so is Text.UpperChar in `toUpperCase`.
- Text.IsSpace: the set of whitespace characters follows ECMA-262's WhiteSpace and LineTerminator.
- Lengths are measured as the source measures them. validator.js is not part of this model. Its `isLength` counts characters, a surrogate pair once, and leaves out the variation selectors U+FE0E and U+FE0F (`Text.ValidatorLength`). The schema's `minlength` / `maxlength` and the `password.length` check in reset-password count UTF-16 code units (`Text.Utf16Length`). The two disagree, and the model keeps both: a 60-emoji title passes validation and is then refused with 500 (`Tasks.WideTitleRefused`).
- Text.Utf16Length: strings are sequences of Unicode scalar values, so a lone surrogate, which a JavaScript string can hold, cannot be represented.
- Validation.EmailErrors: `isEmail`, `normalizeEmail` and `isISO8601` are taken as given functions, not defined.
- Body values that are neither a string nor null, such as numbers, arrays or objects, are not modelled.
- Tasks.TaskStore.List: requires page ≥ 1 and limit ≥ 1. The route applies `parseInt` without checking, and a non-numeric or zero value makes the database call fail or `total_pages` infinite; those paths are not modelled. The client always sends values that meet this (`ClientState.LoadTasks`).
- Tasks.TaskStore.List: the order among tasks with equal sort keys is left unspecified. The contract states sortedness and permutation only.
- Tasks.TaskStore.BulkStatus: the reported `modifiedCount` is modelled as the number of matched tasks. Every matched document has its `updatedAt` rewritten, so each counts as modified.
- ClientApp.StatusIcon and ClientApp.PageTitle: the source looks strings up in object literals. Inherited property names such as `constructor` would find a prototype member there; the model gives them the fallback.
- The client's DOM rendering, fetch, toasts, local storage, the debounce timer, the task modal and the auth forms are not modelled. Only the list state, the query it sends and the pager layout are.
