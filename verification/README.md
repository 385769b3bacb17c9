# Task manager: a Dafny model of the task pipeline and its client helpers

This project models the core of a small task-manager web application.

On the server, every request goes through the same steps:
- the caller's identity is resolved from an `Authorization: Bearer` header;
- the body is checked against a Joi schema;
- a query is built that is scoped to the caller's own tasks when there is a caller;
- the document store runs the query, and the result or the error becomes an HTTP response.

The auth routes register and log in users over a user store.

On the client, the model covers the API wrapper, the list filters, the progress
percentage and the create/edit form.

The document store is a map from id to `Task`, and `createdAt` is a natural-number clock.

Some collaborators are not modelled and appear only as uninterpreted functions, which are
fields of `Environment.Env`:
- JWT signing and verification, which take the clock reading (whole seconds) as an argument;
- bcrypt hashing and comparison;
- the ISO-date, e-mail and ObjectId format checks.

Two axioms constrain them. `SoundJwt` says a token signed at time `iat` verifies back to its claims at every time before `iat` plus the token lifetime (`JWT_EXPIRES_IN`, a field of `Env`), and to nothing from then on.
`SoundHash` says a password matches its own hash. Each axiom is used only as a
precondition of the lemmas that need it.

Modules, one per source file:

- `Wrappers`, `Text`, `Seqs`: Option and Result, plus the JavaScript string operations the code relies on:
  - `trim` and its white-space set;
  - `.length`, which counts UTF-16 code units (two for a character outside the Basic Multilingual Plane);
  - ASCII `toLowerCase`;
  - `includes`;
  - `split(c)[0]`;
  - decimal printing;
  - `Array.prototype.filter`.
- `Environment`: the uninterpreted collaborators and their two axioms.
- `Schema`, `TaskValidators`, `AuthRoutes`: the Joi rules, as total functions that list every violated field.
- `TaskModel`: the Mongoose document layer:
  - the trim setters;
  - `required`, `maxlength` and the enum, with their defaults;
  - the timestamps;
  - the update validators used by `findOneAndUpdate`.
- `TaskController`, `TaskRoutes`: query building, the five task operations, and the per-route pipeline.
- `AuthMiddleware`, `ErrorHandler`, `AuthController`, `Responses`: identity, error mapping, register and login.
- `ClientApi`: `normalizeTask`, `readJson`, and the shaping of the four API calls, over a JSON value type.
- `TaskTypes`, `TaskList`, `ProgressBar`, `AppOld`, `TaskForm`: the page-level pure helpers.

## Model

| member | source | states |
|---|---|---|
| TaskModel.ParseStatus | backend/src/models/Task.js:7-11 | A status text is accepted iff it is one of "Pending", "In Progress", "Completed", and it then names the status it parses to |
| TaskModel.ParseStatusName | backend/src/models/Task.js:7-11 | Every status name parses back to that status |
| TaskModel.Normalize | backend/src/models/Task.js:3-19 | Saving a draft succeeds iff the trimmed title is non-empty and at most 120 UTF-16 code units, the trimmed description is at most 2000 code units, the status is in the enum, a due date is present and an ISO date, and an owner, if given, is an ObjectId. Failures list at least one path. A stored task is well-formed, with trimmed title and description, description "" and status Pending by default, the owner as given, and both timestamps set to the save time |
| TaskModel.PatchFailures | backend/src/models/Task.js:5-15 | The update validators pass iff every field present satisfies its schema constraint (lengths in UTF-16 code units); absent fields are not checked |
| TaskModel.ApplyPatch | task-manager/backend/src/controllers/task.controller.js:62-65 | An update changes only the fields present, trimming title and description. It keeps id, createdAt and (unless given) the owner, sets the status to the one named when it is an enum name and keeps it otherwise, and sets updatedAt to the update time |
| TaskModel.PatchPreservesWellFormed | backend/src/models/Task.js:5-17 | A validated update of a well-formed task gives a well-formed task; the status changes only when given |
| TaskModel.NormalizeStoredTask | backend/src/models/Task.js:5-17 | Saving the fields of a well-formed stored task again gives the same task, apart from fresh timestamps |
| TaskValidators.ValidateCreate | backend/src/validators/task.validators.js:3-8 | No error iff the body has only known keys, a string title of 1..120 UTF-16 code units, an optional string description ("" allowed) of at most 2000 code units, an optional status from the enum, and a non-empty ISO due date |
| TaskValidators.ValidateUpdate | backend/src/validators/task.validators.js:10-15 | No error iff the same per-field rules hold with every field optional (title 1..120 and description at most 2000 UTF-16 code units), and at least one key is present |
| TaskValidators.DraftOf | backend/src/validators/task.validators.js:3-8 | Each of title, description, status and dueDate is set in the draft exactly when the body has that key with a text value, and then to that text; the draft never carries an owner |
| TaskValidators.NoOwnerInValidatedBody | backend/src/validators/task.validators.js:3-15 | A body accepted by either schema has no `userId` key |
| TaskValidators.CreateBodyIsUpdateBody | backend/src/validators/task.validators.js:3-15 | Every body the create schema accepts is also accepted by the update schema |
| TaskValidators.UpdateNeedsRecognisedKey | backend/src/validators/task.validators.js:10-15 | An update body with no recognised key is rejected |
| TaskValidators.UpdateDraftFields | backend/src/validators/task.validators.js:11-14 | An accepted update sets exactly the fields the body names, and no owner |
| TaskValidators.BlankTitlePassesSchemaOnly | backend/src/models/Task.js:5 | The title " " passes the create schema, but the document layer trims it to "" and refuses it |
| TaskValidators.AstralTitleCountsCodeUnits | backend/src/validators/task.validators.js:4 | The title bound counts UTF-16 code units: 61 copies of U+1F600 (61 characters, 122 code units) are refused, 60 copies (120 code units) are accepted |
| Schema.StringErrors | backend/src/validators/task.validators.js:4-5 | A string rule passes iff the value is absent and optional, or is text that is "" and allowed, or non-empty with its UTF-16 code-unit length (JavaScript `.length`) within the bounds; at most one error per field |
| Schema.OneOfErrors | backend/src/validators/task.validators.js:6 | An enum rule passes iff the value is absent and optional, or is one of the allowed texts |
| Schema.IsoDateErrors | backend/src/validators/task.validators.js:7 | A date rule passes iff the value is absent and optional, or is a non-empty ISO date text |
| Schema.EmailErrors | task-manager/backend/src/routes/auth.routes.js:8 | An e-mail rule passes iff the value is a non-empty well-formed e-mail text |
| TaskController.BuildQuerySelects | task-manager/backend/src/controllers/task.controller.js:3-20 | A task is selected iff its status equals a non-empty status parameter, the trimmed search occurs case-insensitively in its title or description, and (for an authenticated caller) it belongs to the caller |
| TaskController.UnknownStatusSelectsNothing | task-manager/backend/src/controllers/task.controller.js:6 | A status parameter outside the enum selects no task |
| TaskController.BlankSearchMatchesAll | task-manager/backend/src/controllers/task.controller.js:8-13 | A search of white space only trims to "" and matches every visible task |
| TaskController.AnonymousSeesAll | task-manager/backend/src/controllers/task.controller.js:17 | Without a caller and without filters every task is selected |
| TaskController.FindSorted | task-manager/backend/src/controllers/task.controller.js:37 | The listing holds exactly the stored tasks the query selects, each once, ordered by createdAt, newest first |
| TaskController.GetTasks | task-manager/backend/src/controllers/task.controller.js:34-42 | The list answers 200 with that listing, or 400 when the caller id cannot be cast |
| TaskController.CreateTask | task-manager/backend/src/controllers/task.controller.js:22-32 | Create stores exactly one new task owned by the caller (none for an anonymous caller) and answers 201 with it. A body that the document layer refuses answers 500 and changes nothing |
| TaskController.GetTaskById | task-manager/backend/src/controllers/task.controller.js:44-55 | 400 for an id of the wrong shape, 200 with the task when it exists and the caller may see it, otherwise 404 "Task not found" |
| TaskController.UpdateTask | task-manager/backend/src/controllers/task.controller.js:57-72 | The order is: 400 on a cast failure, then 500 on a validator failure, then 404 when the task is not found. Otherwise only that task is patched, it keeps its owner, and 200 returns it |
| TaskController.DeleteTask | task-manager/backend/src/controllers/task.controller.js:74-85 | A visible task is removed alone, answering {message: "Task deleted"}; otherwise 404 and the store is unchanged |
| TaskController.CreateSucceedsIff | task-manager/backend/src/controllers/task.controller.js:22-32 | For a body the schema accepted, create answers 201 iff the title is not white space only and the caller id, if any, is an ObjectId |
| TaskController.CreateThenGet | task-manager/backend/src/controllers/task.controller.js:22-55 | A created task can then be fetched by its id by the same caller |
| TaskController.CreatePreservesInvariant | task-manager/backend/src/controllers/task.controller.js:22-32 | Create keeps every stored task well-formed, filed under its own id, and with a valid id |
| TaskController.UpdatePreservesInvariant | task-manager/backend/src/controllers/task.controller.js:57-72 | Update keeps that invariant when the clock is not behind any stored timestamp |
| TaskController.DeletePreservesInvariant | task-manager/backend/src/controllers/task.controller.js:74-85 | Delete keeps that invariant |
| TaskController.DeleteOnce | task-manager/backend/src/controllers/task.controller.js:79-81 | A successful delete removes exactly that id, and repeating it answers 404 |
| TaskController.ForeignTaskLooksAbsent | task-manager/backend/src/controllers/task.controller.js:44-85 | For another owner's task, get, update and delete answer exactly as if the task did not exist, and change nothing |
| TaskController.AnonymousReachesAll | task-manager/backend/src/controllers/task.controller.js:47 | An anonymous caller can read and delete any task |
| TaskRoutes.HandleTaskRequest | backend/src/routes/task.routes.js:11-15 | Every task route resolves identity in optional mode and never answers 401. Create and update run their schema first and reach the controller only when it passes; list, get and delete validate no body |
| AuthMiddleware.GetToken | backend/src/middleware/auth.js:3-7 | A token is found iff the header (missing read as "") starts with the case-sensitive "Bearer ", and the header is that prefix followed by the token |
| AuthMiddleware.GetTokenRoundTrip | backend/src/middleware/auth.js:3-7 | Prefixing a token with "Bearer " and extracting it gives the token back |
| AuthMiddleware.OptionalAuth | backend/src/middleware/auth.js:9-20 | Optional mode identifies the caller iff a non-empty token verifies, and then with the claims' subject and e-mail; otherwise the caller is anonymous |
| AuthMiddleware.RequireAuth | backend/src/middleware/auth.js:22-33 | Required mode answers 401 "Missing token" without a token and 401 "Invalid or expired token" when verification fails; it succeeds exactly when optional mode identifies the caller, with the same identity |
| AuthMiddleware.BareBearerIsMissing | backend/src/middleware/auth.js:23-24 | The header "Bearer " alone counts as a missing token in both modes |
| ErrorHandler.HandleError | task-manager/backend/src/middleware/error.js:1-12 | Every error gives one {message} response with a non-zero status and a non-empty message. A CastError gives 400 "Invalid ID format" whatever its status; otherwise the truthy statusCode or 500, and the truthy message or "Internal Server Error" |
| ErrorHandler.ValidationErrorIs500 | task-manager/backend/src/middleware/error.js:9 | A document validation error carries no statusCode and so answers 500 |
| AuthController.FindByEmail | task-manager/backend/src/controllers/auth.controller.js:17 | The lookup finds a user with that e-mail iff one exists |
| AuthController.Register | task-manager/backend/src/controllers/auth.controller.js:13-28 | A taken e-mail answers 409 "Email already in use" and leaves the users unchanged. Otherwise exactly one user is appended, with name defaulting to "" and the password stored as its hash, and the answer is 201 with a session for that user |
| AuthController.Login | task-manager/backend/src/controllers/auth.controller.js:30-45 | 200 with a session iff the e-mail is known and the password matches its hash; every other case is the same 401 "Invalid credentials" |
| AuthController.RegisterKeepsUsersUnique | task-manager/backend/src/controllers/auth.controller.js:17-21 | Registration keeps e-mails and ids unique |
| AuthController.RegisterThenLogin | task-manager/backend/src/controllers/auth.controller.js:13-45 | A fresh registration adds one user and returns {id, name, email} without the hash, and the same password then logs in |
| AuthController.LoginFailuresIndistinguishable | task-manager/backend/src/controllers/auth.controller.js:35-38 | An unknown e-mail and a wrong password give identical responses |
| AuthController.TokenResolvesToUser | task-manager/backend/src/controllers/auth.controller.js:5-11 | An issued token, sent as a Bearer header at any time before it expires, identifies the caller as the user's id and e-mail, and scopes queries to that id |
| AuthController.ExpiredTokenRejected | task-manager/backend/src/controllers/auth.controller.js:5-11 | Once the token lifetime has passed since signing, the same token makes the caller anonymous in optional mode and gets 401 "Invalid or expired token" in required mode |
| AuthRoutes.ValidateRegister | task-manager/backend/src/routes/auth.routes.js:6-10 | No error iff there are only known keys, an optional name text of at most 80 UTF-16 code units ("" allowed), a well-formed e-mail, and a password of 6..72 code units |
| AuthRoutes.ValidateLogin | task-manager/backend/src/routes/auth.routes.js:12-15 | No error iff the same e-mail and password rules (password 6..72 UTF-16 code units) hold and no other key is present |
| AuthRoutes.LoginBodyRegisters | task-manager/backend/src/routes/auth.routes.js:6-15 | Every accepted login body is also an acceptable register body |
| AuthRoutes.LoginRefusesName | task-manager/backend/src/routes/auth.routes.js:12-15 | A login body with a name is rejected |
| AuthRoutes.HandleAuthRequest | task-manager/backend/src/routes/auth.routes.js:17-18 | Both auth routes reject a body that fails their schema before the controller runs, and hand an accepted body to register or login |
| ClientApi.NormalizeTask | frontend/src/api/tasks.ts:5-15 | Normalisation fails only on null. The id is `id`, else `_id`, else "". Title and description are the JavaScript `String` of the value when it is neither null nor undefined, and "" otherwise. Status defaults to "Pending" and is not checked. A truthy dueDate or timestamp is its `String` text; a falsy dueDate becomes "", and falsy timestamps become absent |
| ClientApi.NormalizeRoundTrip | frontend/src/api/tasks.ts:5-15 | Normalising the JSON form of a client task gives the same task back |
| ClientApi.NormalizePrefersId | frontend/src/api/tasks.ts:7 | With both present, `id` wins over `_id`; `_id` is used alone; with neither the id is "" |
| ClientApi.ReadJson | frontend/src/api/tasks.ts:17-36 | A successful response yields its parsed body (null when empty or not JSON). A failure's message is, in order of precedence, the truthy `data.message`, then the truthy `data.error`, then the raw text, then "HTTP <status>" |
| ClientApi.UnparsableErrorReportsText | frontend/src/api/tasks.ts:20-31 | A failed response with a non-JSON body reports its raw text |
| ClientApi.NormalizeAll | frontend/src/api/tasks.ts:48 | Mapping normalisation over an array succeeds iff no element is null, and then normalises each element in place |
| ClientApi.GetTasks | frontend/src/api/tasks.ts:43-49 | A non-array body gives []. An array gives its elements normalised one to one, or a TypeError when one is null. A failed response gives its error |
| ClientApi.CreateTask | frontend/src/api/tasks.ts:51-59 | The result is the normalised body, a TypeError for a null body, or the response's error |
| ClientApi.UpdateRequest | frontend/src/api/tasks.ts:61-68 | The PUT body is the input without `id`, keeping every other key (including `_id`); the path segment is the `id`, or "undefined" without one |
| ClientApi.UpdateTask | frontend/src/api/tasks.ts:61-72 | The result is the normalised body; the response's error when reading fails; the null-dereference error when the body is null |
| ClientApi.DeleteTask | frontend/src/api/tasks.ts:74-84 | Delete returns the requested id whatever the server answered |
| ClientApi.DeleteSwallowsErrors | frontend/src/api/tasks.ts:61-84 | A failed response makes update reject, but delete still resolves to the requested id, because the read error is caught |
| TaskList.FilteredTasks | task-manager/frontend/src/components/TaskList.tsx:45-56 | The result is an order-preserving subsequence of the tasks. A task is in it iff it matches the search and the status. Each kept task keeps its multiplicity |
| TaskList.EmptyQueryShowsAll | task-manager/frontend/src/components/TaskList.tsx:51-52 | An empty query with the filter "All" shows every task unchanged |
| TaskList.EmptyQueryOnly | task-manager/frontend/src/components/TaskList.tsx:49-51 | Only the empty query counts as empty: the query is not trimmed |
| TaskList.GetId | task-manager/frontend/src/components/TaskList.tsx:66 | The key is `_id` when present, else `id` |
| TaskList.IdPreferenceDiffers | task-manager/frontend/src/components/TaskList.tsx:66 | For a task with both ids the list keys by `_id` while the API client keeps `id` |
| TaskList.QueryNotTrimmedUnlikeServer | task-manager/frontend/src/components/TaskList.tsx:49 | The query " x" hides the task titled "x" in the list, while the server's trimmed search selects it |
| ProgressBar.CompletedCount | task-manager/frontend/src/components/ProgressBar.tsx:10 | The count is at most the number of tasks; it equals that number iff all are "Completed", and is 0 iff none is |
| ProgressBar.CompletedCountAppend | task-manager/frontend/src/components/ProgressBar.tsx:10 | The count of a concatenation is the sum of the counts |
| ProgressBar.Percentage | task-manager/frontend/src/components/ProgressBar.tsx:11 | 0 without tasks; otherwise the integer nearest to 100·completed/total, halves rounded up, which lies in 0..100 |
| ProgressBar.PercentageUnique | task-manager/frontend/src/components/ProgressBar.tsx:11 | The rounding condition determines the percentage uniquely |
| ProgressBar.PercentageMonotone | task-manager/frontend/src/components/ProgressBar.tsx:11 | For a fixed total the percentage never decreases as more tasks are completed |
| ProgressBar.PercentageEnds | task-manager/frontend/src/components/ProgressBar.tsx:11 | None completed gives 0, all completed gives 100 |
| ProgressBar.TaskPercentage | task-manager/frontend/src/components/ProgressBar.tsx:9-11 | For a task list: 0 when empty or none completed, 100 when all completed, always within 0..100 |
| AppOld.SortByDue | task-manager/frontend/src/App.old.jsx:65-70 | Sorting by due date permutes the tasks |
| AppOld.SortSorted | task-manager/frontend/src/App.old.jsx:65-70 | The sorted list is in ascending due-date order, with tasks lacking a due date last |
| AppOld.SortStable | task-manager/frontend/src/App.old.jsx:65-70 | Tasks with equal due keys keep their original relative order |
| AppOld.FilteredTasks | task-manager/frontend/src/App.old.jsx:56-71 | The list holds exactly the tasks passing the status filter ("All" passes all) and the trimmed, lower-cased query against `title + " " + description`. Each keeps its multiplicity, and the list is sorted by due date with missing dates last |
| AppOld.FilteredTasksStable | task-manager/frontend/src/App.old.jsx:56-71 | Within one due date the filtered list keeps the input order |
| AppOld.FieldMatchIsJoinedMatch | task-manager/frontend/src/App.old.jsx:57-63 | For a query without surrounding white space, every task-list match is also a match here |
| AppOld.JoinedQuerySpansFields | task-manager/frontend/src/App.old.jsx:62-63 | The query "b c" matches the task with title "ab" and description "cd" here but not in the task list |
| AppOld.CompletionPct | task-manager/frontend/src/App.old.jsx:47-54 | The completion percentage is 0 without tasks, at most 100, and equal to the progress bar's percentage for the same tasks |
| AppOld.FindSelected | task-manager/frontend/src/App.old.jsx:42-45 | The selected task is the first task whose `_id` is the selected id; none is found iff no id is selected or no task has it |
| AppOld.OnSubmit | task-manager/frontend/src/App.old.jsx:119-154 | A blank title (after trim) fails with "Title is required." and sends nothing. Create mode POSTs. Edit mode PUTs exactly when the title is not blank and the selected task has a non-empty `_id`, and then PUTs to that `_id`; otherwise it fails with "No task selected to edit.". The payload has the trimmed title and description, the status unchanged, and a due date that is null exactly when the ISO text is empty |
| AppOld.EditWithoutSelectionRejected | task-manager/frontend/src/App.old.jsx:142 | Edit mode without a selected task fails with "No task selected to edit." |
| TaskForm.LoadForEdit | task-manager/frontend/src/components/TaskForm.tsx:29-38 | Loading a task copies title, description and status and keeps the due-date text before the first "T"; no task resets the form |
| TaskForm.LoadTakesDatePart | task-manager/frontend/src/components/TaskForm.tsx:34 | A timestamp "date T time" loads as its date part |
| TaskForm.HandleSubmit | task-manager/frontend/src/components/TaskForm.tsx:48-67 | A blank title sets the error "Title is required" and calls nothing. Otherwise the callback gets the trimmed title and description, the status unchanged, and the due date or today's date. A completed create resets the form; edit mode keeps it with the error cleared |
| TaskForm.HandleCancel | task-manager/frontend/src/components/TaskForm.tsx:69-72 | Cancel resets every field ("Pending" status, no error) and calls the cancel callback |
| TaskForm.CancelThenSubmitSendsNothing | task-manager/frontend/src/components/TaskForm.tsx:40-55 | After a reset the form cannot submit |
| TaskForm.EditRoundTrip | task-manager/frontend/src/components/TaskForm.tsx:29-67 | Loading a clean task and submitting it unchanged in edit mode sends the task's own fields back, with the due date cut to its date part |
| Text.TrimShape | task-manager/backend/src/controllers/task.controller.js:9 | `trim` returns the infix left after removing white space on both sides, and the result has no white space at either end |
| Text.TrimEmptyIffAllSpace | task-manager/frontend/src/App.old.jsx:125 | A text trims to "" iff it is white space only |
| Text.TrimIdempotent | backend/src/models/Task.js:5 | Trimming twice is trimming once |
| Text.Contains | task-manager/frontend/src/components/TaskList.tsx:51 | `includes` holds iff the needle occurs at some position |
| Text.BeforeFirst | task-manager/frontend/src/components/TaskForm.tsx:34 | `split(c)[0]` is the longest prefix without `c`, stopping at the first `c` |
| Text.NatToStringRoundTrip | frontend/src/api/tasks.ts:31 | The decimal text of a status code reads back as that number |
| Seqs.FilterIsSubsequence | task-manager/frontend/src/components/TaskList.tsx:46 | `filter` keeps the kept elements in their original order |
| Seqs.FilterMultiset | task-manager/frontend/src/App.old.jsx:58-64 | `filter` keeps every element that passes, as many times as it occurs, and drops every other |

## Left out

- HTTP, Express wiring, CORS, logging and server start-up are left out: they are I/O plumbing. The routes are modelled only as the order of middleware and controller.
- The `validate` middleware is not part of this model. A schema failure is represented as `SchemaRejected` with the field errors, and the request stops there. Its status and body are not modelled.
- JWT signing and verification, and bcrypt hashing and salting, are uninterpreted functions. Expiry is modelled by `SoundJwt`: the clock is `Env.now` and the lifetime is `Env.tokenLifetime`. The parsing of `JWT_EXPIRES_IN` texts such as "7d" into seconds is not modelled.
- The ISO-date, e-mail and ObjectId format rules are uninterpreted predicates. Also left out:
  - the Date cast Mongoose performs on `dueDate`, and its normalisation of the stored date;
  - Joi's acceptance of numbers as dates (a non-text due date is rejected);
  - the case-insensitive hex of ObjectIds.
- The User model file is not part of this model. Users are a sequence with unique e-mails, and `findOne({email})` is the first match.
- Mongoose error wording is simplified. Only the properties the error handler reads (name, statusCode, message) are kept, and the message of a validation failure is built from the first failing path.
- Concurrency: the store is a value and every operation is atomic. Last-write-wins interleavings are not modelled.
- Identifiers and clock values are parameters (`freshId`, `now`), not generated.
- TaskController.GetTasks: the search string is treated as a literal substring, and its precondition restricts it to text without regular-expression metacharacters. Regular-expression semantics are not modelled.
- Query-string values that are arrays or objects are not modelled; status and search are plain texts.
- `toLowerCase` is modelled on ASCII letters only. Unicode case mapping is not modelled.
- ProgressBar.Percentage: rounds the exact rational 100·completed/total, halves up. Floating-point results at .5 boundaries are not modelled.
- AppOld.SortByDue: the key is an uninterpreted `time` function on non-empty due dates. Invalid dates (NaN keys) are not modelled.
- `formatDateInputValue`, `toIsoOrEmpty`, `formatDate` and `new Date().toISOString()` depend on the Date library and the locale. They are left out: the ISO text and the current timestamp are parameters.
- ClientApi.Json: numbers are integers. The text of non-integer numbers is not modelled.
- ClientApi.JsString: a number is printed in plain decimal. JavaScript prints magnitudes of 10^21 and above in exponent form ("1e+21"), and rounds integers beyond 2^53 to the nearest double; neither is modelled.
- ClientApi.UpdateRequest: the path segment is the id before `encodeURIComponent`; percent-encoding is not modelled.
- App.old's `api`/`refresh`/`onDelete` and the React state wiring, the JSX rendering, the pages under frontend/src/pages, App.tsx, TaskDetails.tsx and frontend/src/api/auth.js are left out: they are UI wiring around asynchronous calls.
- TaskForm.HandleSubmit: a rejected `onSubmit` callback is represented only as `submitOk == false`. The thrown error itself is not modelled.
