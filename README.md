# HiveDesk onboarding core, modelled in Dafny

HiveDesk is an HR onboarding service. HR users assign tasks to employees. Employees upload
identity and employment documents, mark their tasks done, and look at their own dashboard. Every
modelled route has the form `/{name}/{role}/...`. A request on such a route first resolves its
caller from a bearer token. Then it checks that the caller may act on that path. Only then does it
read or change the tables.

This project models two parts of that system:

- **The request dependencies** (`backend/app/api/deps.py`, module `Deps`). This covers
  authentication (`get_current_user`), the exact role guard (`require_role`) and the path access
  rule (`verify_user_access`). They are pure functions. The result of decoding the token is a parameter.
- **The onboarding handlers** (`backend/app/main.py`, module `App`). The database is the class
  `App.Store`. It holds the users, employee-task and documents tables as sequences of rows. The
  handlers that change tables are methods with `modifies this`: upload a document, assign a task,
  complete a task. Each states the new table contents and keeps the invariant `Valid()`: primary
  keys are unique and no employee holds the same task twice. The handlers that only read are
  functions of the store: dashboard, document listing, employee lookup. The employee list keeps
  the source's loop, in `App.EmployeeRows`.

Supporting modules:

- `Text`: ASCII lower-casing and the substring test behind `ILIKE`.
- `Seqs`: a table filter and a row count.
- `Enums`: the enumerations of `backend/app/core/enums.py` with their string values.
- `Models`: the table rows.
- `Http`: HTTP errors and handler results.
- `Wrappers`: `Option`.

The document types are `aadhar`, `resume` and `other`. The verification statuses are `pending`,
`verified` and `failed`.

Assumptions:

- `main.py` imports `verify_user_access`, `get_current_user` and `require_role` from `app.auth`.
  That module is not part of this model. The model takes them to be the definitions in
  `backend/app/api/deps.py`.
- The ORM definitions of `EmployeeTaskModel` and `DocumentModel` are not part of this model. A new
  assignment is taken to start with status `pending`, `assigned_at` = now and no `completed_at`.
  A new document is taken to start with verification status `pending`, `uploaded_at` = now and no
  `verified_at`. Row ids are uuid4 strings supplied by the caller of each method and fresh
  (a `requires`).
- FastAPI runs the route-level `require_role(UserRole.HR)` dependency before the handler body. So
  on HR-only routes the role guard comes first and the path check second (`App.Authorize`).

## Model

| member | source | states |
|---|---|---|
| `Text.Lower` | backend/app/api/deps.py:70 | `str.lower()` on ASCII: same length, each character lower-cased, and no capital letter left in the result |
| `Text.LowerOfLowerCase` | backend/app/api/deps.py:70 | lower-casing a string without capitals returns it unchanged |
| `Text.LowerIdempotent` | backend/app/api/deps.py:70 | lower-casing twice is lower-casing once |
| `Text.LowerOfUpper` | backend/app/api/deps.py:70 | upper-casing and then lower-casing gives the same string as lower-casing alone |
| `Text.LowerIgnoresCase` | backend/app/api/deps.py:70 | strings that agree letter by letter up to case lower-case to the same string |
| `Text.IsInfixAt` | backend/app/main.py:227-230 | the `ILIKE '%q%'` test holds exactly when q occurs at some position of the name |
| `Seqs.Filter` | backend/app/main.py:187-189 | a `select ... where p` keeps exactly the rows satisfying p, with their multiplicities, and no more rows than the table has |
| `Seqs.Count` | backend/app/main.py:150-154 | `len(...)` of a filtered table is at most the table size |
| `Seqs.CountAppend` | backend/app/main.py:306 | adding a row raises a count by one exactly when the row satisfies the counted condition |
| `Seqs.CountSplit` | backend/app/main.py:164-165 | when every row satisfies exactly one of two conditions, the two counts add up to the number of rows |
| `Seqs.FilterNone` | backend/app/main.py:234-235 | a filter that no row satisfies returns no rows |
| `Seqs.FilterAtMostOne` | backend/app/api/deps.py:34-40 | a filter on a unique key returns at most one row |
| `Enums.DocumentTypeFromValue` | backend/app/core/enums.py:26-30 | `DocumentType(v)` yields the type whose value is exactly v, and fails exactly when no type has value v |
| `Enums.ParseDocumentType` | backend/app/main.py:364-367 | the form's document type is accepted exactly when its lower-cased text is the value of a `DocumentType` |
| `Enums.ParseDocumentTypeAnyCase` | backend/app/main.py:365 | every document type is accepted under its own value, both as written and fully upper-cased |
| `Deps.ActiveUsersWithId` | backend/app/api/deps.py:34-39 | the query returns exactly the active users with the id; with unique ids at most one |
| `Deps.GetCurrentUser` | backend/app/api/deps.py:16-45 | 401 "Invalid or expired token" when the token does not decode; 401 when `sub` is missing or empty; 401 when no active user has that id; on success the unique active user whose id is `sub` |
| `Deps.GetCurrentUserOnUniqueIds` | backend/app/api/deps.py:30-45 | with unique user ids, authentication succeeds if and only if the token decodes, names a subject and an active user has that id; every failure is a 401 |
| `Deps.RequireRole` | backend/app/api/deps.py:48-59 | the user passes unchanged exactly when their role equals the required one; otherwise 403 "Access denied" |
| `Deps.VerifyUserAccess` | backend/app/api/deps.py:62-72 | HR is allowed on every path; an employee exactly when their lower-cased name equals the lower-cased name segment and the lower-cased role segment is "employee" |
| `Deps.EmployeeNeverHrPath` | backend/app/api/deps.py:69-70 | an employee is never allowed on a role segment that lower-cases to "hr", whatever the name |
| `Deps.VerifyUserAccessIgnoresCase` | backend/app/api/deps.py:70 | any change of letter case, at any positions of either path segment, never changes the decision |
| `Deps.VerifyUserAccessUpperCase` | backend/app/api/deps.py:70 | in particular, upper-casing both path segments never changes the decision |
| `Deps.EmployeeOwnPath` | backend/app/api/deps.py:69-70 | an employee is always allowed on their own name with role segment "employee" |
| `App.Authorize` | backend/app/main.py:275-286 | a request goes on exactly when the HR guard (if the route has one) and the path check both pass; otherwise 403 "Access denied" |
| `App.HrOnlyIgnoresPath` | backend/app/main.py:176-185 | on an HR-only route the caller's role alone decides; the path check never refuses an HR caller |
| `App.TasksOf` | backend/app/main.py:194-196 | an employee's assignments are exactly the rows with their `employee_id`, each as often as in the table |
| `App.DocumentsOf` | backend/app/main.py:329-332 | an employee's documents are exactly the rows with their `employee_id`, each as often as in the table |
| `App.FindTask` | backend/app/main.py:470 | the lookup by primary key finds a row with that id, and finds none exactly when no row has it |
| `App.StatusCounts` | backend/app/main.py:164-171 | completed plus pending assignments equals all assignments |
| `App.MatchingEmployees` | backend/app/main.py:227-232 | the lookup returns exactly the employees whose name contains the query, ignoring case, each as often as stored, so its length is the number of matching rows |
| `App.Store.GetDashboard` | backend/app/main.py:125-173 | 403 when the path check fails. On the "hr" path: counts of employees, pending assignments and documents with verification status pending. On the "employee" path: the caller's assignment total, the number of those completed and the number pending, with completed + pending = total. On any other role segment (only an HR caller gets there) no dashboard |
| `App.Store.GetDocuments` | backend/app/main.py:312-346 | 403 when the path check fails; all documents on the "hr" path in any case; otherwise exactly the caller's own documents, each as often as stored |
| `App.Store.ManageEmployee` | backend/app/main.py:214-272 | 403 for non-HR callers; 404 "Employee not found" when no employee's name contains the query; 500 when several do; success exactly for an HR caller whose query matches one employee, returning that employee with exactly the rows of the assignment and document selects for that employee |
| `App.RowOf` | backend/app/main.py:194-209 | an employee-list entry carries the employee's columns, their assignment total and completed count, with completed never above total |
| `App.EmployeeRows` | backend/app/main.py:191-209 | the loop builds one entry per employee, in order, each describing its employee |
| `App.Store.GetAllEmployees` | backend/app/main.py:176-211 | 403 for non-HR callers; otherwise one row per employee in table order, with the employee's columns, their assignment total and completed count (completed never above total) |
| `App.Store.AssignTask` | backend/app/main.py:275-309 | 403 for non-HR callers; 400 "Task already assigned" with no change when the (employee, task) pair exists; otherwise exactly one pending assignment appended with `assigned_by` = caller, pending count up by one; pairs stay unique |
| `App.Store.CompleteTask` | backend/app/main.py:457-481 | 403 when the path check fails; 404 "Task assignment not found" with no change when the assignment is missing or not the caller's; otherwise only that row changes, with only its status (completed) and completion time (now) changed |
| `App.Store.UploadDocument` | backend/app/main.py:349-400 | 403 when the path check fails; 400 "Invalid document type" whatever the file, when the lower-cased type is no `DocumentType`; 500 when saving the file fails; otherwise exactly one document appended: caller's id, parsed type, path `uploads/{user_id}_{type}_{filename}`, status pending, pending-document count up by one |
| `App.EmployeeSeesOnlyOwnDocuments` | backend/app/main.py:323-332 | an employee's document listing never contains another employee's document |
| `App.DeniedReadsNothing` | backend/app/main.py:133-134 | when the path check fails, the dashboard, the listing and the employee lookup answer the same, whatever the store holds |

## Left out

- Token decoding and password hashing (`backend/app/core/security.py`) are thin wrappers over the
  `jose` and `passlib` libraries. `Deps.GetCurrentUser` takes the decode result as a parameter:
  `None` when decoding fails. Claim values are modelled as strings.
- `str.lower()` is modelled on ASCII letters only. Unicode case mappings are not modelled.
- `ILIKE` wildcards (`%`, `_`) inside the query are taken literally. The query is matched as a
  plain substring. Its case folding is `Text.Lower`, ASCII letters only, like `str.lower()` here.
- Row order: the selects of the dashboard, the employee list, the employee lookup and the document
  listing have no `ORDER BY`, so SQL leaves their row order open. The model picks table order
  (the order of the store's sequences), so `App.Store.GetDocuments`, `App.EmployeeRows` and the
  lists of `App.Store.ManageEmployee` fix an order the database does not promise.
- File I/O: writing the upload to disk is the boolean `saved` parameter of
  `App.Store.UploadDocument`, and the bytes are not kept. `pathlib` normalisation of a filename
  that contains `/` or `.` segments is not modelled: the stored path is plain concatenation.
  The `uploads` directory creation is left out.
- `completion_rate` in the employee dashboard and the employee list is a floating-point division.
  It is left out. The constant empty `recent_activities` list is left out too.
- Response shaping (which columns go into each JSON object) is not modelled. The handlers return
  whole rows.
- Database mechanics: the session, `commit`/`refresh`, transactions and foreign-key checks.
  `assign_task` does not check that the employee or task exists, and the model does not either.
  Commit failures are not modelled. Requests run one at a time.
- `scalar_one_or_none` on more than one row is modelled as a 500 only in `get_current_user` and
  `manage_employee`. In `assign_task`, `Valid()` rules out duplicate pairs, so that case cannot
  occur.
- The `return False` branch of `verify_user_access` (deps.py:72) cannot be reached in the model.
  `UserRole` has only the values HR and EMPLOYEE.
- `login`, `register_user`, `get_tasks` and `get_training_modules` in `backend/app/main.py` are
  not part of this model. They are login plumbing and read-outs of task and training
  catalogues. Also outside the model: the routers under `backend/app/routers/` and
  `backend/app/api/routers/`, which delegate to services that are not part of this model;
  application setup (CORS, startup, uvicorn); the sample-data and utility scripts; and the HTTP
  client script `backend/test_api.py`.
- `TaskType` has no role in the modelled handlers and is left out.
