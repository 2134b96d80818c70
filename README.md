# Task tracker server: a Dafny model

This is a model of the server logic of a small task-tracking web application. The server is an Express application backed by SQLite.

- Users register with a username and password, then log in.
- A logged-in user gets a session and manages their own tasks.
- A task has a text and a status; the browser shows it in the column named by its status.

The model replaces the SQLite calls with an in-memory state:

- `users` and `tasks`: the two tables, as sequences of rows in insertion order.
- `lastUserId` and `lastTaskId`: the `AUTOINCREMENT` counters (each table's `sqlite_sequence` entry).
- `session`: the session, either a `SessionUser(id, username)` or nothing.

Each route handler is a method of the class `TaskServer.Server` that updates this state. `Server.Valid()` is the invariant every handler keeps:

- ids are positive, ascending in table order, and never above their counter;
- usernames are unique;
- every task belongs to an existing user;
- the session user is always a row of `users`.

The meaning of each SQL statement is a pure function in `Tables`:

- `FindUser` is the login `SELECT`;
- `OwnedViews` is the listing `SELECT`;
- `SetStatus` is the `UPDATE`;
- `RemoveTask` is the `DELETE`.

Lemmas about these functions state the properties that matter:

- update and delete touch only the row with that id and owner;
- they are no-ops on another user's id;
- the update is idempotent;
- one user's changes never show in another user's listing.

`AuthGate.RequireLogin` is the `requireLogin` filter. It is a pure decision over the session, the `Accept` header and the path: proceed, answer 401 with JSON, or redirect to `/login.html`.

`Scenarios` holds client request sequences on a fresh server, each proved from the handlers' contracts:

- register, log in, add a task, move it, log out;
- a wrong password;
- a duplicate registration;
- another user trying to move and delete someone else's task.

Files:

- `wrappers.dfy`: `Option`.
- `wire.dfy`: the JSON bodies and responses.
- `session.dfy`: the session record.
- `tables.dfy`: rows, table invariants, the statements and their lemmas.
- `auth_gate.dfy`: `requireLogin`.
- `server.dfy`: the handlers.
- `scenarios.dfy`: the client sequences.

## Behaviour of `server.js` worth knowing

In these places the code is looser than one might expect, and the model follows the code:

- `GET /logout` is not behind `requireLogin`. It destroys the session and answers `{success: true}` whether or not anyone was logged in.
- Passwords are stored and compared as plaintext. Login matches a row only when both username and password are exactly equal.
- A task's status is any non-empty string, not a closed set of three values.
  - A new task keeps any non-empty status string it is given.
  - A new task with no status or an empty one gets `"todo"`.
  - `PUT` stores whatever it receives. A missing `status` is bound as `undefined`, which becomes SQL `NULL`, so `Task.status` is an `Option`.
- A task text made only of whitespace is accepted, because it is a truthy string. Only a missing or empty text is refused with "Task required".
- There is no clear-column operation and no `/tasks/move/:id` route. `server.js` defines neither, so neither is modelled.

## Model

| member | source | states |
|---|---|---|
| `AuthGate.RequireLogin` | server.js:48-59 | Proceeds exactly when the session has a user. Without one, answers 401 `{success:false, error:"Not logged in"}` exactly when "application/json" occurs in the Accept header (a missing header reads as "") or the path starts with "/tasks"; otherwise redirects to /login.html. |
| `AuthGate.ContainsIff` | server.js:52-53 | The left-to-right scan used for `includes` finds the substring exactly when some position of the header starts a copy of it. |
| `Tables.FindUser` | server.js:81-85 | The login query finds a row exactly when some row has that username and that password. A missing field matches no row. Any row it returns is in the table and matches both fields. |
| `Tables.FindUserIsTheRow` | server.js:82-88 | With unique usernames, the login query returns the one matching row, so its id and username are what the session stores. |
| `Tables.SameIdSameRow` | server.js:39 | In a table with ascending ids, two positions holding the same id are the same position: the id is a primary key. |
| `Tables.OwnedViews` | server.js:106 | The listing holds `(id, task, status)` of every row whose owner is the session user. Every element comes from such a row. It is no longer than the table. |
| `Tables.OwnedViewsAppend` | server.js:106 | The listing keeps table order: listing a concatenation gives the concatenation of the listings. |
| `Tables.OwnedViewsAfterInsert` | server.js:119-121 | An inserted row appears at the end of its owner's listing and in no other user's listing. |
| `Tables.OwnedViewsExcludeOthers` | server.js:106 | With ascending ids, a row of another user never appears in a user's listing. |
| `Tables.SetStatus` | server.js:136 | The update has the same length as the table, and each row with that id and owner gets exactly the new status. Every other row is unchanged. |
| `Tables.SetStatusKeepsKeys` | server.js:136 | The update leaves every row's id, owner and text unchanged. |
| `Tables.SetStatusKeepsValid` | server.js:136 | The update keeps the task-table invariants: ascending ids within the counter, and owners that exist. |
| `Tables.SetStatusExactlyRow` | server.js:136-137 | When row k has that id and owner, the table afterwards is the old one with only row k's status replaced. |
| `Tables.SetStatusNoMatch` | server.js:135-143 | When no row has that id and owner, for example another user's task, the update leaves the table unchanged. |
| `Tables.SetStatusForeignRow` | server.js:136-137 | With ascending ids, an update scoped to one user with the id of another user's row leaves the table unchanged. |
| `Tables.SetStatusIdempotent` | server.js:133-145 | Repeating the same update gives the same table as doing it once. |
| `Tables.SetStatusInvisibleToOthers` | server.js:136 | One user's update never changes another user's listing. |
| `Tables.RemoveTask` | server.js:151 | A row survives the delete exactly when it was in the table and does not have both that id and that owner. Ascending ids stay ascending. |
| `Tables.RemoveTaskNoMatch` | server.js:150-158 | When no row has that id and owner, the delete leaves the table unchanged. |
| `Tables.RemoveTaskExactlyRow` | server.js:151-152 | When row k has that id and owner, the delete removes exactly row k and keeps every other row in order. |
| `Tables.TailAscending` | server.js:39 | Dropping the first row of a table with ascending ids leaves the ids ascending, all above the dropped row's id. |
| `Tables.RemoveTaskForeignRow` | server.js:151-152 | With ascending ids, a delete scoped to one user with the id of another user's row leaves the table unchanged. |
| `Tables.RemoveTaskInvisibleToOthers` | server.js:151 | One user's delete never changes another user's listing. |
| `TaskServer.SafeStatus` | server.js:117 | A new task's status is never empty. It is the given status when that is a non-empty string, and "todo" otherwise. |
| `TaskServer.Server.constructor` | server.js:28-45 | A new database has empty tables, zero counters and no session, and satisfies the invariant. |
| `TaskServer.Server.Register` | server.js:64-76 | Missing or empty username or password: "Missing", users unchanged. A storage error or a taken username: "Username already exists", users unchanged. Otherwise exactly one user is appended with the next id, and the invariant, including unique usernames, is kept. |
| `TaskServer.Server.Login` | server.js:79-92 | Succeeds exactly when there is no storage error and some row matches both fields. Then the session holds only that row's id and username. Otherwise the answer is "Invalid credentials", the same for an unknown user and a wrong password, and the session is unchanged. |
| `TaskServer.Server.Logout` | server.js:95-100 | Clears the session and always answers `{success:true}`. |
| `TaskServer.Server.ListTasks` | server.js:105-110 | Without a session: 401. With a storage error: 500 "DB error". Otherwise: exactly the caller's rows as `(id, task, status)`, in table order, each taken from a row the caller owns. |
| `TaskServer.Server.AddTask` | server.js:113-130 | Without a session: 401. Missing or empty text: "Task required". A storage error: "DB insert failed". In these three cases nothing is inserted. Otherwise one row is appended, owned by the session user, with the status default and a fresh id distinct from every existing id; that id is what the answer reports. |
| `TaskServer.Server.UpdateTask` | server.js:133-146 | Without a session: 401, nothing changes. A storage error: `{success:false}`, nothing changes. Otherwise the table becomes `SetStatus` scoped by id and session user, and the answer is `{success:true}` even when nothing matched. |
| `TaskServer.Server.DeleteTask` | server.js:149-161 | The same as UpdateTask, with the table becoming `RemoveTask` scoped by id and session user. |
| `Scenarios.FirstTask` | server.js:64-161 | Register, log in, add "buy milk", then: it is listed with status "todo"; after moving it to "done" it is listed as "done"; after logout the listing answers 401. |
| `Scenarios.WrongPassword` | server.js:79-110 | A wrong password gets "Invalid credentials", and the listing that follows answers 401. |
| `Scenarios.DuplicateRegistration` | server.js:64-76 | A second registration of "alice" gets "Username already exists", and a registration with an empty password gets "Missing". |
| `Scenarios.AliceAndBob` | server.js:64-76 | Two registrations on a fresh server give users 1 and 2 and no tasks. |
| `Scenarios.AliceTaskBobSession` | server.js:79-130 | A task added with an empty status is stored with status "todo". Logging in as another user replaces the session. |
| `Scenarios.CrossUser` | server.js:133-161 | Another user's update and delete of alice's task id both answer `{success:true}`, and alice's listing afterwards is unchanged. |

## Left out

- Express setup, the JSON and static-file middleware, the HTML routes (`/`, `/profile`, `/register` pages) and `app.listen`. These are I/O plumbing. For `/profile`, only the `requireLogin` decision is modelled.
- The `express-session` cookie settings, token generation and the session store. The session is one client's optional user record, and concurrent clients are not modelled.
- The SQLite connection, asynchronous callbacks and console logging. A storage error is the `fault` parameter of each handler that has an error callback; the statement then has no effect.
- The error passed to `session.destroy` is ignored by the source, so the model has no failure for it.
- Request bodies are modelled as strings or absent. Other JSON values (numbers, booleans, objects) for `username`, `password`, `task` or `status` are not modelled, so the `typeof status === "string"` test reduces to "present".
- The `:id` path segment is modelled as an integer. SQLite's conversion of the text segment to an integer, and segments that never match, are not modelled.
- `AUTOINCREMENT`'s upper limit (the largest 64-bit row id, which makes SQLite refuse further inserts) is not modelled: ids are unbounded.
- The database file persisting across restarts is not modelled. The constructor is a fresh file, and `CREATE TABLE IF NOT EXISTS` over an existing file is not modelled.
- `public/app.js` is not part of this model. It renders the page and handles drag and drop. The `/tasks/move/:id` and `/tasks/clear/:status` routes it calls do not exist in `server.js`.
