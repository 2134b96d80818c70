/**
 * The Express application's state and route handlers. The SQLite database is
 * the two tables kept as sequences, with the sqlite_sequence counter of each;
 * the express-session store is the one client's session user, if any.
 *
 * `fault` stands for the storage layer calling back with an error (the
 * database is busy, the disk is full, ...): the statement then has no effect
 * and the handler sends its error answer.
 */
module TaskServer {
  import opened Wrappers
  import opened Wire
  import opened Tables
  import opened Session
  import opened AuthGate

  /** JavaScript truthiness of a body field that is a string or absent: `!x` is
      true for undefined and for "". */
  predicate Truthy(field: Option<string>)
  {
    field.Some? && field.value != ""
  }

  /** `(typeof status === "string" && status.length) ? status : "todo"`: the status
      a new task is stored with. */
  function SafeStatus(status: Option<string>): (s: string)
    ensures s != ""
    ensures Truthy(status) ==> s == status.value
    ensures !Truthy(status) ==> s == "todo"
  {
    if Truthy(status) then status.value else "todo"
  }

  /** Every task route is mounted under /tasks, so requireLogin sees a path with that prefix. */
  const TASKS_PATH: string := "/tasks"

  class Server {
    var users: seq<User>
    var tasks: seq<Task>
    var lastUserId: nat
    var lastTaskId: nat
    var session: Option<SessionUser>

    ghost predicate Valid()
      reads this
    {
      && UsersValid(users, lastUserId)
      && TasksValid(tasks, lastTaskId)
      && OwnersExist(users, tasks)
      && SessionValid(users, session)
    }

    /** A fresh database file and no session. */
    constructor ()
      ensures Valid()
      ensures users == [] && tasks == [] && lastUserId == 0 && lastTaskId == 0 && session == None
    {
      users, tasks := [], [];
      lastUserId, lastTaskId := 0, 0;
      session := None;
    }

    /** POST /register. */
    method Register(username: Option<string>, password: Option<string>, fault: bool) returns (resp: Response)
      requires Valid()
      modifies this`users, this`lastUserId
      ensures Valid()
      ensures !Truthy(username) || !Truthy(password) ==>
        resp == Json(200, Failure("Missing")) && users == old(users) && lastUserId == old(lastUserId)
      ensures Truthy(username) && Truthy(password) && (fault || UsernameTaken(old(users), username.value)) ==>
        resp == Json(200, Failure("Username already exists")) && users == old(users) && lastUserId == old(lastUserId)
      ensures Truthy(username) && Truthy(password) && !fault && !UsernameTaken(old(users), username.value) ==>
        && resp == Json(200, Ack(true))
        && lastUserId == old(lastUserId) + 1
        && users == old(users) + [User(lastUserId, username.value, password.value)]
    {
      if !Truthy(username) || !Truthy(password) {
        return Json(200, Failure("Missing"));
      }
      if fault || UsernameTaken(users, username.value) {
        return Json(200, Failure("Username already exists"));
      }
      ghost var before := users;
      var u := User(lastUserId + 1, username.value, password.value);
      users := users + [u];
      lastUserId := lastUserId + 1;
      forall t | t in tasks ensures HasUser(users, t.owner) {
        var w :| w in before && w.id == t.owner;
        assert w in users;
      }
      if session.Some? {
        ghost var w :| w in before && w.id == session.value.id && w.username == session.value.username;
        assert w in users;
      }
      resp := Json(200, Ack(true));
    }

    /** POST /login. Success stores only the id and username of the row found. */
    method Login(username: Option<string>, password: Option<string>, fault: bool) returns (resp: Response)
      requires Valid()
      modifies this`session
      ensures Valid()
      ensures !fault && (exists u :: u in users && Credentials(u, username, password)) ==>
        && resp == Json(200, Ack(true))
        && session == Some(SessionUser(FindUser(users, username, password).value.id,
                                       FindUser(users, username, password).value.username))
      ensures fault || !(exists u :: u in users && Credentials(u, username, password)) ==>
        resp == Json(200, Failure("Invalid credentials")) && session == old(session)
    {
      var found := FindUser(users, username, password);
      if fault || found.None? {
        return Json(200, Failure("Invalid credentials"));
      }
      session := Some(SessionUser(found.value.id, found.value.username));
      resp := Json(200, Ack(true));
    }

    /** GET /logout (not behind requireLogin): destroys the session and always succeeds. */
    method Logout() returns (resp: Response)
      requires Valid()
      modifies this`session
      ensures Valid()
      ensures session == None && resp == Json(200, Ack(true))
    {
      session := None;
      resp := Json(200, Ack(true));
    }

    /** GET /tasks: the caller's own rows, and nothing of anyone else's. */
    method ListTasks(accept: Option<string>, fault: bool) returns (resp: Response)
      ensures session.None? ==> resp == NOT_LOGGED_IN
      ensures session.Some? && fault ==> resp == Json(500, Failure("DB error"))
      ensures session.Some? && !fault ==> resp.Json? && resp.code == 200 && resp.body.Rows?
      ensures session.Some? && !fault ==> forall t :: t in tasks ==>
        (t.owner == session.value.id ==> View(t) in resp.body.rows)
      ensures session.Some? && !fault ==> forall v :: v in resp.body.rows ==>
        exists t :: t in tasks && t.owner == session.value.id && View(t) == v
      ensures session.Some? && !fault ==> resp == Json(200, Rows(OwnedViews(tasks, session.value.id)))
    {
      var gate := RequireLogin(session, accept, TASKS_PATH);
      if gate.Respond? {
        return gate.response;
      }
      if fault {
        return Json(500, Failure("DB error"));
      }
      resp := Json(200, Rows(OwnedViews(tasks, session.value.id)));
    }

    /** POST /tasks: one new row owned by the caller, with a fresh id. */
    method AddTask(accept: Option<string>, task: Option<string>, status: Option<string>, fault: bool)
      returns (resp: Response)
      requires Valid()
      modifies this`tasks, this`lastTaskId
      ensures Valid()
      ensures session.None? ==> resp == NOT_LOGGED_IN
      ensures session.Some? && !Truthy(task) ==> resp == Json(200, Failure("Task required"))
      ensures session.Some? && Truthy(task) && fault ==> resp == Json(200, Failure("DB insert failed"))
      ensures session.None? || !Truthy(task) || fault ==> tasks == old(tasks) && lastTaskId == old(lastTaskId)
      ensures session.Some? && Truthy(task) && !fault ==>
        && resp == Json(200, Created(lastTaskId))
        && lastTaskId == old(lastTaskId) + 1
        && (forall t :: t in old(tasks) ==> t.id != lastTaskId)
        && tasks == old(tasks) + [Task(lastTaskId, session.value.id, task.value, Some(SafeStatus(status)))]
    {
      var gate := RequireLogin(session, accept, TASKS_PATH);
      if gate.Respond? {
        return gate.response;
      }
      if !Truthy(task) {
        return Json(200, Failure("Task required"));
      }
      var safeStatus := SafeStatus(status);
      if fault {
        return Json(200, Failure("DB insert failed"));
      }
      var id := lastTaskId + 1;
      var row := Task(id, session.value.id, task.value, Some(safeStatus));
      assert HasUser(users, row.owner);
      tasks := tasks + [row];
      lastTaskId := id;
      resp := Json(200, Created(id));
    }

    /** PUT /tasks/:id: sets the status of the caller's row with that id, if there is
        one, and reports success either way. */
    method UpdateTask(accept: Option<string>, id: int, status: Option<string>, fault: bool)
      returns (resp: Response)
      requires Valid()
      modifies this`tasks
      ensures Valid()
      ensures session.None? ==> resp == NOT_LOGGED_IN && tasks == old(tasks)
      ensures session.Some? && fault ==> resp == Json(200, Ack(false)) && tasks == old(tasks)
      ensures session.Some? && !fault ==>
        resp == Json(200, Ack(true)) && tasks == SetStatus(old(tasks), id, session.value.id, status)
    {
      var gate := RequireLogin(session, accept, TASKS_PATH);
      if gate.Respond? {
        return gate.response;
      }
      if fault {
        return Json(200, Ack(false));
      }
      SetStatusKeepsValid(users, tasks, lastTaskId, id, session.value.id, status);
      tasks := SetStatus(tasks, id, session.value.id, status);
      resp := Json(200, Ack(true));
    }

    /** DELETE /tasks/:id: removes the caller's row with that id, if there is one,
        and reports success either way. */
    method DeleteTask(accept: Option<string>, id: int, fault: bool) returns (resp: Response)
      requires Valid()
      modifies this`tasks
      ensures Valid()
      ensures session.None? ==> resp == NOT_LOGGED_IN && tasks == old(tasks)
      ensures session.Some? && fault ==> resp == Json(200, Ack(false)) && tasks == old(tasks)
      ensures session.Some? && !fault ==>
        resp == Json(200, Ack(true)) && tasks == RemoveTask(old(tasks), id, session.value.id)
    {
      var gate := RequireLogin(session, accept, TASKS_PATH);
      if gate.Respond? {
        return gate.response;
      }
      if fault {
        return Json(200, Ack(false));
      }
      tasks := RemoveTask(tasks, id, session.value.id);
      resp := Json(200, Ack(true));
    }
  }
}
