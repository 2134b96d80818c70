/**
 * Request sequences run against a fresh server, each proved from the handlers'
 * contracts alone: what a client sees across register, login, the task routes
 * and logout.
 */
module Scenarios {
  import opened Wrappers
  import opened Wire
  import opened Tables
  import opened Session
  import opened TaskServer

  /** register, login, add a task, list it, move it to "done", list again, log
      out, and list once more without a session. */
  method FirstTask() returns (added: Response, listed: Response, moved: Response, relisted: Response, afterLogout: Response)
    ensures added == Json(200, Created(1))
    ensures listed == Json(200, Rows([TaskView(1, "buy milk", Some("todo"))]))
    ensures moved == Json(200, Ack(true))
    ensures relisted == Json(200, Rows([TaskView(1, "buy milk", Some("done"))]))
    ensures afterLogout == NOT_LOGGED_IN
  {
    var s := new Server();
    var r := s.Register(Some("alice"), Some("pw1"), false);
    assert s.users == [User(1, "alice", "pw1")];
    assert s.users[0] in s.users;
    r := s.Login(Some("alice"), Some("pw1"), false);
    assert s.session == Some(SessionUser(1, "alice"));
    added := s.AddTask(None, Some("buy milk"), None, false);
    var milk := Task(1, 1, "buy milk", Some("todo"));
    assert s.tasks == [milk];
    listed := s.ListTasks(None, false);
    assert OwnedViews([milk], 1) == [View(milk)];
    moved := s.UpdateTask(None, 1, Some("done"), false);
    assert s.tasks == [milk.(status := Some("done"))];
    relisted := s.ListTasks(None, false);
    assert OwnedViews([milk.(status := Some("done"))], 1) == [View(milk.(status := Some("done")))];
    r := s.Logout();
    afterLogout := s.ListTasks(Some("text/html"), false);
  }

  /** A wrong password is refused, sets no session, and the task list stays closed. */
  method WrongPassword() returns (login: Response, listed: Response)
    ensures login == Json(200, Failure("Invalid credentials"))
    ensures listed == NOT_LOGGED_IN
  {
    var s := new Server();
    var r := s.Register(Some("alice"), Some("pw1"), false);
    login := s.Login(Some("alice"), Some("pw2"), false);
    listed := s.ListTasks(None, false);
  }

  /** A second registration under the same name fails, and so does one without a password. */
  method DuplicateRegistration() returns (first: Response, second: Response, missing: Response)
    ensures first == Json(200, Ack(true))
    ensures second == Json(200, Failure("Username already exists"))
    ensures missing == Json(200, Failure("Missing"))
  {
    var s := new Server();
    first := s.Register(Some("alice"), Some("pw1"), false);
    assert s.users[0].username == "alice";
    second := s.Register(Some("alice"), Some("other"), false);
    missing := s.Register(Some("bob"), Some(""), false);
  }

  /** alice and bob register on a fresh server. */
  method AliceAndBob() returns (s: Server)
    ensures fresh(s) && s.Valid()
    ensures s.users == [User(1, "alice", "pw1"), User(2, "bob", "pw2")]
    ensures s.tasks == [] && s.lastTaskId == 0 && s.session == None
  {
    s := new Server();
    var r := s.Register(Some("alice"), Some("pw1"), false);
    assert s.users == [User(1, "alice", "pw1")];
    r := s.Register(Some("bob"), Some("pw2"), false);
  }

  /** Then alice adds "buy milk" with an empty status, and bob logs in. */
  method AliceTaskBobSession() returns (s: Server)
    ensures fresh(s) && s.Valid()
    ensures s.users == [User(1, "alice", "pw1"), User(2, "bob", "pw2")]
    ensures s.tasks == [Task(1, 1, "buy milk", Some("todo"))]
    ensures s.session == Some(SessionUser(2, "bob"))
  {
    s := AliceAndBob();
    FindUserIsTheRow(s.users, 0, Some("alice"), Some("pw1"));
    assert s.users[0] in s.users;
    var r := s.Login(Some("alice"), Some("pw1"), false);
    assert s.session == Some(SessionUser(1, "alice"));
    assert SafeStatus(Some("")) == "todo";
    r := s.AddTask(None, Some("buy milk"), Some(""), false);
    assert s.tasks == [Task(1, 1, "buy milk", Some("todo"))];
    FindUserIsTheRow(s.users, 1, Some("bob"), Some("pw2"));
    assert s.users[1] in s.users;
    r := s.Login(Some("bob"), Some("pw2"), false);
  }

  /** bob moves and deletes alice's task by its id: both calls report success and
      alice's list is untouched. */
  method CrossUser() returns (moved: Response, deleted: Response, aliceList: Response)
    ensures moved == Json(200, Ack(true))
    ensures deleted == Json(200, Ack(true))
    ensures aliceList == Json(200, Rows([TaskView(1, "buy milk", Some("todo"))]))
  {
    var s := AliceTaskBobSession();
    var milk := Task(1, 1, "buy milk", Some("todo"));
    SetStatusNoMatch([milk], 1, 2, Some("done"));
    moved := s.UpdateTask(None, 1, Some("done"), false);
    RemoveTaskNoMatch([milk], 1, 2);
    deleted := s.DeleteTask(None, 1, false);
    assert s.tasks == [milk];
    FindUserIsTheRow(s.users, 0, Some("alice"), Some("pw1"));
    assert s.users[0] in s.users;
    var r := s.Login(Some("alice"), Some("pw1"), false);
    aliceList := s.ListTasks(None, false);
    assert OwnedViews([milk], 1) == [View(milk)];
  }
}
