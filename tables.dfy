/**
 * The two SQLite tables of the task tracker, kept in memory as sequences of
 * rows in insertion order, and the meaning of every SQL statement the
 * handlers issue against them:
 *
 *   users(id INTEGER PRIMARY KEY AUTOINCREMENT, username TEXT UNIQUE, password TEXT)
 *   tasks(id INTEGER PRIMARY KEY AUTOINCREMENT, user_id INTEGER, task TEXT, status TEXT DEFAULT 'todo')
 */
module Tables {
  import opened Wrappers
  import opened Wire
  import opened Session

  /** A row of `users`. Registration never stores an empty or missing field. */
  datatype User = User(id: int, username: string, password: string)

  /** A row of `tasks`; `owner` is the user_id column. A status of None is NULL. */
  datatype Task = Task(id: int, owner: int, text: string, status: Option<string>)

  /** The columns GET /tasks selects from a row. */
  function View(t: Task): TaskView
  {
    TaskView(t.id, t.text, t.status)
  }

  // ---------------------------------------------------------------------------
  // Table invariants
  // ---------------------------------------------------------------------------

  /** AUTOINCREMENT hands out ids in increasing order, and deletion keeps the order. */
  ghost predicate UserIdsAscending(users: seq<User>)
  {
    forall i, j :: 0 <= i < j < |users| ==> users[i].id < users[j].id
  }

  ghost predicate IdsAscending(tasks: seq<Task>)
  {
    forall i, j :: 0 <= i < j < |tasks| ==> tasks[i].id < tasks[j].id
  }

  /** The UNIQUE constraint on users.username. */
  ghost predicate UniqueUsernames(users: seq<User>)
  {
    forall i, j :: 0 <= i < j < |users| ==> users[i].username != users[j].username
  }

  /** `lastId` plays the part of the table's sqlite_sequence entry: the largest id
      ever handed out. Every id present is positive and at most that. */
  ghost predicate UsersValid(users: seq<User>, lastId: nat)
  {
    && UserIdsAscending(users)
    && UniqueUsernames(users)
    && (forall u :: u in users ==> 1 <= u.id <= lastId)
  }

  ghost predicate TasksValid(tasks: seq<Task>, lastId: nat)
  {
    && IdsAscending(tasks)
    && (forall t :: t in tasks ==> 1 <= t.id <= lastId)
  }

  ghost predicate HasUser(users: seq<User>, id: int)
  {
    exists u :: u in users && u.id == id
  }

  /** Every task was inserted with the id of a logged-in, hence registered, user. */
  ghost predicate OwnersExist(users: seq<User>, tasks: seq<Task>)
  {
    forall t :: t in tasks ==> HasUser(users, t.owner)
  }

  /** A session user is always a row of `users` (users are never deleted). */
  ghost predicate SessionValid(users: seq<User>, session: Option<SessionUser>)
  {
    session.Some? ==> exists u :: u in users && u.id == session.value.id && u.username == session.value.username
  }

  /** In a table with ascending ids, a row is determined by its id. */
  lemma SameIdSameRow(tasks: seq<Task>, i: int, j: int)
    requires IdsAscending(tasks)
    requires 0 <= i < |tasks| && 0 <= j < |tasks|
    requires tasks[i].id == tasks[j].id
    ensures i == j
  {
  }

  // ---------------------------------------------------------------------------
  // users: INSERT and the login SELECT
  // ---------------------------------------------------------------------------

  /** Whether an INSERT of this username violates the UNIQUE constraint. */
  predicate UsernameTaken(users: seq<User>, name: string)
  {
    exists u :: u in users && u.username == name
  }

  /** `username = ? AND password = ?`: both bound values must be present (a missing
      field binds NULL, which equals nothing) and equal the columns exactly. */
  predicate Credentials(u: User, username: Option<string>, password: Option<string>)
  {
    username == Some(u.username) && password == Some(u.password)
  }

  /** `SELECT id, username FROM users WHERE username = ? AND password = ?` through
      db.get, which yields the first row found. */
  function FindUser(users: seq<User>, username: Option<string>, password: Option<string>): (r: Option<User>)
    ensures r.Some? <==> exists u :: u in users && Credentials(u, username, password)
    ensures r.Some? ==> r.value in users && Credentials(r.value, username, password)
  {
    if |users| == 0 then None
    else if Credentials(users[0], username, password) then Some(users[0])
    else
      assert forall u :: u in users ==> u == users[0] || u in users[1..];
      FindUser(users[1..], username, password)
  }

  /** With unique usernames the login query can only ever find the one row that
      carries the given username and password. */
  lemma {:induction false} FindUserIsTheRow(users: seq<User>, k: int, username: Option<string>, password: Option<string>)
    requires UniqueUsernames(users)
    requires 0 <= k < |users| && Credentials(users[k], username, password)
    ensures FindUser(users, username, password) == Some(users[k])
  {
    if k > 0 {
      assert users[0].username != users[k].username;
      assert users[1..][k - 1] == users[k];
      FindUserIsTheRow(users[1..], k - 1, username, password);
    }
  }

  // ---------------------------------------------------------------------------
  // tasks: SELECT ... WHERE user_id = ?
  // ---------------------------------------------------------------------------

  /** `SELECT id, task, status FROM tasks WHERE user_id = ?`, in table order. */
  function OwnedViews(tasks: seq<Task>, uid: int): (r: seq<TaskView>)
    ensures |r| <= |tasks|
    ensures forall t :: t in tasks && t.owner == uid ==> View(t) in r
    ensures forall v :: v in r ==> exists t :: t in tasks && t.owner == uid && View(t) == v
  {
    if |tasks| == 0 then []
    else
      assert forall t :: t in tasks ==> t == tasks[0] || t in tasks[1..];
      (if tasks[0].owner == uid then [View(tasks[0])] else []) + OwnedViews(tasks[1..], uid)
  }

  /** The listing of a concatenation is the concatenation of the listings: the
      query keeps table order. */
  lemma {:induction false} OwnedViewsAppend(a: seq<Task>, b: seq<Task>, uid: int)
    ensures OwnedViews(a + b, uid) == OwnedViews(a, uid) + OwnedViews(b, uid)
  {
    if |a| == 0 {
      assert a + b == b;
    } else {
      assert (a + b)[0] == a[0];
      assert (a + b)[1..] == a[1..] + b;
      OwnedViewsAppend(a[1..], b, uid);
    }
  }

  /** An inserted row shows up at the end of its owner's listing and in no one else's. */
  lemma OwnedViewsAfterInsert(tasks: seq<Task>, t: Task, uid: int)
    ensures OwnedViews(tasks + [t], uid) == OwnedViews(tasks, uid) + (if t.owner == uid then [View(t)] else [])
  {
    OwnedViewsAppend(tasks, [t], uid);
    assert [t][1..] == [];
  }

  /** A listing never shows a row of another user, not even one that looks alike. */
  lemma OwnedViewsExcludeOthers(tasks: seq<Task>, k: int, uid: int)
    requires IdsAscending(tasks)
    requires 0 <= k < |tasks| && tasks[k].owner != uid
    ensures View(tasks[k]) !in OwnedViews(tasks, uid)
  {
  }

  // ---------------------------------------------------------------------------
  // tasks: UPDATE and DELETE scoped by id and owner
  // ---------------------------------------------------------------------------

  /** The `WHERE id = ? AND user_id = ?` of the update and the delete. */
  predicate Targets(t: Task, id: int, uid: int)
  {
    t.id == id && t.owner == uid
  }

  /** `UPDATE tasks SET status = ? WHERE id = ? AND user_id = ?`. */
  function SetStatus(tasks: seq<Task>, id: int, uid: int, status: Option<string>): (r: seq<Task>)
    ensures |r| == |tasks|
    ensures forall i :: 0 <= i < |tasks| && Targets(tasks[i], id, uid) ==> r[i] == tasks[i].(status := status)
    ensures forall i :: 0 <= i < |tasks| && !Targets(tasks[i], id, uid) ==> r[i] == tasks[i]
  {
    if |tasks| == 0 then []
    else
      var head := if Targets(tasks[0], id, uid) then tasks[0].(status := status) else tasks[0];
      var rest := SetStatus(tasks[1..], id, uid, status);
      assert forall i :: 1 <= i < |tasks| ==> tasks[1..][i - 1] == tasks[i] && ([head] + rest)[i] == rest[i - 1];
      [head] + rest
  }

  /** The update touches only the status of matching rows, so it keeps ids and owners. */
  lemma SetStatusKeepsKeys(tasks: seq<Task>, id: int, uid: int, status: Option<string>)
    ensures forall i :: 0 <= i < |tasks| ==>
      SetStatus(tasks, id, uid, status)[i].id == tasks[i].id &&
      SetStatus(tasks, id, uid, status)[i].owner == tasks[i].owner &&
      SetStatus(tasks, id, uid, status)[i].text == tasks[i].text
  {
  }

  /** The update keeps the table invariants: ids, their order and the owners stay as they were. */
  lemma SetStatusKeepsValid(users: seq<User>, tasks: seq<Task>, lastId: nat, id: int, uid: int, status: Option<string>)
    requires TasksValid(tasks, lastId) && OwnersExist(users, tasks)
    ensures TasksValid(SetStatus(tasks, id, uid, status), lastId)
    ensures OwnersExist(users, SetStatus(tasks, id, uid, status))
  {
    var r := SetStatus(tasks, id, uid, status);
    SetStatusKeepsKeys(tasks, id, uid, status);
    forall i, j | 0 <= i < j < |r| ensures r[i].id < r[j].id {
    }
    forall t | t in r ensures 1 <= t.id <= lastId && HasUser(users, t.owner) {
      var i :| 0 <= i < |r| && r[i] == t;
      assert tasks[i] in tasks;
    }
  }

  /** With ids ascending, the update changes exactly the status of row k and nothing else. */
  lemma SetStatusExactlyRow(tasks: seq<Task>, k: int, id: int, uid: int, status: Option<string>)
    requires IdsAscending(tasks)
    requires 0 <= k < |tasks| && Targets(tasks[k], id, uid)
    ensures SetStatus(tasks, id, uid, status) == tasks[k := tasks[k].(status := status)]
  {
    var r := SetStatus(tasks, id, uid, status);
    forall i | 0 <= i < |tasks| && i != k
      ensures r[i] == tasks[i]
    {
      if Targets(tasks[i], id, uid) {
        SameIdSameRow(tasks, i, k);
      }
    }
  }

  /** No row carries that id with that owner: the update is a no-op. */
  lemma SetStatusNoMatch(tasks: seq<Task>, id: int, uid: int, status: Option<string>)
    requires forall t :: t in tasks ==> !Targets(t, id, uid)
    ensures SetStatus(tasks, id, uid, status) == tasks
  {
    var r := SetStatus(tasks, id, uid, status);
    assert forall i :: 0 <= i < |tasks| ==> r[i] == tasks[i];
  }

  /** Another user's task id: the update scoped to this user leaves the table unchanged. */
  lemma SetStatusForeignRow(tasks: seq<Task>, k: int, uid: int, status: Option<string>)
    requires IdsAscending(tasks)
    requires 0 <= k < |tasks| && tasks[k].owner != uid
    ensures SetStatus(tasks, tasks[k].id, uid, status) == tasks
  {
    forall t | t in tasks
      ensures !Targets(t, tasks[k].id, uid)
    {
      var j :| 0 <= j < |tasks| && tasks[j] == t;
      if Targets(t, tasks[k].id, uid) {
        SameIdSameRow(tasks, j, k);
      }
    }
    SetStatusNoMatch(tasks, tasks[k].id, uid, status);
  }

  /** Running the same update twice leaves the table as running it once. */
  lemma {:induction false} SetStatusIdempotent(tasks: seq<Task>, id: int, uid: int, status: Option<string>)
    ensures SetStatus(SetStatus(tasks, id, uid, status), id, uid, status) == SetStatus(tasks, id, uid, status)
  {
    var once := SetStatus(tasks, id, uid, status);
    var twice := SetStatus(once, id, uid, status);
    forall i | 0 <= i < |tasks|
      ensures twice[i] == once[i]
    {
      SetStatusKeepsKeys(tasks, id, uid, status);
      assert Targets(once[i], id, uid) == Targets(tasks[i], id, uid);
    }
  }

  /** Another user's update is invisible in this user's listing. */
  lemma {:induction false} SetStatusInvisibleToOthers(tasks: seq<Task>, id: int, uid: int, status: Option<string>, other: int)
    requires other != uid
    ensures OwnedViews(SetStatus(tasks, id, uid, status), other) == OwnedViews(tasks, other)
  {
    if |tasks| > 0 {
      var r := SetStatus(tasks, id, uid, status);
      assert r[1..] == SetStatus(tasks[1..], id, uid, status);
      SetStatusInvisibleToOthers(tasks[1..], id, uid, status, other);
    }
  }

  /** `DELETE FROM tasks WHERE id = ? AND user_id = ?`. */
  function RemoveTask(tasks: seq<Task>, id: int, uid: int): (r: seq<Task>)
    ensures |r| <= |tasks|
    ensures forall t :: t in r <==> t in tasks && !Targets(t, id, uid)
    ensures IdsAscending(tasks) ==> IdsAscending(r)
  {
    if |tasks| == 0 then []
    else
      assert forall t :: t in tasks <==> t == tasks[0] || t in tasks[1..];
      var rest := RemoveTask(tasks[1..], id, uid);
      if Targets(tasks[0], id, uid) then rest
      else
        assert IdsAscending(tasks) ==> forall t :: t in rest ==> tasks[0].id < t.id;
        [tasks[0]] + rest
  }

  /** No row carries that id with that owner: the delete is a no-op. */
  lemma {:induction false} RemoveTaskNoMatch(tasks: seq<Task>, id: int, uid: int)
    requires forall t :: t in tasks ==> !Targets(t, id, uid)
    ensures RemoveTask(tasks, id, uid) == tasks
  {
    if |tasks| > 0 {
      assert tasks[0] in tasks;
      RemoveTaskNoMatch(tasks[1..], id, uid);
      assert [tasks[0]] + tasks[1..] == tasks;
    }
  }

  /** With ids ascending, the delete removes exactly row k and keeps every other row in order. */
  lemma {:induction false} RemoveTaskExactlyRow(tasks: seq<Task>, k: int, id: int, uid: int)
    requires IdsAscending(tasks)
    requires 0 <= k < |tasks| && Targets(tasks[k], id, uid)
    ensures RemoveTask(tasks, id, uid) == tasks[..k] + tasks[k + 1..]
  {
    var tail := tasks[1..];
    TailAscending(tasks);
    if k == 0 {
      RemoveTaskNoMatch(tail, id, uid);
    } else {
      assert tasks[0].id < tasks[k].id;
      assert tail[k - 1] == tasks[k];
      RemoveTaskExactlyRow(tail, k - 1, id, uid);
      assert tasks[..k] == [tasks[0]] + tail[..k - 1];
      assert tasks[k + 1..] == tail[k..];
    }
  }

  /** Dropping the first row of a table with ascending ids leaves ids ascending,
      all above the dropped one. */
  lemma TailAscending(tasks: seq<Task>)
    requires IdsAscending(tasks) && |tasks| > 0
    ensures IdsAscending(tasks[1..])
    ensures forall t :: t in tasks[1..] ==> tasks[0].id < t.id
  {
    var tail := tasks[1..];
    forall i, j | 0 <= i < j < |tail| ensures tail[i].id < tail[j].id {
      assert tail[i] == tasks[i + 1] && tail[j] == tasks[j + 1];
    }
    forall t | t in tail ensures tasks[0].id < t.id {
      var j :| 0 <= j < |tail| && tail[j] == t;
      assert tasks[j + 1] == t;
    }
  }

  /** Another user's task id: the delete scoped to this user leaves the table unchanged. */
  lemma RemoveTaskForeignRow(tasks: seq<Task>, k: int, uid: int)
    requires IdsAscending(tasks)
    requires 0 <= k < |tasks| && tasks[k].owner != uid
    ensures RemoveTask(tasks, tasks[k].id, uid) == tasks
  {
    forall t | t in tasks
      ensures !Targets(t, tasks[k].id, uid)
    {
      var j :| 0 <= j < |tasks| && tasks[j] == t;
      if Targets(t, tasks[k].id, uid) {
        SameIdSameRow(tasks, j, k);
      }
    }
    RemoveTaskNoMatch(tasks, tasks[k].id, uid);
  }

  /** Another user's delete is invisible in this user's listing. */
  lemma {:induction false} RemoveTaskInvisibleToOthers(tasks: seq<Task>, id: int, uid: int, other: int)
    requires other != uid
    ensures OwnedViews(RemoveTask(tasks, id, uid), other) == OwnedViews(tasks, other)
  {
    if |tasks| > 0 {
      RemoveTaskInvisibleToOthers(tasks[1..], id, uid, other);
      if !Targets(tasks[0], id, uid) {
        var rest := RemoveTask(tasks[1..], id, uid);
        assert ([tasks[0]] + rest)[1..] == rest;
      }
    }
  }
}
