/**
 * What the handlers send back: a JSON body with an HTTP status code, or a
 * redirect. Express answers `res.json(...)` with 200 unless `res.status(...)`
 * was called first, and `res.redirect(...)` with 302.
 */
module Wire {
  import opened Wrappers

  /** One element of the GET /tasks answer: the selected columns id, task, status.
      A status of None is a NULL column, sent as JSON null. */
  datatype TaskView = TaskView(id: int, task: string, status: Option<string>)

  /** The JSON bodies the handlers produce. */
  datatype Body =
    | Ack(success: bool)            // { success: b }
    | Failure(error: string)        // { success: false, error: e }
    | Created(id: int)              // { success: true, id: lastID }
    | Rows(rows: seq<TaskView>)     // [ { id, task, status }, ... ]

  datatype Response =
    | Json(code: int, body: Body)
    | Redirect(location: string)

  /** The answer requireLogin gives an API caller without a session. */
  const NOT_LOGGED_IN: Response := Json(401, Failure("Not logged in"))

  /** Where requireLogin sends a browser without a session. */
  const LOGIN_PAGE: string := "/login.html"
}
