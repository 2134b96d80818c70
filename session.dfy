/** The express-session state of one client: what login stores in `req.session.user`. */
module Session {
  /** The id and username of the logged-in user, never the password. */
  datatype SessionUser = SessionUser(id: int, username: string)
}
