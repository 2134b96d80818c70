/**
 * requireLogin, the filter in front of every task route and the profile page:
 * a request with a session user proceeds; without one, an API caller gets a
 * 401 JSON body and a browser page load is sent to the login page.
 */
module AuthGate {
  import opened Wrappers
  import opened Wire
  import opened Session

  /** The filter either hands the request on (`next()`) or answers it itself. */
  datatype Decision = Proceed | Respond(response: Response)

  /** String.prototype.startsWith. */
  predicate IsPrefix(p: string, s: string)
  {
    |p| <= |s| && s[..|p|] == p
  }

  /** String.prototype.includes, trying each start position from the left. */
  predicate Contains(s: string, sub: string)
    decreases |s|
  {
    IsPrefix(sub, s) || (|s| > 0 && Contains(s[1..], sub))
  }

  /** Reference meaning of "sub occurs in s": some position of s starts a copy of sub. */
  ghost predicate Occurs(sub: string, s: string)
  {
    exists i :: 0 <= i <= |s| && IsPrefix(sub, s[i..])
  }

  /** The scan finds sub exactly when it occurs somewhere in s. */
  lemma {:induction false} ContainsIff(s: string, sub: string)
    ensures Contains(s, sub) <==> Occurs(sub, s)
    decreases |s|
  {
    if IsPrefix(sub, s) {
      assert s[0..] == s;
    } else if |s| == 0 {
      forall i | 0 <= i <= |s|
        ensures !IsPrefix(sub, s[i..])
      {
        assert s[i..] == s;
      }
    } else {
      ContainsIff(s[1..], sub);
      if Occurs(sub, s[1..]) {
        var i :| 0 <= i <= |s[1..]| && IsPrefix(sub, s[1..][i..]);
        assert s[1..][i..] == s[i + 1..];
      }
      if Occurs(sub, s) {
        var i :| 0 <= i <= |s| && IsPrefix(sub, s[i..]);
        assert i != 0 by { assert s[0..] == s; }
        assert s[i..] == s[1..][i - 1..];
      }
    }
  }

  /** `req.headers.accept || ""`: a missing header reads as the empty string. */
  function AcceptText(accept: Option<string>): string
  {
    if accept.Some? then accept.value else ""
  }

  /** requireLogin(req, res, next) on the session, the Accept header and the path. */
  function RequireLogin(session: Option<SessionUser>, accept: Option<string>, path: string): (d: Decision)
    ensures d == Proceed <==> session.Some?
    ensures session.None? ==>
      (d == Respond(NOT_LOGGED_IN) <==> Occurs("application/json", AcceptText(accept)) || IsPrefix("/tasks", path))
    ensures session.None? ==>
      (d == Respond(Redirect(LOGIN_PAGE)) <==> !Occurs("application/json", AcceptText(accept)) && !IsPrefix("/tasks", path))
  {
    if session.Some? then Proceed
    else
      ContainsIff(AcceptText(accept), "application/json");
      if Contains(AcceptText(accept), "application/json") || IsPrefix("/tasks", path) then Respond(NOT_LOGGED_IN)
      else Respond(Redirect(LOGIN_PAGE))
  }
}
