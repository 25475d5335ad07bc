/**
 * The routing decision of middleware.ts: which requests reach an admin page,
 * which are sent to the login page, and when the stored token is dropped.
 */
module Middleware {
  import opened Wrappers
  import Auth

  const ADMIN_PATH: string := "/admin"
  const LOGIN_PATH: string := "/admin/login"

  /** `NextResponse.next()` or a redirect, possibly deleting the `admin_token` cookie. */
  datatype Decision = Next | Redirect(location: string, deleteCookie: bool)

  /** Paths the gate leaves alone: outside `/admin`, or the login page itself. */
  predicate Unprotected(path: string) {
    !(ADMIN_PATH <= path) || path == LOGIN_PATH
  }

  /**
   * `middleware`: `cookie` is the value of the `admin_token` cookie when the
   * request carries one; the token check is `verifyAuth` with its clock and decoder.
   */
  function Route(path: string, cookie: Option<string>, nowMs: nat,
                 decode: string -> Option<Auth.Claims>): (d: Decision)
    ensures d.Redirect? ==> d.location == LOGIN_PATH
    ensures d.Redirect? && d.deleteCookie ==> cookie.Some?
  {
    if Unprotected(path) then Next
    else if cookie.None? then Redirect(LOGIN_PATH, false)
    else if !Auth.VerifyAuth(cookie.value, nowMs, decode) then Redirect(LOGIN_PATH, true)
    else Next
  }

  /** Paths outside `/admin` and the login page pass whatever the cookie. */
  lemma UnprotectedPasses(path: string, cookie: Option<string>, nowMs: nat, decode: string -> Option<Auth.Claims>)
    requires !(ADMIN_PATH <= path) || path == LOGIN_PATH
    ensures Route(path, cookie, nowMs, decode) == Next
  {
  }

  /**
   * The gate's guarantee: a protected path is served exactly when the request
   * carries a token `verifyAuth` accepts; otherwise it goes to the login page,
   * and the cookie is deleted exactly when a token was there and was refused.
   */
  lemma ProtectedPathNeedsValidToken(path: string, cookie: Option<string>, nowMs: nat,
                                     decode: string -> Option<Auth.Claims>)
    requires ADMIN_PATH <= path && path != LOGIN_PATH
    ensures Route(path, cookie, nowMs, decode) == Next
        <==> cookie.Some? && Auth.VerifyAuth(cookie.value, nowMs, decode)
    ensures cookie.None? ==> Route(path, cookie, nowMs, decode) == Redirect(LOGIN_PATH, false)
    ensures cookie.Some? && !Auth.VerifyAuth(cookie.value, nowMs, decode)
        ==> Route(path, cookie, nowMs, decode) == Redirect(LOGIN_PATH, true)
  {
  }

  /** A valid token is never deleted: the cookie is dropped only on a refused token. */
  lemma ValidTokenKept(path: string, token: string, nowMs: nat, decode: string -> Option<Auth.Claims>)
    requires Auth.VerifyAuth(token, nowMs, decode)
    ensures Route(path, Some(token), nowMs, decode) == Next
  {
  }
}
