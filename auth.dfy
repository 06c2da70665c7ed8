/**
 * `verifyJWT` (src/middlewares/auth.middleware.js): picks the access token
 * from the cookie or the Authorization header, verifies it, and resolves the
 * user it names, without the password hash and the refresh token.
 */
module Auth {
  import opened ApiErrors
  import opened Text
  import opened Store

  /**
   * What `jwt.verify(token, secret)` gives: the `_id` claim of a token whose
   * signature and expiry check out, or the message of the error it throws.
   * Signing and verification themselves are outside the model.
   */
  datatype Verification = Verified(id: Id) | Rejected(reason: string)

  const BearerPrefix := "Bearer "

  /** `req.cookies?.accessToken || req.header("Authorization")?.replace("Bearer ", "")`. */
  function ExtractToken(cookie: Option<string>, authorization: Option<string>): (t: Option<string>)
    ensures Truthy(cookie) ==> t == cookie
    ensures t.None? <==> !Truthy(cookie) && authorization.None?
    ensures !Truthy(cookie) && authorization.Some? && (forall k: nat :: !OccursAt(authorization.value, BearerPrefix, k)) ==>
      t == authorization
  {
    if Truthy(cookie) then cookie
    else if authorization.Some? then Some(ReplaceFirst(authorization.value, BearerPrefix, ""))
    else None
  }

  /** A non-empty cookie token wins over whatever the header holds. */
  lemma CookieTakesPrecedence(cookie: Option<string>, authorization: Option<string>)
    requires Truthy(cookie)
    ensures ExtractToken(cookie, authorization) == cookie
  {
  }

  /** Without a cookie token, a header `Bearer <t>` yields exactly `t`. */
  lemma BearerHeaderStripped(cookie: Option<string>, t: string)
    requires !Truthy(cookie)
    ensures ExtractToken(cookie, Some(BearerPrefix + t)) == Some(t)
  {
    ReplaceFirstStripsPrefix(BearerPrefix, t);
  }

  /** The message the `catch` rethrows: the caught error's message, or the fallback when it has none. */
  function CaughtMessage(reason: string): (m: string)
    ensures m != ""
  {
    if reason == "" then "Invaid access token" else reason
  }

  /**
   * The whole middleware. `Ok(u)` is the request continuing, once, with
   * `req.user == u`; every failure, whichever check raised it, is rethrown
   * by the `catch` as a 401.
   */
  function Authenticate(users: map<Id, User>, cookie: Option<string>, authorization: Option<string>,
                        verify: string -> Verification): (r: Result<PublicUser>)
    ensures !Truthy(ExtractToken(cookie, authorization)) ==> r.IsError(401)
    ensures !r.Ok? ==> r.IsError(401)
    ensures r.Ok? <==>
      var token := ExtractToken(cookie, authorization);
      Truthy(token) && verify(token.value).Verified? && verify(token.value).id in users
    ensures r.Ok? ==>
      var id := verify(ExtractToken(cookie, authorization).value).id;
      r.value == Public(id, users[id])
  {
    var token := ExtractToken(cookie, authorization);
    if !Truthy(token) then
      Fail(401, "Unauthorized request")
    else
      match verify(token.value)
      case Rejected(reason) => Fail(401, CaughtMessage(reason))
      case Verified(id) =>
        if id !in users then Fail(401, "Invalid access Token")
        else Ok(Public(id, users[id]))
  }
}
