/** middleware/auth.js. `isAuthenticated` takes the token from an `Authorization`
    header that starts with "Bearer" (its second space-separated piece) or else from
    the `token` cookie, verifies it (the JSON Web Token check is a parameter) and
    loads the user it names into the request; `authorize(...roles)` lets a request
    through when the loaded user's role is one of `roles`. */
module AuthMiddleware {
  import opened Wrappers
  import opened Strings
  import opened ErrorResponses
  import opened Http
  import opened UserModel
  import opened Store

  const NotAuthorized: string := "Not authorized to access the resource"

  /** The roles routes/bootcamps.js and routes/courses.js admit to every write. */
  const WriterRoles: seq<string> := ["publisher", "admin"]

  /** A string value as a JavaScript condition: present and not empty. */
  predicate Truthy(v: Option<string>) {
    v.Some? && v.value != ""
  }

  predicate BearerHeader(authorization: Option<string>) {
    Truthy(authorization) && StartsWith(authorization.value, "Bearer")
  }

  /** The token the request carries, if any (`undefined` is `None`). */
  function TokenOf(authorization: Option<string>, cookie: Option<string>): Option<string> {
    if BearerHeader(authorization) then
      var pieces := Split(authorization.value, ' ');
      if |pieces| > 1 then Some(pieces[1]) else None
    else if Truthy(cookie) then cookie
    else None
  }

  /** The request as the middleware sees it: the header, the cookie, and `req.user`,
      which `isAuthenticated` sets (`None` is `null`, a token whose user is gone). */
  class Request {
    var authorization: Option<string>
    var cookieToken: Option<string>
    var user: Option<User>

    constructor (authorization: Option<string>, cookieToken: Option<string>)
      ensures this.authorization == authorization && this.cookieToken == cookieToken
      ensures user.None?
    {
      this.authorization := authorization;
      this.cookieToken := cookieToken;
      user := None;
    }
  }

  /** `isAuthenticated`. `verify` is `jwt.verify` with the server's secret: the id in
      a valid token, `None` when it throws. A failed verification, and a lookup that
      throws, end in the `catch`, which builds an error without passing it on, so the
      request is left unanswered. */
  method IsAuthenticated(req: Request, verify: string -> Option<Id>, store: Store) returns (reply: Reply)
    modifies req
    ensures req.authorization == old(req.authorization) && req.cookieToken == old(req.cookieToken)
    ensures var t := TokenOf(req.authorization, req.cookieToken);
      && (!Truthy(t) ==> reply == Fail(NotAuthorized, 401) && req.user == old(req.user))
      && (Truthy(t) && (verify(t.value).None? || !IsObjectId(verify(t.value).value)) ==>
            reply == Unanswered && req.user == old(req.user))
      && (Truthy(t) && verify(t.value).Some? && IsObjectId(verify(t.value).value) ==>
            reply == PassOn && Success(req.user) == FindUser(store.users, verify(t.value).value))
  {
    var token: Option<string> := None;
    if Truthy(req.authorization) && StartsWith(req.authorization.value, "Bearer") {
      var pieces := Split(req.authorization.value, ' ');
      token := if |pieces| > 1 then Some(pieces[1]) else None;
    } else if Truthy(req.cookieToken) {
      token := req.cookieToken;
    }
    if !Truthy(token) {
      return Fail(NotAuthorized, 401);
    }
    var decoded := verify(token.value);
    if decoded.None? {
      return Unanswered;
    }
    var found := FindUser(store.users, decoded.value);
    if found.Failure? {
      return Unanswered;
    }
    req.user := found.value;
    reply := PassOn;
  }

  /** `authorize(...roles)`. Reading the role of a `null` user throws, and Express
      passes the error on. */
  function Authorize(roles: seq<string>, user: Option<User>): (r: Reply)
    ensures r == PassOn <==> user.Some? && user.value.role in roles
    ensures user.Some? && user.value.role !in roles ==> r == Fail(NotAuthorized, 403)
    ensures user.None? ==> r.Forward? && r.err.name == "TypeError"
  {
    if user.None? then Forward(TypeError("role", false))
    else if user.value.role !in roles then Fail(NotAuthorized, 403)
    else PassOn
  }

  // ---------------------------------------------------------------------------
  // Properties of the token choice.

  /** With a header `Bearer <token>` the token is the piece after the first space,
      whatever the cookie holds. */
  lemma BearerWins(token: string, rest: string, cookie: Option<string>)
    requires ' ' !in token
    requires |rest| == 0 || rest[0] == ' '
    ensures TokenOf(Some("Bearer " + token + rest), cookie) == Some(token)
  {
    var header := "Bearer " + token + rest;
    assert header[..6] == "Bearer";
    assert header == "Bearer" + [' '] + (token + rest);
    SplitAfterFirst("Bearer", token + rest, ' ');
    SplitFirstPiece(token, rest, ' ');
  }

  /** The cookie is read only when there is no header or the header does not start
      with "Bearer". */
  lemma CookieFallback(authorization: Option<string>, cookie: Option<string>)
    requires !BearerHeader(authorization)
    ensures TokenOf(authorization, cookie) == (if Truthy(cookie) then cookie else None)
  {
  }

  /** A header that is just "Bearer", or has two spaces after it, carries no token,
      and then the cookie is not looked at: the reply is 401. */
  lemma BearerWithoutToken(x: string, cookie: Option<string>)
    ensures !Truthy(TokenOf(Some("Bearer"), cookie))
    ensures !Truthy(TokenOf(Some("Bearer  " + x), cookie))
  {
    BearerAlone(cookie);
    BearerDoubleSpace(x, cookie);
  }

  lemma BearerAlone(cookie: Option<string>)
    ensures !Truthy(TokenOf(Some("Bearer"), cookie))
  {
    assert "Bearer"[..6] == "Bearer";
    SplitWithoutSeparator("Bearer", ' ');
  }

  lemma BearerDoubleSpace(x: string, cookie: Option<string>)
    ensures !Truthy(TokenOf(Some("Bearer  " + x), cookie))
  {
    BearerPrefix(x);
    SplitAfterFirst("Bearer", [' '] + x, ' ');
    SplitFirstPiece("", [' '] + x, ' ');
    assert "" + ([' '] + x) == [' '] + x;
  }

  lemma BearerPrefix(x: string)
    ensures ("Bearer  " + x)[..6] == "Bearer"
    ensures "Bearer  " + x == "Bearer" + [' '] + ([' '] + x)
  {
  }

  /** A user who registered is a `user` or a `publisher`; of those only a publisher
      passes the gate on the write routes. */
  lemma WritersAmongRegistered(input: UserInput, u: User)
    requires ValidationMessages(input) == []
    requires u.role == RoleOrDefault(input.role)
    ensures Authorize(WriterRoles, Some(u)) == PassOn <==> u.role == "publisher"
  {
    ValidUserShape(input);
  }
}
