/** controllers/auth.js. Password hashing (the pre-save hook) and checking (bcrypt),
    the clock, random bytes and SHA-256 are parameters; the token response is the
    `TokenResponse` reply. */
module AuthController {
  import opened Wrappers
  import opened ErrorResponses
  import opened Http
  import opened Store
  import opened UserModel
  import opened Documents
  import AuthMiddleware

  const CredentialsRequired: string := "Email and Password are required."
  const InvalidCredentials: string := "Invalid credentials."
  const NoUserWithEmail: string := "No user found with provided email."
  /** The logout cookie lives for ten seconds. */
  const LogoutCookieLife: int := 10 * 1000

  datatype Outcome = Outcome(reply: Reply, users: seq<User>)

  /** bcrypt's refusal to compare against a missing hash. */
  const IllegalArguments: ErrorObject :=
    ErrorObject("Error", "Illegal arguments: string, undefined", None, None, [])

  function DataReply(status: int, d: Json): Reply {
    Succeed(status, [("data", d)])
  }

  function UserJson(u: Option<User>): Json {
    if u.Some? then JDoc(UserDoc(u.value)) else JNull
  }

  /** `register`: `create` validates first, then stores the user with the hashed
      password; an email that is already stored violates the unique index. */
  function RegisterOutcome(users: seq<User>, input: UserInput, newId: Id, now: int, hash: string -> string)
    : (o: Outcome)
    ensures ValidationMessages(input) != []
      ==> o == Outcome(Forward(ValidationError(ValidationMessages(input))), users)
    ensures ValidationMessages(input) == [] && input.email.Some?
      && (EmailIndex(users, input.email.value).Some? || UserIndex(users, newId).Some?)
      ==> o == Outcome(Forward(DuplicateKeyError()), users)
    ensures o.reply.TokenResponse? <==>
      && ValidationMessages(input) == []
      && input.email.Some? && EmailIndex(users, input.email.value).None?
      && UserIndex(users, newId).None?
    ensures o.reply.TokenResponse? ==>
      && o.reply == TokenResponse(201, newId)
      && input.name.Some? && input.email.Some? && input.password.Some?
      && o.users == users + [User(newId, input.name.value, input.email.value, RoleOrDefault(input.role),
                                 Some(hash(input.password.value)), None, None, now)]
      && o.users[|users|].role in Roles
    ensures !o.reply.TokenResponse? ==> o.users == users && o.reply.Forward?
  {
    var messages := ValidationMessages(input);
    ValidUserShape(input);
    if messages != [] then Outcome(Forward(ValidationError(messages)), users)
    else if EmailIndex(users, input.email.value).Some? || UserIndex(users, newId).Some? then
      Outcome(Forward(DuplicateKeyError()), users)
    else
      var user := User(newId, input.name.value, input.email.value, RoleOrDefault(input.role),
                       Some(hash(input.password.value)), None, None, now);
      Outcome(TokenResponse(201, newId), users + [user])
  }

  /** `loginUser`. `compare` is `bcrypt.compare(entered, stored)`; the lookup asks for
      the password with `select("+password")`. */
  function Login(users: seq<User>, email: Option<string>, password: Option<string>, compare: (string, string) -> bool)
    : (r: Reply)
    ensures !AuthMiddleware.Truthy(email) || !AuthMiddleware.Truthy(password) ==> r == Fail(CredentialsRequired, 400)
    ensures AuthMiddleware.Truthy(email) && AuthMiddleware.Truthy(password) && EmailIndex(users, email.value).None?
      ==> r == Fail(InvalidCredentials, 401)
    ensures r.TokenResponse? <==>
      && AuthMiddleware.Truthy(email) && AuthMiddleware.Truthy(password)
      && EmailIndex(users, email.value).Some?
      && var u := users[EmailIndex(users, email.value).value];
         u.password.Some? && compare(password.value, u.password.value)
    ensures r.TokenResponse? ==> r == TokenResponse(201, users[EmailIndex(users, email.value).value].id)
    ensures AuthMiddleware.Truthy(email) && AuthMiddleware.Truthy(password) && EmailIndex(users, email.value).Some? ==>
      var u := users[EmailIndex(users, email.value).value];
      && (u.password.None? ==> r == Forward(IllegalArguments))
      && (u.password.Some? && !compare(password.value, u.password.value) ==> r == Fail(InvalidCredentials, 401))
  {
    if !AuthMiddleware.Truthy(email) || !AuthMiddleware.Truthy(password) then Fail(CredentialsRequired, 400)
    else
      var i := EmailIndex(users, email.value);
      if i.None? then Fail(InvalidCredentials, 401)
      else
        var user := users[i.value];
        if user.password.None? then Forward(IllegalArguments)
        else if !compare(password.value, user.password.value) then Fail(InvalidCredentials, 401)
        else TokenResponse(201, user.id)
  }

  /** `getLoggedinUser`: the user `isAuthenticated` loaded, read again by id; a
      `null` user (a token whose user is gone) throws. */
  function GetLoggedinUser(users: seq<User>, requester: Option<User>): (r: Reply)
    ensures requester.None? ==> r.Forward? && r.err.name == "TypeError"
    ensures requester.Some? && IsObjectId(requester.value.id) ==>
      r == DataReply(200, UserJson(FindUser(users, requester.value.id).value))
  {
    if requester.None? then Forward(TypeError("id", false))
    else
      var found := FindUser(users, requester.value.id);
      if found.Failure? then Forward(found.error)
      else DataReply(200, UserJson(found.value))
  }

  /** The user `forgotPassword` saves: the stored one with the reset fields that
      `getResetPasswordToken` wrote. */
  function WithResetFields(u: User, now: int, random: seq<byte>, sha256: string -> string): (v: User)
    ensures v.resetPasswordToken == Some(sha256(Hex(random)))
    ensures v.resetPasswordExpire == Some(now + 600000)
    ensures v.(resetPasswordToken := u.resetPasswordToken, resetPasswordExpire := u.resetPasswordExpire) == u
  {
    u.(resetPasswordToken := Some(sha256(Hex(random))), resetPasswordExpire := Some(now + ResetWindow))
  }

  /** `forgotPassword`. The loaded user has no password (it is not selected); saving
      writes only the two reset fields. */
  function ForgotPasswordOutcome(users: seq<User>, email: string, now: int, random: seq<byte>, sha256: string -> string)
    : (o: Outcome)
    ensures EmailIndex(users, email).None? ==> o == Outcome(Fail(NoUserWithEmail, 400), users)
    ensures EmailIndex(users, email).Some? ==>
      var i := EmailIndex(users, email).value;
      && o.users == users[i := WithResetFields(users[i], now, random, sha256)]
      && o.reply == DataReply(200, JDoc(UserDoc(DefaultSelection(o.users[i]))))
  {
    var i := EmailIndex(users, email);
    if i.None? then Outcome(Fail(NoUserWithEmail, 400), users)
    else
      var saved := WithResetFields(users[i.value], now, random, sha256);
      Outcome(DataReply(200, JDoc(UserDoc(DefaultSelection(saved)))), users[i.value := saved])
  }

  function LogoutCookie(now: int, httpOnly: bool): Cookie {
    Cookie("token", "none", now + LogoutCookieLife, httpOnly)
  }

  /** `logout` as written: the cookie option is spelled `httpsOnly`, which the
      cookie writer does not know, so the cookie is not HTTP-only. */
  function LogoutAsWritten(now: int): (r: Reply)
    ensures r.Respond? && r.status == 200
    ensures r.body == JObj([("success", JBool(true)), ("data", JObj([]))])
    ensures r.cookies == [LogoutCookie(now, false)]
  {
    Respond(200, JObj([("success", JBool(true)), ("data", JObj([]))]), [LogoutCookie(now, false)])
  }

  /** `logout` with the cookie option spelled `httpOnly`. */
  function Logout(now: int): (r: Reply)
    ensures r.Respond? && r.status == 200
    ensures r.body == JObj([("success", JBool(true)), ("data", JObj([]))])
    ensures r.cookies == [LogoutCookie(now, true)]
  {
    Respond(200, JObj([("success", JBool(true)), ("data", JObj([]))]), [LogoutCookie(now, true)])
  }

  // ---------------------------------------------------------------------------
  // The handlers that write the store.

  method Register(store: Store, input: UserInput, newId: Id, now: int, hash: string -> string)
    returns (reply: Reply)
    modifies store
    ensures Outcome(reply, store.users) == RegisterOutcome(old(store.users), input, newId, now, hash)
    ensures store.bootcamps == old(store.bootcamps) && store.courses == old(store.courses)
  {
    var messages := ValidationMessages(input);
    if messages != [] {
      return Forward(ValidationError(messages));
    }
    ValidUserShape(input);
    var password := hash(input.password.value);
    var user := User(newId, input.name.value, input.email.value, RoleOrDefault(input.role),
                     Some(password), None, None, now);
    if EmailIndex(store.users, user.email).Some? || UserIndex(store.users, newId).Some? {
      return Forward(DuplicateKeyError());
    }
    store.users := store.users + [user];
    reply := TokenResponse(201, newId);
  }

  method ForgotPassword(store: Store, email: string, now: int, random: seq<byte>, sha256: string -> string)
    returns (reply: Reply)
    requires |random| == TokenBytes
    modifies store
    ensures Outcome(reply, store.users) == ForgotPasswordOutcome(old(store.users), email, now, random, sha256)
    ensures store.bootcamps == old(store.bootcamps) && store.courses == old(store.courses)
  {
    var i := EmailIndex(store.users, email);
    if i.None? {
      return Fail(NoUserWithEmail, 400);
    }
    var doc := new UserDocument(DefaultSelection(store.users[i.value]));
    var resetToken := doc.GetResetPasswordToken(now, random, sha256);
    var stored := store.users[i.value];
    stored := stored.(resetPasswordToken := doc.user.resetPasswordToken,
                      resetPasswordExpire := doc.user.resetPasswordExpire);
    store.users := store.users[i.value := stored];
    reply := DataReply(200, JDoc(UserDoc(doc.user)));
  }

  // ---------------------------------------------------------------------------
  // Properties.

  /** An unknown email and a wrong password get the identical reply. */
  lemma FailedLoginsAlike(
      users: seq<User>, unknown: string, known: string, password: string, compare: (string, string) -> bool)
    requires unknown != "" && known != "" && password != ""
    requires EmailIndex(users, unknown).None?
    requires EmailIndex(users, known).Some?
    requires var u := users[EmailIndex(users, known).value];
      u.password.Some? && !compare(password, u.password.value)
    ensures Login(users, Some(unknown), Some(password), compare)
      == Login(users, Some(known), Some(password), compare)
      == Fail(InvalidCredentials, 401)
  {
  }

  /** Missing credentials are refused before the store is consulted: the reply is the
      same whatever users are stored. */
  lemma MissingCredentialsFirst(
      users1: seq<User>, users2: seq<User>, email: Option<string>, compare: (string, string) -> bool)
    ensures Login(users1, email, None, compare) == Login(users2, email, None, compare)
      == Fail(CredentialsRequired, 400)
    ensures Login(users1, None, email, compare) == Fail(CredentialsRequired, 400)
  {
  }

  /** Registering and then logging in with the same password succeeds, with the same
      201 token response for the new user. */
  lemma RegisterThenLogin(
      users: seq<User>, input: UserInput, newId: Id, now: int, hash: string -> string,
      compare: (string, string) -> bool)
    requires RegisterOutcome(users, input, newId, now, hash).reply.TokenResponse?
    requires forall p :: compare(p, hash(p))
    ensures input.email.Some? && input.password.Some?
    ensures Login(RegisterOutcome(users, input, newId, now, hash).users, input.email, input.password, compare)
      == TokenResponse(201, newId)
  {
    var after := RegisterOutcome(users, input, newId, now, hash).users;
    ValidUserShape(input);
    var email := input.email.value;
    EmailIndexAppend(users, after[|users|], email);
    assert after == users + [after[|users|]];
    assert input.password.value != "";
    assert input.email.value != "" by {
      EmailPattern.AcceptedHasOneAt(email);
    }
  }

  lemma {:induction false} EmailIndexAppend(users: seq<User>, u: User, email: string)
    requires EmailIndex(users, email).None? && u.email == email
    ensures EmailIndex(users + [u], email) == Some(|users|)
  {
    if |users| > 0 {
      assert (users + [u])[1..] == users[1..] + [u];
      EmailIndexAppend(users[1..], u, email);
    }
  }

  /** A reset leaves every other user as stored, keeps the password, and the reply
      never shows a password. */
  lemma ResetTouchesOneUser(users: seq<User>, email: string, now: int, random: seq<byte>, sha256: string -> string)
    requires EmailIndex(users, email).Some?
    ensures var o := ForgotPasswordOutcome(users, email, now, random, sha256);
      var i := EmailIndex(users, email).value;
      && |o.users| == |users|
      && (forall j :: 0 <= j < |users| && j != i ==> o.users[j] == users[j])
      && o.users[i].password == users[i].password
      && o.reply.body.members[1].1.doc.user.password.None?
  {
  }

  /** The finding: as written the logout cookie can be read by scripts; spelled as
      intended it cannot. Everything else about the two replies is the same. */
  lemma LogoutCookieFlag(now: int)
    ensures !LogoutAsWritten(now).cookies[0].httpOnly
    ensures Logout(now).cookies[0].httpOnly
    ensures Logout(now) == LogoutAsWritten(now).(cookies := [LogoutAsWritten(now).cookies[0].(httpOnly := true)])
  {
  }
}
