/**
 * src/controllers/user.controller.js: registration, the session (login,
 * logout, refresh-token rotation), password and account changes, and the
 * channel profile with its subscription counts.
 */
module Users {
  import opened ApiErrors
  import opened Text
  import opened Store
  import opened Auth
  import opened Toggle
  import opened Subscriptions

  datatype TokenPair = TokenPair(accessToken: string, refreshToken: string)

  /** The user with its refresh token replaced; nothing else about the users changes. */
  function WithRefreshToken(users: map<Id, User>, id: Id, token: Option<string>): (r: map<Id, User>)
    requires id in users
    ensures r.Keys == users.Keys
    ensures forall k :: k in users && k != id ==> r[k] == users[k]
    ensures r[id].refreshToken == token && r[id] == users[id].(refreshToken := token)
  {
    users[id := users[id].(refreshToken := token)]
  }

  /** Changing a refresh token touches no username or email, so the handles stay unique. */
  lemma WithRefreshTokenKeepsHandles(users: map<Id, User>, id: Id, token: Option<string>)
    requires id in users && UniqueHandles(users)
    ensures UniqueHandles(WithRefreshToken(users, id, token))
  {
    ReplaceUserKeepsHandlesUnique(users, id, users[id].(refreshToken := token));
  }

  /**
   * `generateAccessAndRefreshToken`: the two signed tokens are given (signing
   * is outside the model); the refresh token is stored on the user. Any
   * failure, a missing user included, is rethrown as a 500.
   */
  method IssueTokens(db: Db, userId: Id, accessToken: string, refreshToken: string) returns (r: Result<TokenPair>)
    requires db.Valid()
    modifies db
    ensures db.Valid()
    ensures r.Ok? <==> userId in old(db.users)
    ensures !r.Ok? ==> r.IsError(500) && unchanged(db)
    ensures r.Ok? ==>
      && r.value == TokenPair(accessToken, refreshToken)
      && db.Contents() == old(db.Contents()).(users := WithRefreshToken(old(db.users), userId, Some(refreshToken)))
  {
    if userId !in db.users {
      r := Fail(500, "Something went wrong while generating access and refresh token");
      return;
    }
    WithRefreshTokenKeepsHandles(db.users, userId, Some(refreshToken));
    db.users := WithRefreshToken(db.users, userId, Some(refreshToken));
    r := Ok(TokenPair(accessToken, refreshToken));
  }

  // ---------------------------------------------------------------- register

  datatype RegistrationForm = RegistrationForm(email: Option<string>, username: Option<string>, password: Option<string>, fullName: Option<string>)

  /** `[email, username, password, fullName].some(f => f?.trim() === "")`: an absent field does not count as blank. */
  predicate HasBlankField(f: RegistrationForm) {
    BlankAfterTrim(f.email) || BlankAfterTrim(f.username) || BlankAfterTrim(f.password) || BlankAfterTrim(f.fullName)
  }

  predicate IsComplete(f: RegistrationForm) {
    f.email.Some? && f.username.Some? && f.password.Some? && f.fullName.Some?
  }

  /**
   * `User.findOne({$or: [{username}, {email}]})` finds someone. The schema
   * setters normalise both query values; an absent field matches no user.
   */
  predicate HandleTaken(users: map<Id, User>, f: RegistrationForm) {
    exists id :: id in users &&
      ((f.username.Some? && users[id].username == Normalize(f.username.value))
       || (f.email.Some? && users[id].email == Normalize(f.email.value)))
  }

  /**
   * The document `User.create` stores: username and email through the
   * schema setters (the explicit `toLowerCase` on the username is subsumed
   * by them), the full name trimmed, the password hashed by the save hook,
   * the avatar url, and the cover url or "".
   */
  function NewUser(f: RegistrationForm, avatarUrl: string, coverUrl: Option<string>): (u: User)
    requires IsComplete(f)
    ensures IsNormalized(u.username) && IsNormalized(u.email)
    ensures PasswordMatches(u.password, f.password.value)
    ensures u.refreshToken.None?
  {
    User(Normalize(f.username.value), Normalize(f.email.value), Trim(f.fullName.value), avatarUrl,
         if Truthy(coverUrl) then coverUrl.value else "", HashOf(f.password.value), None)
  }

  /**
   * Once a form has registered, the same form finds its handles taken: a
   * second registration with it is a 409.
   */
  lemma SecondRegistrationConflicts(users: map<Id, User>, newId: Id, f: RegistrationForm, avatarUrl: string, coverUrl: Option<string>)
    requires IsComplete(f)
    ensures HandleTaken(users[newId := NewUser(f, avatarUrl, coverUrl)], f)
  {
    var after := users[newId := NewUser(f, avatarUrl, coverUrl)];
    assert newId in after && after[newId].username == Normalize(f.username.value);
  }

  /**
   * `registerUser`. `avatarLocalPath` is the path multer gives for the
   * avatar; `avatarUrl` and `coverUrl` are the urls the media host returns
   * for the two uploads (none when an upload gives nothing); `newId` is the
   * id the database assigns. The checks run in the source's order: a blank
   * field (400), a taken username or email (409), no avatar file (400), a
   * failed avatar upload (400); a field that is absent altogether passes
   * them and fails at creation (a TypeError for the username, a validation
   * error for the others).
   */
  method Register(db: Db, newId: Id, form: RegistrationForm, avatarLocalPath: Option<string>,
                  avatarUrl: Option<string>, coverUrl: Option<string>) returns (r: Result<PublicUser>)
    requires db.Valid() && newId !in db.users
    modifies db
    ensures db.Valid()
    ensures HasBlankField(form) ==> r.IsError(400)
    ensures !HasBlankField(form) && HandleTaken(old(db.users), form) ==> r.IsError(409)
    ensures !HasBlankField(form) && !HandleTaken(old(db.users), form) && (!Truthy(avatarLocalPath) || avatarUrl.None?) ==>
      r.IsError(400)
    ensures !HasBlankField(form) && !HandleTaken(old(db.users), form) && Truthy(avatarLocalPath) && avatarUrl.Some? ==>
      (r.Ok? <==> IsComplete(form)) && (r.Unhandled? <==> !IsComplete(form))
    ensures r.Ok? ==>
      && IsComplete(form)
      && var u := NewUser(form, avatarUrl.value, coverUrl);
      && r.value == Public(newId, u)
      && db.Contents() == old(db.Contents()).(users := old(db.users)[newId := u])
    ensures !r.Ok? ==> unchanged(db)
  {
    if HasBlankField(form) {
      r := Fail(400, "All fields are required");
      return;
    }
    if HandleTaken(db.users, form) {
      r := Fail(409, "User with email or username already exists");
      return;
    }
    if !Truthy(avatarLocalPath) || avatarUrl.None? {
      r := Fail(400, "Avatar file is required");
      return;
    }
    if form.username.None? {
      r := Unhandled("TypeError");
      return;
    }
    if !IsComplete(form) {
      r := Unhandled("ValidationError");
      return;
    }
    var u := NewUser(form, avatarUrl.value, coverUrl);
    FreeHandlesStayUnique(db.users, newId, form, u);
    UsersWriteKeepsConsistent(db.Contents(), db.users[newId := u]);
    db.users := db.users[newId := u];
    r := Ok(Public(newId, u));
  }

  /** A new user whose handles the duplicate check did not find keeps the handles unique. */
  lemma FreeHandlesStayUnique(users: map<Id, User>, newId: Id, f: RegistrationForm, u: User)
    requires UniqueHandles(users) && newId !in users && IsComplete(f) && !HandleTaken(users, f)
    requires u.username == Normalize(f.username.value) && u.email == Normalize(f.email.value)
    ensures UniqueHandles(users[newId := u])
  {
    AddUserKeepsHandlesUnique(users, newId, u);
  }

  // ------------------------------------------------------------------- login

  datatype LoginForm = LoginForm(email: Option<string>, username: Option<string>, password: Option<string>)

  /** A user matched by `User.findOne({$or: [{email}, {username}]})`: an absent field matches no user. */
  predicate MatchesLogin(u: User, f: LoginForm) {
    (f.email.Some? && u.email == Normalize(f.email.value)) || (f.username.Some? && u.username == Normalize(f.username.value))
  }

  /**
   * A stored user is found by its own username or email, and by any
   * spelling the setters map to them (upper case, padding).
   */
  lemma StoredHandleMatchesLogin(u: User, username: string, email: string, password: Option<string>)
    requires IsNormalized(u.username) && IsNormalized(u.email)
    ensures MatchesLogin(u, LoginForm(None, Some(u.username), password))
    ensures MatchesLogin(u, LoginForm(Some(u.email), None, password))
    ensures Normalize(username) == u.username ==> MatchesLogin(u, LoginForm(None, Some(username), password))
    ensures Normalize(email) == u.email ==> MatchesLogin(u, LoginForm(Some(email), None, password))
  {
    NormalizedIsFixedPoint(u.username);
    NormalizedIsFixedPoint(u.email);
  }

  ghost predicate SomeUserMatches(users: map<Id, User>, f: LoginForm) {
    exists id :: id in users && MatchesLogin(users[id], f)
  }

  datatype LoginData = LoginData(user: PublicUser, refreshToken: string, accessToken: string)

  /**
   * `loginUser`: neither username nor email (400), no matching user (400),
   * no password (400), a wrong password (401); otherwise tokens are issued
   * for the user `findOne` returned. When the email and the username match
   * two different users, which one `findOne` returns is not determined.
   */
  method Login(db: Db, form: LoginForm, accessToken: string, refreshToken: string) returns (r: Result<LoginData>)
    requires db.Valid()
    modifies db
    ensures db.Valid()
    ensures !Truthy(form.username) && !Truthy(form.email) ==> r.IsError(400)
    ensures (Truthy(form.username) || Truthy(form.email)) && !SomeUserMatches(old(db.users), form) ==> r.IsError(400)
    ensures (Truthy(form.username) || Truthy(form.email)) && SomeUserMatches(old(db.users), form) && !Truthy(form.password) ==>
      r.IsError(400)
    ensures r.IsError(401) ==>
      && Truthy(form.password)
      && (exists id :: id in old(db.users) && MatchesLogin(old(db.users)[id], form)
            && !PasswordMatches(old(db.users)[id].password, form.password.value))
    ensures r.Ok? ==>
      && Truthy(form.password)
      && (exists id :: id in old(db.users) && MatchesLogin(old(db.users)[id], form)
            && PasswordMatches(old(db.users)[id].password, form.password.value)
            && r.value == LoginData(Public(id, old(db.users)[id]), refreshToken, accessToken)
            && db.Contents() == old(db.Contents()).(users := WithRefreshToken(old(db.users), id, Some(refreshToken))))
    ensures (Truthy(form.username) || Truthy(form.email)) && SomeUserMatches(old(db.users), form) && Truthy(form.password) ==>
      r.Ok? || r.IsError(401)
    ensures (Truthy(form.username) || Truthy(form.email)) && SomeUserMatches(old(db.users), form) && Truthy(form.password)
            && (forall id :: id in old(db.users) && MatchesLogin(old(db.users)[id], form) ==>
                  PasswordMatches(old(db.users)[id].password, form.password.value)) ==>
      r.Ok?
    ensures (Truthy(form.username) || Truthy(form.email)) && SomeUserMatches(old(db.users), form) && Truthy(form.password)
            && (forall id :: id in old(db.users) && MatchesLogin(old(db.users)[id], form) ==>
                  !PasswordMatches(old(db.users)[id].password, form.password.value)) ==>
      r.IsError(401)
    ensures r.Ok? || r.IsError(400) || r.IsError(401)
    ensures !r.Ok? ==> unchanged(db)
  {
    if !Truthy(form.username) && !Truthy(form.email) {
      r := Fail(400, "username or email is required");
      return;
    }
    if !exists id :: id in db.users && MatchesLogin(db.users[id], form) {
      r := Fail(400, "User does not exists");
      return;
    }
    var id :| id in db.users && MatchesLogin(db.users[id], form);
    if !Truthy(form.password) {
      r := Fail(400, "password is required");
      return;
    }
    if !PasswordMatches(db.users[id].password, form.password.value) {
      r := Fail(401, "Invalid user credentials");
      return;
    }
    ghost var before := db.users;
    var issued := IssueTokens(db, id, accessToken, refreshToken);
    r := Ok(LoginData(Public(id, db.users[id]), refreshToken, accessToken));
    assert Public(id, db.users[id]) == Public(id, before[id]);
  }

  // ------------------------------------------------------------------ logout

  /** `logoutUser`: the caller's refresh token is unset; a caller no longer stored changes nothing. */
  method Logout(db: Db, caller: Id) returns (r: Result<()>)
    requires db.Valid()
    modifies db
    ensures db.Valid()
    ensures r.Ok?
    ensures caller in old(db.users) ==>
      db.Contents() == old(db.Contents()).(users := WithRefreshToken(old(db.users), caller, None))
    ensures caller !in old(db.users) ==> unchanged(db)
  {
    if caller in db.users {
      WithRefreshTokenKeepsHandles(db.users, caller, None);
      db.users := WithRefreshToken(db.users, caller, None);
    }
    r := Ok(());
  }

  // ----------------------------------------------------------------- refresh

  /** `req.cookies.refreshToken || req.body.refreshToken`. */
  function IncomingRefreshToken(cookie: Option<string>, body: Option<string>): (t: Option<string>)
    ensures Truthy(cookie) ==> t == cookie
    ensures !Truthy(cookie) ==> t == body
  {
    if Truthy(cookie) then cookie else body
  }

  /**
   * The checks inside the `try` of `refreshAccessToken`: the token must
   * verify, name a stored user, and be exactly the refresh token stored on
   * that user. The `catch` turns every failure into a 401.
   */
  function RefreshCheck(users: map<Id, User>, incoming: string, verify: string -> Verification): (r: Result<Id>)
    ensures r.Ok? <==>
      verify(incoming).Verified? && verify(incoming).id in users && users[verify(incoming).id].refreshToken == Some(incoming)
    ensures r.Ok? ==> r.value == verify(incoming).id
    ensures !r.Ok? ==> r.IsError(401)
  {
    match verify(incoming)
    case Rejected(reason) => Fail(401, if reason == "" then "Invalid refresh token" else reason)
    case Verified(id) =>
      if id !in users then Fail(401, "Invalid refresh token")
      else if users[id].refreshToken != Some(incoming) then Fail(401, "Refresh token is expired or Invalid")
      else Ok(id)
  }

  /** After logout no refresh token of that user is accepted, however validly signed. */
  lemma LogoutRevokesRefresh(users: map<Id, User>, id: Id, token: string, verify: string -> Verification)
    requires id in users && verify(token) == Verified(id)
    ensures RefreshCheck(WithRefreshToken(users, id, None), token, verify).IsError(401)
  {
  }

  /** After a rotation the previous refresh token is refused; the new one is accepted. */
  lemma RotationRejectsPrevious(users: map<Id, User>, id: Id, previous: string, next: string, verify: string -> Verification)
    requires id in users && previous != next
    requires verify(previous) == Verified(id) && verify(next) == Verified(id)
    ensures RefreshCheck(WithRefreshToken(users, id, Some(next)), previous, verify).IsError(401)
    ensures RefreshCheck(WithRefreshToken(users, id, Some(next)), next, verify) == Ok(id)
  {
  }

  /**
   * `refreshAccessToken`, with the destructuring corrected (see
   * `RefreshResponseAsWritten`): no incoming token is a 400; any failed
   * check is a 401; otherwise a new pair is issued and the new refresh token
   * is stored and delivered.
   */
  method Refresh(db: Db, cookie: Option<string>, body: Option<string>, verify: string -> Verification,
                 accessToken: string, refreshToken: string) returns (r: Result<TokenPair>)
    requires db.Valid()
    modifies db
    ensures db.Valid()
    ensures !Truthy(IncomingRefreshToken(cookie, body)) ==> r.IsError(400)
    ensures Truthy(IncomingRefreshToken(cookie, body)) ==>
      var check := RefreshCheck(old(db.users), IncomingRefreshToken(cookie, body).value, verify);
      && (r.Ok? <==> check.Ok?)
      && (!r.Ok? ==> r.IsError(401))
      && (r.Ok? ==>
            r.value == TokenPair(accessToken, refreshToken) &&
            db.Contents() == old(db.Contents()).(users := WithRefreshToken(old(db.users), check.value, Some(refreshToken))))
    ensures !r.Ok? ==> unchanged(db)
  {
    var incoming := IncomingRefreshToken(cookie, body);
    if !Truthy(incoming) {
      r := Fail(400, "unauthorized request");
      return;
    }
    var check := RefreshCheck(db.users, incoming.value, verify);
    match check
    case Ok(id) =>
      r := IssueTokens(db, id, accessToken, refreshToken);
    case Err(e) =>
      r := Err(e);
    case Unhandled(x) =>
      r := Unhandled(x);
  }

  /**
   * The refresh token a successful refresh delivers is the one it stored, so
   * the next refresh with it passes the checks (given the signature still
   * verifies).
   */
  lemma RefreshedTokenAcceptedNext(users: map<Id, User>, id: Id, next: string, verify: string -> Verification)
    requires id in users && verify(next) == Verified(id)
    ensures RefreshCheck(WithRefreshToken(users, id, Some(next)), RefreshResponse(TokenPair("", next)).newRefreshToken.value, verify) == Ok(id)
  {
  }

  /** What the client receives from a refresh: the access token and the refresh token it should present next. */
  datatype RefreshDelivery = RefreshDelivery(accessToken: Option<string>, newRefreshToken: Option<string>)

  /** The object `generateAccessAndRefreshToken` resolves to, as a JavaScript object. */
  function IssuedObject(p: TokenPair): map<string, string> {
    map["accessToken" := p.accessToken, "refreshToken" := p.refreshToken]
  }

  /** Reading a property: `undefined` when the object has no such key. */
  function Property(obj: map<string, string>, key: string): Option<string> {
    if key in obj then Some(obj[key]) else None
  }

  /**
   * `const { accessToken, newRefreshToken } = await generateAccessAndRefreshToken(...)`:
   * the object has no key `newRefreshToken`, so that binding is `undefined`.
   */
  function RefreshResponseAsWritten(p: TokenPair): (d: RefreshDelivery)
    ensures d.accessToken == Some(p.accessToken)
    ensures d.newRefreshToken.None?
  {
    assert "newRefreshToken" !in IssuedObject(p);
    RefreshDelivery(Property(IssuedObject(p), "accessToken"), Property(IssuedObject(p), "newRefreshToken"))
  }

  /** `res.cookie(name, undefined)` serialises the value as the text "undefined". */
  function CookieValue(v: Option<string>): string {
    if v.Some? then v.value else "undefined"
  }

  /**
   * As written, the refresh token just stored is never delivered: the
   * response body lacks it, the cookie holds the text "undefined", and that
   * text is refused by the next refresh unless it happens to verify.
   */
  lemma RefreshAsWrittenLosesToken(users: map<Id, User>, id: Id, p: TokenPair, verify: string -> Verification)
    requires id in users && p.refreshToken != "undefined"
    requires verify("undefined").Rejected?
    ensures RefreshResponseAsWritten(p).accessToken == Some(p.accessToken)
    ensures RefreshResponseAsWritten(p).newRefreshToken.None?
    ensures RefreshCheck(WithRefreshToken(users, id, Some(p.refreshToken)),
                         CookieValue(RefreshResponseAsWritten(p).newRefreshToken), verify).IsError(401)
  {
    assert "newRefreshToken" !in IssuedObject(p);
  }

  /** `const { accessToken, refreshToken: newRefreshToken } = ...`: both tokens delivered. */
  function RefreshResponse(p: TokenPair): (d: RefreshDelivery)
    ensures d.accessToken == Some(p.accessToken) && d.newRefreshToken == Some(p.refreshToken)
  {
    RefreshDelivery(Property(IssuedObject(p), "accessToken"), Property(IssuedObject(p), "refreshToken"))
  }

  // ---------------------------------------------------------------- password

  /**
   * `changeCurrentPassword`: both passwords required (400); a caller no
   * longer stored makes `user.isPasswordCorrect` throw a TypeError; a wrong
   * old password is a 400; otherwise the save hook stores the new hash.
   */
  method ChangePassword(db: Db, caller: Id, oldPassword: Option<string>, newPassword: Option<string>) returns (r: Result<()>)
    requires db.Valid()
    modifies db
    ensures db.Valid()
    ensures !(Truthy(oldPassword) && Truthy(newPassword)) ==> r.IsError(400)
    ensures Truthy(oldPassword) && Truthy(newPassword) && caller !in old(db.users) ==> r.Unhandled?
    ensures (Truthy(oldPassword) && Truthy(newPassword) && caller in old(db.users)
             && !PasswordMatches(old(db.users)[caller].password, oldPassword.value)) ==> r.IsError(400)
    ensures r.Ok? <==>
      Truthy(oldPassword) && Truthy(newPassword) && caller in old(db.users)
      && PasswordMatches(old(db.users)[caller].password, oldPassword.value)
    ensures r.Ok? ==>
      && db.Contents() == old(db.Contents()).(users := old(db.users)[caller := old(db.users)[caller].(password := HashOf(newPassword.value))])
      && PasswordMatches(db.users[caller].password, newPassword.value)
    ensures !r.Ok? ==> unchanged(db)
  {
    if !(Truthy(oldPassword) && Truthy(newPassword)) {
      r := Fail(400, "OldPassword or newPassword can't be empty");
      return;
    }
    if caller !in db.users {
      r := Unhandled("TypeError");
      return;
    }
    if !PasswordMatches(db.users[caller].password, oldPassword.value) {
      r := Fail(400, "Invalid old Password");
      return;
    }
    var u := db.users[caller].(password := HashOf(newPassword.value));
    ReplaceUserKeepsHandlesUnique(db.users, caller, u);
    db.users := db.users[caller := u];
    r := Ok(());
  }

  /** After a password change the new password logs in and the old one (when different) does not. */
  lemma PasswordChangeTakesEffect(u: User, oldPassword: string, newPassword: string)
    requires oldPassword != newPassword
    ensures PasswordMatches(u.(password := HashOf(newPassword)).password, newPassword)
    ensures !PasswordMatches(u.(password := HashOf(newPassword)).password, oldPassword)
  {
  }

  // ----------------------------------------------------------------- account

  /**
   * `updateAccountDetails`: both fields required (400); a caller no longer
   * stored gives `null` back; an email another user already has violates
   * the unique index and the update fails; otherwise the full name is
   * trimmed and the email normalised by the schema setters.
   */
  method UpdateAccountDetails(db: Db, caller: Id, fullName: Option<string>, email: Option<string>) returns (r: Result<Option<PublicUser>>)
    requires db.Valid()
    modifies db
    ensures db.Valid()
    ensures r.IsError(400) <==> !Truthy(fullName) || !Truthy(email)
    ensures Truthy(fullName) && Truthy(email) && caller !in old(db.users) ==> r == Ok(None)
    ensures Truthy(fullName) && Truthy(email) && caller in old(db.users)
            && !(exists k :: k in old(db.users) && k != caller && old(db.users)[k].email == Normalize(email.value)) ==>
      r.Ok? && r.value.Some?
    ensures Truthy(fullName) && Truthy(email) && caller in old(db.users) ==>
      ((exists k :: k in old(db.users) && k != caller && old(db.users)[k].email == Normalize(email.value)) <==> r.Unhandled?)
    ensures r.Ok? && r.value.Some? ==>
      && caller in old(db.users)
      && var u := old(db.users)[caller].(fullName := Trim(fullName.value), email := Normalize(email.value));
      && r.value.value == Public(caller, u)
      && db.Contents() == old(db.Contents()).(users := old(db.users)[caller := u])
    ensures !(r.Ok? && r.value.Some?) ==> unchanged(db)
  {
    if !Truthy(fullName) || !Truthy(email) {
      r := Fail(400, "All fields are required");
      return;
    }
    if caller !in db.users {
      r := Ok(None);
      return;
    }
    if exists k :: k in db.users && k != caller && db.users[k].email == Normalize(email.value) {
      r := Unhandled("MongoServerError: E11000 duplicate key");
      return;
    }
    var u := db.users[caller].(fullName := Trim(fullName.value), email := Normalize(email.value));
    ReplaceUserKeepsHandlesUnique(db.users, caller, u);
    db.users := db.users[caller := u];
    r := Ok(Some(Public(caller, u)));
  }

  // ----------------------------------------------------------------- channel

  /** The fields the channel-profile aggregation projects. */
  datatype ChannelProfile = ChannelProfile(
    id: Id,
    fullName: string,
    username: string,
    subscriberCount: nat,
    channelSubscribedToCount: nat,
    isSubscribed: bool,
    avatar: string,
    coverImage: string,
    email: string)

  /** The profile of user `id` as the two `$lookup`s and `$addFields` derive it for `caller`. */
  function ProfileOf(users: map<Id, User>, subs: set<Subscription>, id: Id, caller: Option<Id>): (p: ChannelProfile)
    requires id in users
    ensures p.isSubscribed <==> caller.Some? && Subscription(caller.value, id) in ChannelRecords(subs, id)
  {
    var u := users[id];
    ChannelProfile(id, u.fullName, u.username, SubscriberCount(subs, id), SubscribedToCount(subs, id),
                   caller.Some? && Subscription(caller.value, id) in subs, u.avatar, u.coverImage, u.email)
  }

  /**
   * `getUserChannelProfile`: a missing or blank username is a 400; the
   * `$match` compares the lower-cased parameter with the stored username
   * (an aggregation applies no schema setter, so the parameter is NOT
   * trimmed); no match is a 404; otherwise the profile of the user found.
   */
  function GetChannelProfile(users: map<Id, User>, subs: set<Subscription>, username: Option<string>, caller: Option<Id>): (r: Result<ChannelProfile>)
    requires UniqueHandles(users)
    ensures MissingText(username) ==> r.IsError(400)
    ensures !MissingText(username) && (forall id :: id in users ==> users[id].username != ToLower(username.value)) ==> r.IsError(404)
    ensures !MissingText(username) && (exists id :: id in users && users[id].username == ToLower(username.value)) ==> r.Ok?
    ensures r.Ok? ==>
      && !MissingText(username)
      && r.value.id in users
      && users[r.value.id].username == ToLower(username.value)
      && r.value == ProfileOf(users, subs, r.value.id, caller)
    ensures r.Ok? || r.IsError(400) || r.IsError(404)
  {
    if MissingText(username) then Fail(400, "username is missing")
    else
      var name := ToLower(username.value);
      if forall id :: id in users ==> users[id].username != name then Fail(404, "Channel does not exists")
      else
        var id :| id in users && users[id].username == name;
        Ok(ProfileOf(users, subs, id, caller))
  }

  /**
   * The profile's counts are live: after the caller toggles their
   * subscription to a channel, that channel's profile seen by the caller
   * flips `isSubscribed` and moves `subscriberCount` by one in the same
   * direction; the caller's own `channelSubscribedToCount` moves with it.
   */
  lemma {:induction false} ToggleUpdatesProfile(users: map<Id, User>, subs: set<Subscription>, caller: Id, channel: Id)
    requires channel in users && caller in users
    ensures
      var x := Subscription(caller, channel);
      var before := ProfileOf(users, subs, channel, Some(caller));
      var after := ProfileOf(users, Toggled(subs, x), channel, Some(caller));
      && after.isSubscribed == !before.isSubscribed
      && after.subscriberCount == (if before.isSubscribed then before.subscriberCount - 1 else before.subscriberCount + 1)
      && ProfileOf(users, Toggled(subs, x), caller, None).channelSubscribedToCount ==
           (if before.isSubscribed then ProfileOf(users, subs, caller, None).channelSubscribedToCount - 1
            else ProfileOf(users, subs, caller, None).channelSubscribedToCount + 1)
  {
    var x := Subscription(caller, channel);
    ToggleMovesSubscriberCount(subs, x);
    ToggleMovesSubscribedToCount(subs, x);
  }

  /** A parameter with surrounding white space never names a channel, since stored usernames are trimmed. */
  lemma PaddedUsernameNotFound(t: Tables, username: string, caller: Option<Id>)
    requires Consistent(t)
    requires username != [] && IsJsWhitespace(username[0]) && !AllWhitespace(username)
    ensures GetChannelProfile(t.users, t.subscriptions, Some(username), caller).IsError(404)
  {
    var users := t.users;
    MissingTextIffAbsentOrWhitespace(Some(username));
    var name := ToLower(username);
    assert name[0] == username[0];
    forall id | id in users ensures users[id].username != name {
      var stored := users[id].username;
      assert IsNormalized(stored);
    }
  }
}
