/**
 * The four handlers of controllers/auth.js as functions from the collection
 * (and the request, the library calls and the injected failures) to the
 * response and the new collection, with the properties the handlers have as
 * written. Module Controller runs the same steps imperatively and is proved
 * equal to these functions.
 */
module Session {
  import opened Wrappers
  import opened UserSchema
  import opened AuthRoutes
  import opened Store
  import opened Crypto

  /** The response body each `res.json(...)` / `res.sendStatus(...)` produces. */
  datatype Body =
    | StatusOnly                                   // sendStatus(code)
    | ErrorField(error: string)                    // { error }
    | SuccessField(success: string)                // { success }
    | MessageField(message: string)                // { message }
    | ErrorsField(errors: string)                  // { errors }
    | JsonString(text: string)                     // json(err.message)
    | Tokens(roles: seq<int>, accessToken: string) // { roles, accessToken }

  /** What happens to the `jwt` cookie. */
  datatype Cookie = KeepCookie | SetJwt(value: string, maxAge: nat) | ClearJwt

  /** The response the client receives, or an exception that escapes the handler without one. */
  datatype Outcome = Respond(status: nat, body: Body, cookie: Cookie) | Crash(error: string)

  /** A handler's response together with the collection it leaves behind. */
  datatype Step = Step(out: Outcome, db: Db)

  /** `maxAge` of the `jwt` cookie: one day in milliseconds. */
  const CookieMaxAge: nat := 24 * 60 * 60 * 1000

  const UserExists: string := "User already exist"
  const FieldsRequired: string := "Email and password are required."
  const InvalidCredentials: string := "Invalid email or password"
  const LoginFailed: string := "Hello"
  const RolesUndefined: string := "ReferenceError: roles is not defined"

  /** JavaScript truthiness of a request field or cookie: present and not empty. */
  predicate Truthy(v: Option<string>) {
    v.Some? && v.value != ""
  }

  /** Express sends only the first response; a later one is lost. */
  function FirstSent(sent: Option<Outcome>, later: Outcome): Outcome {
    if sent.Some? then sent.value else later
  }

  // ---------------------------------------------------------------------------
  // Role derivation: Object.values(user.roles).filter(Boolean)
  // ---------------------------------------------------------------------------

  /** One role value kept by `filter(Boolean)`: present and non-zero. */
  function KeepIfTruthy(v: Option<int>): seq<int> {
    if v.Some? && v.value != 0 then [v.value] else []
  }

  /** `filter(Boolean)` over role values: the truthy ones, in their order. */
  function KeepTruthy(vs: seq<Option<int>>): (r: seq<int>)
    ensures |r| <= |vs|
    ensures forall x :: x in r <==> x != 0 && Some(x) in vs
  {
    if vs == [] then [] else KeepIfTruthy(vs[0]) + KeepTruthy(vs[1..])
  }

  /** The role list sent to the client and signed into the access token. */
  function RolesOf(roles: Roles): (r: seq<int>)
    ensures |r| <= 3
    ensures forall x :: x in r <==> x != 0 && (roles.user == Some(x) || roles.editor == Some(x) || roles.admin == Some(x))
  {
    KeepTruthy([roles.user, roles.editor, roles.admin])
  }

  /** The role list keeps the order `User`, `Editor`, `Admin`. */
  lemma RolesOrder(roles: Roles)
    ensures RolesOf(roles) == KeepIfTruthy(roles.user) + KeepIfTruthy(roles.editor) + KeepIfTruthy(roles.admin)
  {
    var vs := [roles.user, roles.editor, roles.admin];
    assert vs[1..] == [roles.editor, roles.admin];
    assert vs[1..][1..] == [roles.admin];
    assert KeepTruthy([roles.admin]) == KeepIfTruthy(roles.admin) + KeepTruthy([]);
    assert KeepTruthy([roles.editor, roles.admin]) == KeepIfTruthy(roles.editor) + KeepTruthy([roles.admin]);
  }

  // ---------------------------------------------------------------------------
  // The handlers
  // ---------------------------------------------------------------------------

  /**
   * `registerUser`. A failed validation answers 400 with the first message.
   * Otherwise an existing e-mail answers 409 but the handler carries on: it
   * hashes the password and calls `create`, whose own answer is then lost.
   */
  function RegisterStep(db: Db, body: RequestBody, isEmail: string -> bool, bc: Bcrypt, entropy: nat,
                        hashFault: Option<string>, createFault: Option<string>): (s: Step)
    requires !isEmail("")
    ensures s.out.Respond? && s.out.cookie == KeepCookie && s.out.status in {200, 400, 409}
  {
    var errs := Errors(Validators(Register), body, isEmail);
    if errs != [] then Step(Respond(400, ErrorField(errs[0]), KeepCookie), db)
    else
      ValidRegisterHasFields(body, isEmail);
      RegisterChecked(db, body.name.value, body.email.value, body.pwd.value, bc, entropy, hashFault, createFault)
  }

  /** `bcrypt.hash(pwd, await bcrypt.genSalt(10))`. */
  function HashPassword(bc: Bcrypt, pwd: string, entropy: nat): string {
    bc.hash(pwd, bc.genSalt(SaltRounds, entropy))
  }

  /** The registration text naming the new record's id. */
  function CreatedMessage(id: nat): string {
    "New user " + IdText(id) + " created!"
  }

  /** `registerUser` once the request has passed its checks. */
  function RegisterChecked(db: Db, name: string, email: string, pwd: string, bc: Bcrypt, entropy: nat,
                           hashFault: Option<string>, createFault: Option<string>): (s: Step)
    ensures s.out.Respond? && s.out.cookie == KeepCookie && s.out.status in {200, 400, 409}
    ensures s.out.status == 409 <==> FindOne(db.users, ByEmail(email)).Some?
  {
    var sent := if FindOne(db.users, ByEmail(email)).Some?
                then Some(Respond(409, ErrorField(UserExists), KeepCookie)) else None;
    if hashFault.Some? then Step(FirstSent(sent, Respond(400, JsonString(hashFault.value), KeepCookie)), db)
    else
      var created := Create(db, Some(name), Some(email), Some(HashPassword(bc, pwd, entropy)), NoRoles, createFault);
      match created.0
      case Ok(u) => Step(FirstSent(sent, Respond(200, SuccessField(CreatedMessage(u.id)), KeepCookie)), created.1)
      case Err(e) => Step(FirstSent(sent, Respond(400, JsonString(CreateErrorMessage(e)), KeepCookie)), db)
  }

  /**
   * `loginUser`. An unknown e-mail makes `user.password` throw inside the
   * `try`, which answers 400 "Hello"; so does a failed `save`. The refresh
   * token is signed with the access-token secret.
   */
  function LoginStep(db: Db, email: Option<string>, pwd: Option<string>, bc: Bcrypt, jwt: Jwt, secrets: Secrets,
                     saveFault: Option<string>): (s: Step)
    ensures s.out.Respond? && s.out.status in {200, 400, 401}
    ensures s.out.status != 200 ==> s.db == db && s.out.cookie == KeepCookie
    ensures |s.db.users| == |db.users| && s.db.nextId == db.nextId
  {
    if !Truthy(email) || !Truthy(pwd) then Step(Respond(400, MessageField(FieldsRequired), KeepCookie), db)
    else match FindOne(db.users, ByEmail(email.value))
      case None => Step(Respond(400, MessageField(LoginFailed), KeepCookie), db)
      case Some(i) =>
        var user := db.users[i];
        if !bc.compare(pwd.value, user.password) then
          Step(Respond(401, ErrorsField(InvalidCredentials), KeepCookie), db)
        else
          var roles := RolesOf(user.roles);
          var accessToken := jwt.sign(AccessClaims(user.email, user.name, roles), secrets.access, AccessExpiry);
          var refreshToken := jwt.sign(RefreshClaims(user.email), secrets.access, RefreshExpiry);
          if saveFault.Some? then Step(Respond(400, MessageField(LoginFailed), KeepCookie), db)
          else Step(Respond(200, Tokens(roles, accessToken), SetJwt(refreshToken, CookieMaxAge)),
                    SetRefreshToken(db, i, refreshToken))
  }

  /**
   * `handleRefreshToken`. It only reads the collection. The token is checked
   * with the refresh-token secret; past every check the handler evaluates the
   * undefined `roles` and throws.
   */
  function RefreshOutcome(db: Db, cookie: Option<string>, jwt: Jwt, secrets: Secrets): (o: Outcome)
    ensures o.Respond? ==> o.status in {401, 403} && o.body == StatusOnly && o.cookie == KeepCookie
    ensures o.Crash? ==> o.error == RolesUndefined
  {
    if !Truthy(cookie) then Respond(401, StatusOnly, KeepCookie)
    else match FindOne(db.users, ByToken(cookie.value))
      case None => Respond(403, StatusOnly, KeepCookie)
      case Some(i) =>
        var decoded := jwt.verify(cookie.value, secrets.refresh);
        if decoded.None? || TopLevelEmail(decoded.value) != Some(db.users[i].email) then
          Respond(403, StatusOnly, KeepCookie)
        else Crash(RolesUndefined)
  }

  /** `logoutUser`: 204 in every case; a matching record's token becomes "". */
  function LogoutStep(db: Db, cookie: Option<string>): (s: Step)
    ensures s.out == Respond(204, StatusOnly, if Truthy(cookie) then ClearJwt else KeepCookie)
    ensures |s.db.users| == |db.users| && s.db.nextId == db.nextId
  {
    if !Truthy(cookie) then Step(Respond(204, StatusOnly, KeepCookie), db)
    else match FindOne(db.users, ByToken(cookie.value))
      case None => Step(Respond(204, StatusOnly, ClearJwt), db)
      case Some(i) => Step(Respond(204, StatusOnly, ClearJwt), SetRefreshToken(db, i, ""))
  }
}
