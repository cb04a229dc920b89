/**
 * The handlers of controllers/auth.js as they run: methods on the `users`
 * collection that read it, may change one record, and build the response
 * step by step. Each is proved to leave the collection valid and to agree
 * with its specification in module Session, whose properties module
 * SessionProperties proves.
 */
module Controller {
  import opened Wrappers
  import opened UserSchema
  import opened AuthRoutes
  import opened Store
  import opened Crypto
  import opened Session

  /** The `users` collection: its records in insertion order and the next id to hand out. */
  class UserStore {
    var users: seq<User>
    var nextId: nat

    /** The collection as a value. */
    function State(): Db
      reads this
    {
      Db(users, nextId)
    }

    ghost predicate Valid()
      reads this
    {
      Store.Valid(State())
    }

    /** An empty collection. */
    constructor ()
      ensures Valid() && users == [] && nextId == 0
    {
      users := [];
      nextId := 0;
    }

    /** `User.create({ name, email, password })`; `fault` is a database failure, if one happens. */
    method CreateUser(name: string, email: string, password: string, fault: Option<string>)
      returns (r: Result<User, CreateError>)
      requires Valid()
      modifies this
      ensures Valid()
      ensures (r, State()) == Create(old(State()), Some(name), Some(email), Some(password), NoRoles, fault)
    {
      CreateValid(State(), Some(name), Some(email), Some(password), NoRoles, fault);
      var created := Create(State(), Some(name), Some(email), Some(password), NoRoles, fault);
      r := created.0;
      if r.Ok? {
        users := users + [r.value];
        nextId := nextId + 1;
      }
    }

    /** `user.refreshToken = token; await user.save()` for record `i`; `fault` fails the save. */
    method SaveRefreshToken(i: nat, token: string, fault: Option<string>) returns (saved: bool)
      requires Valid() && i < |users|
      modifies this
      ensures Valid()
      ensures saved == fault.None?
      ensures State() == if saved then SetRefreshToken(old(State()), i, token) else old(State())
    {
      SetRefreshTokenValid(State(), i, token);
      saved := fault.None?;
      if saved {
        users := users[i := users[i].(refreshToken := Some(token))];
      }
    }

    /** `registerUser`. */
    method RegisterUser(body: RequestBody, isEmail: string -> bool, bc: Bcrypt, entropy: nat,
                        hashFault: Option<string>, createFault: Option<string>) returns (out: Outcome)
      requires Valid() && !isEmail("")
      modifies this
      ensures Valid()
      ensures Step(out, State()) == RegisterStep(old(State()), body, isEmail, bc, entropy, hashFault, createFault)
    {
      var errors := Errors(Validators(Register), body, isEmail);
      if errors != [] {
        return Respond(400, ErrorField(errors[0]), KeepCookie);
      }
      ValidRegisterHasFields(body, isEmail);
      var name, email, pwd := body.name.value, body.email.value, body.pwd.value;

      var sent: Option<Outcome> := None;
      var userExist := FindOne(users, ByEmail(email));
      if userExist.Some? {
        sent := Some(Respond(409, ErrorField(UserExists), KeepCookie));
      }

      if hashFault.Some? {
        return FirstSent(sent, Respond(400, JsonString(hashFault.value), KeepCookie));
      }
      var salt := bc.genSalt(SaltRounds, entropy);
      var hashedPassword := bc.hash(pwd, salt);

      var created := CreateUser(name, email, hashedPassword, createFault);
      match created
      case Ok(user) =>
        out := FirstSent(sent, Respond(200, SuccessField(CreatedMessage(user.id)), KeepCookie));
      case Err(e) =>
        out := FirstSent(sent, Respond(400, JsonString(CreateErrorMessage(e)), KeepCookie));
    }

    /** `loginUser`. */
    method LoginUser(email: Option<string>, pwd: Option<string>, bc: Bcrypt, jwt: Jwt, secrets: Secrets,
                     saveFault: Option<string>) returns (out: Outcome)
      requires Valid()
      modifies this
      ensures Valid()
      ensures Step(out, State()) == LoginStep(old(State()), email, pwd, bc, jwt, secrets, saveFault)
    {
      if !Truthy(email) || !Truthy(pwd) {
        return Respond(400, MessageField(FieldsRequired), KeepCookie);
      }

      var found := FindOne(users, ByEmail(email.value));
      if found.None? {
        // `user.password` on a null `user` throws inside the `try`
        return Respond(400, MessageField(LoginFailed), KeepCookie);
      }
      var i := found.value;
      var user := users[i];

      var decryptedPass := bc.compare(pwd.value, user.password);
      if !decryptedPass {
        return Respond(401, ErrorsField(InvalidCredentials), KeepCookie);
      }

      var roles := RolesOf(user.roles);
      var accessToken := jwt.sign(AccessClaims(user.email, user.name, roles), secrets.access, AccessExpiry);
      var refreshToken := jwt.sign(RefreshClaims(user.email), secrets.access, RefreshExpiry);

      var saved := SaveRefreshToken(i, refreshToken, saveFault);
      if !saved {
        return Respond(400, MessageField(LoginFailed), KeepCookie);
      }
      out := Respond(200, Tokens(roles, accessToken), SetJwt(refreshToken, CookieMaxAge));
    }

    /** `handleRefreshToken`: reads the collection and changes nothing. */
    method HandleRefreshToken(cookie: Option<string>, jwt: Jwt, secrets: Secrets) returns (out: Outcome)
      ensures out == RefreshOutcome(State(), cookie, jwt, secrets)
    {
      if !Truthy(cookie) {
        return Respond(401, StatusOnly, KeepCookie);
      }
      var refreshToken := cookie.value;

      var found := FindOne(users, ByToken(refreshToken));
      if found.None? {
        return Respond(403, StatusOnly, KeepCookie);
      }
      var user := users[found.value];

      var decoded := jwt.verify(refreshToken, secrets.refresh);
      if decoded.None? || TopLevelEmail(decoded.value) != Some(user.email) {
        return Respond(403, StatusOnly, KeepCookie);
      }
      // building `{ UserInfo: { ..., roles: roles } }` reads an undefined `roles`
      out := Crash(RolesUndefined);
    }

    /** `logoutUser`. */
    method LogoutUser(cookie: Option<string>) returns (out: Outcome)
      requires Valid()
      modifies this
      ensures Valid()
      ensures Step(out, State()) == LogoutStep(old(State()), cookie)
    {
      if !Truthy(cookie) {
        return Respond(204, StatusOnly, KeepCookie);
      }
      var refreshToken := cookie.value;

      var found := FindOne(users, ByToken(refreshToken));
      if found.None? {
        return Respond(204, StatusOnly, ClearJwt);
      }

      var _ := SaveRefreshToken(found.value, "", None);
      out := Respond(204, StatusOnly, ClearJwt);
    }
  }
}
