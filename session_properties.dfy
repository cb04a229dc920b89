/**
 * What the handlers of controllers/auth.js do, as written, proved about the
 * functions of module Session: which answer comes under which condition,
 * what changes in the collection and what does not, and how login, refresh
 * and logout interact through the stored refresh token.
 */
module SessionProperties {
  import opened Wrappers
  import opened UserSchema
  import opened AuthRoutes
  import opened Store
  import opened Crypto
  import opened Session

  // ---------------------------------------------------------------------------
  // Registration
  // ---------------------------------------------------------------------------

  /** A failed check answers 400 with the first message and leaves the collection alone. */
  lemma RegisterRejectsInvalid(db: Db, body: RequestBody, isEmail: string -> bool, bc: Bcrypt, entropy: nat,
                               hashFault: Option<string>, createFault: Option<string>)
    requires !isEmail("")
    requires Errors(Validators(Register), body, isEmail) != []
    ensures var s := RegisterStep(db, body, isEmail, bc, entropy, hashFault, createFault);
            && s.out == Respond(400, ErrorField(Errors(Validators(Register), body, isEmail)[0]), KeepCookie)
            && s.db == db
  {
  }

  /** A stored e-mail is trimmed, so an e-mail whose trimmed form is not stored is not stored either. */
  lemma {:induction false} NotStoredUntrimmed(db: Db, email: string)
    requires Valid(db)
    requires FindOne(db.users, ByEmail(Trim(email))).None?
    ensures FindOne(db.users, ByEmail(email)).None?
  {
    if FindOne(db.users, ByEmail(email)).Some? {
      var k := FindOne(db.users, ByEmail(email)).value;
      assert WellFormed(db.users[k]);
      TrimmedIsFixed(email);
      assert false;
    }
  }

  /** Past its checks, registration is `RegisterChecked` on the three fields. */
  lemma RegisterPastChecks(db: Db, body: RequestBody, isEmail: string -> bool, bc: Bcrypt, entropy: nat,
                           hashFault: Option<string>, createFault: Option<string>)
    requires !isEmail("")
    requires Errors(Validators(Register), body, isEmail) == []
    ensures body.name.Some? && body.email.Some? && body.pwd.Some?
    ensures RegisterStep(db, body, isEmail, bc, entropy, hashFault, createFault) ==
              RegisterChecked(db, body.name.value, body.email.value, body.pwd.value, bc, entropy, hashFault, createFault)
  {
    ValidRegisterHasFields(body, isEmail);
  }

  /**
   * Registering a new e-mail adds exactly one record at the end: the trimmed
   * name and e-mail, the bcrypt hash of the password under a cost-10 salt,
   * the default `User` role and no refresh token; the answer names its id.
   */
  lemma RegisterFreshEmail(db: Db, body: RequestBody, isEmail: string -> bool, bc: Bcrypt, entropy: nat)
    requires Valid(db) && !isEmail("") && BcryptSound(bc)
    requires Errors(Validators(Register), body, isEmail) == []
    requires body.name.Some? && body.email.Some? && body.pwd.Some?
    requires Trim(body.name.value) != "" && Trim(body.email.value) != ""
    requires forall k :: 0 <= k < |db.users| ==> db.users[k].email != Trim(body.email.value)
    ensures var s := RegisterStep(db, body, isEmail, bc, entropy, None, None);
            var hashed := HashPassword(bc, body.pwd.value, entropy);
            && s.db.users == db.users + [User(db.nextId, Trim(body.name.value), Trim(body.email.value), hashed,
                                              Roles(Some(DefaultUserRole), None, None), None)]
            && s.db.nextId == db.nextId + 1
            && s.out == Respond(200, SuccessField("New user " + IdText(db.nextId) + " created!"), KeepCookie)
  {
    RegisterPastChecks(db, body, isEmail, bc, entropy, None, None);
    var hashed := HashPassword(bc, body.pwd.value, entropy);
    NotStoredUntrimmed(db, body.email.value);
    assert |hashed| == BcryptHashLength && IsTrimmed(hashed);
    TrimmedIsFixed(hashed);
    var c := Create(db, body.name, body.email, Some(hashed), NoRoles, None);
    assert NewUser(db.nextId, body.name, body.email, Some(hashed), NoRoles).Ok?;
    assert c.0.Ok?;
  }

  /**
   * An e-mail already stored answers 409 and, although `create` still runs,
   * the unique index refuses it: the collection is unchanged and holds that
   * e-mail exactly once.
   */
  lemma RegisterExistingEmail(db: Db, body: RequestBody, isEmail: string -> bool, bc: Bcrypt, entropy: nat,
                              hashFault: Option<string>, createFault: Option<string>)
    requires Valid(db) && !isEmail("")
    requires Errors(Validators(Register), body, isEmail) == []
    requires body.email.Some? && FindOne(db.users, ByEmail(body.email.value)).Some?
    ensures var s := RegisterStep(db, body, isEmail, bc, entropy, hashFault, createFault);
            && s.out == Respond(409, ErrorField(UserExists), KeepCookie)
            && s.db == db
            && CountEmail(s.db.users, body.email.value) == 1
  {
    ValidRegisterHasFields(body, isEmail);
    var hashed := HashPassword(bc, body.pwd.value, entropy);
    CreateExistingRefused(db, body.name, body.email.value, Some(hashed), NoRoles, createFault);
    CountEmailUnique(db.users, body.email.value);
  }

  /** A failed hash, for an e-mail not yet stored, answers 400 with its message and changes nothing. */
  lemma RegisterHashFault(db: Db, body: RequestBody, isEmail: string -> bool, bc: Bcrypt, entropy: nat,
                          fault: string, createFault: Option<string>)
    requires !isEmail("")
    requires Errors(Validators(Register), body, isEmail) == []
    requires body.email.Some? && FindOne(db.users, ByEmail(body.email.value)).None?
    ensures var s := RegisterStep(db, body, isEmail, bc, entropy, Some(fault), createFault);
            s.out == Respond(400, JsonString(fault), KeepCookie) && s.db == db
  {
  }

  /**
   * When `create` fails for an e-mail not yet stored (a schema violation of
   * the trimmed values, the unique index, or a database failure), the answer
   * is 400 with the error's message and nothing changes.
   */
  lemma RegisterCreateFailure(db: Db, body: RequestBody, isEmail: string -> bool, bc: Bcrypt, entropy: nat,
                              createFault: Option<string>)
    requires !isEmail("")
    requires Errors(Validators(Register), body, isEmail) == []
    requires body.name.Some? && body.email.Some? && body.pwd.Some?
    requires FindOne(db.users, ByEmail(body.email.value)).None?
    requires Create(db, body.name, body.email, Some(HashPassword(bc, body.pwd.value, entropy)), NoRoles, createFault).0.Err?
    ensures var e := Create(db, body.name, body.email, Some(HashPassword(bc, body.pwd.value, entropy)), NoRoles, createFault).0.error;
            RegisterStep(db, body, isEmail, bc, entropy, None, createFault) ==
              Step(Respond(400, JsonString(CreateErrorMessage(e)), KeepCookie), db)
  {
    RegisterPastChecks(db, body, isEmail, bc, entropy, None, createFault);
  }

  /**
   * Registration either answers 200 and appends exactly one record, leaving
   * the others as they were, or answers 400 or 409 and changes nothing; a
   * store failure in `create` is reported with its own message.
   */
  lemma RegisterAllOrNothing(db: Db, body: RequestBody, isEmail: string -> bool, bc: Bcrypt, entropy: nat,
                             hashFault: Option<string>, createFault: Option<string>)
    requires Valid(db) && !isEmail("")
    ensures var s := RegisterStep(db, body, isEmail, bc, entropy, hashFault, createFault);
            && s.out.Respond?
            && s.out.status in {200, 400, 409}
            && s.out.cookie == KeepCookie
            && (s.out.status == 200 <==> |s.db.users| == |db.users| + 1)
            && (s.out.status == 200 ==> s.db.users[..|db.users|] == db.users && s.db.nextId == db.nextId + 1)
            && (s.out.status != 200 ==> s.db == db)
  {
    if Errors(Validators(Register), body, isEmail) == [] {
      RegisterPastChecks(db, body, isEmail, bc, entropy, hashFault, createFault);
      if hashFault.None? {
        var hashed := HashPassword(bc, body.pwd.value, entropy);
        var c := Create(db, body.name, body.email, Some(hashed), NoRoles, createFault);
        if FindOne(db.users, ByEmail(body.email.value)).Some? {
          CreateExistingRefused(db, body.name, body.email.value, Some(hashed), NoRoles, createFault);
        }
        if c.0.Ok? {
          assert c.1.users[..|db.users|] == db.users;
        }
      }
    }
  }

  /** Registration keeps the collection valid. */
  lemma RegisterKeepsValid(db: Db, body: RequestBody, isEmail: string -> bool, bc: Bcrypt, entropy: nat,
                           hashFault: Option<string>, createFault: Option<string>)
    requires Valid(db) && !isEmail("")
    ensures Valid(RegisterStep(db, body, isEmail, bc, entropy, hashFault, createFault).db)
  {
    if Errors(Validators(Register), body, isEmail) == [] && hashFault.None? {
      ValidRegisterHasFields(body, isEmail);
      var hashed := HashPassword(bc, body.pwd.value, entropy);
      CreateValid(db, body.name, body.email, Some(hashed), NoRoles, createFault);
    }
  }

  /** After a successful registration, logging in with the stored e-mail and the same password succeeds. */
  lemma RegisterThenLogin(db: Db, body: RequestBody, isEmail: string -> bool, bc: Bcrypt, entropy: nat,
                          hashFault: Option<string>, createFault: Option<string>, jwt: Jwt, secrets: Secrets)
    requires Valid(db) && !isEmail("") && BcryptSound(bc)
    requires RegisterStep(db, body, isEmail, bc, entropy, hashFault, createFault).out == 
               Respond(200, SuccessField("New user " + IdText(db.nextId) + " created!"), KeepCookie)
    ensures body.email.Some?
    ensures var s := RegisterStep(db, body, isEmail, bc, entropy, hashFault, createFault);
            LoginStep(s.db, Some(Trim(body.email.value)), body.pwd, bc, jwt, secrets, None).out.Respond?
            && LoginStep(s.db, Some(Trim(body.email.value)), body.pwd, bc, jwt, secrets, None).out.status == 200
  {
    var s := RegisterStep(db, body, isEmail, bc, entropy, hashFault, createFault);
    assert Errors(Validators(Register), body, isEmail) == [];
    ValidRegisterHasFields(body, isEmail);
    RegisterKeepsValid(db, body, isEmail, bc, entropy, hashFault, createFault);
    RegisterAllOrNothing(db, body, isEmail, bc, entropy, hashFault, createFault);
    var hashed := HashPassword(bc, body.pwd.value, entropy);
    var n := |db.users|;
    var u := s.db.users[n];
    assert u.email == Trim(body.email.value) && u.password == Trim(hashed);
    TrimmedIsFixed(hashed);
    assert WellFormed(u);
    var found := FindOne(s.db.users, ByEmail(u.email));
    assert found == Some(n) by {
      assert Matches(s.db.users[n], ByEmail(u.email));
    }
  }

  // ---------------------------------------------------------------------------
  // Login
  // ---------------------------------------------------------------------------

  /** A missing or empty e-mail or password answers 400 before any lookup. */
  lemma LoginMissingFields(db: Db, email: Option<string>, pwd: Option<string>, bc: Bcrypt, jwt: Jwt,
                           secrets: Secrets, saveFault: Option<string>)
    requires !Truthy(email) || !Truthy(pwd)
    ensures LoginStep(db, email, pwd, bc, jwt, secrets, saveFault) ==
              Step(Respond(400, MessageField(FieldsRequired), KeepCookie), db)
  {
  }

  /** An unknown e-mail answers 400 "Hello" (the null `user` throws), not 401. */
  lemma LoginUnknownEmail(db: Db, email: string, pwd: string, bc: Bcrypt, jwt: Jwt,
                          secrets: Secrets, saveFault: Option<string>)
    requires email != "" && pwd != ""
    requires forall k :: 0 <= k < |db.users| ==> db.users[k].email != email
    ensures LoginStep(db, Some(email), Some(pwd), bc, jwt, secrets, saveFault) ==
              Step(Respond(400, MessageField(LoginFailed), KeepCookie), db)
  {
  }

  /** A wrong password answers 401 and changes nothing. */
  lemma LoginWrongPassword(db: Db, email: string, pwd: string, bc: Bcrypt, jwt: Jwt,
                           secrets: Secrets, saveFault: Option<string>)
    requires email != "" && pwd != ""
    requires FindOne(db.users, ByEmail(email)).Some?
    requires !bc.compare(pwd, db.users[FindOne(db.users, ByEmail(email)).value].password)
    ensures LoginStep(db, Some(email), Some(pwd), bc, jwt, secrets, saveFault) ==
              Step(Respond(401, ErrorsField(InvalidCredentials), KeepCookie), db)
  {
  }

  /**
   * A correct password overwrites only that account's refresh token with a
   * token signed, with the access-token secret, over the account's e-mail;
   * the cookie carries it for one day and the body has the role list and an
   * access token over e-mail, name and roles. A failed `save` answers 400
   * with no cookie and changes nothing.
   */
  lemma LoginCorrectPassword(db: Db, email: string, pwd: string, bc: Bcrypt, jwt: Jwt,
                             secrets: Secrets, saveFault: Option<string>)
    requires email != "" && pwd != ""
    requires FindOne(db.users, ByEmail(email)).Some?
    requires bc.compare(pwd, db.users[FindOne(db.users, ByEmail(email)).value].password)
    ensures var i := FindOne(db.users, ByEmail(email)).value;
            var u := db.users[i];
            var token := jwt.sign(RefreshClaims(email), secrets.access, RefreshExpiry);
            var access := jwt.sign(AccessClaims(email, u.name, RolesOf(u.roles)), secrets.access, AccessExpiry);
            var s := LoginStep(db, Some(email), Some(pwd), bc, jwt, secrets, saveFault);
            && (saveFault.Some? ==> s == Step(Respond(400, MessageField(LoginFailed), KeepCookie), db))
            && (saveFault.None? ==>
                  && s.out == Respond(200, Tokens(RolesOf(u.roles), access), SetJwt(token, 86_400_000))
                  && s.db.nextId == db.nextId
                  && s.db.users == db.users[i := u.(refreshToken := Some(token))])
  {
  }

  /** Login keeps the collection valid. */
  lemma LoginKeepsValid(db: Db, email: Option<string>, pwd: Option<string>, bc: Bcrypt, jwt: Jwt,
                        secrets: Secrets, saveFault: Option<string>)
    requires Valid(db)
    ensures Valid(LoginStep(db, email, pwd, bc, jwt, secrets, saveFault).db)
  {
    if Truthy(email) && Truthy(pwd) && FindOne(db.users, ByEmail(email.value)).Some? {
      var i := FindOne(db.users, ByEmail(email.value)).value;
      var token := jwt.sign(RefreshClaims(db.users[i].email), secrets.access, RefreshExpiry);
      SetRefreshTokenValid(db, i, token);
    }
  }

  /**
   * After a login that issued a new token, the account's previous token no
   * longer opens a session: refresh with it answers 403, unless another
   * account holds it too.
   */
  lemma StaleTokenRejected(db: Db, email: string, pwd: string, bc: Bcrypt, jwt: Jwt, secrets: Secrets,
                           stale: string, jwt': Jwt, secrets': Secrets)
    requires Valid(db)
    requires LoginStep(db, Some(email), Some(pwd), bc, jwt, secrets, None).out.Respond?
    requires LoginStep(db, Some(email), Some(pwd), bc, jwt, secrets, None).out.status == 200
    requires stale != "" && stale != jwt.sign(RefreshClaims(email), secrets.access, RefreshExpiry)
    requires forall k :: 0 <= k < |db.users| && db.users[k].refreshToken == Some(stale) ==> db.users[k].email == email
    ensures RefreshOutcome(LoginStep(db, Some(email), Some(pwd), bc, jwt, secrets, None).db, Some(stale), jwt', secrets') ==
              Respond(403, StatusOnly, KeepCookie)
  {
    var i := FindOne(db.users, ByEmail(email)).value;
    var s := LoginStep(db, Some(email), Some(pwd), bc, jwt, secrets, None);
    forall k | 0 <= k < |s.db.users| ensures !Matches(s.db.users[k], ByToken(stale)) {
    }
  }

  // ---------------------------------------------------------------------------
  // Refresh
  // ---------------------------------------------------------------------------

  /**
   * Refresh never answers with a new access token: no cookie gives 401, a
   * token held by no record, a failed verification or another e-mail gives
   * 403, and everything else throws on the undefined `roles`.
   */
  lemma RefreshNeverSucceeds(db: Db, cookie: Option<string>, jwt: Jwt, secrets: Secrets)
    ensures var out := RefreshOutcome(db, cookie, jwt, secrets);
            && (out.Respond? ==> out.status in {401, 403} && out.body == StatusOnly && out.cookie == KeepCookie)
            && (out == Respond(401, StatusOnly, KeepCookie) <==> !Truthy(cookie))
            && (out.Crash? <==> && Truthy(cookie)
                                && FindOne(db.users, ByToken(cookie.value)).Some?
                                && jwt.verify(cookie.value, secrets.refresh).Some?
                                && TopLevelEmail(jwt.verify(cookie.value, secrets.refresh).value) ==
                                     Some(db.users[FindOne(db.users, ByToken(cookie.value)).value].email))
            && (out.Crash? ==> out.error == RolesUndefined)
  {
  }

  /**
   * Login signs the refresh token with the access-token secret and refresh
   * checks it with the refresh-token secret: when the two differ, the token a
   * login hands out is always refused; when they agree, the same refresh
   * reaches the undefined `roles` and throws.
   */
  lemma LoginThenRefresh(db: Db, email: string, pwd: string, bc: Bcrypt, jwt: Jwt, secrets: Secrets)
    requires Valid(db) && JwtSound(jwt)
    requires LoginStep(db, Some(email), Some(pwd), bc, jwt, secrets, None).out.Respond?
    requires LoginStep(db, Some(email), Some(pwd), bc, jwt, secrets, None).out.status == 200
    ensures var token := jwt.sign(RefreshClaims(email), secrets.access, RefreshExpiry);
            var s := LoginStep(db, Some(email), Some(pwd), bc, jwt, secrets, None);
            var out := RefreshOutcome(s.db, Some(token), jwt, secrets);
            && s.out.cookie == SetJwt(token, CookieMaxAge)
            && (secrets.access != secrets.refresh ==> out.Respond? && out.status in {401, 403})
            && (secrets.access == secrets.refresh && token != "" &&
                (forall k :: 0 <= k < |db.users| && db.users[k].refreshToken == Some(token) ==> db.users[k].email == email)
                ==> out == Crash(RolesUndefined))
  {
    var token := jwt.sign(RefreshClaims(email), secrets.access, RefreshExpiry);
    var s := LoginStep(db, Some(email), Some(pwd), bc, jwt, secrets, None);
    var i := FindOne(db.users, ByEmail(email)).value;
    assert jwt.verify(token, secrets.refresh) == if secrets.access == secrets.refresh then Some(RefreshClaims(email)) else None;
    if secrets.access == secrets.refresh && token != "" &&
       (forall k :: 0 <= k < |db.users| && db.users[k].refreshToken == Some(token) ==> db.users[k].email == email) {
      var f := FindOne(s.db.users, ByToken(token));
      assert f == Some(i) by {
        assert Matches(s.db.users[i], ByToken(token));
      }
    }
  }

  // ---------------------------------------------------------------------------
  // Logout
  // ---------------------------------------------------------------------------

  /**
   * Logout always answers 204 and never an error. With no cookie nothing
   * changes; with a cookie no record holds, the cookie is cleared and nothing
   * changes; otherwise the first holder's token becomes "" and nothing else
   * changes.
   */
  lemma LogoutEffects(db: Db, cookie: Option<string>)
    ensures var s := LogoutStep(db, cookie);
            && s.out.Respond? && s.out.status == 204 && s.out.body == StatusOnly
            && (!Truthy(cookie) ==> s.out.cookie == KeepCookie && s.db == db)
            && (Truthy(cookie) ==> s.out.cookie == ClearJwt)
            && (Truthy(cookie) && FindOne(db.users, ByToken(cookie.value)).None? ==> s.db == db)
            && (Truthy(cookie) && FindOne(db.users, ByToken(cookie.value)).Some? ==>
                  var i := FindOne(db.users, ByToken(cookie.value)).value;
                  s.db == Db(db.users[i := db.users[i].(refreshToken := Some(""))], db.nextId))
  {
  }

  /** At most one record holds `token`. */
  predicate HeldAtMostOnce(users: seq<User>, token: string) {
    forall i, j :: 0 <= i < j < |users| && users[i].refreshToken == Some(token) ==> users[j].refreshToken != Some(token)
  }

  /** When at most one record holds a non-empty cookie's token, a second logout changes nothing more. */
  lemma LogoutIdempotent(db: Db, cookie: Option<string>)
    requires Truthy(cookie) ==> HeldAtMostOnce(db.users, cookie.value)
    ensures LogoutStep(LogoutStep(db, cookie).db, cookie) == LogoutStep(db, cookie)
  {
    if Truthy(cookie) && FindOne(db.users, ByToken(cookie.value)).Some? {
      var i := FindOne(db.users, ByToken(cookie.value)).value;
      var s := LogoutStep(db, cookie);
      forall k | 0 <= k < |s.db.users| ensures !Matches(s.db.users[k], ByToken(cookie.value)) {
        if k > i { assert db.users[k].refreshToken != Some(cookie.value); }
      }
    }
  }

  /** After logout, refreshing with the same cookie is refused (401 or 403). */
  lemma LogoutThenRefresh(db: Db, cookie: Option<string>, jwt: Jwt, secrets: Secrets)
    requires Truthy(cookie) ==> HeldAtMostOnce(db.users, cookie.value)
    ensures RefreshOutcome(LogoutStep(db, cookie).db, cookie, jwt, secrets) ==
              Respond(if Truthy(cookie) then 403 else 401, StatusOnly, KeepCookie)
  {
    LogoutIdempotent(db, cookie);
  }

  /** Logout keeps the collection valid. */
  lemma LogoutKeepsValid(db: Db, cookie: Option<string>)
    requires Valid(db)
    ensures Valid(LogoutStep(db, cookie).db)
  {
    if Truthy(cookie) && FindOne(db.users, ByToken(cookie.value)).Some? {
      SetRefreshTokenValid(db, FindOne(db.users, ByToken(cookie.value)).value, "");
    }
  }
}
