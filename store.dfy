/**
 * The `users` collection behind the `User` model: first-match `findOne`,
 * `create` (schema validation, then the unique `email` index), and `save` of
 * a fetched document. Values only; the mutable collection is the class in
 * module Controller.
 */
module Store {
  import opened Wrappers
  import opened UserSchema

  /** The collection's records in insertion order, and the next unused id. */
  datatype Db = Db(users: seq<User>, nextId: nat)

  /** The two query filters the handlers use: `{ email }` and `{ refreshToken }`. */
  datatype Filter = ByEmail(email: string) | ByToken(token: string)

  predicate Matches(u: User, f: Filter) {
    match f
    case ByEmail(e) => u.email == e
    case ByToken(t) => u.refreshToken == Some(t)
  }

  /** `findOne(f)` from position `k` on: the first matching index, if any. */
  function FindFrom(users: seq<User>, f: Filter, k: nat): (r: Option<nat>)
    requires k <= |users|
    ensures r.Some? ==> && k <= r.value < |users| && Matches(users[r.value], f)
                        && forall j :: k <= j < r.value ==> !Matches(users[j], f)
    ensures r.None? ==> forall j :: k <= j < |users| ==> !Matches(users[j], f)
    decreases |users| - k
  {
    if k == |users| then None
    else if Matches(users[k], f) then Some(k)
    else FindFrom(users, f, k + 1)
  }

  /** `findOne(f)`: the index of the first record that matches, or none when no record does. */
  function FindOne(users: seq<User>, f: Filter): (r: Option<nat>)
    ensures r.Some? ==> && r.value < |users| && Matches(users[r.value], f)
                        && forall j :: 0 <= j < r.value ==> !Matches(users[j], f)
    ensures r.None? <==> forall j :: 0 <= j < |users| ==> !Matches(users[j], f)
  {
    FindFrom(users, f, 0)
  }

  /** The number of records whose e-mail is `e`. */
  function CountEmail(users: seq<User>, e: string): nat {
    if users == [] then 0
    else (if users[0].email == e then 1 else 0) + CountEmail(users[1..], e)
  }

  predicate UniqueEmails(users: seq<User>) {
    forall i, j :: 0 <= i < j < |users| ==> users[i].email != users[j].email
  }

  /**
   * What the collection always satisfies: every record passed the schema,
   * the unique index on `email` holds, and ids are distinct (ascending) and
   * below `nextId`.
   */
  predicate Valid(db: Db) {
    && (forall i :: 0 <= i < |db.users| ==> WellFormed(db.users[i]))
    && UniqueEmails(db.users)
    && (forall i :: 0 <= i < |db.users| ==> db.users[i].id < db.nextId)
    && (forall i, j :: 0 <= i < j < |db.users| ==> db.users[i].id < db.users[j].id)
  }

  /** Under the unique index an e-mail is held by at most one record, exactly one if `findOne` sees it. */
  lemma {:induction false} CountEmailUnique(users: seq<User>, e: string)
    requires UniqueEmails(users)
    ensures CountEmail(users, e) <= 1
    ensures CountEmail(users, e) == 1 <==> FindOne(users, ByEmail(e)).Some?
  {
    if users != [] {
      assert UniqueEmails(users[1..]) by {
        forall i, j | 0 <= i < j < |users[1..]| ensures users[1..][i].email != users[1..][j].email {
          assert users[1..][i] == users[i + 1] && users[1..][j] == users[j + 1];
        }
      }
      CountEmailUnique(users[1..], e);
      if users[0].email == e {
        forall j | 0 <= j < |users[1..]| ensures !Matches(users[1..][j], ByEmail(e)) {
          assert users[1..][j] == users[j + 1];
        }
      } else {
        assert FindOne(users, ByEmail(e)).Some? <==> FindOne(users[1..], ByEmail(e)).Some? by {
          if FindOne(users, ByEmail(e)).Some? {
            var k := FindOne(users, ByEmail(e)).value;
            assert users[1..][k - 1] == users[k];
          }
          if FindOne(users[1..], ByEmail(e)).Some? {
            var k := FindOne(users[1..], ByEmail(e)).value;
            assert users[k + 1] == users[1..][k];
          }
        }
      }
    }
  }

  /** Why `create` rejected a document. */
  datatype CreateError =
    | Invalid(violations: seq<Violation>)   // schema validation failed
    | StoreFault(message: string)           // the database could not be reached or failed
    | DuplicateKey(email: string)           // the unique index on `email` refused the insert

  /** `create(...)`: validate, then insert at the end under a fresh id. Nothing changes on an error. */
  function Create(db: Db, name: Option<string>, email: Option<string>, password: Option<string>,
                  roles: Roles, fault: Option<string>): (r: (Result<User, CreateError>, Db))
    ensures r.0.Ok? <==> && NewUser(db.nextId, name, email, password, roles).Ok?
                         && fault.None?
                         && FindOne(db.users, ByEmail(Trim(email.value))).None?
    ensures r.0.Err? ==> r.1 == db
    ensures r.0.Ok? ==> && r.0.value == NewUser(db.nextId, name, email, password, roles).value
                        && r.1 == Db(db.users + [r.0.value], db.nextId + 1)
  {
    match NewUser(db.nextId, name, email, password, roles)
    case Err(vs) => (Err(Invalid(vs)), db)
    case Ok(u) =>
      if fault.Some? then (Err(StoreFault(fault.value)), db)
      else if FindOne(db.users, ByEmail(u.email)).Some? then (Err(DuplicateKey(u.email)), db)
      else (Ok(u), Db(db.users + [u], db.nextId + 1))
  }

  /** `create` keeps the collection valid. */
  lemma CreateValid(db: Db, name: Option<string>, email: Option<string>, password: Option<string>,
                    roles: Roles, fault: Option<string>)
    requires Valid(db)
    ensures Valid(Create(db, name, email, password, roles, fault).1)
  {
    var r := Create(db, name, email, password, roles, fault);
    if r.0.Ok? {
      var u := r.0.value;
      NewUserWellFormed(db.nextId, name, email, password, roles);
      var us := db.users + [u];
      assert us[|db.users|] == u;
      forall i | 0 <= i < |us| ensures WellFormed(us[i]) && us[i].id < db.nextId + 1 {
        if i < |db.users| { assert us[i] == db.users[i]; }
      }
      forall i, j | 0 <= i < j < |us| ensures us[i].email != us[j].email && us[i].id < us[j].id {
        assert us[i] == db.users[i];
        if j < |db.users| { assert us[j] == db.users[j]; }
      }
    }
  }

  /**
   * `create` with an e-mail some record already holds is refused by the
   * unique index: stored e-mails are trimmed, so trimming the new one
   * yields the same key.
   */
  lemma {:induction false} CreateExistingRefused(db: Db, name: Option<string>, email: string, password: Option<string>,
                                                 roles: Roles, fault: Option<string>)
    requires Valid(db)
    requires FindOne(db.users, ByEmail(email)).Some?
    ensures Create(db, name, Some(email), password, roles, fault).0.Err?
  {
    var k := FindOne(db.users, ByEmail(email)).value;
    assert WellFormed(db.users[k]);
    TrimmedIsFixed(email);
  }

  /** `save()` of record `i` after its `refreshToken` was assigned. */
  function SetRefreshToken(db: Db, i: nat, token: string): (r: Db)
    requires i < |db.users|
    ensures |r.users| == |db.users| && r.nextId == db.nextId
    ensures r.users[i] == db.users[i].(refreshToken := Some(token))
    ensures forall j :: 0 <= j < |db.users| && j != i ==> r.users[j] == db.users[j]
  {
    Db(db.users[i := db.users[i].(refreshToken := Some(token))], db.nextId)
  }

  /** Changing a refresh token keeps the collection valid. */
  lemma SetRefreshTokenValid(db: Db, i: nat, token: string)
    requires Valid(db) && i < |db.users|
    ensures Valid(SetRefreshToken(db, i, token))
  {
  }

  /** Decimal text of an id, as it appears in the registration message. */
  function IdText(n: nat): (r: string)
    ensures |r| > 0
    ensures forall k :: 0 <= k < |r| ==> '0' <= r[k] <= '9'
    decreases n
  {
    var d := ['0' + (n % 10) as char];
    if n < 10 then d else IdText(n / 10) + d
  }

  function Join(parts: seq<string>, sep: string): string {
    if parts == [] then ""
    else if |parts| == 1 then parts[0]
    else parts[0] + sep + Join(parts[1..], sep)
  }

  function ViolationText(v: Violation): string {
    match v
    case Required(p) => p + ": Path `" + p + "` is required."
    case TooShort(p, value, min) =>
      p + ": Path `" + p + "` (`" + value + "`) is shorter than the minimum allowed length (" + IdText(min) + ")."
  }

  /** `err.message` of a failed `create`. */
  function CreateErrorMessage(e: CreateError): string {
    match e
    case Invalid(vs) => "User validation failed: " + Join(seq(|vs|, k requires 0 <= k < |vs| => ViolationText(vs[k])), ", ")
    case StoreFault(m) => m
    case DuplicateKey(email) => "E11000 duplicate key error collection: users index: email_1 dup key: { email: \"" + email + "\" }"
  }
}
