/**
 * The `User` record of models/UserSchema.js: its fields, the `trim` setters,
 * the `User` role default, the `required` and `minLength` validators, and the
 * document that `new User({...})` builds from the given fields.
 */
module UserSchema {
  import opened Wrappers

  /** The nested `roles` object; a role that was never given is absent. */
  datatype Roles = Roles(user: Option<int>, editor: Option<int>, admin: Option<int>)

  /** One stored account. `id` stands for the document's `_id`. */
  datatype User = User(
    id: nat,
    name: string,
    email: string,
    password: string,
    roles: Roles,
    refreshToken: Option<string>)

  /** Default of `roles.User` when none is supplied. */
  const DefaultUserRole: int := 2001

  /** `minLength` of the `password` path. */
  const PasswordMinLength: nat := 8

  /** No role given at all, as in the registration handler's `User.create` call. */
  const NoRoles: Roles := Roles(None, None, None)

  // ---------------------------------------------------------------------------
  // Trimming (the `trim: true` setters use JavaScript's String.prototype.trim)
  // ---------------------------------------------------------------------------

  /** JavaScript's WhiteSpace and LineTerminator characters. */
  predicate IsSpace(c: char) {
    || c == ' '
    || '\t' <= c <= '\r'
    || c == '\U{00A0}' || c == '\U{1680}'
    || '\U{2000}' <= c <= '\U{200A}'
    || c == '\U{2028}' || c == '\U{2029}' || c == '\U{202F}'
    || c == '\U{205F}' || c == '\U{3000}' || c == '\U{FEFF}'
  }

  /** Neither end of `s` is white space. */
  predicate IsTrimmed(s: string) {
    s == [] || (!IsSpace(s[0]) && !IsSpace(s[|s| - 1]))
  }

  /** Drops the leading white space. */
  function TrimStart(s: string): (r: string)
    ensures |r| <= |s|
  {
    if s != [] && IsSpace(s[0]) then TrimStart(s[1..]) else s
  }

  /** Drops the trailing white space. */
  function TrimEnd(s: string): (r: string)
    ensures |r| <= |s|
  {
    if s != [] && IsSpace(s[|s| - 1]) then TrimEnd(s[..|s| - 1]) else s
  }

  /** String.prototype.trim. */
  function Trim(s: string): string {
    TrimEnd(TrimStart(s))
  }

  /** `TrimStart` keeps a suffix, drops only white space, and what it keeps does not start with any. */
  lemma {:induction false} TrimStartSpec(s: string)
    ensures TrimStart(s) == s[|s| - |TrimStart(s)|..]
    ensures forall i :: 0 <= i < |s| - |TrimStart(s)| ==> IsSpace(s[i])
    ensures TrimStart(s) == [] || !IsSpace(TrimStart(s)[0])
  {
    if s != [] && IsSpace(s[0]) {
      TrimStartSpec(s[1..]);
      assert s[1..][|s| - 1 - |TrimStart(s)|..] == s[|s| - |TrimStart(s)|..];
      forall i | 0 <= i < |s| - |TrimStart(s)| ensures IsSpace(s[i]) {
        if i > 0 { assert s[i] == s[1..][i - 1]; }
      }
    }
  }

  /** `TrimEnd` keeps a prefix, drops only white space, and what it keeps does not end with any. */
  lemma {:induction false} TrimEndSpec(s: string)
    ensures TrimEnd(s) == s[..|TrimEnd(s)|]
    ensures forall i :: |TrimEnd(s)| <= i < |s| ==> IsSpace(s[i])
    ensures TrimEnd(s) == [] || !IsSpace(TrimEnd(s)[|TrimEnd(s)| - 1])
  {
    if s != [] && IsSpace(s[|s| - 1]) {
      var t := s[..|s| - 1];
      TrimEndSpec(t);
      assert t[..|TrimEnd(s)|] == s[..|TrimEnd(s)|];
      forall i | |TrimEnd(s)| <= i < |s| ensures IsSpace(s[i]) {
        if i < |s| - 1 { assert s[i] == t[i]; }
      }
    }
  }

  /**
   * `Trim(s)` is the slice of `s` left once the white space at both ends is
   * dropped: everything outside it is white space and it has none at either end.
   */
  lemma TrimSpec(s: string)
    ensures IsTrimmed(Trim(s))
    ensures var i := |s| - |TrimStart(s)|;
            && 0 <= i <= i + |Trim(s)| <= |s| && Trim(s) == s[i..i + |Trim(s)|]
            && (forall k :: 0 <= k < i ==> IsSpace(s[k]))
            && (forall k :: i + |Trim(s)| <= k < |s| ==> IsSpace(s[k]))
  {
    var t := TrimStart(s);
    TrimStartSpec(s);
    TrimEndSpec(t);
    var i := |s| - |t|;
    var r := Trim(s);
    if r != [] {
      assert r[0] == t[0];
    }
    assert r == s[i..i + |r|];
    forall k | i + |r| <= k < |s| ensures IsSpace(s[k]) {
      assert s[k] == t[k - i];
    }
  }

  /** Trimming leaves an already trimmed value alone. */
  lemma {:induction false} TrimmedIsFixed(s: string)
    requires IsTrimmed(s)
    ensures Trim(s) == s
  {
  }

  /** Trimming twice is trimming once. */
  lemma TrimIdempotent(s: string)
    ensures Trim(Trim(s)) == Trim(s)
  {
    TrimSpec(s);
    TrimmedIsFixed(Trim(s));
  }

  // ---------------------------------------------------------------------------
  // Document construction and validation
  // ---------------------------------------------------------------------------

  /** A failed schema validator, by path, in schema order. */
  datatype Violation = Required(path: string) | TooShort(path: string, value: string, min: nat)

  /** The `required` validator of a String path: present and non-empty after the setter. */
  predicate Present(v: Option<string>) {
    v.Some? && |v.value| > 0
  }

  /** The violations of `name`, `email` and `password`, once their setters have run. */
  function Violations(name: Option<string>, email: Option<string>, password: Option<string>): seq<Violation> {
    (if Present(name) then [] else [Required("name")])
    + (if Present(email) then [] else [Required("email")])
    + (if !Present(password) then [Required("password")]
       else if |password.value| < PasswordMinLength then [TooShort("password", password.value, PasswordMinLength)]
       else [])
  }

  /** The `trim` setter applied to a possibly missing value. */
  function TrimOpt(v: Option<string>): Option<string> {
    match v
    case None => None
    case Some(s) => Some(Trim(s))
  }

  /** The `default` of the `roles.User` path. */
  function WithDefaults(roles: Roles): (r: Roles)
    ensures r.user.Some?
    ensures roles.user.Some? ==> r.user == roles.user
    ensures roles.user.None? ==> r.user == Some(DefaultUserRole)
    ensures r.editor == roles.editor && r.admin == roles.admin
  {
    if roles.user.None? then roles.(user := Some(DefaultUserRole)) else roles
  }

  /** Every record the schema admits: required paths present and trimmed, password long enough. */
  predicate WellFormed(u: User) {
    && |u.name| > 0 && IsTrimmed(u.name)
    && |u.email| > 0 && IsTrimmed(u.email)
    && |u.password| >= PasswordMinLength && IsTrimmed(u.password)
    && u.roles.user.Some?
  }

  /**
   * `new User({...})` followed by `validate()`: setters trim the three string
   * paths, the default fills `roles.User`, and the validators run on the
   * trimmed values. A document without violations is the new record; it has no
   * refresh token.
   */
  function NewUser(id: nat, name: Option<string>, email: Option<string>, password: Option<string>, roles: Roles)
    : (r: Result<User, seq<Violation>>)
    ensures r.Err? <==> Violations(TrimOpt(name), TrimOpt(email), TrimOpt(password)) != []
    ensures r.Err? ==> r.error == Violations(TrimOpt(name), TrimOpt(email), TrimOpt(password))
    ensures r.Ok? ==> && name.Some? && email.Some? && password.Some?
                      && r.value.id == id
                      && r.value.name == Trim(name.value)
                      && r.value.email == Trim(email.value)
                      && r.value.password == Trim(password.value)
                      && r.value.roles == WithDefaults(roles)
                      && r.value.refreshToken == None
  {
    var n, e, p := TrimOpt(name), TrimOpt(email), TrimOpt(password);
    var vs := Violations(n, e, p);
    if vs != [] then Err(vs)
    else Ok(User(id, n.value, e.value, p.value, WithDefaults(roles), None))
  }

  /** A record that `NewUser` builds passes every schema rule. */
  lemma NewUserWellFormed(id: nat, name: Option<string>, email: Option<string>, password: Option<string>, roles: Roles)
    requires NewUser(id, name, email, password, roles).Ok?
    ensures WellFormed(NewUser(id, name, email, password, roles).value)
  {
    TrimSpec(name.value);
    TrimSpec(email.value);
    TrimSpec(password.value);
  }

  /** A missing `name`, `email` or `password` rejects the document. */
  lemma MissingFieldRejected(id: nat, name: Option<string>, email: Option<string>, password: Option<string>, roles: Roles)
    requires name.None? || email.None? || password.None?
    ensures NewUser(id, name, email, password, roles).Err?
  {
  }

  /** `minLength` applies to the stored (trimmed) value, not to anything it was derived from. */
  lemma {:induction false} PasswordLengthChecked(id: nat, name: Option<string>, email: Option<string>, password: string, roles: Roles)
    requires Present(TrimOpt(name)) && Present(TrimOpt(email))
    ensures NewUser(id, name, email, Some(password), roles).Ok? <==> |Trim(password)| >= PasswordMinLength
  {
  }
}
