/**
 * The `/api` router of routes/auth.js: which route runs which
 * express-validator checks before its handler, and the error list that
 * `validationResult` then holds.
 */
module AuthRoutes {
  import opened Wrappers

  /** The request body fields the handlers read; a field the client left out is `None`. */
  datatype RequestBody = RequestBody(name: Option<string>, email: Option<string>, pwd: Option<string>)

  datatype Field = Name | Email | Pwd

  /** The validator a `check(...)` chain applies. */
  datatype Rule = MinLength(min: nat) | IsEmail

  /** One `check(field, message).rule()` entry. */
  datatype Check = Check(field: Field, message: string, rule: Rule)

  datatype Route = Register | Login | Refresh | Logout

  const NameMessage: string := "Name should be at least 3 characters"
  const EmailMessage: string := "Email should be valid"
  const PwdMessage: string := "Password should be at least 8 characters"

  /** The checks mounted in front of each route's handler, in declaration order. */
  function Validators(route: Route): (r: seq<Check>)
    ensures r != [] <==> route == Register
  {
    match route
    case Register => [Check(Name, NameMessage, MinLength(3)),
                      Check(Email, EmailMessage, IsEmail),
                      Check(Pwd, PwdMessage, MinLength(8))]
    case _ => []
  }

  /** The value a standard validator sees: a missing field reads as the empty string. */
  function FieldValue(body: RequestBody, f: Field): string {
    var v := match f
      case Name => body.name
      case Email => body.email
      case Pwd => body.pwd;
    if v.Some? then v.value else ""
  }

  /** Whether one check passes; `isEmail` is the library's e-mail predicate. */
  predicate Passes(c: Check, body: RequestBody, isEmail: string -> bool) {
    var v := FieldValue(body, c.field);
    match c.rule
    case MinLength(n) => |v| >= n
    case IsEmail => isEmail(v)
  }

  /** The messages of the failing checks, in the order the checks are declared. */
  function Errors(checks: seq<Check>, body: RequestBody, isEmail: string -> bool): (errs: seq<string>)
    ensures |errs| <= |checks|
    ensures errs == [] <==> forall i :: 0 <= i < |checks| ==> Passes(checks[i], body, isEmail)
    ensures errs != [] ==> exists i :: && 0 <= i < |checks|
                                       && !Passes(checks[i], body, isEmail)
                                       && errs[0] == checks[i].message
                                       && forall j :: 0 <= j < i ==> Passes(checks[j], body, isEmail)
  {
    if checks == [] then []
    else if Passes(checks[0], body, isEmail) then Errors(checks[1..], body, isEmail)
    else [checks[0].message] + Errors(checks[1..], body, isEmail)
  }

  /** The number of checks in `checks` that fail. */
  function FailingCount(checks: seq<Check>, body: RequestBody, isEmail: string -> bool): nat {
    if checks == [] then 0
    else FailingCount(checks[..|checks| - 1], body, isEmail) + if Passes(checks[|checks| - 1], body, isEmail) then 0 else 1
  }

  /** The error list has one entry per failing check. */
  lemma {:induction false} ErrorsCount(checks: seq<Check>, body: RequestBody, isEmail: string -> bool)
    ensures |Errors(checks, body, isEmail)| == FailingCount(checks, body, isEmail)
  {
    if checks != [] {
      ErrorsCount(checks[1..], body, isEmail);
      FailingCountFront(checks, body, isEmail);
    }
  }

  /**
   * The error list holds the failing checks' messages in declaration order:
   * a failing check's message sits at the position given by the number of
   * failing checks before it. With `ErrorsCount` this fixes the whole list.
   */
  lemma {:induction false} ErrorsInOrder(checks: seq<Check>, body: RequestBody, isEmail: string -> bool)
    ensures forall i :: 0 <= i < |checks| && !Passes(checks[i], body, isEmail) ==>
              && FailingCount(checks[..i], body, isEmail) < |Errors(checks, body, isEmail)|
              && Errors(checks, body, isEmail)[FailingCount(checks[..i], body, isEmail)] == checks[i].message
  {
    if checks != [] {
      var t := checks[1..];
      var errs := Errors(checks, body, isEmail);
      ErrorsInOrder(t, body, isEmail);
      forall i | 0 <= i < |checks| && !Passes(checks[i], body, isEmail)
        ensures FailingCount(checks[..i], body, isEmail) < |errs|
        ensures errs[FailingCount(checks[..i], body, isEmail)] == checks[i].message
      {
        if i > 0 {
          assert checks[i] == t[i - 1];
          FailingCountFront(checks[..i], body, isEmail);
          assert checks[..i][1..] == t[..i - 1];
        } else {
          assert checks[..0] == [];
        }
      }
    }
  }

  /** A message is in the error list exactly when some failing check carries it. */
  lemma {:induction false} ErrorsFromFailing(checks: seq<Check>, body: RequestBody, isEmail: string -> bool, m: string)
    ensures m in Errors(checks, body, isEmail) <==>
              exists i :: 0 <= i < |checks| && !Passes(checks[i], body, isEmail) && checks[i].message == m
  {
    if checks != [] {
      var t := checks[1..];
      ErrorsFromFailing(t, body, isEmail, m);
      if exists j :: 0 <= j < |t| && !Passes(t[j], body, isEmail) && t[j].message == m {
        var j :| 0 <= j < |t| && !Passes(t[j], body, isEmail) && t[j].message == m;
        assert checks[j + 1] == t[j];
      }
      if exists i :: 0 <= i < |checks| && !Passes(checks[i], body, isEmail) && checks[i].message == m {
        var i :| 0 <= i < |checks| && !Passes(checks[i], body, isEmail) && checks[i].message == m;
        if i > 0 { assert t[i - 1] == checks[i]; }
      }
    }
  }

  /** Counting the failing checks from the front agrees with counting from the back. */
  lemma {:induction false} FailingCountFront(checks: seq<Check>, body: RequestBody, isEmail: string -> bool)
    requires checks != []
    ensures FailingCount(checks, body, isEmail) ==
              (if Passes(checks[0], body, isEmail) then 0 else 1) + FailingCount(checks[1..], body, isEmail)
  {
    if |checks| > 1 {
      var n := |checks| - 1;
      FailingCountFront(checks[..n], body, isEmail);
      assert checks[..n][1..] == checks[1..][..n - 1];
      assert checks[..n][0] == checks[0];
      assert checks[1..][n - 1] == checks[n];
    } else {
      assert checks[..0] == [] && checks[1..] == [];
    }
  }

  /** The register error list is empty exactly when all three fields pass. */
  lemma RegisterValid(body: RequestBody, isEmail: string -> bool)
    ensures Errors(Validators(Register), body, isEmail) == [] <==>
              && |FieldValue(body, Name)| >= 3
              && isEmail(FieldValue(body, Email))
              && |FieldValue(body, Pwd)| >= 8
  {
    var cs := Validators(Register);
    if Errors(cs, body, isEmail) == [] {
      assert Passes(cs[0], body, isEmail) && Passes(cs[1], body, isEmail) && Passes(cs[2], body, isEmail);
    }
  }

  /**
   * The first error of `/register` is the first failing check in the order
   * name, e-mail, password.
   */
  lemma RegisterFirstError(body: RequestBody, isEmail: string -> bool)
    ensures var errs := Errors(Validators(Register), body, isEmail);
            && (|FieldValue(body, Name)| < 3 ==> errs != [] && errs[0] == NameMessage)
            && (|FieldValue(body, Name)| >= 3 && !isEmail(FieldValue(body, Email)) ==>
                  errs != [] && errs[0] == EmailMessage)
            && (|FieldValue(body, Name)| >= 3 && isEmail(FieldValue(body, Email)) && |FieldValue(body, Pwd)| < 8 ==>
                  errs != [] && errs[0] == PwdMessage)
  {
    var cs := Validators(Register);
    assert cs[1..][1..] == [cs[2]];
  }

  /** `/login`, `/refresh` and `/logout` reach their handlers with no validation error. */
  lemma UncheckedRoutes(route: Route, body: RequestBody, isEmail: string -> bool)
    requires route != Register
    ensures Errors(Validators(route), body, isEmail) == []
  {
  }

  /** A register request that passes validation carries all three fields. */
  lemma ValidRegisterHasFields(body: RequestBody, isEmail: string -> bool)
    requires !isEmail("")
    requires Errors(Validators(Register), body, isEmail) == []
    ensures body.name.Some? && body.email.Some? && body.pwd.Some?
    ensures |body.name.value| >= 3 && |body.pwd.value| >= 8 && isEmail(body.email.value)
  {
    RegisterValid(body, isEmail);
  }
}
