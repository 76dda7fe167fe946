/** The sign-up endpoint: the `registerSchema` validation of the JSON body, the duplicate-email
    check against the users table, and the creation of a password account. Hashing is a value
    supplied by the caller and whether a string passes the e-mail format check is a predicate
    supplied by the caller. */
module Register {
  import opened Wrappers
  import opened Values
  import opened Tables
  import opened Users

  const NameTooShort := "Name must be at least 2 characters"
  const InvalidEmail := "Invalid email address"
  const PasswordTooShort := "Password must be at least 8 characters"
  const NoUppercase := "Password must contain at least one uppercase letter"
  const NoLowercase := "Password must contain at least one lowercase letter"
  const NoNumber := "Password must contain at least one number"
  const Required := "Required"
  const DuplicateEmail := "An account with this email already exists"
  const Created := "Account created successfully"
  const RegistrationFailed := "An error occurred during registration"

  /** The type name the schema library reports for a value that is not of the expected type. */
  function TypeName(v: Value): string {
    match v
    case Undefined => "undefined"
    case Null => "null"
    case Bool(_) => "boolean"
    case Num(_) => "number"
    case NaN => "nan"
    case Str(_) => "string"
    case Arr(_) => "array"
    case Obj(_) => "object"
  }

  /** The issue of a value that is not a string: "Required" when it is missing. */
  function NotStringIssue(v: Value): (r: string)
    requires !v.Str?
    ensures v.Undefined? <==> r == Required
  {
    if v.Undefined? then Required else "Expected string, received " + TypeName(v)
  }

  predicate HasUpper(s: string) {
    exists i :: 0 <= i < |s| && 'A' <= s[i] <= 'Z'
  }

  predicate HasLower(s: string) {
    exists i :: 0 <= i < |s| && 'a' <= s[i] <= 'z'
  }

  predicate HasDigit(s: string) {
    exists i :: 0 <= i < |s| && '0' <= s[i] <= '9'
  }

  /** The password policy: at least 8 characters with an uppercase letter, a lowercase letter
      and a digit. */
  predicate StrongPassword(s: string) {
    |s| >= 8 && HasUpper(s) && HasLower(s) && HasDigit(s)
  }

  /** The issues of the `name` field, in check order. */
  function NameIssues(name: Value): (r: seq<string>)
    ensures r == [] <==> name.Str? && |name.s| >= 2
  {
    if !name.Str? then [NotStringIssue(name)]
    else if |name.s| < 2 then [NameTooShort]
    else []
  }

  /** The issues of the `email` field. */
  function EmailIssues(email: Value, isEmail: string -> bool): (r: seq<string>)
    ensures r == [] <==> email.Str? && isEmail(email.s)
  {
    if !email.Str? then [NotStringIssue(email)]
    else if !isEmail(email.s) then [InvalidEmail]
    else []
  }

  /** The issues of the `password` field: a string collects every failed rule, in the order
      length, uppercase, lowercase, digit. */
  function PasswordIssues(password: Value): (r: seq<string>)
    ensures r == [] <==> password.Str? && StrongPassword(password.s)
    ensures password.Str? ==>
      && (PasswordTooShort in r <==> |password.s| < 8)
      && (NoUppercase in r <==> !HasUpper(password.s))
      && (NoLowercase in r <==> !HasLower(password.s))
      && (NoNumber in r <==> !HasDigit(password.s))
  {
    if !password.Str? then [NotStringIssue(password)]
    else
      var s := password.s;
      (if |s| < 8 then [PasswordTooShort] else [])
      + (if !HasUpper(s) then [NoUppercase] else [])
      + (if !HasLower(s) then [NoLowercase] else [])
      + (if !HasDigit(s) then [NoNumber] else [])
  }

  /** Every issue of the parsed body, in the order the schema reports them. A body that is not
      an object has one issue. */
  function Issues(body: Value, isEmail: string -> bool): seq<string> {
    if !body.Obj? then [if body.Undefined? then Required else "Expected object, received " + TypeName(body)]
    else
      NameIssues(Field(body.fields, "name"))
      + EmailIssues(Field(body.fields, "email"), isEmail)
      + PasswordIssues(Field(body.fields, "password"))
  }

  /** A body is accepted exactly when it is an object whose name has at least 2 characters,
      whose email passes the format check and whose password is strong. */
  lemma AcceptedExactly(body: Value, isEmail: string -> bool)
    ensures Issues(body, isEmail) == [] <==>
      && body.Obj?
      && var name := Field(body.fields, "name");
      && var email := Field(body.fields, "email");
      && var password := Field(body.fields, "password");
      && name.Str? && |name.s| >= 2
      && email.Str? && isEmail(email.s)
      && password.Str? && StrongPassword(password.s)
  {
    if body.Obj? {
      var n := NameIssues(Field(body.fields, "name"));
      var e := EmailIssues(Field(body.fields, "email"), isEmail);
      var p := PasswordIssues(Field(body.fields, "password"));
      assert Issues(body, isEmail) == n + e + p;
      assert |n + e + p| == |n| + |e| + |p|;
    }
  }

  /** The first issue reported: a bad name is reported before anything about the email, and a
      bad email before anything about the password. */
  lemma FirstIssueOrder(body: Value, isEmail: string -> bool)
    requires body.Obj?
    ensures var n := NameIssues(Field(body.fields, "name"));
      var e := EmailIssues(Field(body.fields, "email"), isEmail);
      var p := PasswordIssues(Field(body.fields, "password"));
      && (n != [] ==> Issues(body, isEmail)[0] == n[0])
      && (n == [] && e != [] ==> Issues(body, isEmail)[0] == e[0])
      && (n == [] && e == [] && p != [] ==> Issues(body, isEmail)[0] == p[0])
  {
    var n := NameIssues(Field(body.fields, "name"));
    var e := EmailIssues(Field(body.fields, "email"), isEmail);
    var p := PasswordIssues(Field(body.fields, "password"));
    assert Issues(body, isEmail) == n + e + p;
    if n == [] {
      assert n + e + p == e + p;
    }
    if n == [] && e == [] {
      assert n + e + p == p;
    }
  }

  /** Among the password rules, the length rule is reported first, then uppercase, lowercase
      and digit: the message names the first rule the password breaks. */
  lemma PasswordFirstIssue(s: string)
    requires !StrongPassword(s)
    ensures PasswordIssues(Str(s))[0] ==
      if |s| < 8 then PasswordTooShort
      else if !HasUpper(s) then NoUppercase
      else if !HasLower(s) then NoLowercase
      else NoNumber
  {
  }

  /** The validated input. */
  datatype Registration = Registration(name: string, email: string, password: string)

  /** `registerSchema.safeParse`: the first issue, or the three validated strings. */
  function Parse(body: Value, isEmail: string -> bool): (r: Result<Registration>)
    ensures r.Err? <==> Issues(body, isEmail) != []
    ensures r.Err? ==> r.error == Issues(body, isEmail)[0]
    ensures r.Ok? ==>
      && body.Obj?
      && Field(body.fields, "name") == Str(r.value.name) && |r.value.name| >= 2
      && Field(body.fields, "email") == Str(r.value.email) && isEmail(r.value.email)
      && Field(body.fields, "password") == Str(r.value.password) && StrongPassword(r.value.password)
  {
    AcceptedExactly(body, isEmail);
    var issues := Issues(body, isEmail);
    if issues != [] then Err(issues[0])
    else Ok(Registration(Field(body.fields, "name").s, Field(body.fields, "email").s,
                         Field(body.fields, "password").s))
  }

  /** The HTTP response: a status and either a message or an error text. */
  datatype Response = Response(status: nat, ok: bool, text: string)

  /** What `POST` answers, given whether the body parsed as JSON and whether the email
      is already registered (when the store is reachable). */
  function RegisterOutcome(body: Option<Value>, isEmail: string -> bool, emailTaken: bool): (r: Response)
    ensures body.None? ==> r == Response(500, false, RegistrationFailed)
    ensures body.Some? && Issues(body.value, isEmail) != [] ==>
      r == Response(400, false, Issues(body.value, isEmail)[0])
    ensures body.Some? && Issues(body.value, isEmail) == [] ==>
      r == if emailTaken then Response(400, false, DuplicateEmail) else Response(201, true, Created)
    ensures r.status == 201 <==> r.ok
  {
    if body.None? then Response(500, false, RegistrationFailed)
    else match Parse(body.value, isEmail)
      case Err(issue) => Response(400, false, issue)
      case Ok(_) => if emailTaken then Response(400, false, DuplicateEmail) else Response(201, true, Created)
  }

  /** `POST /api/auth/register`. `body` is the parsed request (nothing when it is not JSON),
      `hashed` the hash of the password, `unreachable` a failing store. Invalid input is
      rejected before the users table is read; a known email creates nothing; otherwise one
      password account with provider "credentials" is inserted. */
  method Post(db: Table<User>, body: Option<Value>, isEmail: string -> bool, hashed: string,
              unreachable: bool, now: int)
    returns (response: Response)
    requires db.Valid()
    modifies db
    ensures db.Valid()
    ensures body.None? || Parse(body.value, isEmail).Err? ==>
      response == RegisterOutcome(body, isEmail, false) && db.rows == old(db.rows)
    ensures body.Some? && Parse(body.value, isEmail).Ok? && unreachable ==>
      response == Response(500, false, RegistrationFailed) && db.rows == old(db.rows)
    ensures body.Some? && Parse(body.value, isEmail).Ok? && !unreachable ==>
      var input := Parse(body.value, isEmail).value;
      && response == RegisterOutcome(body, isEmail, old(GetUser(db, input.email)).Some?)
      && (old(GetUser(db, input.email)).Some? ==> db.rows == old(db.rows))
      && (old(GetUser(db, input.email)).None? ==>
            exists id: Id :: id !in old(db.rows)
              && db.rows == old(db.rows)[id := User(input.name, input.email, Some(hashed),
                                                     None, Some("credentials"), None, now, now)]
              && UserByEmail(db, input.email) == Some(id))
  {
    if body.None? {
      return Response(500, false, RegistrationFailed);
    }
    var parsed := Parse(body.value, isEmail);
    if parsed.Err? {
      return Response(400, false, parsed.error);
    }
    if unreachable {
      return Response(500, false, RegistrationFailed);
    }
    var input := parsed.value;
    var existing := GetUser(db, input.email);
    if existing.Some? {
      return Response(400, false, DuplicateEmail);
    }
    var id := SaveUser(db, input.name, input.email, Some(hashed), None, Some("credentials"), None, now);
    return Response(201, true, Created);
  }
}
