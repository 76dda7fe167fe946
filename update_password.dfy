/** The password-change endpoint: an ordered ladder of checks, each with its own status, and
    the update of the stored hash once every check has passed. The signed-in email, the
    password comparison and the new hash are supplied by the caller. */
module UpdatePassword {
  import opened Wrappers
  import opened Values
  import opened Tables
  import opened Users

  const Unauthorized := "Unauthorized"
  const BothRequired := "Current password and new password are required"
  const NewTooShort := "New password must be at least 8 characters"
  const UserNotFound := "User not found"
  const NoPassword := "This account uses Google sign-in and does not have a password"
  const WrongPassword := "Current password is incorrect"
  const Updated := "Password updated successfully"
  const UpdateFailed := "An error occurred while updating password"

  datatype Response = Response(status: nat, ok: bool, text: string)

  /** `newPassword.length < 8`: strings and arrays have a length; an object only through a
      numeric `length` field; any other value has none and the comparison is false. */
  predicate TooShort(v: Value) {
    match v
    case Str(s) => |s| < 8
    case Arr(items) => |items| < 8
    case Obj(fields) => Field(fields, "length").Num? && Field(fields, "length").x < 8.0
    case _ => false
  }

  /** A property of the parsed body: `null` cannot be destructured (nothing, which the
      handler turns into a 500), any non-object value has no such property. */
  function Property(body: Value, key: string): (r: Option<Value>)
    ensures r.None? <==> body.Null? || body.Undefined?
    ensures body.Obj? ==> r == Some(Field(body.fields, key))
  {
    if body.Null? || body.Undefined? then None
    else if body.Obj? then Some(Field(body.fields, key))
    else Some(Undefined)
  }

  /** Where the ladder stops, in order. */
  datatype Stage =
    | NoSession        // no signed-in email
    | Malformed        // the body is not JSON or cannot be destructured
    | Missing          // a password is falsy
    | Short            // the new password is too short
    | Unreachable      // the users table cannot be read
    | NotFound         // no user with that email
    | NoHash           // the user has no stored password
    | BadArgument      // the password comparison or the hashing rejects a non-string
    | Mismatch         // the current password does not match
    | Passed           // every check passed

  /** The check ladder: the first failing rung, given the signed-in email, the parsed body
      (nothing when it is not JSON), whether the table is reachable, the user found, and the
      password comparison. */
  function Ladder(email: Option<string>, body: Option<Value>, unreachable: bool,
                  user: Option<CredentialUser>, verify: (string, string) -> bool): (r: Stage)
    ensures r == NoSession <==> !Present(email)
    ensures r == Passed <==>
      && Present(email) && body.Some?
      && Property(body.value, "currentPassword").Some?
      && Property(body.value, "currentPassword").value.Str?
      && Property(body.value, "currentPassword").value.s != ""
      && Property(body.value, "newPassword").value.Str?
      && |Property(body.value, "newPassword").value.s| >= 8
      && !unreachable && user.Some? && Present(user.value.password)
      && verify(Property(body.value, "currentPassword").value.s, user.value.password.value)
  {
    if !Present(email) then NoSession
    else if body.None? then Malformed
    else
      var current := Property(body.value, "currentPassword");
      var next := Property(body.value, "newPassword");
      if current.None? || next.None? then Malformed
      else if !Truthy(current.value) || !Truthy(next.value) then Missing
      else if TooShort(next.value) then Short
      else if unreachable then Unreachable
      else if user.None? then NotFound
      else if !Present(user.value.password) then NoHash
      else if !current.value.Str? then BadArgument
      else if !verify(current.value.s, user.value.password.value) then Mismatch
      else if !next.value.Str? then BadArgument
      else Passed
  }

  /** The response of each rung. */
  function StageResponse(stage: Stage): (r: Response)
    ensures r.ok <==> stage == Passed
    ensures stage == NoSession <==> r.status == 401
    ensures stage == NotFound <==> r.status == 404
    ensures r.status == 400 <==> stage in {Missing, Short, NoHash, Mismatch}
    ensures r.status == 500 <==> stage in {Malformed, Unreachable, BadArgument}
  {
    match stage
    case NoSession => Response(401, false, Unauthorized)
    case Malformed => Response(500, false, UpdateFailed)
    case Missing => Response(400, false, BothRequired)
    case Short => Response(400, false, NewTooShort)
    case Unreachable => Response(500, false, UpdateFailed)
    case NotFound => Response(404, false, UserNotFound)
    case NoHash => Response(400, false, NoPassword)
    case BadArgument => Response(500, false, UpdateFailed)
    case Mismatch => Response(400, false, WrongPassword)
    case Passed => Response(200, true, Updated)
  }

  /** The early rungs do not depend on the store: no session is 401 whatever the body, and a
      missing or short new password is decided before any lookup. */
  lemma EarlyRungsIgnoreStore(email: Option<string>, body: Option<Value>, unreachable: bool,
                              user: Option<CredentialUser>, verify: (string, string) -> bool,
                              unreachable': bool, user': Option<CredentialUser>,
                              verify': (string, string) -> bool)
    requires Ladder(email, body, unreachable, user, verify) in {NoSession, Malformed, Missing, Short}
    ensures Ladder(email, body, unreachable', user', verify') == Ladder(email, body, unreachable, user, verify)
  {
  }

  /** A new password of fewer than 8 characters is always refused, and nothing accepts it. */
  lemma ShortNewPasswordRefused(email: Option<string>, current: string, newPassword: string,
                                unreachable: bool, user: Option<CredentialUser>,
                                verify: (string, string) -> bool)
    requires Present(Some(current)) && |newPassword| < 8
    ensures var body := Obj([("currentPassword", Str(current)), ("newPassword", Str(newPassword))]);
      Ladder(email, Some(body), unreachable, user, verify) != Passed
  {
    var body := Obj([("currentPassword", Str(current)), ("newPassword", Str(newPassword))]);
    assert Field(body.fields, "newPassword") == Str(newPassword);
  }

  /** `POST /api/auth/update-password`. `email` is the signed-in user's email, `verify` the
      hash comparison and `hashed` the hash of the new password. `updateFails` says the final
      `users:updatePassword` call raised: the handler then answers 500 and nothing is written.
      The users table changes only when every check passes and that call succeeds, and then
      only that user's password and `updatedAt`. */
  method Post(db: Table<User>, email: Option<string>, body: Option<Value>, unreachable: bool,
              verify: (string, string) -> bool, hashed: string, updateFails: bool, now: int)
    returns (response: Response)
    requires db.Valid()
    modifies db
    ensures db.Valid()
    ensures var stage := Ladder(email, body, unreachable,
                                if Present(email) then old(GetUserWithPassword(db, email.value)) else None, verify);
      && response == (if stage == Passed && updateFails then Response(500, false, UpdateFailed)
                      else StageResponse(stage))
      && (stage != Passed || updateFails ==> db.rows == old(db.rows))
      && (stage == Passed && !updateFails ==>
            var id := old(UserByEmail(db, email.value)).value;
            db.rows == old(db.rows)[id := old(db.rows)[id].(password := Some(hashed), updatedAt := now)])
  {
    if !Present(email) {
      return StageResponse(NoSession);
    }
    var user := GetUserWithPassword(db, email.value);
    var stage := Ladder(email, body, unreachable, user, verify);
    if stage != Passed {
      return StageResponse(stage);
    }
    if updateFails {
      return Response(500, false, UpdateFailed);
    }
    var id := Users.UpdatePassword(db, email.value, hashed, now);
    return StageResponse(Passed);
  }
}
