/**
 * The request dependencies: who the caller is (get_current_user), the role guard
 * (require_role) and the path-based access rule (verify_user_access).
 */
module Deps {
  import opened Wrappers
  import opened Text
  import opened Seqs
  import opened Enums
  import opened Models
  import opened Http

  /** The claims of a decoded bearer token. */
  type Payload = map<string, string>

  function UserKey(u: User): Id
  {
    u.id
  }

  /** `payload.get("sub")` is truthy: present and not the empty string. */
  predicate HasSubject(payload: Payload)
  {
    "sub" in payload && payload["sub"] != ""
  }

  predicate IsActiveWithId(u: User, id: Id)
  {
    u.id == id && u.isActive
  }

  /** `select(UserModel).where(UserModel.id == id, UserModel.is_active == True)`. */
  function ActiveUsersWithId(users: seq<User>, id: Id): (r: seq<User>)
    ensures forall u :: u in r <==> u in users && IsActiveWithId(u, id)
    ensures Distinct(users, UserKey) ==> |r| <= 1
  {
    var p := (u: User) => IsActiveWithId(u, id);
    if Distinct(users, UserKey) then
      FilterAtMostOne(users, p);
      Filter(users, p)
    else
      Filter(users, p)
  }

  /**
   * get_current_user. `decoded` is what decode_token made of the bearer token: None when
   * the signature or the expiry check failed. `users` is the users table.
   */
  function GetCurrentUser(decoded: Option<Payload>, users: seq<User>): (r: Result<User>)
    ensures decoded == None ==> r == Err(HttpError(Unauthorized, "Invalid or expired token"))
    ensures decoded.Some? && !HasSubject(decoded.value) ==> r == Err(HttpError(Unauthorized, "Unauthorized"))
    ensures r.Ok? ==> decoded.Some? && HasSubject(decoded.value)
    ensures r.Ok? ==> r.value in users && IsActiveWithId(r.value, decoded.value["sub"])
    ensures r.Ok? ==> forall u :: u in users && IsActiveWithId(u, decoded.value["sub"]) ==> u == r.value
    ensures (decoded.Some? && HasSubject(decoded.value) &&
             forall u :: u in users ==> !IsActiveWithId(u, decoded.value["sub"])) ==>
              r == Err(HttpError(Unauthorized, "Unauthorized"))
  {
    match decoded
    case None => Err(HttpError(Unauthorized, "Invalid or expired token"))
    case Some(payload) =>
      if !HasSubject(payload) then Err(HttpError(Unauthorized, "Unauthorized"))
      else
        var found := ActiveUsersWithId(users, payload["sub"]);
        if |found| == 0 then Err(HttpError(Unauthorized, "Unauthorized"))
        // scalar_one_or_none raises MultipleResultsFound, which FastAPI answers with a 500
        else if |found| > 1 then
          assert found[0] in found;
          Err(HttpError(InternalServerError, "Internal Server Error"))
        else Ok(found[0])
  }

  /**
   * With user ids unique (they are the table's primary key), authentication succeeds exactly
   * when the token decodes, names a subject, and an active user has that id; every failure is a 401.
   */
  lemma GetCurrentUserOnUniqueIds(decoded: Option<Payload>, users: seq<User>)
    requires Distinct(users, UserKey)
    ensures GetCurrentUser(decoded, users).Ok? <==>
              && decoded.Some?
              && HasSubject(decoded.value)
              && exists u :: u in users && IsActiveWithId(u, decoded.value["sub"])
    ensures GetCurrentUser(decoded, users).Err? ==> GetCurrentUser(decoded, users).error.status == Unauthorized
  {
    if decoded.Some? && HasSubject(decoded.value) {
      var sub := decoded.value["sub"];
      var found := ActiveUsersWithId(users, sub);
      if u :| u in users && IsActiveWithId(u, sub) {
        assert u in found;
      }
    }
  }

  /** require_role(role): the caller passes unchanged when their role is `role`, otherwise 403. */
  function RequireRole(role: UserRole, user: User): (r: Result<User>)
    ensures r.Ok? <==> user.role == role
    ensures r.Ok? ==> r.value == user
    ensures r.Err? ==> r.error == AccessDenied
  {
    if user.role != role then Err(AccessDenied) else Ok(user)
  }

  /**
   * verify_user_access(name, role, user) for a request on /{name}/{role}/...: HR may act on
   * any path; an employee only on their own name with the role segment "employee", both
   * compared case-insensitively.
   */
  function VerifyUserAccess(name: string, role: string, user: User): (ok: bool)
    ensures user.role == Hr ==> ok
    ensures user.role == Employee ==> (ok <==> Lower(user.name) == Lower(name) && Lower(role) == "employee")
  {
    match user.role
    case Hr => true
    case Employee => Lower(user.name) == Lower(name) && user.role.Value() == Lower(role)
  }

  /** An employee is never let in through a path whose role segment reads "hr" in any case. */
  lemma EmployeeNeverHrPath(name: string, role: string, user: User)
    requires user.role == Employee && Lower(role) == "hr"
    ensures !VerifyUserAccess(name, role, user)
  {
  }

  /** Changing the letter case of either path segment, at any positions, changes nothing. */
  lemma VerifyUserAccessIgnoresCase(name: string, role: string, name2: string, role2: string, user: User)
    requires |name2| == |name| && forall i :: 0 <= i < |name| ==> LowerChar(name2[i]) == LowerChar(name[i])
    requires |role2| == |role| && forall i :: 0 <= i < |role| ==> LowerChar(role2[i]) == LowerChar(role[i])
    ensures VerifyUserAccess(name2, role2, user) == VerifyUserAccess(name, role, user)
  {
    LowerIgnoresCase(name2, name);
    LowerIgnoresCase(role2, role);
  }

  /** In particular, upper-casing both path segments changes nothing. */
  lemma VerifyUserAccessUpperCase(name: string, role: string, user: User)
    ensures VerifyUserAccess(Upper(name), Upper(role), user) == VerifyUserAccess(name, role, user)
  {
    LowerOfUpper(name);
    LowerOfUpper(role);
  }

  /** An employee is let in on the path made of their own name and the role segment "employee". */
  lemma EmployeeOwnPath(user: User)
    requires user.role == Employee
    ensures VerifyUserAccess(user.name, "employee", user)
  {
    LowerOfLowerCase("employee");
  }
}
