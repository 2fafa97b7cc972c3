/** Authorization and authentication (app/src/api/api_v1/login_api.py). Password verification
  * (`Hasher.verify_password`), token signing (`jwt.encode`) and token decoding (`jwt.decode`,
  * `None` for a `JWTError`) are parameters; the session is the table `table` of `Crud`. */
module LoginApi {
  import opened Wrappers
  import opened Models
  import opened Crud
  import opened Utils

  const SUPERADMIN_REJECTION: HttpException := HttpException(406, "Superadmin cannot be deleted via API.")
  const CREDENTIALS_EXCEPTION: HttpException := HttpException(401, "Could not validate credentials")
  const LOGIN_FAILURE: HttpException := HttpException(401, "Incorrect username or password")

  /** `check_user_permissions(target_user, current_user)`: raises 406 whenever the acting user is a
    * superadmin; otherwise a user may act on itself, and an admin on a user who is neither an
    * admin nor a superadmin, and on no one else. */
  function CheckUserPermissions(target: User, current: User): (r: Result<bool>)
    ensures r.Raise? <==> IsSuperadmin(current)
    ensures r.Raise? ==> r.exc == SUPERADMIN_REJECTION
    ensures r == Ok(true) <==>
              !IsSuperadmin(current) &&
              (target.id == current.id || (IsAdmin(current) && !IsAdmin(target) && !IsSuperadmin(target)))
  {
    if ROLE_SUPERADMIN in current.roles then Raise(SUPERADMIN_REJECTION)
    else if target.id != current.id then
      if {ROLE_ADMIN, ROLE_SUPERADMIN} * RoleSet(current.roles) == {} then
        assert ROLE_ADMIN !in {ROLE_ADMIN, ROLE_SUPERADMIN} * RoleSet(current.roles);
        Ok(false)
      else if ROLE_SUPERADMIN in target.roles && ROLE_ADMIN in current.roles then Ok(false)
      else if ROLE_ADMIN in target.roles && ROLE_ADMIN in current.roles then Ok(false)
      else Ok(true)
    else Ok(true)
  }

  /** Promoting a user to admin takes it out of another admin's reach. */
  lemma {:induction false} PromotionRevokesAdminAccess(actor: User, target: User, promoted: User)
    requires IsAdmin(actor) && !IsSuperadmin(actor) && target.id != actor.id
    requires !IsAdmin(target) && !IsSuperadmin(target)
    requires promoted.id == target.id && HoldsRoles(promoted, EnrichAdminRoles(target).value)
    ensures CheckUserPermissions(target, actor) == Ok(true)
    ensures CheckUserPermissions(promoted, actor) == Ok(false)
  {
  }

  /** `authenticate_user`: the user found by fullname when the password verifies against its hash;
    * `None` both when no user has the name and when the password is wrong. */
  function AuthenticateUser(table: seq<User>, fullname: string, password: string,
                            verify: (string, string) -> bool): (r: Option<User>)
    ensures r.Some? ==> r.value in table && r.value.fullname == fullname
    ensures r.Some? ==> verify(password, r.value.hashedPassword) && r == ByFullname(table, fullname)
    ensures (forall u :: u in table ==> u.fullname != fullname) ==> r.None?
    ensures ByFullname(table, fullname).Some? && verify(password, ByFullname(table, fullname).value.hashedPassword)
            ==> r.Some?
  {
    match ByFullname(table, fullname)
    case None => None
    case Some(user) =>
      if !verify(password, user.hashedPassword) then None else Some(user)
  }

  /** `payload.get("sub")`, with a JSON `null` read as `None` too. */
  function Subject(payload: Claims): (r: Option<Claim>)
    ensures r != Some(Null)
    ensures r.Some? ==> "sub" in payload && payload["sub"] == r.value
    ensures r.None? ==> "sub" !in payload || payload["sub"] == Null
  {
    if "sub" in payload && payload["sub"] != Null then Some(payload["sub"]) else None
  }

  /** `get_current_user_from_token`: 401 when decoding fails, when there is no subject, or when no
    * user has the subject as fullname; otherwise a live user whose fullname is the subject. */
  function GetCurrentUserFromToken(table: seq<User>, token: string,
                                   decode: string -> Option<Claims>): (r: Result<User>)
    ensures r.Raise? ==> r.exc == CREDENTIALS_EXCEPTION
    ensures decode(token).None? ==> r.Raise?
    ensures r.Ok? <==>
              decode(token).Some? && Subject(decode(token).value).Some? &&
              Subject(decode(token).value).value.Text? &&
              exists u :: u in table && u.fullname == Subject(decode(token).value).value.text
    ensures r.Ok? ==> r.value in table && Subject(decode(token).value) == Some(Text(r.value.fullname))
  {
    match decode(token)
    case None => Raise(CREDENTIALS_EXCEPTION)
    case Some(payload) =>
      match Subject(payload)
      case None => Raise(CREDENTIALS_EXCEPTION)
      case Some(sub) =>
        if !sub.Text? then Raise(CREDENTIALS_EXCEPTION)
        else match ByFullname(table, sub.text)
          case None => Raise(CREDENTIALS_EXCEPTION)
          case Some(user) => Ok(user)
  }

  /** The response body of `login_for_access_token`. */
  datatype TokenResponse = TokenResponse(accessToken: string, tokenType: string)

  /** The claims `login_for_access_token` passes to `create_access_token`. */
  function LoginClaims(fullname: string): (c: Claims)
    ensures c.Keys == {"sub", "other_custom_data"} && "exp" !in c
    ensures Subject(c) == Some(Text(fullname))
  {
    map["sub" := Text(fullname), "other_custom_data" := Numbers([1, 2, 3, 4])]
  }

  /** `login_for_access_token`: 401 when authentication fails; otherwise a bearer token over the
    * claims naming the user, expiring `token_life` minutes from `now`. */
  function LoginForAccessToken(table: seq<User>, username: string, password: string,
                               verify: (string, string) -> bool,
                               now: int, tokenLife: int, encode: Claims -> string): (r: Result<TokenResponse>)
    ensures r.Raise? <==> AuthenticateUser(table, username, password, verify).None?
    ensures r.Raise? ==> r.exc == LOGIN_FAILURE
    ensures r.Ok? ==> r.value.tokenType == "bearer"
    ensures r.Ok? ==>
              r.value.accessToken == encode(LoginClaims(username)["exp" := Instant(now + Minutes(tokenLife))])
  {
    match AuthenticateUser(table, username, password, verify)
    case None => Raise(LOGIN_FAILURE)
    case Some(user) =>
      var accessTokenExpires := Some(Minutes(tokenLife));
      var claims := AccessTokenClaims(LoginClaims(user.fullname), accessTokenExpires, now, tokenLife);
      assert claims == LoginClaims(username)["exp" := Instant(now + Minutes(tokenLife))];
      Ok(TokenResponse(CreateAccessToken(LoginClaims(user.fullname), accessTokenExpires, now, tokenLife, encode),
                       "bearer"))
  }

  /** A token from a successful login resolves, while the table is unchanged, to the user that
    * logged in, provided decoding inverts encoding. */
  lemma {:induction false} LoginThenResolve(table: seq<User>, username: string, password: string,
                                            verify: (string, string) -> bool, now: int, tokenLife: int,
                                            encode: Claims -> string, decode: string -> Option<Claims>)
    requires LoginForAccessToken(table, username, password, verify, now, tokenLife, encode).Ok?
    requires forall c :: decode(encode(c)) == Some(c)
    ensures GetCurrentUserFromToken(
              table, LoginForAccessToken(table, username, password, verify, now, tokenLife, encode).value.accessToken,
              decode)
         == Ok(AuthenticateUser(table, username, password, verify).value)
  {
  }

  /** A soft-deleted user still authenticates: the lookup by fullname does not look at `is_active`. */
  lemma {:induction false} SoftDeletedUserStillAuthenticates(table: seq<User>, userId: Uuid, fullname: string,
                                                             password: string, verify: (string, string) -> bool)
    requires AuthenticateUser(table, fullname, password, verify).Some?
    requires AuthenticateUser(table, fullname, password, verify).value.id == userId
    ensures AuthenticateUser(SoftDeletedRows(table, userId), fullname, password, verify)
         == Some(AuthenticateUser(table, fullname, password, verify).value.(isActive := false))
  {
  }

  /** A token issued before a soft delete still resolves afterwards, to the now inactive record. */
  lemma {:induction false} SoftDeletedUserTokenStillResolves(table: seq<User>, userId: Uuid, token: string,
                                                             decode: string -> Option<Claims>)
    requires GetCurrentUserFromToken(table, token, decode).Ok?
    requires GetCurrentUserFromToken(table, token, decode).value.id == userId
    ensures GetCurrentUserFromToken(SoftDeletedRows(table, userId), token, decode)
         == Ok(GetCurrentUserFromToken(table, token, decode).value.(isActive := false))
  {
  }
}
