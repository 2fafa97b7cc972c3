# Attendance backend: authentication, authorization and the user table

A Dafny model of the decision and data logic of a FastAPI/SQLAlchemy attendance-tracking
backend:

- the role helpers of the `User` record (`is_superadmin`, `is_admin`, adding and removing the
  `admin` role) — `models.dfy`, module `Models`;
- `UserDAL`, the user data-access object, as a class over an in-memory `users` table: create,
  lookup by id and by fullname, the update guarded by `is_active`, and the soft delete —
  `crud.dfy`, module `Crud`;
- the fullname validator `LETTER_MATCH_PATTERN` and the two request validators that use it —
  `schemas.dfy`, module `Schemas`;
- the claim set built by `create_access_token` — `utils.dfy`, module `Utils`;
- `check_user_permissions`, `authenticate_user`, `get_current_user_from_token` and
  `login_for_access_token` — `login_api.dfy`, module `LoginApi`;
- the shared `Option` and `Result` (a value or a raised `HTTPException`) — `wrappers.dfy`.

The table is a sequence of rows in insertion order, and `fetchone()` yields the first selected
row in that order. bcrypt verification, JWT signing and JWT decoding are function-valued
parameters (`verify`, `encode`, `decode`). The clock reading `now` and the configured token
lifetime `tokenLife` are parameters too. Times are whole seconds.

Two behaviours of the code are worth stating up front:

- `check_user_permissions` raises 406 whenever the acting user holds `superadmin`, whatever the
  target (login_api.py:21-24).
- The lookup by fullname ignores `is_active` (crud.py:52-57). So a soft-deleted user still logs
  in and its tokens still resolve (`LoginApi.SoftDeletedUserStillAuthenticates`,
  `LoginApi.SoftDeletedUserTokenStillResolves`).

## Model

| member | source | states |
|---|---|---|
| `Models.IsSuperadmin` | app/src/db/models.py:27-29 | holds exactly when `superadmin` is among the user's roles |
| `Models.IsAdmin` | app/src/db/models.py:31-33 | holds exactly when `admin` is among the user's roles |
| `Models.EnrichAdminRoles` | app/src/db/models.py:35-37 | a new set exactly when the user is not an admin; it holds every prior role plus `admin`, one more than before; `None` for an admin |
| `Models.RemoveAdminPrivileges` | app/src/db/models.py:39-41 | a new set exactly when the user is an admin; it holds every prior role except `admin`, one fewer; `None` for a non-admin |
| `Models.RemoveAfterEnrich` | app/src/db/models.py:35-41 | for a non-admin, storing the enriched roles and then removing admin gives back the original role set |
| `Models.EnrichAfterRemove` | app/src/db/models.py:35-41 | for an admin, storing the reduced roles and then enriching gives back the original role set |
| `Crud.FirstIndex` | app/src/db/crud.py:45-57 | the first row the `WHERE` clause selects: it matches, no earlier row matches, and `None` only when no row matches |
| `Crud.FetchOne` | app/src/db/crud.py:45-57 | `fetchone()` returns a matching row of the table, and `None` exactly when no row matches |
| `Crud.ById` | app/src/db/crud.py:45-50 | a row of the table with that id, or `None` exactly when no row has it |
| `Crud.ByFullname` | app/src/db/crud.py:52-57 | a row of the table with that fullname, or `None` exactly when no row has it |
| `Crud.UpdatedRows` | app/src/db/crud.py:59-65 | the active row with that id is patched; the update keeps the row count and every id; inactive rows and rows with other ids are unchanged |
| `Crud.SoftDeletedRows` | app/src/db/crud.py:33-37 | keyed on `id`: every row with that id ends inactive with its other columns unchanged; all other rows are unchanged |
| `Crud.Patched` | app/src/db/crud.py:59-65 | each column given in the keyword arguments takes the given value, each omitted column keeps its value, and the id never changes |
| `Crud.FirstIndexOfSameSelection` | app/src/db/crud.py:33-69 | two tables whose rows agree position by position on a `WHERE` clause select the same first row |
| `Crud.ByIdFindsRow` | app/src/db/crud.py:45-50 | under the primary-key constraint, looking up a row's id returns exactly that row |
| `Crud.ByIdAfterSoftDelete` | app/src/db/crud.py:33-50 | after a soft delete, the lookup by id returns the same record with `is_active` false: the record stays |
| `Crud.ByFullnameAfterSoftDelete` | app/src/db/crud.py:33-57 | after a soft delete, the lookup by fullname returns the same row as before, deactivated if it had the deleted id |
| `Crud.SecondDeleteFindsNothing` | app/src/db/crud.py:33-43 | after a soft delete no active row has that id, so a second delete returns `None` |
| `Crud.SoftDeleteIsDeactivatingUpdate` | app/src/db/crud.py:33-69 | the soft delete leaves the same table as an update setting `is_active` to false |
| `Crud.ByIdAfterUpdate` | app/src/db/crud.py:59-69 | after an update, the lookup by id returns the patched record if it was active and the unchanged record if not |
| `Crud.UpdateWithoutMatchIsNoOp` | app/src/db/crud.py:59-69 | an update for a missing or inactive id leaves the table unchanged |
| `Crud.CreatedRowIsFound` | app/src/db/crud.py:16-31 | a row added under a fresh id keeps ids unique and is what the lookup by that id returns |
| `Crud.DeleteUserAsWritten` | app/src/db/crud.py:33-39 | as written, every call to `delete_user` raises, because `User` has no attribute `user_id` |
| `Crud.DeleteUserAsWrittenNeverDeletes` | app/src/db/crud.py:33-43 | as written, deleting an active user always raises and never reports success |
| `Crud.UserDAL.constructor` | app/src/db/crud.py:13-14 | the access object wraps a session whose table has unique ids |
| `Crud.UserDAL.CreateUser` | app/src/db/crud.py:16-31 | appends exactly `(id, fullname, hashed_password, is_active = true, roles)`, returns it, and then finds it by id; a taken id changes nothing and returns `None` |
| `Crud.UserDAL.GetUserById` | app/src/db/crud.py:45-50 | the one row with that id, active or not; `None` exactly when no row has it |
| `Crud.UserDAL.GetUserByFullname` | app/src/db/crud.py:52-57 | some row with that fullname, active or not; `None` exactly when no row has it |
| `Crud.UserDAL.UpdateUser` | app/src/db/crud.py:59-69 | returns the id exactly when an active row has it; patches that row; leaves every other row and the row count as they were; a `None` result leaves the table unchanged |
| `Crud.UserDAL.DeleteUser` | app/src/db/crud.py:33-43 | keyed on `id`: returns the id exactly when an active row has it; deactivates that row, which stays retrievable by id; leaves every other row unchanged; afterwards no active row has the id |
| `Schemas.IsNameChar` | app/src/db/schemas.py:12 | a character is in the class exactly when it is `-`, an ASCII letter or a Cyrillic letter in U+0410–U+044F; `Ё` and `ё` are not among them |
| `Schemas.NameRun` | app/src/db/schemas.py:12 | the greedy `[...]+` run: every character in it is in the class, and the character after it is not |
| `Schemas.MatchesLetterPattern` | app/src/db/schemas.py:12 | `re.match` succeeds exactly for a non-empty string of class characters, optionally followed by one newline |
| `Schemas.ForeignCharacterRejected` | app/src/db/schemas.py:12 | a character outside the class anywhere except as a final newline makes the match fail |
| `Schemas.ExcludedCharacters` | app/src/db/schemas.py:12 | space, apostrophe, newline, digits, `ё` and `Ё` are outside the class |
| `Schemas.ValidateSurname` | app/src/db/schemas.py:32-38 | accepts exactly the names the pattern matches and returns them unchanged; otherwise status 422 |
| `Schemas.ValidateUpdateFullname` | app/src/db/schemas.py:49-58 | a missing key passes as `None`, and only it does; an explicit `null` reaches the validator and fails with 422; an empty string fails the length rule with 422; a string passes exactly when the pattern matches, unchanged, else 422 |
| `Schemas.ValidatorsAgree` | app/src/db/schemas.py:32-58 | both validators accept the same non-empty names |
| `Utils.Expiry` | app/src/core/utils.py:11-14 | `now + expires_delta` for a present non-zero delta, else `now + token_life` minutes |
| `Utils.AccessTokenClaims` | app/src/core/utils.py:9-15 | the claims are the caller's keys plus `exp`; every other key keeps its value; `exp` is the expiry |
| `Utils.CallerExpIgnored` | app/src/core/utils.py:10-15 | an `exp` in the caller's data has no effect: the claims equal those built from the data without it |
| `Utils.CreateAccessToken` | app/src/core/utils.py:9-19 | the token is the encoding of the claims built from the caller's data with any `exp` of its own discarded |
| `LoginApi.CheckUserPermissions` | app/src/api/api_v1/login_api.py:20-44 | raises 406 exactly when the actor holds `superadmin`; otherwise allows exactly self-service, or an admin acting on a user who is neither admin nor superadmin; every other case is `False` |
| `LoginApi.PromotionRevokesAdminAccess` | app/src/api/api_v1/login_api.py:20-44 | an admin may act on a client, but not on that user once its roles are enriched with `admin` |
| `LoginApi.AuthenticateUser` | app/src/api/api_v1/login_api.py:55-63 | returns the looked-up user with that fullname when the password verifies against its hash; `None` when no user has the name or the password fails |
| `LoginApi.Subject` | app/src/api/api_v1/login_api.py:77-78 | the `sub` claim when present and not `null`, otherwise `None` |
| `LoginApi.GetCurrentUserFromToken` | app/src/api/api_v1/login_api.py:66-85 | 401 on a decode failure, a missing or null `sub`, or no user with that fullname; otherwise a user of the table whose fullname is `sub` |
| `LoginApi.LoginClaims` | app/src/api/api_v1/login_api.py:100 | exactly the keys `sub` and `other_custom_data`, with no `exp`; the subject is the user's fullname |
| `LoginApi.LoginForAccessToken` | app/src/api/api_v1/login_api.py:88-103 | 401 exactly when authentication fails; otherwise a `bearer` token encoding `sub` = the username, the custom data, and `exp` = now + `token_life` minutes |
| `LoginApi.LoginThenResolve` | app/src/api/api_v1/login_api.py:66-103 | when decoding inverts encoding, a token from a successful login resolves to the user who logged in |
| `LoginApi.SoftDeletedUserStillAuthenticates` | app/src/api/api_v1/login_api.py:47-63 | a soft-deleted user still authenticates, as its now inactive record |
| `LoginApi.SoftDeletedUserTokenStillResolves` | app/src/api/api_v1/login_api.py:66-85 | a token of a soft-deleted user still resolves, to its now inactive record |

## Left out

- bcrypt hashing and verification, JWT signing and decoding (app/src/core/utils.py:16-32): foreign libraries. They are the parameters `verify`, `encode` and `decode`. Token expiry checking happens inside `decode`.
- Async sessions, transactions, `flush` and engine setup (app/src/db/session.py): I/O and concurrency plumbing. The session is the in-memory table; every operation is atomic.
- The order of `fetchone()` rows: the database gives no order. The model takes the first row in insertion order. Where fullnames repeat, the real system may return a different row with the same fullname.
- `create_user` on a taken id: the database raises an integrity error at `flush`. The model returns `None` and leaves the table unchanged. The `uuid4` default key is never used, because `create_user` always passes an id.
- `update_user` keyword arguments: the model's patch covers `fullname`, `hashed_password`, `is_active` and `roles`. Changing the primary key and unknown column names (an SQL error) are not modelled. An empty patch is modelled as changing nothing. A keyword argument whose value is `None` is not modelled either. It stores NULL in `is_active`, a nullable column (app/src/db/models.py:24), and the `is_active == True` guard never selects that row again. In the other columns it violates NOT NULL and raises an integrity error.
- `LoginApi.GetCurrentUserFromToken`: `decode` stands for `jwt.decode`, which itself rejects a `sub` that is not a string. That rejection is a `JWTError`, so it ends in the 401 of login_api.py:80-81. The model gives the same 401 for a non-string `sub` that `decode` lets through; the lookup by fullname is never reached.
- `LoginApi.CheckUserPermissions`: what a caller does with a `False` result is not modelled. None of the modelled files calls it, and the router module that app/src/main.py mounts (`users_api`) is not part of this model.
- `Utils.Expiry`: `timedelta(minutes=token_life)` and `datetime.utcnow() + delta` raise `OverflowError` outside the range of Python's `datetime` (utils.py:12, 14; login_api.py:98). The model uses unbounded integers and never fails there.
- Time is whole seconds. The conversion of the `exp` datetime to a timestamp happens inside `jwt.encode`, which is the `encode` parameter.
- `FacultyDAL`, `StudyYearDAL`, `ChangeDAL` (app/src/db/crud.py:72-131): they build `User` rows with fields the model does not have, and `ChangeDAL` uses an undefined name. There is no coherent behaviour to state.
- The route handler `create_user` (app/src/api/api_v1/handlers.py): HTTP glue. It also calls `create_user` with keyword arguments that `UserDAL.create_user` does not accept.
- Settings loading, router wiring, static files and migrations (app/src/core/settings.py, app/src/main.py, app/migrations): configuration with no logic. `token_life` is a parameter.
- The dimension-table records (`Faculty`, `StudyYear`, `Change`, `Profession`, `Group`, `Student`, `GeneralAttendance`): column declarations with no behaviour.
- Default role assignment on registration: the code assigns no roles on its own; `create_user` stores the roles it is given.

## Findings

| source | as written | input that shows it | evidently intended | confidence | as-written member | corrected member |
|---|---|---|---|---|---|---|
| app/src/db/crud.py:36-38 | `delete_user` filters on and returns `User.user_id`, but `User` defines its key as `id` (app/src/db/models.py:21). Reading the missing attribute raises `AttributeError` before any SQL runs. | any call, e.g. `delete_user` on the id of an active user | filter on and return `User.id`, as `update_user` does | high for the missing attribute; not executed | `Crud.DeleteUserAsWritten` | `Crud.UserDAL.DeleteUser` |
