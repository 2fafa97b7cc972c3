/** `UserDAL` (app/src/db/crud.py) over an in-memory `users` table. The table is a sequence
  * of rows in insertion order; a query's `fetchone()` yields the first row in that order. */
module Crud {
  import opened Wrappers
  import opened Models

  /** The primary-key constraint of `users`. */
  ghost predicate UniqueIds(rows: seq<User>)
  {
    forall i, j :: 0 <= i < j < |rows| ==> rows[i].id != rows[j].id
  }

  /** Index of the first row a `WHERE` clause selects, if any. */
  function FirstIndex(rows: seq<User>, matches: User -> bool): (r: Option<nat>)
    ensures r.Some? ==> r.value < |rows| && matches(rows[r.value])
    ensures r.Some? ==> forall j :: 0 <= j < r.value ==> !matches(rows[j])
    ensures r.None? ==> forall j :: 0 <= j < |rows| ==> !matches(rows[j])
    decreases |rows|
  {
    if |rows| == 0 then None
    else if matches(rows[0]) then Some(0)
    else match FirstIndex(rows[1..], matches)
      case None => None
      case Some(k) => Some(k + 1)
  }

  /** `select(User).where(...)` followed by `fetchone()`. */
  function FetchOne(rows: seq<User>, matches: User -> bool): (r: Option<User>)
    ensures r.Some? ==> r.value in rows && matches(r.value)
    ensures r.None? <==> forall u :: u in rows ==> !matches(u)
  {
    match FirstIndex(rows, matches)
    case None => None
    case Some(i) => Some(rows[i])
  }

  /** `select(User).where(User.id == userId)`. */
  function ById(rows: seq<User>, userId: Uuid): (r: Option<User>)
    ensures r.Some? ==> r.value in rows && r.value.id == userId
    ensures r.None? <==> forall u :: u in rows ==> u.id != userId
  {
    FetchOne(rows, (u: User) => u.id == userId)
  }

  /** `select(User).where(User.fullname == fullname)`. */
  function ByFullname(rows: seq<User>, fullname: string): (r: Option<User>)
    ensures r.Some? ==> r.value in rows && r.value.fullname == fullname
    ensures r.None? <==> forall u :: u in rows ==> u.fullname != fullname
  {
    FetchOne(rows, (u: User) => u.fullname == fullname)
  }

  /** The `WHERE` clause shared by `update_user` and `delete_user`. */
  predicate ActiveWithId(u: User, userId: Uuid)
  {
    u.id == userId && u.isActive
  }

  /** Some row is selected by `update_user`/`delete_user` for `userId`. */
  predicate HasActiveRow(rows: seq<User>, userId: Uuid)
  {
    exists i :: 0 <= i < |rows| && ActiveWithId(rows[i], userId)
  }

  /** The keyword arguments `update_user` passes to `.values(kwargs)`: each column may be set. */
  datatype UserPatch = UserPatch(
    fullname: Option<string>,
    hashedPassword: Option<string>,
    isActive: Option<bool>,
    roles: Option<seq<string>>)

  /** The row after `.values(patch)`; the key is not among the columns a patch sets. */
  function Patched(u: User, patch: UserPatch): (v: User)
    ensures v.id == u.id
    ensures v.fullname == (if patch.fullname.Some? then patch.fullname.value else u.fullname)
    ensures v.hashedPassword == (if patch.hashedPassword.Some? then patch.hashedPassword.value else u.hashedPassword)
    ensures v.isActive == (if patch.isActive.Some? then patch.isActive.value else u.isActive)
    ensures v.roles == (if patch.roles.Some? then patch.roles.value else u.roles)
  {
    User(
      u.id,
      if patch.fullname.Some? then patch.fullname.value else u.fullname,
      if patch.hashedPassword.Some? then patch.hashedPassword.value else u.hashedPassword,
      if patch.isActive.Some? then patch.isActive.value else u.isActive,
      if patch.roles.Some? then patch.roles.value else u.roles)
  }

  /** The table after `update(User).where(id, is_active).values(patch)`: every selected row is patched. */
  function UpdatedRows(rows: seq<User>, userId: Uuid, patch: UserPatch): (r: seq<User>)
    ensures |r| == |rows|
    ensures forall i :: 0 <= i < |rows| ==> r[i].id == rows[i].id
    ensures forall i :: 0 <= i < |rows| && ActiveWithId(rows[i], userId) ==> r[i] == Patched(rows[i], patch)
    ensures forall i :: 0 <= i < |rows| && !rows[i].isActive ==> r[i] == rows[i]
    ensures forall i :: 0 <= i < |rows| && rows[i].id != userId ==> r[i] == rows[i]
  {
    seq(|rows|, i requires 0 <= i < |rows| =>
      if ActiveWithId(rows[i], userId) then Patched(rows[i], patch) else rows[i])
  }

  /** The table after `update(User).where(id, is_active).values(is_active=False)`. */
  function SoftDeletedRows(rows: seq<User>, userId: Uuid): (r: seq<User>)
    ensures |r| == |rows|
    ensures forall i :: 0 <= i < |rows| && rows[i].id == userId ==> r[i] == rows[i].(isActive := false)
    ensures forall i :: 0 <= i < |rows| && rows[i].id != userId ==> r[i] == rows[i]
  {
    seq(|rows|, i requires 0 <= i < |rows| =>
      if ActiveWithId(rows[i], userId) then rows[i].(isActive := false) else rows[i])
  }

  /** The patch `{is_active: False}`. */
  const DEACTIVATE: UserPatch := UserPatch(None, None, Some(false), None)

  /** Two tables whose rows agree, position by position, on a `WHERE` clause select the same first index. */
  lemma {:induction false} FirstIndexOfSameSelection(rows: seq<User>, rows': seq<User>, matches: User -> bool)
    requires |rows| == |rows'|
    requires forall i :: 0 <= i < |rows| ==> matches(rows[i]) == matches(rows'[i])
    ensures FirstIndex(rows, matches) == FirstIndex(rows', matches)
  {
  }

  /** Under the primary-key constraint a lookup by id finds exactly the row holding that id. */
  lemma {:induction false} ByIdFindsRow(rows: seq<User>, i: nat)
    requires UniqueIds(rows)
    requires i < |rows|
    ensures ById(rows, rows[i].id) == Some(rows[i])
  {
  }

  /** A lookup by id after a soft delete finds the same row, now inactive: the record stays. */
  lemma {:induction false} ByIdAfterSoftDelete(rows: seq<User>, userId: Uuid)
    ensures ById(SoftDeletedRows(rows, userId), userId)
         == (match ById(rows, userId)
             case None => None
             case Some(u) => Some(u.(isActive := false)))
  {
    FirstIndexOfSameSelection(rows, SoftDeletedRows(rows, userId), (u: User) => u.id == userId);
  }

  /** A lookup by fullname after a soft delete finds the same row as before; only its
    * `is_active` may have changed. */
  lemma {:induction false} ByFullnameAfterSoftDelete(rows: seq<User>, userId: Uuid, fullname: string)
    ensures ByFullname(SoftDeletedRows(rows, userId), fullname)
         == (match ByFullname(rows, fullname)
             case None => None
             case Some(u) => Some(if u.id == userId then u.(isActive := false) else u))
  {
    FirstIndexOfSameSelection(rows, SoftDeletedRows(rows, userId), (u: User) => u.fullname == fullname);
  }

  /** After a soft delete no row is selected for that id, so a second delete reports `None`. */
  lemma {:induction false} SecondDeleteFindsNothing(rows: seq<User>, userId: Uuid)
    ensures !HasActiveRow(SoftDeletedRows(rows, userId), userId)
  {
  }

  /** A soft delete is the update that sets `is_active` to false. */
  lemma {:induction false} SoftDeleteIsDeactivatingUpdate(rows: seq<User>, userId: Uuid)
    ensures SoftDeletedRows(rows, userId) == UpdatedRows(rows, userId, DEACTIVATE)
  {
  }

  /** A lookup by id after an update finds the same row, patched if it was active. */
  lemma {:induction false} ByIdAfterUpdate(rows: seq<User>, userId: Uuid, patch: UserPatch)
    ensures ById(UpdatedRows(rows, userId, patch), userId)
         == (match ById(rows, userId)
             case None => None
             case Some(u) => Some(if u.isActive then Patched(u, patch) else u))
  {
    FirstIndexOfSameSelection(rows, UpdatedRows(rows, userId, patch), (u: User) => u.id == userId);
  }

  /** An update that selects no row leaves the table as it was. */
  lemma {:induction false} UpdateWithoutMatchIsNoOp(rows: seq<User>, userId: Uuid, patch: UserPatch)
    requires !HasActiveRow(rows, userId)
    ensures UpdatedRows(rows, userId, patch) == rows
  {
  }

  /** A row added under a fresh id is what a lookup by that id then returns. */
  lemma {:induction false} CreatedRowIsFound(rows: seq<User>, u: User)
    requires UniqueIds(rows)
    requires ById(rows, u.id).None?
    ensures UniqueIds(rows + [u])
    ensures ById(rows + [u], u.id) == Some(u)
  {
  }

  /** The ORM columns of `User`. */
  const USER_COLUMNS: set<string> := {"id", "fullname", "hashed_password", "is_active", "roles"}

  /** What `delete_user` does as written: it builds its query from the attribute
    * `User.user_id`; when that attribute is missing, the access raises `AttributeError`
    * (`None` here) before any row is touched. */
  function DeleteUserAsWritten(rows: seq<User>, userId: Uuid): (r: Option<(seq<User>, Option<Uuid>)>)
    ensures r.None?
  {
    if "user_id" !in USER_COLUMNS then None
    else Some((SoftDeletedRows(rows, userId),
               if HasActiveRow(rows, userId) then Some(userId) else None))
  }

  /** As written, deleting an active user never succeeds: every call raises. */
  lemma {:induction false} DeleteUserAsWrittenNeverDeletes(rows: seq<User>, i: nat)
    requires i < |rows| && rows[i].isActive
    ensures DeleteUserAsWritten(rows, rows[i].id).None?
    ensures HasActiveRow(rows, rows[i].id)
  {
  }

  /** `UserDAL`: the session it wraps is modelled by the table `rows`. */
  class UserDAL {
    var rows: seq<User>

    ghost predicate Valid()
      reads this
    {
      UniqueIds(rows)
    }

    /** `UserDAL(db_session)` over a session whose table is `table`. */
    constructor (table: seq<User>)
      requires UniqueIds(table)
      ensures Valid() && rows == table
    {
      rows := table;
    }

    /** `create_user`: the new row takes `is_active`'s default `True`. A taken id makes the
      * flush fail with an integrity error (`None`) and the table is left as it was. */
    method CreateUser(userId: Uuid, fullname: string, hashedPassword: string, roles: seq<string>)
      returns (r: Option<User>)
      requires Valid()
      modifies this
      ensures Valid()
      ensures r.Some? <==> forall u :: u in old(rows) ==> u.id != userId
      ensures r.Some? ==> r.value == User(userId, fullname, hashedPassword, true, roles)
      ensures r.Some? ==> rows == old(rows) + [r.value] && ById(rows, userId) == r
      ensures r.None? ==> rows == old(rows)
    {
      if ById(rows, userId).Some? {
        r := None;
      } else {
        var u := User(userId, fullname, hashedPassword, true, roles);
        CreatedRowIsFound(rows, u);
        rows := rows + [u];
        r := Some(u);
      }
    }

    /** `get_user_by_id`: the row with that id, active or not. */
    method GetUserById(userId: Uuid) returns (r: Option<User>)
      requires Valid()
      ensures r.Some? ==> r.value in rows && r.value.id == userId
      ensures r.Some? ==> forall u :: u in rows && u.id == userId ==> u == r.value
      ensures r.None? <==> forall u :: u in rows ==> u.id != userId
    {
      r := ById(rows, userId);
      if r.Some? {
        forall u | u in rows && u.id == userId
          ensures u == r.value
        {
          var i :| 0 <= i < |rows| && rows[i] == u;
          ByIdFindsRow(rows, i);
        }
      }
    }

    /** `get_user_by_fullname`: some row with that fullname (fullnames are not unique), active or not. */
    method GetUserByFullname(fullname: string) returns (r: Option<User>)
      ensures r == ByFullname(rows, fullname)
      ensures r.Some? ==> r.value in rows && r.value.fullname == fullname
      ensures r.None? <==> forall u :: u in rows ==> u.fullname != fullname
    {
      r := ByFullname(rows, fullname);
    }

    /** `update_user`: patches the active row with that id and returns the id, or returns
      * `None` and changes nothing when no active row has it. */
    method UpdateUser(userId: Uuid, patch: UserPatch) returns (r: Option<Uuid>)
      requires Valid()
      modifies this
      ensures Valid()
      ensures r == (if HasActiveRow(old(rows), userId) then Some(userId) else None)
      ensures rows == UpdatedRows(old(rows), userId, patch)
      ensures r.None? ==> rows == old(rows)
      ensures |rows| == |old(rows)|
      ensures forall i :: 0 <= i < |rows| && old(rows)[i].id != userId ==> rows[i] == old(rows)[i]
      ensures ById(rows, userId)
           == (match ById(old(rows), userId)
               case None => None
               case Some(u) => Some(if u.isActive then Patched(u, patch) else u))
    {
      r := if HasActiveRow(rows, userId) then Some(userId) else None;
      if r.None? {
        UpdateWithoutMatchIsNoOp(rows, userId, patch);
      }
      ByIdAfterUpdate(rows, userId, patch);
      rows := UpdatedRows(rows, userId, patch);
    }

    /** `delete_user` (keyed on `id`): flips `is_active` of the active row with that id and
      * returns the id; the record stays. `None` when no active row has the id. */
    method DeleteUser(userId: Uuid) returns (r: Option<Uuid>)
      requires Valid()
      modifies this
      ensures Valid()
      ensures r == (if HasActiveRow(old(rows), userId) then Some(userId) else None)
      ensures rows == SoftDeletedRows(old(rows), userId)
      ensures !HasActiveRow(rows, userId)
      ensures r.None? ==> rows == old(rows)
      ensures |rows| == |old(rows)|
      ensures forall i :: 0 <= i < |rows| && old(rows)[i].id != userId ==> rows[i] == old(rows)[i]
      ensures ById(rows, userId)
           == (match ById(old(rows), userId)
               case None => None
               case Some(u) => Some(u.(isActive := false)))
    {
      r := if HasActiveRow(rows, userId) then Some(userId) else None;
      SoftDeleteIsDeactivatingUpdate(rows, userId);
      if r.None? {
        UpdateWithoutMatchIsNoOp(rows, userId, DEACTIVATE);
      }
      ByIdAfterSoftDelete(rows, userId);
      SecondDeleteFindsNothing(rows, userId);
      rows := SoftDeletedRows(rows, userId);
    }
  }
}
