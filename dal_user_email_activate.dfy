/** The `user_email_activate` table (biz/dal/user_email_activate.go): email
    registrations that wait for the user to follow the activation mail. */
module DalUserEmailActivate {
  import opened Wrappers
  import opened GoTypes
  import opened Response
  import opened DalCommon

  datatype UserEmailActivate = UserEmailActivate(
    id: nat,
    uid: UID,
    email: string,
    password: Password?,
    sendAt: Instant,
    activated: bool)

  function ActivateId(a: UserEmailActivate): nat
  {
    a.id
  }

  function WithId(id: nat): UserEmailActivate -> bool
  {
    (a: UserEmailActivate) => a.id == id
  }

  function WithUID(uid: UID): UserEmailActivate -> bool
  {
    (a: UserEmailActivate) => a.uid == uid
  }

  function WithEmail(email: string): UserEmailActivate -> bool
  {
    (a: UserEmailActivate) => a.email == email
  }

  function Resent(sendAt: Instant): UserEmailActivate -> UserEmailActivate
  {
    (a: UserEmailActivate) => a.(sendAt := sendAt)
  }

  function Activate(a: UserEmailActivate): UserEmailActivate
  {
    a.(activated := true)
  }

  /** Marking a registration activated twice is marking it once. */
  lemma ActivateIdempotent(rows: seq<UserEmailActivate>, id: nat)
    ensures UpdateWhere(UpdateWhere(rows, WithId(id), Activate), WithId(id), Activate) ==
            UpdateWhere(rows, WithId(id), Activate)
  {
    UpdateWhereIdempotent(rows, WithId(id), Activate);
  }

  class UserEmailActivateTable {
    var rows: seq<UserEmailActivate>
    var nextID: nat

    ghost predicate Valid()
      reads this
    {
      Keyed(rows, nextID, ActivateId)
    }

    constructor ()
      ensures rows == [] && nextID == 1 && Valid()
    {
      rows := [];
      nextID := 1;
    }

    /** `Add`: inserts the registration; an id of 0 takes the next counter
        value. */
    method Add(a: UserEmailActivate, dbErr: Option<Error>) returns (saved: UserEmailActivate, err: Option<SError>)
      requires Valid()
      modifies this
      ensures Valid()
      ensures dbErr.Some? ==>
        err == Some(DbFailure(dbErr.value, "add inactivated user fail")) && saved == a &&
        rows == old(rows) && nextID == old(nextID)
      ensures dbErr.None? ==>
        match NewId(old(rows), old(nextID), a.id, ActivateId)
        case None =>
          err == Some(DbFailure(DuplicateEntry, "add inactivated user fail")) && saved == a &&
          rows == old(rows) && nextID == old(nextID)
        case Some(id) =>
          err.None? && saved == a.(id := id) &&
          rows == old(rows) + [saved] && nextID == Max(old(nextID), id + 1)
    {
      saved := a;
      if dbErr.Some? {
        return saved, Some(DbFailure(dbErr.value, "add inactivated user fail"));
      }
      var id := NewId(rows, nextID, a.id, ActivateId);
      if id.None? {
        return saved, Some(DbFailure(DuplicateEntry, "add inactivated user fail"));
      }
      saved := a.(id := id.value);
      KeyedAppend(rows, nextID, saved, a.id, ActivateId);
      rows := rows + [saved];
      nextID := Max(nextID, id.value + 1);
      err := None;
    }

    /** `GetByUID`: a registration of the uid, or `None`. */
    function GetByUID(uid: UID, dbErr: Option<Error>): (r: Result<Option<UserEmailActivate>, SError>)
      reads this
      ensures dbErr.Some? ==> r == Failure(DbFailure(dbErr.value, "get inactivated user fail"))
      ensures dbErr.None? ==> r.Success?
      ensures dbErr.None? ==> (r.value.Some? <==> exists a :: a in rows && a.uid == uid)
      ensures dbErr.None? && r.value.Some? ==> r.value.value in rows && r.value.value.uid == uid
    {
      if dbErr.Some? then Failure(DbFailure(dbErr.value, "get inactivated user fail"))
      else Success(First(rows, WithUID(uid)))
    }

    /** `GetByEmail`: a registration of the email, or `None`. */
    function GetByEmail(email: string, dbErr: Option<Error>): (r: Result<Option<UserEmailActivate>, SError>)
      reads this
      ensures dbErr.Some? ==> r == Failure(DbFailure(dbErr.value, "get inactivated user fail"))
      ensures dbErr.None? ==> r.Success?
      ensures dbErr.None? ==> (r.value.Some? <==> exists a :: a in rows && a.email == email)
      ensures dbErr.None? && r.value.Some? ==> r.value.value in rows && r.value.value.email == email
    {
      if dbErr.Some? then Failure(DbFailure(dbErr.value, "get inactivated user fail"))
      else Success(First(rows, WithEmail(email)))
    }

    /** `UpdateSendTime`: sets `send_at` of the registration with the id
        and nothing else. */
    method UpdateSendTime(id: nat, sendAt: Instant, dbErr: Option<Error>) returns (err: Option<SError>)
      requires Valid()
      modifies this
      ensures Valid() && nextID == old(nextID)
      ensures dbErr.Some? ==> err == Some(DbFailure(dbErr.value, "update send time fail")) && rows == old(rows)
      ensures dbErr.None? ==> err.None? && rows == UpdateWhere(old(rows), WithId(id), Resent(sendAt))
    {
      if dbErr.Some? {
        return Some(DbFailure(dbErr.value, "update send time fail"));
      }
      KeyedUpdateWhere(rows, nextID, ActivateId, WithId(id), Resent(sendAt));
      rows := UpdateWhere(rows, WithId(id), Resent(sendAt));
      return None;
    }

    /** `SetActivated`: marks the registration with the id activated. Its
        error message is the one of `UpdateSendTime`, as in the source. */
    method SetActivated(id: nat, dbErr: Option<Error>) returns (err: Option<SError>)
      requires Valid()
      modifies this
      ensures Valid() && nextID == old(nextID)
      ensures dbErr.Some? ==> err == Some(DbFailure(dbErr.value, "update send time fail")) && rows == old(rows)
      ensures dbErr.None? ==> err.None? && rows == UpdateWhere(old(rows), WithId(id), Activate)
      ensures dbErr.None? ==> forall a :: a in rows && a.id == id ==> a.activated
    {
      if dbErr.Some? {
        return Some(DbFailure(dbErr.value, "update send time fail"));
      }
      KeyedUpdateWhere(rows, nextID, ActivateId, WithId(id), Activate);
      rows := UpdateWhere(rows, WithId(id), Activate);
      return None;
    }
  }
}
