/** The `users` table (biz/dal/user.go). A row keeps the column values:
    the nullable text columns are `Option<string>` (`None` is SQL NULL) and
    the password is the `Password` object the row was written with. */
module DalUser {
  import opened Wrappers
  import opened GoTypes
  import opened Response
  import opened DalCommon

  const RegisterTypeEmail := "email"
  const RegisterTypeWechat := "wechat"

  /** `portraitURL` is not a column: it is filled in after every read. */
  datatype User = User(
    id: nat,
    uid: UID,
    name: Option<string>,
    email: Option<string>,
    password: Password?,
    portrait: Option<string>,
    portraitURL: string,
    registerType: string)

  function UserId(u: User): nat
  {
    u.id
  }

  /** `postProcessUserField` for one user: a stored portrait key is turned
      into its URL by the object storage, given as `keyToURL`. */
  function WithPortraitURL(u: User, keyToURL: string -> string): (r: User)
    ensures u.portrait.Some? ==> r == u.(portraitURL := keyToURL(u.portrait.value))
    ensures u.portrait.None? ==> r == u
  {
    if u.portrait.Some? then u.(portraitURL := keyToURL(u.portrait.value)) else u
  }

  /** `postProcessUserField` over a result list, element by element. */
  function WithPortraitURLs(us: seq<User>, keyToURL: string -> string): (r: seq<User>)
    ensures |r| == |us|
    ensures forall i :: 0 <= i < |us| ==> r[i] == WithPortraitURL(us[i], keyToURL)
  {
    seq(|us|, i requires 0 <= i < |us| => WithPortraitURL(us[i], keyToURL))
  }

  /** `uid = ?` */
  function WithUID(uid: UID): User -> bool
  {
    (u: User) => u.uid == uid
  }

  /** `email = ?`: SQL NULL equals nothing. */
  function WithEmail(email: string): User -> bool
  {
    (u: User) => u.email == Some(email)
  }

  /** `uid in (?)` */
  function WithUIDIn(uids: seq<UID>): User -> bool
  {
    (u: User) => u.uid in uids
  }

  /** `UserUpdatableFields`: "" and a nil password mean "leave as is". */
  datatype UpdatableFields = UpdatableFields(name: string, email: string, password: Password?, portrait: string)

  predicate NoFields(f: UpdatableFields)
  {
    f.name == "" && f.email == "" && f.password == null && f.portrait == ""
  }

  /** The intended effect of a partial update on one row. */
  function Patch(u: User, f: UpdatableFields): User
  {
    u.(name := if f.name != "" then Some(f.name) else u.name,
       email := if f.email != "" then Some(f.email) else u.email,
       password := if f.password != null then f.password else u.password,
       portrait := if f.portrait != "" then Some(f.portrait) else u.portrait)
  }

  function PatchWith(f: UpdatableFields): User -> User
  {
    u => Patch(u, f)
  }

  /** The columns of the `users` table. */
  const Columns: set<string> := {"id", "uid", "name", "email", "password", "portrait", "user_register_type"}

  /** The driver error MySQL reports for a `SET` of a column the table
      does not have. */
  const UnknownColumn: Error := Foreign("Error 1054: Unknown column in 'field list'")

  /** What `SET <updates>` writes into one row. */
  function Assign(u: User, updates: map<string, ColumnValue>): User
  {
    u.(name := if "name" in updates && updates["name"].TextColumn? then Some(updates["name"].s) else u.name,
       email := if "email" in updates && updates["email"].TextColumn? then Some(updates["email"].s) else u.email,
       password := if "password" in updates && updates["password"].PasswordColumn? then updates["password"].p else u.password,
       portrait := if "portrait" in updates && updates["portrait"].TextColumn? then Some(updates["portrait"].s) else u.portrait)
  }

  function AssignWith(updates: map<string, ColumnValue>): User -> User
  {
    u => Assign(u, updates)
  }

  /** `UPDATE users SET <updates> WHERE uid = ?`: GORM passes map keys it
      does not know through as column names, so a key that is not a column
      makes the statement fail. */
  function UpdateStatement(rows: seq<User>, uid: UID, updates: map<string, ColumnValue>): (r: Result<seq<User>, Error>)
    ensures r.Failure? <==> exists k :: k in updates && k !in Columns
    ensures r.Failure? ==> r.error == UnknownColumn
  {
    if exists k :: k in updates && k !in Columns then Failure(UnknownColumn)
    else Success(UpdateWhere(rows, WithUID(uid), AssignWith(updates)))
  }

  /** The password key `UpdateUser` writes, "passport", is not a column:
      every update that carries a password fails. */
  lemma PassportIsUnknown(rows: seq<User>, uid: UID, updates: map<string, ColumnValue>, p: Password)
    ensures UpdateStatement(rows, uid, updates["passport" := PasswordColumn(p)]) == Failure(UnknownColumn)
  {
    assert "passport" in updates["passport" := PasswordColumn(p)] && "passport" !in Columns;
  }

  /** Under the column name "password" the same update stores the password
      in the rows of the user and touches nothing else. */
  lemma PasswordIsKnown(rows: seq<User>, uid: UID, p: Password)
    ensures UpdateStatement(rows, uid, map["password" := PasswordColumn(p)]) ==
      Success(UpdateWhere(rows, WithUID(uid), (u: User) => u.(password := p)))
  {
    var updates := map["password" := PasswordColumn(p)];
    assert forall k :: k in updates ==> k in Columns;
    UpdateWhereExt(rows, WithUID(uid), AssignWith(updates), (u: User) => u.(password := p));
  }

  /** The column map `UpdateUser` builds from `f`, with the password put
      under `passwordKey`: exactly the supplied fields, each under its key. */
  ghost predicate Encodes(updates: map<string, ColumnValue>, f: UpdatableFields, passwordKey: string)
  {
    (forall k :: k in updates ==> k in {"name", "email", passwordKey, "portrait"}) &&
    ("name" in updates <==> f.name != "") && (f.name != "" ==> updates["name"] == TextColumn(f.name)) &&
    ("email" in updates <==> f.email != "") && (f.email != "" ==> updates["email"] == TextColumn(f.email)) &&
    (passwordKey in updates <==> f.password != null) &&
    (f.password != null ==> updates[passwordKey] == PasswordColumn(f.password)) &&
    ("portrait" in updates <==> f.portrait != "") && (f.portrait != "" ==> updates["portrait"] == TextColumn(f.portrait))
  }

  /** A map that encodes `f` (with the password as a column, or without a
      password at all) writes into every row exactly what `Patch` does. */
  lemma AssignIsPatch(updates: map<string, ColumnValue>, f: UpdatableFields, passwordKey: string)
    requires passwordKey !in {"name", "email", "portrait"}
    requires Encodes(updates, f, passwordKey)
    requires passwordKey == "password" || f.password == null
    ensures forall u :: Assign(u, updates) == Patch(u, f)
  {
    assert "password" in updates ==> passwordKey == "password" && f.password != null;
  }

  /** The `updates` map `UpdateUser` builds: one entry per supplied field,
      the password under `passwordKey`. */
  method ColumnsOf(f: UpdatableFields, passwordKey: string) returns (updates: map<string, ColumnValue>)
    requires passwordKey !in {"name", "email", "portrait"}
    ensures Encodes(updates, f, passwordKey)
    ensures |updates| == 0 <==> NoFields(f)
  {
    updates := map[];
    if f.name != "" {
      updates := updates["name" := TextColumn(f.name)];
    }
    if f.email != "" {
      updates := updates["email" := TextColumn(f.email)];
    }
    if f.password != null {
      updates := updates[passwordKey := PasswordColumn(f.password)];
    }
    if f.portrait != "" {
      updates := updates["portrait" := TextColumn(f.portrait)];
    }
    assert NoFields(f) ==> updates == map[];
    assert !NoFields(f) ==> "name" in updates || "email" in updates || passwordKey in updates || "portrait" in updates;
  }

  class UserTable {
    var rows: seq<User>
    var nextID: nat

    ghost predicate Valid()
      reads this
    {
      Keyed(rows, nextID, UserId)
    }

    constructor ()
      ensures rows == [] && nextID == 1 && Valid()
    {
      rows := [];
      nextID := 1;
    }

    /** `Add`: inserts the user (an id of 0 takes the next counter value)
        and returns it with its id and portrait URL filled in. */
    method Add(user: User, keyToURL: string -> string, dbErr: Option<Error>) returns (saved: User, err: Option<SError>)
      requires Valid()
      modifies this
      ensures Valid()
      ensures dbErr.Some? ==>
        err == Some(DbFailure(dbErr.value, "add user fail")) && saved == user &&
        rows == old(rows) && nextID == old(nextID)
      ensures dbErr.None? ==>
        match NewId(old(rows), old(nextID), user.id, UserId)
        case None =>
          err == Some(DbFailure(DuplicateEntry, "add user fail")) && saved == user &&
          rows == old(rows) && nextID == old(nextID)
        case Some(id) =>
          err.None? && rows == old(rows) + [user.(id := id)] && nextID == Max(old(nextID), id + 1) &&
          saved == WithPortraitURL(user.(id := id), keyToURL)
    {
      saved := user;
      if dbErr.Some? {
        return saved, Some(DbFailure(dbErr.value, "add user fail"));
      }
      var id := NewId(rows, nextID, user.id, UserId);
      if id.None? {
        return saved, Some(DbFailure(DuplicateEntry, "add user fail"));
      }
      var stored := user.(id := id.value);
      KeyedAppend(rows, nextID, stored, user.id, UserId);
      rows := rows + [stored];
      nextID := Max(nextID, id.value + 1);
      saved := WithPortraitURL(stored, keyToURL);
      err := None;
    }

    /** `GetByUID`: a user with the uid, or `None`. */
    function GetByUID(uid: UID, keyToURL: string -> string, dbErr: Option<Error>): (r: Result<Option<User>, SError>)
      reads this
      ensures dbErr.Some? ==> r == Failure(DbFailure(dbErr.value, "get user by fail"))
      ensures dbErr.None? ==> r.Success?
      ensures dbErr.None? ==> (r.value.Some? <==> exists u :: u in rows && u.uid == uid)
      ensures dbErr.None? && r.value.Some? ==>
        exists u :: u in rows && u.uid == uid && r.value.value == WithPortraitURL(u, keyToURL)
    {
      if dbErr.Some? then Failure(DbFailure(dbErr.value, "get user by fail"))
      else
        match First(rows, WithUID(uid))
        case None => Success(None)
        case Some(u) => Success(Some(WithPortraitURL(u, keyToURL)))
    }

    /** `GetByEmail`: a user whose email column is `email`, or `None`. */
    function GetByEmail(email: string, keyToURL: string -> string, dbErr: Option<Error>): (r: Result<Option<User>, SError>)
      reads this
      ensures dbErr.Some? ==> r == Failure(DbFailure(dbErr.value, "get user by fail"))
      ensures dbErr.None? ==> r.Success?
      ensures dbErr.None? ==> (r.value.Some? <==> exists u :: u in rows && u.email == Some(email))
      ensures dbErr.None? && r.value.Some? ==>
        exists u :: u in rows && u.email == Some(email) && r.value.value == WithPortraitURL(u, keyToURL)
    {
      if dbErr.Some? then Failure(DbFailure(dbErr.value, "get user by fail"))
      else
        match First(rows, WithEmail(email))
        case None => Success(None)
        case Some(u) => Success(Some(WithPortraitURL(u, keyToURL)))
    }

    /** `ListByUIDs`: the users with any of the uids. */
    function ListByUIDs(uids: seq<UID>, keyToURL: string -> string, dbErr: Option<Error>): (r: Result<seq<User>, SError>)
      reads this
      ensures dbErr.Some? ==> r == Failure(DbFailure(dbErr.value, "list user fail"))
      ensures dbErr.None? ==> r.Success? && r.value == WithPortraitURLs(Where(rows, WithUIDIn(uids)), keyToURL)
      ensures dbErr.None? ==> forall i :: 0 <= i < |r.value| ==> r.value[i].uid in uids
    {
      if dbErr.Some? then Failure(DbFailure(dbErr.value, "list user fail"))
      else
        var found := Where(rows, WithUIDIn(uids));
        assert forall i :: 0 <= i < |found| ==> found[i] in found;
        Success(WithPortraitURLs(found, keyToURL))
    }

    /** `UpdateUser` as written: the password goes under the key
        "passport", so an update with a password fails and changes nothing;
        one without is applied to the rows of the uid. */
    method UpdateUser(uid: UID, f: UpdatableFields, dbErr: Option<Error>) returns (err: Option<SError>)
      requires Valid()
      modifies this
      ensures Valid() && nextID == old(nextID)
      ensures NoFields(f) ==> err.None? && rows == old(rows)
      ensures f.password != null ==>
        err == Some(DbFailure(UnknownColumn, "update user fail")) && rows == old(rows)
      ensures !NoFields(f) && f.password == null && dbErr.Some? ==>
        err == Some(DbFailure(dbErr.value, "update user fail")) && rows == old(rows)
      ensures !NoFields(f) && f.password == null && dbErr.None? ==>
        err.None? && rows == UpdateWhere(old(rows), WithUID(uid), PatchWith(f))
    {
      var updates := ColumnsOf(f, "passport");
      if |updates| == 0 {
        return None;
      }
      assert f.password != null ==> "passport" in updates && "passport" !in Columns;
      var outcome := UpdateStatement(rows, uid, updates);
      if outcome.Failure? {
        return Some(DbFailure(outcome.error, "update user fail"));
      }
      if dbErr.Some? {
        return Some(DbFailure(dbErr.value, "update user fail"));
      }
      AssignIsPatch(updates, f, "passport");
      UpdateWhereExt(rows, WithUID(uid), AssignWith(updates), PatchWith(f));
      KeyedUpdateWhere(rows, nextID, UserId, WithUID(uid), AssignWith(updates));
      rows := outcome.value;
      return None;
    }

    /** `UpdateUser` as evidently intended, with the key "password": every
        supplied field is written to the rows of the uid. */
    method UpdateUserIntended(uid: UID, f: UpdatableFields, dbErr: Option<Error>) returns (err: Option<SError>)
      requires Valid()
      modifies this
      ensures Valid() && nextID == old(nextID)
      ensures NoFields(f) ==> err.None? && rows == old(rows)
      ensures !NoFields(f) && dbErr.Some? ==>
        err == Some(DbFailure(dbErr.value, "update user fail")) && rows == old(rows)
      ensures !NoFields(f) && dbErr.None? ==>
        err.None? && rows == UpdateWhere(old(rows), WithUID(uid), PatchWith(f))
    {
      var updates := ColumnsOf(f, "password");
      if |updates| == 0 {
        return None;
      }
      var outcome := UpdateStatement(rows, uid, updates);
      assert outcome.Success?;
      if dbErr.Some? {
        return Some(DbFailure(dbErr.value, "update user fail"));
      }
      AssignIsPatch(updates, f, "password");
      UpdateWhereExt(rows, WithUID(uid), AssignWith(updates), PatchWith(f));
      KeyedUpdateWhere(rows, nextID, UserId, WithUID(uid), AssignWith(updates));
      rows := outcome.value;
      return None;
    }
  }
}
