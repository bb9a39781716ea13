/** The `habit_group` table (biz/dal/habit_group.go): which user joined
    which habit. The table has no primary key of its own. */
module DalHabitGroup {
  import opened Wrappers
  import opened Response
  import opened DalCommon

  datatype HabitGroup = HabitGroup(habitID: nat, uid: UID)

  /** `habit_id = ?` */
  function OfHabit(habitID: nat): HabitGroup -> bool
  {
    (g: HabitGroup) => g.habitID == habitID
  }

  /** `habit_id in (?)`; an empty list matches no row. */
  function OfHabits(habitIDs: seq<nat>): HabitGroup -> bool
  {
    (g: HabitGroup) => g.habitID in habitIDs
  }

  /** `uid = ?` */
  function OfUser(uid: UID): HabitGroup -> bool
  {
    (g: HabitGroup) => g.uid == uid
  }

  /** `habit_id = ? and uid = ?` */
  function Membership(habitID: nat, uid: UID): HabitGroup -> bool
  {
    (g: HabitGroup) => g.habitID == habitID && g.uid == uid
  }

  /** `habit_id = ? and uid != ?` */
  function OtherMember(habitID: nat, uid: UID): HabitGroup -> bool
  {
    (g: HabitGroup) => g.habitID == habitID && g.uid != uid
  }

  /** `habit_id = ? and uid in (?)` */
  function MembersAmong(habitID: nat, uids: seq<UID>): HabitGroup -> bool
  {
    (g: HabitGroup) => g.habitID == habitID && g.uid in uids
  }

  class HabitGroupTable {
    var rows: seq<HabitGroup>

    constructor ()
      ensures rows == []
    {
      rows := [];
    }

    /** `Add`: inserts one membership. */
    method Add(hg: HabitGroup, dbErr: Option<Error>) returns (err: Option<SError>)
      modifies this
      ensures dbErr.Some? ==>
        err == Some(DbFailure(dbErr.value, "add habit group fail")) && rows == old(rows)
      ensures dbErr.None? ==> err.None? && rows == old(rows) + [hg]
    {
      if dbErr.Some? {
        return Some(DbFailure(dbErr.value, "add habit group fail"));
      }
      rows := rows + [hg];
      return None;
    }

    /** `AddMulti`: one multi-row insert, so all rows or none; GORM refuses
        an empty slice before any statement is sent. */
    method AddMulti(hgs: seq<HabitGroup>, dbErr: Option<Error>) returns (err: Option<SError>)
      modifies this
      ensures hgs == [] ==>
        err == Some(DbFailure(EmptySlice, "add multi habit group fail")) && rows == old(rows)
      ensures hgs != [] && dbErr.Some? ==>
        err == Some(DbFailure(dbErr.value, "add multi habit group fail")) && rows == old(rows)
      ensures hgs != [] && dbErr.None? ==> err.None? && rows == old(rows) + hgs
    {
      if hgs == [] {
        return Some(DbFailure(EmptySlice, "add multi habit group fail"));
      }
      if dbErr.Some? {
        return Some(DbFailure(dbErr.value, "add multi habit group fail"));
      }
      rows := rows + hgs;
      return None;
    }

    /** `GetByHabitIDAndUID`: the membership of `uid` in the habit, if any. */
    function GetByHabitIDAndUID(habitID: nat, uid: UID, dbErr: Option<Error>): (r: Result<Option<HabitGroup>, SError>)
      reads this
      ensures dbErr.Some? ==>
        r == Failure(DbFailure(dbErr.value, "get habit group info by habit id and uid fail"))
      ensures dbErr.None? ==> r.Success?
      ensures dbErr.None? ==> (r.value.Some? <==> HabitGroup(habitID, uid) in rows)
      ensures dbErr.None? && r.value.Some? ==> r.value.value == HabitGroup(habitID, uid)
    {
      if dbErr.Some? then Failure(DbFailure(dbErr.value, "get habit group info by habit id and uid fail"))
      else
        var g := First(rows, Membership(habitID, uid));
        assert g.Some? ==> g.value == HabitGroup(habitID, uid);
        assert HabitGroup(habitID, uid) in rows ==> Membership(habitID, uid)(HabitGroup(habitID, uid));
        Success(g)
    }

    /** `GetByHabitIDAndExcludeUID`: some member of the habit other than
        `uid`, if there is one. */
    function GetByHabitIDAndExcludeUID(habitID: nat, uid: UID, dbErr: Option<Error>): (r: Result<Option<HabitGroup>, SError>)
      reads this
      ensures dbErr.Some? ==>
        r == Failure(DbFailure(dbErr.value, "get habit group info by habit id and exclude uid fail"))
      ensures dbErr.None? ==> r.Success?
      ensures dbErr.None? ==>
        (r.value.Some? <==> exists g :: g in rows && g.habitID == habitID && g.uid != uid)
      ensures dbErr.None? && r.value.Some? ==>
        r.value.value in rows && r.value.value.habitID == habitID && r.value.value.uid != uid
    {
      if dbErr.Some? then Failure(DbFailure(dbErr.value, "get habit group info by habit id and exclude uid fail"))
      else
        var g := First(rows, OtherMember(habitID, uid));
        assert forall x :: OtherMember(habitID, uid)(x) <==> x.habitID == habitID && x.uid != uid;
        Success(g)
    }

    /** `ListByHabitID`: the members of one habit. */
    function ListByHabitID(habitID: nat, dbErr: Option<Error>): (r: Result<seq<HabitGroup>, SError>)
      reads this
      ensures dbErr.Some? ==> r == Failure(DbFailure(dbErr.value, "list habit group by habit id fail"))
      ensures dbErr.None? ==> r.Success? && Selects(r.value, rows, OfHabit(habitID))
      ensures dbErr.None? ==> forall g :: g in r.value <==> g in rows && g.habitID == habitID
    {
      if dbErr.Some? then Failure(DbFailure(dbErr.value, "list habit group by habit id fail"))
      else Success(Where(rows, OfHabit(habitID)))
    }

    /** `ListByHabitIDs`: the members of any of the habits. */
    function ListByHabitIDs(habitIDs: seq<nat>, dbErr: Option<Error>): (r: Result<seq<HabitGroup>, SError>)
      reads this
      ensures dbErr.Some? ==> r == Failure(DbFailure(dbErr.value, "list habit group by habit ids fail"))
      ensures dbErr.None? ==> r.Success? && Selects(r.value, rows, OfHabits(habitIDs))
      ensures dbErr.None? ==> forall g :: g in r.value <==> g in rows && g.habitID in habitIDs
    {
      if dbErr.Some? then Failure(DbFailure(dbErr.value, "list habit group by habit ids fail"))
      else Success(Where(rows, OfHabits(habitIDs)))
    }

    /** `ListByUID`: the habits one user joined. */
    function ListByUID(uid: UID, dbErr: Option<Error>): (r: Result<seq<HabitGroup>, SError>)
      reads this
      ensures dbErr.Some? ==> r == Failure(DbFailure(dbErr.value, "list habit group by uid fail"))
      ensures dbErr.None? ==> r.Success? && Selects(r.value, rows, OfUser(uid))
      ensures dbErr.None? ==> forall g :: g in r.value <==> g in rows && g.uid == uid
    {
      if dbErr.Some? then Failure(DbFailure(dbErr.value, "list habit group by uid fail"))
      else Success(Where(rows, OfUser(uid)))
    }

    /** `DeleteByHabitIDAndUID`: `uid` leaves the habit. */
    method DeleteByHabitIDAndUID(habitID: nat, uid: UID, dbErr: Option<Error>) returns (err: Option<SError>)
      modifies this
      ensures dbErr.Some? ==>
        err == Some(DbFailure(dbErr.value, "delete one habit group fail")) && rows == old(rows)
      ensures dbErr.None? ==> err.None? && rows == Without(old(rows), Membership(habitID, uid))
      ensures dbErr.None? ==> HabitGroup(habitID, uid) !in rows
    {
      if dbErr.Some? {
        return Some(DbFailure(dbErr.value, "delete one habit group fail"));
      }
      rows := Without(rows, Membership(habitID, uid));
      assert Membership(habitID, uid)(HabitGroup(habitID, uid));
      return None;
    }

    /** `DeleteByHabitIDAndUIDs`: the given users leave the habit. */
    method DeleteByHabitIDAndUIDs(habitID: nat, uids: seq<UID>, dbErr: Option<Error>) returns (err: Option<SError>)
      modifies this
      ensures dbErr.Some? ==>
        err == Some(DbFailure(dbErr.value, "delete habit groups by habit id and uids fail")) && rows == old(rows)
      ensures dbErr.None? ==> err.None? && rows == Without(old(rows), MembersAmong(habitID, uids))
      ensures dbErr.None? ==> forall g :: g in rows ==> g.habitID != habitID || g.uid !in uids
    {
      if dbErr.Some? {
        return Some(DbFailure(dbErr.value, "delete habit groups by habit id and uids fail"));
      }
      rows := Without(rows, MembersAmong(habitID, uids));
      return None;
    }

    /** `DeleteByUID`: the user leaves every habit. */
    method DeleteByUID(uid: UID, dbErr: Option<Error>) returns (err: Option<SError>)
      modifies this
      ensures dbErr.Some? ==>
        err == Some(DbFailure(dbErr.value, "delete habit groups by uid fail")) && rows == old(rows)
      ensures dbErr.None? ==> err.None? && rows == Without(old(rows), OfUser(uid))
      ensures dbErr.None? ==> forall g :: g in rows ==> g.uid != uid
    {
      if dbErr.Some? {
        return Some(DbFailure(dbErr.value, "delete habit groups by uid fail"));
      }
      rows := Without(rows, OfUser(uid));
      return None;
    }
  }
}
