/** The `unconfirmed_habit_log_records` table
    (biz/dal/unconfirmed_habit_log_record.go): check-ins that still wait for
    confirmation, stored with the same columns as `habit_log_records`. */
module DalUnconfirmedHabitLogRecord {
  import opened Wrappers
  import opened GoTypes
  import opened Response
  import opened DalCommon
  import opened DalHabitLogRecord

  /** `habit_id = ? and uid = ?` */
  function PendingOf(habitID: nat, uid: UID): HabitLogRecord -> bool
  {
    (r: HabitLogRecord) => r.habitID == habitID && r.uid == uid
  }

  class UnconfirmedHabitLogRecordTable {
    var rows: seq<HabitLogRecord>
    var nextID: nat

    ghost predicate Valid()
      reads this
    {
      Keyed(rows, nextID, RecordId)
    }

    constructor ()
      ensures rows == [] && nextID == 1 && Valid()
    {
      rows := [];
      nextID := 1;
    }

    /** `Add`: inserts one record; an id of 0 takes the next counter value. */
    method Add(r: HabitLogRecord, dbErr: Option<Error>) returns (saved: HabitLogRecord, err: Option<SError>)
      requires Valid()
      modifies this
      ensures Valid()
      ensures dbErr.Some? ==>
        err == Some(DbFailure(dbErr.value, "add one unconfirmed habit log record fail")) && saved == r &&
        rows == old(rows) && nextID == old(nextID)
      ensures dbErr.None? ==>
        match NewId(old(rows), old(nextID), r.id, RecordId)
        case None =>
          err == Some(DbFailure(DuplicateEntry, "add one unconfirmed habit log record fail")) && saved == r &&
          rows == old(rows) && nextID == old(nextID)
        case Some(id) =>
          err.None? && saved == r.(id := id) &&
          rows == old(rows) + [saved] && nextID == Max(old(nextID), id + 1)
    {
      saved := r;
      if dbErr.Some? {
        return saved, Some(DbFailure(dbErr.value, "add one unconfirmed habit log record fail"));
      }
      var id := NewId(rows, nextID, r.id, RecordId);
      if id.None? {
        return saved, Some(DbFailure(DuplicateEntry, "add one unconfirmed habit log record fail"));
      }
      saved := r.(id := id.value);
      KeyedAppend(rows, nextID, saved, r.id, RecordId);
      rows := rows + [saved];
      nextID := Max(nextID, id.value + 1);
      err := None;
    }

    /** `ListByHabitID`: the habit's pending records inside the optional
        window. Its error message is the one of the source, which names the
        other query. */
    function ListByHabitID(habitID: nat, from: Option<Instant>, to: Option<Instant>, dbErr: Option<Error>): (r: Result<seq<HabitLogRecord>, SError>)
      reads this
      ensures dbErr.Some? ==>
        r == Failure(DbFailure(dbErr.value, "list unconfirmed habit log records by uid and habit ids fail"))
      ensures dbErr.None? ==> r.Success? && Selects(r.value, rows, HabitLogsIn(habitID, from, to))
      ensures dbErr.None? ==> forall x :: x in r.value <==>
        x in rows && x.habitID == habitID && (from.Some? ==> from.value <= x.logAt) && (to.Some? ==> x.logAt <= to.value)
    {
      if dbErr.Some? then Failure(DbFailure(dbErr.value, "list unconfirmed habit log records by uid and habit ids fail"))
      else Success(Where(rows, HabitLogsIn(habitID, from, to)))
    }

    /** `ListByUIDHabitIDs`: the user's pending records on any of the habits
        inside the optional window. */
    function ListByUIDHabitIDs(uid: UID, habitIDs: seq<nat>, from: Option<Instant>, to: Option<Instant>, dbErr: Option<Error>): (r: Result<seq<HabitLogRecord>, SError>)
      reads this
      ensures dbErr.Some? ==>
        r == Failure(DbFailure(dbErr.value, "list habit log records by uid and habit ids fail"))
      ensures dbErr.None? ==> r.Success? && Selects(r.value, rows, UserHabitLogsIn(uid, habitIDs, from, to))
      ensures dbErr.None? ==> forall x :: x in r.value <==>
        x in rows && x.uid == uid && x.habitID in habitIDs && InWindow(x.logAt, from, to)
    {
      if dbErr.Some? then Failure(DbFailure(dbErr.value, "list habit log records by uid and habit ids fail"))
      else Success(Where(rows, UserHabitLogsIn(uid, habitIDs, from, to)))
    }

    /** `DeleteByHabitIDAndUID`: removes the user's pending records on the habit. */
    method DeleteByHabitIDAndUID(habitID: nat, uid: UID, dbErr: Option<Error>) returns (err: Option<SError>)
      requires Valid()
      modifies this
      ensures Valid() && nextID == old(nextID)
      ensures dbErr.Some? ==>
        err == Some(DbFailure(dbErr.value, "delete unconfirmed habit log record fail")) && rows == old(rows)
      ensures dbErr.None? ==> err.None? && rows == Without(old(rows), PendingOf(habitID, uid))
      ensures dbErr.None? ==> ListByUIDHabitIDs(uid, [habitID], None, None, None) == Success([])
    {
      if dbErr.Some? {
        return Some(DbFailure(dbErr.value, "delete unconfirmed habit log record fail"));
      }
      KeyedWithout(rows, nextID, RecordId, PendingOf(habitID, uid));
      rows := Without(rows, PendingOf(habitID, uid));
      NoneSelected(rows, UserHabitLogsIn(uid, [habitID], None, None));
      return None;
    }

    /** `DeleteByHabitID`: removes the habit's pending records inside the
        optional window; the others, also of the same habit, stay. */
    method DeleteByHabitID(habitID: nat, from: Option<Instant>, to: Option<Instant>, dbErr: Option<Error>) returns (err: Option<SError>)
      requires Valid()
      modifies this
      ensures Valid() && nextID == old(nextID)
      ensures dbErr.Some? ==>
        err == Some(DbFailure(dbErr.value, "delete unconfirmed habit log record fail")) && rows == old(rows)
      ensures dbErr.None? ==> err.None? && rows == Without(old(rows), HabitLogsIn(habitID, from, to))
      ensures dbErr.None? ==> ListByHabitID(habitID, from, to, None) == Success([])
      ensures dbErr.None? ==> forall x :: x in old(rows) && x.habitID == habitID && !InWindow(x.logAt, from, to) ==> x in rows
    {
      if dbErr.Some? {
        return Some(DbFailure(dbErr.value, "delete unconfirmed habit log record fail"));
      }
      KeyedWithout(rows, nextID, RecordId, HabitLogsIn(habitID, from, to));
      ghost var before := rows;
      rows := Without(rows, HabitLogsIn(habitID, from, to));
      NoneSelected(rows, HabitLogsIn(habitID, from, to));
      forall x | x in before && x.habitID == habitID && !InWindow(x.logAt, from, to)
        ensures x in rows
      {
        assert multiset(rows)[x] == multiset(before)[x];
      }
      return None;
    }

    /** `DeleteByUID`: removes every pending record of the user. */
    method DeleteByUID(uid: UID, dbErr: Option<Error>) returns (err: Option<SError>)
      requires Valid()
      modifies this
      ensures Valid() && nextID == old(nextID)
      ensures dbErr.Some? ==>
        err == Some(DbFailure(dbErr.value, "delete unconfirmed habit log records by uid fail")) && rows == old(rows)
      ensures dbErr.None? ==> err.None? && rows == Without(old(rows), UserLogs(uid))
      ensures dbErr.None? ==> forall x :: x in rows ==> x.uid != uid
    {
      if dbErr.Some? {
        return Some(DbFailure(dbErr.value, "delete unconfirmed habit log records by uid fail"));
      }
      KeyedWithout(rows, nextID, RecordId, UserLogs(uid));
      rows := Without(rows, UserLogs(uid));
      return None;
    }
  }
}
