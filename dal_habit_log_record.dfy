/** The `habit_log_records` table (biz/dal/habit_log_record.go): one row per
    check-in of a user on a habit. */
module DalHabitLogRecord {
  import opened Wrappers
  import opened GoTypes
  import opened Response
  import opened DalCommon

  datatype HabitLogRecord = HabitLogRecord(id: nat, habitID: nat, uid: UID, logAt: Instant)

  function RecordId(r: HabitLogRecord): nat
  {
    r.id
  }

  /** `uid = ?`, then `log_at >= from` and `log_at <= to` when given. */
  function UserLogsIn(uid: UID, from: Option<Instant>, to: Option<Instant>): HabitLogRecord -> bool
  {
    (r: HabitLogRecord) => r.uid == uid && InWindow(r.logAt, from, to)
  }

  /** `uid = ? AND habit_id in (?)`, then the optional window. */
  function UserHabitLogsIn(uid: UID, habitIDs: seq<nat>, from: Option<Instant>, to: Option<Instant>): HabitLogRecord -> bool
  {
    (r: HabitLogRecord) => r.uid == uid && r.habitID in habitIDs && InWindow(r.logAt, from, to)
  }

  /** `habit_id = ?`, then the optional window. */
  function HabitLogsIn(habitID: nat, from: Option<Instant>, to: Option<Instant>): HabitLogRecord -> bool
  {
    (r: HabitLogRecord) => r.habitID == habitID && InWindow(r.logAt, from, to)
  }

  /** `habit_id = ? and uid = ?` */
  function UserHabitLogs(habitID: nat, uid: UID): HabitLogRecord -> bool
  {
    (r: HabitLogRecord) => r.habitID == habitID && r.uid == uid
  }

  /** `uid = ?` */
  function UserLogs(uid: UID): HabitLogRecord -> bool
  {
    (r: HabitLogRecord) => r.uid == uid
  }

  /** Inserting `rs` one after another into a table with counter `next`:
      the table and counter afterwards, or `None` when some record's
      explicit id is taken (by the table or an earlier record). */
  function InsertAll(rows: seq<HabitLogRecord>, next: nat, rs: seq<HabitLogRecord>): Option<(seq<HabitLogRecord>, nat)>
    decreases |rs|
  {
    if rs == [] then Some((rows, next))
    else
      match NewId(rows, next, rs[0].id, RecordId)
      case None => None
      case Some(id) => InsertAll(rows + [rs[0].(id := id)], Max(next, id + 1), rs[1..])
  }

  /** A successful batch insert appends one row per record, each record
      with its explicit id or a fresh one, and keeps the table keyed. */
  lemma {:induction false} InsertAllAppends(rows: seq<HabitLogRecord>, next: nat, rs: seq<HabitLogRecord>)
    requires Keyed(rows, next, RecordId)
    requires InsertAll(rows, next, rs).Some?
    ensures var (rows', next') := InsertAll(rows, next, rs).value;
      Keyed(rows', next', RecordId) && next <= next' &&
      |rows'| == |rows| + |rs| && rows'[..|rows|] == rows &&
      forall i :: 0 <= i < |rs| ==>
        rows'[|rows| + i] == rs[i].(id := rows'[|rows| + i].id) && (rs[i].id != 0 ==> rows'[|rows| + i].id == rs[i].id)
    decreases |rs|
  {
    if rs != [] {
      var id := NewId(rows, next, rs[0].id, RecordId).value;
      var r := rs[0].(id := id);
      KeyedAppend(rows, next, r, rs[0].id, RecordId);
      InsertAllAppends(rows + [r], Max(next, id + 1), rs[1..]);
      var (rows', next') := InsertAll(rows, next, rs).value;
      assert rows'[..|rows| + 1] == rows + [r] by {
        assert rows'[..|rows| + 1] == rows'[..|rows + [r]|];
      }
      assert rows'[..|rows|] == (rows'[..|rows| + 1])[..|rows|];
      forall i | 0 <= i < |rs|
        ensures rows'[|rows| + i] == rs[i].(id := rows'[|rows| + i].id)
        ensures rs[i].id != 0 ==> rows'[|rows| + i].id == rs[i].id
      {
        if i == 0 {
          assert rows'[|rows|] == (rows + [r])[|rows|];
        } else {
          assert rs[i] == rs[1..][i - 1];
          assert |rows| + i == |rows + [r]| + (i - 1);
        }
      }
    }
  }

  class HabitLogRecordTable {
    var rows: seq<HabitLogRecord>
    var nextID: nat

    ghost predicate Valid()
      reads this
    {
      Keyed(rows, nextID, RecordId)
    }

    constructor ()
      ensures rows == [] && nextID == 1 && Valid()
    {
      rows := [];
      nextID := 1;
    }

    /** `Add`: inserts one record; an id of 0 takes the next counter value. */
    method Add(r: HabitLogRecord, dbErr: Option<Error>) returns (saved: HabitLogRecord, err: Option<SError>)
      requires Valid()
      modifies this
      ensures Valid()
      ensures dbErr.Some? ==>
        err == Some(DbFailure(dbErr.value, "add one habit log record fail")) && saved == r &&
        rows == old(rows) && nextID == old(nextID)
      ensures dbErr.None? ==>
        match NewId(old(rows), old(nextID), r.id, RecordId)
        case None =>
          err == Some(DbFailure(DuplicateEntry, "add one habit log record fail")) && saved == r &&
          rows == old(rows) && nextID == old(nextID)
        case Some(id) =>
          err.None? && saved == r.(id := id) &&
          rows == old(rows) + [saved] && nextID == Max(old(nextID), id + 1)
    {
      saved := r;
      if dbErr.Some? {
        return saved, Some(DbFailure(dbErr.value, "add one habit log record fail"));
      }
      var id := NewId(rows, nextID, r.id, RecordId);
      if id.None? {
        return saved, Some(DbFailure(DuplicateEntry, "add one habit log record fail"));
      }
      saved := r.(id := id.value);
      KeyedAppend(rows, nextID, saved, r.id, RecordId);
      rows := rows + [saved];
      nextID := Max(nextID, id.value + 1);
      err := None;
    }

    /** `AddMulti`: `CreateInBatches` of ten rows per statement, inside one
        transaction when there is more than one batch, so the records are
        all inserted or none is. An empty batch is a no-op. */
    method AddMulti(rs: seq<HabitLogRecord>, dbErr: Option<Error>) returns (err: Option<SError>)
      requires Valid()
      modifies this
      ensures Valid()
      ensures dbErr.Some? && rs != [] ==>
        err == Some(DbFailure(dbErr.value, "add multi habit log record fail")) &&
        rows == old(rows) && nextID == old(nextID)
      ensures dbErr.None? || rs == [] ==>
        match InsertAll(old(rows), old(nextID), rs)
        case None =>
          err == Some(DbFailure(DuplicateEntry, "add multi habit log record fail")) &&
          rows == old(rows) && nextID == old(nextID)
        case Some((rows', next')) => err.None? && rows == rows' && nextID == next'
    {
      if rs == [] {
        return None;
      }
      if dbErr.Some? {
        return Some(DbFailure(dbErr.value, "add multi habit log record fail"));
      }
      var rows0, next0 := rows, nextID;
      var i := 0;
      while i < |rs|
        invariant 0 <= i <= |rs|
        invariant Keyed(rows, nextID, RecordId)
        invariant InsertAll(rows0, next0, rs) == InsertAll(rows, nextID, rs[i..])
      {
        assert rs[i..] == [rs[i]] + rs[i + 1..];
        var id := NewId(rows, nextID, rs[i].id, RecordId);
        if id.None? {
          rows, nextID := rows0, next0;
          return Some(DbFailure(DuplicateEntry, "add multi habit log record fail"));
        }
        var saved := rs[i].(id := id.value);
        KeyedAppend(rows, nextID, saved, rs[i].id, RecordId);
        rows := rows + [saved];
        nextID := Max(nextID, id.value + 1);
        i := i + 1;
      }
      assert rs[i..] == [];
      return None;
    }

    /** `ListByUID`: the user's records inside the optional window. */
    function ListByUID(uid: UID, from: Option<Instant>, to: Option<Instant>, dbErr: Option<Error>): (r: Result<seq<HabitLogRecord>, SError>)
      reads this
      ensures dbErr.Some? ==> r == Failure(DbFailure(dbErr.value, "list habit log records by uid fail"))
      ensures dbErr.None? ==> r.Success? && Selects(r.value, rows, UserLogsIn(uid, from, to))
      ensures dbErr.None? ==> forall x :: x in r.value <==>
        x in rows && x.uid == uid && (from.Some? ==> from.value <= x.logAt) && (to.Some? ==> x.logAt <= to.value)
    {
      if dbErr.Some? then Failure(DbFailure(dbErr.value, "list habit log records by uid fail"))
      else Success(Where(rows, UserLogsIn(uid, from, to)))
    }

    /** `ListByUIDHabitIDs`: the user's records on any of the habits inside
        the optional window. */
    function ListByUIDHabitIDs(uid: UID, habitIDs: seq<nat>, from: Option<Instant>, to: Option<Instant>, dbErr: Option<Error>): (r: Result<seq<HabitLogRecord>, SError>)
      reads this
      ensures dbErr.Some? ==>
        r == Failure(DbFailure(dbErr.value, "list habit log records by uid and habit ids fail"))
      ensures dbErr.None? ==> r.Success? && Selects(r.value, rows, UserHabitLogsIn(uid, habitIDs, from, to))
      ensures dbErr.None? ==> forall x :: x in r.value <==>
        x in rows && x.uid == uid && x.habitID in habitIDs && InWindow(x.logAt, from, to)
    {
      if dbErr.Some? then Failure(DbFailure(dbErr.value, "list habit log records by uid and habit ids fail"))
      else Success(Where(rows, UserHabitLogsIn(uid, habitIDs, from, to)))
    }

    /** `DeleteByHabitIDAndUID`: removes the user's records on the habit. */
    method DeleteByHabitIDAndUID(habitID: nat, uid: UID, dbErr: Option<Error>) returns (err: Option<SError>)
      requires Valid()
      modifies this
      ensures Valid() && nextID == old(nextID)
      ensures dbErr.Some? ==>
        err == Some(DbFailure(dbErr.value, "delete habit log record fail")) && rows == old(rows)
      ensures dbErr.None? ==> err.None? && rows == Without(old(rows), UserHabitLogs(habitID, uid))
      ensures dbErr.None? ==> ListByUIDHabitIDs(uid, [habitID], None, None, None) == Success([])
    {
      if dbErr.Some? {
        return Some(DbFailure(dbErr.value, "delete habit log record fail"));
      }
      KeyedWithout(rows, nextID, RecordId, UserHabitLogs(habitID, uid));
      rows := Without(rows, UserHabitLogs(habitID, uid));
      NoneSelected(rows, UserHabitLogsIn(uid, [habitID], None, None));
      return None;
    }

    /** `DeleteByUID`: removes every record of the user. */
    method DeleteByUID(uid: UID, dbErr: Option<Error>) returns (err: Option<SError>)
      requires Valid()
      modifies this
      ensures Valid() && nextID == old(nextID)
      ensures dbErr.Some? ==>
        err == Some(DbFailure(dbErr.value, "delete habit log records by uid fail")) && rows == old(rows)
      ensures dbErr.None? ==> err.None? && rows == Without(old(rows), UserLogs(uid))
      ensures dbErr.None? ==> ListByUID(uid, None, None, None) == Success([])
    {
      if dbErr.Some? {
        return Some(DbFailure(dbErr.value, "delete habit log records by uid fail"));
      }
      KeyedWithout(rows, nextID, RecordId, UserLogs(uid));
      rows := Without(rows, UserLogs(uid));
      NoneSelected(rows, UserLogsIn(uid, None, None));
      return None;
    }
  }
}
