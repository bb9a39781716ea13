/** The `user_habit_config` table (biz/dal/user_habit_config.go): each
    member's streak counters and display settings for one habit. */
module DalUserHabitConfig {
  import opened Wrappers
  import opened GoTypes
  import opened Response
  import opened DalCommon

  datatype UserHabitConfig = UserHabitConfig(
    uid: UID,
    habitID: nat,
    currentStreak: uint32,
    longestStreak: uint32,
    streakUpdateAt: Option<Instant>,
    remainRetroactiveChance: uint8,
    heatmapColor: string)

  /** `UserHabitConfigUpdatableFields`: `None` is a nil pointer, a field
      the caller does not want to change. */
  datatype UpdatableFields = UpdatableFields(
    currentStreak: Option<uint32>,
    longestStreak: Option<uint32>,
    streakUpdateAt: Option<Instant>,
    heatmapColor: Option<string>)

  predicate NoFields(f: UpdatableFields)
  {
    f.currentStreak.None? && f.longestStreak.None? && f.streakUpdateAt.None? && f.heatmapColor.None?
  }

  /** The intended effect of a partial update on one row: every supplied
      field replaced, every other column kept. */
  function Patch(c: UserHabitConfig, f: UpdatableFields): UserHabitConfig
  {
    c.(currentStreak := f.currentStreak.GetOr(c.currentStreak),
       longestStreak := f.longestStreak.GetOr(c.longestStreak),
       streakUpdateAt := if f.streakUpdateAt.Some? then f.streakUpdateAt else c.streakUpdateAt,
       heatmapColor := f.heatmapColor.GetOr(c.heatmapColor))
  }

  function PatchWith(f: UpdatableFields): UserHabitConfig -> UserHabitConfig
  {
    c => Patch(c, f)
  }

  /** What `UPDATE user_habit_config SET <updates>` does to one row. */
  function Assign(c: UserHabitConfig, updates: map<string, ColumnValue>): UserHabitConfig
  {
    c.(currentStreak := Uint32Assigned(updates, "current_streak", c.currentStreak),
       longestStreak := Uint32Assigned(updates, "longest_streak", c.longestStreak),
       streakUpdateAt := TimeAssigned(updates, "streak_update_at", c.streakUpdateAt),
       heatmapColor := TextAssigned(updates, "heatmap_color", c.heatmapColor))
  }

  function AssignWith(updates: map<string, ColumnValue>): UserHabitConfig -> UserHabitConfig
  {
    c => Assign(c, updates)
  }

  /** `uid = ? and habit_id = ?` */
  function ConfigOf(uid: UID, habitID: nat): UserHabitConfig -> bool
  {
    (c: UserHabitConfig) => c.uid == uid && c.habitID == habitID
  }

  /** `uid = ? and habit_id in (?)` */
  function ConfigsOf(uid: UID, habitIDs: seq<nat>): UserHabitConfig -> bool
  {
    (c: UserHabitConfig) => c.uid == uid && c.habitID in habitIDs
  }

  /** `uid in (?) and habit_id = ?` */
  function MembersOf(uids: seq<UID>, habitID: nat): UserHabitConfig -> bool
  {
    (c: UserHabitConfig) => c.uid in uids && c.habitID == habitID
  }

  /** `uid in (?) and habit_id = ? and current_streak > longest_streak` */
  function NewRecordOf(uids: seq<UID>, habitID: nat): UserHabitConfig -> bool
  {
    (c: UserHabitConfig) => c.uid in uids && c.habitID == habitID && c.currentStreak > c.longestStreak
  }

  /** `current_streak = current_streak + 1`, on a row where it fits. */
  function BumpStreak(c: UserHabitConfig): UserHabitConfig
  {
    if c.currentStreak < MaxUint32 then c.(currentStreak := c.currentStreak + 1) else c
  }

  /** Some member row is already at the largest `int unsigned` value, so
      the increment is out of range, which strict SQL mode reports as an
      error rather than clamping the value. */
  predicate Overflows(rows: seq<UserHabitConfig>, uids: seq<UID>, habitID: nat)
  {
    exists c :: c in rows && MembersOf(uids, habitID)(c) && c.currentStreak == MaxUint32
  }

  /** The driver error MySQL reports for an out-of-range column value. */
  const OutOfRange: Error := Foreign("Error 1264: Out of range value for column 'current_streak'")

  /** The first statement of `IncreaseCurrentStreakByOne`. */
  function Bumped(rows: seq<UserHabitConfig>, uids: seq<UID>, habitID: nat): seq<UserHabitConfig>
  {
    UpdateWhere(rows, MembersOf(uids, habitID), BumpStreak)
  }

  /** Some member row now beats its record, so the follow-up statement has
      a row to write. */
  predicate BeatsRecord(rows: seq<UserHabitConfig>, uids: seq<UID>, habitID: nat)
  {
    exists c :: c in rows && NewRecordOf(uids, habitID)(c)
  }

  /** The driver error MySQL reports in strict SQL mode when the string
      literal "current_streak" is written to the integer column. */
  const IncorrectInteger: Error :=
    Foreign("Error 1366: Incorrect integer value: 'current_streak' for column 'longest_streak'")

  /** The chained `UpdateColumn("streak_update_at", now)`: GORM keeps the
      statement's `WHERE`, which is evaluated against the rows as the
      previous statement left them. */
  function Stamped(rows: seq<UserHabitConfig>, uids: seq<UID>, habitID: nat, now: Instant): seq<UserHabitConfig>
  {
    UpdateWhere(rows, NewRecordOf(uids, habitID), (c: UserHabitConfig) => c.(streakUpdateAt := Some(now)))
  }

  /** The evidently intended follow-up: `longest_streak = current_streak`
      and the time stamp in one statement. */
  function Recorded(rows: seq<UserHabitConfig>, uids: seq<UID>, habitID: nat, now: Instant): seq<UserHabitConfig>
  {
    UpdateWhere(rows, NewRecordOf(uids, habitID),
      (c: UserHabitConfig) => c.(longestStreak := c.currentStreak, streakUpdateAt := Some(now)))
  }

  /** The first statement adds exactly one to the current streak of every
      member row and changes no other column and no other row. */
  lemma BumpedAddsOne(rows: seq<UserHabitConfig>, uids: seq<UID>, habitID: nat)
    requires !Overflows(rows, uids, habitID)
    ensures |Bumped(rows, uids, habitID)| == |rows|
    ensures forall i :: 0 <= i < |rows| && MembersOf(uids, habitID)(rows[i]) ==>
      Bumped(rows, uids, habitID)[i] == rows[i].(currentStreak := Bumped(rows, uids, habitID)[i].currentStreak) &&
      Bumped(rows, uids, habitID)[i].currentStreak as int == rows[i].currentStreak as int + 1
    ensures forall i :: 0 <= i < |rows| && !MembersOf(uids, habitID)(rows[i]) ==>
      Bumped(rows, uids, habitID)[i] == rows[i]
  {
    var b := Bumped(rows, uids, habitID);
    forall i | 0 <= i < |rows| && MembersOf(uids, habitID)(rows[i])
      ensures b[i].currentStreak as int == rows[i].currentStreak as int + 1
    {
      assert rows[i] in rows;
    }
  }

  /** As written, a member whose new streak beats its record keeps the old
      record: a row with both streaks at 0 is bumped to current streak 1,
      which beats its record, so the follow-up is refused and the row is
      left with longest streak 0. */
  lemma RejectedLiteralBreaksRecord()
    ensures var b := Bumped([UserHabitConfig("u", 1, 0, 0, None, 0, "")], ["u"], 1);
      BeatsRecord(b, ["u"], 1) && b[0].currentStreak == 1 && b[0].longestStreak == 0
  {
    var rows := [UserHabitConfig("u", 1, 0, 0, None, 0, "")];
    var b := Bumped(rows, ["u"], 1);
    assert MembersOf(["u"], 1)(rows[0]);
    assert b[0] == rows[0].(currentStreak := 1);
    assert b[0] in b && NewRecordOf(["u"], 1)(b[0]);
  }

  /** The intended follow-up leaves every member row with a record at
      least its current streak and leaves every other row as it was. */
  lemma RecordedKeepsRecord(rows: seq<UserHabitConfig>, uids: seq<UID>, habitID: nat, now: Instant)
    ensures |Recorded(rows, uids, habitID, now)| == |rows|
    ensures forall i :: 0 <= i < |rows| && MembersOf(uids, habitID)(rows[i]) ==>
      Recorded(rows, uids, habitID, now)[i].longestStreak >= Recorded(rows, uids, habitID, now)[i].currentStreak
    ensures forall i :: 0 <= i < |rows| && !MembersOf(uids, habitID)(rows[i]) ==>
      Recorded(rows, uids, habitID, now)[i] == rows[i]
  {
  }

  /** `UpdateMany` with a single habit id is `Update`. */
  lemma {:induction false} ManyWithOneIsOne(rows: seq<UserHabitConfig>, uid: UID, habitID: nat, f: UpdatableFields)
    ensures UpdateWhere(rows, ConfigsOf(uid, [habitID]), PatchWith(f)) ==
            UpdateWhere(rows, ConfigOf(uid, habitID), PatchWith(f))
  {
    var a := UpdateWhere(rows, ConfigsOf(uid, [habitID]), PatchWith(f));
    var b := UpdateWhere(rows, ConfigOf(uid, habitID), PatchWith(f));
    forall i | 0 <= i < |rows| ensures a[i] == b[i] {
      assert ConfigsOf(uid, [habitID])(rows[i]) == ConfigOf(uid, habitID)(rows[i]);
    }
  }

  class UserHabitConfigTable {
    var rows: seq<UserHabitConfig>

    constructor ()
      ensures rows == []
    {
      rows := [];
    }

    /** `Add`: inserts one configuration row. */
    method Add(c: UserHabitConfig, dbErr: Option<Error>) returns (err: Option<SError>)
      modifies this
      ensures dbErr.Some? ==>
        err == Some(DbFailure(dbErr.value, "add one user habit config fail")) && rows == old(rows)
      ensures dbErr.None? ==> err.None? && rows == old(rows) + [c]
    {
      if dbErr.Some? {
        return Some(DbFailure(dbErr.value, "add one user habit config fail"));
      }
      rows := rows + [c];
      return None;
    }

    /** The column map `Update` and `UpdateMany` build, field by field. */
    static method UpdatesOf(f: UpdatableFields) returns (updates: map<string, ColumnValue>)
      ensures |updates| == 0 <==> NoFields(f)
      ensures forall c :: Assign(c, updates) == Patch(c, f)
    {
      updates := map[];
      if f.currentStreak.Some? {
        updates := updates["current_streak" := Uint32Column(f.currentStreak.value)];
      }
      if f.longestStreak.Some? {
        updates := updates["longest_streak" := Uint32Column(f.longestStreak.value)];
      }
      if f.streakUpdateAt.Some? {
        updates := updates["streak_update_at" := TimeColumn(f.streakUpdateAt.value)];
      }
      if f.heatmapColor.Some? {
        updates := updates["heatmap_color" := TextColumn(f.heatmapColor.value)];
      }
    }

    /** `Update`: writes the supplied fields of the row with this
        (uid, habit id); no supplied field is a no-op. */
    method Update(uid: UID, habitID: nat, f: UpdatableFields, dbErr: Option<Error>) returns (err: Option<SError>)
      modifies this
      ensures NoFields(f) ==> err.None? && rows == old(rows)
      ensures !NoFields(f) && dbErr.Some? ==>
        err == Some(DbFailure(dbErr.value, "update user habit config fail")) && rows == old(rows)
      ensures !NoFields(f) && dbErr.None? ==>
        err.None? && rows == UpdateWhere(old(rows), ConfigOf(uid, habitID), PatchWith(f))
    {
      var updates := UpdatesOf(f);
      if |updates| == 0 {
        return None;
      }
      if dbErr.Some? {
        return Some(DbFailure(dbErr.value, "update user habit config fail"));
      }
      UpdateWhereExt(rows, ConfigOf(uid, habitID), AssignWith(updates), PatchWith(f));
      rows := UpdateWhere(rows, ConfigOf(uid, habitID), AssignWith(updates));
      return None;
    }

    /** `UpdateMany`: as `Update`, on the rows of `uid` for any of the habits. */
    method UpdateMany(uid: UID, habitIDs: seq<nat>, f: UpdatableFields, dbErr: Option<Error>) returns (err: Option<SError>)
      modifies this
      ensures NoFields(f) ==> err.None? && rows == old(rows)
      ensures !NoFields(f) && dbErr.Some? ==>
        err == Some(DbFailure(dbErr.value, "update user habit config fail")) && rows == old(rows)
      ensures !NoFields(f) && dbErr.None? ==>
        err.None? && rows == UpdateWhere(old(rows), ConfigsOf(uid, habitIDs), PatchWith(f))
    {
      var updates := UpdatesOf(f);
      if |updates| == 0 {
        return None;
      }
      if dbErr.Some? {
        return Some(DbFailure(dbErr.value, "update user habit config fail"));
      }
      UpdateWhereExt(rows, ConfigsOf(uid, habitIDs), AssignWith(updates), PatchWith(f));
      rows := UpdateWhere(rows, ConfigsOf(uid, habitIDs), AssignWith(updates));
      return None;
    }

    /** `IncreaseCurrentStreakByOne` as written: statements outside a
        transaction of their own, so a later failure keeps the earlier
        changes. The follow-up writes the string literal "current_streak"
        to the record, which strict SQL mode refuses as soon as a row
        matches; when none matches, it and the chained time stamp write
        nothing. `dbErr`, `longestErr` and `stampErr` are the faults of the
        three statements. */
    method IncreaseCurrentStreakByOne(uids: seq<UID>, habitID: nat, now: Instant,
                                      dbErr: Option<Error>, longestErr: Option<Error>, stampErr: Option<Error>)
      returns (err: Option<SError>)
      modifies this
      ensures dbErr.Some? ==>
        err == Some(DbFailure(dbErr.value, "increase current streak fail")) && rows == old(rows)
      ensures dbErr.None? && Overflows(old(rows), uids, habitID) ==>
        err == Some(DbFailure(OutOfRange, "increase current streak fail")) && rows == old(rows)
      ensures dbErr.None? && !Overflows(old(rows), uids, habitID) ==>
        rows == Bumped(old(rows), uids, habitID) &&
        err == (if longestErr.Some? then Some(DbFailure(longestErr.value, "update longest streak fail"))
                else if BeatsRecord(rows, uids, habitID) then Some(DbFailure(IncorrectInteger, "update longest streak fail"))
                else if stampErr.Some? then Some(DbFailure(stampErr.value, "update longest streak fail"))
                else None)
    {
      if dbErr.Some? {
        return Some(DbFailure(dbErr.value, "increase current streak fail"));
      }
      if Overflows(rows, uids, habitID) {
        return Some(DbFailure(OutOfRange, "increase current streak fail"));
      }
      rows := Bumped(rows, uids, habitID);
      if longestErr.Some? {
        return Some(DbFailure(longestErr.value, "update longest streak fail"));
      }
      if BeatsRecord(rows, uids, habitID) {
        return Some(DbFailure(IncorrectInteger, "update longest streak fail"));
      }
      if stampErr.Some? {
        return Some(DbFailure(stampErr.value, "update longest streak fail"));
      }
      ghost var bumped := rows;
      rows := Stamped(rows, uids, habitID, now);
      assert rows == bumped by {
        forall i | 0 <= i < |bumped| ensures !NewRecordOf(uids, habitID)(bumped[i]) {
          assert bumped[i] in bumped;
        }
      }
      return None;
    }

    /** `IncreaseCurrentStreakByOne` as evidently intended: the follow-up
        copies the current streak into the record and stamps the row in one
        statement. */
    method IncreaseCurrentStreakByOneIntended(uids: seq<UID>, habitID: nat, now: Instant,
                                              dbErr: Option<Error>, recordErr: Option<Error>)
      returns (err: Option<SError>)
      modifies this
      ensures dbErr.Some? ==>
        err == Some(DbFailure(dbErr.value, "increase current streak fail")) && rows == old(rows)
      ensures dbErr.None? && Overflows(old(rows), uids, habitID) ==>
        err == Some(DbFailure(OutOfRange, "increase current streak fail")) && rows == old(rows)
      ensures dbErr.None? && !Overflows(old(rows), uids, habitID) ==>
        var bumped := Bumped(old(rows), uids, habitID);
        if recordErr.Some? then
          err == Some(DbFailure(recordErr.value, "update longest streak fail")) && rows == bumped
        else
          err.None? && rows == Recorded(bumped, uids, habitID, now)
    {
      if dbErr.Some? {
        return Some(DbFailure(dbErr.value, "increase current streak fail"));
      }
      if Overflows(rows, uids, habitID) {
        return Some(DbFailure(OutOfRange, "increase current streak fail"));
      }
      rows := Bumped(rows, uids, habitID);
      if recordErr.Some? {
        return Some(DbFailure(recordErr.value, "update longest streak fail"));
      }
      rows := Recorded(rows, uids, habitID, now);
      return None;
    }

    /** `GetByUIDAndHabitID`: the row with this (uid, habit id), if any. */
    function GetByUIDAndHabitID(uid: UID, habitID: nat, dbErr: Option<Error>): (r: Result<Option<UserHabitConfig>, SError>)
      reads this
      ensures dbErr.Some? ==> r == Failure(DbFailure(dbErr.value, "get user habit config fail"))
      ensures dbErr.None? ==> r.Success?
      ensures dbErr.None? ==> (r.value.Some? <==> exists c :: c in rows && c.uid == uid && c.habitID == habitID)
      ensures dbErr.None? && r.value.Some? ==>
        r.value.value in rows && r.value.value.uid == uid && r.value.value.habitID == habitID
    {
      if dbErr.Some? then Failure(DbFailure(dbErr.value, "get user habit config fail"))
      else Success(First(rows, ConfigOf(uid, habitID)))
    }

    /** `ListUserHabitConfig`: the rows of `uid` for any of the habits. */
    function ListUserHabitConfig(uid: UID, habitIDs: seq<nat>, dbErr: Option<Error>): (r: Result<seq<UserHabitConfig>, SError>)
      reads this
      ensures dbErr.Some? ==> r == Failure(DbFailure(dbErr.value, "list user habit config fail"))
      ensures dbErr.None? ==> r.Success? && Selects(r.value, rows, ConfigsOf(uid, habitIDs))
      ensures dbErr.None? ==> forall c :: c in r.value <==> c in rows && c.uid == uid && c.habitID in habitIDs
    {
      if dbErr.Some? then Failure(DbFailure(dbErr.value, "list user habit config fail"))
      else Success(Where(rows, ConfigsOf(uid, habitIDs)))
    }

    /** `DeleteByHabitIDAndUID`: removes the rows with both keys. */
    method DeleteByHabitIDAndUID(habitID: nat, uid: UID, dbErr: Option<Error>) returns (err: Option<SError>)
      modifies this
      ensures dbErr.Some? ==>
        err == Some(DbFailure(dbErr.value, "delete user habit config fail")) && rows == old(rows)
      ensures dbErr.None? ==> err.None? && rows == Without(old(rows), ConfigOf(uid, habitID))
      ensures dbErr.None? ==> GetByUIDAndHabitID(uid, habitID, None) == Success(None)
    {
      if dbErr.Some? {
        return Some(DbFailure(dbErr.value, "delete user habit config fail"));
      }
      rows := Without(rows, ConfigOf(uid, habitID));
      return None;
    }
  }
}
