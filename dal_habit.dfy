/** The `habit` table (biz/dal/habit.go) and the three string enumerations
    a habit is described by. */
module DalHabit {
  import opened Wrappers
  import opened GoTypes
  import opened Response
  import opened DalCommon
  import DalHabitGroup

  const CheckTypeBinary := "binary"
  const CheckTypeTimeInterval := "time_interval"

  /** `HabitCheckType.IsValid`. */
  predicate CheckTypeIsValid(t: string)
  {
    t == CheckTypeBinary || t == CheckTypeTimeInterval
  }

  const FrequencyDaily := "daily"
  const FrequencyWeekly := "weekly"
  const FrequencyMonthly := "monthly"

  /** `HabitCheckFrequency.IsValid`. */
  predicate FrequencyIsValid(f: string)
  {
    f == FrequencyDaily || f == FrequencyWeekly || f == FrequencyMonthly
  }

  const PublicLevelPublic := "public"
  const PublicLevelPrivate := "private"

  /** `HabitPublicLevel.IsValid`. */
  predicate PublicLevelIsValid(l: string)
  {
    l == PublicLevelPublic || l == PublicLevelPrivate
  }

  datatype Habit = Habit(
    id: nat,
    creator: UID,
    createAt: Instant,
    name: string,
    publicLevel: string,
    checkType: string,
    checkFrequency: string,
    checkDeadlineDelay: Duration)

  function HabitId(h: Habit): nat
  {
    h.id
  }

  /** `id = ?` */
  function WithId(id: nat): Habit -> bool
  {
    (h: Habit) => h.id == id
  }

  /** `id in (select habit_id from habit_group where uid = ?)` */
  function JoinedBy(groups: seq<DalHabitGroup.HabitGroup>, uid: UID): Habit -> bool
  {
    (h: Habit) => DalHabitGroup.HabitGroup(h.id, uid) in groups
  }

  class HabitTable {
    var rows: seq<Habit>
    var nextID: nat

    /** Ids are unique and below the auto-increment counter. */
    ghost predicate Valid()
      reads this
    {
      Keyed(rows, nextID, HabitId)
    }

    constructor ()
      ensures rows == [] && nextID == 1 && Valid()
    {
      rows := [];
      nextID := 1;
    }

    /** `Add`: inserts `h`; an id of 0 is replaced by the next
        auto-increment value, which GORM writes back into the row. */
    method Add(h: Habit, dbErr: Option<Error>) returns (saved: Habit, err: Option<SError>)
      requires Valid()
      modifies this
      ensures Valid()
      ensures dbErr.Some? ==>
        err == Some(DbFailure(dbErr.value, "add one habit fail")) && saved == h &&
        rows == old(rows) && nextID == old(nextID)
      ensures dbErr.None? ==>
        match NewId(old(rows), old(nextID), h.id, HabitId)
        case None =>
          err == Some(DbFailure(DuplicateEntry, "add one habit fail")) && saved == h &&
          rows == old(rows) && nextID == old(nextID)
        case Some(id) =>
          err.None? && saved == h.(id := id) &&
          rows == old(rows) + [saved] && nextID == Max(old(nextID), id + 1)
    {
      saved := h;
      if dbErr.Some? {
        return saved, Some(DbFailure(dbErr.value, "add one habit fail"));
      }
      var id := NewId(rows, nextID, h.id, HabitId);
      if id.None? {
        return saved, Some(DbFailure(DuplicateEntry, "add one habit fail"));
      }
      saved := h.(id := id.value);
      KeyedAppend(rows, nextID, saved, h.id, HabitId);
      rows := rows + [saved];
      nextID := Max(nextID, id.value + 1);
      err := None;
    }

    /** `GetByID`: the habit with the id, `None` when there is none. */
    function GetByID(id: nat, dbErr: Option<Error>): (r: Result<Option<Habit>, SError>)
      reads this
      ensures dbErr.Some? ==> r == Failure(DbFailure(dbErr.value, "get habit by id fail"))
      ensures dbErr.None? ==> r.Success?
      ensures dbErr.None? ==> (r.value.Some? <==> exists h :: h in rows && h.id == id)
      ensures dbErr.None? && r.value.Some? ==> r.value.value in rows && r.value.value.id == id
    {
      if dbErr.Some? then Failure(DbFailure(dbErr.value, "get habit by id fail"))
      else Success(First(rows, WithId(id)))
    }

    /** `ListUserJoinedHabits`: the habits whose id appears in a
        membership of `uid` in the `habit_group` table. */
    function ListUserJoinedHabits(groups: DalHabitGroup.HabitGroupTable, uid: UID, dbErr: Option<Error>): (r: Result<seq<Habit>, SError>)
      reads this, groups
      ensures dbErr.Some? ==> r == Failure(DbFailure(dbErr.value, "list user joined habits fail"))
      ensures dbErr.None? ==> r.Success? && Selects(r.value, rows, JoinedBy(groups.rows, uid))
      ensures dbErr.None? ==>
        forall h :: h in r.value <==> h in rows && DalHabitGroup.HabitGroup(h.id, uid) in groups.rows
    {
      if dbErr.Some? then Failure(DbFailure(dbErr.value, "list user joined habits fail"))
      else Success(Where(rows, JoinedBy(groups.rows, uid)))
    }

    /** `DeleteByID`: removes the habit with the id (its memberships stay). */
    method DeleteByID(id: nat, dbErr: Option<Error>) returns (err: Option<SError>)
      requires Valid()
      modifies this
      ensures Valid() && nextID == old(nextID)
      ensures dbErr.Some? ==> err == Some(DbFailure(dbErr.value, "delete habit fail")) && rows == old(rows)
      ensures dbErr.None? ==> err.None? && rows == Without(old(rows), WithId(id))
      ensures dbErr.None? ==> GetByID(id, None) == Success(None)
    {
      if dbErr.Some? {
        return Some(DbFailure(dbErr.value, "delete habit fail"));
      }
      KeyedWithout(rows, nextID, HabitId, WithId(id));
      rows := Without(rows, WithId(id));
      return None;
    }
  }

  /** In a valid table `GetByID` finds a stored habit by its id alone. */
  lemma GetByIDFindsStored(t: HabitTable, h: Habit)
    requires t.Valid() && h in t.rows
    ensures t.GetByID(h.id, None) == Success(Some(h))
  {
    KeyedFirst(t.rows, t.nextID, HabitId, h.id, WithId(h.id), h);
  }
}
