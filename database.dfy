/** The database the handlers share: one object per table, and the
    snapshot a transaction rolls back to (biz/controller/helper.go). */
module Database {
  import opened DalHabit
  import opened DalHabitGroup
  import opened DalUserHabitConfig
  import opened DalHabitLogRecord
  import opened DalUnconfirmedHabitLogRecord
  import opened DalUser
  import opened DalUserEmailActivate
  import opened DalUserEmailVerifyCode

  /** The contents of every table, with the auto-increment counters. */
  datatype Snapshot = Snapshot(
    habits: seq<Habit>, habitNext: nat,
    groups: seq<HabitGroup>,
    configs: seq<UserHabitConfig>,
    logs: seq<HabitLogRecord>, logNext: nat,
    pending: seq<HabitLogRecord>, pendingNext: nat,
    users: seq<User>, userNext: nat,
    activations: seq<UserEmailActivate>, activationNext: nat,
    codes: seq<UserEmailVerifyCode>)

  class Store {
    const habits: HabitTable
    const groups: HabitGroupTable
    const configs: UserHabitConfigTable
    const logs: HabitLogRecordTable
    const pending: UnconfirmedHabitLogRecordTable
    const users: UserTable
    const activations: UserEmailActivateTable
    const codes: UserEmailVerifyCodeTable

    ghost function Tables(): set<object>
      reads this
    {
      {habits, groups, configs, logs, pending, users, activations, codes}
    }

    /** Every table with an auto-increment key is keyed. */
    ghost predicate Valid()
      reads this, Tables()
    {
      habits.Valid() && logs.Valid() && pending.Valid() && users.Valid() && activations.Valid()
    }

    function State(): (s: Snapshot)
      reads this, Tables()
      ensures s.habits == habits.rows && s.groups == groups.rows && s.users == users.rows
      ensures s.activations == activations.rows && s.activationNext == activations.nextID
    {
      Snapshot(habits.rows, habits.nextID, groups.rows, configs.rows, logs.rows, logs.nextID,
               pending.rows, pending.nextID, users.rows, users.nextID,
               activations.rows, activations.nextID, codes.rows)
    }

    constructor ()
      ensures Valid() && fresh(Tables())
      ensures State() == Snapshot([], 1, [], [], [], 1, [], 1, [], 1, [], 1, [])
    {
      habits := new HabitTable();
      groups := new HabitGroupTable();
      configs := new UserHabitConfigTable();
      logs := new HabitLogRecordTable();
      pending := new UnconfirmedHabitLogRecordTable();
      users := new UserTable();
      activations := new UserEmailActivateTable();
      codes := new UserEmailVerifyCodeTable();
    }

    /** `Begin`: the state a later rollback returns to. */
    method Begin() returns (tx: Snapshot)
      ensures tx == State()
    {
      tx := State();
    }

    /** `Rollback`: every table is put back as it was when `tx` began. */
    method Rollback(tx: Snapshot)
      requires SnapshotValid(tx)
      modifies Tables()
      ensures Valid() && State() == tx
    {
      habits.rows, habits.nextID := tx.habits, tx.habitNext;
      groups.rows := tx.groups;
      configs.rows := tx.configs;
      logs.rows, logs.nextID := tx.logs, tx.logNext;
      pending.rows, pending.nextID := tx.pending, tx.pendingNext;
      users.rows, users.nextID := tx.users, tx.userNext;
      activations.rows, activations.nextID := tx.activations, tx.activationNext;
      codes.rows := tx.codes;
    }
  }

  /** The table invariants, read off a snapshot. */
  ghost predicate SnapshotValid(s: Snapshot)
  {
    DalCommon.Keyed(s.habits, s.habitNext, HabitId) &&
    DalCommon.Keyed(s.logs, s.logNext, RecordId) &&
    DalCommon.Keyed(s.pending, s.pendingNext, RecordId) &&
    DalCommon.Keyed(s.users, s.userNext, UserId) &&
    DalCommon.Keyed(s.activations, s.activationNext, ActivateId)
  }

  /** A valid store has a valid state, so it can always be rolled back to. */
  lemma ValidState(db: Store)
    requires db.Valid()
    ensures SnapshotValid(db.State())
  {
  }
}
