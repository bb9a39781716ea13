/** The habit controller (biz/controller/habit.go): creating a habit with
    its group, reading one habit as its caller may see it, listing the
    habits a user joined with their members, and deleting a habit. */
module HabitController {
  import opened Wrappers
  import opened Response
  import opened DalCommon
  import opened DalHabit
  import opened DalHabitGroup
  import opened DalUser
  import opened Database
  import opened ControllerHelper

  /** `DetailedHabit`: a habit and the users of its group. An entry is
      `None` where the source holds a nil `*User`. */
  datatype DetailedHabit = DetailedHabit(habit: Habit, userGroup: seq<Option<User>>)

  /** The users, each as a non-nil pointer. */
  function Present(us: seq<User>): (r: seq<Option<User>>)
    ensures |r| == |us|
    ensures forall i :: 0 <= i < |us| ==> r[i] == Some(us[i])
  {
    seq(|us|, i requires 0 <= i < |us| => Some(us[i]))
  }

  /** The ids of the habits, in order. */
  function Ids(hs: seq<Habit>): (r: seq<nat>)
    ensures |r| == |hs|
    ensures forall i :: 0 <= i < |hs| ==> r[i] == hs[i].id
  {
    seq(|hs|, i requires 0 <= i < |hs| => hs[i].id)
  }

  /** The uids of the group rows, in order. */
  function Uids(hgs: seq<HabitGroup>): (r: seq<UID>)
    ensures |r| == |hgs|
    ensures forall i :: 0 <= i < |hgs| ==> r[i] == hgs[i].uid
  {
    seq(|hgs|, i requires 0 <= i < |hgs| => hgs[i].uid)
  }

  lemma UidsSnoc(hgs: seq<HabitGroup>, g: HabitGroup)
    ensures Uids(hgs + [g]) == Uids(hgs) + [g.uid]
  {
  }

  /** The group rows `AddHabit` writes: one per uid, in the order given. */
  function GroupsFor(habitID: nat, uids: seq<UID>): (r: seq<HabitGroup>)
    ensures |r| == |uids|
    ensures forall i :: 0 <= i < |uids| ==> r[i].habitID == habitID && r[i].uid == uids[i]
  {
    seq(|uids|, i requires 0 <= i < |uids| => HabitGroup(habitID, uids[i]))
  }

  /** No two users share a uid. The `users` table has no unique index on
      `uid`, so this is an assumption an argument may make, not a table
      invariant. */
  predicate UidsDistinct(us: seq<User>)
  {
    forall i, j :: 0 <= i < j < |us| ==> us[i].uid != us[j].uid
  }

  predicate Distinct(xs: seq<UID>)
  {
    forall i, j :: 0 <= i < j < |xs| ==> xs[i] != xs[j]
  }

  // ---------------------------------------------------------------- AddHabit

  /** The part of `AddHabit`'s transaction after the users were listed as
      `found`: every uid must have been found, then the habit is inserted,
      then one group row per uid. */
  method InsertHabitAndGroup(db: Store, h: Habit, uids: seq<UID>, found: seq<User>,
                             addErr: Option<Error>, groupErr: Option<Error>)
    returns (saved: Habit, err: Option<SError>)
    requires db.Valid()
    modifies db.habits, db.groups
    ensures db.Valid()
    ensures |found| != |uids| ==> err == Some(New(CodeInvalidParam, "has non-exist uid"))
    ensures |found| == |uids| && addErr.Some? ==> err == Some(DbFailure(addErr.value, "add one habit fail"))
    ensures |found| == |uids| && addErr.None? && NewId(old(db.habits.rows), old(db.habits.nextID), h.id, HabitId).None? ==>
      err == Some(DbFailure(DuplicateEntry, "add one habit fail"))
    ensures |found| == |uids| && addErr.None? && NewId(old(db.habits.rows), old(db.habits.nextID), h.id, HabitId).Some? ==>
      if uids == [] then err == Some(DbFailure(EmptySlice, "add multi habit group fail"))
      else if groupErr.Some? then err == Some(DbFailure(groupErr.value, "add multi habit group fail"))
      else err.None?
    ensures err.None? ==>
      Some(saved.id) == NewId(old(db.habits.rows), old(db.habits.nextID), h.id, HabitId) &&
      saved == h.(id := saved.id) &&
      db.habits.rows == old(db.habits.rows) + [saved] &&
      db.habits.nextID == Max(old(db.habits.nextID), saved.id + 1) &&
      db.groups.rows == old(db.groups.rows) + GroupsFor(saved.id, uids)
  {
    saved := h;
    if |found| != |uids| {
      return saved, Some(New(CodeInvalidParam, "has non-exist uid"));
    }
    saved, err := db.habits.Add(h, addErr);
    if err.Some? {
      return;
    }
    var hgs: seq<HabitGroup> := [];
    var i := 0;
    while i < |uids|
      invariant 0 <= i <= |uids|
      invariant hgs == GroupsFor(saved.id, uids[..i])
    {
      hgs := hgs + [HabitGroup(saved.id, uids[i])];
      i := i + 1;
    }
    assert uids[..|uids|] == uids;
    err := db.groups.AddMulti(hgs, groupErr);
  }

  /** The rest of `AddHabit`'s transaction once the users are listed: the
      inserts, then commit or rollback. */
  method CommitListed(db: Store, tx: Snapshot, h: Habit, uids: seq<UID>, keyToURL: string -> string,
                      listed: seq<User>, addErr: Option<Error>, groupErr: Option<Error>)
    returns (r: Result<DetailedHabit, SError>)
    requires db.Valid() && SnapshotValid(tx) && tx == db.State()
    requires listed == WithPortraitURLs(Where(db.users.rows, WithUIDIn(uids)), keyToURL)
    modifies db.Tables()
    ensures db.Valid()
    ensures AddHabitCommits(db, h, uids, keyToURL, addErr, groupErr, r)
  {
    ghost var found := Where(db.users.rows, WithUIDIn(uids));
    assert |listed| == |found|;
    var saved, opErr := InsertHabitAndGroup(db, h, uids, listed, addErr, groupErr);
    var err := EndTx(db, tx, opErr);
    if err.Some? {
      assert db.State() == old(db.State());
      return Failure(err.value);
    }
    assert db.users.rows == old(db.users.rows);
    return Success(DetailedHabit(saved, Present(listed)));
  }

  /** `AddHabit` as written: when listing the users fails, the transaction
      body returns nil, so the listing error is lost, nothing is written and
      the caller is told the habit was created, with an empty group. */
  method AddHabit(db: Store, h: Habit, uids: seq<UID>, keyToURL: string -> string,
                  listErr: Option<Error>, addErr: Option<Error>, groupErr: Option<Error>)
    returns (r: Result<DetailedHabit, SError>)
    requires db.Valid()
    modifies db.Tables()
    ensures db.Valid()
    ensures listErr.Some? ==> r == Success(DetailedHabit(h, [])) && db.State() == old(db.State())
    ensures listErr.None? ==> AddHabitCommits(db, h, uids, keyToURL, addErr, groupErr, r)
  {
    var tx := db.Begin();
    ValidState(db);
    var listed := db.users.ListByUIDs(uids, keyToURL, listErr);
    if listed.Failure? {
      var _ := EndTx(db, tx, None);
      return Success(DetailedHabit(h, []));
    }
    r := CommitListed(db, tx, h, uids, keyToURL, listed.value, addErr, groupErr);
  }

  /** `AddHabit` with the listing error returned, as evidently intended. */
  method AddHabitIntended(db: Store, h: Habit, uids: seq<UID>, keyToURL: string -> string,
                          listErr: Option<Error>, addErr: Option<Error>, groupErr: Option<Error>)
    returns (r: Result<DetailedHabit, SError>)
    requires db.Valid()
    modifies db.Tables()
    ensures db.Valid()
    ensures listErr.Some? ==> r == Failure(DbFailure(listErr.value, "list user fail")) && db.State() == old(db.State())
    ensures listErr.None? ==> AddHabitCommits(db, h, uids, keyToURL, addErr, groupErr, r)
    ensures r.Success? ==> r.value.habit in db.habits.rows
  {
    var tx := db.Begin();
    ValidState(db);
    var listed := db.users.ListByUIDs(uids, keyToURL, listErr);
    if listed.Failure? {
      var err := EndTx(db, tx, Some(listed.error));
      return Failure(err.value);
    }
    r := CommitListed(db, tx, h, uids, keyToURL, listed.value, addErr, groupErr);
  }

  /** What `AddHabit` promises once the users were listed: it succeeds
      exactly when every uid was found, the habit insert succeeded and at
      least one group row was written without error; a success stores the
      habit under its new id and one group row per uid and returns the
      listed users; a failure leaves every table as it was. */
  twostate predicate AddHabitCommits(db: Store, h: Habit, uids: seq<UID>, keyToURL: string -> string,
                                     addErr: Option<Error>, groupErr: Option<Error>,
                                     new r: Result<DetailedHabit, SError>)
    reads db, db.Tables()
  {
    var found := Where(old(db.users.rows), WithUIDIn(uids));
    var id := NewId(old(db.habits.rows), old(db.habits.nextID), h.id, HabitId);
    (r.Success? <==> |found| == |uids| && addErr.None? && id.Some? && uids != [] && groupErr.None?) &&
    (|found| != |uids| ==> r == Failure(New(CodeInvalidParam, "has non-exist uid"))) &&
    (|found| == |uids| && addErr.Some? ==> r == Failure(DbFailure(addErr.value, "add one habit fail"))) &&
    (|found| == |uids| && addErr.None? && id.None? ==> r == Failure(DbFailure(DuplicateEntry, "add one habit fail"))) &&
    (|found| == |uids| && addErr.None? && id.Some? && uids == [] ==>
       r == Failure(DbFailure(EmptySlice, "add multi habit group fail"))) &&
    (|found| == |uids| && addErr.None? && id.Some? && uids != [] && groupErr.Some? ==>
       r == Failure(DbFailure(groupErr.value, "add multi habit group fail"))) &&
    (r.Failure? ==> db.State() == old(db.State())) &&
    (r.Success? ==>
       r.value.habit == h.(id := id.value) &&
       r.value.userGroup == Present(WithPortraitURLs(found, keyToURL)) &&
       db.State() == old(db.State()).(
         habits := old(db.habits.rows) + [r.value.habit],
         habitNext := Max(old(db.habits.nextID), id.value + 1),
         groups := old(db.groups.rows) + GroupsFor(id.value, uids)))
  }

  /** The lost listing error, on a concrete store: with the users' listing
      failing, `AddHabit` reports success while no habit was stored. */
  method AddHabitLosesListError() returns (r: Result<DetailedHabit, SError>, stored: seq<Habit>)
    ensures r.Success? && stored == []
  {
    var db := new Store();
    var h := Habit(0, "u1", 0, "read", PublicLevelPublic, CheckTypeBinary, FrequencyDaily, 0);
    r := AddHabit(db, h, ["u1"], k => k, Some(Foreign("connection reset")), None, None);
    stored := db.habits.rows;
  }

  /** With no two users sharing a uid, a uid given twice can never be
      matched by as many users as uids were given, so `AddHabit` rejects
      duplicate uids as non-existent. */
  lemma DuplicateUidsRejected(users: seq<User>, uids: seq<UID>, i: nat, j: nat)
    requires UidsDistinct(users)
    requires i < j < |uids| && uids[i] == uids[j]
    ensures |Where(users, WithUIDIn(uids))| < |uids|
  {
    var w := Where(users, WithUIDIn(uids));
    UidsDistinctWhere(users, WithUIDIn(uids));
    var ys := seq(|w|, k requires 0 <= k < |w| => w[k].uid);
    assert Distinct(ys);
    assert forall y :: y in ys ==> y in uids by {
      forall y | y in ys ensures y in uids {
        var k :| 0 <= k < |w| && ys[k] == y;
        assert w[k] in w;
      }
    }
    DistinctWithinDuplicated(ys, uids, i, j);
  }

  /** Distinct values drawn from a sequence holding a repeat are fewer than
      its length. */
  lemma DistinctWithinDuplicated(ys: seq<UID>, xs: seq<UID>, i: nat, j: nat)
    requires Distinct(ys) && forall y :: y in ys ==> y in xs
    requires i < j < |xs| && xs[i] == xs[j]
    ensures |ys| < |xs|
  {
    DistinctCard(ys);
    DuplicateCard(xs, i, j);
    var sy, sx := set y | y in ys, set x | x in xs;
    assert sy <= sx;
    SubsetCard(sy, sx);
  }

  lemma SubsetCard(a: set<UID>, b: set<UID>)
    requires a <= b
    ensures |a| <= |b|
  {
    assert b == a + (b - a);
  }

  lemma {:induction false} UidsDistinctWhere(us: seq<User>, p: User -> bool)
    requires UidsDistinct(us)
    ensures UidsDistinct(Where(us, p))
    decreases |us|
  {
    if us != [] {
      var x, tail := us[0], us[1..];
      HeadUnique(us);
      UidsDistinctWhere(tail, p);
      if p(x) {
        var rest := Where(tail, p);
        assert forall u :: u in rest ==> u in tail;
        ConsDistinct(x, rest);
        assert Where(us, p) == [x] + rest;
      } else {
        assert Where(us, p) == Where(tail, p);
      }
    }
  }

  /** In a table without repeated uids the first row's uid occurs nowhere
      else, and the other rows have no repeats either. */
  lemma HeadUnique(us: seq<User>)
    requires us != [] && UidsDistinct(us)
    ensures UidsDistinct(us[1..])
    ensures forall u :: u in us[1..] ==> u.uid != us[0].uid
  {
    forall u | u in us[1..] ensures u.uid != us[0].uid {
      var m :| 0 <= m < |us[1..]| && us[1..][m] == u;
      assert us[m + 1] == u;
    }
  }

  lemma ConsDistinct(x: User, rest: seq<User>)
    requires UidsDistinct(rest) && forall u :: u in rest ==> u.uid != x.uid
    ensures UidsDistinct([x] + rest)
  {
    var w := [x] + rest;
    forall a, b | 0 <= a < b < |w| ensures w[a].uid != w[b].uid {
      assert w[b] == rest[b - 1] && rest[b - 1] in rest;
      if a > 0 {
        assert w[a] == rest[a - 1];
      }
    }
  }

  lemma {:induction false} DistinctCard(xs: seq<UID>)
    requires Distinct(xs)
    ensures |set x | x in xs| == |xs|
    decreases |xs|
  {
    if xs != [] {
      var tail := xs[1..];
      assert Distinct(tail) by {
        forall a, b | 0 <= a < b < |tail| ensures tail[a] != tail[b] {
          assert tail[a] == xs[a + 1] && tail[b] == xs[b + 1];
        }
      }
      DistinctCard(tail);
      assert xs[0] !in tail by {
        forall k | 0 <= k < |tail| ensures tail[k] != xs[0] {
          assert tail[k] == xs[k + 1];
        }
      }
      assert (set x | x in xs) == {xs[0]} + (set x | x in tail) by {
        assert xs == [xs[0]] + tail;
      }
    }
  }

  lemma {:induction false} SetCard(xs: seq<UID>)
    ensures |set x | x in xs| <= |xs|
    decreases |xs|
  {
    if xs != [] {
      SetCard(xs[1..]);
      assert (set x | x in xs) == {xs[0]} + (set x | x in xs[1..]) by {
        assert xs == [xs[0]] + xs[1..];
      }
    }
  }

  lemma {:induction false} DuplicateCard(xs: seq<UID>, i: nat, j: nat)
    requires i < j < |xs| && xs[i] == xs[j]
    ensures |set x | x in xs| < |xs|
    decreases |xs|
  {
    var tail := xs[1..];
    assert xs == [xs[0]] + tail;
    assert (set x | x in xs) == {xs[0]} + (set x | x in tail);
    if i == 0 {
      assert tail[j - 1] == xs[0];
      assert (set x | x in xs) == (set x | x in tail);
      SetCard(tail);
    } else {
      assert tail[i - 1] == tail[j - 1];
      DuplicateCard(tail, i - 1, j - 1);
    }
  }

  // ------------------------------------------------------------ GetHabitByID

  /** Who may see a habit: anyone when it is not private, otherwise the
      members of its group. */
  predicate Visible(h: Habit, groups: seq<HabitGroup>, uid: UID)
  {
    h.publicLevel != PublicLevelPrivate || HabitGroup(h.id, uid) in groups
  }

  /** The members of a habit's group, in group row order. */
  function MembersOf(groups: seq<HabitGroup>, habitID: nat): (r: seq<UID>)
    ensures forall u :: u in r <==> HabitGroup(habitID, u) in groups
  {
    var hgs := Where(groups, OfHabit(habitID));
    var r := Uids(hgs);
    assert forall u :: u in r ==> HabitGroup(habitID, u) in groups by {
      forall u | u in r ensures HabitGroup(habitID, u) in groups {
        var k :| 0 <= k < |r| && r[k] == u;
        assert hgs[k] in hgs;
      }
    }
    assert forall u :: HabitGroup(habitID, u) in groups ==> u in r by {
      forall u | HabitGroup(habitID, u) in groups ensures u in r {
        var k :| 0 <= k < |hgs| && hgs[k] == HabitGroup(habitID, u);
        assert r[k] == u;
      }
    }
    r
  }

  /** The loop of `GetHabitByID` over the habit's group rows: their uids
      in order, and whether `uid` is among them. */
  method GroupMembers(hgs: seq<HabitGroup>, uid: UID) returns (uids: seq<UID>, inGroup: bool)
    ensures uids == Uids(hgs)
    ensures inGroup <==> uid in uids
  {
    inGroup := false;
    uids := [];
    var i := 0;
    while i < |hgs|
      invariant 0 <= i <= |hgs|
      invariant uids == Uids(hgs[..i])
      invariant inGroup <==> uid in uids
    {
      if hgs[i].uid == uid {
        inGroup := true;
      }
      UidsSnoc(hgs[..i], hgs[i]);
      assert hgs[..i + 1] == hgs[..i] + [hgs[i]];
      uids := uids + [hgs[i].uid];
      i := i + 1;
    }
    assert hgs[..i] == hgs;
  }

  /** `GetHabitByID`: the habit with the id and its group's users; a
      private habit is refused to anyone outside its group. */
  method GetHabitByID(db: Store, id: nat, uid: UID, keyToURL: string -> string,
                      getErr: Option<Error>, groupErr: Option<Error>, userErr: Option<Error>)
    returns (r: Result<DetailedHabit, SError>)
    requires db.Valid()
    ensures getErr.Some? ==> r == Failure(DbFailure(getErr.value, "get habit by id fail"))
    ensures getErr.None? && (forall h :: h in db.habits.rows ==> h.id != id) ==>
      r == Failure(New(CodeInvalidParam, "habit id not exist"))
    ensures forall h :: h in db.habits.rows && h.id == id && getErr.None? ==>
      (groupErr.Some? ==> r == Failure(DbFailure(groupErr.value, "list habit group by habit id fail"))) &&
      (groupErr.None? ==> (r == Failure(New(CodeUserNoPermission, "habit is private")) <==> !Visible(h, db.groups.rows, uid))) &&
      (groupErr.None? && Visible(h, db.groups.rows, uid) && userErr.Some? ==> r == Failure(DbFailure(userErr.value, "list user fail"))) &&
      (groupErr.None? && Visible(h, db.groups.rows, uid) && userErr.None? ==>
         r == Success(DetailedHabit(h, Present(WithPortraitURLs(Where(db.users.rows, WithUIDIn(MembersOf(db.groups.rows, id))), keyToURL)))))
  {
    var found := db.habits.GetByID(id, getErr);
    if found.Failure? {
      return Failure(found.error);
    }
    if found.value.None? {
      return Failure(New(CodeInvalidParam, "habit id not exist"));
    }
    var habit := found.value.value;
    KeyedHabitIsUnique(db.habits, habit);
    var hgs := db.groups.ListByHabitID(habit.id, groupErr);
    if hgs.Failure? {
      return Failure(hgs.error);
    }
    var uids, inGroup := GroupMembers(hgs.value, uid);
    assert uids == MembersOf(db.groups.rows, id);
    if habit.publicLevel == PublicLevelPrivate && !inGroup {
      return Failure(New(CodeUserNoPermission, "habit is private"));
    }
    var users := db.users.ListByUIDs(uids, keyToURL, userErr);
    if users.Failure? {
      return Failure(users.error);
    }
    return Success(DetailedHabit(habit, Present(users.value)));
  }

  /** In a keyed table a habit is the only one with its id. */
  lemma KeyedHabitIsUnique(t: HabitTable, h: Habit)
    requires t.Valid() && h in t.rows
    ensures forall x :: x in t.rows && x.id == h.id ==> x == h
  {
    forall x | x in t.rows && x.id == h.id ensures x == h {
      var a :| 0 <= a < |t.rows| && t.rows[a] == x;
      var b :| 0 <= b < |t.rows| && t.rows[b] == h;
      assert HabitId(t.rows[a]) == HabitId(t.rows[b]);
    }
  }

  // --------------------------------------------------------- DeleteHabitByID

  /** `DeleteHabitByID` as written: only the creator may delete a habit.
      The source reads the creator of the habit it looked up without
      checking that there was one, so an unknown id panics. The group rows
      stay, but no user lists the habit as joined any more. */
  method DeleteHabitByID(db: Store, id: nat, uid: UID, getErr: Option<Error>, delErr: Option<Error>)
    returns (r: Outcome<Option<SError>>)
    requires db.Valid()
    modifies db.habits
    ensures db.Valid()
    ensures getErr.Some? ==> r == Returned(Some(DbFailure(getErr.value, "get habit by id fail")))
    ensures getErr.None? && (forall h :: h in old(db.habits.rows) ==> h.id != id) ==> r == Panicked
    ensures forall h :: h in old(db.habits.rows) && h.id == id && getErr.None? ==>
      (h.creator != uid ==> r == Returned(Some(New(CodeUserNoPermission, "format")))) &&
      (h.creator == uid && delErr.Some? ==> r == Returned(Some(DbFailure(delErr.value, "delete habit fail")))) &&
      (h.creator == uid && delErr.None? ==> r == Returned(None))
    ensures r != Returned(None) ==> db.habits.rows == old(db.habits.rows)
    ensures r == Returned(None) ==> db.habits.rows == Without(old(db.habits.rows), WithId(id))
    ensures db.habits.rows != old(db.habits.rows) ==>
      exists h :: h in old(db.habits.rows) && h.id == id && h.creator == uid
    ensures r == Returned(None) ==> forall h :: h in db.habits.rows ==> h.id != id
    ensures r == Returned(None) ==> forall u :: forall h :: h in db.habits.ListUserJoinedHabits(db.groups, u, None).value ==> h.id != id
  {
    var found := db.habits.GetByID(id, getErr);
    if found.Failure? {
      return Returned(Some(found.error));
    }
    if found.value.None? {
      return Panicked;
    }
    var habit := found.value.value;
    KeyedHabitIsUnique(db.habits, habit);
    if habit.creator != uid {
      return Returned(Some(New(CodeUserNoPermission, "format")));
    }
    var err := db.habits.DeleteByID(id, delErr);
    return Returned(err);
  }

  /** `DeleteHabitByID` as evidently intended: an unknown id is refused the
      way `GetHabitByID` refuses it, and the rest is as written. */
  method DeleteHabitByIDIntended(db: Store, id: nat, uid: UID, getErr: Option<Error>, delErr: Option<Error>)
    returns (err: Option<SError>)
    requires db.Valid()
    modifies db.habits
    ensures db.Valid()
    ensures getErr.Some? ==> err == Some(DbFailure(getErr.value, "get habit by id fail"))
    ensures getErr.None? && (forall h :: h in old(db.habits.rows) ==> h.id != id) ==>
      err == Some(New(CodeInvalidParam, "habit id not exist"))
    ensures forall h :: h in old(db.habits.rows) && h.id == id && getErr.None? ==>
      (h.creator != uid ==> err == Some(New(CodeUserNoPermission, "format"))) &&
      (h.creator == uid && delErr.Some? ==> err == Some(DbFailure(delErr.value, "delete habit fail"))) &&
      (h.creator == uid && delErr.None? ==> err.None?)
    ensures err.Some? ==> db.habits.rows == old(db.habits.rows)
    ensures err.None? ==> db.habits.rows == Without(old(db.habits.rows), WithId(id))
    ensures err.None? ==> exists h :: h in old(db.habits.rows) && h.id == id && h.creator == uid
    ensures err.None? ==> forall u :: forall h :: h in db.habits.ListUserJoinedHabits(db.groups, u, None).value ==> h.id != id
  {
    var found := db.habits.GetByID(id, getErr);
    if found.Failure? {
      return Some(found.error);
    }
    if found.value.None? {
      return Some(New(CodeInvalidParam, "habit id not exist"));
    }
    var habit := found.value.value;
    KeyedHabitIsUnique(db.habits, habit);
    if habit.creator != uid {
      return Some(New(CodeUserNoPermission, "format"));
    }
    err := db.habits.DeleteByID(id, delErr);
  }

  // --------------------------------------------------------- ListHabitsByUID

  /** The distinct values of `xs`, each where it first occurs. */
  function Dedup(xs: seq<UID>): (r: seq<UID>)
    ensures forall x :: x in r <==> x in xs
    ensures Distinct(r)
    decreases |xs|
  {
    if xs == [] then []
    else
      var d := Dedup(xs[..|xs| - 1]);
      assert forall x :: x in xs <==> x in xs[..|xs| - 1] || x == xs[|xs| - 1] by {
        assert xs == xs[..|xs| - 1] + [xs[|xs| - 1]];
      }
      if xs[|xs| - 1] in d then d else d + [xs[|xs| - 1]]
  }

  /** The index at which `x` first occurs in `xs`. */
  function FirstIndex(xs: seq<UID>, x: UID): (k: nat)
    requires x in xs
    ensures k < |xs| && xs[k] == x && x !in xs[..k]
    decreases |xs|
  {
    var init := xs[..|xs| - 1];
    assert xs == init + [xs[|xs| - 1]];
    if x in init then
      var k := FirstIndex(init, x);
      assert xs[..k] == init[..k];
      k
    else
      |xs| - 1
  }

  /** `Dedup` keeps the order in which the values first occur. */
  lemma {:induction false} DedupFirstOccurrence(xs: seq<UID>)
    ensures forall i, j :: 0 <= i < j < |Dedup(xs)| ==>
      FirstIndex(xs, Dedup(xs)[i]) < FirstIndex(xs, Dedup(xs)[j])
    decreases |xs|
  {
    if xs != [] {
      var init := xs[..|xs| - 1];
      var last := xs[|xs| - 1];
      assert xs == init + [last];
      DedupFirstOccurrence(init);
      var d, r := Dedup(init), Dedup(xs);
      forall x | x in init ensures FirstIndex(xs, x) == FirstIndex(init, x) {
      }
      forall i, j | 0 <= i < j < |r| ensures FirstIndex(xs, r[i]) < FirstIndex(xs, r[j]) {
        assert r[i] == d[i];
        if j < |d| {
          assert r[j] == d[j];
        } else {
          assert r[j] == last && last !in init;
          assert d[i] in d;
        }
      }
    }
  }

  /** Go's lookup of a missing key in a `map[uint64][]UID`: a nil list. */
  function MembersIn(m: map<nat, seq<UID>>, habitID: nat): seq<UID>
  {
    if habitID in m then m[habitID] else []
  }

  /** `userIDUserMap`: each uid mapped to the last of the users with it. */
  function UserIndex(us: seq<User>): (m: map<UID, User>)
    ensures forall k :: k in m <==> exists i :: 0 <= i < |us| && us[i].uid == k
    ensures forall k :: k in m ==> m[k] in us && m[k].uid == k
    decreases |us|
  {
    if us == [] then map[]
    else
      var init := us[..|us| - 1];
      var last := us[|us| - 1];
      assert us == init + [last];
      var m := UserIndex(init);
      assert forall k :: k in m ==> m[k] in us by {
        forall k | k in m ensures m[k] in us {
          assert m[k] in init;
        }
      }
      m[last.uid := last]
  }

  /** Go's lookup of a missing key in a `map[UID]*User`: a nil user. */
  function LookupUser(m: map<UID, User>, uid: UID): Option<User>
  {
    if uid in m then Some(m[uid]) else None
  }

  /** A habit's users, one per member uid, nil where no user was found. */
  function GroupUsers(m: map<UID, User>, uids: seq<UID>): (r: seq<Option<User>>)
    ensures |r| == |uids|
    ensures forall j :: 0 <= j < |uids| ==> r[j] == LookupUser(m, uids[j])
  {
    seq(|uids|, j requires 0 <= j < |uids| => LookupUser(m, uids[j]))
  }

  /** The habits `uid` joined, as `ListUserJoinedHabits` finds them. */
  function JoinedHabits(db: Store, uid: UID): seq<Habit>
    reads db, db.habits, db.groups
  {
    Where(db.habits.rows, JoinedBy(db.groups.rows, uid))
  }

  /** The users listed for the distinct members of the joined habits. */
  function MemberUsers(db: Store, uid: UID, keyToURL: string -> string): seq<User>
    reads db, db.habits, db.groups, db.users
  {
    var hgs := Where(db.groups.rows, OfHabits(Ids(JoinedHabits(db, uid))));
    WithPortraitURLs(Where(db.users.rows, WithUIDIn(Dedup(Uids(hgs)))), keyToURL)
  }

  /** The `hsIDs` loop: the ids of the joined habits. */
  method HabitIds(hs: seq<Habit>) returns (ids: seq<nat>)
    ensures ids == Ids(hs)
  {
    ids := [];
    var i := 0;
    while i < |hs|
      invariant 0 <= i <= |hs|
      invariant ids == Ids(hs[..i])
    {
      ids := ids + [hs[i].id];
      i := i + 1;
    }
    assert hs[..i] == hs;
  }

  /** The loop over the group rows: the distinct uids in first-occurrence
      order (`uidList`, with `uidMap` as the set of those seen), and for
      each habit id the uids of its rows in row order (`habitUserMap`). */
  method GroupIndex(hgs: seq<HabitGroup>) returns (uidList: seq<UID>, habitUserMap: map<nat, seq<UID>>)
    ensures uidList == Dedup(Uids(hgs))
    ensures forall id :: MembersIn(habitUserMap, id) == Uids(Where(hgs, OfHabit(id)))
  {
    var seen: set<UID> := {};
    uidList := [];
    habitUserMap := map[];
    var i := 0;
    while i < |hgs|
      invariant 0 <= i <= |hgs|
      invariant uidList == Dedup(Uids(hgs[..i]))
      invariant forall x :: x in seen <==> x in uidList
      invariant forall id :: MembersIn(habitUserMap, id) == Uids(Where(hgs[..i], OfHabit(id)))
    {
      var hg := hgs[i];
      assert hgs[..i + 1] == hgs[..i] + [hg];
      DedupStep(hgs[..i], hg);
      if hg.uid !in seen {
        seen := seen + {hg.uid};
        uidList := uidList + [hg.uid];
      }
      IndexStep(habitUserMap, hgs[..i], hg);
      habitUserMap := habitUserMap[hg.habitID := MembersIn(habitUserMap, hg.habitID) + [hg.uid]];
      i := i + 1;
    }
    assert hgs[..i] == hgs;
  }

  lemma DedupStep(hgs: seq<HabitGroup>, hg: HabitGroup)
    ensures Dedup(Uids(hgs + [hg])) ==
      if hg.uid in Dedup(Uids(hgs)) then Dedup(Uids(hgs)) else Dedup(Uids(hgs)) + [hg.uid]
  {
    UidsSnoc(hgs, hg);
    var xs := Uids(hgs + [hg]);
    assert xs[..|xs| - 1] == Uids(hgs);
  }

  /** Appending the uid of one more row to its habit's entry keeps the map
      in step with the rows. */
  lemma IndexStep(m: map<nat, seq<UID>>, hgs: seq<HabitGroup>, hg: HabitGroup)
    requires forall id :: MembersIn(m, id) == Uids(Where(hgs, OfHabit(id)))
    ensures forall id :: MembersIn(m[hg.habitID := MembersIn(m, hg.habitID) + [hg.uid]], id) ==
                         Uids(Where(hgs + [hg], OfHabit(id)))
  {
    forall id
      ensures MembersIn(m[hg.habitID := MembersIn(m, hg.habitID) + [hg.uid]], id) ==
              Uids(Where(hgs + [hg], OfHabit(id)))
    {
      MembersStep(hgs, hg, id);
    }
  }

  lemma MembersStep(hgs: seq<HabitGroup>, hg: HabitGroup, id: nat)
    ensures Uids(Where(hgs + [hg], OfHabit(id))) ==
      Uids(Where(hgs, OfHabit(id))) + (if hg.habitID == id then [hg.uid] else [])
  {
    WhereSnoc(hgs, hg, OfHabit(id));
    if hg.habitID == id {
      UidsSnoc(Where(hgs, OfHabit(id)), hg);
    } else {
      assert Where(hgs, OfHabit(id)) + [] == Where(hgs, OfHabit(id));
    }
  }

  /** The `userIDUserMap` loop. */
  method IndexUsers(users: seq<User>) returns (m: map<UID, User>)
    ensures m == UserIndex(users)
  {
    m := map[];
    var i := 0;
    while i < |users|
      invariant 0 <= i <= |users|
      invariant m == UserIndex(users[..i])
    {
      assert users[..i + 1][..i] == users[..i];
      m := m[users[i].uid := users[i]];
      i := i + 1;
    }
    assert users[..i] == users;
  }

  /** The loop building the result: per habit, its members' users. */
  method Assemble(hs: seq<Habit>, habitUserMap: map<nat, seq<UID>>, userIDUserMap: map<UID, User>)
    returns (detailed: seq<DetailedHabit>)
    ensures |detailed| == |hs|
    ensures forall k :: 0 <= k < |hs| ==>
      detailed[k] == DetailedHabit(hs[k], GroupUsers(userIDUserMap, MembersIn(habitUserMap, hs[k].id)))
  {
    detailed := [];
    var i := 0;
    while i < |hs|
      invariant 0 <= i <= |hs|
      invariant |detailed| == i
      invariant forall k :: 0 <= k < i ==>
        detailed[k] == DetailedHabit(hs[k], GroupUsers(userIDUserMap, MembersIn(habitUserMap, hs[k].id)))
    {
      var habitUserList := MembersIn(habitUserMap, hs[i].id);
      var habitUsers: seq<Option<User>> := [];
      var j := 0;
      while j < |habitUserList|
        invariant 0 <= j <= |habitUserList|
        invariant habitUsers == GroupUsers(userIDUserMap, habitUserList[..j])
      {
        habitUsers := habitUsers + [LookupUser(userIDUserMap, habitUserList[j])];
        j := j + 1;
      }
      assert habitUserList[..j] == habitUserList;
      detailed := detailed + [DetailedHabit(hs[i], habitUsers)];
      i := i + 1;
    }
  }

  /** A joined habit's rows among the rows of all joined habits are all
      its rows. */
  lemma JoinedMembers(groups: seq<HabitGroup>, hs: seq<Habit>, k: nat)
    requires k < |hs|
    ensures Uids(Where(Where(groups, OfHabits(Ids(hs))), OfHabit(hs[k].id))) == MembersOf(groups, hs[k].id)
  {
    assert Ids(hs)[k] == hs[k].id;
    WhereNarrow(groups, OfHabits(Ids(hs)), OfHabit(hs[k].id));
  }

  /** `ListHabitsByUID`: one entry per habit `uid` joined, in listing
      order; each entry lists one user per group row of that habit, in
      group row order, as the last listed user with that uid. */
  method ListHabitsByUID(db: Store, uid: UID, keyToURL: string -> string,
                         habitErr: Option<Error>, groupErr: Option<Error>, userErr: Option<Error>)
    returns (r: Result<seq<DetailedHabit>, SError>)
    ensures habitErr.Some? ==> r == Failure(DbFailure(habitErr.value, "list user joined habits fail"))
    ensures habitErr.None? && groupErr.Some? ==> r == Failure(DbFailure(groupErr.value, "list habit group by habit ids fail"))
    ensures habitErr.None? && groupErr.None? && userErr.Some? ==> r == Failure(DbFailure(userErr.value, "list user fail"))
    ensures r.Success? <==> habitErr.None? && groupErr.None? && userErr.None?
    ensures r.Success? ==>
      var hs := JoinedHabits(db, uid);
      |r.value| == |hs| &&
      forall i :: 0 <= i < |hs| ==>
        r.value[i] == DetailedHabit(hs[i], GroupUsers(UserIndex(MemberUsers(db, uid, keyToURL)), MembersOf(db.groups.rows, hs[i].id)))
  {
    var listed := db.habits.ListUserJoinedHabits(db.groups, uid, habitErr);
    if listed.Failure? {
      return Failure(listed.error);
    }
    var hs := listed.value;
    var hsIDs := HabitIds(hs);
    var groups := db.groups.ListByHabitIDs(hsIDs, groupErr);
    if groups.Failure? {
      return Failure(groups.error);
    }
    var uidList, habitUserMap := GroupIndex(groups.value);
    var users := db.users.ListByUIDs(uidList, keyToURL, userErr);
    if users.Failure? {
      return Failure(users.error);
    }
    var userIDUserMap := IndexUsers(users.value);
    var detailed := Assemble(hs, habitUserMap, userIDUserMap);
    forall k | 0 <= k < |hs| ensures MembersIn(habitUserMap, hs[k].id) == MembersOf(db.groups.rows, hs[k].id) {
      JoinedMembers(db.groups.rows, hs, k);
    }
    return Success(detailed);
  }

  /** Every group member of a joined habit is among the uids whose users
      are listed. */
  lemma MemberIsListed(db: Store, uid: UID, h: Habit, member: UID)
    requires h in JoinedHabits(db, uid) && member in MembersOf(db.groups.rows, h.id)
    ensures member in Dedup(Uids(Where(db.groups.rows, OfHabits(Ids(JoinedHabits(db, uid))))))
  {
    var hs := JoinedHabits(db, uid);
    var hgs := Where(db.groups.rows, OfHabits(Ids(hs)));
    var k :| 0 <= k < |hs| && hs[k] == h;
    assert Ids(hs)[k] == h.id;
    assert HabitGroup(h.id, member) in hgs;
    var g :| 0 <= g < |hgs| && hgs[g] == HabitGroup(h.id, member);
    assert Uids(hgs)[g] == member;
  }

  /** Looking a listed uid up among the users listed for it finds a user
      with that uid exactly when the table has one. */
  lemma ListedUserFound(rows: seq<User>, uids: seq<UID>, keyToURL: string -> string, member: UID)
    requires member in uids
    ensures var index := UserIndex(WithPortraitURLs(Where(rows, WithUIDIn(uids)), keyToURL));
      (LookupUser(index, member).Some? <==> exists u :: u in rows && u.uid == member) &&
      (LookupUser(index, member).Some? ==> LookupUser(index, member).value.uid == member)
  {
    var found := Where(rows, WithUIDIn(uids));
    var listed := WithPortraitURLs(found, keyToURL);
    if exists u :: u in rows && u.uid == member {
      StoredUserListed(rows, uids, keyToURL, member);
    }
    if member in UserIndex(listed) {
      ListedUserStored(rows, uids, keyToURL, member);
    }
  }

  lemma StoredUserListed(rows: seq<User>, uids: seq<UID>, keyToURL: string -> string, member: UID)
    requires member in uids && exists u :: u in rows && u.uid == member
    ensures member in UserIndex(WithPortraitURLs(Where(rows, WithUIDIn(uids)), keyToURL))
  {
    var found := Where(rows, WithUIDIn(uids));
    var listed := WithPortraitURLs(found, keyToURL);
    var u :| u in rows && u.uid == member;
    assert u in found;
    var n :| 0 <= n < |found| && found[n] == u;
    assert listed[n].uid == member;
  }

  lemma ListedUserStored(rows: seq<User>, uids: seq<UID>, keyToURL: string -> string, member: UID)
    requires member in UserIndex(WithPortraitURLs(Where(rows, WithUIDIn(uids)), keyToURL))
    ensures exists u :: u in rows && u.uid == member
  {
    var found := Where(rows, WithUIDIn(uids));
    var listed := WithPortraitURLs(found, keyToURL);
    var n :| 0 <= n < |listed| && listed[n].uid == member;
    assert found[n] in found;
  }

  /** Every group member of a listed habit who has a user row is listed
      with a user carrying that uid; a member without one is nil. */
  lemma ListedMembersResolve(db: Store, uid: UID, keyToURL: string -> string, h: Habit, member: UID)
    requires h in JoinedHabits(db, uid) && member in MembersOf(db.groups.rows, h.id)
    ensures var index := UserIndex(MemberUsers(db, uid, keyToURL));
      (LookupUser(index, member).Some? <==> exists u :: u in db.users.rows && u.uid == member) &&
      (LookupUser(index, member).Some? ==> LookupUser(index, member).value.uid == member)
  {
    MemberIsListed(db, uid, h, member);
    var hgs := Where(db.groups.rows, OfHabits(Ids(JoinedHabits(db, uid))));
    ListedUserFound(db.users.rows, Dedup(Uids(hgs)), keyToURL, member);
  }
}
