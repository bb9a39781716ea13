/** Shared parts of the data-access layer: the user id type, the `Password`
    column type and the table operations every handler is built from.

    A table is a sequence of rows. A query with a `WHERE` clause is `Where`,
    a `DELETE ... WHERE` keeps the rows of `Without`, an `UPDATE ... WHERE`
    is `UpdateWhere`, and `First` stands for GORM's `First`. GORM orders
    `First` by primary key and `Find` has no `ORDER BY`, so MySQL promises
    no order for a `Find`; the model keeps insertion order for both. The
    order-free contracts (`Selects`) do not depend on that choice, nor on
    which matching row `First` returns. Database driver failures are not derived: every
    operation takes the error the driver would report (`None` when the
    statement succeeds). */
module DalCommon {
  import opened Wrappers
  import opened GoTypes
  import opened Response
  import Nullable

  /** `dal.UID`. */
  type UID = string

  /** The service error every handler returns when a statement fails. */
  function DbFailure(cause: Error, msg: string): (e: SError)
    ensures e.code == CodeInternalUnknownError && e.cause == Some(cause) && e.message == msg
  {
    Wrap(CodeInternalUnknownError, Some(cause), msg)
  }

  /** The driver error MySQL reports for an insert with a taken primary key. */
  const DuplicateEntry: Error := Foreign("Error 1062: Duplicate entry for key 'PRIMARY'")

  /** The error GORM reports for `Create` of an empty slice
      (`gorm.ErrEmptySlice`); no statement is sent. */
  const EmptySlice: Error := Foreign("empty slice found")

  /** `r` holds exactly the rows of `rows` that satisfy `p`, each as often
      as it occurs in `rows`. */
  ghost predicate Selects<T>(r: seq<T>, rows: seq<T>, p: T -> bool)
  {
    (forall x :: x in r ==> x in rows && p(x)) &&
    (forall x :: x in rows && p(x) ==> multiset(r)[x] == multiset(rows)[x])
  }

  /** The rows satisfying `p`, in insertion order (an order the database
      does not promise). */
  function Where<T>(rows: seq<T>, p: T -> bool): (r: seq<T>)
    ensures |r| <= |rows|
    ensures Selects(r, rows, p)
    decreases |rows|
  {
    if rows == [] then []
    else
      assert rows == [rows[0]] + rows[1..];
      if p(rows[0]) then [rows[0]] + Where(rows[1..], p) else Where(rows[1..], p)
  }

  /** What a `DELETE ... WHERE p` leaves: every row not satisfying `p`, as
      often as it occurred, and none that does. */
  function Without<T>(rows: seq<T>, p: T -> bool): (r: seq<T>)
    ensures |r| <= |rows|
    ensures forall x :: x in r ==> x in rows && !p(x)
    ensures forall x :: x in rows && !p(x) ==> multiset(r)[x] == multiset(rows)[x]
  {
    Where(rows, x => !p(x))
  }

  /** A deletion and the matching query split the table between them. */
  lemma {:induction false} WhereWithoutPartition<T>(rows: seq<T>, p: T -> bool)
    ensures multiset(Where(rows, p)) + multiset(Without(rows, p)) == multiset(rows)
    decreases |rows|
  {
    if rows != [] {
      var x, tail := rows[0], rows[1..];
      WhereWithoutPartition(tail, p);
      assert rows == [x] + tail;
      assert multiset(rows) == multiset([x]) + multiset(tail);
      if p(x) {
        assert Where(rows, p) == [x] + Where(tail, p);
        assert Without(rows, p) == Without(tail, p);
      } else {
        assert Where(rows, p) == Where(tail, p);
        assert Without(rows, p) == [x] + Without(tail, p);
      }
    }
  }

  /** A row appended to the table is selected after all earlier ones. */
  lemma {:induction false} WhereSnoc<T>(rows: seq<T>, x: T, p: T -> bool)
    ensures Where(rows + [x], p) == Where(rows, p) + (if p(x) then [x] else [])
    decreases |rows|
  {
    if rows == [] {
      assert [] + [x] == [x];
      assert [x][1..] == [];
    } else {
      assert (rows + [x])[1..] == rows[1..] + [x];
      WhereSnoc(rows[1..], x, p);
    }
  }

  /** Narrowing a query's result by a stricter condition is the stricter
      query on the whole table. */
  lemma {:induction false} WhereNarrow<T>(rows: seq<T>, p: T -> bool, q: T -> bool)
    requires forall x :: q(x) ==> p(x)
    ensures Where(Where(rows, p), q) == Where(rows, q)
    decreases |rows|
  {
    if rows != [] {
      WhereNarrow(rows[1..], p, q);
      if p(rows[0]) {
        assert ([rows[0]] + Where(rows[1..], p))[1..] == Where(rows[1..], p);
      }
    }
  }

  /** A query that no row satisfies returns nothing. */
  lemma NoneSelected<T>(rows: seq<T>, p: T -> bool)
    requires forall x :: x in rows ==> !p(x)
    ensures Where(rows, p) == []
  {
  }

  /** Two updates with the same effect on every row leave the same table. */
  lemma UpdateWhereExt<T>(rows: seq<T>, p: T -> bool, f: T -> T, g: T -> T)
    requires forall x :: x in rows && p(x) ==> f(x) == g(x)
    ensures UpdateWhere(rows, p, f) == UpdateWhere(rows, p, g)
  {
    var a, b := UpdateWhere(rows, p, f), UpdateWhere(rows, p, g);
    forall i | 0 <= i < |rows| ensures a[i] == b[i] {
      assert rows[i] in rows;
    }
  }

  /** Repeating an update whose rewrite is idempotent, and does not move a
      row out of or into the selection, changes nothing more. */
  lemma UpdateWhereIdempotent<T>(rows: seq<T>, p: T -> bool, f: T -> T)
    requires forall x :: p(x) ==> p(f(x)) && f(f(x)) == f(x)
    ensures UpdateWhere(UpdateWhere(rows, p, f), p, f) == UpdateWhere(rows, p, f)
  {
    var once := UpdateWhere(rows, p, f);
    var twice := UpdateWhere(once, p, f);
    forall i | 0 <= i < |rows| ensures twice[i] == once[i] {
    }
  }

  /** What an `UPDATE ... SET f WHERE p` leaves: every row satisfying `p`
      rewritten by `f`, every other row untouched, in place. */
  function UpdateWhere<T>(rows: seq<T>, p: T -> bool, f: T -> T): (r: seq<T>)
    ensures |r| == |rows|
    ensures forall i :: 0 <= i < |rows| && !p(rows[i]) ==> r[i] == rows[i]
    ensures forall i :: 0 <= i < |rows| && p(rows[i]) ==> r[i] == f(rows[i])
  {
    seq(|rows|, i requires 0 <= i < |rows| => if p(rows[i]) then f(rows[i]) else rows[i])
  }

  /** GORM's `First`: a row satisfying `p`, or `None` (the
      `gorm.ErrRecordNotFound` case) when there is none. */
  function First<T>(rows: seq<T>, p: T -> bool): (r: Option<T>)
    ensures r.Some? <==> exists x :: x in rows && p(x)
    ensures r.Some? ==> r.value in rows && p(r.value)
    decreases |rows|
  {
    if rows == [] then None
    else if p(rows[0]) then Some(rows[0])
    else
      var r := First(rows[1..], p);
      assert rows == [rows[0]] + rows[1..];
      r
  }

  /** The optional inclusive time window of the log queries: `from <= t`
      when a lower bound is given and `t <= to` when an upper bound is. */
  predicate InWindow(t: Instant, from: Option<Instant>, to: Option<Instant>)
  {
    (from.Some? ==> from.value <= t) && (to.Some? ==> t <= to.value)
  }

  lemma OpenWindow(t: Instant)
    ensures InWindow(t, None, None)
  {
  }

  // ---------------------------------------------------------------------
  // Partial updates

  /** A value in the `map[string]interface{}` handed to GORM's `Updates`. */
  datatype ColumnValue =
    | Uint32Column(u: uint32)
    | TimeColumn(t: Instant)
    | TextColumn(s: string)
    | PasswordColumn(p: Password)

  /** The new value of an unsigned column under `SET` with `updates`. */
  function Uint32Assigned(updates: map<string, ColumnValue>, column: string, current: uint32): (v: uint32)
    ensures column !in updates ==> v == current
    ensures column in updates && updates[column].Uint32Column? ==> v == updates[column].u
  {
    if column in updates && updates[column].Uint32Column? then updates[column].u else current
  }

  /** The new value of a nullable time column under `SET` with `updates`. */
  function TimeAssigned(updates: map<string, ColumnValue>, column: string, current: Option<Instant>): (v: Option<Instant>)
    ensures column !in updates ==> v == current
    ensures column in updates && updates[column].TimeColumn? ==> v == Some(updates[column].t)
  {
    if column in updates && updates[column].TimeColumn? then Some(updates[column].t) else current
  }

  /** The new value of a text column under `SET` with `updates`. */
  function TextAssigned(updates: map<string, ColumnValue>, column: string, current: string): (v: string)
    ensures column !in updates ==> v == current
    ensures column in updates && updates[column].TextColumn? ==> v == updates[column].s
  {
    if column in updates && updates[column].TextColumn? then updates[column].s else current
  }

  // ---------------------------------------------------------------------
  // Auto-increment primary keys

  /** The table invariant of a table with an auto-increment `id`: ids are
      unique and below the next value the counter hands out. */
  predicate Keyed<T>(rows: seq<T>, next: nat, id: T -> nat)
  {
    (forall i, j :: 0 <= i < j < |rows| ==> id(rows[i]) != id(rows[j])) &&
    (forall i :: 0 <= i < |rows| ==> id(rows[i]) < next)
  }

  /** The id an insert gives a row: 0 takes the counter; an explicit id is
      kept unless a row already has it, which is a duplicate-key error. */
  function NewId<T(==)>(rows: seq<T>, next: nat, explicit: nat, id: T -> nat): (r: Option<nat>)
    ensures explicit == 0 ==> r == Some(next)
    ensures explicit != 0 ==> (r.None? <==> exists x :: x in rows && id(x) == explicit)
    ensures r.Some? && explicit != 0 ==> r.value == explicit
  {
    if explicit == 0 then Some(next)
    else if exists x :: x in rows && id(x) == explicit then None
    else Some(explicit)
  }

  function Max(a: nat, b: nat): nat
  {
    if a < b then b else a
  }

  /** Appending a row with the id `NewId` chose keeps the table keyed. */
  lemma KeyedAppend<T>(rows: seq<T>, next: nat, r: T, explicit: nat, id: T -> nat)
    requires Keyed(rows, next, id)
    requires NewId(rows, next, explicit, id) == Some(id(r))
    ensures Keyed(rows + [r], Max(next, id(r) + 1), id)
  {
    var rows' := rows + [r];
    forall i, j | 0 <= i < j < |rows'|
      ensures id(rows'[i]) != id(rows'[j])
    {
      if j == |rows| {
        assert rows'[i] == rows[i] && rows[i] in rows;
      }
    }
  }

  /** With a keyed table a row is found by its id alone. */
  lemma {:induction false} KeyedFirst<T>(rows: seq<T>, next: nat, id: T -> nat, k: nat, p: T -> bool, x: T)
    requires Keyed(rows, next, id)
    requires forall y :: p(y) <==> id(y) == k
    requires x in rows && id(x) == k
    ensures First(rows, p) == Some(x)
    decreases |rows|
  {
    if rows[0] != x {
      assert x in rows[1..];
      var i :| 0 <= i < |rows| && rows[i] == x;
      assert i > 0;
      assert Keyed(rows[1..], next, id) by {
        forall a, b | 0 <= a < b < |rows[1..]| ensures id(rows[1..][a]) != id(rows[1..][b]) {
          assert rows[1..][a] == rows[a + 1] && rows[1..][b] == rows[b + 1];
        }
        forall a | 0 <= a < |rows[1..]| ensures id(rows[1..][a]) < next {
          assert rows[1..][a] == rows[a + 1];
        }
      }
      KeyedFirst(rows[1..], next, id, k, p, x);
    }
  }

  /** Deleting rows keeps a table keyed. */
  lemma KeyedWithout<T>(rows: seq<T>, next: nat, id: T -> nat, p: T -> bool)
    requires Keyed(rows, next, id)
    ensures Keyed(Without(rows, p), next, id)
  {
    KeyedWhere(rows, next, id, x => !p(x));
  }

  lemma {:induction false} KeyedWhere<T>(rows: seq<T>, next: nat, id: T -> nat, p: T -> bool)
    requires Keyed(rows, next, id)
    ensures Keyed(Where(rows, p), next, id)
    decreases |rows|
  {
    if rows != [] {
      var tail := rows[1..];
      assert Keyed(tail, next, id) by {
        forall a, b | 0 <= a < b < |tail| ensures id(tail[a]) != id(tail[b]) {
          assert tail[a] == rows[a + 1] && tail[b] == rows[b + 1];
        }
      }
      KeyedWhere(tail, next, id, p);
      if p(rows[0]) {
        var w := Where(tail, p);
        forall y | y in w ensures id(y) != id(rows[0]) {
          var k :| 0 <= k < |tail| && tail[k] == y;
          assert rows[k + 1] == y;
        }
        KeyedCons(rows[0], w, next, id);
      }
    }
  }

  lemma KeyedCons<T>(a: T, w: seq<T>, next: nat, id: T -> nat)
    requires Keyed(w, next, id) && id(a) < next
    requires forall y :: y in w ==> id(y) != id(a)
    ensures Keyed([a] + w, next, id)
  {
    var r := [a] + w;
    forall i, j | 0 <= i < j < |r| ensures id(r[i]) != id(r[j]) {
      assert r[j] == w[j - 1];
      if i > 0 {
        assert r[i] == w[i - 1];
      } else {
        assert w[j - 1] in w;
      }
    }
  }

  /** In-place updates that keep each row's id keep a table keyed. */
  lemma KeyedUpdateWhere<T>(rows: seq<T>, next: nat, id: T -> nat, p: T -> bool, f: T -> T)
    requires Keyed(rows, next, id)
    requires forall x :: id(f(x)) == id(x)
    ensures Keyed(UpdateWhere(rows, p, f), next, id)
  {
    var r := UpdateWhere(rows, p, f);
    assert forall i :: 0 <= i < |r| ==> id(r[i]) == id(rows[i]);
  }

  // ---------------------------------------------------------------------
  // Password (biz/dal/common.go)

  /** A password column value: the hashed text as stored, or a raw password
      that still has to be hashed. bcrypt is a parameter of the operations
      that hash (`Failure` is the error `GenerateFromPassword` returns). */
  class Password {
    var data: string
    var hashed: bool

    /** `NewRawPassword`. */
    constructor NewRaw(raw: string)
      ensures data == raw && !hashed
    {
      data := raw;
      hashed := false;
    }

    /** `sql.Scanner`: nil is accepted and changes nothing; bytes are the
        stored hash, so the password holds their text and counts as hashed;
        any other value is an error and changes nothing. */
    method Scan(v: Nullable.GoValue) returns (err: Option<Error>)
      modifies this
      ensures v.Nil? ==> err.None? && data == old(data) && hashed == old(hashed)
      ensures v.Bytes? ==> err.None? && data == Text(v.bytes) && hashed
      ensures !v.Nil? && !v.Bytes? ==>
        err == Some(Foreign("invalid type")) && data == old(data) && hashed == old(hashed)
    {
      if v.Nil? {
        return None;
      }
      if !v.Bytes? {
        return Some(Foreign("invalid type"));
      }
      data := Text(v.bytes);
      hashed := true;
      return None;
    }

    /** `driver.Valuer`: the stored text when already hashed, otherwise the
        bcrypt hash of the raw text or bcrypt's error. */
    function Value(bcrypt: string -> Result<string, Error>): (r: Result<string, Error>)
      reads this
      ensures hashed ==> r == Success(data)
      ensures !hashed ==> r == bcrypt(data)
    {
      if hashed then Success(data) else bcrypt(data)
    }

    /** `HashedValue`: as `Value`, with "" in place of a bcrypt error. */
    function HashedValue(bcrypt: string -> Result<string, Error>): (r: string)
      reads this
      ensures hashed ==> r == data
      ensures !hashed && bcrypt(data).Success? ==> r == bcrypt(data).value
      ensures !hashed && bcrypt(data).Failure? ==> r == ""
    {
      if hashed then data
      else
        match bcrypt(data)
        case Success(h) => h
        case Failure(_) => ""
    }
  }

  /** A password read back from the database is never hashed again. */
  lemma ScannedPasswordIsStable(p: Password, bcrypt: string -> Result<string, Error>)
    requires p.hashed
    ensures p.Value(bcrypt) == Success(p.data) && p.HashedValue(bcrypt) == p.data
  {
  }
}
