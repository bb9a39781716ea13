/** The `nullable` package: cells that are either null or hold a value,
    used for request parameters, JSON fields and database columns.

    Every Go type becomes a class with the source's two fields, `value` and
    `nonnull`. The pointer-receiver methods that overwrite them (`Set`,
    `SetNull`, `UnmarshalString`, `Scan`, `UnmarshalJSON`) are methods that
    modify the cell; `Null`, `NotNull`, `Get` and `Value` are functions that
    read it. `encoding/json` is not modelled: `UnmarshalJSON` receives the
    decoder as a partial function from the raw bytes to a value. */
module Nullable {
  import opened Wrappers
  import opened GoTypes
  import Strconv

  /** The errors these types return. `ParseError` is the `*strconv.NumError`
      of a failed parse, `ScanError` the error built by `ScanErrorWrapper`
      with the type name it is given (every integer type passes "NullInt";
      the message, which formats the rejected value, is not modelled) and
      `JsonError` whatever error `json.Unmarshal` reports. */
  datatype Error = ParseError(err: Strconv.NumError) | ScanError(typeName: string) | JsonError

  /** The dynamic values that cross the `database/sql` boundary: the argument
      of `Scan` (an `interface{}`) and the result of `Value` (a
      `driver.Value`). `Other` stands for any further Go type. */
  datatype GoValue =
    | Nil
    | Bytes(bytes: seq<byte>)
    | Str(s: string)
    | Bool(b: bool)
    | Int64(i: int64)
    | Uint64(u: uint64)
    | Other

  /** Whether `UnmarshalJSON` treats its input as JSON null. */
  predicate IsJsonNull(data: seq<byte>)
  {
    |data| == 0 || Text(data) == "null"
  }

  /** The rewriting `NullString.UnmarshalString` applies: one pair of
      surrounding double quotes is removed from a string longer than one
      character; any other string is kept. */
  function Unquote(str: string): (r: string)
    ensures |r| == |str| || |r| == |str| - 2
    ensures r == str || str == "\"" + r + "\""
    ensures |str| <= 1 ==> r == str
    ensures |str| > 0 && str[0] != '"' ==> r == str
  {
    if |str| > 1 && str[0] == '"' && str[|str| - 1] == '"' then str[1..|str| - 1] else str
  }

  /** A quoted string loses exactly its own quotes, whatever it contains. */
  lemma UnquoteQuoted(s: string)
    ensures Unquote("\"" + s + "\"") == s
  {
    var q := "\"" + s + "\"";
    assert q[1..|q| - 1] == s;
  }

  /** Unquoting twice removes a second pair of quotes: the rewriting is not
      idempotent. */
  lemma UnquoteNotIdempotent()
    ensures Unquote(Unquote("\"\"x\"\"")) != Unquote("\"\"x\"\"")
  {
    assert Unquote("\"\"x\"\"") == "\"x\"";
    assert Unquote("\"x\"") == "x";
  }

  /** `NullString`: a nullable `string`. */
  class NullString {
    var value: string
    var nonnull: bool

    /** The zero value `NullString{}`: null, holding "". */
    constructor ()
      ensures !nonnull && value == ""
    {
      value, nonnull := "", false;
    }

    /** `NewNullString(value)` (and `MakeNullString`, its by-value copy). */
    constructor New(v: string)
      ensures nonnull && value == v
    {
      value, nonnull := v, true;
    }

    function Null(): (b: bool)
      reads this
      ensures b <==> !nonnull
    {
      !nonnull
    }

    function NotNull(): (b: bool)
      reads this
      ensures b <==> !Null()
    {
      nonnull
    }

    function Get(): string
      reads this
    {
      value
    }

    method Set(v: string)
      modifies this
      ensures NotNull() && Get() == v
    {
      value := v;
      nonnull := true;
    }

    method SetNull()
      modifies this
      ensures Null() && Get() == ""
    {
      value := "";
      nonnull := false;
    }

    /** Never fails: the cell becomes non-null and holds the input with one
        pair of surrounding quotes removed, if it has them. */
    method UnmarshalString(str: string) returns (err: Option<Error>)
      modifies this
      ensures err.None? && NotNull() && value == Unquote(str)
    {
      if |str| > 1 && str[0] == '"' && str[|str| - 1] == '"' {
        value := str[1..|str| - 1];
        nonnull := true;
        return None;
      }
      value := str;
      nonnull := true;
      return None;
    }

    /** `sql.Scanner`: nil makes the cell null, bytes behave as
        `UnmarshalString` of their text, anything else is refused and leaves
        the cell unchanged. */
    method Scan(v: GoValue) returns (err: Option<Error>)
      modifies this
      ensures v.Nil? ==> err.None? && Null() && value == ""
      ensures v.Bytes? ==> err.None? && NotNull() && value == Unquote(Text(v.bytes))
      ensures !v.Nil? && !v.Bytes? ==>
        err == Some(ScanError("NullString")) && nonnull == old(nonnull) && value == old(value)
    {
      if v.Nil? {
        value := "";
        nonnull := false;
        return None;
      }
      if !v.Bytes? {
        return Some(ScanError("NullString"));
      }
      err := UnmarshalString(Text(v.bytes));
    }

    /** `driver.Valuer`: nil for a null cell, otherwise the stored string. */
    function Value(): (r: GoValue)
      reads this
      ensures r.Nil? <==> Null()
      ensures NotNull() ==> r == Str(Get())
    {
      if nonnull then Str(value) else Nil
    }

    /** `json.Unmarshaler`: empty input or `null` makes the cell null;
        anything else marks it non-null first and then decodes, so a decoding
        error leaves it non-null with its old value. */
    method UnmarshalJSON(data: seq<byte>, decode: seq<byte> -> Option<string>) returns (err: Option<Error>)
      modifies this
      ensures IsJsonNull(data) ==> err.None? && Null() && value == ""
      ensures !IsJsonNull(data) ==> NotNull() && match decode(data) {
        case Some(s) => err.None? && value == s
        case None => err == Some(JsonError) && value == old(value)
      }
    {
      if |data| == 0 || Text(data) == "null" {
        value := "";
        nonnull := false;
        return None;
      }
      nonnull := true;
      match decode(data) {
        case Some(s) =>
          value := s;
          err := None;
        case None =>
          err := Some(JsonError);
      }
    }
  }

  /** `NullBool`: a nullable `bool`. */
  class NullBool {
    var value: bool
    var nonnull: bool

    /** The zero value `NullBool{}`: null, holding false. */
    constructor ()
      ensures !nonnull && !value
    {
      value, nonnull := false, false;
    }

    /** `NewNullBool(value)` (and `MakeNullBool`, its by-value copy). */
    constructor New(v: bool)
      ensures nonnull && value == v
    {
      value, nonnull := v, true;
    }

    /** `NullBoolFromString`: a fresh non-null cell holding the parsed token,
        or no cell and the parse error. */
    static method FromString(s: string) returns (c: NullBool?, err: Option<Error>)
      ensures match Strconv.ParseBool(s) {
        case Success(b) => err.None? && c != null && fresh(c) && c.nonnull && c.value == b
        case Failure(e) => err == Some(ParseError(e)) && c == null
      }
    {
      var i := new NullBool();
      err := i.UnmarshalString(s);
      if err.Some? {
        return null, err;
      }
      return i, None;
    }

    function Null(): (b: bool)
      reads this
      ensures b <==> !nonnull
    {
      !nonnull
    }

    function NotNull(): (b: bool)
      reads this
      ensures b <==> !Null()
    {
      nonnull
    }

    function Get(): bool
      reads this
    {
      value
    }

    method Set(v: bool)
      modifies this
      ensures NotNull() && Get() == v
    {
      value := v;
      nonnull := true;
    }

    method SetNull()
      modifies this
      ensures Null() && !Get()
    {
      value := false;
      nonnull := false;
    }

    /** Accepts the tokens of `strconv.ParseBool`; on success the cell holds
        the token's truth value and is non-null, on failure it is unchanged. */
    method UnmarshalString(str: string) returns (err: Option<Error>)
      modifies this
      ensures match Strconv.ParseBool(str) {
        case Success(b) => err.None? && nonnull && value == b
        case Failure(e) => err == Some(ParseError(e)) && nonnull == old(nonnull) && value == old(value)
      }
    {
      var r := Strconv.ParseBool(str);
      match r {
        case Failure(e) =>
          err := Some(ParseError(e));
        case Success(b) =>
          value := b;
          nonnull := true;
          err := None;
      }
    }

    /** `sql.Scanner`: nil makes the cell null, an `int64` makes it non-null
        and true exactly when the integer is 1, bytes are parsed as their
        text, and anything else is refused and leaves the cell unchanged. */
    method Scan(v: GoValue) returns (err: Option<Error>)
      modifies this
      ensures v.Nil? ==> err.None? && Null() && !value
      ensures v.Int64? ==> err.None? && NotNull() && (value <==> v.i == 1)
      ensures v.Bytes? ==> match Strconv.ParseBool(Text(v.bytes)) {
        case Success(b) => err.None? && nonnull && value == b
        case Failure(e) => err == Some(ParseError(e)) && nonnull == old(nonnull) && value == old(value)
      }
      ensures !v.Nil? && !v.Bytes? && !v.Int64? ==>
        err == Some(ScanError("NullBool")) && nonnull == old(nonnull) && value == old(value)
    {
      if v.Nil? {
        value := false;
        nonnull := false;
        return None;
      }
      if !v.Bytes? {
        if !v.Int64? {
          return Some(ScanError("NullBool"));
        }
        value := v.i == 1;
        nonnull := true;
        return None;
      }
      err := UnmarshalString(Text(v.bytes));
    }

    /** `driver.Valuer`: nil for a null cell, otherwise the stored bool. */
    function Value(): (r: GoValue)
      reads this
      ensures r.Nil? <==> Null()
      ensures NotNull() ==> r == Bool(Get())
    {
      if nonnull then Bool(value) else Nil
    }

    /** `json.Unmarshaler`: empty input or `null` makes the cell null;
        anything else marks it non-null first and then decodes. */
    method UnmarshalJSON(data: seq<byte>, decode: seq<byte> -> Option<bool>) returns (err: Option<Error>)
      modifies this
      ensures IsJsonNull(data) ==> err.None? && Null() && !value
      ensures !IsJsonNull(data) ==> NotNull() && match decode(data) {
        case Some(b) => err.None? && value == b
        case None => err == Some(JsonError) && value == old(value)
      }
    {
      if |data| == 0 || Text(data) == "null" {
        value := false;
        nonnull := false;
        return None;
      }
      nonnull := true;
      match decode(data) {
        case Some(b) =>
          value := b;
          err := None;
        case None =>
          err := Some(JsonError);
      }
    }
  }

  /** `strconv.ParseInt(str, 10, strconv.IntSize)` converted to `goint`: the literals in the signed range of `strconv.IntSize` bits. */
  function ParseNativeInt(str: string): (r: Result<goint, Strconv.NumError>)
    ensures r.Success? <==>
      Strconv.IsSignedLiteral(str) && -0x8000_0000_0000_0000 <= Strconv.SignedLiteralValue(str) < 0x8000_0000_0000_0000
    ensures r.Success? ==> r.value as int == Strconv.SignedLiteralValue(str)
  {
    Strconv.ParseIntAccepts(str, IntSize);
    Strconv.Pow2Widths();
    match Strconv.ParseInt(str, IntSize)
    case Success(n) => Success(n as goint)
    case Failure(e) => Failure(e)
  }

  /** `NullInt`: a nullable `int`. */
  class NullInt {
    var value: goint
    var nonnull: bool

    /** The zero value `NullInt{}`: null, holding 0. */
    constructor ()
      ensures !nonnull && value == 0
    {
      value, nonnull := 0, false;
    }

    /** `NewNullInt(value)` (and `MakeNullInt`, its by-value copy): a non-null cell. */
    constructor New(v: goint)
      ensures nonnull && value == v
    {
      value, nonnull := v, true;
    }

    /** `NullIntFromString`: a fresh non-null cell holding the parsed value, or
        no cell and the parse error. */
    static method FromString(s: string) returns (c: NullInt?, err: Option<Error>)
      ensures match ParseNativeInt(s) {
        case Success(n) => err.None? && c != null && fresh(c) && c.nonnull && c.value == n
        case Failure(e) => err == Some(ParseError(e)) && c == null
      }
    {
      var i := new NullInt();
      err := i.UnmarshalString(s);
      if err.Some? {
        return null, err;
      }
      return i, None;
    }

    function Null(): (b: bool)
      reads this
      ensures b <==> !nonnull
    {
      !nonnull
    }

    function NotNull(): (b: bool)
      reads this
      ensures b <==> !Null()
    {
      nonnull
    }

    function Get(): goint
      reads this
    {
      value
    }

    method Set(v: goint)
      modifies this
      ensures NotNull() && Get() == v
    {
      value := v;
      nonnull := true;
    }

    method SetNull()
      modifies this
      ensures Null() && Get() == 0
    {
      value := 0;
      nonnull := false;
    }

    /** Parses a base-10 literal; on success the cell holds it and is
        non-null, on failure the cell is unchanged. */
    method UnmarshalString(str: string) returns (err: Option<Error>)
      modifies this
      ensures match ParseNativeInt(str) {
        case Success(n) => err.None? && nonnull && value == n
        case Failure(e) => err == Some(ParseError(e)) && nonnull == old(nonnull) && value == old(value)
      }
    {
      var r := ParseNativeInt(str);
      match r {
        case Failure(e) =>
          err := Some(ParseError(e));
        case Success(n) =>
          nonnull := true;
          value := n;
          err := None;
      }
    }

    /** `sql.Scanner`: nil makes the cell null, bytes are parsed as their
        text, any other value is refused and leaves the cell unchanged. */
    method Scan(v: GoValue) returns (err: Option<Error>)
      modifies this
      ensures v.Nil? ==> err.None? && Null() && value == 0
      ensures v.Bytes? ==> match ParseNativeInt(Text(v.bytes)) {
        case Success(n) => err.None? && nonnull && value == n
        case Failure(e) => err == Some(ParseError(e)) && nonnull == old(nonnull) && value == old(value)
      }
      ensures !v.Nil? && !v.Bytes? ==>
        err == Some(ScanError("NullInt")) && nonnull == old(nonnull) && value == old(value)
    {
      if v.Nil? {
        value := 0;
        nonnull := false;
        return None;
      }
      if !v.Bytes? {
        return Some(ScanError("NullInt"));
      }
      err := UnmarshalString(Text(v.bytes));
    }

    /** `driver.Valuer`: nil for a null cell, otherwise the value widened to
        `int64`. */
    function Value(): (r: GoValue)
      reads this
      ensures r.Nil? <==> Null()
      ensures NotNull() ==> r.Int64? && r.i as int == Get() as int
    {
      if nonnull then Int64(value as int64) else Nil
    }

    /** `json.Unmarshaler`: empty input or `null` makes the cell null;
        anything else marks it non-null first and then hands the bytes to
        the decoder, so a decoding error leaves it non-null with its old
        value. */
    method UnmarshalJSON(data: seq<byte>, decode: seq<byte> -> Option<goint>) returns (err: Option<Error>)
      modifies this
      ensures IsJsonNull(data) ==> err.None? && Null() && value == 0
      ensures !IsJsonNull(data) ==> NotNull() && match decode(data) {
        case Some(n) => err.None? && value == n
        case None => err == Some(JsonError) && value == old(value)
      }
    {
      if |data| == 0 || Text(data) == "null" {
        value := 0;
        nonnull := false;
        return None;
      }
      nonnull := true;
      match decode(data) {
        case Some(n) =>
          value := n;
          err := None;
        case None =>
          err := Some(JsonError);
      }
    }
  }

  /** `strconv.ParseInt(str, 10, 8)` converted to `int8`: the literals in [-128, 127]. */
  function ParseInt8(str: string): (r: Result<int8, Strconv.NumError>)
    ensures r.Success? <==>
      Strconv.IsSignedLiteral(str) && -0x80 <= Strconv.SignedLiteralValue(str) < 0x80
    ensures r.Success? ==> r.value as int == Strconv.SignedLiteralValue(str)
  {
    Strconv.ParseIntAccepts(str, 8);
    Strconv.Pow2Widths();
    match Strconv.ParseInt(str, 8)
    case Success(n) => Success(n as int8)
    case Failure(e) => Failure(e)
  }

  /** `NullInt8`: a nullable `int8`. */
  class NullInt8 {
    var value: int8
    var nonnull: bool

    /** The zero value `NullInt8{}`: null, holding 0. */
    constructor ()
      ensures !nonnull && value == 0
    {
      value, nonnull := 0, false;
    }

    /** `NewNullInt8(value)` (and `MakeNullInt8`, its by-value copy): a non-null cell. */
    constructor New(v: int8)
      ensures nonnull && value == v
    {
      value, nonnull := v, true;
    }

    /** `NullInt8FromString`: a fresh non-null cell holding the parsed value, or
        no cell and the parse error. */
    static method FromString(s: string) returns (c: NullInt8?, err: Option<Error>)
      ensures match ParseInt8(s) {
        case Success(n) => err.None? && c != null && fresh(c) && c.nonnull && c.value == n
        case Failure(e) => err == Some(ParseError(e)) && c == null
      }
    {
      var i := new NullInt8();
      err := i.UnmarshalString(s);
      if err.Some? {
        return null, err;
      }
      return i, None;
    }

    function Null(): (b: bool)
      reads this
      ensures b <==> !nonnull
    {
      !nonnull
    }

    function NotNull(): (b: bool)
      reads this
      ensures b <==> !Null()
    {
      nonnull
    }

    function Get(): int8
      reads this
    {
      value
    }

    method Set(v: int8)
      modifies this
      ensures NotNull() && Get() == v
    {
      value := v;
      nonnull := true;
    }

    method SetNull()
      modifies this
      ensures Null() && Get() == 0
    {
      value := 0;
      nonnull := false;
    }

    /** Parses a base-10 literal; on success the cell holds it and is
        non-null, on failure the cell is unchanged. */
    method UnmarshalString(str: string) returns (err: Option<Error>)
      modifies this
      ensures match ParseInt8(str) {
        case Success(n) => err.None? && nonnull && value == n
        case Failure(e) => err == Some(ParseError(e)) && nonnull == old(nonnull) && value == old(value)
      }
    {
      var r := ParseInt8(str);
      match r {
        case Failure(e) =>
          err := Some(ParseError(e));
        case Success(n) =>
          nonnull := true;
          value := n;
          err := None;
      }
    }

    /** `sql.Scanner`: nil makes the cell null, bytes are parsed as their
        text, any other value is refused and leaves the cell unchanged. */
    method Scan(v: GoValue) returns (err: Option<Error>)
      modifies this
      ensures v.Nil? ==> err.None? && Null() && value == 0
      ensures v.Bytes? ==> match ParseInt8(Text(v.bytes)) {
        case Success(n) => err.None? && nonnull && value == n
        case Failure(e) => err == Some(ParseError(e)) && nonnull == old(nonnull) && value == old(value)
      }
      ensures !v.Nil? && !v.Bytes? ==>
        err == Some(ScanError("NullInt")) && nonnull == old(nonnull) && value == old(value)
    {
      if v.Nil? {
        value := 0;
        nonnull := false;
        return None;
      }
      if !v.Bytes? {
        return Some(ScanError("NullInt"));
      }
      err := UnmarshalString(Text(v.bytes));
    }

    /** `driver.Valuer`: nil for a null cell, otherwise the value widened to
        `int64`. */
    function Value(): (r: GoValue)
      reads this
      ensures r.Nil? <==> Null()
      ensures NotNull() ==> r.Int64? && r.i as int == Get() as int
    {
      if nonnull then Int64(value as int64) else Nil
    }

    /** `json.Unmarshaler`: empty input or `null` makes the cell null;
        anything else marks it non-null first and then hands the bytes to
        the decoder, so a decoding error leaves it non-null with its old
        value. */
    method UnmarshalJSON(data: seq<byte>, decode: seq<byte> -> Option<int8>) returns (err: Option<Error>)
      modifies this
      ensures IsJsonNull(data) ==> err.None? && Null() && value == 0
      ensures !IsJsonNull(data) ==> NotNull() && match decode(data) {
        case Some(n) => err.None? && value == n
        case None => err == Some(JsonError) && value == old(value)
      }
    {
      if |data| == 0 || Text(data) == "null" {
        value := 0;
        nonnull := false;
        return None;
      }
      nonnull := true;
      match decode(data) {
        case Some(n) =>
          value := n;
          err := None;
        case None =>
          err := Some(JsonError);
      }
    }
  }

  /** `strconv.ParseInt(str, 10, 16)` converted to `int16`: the literals in [-32768, 32767]. */
  function ParseInt16(str: string): (r: Result<int16, Strconv.NumError>)
    ensures r.Success? <==>
      Strconv.IsSignedLiteral(str) && -0x8000 <= Strconv.SignedLiteralValue(str) < 0x8000
    ensures r.Success? ==> r.value as int == Strconv.SignedLiteralValue(str)
  {
    Strconv.ParseIntAccepts(str, 16);
    Strconv.Pow2Widths();
    match Strconv.ParseInt(str, 16)
    case Success(n) => Success(n as int16)
    case Failure(e) => Failure(e)
  }

  /** `NullInt16`: a nullable `int16`. */
  class NullInt16 {
    var value: int16
    var nonnull: bool

    /** The zero value `NullInt16{}`: null, holding 0. */
    constructor ()
      ensures !nonnull && value == 0
    {
      value, nonnull := 0, false;
    }

    /** `NewNullInt16(value)` (and `MakeNullInt16`, its by-value copy): a non-null cell. */
    constructor New(v: int16)
      ensures nonnull && value == v
    {
      value, nonnull := v, true;
    }

    /** `NullInt16FromString`: a fresh non-null cell holding the parsed value, or
        no cell and the parse error. */
    static method FromString(s: string) returns (c: NullInt16?, err: Option<Error>)
      ensures match ParseInt16(s) {
        case Success(n) => err.None? && c != null && fresh(c) && c.nonnull && c.value == n
        case Failure(e) => err == Some(ParseError(e)) && c == null
      }
    {
      var i := new NullInt16();
      err := i.UnmarshalString(s);
      if err.Some? {
        return null, err;
      }
      return i, None;
    }

    function Null(): (b: bool)
      reads this
      ensures b <==> !nonnull
    {
      !nonnull
    }

    function NotNull(): (b: bool)
      reads this
      ensures b <==> !Null()
    {
      nonnull
    }

    function Get(): int16
      reads this
    {
      value
    }

    method Set(v: int16)
      modifies this
      ensures NotNull() && Get() == v
    {
      value := v;
      nonnull := true;
    }

    method SetNull()
      modifies this
      ensures Null() && Get() == 0
    {
      value := 0;
      nonnull := false;
    }

    /** Parses a base-10 literal; on success the cell holds it and is
        non-null, on failure the cell is unchanged. */
    method UnmarshalString(str: string) returns (err: Option<Error>)
      modifies this
      ensures match ParseInt16(str) {
        case Success(n) => err.None? && nonnull && value == n
        case Failure(e) => err == Some(ParseError(e)) && nonnull == old(nonnull) && value == old(value)
      }
    {
      var r := ParseInt16(str);
      match r {
        case Failure(e) =>
          err := Some(ParseError(e));
        case Success(n) =>
          nonnull := true;
          value := n;
          err := None;
      }
    }

    /** `sql.Scanner`: nil makes the cell null, bytes are parsed as their
        text, any other value is refused and leaves the cell unchanged. */
    method Scan(v: GoValue) returns (err: Option<Error>)
      modifies this
      ensures v.Nil? ==> err.None? && Null() && value == 0
      ensures v.Bytes? ==> match ParseInt16(Text(v.bytes)) {
        case Success(n) => err.None? && nonnull && value == n
        case Failure(e) => err == Some(ParseError(e)) && nonnull == old(nonnull) && value == old(value)
      }
      ensures !v.Nil? && !v.Bytes? ==>
        err == Some(ScanError("NullInt")) && nonnull == old(nonnull) && value == old(value)
    {
      if v.Nil? {
        value := 0;
        nonnull := false;
        return None;
      }
      if !v.Bytes? {
        return Some(ScanError("NullInt"));
      }
      err := UnmarshalString(Text(v.bytes));
    }

    /** `driver.Valuer`: nil for a null cell, otherwise the value widened to
        `int64`. */
    function Value(): (r: GoValue)
      reads this
      ensures r.Nil? <==> Null()
      ensures NotNull() ==> r.Int64? && r.i as int == Get() as int
    {
      if nonnull then Int64(value as int64) else Nil
    }

    /** `json.Unmarshaler`: empty input or `null` makes the cell null;
        anything else marks it non-null first and then hands the bytes to
        the decoder, so a decoding error leaves it non-null with its old
        value. */
    method UnmarshalJSON(data: seq<byte>, decode: seq<byte> -> Option<int16>) returns (err: Option<Error>)
      modifies this
      ensures IsJsonNull(data) ==> err.None? && Null() && value == 0
      ensures !IsJsonNull(data) ==> NotNull() && match decode(data) {
        case Some(n) => err.None? && value == n
        case None => err == Some(JsonError) && value == old(value)
      }
    {
      if |data| == 0 || Text(data) == "null" {
        value := 0;
        nonnull := false;
        return None;
      }
      nonnull := true;
      match decode(data) {
        case Some(n) =>
          value := n;
          err := None;
        case None =>
          err := Some(JsonError);
      }
    }
  }

  /** `strconv.ParseInt(str, 10, 32)` converted to `int32`: the literals in [-2^31, 2^31 - 1]. */
  function ParseInt32(str: string): (r: Result<int32, Strconv.NumError>)
    ensures r.Success? <==>
      Strconv.IsSignedLiteral(str) && -0x8000_0000 <= Strconv.SignedLiteralValue(str) < 0x8000_0000
    ensures r.Success? ==> r.value as int == Strconv.SignedLiteralValue(str)
  {
    Strconv.ParseIntAccepts(str, 32);
    Strconv.Pow2Widths();
    match Strconv.ParseInt(str, 32)
    case Success(n) => Success(n as int32)
    case Failure(e) => Failure(e)
  }

  /** `NullInt32`: a nullable `int32`. */
  class NullInt32 {
    var value: int32
    var nonnull: bool

    /** The zero value `NullInt32{}`: null, holding 0. */
    constructor ()
      ensures !nonnull && value == 0
    {
      value, nonnull := 0, false;
    }

    /** `NewNullInt32(value)` (and `MakeNullInt32`, its by-value copy): a non-null cell. */
    constructor New(v: int32)
      ensures nonnull && value == v
    {
      value, nonnull := v, true;
    }

    /** `NullInt32FromString`: a fresh non-null cell holding the parsed value, or
        no cell and the parse error. */
    static method FromString(s: string) returns (c: NullInt32?, err: Option<Error>)
      ensures match ParseInt32(s) {
        case Success(n) => err.None? && c != null && fresh(c) && c.nonnull && c.value == n
        case Failure(e) => err == Some(ParseError(e)) && c == null
      }
    {
      var i := new NullInt32();
      err := i.UnmarshalString(s);
      if err.Some? {
        return null, err;
      }
      return i, None;
    }

    function Null(): (b: bool)
      reads this
      ensures b <==> !nonnull
    {
      !nonnull
    }

    function NotNull(): (b: bool)
      reads this
      ensures b <==> !Null()
    {
      nonnull
    }

    function Get(): int32
      reads this
    {
      value
    }

    method Set(v: int32)
      modifies this
      ensures NotNull() && Get() == v
    {
      value := v;
      nonnull := true;
    }

    method SetNull()
      modifies this
      ensures Null() && Get() == 0
    {
      value := 0;
      nonnull := false;
    }

    /** Parses a base-10 literal; on success the cell holds it and is
        non-null, on failure the cell is unchanged. */
    method UnmarshalString(str: string) returns (err: Option<Error>)
      modifies this
      ensures match ParseInt32(str) {
        case Success(n) => err.None? && nonnull && value == n
        case Failure(e) => err == Some(ParseError(e)) && nonnull == old(nonnull) && value == old(value)
      }
    {
      var r := ParseInt32(str);
      match r {
        case Failure(e) =>
          err := Some(ParseError(e));
        case Success(n) =>
          nonnull := true;
          value := n;
          err := None;
      }
    }

    /** `sql.Scanner`: nil makes the cell null, bytes are parsed as their
        text, any other value is refused and leaves the cell unchanged. */
    method Scan(v: GoValue) returns (err: Option<Error>)
      modifies this
      ensures v.Nil? ==> err.None? && Null() && value == 0
      ensures v.Bytes? ==> match ParseInt32(Text(v.bytes)) {
        case Success(n) => err.None? && nonnull && value == n
        case Failure(e) => err == Some(ParseError(e)) && nonnull == old(nonnull) && value == old(value)
      }
      ensures !v.Nil? && !v.Bytes? ==>
        err == Some(ScanError("NullInt")) && nonnull == old(nonnull) && value == old(value)
    {
      if v.Nil? {
        value := 0;
        nonnull := false;
        return None;
      }
      if !v.Bytes? {
        return Some(ScanError("NullInt"));
      }
      err := UnmarshalString(Text(v.bytes));
    }

    /** `driver.Valuer`: nil for a null cell, otherwise the value widened to
        `int64`. */
    function Value(): (r: GoValue)
      reads this
      ensures r.Nil? <==> Null()
      ensures NotNull() ==> r.Int64? && r.i as int == Get() as int
    {
      if nonnull then Int64(value as int64) else Nil
    }

    /** `json.Unmarshaler`: empty input or `null` makes the cell null;
        anything else marks it non-null first and then hands the bytes to
        the decoder, so a decoding error leaves it non-null with its old
        value. */
    method UnmarshalJSON(data: seq<byte>, decode: seq<byte> -> Option<int32>) returns (err: Option<Error>)
      modifies this
      ensures IsJsonNull(data) ==> err.None? && Null() && value == 0
      ensures !IsJsonNull(data) ==> NotNull() && match decode(data) {
        case Some(n) => err.None? && value == n
        case None => err == Some(JsonError) && value == old(value)
      }
    {
      if |data| == 0 || Text(data) == "null" {
        value := 0;
        nonnull := false;
        return None;
      }
      nonnull := true;
      match decode(data) {
        case Some(n) =>
          value := n;
          err := None;
        case None =>
          err := Some(JsonError);
      }
    }
  }

  /** `strconv.ParseInt(str, 10, 64)` converted to `int64`: the literals in [-2^63, 2^63 - 1]. */
  function ParseInt64(str: string): (r: Result<int64, Strconv.NumError>)
    ensures r.Success? <==>
      Strconv.IsSignedLiteral(str) && -0x8000_0000_0000_0000 <= Strconv.SignedLiteralValue(str) < 0x8000_0000_0000_0000
    ensures r.Success? ==> r.value as int == Strconv.SignedLiteralValue(str)
  {
    Strconv.ParseIntAccepts(str, 64);
    Strconv.Pow2Widths();
    match Strconv.ParseInt(str, 64)
    case Success(n) => Success(n as int64)
    case Failure(e) => Failure(e)
  }

  /** `NullInt64`: a nullable `int64`. */
  class NullInt64 {
    var value: int64
    var nonnull: bool

    /** The zero value `NullInt64{}`: null, holding 0. */
    constructor ()
      ensures !nonnull && value == 0
    {
      value, nonnull := 0, false;
    }

    /** `NewNullInt64(value)` (and `MakeNullInt64`, its by-value copy): a non-null cell. */
    constructor New(v: int64)
      ensures nonnull && value == v
    {
      value, nonnull := v, true;
    }

    /** `NullInt64FromString`: a fresh non-null cell holding the parsed value, or
        no cell and the parse error. */
    static method FromString(s: string) returns (c: NullInt64?, err: Option<Error>)
      ensures match ParseInt64(s) {
        case Success(n) => err.None? && c != null && fresh(c) && c.nonnull && c.value == n
        case Failure(e) => err == Some(ParseError(e)) && c == null
      }
    {
      var i := new NullInt64();
      err := i.UnmarshalString(s);
      if err.Some? {
        return null, err;
      }
      return i, None;
    }

    function Null(): (b: bool)
      reads this
      ensures b <==> !nonnull
    {
      !nonnull
    }

    function NotNull(): (b: bool)
      reads this
      ensures b <==> !Null()
    {
      nonnull
    }

    function Get(): int64
      reads this
    {
      value
    }

    method Set(v: int64)
      modifies this
      ensures NotNull() && Get() == v
    {
      value := v;
      nonnull := true;
    }

    method SetNull()
      modifies this
      ensures Null() && Get() == 0
    {
      value := 0;
      nonnull := false;
    }

    /** Parses a base-10 literal; on success the cell holds it and is
        non-null, on failure the cell is unchanged. */
    method UnmarshalString(str: string) returns (err: Option<Error>)
      modifies this
      ensures match ParseInt64(str) {
        case Success(n) => err.None? && nonnull && value == n
        case Failure(e) => err == Some(ParseError(e)) && nonnull == old(nonnull) && value == old(value)
      }
    {
      var r := ParseInt64(str);
      match r {
        case Failure(e) =>
          err := Some(ParseError(e));
        case Success(n) =>
          nonnull := true;
          value := n;
          err := None;
      }
    }

    /** `sql.Scanner`: nil makes the cell null, bytes are parsed as their
        text, any other value is refused and leaves the cell unchanged. */
    method Scan(v: GoValue) returns (err: Option<Error>)
      modifies this
      ensures v.Nil? ==> err.None? && Null() && value == 0
      ensures v.Bytes? ==> match ParseInt64(Text(v.bytes)) {
        case Success(n) => err.None? && nonnull && value == n
        case Failure(e) => err == Some(ParseError(e)) && nonnull == old(nonnull) && value == old(value)
      }
      ensures !v.Nil? && !v.Bytes? ==>
        err == Some(ScanError("NullInt")) && nonnull == old(nonnull) && value == old(value)
    {
      if v.Nil? {
        value := 0;
        nonnull := false;
        return None;
      }
      if !v.Bytes? {
        return Some(ScanError("NullInt"));
      }
      err := UnmarshalString(Text(v.bytes));
    }

    /** `driver.Valuer`: nil for a null cell, otherwise the value widened to
        `int64`. */
    function Value(): (r: GoValue)
      reads this
      ensures r.Nil? <==> Null()
      ensures NotNull() ==> r.Int64? && r.i as int == Get() as int
    {
      if nonnull then Int64(value as int64) else Nil
    }

    /** `json.Unmarshaler`: empty input or `null` makes the cell null;
        anything else marks it non-null first and then hands the bytes to
        the decoder, so a decoding error leaves it non-null with its old
        value. */
    method UnmarshalJSON(data: seq<byte>, decode: seq<byte> -> Option<int64>) returns (err: Option<Error>)
      modifies this
      ensures IsJsonNull(data) ==> err.None? && Null() && value == 0
      ensures !IsJsonNull(data) ==> NotNull() && match decode(data) {
        case Some(n) => err.None? && value == n
        case None => err == Some(JsonError) && value == old(value)
      }
    {
      if |data| == 0 || Text(data) == "null" {
        value := 0;
        nonnull := false;
        return None;
      }
      nonnull := true;
      match decode(data) {
        case Some(n) =>
          value := n;
          err := None;
        case None =>
          err := Some(JsonError);
      }
    }
  }

  /** `strconv.ParseUint(str, 10, strconv.IntSize)` converted to `gouint`: the digit strings in the unsigned range of `strconv.IntSize` bits. */
  function ParseNativeUint(str: string): (r: Result<gouint, Strconv.NumError>)
    ensures r.Success? <==>
      Strconv.IsUnsignedLiteral(str) && Strconv.DecimalValue(str) < 0x1_0000_0000_0000_0000
    ensures r.Success? ==> r.value as int == Strconv.DecimalValue(str)
  {
    Strconv.ParseUintAccepts(str, IntSize);
    Strconv.Pow2Widths();
    match Strconv.ParseUint(str, IntSize)
    case Success(n) => Success(n as gouint)
    case Failure(e) => Failure(e)
  }

  /** `NullUint`: a nullable `uint`. */
  class NullUint {
    var value: gouint
    var nonnull: bool

    /** The zero value `NullUint{}`: null, holding 0. */
    constructor ()
      ensures !nonnull && value == 0
    {
      value, nonnull := 0, false;
    }

    /** `NewNullUint(value)` (and `MakeNullUint`, its by-value copy): a non-null cell. */
    constructor New(v: gouint)
      ensures nonnull && value == v
    {
      value, nonnull := v, true;
    }

    /** `NullUintFromString`: a fresh non-null cell holding the parsed value, or
        no cell and the parse error. */
    static method FromString(s: string) returns (c: NullUint?, err: Option<Error>)
      ensures match ParseNativeUint(s) {
        case Success(n) => err.None? && c != null && fresh(c) && c.nonnull && c.value == n
        case Failure(e) => err == Some(ParseError(e)) && c == null
      }
    {
      var i := new NullUint();
      err := i.UnmarshalString(s);
      if err.Some? {
        return null, err;
      }
      return i, None;
    }

    function Null(): (b: bool)
      reads this
      ensures b <==> !nonnull
    {
      !nonnull
    }

    function NotNull(): (b: bool)
      reads this
      ensures b <==> !Null()
    {
      nonnull
    }

    function Get(): gouint
      reads this
    {
      value
    }

    method Set(v: gouint)
      modifies this
      ensures NotNull() && Get() == v
    {
      value := v;
      nonnull := true;
    }

    method SetNull()
      modifies this
      ensures Null() && Get() == 0
    {
      value := 0;
      nonnull := false;
    }

    /** Parses a base-10 literal; on success the cell holds it and is
        non-null, on failure the cell is unchanged. */
    method UnmarshalString(str: string) returns (err: Option<Error>)
      modifies this
      ensures match ParseNativeUint(str) {
        case Success(n) => err.None? && nonnull && value == n
        case Failure(e) => err == Some(ParseError(e)) && nonnull == old(nonnull) && value == old(value)
      }
    {
      var r := ParseNativeUint(str);
      match r {
        case Failure(e) =>
          err := Some(ParseError(e));
        case Success(n) =>
          nonnull := true;
          value := n;
          err := None;
      }
    }

    /** `sql.Scanner`: nil makes the cell null, bytes are parsed as their
        text, any other value is refused and leaves the cell unchanged. */
    method Scan(v: GoValue) returns (err: Option<Error>)
      modifies this
      ensures v.Nil? ==> err.None? && Null() && value == 0
      ensures v.Bytes? ==> match ParseNativeUint(Text(v.bytes)) {
        case Success(n) => err.None? && nonnull && value == n
        case Failure(e) => err == Some(ParseError(e)) && nonnull == old(nonnull) && value == old(value)
      }
      ensures !v.Nil? && !v.Bytes? ==>
        err == Some(ScanError("NullInt")) && nonnull == old(nonnull) && value == old(value)
    {
      if v.Nil? {
        value := 0;
        nonnull := false;
        return None;
      }
      if !v.Bytes? {
        return Some(ScanError("NullInt"));
      }
      err := UnmarshalString(Text(v.bytes));
    }

    /** `driver.Valuer`: nil for a null cell, otherwise the value widened to
        `uint64`. */
    function Value(): (r: GoValue)
      reads this
      ensures r.Nil? <==> Null()
      ensures NotNull() ==> r.Uint64? && r.u as int == Get() as int
    {
      if nonnull then Uint64(value as uint64) else Nil
    }

    /** `json.Unmarshaler`: empty input or `null` makes the cell null;
        anything else marks it non-null first and then hands the bytes to
        the decoder, so a decoding error leaves it non-null with its old
        value. */
    method UnmarshalJSON(data: seq<byte>, decode: seq<byte> -> Option<gouint>) returns (err: Option<Error>)
      modifies this
      ensures IsJsonNull(data) ==> err.None? && Null() && value == 0
      ensures !IsJsonNull(data) ==> NotNull() && match decode(data) {
        case Some(n) => err.None? && value == n
        case None => err == Some(JsonError) && value == old(value)
      }
    {
      if |data| == 0 || Text(data) == "null" {
        value := 0;
        nonnull := false;
        return None;
      }
      nonnull := true;
      match decode(data) {
        case Some(n) =>
          value := n;
          err := None;
        case None =>
          err := Some(JsonError);
      }
    }
  }

  /** `strconv.ParseUint(str, 10, 8)` converted to `uint8`: the digit strings in [0, 255]. */
  function ParseUint8(str: string): (r: Result<uint8, Strconv.NumError>)
    ensures r.Success? <==>
      Strconv.IsUnsignedLiteral(str) && Strconv.DecimalValue(str) < 0x100
    ensures r.Success? ==> r.value as int == Strconv.DecimalValue(str)
  {
    Strconv.ParseUintAccepts(str, 8);
    Strconv.Pow2Widths();
    match Strconv.ParseUint(str, 8)
    case Success(n) => Success(n as uint8)
    case Failure(e) => Failure(e)
  }

  /** `NullUint8`: a nullable `uint8`. */
  class NullUint8 {
    var value: uint8
    var nonnull: bool

    /** The zero value `NullUint8{}`: null, holding 0. */
    constructor ()
      ensures !nonnull && value == 0
    {
      value, nonnull := 0, false;
    }

    /** `NewNullUint8(value)` (and `MakeNullUint8`, its by-value copy): a non-null cell. */
    constructor New(v: uint8)
      ensures nonnull && value == v
    {
      value, nonnull := v, true;
    }

    /** `NullUint8FromString`: a fresh non-null cell holding the parsed value, or
        no cell and the parse error. */
    static method FromString(s: string) returns (c: NullUint8?, err: Option<Error>)
      ensures match ParseUint8(s) {
        case Success(n) => err.None? && c != null && fresh(c) && c.nonnull && c.value == n
        case Failure(e) => err == Some(ParseError(e)) && c == null
      }
    {
      var i := new NullUint8();
      err := i.UnmarshalString(s);
      if err.Some? {
        return null, err;
      }
      return i, None;
    }

    function Null(): (b: bool)
      reads this
      ensures b <==> !nonnull
    {
      !nonnull
    }

    function NotNull(): (b: bool)
      reads this
      ensures b <==> !Null()
    {
      nonnull
    }

    function Get(): uint8
      reads this
    {
      value
    }

    method Set(v: uint8)
      modifies this
      ensures NotNull() && Get() == v
    {
      value := v;
      nonnull := true;
    }

    method SetNull()
      modifies this
      ensures Null() && Get() == 0
    {
      value := 0;
      nonnull := false;
    }

    /** Parses a base-10 literal; on success the cell holds it and is
        non-null, on failure the cell is unchanged. */
    method UnmarshalString(str: string) returns (err: Option<Error>)
      modifies this
      ensures match ParseUint8(str) {
        case Success(n) => err.None? && nonnull && value == n
        case Failure(e) => err == Some(ParseError(e)) && nonnull == old(nonnull) && value == old(value)
      }
    {
      var r := ParseUint8(str);
      match r {
        case Failure(e) =>
          err := Some(ParseError(e));
        case Success(n) =>
          nonnull := true;
          value := n;
          err := None;
      }
    }

    /** `sql.Scanner`: nil makes the cell null, bytes are parsed as their
        text, any other value is refused and leaves the cell unchanged. */
    method Scan(v: GoValue) returns (err: Option<Error>)
      modifies this
      ensures v.Nil? ==> err.None? && Null() && value == 0
      ensures v.Bytes? ==> match ParseUint8(Text(v.bytes)) {
        case Success(n) => err.None? && nonnull && value == n
        case Failure(e) => err == Some(ParseError(e)) && nonnull == old(nonnull) && value == old(value)
      }
      ensures !v.Nil? && !v.Bytes? ==>
        err == Some(ScanError("NullInt")) && nonnull == old(nonnull) && value == old(value)
    {
      if v.Nil? {
        value := 0;
        nonnull := false;
        return None;
      }
      if !v.Bytes? {
        return Some(ScanError("NullInt"));
      }
      err := UnmarshalString(Text(v.bytes));
    }

    /** `driver.Valuer`: nil for a null cell, otherwise the value widened to
        `uint64`. */
    function Value(): (r: GoValue)
      reads this
      ensures r.Nil? <==> Null()
      ensures NotNull() ==> r.Uint64? && r.u as int == Get() as int
    {
      if nonnull then Uint64(value as uint64) else Nil
    }

    /** `json.Unmarshaler`: empty input or `null` makes the cell null;
        anything else marks it non-null first and then hands the bytes to
        the decoder, so a decoding error leaves it non-null with its old
        value. */
    method UnmarshalJSON(data: seq<byte>, decode: seq<byte> -> Option<uint8>) returns (err: Option<Error>)
      modifies this
      ensures IsJsonNull(data) ==> err.None? && Null() && value == 0
      ensures !IsJsonNull(data) ==> NotNull() && match decode(data) {
        case Some(n) => err.None? && value == n
        case None => err == Some(JsonError) && value == old(value)
      }
    {
      if |data| == 0 || Text(data) == "null" {
        value := 0;
        nonnull := false;
        return None;
      }
      nonnull := true;
      match decode(data) {
        case Some(n) =>
          value := n;
          err := None;
        case None =>
          err := Some(JsonError);
      }
    }
  }

  /** `strconv.ParseUint(str, 10, 16)` converted to `uint16`: the digit strings in [0, 65535]. */
  function ParseUint16(str: string): (r: Result<uint16, Strconv.NumError>)
    ensures r.Success? <==>
      Strconv.IsUnsignedLiteral(str) && Strconv.DecimalValue(str) < 0x1_0000
    ensures r.Success? ==> r.value as int == Strconv.DecimalValue(str)
  {
    Strconv.ParseUintAccepts(str, 16);
    Strconv.Pow2Widths();
    match Strconv.ParseUint(str, 16)
    case Success(n) => Success(n as uint16)
    case Failure(e) => Failure(e)
  }

  /** `NullUint16`: a nullable `uint16`. */
  class NullUint16 {
    var value: uint16
    var nonnull: bool

    /** The zero value `NullUint16{}`: null, holding 0. */
    constructor ()
      ensures !nonnull && value == 0
    {
      value, nonnull := 0, false;
    }

    /** `NewNullUint16(value)` (and `MakeNullUint16`, its by-value copy): a non-null cell. */
    constructor New(v: uint16)
      ensures nonnull && value == v
    {
      value, nonnull := v, true;
    }

    /** `NullUint16FromString`: a fresh non-null cell holding the parsed value, or
        no cell and the parse error. */
    static method FromString(s: string) returns (c: NullUint16?, err: Option<Error>)
      ensures match ParseUint16(s) {
        case Success(n) => err.None? && c != null && fresh(c) && c.nonnull && c.value == n
        case Failure(e) => err == Some(ParseError(e)) && c == null
      }
    {
      var i := new NullUint16();
      err := i.UnmarshalString(s);
      if err.Some? {
        return null, err;
      }
      return i, None;
    }

    function Null(): (b: bool)
      reads this
      ensures b <==> !nonnull
    {
      !nonnull
    }

    function NotNull(): (b: bool)
      reads this
      ensures b <==> !Null()
    {
      nonnull
    }

    function Get(): uint16
      reads this
    {
      value
    }

    method Set(v: uint16)
      modifies this
      ensures NotNull() && Get() == v
    {
      value := v;
      nonnull := true;
    }

    method SetNull()
      modifies this
      ensures Null() && Get() == 0
    {
      value := 0;
      nonnull := false;
    }

    /** Parses a base-10 literal; on success the cell holds it and is
        non-null, on failure the cell is unchanged. */
    method UnmarshalString(str: string) returns (err: Option<Error>)
      modifies this
      ensures match ParseUint16(str) {
        case Success(n) => err.None? && nonnull && value == n
        case Failure(e) => err == Some(ParseError(e)) && nonnull == old(nonnull) && value == old(value)
      }
    {
      var r := ParseUint16(str);
      match r {
        case Failure(e) =>
          err := Some(ParseError(e));
        case Success(n) =>
          nonnull := true;
          value := n;
          err := None;
      }
    }

    /** `sql.Scanner`: nil makes the cell null, bytes are parsed as their
        text, any other value is refused and leaves the cell unchanged. */
    method Scan(v: GoValue) returns (err: Option<Error>)
      modifies this
      ensures v.Nil? ==> err.None? && Null() && value == 0
      ensures v.Bytes? ==> match ParseUint16(Text(v.bytes)) {
        case Success(n) => err.None? && nonnull && value == n
        case Failure(e) => err == Some(ParseError(e)) && nonnull == old(nonnull) && value == old(value)
      }
      ensures !v.Nil? && !v.Bytes? ==>
        err == Some(ScanError("NullInt")) && nonnull == old(nonnull) && value == old(value)
    {
      if v.Nil? {
        value := 0;
        nonnull := false;
        return None;
      }
      if !v.Bytes? {
        return Some(ScanError("NullInt"));
      }
      err := UnmarshalString(Text(v.bytes));
    }

    /** `driver.Valuer`: nil for a null cell, otherwise the value widened to
        `uint64`. */
    function Value(): (r: GoValue)
      reads this
      ensures r.Nil? <==> Null()
      ensures NotNull() ==> r.Uint64? && r.u as int == Get() as int
    {
      if nonnull then Uint64(value as uint64) else Nil
    }

    /** `json.Unmarshaler`: empty input or `null` makes the cell null;
        anything else marks it non-null first and then hands the bytes to
        the decoder, so a decoding error leaves it non-null with its old
        value. */
    method UnmarshalJSON(data: seq<byte>, decode: seq<byte> -> Option<uint16>) returns (err: Option<Error>)
      modifies this
      ensures IsJsonNull(data) ==> err.None? && Null() && value == 0
      ensures !IsJsonNull(data) ==> NotNull() && match decode(data) {
        case Some(n) => err.None? && value == n
        case None => err == Some(JsonError) && value == old(value)
      }
    {
      if |data| == 0 || Text(data) == "null" {
        value := 0;
        nonnull := false;
        return None;
      }
      nonnull := true;
      match decode(data) {
        case Some(n) =>
          value := n;
          err := None;
        case None =>
          err := Some(JsonError);
      }
    }
  }

  /** `strconv.ParseUint(str, 10, 32)` converted to `uint32`: the digit strings in [0, 2^32 - 1]. */
  function ParseUint32(str: string): (r: Result<uint32, Strconv.NumError>)
    ensures r.Success? <==>
      Strconv.IsUnsignedLiteral(str) && Strconv.DecimalValue(str) < 0x1_0000_0000
    ensures r.Success? ==> r.value as int == Strconv.DecimalValue(str)
  {
    Strconv.ParseUintAccepts(str, 32);
    Strconv.Pow2Widths();
    match Strconv.ParseUint(str, 32)
    case Success(n) => Success(n as uint32)
    case Failure(e) => Failure(e)
  }

  /** `NullUint32`: a nullable `uint32`. */
  class NullUint32 {
    var value: uint32
    var nonnull: bool

    /** The zero value `NullUint32{}`: null, holding 0. */
    constructor ()
      ensures !nonnull && value == 0
    {
      value, nonnull := 0, false;
    }

    /** `NewNullUint32(value)` (and `MakeNullUint32`, its by-value copy): a non-null cell. */
    constructor New(v: uint32)
      ensures nonnull && value == v
    {
      value, nonnull := v, true;
    }

    /** `NullUint32FromString`: a fresh non-null cell holding the parsed value, or
        no cell and the parse error. */
    static method FromString(s: string) returns (c: NullUint32?, err: Option<Error>)
      ensures match ParseUint32(s) {
        case Success(n) => err.None? && c != null && fresh(c) && c.nonnull && c.value == n
        case Failure(e) => err == Some(ParseError(e)) && c == null
      }
    {
      var i := new NullUint32();
      err := i.UnmarshalString(s);
      if err.Some? {
        return null, err;
      }
      return i, None;
    }

    function Null(): (b: bool)
      reads this
      ensures b <==> !nonnull
    {
      !nonnull
    }

    function NotNull(): (b: bool)
      reads this
      ensures b <==> !Null()
    {
      nonnull
    }

    function Get(): uint32
      reads this
    {
      value
    }

    method Set(v: uint32)
      modifies this
      ensures NotNull() && Get() == v
    {
      value := v;
      nonnull := true;
    }

    method SetNull()
      modifies this
      ensures Null() && Get() == 0
    {
      value := 0;
      nonnull := false;
    }

    /** Parses a base-10 literal; on success the cell holds it and is
        non-null, on failure the cell is unchanged. */
    method UnmarshalString(str: string) returns (err: Option<Error>)
      modifies this
      ensures match ParseUint32(str) {
        case Success(n) => err.None? && nonnull && value == n
        case Failure(e) => err == Some(ParseError(e)) && nonnull == old(nonnull) && value == old(value)
      }
    {
      var r := ParseUint32(str);
      match r {
        case Failure(e) =>
          err := Some(ParseError(e));
        case Success(n) =>
          nonnull := true;
          value := n;
          err := None;
      }
    }

    /** `sql.Scanner`: nil makes the cell null, bytes are parsed as their
        text, any other value is refused and leaves the cell unchanged. */
    method Scan(v: GoValue) returns (err: Option<Error>)
      modifies this
      ensures v.Nil? ==> err.None? && Null() && value == 0
      ensures v.Bytes? ==> match ParseUint32(Text(v.bytes)) {
        case Success(n) => err.None? && nonnull && value == n
        case Failure(e) => err == Some(ParseError(e)) && nonnull == old(nonnull) && value == old(value)
      }
      ensures !v.Nil? && !v.Bytes? ==>
        err == Some(ScanError("NullInt")) && nonnull == old(nonnull) && value == old(value)
    {
      if v.Nil? {
        value := 0;
        nonnull := false;
        return None;
      }
      if !v.Bytes? {
        return Some(ScanError("NullInt"));
      }
      err := UnmarshalString(Text(v.bytes));
    }

    /** `driver.Valuer`: nil for a null cell, otherwise the value widened to
        `uint64`. */
    function Value(): (r: GoValue)
      reads this
      ensures r.Nil? <==> Null()
      ensures NotNull() ==> r.Uint64? && r.u as int == Get() as int
    {
      if nonnull then Uint64(value as uint64) else Nil
    }

    /** `json.Unmarshaler`: empty input or `null` makes the cell null;
        anything else marks it non-null first and then hands the bytes to
        the decoder, so a decoding error leaves it non-null with its old
        value. */
    method UnmarshalJSON(data: seq<byte>, decode: seq<byte> -> Option<uint32>) returns (err: Option<Error>)
      modifies this
      ensures IsJsonNull(data) ==> err.None? && Null() && value == 0
      ensures !IsJsonNull(data) ==> NotNull() && match decode(data) {
        case Some(n) => err.None? && value == n
        case None => err == Some(JsonError) && value == old(value)
      }
    {
      if |data| == 0 || Text(data) == "null" {
        value := 0;
        nonnull := false;
        return None;
      }
      nonnull := true;
      match decode(data) {
        case Some(n) =>
          value := n;
          err := None;
        case None =>
          err := Some(JsonError);
      }
    }
  }

  /** `strconv.ParseUint(str, 10, 64)` converted to `uint64`: the digit strings in [0, 2^64 - 1]. */
  function ParseUint64(str: string): (r: Result<uint64, Strconv.NumError>)
    ensures r.Success? <==>
      Strconv.IsUnsignedLiteral(str) && Strconv.DecimalValue(str) < 0x1_0000_0000_0000_0000
    ensures r.Success? ==> r.value as int == Strconv.DecimalValue(str)
  {
    Strconv.ParseUintAccepts(str, 64);
    Strconv.Pow2Widths();
    match Strconv.ParseUint(str, 64)
    case Success(n) => Success(n as uint64)
    case Failure(e) => Failure(e)
  }

  /** `NullUint64`: a nullable `uint64`. */
  class NullUint64 {
    var value: uint64
    var nonnull: bool

    /** The zero value `NullUint64{}`: null, holding 0. */
    constructor ()
      ensures !nonnull && value == 0
    {
      value, nonnull := 0, false;
    }

    /** `NewNullUint64(value)` (and `MakeNullUint64`, its by-value copy): a non-null cell. */
    constructor New(v: uint64)
      ensures nonnull && value == v
    {
      value, nonnull := v, true;
    }

    /** `NullUint64FromString`: a fresh non-null cell holding the parsed value, or
        no cell and the parse error. */
    static method FromString(s: string) returns (c: NullUint64?, err: Option<Error>)
      ensures match ParseUint64(s) {
        case Success(n) => err.None? && c != null && fresh(c) && c.nonnull && c.value == n
        case Failure(e) => err == Some(ParseError(e)) && c == null
      }
    {
      var i := new NullUint64();
      err := i.UnmarshalString(s);
      if err.Some? {
        return null, err;
      }
      return i, None;
    }

    function Null(): (b: bool)
      reads this
      ensures b <==> !nonnull
    {
      !nonnull
    }

    function NotNull(): (b: bool)
      reads this
      ensures b <==> !Null()
    {
      nonnull
    }

    function Get(): uint64
      reads this
    {
      value
    }

    method Set(v: uint64)
      modifies this
      ensures NotNull() && Get() == v
    {
      value := v;
      nonnull := true;
    }

    method SetNull()
      modifies this
      ensures Null() && Get() == 0
    {
      value := 0;
      nonnull := false;
    }

    /** Parses a base-10 literal; on success the cell holds it and is
        non-null, on failure the cell is unchanged. */
    method UnmarshalString(str: string) returns (err: Option<Error>)
      modifies this
      ensures match ParseUint64(str) {
        case Success(n) => err.None? && nonnull && value == n
        case Failure(e) => err == Some(ParseError(e)) && nonnull == old(nonnull) && value == old(value)
      }
    {
      var r := ParseUint64(str);
      match r {
        case Failure(e) =>
          err := Some(ParseError(e));
        case Success(n) =>
          nonnull := true;
          value := n;
          err := None;
      }
    }

    /** `sql.Scanner`: nil makes the cell null, bytes are parsed as their
        text, any other value is refused and leaves the cell unchanged. */
    method Scan(v: GoValue) returns (err: Option<Error>)
      modifies this
      ensures v.Nil? ==> err.None? && Null() && value == 0
      ensures v.Bytes? ==> match ParseUint64(Text(v.bytes)) {
        case Success(n) => err.None? && nonnull && value == n
        case Failure(e) => err == Some(ParseError(e)) && nonnull == old(nonnull) && value == old(value)
      }
      ensures !v.Nil? && !v.Bytes? ==>
        err == Some(ScanError("NullInt")) && nonnull == old(nonnull) && value == old(value)
    {
      if v.Nil? {
        value := 0;
        nonnull := false;
        return None;
      }
      if !v.Bytes? {
        return Some(ScanError("NullInt"));
      }
      err := UnmarshalString(Text(v.bytes));
    }

    /** `driver.Valuer`: nil for a null cell, otherwise the value widened to
        `uint64`. */
    function Value(): (r: GoValue)
      reads this
      ensures r.Nil? <==> Null()
      ensures NotNull() ==> r.Uint64? && r.u as int == Get() as int
    {
      if nonnull then Uint64(value as uint64) else Nil
    }

    /** `json.Unmarshaler`: empty input or `null` makes the cell null;
        anything else marks it non-null first and then hands the bytes to
        the decoder, so a decoding error leaves it non-null with its old
        value. */
    method UnmarshalJSON(data: seq<byte>, decode: seq<byte> -> Option<uint64>) returns (err: Option<Error>)
      modifies this
      ensures IsJsonNull(data) ==> err.None? && Null() && value == 0
      ensures !IsJsonNull(data) ==> NotNull() && match decode(data) {
        case Some(n) => err.None? && value == n
        case None => err == Some(JsonError) && value == old(value)
      }
    {
      if |data| == 0 || Text(data) == "null" {
        value := 0;
        nonnull := false;
        return None;
      }
      nonnull := true;
      match decode(data) {
        case Some(n) =>
          value := n;
          err := None;
        case None =>
          err := Some(JsonError);
      }
    }
  }
}
