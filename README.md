# lets-habit-server, modelled in Dafny

This project models the core of lets-habit-server, a Go backend for
tracking habits. The model covers five parts:

- **Nullable value types** (`nullable/`). Each one is a cell that is either null or holds a string, a
  boolean or an integer of one of ten widths. Each can be read from a
  string, from a database value or from JSON.
- **The service error model** (`biz/response/`). An `SError` carries a code, a message and a
  cause. The HTTP response maps the code to a status.
- **The data layer** (`biz/dal/`). There is one class per table. Each table holds a sequence of
  rows that its methods insert into, filter-delete from or rewrite. Its
  functions are the queries. Every statement takes a `dbErr` parameter:
  `None` means the driver accepts the statement, and `Some(e)` means it
  fails with `e` and changes nothing.
- **The controllers** (`biz/controller/`). They cover:
  - creating, reading, listing and deleting habits with their member groups;
  - the register–activate cycle by email;
  - binding an email;
  - updating a user's name and portrait.

  `WithDBTx` is an all-or-nothing transaction over a snapshot of every table.
- **The request checks of the HTTP handlers** (`biz/handler/`) and the digit-code generator
  (`util/util.go`).

Go's `time.Time` is an integer count of nanoseconds. Go's fixed-width
integers are Dafny newtypes. `strconv.IntSize` is 64. The clock, fresh
uuids, randomness, JWT signing and parsing, SMTP, object storage, bcrypt,
image sniffing and the email verifier's network probe are all parameters
of the operations that use them. `encoding/json` is a decoder passed in as
a function.

Go's `strconv` (base 10) and `encoding/base64` (`StdEncoding.DecodeString`)
are written out, because the nullable parsers and `Base64ImgDecode` depend
on exactly what they accept. They are the `Strconv` and `Base64` modules.
Each has a printer beside it, so that the parse/print round trips can be
proved.

One module per Go file. The remaining modules are:

- `Database`: the tables and transaction snapshots.
- `Services`: JWT claims, the mailer, the object store and the token-checking middleware.
- `ControllerHelper`: `WithDBTx`.
- `Wrappers`: `Option` and `Result`.
- `GoTypes`: the machine integer types, bytes and time.

## Model

| member | source | states |
|---|---|---|
| Response.New | biz/response/response.go:186-193 | `ErrorCode.New` yields an error with the given code and message and no cause |
| Response.Wrap | biz/response/response.go:196-203 | `ErrorCode.Wrap` yields an error with the given code and message that keeps the given cause, nil included |
| Response.Relocation | biz/response/response.go:82-89 | relocating an error keeps its code, message and cause |
| Response.StatusForCode | biz/response/response.go:167-174 | 400 exactly for `InvalidParam`, 403 exactly for `UserAuthFail` and `UserNoPermission`, 500 exactly for every other code |
| Response.HTTPResponse.constructor | biz/response/response.go:113-128 | a new response has status 200, meta status 0, message "success", URI "method path", elapsed 0, no data and no error |
| Response.HTTPResponse.SetSuccessData | biz/response/response.go:153-159 | status 200, meta status 0, "success", the given data and no recorded error; URI and elapsed kept |
| Response.HTTPResponse.SetError | biz/response/response.go:163-183 | a service error sets the status its code maps to and copies its code and message into the meta block; any other error sets 500, 9999 and "internal unknown error"; the given error is always recorded and the data kept |
| Strconv.ParseUint | nullable/null_uint8.go:67 | whatever `strconv.ParseUint(s, 10, bitSize)` accepts fits in `bitSize` bits |
| Strconv.ParseInt | nullable/null_int8.go:67 | whatever `strconv.ParseInt(s, 10, bitSize)` accepts lies in the signed `bitSize`-bit range |
| Strconv.ScanUintExact | nullable/null_uint8.go:67 | the digit scanner succeeds exactly on all-digit text whose value stays within the bound, and returns that value |
| Strconv.ParseUintAccepts | nullable/null_uint8.go:67 | `ParseUint` succeeds exactly on a non-empty digit string whose value fits the width, and returns that value |
| Strconv.ParseIntAccepts | nullable/null_int8.go:67 | `ParseInt` succeeds exactly on an optionally signed digit string whose value lies in the signed range, and returns that value |
| Strconv.ParseBool | nullable/null_bool.go:67 | true exactly for "1", "t", "T", "TRUE", "true", "True"; false exactly for "0", "f", "F", "FALSE", "false", "False"; a syntax error for anything else |
| Strconv.FormatUint | nullable/null_uint64.go:67 | the printer emits a digit string (the inverse used for the round trips) |
| Strconv.FormatUintValue | nullable/null_uint64.go:67 | the printed digits of `v` denote `v` |
| Strconv.ParseFormatUint | nullable/null_uint64.go:67 | parsing the printed form of any value of the width gives the value back |
| Strconv.ParseFormatInt | nullable/null_int64.go:67 | parsing the printed form of any value of the signed width gives the value back |
| Strconv.Pow2Widths | nullable/null_int32.go:67 | the powers of two bounding the 8-, 16-, 32- and 64-bit ranges |
| Nullable.Unquote | nullable/null_string.go:52-61 | the rewriting keeps the length or shortens it by two, removes one surrounding pair of quotes and nothing else, and keeps strings of length at most one and strings not starting with a quote |
| Nullable.UnquoteQuoted | nullable/null_string.go:53-56 | a quoted string loses exactly its own quotes, whatever it contains |
| Nullable.UnquoteNotIdempotent | nullable/null_string.go:53-56 | unquoting twice removes a second pair: the rewriting is not idempotent |
| Base64.StripNewlines | biz/handler/helper.go:102 | the decoder first drops every CR and LF, and only those |
| Base64.DecodeGroups | biz/handler/helper.go:102 | a decoding exists only for text of whole four-character groups and carries three bytes per group, less up to two for padding |
| Base64.Encode | biz/handler/helper.go:102 | the padded standard encoding is made of whole four-character groups without line breaks |
| Base64.DecodeEncode | biz/handler/helper.go:102-106 | `DecodeString` inverts the padded standard encoding of every byte string |
| Base64.NewlinesIgnored | biz/handler/helper.go:102 | inserting a CR or an LF anywhere does not change what the text decodes to |
| Base64.StripAppend | biz/handler/helper.go:102 | dropping line breaks distributes over concatenation |
| Handler.BindAndValidateErr | biz/handler/helper.go:15-17 | a binding failure is `InvalidParam` "bind req fail" with the binder's error as its cause |
| Handler.ValidateEmail | biz/handler/helper.go:22-35 | accepts exactly the addresses the verifier vouches for (valid syntax, and deliverable or catch-all); a verifier failure is a 9999 error with the failure as cause; bad syntax and an unreachable address are `InvalidParam` with their own messages |
| Handler.ValidatePassword | biz/handler/helper.go:40-45 | accepts exactly the passwords of at least eight bytes; any other one is `InvalidParam` "password length is less than eight" |
| Handler.Base64ImgDecode | biz/handler/helper.go:98-107 | "" decodes to no bytes without error; other text yields its standard padded base64 decoding, or `InvalidParam` "invalid image base64" when it has none |
| Handler.ImageRoundTrip | biz/handler/helper.go:98-107 | every image sent as its base64 encoding arrives intact |
| Handler.ValidateCreateHabit | biz/handler/habit.go:31-49 | accepts exactly the requests with a non-empty name and a valid public level, check type, check frequency and deadline delay; otherwise reports the first failing field, in that order, as `InvalidParam` |
| Handler.ValidateListHabits | biz/handler/habit.go:96-104 | accepts exactly page at least 1 and page size from 1 to 100 inclusive; page 0 and an out-of-range size get their own messages |
| Handler.ValidateUserRegister | biz/handler/user.go:27-37 | accepts exactly a reachable email with a password of at least eight bytes; any email failure, the verifier's own included, becomes `InvalidParam` "invalid email"; a password failure is passed on unchanged |
| Handler.ValidateEmailActivate | biz/handler/user.go:74-79 | accepts exactly the non-empty codes; the empty one is `InvalidParam` "invalid code" |
| Handler.ValidateSubmitBindEmail | biz/handler/user.go:118-120 | accepts exactly what `ValidateEmail` accepts and returns its error unchanged |
| Handler.ValidateConfirmBindEmail | biz/handler/user.go:153-158 | accepts exactly the non-empty codes; the empty one is `InvalidParam` "missing bind code" |
| Handler.ValidateUpdateUserBaseInfo | biz/handler/user.go:191-196 | accepts exactly a request that carries a portrait whose size is not 0; otherwise `InvalidParam` "portrait file empty" |
| Util.DigitCode | util/util.go:13-15 | one character per random draw, every one a digit |
| Util.DrawsOf | util/util.go:13-15 | the draws that produce a given digit string are valid draws and one per character |
| Util.EveryCodeReachable | util/util.go:8-17 | every digit string is the code of some sequence of draws |
| Util.CodeDeterminesDraws | util/util.go:8-17 | different draws give different codes: the code determines the draws |
| Util.GenerateVerifyCode | util/util.go:10-17 | `length <= 0` gives ""; otherwise the code is exactly `length` characters, the `i`-th being the digit the `i`-th draw picks from "0123456789" |
| DalCommon.DbFailure | biz/dal/habit.go:86-92 | a failing statement is reported as a 9999 error that keeps the driver's error as cause |
| DalCommon.Where | biz/dal/habit_group.go:64-71 | a query returns exactly the rows satisfying its filter, each as often as it is stored; the model lists them in insertion order, an order the source does not promise |
| DalCommon.Without | biz/dal/habit_group.go:93-99 | a filter-delete keeps exactly the rows outside the filter, each as often as before |
| DalCommon.WhereWithoutPartition | biz/dal/habit_group.go:93-99 | a delete and the matching query split the table: together they hold every row exactly once |
| DalCommon.WhereSnoc | biz/dal/habit_group.go:22-28 | querying after an insert sees the old answer and the new row if it matches |
| DalCommon.WhereNarrow | biz/dal/habit_log_record.go:52-67 | filtering a query's answer by a stronger filter is the same as querying by the stronger filter |
| DalCommon.NoneSelected | biz/dal/habit_group.go:64-71 | a filter no row satisfies returns the empty list |
| DalCommon.UpdateWhere | biz/dal/user_email_activate.go:62-68 | an `Updates` statement rewrites exactly the matching rows and keeps the others where they are |
| DalCommon.UpdateWhereExt | biz/dal/user_email_activate.go:62-68 | two rewrites that agree on the matching rows give the same table |
| DalCommon.UpdateWhereIdempotent | biz/dal/user_email_activate.go:71-77 | repeating a rewrite whose result stays matched and is a fixed point changes nothing more |
| DalCommon.First | biz/dal/habit.go:95-105 | `First` finds a matching row exactly when one exists |
| DalCommon.OpenWindow | biz/dal/habit_log_record.go:38-43 | with neither bound given, every instant lies in the window |
| DalCommon.Uint32Assigned | biz/dal/user_habit_config.go:39-57 | a column absent from the update map keeps its value, a present one takes the mapped value |
| DalCommon.TimeAssigned | biz/dal/user_habit_config.go:39-57 | the same rule for a time column |
| DalCommon.TextAssigned | biz/dal/user_habit_config.go:39-57 | the same rule for a text column |
| DalCommon.NewId | biz/dal/habit.go:86-92 | an insert with id 0 is given the next auto-increment id; an explicit id is kept unless a row already has it, which is a duplicate-key error |
| DalCommon.KeyedAppend | biz/dal/habit.go:86-92 | an insert with the id `NewId` grants keeps ids unique and below the counter |
| DalCommon.KeyedFirst | biz/dal/habit.go:95-105 | in a keyed table the lookup by id returns the one row with that id |
| DalCommon.KeyedWithout | biz/dal/habit.go:119-125 | deleting rows keeps the table keyed |
| DalCommon.KeyedWhere | biz/dal/habit.go:108-116 | a query's answer is keyed like the table |
| DalCommon.KeyedCons | biz/dal/habit.go:86-92 | a row with a fresh id below the counter may join a keyed table |
| DalCommon.KeyedUpdateWhere | biz/dal/user_email_activate.go:62-68 | a rewrite that keeps ids keeps the table keyed |
| DalCommon.Password.NewRaw | biz/dal/common.go:18-23 | `NewRawPassword` holds the given text, not hashed |
| DalCommon.Password.Scan | biz/dal/common.go:26-40 | nil changes nothing and is no error; bytes become the data and mark it hashed; any other value is "invalid type" and changes nothing |
| DalCommon.Password.Value | biz/dal/common.go:43-52 | a hashed password is written as it is, another one as bcrypt's result or bcrypt's error |
| DalCommon.Password.HashedValue | biz/dal/common.go:55-64 | a hashed password's data; otherwise bcrypt's hash, or "" when hashing fails |
| DalCommon.ScannedPasswordIsStable | biz/dal/common.go:34-51 | a password read back from the database is written back unchanged and never rehashed |
| DalHabit.HabitTable.constructor | biz/dal/habit.go:79-83 | an empty keyed habits table |
| DalHabit.HabitTable.Add | biz/dal/habit.go:86-92 | on success the habit, with its granted id, is appended and returned; a driver error or a duplicate id leaves the table unchanged and reports "add one habit fail" |
| DalHabit.HabitTable.GetByID | biz/dal/habit.go:95-105 | a habit with that id when one exists, `(nil, nil)` when none does, the driver's error otherwise |
| DalHabit.HabitTable.ListUserJoinedHabits | biz/dal/habit.go:108-116 | exactly the habits for which the user has a habit-group row, listed in insertion order |
| DalHabit.HabitTable.DeleteByID | biz/dal/habit.go:119-125 | removes exactly the rows with that id, after which the id is not found; group rows are another table and untouched |
| DalHabit.GetByIDFindsStored | biz/dal/habit.go:95-105 | a stored habit is what the lookup by its id returns |
| DalHabitGroup.HabitGroupTable.constructor | biz/dal/habit_group.go:15-19 | an empty habit-group table |
| DalHabitGroup.HabitGroupTable.Add | biz/dal/habit_group.go:22-28 | on success the row is appended; a driver error changes nothing |
| DalHabitGroup.HabitGroupTable.AddMulti | biz/dal/habit_group.go:31-37 | appends every given row in order; an empty batch is gorm's empty-slice error; a driver error changes nothing |
| DalHabitGroup.HabitGroupTable.GetByHabitIDAndUID | biz/dal/habit_group.go:39-49 | the membership row when the user belongs to the habit, `(nil, nil)` otherwise |
| DalHabitGroup.HabitGroupTable.GetByHabitIDAndExcludeUID | biz/dal/habit_group.go:51-61 | some row of the habit whose user differs from the given one when such a row exists, `(nil, nil)` otherwise |
| DalHabitGroup.HabitGroupTable.ListByHabitID | biz/dal/habit_group.go:64-71 | exactly the rows of that habit, listed in insertion order |
| DalHabitGroup.HabitGroupTable.ListByHabitIDs | biz/dal/habit_group.go:74-81 | exactly the rows whose habit is in the list, listed in insertion order |
| DalHabitGroup.HabitGroupTable.ListByUID | biz/dal/habit_group.go:84-91 | exactly the rows of that user, listed in insertion order |
| DalHabitGroup.HabitGroupTable.DeleteByHabitIDAndUID | biz/dal/habit_group.go:93-99 | removes exactly the rows matching both keys and keeps every other row |
| DalHabitGroup.HabitGroupTable.DeleteByHabitIDAndUIDs | biz/dal/habit_group.go:101-107 | removes exactly the rows of the habit whose user is in the list |
| DalHabitGroup.HabitGroupTable.DeleteByUID | biz/dal/habit_group.go:109-115 | removes every membership of the user, in every habit, and nothing else |
| DalUserHabitConfig.UserHabitConfigTable.constructor | biz/dal/user_habit_config.go:20-22 | an empty configuration table |
| DalUserHabitConfig.UserHabitConfigTable.Add | biz/dal/user_habit_config.go:24-30 | on success the configuration is appended; a driver error changes nothing |
| DalUserHabitConfig.UserHabitConfigTable.UpdatesOf | biz/dal/user_habit_config.go:40-52 | the update map is empty exactly when no field is supplied, and assigning it to a row writes exactly the supplied fields |
| DalUserHabitConfig.UserHabitConfigTable.Update | biz/dal/user_habit_config.go:39-62 | no supplied field is a successful no-op; otherwise exactly the row with that user and habit gets the supplied fields |
| DalUserHabitConfig.UserHabitConfigTable.UpdateMany | biz/dal/user_habit_config.go:64-87 | the same for the user's rows whose habit is in the list |
| DalUserHabitConfig.ManyWithOneIsOne | biz/dal/user_habit_config.go:39-87 | `UpdateMany` with one habit id rewrites the table as `Update` does |
| DalUserHabitConfig.BumpedAddsOne | biz/dal/user_habit_config.go:90-91 | the first statement adds exactly 1 to the current streak of every matching row and changes nothing else |
| DalUserHabitConfig.UserHabitConfigTable.IncreaseCurrentStreakByOne | biz/dal/user_habit_config.go:89-101 | the increment fails without change when a matching streak is already at the `uint32` maximum; otherwise it is applied. The follow-up statement sets the integer column to the string "current_streak", which MySQL in strict mode refuses with error 1366 whenever a matching row now beats its record: the call then reports "update longest streak fail" with the increment kept. Only when no row beats its record does the stamp statement run, and it changes no row. Each statement's failure is reported with its own message, and the earlier statements stay applied |
| DalUserHabitConfig.RejectedLiteralBreaksRecord | biz/dal/user_habit_config.go:95-96 | a concrete run: a row with both streaks at 0 ends the increment with current streak 1 and longest streak 0, so it beats its record and the literal update is refused |
| DalUserHabitConfig.UserHabitConfigTable.IncreaseCurrentStreakByOneIntended | biz/dal/user_habit_config.go:89-101 | the same increment, followed by a record update that copies the current streak into the longest one |
| DalUserHabitConfig.RecordedKeepsRecord | biz/dal/user_habit_config.go:95-96 | after the intended update every matching row's longest streak is at least its current streak, and other rows are untouched |
| DalUserHabitConfig.UserHabitConfigTable.GetByUIDAndHabitID | biz/dal/user_habit_config.go:103-113 | the user's configuration of that habit when it exists, `(nil, nil)` otherwise |
| DalUserHabitConfig.UserHabitConfigTable.ListUserHabitConfig | biz/dal/user_habit_config.go:115-122 | exactly the user's configurations of the listed habits |
| DalUserHabitConfig.UserHabitConfigTable.DeleteByHabitIDAndUID | biz/dal/user_habit_config.go:124-130 | removes exactly the rows matching both keys, after which none is found |
| DalHabitLogRecord.InsertAllAppends | biz/dal/habit_log_record.go:28-34 | a batch insert appends every record in order, each with its granted id, and keeps the table keyed |
| DalHabitLogRecord.HabitLogRecordTable.constructor | biz/dal/habit_log_record.go:16-18 | an empty keyed log table |
| DalHabitLogRecord.HabitLogRecordTable.Add | biz/dal/habit_log_record.go:20-26 | on success the record, with its granted id, is appended and returned; a driver error or a duplicate id changes nothing |
| DalHabitLogRecord.HabitLogRecordTable.AddMulti | biz/dal/habit_log_record.go:28-34 | the batch is inserted as one statement: all records with their ids, or none; the batch size of 10 plays no part |
| DalHabitLogRecord.HabitLogRecordTable.ListByUID | biz/dal/habit_log_record.go:36-50 | exactly the user's records with `from <= logAt <= to`, each bound applied only when given |
| DalHabitLogRecord.HabitLogRecordTable.ListByUIDHabitIDs | biz/dal/habit_log_record.go:52-67 | the same, restricted to the listed habits |
| DalHabitLogRecord.HabitLogRecordTable.DeleteByHabitIDAndUID | biz/dal/habit_log_record.go:69-75 | removes exactly the user's records of the habit and keeps every other record |
| DalHabitLogRecord.HabitLogRecordTable.DeleteByUID | biz/dal/habit_log_record.go:77-83 | removes exactly the user's records |
| DalUnconfirmedHabitLogRecord.UnconfirmedHabitLogRecordTable.constructor | biz/dal/unconfirmed_habit_log_record.go:9-13 | an empty keyed table, separate from the confirmed log |
| DalUnconfirmedHabitLogRecord.UnconfirmedHabitLogRecordTable.Add | biz/dal/unconfirmed_habit_log_record.go:15-21 | on success the record, with its granted id, is appended and returned; a failure changes nothing |
| DalUnconfirmedHabitLogRecord.UnconfirmedHabitLogRecordTable.ListByHabitID | biz/dal/unconfirmed_habit_log_record.go:23-38 | exactly the habit's records inside the optional inclusive window |
| DalUnconfirmedHabitLogRecord.UnconfirmedHabitLogRecordTable.ListByUIDHabitIDs | biz/dal/unconfirmed_habit_log_record.go:40-55 | exactly the user's records of the listed habits inside the window |
| DalUnconfirmedHabitLogRecord.UnconfirmedHabitLogRecordTable.DeleteByHabitIDAndUID | biz/dal/unconfirmed_habit_log_record.go:57-63 | removes exactly the user's records of the habit |
| DalUnconfirmedHabitLogRecord.UnconfirmedHabitLogRecordTable.DeleteByHabitID | biz/dal/unconfirmed_habit_log_record.go:65-80 | removes exactly the habit's records inside the window, all of them when no bound is given, and keeps its records outside the window |
| DalUnconfirmedHabitLogRecord.UnconfirmedHabitLogRecordTable.DeleteByUID | biz/dal/unconfirmed_habit_log_record.go:82-88 | removes exactly the user's records |
| DalUser.WithPortraitURL | biz/dal/user.go:33-39 | a user with a portrait key gets that key's URL; one without is returned unchanged |
| DalUser.WithPortraitURLs | biz/dal/user.go:85-93 | every user of a list is post-processed, in order |
| DalUser.UpdateStatement | biz/dal/user.go:121 | an `Updates` on the users table fails exactly when the map names a column the table does not have |
| DalUser.PassportIsUnknown | biz/dal/user.go:111-113 | an update map carrying the "passport" key is refused as an unknown column |
| DalUser.PasswordIsKnown | biz/dal/user.go:111-113 | under the key "password" the same update writes the password of the user's rows |
| DalUser.ColumnsOf | biz/dal/user.go:104-117 | the update map holds exactly the non-empty fields, under their column names, and is empty exactly when no field is supplied |
| DalUser.AssignIsPatch | biz/dal/user.go:104-121 | assigning the update map to a row writes exactly the supplied fields, so an empty field never clears a column |
| DalUser.UserTable.constructor | biz/dal/user.go:41-46 | an empty keyed users table |
| DalUser.UserTable.Add | biz/dal/user.go:48-55 | on success the user, with its granted id, is appended and returned with its portrait URL; a failure changes nothing |
| DalUser.UserTable.GetByUID | biz/dal/user.go:58-69 | a stored user with that uid, post-processed, when one exists; `(nil, nil)` otherwise |
| DalUser.UserTable.GetByEmail | biz/dal/user.go:71-82 | a stored user with that email, post-processed, when one exists; `(nil, nil)` otherwise |
| DalUser.UserTable.ListByUIDs | biz/dal/user.go:85-93 | exactly the stored users whose uid is in the list, post-processed, listed in insertion order |
| DalUser.UserTable.UpdateUser | biz/dal/user.go:103-126 | no field is a successful no-op; a password change always fails under the key "passport"; otherwise exactly the user's rows get the non-empty fields |
| DalUser.UserTable.UpdateUserIntended | biz/dal/user.go:103-126 | with the key "password", every supplied field, the password included, is written to exactly the user's rows |
| DalUserEmailActivate.ActivateIdempotent | biz/dal/user_email_activate.go:71-77 | activating twice is activating once |
| DalUserEmailActivate.UserEmailActivateTable.constructor | biz/dal/user_email_activate.go:18-25 | an empty keyed activation table |
| DalUserEmailActivate.UserEmailActivateTable.Add | biz/dal/user_email_activate.go:27-33 | on success the record, with its granted id, is appended and returned; a failure changes nothing |
| DalUserEmailActivate.UserEmailActivateTable.GetByUID | biz/dal/user_email_activate.go:36-46 | a record with that uid when one exists, `(nil, nil)` otherwise |
| DalUserEmailActivate.UserEmailActivateTable.GetByEmail | biz/dal/user_email_activate.go:49-59 | a record with that email when one exists, `(nil, nil)` otherwise |
| DalUserEmailActivate.UserEmailActivateTable.UpdateSendTime | biz/dal/user_email_activate.go:62-68 | only the send time of the record with that id changes |
| DalUserEmailActivate.UserEmailActivateTable.SetActivated | biz/dal/user_email_activate.go:71-77 | only the activated flag of the record with that id changes, to true; its failure carries the message "update send time fail" |
| DalUserEmailVerifyCode.UserEmailVerifyCodeTable.constructor | biz/dal/user_email_verify_code.go:11-18 | an empty verify-code table |
| DalUserEmailVerifyCode.UserEmailVerifyCodeTable.Add | biz/dal/user_email_verify_code.go:20-26 | on success the record is appended and its email is then found |
| DalUserEmailVerifyCode.UserEmailVerifyCodeTable.GetByEmail | biz/dal/user_email_verify_code.go:28-38 | a record with that email when one exists, `(nil, nil)` otherwise |
| DalUserEmailVerifyCode.UserEmailVerifyCodeTable.DeleteByEmail | biz/dal/user_email_verify_code.go:40-46 | removes every record with that email and keeps the others, after which the email is not found |
| Database.Store.Begin | biz/controller/helper.go:11 | a transaction starts from the current contents of every table |
| Database.Store.Rollback | biz/controller/helper.go:15 | rolling back restores every table, and its id counter, to the snapshot |
| ControllerHelper.EndTx | biz/controller/helper.go:9-20 | the operation's own error is returned, never another; on error the store is back at the transaction's start, on success the operation's writes stay |
| Services.Mailer.Send | biz/service/mail.go:45-51 | a delivered mail is appended to the outbox; a failed one leaves it as it was |
| Services.ObjectStore.PutObject | biz/service/object_storage.go:43-53 | a successful put stores the data under the key; a failure stores nothing |
| Services.VerifyUserToken | biz/handler/middleware.go:13-42 | a missing token, a token that does not verify and one without an id are `UserAuthFail` with their messages; otherwise the request's uid is the token's JWT id |
| HabitController.Present | biz/controller/habit.go:52 | a user list returned as a group holds every user, in order |
| HabitController.Ids | biz/controller/habit.go:102-105 | the ids of the joined habits, in order |
| HabitController.Uids | biz/controller/habit.go:74-80 | the uids of the group rows, in order |
| HabitController.GroupsFor | biz/controller/habit.go:35-41 | one group row per given uid, in order, all carrying the habit's id |
| HabitController.InsertHabitAndGroup | biz/controller/habit.go:27-46 | fewer users found than uids given is `InvalidParam` "has non-exist uid"; then the habit insert and the group insert may fail in turn (an empty uid list is the empty-batch error); on success the habit with its new id and one group row per uid are appended |
| HabitController.CommitListed | biz/controller/habit.go:22-52 | the transaction's outcome for a successful user listing: all writes or none, with the error of the first failing step |
| HabitController.AddHabit | biz/controller/habit.go:19-53 | a failed user listing is reported as success with an empty group while nothing is stored; otherwise all or nothing, as `CommitListed` states |
| HabitController.AddHabitLosesListError | biz/controller/habit.go:22-26 | a concrete run: the listing fails, the call succeeds and the habits table stays empty |
| HabitController.AddHabitIntended | biz/controller/habit.go:19-53 | the listing failure is returned as an error with nothing stored; a returned habit is stored |
| HabitController.DuplicateUidsRejected | biz/controller/habit.go:27-29 | when the uid list repeats a uid, fewer users are found than uids given, so the habit is refused |
| HabitController.DistinctWithinDuplicated | biz/controller/habit.go:27-29 | a list of distinct uids drawn from a list with a repeat is shorter than it |
| HabitController.UidsDistinctWhere | biz/controller/habit.go:27-29 | a query over users with distinct uids returns users with distinct uids |
| HabitController.DistinctCard | biz/controller/habit.go:27-29 | a repeat-free list has as many elements as it has distinct values |
| HabitController.DuplicateCard | biz/controller/habit.go:27-29 | a list with a repeat has fewer distinct values than elements |
| HabitController.MembersOf | biz/controller/habit.go:67-80 | the uids of a habit's group are exactly the users with a group row for it |
| HabitController.GroupMembers | biz/controller/habit.go:73-80 | the loop collects every group row's uid in order, and `inGroup` holds exactly when the caller is among them |
| HabitController.GetHabitByID | biz/controller/habit.go:57-91 | an unknown id is `InvalidParam` "habit id not exist"; a private habit whose group lacks the caller is `UserNoPermission` "habit is private" and a visible one is never refused; success returns the habit with its post-processed members; each lookup's failure is reported |
| HabitController.KeyedHabitIsUnique | biz/dal/habit.go:95-105 | at most one stored habit has a given id |
| HabitController.DeleteHabitByID | biz/controller/habit.go:160-172 | an unknown id panics, because the nil habit is dereferenced; only the creator can delete: for anyone else it is `UserNoPermission` and the table is unchanged; on success exactly the habit's rows are gone and no user lists it any more |
| HabitController.DeleteHabitByIDIntended | biz/controller/habit.go:160-172 | the same deletion, with an unknown id answered by `InvalidParam` "habit id not exist" and nothing changed |
| HabitController.Dedup | biz/controller/habit.go:114-123 | the distinct uids hold the same values as the list, each once |
| HabitController.FirstIndex | biz/controller/habit.go:118-123 | the first position of a uid |
| HabitController.DedupFirstOccurrence | biz/controller/habit.go:114-123 | the distinct uids are in order of first occurrence |
| HabitController.UserIndex | biz/controller/habit.go:137-140 | the map from uid to user is keyed exactly by the listed users' uids, and each entry is a listed user with that uid |
| HabitController.GroupUsers | biz/controller/habit.go:145-149 | one entry per uid of the habit's list, the mapped user or nil |
| HabitController.HabitIds | biz/controller/habit.go:102-105 | the loop collects the ids of the joined habits |
| HabitController.GroupIndex | biz/controller/habit.go:114-130 | the loop produces the distinct uids in first-occurrence order, and for every habit the uids of its group rows in row order |
| HabitController.DedupStep | biz/controller/habit.go:119-123 | one row adds its uid to the distinct list exactly when the uid is new |
| HabitController.IndexStep | biz/controller/habit.go:124-129 | one row appends its uid to its own habit's list and to no other |
| HabitController.MembersStep | biz/controller/habit.go:124-129 | a habit's member list grows only by rows of that habit |
| HabitController.IndexUsers | biz/controller/habit.go:137-140 | the loop builds the uid-to-user map |
| HabitController.Assemble | biz/controller/habit.go:143-154 | one entry per joined habit, in the order the habit query returned them, each with its group's users in the order the group query returned the rows |
| HabitController.JoinedMembers | biz/controller/habit.go:108-129 | a habit's list built from the rows of all joined habits is its own member list |
| HabitController.ListHabitsByUID | biz/controller/habit.go:94-156 | one entry per joined habit, in the order the habit query returned them, each holding the users of that habit's group rows in the order the group query returned them (the model's insertion order); the first failing query's error otherwise |
| HabitController.MemberIsListed | biz/controller/habit.go:114-133 | every member of a joined habit is among the uids whose users are fetched |
| HabitController.ListedUserFound | biz/controller/habit.go:133-148 | a fetched uid resolves to a user exactly when that user is stored, and to that user |
| HabitController.ListedMembersResolve | biz/controller/habit.go:133-148 | every member of a joined habit resolves to its stored user, or to nil when none is stored |
| UserController.MailError | biz/controller/user.go:96-127 | signing, filling the template and sending are tried in order; the first failure is a 9999 error with its own message and cause, and none means success |
| UserController.Execute | biz/controller/user.go:110-119 | executing a nil template panics; a template whose link field the filler lacks fails; the matching template fills |
| UserController.MailTemplates.constructor | biz/controller/user.go:25-28 | at start-up neither getter has run and both template variables are nil |
| UserController.MailTemplates.GetEmailActivateTemplate | biz/controller/user.go:80-85 | the first call loads the activation template into its variable; every call returns that variable, which is then set; the bind state is untouched |
| UserController.MailTemplates.GetEmailBindTemplate | biz/controller/user.go:88-93 | the first call loads the bind template into the activation variable; every call returns the bind variable, which keeps its old value |
| UserController.MailTemplates.GetEmailBindTemplateIntended | biz/controller/user.go:88-93 | the first call loads the bind template into the bind variable, and every call returns the bind template; the activation state is untouched |
| UserController.MailTemplates.IntendedValid | biz/controller/user.go:79-93 | when each getter loads its own variable, a loaded variable holds its own template, so an activation mail always fills |
| UserController.Deliver | biz/controller/user.go:122-126 | an SMTP failure is "send email fail" with nothing delivered; otherwise the mail is appended to the outbox |
| UserController.SendActivateEmail | biz/controller/user.go:96-127 | past signing the activation getter runs; the mail fills exactly when the template it returns is the activation one, and on success the activation mail carrying a ten-minute code for the uid is delivered; otherwise nothing is. The template the next activation mail uses does not change |
| UserController.SendEmailBindEmail | biz/controller/user.go:130-162 | a signing failure is reported with nothing changed. Past signing the bind getter runs, and its first run overwrites the activation variable; with the bind variable nil, its value at start-up and one no call assigns, the send panics and delivers nothing |
| UserController.SendEmailBindEmailIntended | biz/controller/user.go:130-162 | with the intended getter the bind template always fills: the bind mail carrying a ten-minute code for the uid and, as subject, the new email is delivered exactly when signing and SMTP succeed, and the activation state is untouched |
| UserController.BindSpoilsActivation | biz/controller/user.go:88-93 | a concrete run from start-up: an activation mail goes out, a bind mail then panics, and the next activation mail fails with "fill email activate template fail"; only the first mail is delivered |
| UserController.BindKeepsActivation | biz/controller/user.go:88-93 | the same run with the intended getter delivers all three mails, in order |
| UserController.EmailRegister | biz/controller/user.go:165-229 | a registered email is refused; a pending one sent less than a minute ago is throttled, otherwise its send time is reset and the mail resent under the original uid; a new email gets a pending record with a fresh uid, not activated, sent now. The mail fills only while the activation template is intact. Every failure leaves the tables and the outbox unchanged |
| UserController.AddPending | biz/controller/user.go:211-215 | the pending record is inserted with the next id, or nothing changes |
| UserController.ResendPending | biz/controller/user.go:186-190 | only the record's send time changes, or nothing does |
| UserController.MailAndEndTx | biz/controller/user.go:186-222 | the activation mail is attempted only when the transaction's write succeeded; the first failure is returned and rolls the store back to the snapshot, otherwise the write and the mail both stay |
| UserController.ResendActivation | biz/controller/user.go:186-200 | the resend transaction: both the new send time and the mail, returning the original uid, or neither |
| UserController.StartActivation | biz/controller/user.go:201-228 | the register transaction: both the pending record and the mail, returning the fresh uid, or neither |
| UserController.PendingActivation | biz/controller/user.go:234-251 | an undecodable code, a lookup failure, a uid without a record and an activated record are refused, with their messages; otherwise the caller gets the pending, not yet activated record of the code's uid |
| UserController.CommitActivation | biz/controller/user.go:256-290 | the record is activated, the user added and the token signed, all or nothing |
| UserController.EmailActivate | biz/controller/user.go:232-291 | a refused code changes nothing; otherwise the user with the record's uid, email and password, register type "email" and no name or portrait is created and returned with a token whose id is a fresh uuid |
| UserController.UserTokenNamesRandomID | biz/controller/user.go:276-279 | the middleware takes that token's random id for the uid, which is not the user's |
| UserController.EmailActivateIntended | biz/controller/user.go:232-291 | the same activation, with the token naming the new user's uid |
| UserController.UserTokenNamesUser | biz/handler/middleware.go:34-40 | a token naming the user is read back by the middleware as that user |
| UserController.StartEmailBinding | biz/controller/user.go:294-315 | a lookup failure, a missing user and an email equal to the bound one are reported with nothing changed; otherwise the bind mail is sent as `SendEmailBindEmail` states, so past signing it panics while the bind variable is nil |
| UserController.StartEmailBindingIntended | biz/controller/user.go:294-315 | the same checks, then the intended bind mail: it is delivered exactly when signing and SMTP succeed |
| UserController.ConfirmBindEmail | biz/controller/user.go:318-336 | an undecodable code is refused; an empty subject changes nothing; otherwise the uid's rows get the subject as email |
| UserController.ReturnedUserIsStored | biz/controller/user.go:356-383 | the user returned by `UpdateUserBaseInfo` is the stored row as a fresh read would show it |
| UserController.PatchNothing | biz/dal/user.go:118-120 | an update without fields leaves every row as it is |
| UserController.PrepareBaseInfo | biz/controller/user.go:356-383 | a portrait above 10 MiB, one that cannot be opened or read and one of unknown format are refused with their messages, in that order; otherwise the updates carry the name and the key `portrait/<uid>.<format>`, and the returned user shows them |
| UserController.CommitBaseInfo | biz/controller/user.go:385-398 | the update and the portrait upload happen together or not at all, with the first failure reported |
| UserController.UpdateUserBaseInfo | biz/controller/user.go:345-404 | an unknown uid is `InvalidParam`; succeeds exactly when the portrait is accepted and the writes succeed, and then the name is changed only when non-empty, the portrait stored under its key and the updated user returned; every failure leaves the tables and the object store unchanged |
| Database.Store.constructor | biz/controller/helper.go:9-11 | a fresh store holds empty tables with every auto-increment counter at 1 |
| Services.Mailer.constructor | biz/service/mail.go:45-51 | a fresh mailer has sent nothing |
| Services.ObjectStore.constructor | biz/service/object_storage.go:43-53 | a fresh object store holds no object |
| Strconv.ScanUint | nullable/null_uint8.go:67 | an accepted digit run never exceeds the bound it is scanned against |
| Nullable.NullString.constructor | nullable/null_string.go:9-12 | the zero value `NullString{}` is null and holds "" |
| Nullable.NullString.New | nullable/null_string.go:15-22 | `NewNullString` and `MakeNullString` build a non-null cell holding the given value |
| Nullable.NullString.Null | nullable/null_string.go:25-27 | `Null` holds exactly when the non-null flag is clear |
| Nullable.NullString.NotNull | nullable/null_string.go:30-32 | `NotNull` is the negation of `Null` |
| Nullable.NullString.Set | nullable/null_string.go:40-43 | after `Set(v)` the cell is non-null and `Get` returns `v` |
| Nullable.NullString.SetNull | nullable/null_string.go:46-49 | after `SetNull` the cell is null and `Get` returns "" |
| Nullable.NullString.UnmarshalString | nullable/null_string.go:52-62 | never fails: the cell becomes non-null and holds `Unquote(str)`, the input with one surrounding pair of double quotes removed when it has them |
| Nullable.NullString.Scan | nullable/null_string.go:65-77 | nil makes the cell null holding ""; bytes behave as `UnmarshalString` of their text; any other value is a scan error and leaves both fields unchanged |
| Nullable.NullString.Value | nullable/null_string.go:80-85 | nil exactly when the cell is null, otherwise the stored string |
| Nullable.NullString.UnmarshalJSON | nullable/null_string.go:96-104 | empty input or `null` makes the cell null holding "" without error; any other input makes it non-null before decoding, so a decoder failure returns a JSON error with the cell non-null and its old value kept |
| Nullable.NullBool.constructor | nullable/null_bool.go:10-13 | the zero value `NullBool{}` is null and holds false |
| Nullable.NullBool.New | nullable/null_bool.go:16-26 | `NewNullBool` and `MakeNullBool` build a non-null cell holding the given value |
| Nullable.NullBool.FromString | nullable/null_bool.go:29-36 | when `Strconv.ParseBool` accepts the text, a fresh non-null cell holding the parsed value and no error; otherwise no cell and the parse error |
| Nullable.NullBool.Null | nullable/null_bool.go:39-41 | `Null` holds exactly when the non-null flag is clear |
| Nullable.NullBool.NotNull | nullable/null_bool.go:44-46 | `NotNull` is the negation of `Null` |
| Nullable.NullBool.Set | nullable/null_bool.go:54-57 | after `Set(v)` the cell is non-null and `Get` returns `v` |
| Nullable.NullBool.SetNull | nullable/null_bool.go:60-63 | after `SetNull` the cell is null and `Get` returns false |
| Nullable.NullBool.UnmarshalString | nullable/null_bool.go:66-74 | stores `ParseBool`'s result and sets non-null when the text is one of the twelve accepted tokens; otherwise returns the parse error and leaves both fields unchanged |
| Nullable.NullBool.Scan | nullable/null_bool.go:77-94 | nil makes the cell null holding false; an `int64` makes it non-null, true exactly when the integer is 1; bytes behave as `UnmarshalString` of their text; any other value is a scan error and leaves both fields unchanged |
| Nullable.NullBool.Value | nullable/null_bool.go:97-102 | nil exactly when the cell is null, otherwise the stored boolean |
| Nullable.NullBool.UnmarshalJSON | nullable/null_bool.go:113-122 | empty input or `null` makes the cell null holding false without error; any other input makes it non-null before decoding, so a decoder failure returns a JSON error with the cell non-null and its old value kept |
| Nullable.ParseNativeInt | nullable/null_int.go:67 | `strconv.ParseInt(str, 10, …)` converted to `int` accepts exactly the optionally signed base-10 literals whose value lies in [-2^63, 2^63-1] (`strconv.IntSize` taken as 64), and returns that value |
| Nullable.NullInt.constructor | nullable/null_int.go:10-13 | the zero value `NullInt{}` is null and holds 0 |
| Nullable.NullInt.New | nullable/null_int.go:16-26 | `NewNullInt` and `MakeNullInt` build a non-null cell holding the given value |
| Nullable.NullInt.FromString | nullable/null_int.go:29-36 | when `ParseNativeInt` accepts the text, a fresh non-null cell holding the parsed value and no error; otherwise no cell and the parse error |
| Nullable.NullInt.Null | nullable/null_int.go:39-41 | `Null` holds exactly when the non-null flag is clear |
| Nullable.NullInt.NotNull | nullable/null_int.go:44-46 | `NotNull` is the negation of `Null` |
| Nullable.NullInt.Set | nullable/null_int.go:54-57 | after `Set(v)` the cell is non-null and `Get` returns `v` |
| Nullable.NullInt.SetNull | nullable/null_int.go:60-63 | after `SetNull` the cell is null and `Get` returns 0 |
| Nullable.NullInt.UnmarshalString | nullable/null_int.go:66-74 | succeeds exactly when `ParseNativeInt` accepts the text, storing the value and setting non-null; on failure returns the parse error and leaves both fields unchanged |
| Nullable.NullInt.Scan | nullable/null_int.go:77-88 | nil makes the cell null holding 0; bytes behave as `UnmarshalString` of their text; any other value is a scan error naming the type "NullInt" and leaves both fields unchanged |
| Nullable.NullInt.Value | nullable/null_int.go:91-96 | nil exactly when the cell is null, otherwise the value widened to `int64` |
| Nullable.NullInt.UnmarshalJSON | nullable/null_int.go:107-116 | empty input or `null` makes the cell null holding 0 without error; any other input makes it non-null before decoding, so a decoder failure returns a JSON error with the cell non-null and its old value kept |
| Nullable.ParseInt8 | nullable/null_int8.go:67 | `strconv.ParseInt(str, 10, …)` converted to `int8` accepts exactly the optionally signed base-10 literals whose value lies in [-128, 127], and returns that value |
| Nullable.NullInt8.constructor | nullable/null_int8.go:10-13 | the zero value `NullInt8{}` is null and holds 0 |
| Nullable.NullInt8.New | nullable/null_int8.go:16-26 | `NewNullInt8` and `MakeNullInt8` build a non-null cell holding the given value |
| Nullable.NullInt8.FromString | nullable/null_int8.go:29-36 | when `ParseInt8` accepts the text, a fresh non-null cell holding the parsed value and no error; otherwise no cell and the parse error |
| Nullable.NullInt8.Null | nullable/null_int8.go:39-41 | `Null` holds exactly when the non-null flag is clear |
| Nullable.NullInt8.NotNull | nullable/null_int8.go:44-46 | `NotNull` is the negation of `Null` |
| Nullable.NullInt8.Set | nullable/null_int8.go:54-57 | after `Set(v)` the cell is non-null and `Get` returns `v` |
| Nullable.NullInt8.SetNull | nullable/null_int8.go:60-63 | after `SetNull` the cell is null and `Get` returns 0 |
| Nullable.NullInt8.UnmarshalString | nullable/null_int8.go:66-74 | succeeds exactly when `ParseInt8` accepts the text, storing the value and setting non-null; on failure returns the parse error and leaves both fields unchanged |
| Nullable.NullInt8.Scan | nullable/null_int8.go:77-88 | nil makes the cell null holding 0; bytes behave as `UnmarshalString` of their text; any other value is a scan error naming the type "NullInt" and leaves both fields unchanged |
| Nullable.NullInt8.Value | nullable/null_int8.go:91-96 | nil exactly when the cell is null, otherwise the value widened to `int64` |
| Nullable.NullInt8.UnmarshalJSON | nullable/null_int8.go:107-115 | empty input or `null` makes the cell null holding 0 without error; any other input makes it non-null before decoding, so a decoder failure returns a JSON error with the cell non-null and its old value kept |
| Nullable.ParseInt16 | nullable/null_int16.go:67 | `strconv.ParseInt(str, 10, …)` converted to `int16` accepts exactly the optionally signed base-10 literals whose value lies in [-32768, 32767], and returns that value |
| Nullable.NullInt16.constructor | nullable/null_int16.go:10-13 | the zero value `NullInt16{}` is null and holds 0 |
| Nullable.NullInt16.New | nullable/null_int16.go:16-26 | `NewNullInt16` and `MakeNullInt16` build a non-null cell holding the given value |
| Nullable.NullInt16.FromString | nullable/null_int16.go:29-36 | when `ParseInt16` accepts the text, a fresh non-null cell holding the parsed value and no error; otherwise no cell and the parse error |
| Nullable.NullInt16.Null | nullable/null_int16.go:39-41 | `Null` holds exactly when the non-null flag is clear |
| Nullable.NullInt16.NotNull | nullable/null_int16.go:44-46 | `NotNull` is the negation of `Null` |
| Nullable.NullInt16.Set | nullable/null_int16.go:54-57 | after `Set(v)` the cell is non-null and `Get` returns `v` |
| Nullable.NullInt16.SetNull | nullable/null_int16.go:60-63 | after `SetNull` the cell is null and `Get` returns 0 |
| Nullable.NullInt16.UnmarshalString | nullable/null_int16.go:66-74 | succeeds exactly when `ParseInt16` accepts the text, storing the value and setting non-null; on failure returns the parse error and leaves both fields unchanged |
| Nullable.NullInt16.Scan | nullable/null_int16.go:77-88 | nil makes the cell null holding 0; bytes behave as `UnmarshalString` of their text; any other value is a scan error naming the type "NullInt" and leaves both fields unchanged |
| Nullable.NullInt16.Value | nullable/null_int16.go:91-96 | nil exactly when the cell is null, otherwise the value widened to `int64` |
| Nullable.NullInt16.UnmarshalJSON | nullable/null_int16.go:107-115 | empty input or `null` makes the cell null holding 0 without error; any other input makes it non-null before decoding, so a decoder failure returns a JSON error with the cell non-null and its old value kept |
| Nullable.ParseInt32 | nullable/null_int32.go:67 | `strconv.ParseInt(str, 10, …)` converted to `int32` accepts exactly the optionally signed base-10 literals whose value lies in [-2^31, 2^31-1], and returns that value |
| Nullable.NullInt32.constructor | nullable/null_int32.go:10-13 | the zero value `NullInt32{}` is null and holds 0 |
| Nullable.NullInt32.New | nullable/null_int32.go:16-26 | `NewNullInt32` and `MakeNullInt32` build a non-null cell holding the given value |
| Nullable.NullInt32.FromString | nullable/null_int32.go:29-36 | when `ParseInt32` accepts the text, a fresh non-null cell holding the parsed value and no error; otherwise no cell and the parse error |
| Nullable.NullInt32.Null | nullable/null_int32.go:39-41 | `Null` holds exactly when the non-null flag is clear |
| Nullable.NullInt32.NotNull | nullable/null_int32.go:44-46 | `NotNull` is the negation of `Null` |
| Nullable.NullInt32.Set | nullable/null_int32.go:54-57 | after `Set(v)` the cell is non-null and `Get` returns `v` |
| Nullable.NullInt32.SetNull | nullable/null_int32.go:60-63 | after `SetNull` the cell is null and `Get` returns 0 |
| Nullable.NullInt32.UnmarshalString | nullable/null_int32.go:66-74 | succeeds exactly when `ParseInt32` accepts the text, storing the value and setting non-null; on failure returns the parse error and leaves both fields unchanged |
| Nullable.NullInt32.Scan | nullable/null_int32.go:77-88 | nil makes the cell null holding 0; bytes behave as `UnmarshalString` of their text; any other value is a scan error naming the type "NullInt" and leaves both fields unchanged |
| Nullable.NullInt32.Value | nullable/null_int32.go:91-96 | nil exactly when the cell is null, otherwise the value widened to `int64` |
| Nullable.NullInt32.UnmarshalJSON | nullable/null_int32.go:107-115 | empty input or `null` makes the cell null holding 0 without error; any other input makes it non-null before decoding, so a decoder failure returns a JSON error with the cell non-null and its old value kept |
| Nullable.ParseInt64 | nullable/null_int64.go:67 | `strconv.ParseInt(str, 10, …)` converted to `int64` accepts exactly the optionally signed base-10 literals whose value lies in [-2^63, 2^63-1], and returns that value |
| Nullable.NullInt64.constructor | nullable/null_int64.go:10-13 | the zero value `NullInt64{}` is null and holds 0 |
| Nullable.NullInt64.New | nullable/null_int64.go:16-26 | `NewNullInt64` and `MakeNullInt64` build a non-null cell holding the given value |
| Nullable.NullInt64.FromString | nullable/null_int64.go:29-36 | when `ParseInt64` accepts the text, a fresh non-null cell holding the parsed value and no error; otherwise no cell and the parse error |
| Nullable.NullInt64.Null | nullable/null_int64.go:39-41 | `Null` holds exactly when the non-null flag is clear |
| Nullable.NullInt64.NotNull | nullable/null_int64.go:44-46 | `NotNull` is the negation of `Null` |
| Nullable.NullInt64.Set | nullable/null_int64.go:54-57 | after `Set(v)` the cell is non-null and `Get` returns `v` |
| Nullable.NullInt64.SetNull | nullable/null_int64.go:60-63 | after `SetNull` the cell is null and `Get` returns 0 |
| Nullable.NullInt64.UnmarshalString | nullable/null_int64.go:66-74 | succeeds exactly when `ParseInt64` accepts the text, storing the value and setting non-null; on failure returns the parse error and leaves both fields unchanged |
| Nullable.NullInt64.Scan | nullable/null_int64.go:77-88 | nil makes the cell null holding 0; bytes behave as `UnmarshalString` of their text; any other value is a scan error naming the type "NullInt" and leaves both fields unchanged |
| Nullable.NullInt64.Value | nullable/null_int64.go:91-96 | nil exactly when the cell is null, otherwise the value itself as `int64` |
| Nullable.NullInt64.UnmarshalJSON | nullable/null_int64.go:107-115 | empty input or `null` makes the cell null holding 0 without error; any other input makes it non-null before decoding, so a decoder failure returns a JSON error with the cell non-null and its old value kept |
| Nullable.ParseNativeUint | nullable/null_uint.go:67 | `strconv.ParseUint(str, 10, …)` converted to `uint` accepts exactly the unsigned base-10 literals whose value lies in [0, 2^64-1] (`strconv.IntSize` taken as 64), and returns that value |
| Nullable.NullUint.constructor | nullable/null_uint.go:10-13 | the zero value `NullUint{}` is null and holds 0 |
| Nullable.NullUint.New | nullable/null_uint.go:16-26 | `NewNullUint` and `MakeNullUint` build a non-null cell holding the given value |
| Nullable.NullUint.FromString | nullable/null_uint.go:29-36 | when `ParseNativeUint` accepts the text, a fresh non-null cell holding the parsed value and no error; otherwise no cell and the parse error |
| Nullable.NullUint.Null | nullable/null_uint.go:39-41 | `Null` holds exactly when the non-null flag is clear |
| Nullable.NullUint.NotNull | nullable/null_uint.go:44-46 | `NotNull` is the negation of `Null` |
| Nullable.NullUint.Set | nullable/null_uint.go:54-57 | after `Set(v)` the cell is non-null and `Get` returns `v` |
| Nullable.NullUint.SetNull | nullable/null_uint.go:60-63 | after `SetNull` the cell is null and `Get` returns 0 |
| Nullable.NullUint.UnmarshalString | nullable/null_uint.go:66-74 | succeeds exactly when `ParseNativeUint` accepts the text, storing the value and setting non-null; on failure returns the parse error and leaves both fields unchanged |
| Nullable.NullUint.Scan | nullable/null_uint.go:77-88 | nil makes the cell null holding 0; bytes behave as `UnmarshalString` of their text; any other value is a scan error naming the type "NullInt" and leaves both fields unchanged |
| Nullable.NullUint.Value | nullable/null_uint.go:91-96 | nil exactly when the cell is null, otherwise the value widened to `uint64` |
| Nullable.NullUint.UnmarshalJSON | nullable/null_uint.go:107-115 | empty input or `null` makes the cell null holding 0 without error; any other input makes it non-null before decoding, so a decoder failure returns a JSON error with the cell non-null and its old value kept |
| Nullable.ParseUint8 | nullable/null_uint8.go:67 | `strconv.ParseUint(str, 10, …)` converted to `uint8` accepts exactly the unsigned base-10 literals whose value lies in [0, 255], and returns that value |
| Nullable.NullUint8.constructor | nullable/null_uint8.go:10-13 | the zero value `NullUint8{}` is null and holds 0 |
| Nullable.NullUint8.New | nullable/null_uint8.go:16-26 | `NewNullUint8` and `MakeNullUint8` build a non-null cell holding the given value |
| Nullable.NullUint8.FromString | nullable/null_uint8.go:29-36 | when `ParseUint8` accepts the text, a fresh non-null cell holding the parsed value and no error; otherwise no cell and the parse error |
| Nullable.NullUint8.Null | nullable/null_uint8.go:39-41 | `Null` holds exactly when the non-null flag is clear |
| Nullable.NullUint8.NotNull | nullable/null_uint8.go:44-46 | `NotNull` is the negation of `Null` |
| Nullable.NullUint8.Set | nullable/null_uint8.go:54-57 | after `Set(v)` the cell is non-null and `Get` returns `v` |
| Nullable.NullUint8.SetNull | nullable/null_uint8.go:60-63 | after `SetNull` the cell is null and `Get` returns 0 |
| Nullable.NullUint8.UnmarshalString | nullable/null_uint8.go:66-74 | succeeds exactly when `ParseUint8` accepts the text, storing the value and setting non-null; on failure returns the parse error and leaves both fields unchanged |
| Nullable.NullUint8.Scan | nullable/null_uint8.go:77-88 | nil makes the cell null holding 0; bytes behave as `UnmarshalString` of their text; any other value is a scan error naming the type "NullInt" and leaves both fields unchanged |
| Nullable.NullUint8.Value | nullable/null_uint8.go:91-96 | nil exactly when the cell is null, otherwise the value widened to `uint64` |
| Nullable.NullUint8.UnmarshalJSON | nullable/null_uint8.go:107-115 | empty input or `null` makes the cell null holding 0 without error; any other input makes it non-null before decoding, so a decoder failure returns a JSON error with the cell non-null and its old value kept |
| Nullable.ParseUint16 | nullable/null_uint16.go:67 | `strconv.ParseUint(str, 10, …)` converted to `uint16` accepts exactly the unsigned base-10 literals whose value lies in [0, 65535], and returns that value |
| Nullable.NullUint16.constructor | nullable/null_uint16.go:10-13 | the zero value `NullUint16{}` is null and holds 0 |
| Nullable.NullUint16.New | nullable/null_uint16.go:16-26 | `NewNullUint16` and `MakeNullUint16` build a non-null cell holding the given value |
| Nullable.NullUint16.FromString | nullable/null_uint16.go:29-36 | when `ParseUint16` accepts the text, a fresh non-null cell holding the parsed value and no error; otherwise no cell and the parse error |
| Nullable.NullUint16.Null | nullable/null_uint16.go:39-41 | `Null` holds exactly when the non-null flag is clear |
| Nullable.NullUint16.NotNull | nullable/null_uint16.go:44-46 | `NotNull` is the negation of `Null` |
| Nullable.NullUint16.Set | nullable/null_uint16.go:54-57 | after `Set(v)` the cell is non-null and `Get` returns `v` |
| Nullable.NullUint16.SetNull | nullable/null_uint16.go:60-63 | after `SetNull` the cell is null and `Get` returns 0 |
| Nullable.NullUint16.UnmarshalString | nullable/null_uint16.go:66-74 | succeeds exactly when `ParseUint16` accepts the text, storing the value and setting non-null; on failure returns the parse error and leaves both fields unchanged |
| Nullable.NullUint16.Scan | nullable/null_uint16.go:77-88 | nil makes the cell null holding 0; bytes behave as `UnmarshalString` of their text; any other value is a scan error naming the type "NullInt" and leaves both fields unchanged |
| Nullable.NullUint16.Value | nullable/null_uint16.go:91-96 | nil exactly when the cell is null, otherwise the value widened to `uint64` |
| Nullable.NullUint16.UnmarshalJSON | nullable/null_uint16.go:107-115 | empty input or `null` makes the cell null holding 0 without error; any other input makes it non-null before decoding, so a decoder failure returns a JSON error with the cell non-null and its old value kept |
| Nullable.ParseUint32 | nullable/null_uint32.go:66 | `strconv.ParseUint(str, 10, …)` converted to `uint32` accepts exactly the unsigned base-10 literals whose value lies in [0, 2^32-1], and returns that value |
| Nullable.NullUint32.constructor | nullable/null_uint32.go:10-13 | the zero value `NullUint32{}` is null and holds 0 |
| Nullable.NullUint32.New | nullable/null_uint32.go:16-26 | `NewNullUint32` and `MakeNullUint32` build a non-null cell holding the given value |
| Nullable.NullUint32.FromString | nullable/null_uint32.go:28-35 | when `ParseUint32` accepts the text, a fresh non-null cell holding the parsed value and no error; otherwise no cell and the parse error |
| Nullable.NullUint32.Null | nullable/null_uint32.go:38-40 | `Null` holds exactly when the non-null flag is clear |
| Nullable.NullUint32.NotNull | nullable/null_uint32.go:43-45 | `NotNull` is the negation of `Null` |
| Nullable.NullUint32.Set | nullable/null_uint32.go:53-56 | after `Set(v)` the cell is non-null and `Get` returns `v` |
| Nullable.NullUint32.SetNull | nullable/null_uint32.go:59-62 | after `SetNull` the cell is null and `Get` returns 0 |
| Nullable.NullUint32.UnmarshalString | nullable/null_uint32.go:65-73 | succeeds exactly when `ParseUint32` accepts the text, storing the value and setting non-null; on failure returns the parse error and leaves both fields unchanged |
| Nullable.NullUint32.Scan | nullable/null_uint32.go:76-87 | nil makes the cell null holding 0; bytes behave as `UnmarshalString` of their text; any other value is a scan error naming the type "NullInt" and leaves both fields unchanged |
| Nullable.NullUint32.Value | nullable/null_uint32.go:90-95 | nil exactly when the cell is null, otherwise the value widened to `uint64` |
| Nullable.NullUint32.UnmarshalJSON | nullable/null_uint32.go:106-114 | empty input or `null` makes the cell null holding 0 without error; any other input makes it non-null before decoding, so a decoder failure returns a JSON error with the cell non-null and its old value kept |
| Nullable.ParseUint64 | nullable/null_uint64.go:67 | `strconv.ParseUint(str, 10, …)` converted to `uint64` accepts exactly the unsigned base-10 literals whose value lies in [0, 2^64-1], and returns that value |
| Nullable.NullUint64.constructor | nullable/null_uint64.go:10-13 | the zero value `NullUint64{}` is null and holds 0 |
| Nullable.NullUint64.New | nullable/null_uint64.go:16-26 | `NewNullUint64` and `MakeNullUint64` build a non-null cell holding the given value |
| Nullable.NullUint64.FromString | nullable/null_uint64.go:29-36 | when `ParseUint64` accepts the text, a fresh non-null cell holding the parsed value and no error; otherwise no cell and the parse error |
| Nullable.NullUint64.Null | nullable/null_uint64.go:39-41 | `Null` holds exactly when the non-null flag is clear |
| Nullable.NullUint64.NotNull | nullable/null_uint64.go:44-46 | `NotNull` is the negation of `Null` |
| Nullable.NullUint64.Set | nullable/null_uint64.go:54-57 | after `Set(v)` the cell is non-null and `Get` returns `v` |
| Nullable.NullUint64.SetNull | nullable/null_uint64.go:60-63 | after `SetNull` the cell is null and `Get` returns 0 |
| Nullable.NullUint64.UnmarshalString | nullable/null_uint64.go:66-74 | succeeds exactly when `ParseUint64` accepts the text, storing the value and setting non-null; on failure returns the parse error and leaves both fields unchanged |
| Nullable.NullUint64.Scan | nullable/null_uint64.go:77-88 | nil makes the cell null holding 0; bytes behave as `UnmarshalString` of their text; any other value is a scan error naming the type "NullInt" and leaves both fields unchanged |
| Nullable.NullUint64.Value | nullable/null_uint64.go:91-96 | nil exactly when the cell is null, otherwise the value itself as `uint64` |
| Nullable.NullUint64.UnmarshalJSON | nullable/null_uint64.go:107-115 | empty input or `null` makes the cell null holding 0 without error; any other input makes it non-null before decoding, so a decoder failure returns a JSON error with the cell non-null and its old value kept |

The three check predicates of `biz/dal/habit.go:21-65` (`DalHabit.CheckTypeIsValid`, `DalHabit.FrequencyIsValid`, `DalHabit.PublicLevelIsValid`) accept exactly the named constants. They are what `Handler.ValidateCreateHabit` states its result in terms of.

Some behaviour of the source is kept as it is written:
- `SetActivated` reports its failure as "update send time fail".
- `AddHabit` with no uids fails with gorm's empty-slice error, raised by the batch insert of the groups.
- The page-size check's message says "less than 100", yet a page size of 100 is accepted.
- A negative portrait size passes the handler's check.
- `DeleteHabitByID` leaves the habit's group rows in place.

## Left out

- `nullable/null_float.go`: floating point is not modelled.
- The message formatting of `nullable/null_base.go`: errors are modelled by kind and cause, not by their text.
- `MarshalJSON` of every nullable type, and the workings of `encoding/json`: JSON decoding is a function passed in, and JSON output is not modelled.
- The text returned by `Error()` and `CodeLine()` on a service error, and `getCodeLine`: the source file and line of a call are runtime information. The accessors are the datatype's fields.
- `ReturnWithLog` and `Abort` in the handlers: logging and writing the HTTP body are I/O.
- JWT signing and parsing: tokens are modelled by their claims, and signing a code is an outcome parameter.
- SMTP delivery and the text of the templates: a send is an outcome parameter, and a delivered mail is appended to an outbox. The template variables and their `sync.Once` guards are modelled by `MailTemplates`, with each template reduced to its kind.
- UserController.Execute: the error of a failed fill is a fixed stand-in, not Go's message naming the missing field and the filler's type.
- What the server answers after a controller panics: the recovery middleware is not part of this model, so a panic is the `Panicked` outcome.
- Presigned URLs and how `ObjectKeyToURL` builds a URL: `postProcessUserField` applies a `keyToURL` function.
- `ObjectKeyToURL` returns two values (biz/service/object_storage.go:55-65), but biz/dal/user.go:36 and biz/controller/user.go:382 both use it as one. The model takes the URL.
- The portrait as a byte reader: `Upload` records its declared size, whether it can be opened, and what reading it gives.
- Image format sniffing (`util/image.go`): a function passed in, whose empty answer stands for an unknown format.
- The email verifier's network probe: its result is a `Verification` record passed in.
- Configuration, the database connection and the timer: the clock is a parameter.
- `GenerateVerifyCode`: seeding `math/rand` from the clock is left out, and the draws are a parameter.
- `biz/dal/habit_check_record.go`, the helpers of `util/` that return addresses of values, and the test files are not part of this model.
- The handler bodies, routing, cookies, `GenerateUserToken` and `ExtractUserToken`: only the handlers' request checks are modelled.
- The handler's one-week token expiry (biz/handler/helper.go:47) against the controller's 72 hours (biz/controller/user.go:65): neither clock is modelled past the claims.
- The repository imports its own packages under two module paths. This is a build matter with no counterpart here.
- The handlers call `AddHabit` and `ListHabitsByUID` with arguments that do not match the controllers (biz/handler/habit.go:81 and 129). The model follows the controllers.
- `HabitCheckDeadlineDelay` and its check are not defined in the source. `Handler.ValidateCreateHabit` takes the deadline check as a predicate parameter.
- bcrypt is a function passed in. The hashing that gorm triggers during `UserTable.Add` is folded into that statement's `dbErr`.
- The users table's uid is not a unique key in the source, so the model does not require one.
- Mail is not part of the transaction. In every transaction of the source the mail is the last step, so in the model a sent mail is always followed by a commit. Only a commit failure, which the model does not capture, could leave a sent mail without its writes.
- Database.Store.Rollback: restores the auto-increment counters together with the rows. InnoDB does not: the ids handed out inside a rolled-back transaction stay used, so the next insert after a rollback may get a higher id than the model gives.
- ControllerHelper.EndTx: a commit that fails after the operation succeeded is not modelled. biz/controller/helper.go:18 discards the error of `tx.Commit()`, so the source then returns nil while the writes are lost; the model keeps the writes.
- The database schema is assumed, since none is in the source. biz/dal/habit.go:110 queries the table `habit_group`, while gorm names the table of `HabitGroup` `habit_groups`; the model treats them as one table.
- MySQL runs in strict SQL mode, its default. An integer column given a string that is not a number is an error (1366), not a coerced 0.
- `GetDBExecutor` (biz/service/db.go:23-24) cancels its context before it returns it, so the driver would refuse every statement. The model leaves this to each statement's `dbErr` parameter.
- Concurrency: every operation runs alone over the store.
- DalCommon.Where: a SELECT without ORDER BY has no promised row order in MySQL, and no `Find` of the source has an ORDER BY. The model returns rows in insertion order. The positional parts of `DalUser.UserTable.ListByUIDs`, `HabitController.Assemble` and `HabitController.ListHabitsByUID` (the entries in that order) hold only under that choice. Their order-free parts, stated with `Selects` and by `HabitController.MemberIsListed`, `HabitController.ListedUserFound` and `HabitController.ListedMembersResolve`, hold whatever order MySQL returns.
- DalHabit.HabitTable.GetByID, DalUser.UserTable.GetByUID and the other lookups: when several rows match, the model says only that the one returned matches and is stored, not which row gorm's `First` picks under its primary-key order.
- HabitController.DeleteHabitByID: the "format" placeholder in the message at biz/controller/habit.go:168 is kept as literal text.
- UserController.UpdateUserBaseInfo: its own contract states the failure codes, and the detailed portrait errors are stated only through `UserController.PrepareBaseInfo`.
- DalCommon.Password.Scan: a nil receiver is not modelled, because a Dafny object is never null.
- DalHabitLogRecord.HabitLogRecordTable.AddMulti: the batch size of 10 is not modelled. gorm's `CreateInBatches` runs a batch larger than 10 inside its own transaction, so the insert is all or nothing either way, which is what the model states.

## Findings

| source | as written | input that shows it | evidently intended | confidence | as-written member | corrected member |
|---|---|---|---|---|---|---|
| biz/dal/user.go:111-113 | a new password is put in the update map under the key "passport", which is not a column of the users table | any `UpdateUser` whose password field is non-empty: MySQL rejects the statement as naming an unknown column | the key "password" | not executed | DalUser.PassportIsUnknown | DalUser.PasswordIsKnown |
| biz/controller/habit.go:22-26 | when `ListByUIDs` fails, the transaction function returns nil, so the listing error is lost | a habit whose user listing fails: `AddHabit` reports success with an empty group, and no habit is stored | return the listing error | not executed | HabitController.AddHabitLosesListError | HabitController.AddHabitIntended |
| biz/dal/user_habit_config.go:95-96 | `UpdateColumn("longest_streak", "current_streak")` sets the integer column to the string literal, not to the value of the column | a row with both streaks at 0: after the increment its current streak is 1 and its longest streak 0, so it beats its record; MySQL in strict mode refuses the literal with error 1366, the call fails with "update longest streak fail" and the record is never raised | `gorm.Expr("current_streak")` | not executed | DalUserHabitConfig.RejectedLiteralBreaksRecord | DalUserHabitConfig.RecordedKeepsRecord |
| biz/controller/user.go:276-279 | the user token's JWT id is a fresh uuid, but the middleware (biz/handler/middleware.go:34-40) takes the JWT id as the uid | any activation: the uid that later requests carry is the uuid, not the new user's uid | the new user's uid as JWT id | not executed | UserController.UserTokenNamesRandomID | UserController.UserTokenNamesUser |
| biz/controller/user.go:88-93 | `GetEmailBindTemplate` loads the bind template into `emailActivateTmpl` and returns `emailBindTmpl`, which nothing assigns | a server that sent an activation mail and then gets a bind request: the bind send panics on the nil template, and the next activation mail fails to fill because its variable now holds the bind template | assign `emailBindTmpl` | not executed | UserController.BindSpoilsActivation | UserController.BindKeepsActivation |
| biz/controller/habit.go:162-167 | `DeleteHabitByID` dereferences the habit `GetByID` returns without checking it for nil | any id with no habit: the call panics instead of returning an error | return an `InvalidParam` error | not executed | HabitController.DeleteHabitByID | HabitController.DeleteHabitByIDIntended |
