/** The request checks of the HTTP handlers (biz/handler/habit.go,
    biz/handler/user.go, biz/handler/helper.go). A check returns `None` when
    the request is accepted (Go's nil `SError`) and the error otherwise. The
    email verifier's network lookup and the habit deadline delay's own
    validity rule are parameters. */
module Handler {
  import opened Wrappers
  import opened GoTypes
  import opened Response
  import opened DalHabit
  import Base64

  // ------------------------------------------------------------- helper.go

  /** `BindAndValidateErr`: a binding failure is a parameter error that
      keeps the binder's error as its cause. */
  function BindAndValidateErr(err: Error): (e: SError)
    ensures e.code == CodeInvalidParam && e.cause == Some(err) && e.message == "bind req fail"
  {
    Wrap(CodeInvalidParam, Some(err), "bind req fail")
  }

  /** What the email verifier reports about an address: whether its syntax
      is valid and what the SMTP probe found. */
  datatype Verification = Verification(syntaxValid: bool, deliverable: bool, catchAll: bool)

  /** An address the verifier vouches for: well formed and reachable, either
      as a real mailbox or through a catch-all domain. */
  predicate Reachable(v: Verification)
  {
    v.syntaxValid && (v.deliverable || v.catchAll)
  }

  /** `ValidateEmail`, given what `verifier.Verify` returned for the address:
      a verifier failure is an internal error; a malformed address, and one
      SMTP can neither deliver to nor catch, are parameter errors. */
  function ValidateEmail(verified: Result<Verification, Error>): (e: Option<SError>)
    ensures e.None? <==> verified.Success? && Reachable(verified.value)
    ensures verified.Failure? ==> e == Some(Wrap(CodeInternalUnknownError, Some(verified.error), "verify email fail"))
    ensures verified.Success? && !verified.value.syntaxValid ==> e == Some(New(CodeInvalidParam, "invalid email syntax"))
    ensures verified.Success? && verified.value.syntaxValid && !Reachable(verified.value) ==>
      e == Some(New(CodeInvalidParam, "can not send to this email address"))
  {
    if verified.Failure? then Some(Wrap(CodeInternalUnknownError, Some(verified.error), "verify email fail"))
    else if !verified.value.syntaxValid then Some(New(CodeInvalidParam, "invalid email syntax"))
    else if !verified.value.deliverable && !verified.value.catchAll then
      Some(New(CodeInvalidParam, "can not send to this email address"))
    else None
  }

  /** The shortest password accepted, in bytes. */
  const MinPasswordLength: nat := 8

  /** `ValidatePassword`: a password of fewer than eight bytes is refused,
      every other one is accepted. */
  function ValidatePassword(p: string): (e: Option<SError>)
    ensures e.None? <==> |p| >= MinPasswordLength
    ensures e.Some? ==> e == Some(New(CodeInvalidParam, "password length is less than eight"))
  {
    if |p| < 8 then Some(New(CodeInvalidParam, "password length is less than eight")) else None
  }

  /** `Base64ImgDecode`: the empty string carries no image and decodes to
      nothing without error; any other text must be padded standard base64. */
  function Base64ImgDecode(img: string): (r: Result<seq<byte>, SError>)
    ensures img == "" ==> r == Success([])
    ensures img != "" && Base64.DecodeString(img).Some? ==> r == Success(Base64.DecodeString(img).value)
    ensures img != "" && Base64.DecodeString(img).None? ==> r == Failure(New(CodeInvalidParam, "invalid image base64"))
  {
    if img == "" then Success([])
    else
      match Base64.DecodeString(img)
      case None => Failure(New(CodeInvalidParam, "invalid image base64"))
      case Some(data) => Success(data)
  }

  /** Any image, sent as its base64 encoding, arrives intact; the empty
      image and the absent one coincide. */
  lemma {:induction false} ImageRoundTrip(data: seq<byte>)
    ensures Base64ImgDecode(Base64.Encode(data)) == Success(data)
  {
    if data != [] {
      assert |Base64.Encode(data)| > 0;
    }
    Base64.DecodeEncode(data);
  }

  // -------------------------------------------------------------- habit.go

  /** The fields of `CreateHabitRequest` the check reads. */
  datatype CreateHabitRequest = CreateHabitRequest(
    name: string,
    publicLevel: string,
    checkType: string,
    checkFrequency: string,
    checkDeadlineDelay: Duration,
    cooperators: seq<string>)

  /** A habit request every enumeration of which is valid. */
  predicate WellFormedHabit(r: CreateHabitRequest, delayIsValid: Duration -> bool)
  {
    r.name != "" && PublicLevelIsValid(r.publicLevel) && CheckTypeIsValid(r.checkType) &&
    FrequencyIsValid(r.checkFrequency) && delayIsValid(r.checkDeadlineDelay)
  }

  /** `CreateHabitRequest.validate`: the name, the public level, the check
      type, the check frequency and the deadline delay are checked in this
      order and the first one that fails is reported. */
  function ValidateCreateHabit(r: CreateHabitRequest, delayIsValid: Duration -> bool): (e: Option<SError>)
    ensures e.None? <==> WellFormedHabit(r, delayIsValid)
    ensures e.Some? ==> e.value.code == CodeInvalidParam && e.value.cause.None?
    ensures r.name == "" ==> e == Some(New(CodeInvalidParam, "invalid name"))
    ensures r.name != "" && !PublicLevelIsValid(r.publicLevel) ==> e == Some(New(CodeInvalidParam, "invalid public level"))
    ensures r.name != "" && PublicLevelIsValid(r.publicLevel) && !CheckTypeIsValid(r.checkType) ==>
      e == Some(New(CodeInvalidParam, "invalid check type"))
    ensures r.name != "" && PublicLevelIsValid(r.publicLevel) && CheckTypeIsValid(r.checkType) &&
            !FrequencyIsValid(r.checkFrequency) ==>
      e == Some(New(CodeInvalidParam, "invalid check frequency"))
    ensures r.name != "" && PublicLevelIsValid(r.publicLevel) && CheckTypeIsValid(r.checkType) &&
            FrequencyIsValid(r.checkFrequency) && !delayIsValid(r.checkDeadlineDelay) ==>
      e == Some(New(CodeInvalidParam, "invalid check deadline delay"))
  {
    if r.name == "" then Some(New(CodeInvalidParam, "invalid name"))
    else if !PublicLevelIsValid(r.publicLevel) then Some(New(CodeInvalidParam, "invalid public level"))
    else if !CheckTypeIsValid(r.checkType) then Some(New(CodeInvalidParam, "invalid check type"))
    else if !FrequencyIsValid(r.checkFrequency) then Some(New(CodeInvalidParam, "invalid check frequency"))
    else if !delayIsValid(r.checkDeadlineDelay) then Some(New(CodeInvalidParam, "invalid check deadline delay"))
    else None
  }

  /** The largest page size a listing accepts. */
  const MaxPageSize: gouint := 100

  /** `ListHabitsRequest`: the page number and the page size, both `uint`. */
  datatype ListHabitsRequest = ListHabitsRequest(page: gouint, pageSize: gouint)

  /** `ListHabitsRequest.validate`: pages count from 1 and a page holds 1 to
      100 habits, 100 included although the message says "less than". */
  function ValidateListHabits(r: ListHabitsRequest): (e: Option<SError>)
    ensures e.None? <==> r.page >= 1 && 1 <= r.pageSize <= MaxPageSize
    ensures r.page == 0 ==> e == Some(New(CodeInvalidParam, "page mast greater than 0"))
    ensures r.page != 0 && (r.pageSize == 0 || r.pageSize > 100) ==>
      e == Some(New(CodeInvalidParam, "page size must greater than 0 and less than 100"))
  {
    if r.page == 0 then Some(New(CodeInvalidParam, "page mast greater than 0"))
    else if r.pageSize == 0 || r.pageSize > 100 then
      Some(New(CodeInvalidParam, "page size must greater than 0 and less than 100"))
    else None
  }

  // --------------------------------------------------------------- user.go

  /** `UserRegisterRequest`. */
  datatype UserRegisterRequest = UserRegisterRequest(email: string, password: string)

  /** `UserRegisterRequest.validate`: the email is checked first and any
      failure of it, the verifier's own included, is reported as one
      parameter error; then the password's error is passed on as it is. */
  function ValidateUserRegister(r: UserRegisterRequest, verified: Result<Verification, Error>): (e: Option<SError>)
    ensures e.None? <==> verified.Success? && Reachable(verified.value) && |r.password| >= MinPasswordLength
    ensures ValidateEmail(verified).Some? ==> e == Some(New(CodeInvalidParam, "invalid email"))
    ensures ValidateEmail(verified).None? ==> e == ValidatePassword(r.password)
    ensures e.Some? ==> e.value.code == CodeInvalidParam
  {
    if ValidateEmail(verified).Some? then Some(New(CodeInvalidParam, "invalid email"))
    else ValidatePassword(r.password)
  }

  /** `EmailActivateRequest.validate`: any non-empty code is accepted. */
  function ValidateEmailActivate(code: string): (e: Option<SError>)
    ensures e.None? <==> code != ""
    ensures e.Some? ==> e == Some(New(CodeInvalidParam, "invalid code"))
  {
    if code == "" then Some(New(CodeInvalidParam, "invalid code")) else None
  }

  /** `SubmitBindEmailRequest.validate`: the address must pass
      `ValidateEmail`, whose error is returned unchanged. */
  function ValidateSubmitBindEmail(verified: Result<Verification, Error>): (e: Option<SError>)
    ensures e.None? <==> verified.Success? && Reachable(verified.value)
    ensures e.Some? ==> e == ValidateEmail(verified)
  {
    ValidateEmail(verified)
  }

  /** `ConfirmBindEmailRequest.validate`: any non-empty code is accepted. */
  function ValidateConfirmBindEmail(code: string): (e: Option<SError>)
    ensures e.None? <==> code != ""
    ensures e.Some? ==> e == Some(New(CodeInvalidParam, "missing bind code"))
  {
    if code == "" then Some(New(CodeInvalidParam, "missing bind code")) else None
  }

  /** `UpdateUserBaseInfoRequest`: the name and, when a file was sent, the
      declared size of the portrait. */
  datatype UpdateUserBaseInfoRequest = UpdateUserBaseInfoRequest(name: string, portraitSize: Option<int64>)

  /** `UpdateUserBaseInfoRequest.validate`: a portrait must be sent and must
      not be declared empty; the name is not checked. */
  function ValidateUpdateUserBaseInfo(r: UpdateUserBaseInfoRequest): (e: Option<SError>)
    ensures e.None? <==> r.portraitSize.Some? && r.portraitSize.value != 0
    ensures e.Some? ==> e == Some(New(CodeInvalidParam, "portrait file empty"))
  {
    if r.portraitSize.None? || r.portraitSize.value == 0 then Some(New(CodeInvalidParam, "portrait file empty"))
    else None
  }
}
