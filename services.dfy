/** The outside services the controllers talk to, reduced to what the
    controllers can observe of them: JWT claims, the mail service and the
    object storage. Signing and checking a JWT is left to the caller: a
    controller receives the claims a code decodes to, or the decoding error. */
module Services {
  import opened Wrappers
  import opened GoTypes
  import opened Response

  /** The registered JWT claims the controllers read and write. */
  datatype Claims = Claims(id: string, subject: string, expiresAt: Instant)

  /** `emailCodeExpireTime`: activation and bind codes live ten minutes. */
  const EmailCodeExpireTime: Duration := 10 * Minute

  /** `userTokenExpireTime`: a user token lives three days. */
  const UserTokenExpireTime: Duration := 72 * Hour

  /** `emailActivateAllowedInterval`: the resend throttle. */
  const EmailActivateAllowedInterval: Duration := Minute

  /** The formats `ParseRawImageFormat` (util/image.go) reports; which one
      an image has is left to the caller. */
  const ImgFormatUnknown := ""
  const ImgFormatJPEG := "jpeg"
  const ImgFormatPNG := "png"

  datatype MailKind = ActivateMail | BindMail

  /** A mail as far as the model follows it: its kind, its recipient and
      the claims of the code its link carries. */
  datatype Mail = Mail(kind: MailKind, to: string, code: Claims)

  /** What signing the code and SMTP do with one attempt to mail a code:
      the code could not be signed, SMTP failed, or SMTP delivered it.
      Whether the template fills is decided by the template state. */
  datatype MailOutcome = Delivered | SignFailed(e: Error) | SendFailed(e: Error)

  /** The SMTP service: the mails it delivered, in order. */
  class Mailer {
    var outbox: seq<Mail>

    constructor ()
      ensures outbox == []
    {
      outbox := [];
    }

    /** `SendMail`: hands `m` to SMTP, which delivers it or fails with
        `sendErr`. */
    method Send(m: Mail, sendErr: Option<Error>) returns (err: Option<Error>)
      modifies this
      ensures err == sendErr
      ensures sendErr.None? ==> outbox == old(outbox) + [m]
      ensures sendErr.Some? ==> outbox == old(outbox)
    {
      err := sendErr;
      if sendErr.None? {
        outbox := outbox + [m];
      }
    }
  }

  /** The object storage: the objects stored under each key. */
  class ObjectStore {
    var objects: map<string, seq<byte>>

    constructor ()
      ensures objects == map[]
    {
      objects := map[];
    }

    /** `PutObject`: stores `data` under `key`, or fails with `err`. */
    method PutObject(key: string, data: seq<byte>, err: Option<Error>) returns (e: Option<Error>)
      modifies this
      ensures e == err
      ensures err.None? ==> objects == old(objects)[key := data]
      ensures err.Some? ==> objects == old(objects)
    {
      e := err;
      if err.None? {
        objects := objects[key := data];
      }
    }
  }

  /** `UserTokenVerify` (biz/handler/middleware.go), given the token from
      the `auth` header and what it decodes to: the request's uid is the
      token's `ID` claim. */
  function VerifyUserToken(token: string, decoded: Result<Claims, Error>): (r: Result<string, SError>)
    ensures token == "" ==> r == Failure(New(CodeUserAuthFail, "no user token found"))
    ensures token != "" && decoded.Failure? ==>
      r == Failure(Wrap(CodeUserAuthFail, Some(decoded.error), "verify user token fail"))
    ensures token != "" && decoded.Success? && decoded.value.id == "" ==>
      r == Failure(Wrap(CodeUserAuthFail, None, "invalid user token, no user id found"))
    ensures r.Success? <==> token != "" && decoded.Success? && decoded.value.id != ""
    ensures r.Success? ==> r.value == decoded.value.id
  {
    if token == "" then Failure(New(CodeUserAuthFail, "no user token found"))
    else if decoded.Failure? then Failure(Wrap(CodeUserAuthFail, Some(decoded.error), "verify user token fail"))
    else if decoded.value.id == "" then Failure(Wrap(CodeUserAuthFail, None, "invalid user token, no user id found"))
    else Success(decoded.value.id)
  }
}
