/** The `user_email_verify_code` table (biz/dal/user_email_verify_code.go):
    verification codes sent to an email address. */
module DalUserEmailVerifyCode {
  import opened Wrappers
  import opened GoTypes
  import opened Response
  import opened DalCommon

  datatype UserEmailVerifyCode = UserEmailVerifyCode(email: string, verifyCode: string, sendAt: Instant)

  function ForEmail(email: string): UserEmailVerifyCode -> bool
  {
    (c: UserEmailVerifyCode) => c.email == email
  }

  class UserEmailVerifyCodeTable {
    var rows: seq<UserEmailVerifyCode>

    constructor ()
      ensures rows == []
    {
      rows := [];
    }

    /** `Add`: inserts one code. */
    method Add(c: UserEmailVerifyCode, dbErr: Option<Error>) returns (err: Option<SError>)
      modifies this
      ensures dbErr.Some? ==>
        err == Some(DbFailure(dbErr.value, "add user email verify code info fail")) && rows == old(rows)
      ensures dbErr.None? ==> err.None? && rows == old(rows) + [c]
      ensures dbErr.None? ==> GetByEmail(c.email, None).value.Some?
    {
      if dbErr.Some? {
        return Some(DbFailure(dbErr.value, "add user email verify code info fail"));
      }
      rows := rows + [c];
      assert c in rows;
      return None;
    }

    /** `GetByEmail`: a code sent to the email, or `None`. */
    function GetByEmail(email: string, dbErr: Option<Error>): (r: Result<Option<UserEmailVerifyCode>, SError>)
      reads this
      ensures dbErr.Some? ==> r == Failure(DbFailure(dbErr.value, "get user email verify code fail"))
      ensures dbErr.None? ==> r.Success?
      ensures dbErr.None? ==> (r.value.Some? <==> exists c :: c in rows && c.email == email)
      ensures dbErr.None? && r.value.Some? ==> r.value.value in rows && r.value.value.email == email
    {
      if dbErr.Some? then Failure(DbFailure(dbErr.value, "get user email verify code fail"))
      else Success(First(rows, ForEmail(email)))
    }

    /** `DeleteByEmail`: removes every code of the email, so none is found
        afterwards; the codes of other addresses stay. */
    method DeleteByEmail(email: string, dbErr: Option<Error>) returns (err: Option<SError>)
      modifies this
      ensures dbErr.Some? ==>
        err == Some(DbFailure(dbErr.value, "delete user email verify code fail")) && rows == old(rows)
      ensures dbErr.None? ==> err.None? && rows == Without(old(rows), ForEmail(email))
      ensures dbErr.None? ==> GetByEmail(email, None) == Success(None)
    {
      if dbErr.Some? {
        return Some(DbFailure(dbErr.value, "delete user email verify code fail"));
      }
      rows := Without(rows, ForEmail(email));
      return None;
    }
  }
}
