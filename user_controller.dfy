/** The user controller (biz/controller/user.go): registration by email
    with an activation mail, activation, binding another email, and
    updating a user's name and portrait. JWT codes are represented by their
    claims, the mail service by a `Mailer`, the object storage by an
    `ObjectStore`; the clock, fresh uuids, the image format sniffer and
    every failure of those services are parameters. */
module UserController {
  import opened Wrappers
  import opened GoTypes
  import opened Response
  import opened DalCommon
  import opened DalUser
  import Activation = DalUserEmailActivate
  import opened Database
  import opened Services
  import opened ControllerHelper

  /** The claims of an activation code: the registration's uid, valid for
      ten minutes. */
  function ActivateCode(uid: UID, now: Instant): Claims
  {
    Claims(uid, "", now + EmailCodeExpireTime)
  }

  /** The claims of a bind code: the user's uid and, as subject, the email
      to bind, valid for ten minutes. */
  function BindCode(uid: UID, email: string, now: Instant): Claims
  {
    Claims(uid, email, now + EmailCodeExpireTime)
  }

  /** The claims of a user token with the given JWT id, valid three days. */
  function UserToken(id: string, now: Instant): Claims
  {
    Claims(id, "", now + UserTokenExpireTime)
  }

  // ---------------------------------------------------------- mail templates

  /** The two mail templates: the activation template names the link field
      `ActiveLink`, the bind template `BindLink`. */
  datatype Template = ActivateTemplate | BindTemplate

  /** The error `Execute` reports when a template names a field its filler
      does not have. */
  const MissingField: Error := Foreign("template: can't evaluate field in type filler")

  /** What `Execute` does with a template and the filler of one kind. */
  datatype Filling = Filled | FillFailed(e: Error) | FillPanicked

  /** `Execute` on the template variable's value: a nil template
      dereferences nil, a template of the other kind names a field the
      filler lacks, and the matching template fills the mail. */
  function Execute(t: Option<Template>, filler: Template): (f: Filling)
    ensures f.FillPanicked? <==> t.None?
    ensures f.Filled? <==> t == Some(filler)
    ensures f.FillFailed? ==> f.e == MissingField
  {
    match t
    case None => FillPanicked
    case Some(k) => if k == filler then Filled else FillFailed(MissingField)
  }

  /** The package's template variables `emailActivateTmpl` and
      `emailBindTmpl`, and whether the `sync.Once` guarding each getter has
      run. Parsing the constant templates never fails. */
  class MailTemplates {
    var activateOnce: bool
    var bindOnce: bool
    var activateTmpl: Option<Template>
    var bindTmpl: Option<Template>

    /** Once the activation getter ran, its variable holds a template. */
    predicate Valid()
      reads this
    {
      activateOnce ==> activateTmpl.Some?
    }

    /** The invariant of the program as evidently intended, where each
        getter loads its own variable: a loaded variable holds its own
        template, so activation mails always fill. */
    predicate IntendedValid()
      reads this
      ensures IntendedValid() ==> Valid() && ActivateFills()
    {
      (activateOnce ==> activateTmpl == Some(ActivateTemplate)) &&
      (bindOnce ==> bindTmpl == Some(BindTemplate))
    }

    /** The state at start-up: no getter has run, both variables are nil. */
    constructor ()
      ensures Valid() && IntendedValid()
      ensures !activateOnce && !bindOnce && activateTmpl == None && bindTmpl == None
    {
      activateOnce := false;
      bindOnce := false;
      activateTmpl := None;
      bindTmpl := None;
    }

    /** The template the next `GetEmailActivateTemplate` returns. */
    function NextActivateTemplate(): Option<Template>
      reads this
    {
      if activateOnce then activateTmpl else Some(ActivateTemplate)
    }

    /** The next activation mail's template fills with its filler. */
    predicate ActivateFills()
      reads this
    {
      NextActivateTemplate() == Some(ActivateTemplate)
    }

    /** `GetEmailActivateTemplate`: the first call parses the activation
        template into `emailActivateTmpl`; every call returns that variable. */
    method GetEmailActivateTemplate() returns (t: Option<Template>)
      requires Valid()
      modifies this
      ensures Valid()
      ensures t == old(NextActivateTemplate()) && t.Some?
      ensures activateOnce && activateTmpl == t
      ensures NextActivateTemplate() == old(NextActivateTemplate())
      ensures bindOnce == old(bindOnce) && bindTmpl == old(bindTmpl)
    {
      if !activateOnce {
        activateTmpl := Some(ActivateTemplate);
        activateOnce := true;
      }
      t := activateTmpl;
    }

    /** `GetEmailBindTemplate` as written: the first call parses the bind
        template into `emailActivateTmpl`, not `emailBindTmpl`, and every
        call returns `emailBindTmpl`, which nothing assigns. */
    method GetEmailBindTemplate() returns (t: Option<Template>)
      requires Valid()
      modifies this
      ensures Valid()
      ensures t == bindTmpl && bindTmpl == old(bindTmpl)
      ensures bindOnce && activateOnce == old(activateOnce)
      ensures activateTmpl == if old(bindOnce) then old(activateTmpl) else Some(BindTemplate)
    {
      if !bindOnce {
        activateTmpl := Some(BindTemplate);
        bindOnce := true;
      }
      t := bindTmpl;
    }

    /** `GetEmailBindTemplate` as evidently intended: the first call parses
        the bind template into `emailBindTmpl`, which every call returns. */
    method GetEmailBindTemplateIntended() returns (t: Option<Template>)
      requires IntendedValid()
      modifies this
      ensures IntendedValid()
      ensures bindOnce && t == bindTmpl && t == Some(BindTemplate)
      ensures activateOnce == old(activateOnce) && activateTmpl == old(activateTmpl)
    {
      if !bindOnce {
        bindTmpl := Some(BindTemplate);
        bindOnce := true;
      }
      t := bindTmpl;
    }
  }

  /** Whether a mailing whose template fills exactly when `fills` holds
      reaches the recipient. */
  predicate Sends(outcome: MailOutcome, fills: bool)
  {
    outcome.Delivered? && fills
  }

  /** The error a mailing ends with: signing, filling the template and
      sending are tried in this order and the first failure is reported. */
  function MailError(outcome: MailOutcome, fills: bool, signMsg: string, fillMsg: string): (e: Option<SError>)
    ensures e.None? <==> Sends(outcome, fills)
    ensures e.Some? ==> e.value.code == CodeInternalUnknownError
    ensures outcome.SignFailed? ==> e == Some(Wrap(CodeInternalUnknownError, Some(outcome.e), signMsg))
    ensures !outcome.SignFailed? && !fills ==> e == Some(Wrap(CodeInternalUnknownError, Some(MissingField), fillMsg))
    ensures outcome.SendFailed? && fills ==> e == Some(Wrap(CodeInternalUnknownError, Some(outcome.e), "send email fail"))
  {
    if outcome.SignFailed? then Some(Wrap(CodeInternalUnknownError, Some(outcome.e), signMsg))
    else if !fills then Some(Wrap(CodeInternalUnknownError, Some(MissingField), fillMsg))
    else if outcome.SendFailed? then Some(Wrap(CodeInternalUnknownError, Some(outcome.e), "send email fail"))
    else None
  }

  /** The last step of both senders: the filled mail is handed to SMTP. */
  method Deliver(mailer: Mailer, m: Mail, sendErr: Option<Error>) returns (err: Option<SError>)
    modifies mailer
    ensures err == if sendErr.Some? then Some(Wrap(CodeInternalUnknownError, sendErr, "send email fail")) else None
    ensures sendErr.None? ==> mailer.outbox == old(mailer.outbox) + [m]
    ensures sendErr.Some? ==> mailer.outbox == old(mailer.outbox)
  {
    var e := mailer.Send(m, sendErr);
    if e.Some? {
      return Some(Wrap(CodeInternalUnknownError, e, "send email fail"));
    }
    return None;
  }

  /** What SMTP does with the mail, given how the attempt ends. */
  function SendErr(outcome: MailOutcome): Option<Error>
  {
    if outcome.SendFailed? then Some(outcome.e) else None
  }

  /** The template state after an activation mailing: still valid, the
      next activation mail uses the same template, and the bind state is
      untouched. */
  twostate predicate ActivationTemplateKept(templates: MailTemplates)
    reads templates
  {
    templates.Valid() && templates.NextActivateTemplate() == old(templates.NextActivateTemplate()) &&
    templates.bindOnce == old(templates.bindOnce) && templates.bindTmpl == old(templates.bindTmpl)
  }

  /** `sendActivateEmail`: signs an activation code for `uid`, fills the
      activation template and mails `toMail`. */
  method SendActivateEmail(mailer: Mailer, templates: MailTemplates, toMail: string, uid: UID, now: Instant,
                           outcome: MailOutcome)
    returns (err: Option<SError>)
    requires templates.Valid()
    modifies mailer, templates
    ensures ActivationTemplateKept(templates)
    ensures outcome.SignFailed? ==>
      templates.activateOnce == old(templates.activateOnce) && templates.activateTmpl == old(templates.activateTmpl)
    ensures !outcome.SignFailed? ==>
      templates.activateOnce && templates.activateTmpl == old(templates.NextActivateTemplate())
    ensures err == MailError(outcome, old(templates.ActivateFills()), "sign activate code fail", "fill email activate template fail")
    ensures err.None? ==> mailer.outbox == old(mailer.outbox) + [Mail(ActivateMail, toMail, ActivateCode(uid, now))]
    ensures err.Some? ==> mailer.outbox == old(mailer.outbox)
  {
    if outcome.SignFailed? {
      return Some(Wrap(CodeInternalUnknownError, Some(outcome.e), "sign activate code fail"));
    }
    var t := templates.GetEmailActivateTemplate();
    var filled := Execute(t, ActivateTemplate);
    if filled.FillFailed? {
      return Some(Wrap(CodeInternalUnknownError, Some(filled.e), "fill email activate template fail"));
    }
    err := Deliver(mailer, Mail(ActivateMail, toMail, ActivateCode(uid, now)), SendErr(outcome));
  }

  /** `sendEmailBindEmail` as written: past signing it runs the bind getter
      and executes the template it returns, `emailBindTmpl`. That variable
      is nil at start-up and no call assigns it, so the send panics before
      any mail goes out; the getter's first run has by then overwritten
      `emailActivateTmpl`. */
  method SendEmailBindEmail(mailer: Mailer, templates: MailTemplates, toMail: string, uid: UID, now: Instant,
                            outcome: MailOutcome)
    returns (r: Outcome<Option<SError>>)
    requires templates.Valid()
    modifies mailer, templates
    ensures templates.Valid()
    ensures outcome.SignFailed? ==>
      r == Returned(Some(Wrap(CodeInternalUnknownError, Some(outcome.e), "sign bind code fail"))) &&
      unchanged(templates)
    ensures !outcome.SignFailed? ==>
      templates.bindOnce && templates.bindTmpl == old(templates.bindTmpl) &&
      templates.activateOnce == old(templates.activateOnce) &&
      templates.activateTmpl == if old(templates.bindOnce) then old(templates.activateTmpl) else Some(BindTemplate)
    ensures !outcome.SignFailed? && old(templates.bindTmpl).None? ==> r == Panicked
    ensures !outcome.SignFailed? && old(templates.bindTmpl).Some? ==>
      r == Returned(MailError(outcome, old(templates.bindTmpl) == Some(BindTemplate),
                              "sign bind code fail", "fill email bind template fail"))
    ensures r == Returned(None) ==> mailer.outbox == old(mailer.outbox) + [Mail(BindMail, toMail, BindCode(uid, toMail, now))]
    ensures r != Returned(None) ==> mailer.outbox == old(mailer.outbox)
  {
    if outcome.SignFailed? {
      return Returned(Some(Wrap(CodeInternalUnknownError, Some(outcome.e), "sign bind code fail")));
    }
    var t := templates.GetEmailBindTemplate();
    var filled := Execute(t, BindTemplate);
    if filled.FillPanicked? {
      return Panicked;
    }
    if filled.FillFailed? {
      return Returned(Some(Wrap(CodeInternalUnknownError, Some(filled.e), "fill email bind template fail")));
    }
    var err := Deliver(mailer, Mail(BindMail, toMail, BindCode(uid, toMail, now)), SendErr(outcome));
    return Returned(err);
  }

  /** `sendEmailBindEmail` as evidently intended, with the bind getter
      loading `emailBindTmpl`: the bind template always fills, so the mail
      goes out exactly when signing and SMTP succeed. */
  method SendEmailBindEmailIntended(mailer: Mailer, templates: MailTemplates, toMail: string, uid: UID, now: Instant,
                                    outcome: MailOutcome)
    returns (err: Option<SError>)
    requires templates.IntendedValid()
    modifies mailer, templates
    ensures templates.IntendedValid()
    ensures templates.activateOnce == old(templates.activateOnce) && templates.activateTmpl == old(templates.activateTmpl)
    ensures outcome.SignFailed? ==> templates.bindOnce == old(templates.bindOnce) && templates.bindTmpl == old(templates.bindTmpl)
    ensures !outcome.SignFailed? ==> templates.bindOnce && templates.bindTmpl == Some(BindTemplate)
    ensures err == MailError(outcome, true, "sign bind code fail", "fill email bind template fail")
    ensures err.None? ==> mailer.outbox == old(mailer.outbox) + [Mail(BindMail, toMail, BindCode(uid, toMail, now))]
    ensures err.Some? ==> mailer.outbox == old(mailer.outbox)
  {
    if outcome.SignFailed? {
      return Some(Wrap(CodeInternalUnknownError, Some(outcome.e), "sign bind code fail"));
    }
    var t := templates.GetEmailBindTemplateIntended();
    var filled := Execute(t, BindTemplate);
    assert filled.Filled?;
    err := Deliver(mailer, Mail(BindMail, toMail, BindCode(uid, toMail, now)), SendErr(outcome));
  }

  /** As written, a bind attempt spoils the activation template: on a server
      that has sent one activation mail, a bind mail past signing panics,
      and the next activation mail fails to fill. */
  method BindSpoilsActivation(mailer: Mailer, to: string, uid: UID, email: string, now: Instant)
    returns (first: Option<SError>, bind: Outcome<Option<SError>>, second: Option<SError>)
    modifies mailer
    ensures first.None? && bind.Panicked?
    ensures second == Some(Wrap(CodeInternalUnknownError, Some(MissingField), "fill email activate template fail"))
    ensures mailer.outbox == old(mailer.outbox) + [Mail(ActivateMail, to, ActivateCode(uid, now))]
  {
    var templates := new MailTemplates();
    first := SendActivateEmail(mailer, templates, to, uid, now, Delivered);
    bind := SendEmailBindEmail(mailer, templates, email, uid, now, Delivered);
    second := SendActivateEmail(mailer, templates, to, uid, now, Delivered);
  }

  /** With the bind getter as intended, the same three mailings all go out. */
  method BindKeepsActivation(mailer: Mailer, to: string, uid: UID, email: string, now: Instant)
    returns (first: Option<SError>, bind: Option<SError>, second: Option<SError>)
    modifies mailer
    ensures first.None? && bind.None? && second.None?
    ensures mailer.outbox == old(mailer.outbox) + [Mail(ActivateMail, to, ActivateCode(uid, now)),
                                                   Mail(BindMail, email, BindCode(uid, email, now)),
                                                   Mail(ActivateMail, to, ActivateCode(uid, now))]
  {
    var templates := new MailTemplates();
    first := SendActivateEmail(mailer, templates, to, uid, now, Delivered);
    bind := SendEmailBindEmailIntended(mailer, templates, email, uid, now, Delivered);
    second := SendActivateEmail(mailer, templates, to, uid, now, Delivered);
  }

  // ----------------------------------------------------------- EmailRegister

  /** Some user has the email. */
  predicate EmailTaken(users: seq<User>, email: string)
  {
    exists i :: 0 <= i < |users| && users[i].email == Some(email)
  }

  /** A registration mailed less than `emailActivateAllowedInterval` ago
      may not be mailed again: `SendAt + 1 minute` is after `now`. */
  predicate Throttled(a: Activation.UserEmailActivate, now: Instant)
  {
    a.sendAt + EmailActivateAllowedInterval > now
  }

  /** `EmailRegister`: an email no user has gets a pending registration and
      an activation mail. A registration already pending for the email is
      mailed again, at most once a minute, under its original uid, with
      only its send time updated; otherwise a registration with the fresh
      uid is stored. The registration and the mail succeed or fail
      together. */
  method EmailRegister(db: Store, mailer: Mailer, templates: MailTemplates, email: string, password: Password?, now: Instant, freshUID: UID,
                       keyToURL: string -> string, userErr: Option<Error>, pendingErr: Option<Error>,
                       writeErr: Option<Error>, outcome: MailOutcome)
    returns (r: Result<UID, SError>)
    requires db.Valid() && templates.Valid()
    modifies db.Tables(), mailer, templates
    ensures db.Valid()
    ensures ActivationTemplateKept(templates)
    ensures r.Failure? ==> db.State() == old(db.State()) && mailer.outbox == old(mailer.outbox)
    ensures userErr.Some? ==> r == Failure(DbFailure(userErr.value, "get user by fail"))
    ensures userErr.None? && EmailTaken(old(db.users.rows), email) ==>
      r == Failure(New(CodeUserNoPermission, "email already registered"))
    ensures userErr.None? && !EmailTaken(old(db.users.rows), email) && pendingErr.Some? ==>
      r == Failure(DbFailure(pendingErr.value, "get inactivated user fail"))
    ensures userErr.None? && !EmailTaken(old(db.users.rows), email) && pendingErr.None? ==>
      match First(old(db.activations.rows), Activation.WithEmail(email))
      case Some(a) =>
        (Throttled(a, now) ==>
           r == Failure(New(CodeUserNoPermission, "the email is send within one minutes, try later"))) &&
        (!Throttled(a, now) && writeErr.Some? ==> r == Failure(DbFailure(writeErr.value, "update send time fail"))) &&
        (!Throttled(a, now) && writeErr.None? && !Sends(outcome, old(templates.ActivateFills())) ==>
           r == Failure(MailError(outcome, old(templates.ActivateFills()), "sign activate code fail", "fill email activate template fail").value)) &&
        (!Throttled(a, now) && writeErr.None? && Sends(outcome, old(templates.ActivateFills())) ==>
           r == Success(a.uid) &&
           db.State() == old(db.State()).(activations := UpdateWhere(old(db.activations.rows), Activation.WithId(a.id), Activation.Resent(now))) &&
           mailer.outbox == old(mailer.outbox) + [Mail(ActivateMail, email, ActivateCode(a.uid, now))])
      case None =>
        (writeErr.Some? ==> r == Failure(DbFailure(writeErr.value, "add inactivated user fail"))) &&
        (writeErr.None? && !Sends(outcome, old(templates.ActivateFills())) ==>
           r == Failure(MailError(outcome, old(templates.ActivateFills()), "sign activate code fail", "fill email activate template fail").value)) &&
        (writeErr.None? && Sends(outcome, old(templates.ActivateFills())) ==>
           r == Success(freshUID) &&
           db.State() == old(db.State()).(
             activations := old(db.activations.rows) +
               [Activation.UserEmailActivate(old(db.activations.nextID), freshUID, email, password, now, false)],
             activationNext := old(db.activations.nextID) + 1) &&
           mailer.outbox == old(mailer.outbox) + [Mail(ActivateMail, email, ActivateCode(freshUID, now))])
  {
    var user := db.users.GetByEmail(email, keyToURL, userErr);
    if user.Failure? {
      return Failure(user.error);
    }
    if user.value.Some? {
      return Failure(New(CodeUserNoPermission, "email already registered"));
    }
    assert !EmailTaken(db.users.rows, email) by {
      forall i | 0 <= i < |db.users.rows| ensures db.users.rows[i].email != Some(email) {
        assert db.users.rows[i] in db.users.rows;
      }
    }
    var uea := db.activations.GetByEmail(email, pendingErr);
    if uea.Failure? {
      return Failure(uea.error);
    }
    if uea.value.Some? {
      var a := uea.value.value;
      if Throttled(a, now) {
        return Failure(New(CodeUserNoPermission, "the email is send within one minutes, try later"));
      }
      r := ResendActivation(db, mailer, templates, a, email, now, writeErr, outcome);
    } else {
      r := StartActivation(db, mailer, templates, email, password, now, freshUID, writeErr, outcome);
    }
  }

  /** `UserEmailActivateDal.Add` seen on the whole store: only the
      activation table gains the row, under the next id. */
  method AddPending(db: Store, pending: Activation.UserEmailActivate, writeErr: Option<Error>)
    returns (err: Option<SError>)
    requires db.Valid() && pending.id == 0
    modifies db.activations
    ensures db.Valid()
    ensures writeErr.Some? ==>
      err == Some(DbFailure(writeErr.value, "add inactivated user fail")) && db.State() == old(db.State())
    ensures writeErr.None? ==>
      err.None? &&
      db.State() == old(db.State()).(activations := old(db.activations.rows) + [pending.(id := old(db.activations.nextID))],
                                     activationNext := old(db.activations.nextID) + 1)
  {
    var _, e := db.activations.Add(pending, writeErr);
    err := e;
  }

  /** `UserEmailActivateDal.UpdateSendTime` seen on the whole store: only
      the send time of the registration changes. */
  method ResendPending(db: Store, id: nat, now: Instant, writeErr: Option<Error>)
    returns (err: Option<SError>)
    requires db.Valid()
    modifies db.activations
    ensures db.Valid()
    ensures writeErr.Some? ==>
      err == Some(DbFailure(writeErr.value, "update send time fail")) && db.State() == old(db.State())
    ensures writeErr.None? ==>
      err.None? &&
      db.State() == old(db.State()).(activations := UpdateWhere(old(db.activations.rows), Activation.WithId(id), Activation.Resent(now)))
  {
    err := db.activations.UpdateSendTime(id, now, writeErr);
  }

  /** The end of a registration transaction: the activation mail, sent
      only when the transaction's write succeeded, then the commit, or the
      rollback to `tx` when either failed. */
  method MailAndEndTx(db: Store, tx: Snapshot, mailer: Mailer, templates: MailTemplates, writeErr: Option<SError>,
                      email: string, uid: UID, now: Instant, outcome: MailOutcome)
    returns (err: Option<SError>)
    requires db.Valid() && SnapshotValid(tx) && templates.Valid()
    modifies db.Tables(), mailer, templates
    ensures db.Valid()
    ensures ActivationTemplateKept(templates)
    ensures err == if writeErr.Some? then writeErr
                   else MailError(outcome, old(templates.ActivateFills()), "sign activate code fail", "fill email activate template fail")
    ensures err.Some? ==> db.State() == tx && mailer.outbox == old(mailer.outbox)
    ensures err.None? ==>
      db.State() == old(db.State()) && mailer.outbox == old(mailer.outbox) + [Mail(ActivateMail, email, ActivateCode(uid, now))]
  {
    var opErr := writeErr;
    if writeErr.None? {
      opErr := SendActivateEmail(mailer, templates, email, uid, now, outcome);
    }
    err := EndTx(db, tx, opErr);
  }

  /** The transaction `EmailRegister` runs for a pending registration: its
      send time becomes `now`, then the activation mail goes out again
      under the registration's uid. */
  method ResendActivation(db: Store, mailer: Mailer, templates: MailTemplates, a: Activation.UserEmailActivate, email: string, now: Instant,
                          writeErr: Option<Error>, outcome: MailOutcome)
    returns (r: Result<UID, SError>)
    requires db.Valid() && templates.Valid()
    modifies db.Tables(), mailer, templates
    ensures db.Valid()
    ensures ActivationTemplateKept(templates)
    ensures r.Failure? ==> db.State() == old(db.State()) && mailer.outbox == old(mailer.outbox)
    ensures writeErr.Some? ==> r == Failure(DbFailure(writeErr.value, "update send time fail"))
    ensures writeErr.None? && !Sends(outcome, old(templates.ActivateFills())) ==>
      r == Failure(MailError(outcome, old(templates.ActivateFills()), "sign activate code fail", "fill email activate template fail").value)
    ensures writeErr.None? && Sends(outcome, old(templates.ActivateFills())) ==>
      r == Success(a.uid) &&
      db.State() == old(db.State()).(activations := UpdateWhere(old(db.activations.rows), Activation.WithId(a.id), Activation.Resent(now))) &&
      mailer.outbox == old(mailer.outbox) + [Mail(ActivateMail, email, ActivateCode(a.uid, now))]
  {
    var tx := db.Begin();
    ValidState(db);
    var opErr := ResendPending(db, a.id, now, writeErr);
    var err := MailAndEndTx(db, tx, mailer, templates, opErr, email, a.uid, now, outcome);
    if err.Some? {
      return Failure(err.value);
    }
    return Success(a.uid);
  }

  /** The transaction `EmailRegister` runs for a new email: a registration
      with the fresh uid, not activated and sent now, is stored, then the
      activation mail goes out. */
  method StartActivation(db: Store, mailer: Mailer, templates: MailTemplates, email: string, password: Password?, now: Instant, freshUID: UID,
                         writeErr: Option<Error>, outcome: MailOutcome)
    returns (r: Result<UID, SError>)
    requires db.Valid() && templates.Valid()
    modifies db.Tables(), mailer, templates
    ensures db.Valid()
    ensures ActivationTemplateKept(templates)
    ensures r.Failure? ==> db.State() == old(db.State()) && mailer.outbox == old(mailer.outbox)
    ensures writeErr.Some? ==> r == Failure(DbFailure(writeErr.value, "add inactivated user fail"))
    ensures writeErr.None? && !Sends(outcome, old(templates.ActivateFills())) ==>
      r == Failure(MailError(outcome, old(templates.ActivateFills()), "sign activate code fail", "fill email activate template fail").value)
    ensures writeErr.None? && Sends(outcome, old(templates.ActivateFills())) ==>
      r == Success(freshUID) &&
      db.State() == old(db.State()).(
        activations := old(db.activations.rows) +
          [Activation.UserEmailActivate(old(db.activations.nextID), freshUID, email, password, now, false)],
        activationNext := old(db.activations.nextID) + 1) &&
      mailer.outbox == old(mailer.outbox) + [Mail(ActivateMail, email, ActivateCode(freshUID, now))]
  {
    var pending := Activation.UserEmailActivate(0, freshUID, email, password, now, false);
    var tx := db.Begin();
    ValidState(db);
    var opErr := AddPending(db, pending, writeErr);
    var err := MailAndEndTx(db, tx, mailer, templates, opErr, email, freshUID, now, outcome);
    if err.Some? {
      return Failure(err.value);
    }
    return Success(freshUID);
  }

  // ----------------------------------------------------------- EmailActivate

  /** What `EmailActivate` returns: the new user and the claims of its
      user token. */
  datatype ActivatedUser = ActivatedUser(user: User, token: Claims)

  /** The user an activation creates: the registration's uid, email and
      password, register type "email", no name and no portrait. */
  function EmailUser(a: Activation.UserEmailActivate, id: nat): User
  {
    User(id, a.uid, None, Some(a.email), a.password, None, "", RegisterTypeEmail)
  }

  /** The checks `EmailActivate` makes before it activates: the code must
      decode and name a pending registration that is not yet activated. */
  function PendingActivation(db: Store, code: Result<Claims, Error>, getErr: Option<Error>)
    : (r: Result<Activation.UserEmailActivate, SError>)
    reads db, db.activations
    ensures code.Failure? ==> r == Failure(Wrap(CodeUserNoPermission, Some(code.error), "invalid activate code"))
    ensures code.Success? && getErr.Some? ==> r == Failure(DbFailure(getErr.value, "get inactivated user fail"))
    ensures (code.Success? && getErr.None? &&
             forall i :: 0 <= i < |db.activations.rows| ==> db.activations.rows[i].uid != code.value.id) ==>
      r == Failure(Wrap(CodeUserNoPermission, None, "invalid activate code, no user found"))
    ensures (code.Success? && getErr.None? &&
             (exists i :: 0 <= i < |db.activations.rows| && db.activations.rows[i].uid == code.value.id) &&
             forall i :: 0 <= i < |db.activations.rows| && db.activations.rows[i].uid == code.value.id ==> db.activations.rows[i].activated) ==>
      r == Failure(Wrap(CodeUserNoPermission, None, "email already activated"))
    ensures (code.Success? && getErr.None? &&
             (exists i :: 0 <= i < |db.activations.rows| && db.activations.rows[i].uid == code.value.id) &&
             forall i :: 0 <= i < |db.activations.rows| && db.activations.rows[i].uid == code.value.id ==> !db.activations.rows[i].activated) ==>
      r.Success?
    ensures r.Success? ==>
      code.Success? && getErr.None? && r.value in db.activations.rows && r.value.uid == code.value.id && !r.value.activated
  {
    if code.Failure? then Failure(Wrap(CodeUserNoPermission, Some(code.error), "invalid activate code"))
    else
      var found := db.activations.GetByUID(code.value.id, getErr);
      if found.Failure? then Failure(found.error)
      else if found.value.None? then
        assert forall i :: 0 <= i < |db.activations.rows| ==> db.activations.rows[i].uid != code.value.id by {
          forall i | 0 <= i < |db.activations.rows| ensures db.activations.rows[i].uid != code.value.id {
            assert db.activations.rows[i] in db.activations.rows;
          }
        }
        Failure(Wrap(CodeUserNoPermission, None, "invalid activate code, no user found"))
      else if found.value.value.activated then
        Failure(Wrap(CodeUserNoPermission, None, "email already activated"))
      else Success(found.value.value)
  }

  /** What the activation transaction promises: it succeeds exactly when
      marking the registration, inserting the user and signing the token
      all succeed; a success marks the registration activated and stores
      the user under the next id; a failure leaves every table as it was. */
  twostate predicate ActivationCommits(db: Store, a: Activation.UserEmailActivate, tokenID: string, now: Instant,
                                       activateErr: Option<Error>, addErr: Option<Error>, signErr: Option<Error>,
                                       new r: Result<ActivatedUser, SError>)
    reads db, db.Tables()
  {
    (r.Success? <==> activateErr.None? && addErr.None? && signErr.None?) &&
    (activateErr.Some? ==> r == Failure(DbFailure(activateErr.value, "update send time fail"))) &&
    (activateErr.None? && addErr.Some? ==> r == Failure(DbFailure(addErr.value, "add user fail"))) &&
    (activateErr.None? && addErr.None? && signErr.Some? ==>
       r == Failure(Wrap(CodeInternalUnknownError, signErr, "sign user token fail"))) &&
    (r.Failure? ==> db.State() == old(db.State())) &&
    (r.Success? ==>
       r.value == ActivatedUser(EmailUser(a, old(db.users.nextID)), UserToken(tokenID, now)) &&
       db.State() == old(db.State()).(
         activations := UpdateWhere(old(db.activations.rows), Activation.WithId(a.id), Activation.Activate),
         users := old(db.users.rows) + [EmailUser(a, old(db.users.nextID))],
         userNext := old(db.users.nextID) + 1))
  }

  /** The transaction of `EmailActivate`, signing a user token whose JWT id
      is `tokenID`. */
  method CommitActivation(db: Store, a: Activation.UserEmailActivate, tokenID: string, now: Instant,
                          keyToURL: string -> string,
                          activateErr: Option<Error>, addErr: Option<Error>, signErr: Option<Error>)
    returns (r: Result<ActivatedUser, SError>)
    requires db.Valid()
    modifies db.Tables()
    ensures db.Valid()
    ensures ActivationCommits(db, a, tokenID, now, activateErr, addErr, signErr, r)
  {
    var tx := db.Begin();
    ValidState(db);
    var opErr := db.activations.SetActivated(a.id, activateErr);
    var user := EmailUser(a, 0);
    if opErr.None? {
      user, opErr := db.users.Add(user, keyToURL, addErr);
    }
    if opErr.None? && signErr.Some? {
      opErr := Some(Wrap(CodeInternalUnknownError, signErr, "sign user token fail"));
    }
    var err := EndTx(db, tx, opErr);
    if err.Some? {
      return Failure(err.value);
    }
    return Success(ActivatedUser(user, UserToken(tokenID, now)));
  }

  /** `EmailActivate` as written: the user token's JWT id is a fresh uuid,
      `freshTokenID`, not the new user's uid. */
  method EmailActivate(db: Store, code: Result<Claims, Error>, now: Instant, freshTokenID: string,
                       keyToURL: string -> string, getErr: Option<Error>,
                       activateErr: Option<Error>, addErr: Option<Error>, signErr: Option<Error>)
    returns (r: Result<ActivatedUser, SError>)
    requires db.Valid()
    modifies db.Tables()
    ensures db.Valid()
    ensures old(PendingActivation(db, code, getErr)).Failure? ==>
      r == Failure(old(PendingActivation(db, code, getErr)).error) && db.State() == old(db.State())
    ensures old(PendingActivation(db, code, getErr)).Success? ==>
      ActivationCommits(db, old(PendingActivation(db, code, getErr)).value, freshTokenID, now, activateErr, addErr, signErr, r)
    ensures r.Success? ==> r.value.token.id == freshTokenID
  {
    var pending := PendingActivation(db, code, getErr);
    if pending.Failure? {
      return Failure(pending.error);
    }
    r := CommitActivation(db, pending.value, freshTokenID, now, keyToURL, activateErr, addErr, signErr);
  }

  /** `EmailActivate` as evidently intended: the user token names the new
      user's uid, which is what the authentication middleware reads. */
  method EmailActivateIntended(db: Store, code: Result<Claims, Error>, now: Instant,
                               keyToURL: string -> string, getErr: Option<Error>,
                               activateErr: Option<Error>, addErr: Option<Error>, signErr: Option<Error>)
    returns (r: Result<ActivatedUser, SError>)
    requires db.Valid()
    modifies db.Tables()
    ensures db.Valid()
    ensures old(PendingActivation(db, code, getErr)).Failure? ==>
      r == Failure(old(PendingActivation(db, code, getErr)).error) && db.State() == old(db.State())
    ensures old(PendingActivation(db, code, getErr)).Success? ==>
      var a := old(PendingActivation(db, code, getErr)).value;
      ActivationCommits(db, a, a.uid, now, activateErr, addErr, signErr, r)
    ensures r.Success? ==> r.value.token.id == r.value.user.uid
  {
    var pending := PendingActivation(db, code, getErr);
    if pending.Failure? {
      return Failure(pending.error);
    }
    r := CommitActivation(db, pending.value, pending.value.uid, now, keyToURL, activateErr, addErr, signErr);
  }

  /** As written, a request carrying the user token `EmailActivate` signed
      is authenticated as the token's random id, never as the new user. */
  lemma UserTokenNamesRandomID(signed: string, tokenID: string, user: User, now: Instant)
    requires signed != "" && tokenID != "" && tokenID != user.uid
    ensures VerifyUserToken(signed, Success(UserToken(tokenID, now))).Success?
    ensures VerifyUserToken(signed, Success(UserToken(tokenID, now))).value != user.uid
  {
  }

  /** With the token naming the user's uid, the middleware authenticates a
      request carrying it as that user. */
  lemma UserTokenNamesUser(signed: string, user: User, now: Instant)
    requires signed != "" && user.uid != ""
    ensures VerifyUserToken(signed, Success(UserToken(user.uid, now))) == Success(user.uid)
  {
  }

  // ------------------------------------------------------- StartEmailBinding

  /** `StartEmailBinding` as written: the user must exist and must not
      already have the email (a user without an email counts as having "");
      then the bind mail is sent, which panics past signing while
      `emailBindTmpl` is nil. */
  method StartEmailBinding(db: Store, mailer: Mailer, templates: MailTemplates, uid: UID, email: string, now: Instant,
                           keyToURL: string -> string, getErr: Option<Error>, outcome: MailOutcome)
    returns (r: Outcome<Option<SError>>)
    requires templates.Valid()
    modifies mailer, templates
    ensures templates.Valid()
    ensures templates.bindTmpl == old(templates.bindTmpl) && templates.activateOnce == old(templates.activateOnce)
    ensures templates.activateTmpl == old(templates.activateTmpl) ||
            (!old(templates.bindOnce) && templates.activateTmpl == Some(BindTemplate))
    ensures getErr.Some? ==> r == Returned(Some(DbFailure(getErr.value, "get user by fail"))) && unchanged(templates)
    ensures getErr.None? && (forall i :: 0 <= i < |db.users.rows| ==> db.users.rows[i].uid != uid) ==>
      r == Returned(Some(New(CodeInvalidParam, "no user found"))) && unchanged(templates)
    ensures getErr.None? && db.users.GetByUID(uid, keyToURL, None).value.Some? ==>
      var u := db.users.GetByUID(uid, keyToURL, None).value.value;
      (u.email.GetOr("") == email ==>
         r == Returned(Some(New(CodeInvalidParam, "same email with the email already bond"))) && unchanged(templates)) &&
      (u.email.GetOr("") != email && outcome.SignFailed? ==>
         r == Returned(Some(Wrap(CodeInternalUnknownError, Some(outcome.e), "sign bind code fail")))) &&
      (u.email.GetOr("") != email && !outcome.SignFailed? && old(templates.bindTmpl).None? ==> r == Panicked) &&
      (u.email.GetOr("") != email && !outcome.SignFailed? && old(templates.bindTmpl).Some? ==>
         r == Returned(MailError(outcome, old(templates.bindTmpl) == Some(BindTemplate),
                                 "sign bind code fail", "fill email bind template fail")))
    ensures r == Returned(None) ==> mailer.outbox == old(mailer.outbox) + [Mail(BindMail, email, BindCode(uid, email, now))]
    ensures r != Returned(None) ==> mailer.outbox == old(mailer.outbox)
  {
    var user := db.users.GetByUID(uid, keyToURL, getErr);
    if user.Failure? {
      return Returned(Some(user.error));
    }
    if user.value.None? {
      return Returned(Some(New(CodeInvalidParam, "no user found")));
    }
    if user.value.value.email.GetOr("") == email {
      return Returned(Some(New(CodeInvalidParam, "same email with the email already bond")));
    }
    r := SendEmailBindEmail(mailer, templates, email, uid, now, outcome);
  }

  /** `StartEmailBinding` as evidently intended: the same checks, then a
      bind mail that goes out exactly when signing and SMTP succeed. */
  method StartEmailBindingIntended(db: Store, mailer: Mailer, templates: MailTemplates, uid: UID, email: string,
                                   now: Instant, keyToURL: string -> string, getErr: Option<Error>, outcome: MailOutcome)
    returns (err: Option<SError>)
    requires templates.IntendedValid()
    modifies mailer, templates
    ensures templates.IntendedValid()
    ensures templates.activateOnce == old(templates.activateOnce) && templates.activateTmpl == old(templates.activateTmpl)
    ensures getErr.Some? ==> err == Some(DbFailure(getErr.value, "get user by fail"))
    ensures getErr.None? && (forall i :: 0 <= i < |db.users.rows| ==> db.users.rows[i].uid != uid) ==>
      err == Some(New(CodeInvalidParam, "no user found"))
    ensures getErr.None? && db.users.GetByUID(uid, keyToURL, None).value.Some? ==>
      var u := db.users.GetByUID(uid, keyToURL, None).value.value;
      (u.email.GetOr("") == email ==> err == Some(New(CodeInvalidParam, "same email with the email already bond"))) &&
      (u.email.GetOr("") != email ==> err == MailError(outcome, true, "sign bind code fail", "fill email bind template fail"))
    ensures err.None? ==> mailer.outbox == old(mailer.outbox) + [Mail(BindMail, email, BindCode(uid, email, now))]
    ensures err.Some? ==> mailer.outbox == old(mailer.outbox)
  {
    var user := db.users.GetByUID(uid, keyToURL, getErr);
    if user.Failure? {
      return Some(user.error);
    }
    if user.value.None? {
      return Some(New(CodeInvalidParam, "no user found"));
    }
    if user.value.value.email.GetOr("") == email {
      return Some(New(CodeInvalidParam, "same email with the email already bond"));
    }
    err := SendEmailBindEmailIntended(mailer, templates, email, uid, now, outcome);
  }

  // -------------------------------------------------------- ConfirmBindEmail

  /** `ConfirmBindEmail`: the bind code's subject becomes the email of the
      users with the code's uid. An empty subject writes nothing. */
  method ConfirmBindEmail(db: Store, code: Result<Claims, Error>, dbErr: Option<Error>) returns (err: Option<SError>)
    requires db.users.Valid()
    modifies db.users
    ensures db.users.Valid() && db.users.nextID == old(db.users.nextID)
    ensures code.Failure? ==> err == Some(Wrap(CodeUserNoPermission, Some(code.error), "invalid activate code"))
    ensures code.Success? && code.value.subject == "" ==> err.None?
    ensures code.Success? && code.value.subject != "" && dbErr.Some? ==> err == Some(DbFailure(dbErr.value, "update user fail"))
    ensures code.Success? && code.value.subject != "" && dbErr.None? ==> err.None?
    ensures err.Some? || code.value.subject == "" ==> db.users.rows == old(db.users.rows)
    ensures err.None? && code.value.subject != "" ==>
      db.users.rows == UpdateWhere(old(db.users.rows), WithUID(code.value.id), PatchWith(UpdatableFields("", code.value.subject, null, "")))
    ensures err.None? ==> forall i :: 0 <= i < |db.users.rows| && db.users.rows[i].uid == code.value.id && code.value.subject != "" ==>
      db.users.rows[i].email == Some(code.value.subject)
  {
    if code.Failure? {
      return Some(Wrap(CodeUserNoPermission, Some(code.error), "invalid activate code"));
    }
    err := db.users.UpdateUser(code.value.id, UpdatableFields("", code.value.subject, null, ""), dbErr);
  }

  // ------------------------------------------------------ UpdateUserBaseInfo

  /** `PortraitSizeLimit`: 10 MiB. */
  const PortraitSizeLimit := 10 * 1024 * 1024

  /** An uploaded portrait: its declared size, whether opening it fails,
      and what reading it yields. */
  datatype Upload = Upload(size: int, openErr: Option<Error>, read: Result<seq<byte>, Error>)

  /** The object key of a user's portrait, `portrait/<uid>.<format>`. */
  function PortraitKey(uid: UID, format: string): string
  {
    "portrait/" + uid + "." + format
  }

  /** The portrait passes every check: not above the limit, opened, read,
      and in a format the sniffer recognises. */
  predicate PortraitAccepted(p: Option<Upload>, imageFormat: seq<byte> -> string)
  {
    p.None? ||
    (p.value.size <= PortraitSizeLimit && p.value.openErr.None? && p.value.read.Success? &&
     imageFormat(p.value.read.value) != ImgFormatUnknown)
  }

  /** The bytes to store, and the key they are stored under ("" when no
      portrait was given). */
  function PortraitData(p: Option<Upload>): seq<byte>
  {
    if p.Some? && p.value.read.Success? then p.value.read.value else []
  }

  function PortraitKeyOf(uid: UID, p: Option<Upload>, imageFormat: seq<byte> -> string): string
  {
    if p.Some? && p.value.read.Success? then PortraitKey(uid, imageFormat(p.value.read.value)) else ""
  }

  /** The user `UpdateUserBaseInfo` returns: the user it read, with the new
      name and the new portrait key and URL where they were given. */
  function BaseInfoUpdated(u: User, name: string, key: string, keyToURL: string -> string): User
  {
    var named := if name != "" then u.(name := Some(name)) else u;
    if key != "" then named.(portrait := Some(key), portraitURL := keyToURL(key)) else named
  }

  /** The returned user is the stored row as a fresh read would show it. */
  lemma ReturnedUserIsStored(row: User, name: string, key: string, keyToURL: string -> string)
    ensures WithPortraitURL(Patch(row, UpdatableFields(name, "", null, key)), keyToURL) ==
            BaseInfoUpdated(WithPortraitURL(row, keyToURL), name, key, keyToURL)
  {
  }

  /** A patch without fields leaves every row as it is. */
  lemma PatchNothing(rows: seq<User>, uid: UID, f: UpdatableFields)
    requires NoFields(f)
    ensures UpdateWhere(rows, WithUID(uid), PatchWith(f)) == rows
  {
    var r := UpdateWhere(rows, WithUID(uid), PatchWith(f));
    assert forall i :: 0 <= i < |rows| ==> r[i] == rows[i];
  }

  /** What `UpdateUserBaseInfo` prepares before its transaction: the
      columns to set, the user to return and the portrait bytes to store. */
  datatype BaseInfoChange = BaseInfoChange(updates: UpdatableFields, user: User, data: seq<byte>)

  /** The checks and the bookkeeping of `UpdateUserBaseInfo` on the user it
      read: the name is taken when given; a portrait must not be above the
      size limit, must open, must read and must be in a known format, in
      this order, and then it is stored under `portrait/<uid>.<format>`. */
  method PrepareBaseInfo(user: User, uid: UID, name: string, portrait: Option<Upload>,
                         imageFormat: seq<byte> -> string, keyToURL: string -> string)
    returns (r: Result<BaseInfoChange, SError>)
    ensures portrait.Some? ==>
      var p := portrait.value;
      (p.size > PortraitSizeLimit ==> r == Failure(New(CodeInvalidParam, "file size beyond limit"))) &&
      (p.size <= PortraitSizeLimit && p.openErr.Some? ==>
         r == Failure(Wrap(CodeInternalUnknownError, p.openErr, "open portrait file fail"))) &&
      (p.size <= PortraitSizeLimit && p.openErr.None? && p.read.Failure? ==>
         r == Failure(Wrap(CodeInternalUnknownError, Some(p.read.error), "read portrait data fail"))) &&
      (p.size <= PortraitSizeLimit && p.openErr.None? && p.read.Success? && imageFormat(p.read.value) == ImgFormatUnknown ==>
         r == Failure(Wrap(CodeInvalidParam, None, "unsupported image format type")))
    ensures r.Success? <==> PortraitAccepted(portrait, imageFormat)
    ensures r.Success? ==>
      var key := PortraitKeyOf(uid, portrait, imageFormat);
      r.value == BaseInfoChange(UpdatableFields(name, "", null, key), BaseInfoUpdated(user, name, key, keyToURL),
                                PortraitData(portrait))
  {
    var updates := UpdatableFields("", "", null, "");
    var u := user;
    if name != "" {
      updates := updates.(name := name);
      u := u.(name := Some(name));
    }
    var portraitData: seq<byte> := [];
    if portrait.Some? {
      var upload := portrait.value;
      if upload.size > PortraitSizeLimit {
        return Failure(New(CodeInvalidParam, "file size beyond limit"));
      }
      if upload.openErr.Some? {
        return Failure(Wrap(CodeInternalUnknownError, upload.openErr, "open portrait file fail"));
      }
      if upload.read.Failure? {
        return Failure(Wrap(CodeInternalUnknownError, Some(upload.read.error), "read portrait data fail"));
      }
      portraitData := upload.read.value;
      var format := imageFormat(portraitData);
      if format == ImgFormatUnknown {
        return Failure(Wrap(CodeInvalidParam, None, "unsupported image format type"));
      }
      updates := updates.(portrait := PortraitKey(uid, format));
      u := u.(portrait := Some(updates.portrait), portraitURL := keyToURL(updates.portrait));
    }
    return Success(BaseInfoChange(updates, u, portraitData));
  }

  /** The transaction of `UpdateUserBaseInfo`: the row update, then, when
      there are portrait bytes, the upload; a failure of either undoes the
      row update. */
  method CommitBaseInfo(db: Store, objects: ObjectStore, uid: UID, updates: UpdatableFields, data: seq<byte>,
                        updateErr: Option<Error>, putErr: Option<Error>)
    returns (err: Option<SError>)
    requires db.Valid() && updates.password == null
    modifies db.Tables(), objects
    ensures db.Valid()
    ensures err.Some? ==> db.State() == old(db.State()) && objects.objects == old(objects.objects)
    ensures !NoFields(updates) && updateErr.Some? ==> err == Some(DbFailure(updateErr.value, "update user fail"))
    ensures (NoFields(updates) || updateErr.None?) && |data| > 0 && putErr.Some? ==>
      err == Some(Wrap(CodeInternalUnknownError, putErr, "put portrait data fail"))
    ensures err.None? <==> (NoFields(updates) || updateErr.None?) && (|data| == 0 || putErr.None?)
    ensures err.None? ==>
      db.State() == old(db.State()).(users := UpdateWhere(old(db.users.rows), WithUID(uid), PatchWith(updates))) &&
      objects.objects == if |data| > 0 then old(objects.objects)[updates.portrait := data] else old(objects.objects)
  {
    if NoFields(updates) {
      PatchNothing(db.users.rows, uid, updates);
    }
    var tx := db.Begin();
    ValidState(db);
    var opErr := db.users.UpdateUser(uid, updates, updateErr);
    if opErr.None? && |data| > 0 {
      var e := objects.PutObject(updates.portrait, data, putErr);
      if e.Some? {
        opErr := Some(Wrap(CodeInternalUnknownError, e, "put portrait data fail"));
      }
    }
    err := EndTx(db, tx, opErr);
  }

  /** `UpdateUserBaseInfo`: updates the name when one is given and the
      portrait when one is given and accepted; the portrait's bytes go to
      the object storage under `portrait/<uid>.<format>` in the same
      transaction as the row update. */
  method UpdateUserBaseInfo(db: Store, objects: ObjectStore, uid: UID, name: string, portrait: Option<Upload>,
                            imageFormat: seq<byte> -> string, keyToURL: string -> string,
                            getErr: Option<Error>, updateErr: Option<Error>, putErr: Option<Error>)
    returns (r: Result<User, SError>)
    requires db.Valid()
    modifies db.Tables(), objects
    ensures db.Valid()
    ensures r.Failure? ==> db.State() == old(db.State()) && objects.objects == old(objects.objects)
    ensures getErr.Some? ==> r == Failure(DbFailure(getErr.value, "get user by fail"))
    ensures getErr.None? && (forall i :: 0 <= i < |old(db.users.rows)| ==> old(db.users.rows)[i].uid != uid) ==>
      r == Failure(New(CodeInvalidParam, "invalid uid, no user found"))
    ensures getErr.None? && (exists i :: 0 <= i < |old(db.users.rows)| && old(db.users.rows)[i].uid == uid) &&
            !PortraitAccepted(portrait, imageFormat) ==>
      r.Failure? && r.error.code in {CodeInvalidParam, CodeInternalUnknownError}
    ensures getErr.None? && (exists i :: 0 <= i < |old(db.users.rows)| && old(db.users.rows)[i].uid == uid) &&
            PortraitAccepted(portrait, imageFormat) && (name != "" || portrait.Some?) && updateErr.Some? ==>
      r == Failure(DbFailure(updateErr.value, "update user fail"))
    ensures r.Success? <==>
      getErr.None? && (exists i :: 0 <= i < |old(db.users.rows)| && old(db.users.rows)[i].uid == uid) &&
      PortraitAccepted(portrait, imageFormat) &&
      ((name == "" && portrait.None?) || updateErr.None?) &&
      (|PortraitData(portrait)| == 0 || putErr.None?)
    ensures r.Success? ==>
      var key := PortraitKeyOf(uid, portrait, imageFormat);
      var data := PortraitData(portrait);
      r.value == BaseInfoUpdated(old(db.users.GetByUID(uid, keyToURL, None)).value.value, name, key, keyToURL) &&
      db.State() == old(db.State()).(users := UpdateWhere(old(db.users.rows), WithUID(uid), PatchWith(UpdatableFields(name, "", null, key)))) &&
      objects.objects == if |data| > 0 then old(objects.objects)[key := data] else old(objects.objects)
  {
    var found := db.users.GetByUID(uid, keyToURL, getErr);
    if found.Failure? {
      return Failure(found.error);
    }
    if found.value.None? {
      return Failure(New(CodeInvalidParam, "invalid uid, no user found"));
    }
    var change := PrepareBaseInfo(found.value.value, uid, name, portrait, imageFormat, keyToURL);
    if change.Failure? {
      return Failure(change.error);
    }
    var err := CommitBaseInfo(db, objects, uid, change.value.updates, change.value.data, updateErr, putErr);
    if err.Some? {
      return Failure(err.value);
    }
    return Success(change.value.user);
  }
}
