/** The admin side of authentication (Admin/authControllers.js over the
    schema of Admin/authModel.js): login with a normalised email, the
    plain-text OTP forgot/reset flow, and the user listing. The admin schema
    has no setters and no save hook, so stored emails are whatever was
    inserted and a reset password is hashed by the controller alone. */
module AdminAuth {
  import opened Wrappers
  import opened Js
  import opened ResetCode
  import opened UserModel
  import opened UserController

  /** Fifteen minutes, in milliseconds. */
  const OtpWindow: int := 15 * 60 * 1000

  /** A stored admin. An unset OTP field is `None`. */
  datatype Admin = Admin(
    id: string, name: string, email: string, password: string, role: string,
    resetOTP: Option<string>, resetOTPExpiry: Option<int>)

  /** `Admin.findOne({ email })`: the first admin, in natural order, whose
      stored email is exactly the query. */
  function FindAdminEmail(admins: seq<Admin>, email: string): (k: Option<nat>)
    ensures k.None? <==> forall i :: 0 <= i < |admins| ==> admins[i].email != email
    ensures k.Some? ==> k.value < |admins| && admins[k.value].email == email
                        && forall i :: 0 <= i < k.value ==> admins[i].email != email
  {
    var emails := seq(|admins|, i requires 0 <= i < |admins| => admins[i].email);
    assert forall i :: 0 <= i < |admins| ==> emails[i] == admins[i].email;
    FirstIndexOf(emails, email)
  }

  /** `Admin.findOne({ resetOTP: otp })`: the first admin holding the code,
      whatever its expiry. */
  function FindAdminOtp(admins: seq<Admin>, otp: string): (k: Option<nat>)
    ensures k.None? <==> forall i :: 0 <= i < |admins| ==> admins[i].resetOTP != Some(otp)
    ensures k.Some? ==> k.value < |admins| && admins[k.value].resetOTP == Some(otp)
                        && forall i :: 0 <= i < k.value ==> admins[i].resetOTP != Some(otp)
  {
    var codes := seq(|admins|, i requires 0 <= i < |admins| => admins[i].resetOTP);
    assert forall i :: 0 <= i < |admins| ==> codes[i] == admins[i].resetOTP;
    FirstIndexOf(codes, Some(otp))
  }

  // ------------------------------------------------------------ login

  /** The `admin` object of a successful login. */
  datatype AdminView = AdminView(id: string, name: string, email: string, role: string)

  function ViewOf(a: Admin): (v: AdminView)
    ensures v.id == a.id && v.name == a.name && v.email == a.email && v.role == a.role
  {
    AdminView(a.id, a.name, a.email, a.role)
  }

  /** `loginAdmin`: 400 when the email or the password is empty; the lookup
      uses the email lowercased and trimmed; no such admin, or a password
      that does not match the stored one, is 401; otherwise the admin's id,
      name, email and role. `compare` is bcrypt's comparison of a plain
      password with a stored hash. */
  function LoginAdmin(admins: seq<Admin>, email: string, password: string,
                      compare: (string, string) -> bool): (r: Result<AdminView>)
    ensures r == Err(BadRequest) <==> email == "" || password == ""
    ensures r == Err(Unauthorized) <==>
              email != "" && password != ""
              && var k := FindAdminEmail(admins, LowerTrim(email));
                 k.None? || !compare(password, admins[k.value].password)
    ensures r.Err? ==> r.error == BadRequest || r.error == Unauthorized
    ensures r.Ok? ==> var k := FindAdminEmail(admins, LowerTrim(email));
                      k.Some? && compare(password, admins[k.value].password)
                      && r.value == ViewOf(admins[k.value])
  {
    if email == "" || password == "" then Err(BadRequest)
    else
      match FindAdminEmail(admins, LowerTrim(email))
      case None => Err(Unauthorized)
      case Some(k) =>
        if !compare(password, admins[k].password) then Err(Unauthorized)
        else Ok(ViewOf(admins[k]))
  }

  /** Login does not see the case or the surrounding spaces of the email it
      is given. */
  lemma LoginIgnoresCaseAndSpaces(admins: seq<Admin>, e1: string, e2: string, password: string,
                                  compare: (string, string) -> bool)
    requires e1 != "" && e2 != "" && LowerTrim(e1) == LowerTrim(e2)
    ensures LoginAdmin(admins, e1, password, compare) == LoginAdmin(admins, e2, password, compare)
  {
  }

  /** Login normalises its query but the schema does not normalise what it
      stores, while `adminForgotPassword` looks the email up as given: an
      admin stored with an email that is not lowercased and trimmed is
      found by the forgot-password flow under that very email, and login
      with it answers 401 whatever the password. */
  lemma UnnormalisedAdminCannotLogIn(a: Admin, password: string, compare: (string, string) -> bool)
    requires a.email != "" && password != "" && LowerTrim(a.email) != a.email
    ensures FindAdminEmail([a], a.email) == Some(0)
    ensures LoginAdmin([a], a.email, password, compare) == Err(Unauthorized)
  {
    assert FindAdminEmail([a], LowerTrim(a.email)).None? by {
      assert [a][0].email != LowerTrim(a.email);
    }
  }

  // ------------------------------------------------------------ documents

  /** An admin document loaded into memory. */
  class AdminDocument {
    const index: nat
    var admin: Admin

    constructor (index: nat, a: Admin)
      ensures this.index == index && admin == a
    {
      this.index := index;
      admin := a;
    }
  }

  /** The `Admin` collection in natural order. */
  class AdminCollection {
    var admins: seq<Admin>

    /** The unique index on `email`. */
    ghost predicate Valid()
      reads this
    {
      forall i, j :: 0 <= i < j < |admins| ==> admins[i].email != admins[j].email
    }

    constructor ()
      ensures Valid() && admins == []
    {
      admins := [];
    }

    method FindOneByEmail(email: string) returns (doc: AdminDocument?)
      ensures doc == null <==> FindAdminEmail(admins, email).None?
      ensures doc != null ==> fresh(doc) && doc.index == FindAdminEmail(admins, email).value
                              && doc.admin == admins[doc.index]
    {
      var k := FindAdminEmail(admins, email);
      if k.None? {
        return null;
      }
      doc := new AdminDocument(k.value, admins[k.value]);
    }

    method FindOneByOtp(otp: string) returns (doc: AdminDocument?)
      ensures doc == null <==> FindAdminOtp(admins, otp).None?
      ensures doc != null ==> fresh(doc) && doc.index == FindAdminOtp(admins, otp).value
                              && doc.admin == admins[doc.index]
    {
      var k := FindAdminOtp(admins, otp);
      if k.None? {
        return null;
      }
      doc := new AdminDocument(k.value, admins[k.value]);
    }

    /** `admin.save()` on a loaded document whose email is unchanged: the
        schema validates nothing and has no hook, so the write always
        happens. */
    method Save(doc: AdminDocument)
      requires Valid() && doc.index < |admins| && doc.admin.email == admins[doc.index].email
      modifies this
      ensures Valid()
      ensures admins == old(admins)[doc.index := doc.admin]
    {
      var prev := admins;
      admins := admins[doc.index := doc.admin];
      assert forall i :: 0 <= i < |admins| ==> admins[i].email == prev[i].email;
    }
  }

  // ------------------------------------------------------------ forgot / reset

  /** The admin after `adminForgotPassword` stored a code and its expiry. */
  function WithOtp(a: Admin, otp: string, expiry: int): (b: Admin)
    ensures b.id == a.id && b.name == a.name && b.email == a.email
    ensures b.password == a.password && b.role == a.role
    ensures b.resetOTP == Some(otp) && b.resetOTPExpiry == Some(expiry)
  {
    a.(resetOTP := Some(otp), resetOTPExpiry := Some(expiry))
  }

  const AdminOtpSubject: string := "Moon Shade Admin Password Reset OTP"

  /** The reset mail as `adminForgotPassword` asks for it: the code and the
      role go in fields `sendEmail` does not read, and there is no html, so
      `sendEmail` throws whatever the transport would do. */
  lemma AdminOtpMailRefused(email: string, delivered: bool)
    ensures !MailSent(email, AdminOtpSubject, "", delivered)
  {
  }

  /** With an html body, such as the user flow's, the admin mail to a stored
      admin would go out exactly when the transport delivers it. */
  lemma AdminOtpMailWithHtml(email: string, otp: string, delivered: bool)
    requires email != ""
    ensures MailSent(email, AdminOtpSubject, OtpMailHtml(otp), delivered) <==> delivered
  {
  }

  /** `adminForgotPassword`: 400 without an email, 404 when no admin has
      exactly that email; otherwise a fresh 6-digit code is stored in plain
      text with an expiry fifteen minutes ahead, and then `sendEmail`,
      called without html, throws: the answer is 500, with the code already
      stored, whatever the transport would do. */
  method AdminForgotPassword(coll: AdminCollection, email: string, draw: nat, now: int, delivered: bool)
    returns (r: Result<()>)
    requires coll.Valid() && draw < 900000
    modifies coll
    ensures coll.Valid()
    ensures r == Err(BadRequest) <==> email == ""
    ensures r == Err(NotFound) <==> email != "" && FindAdminEmail(old(coll.admins), email).None?
    ensures email == "" || FindAdminEmail(old(coll.admins), email).None? ==> coll.admins == old(coll.admins)
    ensures email != "" && FindAdminEmail(old(coll.admins), email).Some? ==>
              var k := FindAdminEmail(old(coll.admins), email).value;
              coll.admins == old(coll.admins)[k := WithOtp(old(coll.admins)[k], Otp(draw), now + OtpWindow)]
              && r == Err(ServerError)
  {
    if email == "" {
      return Err(BadRequest);
    }
    var doc := coll.FindOneByEmail(email);
    if doc == null {
      return Err(NotFound);
    }
    doc.admin := doc.admin.(resetOTP := Some(Otp(draw)), resetOTPExpiry := Some(now + OtpWindow));
    coll.Save(doc);
    var sent := MailSent(doc.admin.email, AdminOtpSubject, "", delivered);
    return if sent then Ok(()) else Err(ServerError);
  }

  /** `!admin.resetOTPExpiry || admin.resetOTPExpiry < Date.now()` is false:
      an expiry is set and has not passed, the expiry instant itself
      included. */
  predicate OtpUsable(a: Admin, now: int) {
    a.resetOTPExpiry.Some? && a.resetOTPExpiry.value >= now
  }

  /** The admin after a successful reset: the controller's own hash of the
      new password (the schema has no hook) and both OTP fields cleared. */
  function AfterAdminReset(a: Admin, newPassword: string, hash: string -> string): (b: Admin)
    ensures b.id == a.id && b.name == a.name && b.email == a.email && b.role == a.role
    ensures b.password == hash(newPassword)
    ensures b.resetOTP.None? && b.resetOTPExpiry.None?
  {
    a.(password := hash(newPassword), resetOTP := None, resetOTPExpiry := None)
  }

  /** `adminResetPassword`: missing fields, then differing passwords, give
      400 before any lookup; no admin holding the code is 404; the first
      admin holding it with an expiry that is absent or past gives 400;
      otherwise that admin is reset. */
  method AdminResetPassword(coll: AdminCollection, otp: string, newPassword: string, confirmPassword: string,
                            now: int, hash: string -> string)
    returns (r: Result<()>)
    requires coll.Valid()
    modifies coll
    ensures coll.Valid()
    ensures r == Err(NotFound) <==>
              !ResetFieldsBad(otp, newPassword, confirmPassword) && FindAdminOtp(old(coll.admins), otp).None?
    ensures r == Err(BadRequest) <==>
              ResetFieldsBad(otp, newPassword, confirmPassword)
              || (FindAdminOtp(old(coll.admins), otp).Some?
                  && !OtpUsable(old(coll.admins)[FindAdminOtp(old(coll.admins), otp).value], now))
    ensures r.Err? ==> (r.error == BadRequest || r.error == NotFound) && coll.admins == old(coll.admins)
    ensures r.Ok? ==>
              var k := FindAdminOtp(old(coll.admins), otp).value;
              coll.admins == old(coll.admins)[k := AfterAdminReset(old(coll.admins)[k], newPassword, hash)]
  {
    if otp == "" || newPassword == "" || confirmPassword == "" {
      return Err(BadRequest);
    }
    if newPassword != confirmPassword {
      return Err(BadRequest);
    }
    var doc := coll.FindOneByOtp(otp);
    if doc == null {
      return Err(NotFound);
    }
    if doc.admin.resetOTPExpiry.None? || doc.admin.resetOTPExpiry.value < now {
      return Err(BadRequest);
    }
    doc.admin := doc.admin.(password := hash(newPassword), resetOTP := None, resetOTPExpiry := None);
    coll.Save(doc);
    return Ok(());
  }

  /** A stored code is usable up to and including its expiry instant, unlike
      the user flow, whose token lapses at its expiry. */
  lemma OtpWindowInclusive(a: Admin, otp: string, expiry: int, t: int)
    ensures OtpUsable(WithOtp(a, otp, expiry), t) <==> t <= expiry
  {
  }

  /** The code `adminForgotPassword` stores for admin `k` finds that admin
      and is usable for the whole fifteen minutes, provided no other admin
      holds the same code. */
  lemma {:induction false} AdminForgotThenReset(admins: seq<Admin>, k: nat, draw: nat, now: int, t: int)
    requires k < |admins| && draw < 900000 && now <= t <= now + OtpWindow
    requires forall i :: 0 <= i < |admins| && i != k ==> admins[i].resetOTP != Some(Otp(draw))
    ensures var after := admins[k := WithOtp(admins[k], Otp(draw), now + OtpWindow)];
            FindAdminOtp(after, Otp(draw)) == Some(k) && OtpUsable(after[k], t)
  {
    var after := admins[k := WithOtp(admins[k], Otp(draw), now + OtpWindow)];
    assert after[k].resetOTP == Some(Otp(draw));
  }

  /** After a reset, the code no longer finds anyone if the reset admin was
      its only holder: it cannot be used twice. */
  lemma {:induction false} AdminResetIsSingleUse(admins: seq<Admin>, k: nat, otp: string, newPassword: string,
                                                 hash: string -> string)
    requires k < |admins|
    requires forall i :: 0 <= i < |admins| && i != k ==> admins[i].resetOTP != Some(otp)
    ensures FindAdminOtp(admins[k := AfterAdminReset(admins[k], newPassword, hash)], otp).None?
  {
    var after := admins[k := AfterAdminReset(admins[k], newPassword, hash)];
    forall i | 0 <= i < |after| ensures after[i].resetOTP != Some(otp) {
      if i != k {
        assert after[i] == admins[i];
      }
    }
  }

  // ------------------------------------------------------------ user listing

  /** One entry of `getAllUsers`. */
  datatype UserSummary = UserSummary(id: string, name: string, email: string)

  /** `getAllUsers`: every user, in natural order, as its id, name and email. */
  function GetAllUsers(users: seq<User>): (r: seq<UserSummary>)
    ensures |r| == |users|
    ensures forall i :: 0 <= i < |users| ==>
              r[i].id == users[i].id && r[i].name == users[i].name && r[i].email == users[i].email
  {
    seq(|users|, i requires 0 <= i < |users| => UserSummary(users[i].id, users[i].name, users[i].email))
  }

  /** The listing shows of each user exactly what the user's own toJSON
      exposes under those keys. */
  lemma ListingAgreesWithJson(users: seq<User>, i: nat)
    requires i < |users|
    ensures var j := ToJson(UserFields(users[i]));
            var s := GetAllUsers(users)[i];
            j["_id"] == Str(s.id) && j["name"] == Str(s.name) && j["email"] == Str(s.email)
  {
    UserJsonScrubbed(users[i]);
  }
}
